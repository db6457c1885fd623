/** The agent-location map (`update_agent_locations`): which blocks hold
    one agent, which hold several, and the marker painted on each block. */
module Locations {
  import opened Base
  import opened Lists

  /** `set(coords)` as a list: each block that appears in `coords`, once. */
  function Distinct(s: seq<Coord>): (r: seq<Coord>)
    ensures forall c :: multiset(r)[c] == if c in s then 1 else 0
    decreases |s|
  {
    if |s| == 0 then []
    else
      var init := s[..|s| - 1];
      var last := s[|s| - 1];
      assert s == init + [last];
      Distinct(init) + (if last in init then [] else [last])
  }

  /** The first loop: removing one occurrence of every distinct block from
      the list of agent blocks leaves each block as many times as it has
      agents beyond the first. The `remove` never raises. */
  method RedundantLocations(coords: seq<Coord>) returns (redundant: seq<Coord>)
    ensures forall c :: multiset(redundant)[c] == if c in coords then multiset(coords)[c] - 1 else 0
    ensures forall c :: c in redundant <==> multiset(coords)[c] >= 2
  {
    var setCoords := Distinct(coords);
    var rest := coords;
    var k := 0;
    while k < |setCoords|
      invariant 0 <= k <= |setCoords|
      invariant multiset(rest) + multiset(setCoords[..k]) == multiset(coords)
    {
      RedundantStep(setCoords, rest, coords, k);
      rest := RemoveFirst(rest, setCoords[k]);
      k := k + 1;
    }
    assert setCoords[..k] == setCoords;
    redundant := rest;
    RedundantCounts(setCoords, redundant, coords);
  }

  /** One iteration of the first loop: the next distinct block is still in
      the list, and removing it moves one occurrence to the removed ones. */
  lemma RedundantStep(setCoords: seq<Coord>, rest: seq<Coord>, coords: seq<Coord>, k: nat)
    requires k < |setCoords|
    requires forall c :: multiset(setCoords)[c] == if c in coords then 1 else 0
    requires multiset(rest) + multiset(setCoords[..k]) == multiset(coords)
    ensures setCoords[k] in rest
    ensures multiset(RemoveFirst(rest, setCoords[k])) + multiset(setCoords[..k + 1]) == multiset(coords)
  {
    var c := setCoords[k];
    var before := setCoords[..k];
    RemoveFirstMultiset(rest, c);
    assert setCoords == before + [c] + setCoords[k + 1..];
    assert multiset(setCoords) == multiset(before) + multiset{c} + multiset(setCoords[k + 1..]);
    assert multiset(setCoords)[c] == multiset(before)[c] + 1 + multiset(setCoords[k + 1..])[c];
    assert c in coords && multiset(before)[c] == 0;
    assert multiset(rest)[c] == multiset(coords)[c] > 0;
    assert setCoords[..k + 1] == before + [c];
  }

  /** After the first loop: what is left counts each block once less. */
  lemma RedundantCounts(setCoords: seq<Coord>, redundant: seq<Coord>, coords: seq<Coord>)
    requires forall c :: multiset(setCoords)[c] == if c in coords then 1 else 0
    requires multiset(redundant) + multiset(setCoords) == multiset(coords)
    ensures forall c :: multiset(redundant)[c] == if c in coords then multiset(coords)[c] - 1 else 0
    ensures forall c :: c in redundant <==> multiset(coords)[c] >= 2
  {
    forall c ensures multiset(redundant)[c] == if c in coords then multiset(coords)[c] - 1 else 0 {
      assert multiset(redundant)[c] + multiset(setCoords)[c] == multiset(coords)[c];
    }
  }

  /** What the second loop keeps: each block of `coords` once, except the
      blocks already removed. */
  ghost predicate KeptOnce(single: seq<Coord>, coords: seq<Coord>, removed: seq<Coord>)
  {
    forall c :: multiset(single)[c] == if c in coords && c !in removed then 1 else 0
  }

  /** One iteration of the second loop: removing `c` from the kept list
      adds `c` to the removed ones. */
  lemma RemoveStep(single: seq<Coord>, coords: seq<Coord>, removed: seq<Coord>, c: Coord)
    requires KeptOnce(single, coords, removed)
    ensures KeptOnce(RemoveFirst(single, c), coords, removed + [c])
  {
    var next := RemoveFirst(single, c);
    RemoveFirstMultiset(single, c);
    forall x ensures multiset(next)[x] == if x in coords && x !in removed + [c] then 1 else 0 {
      assert x in removed + [c] <==> x in removed || x == c;
    }
  }

  /** Canonical engine: the second loop removes each redundant block from the
      distinct list, ignoring a failed removal (`try ... except: pass`). What
      is left is exactly the blocks with a single agent, once each. */
  method SplitLocations(coords: seq<Coord>) returns (redundant: seq<Coord>, single: seq<Coord>)
    ensures forall c :: c in redundant <==> multiset(coords)[c] >= 2
    ensures forall c :: multiset(single)[c] == if multiset(coords)[c] == 1 then 1 else 0
  {
    redundant := RedundantLocations(coords);
    single := Distinct(coords);
    var k := 0;
    while k < |redundant|
      invariant 0 <= k <= |redundant|
      invariant KeptOnce(single, coords, redundant[..k])
    {
      assert redundant[..k + 1] == redundant[..k] + [redundant[k]];
      RemoveStep(single, coords, redundant[..k], redundant[k]);
      single := RemoveFirst(single, redundant[k]);
      k := k + 1;
    }
    assert redundant[..k] == redundant;
    SingleBlocks(single, coords, redundant);
  }

  /** Once every redundant block is removed, the kept blocks are those with
      one agent. */
  lemma SingleBlocks(single: seq<Coord>, coords: seq<Coord>, redundant: seq<Coord>)
    requires KeptOnce(single, coords, redundant)
    requires forall c :: c in redundant <==> multiset(coords)[c] >= 2
    ensures forall c :: multiset(single)[c] == if multiset(coords)[c] == 1 then 1 else 0
  {
    forall c ensures multiset(single)[c] == if multiset(coords)[c] == 1 then 1 else 0 {
      assert c in coords <==> multiset(coords)[c] >= 1;
    }
  }

  /** Draft engine: the same second loop without the `try`, so `remove`
      raises ValueError on the second attempt to remove a block. It
      completes exactly when no block holds three or more agents, and then
      yields what the canonical loop yields. */
  method SplitLocationsDraft(coords: seq<Coord>) returns (ok: bool, redundant: seq<Coord>, single: seq<Coord>)
    ensures forall c :: c in redundant <==> multiset(coords)[c] >= 2
    ensures ok <==> forall c :: multiset(coords)[c] <= 2
    ensures ok ==> forall c :: multiset(single)[c] == if multiset(coords)[c] == 1 then 1 else 0
  {
    redundant := RedundantLocations(coords);
    single := Distinct(coords);
    var k := 0;
    while k < |redundant|
      invariant 0 <= k <= |redundant|
      invariant KeptOnce(single, coords, redundant[..k])
      invariant AtMostOnce(redundant[..k])
    {
      var c := redundant[k];
      if c !in single {
        RepeatedRemoval(coords, redundant, single, k);
        ok := false;
        return;
      }
      OnceMore(redundant, single, coords, k);
      RemoveStep(single, coords, redundant[..k], c);
      single := RemoveFirst(single, c);
      k := k + 1;
    }
    assert redundant[..k] == redundant;
    ok := true;
    SingleBlocks(single, coords, redundant);
  }

  /** No block is listed twice. */
  ghost predicate AtMostOnce(s: seq<Coord>)
  {
    forall c :: multiset(s)[c] <= 1
  }

  /** A redundant block already removed from the kept list comes up a
      second time: its block holds at least three agents. */
  lemma RepeatedRemoval(coords: seq<Coord>, redundant: seq<Coord>, single: seq<Coord>, k: nat)
    requires k < |redundant|
    requires forall c :: multiset(redundant)[c] == if c in coords then multiset(coords)[c] - 1 else 0
    requires forall c :: c in redundant <==> multiset(coords)[c] >= 2
    requires KeptOnce(single, coords, redundant[..k])
    requires redundant[k] !in single
    ensures exists c :: multiset(coords)[c] > 2
  {
    var c := redundant[k];
    assert multiset(single)[c] == 0;
    assert c in redundant[..k];
    var i :| 0 <= i < k && redundant[..k][i] == c;
    CountAtLeastTwo(redundant, c);
    assert redundant[i] == c;
    assert multiset(coords)[c] >= 3;
  }

  /** A redundant block still kept has not been removed before, so the
      removed list holds each block at most once after it too. */
  lemma OnceMore(redundant: seq<Coord>, single: seq<Coord>, coords: seq<Coord>, k: nat)
    requires k < |redundant|
    requires KeptOnce(single, coords, redundant[..k])
    requires AtMostOnce(redundant[..k])
    requires redundant[k] in single
    ensures redundant[..k + 1] == redundant[..k] + [redundant[k]]
    ensures AtMostOnce(redundant[..k + 1])
  {
    var c := redundant[k];
    assert redundant[..k + 1] == redundant[..k] + [c];
    assert multiset(single)[c] >= 1;
    assert c !in redundant[..k];
  }

  /** The blocks of the agents, in agent order (the values of
      `agent_coords`). */
  function Locs(ps: seq<Presence>): (r: seq<Coord>)
    ensures |r| == |ps| && forall k :: 0 <= k < |ps| ==> r[k] == ps[k].loc
  {
    seq(|ps|, k requires 0 <= k < |ps| => ps[k].loc)
  }

  /** Number of agents on block `c`. */
  function Occupancy(ps: seq<Presence>, c: Coord): nat
  {
    multiset(Locs(ps))[c]
  }

  predicate FastFoodAt(ps: seq<Presence>, c: Coord)
  {
    exists k :: 0 <= k < |ps| && ps[k].loc == c && ps[k].kind == FastFood
  }

  /** The value painted on block `c`: 0 for an empty block, -0.5 for a block
      with several agents, -1 for a lone fast-food agent, 1 for a lone
      grocery store. */
  function Marker(ps: seq<Presence>, c: Coord): real
  {
    var k := Occupancy(ps, c);
    if k == 0 then 0.0
    else if k >= 2 then -0.5
    else if FastFoodAt(ps, c) then -1.0
    else 1.0
  }

  /** Two different agents on one block make its count at least two, and
      conversely. */
  lemma TwoPositionsCount(s: seq<Coord>, c: Coord, i: nat, j: nat)
    requires i < j < |s| && s[i] == c && s[j] == c
    ensures multiset(s)[c] >= 2
  {
    var a, b, d := s[..i], s[i + 1..j], s[j + 1..];
    assert s == a + [c] + b + [c] + d;
    assert multiset(s) == multiset(a) + multiset{c} + multiset(b) + multiset{c} + multiset(d);
  }

  lemma {:induction false} CountTwoPositions(s: seq<Coord>, c: Coord)
    requires multiset(s)[c] >= 2
    ensures exists i, j :: 0 <= i < j < |s| && s[i] == c && s[j] == c
    decreases |s|
  {
    var init := s[..|s| - 1];
    var last := s[|s| - 1];
    assert s == init + [last];
    if last == c {
      assert c in init;
      var i :| 0 <= i < |init| && init[i] == c;
      assert s[i] == c && s[|s| - 1] == c;
    } else {
      CountTwoPositions(init, c);
      var i, j :| 0 <= i < j < |init| && init[i] == c && init[j] == c;
      assert s[i] == c && s[j] == c;
    }
  }

  /** A block's count is at least two exactly when two different positions
      of the list name it. */
  lemma CountAtLeastTwo(s: seq<Coord>, c: Coord)
    ensures multiset(s)[c] >= 2 <==> exists i, j :: 0 <= i < j < |s| && s[i] == c && s[j] == c
  {
    if exists i, j :: 0 <= i < j < |s| && s[i] == c && s[j] == c {
      var i, j :| 0 <= i < j < |s| && s[i] == c && s[j] == c;
      TwoPositionsCount(s, c, i, j);
    }
    if multiset(s)[c] >= 2 {
      CountTwoPositions(s, c);
    }
  }

  /** Two different positions on one block give it at least two agents. */
  lemma SharedBlock(ps: seq<Presence>, k: nat, m: nat)
    requires k < |ps| && m < |ps| && k != m && ps[k].loc == ps[m].loc
    ensures Occupancy(ps, ps[k].loc) >= 2
  {
    var s := Locs(ps);
    CountAtLeastTwo(s, ps[k].loc);
    if m < k { assert s[m] == s[k]; } else { assert s[k] == s[m]; }
  }

  /** The marker read as a statement about the agents on the block, both
      ways: 0 exactly when no agent is there, -0.5 exactly when two distinct
      agents share it, and -1 / 1 exactly when one agent is there, of the
      fast-food / grocery kind. */
  lemma MarkerMeaning(ps: seq<Presence>, c: Coord)
    ensures Marker(ps, c) == 0.0 <==> forall k :: 0 <= k < |ps| ==> ps[k].loc != c
    ensures Marker(ps, c) == -0.5 <==>
      exists i, j :: 0 <= i < j < |ps| && ps[i].loc == c && ps[j].loc == c
    ensures Marker(ps, c) == -1.0 <==>
      exists k :: 0 <= k < |ps| && ps[k].loc == c && ps[k].kind == FastFood &&
        forall m :: 0 <= m < |ps| && m != k ==> ps[m].loc != c
    ensures Marker(ps, c) == 1.0 <==>
      exists k :: 0 <= k < |ps| && ps[k].loc == c && ps[k].kind == Grocery &&
        forall m :: 0 <= m < |ps| && m != k ==> ps[m].loc != c
  {
    var s := Locs(ps);
    CountAtLeastTwo(s, c);
    forall i, j | 0 <= i < j < |ps| && ps[i].loc == c && ps[j].loc == c
      ensures Occupancy(ps, c) >= 2
    {
      SharedBlock(ps, i, j);
    }
    forall k | 0 <= k < |ps| && ps[k].loc == c ensures Occupancy(ps, c) >= 1 {
      assert s[k] == c;
    }
    if Occupancy(ps, c) >= 1 {
      var k :| 0 <= k < |s| && s[k] == c;
      assert ps[k].loc == c;
      forall m | 0 <= m < |ps| && m != k && ps[m].loc == c ensures Occupancy(ps, c) >= 2 {
        SharedBlock(ps, k, m);
      }
      if ps[k].kind == FastFood {
        assert FastFoodAt(ps, c);
      } else {
        forall m | 0 <= m < |ps| && ps[m].loc == c && ps[m].kind == FastFood ensures Occupancy(ps, c) >= 2 {
          SharedBlock(ps, k, m);
        }
      }
    }
  }

  /** Whatever agent of a single-agent block is painted, the marker it
      paints is the block's marker: the painting loop's writes agree with
      `Marker` in any iteration order. */
  lemma LoneAgentMarker(ps: seq<Presence>, k: nat)
    requires k < |ps| && Occupancy(ps, ps[k].loc) == 1
    ensures Marker(ps, ps[k].loc) == if ps[k].kind == FastFood then -1.0 else 1.0
  {
    var c := ps[k].loc;
    forall m | 0 <= m < |ps| && m != k && ps[m].loc == c ensures Occupancy(ps, c) >= 2 {
      SharedBlock(ps, k, m);
    }
  }

  /** For any agent of the list, exactly one of the painting loop's two
      tests fires on its block, and the value it paints is the block's
      marker. */
  lemma PaintAgrees(ps: seq<Presence>, k: nat, redundant: seq<Coord>, single: seq<Coord>)
    requires k < |ps|
    requires forall c :: c in redundant <==> multiset(Locs(ps))[c] >= 2
    requires forall c :: multiset(single)[c] == if multiset(Locs(ps))[c] == 1 then 1 else 0
    ensures ps[k].loc in redundant <==> ps[k].loc !in single
    ensures ps[k].loc in redundant ==> Marker(ps, ps[k].loc) == -0.5
    ensures ps[k].loc in single ==> Marker(ps, ps[k].loc) == if ps[k].kind == FastFood then -1.0 else 1.0
  {
    var c := ps[k].loc;
    assert Locs(ps)[k] == c;
    assert Occupancy(ps, c) >= 1;
    if Occupancy(ps, c) == 1 {
      LoneAgentMarker(ps, k);
    }
  }
}
