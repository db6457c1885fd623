/** The agent loop of a step: `for agent in self.agents: agent.step(self)`,
    where a bankrupt agent removes itself from the very list being iterated.
    Python's list iterator keeps its index, so the element after a removed
    one moves into the slot just visited and is not visited this step. */
module Sweep {
  import opened Lists

  /** The list left after the loop, where `fails[k]` says whether the agent
      at position k goes bankrupt when it is visited (its own revenue and
      costs decide, not the order). A failing agent is removed and the next
      one is passed over. */
  function Swept<T>(s: seq<T>, fails: seq<bool>): (r: seq<T>)
    requires |fails| == |s|
    ensures |r| <= |s|
    decreases |s|
  {
    if |s| == 0 then []
    else if !fails[0] then
      assert s == [s[0]] + s[1..];
      [s[0]] + Swept(s[1..], fails[1..])
    else if |s| == 1 then []
    else
      assert s == [s[0]] + [s[1]] + s[2..];
      [s[1]] + Swept(s[2..], fails[2..])
  }

  /** Which positions the loop visits, in the same recursion. */
  function Visits(fails: seq<bool>): (r: seq<bool>)
    ensures |r| == |fails|
    decreases |fails|
  {
    if |fails| == 0 then []
    else if !fails[0] then [true] + Visits(fails[1..])
    else if |fails| == 1 then [true]
    else [true, false] + Visits(fails[2..])
  }

  /** Positions that stay in the list: not visited, or visited and solvent. */
  function Survivors(fails: seq<bool>): (r: seq<bool>)
    ensures |r| == |fails|
  {
    var v := Visits(fails);
    seq(|fails|, k requires 0 <= k < |fails| => !(v[k] && fails[k]))
  }

  /** The iteration law: the first agent is visited, and an agent is visited
      exactly when its predecessor was not both visited and removed. */
  lemma {:induction false} VisitsLaw(fails: seq<bool>)
    ensures |fails| > 0 ==> Visits(fails)[0]
    ensures forall k :: 0 < k < |fails| ==>
      (Visits(fails)[k] <==> !(Visits(fails)[k - 1] && fails[k - 1]))
    decreases |fails|
  {
    var v := Visits(fails);
    if |fails| > 0 && !fails[0] {
      VisitsLaw(fails[1..]);
      forall k | 0 < k < |fails| ensures v[k] <==> !(v[k - 1] && fails[k - 1]) {
        if k > 1 {
          assert v[k] == Visits(fails[1..])[k - 1] && v[k - 1] == Visits(fails[1..])[k - 2];
        }
      }
    } else if |fails| > 1 {
      VisitsLaw(fails[2..]);
      forall k | 0 < k < |fails| ensures v[k] <==> !(v[k - 1] && fails[k - 1]) {
        if k > 2 {
          assert v[k] == Visits(fails[2..])[k - 2] && v[k - 1] == Visits(fails[2..])[k - 3];
        }
      }
    }
  }

  lemma SurvivorsHead(fails: seq<bool>)
    requires |fails| > 0
    ensures Survivors(fails)[0] == !fails[0]
    ensures !fails[0] ==> Survivors(fails)[1..] == Survivors(fails[1..])
    ensures fails[0] && |fails| > 1 ==>
      Survivors(fails)[1] && Survivors(fails)[2..] == Survivors(fails[2..])
  {
    var v := Visits(fails);
    if !fails[0] {
      assert v[1..] == Visits(fails[1..]);
    } else if |fails| > 1 {
      assert v[2..] == Visits(fails[2..]);
    }
  }

  /** The loop's result is the original list restricted to the survivors,
      in the original order. */
  lemma {:induction false} SweptIsSurvivors<T>(s: seq<T>, fails: seq<bool>)
    requires |fails| == |s|
    ensures Swept(s, fails) == Select(s, Survivors(fails))
    decreases |s|
  {
    if |s| > 0 {
      var keep := Survivors(fails);
      SurvivorsHead(fails);
      if !fails[0] {
        SweptIsSurvivors(s[1..], fails[1..]);
      } else if |s| > 1 {
        SweptIsSurvivors(s[2..], fails[2..]);
        assert Select(s[1..], keep[1..]) == [s[1]] + Select(s[2..], keep[2..]) by {
          assert s[1..][1..] == s[2..] && keep[1..][1..] == keep[2..];
        }
      }
    }
  }

  /** The loop only removes: the survivors are a sub-multiset of the list. */
  lemma SweptOnlyRemoves<T>(s: seq<T>, fails: seq<bool>)
    requires |fails| == |s|
    ensures multiset(Swept(s, fails)) <= multiset(s)
  {
    SweptIsSurvivors(s, fails);
  }

  /** From a visited position p, a solvent agent stays and the loop goes
      on at p + 1. */
  lemma SweptFromKeep<T>(s: seq<T>, fails: seq<bool>, p: nat)
    requires |fails| == |s| && p < |s| && !fails[p]
    ensures Swept(s[p..], fails[p..]) == [s[p]] + Swept(s[p + 1..], fails[p + 1..])
    ensures Visits(fails[p..]) == [true] + Visits(fails[p + 1..])
  {
    assert s[p..][1..] == s[p + 1..] && fails[p..][1..] == fails[p + 1..];
  }

  /** From a visited position p, a bankrupt agent leaves, its successor
      stays unvisited and the loop goes on at p + 2. */
  lemma SweptFromDrop<T>(s: seq<T>, fails: seq<bool>, p: nat)
    requires |fails| == |s| && p + 1 < |s| && fails[p]
    ensures Swept(s[p..], fails[p..]) == [s[p + 1]] + Swept(s[p + 2..], fails[p + 2..])
    ensures Visits(fails[p..]) == [true, false] + Visits(fails[p + 2..])
  {
    assert s[p..][2..] == s[p + 2..] && fails[p..][2..] == fails[p + 2..];
  }

  /** The list iteration part-way: index `i` into the current list `cur`
      and position `p` in the original list `s0` denote the same next
      element; `cur` is what the iteration has kept so far followed by the
      elements from p on, and the visits before p are those of the whole. */
  ghost predicate Progress<T>(s0: seq<T>, fails: seq<bool>, cur: seq<T>, i: nat, p: nat)
  {
    |fails| == |s0| && p <= |s0| &&
    (if i <= |cur| then cur[i..] == s0[p..] && cur[..i] + Swept(s0[p..], fails[p..]) == Swept(s0, fails)
     else p == |s0| && cur == Swept(s0, fails)) &&
    Visits(fails)[p..] == Visits(fails[p..])
  }

  lemma ProgressStart<T>(s0: seq<T>, fails: seq<bool>)
    requires |fails| == |s0|
    ensures Progress(s0, fails, s0, 0, 0)
  {
    assert s0[0..] == s0 && fails[0..] == fails && Visits(fails)[0..] == Visits(fails);
  }

  /** The element at the iterator's index is the one at position p, and the
      iteration visits it. */
  lemma ProgressNext<T>(s0: seq<T>, fails: seq<bool>, cur: seq<T>, i: nat, p: nat)
    requires Progress(s0, fails, cur, i, p) && i < |cur|
    ensures p < |s0| && cur[i] == s0[p] && Visits(fails)[p]
  {
    assert cur[i..][0] == cur[i];
    SweptFromNext(s0, fails, p);
  }

  lemma SweptFromNext<T>(s0: seq<T>, fails: seq<bool>, p: nat)
    requires |fails| == |s0| && p < |s0| && Visits(fails)[p..] == Visits(fails[p..])
    ensures Visits(fails)[p]
  {
    assert Visits(fails)[p] == Visits(fails)[p..][0];
  }

  /** A solvent element stays: both the index and the position advance. */
  lemma ProgressKeep<T>(s0: seq<T>, fails: seq<bool>, cur: seq<T>, i: nat, p: nat)
    requires Progress(s0, fails, cur, i, p) && i < |cur| && p < |s0| && !fails[p]
    ensures Progress(s0, fails, cur, i + 1, p + 1)
  {
    SweptFromKeep(s0, fails, p);
    assert cur[..i + 1] == cur[..i] + [cur[i]];
    assert cur[i..][0] == cur[i];
    assert cur[i + 1..] == cur[i..][1..];
    assert Visits(fails)[p + 1..] == Visits(fails)[p..][1..];
  }

  /** A bankrupt element at index i leaves the list; the index advances
      past its successor, which the iteration passes over. */
  lemma ProgressDrop<T>(s0: seq<T>, fails: seq<bool>, cur: seq<T>, i: nat, p: nat)
    requires Progress(s0, fails, cur, i, p) && i < |cur| && p < |s0| && fails[p]
    ensures p + 1 < |s0| ==> Progress(s0, fails, cur[..i] + cur[i + 1..], i + 1, p + 2) && !Visits(fails)[p + 1]
    ensures p + 1 == |s0| ==> Progress(s0, fails, cur[..i] + cur[i + 1..], i + 1, p + 1)
  {
    var next := cur[..i] + cur[i + 1..];
    assert cur[i + 1..] == cur[i..][1..];
    if p + 1 < |s0| {
      SweptFromDrop(s0, fails, p);
      assert cur[i + 1..] == s0[p + 1..];
      assert next[..i + 1] == cur[..i] + [s0[p + 1]];
      assert next[i + 1..] == s0[p + 2..];
      assert Visits(fails)[p + 2..] == Visits(fails)[p..][2..];
      assert Visits(fails)[p + 1] == Visits(fails)[p..][1];
    } else {
      assert |s0[p..]| == 1;
      assert cur[i + 1..] == [];
      assert next == cur[..i];
    }
  }

  /** When the index has run off the end, the whole list has been swept. */
  lemma ProgressEnd<T>(s0: seq<T>, fails: seq<bool>, cur: seq<T>, i: nat, p: nat)
    requires Progress(s0, fails, cur, i, p) && i >= |cur|
    ensures p == |s0| && cur == Swept(s0, fails)
  {
    if i <= |cur| {
      assert |s0[p..]| == 0;
      assert cur[..i] == cur;
    }
  }

  /** With no bankruptcy the list is unchanged. */
  lemma {:induction false} NoFailureKeepsAll<T>(s: seq<T>, fails: seq<bool>)
    requires |fails| == |s| && forall k :: 0 <= k < |s| ==> !fails[k]
    ensures Swept(s, fails) == s
    decreases |s|
  {
    if |s| > 0 {
      NoFailureKeepsAll(s[1..], fails[1..]);
    }
  }

  /** An agent that stays solvent is never removed. */
  lemma {:induction false} SolventAgentsStay<T>(s: seq<T>, fails: seq<bool>, k: nat)
    requires |fails| == |s| && k < |s| && !fails[k]
    ensures s[k] in Swept(s, fails)
    decreases |s|
  {
    if !fails[0] {
      if k > 0 { SolventAgentsStay(s[1..], fails[1..], k - 1); }
    } else if k > 1 {
      SolventAgentsStay(s[2..], fails[2..], k - 2);
    }
  }

  /** At most every other agent can leave in one step: at least half of
      the list survives, whatever fails. */
  lemma {:induction false} AtLeastHalfSurvive<T>(s: seq<T>, fails: seq<bool>)
    requires |fails| == |s|
    ensures |Swept(s, fails)| >= |s| / 2
    decreases |s|
  {
    if |s| > 0 {
      if !fails[0] {
        AtLeastHalfSurvive(s[1..], fails[1..]);
      } else if |s| > 1 {
        AtLeastHalfSurvive(s[2..], fails[2..]);
      }
    }
  }

  /** When every agent is bankrupt exactly half of them (rounded down)
      outlive the step: the ones at odd positions. */
  lemma {:induction false} AllFailingKeepsOddPositions<T>(s: seq<T>, fails: seq<bool>)
    requires |fails| == |s| && forall k :: 0 <= k < |s| ==> fails[k]
    ensures |Swept(s, fails)| == |s| / 2
    ensures forall k :: 0 <= k < |s| / 2 ==> Swept(s, fails)[k] == s[2 * k + 1]
    decreases |s|
  {
    if |s| > 1 {
      var rest := s[2..];
      AllFailingKeepsOddPositions(rest, fails[2..]);
      assert |rest| / 2 == |s| / 2 - 1;
      var r := Swept(s, fails);
      assert r == [s[1]] + Swept(rest, fails[2..]);
      forall k | 0 < k < |s| / 2 ensures r[k] == s[2 * k + 1] {
        assert r[k] == rest[2 * k - 1];
      }
    }
  }

  /** An illustration of `AllFailingKeepsOddPositions`: of two neighbouring
      bankrupt agents only the first leaves. */
  lemma SecondOfTwoBankruptSurvives<T>(a: T, b: T)
    ensures Swept([a, b], [true, true]) == [b]
  {
    assert [a, b][2..] == [];
  }
}
