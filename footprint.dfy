/** Square footprints (`effect_radius`) and the row-major enumeration of
    blocks that the distribution setters and the creation policy use. */
module Footprint {
  import opened Base
  import opened Lists

  /** Row-major (lexicographic) order on coordinates: the order in which a
      loop `for i ...: for j ...: append((i, j))` produces them. */
  predicate RowMajorLess(a: Coord, b: Coord)
  {
    a.0 < b.0 || (a.0 == b.0 && a.1 < b.1)
  }

  predicate Increasing(s: seq<Coord>)
  {
    forall i, j :: 0 <= i < j < |s| ==> RowMajorLess(s[i], s[j])
  }

  /** The inner loop: `for j in range(j0, j0 + nj): append((i, j))`. */
  function Row(i: int, j0: int, nj: nat): (r: seq<Coord>)
    ensures |r| == nj
    ensures forall k :: 0 <= k < nj ==> r[k] == (i, j0 + k)
  {
    if nj == 0 then [] else Row(i, j0, nj - 1) + [(i, j0 + nj - 1)]
  }

  /** Both loops: rows `i0 .. i0+ni-1`, each the columns `j0 .. j0+nj-1`. */
  function Rect(i0: int, ni: nat, j0: int, nj: nat): (r: seq<Coord>)
    ensures |r| == ni * nj
    ensures forall k :: 0 <= k < |r| ==> i0 <= r[k].0 < i0 + ni && j0 <= r[k].1 < j0 + nj
    ensures Increasing(r)
  {
    if ni == 0 then []
    else
      var top := Rect(i0, ni - 1, j0, nj);
      var last := Row(i0 + ni - 1, j0, nj);
      assert (ni - 1) * nj + nj == ni * nj;
      top + last
  }

  /** Every pair of the rectangle is enumerated. */
  lemma {:induction false} RectCovers(i0: int, ni: nat, j0: int, nj: nat, c: Coord)
    requires i0 <= c.0 < i0 + ni && j0 <= c.1 < j0 + nj
    ensures c in Rect(i0, ni, j0, nj)
  {
    var top := Rect(i0, ni - 1, j0, nj);
    var last := Row(i0 + ni - 1, j0, nj);
    assert Rect(i0, ni, j0, nj) == top + last;
    if c.0 < i0 + ni - 1 {
      RectCovers(i0, ni - 1, j0, nj, c);
    } else {
      assert last[c.1 - j0] == c;
    }
  }

  /** A pair is in the rectangle exactly when it lies within its bounds. */
  lemma RectExact(i0: int, ni: nat, j0: int, nj: nat, c: Coord)
    ensures c in Rect(i0, ni, j0, nj) <==> i0 <= c.0 < i0 + ni && j0 <= c.1 < j0 + nj
  {
    if i0 <= c.0 < i0 + ni && j0 <= c.1 < j0 + nj {
      RectCovers(i0, ni, j0, nj, c);
    }
  }

  lemma IncreasingNoDup(s: seq<Coord>)
    requires Increasing(s)
    ensures NoDup(s)
  {
  }

  /** `effect_radius(loc, r)`: the (2r+1)x(2r+1) square centred on `loc`,
      row by row, off-grid pairs included. */
  function EffectRadius(loc: Coord, r: nat): seq<Coord>
  {
    Rect(loc.0 - r, 2 * r + 1, loc.1 - r, 2 * r + 1)
  }

  /** The footprint has exactly (2r+1)^2 pairs, forms the square
      [x-r, x+r] x [y-r, y+r], lists it in row-major order and lists each
      pair once. */
  lemma EffectRadiusIsSquare(loc: Coord, r: nat)
    ensures |EffectRadius(loc, r)| == (2 * r + 1) * (2 * r + 1)
    ensures forall c :: c in EffectRadius(loc, r) <==>
      loc.0 - r <= c.0 <= loc.0 + r && loc.1 - r <= c.1 <= loc.1 + r
    ensures Increasing(EffectRadius(loc, r)) && NoDup(EffectRadius(loc, r))
  {
    var fp := EffectRadius(loc, r);
    forall c: Coord | loc.0 - r <= c.0 <= loc.0 + r && loc.1 - r <= c.1 <= loc.1 + r
      ensures c in fp
    {
      RectCovers(loc.0 - r, 2 * r + 1, loc.1 - r, 2 * r + 1, c);
    }
  }

  /** The part of a footprint that lies on an n x n grid: the square
      clipped to the grid. A radius-2 agent at the corner (0,0) thus reaches
      only [0,2] x [0,2]. */
  lemma ClippedFootprint(n: int, loc: Coord, r: nat, c: Coord)
    ensures c in EffectRadius(loc, r) && InBounds(n, c) <==>
      InBounds(n, c) && loc.0 - r <= c.0 <= loc.0 + r && loc.1 - r <= c.1 <= loc.1 + r
  {
    EffectRadiusIsSquare(loc, r);
  }

  /** All blocks of an n x n grid in row-major order
      (`[(i, j) for i in range(n) for j in range(n)]`). */
  function Blocks(n: nat): seq<Coord>
  {
    Rect(0, n, 0, n)
  }

  /** The blocks satisfying `p`, in row-major order: the shape of the
      creation policy's candidate loop. */
  function BlocksWhere(n: nat, p: Coord -> bool): seq<Coord>
  {
    Filter(Blocks(n), p)
  }

  lemma {:induction false} FilterIncreasing(s: seq<Coord>, p: Coord -> bool)
    requires Increasing(s)
    ensures Increasing(Filter(s, p))
    decreases |s|
  {
    if |s| > 0 {
      var init := s[..|s| - 1];
      assert Increasing(init);
      FilterIncreasing(init, p);
      FilterMembers(init, p);
      var f := Filter(init, p);
      var last := s[|s| - 1];
      forall x: Coord | x in f ensures RowMajorLess(x, last) {
        var i :| 0 <= i < |init| && init[i] == x;
      }
      var r := Filter(s, p);
      assert r == f + (if p(last) then [last] else []);
      forall i, j | 0 <= i < j < |r| ensures RowMajorLess(r[i], r[j]) {
        if j == |f| {
          assert r[i] == f[i] && r[j] == last;
        } else {
          assert r[i] == f[i] && r[j] == f[j];
        }
      }
    }
  }

  /** Each block satisfying `p` appears exactly once, in row-major order,
      and nothing else appears. */
  lemma BlocksWhereExact(n: nat, p: Coord -> bool)
    ensures forall c :: c in BlocksWhere(n, p) <==> InBounds(n, c) && p(c)
    ensures Increasing(BlocksWhere(n, p)) && NoDup(BlocksWhere(n, p))
  {
    forall c: Coord | InBounds(n, c) ensures c in Blocks(n) {
      RectCovers(0, n, 0, n, c);
    }
    forall c: Coord | c in Blocks(n) ensures InBounds(n, c) {
      var k :| 0 <= k < |Blocks(n)| && Blocks(n)[k] == c;
    }
    FilterMembers(Blocks(n), p);
    FilterIncreasing(Blocks(n), p);
  }

  /** `Blocks(n)` enumerates every block of the grid exactly once
      (the block list of the central-business-district setter). */
  lemma BlocksExact(n: nat)
    ensures |Blocks(n)| == n * n
    ensures forall c :: c in Blocks(n) <==> InBounds(n, c)
    ensures NoDup(Blocks(n))
  {
    forall c: Coord | InBounds(n, c) ensures c in Blocks(n) {
      RectCovers(0, n, 0, n, c);
    }
  }
}
