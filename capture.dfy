/** Revenue capture over a footprint: `capture_expenditures` (realised
    revenue, with the 1e-10 guard in the canonical engine and the raw count
    in the drafts) and `potential_revenue` (the prospective estimate, with
    the entrant counted as one more competitor). */
module Capture {
  import opened Base
  import opened Lists

  /** The guard added to the count in `capture_expenditures` (1e-10). */
  const Epsilon: real := 0.0000000001

  /** For every in-bounds pair of `coords`, in order, add the block's
      expenditure divided by (competitor count + offset), times the
      population per block; off-grid pairs add nothing. The result is None
      when an in-bounds denominator is zero: the draft code divides by the
      raw count there and gets no finite number. */
  function Captured(n: nat, coords: seq<Coord>, spend: array2<real>, count: array2<int>, offset: real): Option<real>
    requires Square(spend, n) && Square(count, n)
    reads spend, count
    decreases |coords|
  {
    if |coords| == 0 then Some(0.0)
    else
      var c := coords[|coords| - 1];
      var prev := Captured(n, coords[..|coords| - 1], spend, count, offset);
      if !InBounds(n, c) then prev
      else if prev.None? then None
      else
        var d := count[c.0, c.1] as real + offset;
        if d == 0.0 then None else Some(prev.value + spend[c.0, c.1] / d * PopulationPerBlock)
  }

  predicate NonNegative(n: nat, count: array2<int>)
    requires Square(count, n)
    reads count
  {
    forall i, j :: 0 <= i < n && 0 <= j < n ==> count[i, j] >= 0
  }

  predicate NonNegativeReal(n: nat, spend: array2<real>)
    requires Square(spend, n)
    reads spend
  {
    forall i, j :: 0 <= i < n && 0 <= j < n ==> spend[i, j] >= 0.0
  }

  /** With a positive guard and non-negative counts the sum is always
      defined: the canonical engine never divides by zero. */
  lemma {:induction false} GuardedCaptureDefined(n: nat, coords: seq<Coord>, spend: array2<real>, count: array2<int>, offset: real)
    requires Square(spend, n) && Square(count, n)
    requires offset > 0.0 && NonNegative(n, count)
    ensures Captured(n, coords, spend, count, offset).Some?
    decreases |coords|
  {
    if |coords| > 0 {
      GuardedCaptureDefined(n, coords[..|coords| - 1], spend, count, offset);
    }
  }

  /** Without a guard the sum is defined exactly when no in-bounds pair of
      the footprint has a zero count. */
  lemma {:induction false} RawCaptureDefinedIff(n: nat, coords: seq<Coord>, spend: array2<real>, count: array2<int>)
    requires Square(spend, n) && Square(count, n)
    ensures Captured(n, coords, spend, count, 0.0).Some? <==>
      forall c :: c in coords && InBounds(n, c) ==> count[c.0, c.1] != 0
    decreases |coords|
  {
    if |coords| > 0 {
      var init := coords[..|coords| - 1];
      assert coords == init + [coords[|coords| - 1]];
      RawCaptureDefinedIff(n, init, spend, count);
    }
  }

  /** The membership test of the n x n grid as a value. */
  function OnGrid(n: nat): Coord -> bool
  {
    c => InBounds(n, c)
  }

  /** Only in-bounds pairs matter: dropping the off-grid ones changes
      nothing. */
  lemma {:induction false} OffGridPairsIgnored(n: nat, coords: seq<Coord>, spend: array2<real>, count: array2<int>, offset: real)
    requires Square(spend, n) && Square(count, n)
    ensures Captured(n, coords, spend, count, offset)
         == Captured(n, Filter(coords, OnGrid(n)), spend, count, offset)
    decreases |coords|
  {
    if |coords| > 0 {
      var init := coords[..|coords| - 1];
      var c := coords[|coords| - 1];
      OffGridPairsIgnored(n, init, spend, count, offset);
      var f := Filter(init, OnGrid(n));
      if InBounds(n, c) {
        var g := f + [c];
        assert Filter(coords, OnGrid(n)) == g;
        assert g[..|g| - 1] == f;
      } else {
        assert Filter(coords, OnGrid(n)) == f;
      }
    }
  }

  /** The prospective estimate's "+1" is the entrant itself: guarding with
      1 over the current counts gives what the raw capture would give once
      every in-bounds pair has one more competitor. */
  lemma {:induction false} EstimateAnticipatesEntry(n: nat, coords: seq<Coord>, spend: array2<real>,
                                                   before: array2<int>, after: array2<int>)
    requires Square(spend, n) && Square(before, n) && Square(after, n)
    requires forall c :: c in coords && InBounds(n, c) ==> after[c.0, c.1] == before[c.0, c.1] + 1
    ensures Captured(n, coords, spend, before, 1.0) == Captured(n, coords, spend, after, 0.0)
    decreases |coords|
  {
    if |coords| > 0 {
      var init := coords[..|coords| - 1];
      assert forall c :: c in init ==> c in coords;
      EstimateAnticipatesEntry(n, init, spend, before, after);
    }
  }

  /** More competitors never raise revenue: with non-negative expenditure,
      raising counts pointwise lowers (or keeps) the captured sum. */
  lemma {:induction false} MoreCompetitorsLessRevenue(n: nat, coords: seq<Coord>, spend: array2<real>,
                                                     fewer: array2<int>, more: array2<int>, offset: real)
    requires Square(spend, n) && Square(fewer, n) && Square(more, n)
    requires offset > 0.0 && NonNegative(n, fewer) && NonNegativeReal(n, spend)
    requires forall i, j :: 0 <= i < n && 0 <= j < n ==> fewer[i, j] <= more[i, j]
    ensures Captured(n, coords, spend, fewer, offset).Some? && Captured(n, coords, spend, more, offset).Some?
    ensures Captured(n, coords, spend, more, offset).value <= Captured(n, coords, spend, fewer, offset).value
    decreases |coords|
  {
    GuardedCaptureDefined(n, coords, spend, fewer, offset);
    GuardedCaptureDefined(n, coords, spend, more, offset);
    if |coords| > 0 {
      var init := coords[..|coords| - 1];
      var c := coords[|coords| - 1];
      MoreCompetitorsLessRevenue(n, init, spend, fewer, more, offset);
      if InBounds(n, c) {
        var d1 := fewer[c.0, c.1] as real + offset;
        var d2 := more[c.0, c.1] as real + offset;
        DivAntitoneWeak(spend[c.0, c.1], d1, d2);
      }
    }
  }
}
