/** The per-cell passes of a tick: competitor counts (`update_capture_number`,
    `update_exposure`), the externality accumulator (`update_externalities`),
    mobility (`update_mobility`, `update_work_ability`) and income
    (`update_income`). */
module Exposure {
  import opened Base
  import opened Lists

  /** The count `update_capture_number` leaves at cell `c` for kind `k`:
      every agent of that kind adds one for each occurrence of `c` in its
      footprint, agents taken in registry order. */
  function Coverage(ps: seq<Presence>, k: Kind, c: Coord): nat
    decreases |ps|
  {
    if |ps| == 0 then 0
    else
      var last := ps[|ps| - 1];
      Coverage(ps[..|ps| - 1], k, c) + (if last.kind == k then multiset(last.footprint)[c] else 0)
  }

  /** The agents of kind `k` whose footprint contains `c`, by registry index. */
  function Reaching(ps: seq<Presence>, k: Kind, c: Coord): set<nat>
  {
    set i: nat | i < |ps| && ps[i].kind == k && c in ps[i].footprint
  }

  lemma NoDupCount(s: seq<Coord>, c: Coord)
    requires NoDup(s)
    ensures multiset(s)[c] == if c in s then 1 else 0
  {
    if |s| > 0 {
      assert s == [s[0]] + s[1..];
      assert NoDup(s[1..]);
      NoDupCount(s[1..], c);
    }
  }

  /** Adding one agent at the end adds its index to the reaching agents
      exactly when it is of kind `k` and reaches `c`. */
  lemma ReachingSnoc(ps: seq<Presence>, k: Kind, c: Coord)
    requires |ps| > 0
    ensures Reaching(ps, k, c) == Reaching(ps[..|ps| - 1], k, c) +
      (if ps[|ps| - 1].kind == k && c in ps[|ps| - 1].footprint then {|ps| - 1} else {})
  {
    var init := ps[..|ps| - 1];
    forall i: nat | i < |init| ensures init[i] == ps[i] {
    }
  }

  /** When footprints list each pair once (as `effect_radius` does), the
      count at a cell is the number of agents of that kind reaching it. */
  lemma {:induction false} CoverageCountsReachingAgents(ps: seq<Presence>, k: Kind, c: Coord)
    requires forall i :: 0 <= i < |ps| ==> NoDup(ps[i].footprint)
    ensures Coverage(ps, k, c) == |Reaching(ps, k, c)|
    decreases |ps|
  {
    if |ps| > 0 {
      var init := ps[..|ps| - 1];
      var last := ps[|ps| - 1];
      assert forall i :: 0 <= i < |init| ==> init[i] == ps[i];
      CoverageCountsReachingAgents(init, k, c);
      NoDupCount(last.footprint, c);
      ReachingSnoc(ps, k, c);
      assert |ps| - 1 !in Reaching(init, k, c);
    }
  }

  /** An agent counts itself: every cell of its own footprint has a count
      of at least one for its kind. */
  lemma {:induction false} CoverageIncludesSelf(ps: seq<Presence>, i: nat, c: Coord)
    requires i < |ps| && c in ps[i].footprint
    ensures Coverage(ps, ps[i].kind, c) >= 1
    decreases |ps|
  {
    if i < |ps| - 1 {
      CoverageIncludesSelf(ps[..|ps| - 1], i, c);
    }
  }

  /** The new accumulator value at one cell (`update_externalities`): add
      the net exposure, clamp at zero, and when the net exposure is exactly
      zero heal by x0.95 with integer truncation, written `(19*v)/20`. */
  function NextExternality(e: int, ff: int, gs: int): (r: int)
    ensures r >= 0
  {
    var v := e + ff - gs;
    var clamped := if v <= 0 then 0 else v;
    if ff - gs == 0 then (19 * clamped) / 20 else clamped
  }

  /** The heal is the only step that departs from max(0, e + ff - gs), and
      it departs exactly when the net exposure is zero and the accumulator
      is positive; then it strictly shrinks it. */
  lemma HealFiresOnlyOnZeroNet(e: int, ff: int, gs: int)
    ensures NextExternality(e, ff, gs) != (if e + ff - gs <= 0 then 0 else e + ff - gs)
      <==> ff == gs && e >= 1
    ensures ff == gs && e >= 1 ==> NextExternality(e, ff, gs) < e
  {
  }

  /** With no agents reaching a cell, a non-negative accumulator never grows. */
  lemma NoExposureNeverGrows(e: int)
    requires e >= 0
    ensures NextExternality(e, 0, 0) <= e
  {
  }

  /** b^k for a natural exponent. */
  function Pow(b: real, k: nat): (r: real)
    requires b > 0.0
    ensures r > 0.0
  {
    if k == 0 then 1.0 else b * Pow(b, k - 1)
  }

  /** b^k for an integer exponent; the source raises 1.5 to `E - 50`, and E
      is always a whole number. */
  function PowInt(b: real, k: int): (r: real)
    requires b > 0.0
    ensures r > 0.0
  {
    if k >= 0 then Pow(b, k) else 1.0 / Pow(b, -k)
  }

  lemma MulGrows(b: real, p: real)
    requires b > 1.0 && p > 0.0
    ensures p < b * p
  {
    assert b * p - p == (b - 1.0) * p;
  }

  lemma PowIntStep(b: real, k: int)
    requires b > 1.0
    ensures PowInt(b, k) < PowInt(b, k + 1)
  {
    if k >= 0 {
      PowStepNat(b, k);
    } else if k == -1 {
      PowStepMinusOne(b);
    } else {
      PowStepNeg(b, -k - 1);
    }
  }

  lemma PowStepNat(b: real, k: nat)
    requires b > 1.0
    ensures PowInt(b, k) < PowInt(b, k + 1)
  {
    var p := Pow(b, k);
    assert Pow(b, k + 1) == b * p;
    MulGrows(b, p);
  }

  lemma PowStepMinusOne(b: real)
    requires b > 1.0
    ensures PowInt(b, -1) < PowInt(b, 0)
  {
    assert Pow(b, 1) == b * Pow(b, 0);
    assert PowInt(b, -1) == 1.0 / b;
    DivAntitone(1.0, 1.0, b);
  }

  lemma PowStepNeg(b: real, m: nat)
    requires b > 1.0 && m >= 1
    ensures PowInt(b, -(m as int) - 1) < PowInt(b, -(m as int))
  {
    var p := Pow(b, m);
    assert Pow(b, m + 1) == b * p;
    MulGrows(b, p);
    DivAntitone(1.0, p, b * p);
  }

  /** For a base above one the power strictly increases with the exponent. */
  lemma {:induction false} PowIntIncreasing(b: real, k1: int, k2: int)
    requires b > 1.0 && k1 < k2
    ensures PowInt(b, k1) < PowInt(b, k2)
    decreases k2 - k1
  {
    PowIntStep(b, k1);
    if k1 + 1 < k2 {
      PowIntIncreasing(b, k1 + 1, k2);
    }
  }

  /** Mobility for an externality level (`update_mobility`,
      `update_work_ability`): the logistic a3 + (1 - a3)/(1 + b3^(E - c3))
      with a3 = 0.75, b3 = 1.5, c3 = 50. It lies strictly between the floor
      0.75 and 1. */
  function Mobility(e: int): (m: real)
    ensures 0.75 < m < 1.0
  {
    var p := PowInt(1.5, e - 50);
    assert 0.25 / (1.0 + p) < 0.25 by {
      DivAntitone(0.25, 1.0, 1.0 + p);
    }
    0.75 + (1.0 - 0.75) / (1.0 + p)
  }

  /** Mobility strictly decreases as the externality level grows. */
  lemma MobilityDecreasing(e1: int, e2: int)
    requires e1 < e2
    ensures Mobility(e2) < Mobility(e1)
  {
    PowIntIncreasing(1.5, e1 - 50, e2 - 50);
    DivAntitone(0.25, 1.0 + PowInt(1.5, e1 - 50), 1.0 + PowInt(1.5, e2 - 50));
  }

  /** An illustration of `Mobility`: at the inflection point E = 50 it is
      halfway between 0.75 and 1. */
  lemma MobilityAtInflection()
    ensures Mobility(50) == 0.875
  {
  }

  /** `income = rent * 4 * mobility`, cell by cell. */
  function Income(rent: real, mobility: real): real
  {
    rent * 4.0 * mobility
  }

  /** Since mobility stays in (0.75, 1), the income of a block with
      non-negative rent lies between three and four times its rent. */
  lemma IncomeBetweenThreeAndFourRents(rent: real, e: int)
    requires rent >= 0.0
    ensures 3.0 * rent <= Income(rent, Mobility(e)) <= 4.0 * rent
  {
    var m := Mobility(e);
    assert rent * 4.0 * m <= rent * 4.0 * 1.0;
    assert rent * 4.0 * m >= rent * 4.0 * 0.75;
  }

  /** `random_float_range(low, high)`: a unit draw `u` from [0, 1)
      stretched onto [low, high). */
  function RandomFloatRange(u: real, low: real, high: real): (r: real)
    ensures 0.0 <= u < 1.0 && low < high ==> low <= r < high
  {
    var w := high - low;
    if 0.0 <= u < 1.0 && w > 0.0 then
      assert w - u * w == (1.0 - u) * w;
      assert (1.0 - u) * w > 0.0;
      assert u * w >= 0.0;
      u * w + low
    else u * w + low
  }

  /** The share of food-away spending that goes to fast food: the parabola
      0.40 - (5.528e-6 * income - 0.332)^2, clamped below at 0.075. It
      always lies in [0.075, 0.40]. */
  function FastFoodShare(income: real): (r: real)
    ensures 0.075 <= r <= 0.40
  {
    var share := 0.40 - Sq(Deviation(income));
    SquarePositive(Deviation(income));
    if share < 0.075 then 0.075 else share
  }

  /** The term squared in the fast-food share. */
  function Deviation(income: real): real
  {
    0.000005528 * income - 0.332
  }

  /** The income at which the fast-food share peaks. */
  const ShareSummit: real := 0.332 / 0.000005528

  /** The share reaches its top value 0.40 at the summit only and falls
      off symmetrically on both sides of it. */
  lemma FastFoodShareSummit(t: real)
    ensures FastFoodShare(ShareSummit) == 0.40
    ensures FastFoodShare(ShareSummit + t) == FastFoodShare(ShareSummit - t)
    ensures t != 0.0 ==> FastFoodShare(ShareSummit + t) < 0.40
  {
    assert Deviation(ShareSummit) == 0.0;
    assert Sq(0.0) == Product(0.0, 0.0);
    var d := Deviation(ShareSummit + t);
    assert d == 0.000005528 * t;
    assert Deviation(ShareSummit - t) == -d;
    assert Sq(-d) == Sq(d);
    SquarePositive(d);
  }

  /** Below the summit the share rises with income. */
  lemma FastFoodShareRises(x1: real, x2: real)
    requires x1 <= x2 <= ShareSummit
    ensures FastFoodShare(x1) <= FastFoodShare(x2)
  {
    var d1 := Deviation(x1);
    var d2 := Deviation(x2);
    assert d1 <= d2 <= 0.0;
    assert Sq(d1) - Sq(d2) == Product(d2 - d1, -d1 - d2);
    assert Product(d2 - d1, -d1 - d2) >= 0.0;
  }

  /** The three spending figures of `update_expenditures` for a block of
      income `income`, each scaled by its own draw stretched onto
      [0.75, 1.25): food away from home, the fast-food part of it, and food
      at home (all grocery spending). */
  function FoodAwaySpend(l: Laws, income: real, u: real): real
  {
    l.foodAwayRate(income) * income * RandomFloatRange(u, 0.75, 1.25)
  }

  function FastFoodSpend(income: real, foodAway: real, u: real): (r: real)
    ensures 0.0 <= u < 1.0 && foodAway >= 0.0 ==> 0.05625 * foodAway <= r <= 0.5 * foodAway
  {
    var share := FastFoodShare(income);
    var m := RandomFloatRange(u, 0.75, 1.25);
    if 0.0 <= u < 1.0 && foodAway >= 0.0 then
      SpendBounds(share, foodAway, m);
      share * foodAway * m
    else share * foodAway * m
  }

  lemma SpendBounds(share: real, foodAway: real, m: real)
    requires 0.075 <= share <= 0.40 && foodAway >= 0.0 && 0.75 <= m <= 1.25
    ensures 0.05625 * foodAway <= share * foodAway * m <= 0.5 * foodAway
  {
    var p := share * foodAway;
    assert 0.075 * foodAway <= p <= 0.40 * foodAway;
    assert p * m <= p * 1.25;
    assert p * m >= p * 0.75;
  }

  function GrocerySpend(l: Laws, income: real, u: real): real
  {
    l.groceryRate(income) * income * RandomFloatRange(u, 0.75, 1.25)
  }
}
