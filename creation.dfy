/** The creation policies: the candidate blocks, the profit margin of a
    prospective agent (`potential_profits`, `potential_revenue`) and the
    probabilistic decision of `potential_creations`, with every random
    draw passed in. */
module Creation {
  import opened Base
  import opened Lists
  import opened Footprint
  import opened Capture

  /** The blocks the location snapshot records as hosting an agent of kind
      `k` (the `ff_locs` / `gs_locs` comprehensions). */
  function HostedBy(ps: seq<Presence>, k: Kind): (r: seq<Coord>)
    ensures forall c :: c in r <==> exists i :: 0 <= i < |ps| && ps[i].kind == k && ps[i].loc == c
    decreases |ps|
  {
    if |ps| == 0 then []
    else
      var init := ps[..|ps| - 1];
      var last := ps[|ps| - 1];
      var r := HostedBy(init, k) + (if last.kind == k then [last.loc] else []);
      assert forall i :: 0 <= i < |init| ==> init[i] == ps[i];
      r
  }

  /** The test applied to each block of the candidate loop. */
  function Vacant(hosted: seq<Coord>): Coord -> bool
  {
    c => c !in hosted
  }

  /** The blocks before (i, j) in row-major order on an n x n grid that
      are not in `hosted`: the candidate list part-way through the loops. */
  function VacantBefore(n: nat, i: nat, j: nat, hosted: seq<Coord>): seq<Coord>
    decreases i, j
  {
    if j == 0 then
      if i == 0 then [] else VacantBefore(n, i - 1, n, hosted)
    else
      VacantBefore(n, i, j - 1, hosted) + (if (i, j - 1) !in hosted then [(i, j - 1)] else [])
  }

  /** The blocks before (i, j) in row-major order: the blocks the
      candidate loops have visited. */
  function Scanned(n: nat, i: nat, j: nat): seq<Coord>
    decreases i, j
  {
    if j == 0 then
      if i == 0 then [] else Scanned(n, i - 1, n)
    else
      Scanned(n, i, j - 1) + [(i, j - 1)]
  }

  /** The partial list is the vacant part of the visited blocks. */
  lemma {:induction false} VacantBeforeIsFiltered(n: nat, i: nat, j: nat, hosted: seq<Coord>)
    ensures VacantBefore(n, i, j, hosted) == Filter(Scanned(n, i, j), Vacant(hosted))
    decreases i, j
  {
    if j == 0 {
      if i > 0 {
        VacantBeforeIsFiltered(n, i - 1, n, hosted);
      }
    } else {
      VacantBeforeIsFiltered(n, i, j - 1, hosted);
      FilterSnoc(Scanned(n, i, j - 1), (i, j - 1), Vacant(hosted));
    }
  }

  /** Part-way through row i, the visited blocks are the rows before it
      and the first j blocks of row i. */
  lemma {:induction false} ScannedRow(n: nat, i: nat, j: nat)
    ensures Scanned(n, i, j) == Scanned(n, i, 0) + Row(i, 0, j)
  {
    if j > 0 {
      ScannedRow(n, i, j - 1);
    }
  }

  lemma {:induction false} ScannedRows(n: nat, i: nat)
    ensures Scanned(n, i, 0) == Rect(0, i, 0, n)
  {
    if i > 0 {
      ScannedRows(n, i - 1);
      ScannedRow(n, i - 1, n);
    }
  }

  /** After the last row the partial list is the whole candidate list. */
  lemma VacantBeforeEnd(n: nat, hosted: seq<Coord>)
    ensures VacantBefore(n, n, 0, hosted) == BlocksWhere(n, Vacant(hosted))
  {
    VacantBeforeIsFiltered(n, n, 0, hosted);
    ScannedRows(n, n);
  }

  /** The candidate list for kind `k`: the blocks of the grid, row by row,
      that are not recorded as hosting an agent of that kind. */
  function Candidates(n: nat, ps: seq<Presence>, k: Kind): seq<Coord>
  {
    VacantBefore(n, n, 0, HostedBy(ps, k))
  }


  /** Each block without a recorded agent of kind `k` is a candidate exactly
      once, in row-major order, and nothing else is. */
  lemma CandidatesExact(n: nat, ps: seq<Presence>, k: Kind)
    ensures forall c :: c in Candidates(n, ps, k) <==>
      InBounds(n, c) && forall i :: 0 <= i < |ps| && ps[i].kind == k ==> ps[i].loc != c
    ensures Increasing(Candidates(n, ps, k)) && NoDup(Candidates(n, ps, k))
  {
    VacantBeforeEnd(n, HostedBy(ps, k));
    BlocksWhereExact(n, Vacant(HostedBy(ps, k)));
  }

  /** Start-up cost of an agent of kind `k` on a block of rent `rent`: the
      rent plus two years of operations. */
  function StartupCost(k: Kind, rent: real): real
  {
    rent + (Operations(k) * 2) as real
  }

  /** `profit_margin`: short-term profit over start-up cost plus five-year
      profit over five years of operations. */
  function Margin(k: Kind, rent: real, revenue: real): real
    requires StartupCost(k, rent) != 0.0
  {
    var startup := StartupCost(k, rent);
    var ops := Operations(k) as real;
    (revenue - startup) / startup + ((revenue - ops) * 5.0) / (ops * 5.0)
  }

  /** The margin is revenue over start-up cost plus revenue over yearly
      operations, minus two. */
  lemma MarginClosedForm(k: Kind, rent: real, revenue: real)
    requires StartupCost(k, rent) != 0.0
    ensures Margin(k, rent, revenue)
         == revenue / StartupCost(k, rent) + revenue / (Operations(k) as real) - 2.0
  {
    var startup := StartupCost(k, rent);
    var ops := Operations(k) as real;
    assert ops > 0.0;
    SplitQuotient(revenue, startup, startup);
    assert startup / startup == 1.0;
    CancelFactor(revenue - ops, ops, 5.0);
    SplitQuotient(revenue, ops, ops);
    assert ops / ops == 1.0;
  }

  lemma CancelFactor(x: real, d: real, f: real)
    requires d != 0.0 && f != 0.0
    ensures (x * f) / (d * f) == x / d
  {
    var q := x / d;
    assert q * d == x;
    assert q * (d * f) == x * f;
  }

  lemma SplitQuotient(a: real, b: real, d: real)
    requires d != 0.0
    ensures (a - b) / d == a / d - b / d
  {
  }

  lemma DivMonotone(a: real, b: real, d: real)
    requires a < b && d > 0.0
    ensures a / d < b / d
  {
  }

  /** More revenue always means a larger margin. */
  lemma MarginIncreasesWithRevenue(k: Kind, rent: real, r1: real, r2: real)
    requires rent >= 0.0 && r1 < r2
    ensures Margin(k, rent, r1) < Margin(k, rent, r2)
  {
    MarginClosedForm(k, rent, r1);
    MarginClosedForm(k, rent, r2);
    DivMonotone(r1, r2, StartupCost(k, rent));
    DivMonotone(r1, r2, Operations(k) as real);
  }

  /** For a positive revenue, a dearer block has a smaller margin. */
  lemma MarginFallsWithRent(k: Kind, rent1: real, rent2: real, revenue: real)
    requires 0.0 <= rent1 < rent2 && revenue > 0.0
    ensures Margin(k, rent2, revenue) < Margin(k, rent1, revenue)
  {
    MarginClosedForm(k, rent1, revenue);
    MarginClosedForm(k, rent2, revenue);
    DivAntitone(revenue, StartupCost(k, rent1), StartupCost(k, rent2));
  }

  /** Break-even: the margin is positive exactly when the revenue exceeds
      2·S·O/(S+O), S the start-up cost and O the yearly operations. */
  lemma MarginPositiveIff(k: Kind, rent: real, revenue: real)
    requires rent >= 0.0
    ensures Margin(k, rent, revenue) > 0.0 <==>
      revenue * (StartupCost(k, rent) + Operations(k) as real) > 2.0 * StartupCost(k, rent) * (Operations(k) as real)
  {
    var s := StartupCost(k, rent);
    var o := Operations(k) as real;
    MarginClosedForm(k, rent, revenue);
    var so := s * o;
    assert so > 0.0;
    assert (revenue / s) * so == revenue * o;
    assert (revenue / o) * so == revenue * s;
    assert (revenue / s + revenue / o - 2.0) * so == revenue * (s + o) - 2.0 * s * o;
    ScaleSign(revenue / s + revenue / o - 2.0, so);
  }

  lemma ScaleSign(x: real, p: real)
    requires p > 0.0
    ensures x > 0.0 <==> x * p > 0.0
  {
  }

  /** `potential_revenue`: the capture sum over a footprint with one more
      competitor than currently counted on every cell. */
  function PotentialRevenue(n: nat, footprint: seq<Coord>, spend: array2<real>, count: array2<int>): (r: real)
    requires Square(spend, n) && Square(count, n) && NonNegative(n, count)
    reads spend, count
    ensures Captured(n, footprint, spend, count, 1.0) == Some(r)
  {
    GuardedCaptureDefined(n, footprint, spend, count, 1.0);
    Captured(n, footprint, spend, count, 1.0).value
  }

  predicate NonNegativeRent(n: nat, rent: array2<real>)
    requires Square(rent, n)
    reads rent
  {
    forall i, j :: 0 <= i < n && 0 <= j < n ==> rent[i, j] >= 0.0
  }

  /** The margin of placing an agent of kind `k` at block `c`. */
  function MarginAt(n: nat, k: Kind, c: Coord, rent: array2<real>, spend: array2<real>, count: array2<int>): real
    requires Square(rent, n) && Square(spend, n) && Square(count, n)
    requires NonNegative(n, count) && NonNegativeRent(n, rent) && InBounds(n, c)
    reads rent, spend, count
  {
    Margin(k, rent[c.0, c.1], PotentialRevenue(n, EffectRadius(c, AgentRadius), spend, count))
  }

  /** `potential_profits`: one margin per candidate, in candidate order. */
  function PotentialProfits(n: nat, k: Kind, cands: seq<Coord>, rent: array2<real>, spend: array2<real>, count: array2<int>): (r: seq<real>)
    requires Square(rent, n) && Square(spend, n) && Square(count, n)
    requires NonNegative(n, count) && NonNegativeRent(n, rent)
    requires forall c :: c in cands ==> InBounds(n, c)
    reads rent, spend, count
    ensures |r| == |cands|
    ensures forall i :: 0 <= i < |cands| ==> r[i] == MarginAt(n, k, cands[i], rent, spend, count)
    decreases |cands|
  {
    if |cands| == 0 then []
    else
      var init := cands[..|cands| - 1];
      PotentialProfits(n, k, init, rent, spend, count) + [MarginAt(n, k, cands[|cands| - 1], rent, spend, count)]
  }

  /** Upper bound of every creation probability (`prob_max`). */
  const ProbMax: real := 0.15

  /** The creation probability of a candidate with margin `margin` when the
      largest margin is `maximum`: the ratio, clamped below at 0, times
      0.15. */
  function Probability(margin: real, maximum: real): real
    requires maximum != 0.0
  {
    var ratio := margin / maximum;
    ProbMax * (if ratio < 0.0 then 0.0 else ratio)
  }

  /** `max(potential_list)`. */
  function MaxOf(s: seq<real>): (m: real)
    requires |s| > 0
    ensures m in s && forall x :: x in s ==> x <= m
    decreases |s|
  {
    if |s| == 1 then s[0]
    else
      var init := s[..|s| - 1];
      assert s == init + [s[|s| - 1]];
      var m := MaxOf(init);
      if s[|s| - 1] > m then s[|s| - 1] else m
  }

  /** With a positive largest margin every probability lies in [0, 0.15];
      it is 0 exactly for the non-positive margins and 0.15 for the best. */
  lemma ProbabilityInRange(margin: real, maximum: real)
    requires maximum > 0.0 && margin <= maximum
    ensures 0.0 <= Probability(margin, maximum) <= ProbMax
    ensures Probability(margin, maximum) == 0.0 <==> margin <= 0.0
    ensures margin == maximum ==> Probability(margin, maximum) == ProbMax
  {
    var q := margin / maximum;
    assert q * maximum == margin;
    ScaleSign(q, maximum);
    assert (1.0 - q) * maximum == maximum - margin;
    ScaleSign(1.0 - q, maximum);
  }

  /** With a negative largest margin the ratio flips: every candidate gets
      at least 0.15 and a worse margin gets a higher probability. */
  lemma NegativeMaximumInvertsRanking(m1: real, m2: real, maximum: real)
    requires maximum < 0.0 && m1 < m2 <= maximum
    ensures Probability(m2, maximum) >= ProbMax
    ensures Probability(m1, maximum) > Probability(m2, maximum)
  {
    assert m2 / maximum >= 1.0;
    assert m1 / maximum > m2 / maximum;
  }

  /** The candidates that pass the single shared draw `rand`, in candidate
      order (`create_locations`). */
  function Qualified(cands: seq<Coord>, margins: seq<real>, maximum: real, rand: real): (r: seq<Coord>)
    requires |margins| == |cands| && maximum != 0.0
    ensures |r| <= |cands|
    decreases |cands|
  {
    if |cands| == 0 then []
    else
      var k := |cands| - 1;
      Qualified(cands[..k], margins[..k], maximum, rand)
        + (if rand < Probability(margins[k], maximum) then [cands[k]] else [])
  }

  /** A block is in the qualified list exactly when some candidate position
      holding it beats the draw. */
  lemma {:induction false} QualifiedExact(cands: seq<Coord>, margins: seq<real>, maximum: real, rand: real)
    requires |margins| == |cands| && maximum != 0.0
    ensures forall c :: c in Qualified(cands, margins, maximum, rand) <==>
      exists i :: 0 <= i < |cands| && cands[i] == c && rand < Probability(margins[i], maximum)
    decreases |cands|
  {
    if |cands| > 0 {
      var k := |cands| - 1;
      QualifiedExact(cands[..k], margins[..k], maximum, rand);
      forall c | c in Qualified(cands, margins, maximum, rand)
        ensures exists i :: 0 <= i < |cands| && cands[i] == c && rand < Probability(margins[i], maximum)
      {
        if c !in Qualified(cands[..k], margins[..k], maximum, rand) {
          assert cands[k] == c;
        } else {
          var i :| 0 <= i < k && cands[..k][i] == c && rand < Probability(margins[..k][i], maximum);
          assert cands[i] == c;
        }
      }
      forall c | exists i :: 0 <= i < |cands| && cands[i] == c && rand < Probability(margins[i], maximum)
        ensures c in Qualified(cands, margins, maximum, rand)
      {
        var i :| 0 <= i < |cands| && cands[i] == c && rand < Probability(margins[i], maximum);
        if i < k {
          assert cands[..k][i] == c && margins[..k][i] == margins[i];
        }
      }
    }
  }

  /** One draw serves every candidate, so the draw acts as a threshold: a
      lower draw qualifies every block a higher draw qualifies. */
  lemma SharedDrawIsThreshold(cands: seq<Coord>, margins: seq<real>, maximum: real, low: real, high: real)
    requires |margins| == |cands| && maximum != 0.0 && low <= high
    ensures forall c :: c in Qualified(cands, margins, maximum, high) ==> c in Qualified(cands, margins, maximum, low)
  {
    QualifiedExact(cands, margins, maximum, low);
    QualifiedExact(cands, margins, maximum, high);
  }

  lemma {:induction false} NoneQualify(cands: seq<Coord>, margins: seq<real>, maximum: real, rand: real)
    requires |margins| == |cands| && maximum != 0.0
    requires forall i :: 0 <= i < |cands| ==> rand >= Probability(margins[i], maximum)
    ensures Qualified(cands, margins, maximum, rand) == []
    decreases |cands|
  {
    if |cands| > 0 {
      var k := |cands| - 1;
      NoneQualify(cands[..k], margins[..k], maximum, rand);
    }
  }

  /** With a positive largest margin, a draw of at least 0.15 qualifies no
      block, and a draw below 0.15 qualifies at least the best one. */
  lemma DrawAgainstProbMax(cands: seq<Coord>, margins: seq<real>, rand: real)
    requires |margins| == |cands| > 0 && MaxOf(margins) > 0.0
    ensures rand >= ProbMax ==> Qualified(cands, margins, MaxOf(margins), rand) == []
    ensures rand < ProbMax ==> Qualified(cands, margins, MaxOf(margins), rand) != []
  {
    var maximum := MaxOf(margins);
    if rand < ProbMax {
      QualifiedExact(cands, margins, maximum, rand);
      assert maximum in margins;
      var i :| 0 <= i < |margins| && margins[i] == maximum;
      ProbabilityInRange(margins[i], maximum);
      assert cands[i] in Qualified(cands, margins, maximum, rand);
    } else {
      forall i | 0 <= i < |margins| ensures rand >= Probability(margins[i], maximum) {
        assert margins[i] in margins;
        ProbabilityInRange(margins[i], maximum);
      }
      NoneQualify(cands, margins, maximum, rand);
    }
  }

  /** `max(potential_list)`, scanning left to right. */
  method LargestMargin(margins: seq<real>) returns (maximum: real)
    requires |margins| > 0
    ensures maximum == MaxOf(margins)
  {
    maximum := margins[0];
    var m := 1;
    while m < |margins|
      invariant 1 <= m <= |margins|
      invariant maximum == MaxOf(margins[..m])
    {
      assert margins[..m + 1][..m] == margins[..m];
      if margins[m] > maximum {
        maximum := margins[m];
      }
      m := m + 1;
    }
    assert margins[..m] == margins;
  }

  /** The loop of `potential_creations` that collects `create_locations`:
      each candidate whose probability the shared draw is below. */
  method QualifiedBlocks(cands: seq<Coord>, margins: seq<real>, maximum: real, rand: real) returns (q: seq<Coord>)
    requires |margins| == |cands| && maximum != 0.0
    ensures q == Qualified(cands, margins, maximum, rand)
  {
    q := [];
    var i := 0;
    while i < |margins|
      invariant 0 <= i <= |margins|
      invariant q == Qualified(cands[..i], margins[..i], maximum, rand)
    {
      assert cands[..i + 1][..i] == cands[..i] && margins[..i + 1][..i] == margins[..i];
      var multiplier := margins[i] / maximum;
      if multiplier < 0.0 {
        multiplier := 0.0;
      }
      var probability := ProbMax * multiplier;
      if rand < probability {
        q := q + [cands[i]];
      }
      i := i + 1;
    }
    assert cands[..i] == cands && margins[..i] == margins;
  }

  /** A stand-in for `randint(0, m)`: any index below `m`. */
  ghost predicate IsPicker(pick: nat -> nat)
  {
    forall m: nat :: m > 0 ==> pick(m) < m
  }

  datatype Decision = Create(at: Coord) | NoCreation | DivisionByZero

  /** What `potential_creations` decides for one kind: a ZeroDivisionError
      when the largest margin is 0, otherwise a block picked among the
      qualified ones, if any. */
  function Decide(cands: seq<Coord>, margins: seq<real>, rand: real, pick: nat -> nat): Decision
    requires |margins| == |cands| > 0 && IsPicker(pick)
  {
    var maximum := MaxOf(margins);
    if maximum == 0.0 then DivisionByZero
    else
      var q := Qualified(cands, margins, maximum, rand);
      if |q| == 0 then NoCreation else Create(q[pick(|q|)])
  }

  /** The decision in full: the step fails exactly when the largest margin
      is 0; otherwise nothing is created exactly when no candidate beats the
      shared draw, and a created block is a candidate that beat it. */
  lemma DecisionSound(cands: seq<Coord>, margins: seq<real>, rand: real, pick: nat -> nat)
    requires |margins| == |cands| > 0 && IsPicker(pick)
    ensures Decide(cands, margins, rand, pick) == DivisionByZero <==> MaxOf(margins) == 0.0
    ensures Decide(cands, margins, rand, pick) == NoCreation <==>
      MaxOf(margins) != 0.0 && forall i :: 0 <= i < |cands| ==> rand >= Probability(margins[i], MaxOf(margins))
    ensures Decide(cands, margins, rand, pick).Create? ==>
      exists i :: 0 <= i < |cands| && cands[i] == Decide(cands, margins, rand, pick).at &&
        rand < Probability(margins[i], MaxOf(margins))
  {
    var maximum := MaxOf(margins);
    if maximum != 0.0 {
      QualifiedExact(cands, margins, maximum, rand);
      var q := Qualified(cands, margins, maximum, rand);
      if |q| > 0 {
        assert q[pick(|q|)] in q && q[0] in q;
        var i :| 0 <= i < |cands| && cands[i] == q[0] && rand < Probability(margins[i], maximum);
      } else {
        forall i | 0 <= i < |cands| ensures rand >= Probability(margins[i], maximum) {
          assert cands[i] !in q;
        }
      }
    }
  }

  /** One kind's part of `profit_probability_create_rule`: no call on an
      empty candidate list, otherwise `potential_creations`. */
  function KindDecision(cands: seq<Coord>, margins: seq<real>, rand: real, pick: nat -> nat): Decision
    requires |margins| == |cands| && IsPicker(pick)
  {
    if |cands| == 0 then NoCreation else Decide(cands, margins, rand, pick)
  }

  /** The call fails exactly when there are candidates and their largest
      margin is 0; nothing is founded exactly when there are no candidates
      or none beats the shared draw; a founded block is a candidate that
      beat it. */
  lemma KindDecisionSound(cands: seq<Coord>, margins: seq<real>, rand: real, pick: nat -> nat)
    requires |margins| == |cands| && IsPicker(pick)
    ensures KindDecision(cands, margins, rand, pick) == DivisionByZero <==> |cands| > 0 && MaxOf(margins) == 0.0
    ensures KindDecision(cands, margins, rand, pick) == NoCreation <==>
      |cands| == 0 ||
      (MaxOf(margins) != 0.0 && forall i :: 0 <= i < |cands| ==> rand >= Probability(margins[i], MaxOf(margins)))
    ensures KindDecision(cands, margins, rand, pick).Create? ==>
      exists i :: 0 <= i < |cands| && cands[i] == KindDecision(cands, margins, rand, pick).at &&
        rand < Probability(margins[i], MaxOf(margins))
  {
    if |cands| > 0 {
      DecisionSound(cands, margins, rand, pick);
    }
  }

  /** `random_create_rule`: every fifth tick (time divisible by 5) one agent
      at the drawn block, fast food when the kind draw is below 0.5, else a
      grocery store; nothing on the other ticks. */
  function RandomCreation(time: nat, x: int, y: int, kindDraw: real): Option<(Kind, Coord)>
  {
    if time % 5 == 0 then Some((if kindDraw < 0.5 then FastFood else Grocery, (x, y))) else None
  }

  /** Of any five consecutive ticks exactly one creates an agent. */
  lemma OneCreationInFiveTicks(t: nat, x: int, y: int, kindDraw: real)
    ensures exists u :: (t <= u < t + 5 && RandomCreation(u, x, y, kindDraw).Some? &&
                         forall v :: t <= v < t + 5 && RandomCreation(v, x, y, kindDraw).Some? ==> v == u)
  {
    var u: nat := t + (5 - t % 5) % 5;
    assert u % 5 == 0;
    assert RandomCreation(u, x, y, kindDraw).Some?;
    forall v | t <= v < t + 5 && RandomCreation(v, x, y, kindDraw).Some? ensures v == u {
      assert v % 5 == 0;
    }
  }
}
