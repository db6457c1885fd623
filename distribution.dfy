/** The rent-field setters, cell by cell: the vertical and diagonal
    gradients (with the canonical engine's integer divisions and the
    draft's float ones), the distance-based gradients around business
    districts, the quadrant partition and the random perturbations. */
module Distribution {
  import opened Base
  import opened Footprint
  import opened Exposure

  /** Python 2 `a / b` on ints: the floor of the quotient. */
  function FloorDiv(a: int, b: int): int
    requires b != 0
  {
    if b > 0 then a / b else (-a) / (-b)
  }

  lemma FloorDivBounds(a: int, b: int)
    requires b > 0
    ensures FloorDiv(a, b) * b <= a < FloorDiv(a, b) * b + b
  {
  }

  /** `(rent_ceiling - rent_floor)/(size-1)` on ints: floor division. */
  function IntGradient(floor: int, ceiling: int, n: int): int
    requires n >= 2
  {
    FloorDiv(ceiling - floor, n - 1)
  }

  /** Canonical vertical factor of row i: `float(F)/float(C) + (g/C)*i`
      with the integer gradient g. */
  function VerticalFactor(floor: int, ceiling: int, n: int, i: int): real
    requires n >= 2 && ceiling != 0
  {
    floor as real / ceiling as real + Product(IntGradient(floor, ceiling, n) as real / ceiling as real, i as real)
  }

  /** From the all-ceiling start, row i gets F + g·i: the floor on row 0,
      rising by the integer gradient. */
  lemma VerticalRow(floor: int, ceiling: int, n: int, i: int)
    requires n >= 2 && ceiling != 0
    ensures ceiling as real * VerticalFactor(floor, ceiling, n, i)
         == (floor + IntGradient(floor, ceiling, n) * i) as real
  {
    var c := ceiling as real;
    var g := IntGradient(floor, ceiling, n) as real;
    assert c * (floor as real / c) == floor as real;
    assert c * ((g / c) * i as real) == g * i as real;
  }

  /** With floor <= ceiling the rows never decrease, never exceed the
      ceiling, and the last row falls short of it by exactly the remainder
      the floor division dropped. */
  lemma VerticalRowsRise(floor: int, ceiling: int, n: int, i: int, j: int)
    requires n >= 2 && 0 < ceiling && floor <= ceiling && 0 <= i <= j <= n - 1
    ensures floor + IntGradient(floor, ceiling, n) * i <= floor + IntGradient(floor, ceiling, n) * j <= ceiling
    ensures floor + IntGradient(floor, ceiling, n) * (n - 1) == ceiling - (ceiling - floor) % (n - 1)
  {
    var g := IntGradient(floor, ceiling, n);
    DivisionParts(ceiling - floor, n - 1);
    MulMono(g, i, j);
    MulMono(g, j, n - 1);
  }

  lemma DivisionParts(a: int, b: int)
    requires a >= 0 && b > 0
    ensures FloorDiv(a, b) >= 0 && a == FloorDiv(a, b) * b + a % b
  {
  }

  /** An illustration of `VerticalRowsRise`: the integer gradient can leave
      the top row below the ceiling; on an 8-block grid with floor 5000 and
      ceiling 200000 it gets 199999. */
  lemma VerticalShortfallExample()
    ensures IntGradient(5000, 200000, 8) == 27857
    ensures 5000 + IntGradient(5000, 200000, 8) * 7 == 199999
  {
  }

  /** Canonical diagonal factor of index k: `float(F/C) + (g/C)*k`, where
      `F/C` is an integer division. */
  function DiagonalFactor(floor: int, ceiling: int, n: int, k: int): real
    requires n >= 2 && ceiling != 0
  {
    FloorDiv(floor, ceiling) as real + Product(IntGradient(floor, ceiling, n) as real / ceiling as real, k as real)
  }

  /** The rows pass and then the columns pass multiply the all-ceiling
      start by the factor of the row and by the factor of the column. */
  function DiagonalRent(floor: int, ceiling: int, n: int, i: int, j: int): real
    requires n >= 2 && ceiling != 0
  {
    Product(Product(ceiling as real, DiagonalFactor(floor, ceiling, n, i)), DiagonalFactor(floor, ceiling, n, j))
  }

  /** With 0 <= floor < ceiling the integer `F/C` is 0, so row 0 and column
      0 get rent 0, and every cell lies in [0, ceiling]. */
  lemma DiagonalZeroEdges(floor: int, ceiling: int, n: int, i: int, j: int)
    requires n >= 2 && 0 <= floor < ceiling && 0 <= i < n && 0 <= j < n
    ensures DiagonalRent(floor, ceiling, n, 0, j) == 0.0 && DiagonalRent(floor, ceiling, n, i, 0) == 0.0
    ensures 0.0 <= DiagonalRent(floor, ceiling, n, i, j) <= ceiling as real
  {
    DiagonalFactorZero(floor, ceiling, n);
    DiagonalEdge(floor, ceiling, n, j);
    DiagonalEdge(floor, ceiling, n, i);
    DiagonalBounded(floor, ceiling, n, i, j);
  }

  lemma DiagonalFactorZero(floor: int, ceiling: int, n: int)
    requires n >= 2 && 0 <= floor < ceiling
    ensures DiagonalFactor(floor, ceiling, n, 0) == 0.0
  {
    assert FloorDiv(floor, ceiling) == 0;
  }

  lemma DiagonalEdge(floor: int, ceiling: int, n: int, k: int)
    requires n >= 2 && ceiling != 0 && DiagonalFactor(floor, ceiling, n, 0) == 0.0
    ensures DiagonalRent(floor, ceiling, n, 0, k) == 0.0 && DiagonalRent(floor, ceiling, n, k, 0) == 0.0
  {
    var c := ceiling as real;
    ScaledZero(c, DiagonalFactor(floor, ceiling, n, 0), DiagonalFactor(floor, ceiling, n, k));
    ScaledZero(c, DiagonalFactor(floor, ceiling, n, k), DiagonalFactor(floor, ceiling, n, 0));
  }

  lemma DiagonalBounded(floor: int, ceiling: int, n: int, i: int, j: int)
    requires n >= 2 && 0 <= floor < ceiling && 0 <= i < n && 0 <= j < n
    ensures 0.0 <= DiagonalRent(floor, ceiling, n, i, j) <= ceiling as real
  {
    DiagonalFactorUnit(floor, ceiling, n, i);
    DiagonalFactorUnit(floor, ceiling, n, j);
    ScaledUnitProduct(ceiling as real, DiagonalFactor(floor, ceiling, n, i), DiagonalFactor(floor, ceiling, n, j));
  }

  /** A ceiling scaled by two factors from [0, 1] stays in [0, ceiling]. */
  lemma ScaledUnitProduct(c: real, a: real, b: real)
    requires c > 0.0 && 0.0 <= a <= 1.0 && 0.0 <= b <= 1.0
    ensures 0.0 <= Product(Product(c, a), b) <= c
  {
    ScaleDown(c, a);
    ScaleDown(Product(c, a), b);
  }

  lemma ScaleDown(p: real, b: real)
    requires p >= 0.0 && 0.0 <= b <= 1.0
    ensures 0.0 <= Product(p, b) <= p
  {
    assert p * b >= 0.0;
    assert p - p * b == p * (1.0 - b);
  }

  lemma ScaledZero(c: real, a: real, b: real)
    requires a == 0.0 || b == 0.0
    ensures Product(Product(c, a), b) == 0.0
  {
  }

  lemma DiagonalFactorUnit(floor: int, ceiling: int, n: int, k: int)
    requires n >= 2 && 0 <= floor < ceiling && 0 <= k < n
    ensures 0.0 <= DiagonalFactor(floor, ceiling, n, k) <= 1.0
  {
    var g := IntGradient(floor, ceiling, n);
    GradientSpan(floor, ceiling, n, k);
    var gk := g * k;
    assert gk as real == g as real * k as real;
    var c := ceiling as real;
    assert FloorDiv(floor, ceiling) == 0;
    QuotientTimes(g as real, c, k as real);
    UnitQuotient(gk as real, c);
  }

  /** The integer gradient times an index stays within the rent span. */
  lemma GradientSpan(floor: int, ceiling: int, n: int, k: int)
    requires n >= 2 && 0 <= floor < ceiling && 0 <= k < n
    ensures 0 <= IntGradient(floor, ceiling, n) * k <= ceiling
  {
    var g := IntGradient(floor, ceiling, n);
    FloorDivBounds(ceiling - floor, n - 1);
    assert g >= 0;
    MulMono(g, k, n - 1);
  }

  lemma MulMono(g: int, a: int, b: int)
    requires g >= 0 && 0 <= a <= b
    ensures 0 <= g * a <= g * b
  {
  }

  lemma QuotientTimes(x: real, c: real, k: real)
    requires c != 0.0
    ensures Product(x / c, k) == (x * k) / c
  {
  }

  lemma UnitQuotient(x: real, c: real)
    requires 0.0 <= x <= c && c > 0.0
    ensures 0.0 <= x / c <= 1.0
  {
    var q := x / c;
    assert q * c == x;
    assert (1.0 - q) * c == c - x;
  }

  /** Draft gradient: `(C - F)/(size - 1)` in float division. */
  function DraftGradient(floor: int, ceiling: int, n: int): real
    requires n >= 2
  {
    (ceiling - floor) as real / (n - 1) as real
  }

  /** Draft vertical factor: float division throughout. */
  function DraftFactor(floor: int, ceiling: int, n: int, k: int): real
    requires n >= 2 && ceiling != 0
  {
    floor as real / ceiling as real + Product(DraftGradient(floor, ceiling, n) / ceiling as real, k as real)
  }

  /** The rent the draft vertical setter leaves on row k: the all-ceiling
      start times the row's factor. */
  function DraftVerticalRent(floor: int, ceiling: int, n: int, k: int): real
    requires n >= 2 && ceiling != 0
  {
    Product(ceiling as real, DraftFactor(floor, ceiling, n, k))
  }

  /** Draft vertical rows: row i gets F + i·(C−F)/(n−1) exactly, so row 0
      is the floor, the last row the ceiling, and rows rise with i. */
  lemma DraftVerticalRows(floor: int, ceiling: int, n: int, i: int, j: int)
    requires n >= 2 && ceiling != 0
    ensures DraftVerticalRent(floor, ceiling, n, i)
         == floor as real + Product(i as real, DraftGradient(floor, ceiling, n))
    ensures DraftVerticalRent(floor, ceiling, n, 0) == floor as real
    ensures DraftVerticalRent(floor, ceiling, n, n - 1) == ceiling as real
    ensures floor <= ceiling && i <= j ==>
      DraftVerticalRent(floor, ceiling, n, i) <= DraftVerticalRent(floor, ceiling, n, j)
  {
    var g := DraftGradient(floor, ceiling, n);
    DraftScaled(floor, ceiling, n, i);
    DraftScaled(floor, ceiling, n, j);
    DraftScaled(floor, ceiling, n, 0);
    DraftScaled(floor, ceiling, n, n - 1);
    assert Product((n - 1) as real, g) == (ceiling - floor) as real;
    if floor <= ceiling && i <= j {
      StepsRise(g, i as real, j as real);
    }
  }

  lemma StepsRise(g: real, a: real, b: real)
    requires g >= 0.0 && a <= b
    ensures Product(a, g) <= Product(b, g)
  {
    assert b * g - a * g == (b - a) * g;
  }

  /** Row k of the draft gradient, scaled back by the ceiling. */
  lemma DraftScaled(floor: int, ceiling: int, n: int, k: int)
    requires n >= 2 && ceiling != 0
    ensures DraftVerticalRent(floor, ceiling, n, k)
         == floor as real + Product(k as real, DraftGradient(floor, ceiling, n))
  {
    var c := ceiling as real;
    var g := DraftGradient(floor, ceiling, n);
    var q := Product(g / c, k as real);
    assert c * (floor as real / c) == floor as real;
    assert c * q == g * k as real;
    assert c * (floor as real / c + q) == c * (floor as real / c) + c * q;
  }

  /** Draft diagonal cell: ceiling times the row factor times the column
      factor. */
  function DraftDiagonalRent(floor: int, ceiling: int, n: int, i: int, j: int): real
    requires n >= 2 && ceiling != 0
  {
    Product(Product(ceiling as real, DraftFactor(floor, ceiling, n, i)), DraftFactor(floor, ceiling, n, j))
  }

  lemma DraftFactorUnit(floor: int, ceiling: int, n: int, k: int)
    requires n >= 2 && 0 <= floor <= ceiling && 0 < ceiling && 0 <= k < n
    ensures 0.0 <= DraftFactor(floor, ceiling, n, k) <= 1.0
  {
    DraftScaled(floor, ceiling, n, k);
    GradientSteps(floor as real, ceiling as real, (n - 1) as real, k as real);
    UnitFromScaled(DraftFactor(floor, ceiling, n, k), ceiling as real);
  }

  /** k of the n−1 equal steps from floor to ceiling stay within them. */
  lemma GradientSteps(floor: real, ceiling: real, m: real, k: real)
    requires 0.0 <= floor <= ceiling && m > 0.0 && 0.0 <= k <= m
    ensures floor <= floor + Product(k, (ceiling - floor) / m) <= ceiling
  {
    var g := (ceiling - floor) / m;
    assert g * m == ceiling - floor;
    assert g >= 0.0;
    assert k * g <= m * g;
  }

  lemma UnitFromScaled(x: real, c: real)
    requires c > 0.0 && 0.0 <= Product(c, x) <= c
    ensures 0.0 <= x <= 1.0
  {
    var p := Product(c, x);
    assert p / c * c == p;
    assert (p / c - x) * c == 0.0;
    UnitQuotient(p, c);
  }

  /** A factor that leaves a positive value unchanged is one. */
  lemma OneFromScaled(c: real, x: real)
    requires c > 0.0 && c * x == c
    ensures x == 1.0
  {
    if x < 1.0 {
      PositiveProduct(c, 1.0 - x);
    } else if x > 1.0 {
      PositiveProduct(c, x - 1.0);
    }
  }

  /** Draft diagonal: the far corner gets the ceiling, and with
      0 <= floor <= ceiling no cell exceeds it. */
  lemma DraftDiagonalBounded(floor: int, ceiling: int, n: int, i: int, j: int)
    requires n >= 2 && 0 <= floor <= ceiling && 0 < ceiling && 0 <= i < n && 0 <= j < n
    ensures DraftDiagonalRent(floor, ceiling, n, n - 1, n - 1) == ceiling as real
    ensures 0.0 <= DraftDiagonalRent(floor, ceiling, n, i, j) <= ceiling as real
  {
    var c := ceiling as real;
    var top := DraftFactor(floor, ceiling, n, n - 1);
    DraftVerticalRows(floor, ceiling, n, 0, n - 1);
    assert c * top == c;
    OneFromScaled(c, top);
    DraftFactorUnit(floor, ceiling, n, i);
    DraftFactorUnit(floor, ceiling, n, j);
    ScaledUnitProduct(c, DraftFactor(floor, ceiling, n, i), DraftFactor(floor, ceiling, n, j));
  }

  /** `linear_rent_function`: the ceiling at the district, falling linearly
      to the floor at distance dmax. */
  function LinearRent(floor: int, ceiling: int, dmax: real, d: real): real
    requires dmax != 0.0
  {
    ceiling as real + ((floor as real - ceiling as real) / dmax) * d
  }

  lemma LinearRentEnds(floor: int, ceiling: int, dmax: real, d1: real, d2: real)
    requires dmax > 0.0
    ensures LinearRent(floor, ceiling, dmax, 0.0) == ceiling as real
    ensures LinearRent(floor, ceiling, dmax, dmax) == floor as real
    ensures floor < ceiling && d1 < d2 ==> LinearRent(floor, ceiling, dmax, d2) < LinearRent(floor, ceiling, dmax, d1)
  {
    var alpha := (floor as real - ceiling as real) / dmax;
    assert alpha * dmax == floor as real - ceiling as real;
    if floor < ceiling && d1 < d2 {
      assert alpha < 0.0;
      assert alpha * d2 < alpha * d1;
    }
  }

  /** `exponential_rent_function`: `C * e**(-Lambda*d)` with
      `Lambda = log(F/C) * (-1/dmax)`. */
  function ExponentialRent(l: Laws, floor: int, ceiling: int, dmax: real, d: real): real
    requires ceiling != 0 && dmax != 0.0
  {
    ceiling as real * l.exp(Exponent(l, floor, ceiling, dmax, d))
  }

  /** The exponent `-Lambda*d`. */
  function Exponent(l: Laws, floor: int, ceiling: int, dmax: real, d: real): real
    requires ceiling != 0 && dmax != 0.0
  {
    -DecayRate(l, floor, ceiling, dmax) * d
  }

  /** `Lambda = log(F/C) * (-1/dmax)`. */
  function DecayRate(l: Laws, floor: int, ceiling: int, dmax: real): real
    requires ceiling != 0 && dmax != 0.0
  {
    l.ln(floor as real / ceiling as real) * (-1.0 / dmax)
  }

  /** It gives the ceiling at the district itself and the floor at distance
      dmax, and it is never negative when the ceiling is not. */
  lemma ExponentialRentEnds(l: Laws, floor: int, ceiling: int, dmax: real, d: real)
    requires LawsHold(l) && 0 < floor && 0 < ceiling && dmax != 0.0
    ensures ExponentialRent(l, floor, ceiling, dmax, 0.0) == ceiling as real
    ensures ExponentialRent(l, floor, ceiling, dmax, dmax) == floor as real
    ensures ExponentialRent(l, floor, ceiling, dmax, d) > 0.0
  {
    var ratio := floor as real / ceiling as real;
    assert Exponent(l, floor, ceiling, dmax, 0.0) == 0.0;
    DecayOverDmax(l, floor, ceiling, dmax);
    assert l.exp(l.ln(ratio)) == ratio;
    assert ceiling as real * ratio == floor as real;
    PositiveProduct(ceiling as real, l.exp(Exponent(l, floor, ceiling, dmax, d)));
  }

  /** Over the whole distance dmax the exponent is `log(F/C)`. */
  lemma DecayOverDmax(l: Laws, floor: int, ceiling: int, dmax: real)
    requires ceiling != 0 && dmax != 0.0
    ensures Exponent(l, floor, ceiling, dmax, dmax) == l.ln(floor as real / ceiling as real)
  {
    var lg := l.ln(floor as real / ceiling as real);
    var inv := 1.0 / dmax;
    assert -1.0 / dmax == -inv;
    assert inv * dmax == 1.0;
    assert -DecayRate(l, floor, ceiling, dmax) == lg * inv;
    assert lg * inv * dmax == lg * (inv * dmax);
  }

  /** `int(np.ceil(size * 0.5))`: the first index of the upper half. */
  function Bisector(n: nat): nat
  {
    (n + 1) / 2
  }

  /** The four business districts: upper-left, lower-left, upper-right and
      lower-right blocks of the bisected grid, each in row-major order. */
  function District(n: nat, q: nat): seq<Coord>
    requires 1 <= q <= 4
  {
    var (i0, ni, j0, nj) := DistrictBounds(n, q);
    Rect(i0, ni, j0, nj)
  }

  /** First row, row count, first column and column count of a district. */
  function DistrictBounds(n: nat, q: nat): (nat, nat, nat, nat)
    requires 1 <= q <= 4
  {
    var h := Bisector(n);
    match q
    case 1 => (0, h, 0, h)
    case 2 => (h, n - h, 0, h)
    case 3 => (0, h, h, n - h)
    case _ => (h, n - h, h, n - h)
  }

  /** The district a block belongs to. */
  function DistrictOf(n: nat, c: Coord): (q: nat)
    ensures 1 <= q <= 4
  {
    var h := Bisector(n);
    if c.0 < h then (if c.1 < h then 1 else 3)
    else (if c.1 < h then 2 else 4)
  }

  /** The districts partition the grid: a block of the grid lies in the
      district `DistrictOf` names and in no other, and no district holds an
      off-grid pair. */
  lemma DistrictsPartition(n: nat, c: Coord, q: nat)
    requires 1 <= q <= 4
    ensures c in District(n, q) <==> InBounds(n, c) && DistrictOf(n, c) == q
  {
    var (i0, ni, j0, nj) := DistrictBounds(n, q);
    RectExact(i0, ni, j0, nj, c);
  }

  /** Every block a district lists lies on the grid and belongs to that
      district. */
  lemma DistrictMembers(n: nat, q: nat)
    requires 1 <= q <= 4
    ensures forall m :: 0 <= m < |District(n, q)| ==>
      InBounds(n, District(n, q)[m]) && DistrictOf(n, District(n, q)[m]) == q
  {
    forall m | 0 <= m < |District(n, q)|
      ensures InBounds(n, District(n, q)[m]) && DistrictOf(n, District(n, q)[m]) == q
    {
      DistrictsPartition(n, District(n, q)[m], q);
    }
  }

  /** The quadrant loop indexes all four districts by the first one's
      length, which is in range for every district exactly when the size
      is even; together the districts hold n² blocks. */
  lemma DistrictSizes(n: nat)
    requires n >= 1
    ensures |District(n, 1)| + |District(n, 2)| + |District(n, 3)| + |District(n, 4)| == n * n
    ensures (|District(n, 2)| >= |District(n, 1)| && |District(n, 3)| >= |District(n, 1)|
             && |District(n, 4)| >= |District(n, 1)|) <==> n % 2 == 0
  {
    var h := Bisector(n);
    var m := n - h;
    assert |District(n, 1)| == h * h;
    assert |District(n, 2)| == m * h;
    assert |District(n, 3)| == h * m;
    assert |District(n, 4)| == m * m;
    QuadrantArea(h, m);
  }

  /** The arithmetic of the bisection: h = ceil(n/2) rows above, m = n - h
      below, with m = h for even n and m = h - 1 for odd n. */
  lemma QuadrantArea(h: nat, m: nat)
    requires h >= 1 && (m == h || m == h - 1)
    ensures h * h + m * h + h * m + m * m == (h + m) * (h + m)
    ensures (m * h >= h * h && h * m >= h * h && m * m >= h * h) <==> m == h
  {
    if m == h - 1 {
      assert m * h < h * h;
    }
  }

  /** The district centres: `np.ceil(size*0.25)` and `np.ceil(size*0.75)`
      combined per quadrant. */
  function Centre(n: nat, q: nat): (real, real)
    requires 1 <= q <= 4
  {
    var lo := ((n + 3) / 4) as real;
    var hi := ((3 * n + 3) / 4) as real;
    match q
    case 1 => (lo, lo)
    case 2 => (hi, lo)
    case 3 => (lo, hi)
    case _ => (hi, hi)
  }

  /** The central business district: `np.ceil(size*0.5)` on both axes. */
  function CentralDistrict(n: nat): (real, real)
  {
    (Bisector(n) as real, Bisector(n) as real)
  }

  /** `distance_rent_function`: Euclidean distance between a block and a
      district centre. */
  function Distance(l: Laws, c: Coord, centre: (real, real)): real
  {
    var dx := c.0 as real - centre.0;
    var dy := c.1 as real - centre.1;
    l.sqrt(Sq(dx) + Sq(dy))
  }

  /** Distances are non-negative, and zero exactly at the centre. */
  lemma DistanceZeroIff(l: Laws, c: Coord, centre: (real, real))
    requires LawsHold(l)
    ensures Distance(l, c, centre) >= 0.0
    ensures Distance(l, c, centre) == 0.0 <==> c.0 as real == centre.0 && c.1 as real == centre.1
  {
    var dx := c.0 as real - centre.0;
    var dy := c.1 as real - centre.1;
    var s := Sq(dx) + Sq(dy);
    SquarePositive(dx);
    SquarePositive(dy);
    var r := l.sqrt(s);
    assert Sq(r) == s;
    SquarePositive(r);
  }

  /** The distances of a block list to one centre, in list order. */
  function Distances(l: Laws, blocks: seq<Coord>, centre: (real, real)): (r: seq<real>)
    ensures |r| == |blocks|
    decreases |blocks|
  {
    if |blocks| == 0 then []
    else Distances(l, blocks[..|blocks| - 1], centre) + [Distance(l, blocks[|blocks| - 1], centre)]
  }

  /** The k-th distance is the k-th block's distance. */
  lemma {:induction false} DistancesAt(l: Laws, blocks: seq<Coord>, centre: (real, real))
    ensures forall k :: 0 <= k < |blocks| ==> Distances(l, blocks, centre)[k] == Distance(l, blocks[k], centre)
    decreases |blocks|
  {
    if |blocks| > 0 {
      DistancesAt(l, blocks[..|blocks| - 1], centre);
    }
  }

  /** `max(...)` of a non-empty list. */
  function Largest(s: seq<real>): (m: real)
    requires |s| > 0
    decreases |s|
  {
    if |s| == 1 then s[0]
    else
      var m := Largest(s[..|s| - 1]);
      if s[|s| - 1] > m then s[|s| - 1] else m
  }

  /** `max` returns an element of the list that no element exceeds. */
  lemma {:induction false} LargestIsMax(s: seq<real>)
    requires |s| > 0
    ensures Largest(s) in s && forall x :: x in s ==> x <= Largest(s)
    decreases |s|
  {
    if |s| > 1 {
      var init := s[..|s| - 1];
      LargestIsMax(init);
      assert s == init + [s[|s| - 1]];
    }
  }

  /** A list holding a block off the centre has a positive largest
      distance, so `-1/dmax` does not divide by zero: the corner (0,0)
      serves for the first district and for the central district. */
  lemma LargestDistancePositive(l: Laws, blocks: seq<Coord>, centre: (real, real), c: Coord)
    requires LawsHold(l) && c in blocks && (c.0 as real != centre.0 || c.1 as real != centre.1)
    ensures |blocks| > 0 && Largest(Distances(l, blocks, centre)) > 0.0
  {
    var ds := Distances(l, blocks, centre);
    var k :| 0 <= k < |blocks| && blocks[k] == c;
    DistanceZeroIff(l, c, centre);
    DistancesAt(l, blocks, centre);
    LargestIsMax(ds);
    assert ds[k] in ds;
  }

  /** Which distance-based gradient a district setter applies. */
  datatype Gradient = Exponential | Linear

  function GradientRent(g: Gradient, l: Laws, floor: int, ceiling: int, dmax: real, d: real): real
    requires (g == Exponential ==> ceiling != 0) && dmax != 0.0
  {
    match g
    case Exponential => ExponentialRent(l, floor, ceiling, dmax, d)
    case Linear => LinearRent(floor, ceiling, dmax, d)
  }

  /** Canonical perturbation of one cell (`randomize_distribution`): the
      cell is multiplied by its factor unless that would exceed the cap;
      an integer grid truncates the product. */
  function Perturbed(v: real, factor: real, cap: real, integral: bool): real
  {
    if v * factor > cap then v
    else if integral then Truncate(v * factor) as real
    else v * factor
  }

  /** numpy's float-to-int store: truncation toward zero. */
  function Truncate(x: real): int
  {
    if x >= 0.0 then x.Floor else -((-x).Floor)
  }

  /** A perturbed cell never rises above the cap unless it already was
      above it, never moves from a non-negative to a negative value, and is
      either the old value or the (truncated) product. */
  lemma PerturbedBounds(v: real, factor: real, cap: real, integral: bool)
    requires v >= 0.0 && factor > 0.0
    ensures Perturbed(v, factor, cap, integral) >= 0.0
    ensures v <= cap ==> Perturbed(v, factor, cap, integral) <= cap
    ensures Perturbed(v, factor, cap, integral) == v ||
            Perturbed(v, factor, cap, integral) == (if integral then Truncate(v * factor) as real else v * factor)
  {
    if v * factor <= cap && integral {
      assert v * factor >= 0.0;
      assert Truncate(v * factor) as real <= v * factor;
    }
  }

  /** An illustration of `PerturbedBounds`: only the ceiling is guarded, so
      a factor below one can push a floor-level rent under the floor
      (5000 × 0.8 = 4000). */
  lemma PerturbationCanUndercutFloor()
    ensures Perturbed(5000.0, 0.8, 200000.0, false) == 4000.0
  {
  }

  /** The factor the vertical setter applies to row `k`: the canonical
      engine's integer gradient, or the draft's float one. */
  function RowFactor(draft: bool, floor: int, ceiling: int, n: int, k: int): real
    requires n >= 2 && ceiling != 0
  {
    if draft then DraftFactor(floor, ceiling, n, k) else VerticalFactor(floor, ceiling, n, k)
  }

  /** The factor the diagonal setter applies to row and to column `k`:
      the canonical engine's integer `F/C`, or the draft's float one. */
  function CrossFactor(draft: bool, floor: int, ceiling: int, n: int, k: int): real
    requires n >= 2 && ceiling != 0
  {
    if draft then DraftFactor(floor, ceiling, n, k) else DiagonalFactor(floor, ceiling, n, k)
  }

  /** The blocks of four equally long districts in the order the quadrant
      setter visits them: the k-th block of each district in turn. */
  function Abreast(d1: seq<Coord>, d2: seq<Coord>, d3: seq<Coord>, d4: seq<Coord>): (r: seq<Coord>)
    requires |d2| == |d1| && |d3| == |d1| && |d4| == |d1|
    ensures |r| == 4 * |d1|
  {
    if |d1| == 0 then []
    else [d1[0], d2[0], d3[0], d4[0]] + Abreast(d1[1..], d2[1..], d3[1..], d4[1..])
  }

  /** The visit covers the four districts and nothing else. */
  lemma {:induction false} AbreastMembers(d1: seq<Coord>, d2: seq<Coord>, d3: seq<Coord>, d4: seq<Coord>)
    requires |d2| == |d1| && |d3| == |d1| && |d4| == |d1|
    ensures forall c :: c in Abreast(d1, d2, d3, d4) <==> c in d1 || c in d2 || c in d3 || c in d4
  {
    if |d1| > 0 {
      AbreastMembers(d1[1..], d2[1..], d3[1..], d4[1..]);
      assert d1 == [d1[0]] + d1[1..];
      assert d2 == [d2[0]] + d2[1..];
      assert d3 == [d3[0]] + d3[1..];
      assert d4 == [d4[0]] + d4[1..];
    }
  }

  /** The order in which the quadrant setter writes an even-sized grid. */
  function QuadrantOrder(n: nat): (r: seq<Coord>)
    requires n % 2 == 0
  {
    assert Bisector(n) == n - Bisector(n);
    Abreast(District(n, 1), District(n, 2), District(n, 3), District(n, 4))
  }

  /** The quadrant setter writes every block of an even-sized grid, and
      only blocks of the grid. */
  lemma QuadrantOrderExact(n: nat, c: Coord)
    requires n % 2 == 0
    ensures c in QuadrantOrder(n) <==> InBounds(n, c)
  {
    assert Bisector(n) == n - Bisector(n);
    AbreastMembers(District(n, 1), District(n, 2), District(n, 3), District(n, 4));
    DistrictsPartition(n, c, 1);
    DistrictsPartition(n, c, 2);
    DistrictsPartition(n, c, 3);
    DistrictsPartition(n, c, 4);
  }

  lemma QuadrantOrderBounds(n: nat)
    requires n % 2 == 0
    ensures forall m :: 0 <= m < |QuadrantOrder(n)| ==> InBounds(n, QuadrantOrder(n)[m])
  {
    forall m | 0 <= m < |QuadrantOrder(n)| ensures InBounds(n, QuadrantOrder(n)[m]) {
      QuadrantOrderExact(n, QuadrantOrder(n)[m]);
    }
  }

  /** A store into the rent grid: an integer grid (after
      `random_distribution`) truncates the value. */
  function StoredRent(v: real, integral: bool): real
  {
    if integral then Truncate(v) as real else v
  }

  /** A rent cell multiplied by `factor` and stored back into the grid
      (`self.rent[i] = self.rent[i] * gg`). */
  function Scaled(v: real, factor: real, integral: bool): real
  {
    StoredRent(v * factor, integral)
  }

  /** A float store keeps the value; an integer store of a non-negative
      value drops its fractional part. */
  lemma StoredRentBounds(v: real, integral: bool)
    ensures !integral ==> StoredRent(v, integral) == v
    ensures integral && v >= 0.0 ==> 0.0 <= StoredRent(v, integral) <= v && v - StoredRent(v, integral) < 1.0
  {
  }

  /** The largest distance of the first district to its centre
      (`self.dmax` of the quadrant setter), which serves all four. */
  function QuadrantReach(l: Laws, n: nat): (d: real)
    requires LawsHold(l) && n >= 1
    ensures d > 0.0
  {
    QuadrantReachPositive(l, n);
    Largest(Distances(l, District(n, 1), Centre(n, 1)))
  }

  /** The first district holds the corner (0, 0), which lies off its
      centre. */
  lemma QuadrantReachPositive(l: Laws, n: nat)
    requires LawsHold(l) && n >= 1
    ensures |District(n, 1)| > 0 && Largest(Distances(l, District(n, 1), Centre(n, 1))) > 0.0
  {
    DistrictsPartition(n, (0, 0), 1);
    LargestDistancePositive(l, District(n, 1), Centre(n, 1), (0, 0));
  }

  /** The rent the quadrant setter gives block `c`: the gradient `g`
      (exponential in the canonical engine) from the centre of the block's
      own district. */
  function QuadrantRent(l: Laws, g: Gradient, floor: int, ceiling: int, n: nat, c: Coord): real
    requires LawsHold(l) && n >= 1 && (g == Exponential ==> ceiling != 0)
  {
    GradientRent(g, l, floor, ceiling, QuadrantReach(l, n), Distance(l, c, Centre(n, DistrictOf(n, c))))
  }

  /** The largest distance of any block to the central district. */
  function CentralReach(l: Laws, n: nat): (d: real)
    requires LawsHold(l) && n >= 1
    ensures d > 0.0
  {
    CentralReachPositive(l, n);
    Largest(Distances(l, Blocks(n), CentralDistrict(n)))
  }

  /** The grid holds the corner (0, 0), which lies off the central
      district. */
  lemma CentralReachPositive(l: Laws, n: nat)
    requires LawsHold(l) && n >= 1
    ensures |Blocks(n)| > 0 && Largest(Distances(l, Blocks(n), CentralDistrict(n))) > 0.0
  {
    RectCovers(0, n, 0, n, (0, 0));
    LargestDistancePositive(l, Blocks(n), CentralDistrict(n), (0, 0));
  }

  /** The rent the central-business-district setter gives block `c`
      under gradient `g`. */
  function CentralRent(l: Laws, g: Gradient, floor: int, ceiling: int, n: nat, c: Coord): real
    requires LawsHold(l) && n >= 1 && (g == Exponential ==> ceiling != 0)
  {
    GradientRent(g, l, floor, ceiling, CentralReach(l, n), Distance(l, c, CentralDistrict(n)))
  }

  /** The `gradient` argument of the engine's constructor; any other
      value leaves the rent uniform. */
  datatype Layout = Uniform | Vertical | Diagonal | RandomRent | Quadrants | Central

  /** Whether the setter of a layout runs to the end on an n x n grid with
      the given floor and ceiling: the gradients divide by `size-1`, the
      ratio divides by the ceiling, `randint` needs floor < ceiling, `max`
      needs a non-empty district, and the quadrant loop leaves the shorter
      districts' range when n is odd. */
  predicate Laid(g: Layout, floor: int, ceiling: int, n: nat)
  {
    match g
    case Uniform => true
    case Vertical => n != 1 && ceiling != 0
    case Diagonal => n != 1 && ceiling != 0
    case RandomRent => floor < ceiling
    case Quadrants => n >= 1 && n % 2 == 0 && ceiling != 0
    case Central => n >= 1 && ceiling != 0
  }

  /** The rent of block `c` once the layout's setter has run on the
      all-ceiling grid; `draft` selects the draft's float gradients and
      `draw` is the grid `randint` returns. */
  function LaidOut(g: Layout, draft: bool, l: Laws, floor: int, ceiling: int, n: nat, draw: (int, int) -> int, c: Coord): real
    requires LawsHold(l) && Laid(g, floor, ceiling, n) && InBounds(n, c)
  {
    match g
    case Uniform => ceiling as real
    case Vertical =>
      if draft then DraftVerticalRent(floor, ceiling, n, c.0) else ceiling as real * VerticalFactor(floor, ceiling, n, c.0)
    case Diagonal =>
      if draft then DraftDiagonalRent(floor, ceiling, n, c.0, c.1) else DiagonalRent(floor, ceiling, n, c.0, c.1)
    case RandomRent => draw(c.0, c.1) as real
    case Quadrants => QuadrantRent(l, Exponential, floor, ceiling, n, c)
    case Central => CentralRent(l, Exponential, floor, ceiling, n, c)
  }

  /** The vertical setter applied to the all-ceiling grid gives the
      vertical layout. */
  lemma VerticalSetter(draft: bool, floor: int, ceiling: int, n: int, i: int)
    requires n >= 2 && ceiling != 0
    ensures Scaled(ceiling as real, RowFactor(draft, floor, ceiling, n, i), false) ==
      if draft then DraftVerticalRent(floor, ceiling, n, i) else ceiling as real * VerticalFactor(floor, ceiling, n, i)
  {
  }

  /** The diagonal setter applied to the all-ceiling grid gives the
      diagonal layout. */
  lemma DiagonalSetter(draft: bool, floor: int, ceiling: int, n: int, i: int, j: int)
    requires n >= 2 && ceiling != 0
    ensures Scaled(Scaled(ceiling as real, CrossFactor(draft, floor, ceiling, n, i), false), CrossFactor(draft, floor, ceiling, n, j), false) ==
      if draft then DraftDiagonalRent(floor, ceiling, n, i, j) else DiagonalRent(floor, ceiling, n, i, j)
  {
    var a, b := CrossFactor(draft, floor, ceiling, n, i), CrossFactor(draft, floor, ceiling, n, j);
    assert Scaled(Scaled(ceiling as real, a, false), b, false) == Product(Product(ceiling as real, a), b);
  }

  /** Both vertical gradients keep row i between the floor and the
      ceiling. */
  lemma VerticalLaid(draft: bool, floor: int, ceiling: int, n: int, i: int)
    requires n >= 2 && 0 < floor <= ceiling && 0 <= i < n
    ensures var r := if draft then DraftVerticalRent(floor, ceiling, n, i) else ceiling as real * VerticalFactor(floor, ceiling, n, i);
      floor as real <= r <= ceiling as real
  {
    if draft {
      DraftVerticalRows(floor, ceiling, n, 0, i);
      DraftVerticalRows(floor, ceiling, n, i, n - 1);
    } else {
      VerticalRow(floor, ceiling, n, i);
      VerticalRowsRise(floor, ceiling, n, 0, i);
    }
  }

  /** Both diagonal gradients keep every cell between 0 and the ceiling;
      with floor = ceiling the canonical factors are all 1. */
  lemma DiagonalLaid(draft: bool, floor: int, ceiling: int, n: int, i: int, j: int)
    requires n >= 2 && 0 < floor <= ceiling && 0 <= i < n && 0 <= j < n
    ensures var r := if draft then DraftDiagonalRent(floor, ceiling, n, i, j) else DiagonalRent(floor, ceiling, n, i, j);
      0.0 <= r <= ceiling as real
  {
    if draft {
      DraftDiagonalBounded(floor, ceiling, n, i, j);
    } else if floor < ceiling {
      DiagonalBounded(floor, ceiling, n, i, j);
    } else {
      assert FloorDiv(floor, ceiling) == 1 && IntGradient(floor, ceiling, n) == 0;
    }
  }

  /** With a positive floor at or below the ceiling and `randint` drawing
      from [floor, ceiling), every layout gives every block a
      non-negative rent; all but the distance-based ones stay at or below
      the ceiling, and the vertical one stays at or above the floor. */
  lemma LaidOutRange(g: Layout, draft: bool, l: Laws, floor: int, ceiling: int, n: nat, draw: (int, int) -> int, c: Coord)
    requires LawsHold(l) && Laid(g, floor, ceiling, n) && InBounds(n, c)
    requires 0 < floor <= ceiling
    requires g == RandomRent ==> floor <= draw(c.0, c.1) < ceiling
    ensures LaidOut(g, draft, l, floor, ceiling, n, draw, c) >= 0.0
    ensures g != Quadrants && g != Central ==> LaidOut(g, draft, l, floor, ceiling, n, draw, c) <= ceiling as real
    ensures g == Vertical ==> LaidOut(g, draft, l, floor, ceiling, n, draw, c) >= floor as real
  {
    match g
    case Uniform =>
    case Vertical =>
      VerticalLaid(draft, floor, ceiling, n, c.0);
    case Diagonal =>
      DiagonalLaid(draft, floor, ceiling, n, c.0, c.1);
    case RandomRent =>
    case Quadrants =>
      ExponentialRentEnds(l, floor, ceiling, QuadrantReach(l, n), Distance(l, c, Centre(n, DistrictOf(n, c))));
    case Central =>
      ExponentialRentEnds(l, floor, ceiling, CentralReach(l, n), Distance(l, c, CentralDistrict(n)));
  }

  /** The canonical engine's `rent_floor`, fixed by its constructor. */
  const CanonicalRentFloor: int := 5000

  /** The canonical constructor's rent of block `c`: the layout on the
      all-ceiling grid, then, with `randomize`, the cell perturbed by the
      unit draw `u` under the ceiling (truncated when the grid is the
      integer one `randint` returned). */
  function InitialRent(g: Layout, l: Laws, ceiling: int, n: nat, draw: (int, int) -> int, randomize: bool, u: real, c: Coord): real
    requires LawsHold(l) && Laid(g, CanonicalRentFloor, ceiling, n) && InBounds(n, c)
  {
    var v := LaidOut(g, false, l, CanonicalRentFloor, ceiling, n, draw, c);
    if randomize then Perturbed(v, RandomFloatRange(u, 0.75, 1.25), ceiling as real, g == RandomRent) else v
  }

  /** The canonical constructor's income of block `c`: four times the
      laid-out rent, then, with `randomize`, perturbed by its own draw `u`
      under four times the ceiling. */
  function InitialIncome(g: Layout, l: Laws, ceiling: int, n: nat, draw: (int, int) -> int, randomize: bool, u: real, c: Coord): real
    requires LawsHold(l) && Laid(g, CanonicalRentFloor, ceiling, n) && InBounds(n, c)
  {
    var v := LaidOut(g, false, l, CanonicalRentFloor, ceiling, n, draw, c) * 4.0;
    if randomize then Perturbed(v, RandomFloatRange(u, 0.75, 1.25), (ceiling * 4) as real, false) else v
  }

  /** The starting rent and income unfolded: the laid-out values,
      perturbed when `randomize` is set. */
  lemma InitialUnfolded(g: Layout, l: Laws, ceiling: int, n: nat, draw: (int, int) -> int, randomize: bool, u: real, w: real, c: Coord)
    requires LawsHold(l) && Laid(g, CanonicalRentFloor, ceiling, n) && InBounds(n, c)
    ensures var v := LaidOut(g, false, l, CanonicalRentFloor, ceiling, n, draw, c);
      InitialRent(g, l, ceiling, n, draw, randomize, u, c) ==
      (if randomize then Perturbed(v, RandomFloatRange(u, 0.75, 1.25), ceiling as real, g == RandomRent) else v)
    ensures var v := LaidOut(g, false, l, CanonicalRentFloor, ceiling, n, draw, c) * 4.0;
      InitialIncome(g, l, ceiling, n, draw, randomize, w, c) ==
      (if randomize then Perturbed(v, RandomFloatRange(w, 0.75, 1.25), (ceiling * 4) as real, false) else v)
  {
  }

  /** With a ceiling at or above the floor, the starting rents and incomes
      are never negative, and outside the distance-based layouts the
      randomisation never lifts them over the ceiling (four times the
      ceiling for income). */
  lemma InitialRange(g: Layout, l: Laws, ceiling: int, n: nat, draw: (int, int) -> int, randomize: bool, u: real, w: real, c: Coord)
    requires LawsHold(l) && Laid(g, CanonicalRentFloor, ceiling, n) && InBounds(n, c)
    requires CanonicalRentFloor <= ceiling
    requires g == RandomRent ==> CanonicalRentFloor <= draw(c.0, c.1) < ceiling
    requires randomize ==> 0.0 <= u < 1.0 && 0.0 <= w < 1.0
    ensures InitialRent(g, l, ceiling, n, draw, randomize, u, c) >= 0.0
    ensures InitialIncome(g, l, ceiling, n, draw, randomize, w, c) >= 0.0
    ensures g != Quadrants && g != Central ==>
      InitialRent(g, l, ceiling, n, draw, randomize, u, c) <= ceiling as real &&
      InitialIncome(g, l, ceiling, n, draw, randomize, w, c) <= (4 * ceiling) as real
  {
    var v := LaidOut(g, false, l, CanonicalRentFloor, ceiling, n, draw, c);
    LaidOutRange(g, false, l, CanonicalRentFloor, ceiling, n, draw, c);
    if randomize {
      PerturbedBounds(v, RandomFloatRange(u, 0.75, 1.25), ceiling as real, g == RandomRent);
      PerturbedBounds(v * 4.0, RandomFloatRange(w, 0.75, 1.25), (ceiling * 4) as real, false);
    }
  }

  /** Every starting rent of a grid with a ceiling at or above the floor
      is non-negative. */
  lemma InitialRentsNonNegative(g: Layout, l: Laws, ceiling: int, n: nat, draw: (int, int) -> int, randomize: bool,
                                rentVary: (int, int) -> real)
    requires LawsHold(l) && Laid(g, CanonicalRentFloor, ceiling, n) && CanonicalRentFloor <= ceiling
    requires g == RandomRent ==> forall i, j :: 0 <= i < n && 0 <= j < n ==> CanonicalRentFloor <= draw(i, j) < ceiling
    requires randomize ==> forall i, j :: 0 <= i < n && 0 <= j < n ==> 0.0 <= rentVary(i, j) < 1.0
    ensures forall i, j :: 0 <= i < n && 0 <= j < n ==> InitialRent(g, l, ceiling, n, draw, randomize, rentVary(i, j), (i, j)) >= 0.0
  {
    forall i, j | 0 <= i < n && 0 <= j < n
      ensures InitialRent(g, l, ceiling, n, draw, randomize, rentVary(i, j), (i, j)) >= 0.0
    {
      InitialRange(g, l, ceiling, n, draw, randomize, rentVary(i, j), 0.0, (i, j));
    }
  }

  /** One cell of `apply_variation`: the value times a factor drawn by `u`
      from [1 - spread, 1 + spread). */
  function Varied(v: real, u: real, spread: real): real
  {
    v * RandomFloatRange(u, 1.0 - spread, 1.0 + spread)
  }

  /** The draft constructor's rent of block `c`: the draft layout on the
      all-ceiling grid, varied by the default spread 0.25 with the draw
      `u`. */
  function DraftRent(g: Layout, l: Laws, floor: int, ceiling: int, n: nat, draw: (int, int) -> int, u: real, c: Coord): real
    requires LawsHold(l) && Laid(g, floor, ceiling, n) && InBounds(n, c)
  {
    Varied(LaidOut(g, true, l, floor, ceiling, n, draw, c), u, 0.25)
  }

  /** A non-negative cell varied by the default spread stays
      non-negative, and below 1.25 times any bound it was under. */
  lemma VariedBounds(v: real, u: real, top: real)
    requires 0.0 <= v && 0.0 <= u < 1.0
    ensures Varied(v, u, 0.25) >= 0.0
    ensures v <= top ==> Varied(v, u, 0.25) <= 1.25 * top
  {
    var f := RandomFloatRange(u, 1.0 - 0.25, 1.0 + 0.25);
    assert 0.75 <= f < 1.25;
    FactorBounds(v, f, top);
  }

  /** The arithmetic of `VariedBounds`, for a plain factor. */
  lemma FactorBounds(v: real, f: real, top: real)
    requires 0.0 <= v && 0.75 <= f <= 1.25
    ensures v * f >= 0.0
    ensures v <= top ==> v * f <= 1.25 * top
  {
    if v <= top {
      var d := top - v;
      assert d * f >= 0.0;
      assert top * (1.25 - f) >= 0.0;
    }
  }

  /** With 0 < floor <= ceiling the draft's starting rents are never
      negative, and outside the distance-based layouts they stay below
      1.25 times the ceiling. */
  lemma DraftRentRange(g: Layout, l: Laws, floor: int, ceiling: int, n: nat, draw: (int, int) -> int, u: real, c: Coord)
    requires LawsHold(l) && Laid(g, floor, ceiling, n) && InBounds(n, c)
    requires 0 < floor <= ceiling
    requires g == RandomRent ==> floor <= draw(c.0, c.1) < ceiling
    requires 0.0 <= u < 1.0
    ensures DraftRent(g, l, floor, ceiling, n, draw, u, c) >= 0.0
    ensures g != Quadrants && g != Central ==> DraftRent(g, l, floor, ceiling, n, draw, u, c) <= 1.25 * ceiling as real
  {
    LaidOutRange(g, true, l, floor, ceiling, n, draw, c);
    VariedBounds(LaidOut(g, true, l, floor, ceiling, n, draw, c), u, ceiling as real);
  }

  /** Every starting rent of the draft is non-negative when
      0 < floor <= ceiling. */
  lemma DraftRentsNonNegative(g: Layout, l: Laws, floor: int, ceiling: int, n: nat, draw: (int, int) -> int, vary: (int, int) -> real)
    requires LawsHold(l) && Laid(g, floor, ceiling, n) && 0 < floor <= ceiling
    requires g == RandomRent ==> forall i, j :: 0 <= i < n && 0 <= j < n ==> floor <= draw(i, j) < ceiling
    requires forall i, j :: 0 <= i < n && 0 <= j < n ==> 0.0 <= vary(i, j) < 1.0
    ensures forall i, j :: 0 <= i < n && 0 <= j < n ==> DraftRent(g, l, floor, ceiling, n, draw, vary(i, j), (i, j)) >= 0.0
  {
    forall i, j | 0 <= i < n && 0 <= j < n
      ensures DraftRent(g, l, floor, ceiling, n, draw, vary(i, j), (i, j)) >= 0.0
    {
      DraftRentRange(g, l, floor, ceiling, n, draw, vary(i, j), (i, j));
    }
  }
}
