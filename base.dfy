/** Shared vocabulary of the UrbanScape engine: block coordinates, the two
    kinds of food agent and the constants fixed per kind. */
module Base {

  /** A block coordinate (row, column). Off-grid pairs are representable:
      footprints near the border contain them. */
  type Coord = (int, int)

  datatype Option<T> = None | Some(value: T)

  /** The explicit tag that stands for the source's class test
      (`'FastFoodAgent' in str(agent)`). */
  datatype Kind = FastFood | Grocery

  /** What the per-cell passes read of an agent: its kind, its block and
      the footprint fixed when it was created. */
  datatype Presence = Presence(kind: Kind, loc: Coord, footprint: seq<Coord>)

  /** Residents per block (`population_per_block`). */
  const PopulationPerBlock: real := 20.0

  /** Service radius of both agent kinds, in blocks. */
  const AgentRadius: nat := 2

  /** The yearly operating expense of a kind (`operations`). */
  function Operations(k: Kind): int
  {
    match k
    case FastFood => 50000
    case Grocery => 200000
  }

  /** The wealth an agent of a kind starts with (`initial_wealth`). */
  function InitialWealth(k: Kind): int
  {
    match k
    case FastFood => 10000
    case Grocery => 25000
  }

  /** The border test every grid computation applies:
      `0 <= x <= size-1 and 0 <= y <= size-1`. */
  predicate InBounds(n: int, c: Coord)
  {
    0 <= c.0 <= n - 1 && 0 <= c.1 <= n - 1
  }

  /** An n x n grid field. */
  predicate Square<T>(a: array2<T>, n: int)
  {
    a.Length0 == n && a.Length1 == n
  }

  /** The transcendental functions the engine calls, taken as inputs:
      `np.e**x`, `np.log`, `np.sqrt`, and the two fitted expenditure curves
      `1.5802 * income**-0.32` (food away from home) and
      `73.969 * income**-0.632` (food at home). */
  datatype Laws = Laws(exp: real -> real, ln: real -> real, sqrt: real -> real,
                       foodAwayRate: real -> real, groceryRate: real -> real)

  /** The only facts the model assumes of them. */
  ghost predicate LawsHold(l: Laws)
  {
    l.exp(0.0) == 1.0 &&
    (forall x :: l.exp(x) > 0.0) &&
    (forall x :: x > 0.0 ==> l.exp(l.ln(x)) == x) &&
    (forall x :: x >= 0.0 ==> l.sqrt(x) >= 0.0 && l.sqrt(x) * l.sqrt(x) == x)
  }

  /** Multiplication as a function term, so that sign facts about a
      product carry over to the squares built from it. */
  function Product(a: real, b: real): real
  {
    a * b
  }

  function Sq(x: real): real
  {
    Product(x, x)
  }

  lemma PositiveProduct(a: real, b: real)
    requires a > 0.0 && b > 0.0
    ensures Product(a, b) > 0.0
  {
  }

  lemma SquarePositive(x: real)
    ensures Sq(x) >= 0.0
    ensures x != 0.0 <==> Sq(x) > 0.0
  {
    if x > 0.0 {
      PositiveProduct(x, x);
    } else if x < 0.0 {
      PositiveProduct(-x, -x);
      assert Product(-x, -x) == Product(x, x);
    } else {
      assert Sq(x) == Product(0.0, 0.0);
    }
  }

  /** Dividing a positive amount by a strictly larger positive divisor
      gives strictly less. */
  lemma DivAntitone(a: real, x: real, y: real)
    requires a > 0.0 && 0.0 < x < y
    ensures a / y < a / x
  {
    var q := a / y;
    assert q > 0.0;
    assert q * y == a;
    assert q * x < q * y;
    assert q * x < a;
    assert q < a / x;
  }

  /** Dividing a non-negative amount by a larger positive divisor never
      gives more. */
  lemma DivAntitoneWeak(a: real, x: real, y: real)
    requires a >= 0.0 && 0.0 < x <= y
    ensures a / y <= a / x
  {
    var q := a / y;
    assert q >= 0.0;
    assert q * y == a;
    assert q * x <= q * y;
    assert q <= a / x;
  }
}
