/** The simulation engine: the grid state of an `UrbanScape`, its agent
    registry, the per-tick passes that rewrite the grids in place, the
    creation policies and the tick itself; and the food agents, whose
    wealth changes every tick. */
module Engine {
  import opened Base
  import opened Lists
  import opened Footprint
  import opened Exposure
  import opened Capture
  import opened Locations
  import opened Sweep
  import opened Creation
  import opened Distribution

  /** The records the engine keeps of a list of agents, in list order. */
  function Records(s: seq<Agent>): (r: seq<Presence>)
    ensures |r| == |s| && forall k :: 0 <= k < |s| ==> r[k] == s[k].Record()
  {
    if |s| == 0 then [] else Records(s[..|s| - 1]) + [s[|s| - 1].Record()]
  }

  /** The agents of `after` beyond the first `|before|` hold their kind's
      initial wealth: `after` extends `before` by newly founded agents. */
  ghost predicate Endowed(before: seq<Agent>, after: seq<Agent>)
    reads after
  {
    forall k :: |before| <= k < |after| ==> after[k].wealth == InitialWealth(after[k].kind) as real
  }

  /** The wealths `w0` the registry `s` opens a tick with: the wealths `w`
      of the agents it already held, then its kind's initial wealth for each
      agent founded since. */
  predicate Opening(w: seq<real>, w0: seq<real>, s: seq<Agent>)
  {
    |w| <= |s| == |w0| && w0[..|w|] == w &&
    forall k :: |w| <= k < |s| ==> w0[k] == InitialWealth(s[k].kind) as real
  }

  /** The agents a random-rule outcome founds. */
  function Born(o: Option<(Kind, Coord)>): (r: seq<(Kind, Coord)>)
    ensures |r| <= 1
  {
    if o.Some? then [o.value] else []
  }

  /** The agent a creation decision founds for kind `k`. */
  function Births(d: Decision, k: Kind): (r: seq<(Kind, Coord)>)
    ensures |r| == 1 <==> d.Create?
    ensures |r| <= 1
  {
    if d.Create? then [(k, d.at)] else []
  }

  /** A candidate loop of `profit_probability_create_rule` over an n x n
      grid: every block, row by row, that is not in `hosted`. The source
      fills the fast-food and the grocery list in one pass; the two lists do
      not depend on each other, so the model builds them one after the
      other. */
  method VacantBlocks(n: nat, hosted: seq<Coord>) returns (cands: seq<Coord>)
    ensures cands == BlocksWhere(n, Vacant(hosted))
  {
    cands := [];
    var i := 0;
    while i < n
      invariant 0 <= i <= n
      invariant cands == VacantBefore(n, i, 0, hosted)
    {
      var j := 0;
      while j < n
        invariant 0 <= j <= n
        invariant cands == VacantBefore(n, i, j, hosted)
      {
        if (i, j) !in hosted {
          cands := cands + [(i, j)];
        }
        j := j + 1;
      }
      i := i + 1;
    }
    VacantBeforeEnd(n, hosted);
  }

  /** `check_bankruptcy`'s test after `capture_revenue`: the wealth plus
      the takings less the operating costs is negative. */
  predicate Overdrawn(wealth: real, takings: real, costs: real)
  {
    wealth + takings - costs < 0.0
  }

  /** The wealth an agent that had `wealth` ends the agent loop with:
      unchanged when the loop passes it over, 0 when it goes bankrupt,
      otherwise increased by its takings less its operating costs. */
  function Settled(wealth: real, takings: real, costs: real, visited: bool): (r: real)
    ensures r >= 0.0 || !visited
    ensures visited && !Overdrawn(wealth, takings, costs) ==> r - wealth == takings - costs
  {
    if !visited then wealth
    else if Overdrawn(wealth, takings, costs) then 0.0
    else wealth + takings - costs
  }

  /** The agents a tick's create rule founds, in order, given the clock,
      the random rule's block and kind draw, and the profit rule's two
      decisions; the grocery decision is not reached when the fast-food one
      divides by zero. */
  function Spawned(rule: CreateRule, time: nat, x: int, y: int, kindDraw: real, ff: Decision, gs: Decision)
    : (r: seq<(Kind, Coord)>)
    ensures rule == RandomCreate ==> |r| == (if time % 5 == 0 then 1 else 0)
    ensures rule == ProfitProbability ==> |r| <= 2
    ensures rule == Unset || rule == NoCreate ==> r == []
  {
    match rule
    case Unset => []
    case NoCreate => []
    case RandomCreate => Born(RandomCreation(time, x, y, kindDraw))
    case ProfitProbability => Births(ff, FastFood) + (if ff == DivisionByZero then [] else Births(gs, Grocery))
  }

  /** A vectorised numpy expression assigned back into an n x n grid:
      every cell replaced by `f` of its indices and its old value, row by
      row. */
  method MapCells(grid: array2<real>, n: nat, f: (int, int, real) -> real)
    requires Square(grid, n)
    modifies grid
    ensures forall a, b :: 0 <= a < n && 0 <= b < n ==> grid[a, b] == f(a, b, old(grid[a, b]))
  {
    var i := 0;
    while i < n
      invariant 0 <= i <= n
      invariant forall a, b :: 0 <= a < i && 0 <= b < n ==> grid[a, b] == f(a, b, old(grid[a, b]))
      invariant forall a, b :: i <= a < n && 0 <= b < n ==> grid[a, b] == old(grid[a, b])
    {
      var j := 0;
      while j < n
        invariant 0 <= j <= n
        invariant forall a, b :: 0 <= a < i && 0 <= b < n ==> grid[a, b] == f(a, b, old(grid[a, b]))
        invariant forall b :: 0 <= b < j ==> grid[i, b] == f(i, b, old(grid[i, b]))
        invariant forall a, b :: i <= a < n && 0 <= b < n && (a > i || b >= j) ==> grid[a, b] == old(grid[a, b])
      {
        grid[i, j] := f(i, j, grid[i, j]);
        j := j + 1;
      }
      i := i + 1;
    }
  }

  /** A loop that writes `value(c)` into block `c` of an n x n grid for
      each block of `cs`, in order: the listed blocks get their value, the
      others keep theirs. */
  method WriteBlocks(grid: array2<real>, n: nat, cs: seq<Coord>, value: Coord -> real)
    requires Square(grid, n) && forall m :: 0 <= m < |cs| ==> InBounds(n, cs[m])
    modifies grid
    ensures forall a, b :: 0 <= a < n && 0 <= b < n && (a, b) in cs ==> grid[a, b] == value((a, b))
    ensures forall a, b :: 0 <= a < n && 0 <= b < n && (a, b) !in cs ==> grid[a, b] == old(grid[a, b])
  {
    var k := 0;
    while k < |cs|
      invariant 0 <= k <= |cs|
      invariant forall a, b :: 0 <= a < n && 0 <= b < n && (a, b) in cs[..k] ==> grid[a, b] == value((a, b))
      invariant forall a, b :: 0 <= a < n && 0 <= b < n && (a, b) !in cs[..k] ==> grid[a, b] == old(grid[a, b])
    {
      assert cs[..k + 1] == cs[..k] + [cs[k]];
      grid[cs[k].0, cs[k].1] := value(cs[k]);
      k := k + 1;
    }
    assert cs[..k] == cs;
  }

  /** `WriteBlocks` over a visit that covers the whole grid: every block
      gets its value. */
  method WriteGrid(grid: array2<real>, n: nat, cs: seq<Coord>, value: Coord -> real)
    requires Square(grid, n) && forall m :: 0 <= m < |cs| ==> InBounds(n, cs[m])
    requires forall c :: InBounds(n, c) ==> c in cs
    modifies grid
    ensures forall a, b :: 0 <= a < n && 0 <= b < n ==> grid[a, b] == value((a, b))
  {
    WriteBlocks(grid, n, cs, value);
    forall a, b | 0 <= a < n && 0 <= b < n ensures grid[a, b] == value((a, b)) {
      assert InBounds(n, (a, b));
    }
  }

  /** One raw-count share added to a running total: no finite number once
      a count is zero. */
  function Share(total: Option<real>, spend: real, count: int): Option<real>
  {
    if total.None? || count == 0 then None
    else Some(total.value + spend / count as real * PopulationPerBlock)
  }

  /** A fast-food outlet or a grocery store. Everything but its wealth is
      fixed when it is created. */
  class Agent {
    const kind: Kind
    const loc: Coord
    /** `effect_coordinates`: the footprint computed once, at creation. */
    const footprint: seq<Coord>
    /** Rent of its block at creation plus the yearly operations of its kind. */
    const operatingCosts: real
    var wealth: real

    /** `FastFoodAgent(loc, urbanscape)` / `GroceryStoreAgent(loc, urbanscape)`. */
    constructor (kind: Kind, loc: Coord, u: Simulation)
      requires u.Shaped() && InBounds(u.size, loc)
      ensures this.kind == kind && this.loc == loc
      ensures footprint == EffectRadius(loc, AgentRadius)
      ensures operatingCosts == u.rent[loc.0, loc.1] + Operations(kind) as real
      ensures wealth == InitialWealth(kind) as real
    {
      this.kind := kind;
      this.loc := loc;
      footprint := EffectRadius(loc, AgentRadius);
      operatingCosts := u.rent[loc.0, loc.1] + Operations(kind) as real;
      wealth := InitialWealth(kind) as real;
    }

    function Record(): Presence
    {
      Presence(kind, loc, footprint)
    }

    /** `capture_revenue`: the component of `capture_expenditures` for its
        own kind, less the operating costs. */
    method CaptureRevenue(u: Simulation)
      requires u.Valid()
      modifies this`wealth
      ensures wealth == old(wealth) + u.Takings(this) - operatingCosts
    {
      var ff, gs := u.CaptureExpenditures(footprint);
      wealth := wealth + (if kind == FastFood then ff else gs) - operatingCosts;
    }

    /** `check_bankruptcy`: a negative wealth is set to 0 and the agent
        leaves the registry; otherwise nothing changes. */
    method CheckBankruptcy(u: Simulation) returns (removed: bool)
      requires u.Valid() && this in u.agents
      modifies this`wealth, u`agents
      ensures removed <==> old(wealth) < 0.0
      ensures wealth == if removed then 0.0 else old(wealth)
      ensures u.agents == if removed then RemoveFirst(old(u.agents), this) else old(u.agents)
      ensures u.Valid()
    {
      removed := wealth < 0.0;
      if removed {
        wealth := 0.0;
        u.RemoveAgent(this);
      }
    }

    /** `step`: revenue first, then the bankruptcy check. */
    method Step(u: Simulation) returns (removed: bool)
      requires u.Valid() && this in u.agents
      modifies this`wealth, u`agents
      ensures removed <==> old(wealth) + u.Takings(this) - operatingCosts < 0.0
      ensures wealth == if removed then 0.0 else old(wealth) + u.Takings(this) - operatingCosts
      ensures u.agents == if removed then RemoveFirst(old(u.agents), this) else old(u.agents)
      ensures u.Valid()
    {
      CaptureRevenue(u);
      removed := CheckBankruptcy(u);
    }
  }

  /** The policy a simulation applies at the start of every tick. `Unset`
      is the constructor's default `create_rule=None`, which raises a
      TypeError when the first tick calls it. */
  datatype CreateRule = Unset | NoCreate | RandomCreate | ProfitProbability

  /** An `UrbanScape`: an n x n grid of blocks. The grids are allocated once
      and rewritten cell by cell. */
  class Simulation {
    const size: nat
    const rentFloor: int
    const rentCeiling: int
    const createRule: CreateRule
    const rent: array2<real>
    const income: array2<real>
    const mobility: array2<real>
    const foodAway: array2<real>
    const fastFood: array2<real>
    const grocery: array2<real>
    const agentLocations: array2<real>
    /** `ffcapture_number` and `gscapture_number`. */
    const ffCount: array2<int>
    const gsCount: array2<int>
    const externalities: array2<int>
    /** Whether the rent grid holds integers (after `random_distribution`),
        so that a store into it truncates. */
    var rentIntegral: bool
    var time: nat
    var agents: seq<Agent>
    /** `agent_coords`: the agents as recorded by the last location pass. */
    var agentCoords: seq<Presence>

    /** Every grid is n x n and no two grids are the same array. */
    predicate Shaped()
    {
      Square(rent, size) && Square(income, size) && Square(mobility, size) &&
      Square(foodAway, size) && Square(fastFood, size) && Square(grocery, size) &&
      Square(agentLocations, size) && Square(ffCount, size) && Square(gsCount, size) &&
      Square(externalities, size) &&
      rent != income && rent != mobility && rent != foodAway && rent != fastFood &&
      rent != grocery && rent != agentLocations &&
      income != mobility && income != foodAway && income != fastFood &&
      income != grocery && income != agentLocations &&
      mobility != foodAway && mobility != fastFood && mobility != grocery &&
      mobility != agentLocations &&
      foodAway != fastFood && foodAway != grocery && foodAway != agentLocations &&
      fastFood != grocery && fastFood != agentLocations &&
      grocery != agentLocations &&
      ffCount != gsCount && ffCount != externalities && gsCount != externalities
    }

    /** An agent as the engine places it: on the grid, with the radius-2
        footprint around its block. */
    predicate Placed(p: Presence)
    {
      InBounds(size, p.loc) && p.footprint == EffectRadius(p.loc, AgentRadius)
    }

    /** The grids a new engine starts from: nothing located, counted or
        exposed yet, and full mobility. */
    predicate Blank()
      requires Shaped()
      reads agentLocations, ffCount, gsCount, externalities, mobility
    {
      forall i, j :: 0 <= i < size && 0 <= j < size ==>
        agentLocations[i, j] == 0.0 && ffCount[i, j] == 0 && gsCount[i, j] == 0 &&
        externalities[i, j] == 0 && mobility[i, j] == 1.0
    }

    /** The rent and income grids hold the canonical starting values. */
    ghost predicate Seeded(g: Layout, l: Laws, draw: (int, int) -> int, randomize: bool,
                           rentVary: (int, int) -> real, incomeVary: (int, int) -> real)
      requires Shaped() && LawsHold(l) && Laid(g, CanonicalRentFloor, rentCeiling, size)
      reads this, rent, income
    {
      (rentIntegral <==> g == RandomRent) &&
      forall i, j :: 0 <= i < size && 0 <= j < size ==>
        rent[i, j] == InitialRent(g, l, rentCeiling, size, draw, randomize, rentVary(i, j), (i, j)) &&
        income[i, j] == InitialIncome(g, l, rentCeiling, size, draw, randomize, incomeVary(i, j), (i, j))
    }

    /** The spending grids are what `update_expenditures` computes from the
        income with the draws `away`, `fast` and `home`. */
    predicate Spent(l: Laws, away: (int, int) -> real, fast: (int, int) -> real, home: (int, int) -> real)
      requires Shaped()
      reads income, foodAway, fastFood, grocery
    {
      forall i, j :: 0 <= i < size && 0 <= j < size ==>
        foodAway[i, j] == FoodAwaySpend(l, income[i, j], away(i, j)) &&
        fastFood[i, j] == FastFoodSpend(income[i, j], foodAway[i, j], fast(i, j)) &&
        grocery[i, j] == GrocerySpend(l, income[i, j], home(i, j))
    }

    /** The registry holds each agent once, every agent and every recorded
        location is placed, and counts, rents and externalities are never
        negative. */
    ghost predicate Valid()
      reads this, rent, ffCount, gsCount, externalities
    {
      Priced() && NoDup(agents) &&
      (forall a :: a in agents ==> Placed(a.Record())) &&
      (forall p :: p in agentCoords ==> Placed(p)) &&
      NonNegative(size, externalities)
    }

    /** What pricing a prospective agent needs: the grids are shaped, and
        counts and rents are never negative. */
    predicate Priced()
      reads rent, ffCount, gsCount
    {
      Shaped() && NonNegative(size, ffCount) && NonNegative(size, gsCount) && NonNegativeRent(size, rent)
    }

    /** What an agent of the registry takes in this tick: the guarded
        capture over its footprint, in its own kind's expenditure. */
    function Takings(a: Agent): real
      requires Shaped() && NonNegative(size, ffCount) && NonNegative(size, gsCount)
      reads fastFood, grocery, ffCount, gsCount
    {
      GuardedCaptureDefined(size, a.footprint, fastFood, ffCount, Epsilon);
      GuardedCaptureDefined(size, a.footprint, grocery, gsCount, Epsilon);
      if a.kind == FastFood then Captured(size, a.footprint, fastFood, ffCount, Epsilon).value
      else Captured(size, a.footprint, grocery, gsCount, Epsilon).value
    }

    /** `capture_expenditures`: over the in-bounds pairs of `coords`, the
        fast-food and grocery expenditure shared among the competitors
        counted there, each count guarded by 1e-10. */
    method CaptureExpenditures(coords: seq<Coord>) returns (ff: real, gs: real)
      requires Valid()
      ensures Captured(size, coords, fastFood, ffCount, Epsilon) == Some(ff)
      ensures Captured(size, coords, grocery, gsCount, Epsilon) == Some(gs)
    {
      ff, gs := 0.0, 0.0;
      var k := 0;
      while k < |coords|
        invariant 0 <= k <= |coords|
        invariant Captured(size, coords[..k], fastFood, ffCount, Epsilon) == Some(ff)
        invariant Captured(size, coords[..k], grocery, gsCount, Epsilon) == Some(gs)
      {
        var c := coords[k];
        assert coords[..k + 1][..k] == coords[..k];
        if 0 <= c.0 <= size - 1 && 0 <= c.1 <= size - 1 {
          var ffShare := (fastFood[c.0, c.1] / (ffCount[c.0, c.1] as real + Epsilon)) * PopulationPerBlock;
          ff := ff + ffShare;
          var gsShare := (grocery[c.0, c.1] / (gsCount[c.0, c.1] as real + Epsilon)) * PopulationPerBlock;
          gs := gs + gsShare;
        }
        k := k + 1;
      }
      assert coords[..k] == coords;
    }

    /** The drafts' `capture_expenditures`: the same sums over the
        in-bounds pairs of `coords`, but each share is divided by the raw
        competitor count. A zero count on a footprint block gives no finite
        number (None). */
    method CaptureExpendituresDraft(coords: seq<Coord>) returns (ff: Option<real>, gs: Option<real>)
      requires Shaped()
      ensures ff == Captured(size, coords, fastFood, ffCount, 0.0)
      ensures gs == Captured(size, coords, grocery, gsCount, 0.0)
    {
      ff, gs := Some(0.0), Some(0.0);
      var k := 0;
      while k < |coords|
        invariant 0 <= k <= |coords|
        invariant ff == Captured(size, coords[..k], fastFood, ffCount, 0.0)
        invariant gs == Captured(size, coords[..k], grocery, gsCount, 0.0)
      {
        var c := coords[k];
        assert coords[..k + 1][..k] == coords[..k];
        if 0 <= c.0 <= size - 1 && 0 <= c.1 <= size - 1 {
          ff := Share(ff, fastFood[c.0, c.1], ffCount[c.0, c.1]);
          gs := Share(gs, grocery[c.0, c.1], gsCount[c.0, c.1]);
        }
        k := k + 1;
      }
      assert coords[..k] == coords;
    }

    /** `update_income`: income = rent * 4 * mobility, cell by cell. */
    method UpdateIncome()
      requires Valid()
      modifies income
      ensures forall i, j :: 0 <= i < size && 0 <= j < size ==>
        income[i, j] == Income(rent[i, j], mobility[i, j])
    {
      var i := 0;
      while i < size
        invariant 0 <= i <= size
        invariant forall a, b :: 0 <= a < i && 0 <= b < size ==> income[a, b] == Income(rent[a, b], mobility[a, b])
      {
        var j := 0;
        while j < size
          invariant 0 <= j <= size
          invariant forall a, b :: 0 <= a < i && 0 <= b < size ==> income[a, b] == Income(rent[a, b], mobility[a, b])
          invariant forall b :: 0 <= b < j ==> income[i, b] == Income(rent[i, b], mobility[i, b])
        {
          income[i, j] := rent[i, j] * 4.0 * mobility[i, j];
          j := j + 1;
        }
        i := i + 1;
      }
    }

    /** `update_mobility`: the logistic of the externality level, cell by
        cell. */
    method UpdateMobility()
      requires Valid()
      modifies mobility
      ensures forall i, j :: 0 <= i < size && 0 <= j < size ==> mobility[i, j] == Mobility(externalities[i, j])
    {
      var i := 0;
      while i < size
        invariant 0 <= i <= size
        invariant forall a, b :: 0 <= a < i && 0 <= b < size ==> mobility[a, b] == Mobility(externalities[a, b])
      {
        var j := 0;
        while j < size
          invariant 0 <= j <= size
          invariant forall a, b :: 0 <= a < i && 0 <= b < size ==> mobility[a, b] == Mobility(externalities[a, b])
          invariant forall b :: 0 <= b < j ==> mobility[i, b] == Mobility(externalities[i, b])
        {
          mobility[i, j] := Mobility(externalities[i, j]);
          j := j + 1;
        }
        i := i + 1;
      }
    }

    /** `update_externalities`: every cell moves to the next accumulator
        value for its net exposure, which keeps it non-negative. */
    method UpdateExternalities()
      requires Valid()
      modifies externalities
      ensures forall i, j :: 0 <= i < size && 0 <= j < size ==>
        externalities[i, j] == NextExternality(old(externalities[i, j]), ffCount[i, j], gsCount[i, j])
      ensures Valid()
    {
      var i := 0;
      while i < size
        invariant 0 <= i <= size
        invariant forall a, b :: 0 <= a < i && 0 <= b < size ==>
          externalities[a, b] == NextExternality(old(externalities[a, b]), ffCount[a, b], gsCount[a, b])
        invariant forall a, b :: i <= a < size && 0 <= b < size ==> externalities[a, b] == old(externalities[a, b])
      {
        var j := 0;
        while j < size
          invariant 0 <= j <= size
          invariant forall a, b :: 0 <= a < i && 0 <= b < size ==>
            externalities[a, b] == NextExternality(old(externalities[a, b]), ffCount[a, b], gsCount[a, b])
          invariant forall b :: 0 <= b < j ==>
            externalities[i, b] == NextExternality(old(externalities[i, b]), ffCount[i, b], gsCount[i, b])
          invariant forall a, b :: i <= a < size && 0 <= b < size && (a > i || b >= j) ==>
            externalities[a, b] == old(externalities[a, b])
        {
          var e := externalities[i, j] + ffCount[i, j] - gsCount[i, j];
          if e <= 0 {
            e := 0;
          }
          if ffCount[i, j] - gsCount[i, j] == 0 {
            e := (19 * e) / 20;
          }
          externalities[i, j] := e;
          j := j + 1;
        }
        i := i + 1;
      }
    }

    /** Sets every cell of a grid to `v` (`np.zeros`, `np.ones`). */
    method Fill<T>(grid: array2<T>, v: T)
      requires Square(grid, size)
      modifies grid
      ensures forall i, j :: 0 <= i < size && 0 <= j < size ==> grid[i, j] == v
    {
      var i := 0;
      while i < size
        invariant 0 <= i <= size
        invariant forall a, b :: 0 <= a < i && 0 <= b < size ==> grid[a, b] == v
      {
        var j := 0;
        while j < size
          invariant 0 <= j <= size
          invariant forall a, b :: 0 <= a < i && 0 <= b < size ==> grid[a, b] == v
          invariant forall b :: 0 <= b < j ==> grid[i, b] == v
        {
          grid[i, j] := v;
          j := j + 1;
        }
        i := i + 1;
      }
    }

    /** The first half of `update_agent_locations`: `agent_coords`
        records every agent of the registry, in registry order. */
    method RecordAgents()
      requires Valid()
      modifies this`agentCoords
      ensures agentCoords == Records(agents)
      ensures Valid()
    {
      var ps: seq<Presence> := [];
      var k := 0;
      while k < |agents|
        invariant 0 <= k <= |agents|
        invariant ps == Records(agents[..k])
      {
        assert agents[..k + 1][..k] == agents[..k];
        ps := ps + [agents[k].Record()];
        k := k + 1;
      }
      assert agents[..k] == agents;
      forall p | p in ps ensures Placed(p) {
        var m :| 0 <= m < |ps| && ps[m] == p;
        assert agents[m] in agents;
      }
      agentCoords := ps;
    }

    /** The painting loop after its first `k` agents: every cell is either
        untouched or holds its marker, and the blocks of those agents hold
        theirs. */
    ghost predicate PaintedUpTo(ps: seq<Presence>, k: nat)
      reads agentLocations
    {
      Square(agentLocations, size) && k <= |ps| &&
      (forall m :: 0 <= m < |ps| ==> InBounds(size, ps[m].loc)) &&
      (forall i, j :: 0 <= i < size && 0 <= j < size ==>
        agentLocations[i, j] == 0.0 || agentLocations[i, j] == Marker(ps, (i, j))) &&
      (forall m :: 0 <= m < k ==> agentLocations[ps[m].loc.0, ps[m].loc.1] == Marker(ps, ps[m].loc))
    }

    /** One agent of the painting loop: -0.5 when its block is shared,
        otherwise -1 or 1 by its kind. */
    method PaintAgent(ps: seq<Presence>, k: nat, redundant: seq<Coord>, single: seq<Coord>)
      requires PaintedUpTo(ps, k) && k < |ps|
      requires forall c :: c in redundant <==> multiset(Locs(ps))[c] >= 2
      requires forall c :: multiset(single)[c] == if multiset(Locs(ps))[c] == 1 then 1 else 0
      modifies agentLocations
      ensures PaintedUpTo(ps, k + 1)
    {
      var p := ps[k];
      var (x, y) := p.loc;
      PaintAgrees(ps, k, redundant, single);
      var marker := agentLocations[x, y];
      if p.loc in redundant {
        marker := -0.5;
      }
      if p.loc in single {
        if p.kind == FastFood {
          marker := -1.0;
        }
        if p.kind == Grocery {
          marker := 1.0;
        }
      }
      agentLocations[x, y] := marker;
    }

    /** The painting loop of `update_agent_locations`, over a grid that
        starts at zero: every agent's block receives the block's marker. */
    method Paint(ps: seq<Presence>, redundant: seq<Coord>, single: seq<Coord>)
      requires Square(agentLocations, size) && forall p :: p in ps ==> Placed(p)
      requires forall c :: c in redundant <==> multiset(Locs(ps))[c] >= 2
      requires forall c :: multiset(single)[c] == if multiset(Locs(ps))[c] == 1 then 1 else 0
      requires forall i, j :: 0 <= i < size && 0 <= j < size ==> agentLocations[i, j] == 0.0
      modifies agentLocations
      ensures forall i, j :: 0 <= i < size && 0 <= j < size ==> agentLocations[i, j] == Marker(ps, (i, j))
    {
      forall m | 0 <= m < |ps| ensures InBounds(size, ps[m].loc) {
        assert Placed(ps[m]);
      }
      var k := 0;
      while k < |ps|
        invariant PaintedUpTo(ps, k)
      {
        PaintAgent(ps, k, redundant, single);
        k := k + 1;
      }
      forall i, j | 0 <= i < size && 0 <= j < size ensures agentLocations[i, j] == Marker(ps, (i, j)) {
        if Occupancy(ps, (i, j)) >= 1 {
          var m :| 0 <= m < |ps| && Locs(ps)[m] == (i, j);
          assert agentLocations[ps[m].loc.0, ps[m].loc.1] == Marker(ps, ps[m].loc);
        }
      }
    }

    /** `update_agent_locations`: records every agent's block in
        `agent_coords`, splits the recorded blocks into shared and single
        ones, and paints the marker grid from zero: -0.5 on a shared block,
        -1 / 1 on a block with one fast-food / grocery agent. */
    method UpdateAgentLocations()
      requires Valid()
      modifies this`agentCoords, agentLocations
      ensures agentCoords == Records(agents)
      ensures forall i, j :: 0 <= i < size && 0 <= j < size ==>
        agentLocations[i, j] == Marker(agentCoords, (i, j))
      ensures Valid()
    {
      Fill(agentLocations, 0.0);
      RecordAgents();
      var redundant, single := SplitLocations(Locs(agentCoords));
      Paint(agentCoords, redundant, single);
    }

    /** The inner loop of `update_capture_number`: one more for every
        in-bounds pair of a footprint, as often as the pair occurs. */
    method CountFootprint(count: array2<int>, footprint: seq<Coord>)
      requires Square(count, size)
      modifies count
      ensures forall i, j :: 0 <= i < size && 0 <= j < size ==>
        count[i, j] == old(count[i, j]) + multiset(footprint)[(i, j)]
    {
      var m := 0;
      while m < |footprint|
        invariant 0 <= m <= |footprint|
        invariant forall i, j :: 0 <= i < size && 0 <= j < size ==>
          count[i, j] == old(count[i, j]) + multiset(footprint[..m])[(i, j)]
      {
        var c := footprint[m];
        assert footprint[..m + 1] == footprint[..m] + [c];
        if 0 <= c.0 <= size - 1 && 0 <= c.1 <= size - 1 {
          count[c.0, c.1] := count[c.0, c.1] + 1;
        }
        m := m + 1;
      }
      assert footprint[..m] == footprint;
    }

    /** Cell by cell, `count` holds the coverage of `ps` for kind `k`. */
    ghost predicate Counts(count: array2<int>, ps: seq<Presence>, k: Kind)
      reads count
    {
      Square(count, size) &&
      forall i, j :: 0 <= i < size && 0 <= j < size ==> count[i, j] == Coverage(ps, k, (i, j))
    }

    /** One agent of the loop of `update_capture_number`, seen from the
        count grid of kind `k`: the grid grows by the agent's footprint
        exactly when the agent is of that kind. */
    method Tally(count: array2<int>, k: Kind, ghost ps: seq<Presence>, p: Presence)
      requires Counts(count, ps, k)
      modifies count
      ensures Counts(count, ps + [p], k)
    {
      assert (ps + [p])[..|ps|] == ps;
      if p.kind == k {
        CountFootprint(count, p.footprint);
      }
    }

    /** The loop of `update_capture_number`, over count grids that start
        at zero: every record adds its footprint to its own kind's grid. */
    method CountAll(ps: seq<Presence>)
      requires ffCount != gsCount
      requires Counts(ffCount, [], FastFood) && Counts(gsCount, [], Grocery)
      modifies ffCount, gsCount
      ensures Counts(ffCount, ps, FastFood) && Counts(gsCount, ps, Grocery)
    {
      var k := 0;
      while k < |ps|
        invariant 0 <= k <= |ps|
        invariant Counts(ffCount, ps[..k], FastFood) && Counts(gsCount, ps[..k], Grocery)
      {
        assert ps[..k + 1] == ps[..k] + [ps[k]];
        Tally(ffCount, FastFood, ps[..k], ps[k]);
        Tally(gsCount, Grocery, ps[..k], ps[k]);
        k := k + 1;
      }
      assert ps[..k] == ps;
    }

    /** `update_capture_number`: both count grids are rebuilt from zero, so
        that each cell holds the coverage of the registry's agents of each
        kind. */
    method UpdateCaptureNumber()
      requires Valid()
      modifies ffCount, gsCount
      ensures forall i, j :: 0 <= i < size && 0 <= j < size ==>
        ffCount[i, j] == Coverage(Records(agents), FastFood, (i, j)) &&
        gsCount[i, j] == Coverage(Records(agents), Grocery, (i, j))
      ensures Valid()
    {
      Fill(ffCount, 0);
      Fill(gsCount, 0);
      CountAll(Records(agents));
    }

    /** The first loop of `update_expenditures`: food away from home. */
    method FoodAwayPass(l: Laws, draw: (int, int) -> real)
      requires Shaped()
      modifies foodAway
      ensures forall i, j :: 0 <= i < size && 0 <= j < size ==> foodAway[i, j] == FoodAwaySpend(l, income[i, j], draw(i, j))
    {
      var i := 0;
      while i < size
        invariant 0 <= i <= size
        invariant forall a, b :: 0 <= a < i && 0 <= b < size ==> foodAway[a, b] == FoodAwaySpend(l, income[a, b], draw(a, b))
      {
        var j := 0;
        while j < size
          invariant 0 <= j <= size
          invariant forall a, b :: 0 <= a < i && 0 <= b < size ==> foodAway[a, b] == FoodAwaySpend(l, income[a, b], draw(a, b))
          invariant forall b :: 0 <= b < j ==> foodAway[i, b] == FoodAwaySpend(l, income[i, b], draw(i, b))
        {
          var multiplier := RandomFloatRange(draw(i, j), 0.75, 1.25);
          var rate := l.foodAwayRate(income[i, j]);
          foodAway[i, j] := rate * income[i, j] * multiplier;
          j := j + 1;
        }
        i := i + 1;
      }
    }

    /** The second loop: the clamped fast-food share of food away from home. */
    method FastFoodPass(draw: (int, int) -> real)
      requires Shaped()
      modifies fastFood
      ensures forall i, j :: 0 <= i < size && 0 <= j < size ==> fastFood[i, j] == FastFoodSpend(income[i, j], foodAway[i, j], draw(i, j))
    {
      var i := 0;
      while i < size
        invariant 0 <= i <= size
        invariant forall a, b :: 0 <= a < i && 0 <= b < size ==> fastFood[a, b] == FastFoodSpend(income[a, b], foodAway[a, b], draw(a, b))
      {
        var j := 0;
        while j < size
          invariant 0 <= j <= size
          invariant forall a, b :: 0 <= a < i && 0 <= b < size ==> fastFood[a, b] == FastFoodSpend(income[a, b], foodAway[a, b], draw(a, b))
          invariant forall b :: 0 <= b < j ==> fastFood[i, b] == FastFoodSpend(income[i, b], foodAway[i, b], draw(i, b))
        {
          var multiplier := RandomFloatRange(draw(i, j), 0.75, 1.25);
          var share := FastFoodShare(income[i, j]);
          fastFood[i, j] := share * foodAway[i, j] * multiplier;
          j := j + 1;
        }
        i := i + 1;
      }
    }

    /** The third loop: food at home, all of it grocery spending. */
    method GroceryPass(l: Laws, draw: (int, int) -> real)
      requires Shaped()
      modifies grocery
      ensures forall i, j :: 0 <= i < size && 0 <= j < size ==> grocery[i, j] == GrocerySpend(l, income[i, j], draw(i, j))
    {
      var i := 0;
      while i < size
        invariant 0 <= i <= size
        invariant forall a, b :: 0 <= a < i && 0 <= b < size ==> grocery[a, b] == GrocerySpend(l, income[a, b], draw(a, b))
      {
        var j := 0;
        while j < size
          invariant 0 <= j <= size
          invariant forall a, b :: 0 <= a < i && 0 <= b < size ==> grocery[a, b] == GrocerySpend(l, income[a, b], draw(a, b))
          invariant forall b :: 0 <= b < j ==> grocery[i, b] == GrocerySpend(l, income[i, b], draw(i, b))
        {
          var multiplier := RandomFloatRange(draw(i, j), 0.75, 1.25);
          var rate := l.groceryRate(income[i, j]);
          grocery[i, j] := rate * income[i, j] * multiplier;
          j := j + 1;
        }
        i := i + 1;
      }
    }

    /** `update_expenditures`: the three spending grids, each cell with its
        own draw from `random_float_range(0.75, 1.25)`. The fast-food
        spending of a block lies between 5.625% and 50% of its food-away
        spending whenever the latter is non-negative. */
    method UpdateExpenditures(l: Laws, away: (int, int) -> real, fast: (int, int) -> real, home: (int, int) -> real)
      requires Shaped()
      modifies foodAway, fastFood, grocery
      ensures forall i, j :: 0 <= i < size && 0 <= j < size ==>
        foodAway[i, j] == FoodAwaySpend(l, income[i, j], away(i, j)) &&
        fastFood[i, j] == FastFoodSpend(income[i, j], foodAway[i, j], fast(i, j)) &&
        grocery[i, j] == GrocerySpend(l, income[i, j], home(i, j))
    {
      FoodAwayPass(l, away);
      FastFoodPass(fast);
      GroceryPass(l, home);
    }

    /** `vertical_distribution`: every row is scaled by its factor
        (`self.rent[i] = self.rent[i] * gg`). A grid of one row, or a zero
        ceiling, makes the first division raise before anything is
        written. With `draft`, the factors of the draft setter. */
    method VerticalDistribution(draft: bool) returns (crashed: bool)
      requires Shaped()
      modifies rent
      ensures crashed <==> size == 1 || rentCeiling == 0
      ensures crashed ==> unchanged(rent)
      ensures !crashed ==> forall i, j :: 0 <= i < size && 0 <= j < size ==>
        rent[i, j] == Scaled(old(rent[i, j]), RowFactor(draft, rentFloor, rentCeiling, size, i), rentIntegral)
    {
      if size == 1 || rentCeiling == 0 {
        return true;
      }
      crashed := false;
      var floor, ceiling, n, integral := rentFloor, rentCeiling, size, rentIntegral;
      if n >= 2 {
        MapCells(rent, n, (a, b, v) => Scaled(v, RowFactor(draft, floor, ceiling, n, a), integral));
      }
    }

    /** `diagonal_distribution`: every row scaled by its factor, then every
        column by its factor. Crashes as the vertical setter does. */
    method DiagonalDistribution(draft: bool) returns (crashed: bool)
      requires Shaped()
      modifies rent
      ensures crashed <==> size == 1 || rentCeiling == 0
      ensures crashed ==> unchanged(rent)
      ensures !crashed ==> forall i, j :: 0 <= i < size && 0 <= j < size ==>
        rent[i, j] == Scaled(Scaled(old(rent[i, j]), CrossFactor(draft, rentFloor, rentCeiling, size, i), rentIntegral),
                             CrossFactor(draft, rentFloor, rentCeiling, size, j), rentIntegral)
    {
      if size == 1 || rentCeiling == 0 {
        return true;
      }
      crashed := false;
      var floor, ceiling, n, integral := rentFloor, rentCeiling, size, rentIntegral;
      if n >= 2 {
        MapCells(rent, n, (a, b, v) => Scaled(v, CrossFactor(draft, floor, ceiling, n, a), integral));
        MapCells(rent, n, (a, b, v) => Scaled(v, CrossFactor(draft, floor, ceiling, n, b), integral));
      }
    }

    /** `random_distribution`: the rent becomes the integer grid `draw`
        that `randint(rent_floor, rent_ceiling, (n, n))` returns, so later
        stores into it truncate. `randint` raises unless floor < ceiling. */
    method RandomDistribution(draw: (int, int) -> int) returns (crashed: bool)
      requires Shaped()
      modifies rent, this`rentIntegral
      ensures crashed <==> rentFloor >= rentCeiling
      ensures crashed ==> unchanged(rent) && rentIntegral == old(rentIntegral)
      ensures !crashed ==> rentIntegral && forall i, j :: 0 <= i < size && 0 <= j < size ==> rent[i, j] == draw(i, j) as real
    {
      if rentFloor >= rentCeiling {
        return true;
      }
      crashed := false;
      MapCells(rent, size, (a, b, v) => draw(a, b) as real);
      rentIntegral := true;
    }

    /** `businessdistricts_quadrant_distribution`: each district's blocks get
        the gradient `g` from their own district's centre (the canonical
        engine always uses the exponential one, the draft takes it as
        `gradient_function`), all with
        the first district's largest distance; the k-th blocks of the four
        districts are written in turn. An empty grid makes `max` raise, a
        zero ceiling the exponential gradient's ratio (the linear one never
        divides by the ceiling), and an odd size the loop, which indexes
        every district by the first one's length (what it has written
        before an odd size raises is not modelled). */
    method QuadrantDistribution(l: Laws, g: Gradient) returns (crashed: bool)
      requires Shaped() && LawsHold(l)
      modifies rent
      ensures crashed <==> size == 0 || size % 2 == 1 || (g == Exponential && rentCeiling == 0)
      ensures !crashed ==> forall i, j :: 0 <= i < size && 0 <= j < size ==>
        rent[i, j] == StoredRent(QuadrantRent(l, g, rentFloor, rentCeiling, size, (i, j)), rentIntegral)
    {
      if size == 0 || size % 2 == 1 || (g == Exponential && rentCeiling == 0) {
        return true;
      }
      crashed := false;
      var floor, ceiling, n, integral := rentFloor, rentCeiling, size, rentIntegral;
      var visit := QuadrantOrder(n);
      QuadrantOrderBounds(n);
      forall c | InBounds(n, c) ensures c in visit {
        QuadrantOrderExact(n, c);
      }
      WriteGrid(rent, n, visit, c => StoredRent(QuadrantRent(l, g, floor, ceiling, n, c), integral));
    }

    /** `centralbusinessdistrict_distribution`: every block, in row-major
        order, gets the gradient `g` from the central district. An
        empty grid makes `max` raise, and a zero ceiling the exponential
        gradient's ratio (the linear one never divides by the ceiling). */
    method CentralDistribution(l: Laws, g: Gradient) returns (crashed: bool)
      requires Shaped() && LawsHold(l)
      modifies rent
      ensures crashed <==> size == 0 || (g == Exponential && rentCeiling == 0)
      ensures !crashed ==> forall i, j :: 0 <= i < size && 0 <= j < size ==>
        rent[i, j] == StoredRent(CentralRent(l, g, rentFloor, rentCeiling, size, (i, j)), rentIntegral)
    {
      if size == 0 || (g == Exponential && rentCeiling == 0) {
        return true;
      }
      crashed := false;
      var floor, ceiling, n, integral := rentFloor, rentCeiling, size, rentIntegral;
      var blocks := Blocks(n);
      forall c | InBounds(n, c) ensures c in blocks {
        RectCovers(0, n, 0, n, c);
      }
      WriteGrid(rent, n, blocks, c => StoredRent(CentralRent(l, g, floor, ceiling, n, c), integral));
    }

    /** `randomize_distribution`: each rent cell multiplied by its own
        factor from `random_float_range(0.75, 1.25)` unless the product
        would exceed the ceiling, then each income cell likewise under four
        times the ceiling. */
    method RandomizeDistribution(rentVary: (int, int) -> real, incomeVary: (int, int) -> real)
      requires Shaped()
      modifies rent, income
      ensures forall i, j :: 0 <= i < size && 0 <= j < size ==>
        rent[i, j] == Perturbed(old(rent[i, j]), RandomFloatRange(rentVary(i, j), 0.75, 1.25), rentCeiling as real, rentIntegral)
      ensures forall i, j :: 0 <= i < size && 0 <= j < size ==>
        income[i, j] == Perturbed(old(income[i, j]), RandomFloatRange(incomeVary(i, j), 0.75, 1.25), (rentCeiling * 4) as real, false)
    {
      var cap, integral := rentCeiling as real, rentIntegral;
      MapCells(rent, size, (a, b, v) => Perturbed(v, RandomFloatRange(rentVary(a, b), 0.75, 1.25), cap, integral));
      MapCells(income, size, (a, b, v) => Perturbed(v, RandomFloatRange(incomeVary(a, b), 0.75, 1.25), 4.0 * cap, false));
    }

    /** The draft's `apply_variation`: the rent grid times a grid of factors
        from `uniform(1 - spread, 1 + spread)`, with no clamp; the product is
        a float grid. */
    method ApplyVariation(vary: (int, int) -> real, spread: real)
      requires Shaped()
      modifies rent, this`rentIntegral
      ensures !rentIntegral
      ensures forall i, j :: 0 <= i < size && 0 <= j < size ==>
        rent[i, j] == Varied(old(rent[i, j]), vary(i, j), spread)
    {
      MapCells(rent, size, (a, b, v) => Varied(v, vary(a, b), spread));
      rentIntegral := false;
    }

    /** `income = ones * rent * 4`, times a per-cell error factor in the
        draft (`* rand_error`); the canonical engine passes factor 1. */
    method SeedIncome(factor: (int, int) -> real)
      requires Shaped()
      modifies income
      ensures forall i, j :: 0 <= i < size && 0 <= j < size ==> income[i, j] == rent[i, j] * 4.0 * factor(i, j)
    {
      var i := 0;
      while i < size
        invariant 0 <= i <= size
        invariant forall a, b :: 0 <= a < i && 0 <= b < size ==> income[a, b] == rent[a, b] * 4.0 * factor(a, b)
      {
        var j := 0;
        while j < size
          invariant 0 <= j <= size
          invariant forall a, b :: 0 <= a < i && 0 <= b < size ==> income[a, b] == rent[a, b] * 4.0 * factor(a, b)
          invariant forall b :: 0 <= b < j ==> income[i, b] == rent[i, b] * 4.0 * factor(i, b)
        {
          income[i, j] := rent[i, j] * 4.0 * factor(i, j);
          j := j + 1;
        }
        i := i + 1;
      }
    }

    /** The draft's `income = ones * rent * 4 * rand_error`, the error
        factor of each cell drawn by `err` from [0.9, 1.1). */
    method SeedDraftIncome(err: (int, int) -> real)
      requires Shaped()
      modifies income
      ensures forall i, j :: 0 <= i < size && 0 <= j < size ==>
        income[i, j] == rent[i, j] * 4.0 * RandomFloatRange(err(i, j), 0.9, 1.1)
    {
      var error := (i, j) => RandomFloatRange(err(i, j), 0.9, 1.1);
      SeedIncome(error);
      forall i, j | 0 <= i < size && 0 <= j < size
        ensures income[i, j] == rent[i, j] * 4.0 * RandomFloatRange(err(i, j), 0.9, 1.1)
      {
        assert income[i, j] == rent[i, j] * 4.0 * error(i, j);
      }
    }

    /** The layout branch of a constructor: the setter `g` selects runs on
        the all-ceiling float grid; under `Laid` it does not raise. */
    method LayOut(g: Layout, draft: bool, l: Laws, draw: (int, int) -> int)
      requires Shaped() && LawsHold(l) && Laid(g, rentFloor, rentCeiling, size) && !rentIntegral
      requires forall i, j :: 0 <= i < size && 0 <= j < size ==> rent[i, j] == rentCeiling as real
      modifies rent, this`rentIntegral
      ensures rentIntegral <==> g == RandomRent
      ensures forall i, j :: 0 <= i < size && 0 <= j < size ==>
        rent[i, j] == LaidOut(g, draft, l, rentFloor, rentCeiling, size, draw, (i, j))
    {
      if g == Quadrants || g == Central {
        LayOutDistricts(g, draft, l, draw);
      } else {
        LayOutGradient(g, draft, l, draw);
      }
    }

    /** `LayOut` for the uniform, vertical, diagonal and random layouts. */
    method LayOutGradient(g: Layout, draft: bool, l: Laws, draw: (int, int) -> int)
      requires Shaped() && LawsHold(l) && Laid(g, rentFloor, rentCeiling, size) && !rentIntegral
      requires g != Quadrants && g != Central
      requires forall i, j :: 0 <= i < size && 0 <= j < size ==> rent[i, j] == rentCeiling as real
      modifies rent, this`rentIntegral
      ensures rentIntegral <==> g == RandomRent
      ensures forall i, j :: 0 <= i < size && 0 <= j < size ==>
        rent[i, j] == LaidOut(g, draft, l, rentFloor, rentCeiling, size, draw, (i, j))
    {
      var crashed := false;
      var floor, ceiling, n := rentFloor, rentCeiling, size;
      if g == Vertical {
        crashed := VerticalDistribution(draft);
        forall i, j | 0 <= i < n && 0 <= j < n
          ensures rent[i, j] == LaidOut(g, draft, l, floor, ceiling, n, draw, (i, j))
        {
          VerticalSetter(draft, floor, ceiling, n, i);
        }
      } else if g == Diagonal {
        crashed := DiagonalDistribution(draft);
        forall i, j | 0 <= i < n && 0 <= j < n
          ensures rent[i, j] == LaidOut(g, draft, l, floor, ceiling, n, draw, (i, j))
        {
          DiagonalSetter(draft, floor, ceiling, n, i, j);
        }
      } else if g == RandomRent {
        crashed := RandomDistribution(draw);
      }
    }

    /** `LayOut` for the two business-district layouts, both exponential. */
    method LayOutDistricts(g: Layout, draft: bool, l: Laws, draw: (int, int) -> int)
      requires Shaped() && LawsHold(l) && Laid(g, rentFloor, rentCeiling, size) && !rentIntegral
      requires g == Quadrants || g == Central
      modifies rent
      ensures forall i, j :: 0 <= i < size && 0 <= j < size ==>
        rent[i, j] == LaidOut(g, draft, l, rentFloor, rentCeiling, size, draw, (i, j))
    {
      var crashed := false;
      if g == Quadrants {
        crashed := QuadrantDistribution(l, Exponential);
      } else {
        crashed := CentralDistribution(l, Exponential);
      }
    }

    /** The rent and income part of the canonical constructor: the layout,
        `income = rent * 4`, and with `randomize` both grids perturbed. */
    method Seed(g: Layout, l: Laws, draw: (int, int) -> int, randomize: bool,
                rentVary: (int, int) -> real, incomeVary: (int, int) -> real)
      requires Shaped() && LawsHold(l) && rentFloor == CanonicalRentFloor
      requires Laid(g, rentFloor, rentCeiling, size) && !rentIntegral
      requires forall i, j :: 0 <= i < size && 0 <= j < size ==> rent[i, j] == rentCeiling as real
      modifies rent, income, this`rentIntegral
      ensures rentIntegral <==> g == RandomRent
      ensures forall i, j :: 0 <= i < size && 0 <= j < size ==>
        rent[i, j] == InitialRent(g, l, rentCeiling, size, draw, randomize, rentVary(i, j), (i, j)) &&
        income[i, j] == InitialIncome(g, l, rentCeiling, size, draw, randomize, incomeVary(i, j), (i, j))
    {
      LayOut(g, false, l, draw);
      SeedIncome((i, j) => 1.0);
      var ceiling, n := rentCeiling, size;
      label laid:
      if randomize {
        RandomizeDistribution(rentVary, incomeVary);
      }
      forall i, j | 0 <= i < n && 0 <= j < n
        ensures rent[i, j] == InitialRent(g, l, ceiling, n, draw, randomize, rentVary(i, j), (i, j))
        ensures income[i, j] == InitialIncome(g, l, ceiling, n, draw, randomize, incomeVary(i, j), (i, j))
      {
        assert old@laid(income[i, j]) == LaidOut(g, false, l, CanonicalRentFloor, ceiling, n, draw, (i, j)) * 4.0;
        InitialUnfolded(g, l, ceiling, n, draw, randomize, rentVary(i, j), incomeVary(i, j), (i, j));
      }
    }

    /** The allocation part of both constructors, `UrbanScape(size, rent,
        create_rule, ...)` with the canonical floor 5000, or the draft's
        `UrbanScape(size, rent_floor, rent_ceiling, create_rule, ...)`: an
        empty registry at tick 0, the ceiling in every rent cell, zero
        counts and externalities, and unit grids elsewhere.
        `Initialize` or `InitializeDraft` completes it. */
    constructor (n: nat, floor: int, ceiling: int, rule: CreateRule)
      ensures size == n && rentFloor == floor && rentCeiling == ceiling && createRule == rule
      ensures time == 0 && agents == [] && agentCoords == [] && Shaped() && !rentIntegral
      ensures forall i, j :: 0 <= i < n && 0 <= j < n ==>
        rent[i, j] == ceiling as real && foodAway[i, j] == 1.0 && fastFood[i, j] == 1.0 && grocery[i, j] == 1.0
      ensures Blank()
    {
      size, rentFloor, rentCeiling, createRule := n, floor, ceiling, rule;
      rent := new real[n, n]((i, j) => ceiling as real);
      income := new real[n, n]((i, j) => 1.0);
      mobility := new real[n, n]((i, j) => 1.0);
      foodAway := new real[n, n]((i, j) => 1.0);
      fastFood := new real[n, n]((i, j) => 1.0);
      grocery := new real[n, n]((i, j) => 1.0);
      agentLocations := new real[n, n]((i, j) => 0.0);
      ffCount := new int[n, n]((i, j) => 0);
      gsCount := new int[n, n]((i, j) => 0);
      externalities := new int[n, n]((i, j) => 0);
      rentIntegral, time, agents, agentCoords := false, 0, [], [];
    }

    /** The rest of the canonical constructor: the layout `gradient` (any
        other name leaves the uniform grid), `income = rent * 4`, both
        optionally randomised, and the spending grids computed once from
        the income. With a ceiling at or above the floor the new engine is
        valid. */
    method Initialize(gradient: Layout, randomize: bool, l: Laws, draw: (int, int) -> int,
                      rentVary: (int, int) -> real, incomeVary: (int, int) -> real,
                      away: (int, int) -> real, fast: (int, int) -> real, home: (int, int) -> real)
      requires Shaped() && LawsHold(l) && rentFloor == CanonicalRentFloor
      requires Laid(gradient, rentFloor, rentCeiling, size) && !rentIntegral
      requires forall i, j :: 0 <= i < size && 0 <= j < size ==> rent[i, j] == rentCeiling as real
      requires gradient == RandomRent ==> forall i, j :: 0 <= i < size && 0 <= j < size ==> rentFloor <= draw(i, j) < rentCeiling
      requires randomize ==> forall i, j :: 0 <= i < size && 0 <= j < size ==> 0.0 <= rentVary(i, j) < 1.0
      requires agents == [] && agentCoords == [] && Blank()
      modifies rent, income, this`rentIntegral, foodAway, fastFood, grocery
      ensures Seeded(gradient, l, draw, randomize, rentVary, incomeVary)
      ensures Spent(l, away, fast, home)
      ensures CanonicalRentFloor <= rentCeiling ==> Valid()
    {
      Seed(gradient, l, draw, randomize, rentVary, incomeVary);
      UpdateExpenditures(l, away, fast, home);
      if CanonicalRentFloor <= rentCeiling {
        InitialRentsNonNegative(gradient, l, rentCeiling, size, draw, randomize, rentVary);
      }
    }

    /** The draft's rent: the setter `g`, then `apply_variation`. */
    method VaryDraft(g: Layout, l: Laws, draw: (int, int) -> int, vary: (int, int) -> real)
      requires Shaped() && LawsHold(l) && Laid(g, rentFloor, rentCeiling, size) && !rentIntegral
      requires forall i, j :: 0 <= i < size && 0 <= j < size ==> rent[i, j] == rentCeiling as real
      modifies rent, this`rentIntegral
      ensures !rentIntegral
      ensures forall i, j {:trigger DraftRent(g, l, rentFloor, rentCeiling, size, draw, vary(i, j), (i, j))} :: 0 <= i < size && 0 <= j < size ==>
        rent[i, j] == DraftRent(g, l, rentFloor, rentCeiling, size, draw, vary(i, j), (i, j))
    {
      LayOut(g, true, l, draw);
      ApplyVariation(vary, 0.25);
    }

    /** The rest of the draft constructor: the draft setter `setDist` on
        the all-ceiling grid, then `apply_variation` (factors from [0.75,
        1.25)), and income four times the rent times an error factor from
        [0.9, 1.1); there is no spending pass. With 0 < floor <= ceiling the
        new engine is valid. */
    method InitializeDraft(setDist: Layout, l: Laws, draw: (int, int) -> int, vary: (int, int) -> real, err: (int, int) -> real)
      requires Shaped() && LawsHold(l) && setDist != Uniform
      requires Laid(setDist, rentFloor, rentCeiling, size) && !rentIntegral
      requires forall i, j :: 0 <= i < size && 0 <= j < size ==> rent[i, j] == rentCeiling as real
      requires setDist == RandomRent ==> forall i, j :: 0 <= i < size && 0 <= j < size ==> rentFloor <= draw(i, j) < rentCeiling
      requires forall i, j :: 0 <= i < size && 0 <= j < size ==> 0.0 <= vary(i, j) < 1.0
      requires agents == [] && agentCoords == [] && Blank()
      modifies rent, income, this`rentIntegral
      ensures !rentIntegral
      ensures forall i, j {:trigger DraftRent(setDist, l, rentFloor, rentCeiling, size, draw, vary(i, j), (i, j))} :: 0 <= i < size && 0 <= j < size ==>
        rent[i, j] == DraftRent(setDist, l, rentFloor, rentCeiling, size, draw, vary(i, j), (i, j))
      ensures forall i, j :: 0 <= i < size && 0 <= j < size ==>
        income[i, j] == rent[i, j] * 4.0 * RandomFloatRange(err(i, j), 0.9, 1.1)
      ensures 0 < rentFloor <= rentCeiling ==> Valid()
    {
      var floor, ceiling, n := rentFloor, rentCeiling, size;
      VaryDraft(setDist, l, draw, vary);
      SeedDraftIncome(err);
      if 0 < floor <= ceiling {
        DraftRentsNonNegative(setDist, l, floor, ceiling, n, draw, vary);
        forall i, j | 0 <= i < n && 0 <= j < n ensures rent[i, j] >= 0.0 {
          assert rent[i, j] == DraftRent(setDist, l, floor, ceiling, n, draw, vary(i, j), (i, j));
        }
      }
    }

    /** An agent founded on block `c` as an agent of kind `k`: the fixed
        part of `FastFoodAgent(c, self)` / `GroceryStoreAgent(c, self)`. */
    predicate Founded(a: Agent, k: Kind, c: Coord)
      requires Shaped() && InBounds(size, c)
      reads rent
    {
      a.kind == k && a.loc == c && a.footprint == EffectRadius(c, AgentRadius) &&
      a.operatingCosts == rent[c.0, c.1] + Operations(k) as real
    }

    /** The list `after` is `before` followed by one freshly founded agent
        per entry of `born`, in order. */
    ghost predicate ExtendedTo(before: seq<Agent>, after: seq<Agent>, born: seq<(Kind, Coord)>)
      requires Shaped()
      reads rent
    {
      |after| == |before| + |born| && after[..|before|] == before &&
      forall i :: 0 <= i < |born| ==>
        InBounds(size, born[i].1) && Founded(after[|before| + i], born[i].0, born[i].1)
    }

    /** The registry is `before` extended by the agents `born`. */
    ghost predicate Extended(before: seq<Agent>, born: seq<(Kind, Coord)>)
      requires Shaped()
      reads this, rent
    {
      ExtendedTo(before, agents, born)
    }

    /** Two extensions in a row make one. */
    lemma ExtendedTwice(before: seq<Agent>, middle: seq<Agent>, after: seq<Agent>,
                        born1: seq<(Kind, Coord)>, born2: seq<(Kind, Coord)>)
      requires Shaped() && ExtendedTo(before, middle, born1) && ExtendedTo(middle, after, born2)
      ensures ExtendedTo(before, after, born1 + born2)
    {
      assert after[..|before|] == middle[..|before|];
      forall i | 0 <= i < |born1 + born2|
        ensures InBounds(size, (born1 + born2)[i].1) &&
          Founded(after[|before| + i], (born1 + born2)[i].0, (born1 + born2)[i].1)
      {
        if i < |born1| {
          assert after[|before| + i] == middle[|before| + i];
        } else {
          assert after[|before| + i] == after[|middle| + (i - |born1|)];
        }
      }
    }

    /** `add_agent(FastFoodAgent(c, self))` or its grocery counterpart. */
    method Found(k: Kind, c: Coord) returns (a: Agent)
      requires Valid() && InBounds(size, c)
      modifies this`agents
      ensures fresh(a) && Extended(old(agents), [(k, c)]) && agents == old(agents) + [a]
      ensures a.wealth == InitialWealth(k) as real && Endowed(old(agents), agents)
      ensures Valid()
    {
      a := new Agent(k, c, this);
      AddAgent(a);
      assert agents[|old(agents)|] == a;
    }

    /** `random_create_rule`, with the block (drawn from [0, size)^2) and the
        kind draw (from [0, 1)) passed in: on a tick divisible by 5 one agent
        is founded there, of the kind the draw selects; otherwise nothing
        happens. On a 0 x 0 grid the block draw `randint(0, 0)` raises
        (`crashed`) on every tick. */
    method RandomCreateRule(x: int, y: int, kindDraw: real) returns (crashed: bool)
      requires Valid() && (size > 0 ==> InBounds(size, (x, y)))
      modifies this`agents
      ensures Valid()
      ensures crashed <==> size == 0
      ensures Extended(old(agents), if crashed then [] else Born(RandomCreation(time, x, y, kindDraw)))
      ensures Endowed(old(agents), agents)
      ensures forall a :: a in agents ==> a in old(agents) || fresh(a)
    {
      crashed := size == 0;
      if crashed {
        assert agents[..|agents|] == agents;
      } else if time % 5 == 0 {
        var kind := if kindDraw < 0.5 then FastFood else Grocery;
        var a := Found(kind, (x, y));
      } else {
        assert agents[..|agents|] == agents;
      }
    }

    /** The drafts' `random_create_rule`: with the block drawn from
        [0, size)^2 passed in, a fast-food agent is founded there on every
        tick; there is no tick gating, no kind draw and no occupancy test.
        On a 0 x 0 grid the block draw raises (`crashed`). The agent's
        footprint is the engine's `effect_radius`, which the draft engine
        class itself does not define. */
    method RandomCreateRuleDraft(x: int, y: int) returns (crashed: bool)
      requires Valid() && (size > 0 ==> InBounds(size, (x, y)))
      modifies this`agents
      ensures Valid()
      ensures crashed <==> size == 0
      ensures Extended(old(agents), if crashed then [] else [(FastFood, (x, y))])
      ensures Endowed(old(agents), agents)
    {
      crashed := size == 0;
      if crashed {
        assert agents[..|agents|] == agents;
      } else {
        var a := Found(FastFood, (x, y));
      }
    }

    /** `potential_creations` for kind `k` with the shared draw `rand` and
        the index chooser `pick`: the maximum margin, the qualified
        candidates, and at most one new agent at a qualified block. A zero
        maximum margin is the ZeroDivisionError of the first ratio. */
    method PotentialCreations(k: Kind, cands: seq<Coord>, margins: seq<real>, rand: real, pick: nat -> nat)
      returns (crashed: bool)
      requires Valid() && |margins| == |cands| > 0 && IsPicker(pick)
      requires forall c :: c in cands ==> InBounds(size, c)
      modifies this`agents
      ensures Valid()
      ensures crashed <==> Decide(cands, margins, rand, pick) == DivisionByZero
      ensures Extended(old(agents), Births(Decide(cands, margins, rand, pick), k))
      ensures Endowed(old(agents), agents)
      ensures forall a :: a in agents ==> a in old(agents) || fresh(a)
    {
      var maximum := LargestMargin(margins);
      if maximum == 0.0 {
        assert agents[..|agents|] == agents;
        return true;
      }
      crashed := false;
      var createLocations := QualifiedBlocks(cands, margins, maximum, rand);
      if |createLocations| > 0 {
        var choice := pick(|createLocations|);
        var c := createLocations[choice];
        QualifiedExact(cands, margins, maximum, rand);
        assert c in cands by {
          assert c in createLocations;
        }
        var a := Found(k, c);
      } else {
        assert agents[..|agents|] == agents;
      }
    }

    /** The expenditure grid `potential_revenue` reads for kind `k`. */
    function Spend(k: Kind): array2<real>
    {
      if k == FastFood then fastFood else grocery
    }

    /** The competitor counts `potential_revenue` reads for kind `k`. */
    function Count(k: Kind): array2<int>
    {
      if k == FastFood then ffCount else gsCount
    }

    /** `potential_profits` for kind `k` over its candidate list, built from
        the location snapshot `agentCoords`. */
    ghost function Margins(k: Kind): (r: seq<real>)
      requires Priced()
      reads this`agentCoords, rent, fastFood, grocery, ffCount, gsCount
      ensures |r| == |Candidates(size, agentCoords, k)|
    {
      CandidatesExact(size, agentCoords, k);
      PotentialProfits(size, k, Candidates(size, agentCoords, k), rent, Spend(k), Count(k))
    }

    /** What the rule decides for kind `k`, with the shared draw `rand` and
        the chooser `pick`. */
    ghost function DecisionFor(k: Kind, rand: real, pick: nat -> nat): Decision
      requires Priced() && IsPicker(pick)
      reads this`agentCoords, rent, fastFood, grocery, ffCount, gsCount
    {
      KindDecision(Candidates(size, agentCoords, k), Margins(k), rand, pick)
    }

    /** A block the rule founds an agent of kind `k` on lies on the grid and
        is not recorded in the snapshot as hosting an agent of that kind. */
    lemma DecisionForSound(k: Kind, rand: real, pick: nat -> nat)
      requires Valid() && IsPicker(pick)
      ensures DecisionFor(k, rand, pick).Create? ==>
        InBounds(size, DecisionFor(k, rand, pick).at) &&
        forall i :: 0 <= i < |agentCoords| && agentCoords[i].kind == k ==>
          agentCoords[i].loc != DecisionFor(k, rand, pick).at
    {
      var cands := Candidates(size, agentCoords, k);
      CandidatesExact(size, agentCoords, k);
      KindDecisionSound(cands, Margins(k), rand, pick);
    }

    /** One `if potential_list: potential_creations(...)` of the rule. */
    method CreateKind(k: Kind, cands: seq<Coord>, margins: seq<real>, rand: real, pick: nat -> nat)
      returns (crashed: bool)
      requires Valid() && |margins| == |cands| && IsPicker(pick)
      requires forall c :: c in cands ==> InBounds(size, c)
      modifies this`agents
      ensures Valid()
      ensures crashed <==> KindDecision(cands, margins, rand, pick) == DivisionByZero
      ensures Extended(old(agents), Births(KindDecision(cands, margins, rand, pick), k))
      ensures Endowed(old(agents), agents)
      ensures forall a :: a in agents ==> a in old(agents) || fresh(a)
    {
      crashed := false;
      if |margins| > 0 {
        crashed := PotentialCreations(k, cands, margins, rand, pick);
      } else {
        assert agents[..|agents|] == agents;
      }
    }

    /** The first half of `profit_probability_create_rule`: the fast-food
        and the grocery candidate lists (blocks the snapshot `agent_coords`
        does not record as hosting that kind) and their margins. */
    method CreationInputs() returns (ffCands: seq<Coord>, ffMargins: seq<real>, gsCands: seq<Coord>, gsMargins: seq<real>)
      requires Valid()
      ensures ffCands == Candidates(size, agentCoords, FastFood) && ffMargins == Margins(FastFood)
      ensures gsCands == Candidates(size, agentCoords, Grocery) && gsMargins == Margins(Grocery)
      ensures forall c :: c in ffCands ==> InBounds(size, c)
      ensures forall c :: c in gsCands ==> InBounds(size, c)
    {
      ffCands := VacantBlocks(size, HostedBy(agentCoords, FastFood));
      gsCands := VacantBlocks(size, HostedBy(agentCoords, Grocery));
      VacantBeforeEnd(size, HostedBy(agentCoords, FastFood));
      VacantBeforeEnd(size, HostedBy(agentCoords, Grocery));
      CandidatesExact(size, agentCoords, FastFood);
      CandidatesExact(size, agentCoords, Grocery);
      ffMargins := PotentialProfits(size, FastFood, ffCands, rent, fastFood, ffCount);
      gsMargins := PotentialProfits(size, Grocery, gsCands, rent, grocery, gsCount);
    }

    /** `profit_probability_create_rule`: the candidates and margins, then
        `potential_creations` for fast food and for groceries, each with
        its own shared draw and chooser. A ZeroDivisionError in the first
        call ends the rule. */
    method ProfitProbabilityCreateRule(ffRand: real, ffPick: nat -> nat, gsRand: real, gsPick: nat -> nat)
      returns (crashed: bool)
      requires Valid() && IsPicker(ffPick) && IsPicker(gsPick)
      modifies this`agents
      ensures Valid()
      ensures var ff := old(DecisionFor(FastFood, ffRand, ffPick));
        var gs := old(DecisionFor(Grocery, gsRand, gsPick));
        (crashed <==> ff == DivisionByZero || gs == DivisionByZero) &&
        Extended(old(agents), Births(ff, FastFood) + (if crashed then [] else Births(gs, Grocery)))
      ensures Endowed(old(agents), agents)
      ensures forall a :: a in agents ==> a in old(agents) || fresh(a)
    {
      var ffCands, ffMargins, gsCands, gsMargins := CreationInputs();
      ghost var ff := KindDecision(ffCands, ffMargins, ffRand, ffPick);
      ghost var gs := KindDecision(gsCands, gsMargins, gsRand, gsPick);
      assert ff == old(DecisionFor(FastFood, ffRand, ffPick)) && gs == old(DecisionFor(Grocery, gsRand, gsPick));
      crashed := CreateBothKinds(ffCands, ffMargins, ffRand, ffPick, gsCands, gsMargins, gsRand, gsPick);
      if crashed && ff != DivisionByZero {
        assert Births(gs, Grocery) == [];
      }
    }

    /** The two `potential_creations` calls of the profit rule, in order;
        a crash in the first skips the second. */
    method CreateBothKinds(ffCands: seq<Coord>, ffMargins: seq<real>, ffRand: real, ffPick: nat -> nat,
                           gsCands: seq<Coord>, gsMargins: seq<real>, gsRand: real, gsPick: nat -> nat)
      returns (crashed: bool)
      requires Valid() && IsPicker(ffPick) && IsPicker(gsPick)
      requires |ffMargins| == |ffCands| && |gsMargins| == |gsCands|
      requires forall c :: c in ffCands ==> InBounds(size, c)
      requires forall c :: c in gsCands ==> InBounds(size, c)
      modifies this`agents
      ensures Valid()
      ensures var ff := KindDecision(ffCands, ffMargins, ffRand, ffPick);
        var gs := KindDecision(gsCands, gsMargins, gsRand, gsPick);
        (crashed <==> ff == DivisionByZero || gs == DivisionByZero) &&
        Extended(old(agents), Births(ff, FastFood) + (if ff == DivisionByZero then [] else Births(gs, Grocery)))
      ensures Endowed(old(agents), agents)
      ensures forall a :: a in agents ==> a in old(agents) || fresh(a)
    {
      ghost var ff := KindDecision(ffCands, ffMargins, ffRand, ffPick);
      ghost var gs := KindDecision(gsCands, gsMargins, gsRand, gsPick);
      ghost var before := agents;
      crashed := CreateKind(FastFood, ffCands, ffMargins, ffRand, ffPick);
      if crashed {
        return;
      }
      ghost var middle := agents;
      assert ExtendedTo(before, middle, Births(ff, FastFood));
      crashed := CreateKind(Grocery, gsCands, gsMargins, gsRand, gsPick);
      ExtendedTwice(before, middle, agents, Births(ff, FastFood), Births(gs, Grocery));
      forall k | |before| <= k < |middle| ensures agents[k] == middle[k] {
        assert agents[..|middle|][k] == middle[k];
      }
    }

    /** The first two update passes of `step`: the location snapshot and
        marker grid, then the competitor counts over that snapshot. */
    method UpdateCensus()
      requires Valid()
      modifies this`agentCoords, agentLocations, ffCount, gsCount
      ensures Valid()
      ensures agentCoords == Records(agents)
      ensures forall i, j :: 0 <= i < size && 0 <= j < size ==> agentLocations[i, j] == Marker(agentCoords, (i, j))
      ensures forall i, j :: 0 <= i < size && 0 <= j < size ==> ffCount[i, j] == Coverage(agentCoords, FastFood, (i, j))
      ensures forall i, j :: 0 <= i < size && 0 <= j < size ==> gsCount[i, j] == Coverage(agentCoords, Grocery, (i, j))
    {
      UpdateAgentLocations();
      UpdateCaptureNumber();
    }

    /** The next three passes: the externalities from the new counts, the
        mobility from the externalities, the income from rent and
        mobility. */
    method UpdateEnvironment()
      requires Valid()
      modifies externalities, mobility, income
      ensures Valid()
      ensures forall i, j :: 0 <= i < size && 0 <= j < size ==>
        externalities[i, j] == NextExternality(old(externalities[i, j]), ffCount[i, j], gsCount[i, j])
      ensures forall i, j :: 0 <= i < size && 0 <= j < size ==> mobility[i, j] == Mobility(externalities[i, j])
      ensures forall i, j :: 0 <= i < size && 0 <= j < size ==> income[i, j] == Income(rent[i, j], mobility[i, j])
    {
      UpdateExternalities();
      UpdateMobility();
      UpdateIncome();
    }

    /** The six update passes of `step`, in order: the location snapshot
        and marker grid, the competitor counts, the externalities, mobility,
        income and the three spending grids. Each pass reads only grids the
        earlier ones left in place, so at the end every grid agrees with the
        ones it is computed from. */
    method UpdateGrids(l: Laws, away: (int, int) -> real, fast: (int, int) -> real, home: (int, int) -> real)
      requires Valid()
      modifies this`agentCoords, agentLocations, ffCount, gsCount, externalities, mobility, income,
        foodAway, fastFood, grocery
      ensures Valid()
      ensures agentCoords == Records(agents)
      ensures forall i, j :: 0 <= i < size && 0 <= j < size ==> agentLocations[i, j] == Marker(agentCoords, (i, j))
      ensures forall i, j :: 0 <= i < size && 0 <= j < size ==> ffCount[i, j] == Coverage(agentCoords, FastFood, (i, j))
      ensures forall i, j :: 0 <= i < size && 0 <= j < size ==> gsCount[i, j] == Coverage(agentCoords, Grocery, (i, j))
      ensures forall i, j :: 0 <= i < size && 0 <= j < size ==>
        externalities[i, j] == NextExternality(old(externalities[i, j]), ffCount[i, j], gsCount[i, j])
      ensures forall i, j :: 0 <= i < size && 0 <= j < size ==> mobility[i, j] == Mobility(externalities[i, j])
      ensures forall i, j :: 0 <= i < size && 0 <= j < size ==> income[i, j] == Income(rent[i, j], mobility[i, j])
      ensures forall i, j :: 0 <= i < size && 0 <= j < size ==> foodAway[i, j] == FoodAwaySpend(l, income[i, j], away(i, j))
      ensures forall i, j :: 0 <= i < size && 0 <= j < size ==>
        fastFood[i, j] == FastFoodSpend(income[i, j], foodAway[i, j], fast(i, j))
      ensures forall i, j :: 0 <= i < size && 0 <= j < size ==> grocery[i, j] == GrocerySpend(l, income[i, j], home(i, j))
    {
      UpdateCensus();
      UpdateEnvironment();
      UpdateExpenditures(l, away, fast, home);
    }

    /** The grids as the update passes leave them for the location records
        `ps`: the census of `ps`, mobility and income from the externalities
        and rents, and the three spending laws over the new income. */
    ghost predicate Refreshed(ps: seq<Presence>, l: Laws, away: (int, int) -> real, fast: (int, int) -> real,
                              home: (int, int) -> real)
      requires Shaped()
      reads rent, agentLocations, ffCount, gsCount, externalities, mobility, income, foodAway, fastFood, grocery
    {
      forall i, j :: 0 <= i < size && 0 <= j < size ==> RefreshedAt(ps, l, away, fast, home, i, j)
    }

    /** `Refreshed` at the block `(i, j)`. */
    ghost predicate RefreshedAt(ps: seq<Presence>, l: Laws, away: (int, int) -> real, fast: (int, int) -> real,
                                home: (int, int) -> real, i: int, j: int)
      requires Shaped() && 0 <= i < size && 0 <= j < size
      reads rent, agentLocations, ffCount, gsCount, externalities, mobility, income, foodAway, fastFood, grocery
    {
      agentLocations[i, j] == Marker(ps, (i, j)) &&
      ffCount[i, j] == Coverage(ps, FastFood, (i, j)) &&
      gsCount[i, j] == Coverage(ps, Grocery, (i, j)) &&
      mobility[i, j] == Mobility(externalities[i, j]) &&
      income[i, j] == Income(rent[i, j], mobility[i, j]) &&
      foodAway[i, j] == FoodAwaySpend(l, income[i, j], away(i, j)) &&
      fastFood[i, j] == FastFoodSpend(income[i, j], foodAway[i, j], fast(i, j)) &&
      grocery[i, j] == GrocerySpend(l, income[i, j], home(i, j))
    }

    /** The externality of the block `(i, j)` has moved one step from `e0`
        under the block's competitor counts. */
    ghost predicate Moved(e0: int, i: int, j: int)
      requires Shaped() && 0 <= i < size && 0 <= j < size
      reads externalities, ffCount, gsCount
    {
      externalities[i, j] == NextExternality(e0, ffCount[i, j], gsCount[i, j])
    }

    /** The agent loop's bookkeeping over the registry `s` it starts from,
        whose agents then hold the wealths `w`: each agent is overdrawn
        (`fails`) or not by its starting wealth, its takings and its costs,
        and ends at its starting wealth settled by those takings and costs
        if the loop visited it. */
    ghost predicate Settlement(s: seq<Agent>, w: seq<real>, fails: seq<bool>)
      requires Priced()
      reads s, rent, fastFood, grocery, ffCount, gsCount
    {
      |w| == |s| && |fails| == |s| &&
      forall k :: 0 <= k < |s| ==> SettledAt(s, w, fails, k)
    }

    /** `Settlement` for the agent at index `k`. */
    ghost predicate SettledAt(s: seq<Agent>, w: seq<real>, fails: seq<bool>, k: int)
      requires Priced() && |w| == |s| && |fails| == |s| && 0 <= k < |s|
      reads s, rent, fastFood, grocery, ffCount, gsCount
    {
      fails[k] == Overdrawn(w[k], Takings(s[k]), s[k].operatingCosts) &&
      s[k].wealth == Settled(w[k], Takings(s[k]), s[k].operatingCosts, Visits(fails)[k])
    }

    /** The wealth of each agent of `s`, in order. */
    ghost function Wealths(s: seq<Agent>): (r: seq<real>)
      reads s
      ensures |r| == |s| && forall k :: 0 <= k < |s| ==> r[k] == s[k].wealth
      decreases |s|
    {
      if |s| == 0 then [] else Wealths(s[..|s| - 1]) + [s[|s| - 1].wealth]
    }

    /** What each agent of `s` takes in this tick, in order. */
    ghost function TakingsOf(s: seq<Agent>): (r: seq<real>)
      requires Priced()
      reads rent, fastFood, grocery, ffCount, gsCount
      ensures |r| == |s|
      decreases |s|
    {
      if |s| == 0 then [] else TakingsOf(s[..|s| - 1]) + [Takings(s[|s| - 1])]
    }

    lemma {:induction false} TakingsAt(s: seq<Agent>, k: nat)
      requires Priced() && k < |s|
      ensures TakingsOf(s)[k] == Takings(s[k])
      decreases |s|
    {
      if k < |s| - 1 {
        TakingsAt(s[..|s| - 1], k);
      }
    }

    /** Whether each agent of `s` goes bankrupt when its turn comes: its
        wealth plus its takings less its operating costs is negative. The
        grids do not change during the agent loop, so this does not depend
        on the order of the turns. */
    ghost function Failing(s: seq<Agent>): (r: seq<bool>)
      requires Priced()
      reads s, rent, fastFood, grocery, ffCount, gsCount
      ensures |r| == |s| && forall k :: 0 <= k < |s| ==>
        r[k] == Overdrawn(s[k].wealth, TakingsOf(s)[k], s[k].operatingCosts)
      decreases |s|
    {
      if |s| == 0 then []
      else
        var a := s[|s| - 1];
        Failing(s[..|s| - 1]) + [Overdrawn(a.wealth, Takings(a), a.operatingCosts)]
    }

    /** `fails` records, for each agent of `s0` with starting wealth `w0`
        and takings `t`, whether it goes bankrupt when its turn comes. */
    ghost predicate Foreseen(s0: seq<Agent>, w0: seq<real>, t: seq<real>, fails: seq<bool>)
    {
      |w0| == |s0| && |t| == |s0| && |fails| == |s0| &&
      forall k :: 0 <= k < |s0| ==> fails[k] == Overdrawn(w0[k], t[k], s0[k].operatingCosts)
    }

    /** The agents of `s0` before position `p` have settled their wealth;
        the others still hold their starting wealth. */
    ghost predicate SettledBefore(s0: seq<Agent>, w0: seq<real>, t: seq<real>, visits: seq<bool>, p: nat)
      requires |w0| == |s0| && |t| == |s0| && |visits| == |s0|
      reads s0
    {
      forall k :: 0 <= k < |s0| ==>
        s0[k].wealth == if k < p then Settled(w0[k], t[k], s0[k].operatingCosts, visits[k]) else w0[k]
    }

    /** The agent loop of `step` part-way, over the registry `s0` it started
        with: the iterator's index is `i`, the next agent to visit is at
        position `p` of `s0`. */
    ghost predicate Sweeping(s0: seq<Agent>, w0: seq<real>, t: seq<real>, fails: seq<bool>, i: nat, p: nat)
      reads this, s0, rent, fastFood, grocery, ffCount, gsCount, externalities
    {
      Valid() && NoDup(s0) && t == TakingsOf(s0) && Foreseen(s0, w0, t, fails) &&
      Progress(s0, fails, agents, i, p) && SettledBefore(s0, w0, t, Visits(fails), p)
    }

    /** One turn of the agent loop: the agent at index `i`, which is the
        one at position `p` of `s0`, steps and settles its wealth; a
        bankrupt one leaves the list, so that its successor slides into
        index `i`. No other agent of `s0`, whose wealths were `ws`, changes. */
    method Turn(i: nat, ghost s0: seq<Agent>, ghost p: nat, ghost ws: seq<real>) returns (removed: bool)
      requires Valid() && i < |agents| && p < |s0| && agents[i] == s0[p] && ws == Wealths(s0)
      modifies this`agents, agents[i]
      ensures Valid()
      ensures var a := s0[p]; var takings := TakingsOf(s0)[p];
        (removed <==> Overdrawn(ws[p], takings, a.operatingCosts)) &&
        a.wealth == Settled(ws[p], takings, a.operatingCosts, true) &&
        agents == if removed then old(agents)[..i] + old(agents)[i + 1..] else old(agents)
      ensures forall k :: 0 <= k < |s0| && s0[k] != s0[p] ==> s0[k].wealth == ws[k]
      ensures TakingsOf(s0) == old(TakingsOf(s0))
    {
      var a := agents[i];
      assert a !in agents[..i] by {
        assert forall m :: 0 <= m < i ==> agents[..i][m] == agents[m];
      }
      RemoveFirstAt(agents, a, i);
      TakingsAt(s0, p);
      removed := a.Step(this);
    }

    /** After the turn of the agent at position `p` of `s0`, the agents
        before `next` have settled: the one at `p` by its turn, the one the
        iterator passes over by keeping its wealth, the others untouched. */
    lemma SettledAfterTurn(s0: seq<Agent>, w0: seq<real>, t: seq<real>, visits: seq<bool>, ws: seq<real>, p: nat, next: nat)
      requires NoDup(s0)
      requires |w0| == |s0| && |t| == |s0| && |visits| == |s0| && |ws| == |s0| && p < |s0|
      requires next == p + 1 || (next == p + 2 && p + 1 < |s0| && !visits[p + 1])
      requires forall k :: 0 <= k < |s0| ==>
        ws[k] == if k < p then Settled(w0[k], t[k], s0[k].operatingCosts, visits[k]) else w0[k]
      requires s0[p].wealth == Settled(w0[p], t[p], s0[p].operatingCosts, visits[p])
      requires forall k :: 0 <= k < |s0| && s0[k] != s0[p] ==> s0[k].wealth == ws[k]
      ensures SettledBefore(s0, w0, t, visits, next)
    {
      forall k | 0 <= k < |s0| && k != p
        ensures s0[k].wealth == if k < next then Settled(w0[k], t[k], s0[k].operatingCosts, visits[k]) else w0[k]
      {
        assert s0[k] != s0[p];
      }
    }

    /** The snapshot of the wealths part-way through the loop. */
    lemma WealthsSettled(s0: seq<Agent>, w0: seq<real>, t: seq<real>, visits: seq<bool>, p: nat)
      requires |w0| == |s0| && |t| == |s0| && |visits| == |s0|
      requires SettledBefore(s0, w0, t, visits, p)
      ensures forall k :: 0 <= k < |s0| ==>
        Wealths(s0)[k] == if k < p then Settled(w0[k], t[k], s0[k].operatingCosts, visits[k]) else w0[k]
    {
    }

    /** The bookkeeping around a turn: the iterator, moving on to `i + 1`
        after a removal, passes over the agent that slid into index `i`. */
    method VisitNext(ghost s0: seq<Agent>, ghost w0: seq<real>, ghost t: seq<real>, ghost fails: seq<bool>,
                     i: nat, ghost p: nat)
      returns (ghost next: nat)
      requires Sweeping(s0, w0, t, fails, i, p) && i < |agents|
      modifies this`agents, agents[i]
      ensures Sweeping(s0, w0, t, fails, i + 1, next) && p < next
    {
      ghost var before := agents;
      ProgressNext(s0, fails, before, i, p);
      ghost var visits := Visits(fails);
      ghost var ws := Wealths(s0);
      WealthsSettled(s0, w0, t, visits, p);
      var removed := Turn(i, s0, p, ws);
      if !removed {
        next := p + 1;
        ProgressKeep(s0, fails, before, i, p);
      } else {
        ProgressDrop(s0, fails, before, i, p);
        next := if p + 1 < |s0| then p + 2 else p + 1;
      }
      SettledAfterTurn(s0, w0, t, visits, ws, p, next);
    }

    /** The agent loop of `step`: `for agent in self.agents: agent.step(self)`.
        Python's list iterator keeps its index while a bankrupt agent
        removes itself, so the agent after a removed one is passed over this
        tick. The registry becomes `Swept` of the old one under the agents'
        bankruptcies; visited agents settle their wealth, the others keep it. */
    method StepAgents()
      requires Valid()
      modifies this`agents, agents
      ensures Valid()
      ensures unchanged(rent, agentLocations, ffCount, gsCount, externalities, mobility, income, foodAway, fastFood, grocery)
      ensures agents == Swept(old(agents), old(Failing(agents)))
      ensures forall k :: 0 <= k < |old(agents)| ==>
        old(agents)[k].wealth == Settled(old(agents[k].wealth), TakingsOf(old(agents))[k],
                                         old(agents)[k].operatingCosts, Visits(old(Failing(agents)))[k])
    {
      ghost var s0 := agents;
      ghost var w0 := Wealths(agents);
      ghost var t := TakingsOf(agents);
      ghost var fails := Failing(agents);
      ProgressStart(s0, fails);
      var i, p := AgentLoop(s0, w0, t, fails);
      ProgressEnd(s0, fails, agents, i, p);
    }

    /** The `for` loop itself, from the start of the registry `s0` to the
        iterator's end. */
    method AgentLoop(ghost s0: seq<Agent>, ghost w0: seq<real>, ghost t: seq<real>, ghost fails: seq<bool>)
      returns (i: nat, ghost p: nat)
      requires Sweeping(s0, w0, t, fails, 0, 0)
      modifies this`agents, s0
      ensures Sweeping(s0, w0, t, fails, i, p) && i >= |agents|
    {
      i, p := 0, 0;
      while i < |agents|
        invariant Sweeping(s0, w0, t, fails, i, p)
        decreases |s0| - p
      {
        p := VisitNext(s0, w0, t, fails, i, p);
        i := i + 1;
      }
    }

    /** `self.create_rule(self)`: the simulation's create rule, with the
        random rule's block `(x, y)` and kind draw and the profit rule's
        draws and choosers passed in. `crashed` is an exception out of the
        rule: a missing rule, the random rule's block draw on a 0 x 0 grid,
        or a ZeroDivisionError of the profit rule. Without one, the registry
        is extended by the agents the rule founds; with one, it keeps what
        the rule founded before raising (a fast-food agent of the profit
        rule whose grocery half divides by zero). */
    method Create(x: int, y: int, kindDraw: real, ffRand: real, ffPick: nat -> nat, gsRand: real, gsPick: nat -> nat)
      returns (crashed: bool)
      requires Valid() && IsPicker(ffPick) && IsPicker(gsPick)
      requires createRule == RandomCreate && size > 0 ==> InBounds(size, (x, y))
      modifies this`agents
      ensures Valid()
      ensures var ff := old(DecisionFor(FastFood, ffRand, ffPick));
        var gs := old(DecisionFor(Grocery, gsRand, gsPick));
        (crashed <==> (createRule == Unset || (createRule == RandomCreate && size == 0) ||
                       (createRule == ProfitProbability && (ff == DivisionByZero || gs == DivisionByZero)))) &&
        Extended(old(agents), if !crashed then Spawned(createRule, time, x, y, kindDraw, ff, gs)
                              else if createRule == ProfitProbability then Births(ff, FastFood) else [])
      ensures Endowed(old(agents), agents)
      ensures Opening(old(Wealths(agents)), Wealths(agents), agents)
      ensures forall a :: a in agents ==> a in old(agents) || fresh(a)
    {
      crashed := ApplyCreateRule(x, y, kindDraw, ffRand, ffPick, gsRand, gsPick);
      WealthsKept(old(agents));
      OpeningOf(old(agents), agents);
    }

    /** The dispatch on the create rule that `Create` performs. */
    method ApplyCreateRule(x: int, y: int, kindDraw: real, ffRand: real, ffPick: nat -> nat, gsRand: real, gsPick: nat -> nat)
      returns (crashed: bool)
      requires Valid() && IsPicker(ffPick) && IsPicker(gsPick)
      requires createRule == RandomCreate && size > 0 ==> InBounds(size, (x, y))
      modifies this`agents
      ensures Valid()
      ensures var ff := old(DecisionFor(FastFood, ffRand, ffPick));
        var gs := old(DecisionFor(Grocery, gsRand, gsPick));
        (crashed <==> (createRule == Unset || (createRule == RandomCreate && size == 0) ||
                       (createRule == ProfitProbability && (ff == DivisionByZero || gs == DivisionByZero)))) &&
        Extended(old(agents), if !crashed then Spawned(createRule, time, x, y, kindDraw, ff, gs)
                              else if createRule == ProfitProbability then Births(ff, FastFood) else [])
      ensures Endowed(old(agents), agents)
      ensures forall a :: a in agents ==> a in old(agents) || fresh(a)
    {
      ghost var ff := DecisionFor(FastFood, ffRand, ffPick);
      ghost var gs := DecisionFor(Grocery, gsRand, gsPick);
      match createRule {
        case Unset =>
          assert agents[..|agents|] == agents;
          return true;
        case NoCreate =>
          crashed := false;
          assert agents[..|agents|] == agents;
        case RandomCreate =>
          crashed := RandomCreateRule(x, y, kindDraw);
          assert Spawned(createRule, time, x, y, kindDraw, ff, gs) == Born(RandomCreation(time, x, y, kindDraw));
        case ProfitProbability =>
          crashed := ProfitProbabilityCreateRule(ffRand, ffPick, gsRand, gsPick);
          if crashed {
            assert Births(ff, FastFood) + [] == Births(ff, FastFood);
          }
      }
    }

    /** The wealths of agents none of whose fields changed. */
    twostate lemma WealthsKept(s: seq<Agent>)
      requires unchanged(s)
      ensures Wealths(s) == old(Wealths(s))
    {
    }

    /** A registry extended by agents founded with their initial wealth
        opens the tick with the old agents' wealths followed by those. */
    lemma OpeningOf(before: seq<Agent>, after: seq<Agent>)
      requires |before| <= |after| && after[..|before|] == before && Endowed(before, after)
      ensures Opening(Wealths(before), Wealths(after), after)
    {
      var w, w0 := Wealths(before), Wealths(after);
      assert w0[..|w|] == w;
    }

    /** The update passes as the rest of the tick sees them: the registry
        is snapshot, the grids are refreshed for that snapshot and each
        block's externality moves one step from its old value. */
    method Refresh(l: Laws, away: (int, int) -> real, fast: (int, int) -> real, home: (int, int) -> real)
      requires Valid()
      modifies this`agentCoords, agentLocations, ffCount, gsCount, externalities, mobility, income,
        foodAway, fastFood, grocery
      ensures Valid() && agentCoords == Records(agents) && Refreshed(agentCoords, l, away, fast, home)
      ensures forall k :: 0 <= k < |agents| ==> agents[k].wealth == old(agents[k].wealth)
      ensures forall i, j :: 0 <= i < size && 0 <= j < size ==> Moved(old(externalities[i, j]), i, j)
    {
      UpdateGrids(l, away, fast, home);
    }

    /** The rest of `step` after the create rule: the update passes, which
        snapshot the registry, the agent loop, which sweeps it under the
        bankruptcies `fails`, and the clock. */
    method Advance(l: Laws, away: (int, int) -> real, fast: (int, int) -> real, home: (int, int) -> real)
      returns (ghost w0: seq<real>, ghost fails: seq<bool>)
      requires Valid()
      modifies this`agents, this`agentCoords, this`time, agents, agentLocations, ffCount, gsCount,
        externalities, mobility, income, foodAway, fastFood, grocery
      ensures Valid()
      ensures agentCoords == Records(old(agents)) && Refreshed(agentCoords, l, away, fast, home)
      ensures forall i, j :: 0 <= i < size && 0 <= j < size ==> Moved(old(externalities[i, j]), i, j)
      ensures |fails| == |old(agents)| && agents == Swept(old(agents), fails)
      ensures Settlement(old(agents), w0, fails) && w0 == old(Wealths(agents))
      ensures time == old(time) + 1
    {
      Refresh(l, away, fast, home);
      w0 := Wealths(agents);
      fails := Sweep();
    }

    /** The agent loop and the clock: each agent is overdrawn (`fails`) or
        not by its starting wealth, its takings and its costs; it settles to
        its starting wealth plus those takings less the costs when the loop
        visits it, and the registry is swept of the overdrawn ones. */
    method Sweep() returns (ghost fails: seq<bool>)
      requires Valid()
      modifies this`agents, this`time, agents
      ensures Valid() && time == old(time) + 1
      ensures unchanged(rent, agentLocations, ffCount, gsCount, externalities, mobility, income, foodAway, fastFood, grocery)
      ensures |fails| == |old(agents)| && agents == Swept(old(agents), fails)
      ensures Settlement(old(agents), old(Wealths(agents)), fails)
    {
      ghost var s0 := agents;
      ghost var w0 := Wealths(agents);
      fails := Failing(agents);
      forall k | 0 <= k < |s0| ensures TakingsOf(s0)[k] == Takings(s0[k]) {
        TakingsAt(s0, k);
      }
      StepAgents();
      Tick();
    }

    /** `self.time += 1`. */
    method Tick()
      requires Valid()
      modifies this`time
      ensures Valid() && time == old(time) + 1
    {
      time := time + 1;
    }

    /** `step`: the create rule, the update passes, the agent loop and the
        clock. The create rule's inputs and the spending draws are passed
        in. When the create rule raises (`crashed`) the tick ends there.
        Otherwise `created` is the registry after the create rule: the old
        one extended by the founded agents; the update passes snapshot it,
        and the agent loop sweeps it under the bankruptcies `fails`. */
    method Step(x: int, y: int, kindDraw: real, ffRand: real, ffPick: nat -> nat, gsRand: real, gsPick: nat -> nat,
                l: Laws, away: (int, int) -> real, fast: (int, int) -> real, home: (int, int) -> real)
      returns (crashed: bool, ghost created: seq<Agent>, ghost w0: seq<real>, ghost fails: seq<bool>)
      requires Valid() && IsPicker(ffPick) && IsPicker(gsPick)
      requires createRule == RandomCreate && size > 0 ==> InBounds(size, (x, y))
      modifies this`agents, this`agentCoords, this`time, (set a | a in agents), agentLocations, ffCount, gsCount,
        externalities, mobility, income, foodAway, fastFood, grocery
      ensures Valid()
      ensures var ff := old(DecisionFor(FastFood, ffRand, ffPick));
        var gs := old(DecisionFor(Grocery, gsRand, gsPick));
        (crashed <==> (createRule == Unset || (createRule == RandomCreate && size == 0) ||
                       (createRule == ProfitProbability && (ff == DivisionByZero || gs == DivisionByZero)))) &&
        ExtendedTo(old(agents), created, if !crashed then Spawned(createRule, old(time), x, y, kindDraw, ff, gs)
                                         else if createRule == ProfitProbability then Births(ff, FastFood) else [])
      ensures time == if crashed then old(time) else old(time) + 1
      ensures crashed ==> (agents == created && agentCoords == old(agentCoords) &&
        unchanged(agentLocations, ffCount, gsCount, externalities, mobility, income, foodAway, fastFood, grocery))
      ensures !crashed ==> agentCoords == Records(created) && Refreshed(agentCoords, l, away, fast, home)
      ensures !crashed ==> forall i, j :: 0 <= i < size && 0 <= j < size ==> Moved(old(externalities[i, j]), i, j)
      ensures !crashed ==> Settlement(created, w0, fails) && agents == Swept(created, fails)
      ensures Opening(old(Wealths(agents)), if crashed then Wealths(agents) else w0, created)
    {
      fails := [];
      w0 := [];
      ghost var born := Spawned(createRule, time, x, y, kindDraw, DecisionFor(FastFood, ffRand, ffPick),
        DecisionFor(Grocery, gsRand, gsPick));
      crashed := Create(x, y, kindDraw, ffRand, ffPick, gsRand, gsPick);
      created := agents;
      if crashed {
        return;
      }
      assert ExtendedTo(old(agents), created, born);
      label mid:
      w0, fails := Advance(l, away, fast, home);
      assert forall i, j :: 0 <= i < size && 0 <= j < size ==> old@mid(externalities[i, j]) == old(externalities[i, j]);
    }

    /** `add_agent`: append at the end. */
    method AddAgent(a: Agent)
      requires Valid() && a !in agents && Placed(a.Record())
      modifies this`agents
      ensures agents == old(agents) + [a]
      ensures Valid()
    {
      agents := agents + [a];
    }

    /** `remove_agent`: `list.remove`, which drops the one occurrence of the
        agent and keeps the others in order. */
    method RemoveAgent(a: Agent)
      requires Valid() && a in agents
      modifies this`agents
      ensures agents == RemoveFirst(old(agents), a)
      ensures |agents| == |old(agents)| - 1
      ensures forall b :: b in agents <==> b in old(agents) && b != a
      ensures Valid()
    {
      RemoveFirstNoDup(agents, a);
      agents := RemoveFirst(agents, a);
    }
  }
}
