# UrbanScape engine in Dafny

UrbanScape simulates an n × n grid of city blocks on which fast-food outlets and
grocery stores open, compete for the food spending of the residents around them,
and close when they go broke. Every block carries a rent, an income, a mobility
level, an externality level (the accumulated exposure to fast food) and three
spending grids. Each tick of the engine (`step`):

1. applies the creation policy (none, random, or profit-probability);
2. rebuilds the location map and the per-cell competitor counts;
3. updates the externalities, mobility and income;
4. recomputes the spending grids;
5. steps every agent: revenue in, operating costs out, bankruptcy check;
6. advances the clock.

The canonical engine is `UrbanScape/urbanscape.py`. The `underDev/` files and
`UrbanScape/update.py` are drafts of the same engine. The model has one set of
definitions; where a draft behaves differently, the difference is a separate
member (suffix `Draft`, or a `draft` flag on a setter).

Modules, one file each:

- `Base` (base.dfy): coordinates, the two agent kinds and their constants, and
  the transcendental laws as parameters.
- `Lists` (lists.dfy): `list.remove` and filtering, on sequences.
- `Footprint` (footprint.dfy): `effect_radius` and the row-major block
  enumerations.
- `Exposure` (exposure.dfy): coverage counts, the externality accumulator,
  mobility, income and the expenditure laws.
- `Capture` (capture.dfy): the capture sums of `capture_expenditures` and
  `potential_revenue`.
- `Locations` (locations.dfy): the duplicate split of `update_agent_locations`
  and its block markers.
- `Sweep` (sweep.dfy): the agent loop that removes while iterating.
- `Creation` (creation.dfy): candidates, margins and the decision of
  `potential_creations`.
- `Distribution` (distribution.dfy): the rent-field setters, cell by cell.
- `Engine` (engine.dfy): the stateful engine. `Simulation` holds the grids as
  `array2` fields and the registry as a `seq<Agent>`. `Agent` is a class whose
  wealth its methods update. The update passes, setters, create rules and
  `step` are methods proved against the functions of the other modules.

Randomness is passed in:

- per-cell draws are functions `(int, int) -> real` or `(int, int) -> int`;
- `randint(0, m)` is a chooser `pick: nat -> nat` with `pick(m) < m`;
- the random rule's block and kind draw are arguments.

## Model

| member | source | states |
|---|---|---|
| Lists.RemoveFirst | UrbanScape/urbanscape.py:109-116 | `list.remove(x)` on a list holding `x` shortens it by one (the bare `coords.remove(i)`, always called on a present element); on a list without `x` the result is the list itself, which is what the `try: remove except: pass` of the location split leaves, where a bare `remove` would raise |
| Lists.RemoveFirstMultiset | UrbanScape/urbanscape.py:65-66 | `remove(x)` takes exactly one occurrence of `x` out of the list and nothing else |
| Lists.RemoveFirstAt | UrbanScape/urbanscape.py:65-66 | removing the first occurrence, found at index i, deletes exactly position i and keeps the other elements in order |
| Lists.RemoveFirstNoDup | underDev/urbanscape.py:57-58 | in a list without duplicates, `remove(x)` leaves a list without duplicates holding exactly the other elements |
| Lists.FilterMembers | underDev/create_rules.py:24-31 | the list built by appending the passing elements in a loop holds exactly the elements that pass |
| Footprint.EffectRadiusIsSquare | UrbanScape/urbanscape.py:69-76 | `effect_radius((x,y), r)` returns exactly (2r+1)² pairs, forming the square [x−r,x+r]×[y−r,y+r] with off-grid pairs included, in row-major order, each once |
| Footprint.ClippedFootprint | underDev/update.py:60-67 | the on-grid part of a footprint is the square clipped to the grid (a radius-2 agent at (0,0) reaches only [0,2]×[0,2]) |
| Footprint.RectExact | UrbanScape/update.py:66-73 | a pair is enumerated by the two nested `range` loops exactly when it lies within their bounds |
| Footprint.BlocksWhereExact | underDev/create_rules.py:24-31 | a row-major scan of the grid that keeps the blocks passing a test lists each passing block exactly once, in row-major order, and nothing else |
| Footprint.BlocksExact | underDev/set_distribution.py:98-100 | the block list of the central setter has n² entries and enumerates every block of the grid exactly once |
| Exposure.CoverageCountsReachingAgents | UrbanScape/urbanscape.py:137-153 | with footprints that list each pair once, the count at a cell is the number of agents of that kind whose footprint contains it |
| Exposure.CoverageIncludesSelf | underDev/update.py:91-107 | every cell of an agent's own footprint has a count of at least one for its kind |
| Exposure.NextExternality | UrbanScape/urbanscape.py:155-169 | the new accumulator value of a cell is never negative |
| Exposure.HealFiresOnlyOnZeroNet | underDev/update.py:150-167 | the result departs from max(0, e+ff−gs) exactly when ff = gs and the accumulator is positive, and then it strictly shrinks it |
| Exposure.NoExposureNeverGrows | UrbanScape/update.py:156-173 | with no agent reaching a cell, a non-negative accumulator never grows |
| Exposure.PowIntIncreasing | UrbanScape/urbanscape.py:182 | for a base above one, b^k strictly increases with the exponent k (negative exponents included) |
| Exposure.Mobility | underDev/update.py:169-181 | the logistic 0.75 + 0.25/(1 + 1.5^(E−50)) lies strictly between 0.75 and 1 |
| Exposure.MobilityDecreasing | UrbanScape/urbanscape.py:171-183 | mobility strictly decreases as the externality level grows |
| Exposure.MobilityAtInflection | UrbanScape/update.py:175-187 | an illustration of the logistic: at E = 50 mobility is 0.875 |
| Exposure.IncomeBetweenThreeAndFourRents | UrbanScape/urbanscape.py:134-135 | income = rent·4·mobility of a block with non-negative rent lies between three and four times its rent |
| Exposure.RandomFloatRange | UrbanScape/urbanscape.py:341-343 | a unit draw from [0,1) stretched onto [low, high) lands in [low, high) |
| Exposure.FastFoodShare | UrbanScape/urbanscape.py:199-208 | the clamped fast-food share always lies in [0.075, 0.40] |
| Exposure.FastFoodShareSummit | underDev/update.py:122-131 | the share takes its top value 0.40 only at income 0.332/5.528e-6 and is symmetric about it |
| Exposure.FastFoodShareRises | UrbanScape/update.py:128-137 | below the summit the share does not decrease as income grows |
| Exposure.FastFoodSpend | underDev/update.py:127-132 | with a unit draw, the fast-food spending of a block lies between 5.625% and 50% of its non-negative food-away spending |
| Locations.Distinct | UrbanScape/urbanscape.py:109 | `set(coords)` as a list holds every block of `coords` exactly once and nothing else |
| Locations.RedundantLocations | UrbanScape/urbanscape.py:111-113 | after removing each distinct block once, a block remains as often as it has agents beyond the first, so it remains exactly when it holds two or more |
| Locations.SplitLocations | UrbanScape/urbanscape.py:108-120 | the canonical split: the redundant blocks are those holding two or more agents, and the single blocks are those holding exactly one, each listed once |
| Locations.SplitLocationsDraft | underDev/update.py:31-41 | the draft split without `try` completes exactly when no block holds three or more agents, and then yields the canonical split |
| Locations.MarkerMeaning | UrbanScape/urbanscape.py:96-132 | the marker of a block is 0 exactly when no agent is on it, −0.5 exactly when two distinct agents share it, −1 / 1 exactly when one agent is there, of the fast-food / grocery kind |
| Locations.PaintAgrees | UrbanScape/urbanscape.py:122-132 | for any agent, exactly one of the loop's two tests fires on its block and the value written is the block's marker, whatever the iteration order |
| Sweep.VisitsLaw | UrbanScape/urbanscape.py:357-358 | the first agent is visited, and an agent is visited exactly when its predecessor was not both visited and removed |
| Sweep.SweptIsSurvivors | UrbanScape/urbanscape.py:357-358 | the list after the loop is the original list restricted to the agents not visited-and-bankrupt, in the original order |
| Sweep.SweptOnlyRemoves | UrbanScape/urbanscape.py:377-380 | the loop only removes agents: the result is a sub-multiset of the list |
| Sweep.NoFailureKeepsAll | underDev/agent.py:26-29 | when no agent goes bankrupt the registry comes out of the tick unchanged, order included |
| Sweep.SolventAgentsStay | UrbanScape/urbanscape.py:377-380 | an agent that would pass its bankruptcy check is never removed by the tick |
| Sweep.AtLeastHalfSurvive | UrbanScape/urbanscape.py:357-358 | because the iterator skips the successor of each removed agent, at least half the registry survives a tick |
| Sweep.AllFailingKeepsOddPositions | UrbanScape/urbanscape.py:357-358 | when every agent is bankrupt, exactly the agents at odd positions outlive the tick |
| Sweep.SecondOfTwoBankruptSurvives | UrbanScape/urbanscape.py:357-358 | an illustration of the skip: of a registry of two bankrupt agents only the first leaves, the second is skipped and outlives the tick |
| Capture.GuardedCaptureDefined | UrbanScape/urbanscape.py:79-94 | with the 1e-10 guard and non-negative counts, the capture sum over any footprint is a number: the canonical engine never divides by zero |
| Capture.RawCaptureDefinedIff | underDev/update.py:70-85 | with the raw count as divisor, the sum is a number exactly when no in-bounds pair of the footprint has a zero count (both directions) |
| Capture.OffGridPairsIgnored | UrbanScape/urbanscape.py:79-94 | the sum over a footprint equals the sum over its in-bounds pairs alone: off-grid pairs add nothing |
| Capture.EstimateAnticipatesEntry | UrbanScape/urbanscape.py:550-573 | the prospective estimate's count+1 is exactly the raw capture after one more competitor on every in-bounds footprint block |
| Capture.MoreCompetitorsLessRevenue | UrbanScape/urbanscape.py:79-94 | with non-negative expenditure, raising the competitor counts pointwise never raises the captured sum |
| Creation.HostedBy | UrbanScape/urbanscape.py:469-470 | a block is in the recorded list for a kind exactly when some recorded agent of that kind sits on it |
| Creation.CandidatesExact | UrbanScape/urbanscape.py:467-476 | the candidate list for a kind holds every in-bounds block with no recorded agent of that kind and nothing else, strictly increasing in row-major order, so each block once |
| Creation.VacantBeforeIsFiltered | underDev/create_rules.py:24-31 | part-way through the loops, the candidate list is the vacant part of the blocks visited so far, in visiting order |
| Creation.MarginClosedForm | UrbanScape/urbanscape.py:524-548 | the margin equals revenue/startup + revenue/operations - 2, startup = rent + 2·operations |
| Creation.MarginIncreasesWithRevenue | underDev/create_rules.py:79-102 | on a non-negative rent, a larger revenue gives a strictly larger margin |
| Creation.MarginFallsWithRent | underDev/create_rules.py:79-102 | for positive revenue, a dearer block gives a strictly smaller margin |
| Creation.MarginPositiveIff | UrbanScape/urbanscape.py:524-548 | the margin is positive exactly when revenue·(S+O) > 2·S·O, S the startup cost and O the yearly operations |
| Creation.PotentialRevenue | UrbanScape/urbanscape.py:550-573 | the estimate is the capture sum over the footprint with offset 1, and it is always defined on non-negative counts |
| Creation.PotentialProfits | UrbanScape/urbanscape.py:524-548 | one margin per candidate, in candidate order: entry i is the margin at candidate i with the revenue estimate over its radius-2 footprint |
| Creation.MaxOf | UrbanScape/urbanscape.py:496 | `max(potential_list)` is an element of the list and no element exceeds it |
| Creation.ProbabilityInRange | underDev/create_rules.py:51-60 | with a positive largest margin, every probability lies in [0, 0.15]; it is 0 exactly for non-positive margins (the clamp) and 0.15 for the best candidate |
| Creation.NegativeMaximumInvertsRanking | UrbanScape/urbanscape.py:500-505 | with a negative largest margin every probability is at least 0.15 and a worse margin gets a strictly higher one |
| Creation.QualifiedExact | UrbanScape/urbanscape.py:500-509 | a block is in `create_locations` exactly when some candidate position holding it has a probability above the single shared draw |
| Creation.SharedDrawIsThreshold | UrbanScape/urbanscape.py:494-509 | one draw serves all candidates, so every block a higher draw qualifies a lower draw also qualifies |
| Creation.DrawAgainstProbMax | underDev/create_rules.py:47-64 | with a positive largest margin, a draw of at least 0.15 qualifies no block and a draw below 0.15 qualifies at least one |
| Creation.LargestMargin | UrbanScape/urbanscape.py:496 | the scan returns `max` of the margin list |
| Creation.QualifiedBlocks | UrbanScape/urbanscape.py:500-509 | the loop builds exactly the qualified list: ratio, clamp at 0, times 0.15, compared with the shared draw |
| Creation.DecisionSound | UrbanScape/urbanscape.py:492-522 | `potential_creations` fails (ZeroDivisionError) exactly when the largest margin is 0; a created block is a candidate that beat the shared draw; and no agent is founded exactly when the largest margin is non-zero and no candidate beats the draw |
| Creation.KindDecisionSound | UrbanScape/urbanscape.py:485-489 | an empty candidate list makes no call and no agent; otherwise as `potential_creations`, so the failure needs candidates with largest margin 0, and no agent is founded exactly when the list is empty or its largest margin is non-zero and no candidate beats the draw |
| Creation.OneCreationInFiveTicks | UrbanScape/urbanscape.py:450-459 | of any five consecutive ticks exactly one passes the `time % 5 == 0` gate |
| Distribution.VerticalRow | UrbanScape/urbanscape.py:226-234 | on the all-ceiling grid the canonical vertical setter gives row i exactly F + g·i, with g the floor-divided integer gradient |
| Distribution.VerticalRowsRise | UrbanScape/urbanscape.py:228 | with floor ≤ ceiling the canonical rows never decrease and never exceed the ceiling; the last row falls short of the ceiling by exactly (C−F) mod (n−1) |
| Distribution.VerticalShortfallExample | UrbanScape/urbanscape.py:228 | an illustration of the integer gradient: on an 8-block grid with floor 5000 and ceiling 200000 the gradient is 27857 and the top row gets 199999, not the ceiling |
| Distribution.DiagonalZeroEdges | UrbanScape/urbanscape.py:236-247 | with 0 ≤ floor < ceiling the integer `F/C` is 0, so row 0 and column 0 get rent 0, and every cell lies in [0, ceiling] |
| Distribution.DraftVerticalRows | underDev/set_distribution.py:17-26 | the draft's float gradient gives row i exactly F + i·(C−F)/(n−1): row 0 is the floor, row n−1 the ceiling, and rows rise with i |
| Distribution.DraftDiagonalBounded | underDev/set_distribution.py:28-39 | the draft diagonal gives the far corner exactly the ceiling and, with 0 ≤ floor ≤ ceiling, keeps every cell in [0, ceiling] |
| Distribution.LinearRentEnds | underDev/set_distribution.py:57-62 | the linear gradient gives the ceiling at distance 0 and the floor at dmax, and it strictly falls with distance when floor < ceiling |
| Distribution.ExponentialRentEnds | underDev/set_distribution.py:49-54 | the exponential gradient gives the ceiling at distance 0 and the floor at dmax, and it is always positive |
| Distribution.DistrictsPartition | underDev/set_distribution.py:68-77 | with bisector ceil(n/2), a block lies in a district exactly when it is on the grid and `DistrictOf` names that district, so the four districts are disjoint and cover the grid |
| Distribution.DistrictSizes | underDev/set_distribution.py:89-96 | the four districts hold n² blocks together, and the loop bound len(district1) stays within every district exactly when n is even |
| Distribution.QuadrantOrderExact | UrbanScape/urbanscape.py:297-301 | on an even grid the quadrant loop writes a block exactly when it is on the grid |
| Distribution.AbreastMembers | underDev/set_distribution.py:92-96 | the loop's visiting order, the k-th block of each district in turn, holds exactly the blocks of the four districts |
| Distribution.DistanceZeroIff | underDev/set_distribution.py:42-46 | a distance is never negative and it is zero exactly at the district centre |
| Distribution.LargestIsMax | underDev/set_distribution.py:89 | `max` of the distance list is an element of it that no element exceeds |
| Distribution.LargestDistancePositive | underDev/set_distribution.py:98-103 | a block list that holds a block off the centre has a positive largest distance, so `-1/dmax` never divides by zero |
| Distribution.QuadrantReach | UrbanScape/urbanscape.py:291-294 | `dmax` of the quadrant setter, the largest distance in the first district, is positive |
| Distribution.CentralReach | UrbanScape/urbanscape.py:308-313 | `dmax` of the central setter, the largest distance to the central district, is positive |
| Distribution.PerturbedBounds | UrbanScape/urbanscape.py:321-339 | a perturbed cell is either the old value or the (truncated) product with its factor, stays non-negative, and never rises above the cap unless it already was |
| Distribution.PerturbationCanUndercutFloor | UrbanScape/urbanscape.py:321-330 | an illustration that only the ceiling is guarded: a floor-level rent of 5000 with factor 0.8 becomes 4000 |
| Distribution.StoredRentBounds | UrbanScape/urbanscape.py:249-251 | a store into the float grid keeps the value; a store into the integer grid of a non-negative value drops less than 1 and stays non-negative |
| Distribution.VerticalSetter | UrbanScape/urbanscape.py:232-234 | scaling an all-ceiling row by the setter's factor gives the vertical layout, canonical or draft |
| Distribution.DiagonalSetter | underDev/set_distribution.py:34-39 | the rows pass and then the columns pass give ceiling × row factor × column factor, canonical or draft |
| Distribution.VerticalLaid | underDev/set_distribution.py:17-26 | with 0 < floor ≤ ceiling both vertical gradients keep every row between the floor and the ceiling |
| Distribution.DiagonalLaid | underDev/set_distribution.py:28-39 | with 0 < floor ≤ ceiling both diagonal gradients keep every cell in [0, ceiling] |
| Distribution.LaidOutRange | UrbanScape/urbanscape.py:37-46 | with 0 < floor ≤ ceiling and draws from [floor, ceiling), every layout gives every block a non-negative rent; all but the distance-based ones stay at or below the ceiling, and the vertical one at or above the floor |
| Distribution.InitialRange | UrbanScape/urbanscape.py:37-51 | the canonical constructor's starting rents and incomes are non-negative, and outside the distance-based layouts the randomisation keeps them at or below the ceiling (4× the ceiling for income) |
| Distribution.InitialRentsNonNegative | UrbanScape/urbanscape.py:37-51 | every starting rent of the grid is non-negative |
| Distribution.VariedBounds | underDev/set_distribution.py:111-114 | a non-negative cell times its factor from [0.75, 1.25) stays non-negative and under 1.25 × any bound it was under; no ceiling clamp applies |
| Distribution.DraftRentRange | underDev/urbanscape.py:36-39 | the draft's starting rent is non-negative and, outside the distance-based layouts, at most 1.25 × the ceiling |
| Distribution.DraftRentsNonNegative | underDev/urbanscape.py:36-39 | every starting rent of the draft grid is non-negative when 0 < floor ≤ ceiling |
| Engine.Records | UrbanScape/urbanscape.py:107-108 | `agent_coords` records, for every agent of the registry and in its order, the agent's kind and block |
| Engine.Births | UrbanScape/urbanscape.py:485-489 | a decision founds exactly one agent when it is a creation and none otherwise |
| Engine.VacantBlocks | UrbanScape/urbanscape.py:469-476 | the double loop over the grid collects, in row-major order, exactly the blocks not hosting an agent of the kind |
| Engine.Settled | UrbanScape/urbanscape.py:377-380 | an agent visited by the loop ends it with a non-negative wealth, and one that stayed solvent has gained exactly its takings less its operating costs |
| Engine.Spawned | UrbanScape/urbanscape.py:446-459 | the random rule founds one agent on ticks divisible by 5 and none otherwise; the profit rule founds at most two; no rule or `no_create_rule` founds none |
| Engine.Agent.constructor | UrbanScape/urbanscape.py:388-391 | a new agent sits on its block with the radius-2 footprint, the kind's initial wealth and operating costs equal to its block's rent plus the kind's yearly operations |
| Engine.Agent.CaptureRevenue | UrbanScape/urbanscape.py:406-409 | the agent's wealth grows by its kind's share of `capture_expenditures` over its footprint, less its operating costs |
| Engine.Agent.CheckBankruptcy | UrbanScape/urbanscape.py:377-380 | the agent is removed exactly when its wealth is negative; its wealth is then set to 0 and the registry loses exactly that agent, and otherwise nothing changes |
| Engine.Agent.Step | underDev/agent.py:41-46 | an agent's step first takes its revenue, then leaves exactly when the new wealth is negative, with wealth reset to 0 |
| Engine.Simulation.CaptureExpenditures | UrbanScape/urbanscape.py:79-94 | the two totals are the sums, over the in-bounds pairs of the list, of each block's spending over its competitor count plus 1e-10, times 20 people per block |
| Engine.Simulation.CaptureExpendituresDraft | underDev/update.py:70-85 | the drafts' capture divides by the raw count, so the totals are finite exactly when no in-bounds pair has a zero count |
| Engine.Simulation.UpdateIncome | UrbanScape/urbanscape.py:134-135 | every cell's income becomes its rent times 4 times its mobility |
| Engine.Simulation.UpdateMobility | UrbanScape/urbanscape.py:171-183 | every cell's mobility becomes the logistic of its externality level |
| Engine.Simulation.UpdateExternalities | UrbanScape/urbanscape.py:155-169 | every cell moves to the next accumulator value given its two counts, and the grid stays non-negative |
| Engine.Simulation.UpdateAgentLocations | UrbanScape/urbanscape.py:96-132 | after the pass, `agent_coords` records the registry and every cell holds the marker of its block: 0, −0.5, −1 or 1 |
| Engine.Simulation.UpdateCaptureNumber | UrbanScape/urbanscape.py:137-153 | both count grids are rebuilt from zero, so each cell holds the number of footprint entries of that kind covering it |
| Engine.Simulation.UpdateExpenditures | UrbanScape/urbanscape.py:185-219 | every cell's food-away, fast-food and grocery spending become the three expenditure laws of its income with that cell's draws |
| Engine.Simulation.UpdateGrids | UrbanScape/urbanscape.py:348-354 | the six update passes of a tick, in order: each grid ends as its law of the grids the earlier passes left |
| Engine.Simulation.VerticalDistribution | UrbanScape/urbanscape.py:226-234 | the setter raises exactly for a one-block grid or a zero ceiling (a division by zero) and then writes nothing; otherwise every row is scaled by its factor |
| Engine.Simulation.DiagonalDistribution | UrbanScape/urbanscape.py:236-247 | the setter raises exactly for a one-block grid or a zero ceiling; otherwise every cell is scaled by its row factor and then its column factor |
| Engine.Simulation.RandomDistribution | UrbanScape/urbanscape.py:249-251 | `randint(floor, ceiling)` raises exactly when floor ≥ ceiling; otherwise the rent becomes the integer grid drawn |
| Engine.Simulation.QuadrantDistribution | UrbanScape/urbanscape.py:276-306 | the quadrant setter fails exactly on an empty or odd grid, or on a zero ceiling under the exponential gradient (the linear one never divides by the ceiling); otherwise every block gets its district's rent |
| Engine.Simulation.CentralDistribution | UrbanScape/urbanscape.py:308-318 | the central setter fails exactly on an empty grid, or on a zero ceiling under the exponential gradient (the linear one never divides by the ceiling); otherwise every block gets the rent of its distance from the centre |
| Engine.Simulation.RandomizeDistribution | UrbanScape/urbanscape.py:321-339 | each rent and income cell is multiplied by its own factor from [0.75, 1.25), except that a cell whose product would exceed the ceiling (rent) or four ceilings (income) is left as it was |
| Engine.Simulation.ApplyVariation | underDev/set_distribution.py:111-114 | the draft's variation multiplies every rent cell by its own factor and leaves a real-valued grid |
| Engine.Simulation.SeedDraftIncome | underDev/urbanscape.py:41-42 | the draft's income is rent times 4 times a per-cell error drawn from [0.9, 1.1) |
| Engine.Simulation.Seed | UrbanScape/urbanscape.py:35-51 | the layout, the income of four rents and the optional perturbation leave each rent and income cell at its closed-form starting value |
| Engine.Simulation.constructor | UrbanScape/urbanscape.py:24-59 | a new engine has the given size, floor, ceiling and rule, no agents, time 0, every rent cell at the ceiling, spending grids of ones and blank location, count and externality grids |
| Engine.Simulation.Initialize | UrbanScape/urbanscape.py:37-60 | the canonical constructor's rent, income and spending grids take their closed-form values, and the invariant holds whenever the ceiling is at least the floor of 5000 |
| Engine.Simulation.InitializeDraft | underDev/urbanscape.py:31-42 | the draft constructor's rent is the setter followed by `apply_variation`, its income four rents times the error, and the invariant holds for 0 < floor ≤ ceiling |
| Engine.Simulation.Found | UrbanScape/urbanscape.py:457 | founding appends one fresh agent of the kind on the block, with its kind's initial wealth, to the end of the registry; every agent past the old registry holds its kind's initial wealth |
| Engine.Simulation.RandomCreateRule | UrbanScape/urbanscape.py:450-459 | the rule raises exactly on a 0 × 0 grid, where `randint(0, 0)` has no value to draw, and then founds nothing; otherwise on ticks divisible by 5 one agent with its kind's initial wealth is founded on the drawn block, of the fast-food kind when the draw is below 0.5, and on other ticks nothing happens |
| Engine.Simulation.RandomCreateRuleDraft | underDev/create_rules.py:11-14 | with the intended `effect_radius` access in the agent's constructor, the draft rule raises exactly on a 0 × 0 grid and then founds nothing; otherwise it founds one fast-food agent, with the initial wealth, on the drawn block every tick |
| Engine.Simulation.PotentialCreations | UrbanScape/urbanscape.py:492-522 | `potential_creations` raises exactly when its decision is a division by zero, and otherwise founds exactly the agent the decision names |
| Engine.Simulation.DecisionForSound | UrbanScape/urbanscape.py:462-489 | a block the profit rule founds an agent on lies on the grid and hosts no agent of that kind |
| Engine.Simulation.CreationInputs | UrbanScape/urbanscape.py:469-480 | the two candidate lists are the blocks free of each kind, and the two margin lists are `potential_profits` over them |
| Engine.Simulation.ProfitProbabilityCreateRule | UrbanScape/urbanscape.py:462-489 | the rule raises exactly when a kind's decision divides by zero; otherwise it founds the fast-food agent, then the grocery agent, that the decisions name |
| Engine.Simulation.Create | UrbanScape/urbanscape.py:346 | the tick's create rule raises exactly when no rule was given, the random rule runs on a 0 × 0 grid, or the profit rule divides by zero; otherwise the registry is extended by the agents the rule founds; after a raise it keeps the fast-food agent the profit rule founded before its grocery half divided by zero; the old agents keep their wealths and the new ones open with their kind's initial wealth |
| Engine.Simulation.Turn | UrbanScape/urbanscape.py:357-358 | one turn of the agent loop settles the visited agent's wealth, removes it exactly when it is overdrawn and leaves every other agent's wealth alone |
| Engine.Simulation.StepAgents | UrbanScape/urbanscape.py:357-358 | after the agent loop the registry is the sweep of the old one under the agents' bankruptcies, the iterator skipping each removed agent's successor; visited agents settle their wealth, skipped ones keep it |
| Engine.Simulation.Refresh | UrbanScape/urbanscape.py:348-354 | the update passes leave `agent_coords` recording the registry, the marker and count grids its census, each externality one step from its old value under the new counts, and mobility, income and the three spending grids their laws of the grids before them; no agent's wealth changes |
| Engine.Simulation.Sweep | UrbanScape/urbanscape.py:356-361 | the agent loop and the clock: `fails` marks each agent overdrawn by its starting wealth, its takings over the current grids and its costs; the registry is swept under `fails`, each visited agent settles its wealth to the starting wealth plus takings less costs (0 when overdrawn) and a skipped one keeps it; the grids are untouched and time advances by one |
| Engine.Simulation.Advance | UrbanScape/urbanscape.py:348-361 | the update passes and then the agent loop and the clock: the grids are refreshed for the registry, and the agent loop settles and sweeps it over those grids from the wealths the agents held before the tick |
| Engine.Simulation.Step | UrbanScape/urbanscape.py:345-361 | a tick raises exactly when the create rule does and then stops with the registry the rule left, every agent's wealth as it was (the old agents' unchanged, any founded before the raise at their initial wealth), and the grids and clock untouched; otherwise the registry is extended by the founded agents (`created`), the passes refresh every grid for that registry, each externality moves one step from its value before the tick, the agents open the loop with their old wealths and the new ones with their initial wealth (`w0`), the loop settles each visited agent and sweeps the registry under the overdrawn ones (`fails`), and time advances by one |
| Engine.Simulation.AddAgent | UrbanScape/urbanscape.py:62-63 | `add_agent` appends the agent at the end of the registry |
| Engine.Simulation.RemoveAgent | UrbanScape/urbanscape.py:65-66 | `remove_agent` drops exactly that agent, the registry shrinking by one |

## Left out

- Random number generation: every draw is a parameter, and no distribution is modelled. `randint(0, size)` for the random rule's block is an argument already in [0, size)².
- Transcendental functions: `np.exp`, `np.log`, `np.sqrt` and the two fitted curves `1.5802·income^−0.32` and `73.969·income^−0.632` are fields of a `Laws` value. Only the facts `LawsHold` lists are assumed of them: exp(0) = 1, exp > 0, exp(ln x) = x for x > 0, and sqrt is a non-negative square root for x ≥ 0.
- Floating point: all arithmetic is exact over `real`. Rounding, and numpy's inf and nan on a division by zero, are not modelled. Where the drafts divide spending by a raw count of zero, the capture total is `None` ("no finite number").
- Exposure.FoodAwaySpend, Exposure.GrocerySpend and Engine.Simulation.UpdateExpenditures: at income 0 the source computes `0 ** -0.32` and `0 ** -0.632` as inf, so each spending cell is inf · 0 = nan (UrbanScape/urbanscape.py:194-195, 209, 218-219). The model's laws give a finite value there (the fitted rate times 0 income). Income 0 does arise: the canonical diagonal setter's integer `F/C` is 0 (UrbanScape/urbanscape.py:240), so row 0 and column 0 get rent 0 and hence income 0 (`Distribution.DiagonalZeroEdges`). In the source, an agent whose footprint reaches such a cell then gets a nan wealth and never fails its `wealth < 0` check, and a nan margin makes `max` and every `rand < probability` test of the profit rule meaningless (UrbanScape/urbanscape.py:496-509). None of these nan effects is modelled.
- Exposure.NextExternality: the heal `int(0.95·e)` is modelled as `(19·e)/20` on integers. The accumulator only ever holds integers, but rounding of 0.95 in binary floating point is not modelled.
- Exposure.Mobility: the contract gives 0.75 < m < 1 strictly, as in exact arithmetic. In double precision the value rounds to exactly 0.75 from E = 139 on, and for E ≥ 1801 Python's float `**` raises OverflowError (UrbanScape/urbanscape.py:181-182).
- Engine.Simulation.UpdateMobility and Engine.Simulation.Step: the OverflowError of `1.5 ** (E - 50)` for an externality E ≥ 1801 is not modelled. The externality accumulator has no upper bound (`Exposure.NextExternality` only clamps at zero), so a block exposed to a positive net count for long enough reaches it. In the source the tick then raises inside `update_mobility`, after the grids before it were refreshed. The model's Step instead finishes the tick, so its "raises exactly when the create rule does" holds only while every externality stays below 1801.
- Exceptions are modelled as a `crashed` result, with the condition under which the source raises. Covered: the ZeroDivisionError of the setters and of a zero largest margin, `randint` with floor ≥ ceiling, `max` of an empty list, the IndexError of the quadrant loop on odd grids, the TypeError of calling the default `create_rule=None`, and the ValueError of the draft duplicate split. Not covered: the mobility OverflowError above.
- Engine.Simulation.QuadrantDistribution: when the setter raises on an odd grid, the cells written before the IndexError are not stated. The contract gives no rent grid for the crashed case.
- The `print` of "no suitable locations" (UrbanScape/urbanscape.py:481-483, underDev/create_rules.py:37-38) is console output and is left out.
- `str(agent)` substring tests are modelled by the agent's `Kind` tag.
- Engine.Simulation.CreationInputs: the source computes both candidate lists in one double loop (UrbanScape/urbanscape.py:469-476). The model runs one loop per kind, which produces the same two lists.
- Engine.Simulation.constructor: the constructors are split. The allocation part (the grids and the fields) is the constructor. The layout, income and spending part is `Initialize` (canonical) or `InitializeDraft`, because a setter may raise and an exception leaves no engine. Both require the chosen setter to run to the end (`Laid`); the setter methods themselves model the raising case.
- Engine.Simulation.Initialize: the invariant `Valid()` is proved only when the ceiling is at least the canonical floor of 5000. Below that, the rents a setter produces can be negative.
- Engine.Simulation.InitializeDraft: `setDist` ranges over the draft module's setters only (vertical, diagonal, random, quadrant, central). The draft has no uniform setter, and its constructor's default is `random_distribution`.
- `random_distribution` returns an integer grid, after which the canonical setters' row scaling truncates on assignment. The model tracks this with the `rentIntegral` flag.
- Draft references that do not resolve: each draft function is modelled as its evident computation, with the intended field or function in place of the failing reference. Every "## Model" row citing a draft file states what that function computes under this reading. The draft files as written raise at these places instead:
  - `u.loc` and `self` in underDev/update.py:27,32 and UrbanScape/update.py:33,38,165 are undefined names.
  - The draft engine's `step` calls update methods that its class does not define (underDev/urbanscape.py:64-69). The model runs the canonical passes there.
  - The draft agents' constructors call `urbanscape.effect_radius` (underDev/agent.py:39,53,68,82), and their revenue step calls `urbanscape.capture_expenditures` (underDev/agent.py:57,87). `potential_profits` also calls `effect_radius` (underDev/create_rules.py:86,95). The draft class defines only `__init__`, `add_agent`, `remove_agent` and `step` (underDev/urbanscape.py:20-60). As written, founding any agent raises AttributeError. That includes underDev/create_rules.py:14, every tick of the draft random rule.
  - underDev/create_rules.py:74,77,85-99 use the bare names `FastFoodAgent` and `GroceryStoreAgent`, while the module imports only `agent` (underDev/create_rules.py:5). As written, this is a NameError once any candidate block exists.
  - underDev/update.py:181 writes `UrbanScape.mobility`, where the draft class names the grid `work_ability` (underDev/urbanscape.py:49).
  - Neither update.py draft can be imported as written. At underDev/update.py:95 and UrbanScape/update.py:101, a space-indented body sits at the same column as its tab-indented `for`, so the `for` has no block. At underDev/update.py:159 and UrbanScape/update.py:165, a `for` is indented deeper than the line before it.
- The draft `update_expenditures` (underDev/update.py:109-142, UrbanScape/update.py:115-148) computes the same three grids as the canonical one. It is modelled once, by `Engine.Simulation.UpdateExpenditures`.
- Plotting and animation (`plot_urbanscape`, `plot_experiment`, the animator modules), and the experiment drivers `run_experiment`, `run_batch_experiments` and underDev/run.py, are not part of this model.
