# Bounce scooter and truck simulation

A Dafny model of the turn-based engine of the Bounce rebalancing simulation.
A metro station (the hub) emits customers who ride scooters to one of ten
offices. A fleet of eight trucks drives around the city, collects parked
scooters at the offices and brings them back to the metro.

Each frame of the driver runs two cooperating state machines over shared
inventory counters:

- **Scooter fleet** (`ScooterModel`, `ScooterSimulation`). One turn works in
  five phases:
  1. Parked scooters may randomly return to the metro.
  2. Every scooter with a ride moves one node along it.
  3. The FIFO queue of waiting customers is served from the metro stock.
     Each queue entry is the customer's expiry turn.
  4. `IN_RATE` new customers arrive.
  5. Ride-less scooters add to an idle counter, and three metrics are returned.
- **Truck fleet** (`TruckModel`, `TruckSimulation`). Three parts:
  - Three scoring policies rank the offices: aging, greedy and combined.
  - A planning pass routes every truck that has no route. It reserves what
    the truck will take on a speculative copy of the office counts.
  - A one-hop move delivers cargo at the metro, or picks up what fits at an
    office. Every office then ages by one.
- **Driver frame** (`BounceSimulation`): the scooter turn, then the truck
  planning, then the truck move. The metro and office counts the trucks leave
  are written back into the scooter fleet.

## How the model is built

- **Pure logic is values.** `ScooterModel` and `TruckModel` describe each
  loop as a prefix fold: the state after the loop body has run for indices
  `0 .. n-1`.
- **Mutable objects are classes.** `SimulateScooters`, `SimulateTrucks` and
  `Bounce` carry the source's mutable fields. Each loop keeps the invariant
  "the object's snapshot is the fold so far", so every method's `ensures`
  ties the new state to a fold of the old one.
- **Properties are lemmas on the folds.** `ScooterLemmas`, `TruckLemmas` and
  the lemmas of `BounceSimulation` prove conservation, bounds, queue order and
  frame facts about the folds.

## Quirks reproduced as written

- **Office index clears a ride.** When a ride ends on an office node,
  `scooter_simulation.py:95` clears the ride of the scooter whose *index* is
  that office's index, not the ride of the scooter that landed.
  - This can cut another scooter's ride short.
  - `AdvanceEffect` therefore gives the exact transit step only for scooters
    with index at least `OFFICE_NUM`. A riding scooter with a lower index
    either advanced one node or, when its ride was cleared before its turn,
    stayed where it was.
- **Rides can go to parked scooters.** Service hands a ride to the first
  ride-less scooter, which may be one parked at an office. If no ride-less
  scooter exists, the counters still move.
- **Greedy uses the wrong truck's cargo.** The greedy score
  (`truck_simulation.py:130-131`) builds only `NUMBER` = 8 entries, and
  entry i uses the cargo of truck i.
  - So the greedy and combined policies never choose offices 8 and 9.
  - The cargo in the score is not that of the truck being planned.
- **Counts can go negative.** Replenishment matches any scooter standing on
  an office node, including one in transit. So an office count can drop
  below zero.
  - `NegativeCountInflates` shows what the planning pass then does: the
    speculative count grows.
  - A truck that stops at such an office takes a negative amount, so its
    cargo and the pick-up counter fall and the office count rises
    (`NegativeStockDrainsCargo`). The truck metric can then be negative.
  - The bounds lemmas therefore carry non-negativity as a precondition.
- **Drops happen at the expiry turn.** A customer is dropped during the turn
  equal to their expiry, because the drop test is equality with the current
  turn. A customer whose expiry is `turn + 1` and who finds the metro empty is
  still waiting after turn `turn` (`StarvedHubWaits`).

## Model

| member | source | states |
|---|---|---|
| `ScooterSimulation.SimulateScooters.constructor` | scooter_simulation.py:16-39 | empty queue and counters; all 200 scooters at the metro with no ride; metro stock 200, offices 0; the office routes are the shortest paths from the metro |
| `ScooterSimulation.SimulateScooters.Replenish` | scooter_simulation.py:77-83 | the object after the replenishment loop is the replenishment fold of the old state, checking each scooter at the position it had when its iteration began |
| `ScooterSimulation.SimulateScooters.ReplenishOne` | scooter_simulation.py:78-83 | scooter i checked against every office in order, as one step of the fold |
| `ScooterSimulation.SimulateScooters.AdvanceRides` | scooter_simulation.py:86-97 | the object after the transit loop is the transit fold, each scooter reading its ride as earlier landings left it |
| `ScooterSimulation.SimulateScooters.AdvanceScooter` | scooter_simulation.py:87-97 | scooter i pops its next node and stands on it; if the ride ended, every office on that node gains a scooter and the ride with that office's index is cleared |
| `ScooterSimulation.SimulateScooters.ServeCustomers` | scooter_simulation.py:100-119 | the object after the service loop is the service fold: expired fronts are dropped, others served while the metro counter is non-zero, otherwise the loop stops |
| `ScooterSimulation.SimulateScooters.ServeFront` | scooter_simulation.py:106-117 | serving the front customer: the first ride-less scooter, if any, gets the route to the drawn office without its first node; the counters and waiting time move |
| `ScooterSimulation.SimulateScooters.AddCustomers` | scooter_simulation.py:121-123 | the queue gains IN_RATE entries, each `turn + WAITING_TIME`; nothing else changes |
| `ScooterSimulation.SimulateScooters.AddUnderUtilization` | scooter_simulation.py:125-128 | the idle counter grows by the number of ride-less scooters; nothing else changes |
| `ScooterSimulation.SimulateScooters.Turn` | scooter_simulation.py:69-142 | the object after a turn is the five phases composed; the metrics are the average wait (0 with nobody served), the drop count, and the idle ratio (0 at turn 0) |
| `ScooterSimulation.FirstIdleUnique` | scooter_simulation.py:109-113 | the index where the linear scan stops is the first ride-less index |
| `ScooterModel.FirstIdle` | scooter_simulation.py:109-113 | the result is a ride-less index with every earlier ride non-empty, or the list length when all ride |
| `ScooterLemmas.ReplenishAtMoves` | scooter_simulation.py:79-83 | when the coin falls for scooter i on office j, office j loses one, the metro gains one, the scooter is at the metro with no ride, hub + stations is unchanged |
| `ScooterLemmas.ReplenishAtConserves` | scooter_simulation.py:79-83 | one office check keeps metro + Σ offices |
| `ScooterLemmas.ReplenishScooterConserves` | scooter_simulation.py:78-83 | checking one scooter against offices keeps metro + Σ offices |
| `ScooterLemmas.ReplenishPrefixConserves` | scooter_simulation.py:77-83 | any prefix of the replenishment loop keeps metro + Σ offices |
| `ScooterLemmas.ReplenishConserves` | scooter_simulation.py:77-83 | the replenishment phase keeps metro + Σ offices |
| `ScooterLemmas.ReplenishMetroGrows` | scooter_simulation.py:77-83 | replenishment never lowers the metro counter |
| `ScooterLemmas.ReplenishScooterMetroGrows` | scooter_simulation.py:78-83 | one scooter's checks never lower the metro counter |
| `ScooterLemmas.ReplenishPrefixIdle` | scooter_simulation.py:77-83 | with no coin falling, any prefix of replenishment changes nothing |
| `ScooterLemmas.ReplenishScooterIdle` | scooter_simulation.py:78-83 | with no coin falling, one scooter's checks change nothing |
| `ScooterLemmas.ReplenishIdle` | scooter_simulation.py:77-83 | with no coin falling, the replenishment phase changes nothing |
| `ScooterLemmas.LandEffect` | scooter_simulation.py:92-95 | a completed ride adds one scooter to each office on the landing node and clears the ride of the scooter with that office's index; nothing else changes |
| `ScooterLemmas.AdvanceOneEffect` | scooter_simulation.py:86-97 | a riding scooter moves to the popped node and its ride loses exactly that node; other rides and office counts change only on a landing, as the office-index clearing dictates |
| `ScooterLemmas.AdvancedStep` | scooter_simulation.py:86-97 | one transit step extends the per-scooter description of the loop by one index |
| `ScooterLemmas.AdvancePrefixEffect` | scooter_simulation.py:86-97 | after any prefix of the transit loop, processed and unprocessed scooters are in the described states |
| `ScooterLemmas.AdvanceEffect` | scooter_simulation.py:86-97 | transit keeps the metro counter; each office count rises by between 0 and the number of riding scooters; ride-less scooters stay in place; every ride is shortened by one node or ended, and its scooter stands on the ride's first node or where it stood; for indices ≥ OFFICE_NUM the ride is shortened by exactly one node and the scooter is on the popped node |
| `ScooterLemmas.AdvancePrefixOffices` | scooter_simulation.py:86-97 | after scooters 0 .. n-1 have advanced, each office count has risen by between 0 and the number of those scooters that were riding |
| `ScooterLemmas.ServeOneAssigns` | scooter_simulation.py:106-117 | serving one customer changes only the ride of the lowest ride-less scooter, sets it to the office route minus its first node, takes one from the metro, counts one served and adds its wait |
| `ScooterLemmas.ServeQueueEffect` | scooter_simulation.py:100-119 | the service pops a prefix of the queue: drops are its entries equal to `turn`, the rest are served, each taking one metro scooter and adding `WAITING_TIME + turn − expiry`; it ends with an empty queue or a zero metro counter and a non-expiring front; offices and idle counter unchanged |
| `ScooterLemmas.ServeQueueRest` | scooter_simulation.py:100-119 | the remaining queue is a suffix; exit condition; scooter positions, offices and idle counter untouched |
| `ScooterLemmas.ServeQueueCounts` | scooter_simulation.py:101-117 | dropped, served, metro and waiting-time counters as functions of the popped prefix |
| `ScooterLemmas.PoppedFront` | scooter_simulation.py:101-117 | counting drops and waits of a popped prefix splits into the front entry and the rest |
| `ScooterLemmas.ServeQueueMetro` | scooter_simulation.py:106-119 | from a non-negative metro counter the service never goes below zero, and the number served equals what left the metro |
| `ScooterLemmas.ServeQueueKeepsRides` | scooter_simulation.py:109-113 | a scooter riding when service starts keeps its ride through the whole service |
| `ScooterLemmas.DropAllExpired` | scooter_simulation.py:100-104 | with an empty metro, the service drops exactly the run of fronts that expire now and stops |
| `ScooterLemmas.TurnAccountsArrivals` | scooter_simulation.py:100-123 | served + dropped + queue length grows by exactly IN_RATE per turn |
| `ScooterLemmas.SuffixReady` | scooter_simulation.py:100-119 | popping a prefix keeps the queue order for the current turn |
| `ScooterLemmas.ReadyAfterService` | scooter_simulation.py:100-123 | after service every remaining expiry exceeds `turn`, and with the arrivals the queue is ordered for `turn + 1` |
| `ScooterLemmas.TurnKeepsQueueReady` | scooter_simulation.py:100-123 | with turns called 0, 1, 2, …, the queue at the start of each turn is non-decreasing with expiries in `[turn, turn + WAITING_TIME − 1]`; after service all exceed `turn` |
| `ScooterLemmas.WaitedBounds` | scooter_simulation.py:101-117 | under the queue order every served customer adds between 1 and WAITING_TIME − 1 to the waiting time |
| `ScooterLemmas.TurnWaitBounds` | scooter_simulation.py:100-123 | a turn serves a non-negative number of customers and adds between that number and (WAITING_TIME − 1) times it to the waiting time |
| `ScooterLemmas.TurnMetroNonNegative` | scooter_simulation.py:77-119 | a turn never takes a non-negative metro counter below zero |
| `ScooterLemmas.TurnIdleIncrement` | scooter_simulation.py:125-128 | the idle counter grows by the number of ride-less scooters, between 0 and SCOOTERS_TOTAL |
| `ScooterLemmas.ColdStartMetrics` | scooter_simulation.py:130-142 | turn 0 from an empty queue with nobody served or dropped logs (0, 0, 0) |
| `ScooterLemmas.NoCoinTurn` | scooter_simulation.py:77-128 | with no coin falling, a turn is transit, service, arrivals and idle accounting |
| `ScooterLemmas.StarvedHubWaits` | scooter_simulation.py:100-119 | with an empty metro and a front expiring at `turn + 1`, a turn neither drops nor serves anyone |
| `TruckSimulation.SimulateTrucks.constructor` | truck_simulation.py:14-26 | every office aged 1, idle probability `k/100` for the drawn k, trucks empty and without routes on the given start nodes, counters 0 |
| `TruckSimulation.SimulateTrucks.CalculatePath` | truck_simulation.py:151-177 | only the routes change, and they become the planning fold over the trucks in index order against a copy of the counts; positions, cargo, ages and the caller's counts are untouched |
| `TruckSimulation.SimulateTrucks.UpdateTruckPos` | truck_simulation.py:215-258 | the trucks, metro and office counts become the move fold followed by the aging; the metric is 0 with no travel, otherwise picked / (NUMBER · distance) |
| `TruckSimulation.SimulateTrucks.MoveOne` | truck_simulation.py:226-249 | truck i's hop as one step of the move fold |
| `TruckModel.AgingScores` | truck_simulation.py:119-121 | one entry per position of the zipped inputs, `qty · age · idle probability` |
| `TruckModel.GreedyScores` | truck_simulation.py:128-132 | `min(NUMBER, offices)` entries, entry i scoring `min(CAPACITY − truckCap[i], qty[i])` against the path length to office i |
| `TruckModel.CombinedScores` | truck_simulation.py:139-144 | one entry per zipped pair, `0.7 · aging + 0.3 · greedy` |
| `TruckModel.ArgMax` | truck_simulation.py:125-126 | the first entry of a stable descending sort: a maximal score, with every earlier index strictly smaller |
| `TruckModel.BestScore` | truck_simulation.py:123-149 | the pair has the score of its index, no score exceeds it, every smaller index scores less; greedy and combined choose among the first NUMBER offices |
| `TruckModel.Route` | truck_simulation.py:176-177 | the route is the shortest path without its first node, and it ends at the destination |
| `TruckModel.OfficeIndex` | truck_simulation.py:19 | the index the mapping keeps for a node: an office with that node and no later one |
| `TruckLemmas.ScoreBreakEven` | truck_simulation.py:39-50 | a trip scores ≥ 0 iff `1000·s ≥ 87·d + 17500`; each scooter adds 10, each node costs 0.87 |
| `TruckLemmas.GreedyBelowBreakEven` | truck_simulation.py:128-132 | with cargo in `[0, CAPACITY]` every greedy entry is at most −75.87 |
| `TruckLemmas.AgingNonNegative` | truck_simulation.py:119-121 | non-negative counts, ages and probabilities give non-negative aging scores |
| `TruckLemmas.AgingPicksStockedOffice` | truck_simulation.py:123-126 | when some office has stock, a positive age and a positive idle probability, the aging policy picks an office with stock |
| `TruckLemmas.CombinedBetween` | truck_simulation.py:139-144 | each combined entry lies between its aging and greedy entries |
| `TruckLemmas.PlanTruckRoutes` | truck_simulation.py:164-177 | planning truck id gives it one of its possible routes and leaves every other route alone |
| `TruckLemmas.PlanPrefixRoutes` | truck_simulation.py:163-177 | after planning trucks 0 .. n-1, the later trucks keep their routes and the earlier ones have a possible route |
| `TruckLemmas.CalculatePathRoutes` | truck_simulation.py:151-177 | a truck with a route keeps it; a full truck without one gets the metro route minus its first node; any other gets nothing or an office route |
| `TruckLemmas.PlanPrefixReserves` | truck_simulation.py:170-177 | after any prefix of planning, each speculative count is between 0 and its input count |
| `TruckLemmas.CalculatePathReserves` | truck_simulation.py:170-177 | with non-negative counts and bounded cargo, the speculative counts stay ≥ 0 and at most the input counts |
| `TruckLemmas.NegativeCountInflates` | truck_simulation.py:170-175 | a negative office count makes the reservation negative and the speculative count grow |
| `TruckLemmas.MoveTruckEffect` | truck_simulation.py:226-249 | one hop leaves other trucks alone, pops one step, delivers at the metro, loads at most to CAPACITY at an office, adds one to the distance iff the truck had a route, and zeroes the age of the visited office |
| `TruckLemmas.MoveTruckArithmetic` | truck_simulation.py:231-249 | at the metro the whole cargo is delivered; at an office the truck takes `min(CAPACITY − cargo, stock)`, which the office loses and the pick-up counter gains; elsewhere no count moves |
| `TruckLemmas.NegativeStockDrainsCargo` | truck_simulation.py:240-244 | a truck stopping at an office with a negative count takes a negative amount: its cargo and the pick-up counter fall, the office count rises |
| `TruckLemmas.MoveTruckConserves` | truck_simulation.py:231-246 | one hop keeps metro + Σ offices + Σ cargo, what it picks is what the offices lose, and it keeps cargo bounds and non-negative offices |
| `TruckLemmas.MovePrefixEffect` | truck_simulation.py:226-249 | after trucks 0 .. n-1 have hopped: later trucks unchanged, conservation, distance grows by the trucks with a route, ages zeroed exactly where some truck picked up |
| `TruckLemmas.UpdateTruckPosEffect` | truck_simulation.py:215-250 | every truck with a route hops once; distance grows by NUMBER minus the trucks without a route; metro + offices + cargo conserved; picked equals what left the offices; bounds kept; a visited office ends at age 1, others age by one |
| `TruckLemmas.IdleTruckStays` | truck_simulation.py:226-228 | a truck without a route leaves the move unchanged |
| `TruckLemmas.TruckMetricRange` | truck_simulation.py:253-258 | the truck metric is 0 before any travel, and never negative while the pick-up counter is non-negative |
| `BounceSimulation.PolicyOf` | bounce_simulation.py:52-57 | "aging" and "greedy" select their policies, any other name the combined one |
| `BounceSimulation.Bounce.constructor` | bounce_simulation.py:50-57 | both fleets on the same stations in their initial states, the policy selected by name, an empty metrics log |
| `BounceSimulation.Bounce.UpdatePlot` | bounce_simulation.py:133-148 | the frame is the scooter turn followed by the truck phase; the log gains the turn's scooter metrics and then the truck metric |
| `BounceSimulation.Bounce.MoveTrucks` | bounce_simulation.py:143-148 | plan against the scooter fleet's office counts, hop, and write the metro and office counts back into the scooter fleet |
| `BounceSimulation.MetricsReadCustomers` | bounce_simulation.py:134-146 | the scooter metrics depend only on customer counters, so the truck phase cannot change them |
| `BounceSimulation.FrameConserves` | bounce_simulation.py:134-148 | a frame accounts for exactly IN_RATE new customers, and the trucks move scooters only among the metro, the offices and their cargo |
| `BounceSimulation.FrameKeepsBounds` | bounce_simulation.py:134-148 | when the scooter turn leaves no office negative and the cargo is bounded, the frame keeps both bounds |

## Left out

- **Random draws are inputs.** The replenishment coin per (scooter, office),
  the office drawn for each served customer, the idle-probability draws and
  the sampled truck start nodes are parameters. The random generator is not
  part of this model.
- **Shortest paths are an oracle.** `nx.shortest_path` is a given function
  whose path starts at the source and ends at the destination. Its length is
  the distance in the greedy score. The street graph is not modelled, and
  the exception `nx.shortest_path` raises when no route exists is not
  modelled: the oracle returns a path for every pair of nodes.
- **Nodes are osmids.** Nodes are their osmid integers, and node-dict
  equality is osmid equality.
- **Empty routes.** `None` and an exhausted deque are both the empty route,
  since every test in the source only asks whether a route is empty.
- **Plotting and animation.** `get_pos`, `get_size`, `node_positions`,
  `node_size`, the figure setup and the re-drawing in each frame are display
  only.
- **Ending the animation.** The `quit()` at the last frame ends the process
  and is not modelled.
- **Brute-force planning.** `brute_path_truck` and `brute_algo` call an
  undefined scoring method and index a float, so they cannot run, and the
  driver never uses them.
- **Unused planning variants.** The driver never calls `aging_algo` or
  `greedy_algo`. `greedy_algo` repeats the planning pass with the greedy
  policy, and `aging_algo` calls the aging score with a missing argument.
- **Other entry points.** The plotting script, the entry-point script and the
  older single-file copy of both classes are not part of this model.
- **Floating point.** Floats are exact reals. Scores, probabilities and
  metric divisions carry no rounding, so ties that rounding would break or
  create are not modelled.
- **No list aliasing.** The office counts the planning pass copies, and those
  the move updates, are modelled as values. The Python list the driver hands
  over, mutates and receives back is the same object; the write-back gives
  the same final state.
- `TruckLemmas.TruckMetricRange`: non-negativity is proved only while the
  pick-up counter is non-negative, because a pickup at an office with a
  negative count lowers that counter, and the metric with it.
- `TruckSimulation.SimulateTrucks.constructor`: the truck start nodes are
  given rather than sampled without replacement from the map, so their
  distinctness is not modelled.
