/** The customer and scooter queueing model of one simulation turn, as values.
    Each loop of the turn is a prefix fold: the state after the loop body has run
    for the indices 0 .. n-1, so that the imperative loop can keep "the state is the
    fold so far" as its invariant. */
module ScooterModel {
  import opened Network
  import opened Tally

  /** Customers exiting the metro per turn. */
  const IN_RATE: nat := 30
  /** Number of offices (stations). */
  const OFFICE_NUM: nat := 10
  /** Maximum number of turns a customer waits for a scooter. */
  const WAITING_TIME: nat := 3
  /** Scooters in the simulation. */
  const SCOOTERS_TOTAL: nat := 200

  type OfficeId = k: nat | k < OFFICE_NUM

  /** `coin(i, j)` is the replenishment draw (`random() < REPLENISH`) made for
      scooter i when it stands on office j. */
  type Coin = (nat, nat) -> bool

  /** `dest(k)` is the office drawn for the k-th customer served during a turn. */
  type Destinations = nat -> OfficeId

  /** The metro, the offices and the metro-to-office routes, fixed at construction. */
  datatype Topology = Topology(metro: Node, offices: seq<Node>, officePaths: seq<seq<Node>>)

  predicate ValidTopology(t: Topology) {
    && |t.offices| == OFFICE_NUM
    && |t.officePaths| == OFFICE_NUM
    && forall k :: 0 <= k < OFFICE_NUM ==> IsPath(t.officePaths[k], t.metro, t.offices[k])
  }

  /** Everything the scooter simulation updates during a turn. A ride is the list of
      nodes still to traverse; `[]` stands for both `None` and an exhausted deque. */
  datatype ScooterState = ScooterState(
    que: seq<int>,
    customersServed: int,
    customersDropped: int,
    totalWaitingTime: int,
    scooters: seq<Node>,
    scootersRide: seq<seq<Node>>,
    scootersMetro: int,
    scootersOffice: seq<int>,
    underUtilization: int)

  predicate Shaped(s: ScooterState) {
    |s.scooters| == SCOOTERS_TOTAL && |s.scootersRide| == SCOOTERS_TOTAL && |s.scootersOffice| == OFFICE_NUM
  }

  /** The customer-side counters and the queue are the same in both states. */
  predicate SameCustomers(r: ScooterState, s: ScooterState) {
    && r.que == s.que
    && r.customersServed == s.customersServed
    && r.customersDropped == s.customersDropped
    && r.totalWaitingTime == s.totalWaitingTime
    && r.underUtilization == s.underUtilization
  }

  /** Scooters parked at the metro or at an office, by the counters. */
  function HubAndStations(s: ScooterState): int {
    s.scootersMetro + Sum(s.scootersOffice)
  }

  /** Customers accounted for: served, dropped or still waiting. */
  function Accounted(s: ScooterState): int {
    s.customersServed + s.customersDropped + |s.que|
  }

  /** The state built by the constructor: every scooter at the metro, no rides,
      no customers. */
  function Initial(metro: Node): (s: ScooterState)
    ensures Shaped(s)
  {
    ScooterState([], 0, 0, 0,
      seq(SCOOTERS_TOTAL, _ => metro), seq(SCOOTERS_TOTAL, _ => []),
      SCOOTERS_TOTAL, seq(OFFICE_NUM, _ => 0), 0)
  }

  // ---------------------------------------------------------------------
  // Phase 1: replenishment

  /** Office j's check on scooter i, whose position at the start of its iteration
      was `pos`: if it stands there and the coin falls, it returns to the metro. */
  function ReplenishAt(s: ScooterState, t: Topology, coin: Coin, i: nat, pos: Node, j: nat): (r: ScooterState)
    requires Shaped(s) && ValidTopology(t) && i < SCOOTERS_TOTAL && j < OFFICE_NUM
    ensures Shaped(r) && SameCustomers(r, s)
  {
    if pos == t.offices[j] && coin(i, j) then
      s.(scootersOffice := s.scootersOffice[j := s.scootersOffice[j] - 1],
         scooters := s.scooters[i := t.metro],
         scootersRide := s.scootersRide[i := []],
         scootersMetro := s.scootersMetro + 1)
    else s
  }

  /** Scooter i checked against offices 0 .. m-1. */
  function ReplenishScooter(s: ScooterState, t: Topology, coin: Coin, i: nat, pos: Node, m: nat): (r: ScooterState)
    requires Shaped(s) && ValidTopology(t) && i < SCOOTERS_TOTAL && m <= OFFICE_NUM
    ensures Shaped(r) && SameCustomers(r, s)
    decreases m
  {
    if m == 0 then s else ReplenishAt(ReplenishScooter(s, t, coin, i, pos, m - 1), t, coin, i, pos, m - 1)
  }

  /** Scooter i checked against every office, at the position it has in `s`. */
  function ReplenishNext(s: ScooterState, t: Topology, coin: Coin, i: nat): (r: ScooterState)
    requires Shaped(s) && ValidTopology(t) && i < SCOOTERS_TOTAL
    ensures Shaped(r) && SameCustomers(r, s)
  {
    ReplenishScooter(s, t, coin, i, s.scooters[i], OFFICE_NUM)
  }

  /** Scooters 0 .. n-1 checked; each is checked against the position it had
      when its own iteration started. */
  function ReplenishPrefix(s: ScooterState, t: Topology, coin: Coin, n: nat): (r: ScooterState)
    requires Shaped(s) && ValidTopology(t) && n <= SCOOTERS_TOTAL
    ensures Shaped(r) && SameCustomers(r, s)
    decreases n
  {
    if n == 0 then s
    else
      ReplenishNext(ReplenishPrefix(s, t, coin, n - 1), t, coin, n - 1)
  }

  function Replenish(s: ScooterState, t: Topology, coin: Coin): (r: ScooterState)
    requires Shaped(s) && ValidTopology(t)
    ensures Shaped(r) && SameCustomers(r, s)
  {
    ReplenishPrefix(s, t, coin, SCOOTERS_TOTAL)
  }

  // ---------------------------------------------------------------------
  // Phase 2: transit advance

  /** A ride that ended on node `next`, checked against offices 0 .. m-1: every
      office on that node gains a scooter, and the ride of the scooter whose INDEX
      is that office's index is cleared. */
  function Land(s: ScooterState, t: Topology, next: Node, m: nat): (r: ScooterState)
    requires Shaped(s) && ValidTopology(t) && m <= OFFICE_NUM
    ensures Shaped(r) && SameCustomers(r, s)
    ensures r.scooters == s.scooters && r.scootersMetro == s.scootersMetro
    decreases m
  {
    if m == 0 then s
    else
      var p := Land(s, t, next, m - 1);
      if t.offices[m - 1] == next then
        p.(scootersOffice := p.scootersOffice[m - 1 := p.scootersOffice[m - 1] + 1],
           scootersRide := p.scootersRide[m - 1 := []])
      else p
  }

  /** Scooter i moves one node along its ride, if it has one. */
  function AdvanceOne(s: ScooterState, t: Topology, i: nat): (r: ScooterState)
    requires Shaped(s) && ValidTopology(t) && i < SCOOTERS_TOTAL
    ensures Shaped(r) && SameCustomers(r, s) && r.scootersMetro == s.scootersMetro
  {
    var ride := s.scootersRide[i];
    if ride == [] then s
    else
      var p := s.(scootersRide := s.scootersRide[i := ride[1..]]);
      var q := if ride[1..] == [] then Land(p, t, ride[0], OFFICE_NUM) else p;
      q.(scooters := q.scooters[i := ride[0]])
  }

  /** Scooters 0 .. n-1 advanced, each reading its ride as left by the earlier ones. */
  function AdvancePrefix(s: ScooterState, t: Topology, n: nat): (r: ScooterState)
    requires Shaped(s) && ValidTopology(t) && n <= SCOOTERS_TOTAL
    ensures Shaped(r) && SameCustomers(r, s) && r.scootersMetro == s.scootersMetro
    decreases n
  {
    if n == 0 then s else AdvanceOne(AdvancePrefix(s, t, n - 1), t, n - 1)
  }

  function Advance(s: ScooterState, t: Topology): (r: ScooterState)
    requires Shaped(s) && ValidTopology(t)
    ensures Shaped(r) && SameCustomers(r, s) && r.scootersMetro == s.scootersMetro
  {
    AdvancePrefix(s, t, SCOOTERS_TOTAL)
  }

  // ---------------------------------------------------------------------
  // Phase 3: queue service

  /** The index of the first scooter with no ride, or |rides| if every scooter rides. */
  function FirstIdle(rides: seq<seq<Node>>): (r: nat)
    ensures r <= |rides|
    ensures r < |rides| ==> rides[r] == []
    ensures forall k :: 0 <= k < r ==> rides[k] != []
  {
    if rides == [] then 0
    else if rides[0] == [] then 0
    else 1 + FirstIdle(rides[1..])
  }

  /** The front customer is served: the first ride-less scooter (if any) gets the
      route to `office` minus its first node, and the counters move. */
  function ServeOne(s: ScooterState, t: Topology, office: OfficeId, turn: int): (r: ScooterState)
    requires Shaped(s) && ValidTopology(t) && s.que != []
    ensures Shaped(r)
  {
    var j := FirstIdle(s.scootersRide);
    var rides := if j < |s.scootersRide| then s.scootersRide[j := t.officePaths[office][1..]] else s.scootersRide;
    s.(scootersRide := rides,
       que := s.que[1..],
       scootersMetro := s.scootersMetro - 1,
       customersServed := s.customersServed + 1,
       totalWaitingTime := s.totalWaitingTime + WAITING_TIME + turn - s.que[0])
  }

  /** The service loop, from the current state to its end; `k` customers have
      been served so far during this turn. */
  function ServeQueue(s: ScooterState, t: Topology, turn: int, dest: Destinations, k: nat): (r: ScooterState)
    requires Shaped(s) && ValidTopology(t)
    ensures Shaped(r)
    decreases |s.que|
  {
    if s.que == [] then s
    else if s.que[0] == turn then
      ServeQueue(s.(que := s.que[1..], customersDropped := s.customersDropped + 1), t, turn, dest, k)
    else if s.scootersMetro != 0 then
      ServeQueue(ServeOne(s, t, dest(k), turn), t, turn, dest, k + 1)
    else s
  }

  // ---------------------------------------------------------------------
  // Phases 4 and 5: arrivals and idle accounting

  /** The requests that arrive during `turn`: IN_RATE of them, each expiring at
      `turn + WAITING_TIME`. */
  function Arrivals(turn: int): (a: seq<int>)
    ensures |a| == IN_RATE
  {
    seq(IN_RATE, _ => turn + WAITING_TIME)
  }

  function AddArrivals(s: ScooterState, turn: int): ScooterState {
    s.(que := s.que + Arrivals(turn))
  }

  function AccountIdle(s: ScooterState): ScooterState {
    s.(underUtilization := s.underUtilization + CountEmpty(s.scootersRide))
  }

  /** The whole turn, phase by phase. */
  function Turn(s: ScooterState, t: Topology, turn: int, coin: Coin, dest: Destinations): (r: ScooterState)
    requires Shaped(s) && ValidTopology(t)
    ensures Shaped(r)
  {
    AccountIdle(AddArrivals(ServeQueue(Advance(Replenish(s, t, coin), t), t, turn, dest, 0), turn))
  }

  /** The three values logged after a turn. */
  datatype ScooterMetrics = ScooterMetrics(avgWaitTime: real, customersDropped: int, underUtilizationRatio: real)

  function TurnMetrics(s: ScooterState, turn: int): ScooterMetrics {
    ScooterMetrics(
      if s.customersServed == 0 then 0.0 else s.totalWaitingTime as real / s.customersServed as real,
      s.customersDropped,
      if turn == 0 then 0.0 else s.underUtilization as real / (SCOOTERS_TOTAL * turn) as real)
  }
}
