/** The truck fleet as values: the three scoring policies, the planning pass over
    a speculative copy of the office inventories, and the one-hop move with its
    pickups and deliveries. Loops are prefix folds over the truck indices. */
module TruckModel {
  import opened Network
  import opened Tally
  import ScooterModel

  /** Number of trucks. */
  const NUMBER: nat := 8
  /** Scooters a truck can carry. */
  const CAPACITY: nat := 10
  /** Weight of the aging score in the combined score. */
  const AGING_WEIGHT: real := 0.7

  /** The scoring function the driver selects by name. */
  datatype Policy = Aging | Greedy | Combined

  /** The metro, the offices, the per-office idle probability drawn at
      construction, and the shortest-path query. */
  datatype Layout = Layout(metro: Node, offices: seq<Node>, idleProb: seq<real>, shortestPath: PathOracle)

  predicate ValidLayout(l: Layout) {
    |l.offices| == ScooterModel.OFFICE_NUM && |l.idleProb| == ScooterModel.OFFICE_NUM
  }

  /** Everything the truck simulation updates. A route of `[]` stands for both
      `None` and an exhausted deque. */
  datatype TruckState = TruckState(
    truckPos: seq<Node>,
    truckCap: seq<int>,
    nextSteps: seq<seq<Node>>,
    turnsWithoutVisit: seq<int>,
    scootersPicked: int,
    distTravelled: int)

  predicate Shaped(s: TruckState) {
    && |s.truckPos| == NUMBER && |s.truckCap| == NUMBER && |s.nextSteps| == NUMBER
    && |s.turnsWithoutVisit| == ScooterModel.OFFICE_NUM
  }

  /** The state built by the constructor, trucks on the given start nodes. */
  function Initial(start: seq<Node>): TruckState {
    TruckState(start, seq(NUMBER, _ => 0), seq(NUMBER, _ => []), seq(ScooterModel.OFFICE_NUM, _ => 1), 0, 0)
  }

  /** Every truck's cargo is within [0, CAPACITY]. */
  predicate CargoBounded(cap: seq<int>) {
    forall i :: 0 <= i < |cap| ==> 0 <= cap[i] <= CAPACITY
  }

  predicate NonNegative(counts: seq<int>) {
    forall i :: 0 <= i < |counts| ==> counts[i] >= 0
  }

  // ---------------------------------------------------------------------
  // Scoring policies

  /** Score of a trip that picks up `scooters` after `dist` nodes of travel. */
  function ScoreFunction(scooters: int, dist: int): real {
    10.0 * scooters as real - 0.87 * dist as real - 175.0
  }

  /** Aging entry i: scooters there times turns without a visit times its idle
      probability (the inputs are zipped, so the shortest one decides the count). */
  function AgingScores(qty: seq<int>, turnsWithoutVisit: seq<int>, idleProb: seq<real>): (a: seq<real>)
    ensures |a| == if |qty| <= |turnsWithoutVisit| && |qty| <= |idleProb| then |qty|
                   else if |turnsWithoutVisit| <= |idleProb| then |turnsWithoutVisit| else |idleProb|
  {
    var n := Min(|qty|, Min(|turnsWithoutVisit|, |idleProb|));
    seq(n, i requires 0 <= i < n => qty[i] as real * turnsWithoutVisit[i] as real * idleProb[i])
  }

  /** Greedy entry i: the trip score of what the truck could take at office i
      and the length of the path to it. The pickup uses `truckCap[i]`, the cargo
      of truck i, and only the first NUMBER offices get an entry. */
  function GreedyScores(l: Layout, truckCap: seq<int>, pos: Node, qty: seq<int>): (g: seq<real>)
    requires |truckCap| == NUMBER && |qty| >= NUMBER
    ensures |g| == Min(NUMBER, |l.offices|)
  {
    var n := Min(NUMBER, |l.offices|);
    seq(n, i requires 0 <= i < n =>
      ScoreFunction(Min(CAPACITY - truckCap[i], qty[i]), |l.shortestPath(pos, l.offices[i])|))
  }

  /** Combined entry i: the blend 0.7 · aging + 0.3 · greedy. */
  function CombinedScores(aging: seq<real>, greedy: seq<real>): (c: seq<real>)
    ensures |c| == Min(|aging|, |greedy|)
  {
    var n := Min(|aging|, |greedy|);
    seq(n, i requires 0 <= i < n => aging[i] * AGING_WEIGHT + greedy[i] * (1.0 - AGING_WEIGHT))
  }

  /** The entry a stable descending sort puts first: a maximal score, and the
      lowest index among equal maxima. */
  function ArgMax(scores: seq<real>): (k: nat)
    requires |scores| > 0
    ensures k < |scores|
    ensures forall j :: 0 <= j < |scores| ==> scores[j] <= scores[k]
    ensures forall j :: 0 <= j < k ==> scores[j] < scores[k]
  {
    if |scores| == 1 then 0
    else
      var k' := ArgMax(scores[..|scores| - 1]);
      if scores[|scores| - 1] > scores[k'] then |scores| - 1 else k'
  }

  /** The scores the policy assigns to the offices. */
  function Scores(policy: Policy, l: Layout, s: TruckState, pos: Node, qty: seq<int>): (sc: seq<real>)
    requires ValidLayout(l) && Shaped(s) && |qty| == ScooterModel.OFFICE_NUM
    ensures |sc| == if policy == Aging then ScooterModel.OFFICE_NUM else NUMBER
  {
    match policy
    case Aging => AgingScores(qty, s.turnsWithoutVisit, l.idleProb)
    case Greedy => GreedyScores(l, s.truckCap, pos, qty)
    case Combined => CombinedScores(AgingScores(qty, s.turnsWithoutVisit, l.idleProb), GreedyScores(l, s.truckCap, pos, qty))
  }

  /** `best_aging_score` / `best_greedy_score` / `best_combined_score`: the first
      entry after sorting the scores in descending order. */
  function BestScore(policy: Policy, l: Layout, s: TruckState, pos: Node, qty: seq<int>): (best: (real, nat))
    requires ValidLayout(l) && Shaped(s) && |qty| == ScooterModel.OFFICE_NUM
    ensures best.1 < |qty|
    ensures policy != Aging ==> best.1 < NUMBER
    ensures var sc := Scores(policy, l, s, pos, qty);
      && best.0 == sc[best.1]
      && (forall j :: 0 <= j < |sc| ==> sc[j] <= best.0)
      && (forall j :: 0 <= j < best.1 ==> sc[j] < best.0)
  {
    var sc := Scores(policy, l, s, pos, qty);
    var k := ArgMax(sc);
    (sc[k], k)
  }

  // ---------------------------------------------------------------------
  // Planning (calculate_path)

  /** Routes planned so far and the speculative office inventories. */
  datatype Plan = Plan(nextSteps: seq<seq<Node>>, speculative: seq<int>)

  predicate PlanShaped(p: Plan) {
    |p.nextSteps| == NUMBER && |p.speculative| == ScooterModel.OFFICE_NUM
  }

  /** What the planning pass would reserve for an idle, non-full truck `id`:
      the chosen office and the amount. */
  function Reservation(policy: Policy, l: Layout, s: TruckState, p: Plan, id: nat): (res: (nat, int))
    requires ValidLayout(l) && Shaped(s) && PlanShaped(p) && id < NUMBER
    ensures res.0 < ScooterModel.OFFICE_NUM
  {
    var (_, officeId) := BestScore(policy, l, s, s.truckPos[id], p.speculative);
    (officeId, Min(CAPACITY - s.truckCap[id], p.speculative[officeId]))
  }

  /** The route a truck follows from `src` to `dst`: the shortest path without
      its first node, the truck's own position. */
  function Route(l: Layout, src: Node, dst: Node): (r: seq<Node>)
    ensures [src] + r == l.shortestPath(src, dst)
    ensures r != [] ==> r[|r| - 1] == dst
  {
    var path := l.shortestPath(src, dst);
    assert IsPath(path, src, dst);
    path[1..]
  }

  /** Planning for truck `id`. */
  function PlanTruck(policy: Policy, l: Layout, s: TruckState, p: Plan, id: nat): (r: Plan)
    requires ValidLayout(l) && Shaped(s) && PlanShaped(p) && id < NUMBER
    ensures PlanShaped(r)
  {
    if p.nextSteps[id] != [] then p
    else if s.truckCap[id] == CAPACITY then
      p.(nextSteps := p.nextSteps[id := Route(l, s.truckPos[id], l.metro)])
    else
      var (officeId, take) := Reservation(policy, l, s, p, id);
      if take == 0 then p.(nextSteps := p.nextSteps[id := []])
      else
        Plan(p.nextSteps[id := Route(l, s.truckPos[id], l.offices[officeId])],
             p.speculative[officeId := p.speculative[officeId] - take])
  }

  /** Trucks 0 .. n-1 planned, starting from the trucks' routes and a copy of `qty`. */
  function PlanPrefix(policy: Policy, l: Layout, s: TruckState, qty: seq<int>, n: nat): (r: Plan)
    requires ValidLayout(l) && Shaped(s) && |qty| == ScooterModel.OFFICE_NUM && n <= NUMBER
    ensures PlanShaped(r)
    decreases n
  {
    if n == 0 then Plan(s.nextSteps, qty)
    else PlanTruck(policy, l, s, PlanPrefix(policy, l, s, qty, n - 1), n - 1)
  }

  function CalculatePath(policy: Policy, l: Layout, s: TruckState, qty: seq<int>): (r: Plan)
    requires ValidLayout(l) && Shaped(s) && |qty| == ScooterModel.OFFICE_NUM
    ensures PlanShaped(r)
  {
    PlanPrefix(policy, l, s, qty, NUMBER)
  }

  // ---------------------------------------------------------------------
  // Moving (update_truck_pos)

  /** The state the move loop threads from truck to truck: the trucks together
      with the metro and office inventories they deliver to and pick up from,
      as they stand after the hops of the trucks moved so far. */
  datatype FleetState = FleetState(trucks: TruckState, metroScooters: int, officeScooters: seq<int>)

  predicate FleetShaped(y: FleetState) {
    Shaped(y.trucks) && |y.officeScooters| == ScooterModel.OFFICE_NUM
  }

  /** `office_mapping[node]`: the index a dict built from (osmid, index) pairs
      keeps for `node`, i.e. its last occurrence. */
  function OfficeIndex(offices: seq<Node>, node: Node): (k: nat)
    requires node in offices
    ensures k < |offices| && offices[k] == node
    ensures forall j :: k < j < |offices| ==> offices[j] != node
  {
    if offices[|offices| - 1] == node then |offices| - 1
    else OfficeIndex(offices[..|offices| - 1], node)
  }

  /** Truck i takes one step of its route, if it has one, delivering at the metro
      or picking up at an office. */
  function MoveTruck(l: Layout, y: FleetState, i: nat): (r: FleetState)
    requires ValidLayout(l) && FleetShaped(y) && i < NUMBER
    ensures FleetShaped(r)
  {
    var t := y.trucks;
    var steps := t.nextSteps[i];
    if steps == [] then y
    else
      var step := steps[0];
      var t1 := t.(nextSteps := t.nextSteps[i := steps[1..]], distTravelled := t.distTravelled + 1);
      if step == l.metro then
        FleetState(t1.(truckCap := t1.truckCap[i := 0], truckPos := t1.truckPos[i := step], nextSteps := t1.nextSteps[i := []]),
             y.metroScooters + t.truckCap[i], y.officeScooters)
      else if step in l.offices then
        var officeId := OfficeIndex(l.offices, step);
        var take := Min(CAPACITY - t.truckCap[i], y.officeScooters[officeId]);
        FleetState(t1.(truckCap := t1.truckCap[i := t.truckCap[i] + take],
                 turnsWithoutVisit := t1.turnsWithoutVisit[officeId := 0],
                 scootersPicked := t1.scootersPicked + take,
                 truckPos := t1.truckPos[i := step],
                 nextSteps := t1.nextSteps[i := []]),
             y.metroScooters, y.officeScooters[officeId := y.officeScooters[officeId] - take])
      else
        FleetState(t1.(truckPos := t1.truckPos[i := step]), y.metroScooters, y.officeScooters)
  }

  function MovePrefix(l: Layout, y: FleetState, n: nat): (r: FleetState)
    requires ValidLayout(l) && FleetShaped(y) && n <= NUMBER
    ensures FleetShaped(r)
    decreases n
  {
    if n == 0 then y else MoveTruck(l, MovePrefix(l, y, n - 1), n - 1)
  }

  /** Every station ages by one turn. */
  function Aged(turnsWithoutVisit: seq<int>): (a: seq<int>)
    ensures |a| == |turnsWithoutVisit|
  {
    seq(|turnsWithoutVisit|, k requires 0 <= k < |turnsWithoutVisit| => turnsWithoutVisit[k] + 1)
  }

  /** The whole move: every truck in index order, then the aging of the stations. */
  function UpdateTruckPos(l: Layout, s: TruckState, metroScooters: int, officeScooters: seq<int>): (r: FleetState)
    requires ValidLayout(l) && Shaped(s) && |officeScooters| == ScooterModel.OFFICE_NUM
    ensures FleetShaped(r)
  {
    var y := MovePrefix(l, FleetState(s, metroScooters, officeScooters), NUMBER);
    y.(trucks := y.trucks.(turnsWithoutVisit := Aged(y.trucks.turnsWithoutVisit)))
  }

  /** Scooters picked per truck per node travelled, 0 before any travel. */
  function TruckMetric(s: TruckState): real {
    if s.distTravelled == 0 then 0.0 else s.scootersPicked as real / (NUMBER * s.distTravelled) as real
  }
}
