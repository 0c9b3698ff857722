/** Properties of the truck model: what the scores mean, which trucks the
    planning pass routes and what it reserves, and what the one-hop move
    conserves and preserves. */
module TruckLemmas {
  import opened Network
  import opened Tally
  import ScooterModel
  import opened TruckModel

  // ---------------------------------------------------------------------
  // Scoring

  /** A trip pays for itself exactly when ten points per scooter cover the
      fixed cost of 175 and 0.87 per node travelled. */
  lemma ScoreBreakEven(scooters: int, dist: int)
    ensures ScoreFunction(scooters, dist) >= 0.0 <==> 1000 * scooters >= 87 * dist + 17500
    ensures ScoreFunction(scooters + 1, dist) == ScoreFunction(scooters, dist) + 10.0
    ensures ScoreFunction(scooters, dist + 1) == ScoreFunction(scooters, dist) - 0.87
  {
  }

  /** With a capacity of 10 no greedy trip breaks even: at most 10 scooters
      are picked and every path has at least one node, so every entry is at
      most 100 - 0.87 - 175. */
  lemma GreedyBelowBreakEven(l: Layout, truckCap: seq<int>, pos: Node, qty: seq<int>)
    requires |truckCap| == NUMBER && |qty| >= NUMBER && CargoBounded(truckCap)
    ensures forall i :: 0 <= i < |GreedyScores(l, truckCap, pos, qty)| ==> GreedyScores(l, truckCap, pos, qty)[i] <= -75.87
  {
    var g := GreedyScores(l, truckCap, pos, qty);
    forall i | 0 <= i < |g|
      ensures g[i] <= -75.87
    {
      var path := l.shortestPath(pos, l.offices[i]);
      assert IsPath(path, pos, l.offices[i]);
    }
  }

  /** Aging scores of non-negative counts, ages and probabilities are non-negative. */
  lemma AgingNonNegative(qty: seq<int>, turnsWithoutVisit: seq<int>, idleProb: seq<real>)
    requires NonNegative(qty) && NonNegative(turnsWithoutVisit)
    requires forall k :: 0 <= k < |idleProb| ==> idleProb[k] >= 0.0
    ensures forall i :: 0 <= i < |AgingScores(qty, turnsWithoutVisit, idleProb)| ==> AgingScores(qty, turnsWithoutVisit, idleProb)[i] >= 0.0
  {
    var a := AgingScores(qty, turnsWithoutVisit, idleProb);
    forall i | 0 <= i < |a|
      ensures a[i] >= 0.0
    {
      ProductNonNegative(qty[i] as real, turnsWithoutVisit[i] as real, idleProb[i]);
    }
  }

  lemma ProductNonNegative(x: real, y: real, z: real)
    requires x >= 0.0 && y >= 0.0 && z >= 0.0
    ensures x * y * z >= 0.0
  {
    assert x * y >= 0.0;
  }

  lemma ProductPositive(x: real, y: real, z: real)
    requires x > 0.0 && y > 0.0 && z > 0.0
    ensures x * y * z > 0.0
  {
    assert x * y > 0.0;
  }

  lemma ProductNotPositive(x: real, y: real, z: real)
    requires x <= 0.0 && y >= 0.0 && z >= 0.0
    ensures x * y * z <= 0.0
  {
    assert x * y <= 0.0;
  }

  /** Once some office has stock, an age and an idle probability above zero, the
      aging policy never picks an office without stock. */
  lemma AgingPicksStockedOffice(l: Layout, s: TruckState, pos: Node, qty: seq<int>, j: nat)
    requires ValidLayout(l) && Shaped(s) && |qty| == ScooterModel.OFFICE_NUM
    requires NonNegative(s.turnsWithoutVisit)
    requires forall k :: 0 <= k < |l.idleProb| ==> l.idleProb[k] >= 0.0
    requires j < ScooterModel.OFFICE_NUM && qty[j] > 0 && s.turnsWithoutVisit[j] > 0 && l.idleProb[j] > 0.0
    ensures qty[BestScore(Aging, l, s, pos, qty).1] > 0
  {
    var sc := AgingScores(qty, s.turnsWithoutVisit, l.idleProb);
    var k := BestScore(Aging, l, s, pos, qty).1;
    ProductPositive(qty[j] as real, s.turnsWithoutVisit[j] as real, l.idleProb[j]);
    assert sc[j] > 0.0;
    assert sc[k] >= sc[j];
    if qty[k] <= 0 {
      ProductNotPositive(qty[k] as real, s.turnsWithoutVisit[k] as real, l.idleProb[k]);
      assert false;
    }
  }

  /** A combined entry lies between its aging and its greedy entry. */
  lemma CombinedBetween(aging: seq<real>, greedy: seq<real>)
    ensures forall i :: 0 <= i < |CombinedScores(aging, greedy)| ==>
      var c := CombinedScores(aging, greedy)[i];
      (aging[i] <= greedy[i] ==> aging[i] <= c <= greedy[i]) &&
      (greedy[i] <= aging[i] ==> greedy[i] <= c <= aging[i])
  {
  }

  // ---------------------------------------------------------------------
  // Planning

  /** The routes truck `id` can leave the planning pass with: its own
      pending route; the route to the metro when full; otherwise nothing or
      the route to some office. */
  ghost predicate Planned(l: Layout, s: TruckState, id: nat, route: seq<Node>)
    requires ValidLayout(l) && Shaped(s) && id < NUMBER
  {
    if s.nextSteps[id] != [] then route == s.nextSteps[id]
    else if s.truckCap[id] == CAPACITY then route == Route(l, s.truckPos[id], l.metro)
    else route == [] || exists k :: 0 <= k < ScooterModel.OFFICE_NUM && route == Route(l, s.truckPos[id], l.offices[k])
  }

  /** Planning truck `id` gives it one of its possible routes and leaves every
      other route alone. */
  lemma PlanTruckRoutes(policy: Policy, l: Layout, s: TruckState, p: Plan, id: nat)
    requires ValidLayout(l) && Shaped(s) && PlanShaped(p) && id < NUMBER
    requires p.nextSteps[id] == s.nextSteps[id]
    ensures forall j :: 0 <= j < NUMBER && j != id ==> PlanTruck(policy, l, s, p, id).nextSteps[j] == p.nextSteps[j]
    ensures Planned(l, s, id, PlanTruck(policy, l, s, p, id).nextSteps[id])
  {
    if p.nextSteps[id] == [] && s.truckCap[id] != CAPACITY {
      var (officeId, take) := Reservation(policy, l, s, p, id);
      if take != 0 {
        assert PlanTruck(policy, l, s, p, id).nextSteps[id] == Route(l, s.truckPos[id], l.offices[officeId]);
      }
    }
  }

  lemma {:induction false} PlanPrefixRoutes(policy: Policy, l: Layout, s: TruckState, qty: seq<int>, n: nat)
    requires ValidLayout(l) && Shaped(s) && |qty| == ScooterModel.OFFICE_NUM && n <= NUMBER
    ensures forall id :: n <= id < NUMBER ==> PlanPrefix(policy, l, s, qty, n).nextSteps[id] == s.nextSteps[id]
    ensures forall id :: 0 <= id < n ==> Planned(l, s, id, PlanPrefix(policy, l, s, qty, n).nextSteps[id])
  {
    if n > 0 {
      PlanPrefixRoutes(policy, l, s, qty, n - 1);
      var p := PlanPrefix(policy, l, s, qty, n - 1);
      PlanTruckRoutes(policy, l, s, p, n - 1);
      var r := PlanPrefix(policy, l, s, qty, n);
      assert r == PlanTruck(policy, l, s, p, n - 1);
      forall id | 0 <= id < n - 1
        ensures Planned(l, s, id, r.nextSteps[id])
      {
        assert r.nextSteps[id] == p.nextSteps[id];
      }
    }
  }

  /** The planning pass routes only trucks without a route, sends a full one to
      the metro, and any other one to an office or nowhere. */
  lemma CalculatePathRoutes(policy: Policy, l: Layout, s: TruckState, qty: seq<int>)
    requires ValidLayout(l) && Shaped(s) && |qty| == ScooterModel.OFFICE_NUM
    ensures forall id :: 0 <= id < NUMBER ==> Planned(l, s, id, CalculatePath(policy, l, s, qty).nextSteps[id])
  {
    PlanPrefixRoutes(policy, l, s, qty, NUMBER);
  }

  lemma {:induction false} PlanPrefixReserves(policy: Policy, l: Layout, s: TruckState, qty: seq<int>, n: nat)
    requires ValidLayout(l) && Shaped(s) && |qty| == ScooterModel.OFFICE_NUM && n <= NUMBER
    requires NonNegative(qty) && CargoBounded(s.truckCap)
    ensures forall j :: 0 <= j < ScooterModel.OFFICE_NUM ==> 0 <= PlanPrefix(policy, l, s, qty, n).speculative[j] <= qty[j]
  {
    if n > 0 {
      PlanPrefixReserves(policy, l, s, qty, n - 1);
    }
  }

  /** With non-negative counts and cargo within capacity, the speculative counts
      stay non-negative and nothing is added to them: what is reserved at a
      station is between 0 and its count. */
  lemma CalculatePathReserves(policy: Policy, l: Layout, s: TruckState, qty: seq<int>)
    requires ValidLayout(l) && Shaped(s) && |qty| == ScooterModel.OFFICE_NUM
    requires NonNegative(qty) && CargoBounded(s.truckCap)
    ensures forall j :: 0 <= j < ScooterModel.OFFICE_NUM ==> 0 <= CalculatePath(policy, l, s, qty).speculative[j] <= qty[j]
  {
    PlanPrefixReserves(policy, l, s, qty, NUMBER);
  }

  /** Reservations are taken from the count the truck sees: a negative office
      count makes the "take" negative and the speculative count grow. */
  lemma NegativeCountInflates(policy: Policy, l: Layout, s: TruckState, p: Plan, id: nat)
    requires ValidLayout(l) && Shaped(s) && PlanShaped(p) && id < NUMBER
    requires p.nextSteps[id] == [] && 0 <= s.truckCap[id] < CAPACITY
    requires p.speculative[Reservation(policy, l, s, p, id).0] < 0
    ensures var k := Reservation(policy, l, s, p, id).0;
      PlanTruck(policy, l, s, p, id).speculative[k] > p.speculative[k]
  {
  }

  // ---------------------------------------------------------------------
  // Moving

  /** The inventory the trucks move around: metro, offices and cargo. */
  function Load(y: FleetState): int {
    y.metroScooters + Sum(y.officeScooters) + Sum(y.trucks.truckCap)
  }

  /** Cargo within capacity and no office below zero. */
  predicate Bounded(y: FleetState) {
    CargoBounded(y.trucks.truckCap) && NonNegative(y.officeScooters)
  }

  /** The first step of `steps` is a pickup at office k (the metro takes
      precedence over an office on the same node). */
  predicate StopsAt(l: Layout, steps: seq<Node>, k: nat)
    requires ValidLayout(l)
  {
    steps != [] && steps[0] != l.metro && steps[0] in l.offices && OfficeIndex(l.offices, steps[0]) == k
  }

  /** Some truck among 0 .. n-1 picks up at office k. */
  ghost predicate VisitedBy(l: Layout, routes: seq<seq<Node>>, n: nat, k: nat)
    requires ValidLayout(l) && n <= |routes|
  {
    exists j :: 0 <= j < n && StopsAt(l, routes[j], k)
  }

  /** Position and route of a truck after its hop, from its route and position before. */
  predicate Hopped(l: Layout, steps: seq<Node>, pos: Node, route: seq<Node>, pos': Node) {
    if steps == [] then route == [] && pos' == pos
    else pos' == steps[0] && route == (if steps[0] == l.metro || steps[0] in l.offices then [] else steps[1..])
  }

  /** Cargo of a truck after its hop: emptied at the metro, kept while passing
      through, at most CAPACITY after a pickup. */
  predicate Loaded(l: Layout, steps: seq<Node>, cap: int, cap': int) {
    if steps == [] then cap' == cap
    else if steps[0] == l.metro then cap' == 0
    else if steps[0] in l.offices then cap' <= CAPACITY
    else cap' == cap
  }

  /** What truck i's hop changes besides the inventories. */
  lemma MoveTruckEffect(l: Layout, y: FleetState, i: nat)
    requires ValidLayout(l) && FleetShaped(y) && i < NUMBER
    ensures var r := MoveTruck(l, y, i); var t, u := y.trucks, r.trucks;
      && (forall j :: 0 <= j < NUMBER && j != i ==>
            u.truckPos[j] == t.truckPos[j] && u.truckCap[j] == t.truckCap[j] && u.nextSteps[j] == t.nextSteps[j])
      && Hopped(l, t.nextSteps[i], t.truckPos[i], u.nextSteps[i], u.truckPos[i])
      && Loaded(l, t.nextSteps[i], t.truckCap[i], u.truckCap[i])
      && u.distTravelled == t.distTravelled + (if t.nextSteps[i] == [] then 0 else 1)
      && (forall k :: 0 <= k < ScooterModel.OFFICE_NUM ==>
            u.turnsWithoutVisit[k] == if StopsAt(l, t.nextSteps[i], k) then 0 else t.turnsWithoutVisit[k])
  {
  }

  /** The counts truck i's hop moves: at the metro the whole cargo is delivered;
      at an office the truck takes min(CAPACITY - cargo, stock), which the office
      loses and the pick-up counter gains; elsewhere no count moves. */
  lemma MoveTruckArithmetic(l: Layout, y: FleetState, i: nat)
    requires ValidLayout(l) && FleetShaped(y) && i < NUMBER && y.trucks.nextSteps[i] != []
    ensures var r := MoveTruck(l, y, i); var t, u := y.trucks, r.trucks; var step := t.nextSteps[i][0];
      && (step == l.metro ==>
            && r.metroScooters == y.metroScooters + t.truckCap[i] && u.truckCap[i] == 0
            && r.officeScooters == y.officeScooters && u.scootersPicked == t.scootersPicked)
      && (step != l.metro && step in l.offices ==>
            var k := OfficeIndex(l.offices, step); var take := Min(CAPACITY - t.truckCap[i], y.officeScooters[k]);
            && r.officeScooters == y.officeScooters[k := y.officeScooters[k] - take]
            && u.truckCap[i] == t.truckCap[i] + take
            && u.scootersPicked == t.scootersPicked + take && r.metroScooters == y.metroScooters)
      && (step != l.metro && step !in l.offices ==>
            && r.metroScooters == y.metroScooters && r.officeScooters == y.officeScooters
            && u.truckCap[i] == t.truckCap[i] && u.scootersPicked == t.scootersPicked)
  {
  }

  /** A truck stopping at an office whose count is below zero takes a negative
      amount: its cargo and the pick-up counter fall and the office count rises. */
  lemma NegativeStockDrainsCargo(l: Layout, y: FleetState, i: nat, k: nat)
    requires ValidLayout(l) && FleetShaped(y) && i < NUMBER
    requires StopsAt(l, y.trucks.nextSteps[i], k) && y.officeScooters[k] < 0
    requires y.trucks.truckCap[i] <= CAPACITY
    ensures var r := MoveTruck(l, y, i);
      && r.trucks.truckCap[i] < y.trucks.truckCap[i]
      && r.trucks.scootersPicked < y.trucks.scootersPicked
      && r.officeScooters[k] > y.officeScooters[k]
  {
  }

  /** Truck i's hop moves scooters between the metro, the offices and its cargo
      without creating or losing any, and keeps the bounds. */
  lemma MoveTruckConserves(l: Layout, y: FleetState, i: nat)
    requires ValidLayout(l) && FleetShaped(y) && i < NUMBER
    ensures var r := MoveTruck(l, y, i);
      && Load(r) == Load(y)
      && r.trucks.scootersPicked - y.trucks.scootersPicked == Sum(y.officeScooters) - Sum(r.officeScooters)
      && (Bounded(y) ==> Bounded(r))
  {
    var t := y.trucks;
    var steps := t.nextSteps[i];
    if steps != [] {
      var step := steps[0];
      if step == l.metro {
        SumUpdate(t.truckCap, i, 0);
      } else if step in l.offices {
        var officeId := OfficeIndex(l.offices, step);
        var take := Min(CAPACITY - t.truckCap[i], y.officeScooters[officeId]);
        SumUpdate(t.truckCap, i, t.truckCap[i] + take);
        SumUpdate(y.officeScooters, officeId, y.officeScooters[officeId] - take);
      }
    }
  }

  lemma {:induction false} MovePrefixEffect(l: Layout, y: FleetState, n: nat)
    requires ValidLayout(l) && FleetShaped(y) && n <= NUMBER
    ensures var r := MovePrefix(l, y, n); var t, u := y.trucks, r.trucks;
      && (forall j :: n <= j < NUMBER ==>
            u.truckPos[j] == t.truckPos[j] && u.truckCap[j] == t.truckCap[j] && u.nextSteps[j] == t.nextSteps[j])
      && (forall j :: 0 <= j < n ==>
            Hopped(l, t.nextSteps[j], t.truckPos[j], u.nextSteps[j], u.truckPos[j])
            && Loaded(l, t.nextSteps[j], t.truckCap[j], u.truckCap[j]))
      && Load(r) == Load(y)
      && u.scootersPicked - t.scootersPicked == Sum(y.officeScooters) - Sum(r.officeScooters)
      && u.distTravelled == t.distTravelled + n - CountEmpty(t.nextSteps[..n])
      && (forall k :: 0 <= k < ScooterModel.OFFICE_NUM ==>
            u.turnsWithoutVisit[k] == if VisitedBy(l, t.nextSteps, n, k) then 0 else t.turnsWithoutVisit[k])
      && (Bounded(y) ==> Bounded(r))
  {
    var t := y.trucks;
    if n > 0 {
      MovePrefixEffect(l, y, n - 1);
      var p := MovePrefix(l, y, n - 1);
      MoveTruckEffect(l, p, n - 1);
      MoveTruckConserves(l, p, n - 1);
      CountEmptySnoc(t.nextSteps, n - 1);
      var u := MovePrefix(l, y, n).trucks;
      forall k | 0 <= k < ScooterModel.OFFICE_NUM
        ensures u.turnsWithoutVisit[k] == if VisitedBy(l, t.nextSteps, n, k) then 0 else t.turnsWithoutVisit[k]
      {
        if StopsAt(l, t.nextSteps[n - 1], k) {
          assert VisitedBy(l, t.nextSteps, n, k);
        } else if VisitedBy(l, t.nextSteps, n, k) {
          var j :| 0 <= j < n && StopsAt(l, t.nextSteps[j], k);
          assert VisitedBy(l, t.nextSteps, n - 1, k);
        }
      }
    } else {
      assert t.nextSteps[..0] == [];
    }
  }

  /** The whole move. Every truck with a route takes exactly one hop and the
      others stay put; the distance grows by the number of trucks with a route;
      metro + offices + cargo is conserved and what left the offices is what was
      picked; bounded cargo and non-negative offices stay so; a station visited
      this turn ends at age 1 and every other one ages by one. */
  lemma UpdateTruckPosEffect(l: Layout, s: TruckState, metroScooters: int, officeScooters: seq<int>)
    requires ValidLayout(l) && Shaped(s) && |officeScooters| == ScooterModel.OFFICE_NUM
    ensures var y := FleetState(s, metroScooters, officeScooters);
      var r := UpdateTruckPos(l, s, metroScooters, officeScooters); var u := r.trucks;
      && (forall j :: 0 <= j < NUMBER ==>
            Hopped(l, s.nextSteps[j], s.truckPos[j], u.nextSteps[j], u.truckPos[j])
            && Loaded(l, s.nextSteps[j], s.truckCap[j], u.truckCap[j]))
      && Load(r) == Load(y)
      && u.scootersPicked - s.scootersPicked == Sum(officeScooters) - Sum(r.officeScooters)
      && u.distTravelled == s.distTravelled + NUMBER - CountEmpty(s.nextSteps)
      && (forall k :: 0 <= k < ScooterModel.OFFICE_NUM ==>
            u.turnsWithoutVisit[k] == if VisitedBy(l, s.nextSteps, NUMBER, k) then 1 else s.turnsWithoutVisit[k] + 1)
      && (Bounded(y) ==> Bounded(r))
  {
    MovePrefixEffect(l, FleetState(s, metroScooters, officeScooters), NUMBER);
    assert s.nextSteps[..NUMBER] == s.nextSteps;
  }

  /** A truck with no route leaves the move exactly as it entered it. */
  lemma IdleTruckStays(l: Layout, s: TruckState, metroScooters: int, officeScooters: seq<int>, j: nat)
    requires ValidLayout(l) && Shaped(s) && |officeScooters| == ScooterModel.OFFICE_NUM
    requires j < NUMBER && s.nextSteps[j] == []
    ensures var u := UpdateTruckPos(l, s, metroScooters, officeScooters).trucks;
      u.truckPos[j] == s.truckPos[j] && u.truckCap[j] == s.truckCap[j] && u.nextSteps[j] == []
  {
    UpdateTruckPosEffect(l, s, metroScooters, officeScooters);
  }

  /** The metric is zero before any travel and otherwise never negative when
      the pick-up counter is not. */
  lemma TruckMetricRange(s: TruckState)
    requires s.scootersPicked >= 0 && s.distTravelled >= 0
    ensures TruckMetric(s) >= 0.0
    ensures s.distTravelled == 0 ==> TruckMetric(s) == 0.0
  {
  }
}
