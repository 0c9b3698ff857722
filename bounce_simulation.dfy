/** One animation frame of the driver: the scooter turn, then the trucks plan
    against the office counts the turn left, hop once, and their inventories
    are written back into the scooter fleet. */
module BounceSimulation {
  import opened Network
  import opened Tally
  import ScooterModel
  import TruckModel
  import TruckLemmas
  import ScooterLemmas
  import opened ScooterSimulation
  import opened TruckSimulation

  /** The state of both fleets. */
  datatype World = World(fleet: ScooterModel.ScooterState, trucks: TruckModel.TruckState)

  predicate WorldShaped(w: World) {
    ScooterModel.Shaped(w.fleet) && TruckModel.Shaped(w.trucks)
  }

  /** Both fleets see the same stations: the layout the trucks use is the
      scooters' one. */
  predicate SameStations(t: ScooterModel.Topology, l: TruckModel.Layout) {
    t.metro == l.metro && t.offices == l.offices
  }

  /** The name of a scoring policy as the driver takes it: "aging" and
      "greedy" name theirs, any other name selects the combined score. */
  function PolicyOf(name: string): (p: TruckModel.Policy)
    ensures p == TruckModel.Aging <==> name == "aging"
    ensures p == TruckModel.Greedy <==> name == "greedy"
    ensures p == TruckModel.Combined <==> name != "aging" && name != "greedy"
  {
    if name == "aging" then TruckModel.Aging
    else if name == "greedy" then TruckModel.Greedy
    else TruckModel.Combined
  }

  /** The trucks' part of a frame, after the scooter turn left `fleet`: plan
      against its office counts, hop once, write the inventories back. */
  function TruckPhase(l: TruckModel.Layout, policy: TruckModel.Policy, fleet: ScooterModel.ScooterState,
                      trucks: TruckModel.TruckState): (r: World)
    requires TruckModel.ValidLayout(l) && WorldShaped(World(fleet, trucks))
    ensures WorldShaped(r)
    ensures ScooterModel.SameCustomers(r.fleet, fleet)
  {
    var planned := trucks.(nextSteps := TruckModel.CalculatePath(policy, l, trucks, fleet.scootersOffice).nextSteps);
    var y := TruckModel.UpdateTruckPos(l, planned, fleet.scootersMetro, fleet.scootersOffice);
    World(fleet.(scootersMetro := y.metroScooters, scootersOffice := y.officeScooters), y.trucks)
  }

  /** One frame, as values. */
  function Frame(t: ScooterModel.Topology, l: TruckModel.Layout, policy: TruckModel.Policy, w: World,
                 turn: int, coin: ScooterModel.Coin, dest: ScooterModel.Destinations): (r: World)
    requires ScooterModel.ValidTopology(t) && TruckModel.ValidLayout(l) && WorldShaped(w)
    ensures WorldShaped(r)
  {
    TruckPhase(l, policy, ScooterModel.Turn(w.fleet, t, turn, coin, dest), w.trucks)
  }

  /** A frame accounts for exactly IN_RATE new requests (the trucks touch no
      customer), and the trucks only move scooters between the metro, the
      offices and their cargo: hub + stations + cargo after the frame is
      hub + stations after the scooter turn, plus the cargo before it. */
  lemma FrameConserves(t: ScooterModel.Topology, l: TruckModel.Layout, policy: TruckModel.Policy, w: World,
                       turn: int, coin: ScooterModel.Coin, dest: ScooterModel.Destinations)
    requires ScooterModel.ValidTopology(t) && TruckModel.ValidLayout(l) && WorldShaped(w)
    ensures var r := Frame(t, l, policy, w, turn, coin, dest);
      var s1 := ScooterModel.Turn(w.fleet, t, turn, coin, dest);
      && ScooterModel.Accounted(r.fleet) == ScooterModel.Accounted(w.fleet) + ScooterModel.IN_RATE
      && ScooterModel.HubAndStations(r.fleet) + Sum(r.trucks.truckCap)
         == ScooterModel.HubAndStations(s1) + Sum(w.trucks.truckCap)
  {
    ScooterLemmas.TurnAccountsArrivals(w.fleet, t, turn, coin, dest);
    var s1 := ScooterModel.Turn(w.fleet, t, turn, coin, dest);
    var planned := w.trucks.(nextSteps := TruckModel.CalculatePath(policy, l, w.trucks, s1.scootersOffice).nextSteps);
    TruckLemmas.UpdateTruckPosEffect(l, planned, s1.scootersMetro, s1.scootersOffice);
  }

  /** When the turn leaves no office below zero and the cargo is within
      capacity, the frame keeps both bounds. */
  lemma FrameKeepsBounds(t: ScooterModel.Topology, l: TruckModel.Layout, policy: TruckModel.Policy, w: World,
                         turn: int, coin: ScooterModel.Coin, dest: ScooterModel.Destinations)
    requires ScooterModel.ValidTopology(t) && TruckModel.ValidLayout(l) && WorldShaped(w)
    requires TruckModel.CargoBounded(w.trucks.truckCap)
    requires TruckModel.NonNegative(ScooterModel.Turn(w.fleet, t, turn, coin, dest).scootersOffice)
    ensures var r := Frame(t, l, policy, w, turn, coin, dest);
      TruckModel.CargoBounded(r.trucks.truckCap) && TruckModel.NonNegative(r.fleet.scootersOffice)
  {
    var s1 := ScooterModel.Turn(w.fleet, t, turn, coin, dest);
    var planned := w.trucks.(nextSteps := TruckModel.CalculatePath(policy, l, w.trucks, s1.scootersOffice).nextSteps);
    TruckLemmas.UpdateTruckPosEffect(l, planned, s1.scootersMetro, s1.scootersOffice);
  }

  /** The scooter metrics read only the customer counters, which the trucks
      never touch. */
  lemma MetricsReadCustomers(a: ScooterModel.ScooterState, b: ScooterModel.ScooterState, turn: int)
    requires ScooterModel.SameCustomers(a, b)
    ensures ScooterModel.TurnMetrics(a, turn) == ScooterModel.TurnMetrics(b, turn)
  {
  }

  /** An entry of the driver's metrics log: the scooter metrics of a turn, or
      the truck metric that follows them. */
  datatype Logged = ScooterLog(scooter: ScooterModel.ScooterMetrics) | TruckLog(truck: real)

  class Bounce {
    const scooters: SimulateScooters
    const trucks: SimulateTrucks
    const policy: TruckModel.Policy
    var metrics: seq<Logged>

    ghost predicate Valid()
      reads this, scooters, trucks
    {
      && scooters.Valid() && trucks.Valid()
      && SameStations(scooters.GetTopology(), trucks.GetLayout())
    }

    function State(): World
      reads this, scooters, trucks
    {
      World(scooters.Snapshot(), trucks.Snapshot())
    }

    /** Both fleets on the same stations; the trucks' start nodes and idle
        probabilities are the random draws of their construction. */
    constructor (officeNodes: seq<Node>, metroNode: Node, shortestPath: PathOracle,
                 startNodes: seq<Node>, idlePercent: seq<int>, scoreFunc: string)
      requires |officeNodes| == ScooterModel.OFFICE_NUM && |startNodes| == TruckModel.NUMBER
      requires |idlePercent| == ScooterModel.OFFICE_NUM
      requires forall k :: 0 <= k < |idlePercent| ==> 1 <= idlePercent[k] <= 30
      ensures Valid() && fresh(scooters) && fresh(trucks)
      ensures policy == PolicyOf(scoreFunc) && metrics == []
      ensures State() == World(ScooterModel.Initial(metroNode), TruckModel.Initial(startNodes))
    {
      scooters := new SimulateScooters(officeNodes, metroNode, shortestPath);
      trucks := new SimulateTrucks(officeNodes, metroNode, startNodes, idlePercent, shortestPath);
      policy := PolicyOf(scoreFunc);
      metrics := [];
    }

    /** Frame `turn` of the animation. */
    method UpdatePlot(turn: int, coin: ScooterModel.Coin, dest: ScooterModel.Destinations)
      requires Valid()
      modifies this, scooters, trucks
      ensures Valid()
      ensures State() == Frame(scooters.GetTopology(), trucks.GetLayout(), policy, old(State()), turn, coin, dest)
      ensures metrics == old(metrics) + [ScooterLog(ScooterModel.TurnMetrics(scooters.Snapshot(), turn)),
                                         TruckLog(TruckModel.TruckMetric(trucks.Snapshot()))]
    {
      ghost var w := State();
      var scooterMetrics := scooters.Turn(turn, coin, dest);
      ghost var s1 := scooters.Snapshot();
      var metric := MoveTrucks();
      MetricsReadCustomers(scooters.Snapshot(), s1, turn);
      metrics := metrics + [ScooterLog(scooterMetrics), TruckLog(metric)];
    }

    /** The trucks' part of the frame. */
    method MoveTrucks() returns (metric: real)
      requires Valid()
      modifies scooters, trucks
      ensures Valid()
      ensures State() == TruckPhase(trucks.GetLayout(), policy, old(scooters.Snapshot()), old(trucks.Snapshot()))
      ensures metric == TruckModel.TruckMetric(trucks.Snapshot())
    {
      trucks.CalculatePath(scooters.scootersOffice, policy);
      var metro, office, m := trucks.UpdateTruckPos(scooters.scootersMetro, scooters.scootersOffice);
      metric := m;
      scooters.scootersMetro := metro;
      scooters.scootersOffice := office;
    }
  }
}
