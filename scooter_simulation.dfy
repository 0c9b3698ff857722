/** The scooter fleet as the object the driver updates every turn. Each phase of
    a turn is a loop over the fields, proved to leave the object in the state the
    corresponding fold of `ScooterModel` describes. */
module ScooterSimulation {
  import opened Network
  import opened Tally
  import opened ScooterModel

  class SimulateScooters {
    const metro: Node
    const offices: seq<Node>
    const officePaths: seq<seq<Node>>

    /** Expiry turns of the waiting customers, front first. */
    var que: seq<int>
    var customersServed: int
    var customersDropped: int
    var totalWaitingTime: int
    /** Current node of every scooter. */
    var scooters: seq<Node>
    /** Remaining route of every scooter. */
    var scootersRide: seq<seq<Node>>
    var scootersMetro: int
    var scootersOffice: seq<int>
    var underUtilization: int

    function GetTopology(): Topology {
      Topology(metro, offices, officePaths)
    }

    function Snapshot(): ScooterState
      reads this
    {
      ScooterState(que, customersServed, customersDropped, totalWaitingTime,
        scooters, scootersRide, scootersMetro, scootersOffice, underUtilization)
    }

    ghost predicate Valid()
      reads this
    {
      ValidTopology(GetTopology()) && Shaped(Snapshot())
    }

    /** Every scooter starts at the metro; the metro-to-office routes are computed once. */
    constructor (officeNodes: seq<Node>, metroNode: Node, shortestPath: PathOracle)
      requires |officeNodes| == OFFICE_NUM
      ensures Valid()
      ensures metro == metroNode && offices == officeNodes
      ensures forall k :: 0 <= k < OFFICE_NUM ==> officePaths[k] == shortestPath(metroNode, officeNodes[k])
      ensures Snapshot() == Initial(metroNode)
    {
      metro := metroNode;
      offices := officeNodes;
      officePaths := seq(|officeNodes|, k requires 0 <= k < |officeNodes| => shortestPath(metroNode, officeNodes[k]));
      que := [];
      customersServed, customersDropped, totalWaitingTime := 0, 0, 0;
      scooters := seq(SCOOTERS_TOTAL, _ => metroNode);
      scootersRide := seq(SCOOTERS_TOTAL, _ => []);
      scootersMetro := SCOOTERS_TOTAL;
      scootersOffice := seq(OFFICE_NUM, _ => 0);
      underUtilization := 0;
    }

    /** Parked scooters randomly return to the metro. */
    method Replenish(coin: Coin)
      requires Valid()
      modifies this
      ensures Valid()
      ensures Snapshot() == ScooterModel.Replenish(old(Snapshot()), GetTopology(), coin)
    {
      ghost var s0 := Snapshot();
      var i := 0;
      while i < |scooters|
        invariant 0 <= i <= SCOOTERS_TOTAL
        invariant Valid()
        invariant Snapshot() == ReplenishPrefix(s0, GetTopology(), coin, i)
      {
        ReplenishOne(coin, i);
        i := i + 1;
      }
      assert i == SCOOTERS_TOTAL;
    }

    /** The inner loop of the replenishment: scooter i against every office. */
    method ReplenishOne(coin: Coin, i: nat)
      requires Valid() && i < SCOOTERS_TOTAL
      modifies this
      ensures Valid()
      ensures Snapshot() == ReplenishNext(old(Snapshot()), GetTopology(), coin, i)
    {
      ghost var start := Snapshot();
      var pos := scooters[i];
      var j := 0;
      while j < |offices|
        invariant 0 <= j <= OFFICE_NUM
        invariant Valid()
        invariant Snapshot() == ReplenishScooter(start, GetTopology(), coin, i, pos, j)
      {
        ghost var before := Snapshot();
        if pos == offices[j] && coin(i, j) {
          scootersOffice := scootersOffice[j := scootersOffice[j] - 1];
          scooters := scooters[i := metro];
          scootersRide := scootersRide[i := []];
          scootersMetro := scootersMetro + 1;
        }
        assert Snapshot() == ReplenishAt(before, GetTopology(), coin, i, pos, j);
        j := j + 1;
      }
    }

    /** Every ridden scooter moves one node; a ride that ends lands at the office
        on that node. */
    method AdvanceRides()
      requires Valid()
      modifies this
      ensures Valid()
      ensures Snapshot() == Advance(old(Snapshot()), GetTopology())
    {
      ghost var s0 := Snapshot();
      var i := 0;
      while i < |scootersRide|
        invariant 0 <= i <= SCOOTERS_TOTAL
        invariant Valid()
        invariant Snapshot() == AdvancePrefix(s0, GetTopology(), i)
      {
        AdvanceScooter(i);
        i := i + 1;
      }
      assert i == SCOOTERS_TOTAL;
    }

    /** The body of the transit loop for scooter i. */
    method AdvanceScooter(i: nat)
      requires Valid() && i < SCOOTERS_TOTAL
      modifies this
      ensures Valid()
      ensures Snapshot() == AdvanceOne(old(Snapshot()), GetTopology(), i)
    {
      var ride := scootersRide[i];
      if ride != [] {
        var nextPos := ride[0];
        ride := ride[1..];
        scootersRide := scootersRide[i := ride];
        ghost var popped := Snapshot();
        if ride == [] {
          var j := 0;
          while j < |offices|
            invariant 0 <= j <= OFFICE_NUM
            invariant Valid()
            invariant Snapshot() == Land(popped, GetTopology(), nextPos, j)
          {
            if offices[j] == nextPos {
              scootersOffice := scootersOffice[j := scootersOffice[j] + 1];
              scootersRide := scootersRide[j := []];
            }
            j := j + 1;
          }
        }
        scooters := scooters[i := nextPos];
      }
    }

    /** Waiting customers are dropped when they expire this turn, or served while
        the metro has scooters. */
    method ServeCustomers(turn: int, dest: Destinations)
      requires Valid()
      modifies this
      ensures Valid()
      ensures Snapshot() == ServeQueue(old(Snapshot()), GetTopology(), turn, dest, 0)
    {
      var k: nat := 0;
      while que != []
        invariant Valid()
        invariant ServeQueue(Snapshot(), GetTopology(), turn, dest, k) == ServeQueue(old(Snapshot()), GetTopology(), turn, dest, 0)
        decreases |que|
      {
        if que[0] == turn {
          que := que[1..];
          customersDropped := customersDropped + 1;
        } else {
          if scootersMetro != 0 {
            ServeFront(turn, dest(k));
            k := k + 1;
          } else {
            break;
          }
        }
      }
    }

    /** The body of the service loop when the front customer is served: the
        first ride-less scooter, if any, gets the route to `office`. */
    method ServeFront(turn: int, office: OfficeId)
      requires Valid() && que != []
      modifies this
      ensures Valid()
      ensures Snapshot() == ServeOne(old(Snapshot()), GetTopology(), office, turn)
    {
      var rides := scootersRide;
      var j := 0;
      while j < |rides|
        invariant 0 <= j <= SCOOTERS_TOTAL
        invariant forall m :: 0 <= m < j ==> rides[m] != []
      {
        if rides[j] == [] {
          break;
        }
        j := j + 1;
      }
      FirstIdleUnique(rides, j);
      if j < |scootersRide| {
        scootersRide := scootersRide[j := officePaths[office][1..]];
      }
      var dropTurn := que[0];
      que := que[1..];
      scootersMetro := scootersMetro - 1;
      customersServed := customersServed + 1;
      totalWaitingTime := totalWaitingTime + WAITING_TIME + turn - dropTurn;
    }

    /** IN_RATE new customers join the queue. */
    method AddCustomers(turn: int)
      requires Valid()
      modifies this
      ensures Valid()
      ensures Snapshot() == AddArrivals(old(Snapshot()), turn)
    {
      for i := 0 to IN_RATE
        invariant Valid()
        invariant Snapshot() == old(Snapshot()).(que := old(que) + seq(i, _ => turn + WAITING_TIME))
      {
        que := que + [turn + WAITING_TIME];
      }
    }

    /** Every scooter without a ride adds one idle scooter-turn. */
    method AddUnderUtilization()
      requires Valid()
      modifies this
      ensures Valid()
      ensures Snapshot() == AccountIdle(old(Snapshot()))
    {
      for i := 0 to |scootersRide|
        invariant Valid()
        invariant Snapshot() == old(Snapshot()).(underUtilization := old(underUtilization) + CountEmpty(scootersRide[..i]))
      {
        CountEmptySnoc(scootersRide, i);
        if scootersRide[i] == [] {
          underUtilization := underUtilization + 1;
        }
      }
      assert scootersRide[..|scootersRide|] == scootersRide;
    }

    /** One turn: replenishment, transit, queue service, arrivals, idle accounting,
        and the metrics of the turn. */
    method Turn(turn: int, coin: Coin, dest: Destinations) returns (metrics: ScooterMetrics)
      requires Valid()
      modifies this
      ensures Valid()
      ensures Snapshot() == ScooterModel.Turn(old(Snapshot()), GetTopology(), turn, coin, dest)
      ensures metrics == TurnMetrics(Snapshot(), turn)
    {
      Replenish(coin);
      AdvanceRides();
      ServeCustomers(turn, dest);
      AddCustomers(turn);
      AddUnderUtilization();
      var avgWait := if customersServed == 0 then 0.0 else totalWaitingTime as real / customersServed as real;
      var ratio := if turn == 0 then 0.0 else underUtilization as real / (SCOOTERS_TOTAL * turn) as real;
      metrics := ScooterMetrics(avgWait, customersDropped, ratio);
    }
  }

  /** The first ride-less index found by a scan is the one `FirstIdle` names. */
  lemma FirstIdleUnique(rides: seq<seq<Node>>, j: nat)
    requires j <= |rides|
    requires forall m :: 0 <= m < j ==> rides[m] != []
    requires j < |rides| ==> rides[j] == []
    ensures j == FirstIdle(rides)
  {
  }
}
