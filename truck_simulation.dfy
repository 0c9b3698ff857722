/** The truck fleet as the object the driver updates every turn: the planning
    pass and the one-hop move are loops over the trucks, proved to produce what
    the folds of `TruckModel` describe. */
module TruckSimulation {
  import opened Network
  import opened Tally
  import ScooterModel
  import opened TruckModel

  class SimulateTrucks {
    const offices: seq<Node>
    const metro: Node
    const idleProb: seq<real>
    const shortestPath: PathOracle

    var truckPos: seq<Node>
    var truckCap: seq<int>
    /** Remaining route of every truck. */
    var nextSteps: seq<seq<Node>>
    var turnsWithoutVisit: seq<int>
    var scootersPicked: int
    var distTravelled: int

    function GetLayout(): Layout {
      Layout(metro, offices, idleProb, shortestPath)
    }

    function Snapshot(): TruckState
      reads this
    {
      TruckState(truckPos, truckCap, nextSteps, turnsWithoutVisit, scootersPicked, distTravelled)
    }

    ghost predicate Valid()
      reads this
    {
      ValidLayout(GetLayout()) && Shaped(Snapshot())
    }

    /** Trucks start empty and without routes on the given nodes (a random sample
        of the map); `idlePercent[k]` is the draw `randint(1, 30)` for office k. */
    constructor (officeNodes: seq<Node>, metroNode: Node, startNodes: seq<Node>, idlePercent: seq<int>, paths: PathOracle)
      requires |officeNodes| == ScooterModel.OFFICE_NUM && |startNodes| == NUMBER
      requires |idlePercent| == ScooterModel.OFFICE_NUM
      requires forall k :: 0 <= k < |idlePercent| ==> 1 <= idlePercent[k] <= 30
      ensures Valid()
      ensures offices == officeNodes && metro == metroNode && shortestPath == paths
      ensures forall k :: 0 <= k < ScooterModel.OFFICE_NUM ==> idleProb[k] == idlePercent[k] as real / 100.0
      ensures Snapshot() == Initial(startNodes)
    {
      offices := officeNodes;
      metro := metroNode;
      shortestPath := paths;
      idleProb := seq(|idlePercent|, k requires 0 <= k < |idlePercent| => idlePercent[k] as real / 100.0);
      truckPos := startNodes;
      truckCap := seq(NUMBER, _ => 0);
      nextSteps := seq(NUMBER, _ => []);
      turnsWithoutVisit := seq(ScooterModel.OFFICE_NUM, _ => 1);
      scootersPicked := 0;
      distTravelled := 0;
    }

    /** Routes every truck without one: a full truck to the metro, any other to
        the office the policy picks, reserving what it will take on a copy of
        the office inventories. */
    method CalculatePath(scooterQty: seq<int>, policy: Policy)
      requires Valid() && |scooterQty| == ScooterModel.OFFICE_NUM
      modifies this
      ensures Valid()
      ensures Snapshot() == old(Snapshot()).(nextSteps := TruckModel.CalculatePath(policy, GetLayout(), old(Snapshot()), scooterQty).nextSteps)
    {
      var st := Snapshot();
      var officeScooters := scooterQty;
      for truckId := 0 to NUMBER
        invariant Valid() && |officeScooters| == ScooterModel.OFFICE_NUM
        invariant Snapshot() == st.(nextSteps := nextSteps)
        invariant Plan(nextSteps, officeScooters) == PlanPrefix(policy, GetLayout(), st, scooterQty, truckId)
      {
        if nextSteps[truckId] == [] {
          if truckCap[truckId] == CAPACITY {
            var steps := shortestPath(truckPos[truckId], metro);
            assert IsPath(steps, truckPos[truckId], metro);
            nextSteps := nextSteps[truckId := steps[1..]];
          } else {
            var (score, officeId) := BestScore(policy, GetLayout(), st, truckPos[truckId], officeScooters);
            var take := Min(CAPACITY - truckCap[truckId], officeScooters[officeId]);
            if take == 0 {
              nextSteps := nextSteps[truckId := []];
            } else {
              officeScooters := officeScooters[officeId := officeScooters[officeId] - take];
              var path := shortestPath(truckPos[truckId], offices[officeId]);
              assert IsPath(path, truckPos[truckId], offices[officeId]);
              nextSteps := nextSteps[truckId := path[1..]];
            }
          }
        }
      }
    }

    /** Every truck with a route takes one step: at the metro it unloads, at an
        office it loads what fits; then every office ages by one turn. Returns
        the new metro and office inventories and the utilisation metric. */
    method UpdateTruckPos(metroScooters: int, officeScooters: seq<int>) returns (metroOut: int, officeOut: seq<int>, metric: real)
      requires Valid() && |officeScooters| == ScooterModel.OFFICE_NUM
      modifies this
      ensures Valid()
      ensures var y := TruckModel.UpdateTruckPos(GetLayout(), old(Snapshot()), metroScooters, officeScooters);
        Snapshot() == y.trucks && metroOut == y.metroScooters && officeOut == y.officeScooters
      ensures metric == TruckMetric(Snapshot())
    {
      ghost var y0 := FleetState(Snapshot(), metroScooters, officeScooters);
      metroOut, officeOut := metroScooters, officeScooters;
      for i := 0 to NUMBER
        invariant Valid() && |officeOut| == ScooterModel.OFFICE_NUM
        invariant FleetState(Snapshot(), metroOut, officeOut) == MovePrefix(GetLayout(), y0, i)
      {
        metroOut, officeOut := MoveOne(i, metroOut, officeOut);
      }
      var aged := turnsWithoutVisit;
      turnsWithoutVisit := seq(|aged|, k requires 0 <= k < |aged| => aged[k] + 1);
      metric := if distTravelled == 0 then 0.0 else scootersPicked as real / (NUMBER * distTravelled) as real;
    }

    /** The body of the move loop for truck i. */
    method MoveOne(i: nat, metroIn: int, officeIn: seq<int>) returns (metroOut: int, officeOut: seq<int>)
      requires Valid() && i < NUMBER && |officeIn| == ScooterModel.OFFICE_NUM
      modifies this
      ensures Valid()
      ensures FleetState(Snapshot(), metroOut, officeOut) == MoveTruck(GetLayout(), FleetState(old(Snapshot()), metroIn, officeIn), i)
    {
      metroOut, officeOut := metroIn, officeIn;
      var steps := nextSteps[i];
      if steps != [] {
        var step := steps[0];
        nextSteps := nextSteps[i := steps[1..]];
        distTravelled := distTravelled + 1;
        if step == metro {
          metroOut := metroOut + truckCap[i];
          truckCap := truckCap[i := 0];
          truckPos := truckPos[i := step];
          nextSteps := nextSteps[i := []];
        } else if step in offices {
          var officeId := OfficeIndex(offices, step);
          var take := Min(CAPACITY - truckCap[i], officeOut[officeId]);
          officeOut := officeOut[officeId := officeOut[officeId] - take];
          truckCap := truckCap[i := truckCap[i] + take];
          turnsWithoutVisit := turnsWithoutVisit[officeId := 0];
          scootersPicked := scootersPicked + take;
          truckPos := truckPos[i := step];
          nextSteps := nextSteps[i := []];
        } else {
          truckPos := truckPos[i := step];
        }
      }
    }
  }
}
