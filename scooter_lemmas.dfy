/** What one turn of the scooter simulation guarantees, proved about the folds of
    `ScooterModel`. */
module ScooterLemmas {
  import opened Network
  import opened Tally
  import opened ScooterModel

  // ---------------------------------------------------------------------
  // Replenishment: a parked scooter moves from an office counter to the metro
  // counter, so their total is unchanged.

  /** When the coin falls for scooter i on office j, office j loses one scooter,
      the metro gains one, and the scooter is at the metro with no ride. */
  lemma ReplenishAtMoves(s: ScooterState, t: Topology, coin: Coin, i: nat, pos: Node, j: nat)
    requires Shaped(s) && ValidTopology(t) && i < SCOOTERS_TOTAL && j < OFFICE_NUM
    requires pos == t.offices[j] && coin(i, j)
    ensures var r := ReplenishAt(s, t, coin, i, pos, j);
      && r.scootersOffice == s.scootersOffice[j := s.scootersOffice[j] - 1]
      && r.scootersMetro == s.scootersMetro + 1
      && r.scooters[i] == t.metro && r.scootersRide[i] == []
      && HubAndStations(r) == HubAndStations(s)
  {
    SumUpdate(s.scootersOffice, j, s.scootersOffice[j] - 1);
  }

  lemma ReplenishAtConserves(s: ScooterState, t: Topology, coin: Coin, i: nat, pos: Node, j: nat)
    requires Shaped(s) && ValidTopology(t) && i < SCOOTERS_TOTAL && j < OFFICE_NUM
    ensures HubAndStations(ReplenishAt(s, t, coin, i, pos, j)) == HubAndStations(s)
  {
    if pos == t.offices[j] && coin(i, j) {
      ReplenishAtMoves(s, t, coin, i, pos, j);
    }
  }

  lemma {:induction false} ReplenishScooterConserves(s: ScooterState, t: Topology, coin: Coin, i: nat, pos: Node, m: nat)
    requires Shaped(s) && ValidTopology(t) && i < SCOOTERS_TOTAL && m <= OFFICE_NUM
    ensures HubAndStations(ReplenishScooter(s, t, coin, i, pos, m)) == HubAndStations(s)
    decreases m
  {
    if m > 0 {
      ReplenishScooterConserves(s, t, coin, i, pos, m - 1);
      ReplenishAtConserves(ReplenishScooter(s, t, coin, i, pos, m - 1), t, coin, i, pos, m - 1);
    }
  }

  lemma {:induction false} ReplenishPrefixConserves(s: ScooterState, t: Topology, coin: Coin, n: nat)
    requires Shaped(s) && ValidTopology(t) && n <= SCOOTERS_TOTAL
    ensures HubAndStations(ReplenishPrefix(s, t, coin, n)) == HubAndStations(s)
    decreases n
  {
    if n > 0 {
      ReplenishPrefixConserves(s, t, coin, n - 1);
      var p := ReplenishPrefix(s, t, coin, n - 1);
      ReplenishScooterConserves(p, t, coin, n - 1, p.scooters[n - 1], OFFICE_NUM);
    }
  }

  /** The replenishment phase keeps `scootersMetro + Σ scootersOffice`. */
  lemma ReplenishConserves(s: ScooterState, t: Topology, coin: Coin)
    requires Shaped(s) && ValidTopology(t)
    ensures HubAndStations(Replenish(s, t, coin)) == HubAndStations(s)
  {
    ReplenishPrefixConserves(s, t, coin, SCOOTERS_TOTAL);
  }

  /** With no coin falling, the replenishment phase changes nothing. */
  lemma {:induction false} ReplenishPrefixIdle(s: ScooterState, t: Topology, coin: Coin, n: nat)
    requires Shaped(s) && ValidTopology(t) && n <= SCOOTERS_TOTAL
    requires forall i: nat, j: nat :: !coin(i, j)
    ensures ReplenishPrefix(s, t, coin, n) == s
    decreases n
  {
    if n > 0 {
      ReplenishPrefixIdle(s, t, coin, n - 1);
      ReplenishScooterIdle(s, t, coin, n - 1, s.scooters[n - 1], OFFICE_NUM);
    }
  }

  lemma {:induction false} ReplenishScooterIdle(s: ScooterState, t: Topology, coin: Coin, i: nat, pos: Node, m: nat)
    requires Shaped(s) && ValidTopology(t) && i < SCOOTERS_TOTAL && m <= OFFICE_NUM
    requires forall i: nat, j: nat :: !coin(i, j)
    ensures ReplenishScooter(s, t, coin, i, pos, m) == s
    decreases m
  {
    if m > 0 {
      ReplenishScooterIdle(s, t, coin, i, pos, m - 1);
    }
  }

  // ---------------------------------------------------------------------
  // Transit advance

  /** Landing on `next` adds one scooter to every office on that node and clears
      the ride of the scooter with the same index as that office. */
  lemma LandEffect(s: ScooterState, t: Topology, next: Node, m: nat)
    requires Shaped(s) && ValidTopology(t) && m <= OFFICE_NUM
    ensures var r := Land(s, t, next, m);
      && (forall k :: 0 <= k < OFFICE_NUM ==>
            r.scootersOffice[k] == s.scootersOffice[k] + (if k < m && t.offices[k] == next then 1 else 0))
      && (forall k :: 0 <= k < SCOOTERS_TOTAL ==>
            r.scootersRide[k] == (if k < m && t.offices[k] == next then [] else s.scootersRide[k]))
  {
    LandOffices(s, t, next, m);
    LandRides(s, t, next, m);
  }

  lemma {:induction false} LandOffices(s: ScooterState, t: Topology, next: Node, m: nat)
    requires Shaped(s) && ValidTopology(t) && m <= OFFICE_NUM
    ensures forall k :: 0 <= k < OFFICE_NUM ==>
      Land(s, t, next, m).scootersOffice[k] == s.scootersOffice[k] + (if k < m && t.offices[k] == next then 1 else 0)
    decreases m
  {
    if m > 0 {
      LandOffices(s, t, next, m - 1);
      var p, r := Land(s, t, next, m - 1), Land(s, t, next, m);
      if t.offices[m - 1] == next {
        assert r.scootersOffice == p.scootersOffice[m - 1 := p.scootersOffice[m - 1] + 1];
      } else {
        assert r == p;
      }
    }
  }

  lemma {:induction false} LandRides(s: ScooterState, t: Topology, next: Node, m: nat)
    requires Shaped(s) && ValidTopology(t) && m <= OFFICE_NUM
    ensures forall k :: 0 <= k < SCOOTERS_TOTAL ==>
      Land(s, t, next, m).scootersRide[k] == (if k < m && t.offices[k] == next then [] else s.scootersRide[k])
    decreases m
  {
    if m > 0 {
      LandRides(s, t, next, m - 1);
      var p, r := Land(s, t, next, m - 1), Land(s, t, next, m);
      if t.offices[m - 1] == next {
        assert r.scootersRide == p.scootersRide[m - 1 := []];
      } else {
        assert r == p;
      }
    }
  }

  /** A scooter with a ride moves to the ride's next node and its ride loses
      exactly that node. Only when the ride ends do office counters and (through
      the index mix-up) other scooters' rides change. */
  lemma AdvanceOneEffect(s: ScooterState, t: Topology, i: nat)
    requires Shaped(s) && ValidTopology(t) && i < SCOOTERS_TOTAL
    requires s.scootersRide[i] != []
    ensures var r := AdvanceOne(s, t, i); var ride := s.scootersRide[i]; var ends := |ride| == 1;
      && r.scooters == s.scooters[i := ride[0]]
      && r.scootersRide[i] == ride[1..]
      && (forall k :: 0 <= k < SCOOTERS_TOTAL && k != i ==>
            r.scootersRide[k] == (if ends && k < OFFICE_NUM && t.offices[k] == ride[0] then [] else s.scootersRide[k]))
      && (forall k :: 0 <= k < OFFICE_NUM ==>
            r.scootersOffice[k] == s.scootersOffice[k] + (if ends && t.offices[k] == ride[0] then 1 else 0))
  {
    var ride := s.scootersRide[i];
    var p := s.(scootersRide := s.scootersRide[i := ride[1..]]);
    LandEffect(p, t, ride[0], OFFICE_NUM);
  }

  /** After the transit loop has reached index n: the state of scooter k, which
      the loop has processed (k < n) or not yet (k >= n). */
  ghost predicate Advanced(r: ScooterState, s: ScooterState, n: nat)
    requires Shaped(r) && Shaped(s)
  {
    && (forall k :: 0 <= k < OFFICE_NUM ==> r.scootersOffice[k] >= s.scootersOffice[k])
    && forall k :: 0 <= k < SCOOTERS_TOTAL ==>
      if k < n then
        && (s.scootersRide[k] == [] ==> r.scootersRide[k] == [] && r.scooters[k] == s.scooters[k])
        && (s.scootersRide[k] != [] ==> r.scootersRide[k] == [] || r.scootersRide[k] == s.scootersRide[k][1..])
        && (s.scootersRide[k] != [] ==> r.scooters[k] == s.scooters[k] || r.scooters[k] == s.scootersRide[k][0])
        && (k >= OFFICE_NUM && s.scootersRide[k] != [] ==>
              r.scootersRide[k] == s.scootersRide[k][1..] && r.scooters[k] == s.scootersRide[k][0])
      else
        && r.scooters[k] == s.scooters[k]
        && (r.scootersRide[k] == s.scootersRide[k] || r.scootersRide[k] == [])
        && (k >= OFFICE_NUM ==> r.scootersRide[k] == s.scootersRide[k])
  }

  lemma {:induction false} AdvancePrefixEffect(s: ScooterState, t: Topology, n: nat)
    requires Shaped(s) && ValidTopology(t) && n <= SCOOTERS_TOTAL
    ensures Advanced(AdvancePrefix(s, t, n), s, n)
    decreases n
  {
    if n > 0 {
      AdvancePrefixEffect(s, t, n - 1);
      var p := AdvancePrefix(s, t, n - 1);
      AdvancedStep(s, t, p, n - 1);
    }
  }

  lemma AdvancedStep(s: ScooterState, t: Topology, p: ScooterState, i: nat)
    requires Shaped(s) && Shaped(p) && ValidTopology(t) && i < SCOOTERS_TOTAL
    requires Advanced(p, s, i)
    ensures Advanced(AdvanceOne(p, t, i), s, i + 1)
  {
    var r := AdvanceOne(p, t, i);
    if p.scootersRide[i] != [] {
      AdvanceOneEffect(p, t, i);
      forall k | 0 <= k < SCOOTERS_TOTAL && k != i
        ensures r.scooters[k] == p.scooters[k]
        ensures r.scootersRide[k] == [] || r.scootersRide[k] == p.scootersRide[k]
        ensures k >= OFFICE_NUM ==> r.scootersRide[k] == p.scootersRide[k]
      {
      }
    }
  }

  /** After scooters 0 .. n-1 have advanced, no office count has fallen, and
      each has risen by at most the number of those scooters that were riding
      when the phase began: a landing adds one to an office, and only a ride
      that was still pending at its scooter's iteration can land. */
  lemma {:induction false} AdvancePrefixOffices(s: ScooterState, t: Topology, n: nat)
    requires Shaped(s) && ValidTopology(t) && n <= SCOOTERS_TOTAL
    ensures forall k :: 0 <= k < OFFICE_NUM ==>
      s.scootersOffice[k] <= AdvancePrefix(s, t, n).scootersOffice[k]
                          <= s.scootersOffice[k] + n - CountEmpty(s.scootersRide[..n])
    decreases n
  {
    if n > 0 {
      AdvancePrefixOffices(s, t, n - 1);
      AdvancePrefixEffect(s, t, n - 1);
      CountEmptySnoc(s.scootersRide, n - 1);
      var p := AdvancePrefix(s, t, n - 1);
      assert AdvancePrefix(s, t, n) == AdvanceOne(p, t, n - 1);
      if p.scootersRide[n - 1] != [] {
        assert s.scootersRide[n - 1] != [];
        AdvanceOneEffect(p, t, n - 1);
      }
    }
  }

  /** The transit phase: a scooter with no ride stays where it is without a ride;
      every other ride is either shortened by exactly one node or ended, and its
      scooter either stands on the first node of its ride or, when a landing
      cleared the ride before its turn, where it stood; scooters whose index is
      not an office index (so the clearing by office index on a landing cannot
      reach them) have their ride shortened by exactly one node and stand on the
      popped node; each office count rises by at most the number of riding
      scooters, and the metro counter is unchanged. */
  lemma AdvanceEffect(s: ScooterState, t: Topology)
    requires Shaped(s) && ValidTopology(t)
    ensures var r := Advance(s, t);
      && r.scootersMetro == s.scootersMetro
      && (forall k :: 0 <= k < OFFICE_NUM ==>
            s.scootersOffice[k] <= r.scootersOffice[k]
                                <= s.scootersOffice[k] + SCOOTERS_TOTAL - CountEmpty(s.scootersRide))
      && (forall k :: 0 <= k < SCOOTERS_TOTAL && s.scootersRide[k] == [] ==>
            r.scootersRide[k] == [] && r.scooters[k] == s.scooters[k])
      && (forall k :: 0 <= k < SCOOTERS_TOTAL && s.scootersRide[k] != [] ==>
            && (r.scootersRide[k] == [] || r.scootersRide[k] == s.scootersRide[k][1..])
            && (r.scooters[k] == s.scooters[k] || r.scooters[k] == s.scootersRide[k][0]))
      && (forall k :: OFFICE_NUM <= k < SCOOTERS_TOTAL && s.scootersRide[k] != [] ==>
            r.scootersRide[k] == s.scootersRide[k][1..] && r.scooters[k] == s.scootersRide[k][0])
  {
    AdvancePrefixEffect(s, t, SCOOTERS_TOTAL);
    AdvancePrefixOffices(s, t, SCOOTERS_TOTAL);
    assert s.scootersRide[..SCOOTERS_TOTAL] == s.scootersRide;
  }

  // ---------------------------------------------------------------------
  // Queue service

  /** Requests in `q` that expire exactly at `turn` (those the service drops). */
  function CountExpired(q: seq<int>, turn: int): (n: nat)
    ensures n <= |q|
  {
    if q == [] then 0 else (if q[0] == turn then 1 else 0) + CountExpired(q[1..], turn)
  }

  /** Waiting time added by the requests in `q` that are served at `turn`. */
  function Waited(q: seq<int>, turn: int): int {
    if q == [] then 0 else (if q[0] == turn then 0 else WAITING_TIME + turn - q[0]) + Waited(q[1..], turn)
  }

  /** Serving one customer: the lowest-indexed scooter without a ride, if there is
      one, gets the route to the drawn office minus its first node, and no other
      ride changes; the counters move whether or not such a scooter exists. */
  lemma ServeOneAssigns(s: ScooterState, t: Topology, office: OfficeId, turn: int)
    requires Shaped(s) && ValidTopology(t) && s.que != []
    ensures var r := ServeOne(s, t, office, turn); var j := FirstIdle(s.scootersRide);
      && (forall k :: 0 <= k < SCOOTERS_TOTAL && k != j ==> r.scootersRide[k] == s.scootersRide[k])
      && (j < SCOOTERS_TOTAL ==> s.scootersRide[j] == [] && r.scootersRide[j] == t.officePaths[office][1..])
      && (forall k :: 0 <= k < j ==> s.scootersRide[k] != [])
      && r.scootersMetro == s.scootersMetro - 1 && r.customersServed == s.customersServed + 1
      && r.totalWaitingTime == s.totalWaitingTime + WAITING_TIME + turn - s.que[0]
  {
  }

  /** The service loop pops a prefix of the queue. Each popped request is counted
      exactly once: dropped when it expires at `turn`, served otherwise; each
      served request takes one scooter from the metro and adds its waiting time.
      The loop ends with an empty queue or with an empty metro and a front request
      that does not expire now. */
  lemma ServeQueueEffect(s: ScooterState, t: Topology, turn: int, dest: Destinations, k: nat)
    requires Shaped(s) && ValidTopology(t)
    ensures var r := ServeQueue(s, t, turn, dest, k); var n := |s.que| - |r.que|;
      && 0 <= n
      && r.que == s.que[n..]
      && r.customersDropped == s.customersDropped + CountExpired(s.que[..n], turn)
      && r.customersServed == s.customersServed + (n - CountExpired(s.que[..n], turn))
      && r.scootersMetro == s.scootersMetro - (n - CountExpired(s.que[..n], turn))
      && r.totalWaitingTime == s.totalWaitingTime + Waited(s.que[..n], turn)
      && (r.que == [] || (r.scootersMetro == 0 && r.que[0] != turn))
      && r.scooters == s.scooters && r.scootersOffice == s.scootersOffice
      && r.underUtilization == s.underUtilization
  {
    ServeQueueRest(s, t, turn, dest, k);
    ServeQueueCounts(s, t, turn, dest, k);
  }

  /** What is left of the queue is a suffix; the loop's exit condition; the scooter
      side other than rides and the metro counter is untouched. */
  lemma {:induction false} ServeQueueRest(s: ScooterState, t: Topology, turn: int, dest: Destinations, k: nat)
    requires Shaped(s) && ValidTopology(t)
    ensures var r := ServeQueue(s, t, turn, dest, k);
      && |r.que| <= |s.que|
      && r.que == s.que[|s.que| - |r.que|..]
      && (r.que == [] || (r.scootersMetro == 0 && r.que[0] != turn))
      && r.scooters == s.scooters && r.scootersOffice == s.scootersOffice
      && r.underUtilization == s.underUtilization
    decreases |s.que|
  {
    var r := ServeQueue(s, t, turn, dest, k);
    if s.que == [] {
    } else if s.que[0] == turn {
      var s' := s.(que := s.que[1..], customersDropped := s.customersDropped + 1);
      ServeQueueRest(s', t, turn, dest, k);
      assert s.que[|s.que| - |r.que|..] == s'.que[|s'.que| - |r.que|..];
    } else if s.scootersMetro != 0 {
      var s' := ServeOne(s, t, dest(k), turn);
      ServeQueueRest(s', t, turn, dest, k + 1);
      assert s.que[|s.que| - |r.que|..] == s'.que[|s'.que| - |r.que|..];
    }
  }

  /** The counters: drops are the expired popped requests, the rest are served. */
  lemma {:induction false} ServeQueueCounts(s: ScooterState, t: Topology, turn: int, dest: Destinations, k: nat)
    requires Shaped(s) && ValidTopology(t)
    ensures var r := ServeQueue(s, t, turn, dest, k); var n := |s.que| - |r.que|;
      && 0 <= n
      && r.customersDropped == s.customersDropped + CountExpired(s.que[..n], turn)
      && r.customersServed == s.customersServed + (n - CountExpired(s.que[..n], turn))
      && r.scootersMetro == s.scootersMetro - (n - CountExpired(s.que[..n], turn))
      && r.totalWaitingTime == s.totalWaitingTime + Waited(s.que[..n], turn)
    decreases |s.que|
  {
    var r := ServeQueue(s, t, turn, dest, k);
    if s.que == [] {
    } else if s.que[0] == turn {
      var s' := s.(que := s.que[1..], customersDropped := s.customersDropped + 1);
      assert r == ServeQueue(s', t, turn, dest, k);
      ServeQueueCounts(s', t, turn, dest, k);
      var n' := |s'.que| - |r.que|;
      PoppedFront(s.que, n', turn);
      assert |s.que| - |r.que| == n' + 1;
    } else if s.scootersMetro != 0 {
      var s' := ServeOne(s, t, dest(k), turn);
      assert r == ServeQueue(s', t, turn, dest, k + 1);
      ServeQueueCounts(s', t, turn, dest, k + 1);
      var n' := |s'.que| - |r.que|;
      PoppedFront(s.que, n', turn);
      assert |s.que| - |r.que| == n' + 1;
    } else {
      assert s.que[..0] == [];
    }
  }

  /** Popping the front request and then n more. */
  lemma PoppedFront(q: seq<int>, n: nat, turn: int)
    requires q != [] && n < |q|
    ensures CountExpired(q[..n + 1], turn) == (if q[0] == turn then 1 else 0) + CountExpired(q[1..][..n], turn)
    ensures Waited(q[..n + 1], turn) == (if q[0] == turn then 0 else WAITING_TIME + turn - q[0]) + Waited(q[1..][..n], turn)
  {
    assert q[..n + 1][1..] == q[1..][..n];
  }

  /** With a non-negative metro counter, service never takes it below zero, and
      the number served is exactly what left the metro. */
  lemma {:induction false} ServeQueueMetro(s: ScooterState, t: Topology, turn: int, dest: Destinations, k: nat)
    requires Shaped(s) && ValidTopology(t)
    requires s.scootersMetro >= 0
    ensures var r := ServeQueue(s, t, turn, dest, k);
      && 0 <= r.scootersMetro <= s.scootersMetro
      && r.customersServed - s.customersServed == s.scootersMetro - r.scootersMetro
    decreases |s.que|
  {
    if s.que != [] {
      if s.que[0] == turn {
        ServeQueueMetro(s.(que := s.que[1..], customersDropped := s.customersDropped + 1), t, turn, dest, k);
      } else if s.scootersMetro != 0 {
        ServeQueueMetro(ServeOne(s, t, dest(k), turn), t, turn, dest, k + 1);
      }
    }
  }

  /** No double assignment: a scooter that is riding when service starts keeps
      its ride untouched through the whole service loop. */
  lemma {:induction false} ServeQueueKeepsRides(s: ScooterState, t: Topology, turn: int, dest: Destinations, k: nat)
    requires Shaped(s) && ValidTopology(t)
    ensures var r := ServeQueue(s, t, turn, dest, k);
      forall m :: 0 <= m < SCOOTERS_TOTAL && s.scootersRide[m] != [] ==> r.scootersRide[m] == s.scootersRide[m]
    decreases |s.que|
  {
    if s.que != [] {
      if s.que[0] == turn {
        ServeQueueKeepsRides(s.(que := s.que[1..], customersDropped := s.customersDropped + 1), t, turn, dest, k);
      } else if s.scootersMetro != 0 {
        var s' := ServeOne(s, t, dest(k), turn);
        ServeOneAssigns(s, t, dest(k), turn);
        ServeQueueKeepsRides(s', t, turn, dest, k + 1);
      }
    }
  }

  // ---------------------------------------------------------------------
  // The whole turn

  /** The queue as it stands at the start of turn `turn` when the driver calls
      the turns 0, 1, 2, ...: non-decreasing, and every expiry in
      [turn, turn + WAITING_TIME - 1]. */
  ghost predicate QueueReady(q: seq<int>, turn: int) {
    && (forall a, b :: 0 <= a < b < |q| ==> q[a] <= q[b])
    && (forall a :: 0 <= a < |q| ==> turn <= q[a] < turn + WAITING_TIME)
  }

  /** The state after the first three phases of a turn. */
  function Served(s: ScooterState, t: Topology, turn: int, coin: Coin, dest: Destinations): (r: ScooterState)
    requires Shaped(s) && ValidTopology(t)
    ensures Shaped(r)
  {
    ServeQueue(Advance(Replenish(s, t, coin), t), t, turn, dest, 0)
  }

  /** Every request popped during a turn is either dropped or served, and the turn
      adds IN_RATE requests: `served + dropped + |que|` grows by exactly IN_RATE. */
  lemma TurnAccountsArrivals(s: ScooterState, t: Topology, turn: int, coin: Coin, dest: Destinations)
    requires Shaped(s) && ValidTopology(t)
    ensures Accounted(Turn(s, t, turn, coin, dest)) == Accounted(s) + IN_RATE
  {
    var a := Advance(Replenish(s, t, coin), t);
    ServeQueueEffect(a, t, turn, dest, 0);
  }

  /** Queue order across turns: if the queue is ready for `turn`, then after the
      service every remaining request expires after `turn`, and after the whole
      turn the queue is ready for `turn + 1`. */
  lemma TurnKeepsQueueReady(s: ScooterState, t: Topology, turn: int, coin: Coin, dest: Destinations)
    requires Shaped(s) && ValidTopology(t)
    requires QueueReady(s.que, turn)
    ensures forall a :: 0 <= a < |Served(s, t, turn, coin, dest).que| ==> Served(s, t, turn, coin, dest).que[a] > turn
    ensures QueueReady(Turn(s, t, turn, coin, dest).que, turn + 1)
  {
    var a := Advance(Replenish(s, t, coin), t);
    ServeQueueEffect(a, t, turn, dest, 0);
    var n := |a.que| - |ServeQueue(a, t, turn, dest, 0).que|;
    SuffixReady(a.que, n, turn);
    ReadyAfterService(a.que[n..], turn);
  }

  lemma SuffixReady(q: seq<int>, n: nat, turn: int)
    requires QueueReady(q, turn) && n <= |q|
    ensures QueueReady(q[n..], turn)
  {
    var q' := q[n..];
    forall a, b | 0 <= a < b < |q'| ensures q'[a] <= q'[b] {
      assert q'[a] == q[n + a] && q'[b] == q[n + b];
    }
  }

  /** A ready queue whose front does not expire now expires entirely after `turn`;
      with this turn's arrivals appended it is ready for the next turn. */
  lemma ReadyAfterService(q: seq<int>, turn: int)
    requires QueueReady(q, turn)
    requires q == [] || q[0] != turn
    ensures forall a :: 0 <= a < |q| ==> q[a] > turn
    ensures QueueReady(q + Arrivals(turn), turn + 1)
  {
    forall a | 0 <= a < |q| ensures q[a] > turn {
      assert q[0] <= q[a];
    }
    var q' := q + Arrivals(turn);
    forall a, b | 0 <= a < b < |q'| ensures q'[a] <= q'[b] {
      if b < |q| {
        assert q'[a] == q[a] && q'[b] == q[b];
      } else if a < |q| {
        assert q'[a] == q[a] && q'[b] == turn + WAITING_TIME;
      } else {
        assert q'[a] == turn + WAITING_TIME && q'[b] == turn + WAITING_TIME;
      }
    }
    forall a | 0 <= a < |q'| ensures turn + 1 <= q'[a] < turn + 1 + WAITING_TIME {
      if a < |q| { assert q'[a] == q[a]; } else { assert q'[a] == turn + WAITING_TIME; }
    }
  }

  /** Drops happen only at the expiry turn, so under the queue order every served
      customer has waited between 1 and WAITING_TIME - 1 turns. */
  lemma {:induction false} WaitedBounds(q: seq<int>, turn: int)
    requires forall a :: 0 <= a < |q| ==> turn <= q[a] < turn + WAITING_TIME
    ensures (|q| - CountExpired(q, turn)) <= Waited(q, turn) <= (WAITING_TIME - 1) * (|q| - CountExpired(q, turn))
  {
    if q != [] {
      WaitedBounds(q[1..], turn);
    }
  }

  lemma TurnWaitBounds(s: ScooterState, t: Topology, turn: int, coin: Coin, dest: Destinations)
    requires Shaped(s) && ValidTopology(t)
    requires QueueReady(s.que, turn)
    ensures var r := Turn(s, t, turn, coin, dest); var served := r.customersServed - s.customersServed;
      && served >= 0
      && s.totalWaitingTime + served <= r.totalWaitingTime <= s.totalWaitingTime + (WAITING_TIME - 1) * served
  {
    var a := Advance(Replenish(s, t, coin), t);
    ServeQueueEffect(a, t, turn, dest, 0);
    var n := |a.que| - |ServeQueue(a, t, turn, dest, 0).que|;
    WaitedBounds(a.que[..n], turn);
  }

  /** The metro counter never goes negative in a turn's scooter phases. */
  lemma TurnMetroNonNegative(s: ScooterState, t: Topology, turn: int, coin: Coin, dest: Destinations)
    requires Shaped(s) && ValidTopology(t)
    requires s.scootersMetro >= 0
    ensures Turn(s, t, turn, coin, dest).scootersMetro >= 0
  {
    var p := Replenish(s, t, coin);
    ReplenishMetroGrows(s, t, coin, SCOOTERS_TOTAL);
    ServeQueueMetro(Advance(p, t), t, turn, dest, 0);
  }

  lemma {:induction false} ReplenishMetroGrows(s: ScooterState, t: Topology, coin: Coin, n: nat)
    requires Shaped(s) && ValidTopology(t) && n <= SCOOTERS_TOTAL
    ensures ReplenishPrefix(s, t, coin, n).scootersMetro >= s.scootersMetro
    decreases n
  {
    if n > 0 {
      ReplenishMetroGrows(s, t, coin, n - 1);
      var p := ReplenishPrefix(s, t, coin, n - 1);
      ReplenishScooterMetroGrows(p, t, coin, n - 1, p.scooters[n - 1], OFFICE_NUM);
    }
  }

  lemma {:induction false} ReplenishScooterMetroGrows(s: ScooterState, t: Topology, coin: Coin, i: nat, pos: Node, m: nat)
    requires Shaped(s) && ValidTopology(t) && i < SCOOTERS_TOTAL && m <= OFFICE_NUM
    ensures ReplenishScooter(s, t, coin, i, pos, m).scootersMetro >= s.scootersMetro
    decreases m
  {
    if m > 0 {
      ReplenishScooterMetroGrows(s, t, coin, i, pos, m - 1);
    }
  }

  /** The idle counter grows by the number of ride-less scooters, at most
      SCOOTERS_TOTAL per turn. */
  lemma TurnIdleIncrement(s: ScooterState, t: Topology, turn: int, coin: Coin, dest: Destinations)
    requires Shaped(s) && ValidTopology(t)
    ensures var r := Turn(s, t, turn, coin, dest);
      && r.underUtilization == s.underUtilization + CountEmpty(r.scootersRide)
      && s.underUtilization <= r.underUtilization <= s.underUtilization + SCOOTERS_TOTAL
  {
    var a := Advance(Replenish(s, t, coin), t);
    ServeQueueEffect(a, t, turn, dest, 0);
  }

  /** Cold start: a turn 0 that begins with no customers logs (0, 0, 0). */
  lemma ColdStartMetrics(s: ScooterState, t: Topology, coin: Coin, dest: Destinations)
    requires Shaped(s) && ValidTopology(t)
    requires s.que == [] && s.customersServed == 0 && s.customersDropped == 0
    ensures TurnMetrics(Turn(s, t, 0, coin, dest), 0) == ScooterMetrics(0.0, 0, 0.0)
  {
    var a := Advance(Replenish(s, t, coin), t);
    assert ServeQueue(a, t, 0, dest, 0) == a;
  }

  /** A starved metro: requests that expire next turn are not dropped this turn
      (the front request does not expire and no scooter is at the metro), and none
      is served; they are dropped in the turn equal to their expiry. */
  lemma StarvedHubWaits(s: ScooterState, t: Topology, turn: int, coin: Coin, dest: Destinations)
    requires Shaped(s) && ValidTopology(t)
    requires s.scootersMetro == 0 && forall i: nat, j: nat :: !coin(i, j)
    requires s.que != [] && s.que[0] == turn + 1
    ensures var r := Turn(s, t, turn, coin, dest);
      r.customersDropped == s.customersDropped && r.customersServed == s.customersServed
  {
    NoCoinTurn(s, t, turn, coin, dest);
    var a := Advance(s, t);
    assert SameCustomers(a, s) && a.scootersMetro == 0;
    assert ServeQueue(a, t, turn, dest, 0) == a;
    var r := AccountIdle(AddArrivals(a, turn));
    assert r.customersDropped == s.customersDropped && r.customersServed == s.customersServed;
  }

  /** With no coin falling, a turn starts directly with the transit phase. */
  lemma NoCoinTurn(s: ScooterState, t: Topology, turn: int, coin: Coin, dest: Destinations)
    requires Shaped(s) && ValidTopology(t)
    requires forall i: nat, j: nat :: !coin(i, j)
    ensures Turn(s, t, turn, coin, dest) == AccountIdle(AddArrivals(ServeQueue(Advance(s, t), t, turn, dest, 0), turn))
  {
    ReplenishIdle(s, t, coin);
  }

  /** With no coin falling, the replenishment changes nothing. */
  lemma ReplenishIdle(s: ScooterState, t: Topology, coin: Coin)
    requires Shaped(s) && ValidTopology(t)
    requires forall i: nat, j: nat :: !coin(i, j)
    ensures Replenish(s, t, coin) == s
  {
    ReplenishPrefixIdle(s, t, coin, SCOOTERS_TOTAL);
  }

  lemma {:induction false} DropAllExpired(s: ScooterState, t: Topology, turn: int, dest: Destinations, k: nat, e: nat)
    requires Shaped(s) && ValidTopology(t)
    requires s.scootersMetro == 0 && e <= |s.que|
    requires forall a :: 0 <= a < e ==> s.que[a] == turn
    requires e < |s.que| ==> s.que[e] != turn
    ensures ServeQueue(s, t, turn, dest, k).customersDropped == s.customersDropped + e
    ensures ServeQueue(s, t, turn, dest, k).que == s.que[e..]
    decreases e
  {
    if e > 0 {
      var s' := s.(que := s.que[1..], customersDropped := s.customersDropped + 1);
      DropAllExpired(s', t, turn, dest, k, e - 1);
      assert s.que[1..][e - 1..] == s.que[e..];
    }
  }
}
