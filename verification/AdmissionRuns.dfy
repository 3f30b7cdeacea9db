/** The limit on subscribers: checking it and subscribing are two steps, and the overshoot that constructors racing past
    the check can cause is attained. */
module AdmissionRuns {
  import opened Packets
  import opened BackendRuns
  import opened BackendInvariants
  import opened BackendTheorems

  // ---------------------------------------------------------------- runs, one event after the other

  /** A run so far, with its final state, that keeps within `bound` constructors. */
  ghost predicate Sofar(maximum: nat, capacity: nat, events: seq<Event>, s: Backend, bound: nat) {
    && Reached(maximum, capacity, events, s) && BuildingWithin(maximum, capacity, events, bound)
    && s.maximum == maximum && s.capacity == capacity
  }

  lemma Then(maximum: nat, capacity: nat, events: seq<Event>, s: Backend, e: Event, bound: nat)
    requires Sofar(maximum, capacity, events, s, bound) && Enabled(s, e) && |Building(Effect(s, e))| <= bound
    ensures Sofar(maximum, capacity, events + [e], Effect(s, e), bound)
  {
    hide Enabled, Effect, Building;
    assert (events + [e])[..|events|] == events;
    ParametersKept(s, e);
  }

  // ---------------------------------------------------------------- the crowd

  /** The map's keys are the numbers below `n`. */
  ghost predicate Numbered<T>(m: map<nat, T>, n: nat) {
    forall i: nat :: i in m <==> i < n
  }

  /** The i-th RPC, subscribed if `i` is below `k` and otherwise past the check and about to subscribe. */
  ghost predicate InPlace(r: Rpc, i: nat, k: nat) {
    !r.deleted && r.context == i && r.thread == Some(if i < k then Pumping else Inserting)
  }

  /** RPCs 0 to n - 1 have connected, each with its number as its address, and the first k of them have subscribed. */
  ghost predicate Crowd(s: Backend, n: nat, k: nat) {
    && k <= n && s.running
    && Numbered(s.rpcs, n) && Numbered(s.streams, k)
    && (forall i <- s.rpcs :: InPlace(s.rpcs[i], i, k))
  }

  /** A crowd and one more constructor, which is the n-th RPC. */
  ghost predicate Arriving(s: Backend, n: nat, k: nat, stage: Stage) {
    && k <= n && s.running
    && Numbered(s.rpcs, n + 1) && Numbered(s.streams, k)
    && (forall i <- s.rpcs :: i != n ==> InPlace(s.rpcs[i], i, k))
    && n in s.rpcs && !s.rpcs[n].deleted && s.rpcs[n].context == n && s.rpcs[n].thread == Some(stage)
  }

  function Below(n: nat): (b: set<nat>)
    ensures forall i: nat :: i in b <==> i < n
    ensures |b| == n
  {
    if n == 0 then {} else Below(n - 1) + {n - 1}
  }

  lemma BetweenSize(building: set<nat>, n: nat, k: nat)
    requires k <= n && forall i: nat :: i in building <==> k <= i < n
    ensures |building| == n - k
  {
    hide Below;
    assert building + Below(k) == Below(n);
    assert building !! Below(k);
  }

  lemma NumberedSize<T>(m: map<nat, T>, n: nat)
    requires Numbered(m, n)
    ensures |m| == n
  {
    hide Below;
    assert m.Keys == Below(n);
    assert |m| == |m.Keys|;
  }

  lemma BuildingOfCrowd(s: Backend, n: nat, k: nat)
    requires Crowd(s, n, k)
    ensures |Building(s)| == n - k && |s.streams| == k
  {
    forall i: nat ensures i in Building(s) <==> k <= i < n {
      assert i in s.rpcs ==> InPlace(s.rpcs[i], i, k);
    }
    BetweenSize(Building(s), n, k);
    NumberedSize(s.streams, k);
  }

  lemma BuildingOfArriving(s: Backend, n: nat, k: nat, stage: Stage)
    requires Arriving(s, n, k, stage) && stage in {Constructing, PastCheck, Inserting}
    ensures |Building(s)| == n + 1 - k && |s.streams| == k
  {
    forall i: nat ensures i in Building(s) <==> k <= i < n + 1 {
      assert i in s.rpcs && i != n ==> InPlace(s.rpcs[i], i, k);
    }
    BetweenSize(Building(s), n + 1, k);
    NumberedSize(s.streams, k);
  }

  lemma ConnectStep(s: Backend, n: nat, k: nat)
    requires Crowd(s, n, k) && s.capacity >= 1
    ensures Enabled(s, Connect(n, n)) && Arriving(Effect(s, Connect(n, n)), n, k, Constructing)
  {
    forall i | i in s.rpcs ensures s.rpcs[i].context != n {
      assert InPlace(s.rpcs[i], i, k);
    }
  }

  lemma CheckStep(s: Backend, n: nat, k: nat)
    requires Arriving(s, n, k, Constructing) && s.capacity >= 1 && k < s.maximum
    ensures Enabled(s, CheckCapacity(n)) && Arriving(Effect(s, CheckCapacity(n)), n, k, PastCheck)
  {
    NumberedSize(s.streams, k);
  }

  lemma FlagStep(s: Backend, n: nat, k: nat)
    requires Arriving(s, n, k, PastCheck) && s.capacity >= 1
    ensures Enabled(s, ReadFlag(n)) && Arriving(Effect(s, ReadFlag(n)), n, k, Inserting)
  {
  }

  lemma InsertStep(s: Backend, n: nat, k: nat)
    requires Crowd(s, n, k) && s.capacity >= 1 && k < n
    ensures Enabled(s, Insert(k, false)) && Crowd(Effect(s, Insert(k, false)), n, k + 1)
  {
    assert k in s.rpcs && InPlace(s.rpcs[k], k, k);
    assert k !in s.streams;
    var s' := Effect(s, Insert(k, false));
    forall i | i in s'.rpcs ensures InPlace(s'.rpcs[i], i, k + 1) {
      assert i != k ==> InPlace(s.rpcs[i], i, k);
    }
  }

  lemma ArrivedIsCrowd(s: Backend, n: nat, k: nat)
    requires Arriving(s, n, k, Inserting)
    ensures Crowd(s, n + 1, k)
  {
  }

  /** One more constructor passes the check, while there is room. */
  lemma Arrive(maximum: nat, capacity: nat, events: seq<Event>, s: Backend, n: nat, k: nat, bound: nat)
    returns (events': seq<Event>, s': Backend)
    requires Sofar(maximum, capacity, events, s, bound) && Crowd(s, n, k) && k < maximum && n + 1 - k <= bound
    ensures Sofar(maximum, capacity, events', s', bound) && Crowd(s', n + 1, k)
  {
    hide BuildingWithin, After, Effect, Enabled, Building, Arriving, Crowd;
    ConnectStep(s, n, k);
    var s1 := Effect(s, Connect(n, n));
    BuildingOfArriving(s1, n, k, Constructing);
    Then(maximum, capacity, events, s, Connect(n, n), bound);
    CheckStep(s1, n, k);
    var s2 := Effect(s1, CheckCapacity(n));
    BuildingOfArriving(s2, n, k, PastCheck);
    Then(maximum, capacity, events + [Connect(n, n)], s1, CheckCapacity(n), bound);
    FlagStep(s2, n, k);
    s' := Effect(s2, ReadFlag(n));
    BuildingOfArriving(s', n, k, Inserting);
    Then(maximum, capacity, events + [Connect(n, n)] + [CheckCapacity(n)], s2, ReadFlag(n), bound);
    events' := events + [Connect(n, n)] + [CheckCapacity(n)] + [ReadFlag(n)];
    ArrivedIsCrowd(s', n, k);
  }

  /** The first that has not subscribed does. */
  lemma Settle(maximum: nat, capacity: nat, events: seq<Event>, s: Backend, n: nat, k: nat, bound: nat)
    returns (events': seq<Event>, s': Backend)
    requires Sofar(maximum, capacity, events, s, bound) && Crowd(s, n, k) && k < n && n - k <= bound + 1
    ensures Sofar(maximum, capacity, events', s', bound) && Crowd(s', n, k + 1)
  {
    hide BuildingWithin, After, Effect, Enabled, Building, Crowd;
    InsertStep(s, n, k);
    s' := Effect(s, Insert(k, false));
    BuildingOfCrowd(s', n, k + 1);
    Then(maximum, capacity, events, s, Insert(k, false), bound);
    events' := events + [Insert(k, false)];
  }

  lemma NothingYet(maximum: nat, capacity: nat, bound: nat)
    requires capacity >= 1
    ensures Sofar(maximum, capacity, [], Initial(maximum, capacity), bound) && Crowd(Initial(maximum, capacity), 0, 0)
  {
    assert Building(Initial(maximum, capacity)) == {};
  }

  /** Constructors one at a time fill the manager up to `k` subscribers. */
  lemma {:induction false} OneByOne(maximum: nat, capacity: nat, k: nat, bound: nat)
    returns (events: seq<Event>, s: Backend)
    requires capacity >= 1 && k <= maximum && bound >= 1
    ensures Sofar(maximum, capacity, events, s, bound) && Crowd(s, k, k)
  {
    hide Sofar, Crowd;
    if k == 0 {
      events, s := [], Initial(maximum, capacity);
      NothingYet(maximum, capacity, bound);
    } else {
      events, s := OneByOne(maximum, capacity, k - 1, bound);
      events, s := Arrive(maximum, capacity, events, s, k - 1, k - 1, bound);
      events, s := Settle(maximum, capacity, events, s, k, k - 1, bound);
    }
  }

  /** Then `t` constructors pass the check before any of them subscribes. */
  lemma {:induction false} AllArrive(maximum: nat, capacity: nat, k: nat, t: nat, bound: nat)
    returns (events: seq<Event>, s: Backend)
    requires capacity >= 1 && k < maximum && t <= bound && bound >= 1
    ensures Sofar(maximum, capacity, events, s, bound) && Crowd(s, k + t, k)
  {
    hide Sofar, Crowd;
    if t == 0 {
      events, s := OneByOne(maximum, capacity, k, bound);
    } else {
      events, s := AllArrive(maximum, capacity, k, t - 1, bound);
      events, s := Arrive(maximum, capacity, events, s, k + t - 1, k, bound);
    }
  }

  /** Then they subscribe. */
  lemma {:induction false} AllSettle(maximum: nat, capacity: nat, k: nat, t: nat, bound: nat)
    returns (events: seq<Event>, s: Backend)
    requires capacity >= 1 && k < maximum && t <= bound && bound >= 1
    ensures Sofar(maximum, capacity, events, s, bound) && Crowd(s, k + bound, k + t)
  {
    hide Sofar, Crowd;
    if t == 0 {
      events, s := AllArrive(maximum, capacity, k, bound, bound);
    } else {
      events, s := AllSettle(maximum, capacity, k, t - 1, bound);
      events, s := Settle(maximum, capacity, events, s, k + bound, k + t - 1, bound);
    }
  }

  // ---------------------------------------------------------------- the limit

  /** For every limit and every number of racing constructors, the bound on admission is attained. */
  lemma RaceOvershoots(maximum: nat, capacity: nat, bound: nat) returns (events: seq<Event>, s: Backend)
    requires maximum >= 1 && capacity >= 1 && bound >= 1
    ensures Reached(maximum, capacity, events, s) && BuildingWithin(maximum, capacity, events, bound)
    ensures |s.streams| == maximum - 1 + bound
  {
    hide Crowd, Building, BuildingWithin, After;
    events, s := AllSettle(maximum, capacity, maximum - 1, bound, bound);
    BuildingOfCrowd(s, maximum - 1 + bound, maximum - 1 + bound);
  }

  /** Some run within `bound` constructors at a time ends with these many subscribers. */
  ghost predicate Attainable(maximum: nat, capacity: nat, bound: nat, subscribers: nat) {
    exists events, s ::
      Reached(maximum, capacity, events, s) && BuildingWithin(maximum, capacity, events, bound) &&
      |s.streams| == subscribers
  }

  /** max - 1 + T is the most subscribers that T constructors at a time can bring about. */
  lemma {:induction false} MostSubscribers(maximum: nat, capacity: nat, bound: nat)
    requires maximum >= 1 && capacity >= 1 && bound >= 1
    ensures Attainable(maximum, capacity, bound, maximum - 1 + bound)
    ensures forall subscribers: nat ::
              Attainable(maximum, capacity, bound, subscribers) ==> subscribers <= maximum - 1 + bound
  {
    hide Reached, BuildingWithin;
    var events, s := RaceOvershoots(maximum, capacity, bound);
    forall subscribers: nat | Attainable(maximum, capacity, bound, subscribers)
      ensures subscribers <= maximum - 1 + bound
    {
      var es, t :| Reached(maximum, capacity, es, t) && BuildingWithin(maximum, capacity, es, bound) &&
                   |t.streams| == subscribers;
      AdmissionBound(maximum, capacity, es, t, bound);
    }
  }

  /** The limit holds in every run exactly if constructors check and subscribe one at a time. */
  lemma {:induction false} LimitIffSerial(maximum: nat, capacity: nat, bound: nat)
    requires maximum >= 1 && capacity >= 1
    ensures (forall subscribers: nat :: Attainable(maximum, capacity, bound, subscribers) ==> subscribers <= maximum)
            <==> bound <= 1
  {
    hide Reached;
    if bound <= 1 {
      MostSubscribers(maximum, capacity, 1);
      forall subscribers: nat | Attainable(maximum, capacity, bound, subscribers) ensures subscribers <= maximum {
        var es, t :| Reached(maximum, capacity, es, t) && BuildingWithin(maximum, capacity, es, bound) &&
                     |t.streams| == subscribers;
        WithinMore(maximum, capacity, es, bound, 1);
        assert Attainable(maximum, capacity, 1, subscribers);
      }
    } else {
      MostSubscribers(maximum, capacity, bound);
    }
  }

  lemma {:induction false} WithinMore(maximum: nat, capacity: nat, events: seq<Event>, few: nat, many: nat)
    requires BuildingWithin(maximum, capacity, events, few) && few <= many
    ensures BuildingWithin(maximum, capacity, events, many)
  {
    if events != [] {
      WithinMore(maximum, capacity, events[..|events| - 1], few, many);
    }
  }
}
