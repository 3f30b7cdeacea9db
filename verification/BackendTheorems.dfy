/** The promises of the backend, over every run. */
module BackendTheorems {
  import opened Packets
  import opened Streams
  import opened Writers
  import opened Subsequences
  import opened BackendRuns
  import opened BackendInvariants

  // ---------------------------------------------------------------- continuation discipline

  /** Exactly one continuation is outstanding until the RPC is deleted, Finish is called once, what is popped after a
      write is what was written, and nothing is pending on a deleted writer. */
  lemma ContinuationDiscipline(maximum: nat, capacity: nat, events: seq<Event>, s: Backend, id: RpcId)
    requires Reached(maximum, capacity, events, s) && id in s.rpcs
    ensures var r := s.rpcs[id];
            var w := r.writer;
            && !r.faulted
            && Continuations(r) == 1
            && |w.finishes| <= 1
            && (w.writes > 0 ==> w.queue != [] && w.onWire == Some(w.queue[0]))
            && (r.deleted ==> r.thread == None && w.writes == 0 && w.alarms == 0 && |w.finishes| == 1)
            && (w.finishes != [] ==> !w.subscribed)
  {
    ReachedInv(maximum, capacity, events, s);
    assert RpcInv(s.rpcs[id]);
  }

  /** Nothing a writer dequeues is lost: it is sent, in order, or still in a write queue that never outgrows 128. */
  lemma WriterLossless(maximum: nat, capacity: nat, events: seq<Event>, s: Backend, id: RpcId)
    requires Reached(maximum, capacity, events, s) && id in s.rpcs
    ensures var r := s.rpcs[id];
            r.taken == r.sent + r.writer.queue && |r.writer.queue| <= 128
    ensures At(s, id, Dequeuing) ==> s.rpcs[id].writer.queue == []
  {
    ReachedInv(maximum, capacity, events, s);
    assert RpcInv(s.rpcs[id]);
  }

  /** The k-th idle pump in a row, counted from 0, arms an alarm of min(10 * 2^k, 250) ms; a write resets the count. */
  lemma IdleBackOff(maximum: nat, capacity: nat, events: seq<Event>, s: Backend, id: RpcId)
    requires Reached(maximum, capacity, events, s) && id in s.rpcs
    ensures var r := s.rpcs[id];
            && (r.writer.alarms > 0 ==> r.idle > 0 && r.writer.armed == Min(10 * Pow2(r.idle - 1), 250))
            && r.writer.poll == Min(10 * Pow2(r.idle), 250)
  {
    ReachedInv(maximum, capacity, events, s);
    assert RpcInv(s.rpcs[id]);
  }

  // ---------------------------------------------------------------- registration

  /** Until the stop, the map lists exactly the writers between insertion and removal, each under its own address. */
  lemma RegistrationExact(maximum: nat, capacity: nat, events: seq<Event>, s: Backend)
    requires Reached(maximum, capacity, events, s) && s.running
    ensures forall a <- s.streams :: s.streams[a].owner in s.rpcs &&
              Registered(s.rpcs[s.streams[a].owner]) && s.rpcs[s.streams[a].owner].context == a
    ensures forall id <- s.rpcs :: Registered(s.rpcs[id]) ==>
              s.rpcs[id].context in s.streams && s.streams[s.rpcs[id].context].owner == id
    ensures forall id <- s.rpcs :: s.rpcs[id].writer.finishes != [] ==> !Registered(s.rpcs[id])
  {
    hide Registered, Timely, History, Conserved, IsSubseq;
    ReachedInv(maximum, capacity, events, s);
    assert forall a <- s.streams :: StreamInv(s, a);
    forall id | id in s.rpcs && Registered(s.rpcs[id])
      ensures s.rpcs[id].context in s.streams && s.streams[s.rpcs[id].context].owner == id
      ensures s.rpcs[id].writer.finishes == []
    {
      assert Home(s, id) && RpcInv(s.rpcs[id]) && Timely(s.running, s.rpcs[id]);
      LiveAndTimely(s.running, s.rpcs[id]);
    }
  }

  lemma LiveAndTimely(running: bool, r: Rpc)
    requires running && RpcInv(r) && Timely(running, r) && Registered(r)
    ensures !r.deleted && !r.late && r.writer.finishes == []
  {
  }

  /** No writer is ever handed packets of another's stream. */
  lemma NoForeignPackets(maximum: nat, capacity: nat, events: seq<Event>, s: Backend, id: RpcId)
    requires Reached(maximum, capacity, events, s) && At(s, id, Dequeuing)
    requires s.rpcs[id].context in s.streams
    ensures s.streams[s.rpcs[id].context].owner == id
  {
    ReachedInv(maximum, capacity, events, s);
    assert Home(s, id) && RpcInv(s.rpcs[id]) && Timely(s.running, s.rpcs[id]);
  }

  // ---------------------------------------------------------------- conservation

  /** Everything a subscriber ever gets is an order-preserving part of what was fanned out since it joined. */
  lemma SentInOrder(maximum: nat, capacity: nat, events: seq<Event>, s: Backend, id: RpcId)
    requires Reached(maximum, capacity, events, s) && id in s.rpcs
    ensures s.rpcs[id].joined <= |s.fanned|
    ensures IsSubseq(s.rpcs[id].sent, s.fanned[s.rpcs[id].joined..])
  {
    ReachedInv(maximum, capacity, events, s);
    assert History(s.fanned, s.rpcs[id]);
    PrefixSubseq(s.rpcs[id].sent, s.rpcs[id].writer.queue, s.fanned[s.rpcs[id].joined..]);
  }

  /** Per subscriber, while it is registered: sent, then in the write queue, then in the stream, in the order of the
      fan-out; what is missing is as many packets as its stream lost, and nothing is missing when it lost none. */
  lemma SubscriberConservation(maximum: nat, capacity: nat, events: seq<Event>, s: Backend, id: RpcId)
    requires Reached(maximum, capacity, events, s) && s.running && id in s.rpcs && Registered(s.rpcs[id])
    ensures var r := s.rpcs[id];
            && r.context in s.streams
            && var st := s.streams[r.context];
            var all := r.sent + r.writer.queue + st.queue;
            && r.joined <= |s.fanned|
            && IsSubseq(all, s.fanned[r.joined..])
            && |all| + st.lost == |s.fanned| - r.joined
            && |st.queue| <= capacity
            && (st.lost == 0 ==> all == s.fanned[r.joined..])
  {
    hide IsSubseq, Registered;
    ReachedInv(maximum, capacity, events, s);
    CapacityFixed(maximum, capacity, events, s);
    RegistrationExact(maximum, capacity, events, s);
    var r := s.rpcs[id];
    assert StreamInv(s, r.context);
    Shorter(r.sent + r.writer.queue + s.streams[r.context].queue, s.fanned[r.joined..]);
  }

  lemma {:induction false} CapacityFixed(maximum: nat, capacity: nat, events: seq<Event>, s: Backend)
    requires Reached(maximum, capacity, events, s)
    ensures s.capacity == capacity && s.maximum == maximum
  {
    if events != [] {
      var mid := After(Initial(maximum, capacity), events[..|events| - 1]).value;
      CapacityFixed(maximum, capacity, events[..|events| - 1], mid);
      ParametersKept(mid, events[|events| - 1]);
    }
  }

  lemma ParametersKept(s: Backend, e: Event)
    requires s.capacity >= 1 && Enabled(s, e)
    ensures Effect(s, e).capacity == s.capacity && Effect(s, e).maximum == s.maximum
  {
    hide Checked, Answered, LeftFlag, EndOfRpc;
  }

  ghost predicate StreamsNewest(s: Backend) {
    forall a <- s.streams :: IsSuffix(s.streams[a].queue, s.fanned)
  }

  /** Drop-oldest: whatever a stream lost, its queue is always the newest packets of the fan-out, in order. */
  lemma {:induction false} QueueIsNewest(maximum: nat, capacity: nat, events: seq<Event>, s: Backend)
    requires Reached(maximum, capacity, events, s)
    ensures forall a <- s.streams :: IsSuffix(s.streams[a].queue, s.fanned)
  {
    hide Enabled, Effect;
    if events != [] {
      var mid := After(Initial(maximum, capacity), events[..|events| - 1]).value;
      QueueIsNewest(maximum, capacity, events[..|events| - 1], mid);
      NewestStep(mid, events[|events| - 1]);
    }
  }

  lemma NewestStep(s: Backend, e: Event)
    requires s.capacity >= 1 && Enabled(s, e) && StreamsNewest(s)
    ensures StreamsNewest(Effect(s, e))
  {
    hide IsSuffix, Loaded, Continue, Checked, Answered, LeftFlag, EndOfRpc;
    var s' := Effect(s, e);
    forall a | a in s'.streams ensures IsSuffix(s'.streams[a].queue, s'.fanned) {
      if a in s.streams {
        var queue := s.streams[a].queue;
        SuffixShortened(queue, Min(MAXIMUM_WRITE_QUEUE_SIZE, |queue|), s.fanned);
        if e.FanOut? {
          SuffixShortened(queue, Overflow(s.capacity, queue), s.fanned);
          SuffixExtended(queue[Overflow(s.capacity, queue)..], s.fanned, e.packet);
        }
      } else {
        EmptySuffix(s.fanned);
      }
    }
  }

  lemma EmptySuffix(all: seq<Packet>)
    ensures IsSuffix([], all)
  {
  }

  // ---------------------------------------------------------------- admission

  /** Constructors that have not subscribed yet. */
  ghost function Building(s: Backend): set<RpcId> {
    set id | id in s.rpcs && BeforeInsertion(s.rpcs[id])
  }

  /** Constructors that found room and have not subscribed yet. */
  ghost function PastTheCheck(s: Backend): set<RpcId> {
    set id | id in s.rpcs && s.rpcs[id].thread in {Some(PastCheck), Some(Inserting)}
  }

  /** At no moment of the run are more than `bound` constructors between connecting and subscribing. */
  ghost predicate BuildingWithin(maximum: nat, capacity: nat, events: seq<Event>, bound: nat) {
    && After(Initial(maximum, capacity), events).Some?
    && |Building(After(Initial(maximum, capacity), events).value)| <= bound
    && (events != [] ==> BuildingWithin(maximum, capacity, events[..|events| - 1], bound))
  }

  lemma PastIsBuilding(s: Backend)
    ensures |PastTheCheck(s)| <= |Building(s)|
  {
    assert PastTheCheck(s) <= Building(s);
    SubsetSize(PastTheCheck(s), Building(s));
  }

  lemma {:induction false} SubsetSize<T>(a: set<T>, b: set<T>)
    requires a <= b
    ensures |a| <= |b|
  {
    if a != {} {
      var x :| x in a;
      SubsetSize(a - {x}, b - {x});
    }
  }

  /** Room taken: subscribers and constructors that will subscribe. */
  ghost function Taken(s: Backend): nat {
    |s.streams| + |PastTheCheck(s)|
  }

  /** Only the check itself lets the room taken grow, and only while there is room. */
  lemma TakenStep(s: Backend, e: Event)
    requires s.capacity >= 1 && Enabled(s, e)
    ensures Taken(Effect(s, e)) <= Taken(s) || (|Effect(s, e).streams| < s.maximum && e.CheckCapacity?)
  {
    hide Effect, Enabled, PastTheCheck;
    if e.CheckCapacity? {
      CheckTakesRoom(s, e);
    } else if e.Insert? {
      InsertTakesNoRoom(s, e);
    } else {
      StreamsOnlyLeave(s, e);
      OthersOnlyLeave(s, e);
    }
  }

  lemma CheckTakesRoom(s: Backend, e: Event)
    requires s.capacity >= 1 && Enabled(s, e) && e.CheckCapacity?
    ensures Taken(Effect(s, e)) <= Taken(s) || |Effect(s, e).streams| < s.maximum
  {
    if |s.streams| >= s.maximum {
      PastOnlyLeaves(s, Effect(s, e));
    }
  }

  lemma InsertTakesNoRoom(s: Backend, e: Event)
    requires s.capacity >= 1 && Enabled(s, e) && e.Insert?
    ensures Taken(Effect(s, e)) <= Taken(s)
  {
    var s' := Effect(s, e);
    assert PastTheCheck(s') == PastTheCheck(s) - {e.id};
    assert e.id in PastTheCheck(s);
    assert s'.streams.Keys <= s.streams.Keys + {s.rpcs[e.id].context};
    SubsetSize(s'.streams.Keys, s.streams.Keys + {s.rpcs[e.id].context});
    assert |s'.streams| == |s'.streams.Keys| && |s.streams| == |s.streams.Keys|;
    if e.fails {
      assert s'.streams == s.streams;
    }
  }

  lemma OthersOnlyLeave(s: Backend, e: Event)
    requires s.capacity >= 1 && Enabled(s, e) && !e.CheckCapacity? && !e.Insert?
    ensures |PastTheCheck(Effect(s, e))| <= |PastTheCheck(s)|
  {
    hide Effect, Enabled;
    forall id | id in PastTheCheck(Effect(s, e)) ensures id in PastTheCheck(s) {
      StaysPast(s, e, id);
    }
    PastOnlyLeaves(s, Effect(s, e));
  }

  /** Where a constructor past the check is after such an event, it was before. */
  lemma StaysPast(s: Backend, e: Event, id: RpcId)
    requires s.capacity >= 1 && Enabled(s, e) && !e.CheckCapacity? && !e.Insert?
    requires id in PastTheCheck(Effect(s, e))
    ensures id in PastTheCheck(s)
  {
    hide Loaded, Batch, AfterBatch, Fed, Continue;
  }

  lemma PastOnlyLeaves(s: Backend, s': Backend)
    requires PastTheCheck(s') <= PastTheCheck(s)
    ensures |PastTheCheck(s')| <= |PastTheCheck(s)|
  {
    SubsetSize(PastTheCheck(s'), PastTheCheck(s));
  }

  lemma StreamsOnlyLeave(s: Backend, e: Event)
    requires s.capacity >= 1 && Enabled(s, e) && !e.Insert?
    ensures |Effect(s, e).streams| <= |s.streams|
  {
    assert Effect(s, e).streams.Keys <= s.streams.Keys;
    SubsetSize(Effect(s, e).streams.Keys, s.streams.Keys);
    assert |s.streams| == |s.streams.Keys| && |Effect(s, e).streams| == |Effect(s, e).streams.Keys|;
  }

  /** With at most `bound` constructors at a time between connecting and subscribing, the race between check and
      subscription overshoots the limit by less than `bound`. */
  lemma {:induction false} AdmissionBound(maximum: nat, capacity: nat, events: seq<Event>, s: Backend, bound: nat)
    requires Reached(maximum, capacity, events, s) && maximum >= 1 && bound >= 1
    requires BuildingWithin(maximum, capacity, events, bound)
    ensures |s.streams| + |PastTheCheck(s)| <= maximum - 1 + bound
  {
    hide Enabled, Effect;
    if events == [] {
      assert PastTheCheck(s) == {};
    } else {
      var init := events[..|events| - 1];
      var mid := After(Initial(maximum, capacity), init).value;
      AdmissionBound(maximum, capacity, init, mid, bound);
      CapacityFixed(maximum, capacity, init, mid);
      TakenStep(mid, events[|events| - 1]);
      PastIsBuilding(s);
    }
  }
}
