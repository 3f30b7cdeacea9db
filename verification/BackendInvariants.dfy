/** What holds in every reachable state of the backend: one continuation per writer, a map that lists exactly the
    registered writers, and a history of every packet a subscriber was given, sent or lost. */
module BackendInvariants {
  import opened Packets
  import opened Streams
  import opened Writers
  import opened Subsequences
  import opened BackendRuns

  // ---------------------------------------------------------------- the invariant

  /** Between insertion into the manager's map and removal from it. */
  ghost predicate Registered(r: Rpc) {
    !r.deleted && (r.writer.subscribed || IsErasing(r))
  }

  /** An RPC that connected after the stop never gets as far as the manager's lock. */
  ghost predicate Timely(running: bool, r: Rpc) {
    r.late ==> !running && r.thread != Some(Inserting) && r.thread != Some(Dequeuing) && !IsErasing(r)
  }

  /** What an RPC has sent or still holds is an order-preserving part of what was fanned out since it joined. */
  ghost predicate History(fanned: seq<Packet>, r: Rpc) {
    r.joined <= |fanned| && IsSubseq(r.sent + r.writer.queue, fanned[r.joined..])
  }

  /** The stream under an RPC's address is its own; while the manager runs, a registered RPC has one. */
  ghost predicate Home(s: Backend, id: RpcId)
    requires id in s.rpcs
  {
    var r := s.rpcs[id];
    && (!r.deleted && !r.late && r.context in s.streams ==> s.streams[r.context].owner == id)
    && (s.running && Registered(r) ==> r.context in s.streams)
  }

  /** Conservation for the subscriber of one stream: sent, then on the way, then queued; the gaps are the losses. */
  ghost predicate Conserved(fanned: seq<Packet>, o: Rpc, st: Stream) {
    && o.joined <= |fanned|
    && IsSubseq(o.sent + o.writer.queue + st.queue, fanned[o.joined..])
    && |fanned| - o.joined == |o.sent| + |o.writer.queue| + |st.queue| + st.lost
  }

  ghost predicate OwnedBy(running: bool, o: Rpc, a: Address) {
    o.context == a && !o.late && !BeforeInsertion(o) && (running ==> Registered(o))
  }

  ghost predicate StreamInv(s: Backend, a: Address)
    requires a in s.streams
  {
    var st := s.streams[a];
    && |st.queue| <= s.capacity
    && st.owner in s.rpcs
    && OwnedBy(s.running, s.rpcs[st.owner], a)
    && Conserved(s.fanned, s.rpcs[st.owner], st)
  }

  ghost predicate RpcsInv(s: Backend) {
    forall id <- s.rpcs :: RpcInv(s.rpcs[id]) && Timely(s.running, s.rpcs[id]) && History(s.fanned, s.rpcs[id])
  }

  ghost predicate DistinctContexts(s: Backend) {
    forall i, j | i in s.rpcs && j in s.rpcs && i != j ::
      s.rpcs[i].deleted || s.rpcs[j].deleted || s.rpcs[i].context != s.rpcs[j].context
  }

  ghost predicate Homes(s: Backend) {
    forall id <- s.rpcs :: Home(s, id)
  }

  ghost predicate StreamsInv(s: Backend) {
    forall a <- s.streams :: StreamInv(s, a)
  }

  ghost predicate Inv(s: Backend) {
    s.capacity >= 1 && RpcsInv(s) && DistinctContexts(s) && Homes(s) && StreamsInv(s)
  }

  // ---------------------------------------------------------------- steps of one writer

  /** What a step inside one writer leaves alone. */
  ghost predicate Local(running: bool, r: Rpc, r': Rpc) {
    && r'.context == r.context && r'.late == r.late && r'.joined == r.joined
    && r'.sent + r'.writer.queue == r.sent + r.writer.queue
    && |r'.sent| + |r'.writer.queue| == |r.sent| + |r.writer.queue|
    && (r.deleted ==> r'.deleted)
    && (!BeforeInsertion(r) ==> !BeforeInsertion(r'))
    && (running ==> (Registered(r') <==> Registered(r)))
  }

  lemma LocalStep(s: Backend, id: RpcId, r': Rpc)
    requires Inv(s) && id in s.rpcs
    requires RpcInv(r') && Timely(s.running, r') && Local(s.running, s.rpcs[id], r')
    ensures Inv(Put(s, id, r'))
  {
    hide RpcInv, Registered, BeforeInsertion, IsSubseq, IsErasing;
    var s' := Put(s, id, r');
    assert RpcsInv(s');
    assert DistinctContexts(s');
    forall i | i in s'.rpcs ensures Home(s', i) {
      assert Home(s, i);
    }
    forall a | a in s'.streams ensures StreamInv(s', a) {
      assert StreamInv(s, a);
    }
  }

  /** The events that only move one writer on. */
  ghost predicate IsLocal(e: Event) {
    || e.Refuse? || e.CheckCapacity? || e.ReadFlag? || e.PumpCheck? || e.WriteDone? || e.AlarmFires?
    || e.LeaveFlag? || e.CallFinish?
  }

  /** A step inside one writer keeps what it must. */
  ghost predicate Moves(running: bool, r: Rpc, r': Rpc) {
    RpcInv(r') && Timely(running, r') && Local(running, r, r')
  }

  lemma LocalEvent(s: Backend, e: Event)
    requires Inv(s) && Enabled(s, e) && IsLocal(e)
    ensures Inv(Effect(s, e))
  {
    hide Moves, Local, RpcInv, Timely;
    var r := s.rpcs[e.id];
    var r' := Effect(s, e).rpcs[e.id];
    assert RpcInv(r) && Timely(s.running, r);
    LocalMove(s, e, r, r');
    MovedLocally(s, e.id, r');
    assert Effect(s, e) == Put(s, e.id, r');
  }

  lemma MovedLocally(s: Backend, id: RpcId, r': Rpc)
    requires Inv(s) && id in s.rpcs && Moves(s.running, s.rpcs[id], r')
    ensures Inv(Put(s, id, r'))
  {
    hide Inv, Local, RpcInv, Timely;
    LocalStep(s, id, r');
  }

  lemma LocalMove(s: Backend, e: Event, r: Rpc, r': Rpc)
    requires s.capacity >= 1 && Enabled(s, e) && IsLocal(e)
    requires r == s.rpcs[e.id] && r' == Effect(s, e).rpcs[e.id]
    requires RpcInv(r) && Timely(s.running, r)
    ensures Moves(s.running, r, r')
  {
    hide Moves, RpcInv, Timely, Checked, Answered, LeftFlag;
    match e
    case Refuse(_) => RefusedMove(s.running, r, Unauthenticated);
    case CheckCapacity(_) =>
      RefusedMove(s.running, r, ResourceExhausted);
      PastCheckMove(s.running, r);
    case ReadFlag(_) => ReadFlagMove(s.running, r);
    case PumpCheck(_, stop) => CheckedMove(s, r, stop);
    case WriteDone(_, ok, cancelled) => AnsweredMove(s.running, r, ok, cancelled);
    case AlarmFires(_) => AlarmMove(s.running, r);
    case LeaveFlag(_) => LeftFlagMove(s, r, r.thread.value.status);
    case CallFinish(_) => FinishMove(s.running, r);
  }

  lemma RefusedMove(running: bool, r: Rpc, status: Status)
    requires RpcInv(r) && Timely(running, r) && r.thread == Some(Constructing)
    ensures Moves(running, r, Finish(r, status))
  {
  }

  lemma PastCheckMove(running: bool, r: Rpc)
    requires RpcInv(r) && Timely(running, r) && r.thread == Some(Constructing)
    ensures Moves(running, r, r.(thread := Some(PastCheck)))
  {
  }

  lemma ReadFlagMove(running: bool, r: Rpc)
    requires RpcInv(r) && Timely(running, r) && r.thread == Some(PastCheck)
    ensures Moves(running, r, if running then r.(thread := Some(Inserting))
                              else r.(thread := Some(Pumping), writer := r.writer.(subscribed := true)))
  {
  }

  lemma CheckedMove(s: Backend, r: Rpc, stop: Option<Status>)
    requires RpcInv(r) && Timely(s.running, r) && r.thread == Some(Pumping)
    ensures Moves(s.running, r, Checked(s, r, stop))
  {
    hide Wait;
    assert r.(thread := Some(Pumping)) == r;
    ResumeInv(r);
  }

  lemma AnsweredMove(running: bool, r: Rpc, ok: bool, cancelled: bool)
    requires RpcInv(r) && Timely(running, r) && r.writer.writes > 0
    ensures Moves(running, r, Answered(r, ok, cancelled))
  {
    AnsweredInv(r, ok, cancelled);
  }

  lemma AlarmMove(running: bool, r: Rpc)
    requires RpcInv(r) && Timely(running, r) && r.writer.alarms > 0
    ensures Moves(running, r, Enter(r, Pumping).(writer := r.writer.(alarms := r.writer.alarms - 1)))
  {
    hide Wait;
  }

  lemma LeftFlagMove(s: Backend, r: Rpc, status: Status)
    requires RpcInv(r) && Timely(s.running, r) && r.thread == Some(FinishingUp(status))
    ensures Moves(s.running, r, LeftFlag(s, r, status))
  {
    hide Wait;
  }

  lemma FinishMove(running: bool, r: Rpc)
    requires RpcInv(r) && Timely(running, r) && IsLeaving(r)
    ensures Moves(running, r, Finish(r, r.thread.value.status))
  {
    hide Wait;
  }

  /** OnDone finds the writer unsubscribed: its own attempt to leave the manager never does anything. */
  lemma DoneEvent(s: Backend, e: Event)
    requires Inv(s) && Enabled(s, e) && e.Done?
    ensures Inv(Effect(s, e)) && Effect(s, e).streams == s.streams
  {
    hide Moves, Local, RpcInv, Timely;
    var r := s.rpcs[e.id];
    assert RpcInv(r) && Timely(s.running, r);
    EndOfRpcMove(s.running, r);
    MovedLocally(s, e.id, EndOfRpc(r));
    assert Effect(s, e) == Put(s, e.id, EndOfRpc(r));
  }

  lemma EndOfRpcMove(running: bool, r: Rpc)
    requires RpcInv(r) && Timely(running, r) && r.writer.finishes != [] && !r.deleted
    ensures Moves(running, r, EndOfRpc(r)) && !r.writer.subscribed
  {
    hide Wait;
    EndOfRpcInv(r);
  }

  // ---------------------------------------------------------------- coming and going

  lemma ConnectEvent(s: Backend, e: Event)
    requires Inv(s) && Enabled(s, e) && e.Connect?
    ensures Inv(Effect(s, e))
  {
    var r := Effect(s, e).rpcs[e.id];
    NewRpc(s, r, e.context);
    NewRpcHome(s, e, r);
    Joined(s, e.id, r, s.streams);
  }

  /** A new or a changed RPC and new streams, when everything else still fits. */
  lemma Joined(s: Backend, id: RpcId, r: Rpc, streams: map<Address, Stream>)
    requires Inv(s)
    requires RpcInv(r) && Timely(s.running, r) && History(s.fanned, r)
    requires forall i <- s.rpcs :: i == id || s.rpcs[i].deleted || r.deleted || s.rpcs[i].context != r.context
    requires var s' := Put(s, id, r).(streams := streams);
             && Home(s', id)
             && (forall i <- s.rpcs :: i != id ==> Home(s', i))
             && (forall a <- streams :: StreamInv(s', a))
    ensures Inv(Put(s, id, r).(streams := streams))
  {
    hide RpcInv, Timely, History, Home, StreamInv;
    var s' := Put(s, id, r).(streams := streams);
    assert RpcsInv(s');
    assert DistinctContexts(s');
    assert Homes(s');
  }

  /** The two maps differ at most at one address. */
  ghost predicate SameElsewhere(before: map<Address, Stream>, after: map<Address, Stream>, context: Address) {
    forall a: Address :: a != context ==>
      (a in after <==> a in before) && (a in before && a in after ==> after[a] == before[a])
  }

  /** An RPC and the stream under its address change together; everyone else keeps home and stream. */
  lemma Changed(s: Backend, id: RpcId, r: Rpc, streams: map<Address, Stream>)
    requires Inv(s) && id in s.rpcs && !s.rpcs[id].deleted && r.context == s.rpcs[id].context
    requires SameElsewhere(s.streams, streams, r.context)
    requires RpcInv(r) && Timely(s.running, r) && History(s.fanned, r)
    requires var s' := Put(s, id, r).(streams := streams);
             Home(s', id) && (r.context in streams ==> StreamInv(s', r.context))
    ensures Inv(Put(s, id, r).(streams := streams))
  {
    hide RpcInv, Timely, History, Conserved, Registered, BeforeInsertion, IsErasing;
    var s' := Put(s, id, r).(streams := streams);
    OthersHome(s, id, r, streams);
    forall a | a in streams ensures StreamInv(s', a) {
      if a != r.context {
        assert StreamInv(s, a);
      }
    }
    Joined(s, id, r, streams);
  }

  lemma OthersHome(s: Backend, id: RpcId, r: Rpc, streams: map<Address, Stream>)
    requires Inv(s) && id in s.rpcs && !s.rpcs[id].deleted && r.context == s.rpcs[id].context
    requires SameElsewhere(s.streams, streams, r.context)
    ensures forall i <- s.rpcs :: i != id ==> Home(Put(s, id, r).(streams := streams), i)
  {
    hide RpcInv, Timely, History, StreamInv, Registered;
    var s' := Put(s, id, r).(streams := streams);
    forall i | i in s.rpcs && i != id ensures Home(s', i) {
      assert Home(s, i);
      RegisteredLive(s.rpcs[i]);
    }
  }

  lemma RegisteredLive(r: Rpc)
    ensures Registered(r) ==> !r.deleted
  {
  }

  lemma NewRpc(s: Backend, r: Rpc, context: Address)
    requires r == Rpc(context, NEW_WRITER, Some(Constructing), false, false, !s.running, |s.fanned|, [], [], 0)
    ensures RpcInv(r) && Timely(s.running, r) && History(s.fanned, r) && !Registered(r)
  {
  }

  lemma NewRpcHome(s: Backend, e: Event, r: Rpc)
    requires Inv(s) && Enabled(s, e) && e.Connect? && r == Effect(s, e).rpcs[e.id] && !Registered(r)
    ensures Home(Effect(s, e), e.id)
  {
    hide RpcInv, BeforeInsertion, IsSubseq, IsErasing, History, Conserved;
    if e.context in s.streams {
      assert StreamInv(s, e.context);
    }
  }

  lemma InsertEvent(s: Backend, e: Event)
    requires Inv(s) && Enabled(s, e) && e.Insert? && !e.fails
    ensures Inv(Effect(s, e)) && s.rpcs[e.id].context !in s.streams
  {
    hide RpcInv, Registered, IsSubseq, Timely, History, Conserved;
    var r := s.rpcs[e.id];
    var r' := Effect(s, e).rpcs[e.id];
    assert RpcInv(r) && Timely(s.running, r);
    InsertedFresh(s, e.id);
    InsertedRpc(s, r, r');
    InsertedStream(s.fanned, r', Stream(e.id, [], 0));
    Changed(s, e.id, r', s.streams[r.context := Stream(e.id, [], 0)]);
  }

  /** Nobody's stream is under the address of a writer about to insert its own. */
  lemma InsertedFresh(s: Backend, id: RpcId)
    requires Inv(s) && At(s, id, Inserting)
    ensures s.rpcs[id].context !in s.streams && !s.rpcs[id].deleted && !s.rpcs[id].late
  {
    hide IsSubseq, History, Conserved;
    var r := s.rpcs[id];
    assert RpcInv(r) && Timely(s.running, r) && Home(s, id);
    assert r.context in s.streams ==> StreamInv(s, r.context);
  }

  lemma InsertedRpc(s: Backend, r: Rpc, r': Rpc)
    requires RpcInv(r) && Timely(s.running, r) && r.thread == Some(Inserting) && !r.late
    requires r' == r.(thread := Some(Pumping), writer := r.writer.(subscribed := true), joined := |s.fanned|)
    ensures RpcInv(r') && Timely(s.running, r') && History(s.fanned, r') && !BeforeInsertion(r') && Registered(r')
    ensures r'.sent == [] && r'.writer.queue == []
  {
    hide Wait;
  }

  lemma InsertedStream(fanned: seq<Packet>, o: Rpc, st: Stream)
    requires o.joined == |fanned| && o.sent == [] && o.writer.queue == [] && st.queue == [] && st.lost == 0
    ensures Conserved(fanned, o, st)
  {
  }

  lemma EraseEvent(s: Backend, e: Event)
    requires Inv(s) && Enabled(s, e) && e.Erase?
    ensures Inv(Effect(s, e))
  {
    hide RpcInv, Registered, IsSubseq, Timely, History, Conserved;
    var r := s.rpcs[e.id];
    var r' := Effect(s, e).rpcs[e.id];
    assert RpcInv(r) && Timely(s.running, r) && History(s.fanned, r);
    ErasedRpc(s, r, r');
    Changed(s, e.id, r', s.streams - {r.context});
  }

  lemma ErasedRpc(s: Backend, r: Rpc, r': Rpc)
    requires RpcInv(r) && Timely(s.running, r) && History(s.fanned, r) && IsErasing(r)
    requires r' == r.(thread := Some(Leaving(r.thread.value.status)))
    ensures RpcInv(r') && Timely(s.running, r') && History(s.fanned, r') && !BeforeInsertion(r')
    ensures !Registered(r') && !r.deleted && !r.late
  {
    hide Wait;
  }

  // ---------------------------------------------------------------- dequeuing

  lemma DequeueEvent(s: Backend, e: Event)
    requires Inv(s) && Enabled(s, e) && e.Dequeue?
    ensures Inv(Effect(s, e))
    ensures s.rpcs[e.id].context in s.streams ==> s.streams[s.rpcs[e.id].context].owner == e.id
  {
    hide RpcInv, Registered, IsSubseq, Timely, History, Conserved, Resume, Loaded, Batch, AfterBatch;
    var r := s.rpcs[e.id];
    var r' := Effect(s, e).rpcs[e.id];
    assert RpcInv(r) && Timely(s.running, r) && History(s.fanned, r) && Home(s, e.id);
    AtDequeuing(s.running, r);
    if r.context in s.streams {
      var st := s.streams[r.context];
      assert StreamInv(s, r.context);
      DequeuedRpc(s, r, st, r');
      var st' := st.(queue := AfterBatch(st.queue, MAXIMUM_WRITE_QUEUE_SIZE));
      BatchShortens(s.capacity, st.queue);
      Changed(s, e.id, r', s.streams[r.context := st']);
    } else {
      EmptyHandedMove(s.running, r);
      MovedLocally(s, e.id, r');
    }
  }

  lemma AtDequeuing(running: bool, r: Rpc)
    requires RpcInv(r) && Timely(running, r) && r.thread == Some(Dequeuing)
    ensures !r.deleted && !r.late && !BeforeInsertion(r) && r.writer.queue == []
  {
  }

  lemma BatchShortens(capacity: nat, queue: seq<Packet>)
    requires |queue| <= capacity
    ensures |AfterBatch(queue, MAXIMUM_WRITE_QUEUE_SIZE)| <= capacity
  {
  }

  lemma EmptyHandedMove(running: bool, r: Rpc)
    requires RpcInv(r) && Timely(running, r) && r.thread == Some(Dequeuing)
    ensures Moves(running, r, Resume(r))
  {
    hide Wait;
    ResumeInv(r);
  }

  lemma DequeuedRpc(s: Backend, r: Rpc, st: Stream, r': Rpc)
    requires RpcInv(r) && Timely(s.running, r) && r.thread == Some(Dequeuing)
    requires Conserved(s.fanned, r, st)
    requires var batch := Batch(st.queue, MAXIMUM_WRITE_QUEUE_SIZE);
             r' == Resume(r.(writer := r.writer.(queue := Loaded(r.writer.queue, batch)), taken := r.taken + batch))
    ensures RpcInv(r') && Timely(s.running, r') && History(s.fanned, r') && !BeforeInsertion(r')
    ensures Registered(r') == Registered(r) && r'.context == r.context && r'.late == r.late && r'.deleted == r.deleted
    ensures Conserved(s.fanned, r', st.(queue := AfterBatch(st.queue, MAXIMUM_WRITE_QUEUE_SIZE)))
  {
    hide Wait, Loaded, Batch, AfterBatch, IsSubseq;
    var batch := Batch(st.queue, MAXIMUM_WRITE_QUEUE_SIZE);
    var rest := AfterBatch(st.queue, MAXIMUM_WRITE_QUEUE_SIZE);
    BatchSplits(st.queue, MAXIMUM_WRITE_QUEUE_SIZE);
    LoadedLosesNothing([], batch);
    assert [] + batch == batch;
    var loaded := r.(writer := r.writer.(queue := batch), taken := r.taken + batch);
    LoadedInv(r, batch);
    ResumeInv(loaded);
    AtDequeuing(s.running, r);
    BatchHandedOver(s.fanned, r, st, batch, rest);
  }

  /** A batch moved from the stream to an empty write queue changes nothing in what the subscriber has had or will
      have. */
  lemma BatchHandedOver(fanned: seq<Packet>, r: Rpc, st: Stream, batch: seq<Packet>, rest: seq<Packet>)
    requires Conserved(fanned, r, st) && r.writer.queue == [] && st.queue == batch + rest
    ensures IsSubseq(r.sent + batch, fanned[r.joined..]) && IsSubseq(r.sent + batch + rest, fanned[r.joined..])
    ensures |fanned| - r.joined == |r.sent| + |batch| + |rest| + st.lost
  {
    hide IsSubseq;
    Regrouped(r.sent, batch, rest);
    PrefixSubseq(r.sent + batch, rest, fanned[r.joined..]);
  }

  lemma Regrouped(a: seq<Packet>, b: seq<Packet>, c: seq<Packet>)
    ensures a + [] + (b + c) == a + b + c
  {
  }

  lemma LoadedInv(r: Rpc, batch: seq<Packet>)
    requires RpcInv(r) && r.thread == Some(Dequeuing) && |batch| <= MAXIMUM_WRITE_QUEUE_SIZE
    ensures RpcInv(r.(writer := r.writer.(queue := batch), taken := r.taken + batch, thread := Some(Pumping)))
  {
    hide Wait;
    assert r.taken == r.sent;
  }

  // ---------------------------------------------------------------- the fan-out and the stop

  lemma FanOutEvent(s: Backend, e: Event)
    requires Inv(s) && Enabled(s, e) && e.FanOut?
    ensures Inv(Effect(s, e))
  {
    hide RpcInv, Registered, BeforeInsertion, IsSubseq, Timely, History, Conserved, Fed;
    if e.sawRunning {
      var s' := Effect(s, e);
      forall id | id in s'.rpcs
        ensures RpcInv(s'.rpcs[id]) && Timely(s'.running, s'.rpcs[id]) && History(s'.fanned, s'.rpcs[id])
        ensures Home(s', id)
      {
        assert Home(s, id);
        HistoryGrows(s.fanned, s.rpcs[id], e.packet);
        FedKeepsOwner(s.capacity, e.packet);
      }
      forall a | a in s'.streams ensures StreamInv(s', a) {
        assert StreamInv(s, a);
        FedConserves(s.capacity, s.fanned, s.rpcs[s.streams[a].owner], s.streams[a], e.packet);
      }
    }
  }

  lemma FedKeepsOwner(capacity: nat, p: Packet)
    requires capacity >= 1
    ensures forall st: Stream :: Fed(capacity, st, p).owner == st.owner
  {
  }

  lemma HistoryGrows(fanned: seq<Packet>, r: Rpc, p: Packet)
    requires History(fanned, r)
    ensures History(fanned + [p], r)
  {
    Extend(r.sent + r.writer.queue, fanned[r.joined..], p);
    assert (fanned + [p])[r.joined..] == fanned[r.joined..] + [p];
  }

  lemma FedConserves(capacity: nat, fanned: seq<Packet>, o: Rpc, st: Stream, p: Packet)
    requires capacity >= 1 && |st.queue| <= capacity && Conserved(fanned, o, st)
    ensures Conserved(fanned + [p], o, Fed(capacity, st, p)) && |Fed(capacity, st, p).queue| <= capacity
    ensures Fed(capacity, st, p).owner == st.owner
  {
    hide IsSubseq;
    assert (fanned + [p])[o.joined..] == fanned[o.joined..] + [p];
    EnqueuedInOrder(capacity, o.sent + o.writer.queue, st.queue, fanned[o.joined..], p);
  }

  lemma EnqueuedInOrder(capacity: nat, before: seq<Packet>, queue: seq<Packet>, all: seq<Packet>, p: Packet)
    requires capacity >= 1 && |queue| <= capacity && IsSubseq(before + queue, all)
    ensures IsSubseq(before + Enqueued(capacity, queue, p), all + [p])
    ensures |Enqueued(capacity, queue, p)| + Overflow(capacity, queue) == |queue| + 1
    ensures |Enqueued(capacity, queue, p)| <= capacity
  {
    hide IsSubseq;
    if |queue| >= capacity {
      FrontDropped(before, queue, all);
      BackAdded(before, queue[1..], all, p);
    } else {
      BackAdded(before, queue, all, p);
      assert queue[0..] == queue;
    }
  }

  lemma StopEvents(s: Backend, e: Event)
    requires Inv(s) && Enabled(s, e) && (e.StopFlag? || e.Purge?)
    ensures Inv(Effect(s, e))
  {
    hide RpcInv, Registered, BeforeInsertion, IsSubseq, History, Conserved;
    var s' := Effect(s, e);
    forall id | id in s'.rpcs ensures Home(s', id) {
      assert Home(s, id);
    }
    forall a | a in s'.streams ensures StreamInv(s', a) {
      assert StreamInv(s, a);
    }
  }

  // ---------------------------------------------------------------- every run

  lemma StepInv(s: Backend, e: Event)
    requires Inv(s) && Enabled(s, e)
    ensures Inv(Effect(s, e))
  {
    hide Inv, Effect;
    match e
    case Connect(_, _) => ConnectEvent(s, e);
    case Insert(_, fails) =>
      if fails {
        FailedInsert(s, e);
      } else {
        InsertEvent(s, e);
      }
    case Dequeue(_) => DequeueEvent(s, e);
    case Erase(_) => EraseEvent(s, e);
    case Done(_) => DoneEvent(s, e);
    case FanOut(_, _) => FanOutEvent(s, e);
    case StopFlag => StopEvents(s, e);
    case Purge => StopEvents(s, e);
    case _ => LocalEvent(s, e);
  }

  lemma FailedInsert(s: Backend, e: Event)
    requires Inv(s) && Enabled(s, e) && e.Insert? && e.fails
    ensures Inv(Effect(s, e))
  {
    InsertedFresh(s, e.id);
    hide Moves, Local, RpcInv, Timely;
    var r := s.rpcs[e.id];
    assert RpcInv(r) && Timely(s.running, r);
    FailedMove(s.running, r);
    MovedLocally(s, e.id, Finish(r, Internal));
  }

  lemma FailedMove(running: bool, r: Rpc)
    requires RpcInv(r) && Timely(running, r) && r.thread == Some(Inserting)
    ensures Moves(running, r, Finish(r, Internal))
  {
    hide Wait;
  }

  /** A backend nobody has connected to. */
  function Initial(maximum: nat, capacity: nat): Backend {
    Backend(maximum, capacity, true, map[], [], map[])
  }

  /** The state a sequence of events leads to, if each is enabled in its turn. */
  ghost function After(s: Backend, events: seq<Event>): Option<Backend> {
    if events == [] then Some(s)
    else
      match After(s, events[..|events| - 1])
      case None => None
      case Some(mid) =>
        if mid.capacity >= 1 && Enabled(mid, events[|events| - 1])
        then Some(Effect(mid, events[|events| - 1])) else None
  }

  /** `s` can be reached from an idle backend. */
  ghost predicate Reached(maximum: nat, capacity: nat, events: seq<Event>, s: Backend) {
    capacity >= 1 && After(Initial(maximum, capacity), events) == Some(s)
  }

  lemma InitialInv(maximum: nat, capacity: nat)
    requires capacity >= 1
    ensures Inv(Initial(maximum, capacity))
  {
  }

  lemma {:induction false} ReachedInv(maximum: nat, capacity: nat, events: seq<Event>, s: Backend)
    requires Reached(maximum, capacity, events, s)
    ensures Inv(s)
  {
    hide Inv, Enabled, Effect;
    InitialInv(maximum, capacity);
    if events != [] {
      var mid := After(Initial(maximum, capacity), events[..|events| - 1]).value;
      ReachedInv(maximum, capacity, events[..|events| - 1], mid);
      StepInv(mid, events[|events| - 1]);
    }
  }
}
