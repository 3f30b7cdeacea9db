/** The backend as a transition system: any number of subscriber RPCs, each a writer whose callbacks the RPC library
    runs when it likes, one fan-out thread and one stopping thread, interleaved at every lock and every read of a
    flag. */
module BackendRuns {
  import opened Packets
  import opened Streams
  import opened Writers

  type RpcId = nat

  /** Where the thread inside a writer is; it waits before each step that shared state can influence.
      Constructing: before the limit is looked up. PastCheck: below the limit, before the manager's flag is read.
      Inserting: flag seen, before the lock. Pumping: about to look at the cancellation and shutdown flags.
      Dequeuing: flag seen, before the lock. FinishingUp: before unsubscribing. Erasing: flag seen, before the lock.
      Leaving: about to call Finish. */
  datatype Stage =
    | Constructing | PastCheck | Inserting
    | Pumping | Dequeuing
    | FinishingUp(status: Status) | Erasing(status: Status) | Leaving(status: Status)

  /** One subscriber RPC. `thread` is the callback running in its writer; `faulted` is set when a second callback
      starts meanwhile, when one starts or is pending on a deleted writer, or when the packet popped after a write is
      not the one that was written. The remaining fields are history: `late` says it connected after the stop began,
      `joined` how many packets had been fanned out when it subscribed, `taken` what it dequeued, `sent` what was
      written, `idle` how many pumps in a row found nothing. */
  datatype Rpc = Rpc(
    context: Address,
    writer: Writer,
    thread: Option<Stage>,
    deleted: bool,
    faulted: bool,
    late: bool,
    joined: nat,
    taken: seq<Packet>,
    sent: seq<Packet>,
    idle: nat)

  /** A subscriber's queue in the manager's map; `owner` and `lost` are history. */
  datatype Stream = Stream(owner: RpcId, queue: seq<Packet>, lost: nat)

  /** `fanned` is history: every packet given to all subscribers, in order. */
  datatype Backend = Backend(
    maximum: nat,
    capacity: nat,
    running: bool,
    streams: map<Address, Stream>,
    fanned: seq<Packet>,
    rpcs: map<RpcId, Rpc>)

  datatype Event =
    | Connect(id: RpcId, context: Address)
    | Refuse(id: RpcId)
    | CheckCapacity(id: RpcId)
    | ReadFlag(id: RpcId)
    | Insert(id: RpcId, fails: bool)
    | PumpCheck(id: RpcId, stop: Option<Status>)
    | Dequeue(id: RpcId)
    | WriteDone(id: RpcId, ok: bool, cancelled: bool)
    | AlarmFires(id: RpcId)
    | LeaveFlag(id: RpcId)
    | Erase(id: RpcId)
    | CallFinish(id: RpcId)
    | Done(id: RpcId)
    | FanOut(packet: Packet, sawRunning: bool)
    | StopFlag
    | Purge

  // ---------------------------------------------------------------- transitions

  ghost predicate At(s: Backend, id: RpcId, stage: Stage) {
    id in s.rpcs && s.rpcs[id].thread == Some(stage)
  }

  ghost predicate AtFinishing(s: Backend, id: RpcId) {
    id in s.rpcs && s.rpcs[id].thread.Some? && s.rpcs[id].thread.value.FinishingUp?
  }

  ghost predicate AtErasing(s: Backend, id: RpcId) {
    id in s.rpcs && s.rpcs[id].thread.Some? && s.rpcs[id].thread.value.Erasing?
  }

  ghost predicate AtLeaving(s: Backend, id: RpcId) {
    id in s.rpcs && s.rpcs[id].thread.Some? && s.rpcs[id].thread.value.Leaving?
  }

  /** When an event can happen. A context address is reused only after the RPC that had it is done; the library answers
      any outstanding write or alarm at any time and ends an RPC any time after Finish. */
  ghost predicate Enabled(s: Backend, e: Event) {
    match e
    case Connect(id, context) =>
      id !in s.rpcs && forall i <- s.rpcs :: s.rpcs[i].deleted || s.rpcs[i].context != context
    case Refuse(id) => At(s, id, Constructing)
    case CheckCapacity(id) => At(s, id, Constructing)
    case ReadFlag(id) => At(s, id, PastCheck)
    case Insert(id, _) => At(s, id, Inserting)
    case PumpCheck(id, _) => At(s, id, Pumping)
    case Dequeue(id) => At(s, id, Dequeuing)
    case WriteDone(id, _, _) => id in s.rpcs && s.rpcs[id].writer.writes > 0
    case AlarmFires(id) => id in s.rpcs && s.rpcs[id].writer.alarms > 0
    case LeaveFlag(id) => AtFinishing(s, id)
    case Erase(id) => AtErasing(s, id)
    case CallFinish(id) => AtLeaving(s, id)
    case Done(id) => id in s.rpcs && s.rpcs[id].writer.finishes != [] && !s.rpcs[id].deleted
    case FanOut(_, sawRunning) => sawRunning || !s.running
    case StopFlag => true
    case Purge => !s.running
  }

  /** The library starts a callback. */
  function Enter(r: Rpc, stage: Stage): Rpc {
    r.(thread := Some(stage), faulted := r.faulted || r.thread.Some? || r.deleted)
  }

  function Finish(r: Rpc, status: Status): Rpc {
    r.(thread := None, writer := r.writer.(finishes := r.writer.finishes + [status]))
  }

  /** The end of a pump. */
  function Resume(r: Rpc): Rpc {
    r.(thread := None, writer := Continue(r.writer), idle := if r.writer.queue == [] then r.idle + 1 else 0)
  }

  function Checked(s: Backend, r: Rpc, stop: Option<Status>): Rpc {
    if stop.Some? then r.(thread := Some(FinishingUp(stop.value)))
    else if r.writer.queue == [] && s.running then r.(thread := Some(Dequeuing))
    else Resume(r)
  }

  function Answered(r: Rpc, ok: bool, cancelled: bool): Rpc
    requires r.writer.writes > 0
  {
    var w := r.writer.(writes := r.writer.writes - 1, onWire := None);
    if !ok then Enter(r, FinishingUp(if cancelled then Cancelled else UnknownFailure)).(writer := w)
    else if w.queue == [] || r.writer.onWire != Some(w.queue[0]) then Enter(r, Pumping).(writer := w, faulted := true)
    else Enter(r, Pumping).(writer := w.(queue := w.queue[1..]), sent := r.sent + [w.queue[0]])
  }

  function LeftFlag(s: Backend, r: Rpc, status: Status): Rpc {
    r.(writer := r.writer.(subscribed := false),
       thread := Some(if r.writer.subscribed && s.running then Erasing(status) else Leaving(status)))
  }

  function EndOfRpc(r: Rpc): Rpc {
    r.(deleted := true,
       writer := r.writer.(subscribed := false),
       faulted := r.faulted || r.thread.Some? || r.writer.writes > 0 || r.writer.alarms > 0)
  }

  function Put(s: Backend, id: RpcId, r: Rpc): Backend {
    s.(rpcs := s.rpcs[id := r])
  }

  function Fed(capacity: nat, st: Stream, p: Packet): Stream
    requires capacity >= 1
  {
    Stream(st.owner, Enqueued(capacity, st.queue, p), st.lost + Overflow(capacity, st.queue))
  }

  function Effect(s: Backend, e: Event): Backend
    requires s.capacity >= 1 && Enabled(s, e)
  {
    match e
    case Connect(id, context) =>
      Put(s, id, Rpc(context, NEW_WRITER, Some(Constructing), false, false, !s.running, |s.fanned|, [], [], 0))
    case Refuse(id) => Put(s, id, Finish(s.rpcs[id], Unauthenticated))
    case CheckCapacity(id) =>
      Put(s, id, if |s.streams| >= s.maximum then Finish(s.rpcs[id], ResourceExhausted)
                 else s.rpcs[id].(thread := Some(PastCheck)))
    case ReadFlag(id) =>
      var r := s.rpcs[id];
      Put(s, id, if s.running then r.(thread := Some(Inserting))
                 else r.(thread := Some(Pumping), writer := r.writer.(subscribed := true)))
    case Insert(id, fails) =>
      var r := s.rpcs[id];
      if fails && r.context !in s.streams then Put(s, id, Finish(r, Internal))
      else
        Put(s, id, r.(thread := Some(Pumping), writer := r.writer.(subscribed := true), joined := |s.fanned|))
        .(streams := if r.context in s.streams then s.streams else s.streams[r.context := Stream(id, [], 0)])
    case PumpCheck(id, stop) => Put(s, id, Checked(s, s.rpcs[id], stop))
    case Dequeue(id) =>
      var r := s.rpcs[id];
      if r.context in s.streams then
        var st := s.streams[r.context];
        var batch := Batch(st.queue, MAXIMUM_WRITE_QUEUE_SIZE);
        Put(s, id, Resume(r.(writer := r.writer.(queue := Loaded(r.writer.queue, batch)), taken := r.taken + batch)))
        .(streams := s.streams[r.context := st.(queue := AfterBatch(st.queue, MAXIMUM_WRITE_QUEUE_SIZE))])
      else Put(s, id, Resume(r))
    case WriteDone(id, ok, cancelled) => Put(s, id, Answered(s.rpcs[id], ok, cancelled))
    case AlarmFires(id) =>
      var r := s.rpcs[id];
      Put(s, id, Enter(r, Pumping).(writer := r.writer.(alarms := r.writer.alarms - 1)))
    case LeaveFlag(id) => Put(s, id, LeftFlag(s, s.rpcs[id], s.rpcs[id].thread.value.status))
    case Erase(id) =>
      Put(s, id, s.rpcs[id].(thread := Some(Leaving(s.rpcs[id].thread.value.status))))
      .(streams := s.streams - {s.rpcs[id].context})
    case CallFinish(id) => Put(s, id, Finish(s.rpcs[id], s.rpcs[id].thread.value.status))
    case Done(id) =>
      var r := s.rpcs[id];
      Put(s, id, EndOfRpc(r))
      .(streams := if r.writer.subscribed && s.running then s.streams - {r.context} else s.streams)
    case FanOut(p, sawRunning) =>
      if sawRunning then
        s.(fanned := s.fanned + [p], streams := map a | a in s.streams :: Fed(s.capacity, s.streams[a], p))
      else s
    case StopFlag => s.(running := false)
    case Purge => s.(streams := map[])
  }

  // ---------------------------------------------------------------- one RPC

  function Pow2(k: nat): nat {
    if k == 0 then 1 else 2 * Pow2(k - 1)
  }

  /** The wait after `k` idle pumps in a row. */
  function Wait(k: nat): nat {
    Min(POLL_INTERVAL * Pow2(k), MAXIMUM_POLL_INTERVAL)
  }

  /** Outstanding continuations: the running callback, unanswered writes, armed alarms, calls of Finish. */
  function Continuations(r: Rpc): nat {
    (if r.thread.Some? then 1 else 0) + r.writer.writes + r.writer.alarms + |r.writer.finishes|
  }

  predicate BeforeInsertion(r: Rpc) {
    r.thread in {Some(Constructing), Some(PastCheck), Some(Inserting)}
  }

  predicate IsErasing(r: Rpc) {
    r.thread.Some? && r.thread.value.Erasing?
  }

  predicate IsLeaving(r: Rpc) {
    r.thread.Some? && r.thread.value.Leaving?
  }

  /** The continuation discipline and the write queue of one RPC. */
  ghost predicate RpcInv(r: Rpc) {
    var w := r.writer;
    && !r.faulted
    && Continuations(r) == 1
    && (r.deleted ==> w.finishes != [])
    && (w.finishes != [] || BeforeInsertion(r) || IsErasing(r) || IsLeaving(r) ==> !w.subscribed)
    && (BeforeInsertion(r) ==> w.queue == [] && r.sent == [])
    && (w.writes > 0 ==> w.queue != [] && w.onWire == Some(w.queue[0]))
    && |w.queue| <= MAXIMUM_WRITE_QUEUE_SIZE
    && (r.thread == Some(Dequeuing) || w.alarms > 0 ==> w.queue == [])
    && r.taken == r.sent + w.queue
    && w.poll == Wait(r.idle)
    && (w.alarms > 0 ==> r.idle > 0 && w.armed == Wait(r.idle - 1))
  }

  lemma WaitDoubles(k: nat)
    ensures Min(Min(Wait(k), MAXIMUM_POLL_INTERVAL) * 2, MAXIMUM_POLL_INTERVAL) == Wait(k + 1)
    ensures Min(Wait(k), MAXIMUM_POLL_INTERVAL) == Wait(k)
  {
  }

  lemma ResumeInv(r: Rpc)
    requires r.thread.Some? && RpcInv(r.(thread := Some(Pumping)))
    ensures RpcInv(Resume(r))
  {
    WaitDoubles(r.idle);
  }

  lemma AnsweredInv(r: Rpc, ok: bool, cancelled: bool)
    requires RpcInv(r) && r.writer.writes > 0
    ensures RpcInv(Answered(r, ok, cancelled))
    ensures Answered(r, ok, cancelled).sent + Answered(r, ok, cancelled).writer.queue == r.sent + r.writer.queue
  {
  }

  lemma EndOfRpcInv(r: Rpc)
    requires RpcInv(r) && r.writer.finishes != []
    ensures RpcInv(EndOfRpc(r)) && !r.writer.subscribed && r.thread == None
  {
  }
}
