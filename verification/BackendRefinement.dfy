/** The classes and the transition system describe one program: a callback or constructor that runs undisturbed does
    what AsynchronousWriter does, and a fan-out does what SubscriptionManager.EnqueuePacket does. */
module BackendRefinement {
  import opened Packets
  import opened Streams
  import opened Writers
  import opened BackendRuns

  /** The queues of a state, as the manager's class sees them. */
  ghost function QueuesOf(s: Backend): Queues {
    map a | a in s.streams :: s.streams[a].queue
  }

  /** From the decision to finish to the return of the callback, without interruption. */
  ghost function LeaveOn(s: Backend, id: RpcId): Backend
    requires s.capacity >= 1 && AtFinishing(s, id)
  {
    var flagged := Effect(s, LeaveFlag(id));
    var left := if AtErasing(flagged, id) then Effect(flagged, Erase(id)) else flagged;
    if AtLeaving(left, id) then Effect(left, CallFinish(id)) else left
  }

  /** A pump that runs without interruption until its callback returns. */
  ghost function Undisturbed(s: Backend, id: RpcId, stop: Option<Status>): Backend
    requires s.capacity >= 1 && At(s, id, Pumping)
  {
    var checked := Effect(s, PumpCheck(id, stop));
    if At(checked, id, Dequeuing) then Effect(checked, Dequeue(id))
    else if AtFinishing(checked, id) then LeaveOn(checked, id)
    else checked
  }

  /** The callback of the RPC has returned, and left its writer and the queues like this. */
  ghost predicate Leaves(s: Backend, id: RpcId, out: Outbound) {
    id in s.rpcs && s.rpcs[id].thread == None && Outbound(s.rpcs[id].writer, QueuesOf(s)) == out
  }

  function StopReason(cancelled: bool, serving: bool): Option<Status> {
    if cancelled then Some(Cancelled) else if !serving then Some(Fine) else None
  }

  /** The stages of a pump, uninterrupted, are the pump of the class. */
  lemma {:induction false} PumpStages(s: Backend, id: RpcId, cancelled: bool, serving: bool)
    requires s.capacity >= 1 && At(s, id, Pumping)
    ensures var r := s.rpcs[id];
            Leaves(Undisturbed(s, id, StopReason(cancelled, serving)), id,
                   Pumped(r.writer, r.context, QueuesOf(s), s.running, cancelled, serving))
  {
    hide Loaded, Batch, AfterBatch, Continue, LeaveOn, Leaves, QueuesOf;
    if cancelled {
      FinishStages(s, id, Cancelled);
    } else if !serving {
      FinishStages(s, id, Fine);
    } else {
      DataStages(s, id);
    }
  }

  lemma FinishStages(s: Backend, id: RpcId, status: Status)
    requires s.capacity >= 1 && At(s, id, Pumping)
    ensures var r := s.rpcs[id];
            Leaves(Undisturbed(s, id, Some(status)), id,
                   FinishedUp(r.writer, r.context, QueuesOf(s), s.running, status))
  {
    hide LeaveOn, QueuesOf, Leaves;
    var checked := Effect(s, PumpCheck(id, Some(status)));
    assert At(checked, id, FinishingUp(status)) && !At(checked, id, Dequeuing);
    LeaveStages(checked, id, status);
    QueuesAfter(s, checked, s.rpcs[id].context);
  }

  lemma FlagRead(s: Backend, id: RpcId, status: Status)
    requires s.capacity >= 1 && At(s, id, FinishingUp(status))
    ensures var r := s.rpcs[id];
            var s' := Effect(s, LeaveFlag(id));
            && s'.streams == s.streams && s'.capacity == s.capacity && id in s'.rpcs
            && s'.rpcs[id] == r.(writer := r.writer.(subscribed := false), thread :=
                 Some(if r.writer.subscribed && s.running then Erasing(status) else Leaving(status)))
  {
  }

  lemma Erased(s: Backend, id: RpcId, status: Status)
    requires s.capacity >= 1 && At(s, id, Erasing(status))
    ensures var s' := Effect(s, Erase(id));
            && s'.streams == s.streams - {s.rpcs[id].context} && s'.capacity == s.capacity && id in s'.rpcs
            && s'.rpcs[id] == s.rpcs[id].(thread := Some(Leaving(status)))
  {
  }

  lemma Left(s: Backend, id: RpcId, status: Status)
    requires s.capacity >= 1 && At(s, id, Leaving(status))
    ensures var r := s.rpcs[id];
            var s' := Effect(s, CallFinish(id));
            && s'.streams == s.streams && id in s'.rpcs && s'.rpcs[id].thread == None
            && s'.rpcs[id].writer == r.writer.(finishes := r.writer.finishes + [status])
  {
  }

  lemma LeaveOnState(s: Backend, id: RpcId, status: Status)
    requires s.capacity >= 1 && At(s, id, FinishingUp(status))
    ensures var r := s.rpcs[id];
            var s' := LeaveOn(s, id);
            && id in s'.rpcs && s'.rpcs[id].thread == None
            && s'.rpcs[id].writer == r.writer.(subscribed := false, finishes := r.writer.finishes + [status])
            && s'.streams == if r.writer.subscribed && s.running then s.streams - {r.context} else s.streams
  {
    hide Effect;
    FlagRead(s, id, status);
    var flagged := Effect(s, LeaveFlag(id));
    if AtErasing(flagged, id) {
      Erased(flagged, id, status);
      Left(Effect(flagged, Erase(id)), id, status);
    } else {
      Left(flagged, id, status);
    }
  }

  /** Leaving the manager and finishing, uninterrupted, is finishUp of the class. */
  lemma LeaveStages(s: Backend, id: RpcId, status: Status)
    requires s.capacity >= 1 && At(s, id, FinishingUp(status))
    ensures var r := s.rpcs[id];
            Leaves(LeaveOn(s, id), id, FinishedUp(r.writer, r.context, QueuesOf(s), s.running, status))
  {
    hide QueuesOf, LeaveOn;
    LeaveOnState(s, id, status);
    QueuesAfter(s, LeaveOn(s, id), s.rpcs[id].context);
  }

  lemma QueuesAfter(s: Backend, s': Backend, context: Address)
    ensures s'.streams == s.streams ==> QueuesOf(s') == QueuesOf(s)
    ensures s'.streams == s.streams - {context} ==> QueuesOf(s') == QueuesOf(s) - {context}
  {
  }

  lemma DataStages(s: Backend, id: RpcId)
    requires s.capacity >= 1 && At(s, id, Pumping)
    ensures var r := s.rpcs[id];
            Leaves(Undisturbed(s, id, None), id, Pumped(r.writer, r.context, QueuesOf(s), s.running, false, true))
  {
    hide Batch, AfterBatch, Continue, LeaveOn;
    var r := s.rpcs[id];
    var checked := Effect(s, PumpCheck(id, None));
    assert QueuesOf(checked) == QueuesOf(s);
    if At(checked, id, Dequeuing) {
      var s' := Effect(checked, Dequeue(id));
      assert QueuesOf(s') ==
             if r.context in s.streams
             then QueuesOf(s)[r.context := AfterBatch(s.streams[r.context].queue, MAXIMUM_WRITE_QUEUE_SIZE)]
             else QueuesOf(s);
    } else {
      assert r.writer.(queue := r.writer.queue) == r.writer;
    }
  }

  /** Progress: an undisturbed pump of a running server, not cancelled, puts the first packet that waits on the wire, or
      arms the alarm if none does. */
  lemma PumpProgress(s: Backend, id: RpcId)
    requires s.capacity >= 1 && At(s, id, Pumping) && RpcInv(s.rpcs[id])
    ensures var r, s' := s.rpcs[id], Undisturbed(s, id, None);
            var waiting := Waiting(r.writer, r.context, QueuesOf(s), s.running);
            && id in s'.rpcs && s'.rpcs[id].thread == None && s'.rpcs[id].writer.finishes == []
            && (waiting != [] ==> s'.rpcs[id].writer.writes == 1 && s'.rpcs[id].writer.onWire == Some(waiting[0]))
            && (waiting == [] ==> s'.rpcs[id].writer.alarms == 1)
  {
    hide Undisturbed, Pumped, Waiting, QueuesOf, Wait;
    var r := s.rpcs[id];
    PumpStages(s, id, false, true);
    PumpOutcome(r.writer, r.context, QueuesOf(s), s.running, false, true);
  }

  // ---------------------------------------------------------------- the callbacks

  /** The library answers a write, and the callback runs without interruption. */
  ghost function WriteAnswered(s: Backend, id: RpcId, ok: bool, cancelled: bool, serving: bool): Backend
    requires s.capacity >= 1 && Enabled(s, WriteDone(id, ok, cancelled))
  {
    var answered := Effect(s, WriteDone(id, ok, cancelled));
    if ok then
      if At(answered, id, Pumping) then Undisturbed(answered, id, StopReason(cancelled, serving)) else answered
    else if AtFinishing(answered, id) then LeaveOn(answered, id)
    else answered
  }

  /** An answered write, failed or not, is OnWriteDone of the class. `RpcInv` holds of every RPC ever reached. */
  lemma WriteStages(s: Backend, id: RpcId, ok: bool, cancelled: bool, serving: bool)
    requires s.capacity >= 1 && Enabled(s, WriteDone(id, ok, cancelled)) && RpcInv(s.rpcs[id])
    ensures var r := s.rpcs[id];
            Leaves(WriteAnswered(s, id, ok, cancelled, serving), id,
                   AfterWrite(r.writer, r.context, QueuesOf(s), s.running, ok, cancelled, serving))
  {
    hide LeaveOn, Leaves, Undisturbed, Pumped, FinishedUp, QueuesOf, Wait;
    var r := s.rpcs[id];
    var answered := Effect(s, WriteDone(id, ok, cancelled));
    QueuesAfter(s, answered, r.context);
    if ok {
      assert At(answered, id, Pumping);
      PumpStages(answered, id, cancelled, serving);
    } else {
      var status := if cancelled then Cancelled else UnknownFailure;
      assert At(answered, id, FinishingUp(status));
      LeaveStages(answered, id, status);
    }
  }

  /** An alarm that goes off is OnAlarm of the class. */
  lemma AlarmStages(s: Backend, id: RpcId, cancelled: bool, serving: bool)
    requires s.capacity >= 1 && Enabled(s, AlarmFires(id))
    ensures var r := s.rpcs[id];
            var fired := Effect(s, AlarmFires(id));
            && At(fired, id, Pumping)
            && Leaves(Undisturbed(fired, id, StopReason(cancelled, serving)), id,
                      Pumped(r.writer.(alarms := r.writer.alarms - 1), r.context, QueuesOf(s), s.running,
                             cancelled, serving))
  {
    hide LeaveOn, Leaves, Undisturbed, Pumped, QueuesOf;
    var fired := Effect(s, AlarmFires(id));
    QueuesAfter(s, fired, s.rpcs[id].context);
    PumpStages(fired, id, cancelled, serving);
  }

  /** The end of an RPC is OnDone of the class. */
  lemma DoneStage(s: Backend, id: RpcId)
    requires s.capacity >= 1 && Enabled(s, Done(id))
    ensures var r := s.rpcs[id];
            var s' := Effect(s, Done(id));
            && id in s'.rpcs && !s'.rpcs[id].writer.subscribed
            && QueuesOf(s') == if r.writer.subscribed && s.running then QueuesOf(s) - {r.context} else QueuesOf(s)
  {
    hide QueuesOf;
    QueuesAfter(s, Effect(s, Done(id)), s.rpcs[id].context);
  }

  /** The subscription of a constructor that has passed the check, without interruption. */
  ghost function Subscribed(s: Backend, id: RpcId, fails: bool): Backend
    requires s.capacity >= 1 && At(s, id, PastCheck)
  {
    var flagged := Effect(s, ReadFlag(id));
    if At(flagged, id, Inserting) then Effect(flagged, Insert(id, fails)) else flagged
  }

  lemma SubscriptionFails(s: Backend, id: RpcId)
    requires s.capacity >= 1 && At(s, id, PastCheck) && s.running && s.rpcs[id].context !in s.streams
    ensures var r := s.rpcs[id];
            var s' := Subscribed(s, id, true);
            && id in s'.rpcs && s'.rpcs[id].thread == None && s'.streams == s.streams
            && s'.rpcs[id].writer == r.writer.(finishes := r.writer.finishes + [Internal])
  {
  }

  lemma SubscribedQueues(s: Backend, id: RpcId, fails: bool)
    requires s.capacity >= 1 && At(s, id, PastCheck)
    requires !(fails && s.running && s.rpcs[id].context !in s.streams)
    ensures var r := s.rpcs[id];
            var s' := Subscribed(s, id, fails);
            && At(s', id, Pumping) && s'.running == s.running && s'.capacity == s.capacity
            && s'.rpcs[id].context == r.context && s'.rpcs[id].writer == r.writer.(subscribed := true)
            && QueuesOf(s') ==
               if s.running && r.context !in QueuesOf(s) then QueuesOf(s)[r.context := []] else QueuesOf(s)
  {
  }

  /** A constructor that runs without interruption until it returns. */
  ghost function Built(s: Backend, id: RpcId, context: Address, authentic: bool, fails: bool,
                       cancelled: bool, serving: bool): Backend
    requires s.capacity >= 1 && Enabled(s, Connect(id, context))
  {
    var connected := Effect(s, Connect(id, context));
    if !authentic then Effect(connected, Refuse(id))
    else
      var checked := Effect(connected, CheckCapacity(id));
      if At(checked, id, PastCheck) then
        var subscribed := Subscribed(checked, id, fails);
        if At(subscribed, id, Pumping) then Undisturbed(subscribed, id, StopReason(cancelled, serving)) else subscribed
      else checked
  }

  /** It is the constructor of the class. */
  lemma ConstructorStages(s: Backend, id: RpcId, context: Address, authentic: bool, fails: bool,
                          cancelled: bool, serving: bool)
    requires s.capacity >= 1 && Enabled(s, Connect(id, context))
    ensures Leaves(Built(s, id, context, authentic, fails, cancelled, serving), id,
                   Constructed(context, QueuesOf(s), s.running, authentic, s.maximum, fails, cancelled, serving))
  {
    hide LeaveOn, Undisturbed, Pumped, Subscribed, QueuesOf;
    var connected := Effect(s, Connect(id, context));
    QueuesAfter(s, connected, context);
    QueueCount(s);
    if !authentic {
      QueuesAfter(s, Effect(connected, Refuse(id)), context);
    } else {
      var checked := Effect(connected, CheckCapacity(id));
      QueuesAfter(s, checked, context);
      if At(checked, id, PastCheck) {
        ConstructorEnds(checked, id, fails, cancelled, serving);
      }
    }
  }

  lemma ConstructorEnds(s: Backend, id: RpcId, fails: bool, cancelled: bool, serving: bool)
    requires s.capacity >= 1 && At(s, id, PastCheck) && s.rpcs[id].writer == NEW_WRITER
    ensures var r := s.rpcs[id];
            var s1 := Subscribed(s, id, fails);
            var s' := if At(s1, id, Pumping) then Undisturbed(s1, id, StopReason(cancelled, serving)) else s1;
            Leaves(s', id,
                   if fails && s.running && r.context !in QueuesOf(s)
                   then Outbound(NEW_WRITER.(finishes := [Internal]), QueuesOf(s))
                   else Pumped(NEW_WRITER.(subscribed := true), r.context,
                               if s.running && r.context !in QueuesOf(s)
                               then QueuesOf(s)[r.context := []] else QueuesOf(s), s.running, cancelled, serving))
  {
    hide LeaveOn, Undisturbed, Pumped, Subscribed, QueuesOf;
    var r := s.rpcs[id];
    SameAddresses(s);
    if fails && s.running && r.context !in s.streams {
      SubscriptionFails(s, id);
      QueuesAfter(s, Subscribed(s, id, true), r.context);
    } else {
      SubscribedQueues(s, id, fails);
      PumpStages(Subscribed(s, id, fails), id, cancelled, serving);
    }
  }

  lemma SameAddresses(s: Backend)
    ensures QueuesOf(s).Keys == s.streams.Keys
  {
  }

  lemma QueueCount(s: Backend)
    ensures |QueuesOf(s)| == |s.streams|
  {
    assert QueuesOf(s).Keys == s.streams.Keys;
    assert |QueuesOf(s)| == |QueuesOf(s).Keys| && |s.streams| == |s.streams.Keys|;
  }

  /** A fan-out puts the packet into every queue as the manager does, and adds to each stream's losses its share of the
      losses the manager reports. */
  lemma FanOutIsEnqueue(s: Backend, p: Packet)
    requires s.capacity >= 1 && forall a <- s.streams :: |s.streams[a].queue| <= s.capacity
    ensures var s' := Effect(s, FanOut(p, true));
            && QueuesOf(s') == FannedOut(s.capacity, QueuesOf(s), p)
            && (forall a <- s.streams ::
                  s'.streams[a].lost == s.streams[a].lost + if a in Full(s.capacity, QueuesOf(s)) then 1 else 0)
  {
  }
}
