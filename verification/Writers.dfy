/** The callback-driven writer that drains one subscriber's stream onto the wire. */
module Writers {
  import opened Packets
  import opened Streams

  const MAXIMUM_WRITE_QUEUE_SIZE: nat := 128
  const POLL_INTERVAL: nat := 10
  const MAXIMUM_POLL_INTERVAL: nat := 250

  datatype Status = Fine | Cancelled | UnknownFailure | Unauthenticated | ResourceExhausted | Internal

  /** The fields of a writer, and what it has asked of the RPC library that has not been answered:
      `writes` StartWrite calls (`onWire` is what the last was given), `alarms` armed alarms (`armed` is the wait of
      the last, in milliseconds) and the statuses `Finish` was called with. */
  datatype Writer = Writer(
    subscribed: bool,
    queue: seq<Packet>,
    poll: nat,
    writes: nat,
    onWire: Option<Packet>,
    alarms: nat,
    armed: nat,
    finishes: seq<Status>)

  const NEW_WRITER := Writer(false, [], POLL_INTERVAL, 0, None, 0, 0, [])

  // ---------------------------------------------------------------- steps of the pump as functions

  /** Moving a batch into the write queue, which pops its front when it has outgrown its maximum. */
  function Loaded(queue: seq<Packet>, packets: seq<Packet>): seq<Packet>
    decreases |packets|
  {
    if packets == [] then queue
    else Loaded((if |queue| > MAXIMUM_WRITE_QUEUE_SIZE then queue[1..] else queue) + [packets[0]], packets[1..])
  }

  /** Nothing is popped while queue and batch together do not exceed the maximum. */
  lemma {:induction false} LoadedLosesNothing(queue: seq<Packet>, packets: seq<Packet>)
    requires |queue| + |packets| <= MAXIMUM_WRITE_QUEUE_SIZE + 1
    ensures Loaded(queue, packets) == queue + packets
    decreases |packets|
  {
    if packets != [] {
      LoadedLosesNothing(queue + [packets[0]], packets[1..]);
      assert queue + [packets[0]] + packets[1..] == queue + packets;
    }
  }

  /** The end of the pump: the front goes on the wire, or an alarm is armed and the next wait doubled. */
  function Continue(w: Writer): Writer {
    if w.queue != [] then w.(poll := POLL_INTERVAL, writes := w.writes + 1, onWire := Some(w.queue[0]))
    else
      var interval := Min(w.poll, MAXIMUM_POLL_INTERVAL);
      w.(poll := Min(interval * 2, MAXIMUM_POLL_INTERVAL), alarms := w.alarms + 1, armed := interval)
  }

  /** A writer and the queues of all subscribers. */
  datatype Outbound = Outbound(writer: Writer, queues: Queues)

  function FinishedUp(w: Writer, context: Address, queues: Queues, running: bool, status: Status): Outbound {
    Outbound(w.(subscribed := false, finishes := w.finishes + [status]),
             if w.subscribed && running then queues - {context} else queues)
  }

  /** What a writer with an empty queue is handed: nothing once the manager has stopped, nothing for an unknown
      context (the exception is caught). */
  function Handed(context: Address, queues: Queues, running: bool): seq<Packet> {
    if running && context in queues then Batch(queues[context], MAXIMUM_WRITE_QUEUE_SIZE) else []
  }

  function Pumped(w: Writer, context: Address, queues: Queues, running: bool, cancelled: bool, serving: bool): Outbound
  {
    if cancelled then FinishedUp(w, context, queues, running, Cancelled)
    else if !serving then FinishedUp(w, context, queues, running, Fine)
    else if w.queue != [] then Outbound(Continue(w), queues)
    else
      Outbound(Continue(w.(queue := Loaded([], Handed(context, queues, running)))),
               if running && context in queues
               then queues[context := AfterBatch(queues[context], MAXIMUM_WRITE_QUEUE_SIZE)] else queues)
  }

  function AfterWrite(w: Writer, context: Address, queues: Queues, running: bool,
                      ok: bool, cancelled: bool, serving: bool): Outbound
    requires w.writes >= 1 && w.queue != []
  {
    var answered := w.(writes := w.writes - 1, onWire := None);
    if !ok then FinishedUp(answered, context, queues, running, if cancelled then Cancelled else UnknownFailure)
    else Pumped(answered.(queue := answered.queue[1..]), context, queues, running, cancelled, serving)
  }

  /** The whole constructor: authentication, the limit, subscription, first pump. */
  function Constructed(context: Address, queues: Queues, running: bool, authentic: bool, maximum: nat, fails: bool,
                       cancelled: bool, serving: bool): Outbound {
    if !authentic then Outbound(NEW_WRITER.(finishes := [Unauthenticated]), queues)
    else if |queues| >= maximum then Outbound(NEW_WRITER.(finishes := [ResourceExhausted]), queues)
    else if fails && running && context !in queues then Outbound(NEW_WRITER.(finishes := [Internal]), queues)
    else
      Pumped(NEW_WRITER.(subscribed := true), context,
           if running && context !in queues then queues[context := []] else queues, running, cancelled, serving)
  }

  // ---------------------------------------------------------------- what becomes of a writer

  /** What a writer that is pumped has to send: its own queue, and its stream as long as the manager runs. */
  function Waiting(w: Writer, context: Address, queues: Queues, running: bool): seq<Packet> {
    w.queue + if running && context in queues then queues[context] else []
  }

  /** A quiet writer that is pumped does exactly one of four things: it finishes as cancelled, finishes in good order,
      puts the first packet waiting on the wire, or arms the alarm because nothing waits. As long as it serves, packets
      only move from its stream to its own queue, up to 128 at a time. */
  lemma PumpOutcome(w: Writer, context: Address, queues: Queues, running: bool, cancelled: bool, serving: bool)
    requires w.writes == 0 && w.alarms == 0 && w.finishes == []
    ensures var out := Pumped(w, context, queues, running, cancelled, serving);
            var waiting := Waiting(w, context, queues, running);
            && (out.writer.finishes == [Cancelled] <==> cancelled)
            && (out.writer.finishes == [Fine] <==> !cancelled && !serving)
            && (out.writer.finishes == [] <==> !cancelled && serving)
            && (out.writer.writes == 1 <==> !cancelled && serving && waiting != [])
            && (out.writer.alarms == 1 <==> !cancelled && serving && waiting == [])
            && (out.writer.writes == 1 ==> out.writer.onWire == Some(waiting[0]))
            && (!cancelled && serving ==> Waiting(out.writer, context, out.queues, running) == waiting)
            && (!cancelled && serving && w.queue == [] ==>
                  |out.writer.queue| == if |waiting| < 128 then |waiting| else 128)
  {
    hide Loaded, Batch, AfterBatch;
    var waiting := Waiting(w, context, queues, running);
    if cancelled || !serving {
      assert [] + [Cancelled] == [Cancelled] && [] + [Fine] == [Fine];
    } else if w.queue == [] {
      var handed := Handed(context, queues, running);
      assert [] + handed == handed && [] + waiting == waiting;
      if running && context in queues {
        BatchSplits(queues[context], MAXIMUM_WRITE_QUEUE_SIZE);
        assert waiting == queues[context];
        assert waiting == handed + AfterBatch(queues[context], MAXIMUM_WRITE_QUEUE_SIZE);
      } else {
        assert waiting == [];
      }
      LoadedLosesNothing([], handed);
    }
  }

  /** A write that failed finishes the RPC; after one that succeeded, the packets behind it wait. */
  lemma WriteOutcome(w: Writer, context: Address, queues: Queues, running: bool,
                     ok: bool, cancelled: bool, serving: bool)
    requires w.writes == 1 && w.alarms == 0 && w.finishes == [] && w.queue != []
    ensures var out := AfterWrite(w, context, queues, running, ok, cancelled, serving);
            && (out.writer.finishes == [Cancelled] <==> cancelled)
            && (out.writer.finishes == [UnknownFailure] <==> !ok && !cancelled)
            && (ok && !cancelled && serving ==>
                  Waiting(out.writer, context, out.queues, running) == Waiting(w, context, queues, running)[1..])
  {
    hide Pumped;
    assert !ok ==> [] + [Cancelled] == [Cancelled] && [] + [UnknownFailure] == [UnknownFailure];
    if ok {
      var answered := w.(writes := 0, onWire := None, queue := w.queue[1..]);
      PumpOutcome(answered, context, queues, running, cancelled, serving);
      assert Waiting(answered, context, queues, running) == Waiting(w, context, queues, running)[1..];
    }
  }

  /** Whom a constructor turns away, and with what status; everyone else is subscribed and pumped. */
  lemma ConstructorOutcome(context: Address, queues: Queues, running: bool, authentic: bool, maximum: nat, fails: bool,
                           cancelled: bool, serving: bool)
    ensures var out := Constructed(context, queues, running, authentic, maximum, fails, cancelled, serving);
            && (out.writer.finishes == [Unauthenticated] <==> !authentic)
            && (out.writer.finishes == [ResourceExhausted] <==> authentic && |queues| >= maximum)
            && (out.writer.finishes == [Internal] <==>
                  authentic && |queues| < maximum && fails && running && context !in queues)
            && (out.writer.subscribed ==> out.writer.finishes == [] && !cancelled && serving)
            && (out.writer.subscribed && running ==> context in out.queues)
            && (authentic && |queues| < maximum && !fails && !cancelled && serving ==> out.writer.subscribed)
  {
    PumpOutcome(NEW_WRITER.(subscribed := true), context,
                if running && context !in queues then queues[context := []] else queues, running, cancelled, serving);
  }

  // ---------------------------------------------------------------- the class

  class AsynchronousWriter {
    const context: Address
    const manager: SubscriptionManager
    var subscribed: bool
    var queue: seq<Packet>
    var poll: nat
    var writes: nat
    var onWire: Option<Packet>
    var alarms: nat
    var armed: nat
    var finishes: seq<Status>

    ghost function View(): Writer
      reads this
    {
      Writer(subscribed, queue, poll, writes, onWire, alarms, armed, finishes)
    }

    ghost predicate Valid()
      reads this, manager, manager.Repr
    {
      manager.Valid() && this !in manager.Repr
    }

    constructor (context: Address, manager: SubscriptionManager, authentic: bool, maximum: nat, fails: bool,
                 cancelled: bool, serving: bool)
      requires manager.Valid()
      modifies manager, manager.Repr
      ensures Valid() && this.context == context && this.manager == manager
      ensures fresh(manager.Repr - old(manager.Repr)) && manager.keepRunning == old(manager.keepRunning)
      ensures Outbound(View(), manager.View()) ==
              Constructed(context, old(manager.View()), manager.keepRunning, authentic, maximum, fails,
                          cancelled, serving)
    {
      hide Pumped, FinishedUp, SubscriptionManager.Valid, SubscriptionManager.View;
      this.context := context;
      this.manager := manager;
      subscribed, queue, poll := false, [], POLL_INTERVAL;
      writes, onWire, alarms, armed, finishes := 0, None, 0, 0, [];
      new;
      if !authentic {
        Finish(Unauthenticated);
        return;
      }
      var n := manager.GetNumberOfSubscribers();
      if n >= maximum {
        Finish(ResourceExhausted);
        return;
      }
      var ok := manager.Subscribe(context, fails);
      if !ok {
        Finish(Internal);
        return;
      }
      subscribed := true;
      Pump(cancelled, serving);
    }

    method Finish(status: Status)
      modifies this`finishes
      ensures finishes == old(finishes) + [status]
    {
      finishes := finishes + [status];
    }

    method FinishUp(status: Status)
      requires Valid()
      modifies this, manager
      ensures Valid() && manager.Repr == old(manager.Repr) && manager.keepRunning == old(manager.keepRunning)
      ensures Outbound(View(), manager.View()) ==
              FinishedUp(old(View()), context, old(manager.View()), manager.keepRunning, status)
    {
      hide SubscriptionManager.Valid, SubscriptionManager.View;
      if subscribed {
        subscribed := false;
        manager.Unsubscribe(context);
      }
      Finish(status);
    }

    method Pump(cancelled: bool, serving: bool)
      requires Valid()
      modifies this, manager, manager.Repr
      ensures Valid() && manager.Repr == old(manager.Repr) && manager.keepRunning == old(manager.keepRunning)
      ensures Outbound(View(), manager.View()) ==
              Pumped(old(View()), context, old(manager.View()), manager.keepRunning, cancelled, serving)
    {
      hide SubscriptionManager.Valid, SubscriptionManager.View, FinishedUp, Continue, Batch, AfterBatch;
      if !serving || cancelled {
        FinishUp(if cancelled then Cancelled else Fine);
        return;
      }
      if queue == [] {
        var known, packets := manager.GetNextPackets(context, MAXIMUM_WRITE_QUEUE_SIZE);
        if known {
          Load(packets);
        }
      }
      Resume();
    }

    method Load(packets: seq<Packet>)
      modifies this`queue
      ensures queue == Loaded(old(queue), packets)
    {
      var i := 0;
      assert packets[0..] == packets;
      while i < |packets|
        invariant i <= |packets|
        invariant Loaded(queue, packets[i..]) == Loaded(old(queue), packets)
      {
        assert packets[i..][1..] == packets[i + 1..];
        if |queue| > MAXIMUM_WRITE_QUEUE_SIZE {
          queue := queue[1..];
        }
        queue := queue + [packets[i]];
        i := i + 1;
      }
    }

    method Resume()
      modifies this`poll, this`writes, this`onWire, this`alarms, this`armed
      ensures View() == Continue(old(View()))
    {
      if queue != [] {
        poll := POLL_INTERVAL;
        writes, onWire := writes + 1, Some(queue[0]);
        return;
      }
      var interval := Min(poll, MAXIMUM_POLL_INTERVAL);
      poll := Min(interval * 2, MAXIMUM_POLL_INTERVAL);
      alarms, armed := alarms + 1, interval;
    }

    /** The library answers a write; the front of the queue is what was written. */
    method OnWriteDone(ok: bool, cancelled: bool, serving: bool)
      requires Valid() && writes >= 1 && queue != []
      modifies this, manager, manager.Repr
      ensures Valid() && manager.Repr == old(manager.Repr) && manager.keepRunning == old(manager.keepRunning)
      ensures Outbound(View(), manager.View()) ==
              AfterWrite(old(View()), context, old(manager.View()), manager.keepRunning, ok, cancelled, serving)
    {
      hide SubscriptionManager.Valid, SubscriptionManager.View, FinishedUp, Pumped;
      writes, onWire := writes - 1, None;
      if !ok {
        FinishUp(if cancelled then Cancelled else UnknownFailure);
        return;
      }
      queue := queue[1..];
      Pump(cancelled, serving);
    }

    /** The alarm goes off. */
    method OnAlarm(cancelled: bool, serving: bool)
      requires Valid() && alarms >= 1
      modifies this, manager, manager.Repr
      ensures Valid() && manager.Repr == old(manager.Repr) && manager.keepRunning == old(manager.keepRunning)
      ensures Outbound(View(), manager.View()) ==
              Pumped(old(View()).(alarms := old(alarms) - 1), context, old(manager.View()),
                           manager.keepRunning, cancelled, serving)
    {
      hide SubscriptionManager.Valid, SubscriptionManager.View, Pumped;
      alarms := alarms - 1;
      Pump(cancelled, serving);
    }

    /** The RPC is over; the last attempt to leave the manager. */
    method OnDone()
      requires Valid()
      modifies this, manager
      ensures Valid() && manager.Repr == old(manager.Repr) && manager.keepRunning == old(manager.keepRunning)
      ensures !subscribed
      ensures manager.View() ==
              if old(subscribed) && manager.keepRunning then old(manager.View()) - {context} else old(manager.View())
    {
      if subscribed {
        subscribed := false;
        manager.Unsubscribe(context);
      }
    }
  }
}
