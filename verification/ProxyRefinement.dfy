/** The class Proxy and the transition systems describe one program: a publisher's callback that nobody interrupts does
    what AddPacketCallback does, and a turn of the propagator that nobody interrupts does what TurnOnce does. */
module ProxyRefinement {
  import opened Packets
  import opened Streams
  import opened Detectors
  import opened BackendRefinement
  import I = ImportQueue
  import B = BackendRuns
  import Proxies
  import P = Pipeline

  // ---------------------------------------------------------------- the callback of a publisher

  function Rank(p: I.Producer): nat {
    match p
    case Idle => 0
    case Pushing(_) => 1
    case Popping(_) => 2
    case Sizing(_) => 3
  }

  /** The publisher's callback runs on, without interruption, until it returns. */
  function RunOn(s: I.Imports, q: I.PublisherId): I.Imports
    decreases |s.queue|, Rank(I.ProducerOf(s, q))
  {
    match I.ProducerOf(s, q)
    case Idle => s
    case Sizing(_) => RunOn(I.Effect(s, I.ReadSize(q)), q)
    case Popping(_) => RunOn(I.Effect(s, I.TryPop(q)), q)
    case Pushing(_) => I.Effect(s, I.TryPush(q))
  }

  /** The packets that have to make room. */
  function Excess(s: I.Imports): nat {
    if |s.queue| >= s.capacity then |s.queue| - s.capacity + 1 else 0
  }

  lemma {:induction false} MakesRoom(s: I.Imports, q: I.PublisherId, x: I.Entry)
    requires s.capacity >= 1 && I.ProducerOf(s, q) == I.Sizing(x)
    ensures Excess(s) <= |s.queue|
    ensures var s' := RunOn(s, q);
            && s'.queue == s.queue[Excess(s)..] + [x] && s'.evicted == s.evicted + s.queue[..Excess(s)]
            && I.ProducerOf(s', q).Idle? && s'.refused == s.refused && s'.taken == s.taken
    decreases |s.queue|
  {
    var read := I.Effect(s, I.ReadSize(q));
    if |s.queue| >= s.capacity {
      var popped := I.Effect(read, I.TryPop(q));
      MakesRoom(popped, q, x);
      assert popped.queue == s.queue[1..] && Excess(popped) == Excess(s) - 1;
      assert s.queue[1..][Excess(popped)..] == s.queue[Excess(s)..];
      assert [s.queue[0]] + s.queue[1..][..Excess(popped)] == s.queue[..Excess(s)];
    } else {
      assert s.queue[0..] == s.queue && s.evicted + s.queue[..0] == s.evicted;
    }
  }

  /** Drop-oldest, as the class has it: the oldest make room, the new packet goes in, and nothing is refused. */
  lemma CallbackStages(s: I.Imports, q: I.PublisherId, p: Packet)
    requires s.capacity >= 1 && I.Enabled(s, I.Submit(q, p))
    ensures var s' := RunOn(I.Effect(s, I.Submit(q, p)), q);
            && P.PacketsOf(s'.queue) == Enqueued(s.capacity, P.PacketsOf(s.queue), p)
            && I.ProducerOf(s', q).Idle? && s'.refused == s.refused
  {
    hide RunOn;
    var submitted := I.Effect(s, I.Submit(q, p));
    MakesRoom(submitted, q, I.Entry(q, p));
    assert P.PacketsOf(s.queue[Excess(s)..] + [I.Entry(q, p)]) == P.PacketsOf(s.queue)[Excess(s)..] + [p];
  }

  // ---------------------------------------------------------------- a turn of the propagator

  /** A state of the transition system, as the class sees it. */
  ghost function Seen(s: P.Proxy): Proxies.State {
    Proxies.State(P.PacketsOf(s.imports.queue), s.buffers, QueuesOf(s.backend))
  }

  function Settings(s: P.Proxy): Proxies.Config {
    Proxies.Config(s.sizing.Some?, if s.sizing.Some? then s.sizing.value else Slots(1), s.backend.capacity,
                   s.backend.running)
  }

  /** Take, check and forward without interruption. */
  ghost function Turn(s: P.Proxy): P.Proxy
    requires s.backend.capacity >= 1 && P.Enabled(s, P.TakePacket)
  {
    var checked := P.Effect(P.Effect(s, P.TakePacket), P.Check);
    if checked.hand.Checked? then P.Effect(checked, P.Forward(s.backend.running)) else checked
  }

  lemma ForwardedQueues(b: B.Backend, p: Packet)
    requires b.capacity >= 1
    ensures QueuesOf(B.Effect(b, B.FanOut(p, b.running))) ==
            if b.running then FannedOut(b.capacity, QueuesOf(b), p) else QueuesOf(b)
  {
  }

  lemma FirstPacket(es: seq<I.Entry>)
    requires es != []
    ensures P.PacketsOf(es) != [] && P.PacketsOf(es)[0] == es[0].packet && P.PacketsOf(es)[1..] == P.PacketsOf(es[1..])
  {
  }

  /** A turn, uninterrupted, is the turn of the class: packet taken, detector asked, packet fanned out or dropped. */
  lemma TurnStages(s: P.Proxy)
    requires s.backend.capacity >= 1 && P.Enabled(s, P.TakePacket)
    ensures P.PacketsOf(s.imports.queue) != []
    ensures Seen(Turn(s)) == Proxies.PropagateOne(Settings(s), Seen(s)) && Turn(s).hand == P.Empty
  {
    hide P.PacketsOf, QueuesOf, SubmitPacket, B.Effect, FannedOut;
    FirstPacket(s.imports.queue);
    ForwardedQueues(s.backend, s.imports.queue[0].packet);
  }
}
