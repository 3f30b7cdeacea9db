/** The proxy's own two loops: publishers adding to the import queue, and the propagator that filters duplicates and
    fans out. */
module Proxies {
  import opened Packets
  import opened Rings
  import opened Streams
  import opened Detectors
  import opened DetectorRuns

  /** The proxy as a value: import queue, rings of the detector, queues of the subscribers. */
  datatype State = State(imports: seq<Packet>, buffers: Buffers, queues: Queues)

  /** What the propagator is given: whether it filters and how rings are sized, how long a subscriber's queue is, and
      whether the subscription manager is running. */
  datatype Config = Config(filtering: bool, sizing: Sizing, capacity: nat, running: bool)

  function Forward(c: Config, queues: Queues, p: Packet): Queues
    requires c.capacity >= 1
  {
    if c.running then FannedOut(c.capacity, queues, p) else queues
  }

  /** One packet through filter and fan-out. A verdict of the detector that is an exception counts as a refusal. */
  function PropagateOne(c: Config, s: State): State
    requires c.capacity >= 1 && s.imports != []
  {
    var p := s.imports[0];
    if c.filtering then
      var r := SubmitPacket(c.sizing, s.buffers, p);
      State(s.imports[1..], r.buffers, if r.verdict == Allowed then Forward(c, s.queues, p) else s.queues)
    else State(s.imports[1..], s.buffers, Forward(c, s.queues, p))
  }

  /** That many turns of the propagator's loop; an empty queue makes it sleep. */
  function Propagate(c: Config, s: State, rounds: nat): State
    requires c.capacity >= 1
    decreases rounds
  {
    if rounds == 0 || s.imports == [] then s else Propagate(c, PropagateOne(c, s), rounds - 1)
  }

  function ForwardAll(c: Config, queues: Queues, ps: seq<Packet>): Queues
    requires c.capacity >= 1
  {
    if ps == [] then queues else Forward(c, ForwardAll(c, queues, ps[..|ps| - 1]), ps[|ps| - 1])
  }

  /** Draining the queue with a fresh detector forwards exactly the packets the detector admits, in order. */
  lemma {:induction false} PropagatesAdmitted(c: Config, imports: seq<Packet>, queues: Queues, rounds: nat)
    requires c.capacity >= 1 && c.filtering && rounds <= |imports|
    ensures Propagate(c, State(imports, map[], queues), rounds) ==
            State(imports[rounds..], ServeAll(c.sizing, imports[..rounds]).buffers,
                  ForwardAll(c, queues, Admitted(c.sizing, imports[..rounds])))
  {
    PropagateLast(c, State(imports, map[], queues), rounds);
    if rounds > 0 {
      PropagatesAdmitted(c, imports, queues, rounds - 1);
      AdmitOne(c, imports, queues, rounds);
    } else {
      assert imports[..0] == [];
    }
  }

  /** Without a detector, the turns forward every packet, in order, and touch no ring. */
  lemma {:induction false} PropagatesEverything(c: Config, s: State, rounds: nat)
    requires c.capacity >= 1 && !c.filtering && rounds <= |s.imports|
    ensures Propagate(c, s, rounds) ==
            State(s.imports[rounds..], s.buffers, ForwardAll(c, s.queues, s.imports[..rounds]))
  {
    hide Forward;
    PropagateLast(c, s, rounds);
    if rounds > 0 {
      PropagatesEverything(c, s, rounds - 1);
      var all := s.imports[..rounds];
      assert all[..|all| - 1] == s.imports[..rounds - 1];
      assert s.imports[rounds - 1..][1..] == s.imports[rounds..];
    } else {
      assert s.imports[..0] == [] && s.imports[0..] == s.imports;
    }
  }

  /** The last turn of the loop, taken off. */
  lemma {:induction false} PropagateLast(c: Config, s: State, rounds: nat)
    requires c.capacity >= 1 && rounds <= |s.imports|
    ensures |Propagate(c, s, rounds).imports| == |s.imports| - rounds
    ensures rounds > 0 ==> |Propagate(c, s, rounds - 1).imports| == |s.imports| - (rounds - 1)
    ensures rounds > 0 ==> Propagate(c, s, rounds) == PropagateOne(c, Propagate(c, s, rounds - 1))
    decreases rounds
  {
    hide Forward, SubmitPacket;
    if rounds > 0 {
      PropagateLast(c, PropagateOne(c, s), rounds - 1);
    }
  }

  lemma AdmitOne(c: Config, imports: seq<Packet>, queues: Queues, rounds: nat)
    requires c.capacity >= 1 && c.filtering && 0 < rounds <= |imports|
    ensures var ps := imports[..rounds - 1];
            var s := State(imports[rounds - 1..], ServeAll(c.sizing, ps).buffers,
                           ForwardAll(c, queues, Admitted(c.sizing, ps)));
            PropagateOne(c, s) == State(imports[rounds..], ServeAll(c.sizing, imports[..rounds]).buffers,
                                        ForwardAll(c, queues, Admitted(c.sizing, imports[..rounds])))
  {
    hide Forward, SubmitPacket;
    var all := imports[..rounds];
    assert all[..|all| - 1] == imports[..rounds - 1];
    assert imports[rounds - 1..][1..] == imports[rounds..];
    var before := Admitted(c.sizing, all[..|all| - 1]);
    assert (before + [all[|all| - 1]])[..|before|] == before;
  }

  class Proxy {
    const queueCapacity: nat
    const detector: DuplicatePacketDetector?
    const manager: SubscriptionManager
    var importQueue: seq<Packet>

    ghost predicate Valid()
      reads this, manager, manager.Repr, detector, if detector != null then detector.Repr else {}
    {
      && queueCapacity >= 1
      && manager.Valid() && this !in manager.Repr
      && (detector != null ==> detector.Valid() && this !in detector.Repr && detector.Repr !! manager.Repr)
    }

    ghost function View(): State
      requires Valid()
      reads this, manager, manager.Repr, detector, if detector != null then detector.Repr else {}
    {
      State(importQueue, if detector != null then detector.View() else map[], manager.View())
    }

    ghost function Settings(): Config
      reads manager`keepRunning
    {
      Config(detector != null, if detector != null then detector.sizing else Slots(1), manager.capacity,
             manager.keepRunning)
    }

    /** The options refuse a capacity below one. */
    constructor (queueCapacity: nat, detector: DuplicatePacketDetector?, manager: SubscriptionManager)
      requires queueCapacity >= 1 && manager.Valid()
      requires detector != null ==> detector.Valid() && detector.Repr !! manager.Repr
      ensures Valid() && this.queueCapacity == queueCapacity && this.detector == detector && this.manager == manager
      ensures importQueue == []
    {
      this.queueCapacity := queueCapacity;
      this.detector := detector;
      this.manager := manager;
      importQueue := [];
    }

    /** A publisher adding a packet with nobody else in the callback: the oldest make room. */
    method AddPacketCallback(p: Packet)
      requires Valid()
      modifies this
      ensures Valid() && View() == old(View()).(imports := Enqueued(queueCapacity, old(importQueue), p))
    {
      hide SubscriptionManager.Valid, SubscriptionManager.View, DuplicatePacketDetector.Valid,
           DuplicatePacketDetector.View;
      ghost var n := 0;
      while |importQueue| >= queueCapacity
        invariant n <= Overflow(queueCapacity, old(importQueue)) <= |old(importQueue)|
        invariant importQueue == old(importQueue)[n..]
        decreases |importQueue|
      {
        if importQueue == [] {
          break;
        }
        importQueue := importQueue[1..];
        n := n + 1;
      }
      if |importQueue| < queueCapacity {
        importQueue := importQueue + [p];
      }
    }

    method PropagatePacketsToBackend(rounds: nat)
      requires Valid()
      modifies this, manager.Repr, if detector != null then detector.Repr else {}
      ensures Valid() && Settings() == old(Settings())
      ensures View() == Propagate(Settings(), old(View()), rounds)
    {
      hide PropagateOne;
      var i := 0;
      ghost var c := Settings();
      while i < rounds
        invariant i <= rounds
        invariant Valid() && Settings() == c
        invariant manager.Repr == old(manager.Repr)
        invariant detector != null ==> fresh(detector.Repr - old(detector.Repr))
        invariant Propagate(c, View(), rounds - i) == Propagate(c, old(View()), rounds)
      {
        if importQueue != [] {
          TurnOnce();
        }
        i := i + 1;
      }
    }

    /** The detector, if there is one, is asked about the packet. */
    method Passes(p: Packet) returns (passed: bool)
      requires Valid()
      modifies if detector != null then detector.Repr else {}
      ensures Valid() && (detector != null ==> fresh(detector.Repr - old(detector.Repr)))
      ensures Settings() == old(Settings()) && manager.Repr == old(manager.Repr)
      ensures detector == null ==> passed && View() == old(View())
      ensures detector != null ==>
                var r := SubmitPacket(detector.sizing, old(View()).buffers, p);
                passed == (r.verdict == Allowed) && View() == old(View()).(buffers := r.buffers)
    {
      assert manager in manager.Repr && (detector != null ==> detector in detector.Repr);
      hide SubscriptionManager.Valid, SubscriptionManager.View, DuplicatePacketDetector.Valid,
           DuplicatePacketDetector.View,
           SubmitPacket;
      passed := true;
      if detector != null {
        var verdict := detector.AllowPacket(p);
        passed := verdict == Allowed;
      }
    }

    /** The packet goes to every subscriber. */
    method SendOn(p: Packet)
      requires Valid()
      modifies manager.Repr
      ensures Valid() && Settings() == old(Settings()) && manager.Repr == old(manager.Repr)
      ensures detector != null ==> detector.Repr == old(detector.Repr)
      ensures View() == old(View()).(queues := Forward(Settings(), old(View()).queues, p))
    {
      assert manager in manager.Repr && (detector != null ==> detector in detector.Repr);
      hide SubscriptionManager.Valid, SubscriptionManager.View, DuplicatePacketDetector.Valid,
           DuplicatePacketDetector.View,
           FannedOut, Full;
      var lost := manager.EnqueuePacket(p);
    }

    method Pop() returns (p: Packet)
      requires Valid() && importQueue != []
      modifies this
      ensures Valid() && p == old(importQueue)[0]
      ensures View() == old(View()).(imports := old(View()).imports[1..])
      ensures p == old(View()).imports[0]
    {
      assert manager in manager.Repr && (detector != null ==> detector in detector.Repr);
      hide SubscriptionManager.Valid, SubscriptionManager.View, DuplicatePacketDetector.Valid,
           DuplicatePacketDetector.View;
      p := importQueue[0];
      importQueue := importQueue[1..];
    }

    method TurnOnce()
      requires Valid() && importQueue != []
      modifies this, manager.Repr, if detector != null then detector.Repr else {}
      ensures Valid() && Settings() == old(Settings()) && manager.Repr == old(manager.Repr)
      ensures detector != null ==> fresh(detector.Repr - old(detector.Repr))
      ensures View() == PropagateOne(Settings(), old(View()))
    {
      Footprint();
      hide SubmitPacket, Forward, Valid, View;
      var p := Pop();
      var passed := Passes(p);
      if passed {
        SendOn(p);
      }
    }

    lemma Footprint()
      requires Valid()
      ensures this !in manager.Repr && manager in manager.Repr
      ensures View().imports == importQueue
      ensures detector == null ==> View().buffers == map[]
      ensures detector != null ==> this !in detector.Repr && detector.Repr !! manager.Repr
    {
    }
  }
}
