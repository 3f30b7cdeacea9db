/** The whole proxy: publishers, propagator, detector and subscribers interleaved, and what no subscriber is ever
    sent. */
module Pipeline {
  import opened Packets
  import opened Rings
  import opened Subsequences
  import opened Detectors
  import opened DetectorRuns
  import I = ImportQueue
  import B = BackendRuns
  import BI = BackendInvariants

  /** What the propagator holds between taking a packet and forwarding it. */
  datatype Hand = Empty | Unchecked(packet: Packet) | Checked(packet: Packet)

  /** `sizing` is None when duplicates are not removed; `propagated` is history: the packets handed to the backend. */
  datatype Proxy = Proxy(
    imports: I.Imports,
    sizing: Option<Sizing>,
    buffers: Buffers,
    hand: Hand,
    propagated: seq<Packet>,
    backend: B.Backend)

  datatype Event =
    | Import(move: I.Event)      // a publisher moves
    | TakePacket                  // the propagator takes from the import queue
    | Check                       // the propagator asks the detector
    | Forward(sawRunning: bool)   // the propagator fans out
    | Backend(event: B.Event)     // a subscriber or the stopping thread moves

  ghost predicate Enabled(s: Proxy, e: Event) {
    match e
    case Import(i) => !i.Take? && I.Enabled(s.imports, i)
    case TakePacket => s.hand.Empty? && I.Enabled(s.imports, I.Take)
    case Check => s.hand.Unchecked?
    case Forward(sawRunning) => s.hand.Checked? && (sawRunning || !s.backend.running)
    case Backend(b) => !b.FanOut? && B.Enabled(s.backend, b)
  }

  ghost function Effect(s: Proxy, e: Event): Proxy
    requires s.backend.capacity >= 1 && Enabled(s, e)
  {
    match e
    case Import(i) => s.(imports := I.Effect(s.imports, i))
    case TakePacket => s.(imports := I.Effect(s.imports, I.Take), hand := Unchecked(s.imports.queue[0].packet))
    case Check => Examined(s)
    case Forward(sawRunning) =>
      s.(hand := Empty, propagated := s.propagated + [s.hand.packet],
         backend := B.Effect(s.backend, B.FanOut(s.hand.packet, sawRunning)))
    case Backend(b) => s.(backend := B.Effect(s.backend, b))
  }

  /** Without a detector everything passes; with one, what it does not allow is dropped, exceptions included. */
  ghost function Examined(s: Proxy): Proxy
    requires s.hand.Unchecked?
  {
    match s.sizing
    case None => s.(hand := Checked(s.hand.packet))
    case Some(sizing) =>
      var r := SubmitPacket(sizing, s.buffers, s.hand.packet);
      s.(buffers := r.buffers, hand := if r.verdict == Allowed then Checked(s.hand.packet) else Empty)
  }

  // ---------------------------------------------------------------- the invariant

  function PacketsOf(es: seq<I.Entry>): (ps: seq<Packet>)
    ensures |ps| == |es|
  {
    seq(|es|, i requires 0 <= i < |es| => es[i].packet)
  }

  /** The packets the detector has been asked about. */
  ghost function Asked(s: Proxy): seq<Packet> {
    var all := PacketsOf(s.imports.taken);
    if s.hand.Unchecked? && all != [] then all[..|all| - 1] else all
  }

  function Held(hand: Hand): seq<Packet> {
    if hand.Checked? then [hand.packet] else []
  }

  /** The detector has seen exactly the packets asked about, and what it admitted went on or is about to. */
  ghost predicate Filtered(s: Proxy) {
    match s.sizing
    case None => s.propagated + Held(s.hand) == Asked(s)
    case Some(sizing) =>
      && s.buffers == ServeAll(sizing, Asked(s)).buffers
      && s.propagated + Held(s.hand) == Admitted(sizing, Asked(s))
  }

  ghost predicate HandTaken(s: Proxy) {
    s.hand.Unchecked? ==>
      s.imports.taken != [] && s.imports.taken[|s.imports.taken| - 1].packet == s.hand.packet
  }

  ghost predicate Inv(s: Proxy) {
    && I.Inv(s.imports)
    && BI.Inv(s.backend)
    && HandTaken(s)
    && Filtered(s)
    && IsSubseq(s.backend.fanned, s.propagated)
  }

  lemma ImportStep(s: Proxy, e: Event)
    requires Inv(s) && Enabled(s, e) && e.Import?
    ensures Inv(Effect(s, e))
  {
    hide I.Inv, BI.Inv, IsSubseq;
    CapacityPositive(s.backend);
    I.StepInv(s.imports, e.move);
    assert I.Effect(s.imports, e.move).taken == s.imports.taken;
    assert Asked(Effect(s, e)) == Asked(s);
  }

  lemma TakeStep(s: Proxy, e: Event)
    requires Inv(s) && Enabled(s, e) && e.TakePacket?
    ensures Inv(Effect(s, e))
  {
    hide I.Inv, BI.Inv, IsSubseq;
    CapacityPositive(s.backend);
    I.StepInv(s.imports, I.Take);
    var s' := Effect(s, e);
    var x := s.imports.queue[0];
    assert (s.imports.taken + [x])[..|s.imports.taken|] == s.imports.taken;
    assert PacketsOf(s'.imports.taken) == PacketsOf(s.imports.taken) + [x.packet];
    assert Asked(s') == Asked(s);
  }

  lemma CheckStep(s: Proxy, e: Event)
    requires Inv(s) && Enabled(s, e) && e.Check?
    ensures Inv(Effect(s, e))
  {
    hide I.Inv, BI.Inv, IsSubseq, SubmitPacket;
    CapacityPositive(s.backend);
    var s' := Effect(s, e);
    var asked := Asked(s);
    var p := s.hand.packet;
    LastPacket(s.imports.taken);
    assert Asked(s') == asked + [p];
    assert (asked + [p])[..|asked|] == asked;
  }

  lemma LastPacket(es: seq<I.Entry>)
    requires es != []
    ensures PacketsOf(es)[|es| - 1] == es[|es| - 1].packet
  {
  }

  lemma ForwardStep(s: Proxy, e: Event)
    requires Inv(s) && Enabled(s, e) && e.Forward?
    ensures Inv(Effect(s, e))
  {
    CapacityPositive(s.backend);
    hide I.Inv, BI.Inv, IsSubseq, B.Effect, B.Enabled, Filtered;
    var p := s.hand.packet;
    FanOutFans(s.backend, p, e.sawRunning);
    BI.StepInv(s.backend, B.FanOut(p, e.sawRunning));
    Extend(s.backend.fanned, s.propagated, p);
    ForwardedFiltered(s, e);
  }

  lemma FanOutFans(b: B.Backend, p: Packet, sawRunning: bool)
    requires b.capacity >= 1 && (sawRunning || !b.running)
    ensures B.Enabled(b, B.FanOut(p, sawRunning))
    ensures B.Effect(b, B.FanOut(p, sawRunning)).fanned == if sawRunning then b.fanned + [p] else b.fanned
  {
  }

  lemma ForwardedFiltered(s: Proxy, e: Event)
    requires s.backend.capacity >= 1 && Enabled(s, e) && e.Forward? && Filtered(s)
    ensures Filtered(Effect(s, e))
  {
    hide B.Effect;
    var s' := Effect(s, e);
    assert s'.propagated + [] == s.propagated + Held(s.hand);
    assert Asked(s') == Asked(s);
  }

  lemma CapacityPositive(b: B.Backend)
    requires BI.Inv(b)
    ensures b.capacity >= 1
  {
  }

  lemma BackendStep(s: Proxy, e: Event)
    requires Inv(s) && Enabled(s, e) && e.Backend?
    ensures Inv(Effect(s, e))
  {
    hide I.Inv, BI.Inv, IsSubseq, B.Effect;
    CapacityPositive(s.backend);
    BI.StepInv(s.backend, e.event);
    OnlyFanOutFans(s.backend, e.event);
    assert Asked(Effect(s, e)) == Asked(s);
  }

  lemma OnlyFanOutFans(b: B.Backend, e: B.Event)
    requires b.capacity >= 1 && B.Enabled(b, e) && !e.FanOut?
    ensures B.Effect(b, e).fanned == b.fanned
  {
    hide B.Checked, B.Answered, B.LeftFlag, B.EndOfRpc;
  }

  lemma StepInv(s: Proxy, e: Event)
    requires Inv(s) && s.backend.capacity >= 1 && Enabled(s, e)
    ensures Inv(Effect(s, e))
  {
    hide Inv, Effect, Enabled;
    match e
    case Import(_) => ImportStep(s, e);
    case TakePacket => TakeStep(s, e);
    case Check => CheckStep(s, e);
    case Forward(_) => ForwardStep(s, e);
    case Backend(_) => BackendStep(s, e);
  }

  // ---------------------------------------------------------------- every run

  function Initial(queueCapacity: nat, sizing: Option<Sizing>, maximum: nat, streamCapacity: nat): Proxy {
    Proxy(I.Initial(queueCapacity), sizing, map[], Empty, [], BI.Initial(maximum, streamCapacity))
  }

  ghost function After(s: Proxy, events: seq<Event>): Option<Proxy> {
    if events == [] then Some(s)
    else
      match After(s, events[..|events| - 1])
      case None => None
      case Some(mid) =>
        if mid.backend.capacity >= 1 && Enabled(mid, events[|events| - 1])
        then Some(Effect(mid, events[|events| - 1])) else None
  }

  lemma InitialInv(queueCapacity: nat, sizing: Option<Sizing>, maximum: nat, streamCapacity: nat)
    requires queueCapacity >= 1 && streamCapacity >= 1
    ensures Inv(Initial(queueCapacity, sizing, maximum, streamCapacity))
  {
    I.InitialInv(queueCapacity);
    BI.InitialInv(maximum, streamCapacity);
  }

  /** `s` is reached from an idle proxy with those options. */
  ghost predicate Reached(queueCapacity: nat, sizing: Option<Sizing>, maximum: nat, streamCapacity: nat,
                          events: seq<Event>, s: Proxy) {
    && queueCapacity >= 1 && streamCapacity >= 1
    && After(Initial(queueCapacity, sizing, maximum, streamCapacity), events) == Some(s)
  }

  lemma {:induction false} ReachedInv(queueCapacity: nat, sizing: Option<Sizing>, maximum: nat, streamCapacity: nat,
                                      events: seq<Event>, s: Proxy)
    requires Reached(queueCapacity, sizing, maximum, streamCapacity, events, s)
    ensures Inv(s) && s.sizing == sizing
  {
    hide Inv, Effect, Enabled;
    var first := Initial(queueCapacity, sizing, maximum, streamCapacity);
    InitialInv(queueCapacity, sizing, maximum, streamCapacity);
    if events != [] {
      var mid := After(first, events[..|events| - 1]).value;
      ReachedInv(queueCapacity, sizing, maximum, streamCapacity, events[..|events| - 1], mid);
      StepInv(mid, events[|events| - 1]);
      SizingKept(mid, events[|events| - 1]);
    }
  }

  lemma SizingKept(s: Proxy, e: Event)
    requires s.backend.capacity >= 1 && Enabled(s, e)
    ensures Effect(s, e).sizing == s.sizing
  {
  }

  // ---------------------------------------------------------------- end to end

  /** Every packet the detector was asked about was submitted by a publisher. */
  lemma AskedSubmitted(s: Proxy)
    requires I.Inv(s.imports)
    ensures forall p <- Asked(s) :: p in PacketsOf(s.imports.submitted)
  {
    hide I.Inv;
    PacketsIn(s.imports.taken);
    PacketsIn(s.imports.submitted);
    forall p | p in Asked(s) ensures p in PacketsOf(s.imports.submitted) {
      assert p in PacketsOf(s.imports.taken);
      var x :| x in s.imports.taken && x.packet == p;
      TakenSubmitted(s.imports, x);
    }
  }

  lemma PacketsIn(es: seq<I.Entry>)
    ensures forall p: Packet :: p in PacketsOf(es) <==> exists x <- es :: x.packet == p
  {
    forall i | 0 <= i < |es| ensures es[i].packet in PacketsOf(es) {
      assert PacketsOf(es)[i] == es[i].packet;
    }
    forall p: Packet | p in PacketsOf(es) ensures exists x <- es :: x.packet == p {
      var i :| 0 <= i < |es| && PacketsOf(es)[i] == p;
      assert es[i] in es && es[i].packet == p;
    }
  }

  lemma TakenSubmitted(s: I.Imports, x: I.Entry)
    requires I.Inv(s) && x in s.taken
    ensures x in s.submitted
  {
    I.TakenInOrder(s, x.publisher);
    OfMembers(s.taken, x.publisher);
    OfMembers(s.submitted, x.publisher);
    MembersFrom(I.Of(s.taken, x.publisher), I.Of(s.submitted, x.publisher));
  }

  lemma {:induction false} OfMembers(es: seq<I.Entry>, q: I.PublisherId)
    ensures forall x: I.Entry :: x in I.Of(es, q) <==> x in es && x.publisher == q
  {
    if es != [] {
      var init := es[..|es| - 1];
      OfMembers(init, q);
      assert es == init + [es[|es| - 1]];
    }
  }

  lemma UniformSubset(all: seq<Packet>, some: seq<Packet>)
    requires UniformStreams(all) && forall p <- some :: p in all
    ensures UniformStreams(some)
  {
    hide AlikePackets;
  }

  /** The packets handed to the backend never overlap within a stream. */
  lemma {:induction false} PropagatedDisjoint(s: Proxy)
    requires Inv(s) && s.sizing.Some? && s.sizing.value.Valid()
    requires UniformStreams(PacketsOf(s.imports.submitted))
    ensures NoOverlaps(s.propagated)
  {
    hide I.Inv, BI.Inv, IsSubseq, NoOverlap, AlikePackets;
    AskedSubmitted(s);
    UniformSubset(PacketsOf(s.imports.submitted), Asked(s));
    UniformAdmittedDisjoint(s.sizing.value, Asked(s));
    var all := s.propagated + Held(s.hand);
    forall i, j | 0 <= i < j < |s.propagated| ensures NoOverlap(s.propagated[i], s.propagated[j]) {
      assert all[i] == s.propagated[i] && all[j] == s.propagated[j];
    }
  }

  /** A subscriber is sent an order-preserving part of what was propagated. */
  lemma SentFromPropagated(s: Proxy, id: B.RpcId)
    requires Inv(s) && id in s.backend.rpcs
    ensures IsSubseq(s.backend.rpcs[id].sent, s.propagated)
  {
    hide I.Inv, IsSubseq, Filtered;
    var r := s.backend.rpcs[id];
    var fanned := s.backend.fanned;
    assert BI.History(fanned, r);
    PrefixSubseq(r.sent, r.writer.queue, fanned[r.joined..]);
    SuffixSubseq(fanned, r.joined);
    Transitive(r.sent, fanned[r.joined..], fanned);
    Transitive(r.sent, fanned, s.propagated);
  }

  lemma {:induction false} AdmittedInOrder(sizing: Sizing, ps: seq<Packet>)
    ensures IsSubseq(Admitted(sizing, ps), ps)
  {
    hide ServeAll;
    if ps != [] {
      var init := ps[..|ps| - 1];
      AdmittedInOrder(sizing, init);
      assert ps == init + [ps[|ps| - 1]];
      Extend(Admitted(sizing, init), init, ps[|ps| - 1]);
    }
  }

  /** With the detector or without it, what is propagated is, in order, part of what was taken from the queue. */
  lemma PropagatedFromTaken(s: Proxy)
    requires Inv(s)
    ensures IsSubseq(s.propagated, PacketsOf(s.imports.taken))
  {
    hide I.Inv, BI.Inv, IsSubseq, Admitted, ServeAll;
    var all := PacketsOf(s.imports.taken);
    var asked := Asked(s);
    Reflexive(asked);
    if s.sizing.Some? {
      AdmittedInOrder(s.sizing.value, asked);
    }
    PrefixSubseq(s.propagated, Held(s.hand), asked);
    assert all == asked || all == asked + [all[|all| - 1]];
    if all != asked {
      Extend(s.propagated, asked, all[|all| - 1]);
    }
  }

  lemma SentDisjoint(sent: seq<Packet>, propagated: seq<Packet>)
    requires IsSubseq(sent, propagated) && NoOverlaps(propagated)
    ensures NoOverlaps(sent)
  {
    hide IsSubseq, NoOverlap;
    var related := (p: Packet, q: Packet) => NoOverlap(p, q);
    assert Pairwise(propagated, related);
    PairwiseFrom(sent, propagated, related);
    forall i, j | 0 <= i < j < |sent| ensures NoOverlap(sent[i], sent[j]) {
      assert related(sent[i], sent[j]);
    }
  }

  /** End to end, over every interleaving of publishers, propagator, subscribers and stop: with the detector on and
      uniform streams, no subscriber is ever sent two packets of one stream that share an instant; and what it is sent
      is, in order, part of what was propagated. */
  lemma NoSubscriberSeesOverlap(queueCapacity: nat, sizing: Sizing, maximum: nat, streamCapacity: nat,
                                events: seq<Event>, s: Proxy, id: B.RpcId)
    requires Reached(queueCapacity, Some(sizing), maximum, streamCapacity, events, s)
    requires sizing.Valid() && UniformStreams(PacketsOf(s.imports.submitted))
    requires id in s.backend.rpcs
    ensures NoOverlaps(s.backend.rpcs[id].sent)
    ensures IsSubseq(s.backend.rpcs[id].sent, s.propagated)
  {
    hide Inv, IsSubseq, NoOverlaps;
    ReachedInv(queueCapacity, Some(sizing), maximum, streamCapacity, events, s);
    PropagatedDisjoint(s);
    SentFromPropagated(s, id);
    SentDisjoint(s.backend.rpcs[id].sent, s.propagated);
  }

  /** Over every interleaving, filtered or not: a subscriber is sent an order-preserving part of what the propagator
      took from the import queue. */
  lemma SentFromTaken(queueCapacity: nat, sizing: Option<Sizing>, maximum: nat, streamCapacity: nat,
                      events: seq<Event>, s: Proxy, id: B.RpcId)
    requires Reached(queueCapacity, sizing, maximum, streamCapacity, events, s) && id in s.backend.rpcs
    ensures IsSubseq(s.backend.rpcs[id].sent, PacketsOf(s.imports.taken))
  {
    hide Inv, IsSubseq;
    ReachedInv(queueCapacity, sizing, maximum, streamCapacity, events, s);
    SentFromPropagated(s, id);
    PropagatedFromTaken(s);
    Transitive(s.backend.rpcs[id].sent, s.propagated, PacketsOf(s.imports.taken));
  }
}
