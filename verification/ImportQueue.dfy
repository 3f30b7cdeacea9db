/** The drop-oldest queue between publishers and propagator: any number of publishers inside addPacketCallback at once,
    interleaved at every operation on the queue. */
module ImportQueue {
  import opened Packets
  import opened Subsequences

  type PublisherId = nat

  /** A packet and, as history, who submitted it. */
  datatype Entry = Entry(publisher: PublisherId, packet: Packet)

  /** Where a publisher is in addPacketCallback: about to read the size, to pop, or to push. */
  datatype Producer = Idle | Sizing(entry: Entry) | Popping(entry: Entry) | Pushing(entry: Entry)

  /** The queue and its history: what was submitted, what was pushed, and where it went. */
  datatype Imports = Imports(
    capacity: nat,
    queue: seq<Entry>,
    producers: map<PublisherId, Producer>,
    submitted: seq<Entry>,
    pushed: seq<Entry>,
    evicted: seq<Entry>,
    refused: seq<Entry>,
    taken: seq<Entry>)

  datatype Event =
    | Submit(publisher: PublisherId, packet: Packet)
    | ReadSize(publisher: PublisherId)
    | TryPop(publisher: PublisherId)
    | TryPush(publisher: PublisherId)
    | Take

  function ProducerOf(s: Imports, q: PublisherId): Producer {
    if q in s.producers then s.producers[q] else Idle
  }

  predicate Enabled(s: Imports, e: Event) {
    match e
    case Submit(q, _) => ProducerOf(s, q).Idle?
    case ReadSize(q) => ProducerOf(s, q).Sizing?
    case TryPop(q) => ProducerOf(s, q).Popping?
    case TryPush(q) => ProducerOf(s, q).Pushing?
    case Take => s.queue != []
  }

  function Now(s: Imports, q: PublisherId, p: Producer): Imports {
    s.(producers := s.producers[q := p])
  }

  function Effect(s: Imports, e: Event): Imports
    requires Enabled(s, e)
  {
    match e
    case Submit(q, p) => Now(s, q, Sizing(Entry(q, p))).(submitted := s.submitted + [Entry(q, p)])
    case ReadSize(q) =>
      var x := ProducerOf(s, q).entry;
      Now(s, q, if |s.queue| >= s.capacity then Popping(x) else Pushing(x))
    case TryPop(q) =>
      var x := ProducerOf(s, q).entry;
      if s.queue == [] then Now(s, q, Pushing(x))
      else Now(s, q, Sizing(x)).(queue := s.queue[1..], evicted := s.evicted + [s.queue[0]])
    case TryPush(q) =>
      var x := ProducerOf(s, q).entry;
      if |s.queue| < s.capacity then Now(s, q, Idle).(queue := s.queue + [x], pushed := s.pushed + [x])
      else Now(s, q, Idle).(refused := s.refused + [x])
    case Take => s.(queue := s.queue[1..], taken := s.taken + [s.queue[0]])
  }

  // ---------------------------------------------------------------- per publisher

  /** The entries of one publisher. */
  function Of(s: seq<Entry>, q: PublisherId): seq<Entry> {
    if s == [] then []
    else Of(s[..|s| - 1], q) + if s[|s| - 1].publisher == q then [s[|s| - 1]] else []
  }

  lemma OfAppend(s: seq<Entry>, x: Entry, q: PublisherId)
    ensures Of(s + [x], q) == Of(s, q) + if x.publisher == q then [x] else []
  {
    assert (s + [x])[..|s|] == s;
  }

  lemma {:induction false} OfFirst(s: seq<Entry>, q: PublisherId)
    requires s != []
    ensures Of(s, q) == (if s[0].publisher == q then [s[0]] else []) + Of(s[1..], q)
  {
    if |s| > 1 {
      var init := s[..|s| - 1];
      OfFirst(init, q);
      OfAppend(init[1..], s[|s| - 1], q);
      assert init[1..] + [s[|s| - 1]] == s[1..];
    } else {
      assert s[..0] == [] && s[1..] == [];
    }
  }

  lemma OfExtend(a: seq<Entry>, b: seq<Entry>, x: Entry, q: PublisherId)
    requires IsSubseq(Of(a, q), Of(b, q))
    ensures IsSubseq(Of(a + [x], q), Of(b + [x], q)) && IsSubseq(Of(a, q), Of(b + [x], q))
  {
    OfAppend(a, x, q);
    OfAppend(b, x, q);
    Extend(Of(a, q), Of(b, q), x);
    assert Of(a, q) + [] == Of(a, q) && Of(b, q) + [] == Of(b, q);
  }

  lemma {:induction false} OfSubseq(a: seq<Entry>, b: seq<Entry>, q: PublisherId)
    requires IsSubseq(a, b)
    ensures IsSubseq(Of(a, q), Of(b, q))
    decreases |b|
  {
    if a != [] {
      var init := b[..|b| - 1];
      var x := b[|b| - 1];
      assert b == init + [x];
      if a[|a| - 1] == x && IsSubseq(a[..|a| - 1], init) {
        OfSubseq(a[..|a| - 1], init, q);
        OfExtend(a[..|a| - 1], init, x, q);
        assert a == a[..|a| - 1] + [x];
      } else {
        OfSubseq(a, init, q);
        OfExtend(a, init, x, q);
      }
    }
  }

  /** What a publisher has submitted and its callback has not settled yet. */
  function InFlight(s: Imports, q: PublisherId): seq<Entry> {
    if ProducerOf(s, q).Idle? then [] else [ProducerOf(s, q).entry]
  }

  // ---------------------------------------------------------------- the invariant

  /** No packet of the publisher is lost track of or made up. */
  ghost predicate Accounted(s: Imports, q: PublisherId) {
    multiset(Of(s.submitted, q)) ==
      multiset(Of(s.queue, q)) + multiset(Of(s.evicted, q)) + multiset(Of(s.refused, q)) + multiset(Of(s.taken, q))
      + multiset(InFlight(s, q))
  }

  /** The publisher's packets are pushed in the order it submitted them. */
  ghost predicate PushedInOrder(s: Imports, q: PublisherId) {
    IsSubseq(Of(s.pushed, q) + InFlight(s, q), Of(s.submitted, q))
  }

  ghost predicate OwnEntry(s: Imports, q: PublisherId) {
    forall x <- InFlight(s, q) :: x.publisher == q
  }

  ghost predicate PublisherInv(s: Imports, q: PublisherId) {
    Accounted(s, q) && PushedInOrder(s, q) && OwnEntry(s, q)
  }

  ghost predicate Inv(s: Imports) {
    && s.capacity >= 1
    && |s.queue| <= s.capacity
    && IsSubseq(s.taken + s.queue, s.pushed)
    && forall q: PublisherId :: PublisherInv(s, q)
  }

  lemma QueueKept(s: Imports, e: Event)
    requires Inv(s) && Enabled(s, e)
    ensures |Effect(s, e).queue| <= s.capacity
    ensures IsSubseq(Effect(s, e).taken + Effect(s, e).queue, Effect(s, e).pushed)
  {
    hide PublisherInv, IsSubseq;
    if s.queue != [] {
      FrontDropped(s.taken, s.queue, s.pushed);
    }
    if e.TryPush? {
      BackAdded(s.taken, s.queue, s.pushed, ProducerOf(s, e.publisher).entry);
    }
  }

  lemma PublisherKept(s: Imports, e: Event, q: PublisherId)
    requires PublisherInv(s, q) && Enabled(s, e) && (e.TryPush? ==> OwnEntry(s, e.publisher))
    ensures PublisherInv(Effect(s, e), q)
  {
    AccountedKept(s, e, q);
    OrderKept(s, e, q);
  }

  lemma AccountedKept(s: Imports, e: Event, q: PublisherId)
    requires Accounted(s, q) && OwnEntry(s, q) && Enabled(s, e) && (e.TryPush? ==> OwnEntry(s, e.publisher))
    ensures Accounted(Effect(s, e), q) && OwnEntry(Effect(s, e), q)
  {
    match e
    case Submit(o, p) => SubmitAccounted(s, o, p, q);
    case ReadSize(o) => ReadSizeAccounted(s, o, q);
    case TryPop(o) => TryPopAccounted(s, o, q);
    case TryPush(o) => TryPushAccounted(s, o, q);
    case Take => TakeAccounted(s, q);
  }

  lemma SubmitAccounted(s: Imports, o: PublisherId, p: Packet, q: PublisherId)
    requires Accounted(s, q) && OwnEntry(s, q) && Enabled(s, Submit(o, p))
    ensures Accounted(Effect(s, Submit(o, p)), q) && OwnEntry(Effect(s, Submit(o, p)), q)
  {
    hide Of;
    OfAppend(s.submitted, Entry(o, p), q);
  }

  lemma ReadSizeAccounted(s: Imports, o: PublisherId, q: PublisherId)
    requires Accounted(s, q) && OwnEntry(s, q) && Enabled(s, ReadSize(o))
    ensures Accounted(Effect(s, ReadSize(o)), q) && OwnEntry(Effect(s, ReadSize(o)), q)
  {
    hide Of;
    assert InFlight(Effect(s, ReadSize(o)), q) == InFlight(s, q);
  }

  lemma TryPopAccounted(s: Imports, o: PublisherId, q: PublisherId)
    requires Accounted(s, q) && OwnEntry(s, q) && Enabled(s, TryPop(o))
    ensures Accounted(Effect(s, TryPop(o)), q) && OwnEntry(Effect(s, TryPop(o)), q)
  {
    hide Of;
    var s' := Effect(s, TryPop(o));
    assert InFlight(s', q) == InFlight(s, q);
    if s.queue != [] {
      FirstMoves(s.queue, s.evicted, q);
    }
  }

  /** The front of one sequence, moved to the end of another. */
  lemma FirstMoves(from: seq<Entry>, to: seq<Entry>, q: PublisherId)
    requires from != []
    ensures multiset(Of(from[1..], q)) + multiset(Of(to + [from[0]], q)) == multiset(Of(from, q)) + multiset(Of(to, q))
  {
    hide Of;
    OfFirst(from, q);
    OfAppend(to, from[0], q);
  }

  lemma TryPushAccounted(s: Imports, o: PublisherId, q: PublisherId)
    requires Accounted(s, q) && OwnEntry(s, q) && Enabled(s, TryPush(o)) && OwnEntry(s, o)
    ensures Accounted(Effect(s, TryPush(o)), q) && OwnEntry(Effect(s, TryPush(o)), q)
  {
    hide Of;
    var x := ProducerOf(s, o).entry;
    assert x in InFlight(s, o);
    OfAppend(s.queue, x, q);
    OfAppend(s.refused, x, q);
    if o != q {
      assert InFlight(Effect(s, TryPush(o)), q) == InFlight(s, q);
    } else {
      assert InFlight(s, q) == [x] && InFlight(Effect(s, TryPush(o)), q) == [];
    }
  }

  lemma TakeAccounted(s: Imports, q: PublisherId)
    requires Accounted(s, q) && OwnEntry(s, q) && Enabled(s, Take)
    ensures Accounted(Effect(s, Take), q) && OwnEntry(Effect(s, Take), q)
  {
    hide Of;
    assert InFlight(Effect(s, Take), q) == InFlight(s, q);
    OfFirst(s.queue, q);
    OfAppend(s.taken, s.queue[0], q);
  }

  lemma SubmitInOrder(s: Imports, o: PublisherId, p: Packet, q: PublisherId)
    requires PushedInOrder(s, q) && OwnEntry(s, q) && Enabled(s, Submit(o, p))
    ensures PushedInOrder(Effect(s, Submit(o, p)), q)
  {
    hide Of, IsSubseq;
    var s' := Effect(s, Submit(o, p));
    OfAppend(s.submitted, Entry(o, p), q);
    Extend(Of(s.pushed, q) + InFlight(s, q), Of(s.submitted, q), Entry(o, p));
    if o == q {
      assert Of(s.pushed, q) + InFlight(s, q) + [Entry(o, p)] == Of(s.pushed, q) + InFlight(s', q);
    } else {
      assert Of(s.submitted, q) + [] == Of(s.submitted, q);
    }
  }

  lemma TryPushInOrder(s: Imports, o: PublisherId, q: PublisherId)
    requires PushedInOrder(s, q) && OwnEntry(s, q) && OwnEntry(s, o) && Enabled(s, TryPush(o))
    ensures PushedInOrder(Effect(s, TryPush(o)), q)
  {
    hide Of, IsSubseq;
    var x := ProducerOf(s, o).entry;
    assert x in InFlight(s, o);
    OfAppend(s.pushed, x, q);
    var before := Of(s.pushed, q);
    assert before + [] == before && before + [x] + [] == before + [x];
    if o == q {
      PrefixSubseq(before, [x], Of(s.submitted, q));
    }
  }

  lemma OrderKept(s: Imports, e: Event, q: PublisherId)
    requires PushedInOrder(s, q) && OwnEntry(s, q) && Enabled(s, e)
    requires e.TryPush? ==> OwnEntry(s, e.publisher)
    ensures PushedInOrder(Effect(s, e), q)
  {
    hide Of, IsSubseq;
    match e
    case Submit(o, p) => SubmitInOrder(s, o, p, q);
    case TryPush(o) => TryPushInOrder(s, o, q);
    case _ => assert InFlight(Effect(s, e), q) == InFlight(s, q);
  }

  // ---------------------------------------------------------------- every run

  function Initial(capacity: nat): Imports {
    Imports(capacity, [], map[], [], [], [], [], [])
  }

  lemma InitialInv(capacity: nat)
    requires capacity >= 1
    ensures Inv(Initial(capacity))
  {
  }

  lemma StepInv(s: Imports, e: Event)
    requires Inv(s) && Enabled(s, e)
    ensures Inv(Effect(s, e))
  {
    hide PublisherInv, IsSubseq;
    QueueKept(s, e);
    forall q: PublisherId ensures PublisherInv(Effect(s, e), q) {
      if e.TryPush? {
        PublisherOwns(s, e.publisher);
      }
      PublisherKept(s, e, q);
    }
  }

  lemma PublisherOwns(s: Imports, q: PublisherId)
    requires PublisherInv(s, q)
    ensures OwnEntry(s, q)
  {
  }

  function After(s: Imports, events: seq<Event>): Option<Imports> {
    if events == [] then Some(s)
    else
      match After(s, events[..|events| - 1])
      case None => None
      case Some(mid) =>
        if Enabled(mid, events[|events| - 1]) then Some(Effect(mid, events[|events| - 1])) else None
  }

  lemma {:induction false} ReachedInv(capacity: nat, events: seq<Event>, s: Imports)
    requires capacity >= 1 && After(Initial(capacity), events) == Some(s)
    ensures Inv(s)
  {
    hide Inv, Enabled, Effect;
    if events == [] {
      InitialInv(capacity);
    } else {
      var mid := After(Initial(capacity), events[..|events| - 1]).value;
      ReachedInv(capacity, events[..|events| - 1], mid);
      StepInv(mid, events[|events| - 1]);
    }
  }

  /** What the propagator takes from a publisher is, in order, part of what the publisher submitted; and every packet
      submitted is queued, evicted, refused, taken or still in its callback. */
  lemma PublisherConservation(capacity: nat, events: seq<Event>, s: Imports, q: PublisherId)
    requires capacity >= 1 && After(Initial(capacity), events) == Some(s)
    ensures |s.queue| <= s.capacity
    ensures IsSubseq(Of(s.taken, q), Of(s.submitted, q))
    ensures Accounted(s, q)
    ensures |Of(s.submitted, q)| ==
            |Of(s.queue, q)| + |Of(s.evicted, q)| + |Of(s.refused, q)| + |Of(s.taken, q)| + |InFlight(s, q)|
  {
    hide Of, IsSubseq;
    ReachedInv(capacity, events, s);
    TakenInOrder(s, q);
    assert PublisherInv(s, q);
    CountAccounted(Of(s.submitted, q), Of(s.queue, q), Of(s.evicted, q), Of(s.refused, q), Of(s.taken, q),
                   InFlight(s, q));
  }

  lemma CountAccounted(all: seq<Entry>, a: seq<Entry>, b: seq<Entry>, c: seq<Entry>, d: seq<Entry>, e: seq<Entry>)
    requires multiset(all) == multiset(a) + multiset(b) + multiset(c) + multiset(d) + multiset(e)
    ensures |all| == |a| + |b| + |c| + |d| + |e|
  {
    assert |multiset(all)| == |all|;
    assert |multiset(a) + multiset(b) + multiset(c) + multiset(d) + multiset(e)| == |a| + |b| + |c| + |d| + |e|;
  }

  lemma TakenInOrder(s: Imports, q: PublisherId)
    requires Inv(s)
    ensures IsSubseq(Of(s.taken, q), Of(s.submitted, q))
  {
    hide Of, IsSubseq;
    assert PublisherInv(s, q);
    PrefixSubseq(s.taken, s.queue, s.pushed);
    OfSubseq(s.taken, s.pushed, q);
    PrefixSubseq(Of(s.pushed, q), InFlight(s, q), Of(s.submitted, q));
    Transitive(Of(s.taken, q), Of(s.pushed, q), Of(s.submitted, q));
  }

  /** Drop-oldest: whatever was evicted or taken, the queue is always the newest of the packets pushed, in order. */
  lemma {:induction false} QueueIsNewest(capacity: nat, events: seq<Event>, s: Imports)
    requires capacity >= 1 && After(Initial(capacity), events) == Some(s)
    ensures IsSuffix(s.queue, s.pushed)
  {
    hide Enabled, Effect;
    if events != [] {
      var mid := After(Initial(capacity), events[..|events| - 1]).value;
      QueueIsNewest(capacity, events[..|events| - 1], mid);
      NewestStep(mid, events[|events| - 1]);
    }
  }

  lemma NewestStep(s: Imports, e: Event)
    requires Enabled(s, e) && IsSuffix(s.queue, s.pushed)
    ensures IsSuffix(Effect(s, e).queue, Effect(s, e).pushed)
  {
    hide IsSuffix;
    if s.queue != [] {
      SuffixShortened(s.queue, 1, s.pushed);
    }
    if e.TryPush? {
      SuffixExtended(s.queue, s.pushed, ProducerOf(s, e.publisher).entry);
    }
  }

  // ---------------------------------------------------------------- who gets refused

  /** The publishers inside the callback. */
  ghost function Busy(s: Imports): set<PublisherId> {
    set q | q in s.producers && !s.producers[q].Idle?
  }

  /** At no moment of the run are more than `bound` publishers inside the callback. */
  ghost predicate BusyWithin(capacity: nat, events: seq<Event>, bound: nat) {
    && After(Initial(capacity), events).Some?
    && |Busy(After(Initial(capacity), events).value)| <= bound
    && (events != [] ==> BusyWithin(capacity, events[..|events| - 1], bound))
  }

  /** Nothing was refused, and who is about to push has room. */
  ghost predicate RoomSeen(s: Imports) {
    s.refused == [] && forall q: PublisherId :: ProducerOf(s, q).Pushing? ==> |s.queue| < s.capacity
  }

  ghost predicate OneBusy(s: Imports) {
    forall o: PublisherId, q: PublisherId :: !ProducerOf(s, o).Idle? && !ProducerOf(s, q).Idle? ==> o == q
  }

  lemma OneIsBusy(s: Imports)
    requires |Busy(s)| <= 1
    ensures OneBusy(s)
  {
    forall o: PublisherId, q: PublisherId | !ProducerOf(s, o).Idle? && !ProducerOf(s, q).Idle? ensures o == q {
      assert o in Busy(s) && q in Busy(s);
      OneMember(Busy(s), o, q);
    }
  }

  lemma OneMember<T>(a: set<T>, x: T, y: T)
    requires |a| <= 1 && x in a && y in a
    ensures x == y
  {
    assert |a - {x}| == |a| - 1;
    assert y != x ==> y in a - {x};
  }

  lemma RoomSeenStep(s: Imports, e: Event)
    requires s.capacity >= 1 && RoomSeen(s) && OneBusy(s) && Enabled(s, e)
    ensures RoomSeen(Effect(s, e)) && Effect(s, e).capacity == s.capacity
  {
    var s' := Effect(s, e);
    assert e.TryPush? ==> !ProducerOf(s, e.publisher).Idle?;
    forall q: PublisherId | ProducerOf(s', q).Pushing? ensures |s'.queue| < s'.capacity {
      if e.Take? || q != e.publisher {
        assert ProducerOf(s, q).Pushing?;
      }
    }
  }

  /** Publishers that take turns in the callback are never refused: the room one saw is still there. */
  lemma {:induction false} AloneNeverRefused(capacity: nat, events: seq<Event>)
    requires capacity >= 1 && BusyWithin(capacity, events, 1)
    ensures var s := After(Initial(capacity), events).value;
            s.refused == [] && RoomSeen(s) && s.capacity == capacity
  {
    hide Enabled, Effect;
    if events != [] {
      var init := events[..|events| - 1];
      AloneNeverRefused(capacity, init);
      OneIsBusy(After(Initial(capacity), init).value);
      RoomSeenStep(After(Initial(capacity), init).value, events[|events| - 1]);
    }
  }

  /** A run so far in which only publishers 0 and 1 were ever in the callback, `bound` of them at a time, and nothing
      was evicted or refused. */
  ghost predicate Quiet(capacity: nat, events: seq<Event>, s: Imports, bound: nat) {
    && After(Initial(capacity), events) == Some(s) && BusyWithin(capacity, events, bound)
    && s.capacity == capacity && s.refused == [] && s.evicted == []
    && s.producers.Keys <= {0, 1}
  }

  lemma Then(capacity: nat, events: seq<Event>, s: Imports, e: Event, bound: nat)
    requires Quiet(capacity, events, s, bound) && Enabled(s, e) && |Busy(Effect(s, e))| <= bound
    ensures After(Initial(capacity), events + [e]) == Some(Effect(s, e)) && BusyWithin(capacity, events + [e], bound)
  {
    hide Enabled, Effect;
    assert (events + [e])[..|events|] == events;
  }

  lemma AtMostTwo(a: set<nat>)
    requires a <= {0, 1}
    ensures |a| <= 2
    ensures a != {0, 1} ==> |a| <= 1
  {
    assert |a - {0} - {1}| == 0;
  }

  /** One event of publisher 0 or 1 that neither evicts nor refuses. */
  lemma QuietStep(capacity: nat, events: seq<Event>, s: Imports, e: Event)
    requires Quiet(capacity, events, s, 2) && Enabled(s, e) && !e.Take? && e.publisher in {0, 1} && !e.TryPop?
    requires e.TryPush? ==> |s.queue| < s.capacity
    ensures Quiet(capacity, events + [e], Effect(s, e), 2)
  {
    hide BusyWithin;
    var s' := Effect(s, e);
    assert Busy(s') <= {0, 1};
    AtMostTwo(Busy(s'));
    Then(capacity, events, s, e, 2);
  }

  lemma NothingYet(capacity: nat)
    ensures Quiet(capacity, [], Initial(capacity), 2)
  {
    assert Busy(Initial(capacity)) == {};
  }

  ghost predicate Settled(s: Imports, n: nat) {
    |s.queue| == n && ProducerOf(s, 0).Idle? && ProducerOf(s, 1).Idle?
  }

  /** A queue filled up to `n` packets. */
  lemma {:induction false} Fill(capacity: nat, n: nat, p: Packet) returns (events: seq<Event>, s: Imports)
    requires n <= capacity
    ensures Quiet(capacity, events, s, 2) && Settled(s, n)
  {
    hide Quiet;
    if n == 0 {
      events, s := [], Initial(capacity);
      NothingYet(capacity);
    } else {
      events, s := Fill(capacity, n - 1, p);
      events, s := FillOne(capacity, events, s, n - 1, p);
    }
  }

  lemma FillOne(capacity: nat, events: seq<Event>, s: Imports, n: nat, p: Packet)
    returns (events': seq<Event>, s': Imports)
    requires Quiet(capacity, events, s, 2) && Settled(s, n) && n < capacity
    ensures Quiet(capacity, events', s', 2) && Settled(s', n + 1)
  {
    hide BusyWithin, After;
    var s1 := Effect(s, Submit(0, p));
    QuietStep(capacity, events, s, Submit(0, p));
    var s2 := Effect(s1, ReadSize(0));
    QuietStep(capacity, events + [Submit(0, p)], s1, ReadSize(0));
    s' := Effect(s2, TryPush(0));
    QuietStep(capacity, events + [Submit(0, p)] + [ReadSize(0)], s2, TryPush(0));
    events' := events + [Submit(0, p)] + [ReadSize(0)] + [TryPush(0)];
  }

  /** Both publishers have looked at a queue with one free place. */
  lemma BothLook(capacity: nat, events: seq<Event>, s: Imports, p: Packet, q: Packet)
    returns (events': seq<Event>, s': Imports)
    requires capacity >= 1 && Quiet(capacity, events, s, 2) && Settled(s, capacity - 1)
    ensures Quiet(capacity, events', s', 2) && |s'.queue| == capacity - 1
    ensures ProducerOf(s', 0) == Pushing(Entry(0, p)) && ProducerOf(s', 1) == Pushing(Entry(1, q))
  {
    hide BusyWithin, After;
    var s1 := Effect(s, Submit(0, p));
    QuietStep(capacity, events, s, Submit(0, p));
    var s2 := Effect(s1, Submit(1, q));
    QuietStep(capacity, events + [Submit(0, p)], s1, Submit(1, q));
    var e2 := events + [Submit(0, p)] + [Submit(1, q)];
    var s3 := Effect(s2, ReadSize(0));
    QuietStep(capacity, e2, s2, ReadSize(0));
    s' := Effect(s3, ReadSize(1));
    QuietStep(capacity, e2 + [ReadSize(0)], s3, ReadSize(1));
    events' := e2 + [ReadSize(0)] + [ReadSize(1)];
  }

  /** Whatever the capacity: two publishers see the last free place at once, and the second loses its own, newest packet
      although nothing was evicted. */
  lemma TwoPublishersOneRefused(capacity: nat, p: Packet, q: Packet) returns (events: seq<Event>, s: Imports)
    requires capacity >= 1
    ensures After(Initial(capacity), events) == Some(s) && BusyWithin(capacity, events, 2)
    ensures s.refused == [Entry(1, q)] && s.evicted == [] && |s.queue| == capacity
  {
    hide BusyWithin, After;
    events, s := Fill(capacity, capacity - 1, p);
    events, s := BothLook(capacity, events, s, p, q);
    QuietStep(capacity, events, s, TryPush(0));
    events, s := events + [TryPush(0)], Effect(s, TryPush(0));
    var s' := Effect(s, TryPush(1));
    assert Busy(s') <= {0, 1};
    AtMostTwo(Busy(s'));
    Then(capacity, events, s, TryPush(1), 2);
    events, s := events + [TryPush(1)], s';
  }

  lemma {:induction false} MoreBusy(capacity: nat, events: seq<Event>, few: nat, many: nat)
    requires BusyWithin(capacity, events, few) && few <= many
    ensures BusyWithin(capacity, events, many)
  {
    if events != [] {
      MoreBusy(capacity, events[..|events| - 1], few, many);
    }
  }

  /** Drop-oldest holds in every run, whatever the capacity, exactly if publishers enter the callback one at a time. */
  lemma RefusalsNeedTwo(capacity: nat, bound: nat)
    requires capacity >= 1
    ensures (forall events | BusyWithin(capacity, events, bound) ::
               After(Initial(capacity), events).value.refused == [])
            <==> bound <= 1
  {
    hide After;
    if bound <= 1 {
      forall events | BusyWithin(capacity, events, bound)
        ensures After(Initial(capacity), events).value.refused == []
      {
        MoreBusy(capacity, events, bound, 1);
        AloneNeverRefused(capacity, events);
      }
    } else {
      var p := Packet(StreamIdentifier("UU", "CTU", "HHZ", "01"), 0, 100.0, Integer32, 100, 0);
      var events, s := TwoPublishersOneRefused(capacity, p, p);
      MoreBusy(capacity, events, 2, bound);
    }
  }
}
