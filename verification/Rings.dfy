/** What one call of the detector does to the ring of one stream, as a function of the ring's contents. */
module Rings {
  import opened Packets

  // ---------------------------------------------------------------- sequences of headers

  ghost predicate AllValid(s: seq<Header>) {
    forall h <- s :: h.Valid()
  }

  /** Start times strictly increase. */
  ghost predicate Ordered(s: seq<Header>) {
    forall i, j :: 0 <= i < j < |s| ==> s[i].start < s[j].start
  }

  /** Every span ends before the next one starts. */
  ghost predicate Chain(s: seq<Header>) {
    forall i, j :: 0 <= i < j < |s| ==> s[i].end < s[j].start
  }

  ghost predicate Disjoint(a: Header, b: Header) {
    a.end < b.start || b.end < a.start
  }

  ghost predicate PairwiseDisjoint(s: seq<Header>) {
    forall i, j :: 0 <= i < j < |s| ==> Disjoint(s[i], s[j])
  }

  /** The span of `h` holds that of `stored` strictly inside it. */
  ghost predicate Straddles(h: Header, stored: Header) {
    h.start < stored.start && stored.end < h.end
  }

  ghost predicate StraddlesAny(h: Header, ring: seq<Header>) {
    exists stored <- ring :: Straddles(h, stored)
  }

  // ---------------------------------------------------------------- sorting by start time

  /** Where a header goes among headers sorted by start time: behind its equals. */
  function InsertionPoint(s: seq<Header>, h: Header): (k: nat)
    ensures k <= |s|
    ensures forall i :: k <= i < |s| ==> h.start < s[i].start
    ensures k > 0 ==> s[k - 1].start <= h.start
  {
    if s == [] || s[|s| - 1].start <= h.start then |s|
    else InsertionPoint(s[..|s| - 1], h)
  }

  /** `h` placed at position `k`. */
  function Splice(s: seq<Header>, k: nat, h: Header): (r: seq<Header>)
    requires k <= |s|
    ensures |r| == |s| + 1 && r[k] == h
    ensures forall i :: 0 <= i < k ==> r[i] == s[i]
    ensures forall i :: k < i < |r| ==> r[i] == s[i - 1]
  {
    s[..k] + [h] + s[k..]
  }

  lemma SpliceAddsOne(s: seq<Header>, k: nat, h: Header)
    requires k <= |s|
    ensures multiset(Splice(s, k, h)) == multiset(s) + multiset{h}
  {
    assert s == s[..k] + s[k..];
  }

  function Insert(s: seq<Header>, h: Header): seq<Header> {
    Splice(s, InsertionPoint(s, h), h)
  }

  lemma InsertAddsOne(s: seq<Header>, h: Header)
    ensures multiset(Insert(s, h)) == multiset(s) + multiset{h}
  {
    SpliceAddsOne(s, InsertionPoint(s, h), h);
  }

  /** std::sort by start time. */
  function Sorted(s: seq<Header>): (r: seq<Header>)
    ensures |r| == |s|
  {
    if s == [] then [] else Insert(Sorted(s[..|s| - 1]), s[|s| - 1])
  }

  ghost predicate InOrder(s: seq<Header>) {
    forall i, j :: 0 <= i < j < |s| ==> s[i].start <= s[j].start
  }

  lemma InsertKeepsOrder(s: seq<Header>, h: Header)
    requires InOrder(s)
    ensures InOrder(Insert(s, h))
  {
    var k := InsertionPoint(s, h);
    var r := Insert(s, h);
    forall i, j | 0 <= i < j < |r|
      ensures r[i].start <= r[j].start
    {
      if j == k {
        assert s[i].start <= s[k - 1].start;
      }
    }
  }

  lemma {:induction false} SortedInOrder(s: seq<Header>)
    ensures InOrder(Sorted(s))
  {
    if s != [] {
      SortedInOrder(s[..|s| - 1]);
      InsertKeepsOrder(Sorted(s[..|s| - 1]), s[|s| - 1]);
    }
  }

  lemma MultisetOfLast(s: seq<Header>)
    requires s != []
    ensures multiset(s) == multiset(s[..|s| - 1]) + multiset{s[|s| - 1]}
  {
    assert s == s[..|s| - 1] + [s[|s| - 1]];
  }

  lemma {:induction false} SortedPermutes(s: seq<Header>)
    ensures multiset(Sorted(s)) == multiset(s)
  {
    if s != [] {
      var init := s[..|s| - 1];
      var last := s[|s| - 1];
      SortedPermutes(init);
      MultisetOfLast(s);
      InsertAddsOne(Sorted(init), last);
    }
  }

  lemma SameFirst(a: seq<Header>, b: seq<Header>)
    requires Ordered(a) && InOrder(b) && multiset(a) == multiset(b) && a != []
    ensures b != [] && a[0] == b[0]
  {
    assert a[0] in multiset(b);
    var j :| 0 <= j < |b| && b[j] == a[0];
    assert b[0] in multiset(a);
    var i :| 0 <= i < |a| && a[i] == b[0];
    assert a[i].start <= a[0].start;
    assert i == 0;
  }

  lemma MultisetOfFirst(s: seq<Header>)
    requires s != []
    ensures multiset(s[1..]) == multiset(s) - multiset{s[0]}
  {
    assert s == [s[0]] + s[1..];
  }

  /** With distinct start times there is only one sorted permutation, so it does not matter how std::sort works. */
  lemma {:induction false} OrderedUnique(a: seq<Header>, b: seq<Header>)
    requires Ordered(a) && InOrder(b) && multiset(a) == multiset(b)
    ensures a == b
    decreases |a|
  {
    if a == [] {
      assert multiset(b) == multiset{};
    } else {
      SameFirst(a, b);
      MultisetOfFirst(a);
      MultisetOfFirst(b);
      OrderedUnique(a[1..], b[1..]);
      assert a == [a[0]] + a[1..] && b == [b[0]] + b[1..];
    }
  }

  lemma SortedAppend(s: seq<Header>, h: Header)
    requires Ordered(s)
    ensures Sorted(s + [h]) == Insert(s, h)
  {
    assert Sorted(s) == s by {
      SortedInOrder(s);
      SortedPermutes(s);
      OrderedUnique(s, Sorted(s));
    }
    assert (s + [h])[..|s|] == s;
  }

  // ---------------------------------------------------------------- the ring

  /** The part of a ring that survives a push_back: appending to a full ring overwrites its front. */
  function Kept(capacity: nat, ring: seq<Header>): seq<Header> {
    if |ring| >= capacity && ring != [] then ring[1..] else ring
  }

  function PushBack(capacity: nat, ring: seq<Header>, h: Header): seq<Header> {
    Kept(capacity, ring) + [h]
  }

  /** std::find with the throwing comparison: the first header that is equal or makes it throw decides. */
  function Find(ring: seq<Header>, h: Header): (r: Result<bool>) {
    if ring == [] then Success(false)
    else
      match Compare(ring[0], h)
      case Failure(e) => Failure(e)
      case Success(true) => Success(true)
      case Success(false) => Find(ring[1..], h)
  }

  /** An end point of `h` falls inside the stored span. */
  predicate Touches(h: Header, stored: Header) {
    stored.start <= h.start <= stored.end || stored.start <= h.end <= stored.end
  }

  predicate Slips(ring: seq<Header>, h: Header) {
    exists stored <- ring :: Touches(h, stored)
  }

  datatype Verdict = Allowed | Rejected | Thrown(error: Error)

  /** `recorded`: the header went into the ring; `evicted`: what it pushed out. */
  datatype Outcome = Outcome(verdict: Verdict, ring: seq<Header>, recorded: bool, evicted: seq<Header>)

  function Keep(verdict: Verdict, ring: seq<Header>): Outcome {
    Outcome(verdict, ring, false, [])
  }

  function Evicted(capacity: nat, ring: seq<Header>): seq<Header> {
    if |ring| >= capacity && ring != [] then [ring[0]] else []
  }

  /** One call of `allow` on the ring of a stream; a stream that is not known yet has the empty ring. */
  function Feed(capacity: nat, ring: seq<Header>, h: Header): Outcome {
    if ring == [] then Outcome(Allowed, [h], true, [])
    else
      match Find(ring, h)
      case Failure(e) => Keep(Thrown(e), ring)
      case Success(true) => Keep(Rejected, ring)
      case Success(false) =>
        if h.start > ring[|ring| - 1].end then
          Outcome(Allowed, PushBack(capacity, ring, h), true, Evicted(capacity, ring))
        else if h.end < ring[0].start then
          if |ring| < capacity then Outcome(Rejected, [h] + ring, true, []) else Keep(Rejected, ring)
        else if Slips(ring, h) then Keep(Rejected, ring)
        else
          Outcome(Allowed, Sorted(PushBack(capacity, ring, h)), true, Evicted(capacity, ring))
  }

  /** Find, without the order of the search: what each of its results says of the ring. */
  lemma {:induction false} FindMeaning(ring: seq<Header>, h: Header)
    ensures Find(ring, h) == Success(false) <==> forall s <- ring :: Compare(s, h) == Success(false)
    ensures Find(ring, h) == Success(true) ==> exists s <- ring :: Compare(s, h) == Success(true)
    ensures Find(ring, h).Failure? ==> exists s <- ring :: Compare(s, h) == Find(ring, h)
  {
    if ring != [] {
      FindMeaning(ring[1..], h);
      assert ring == [ring[0]] + ring[1..];
    }
  }

  // ---------------------------------------------------------------- what every call keeps

  /** Two headers the comparison tells apart, in both directions. */
  ghost predicate Distinct(a: Header, b: Header) {
    Compare(a, b) == Success(false) == Compare(b, a)
  }

  /** The unconditional invariant of the ring of the stream `name`. */
  ghost predicate RingInv(name: string, capacity: nat, ring: seq<Header>) {
    && |ring| <= capacity
    && AllValid(ring)
    && Ordered(ring)
    && (forall s <- ring :: s.name == name && s.rate == ring[0].rate)
    && (forall i, j :: 0 <= i < j < |ring| ==> Distinct(ring[i], ring[j]))
  }

  lemma BackFillBelow(ring: seq<Header>, base: seq<Header>, h: Header)
    requires AllValid(ring) && ring != [] && !Slips(ring, h)
    requires Ordered(ring) && (base == ring || base == ring[1..])
    ensures forall i :: 0 <= i < InsertionPoint(base, h) ==> base[i].start < h.start
  {
    var k := InsertionPoint(base, h);
    if k > 0 {
      assert base[k - 1] in ring;
      assert !Touches(h, base[k - 1]);
      assert base[k - 1].start < h.start;
    }
  }

  /** The three ways a header goes into a ring that is in use, as one: at a position of what is kept. */
  ghost predicate GoesIn(capacity: nat, ring: seq<Header>, h: Header, base: seq<Header>, k: nat, o: Outcome) {
    && k <= |base|
    && ring == o.evicted + base
    && |base| < capacity
    && |o.evicted| <= 1
    && (o.evicted != [] ==> |ring| == capacity)
    && o.ring == Splice(base, k, h)
    && (forall i :: 0 <= i < k ==> base[i].start < h.start)
    && (forall i :: k <= i < |base| ==> h.start < base[i].start)
  }

  lemma Recording(capacity: nat, ring: seq<Header>, h: Header) returns (base: seq<Header>, k: nat)
    requires capacity >= 1 && |ring| <= capacity && AllValid(ring) && Ordered(ring) && ring != []
    requires h.Valid() && Feed(capacity, ring, h).recorded
    ensures GoesIn(capacity, ring, h, base, k, Feed(capacity, ring, h))
  {
    base := Kept(capacity, ring);
    if h.start > ring[|ring| - 1].end {
      k := |base|;
      AllBelow(ring, base, h);
      GoesInKept(capacity, ring, h, k, Feed(capacity, ring, h));
    } else if h.end < ring[0].start {
      base := ring;
      k := 0;
      GoesInFront(capacity, ring, h);
    } else {
      k := InsertionPoint(base, h);
      BackFilled(capacity, ring, h);
      BackFillBelow(ring, base, h);
      GoesInKept(capacity, ring, h, k, Feed(capacity, ring, h));
    }
  }

  lemma GoesInFront(capacity: nat, ring: seq<Header>, h: Header)
    requires |ring| <= capacity && Ordered(ring) && ring != [] && ring[|ring| - 1].Valid()
    requires h.Valid() && Feed(capacity, ring, h).recorded && h.end < ring[0].start
    ensures GoesIn(capacity, ring, h, ring, 0, Feed(capacity, ring, h))
  {
    assert ring[0].start <= ring[|ring| - 1].end;
    assert Feed(capacity, ring, h).ring == Splice(ring, 0, h);
  }

  lemma GoesInKept(capacity: nat, ring: seq<Header>, h: Header, k: nat, o: Outcome)
    requires capacity >= 1 && |ring| <= capacity
    requires k <= |Kept(capacity, ring)|
    requires o.evicted == Evicted(capacity, ring) && o.ring == Splice(Kept(capacity, ring), k, h)
    requires forall i :: 0 <= i < k ==> Kept(capacity, ring)[i].start < h.start
    requires forall i :: k <= i < |Kept(capacity, ring)| ==> h.start < Kept(capacity, ring)[i].start
    ensures GoesIn(capacity, ring, h, Kept(capacity, ring), k, o)
  {
    KeptAndEvicted(capacity, ring);
  }

  lemma KeptAndEvicted(capacity: nat, ring: seq<Header>)
    requires capacity >= 1 && |ring| <= capacity
    ensures ring == Evicted(capacity, ring) + Kept(capacity, ring)
    ensures |Kept(capacity, ring)| < capacity
  {
  }

  lemma AllBelow(ring: seq<Header>, base: seq<Header>, h: Header)
    requires AllValid(ring) && Ordered(ring) && ring != [] && ring[|ring| - 1].end < h.start
    requires base == ring || base == ring[1..]
    ensures forall i :: 0 <= i < |base| ==> base[i].start < h.start
  {
    var last := ring[|ring| - 1];
    assert last.Valid();
    forall i | 0 <= i < |base| ensures base[i].start < h.start {
      assert base[i].start <= last.start;
    }
  }

  lemma BackFilled(capacity: nat, ring: seq<Header>, h: Header)
    requires Ordered(ring) && ring != [] && Feed(capacity, ring, h).recorded
    requires ring[0].start <= h.end && h.start <= ring[|ring| - 1].end
    ensures Feed(capacity, ring, h).ring == Insert(Kept(capacity, ring), h)
    ensures !Slips(ring, h) && Feed(capacity, ring, h).evicted == Evicted(capacity, ring)
  {
    var base := Kept(capacity, ring);
    assert Sorted(base + [h]) == Insert(base, h) by {
      SortedAppend(base, h);
    }
  }

  /** One call on any ring and any header keeps the invariant. */
  lemma FeedKeepsRing(name: string, capacity: nat, ring: seq<Header>, h: Header)
    requires capacity >= 1 && RingInv(name, capacity, ring)
    requires h.Valid() && h.name == name
    ensures var o := Feed(capacity, ring, h);
            && RingInv(name, capacity, o.ring)
            && o.ring != []
            && (ring != [] ==> o.ring[0].rate == ring[0].rate)
  {
    var o := Feed(capacity, ring, h);
    if ring != [] && o.recorded {
      var base, k := Recording(capacity, ring, h);
      FindMeaning(ring, h);
      forall s <- ring ensures Distinct(s, h) && s.rate == h.rate {
        CompareSymmetric(s, h);
      }
      SplicedRing(name, ring, o.evicted, base, k, h);
    }
  }

  /** Only recording changes a ring; a recorded header is then in it, and what leaves a full ring is its front. */
  lemma FeedConserves(capacity: nat, ring: seq<Header>, h: Header)
    requires capacity >= 1 && |ring| <= capacity && AllValid(ring) && Ordered(ring) && h.Valid()
    ensures var o := Feed(capacity, ring, h);
            && (!o.recorded ==> o.ring == ring && o.evicted == [] && o.verdict != Allowed)
            && (o.recorded ==> multiset(o.evicted + o.ring) == multiset(ring) + multiset{h})
            && (o.evicted != [] ==> ring != [] && o.evicted == [ring[0]] && |ring| == capacity)
  {
    var o := Feed(capacity, ring, h);
    if ring != [] && o.recorded {
      var base, k := Recording(capacity, ring, h);
      SpliceConserves(o.evicted, base, k, h);
    }
  }

  lemma SpliceConserves(evicted: seq<Header>, base: seq<Header>, k: nat, h: Header)
    requires k <= |base|
    ensures multiset(evicted + Splice(base, k, h)) == multiset(evicted + base) + multiset{h}
  {
    SpliceAddsOne(base, k, h);
  }

  /** Placing `h` among the headers `base` that stay in the ring. */
  lemma SplicedRing(name: string, ring: seq<Header>, evicted: seq<Header>, base: seq<Header>, k: nat, h: Header)
    requires RingInv(name, |ring|, ring) && ring != [] && ring == evicted + base
    requires k <= |base|
    requires h.Valid() && h.name == name
    requires forall s <- ring :: Distinct(s, h) && s.rate == h.rate
    requires forall i :: 0 <= i < k ==> base[i].start < h.start
    requires forall i :: k <= i < |base| ==> h.start < base[i].start
    ensures RingInv(name, |base| + 1, Splice(base, k, h)) && Splice(base, k, h)[0].rate == ring[0].rate
  {
    var after := Splice(base, k, h);
    forall i | 0 <= i < |after|
      ensures after[i].Valid() && after[i].name == name && after[i].rate == h.rate
    {
      assert i != k ==> after[i] == ring[|evicted| + if i < k then i else i - 1];
    }
    forall i, j | 0 <= i < j < |after|
      ensures Distinct(after[i], after[j]) && after[i].start < after[j].start
    {
      SplicedPair(ring, evicted, base, k, h, i, j);
    }
    assert ring[0] in ring;
  }

  lemma SplicedPair(ring: seq<Header>, evicted: seq<Header>, base: seq<Header>, k: nat, h: Header, i: nat, j: nat)
    requires ring == evicted + base && k <= |base| && i < j <= |base|
    requires Ordered(ring) && (forall i, j :: 0 <= i < j < |ring| ==> Distinct(ring[i], ring[j]))
    requires forall s <- ring :: Distinct(s, h)
    requires forall i :: 0 <= i < k ==> base[i].start < h.start
    requires forall i :: k <= i < |base| ==> h.start < base[i].start
    ensures Distinct(Splice(base, k, h)[i], Splice(base, k, h)[j])
    ensures Splice(base, k, h)[i].start < Splice(base, k, h)[j].start
  {
    var a := if i < k then i else i - 1;
    var b := if j < k then j else j - 1;
    if i == k {
      assert base[b] == ring[|evicted| + b];
      assert Distinct(base[b], h);
    } else if j == k {
      assert base[a] == ring[|evicted| + a];
      assert Distinct(base[a], h);
    } else {
      assert base[a] == ring[|evicted| + a] && base[b] == ring[|evicted| + b];
    }
  }
}
