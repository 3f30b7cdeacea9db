/** Streams that arrive in order, and how far back in time a ring of estimated capacity remembers. */
module Arrivals {
  import opened Packets
  import opened Rings
  import opened StreamRuns

  // ---------------------------------------------------------------- in-order arrival

  /** Every packet of the stream starts after the computed end of the one before. */
  ghost predicate InOrderArrival(hs: seq<Header>) {
    forall i, k :: 0 <= i < k < |hs| && k == i + 1 ==> hs[i].end < hs[k].start
  }

  ghost predicate SteadyRate(hs: seq<Header>, rate: int) {
    rate < 1005 && forall h <- hs :: h.rate == rate
  }

  ghost predicate SameSamples(hs: seq<Header>) {
    forall a, b | a in hs && b in hs :: a.samples == b.samples
  }

  /** Successive starts are at least the tolerance apart. */
  ghost predicate StartsApart(hs: seq<Header>, tolerance: int) {
    forall i, k :: 0 <= i < k < |hs| && k == i + 1 ==> hs[k].start - hs[i].start >= tolerance
  }

  ghost predicate AllAllowed(verdicts: seq<Verdict>) {
    forall v <- verdicts :: v == Allowed
  }

  /** The run so far: everything allowed, and the ring a suffix of the arrivals. */
  ghost predicate Following(capacity: nat, hs: seq<Header>, t: Track) {
    && AllAllowed(t.verdicts)
    && t.recorded == hs
    && |t.ring| == (if |hs| < capacity then |hs| else capacity)
    && t.ring == hs[|hs| - |t.ring|..]
  }

  lemma {:induction false} FarBack(hs: seq<Header>, tolerance: int, i: nat, j: nat)
    requires StartsApart(hs, tolerance) && tolerance >= 0 && i < j < |hs|
    ensures hs[j].start - hs[i].start >= tolerance
    decreases j
  {
    if i < j - 1 {
      FarBack(hs, tolerance, i, j - 1);
    }
  }

  lemma FindsNothing(hs: seq<Header>, ring: seq<Header>, k: nat, rate: int, name: string)
    requires OfStream(name, hs) && SteadyRate(hs, rate) && StartsApart(hs, Tolerance(rate).value)
    requires k < |hs| && |ring| <= k && ring == hs[k - |ring|..k]
    ensures Find(ring, hs[k]) == Success(false)
  {
    forall s | s in ring
      ensures Compare(s, hs[k]) == Success(false)
    {
      var i :| 0 <= i < |ring| && ring[i] == s;
      assert s == hs[k - |ring| + i];
      FarBack(hs, Tolerance(rate).value, k - |ring| + i, k);
    }
    FindMeaning(ring, hs[k]);
  }

  lemma FeedInOrder(capacity: nat, ring: seq<Header>, h: Header)
    requires capacity >= 1 && ring != [] && |ring| <= capacity
    requires Find(ring, h) == Success(false) && ring[|ring| - 1].end < h.start
    ensures Feed(capacity, ring, h) == Outcome(Allowed, Kept(capacity, ring) + [h], true, Evicted(capacity, ring))
  {
  }

  lemma {:induction false} InOrderFollows(name: string, capacity: nat, hs: seq<Header>, rate: int)
    requires capacity >= 1 && OfStream(name, hs) && InOrderArrival(hs) && SteadyRate(hs, rate)
    requires StartsApart(hs, Tolerance(rate).value)
    ensures Following(capacity, hs, Run(capacity, hs))
  {
    if hs == [] {
      FollowingFresh(capacity);
    } else {
      var init := hs[..|hs| - 1];
      PrefixStarts(hs, Tolerance(rate).value);
      InOrderFollows(name, capacity, init, rate);
      FollowingStep(name, capacity, hs, Run(capacity, init), rate);
    }
  }

  lemma FollowingFresh(capacity: nat)
    ensures Following(capacity, [], FRESH)
  {
  }

  lemma PrefixStarts(hs: seq<Header>, tolerance: int)
    requires hs != [] && StartsApart(hs, tolerance) && InOrderArrival(hs)
    ensures StartsApart(hs[..|hs| - 1], tolerance) && InOrderArrival(hs[..|hs| - 1])
  {
  }

  ghost predicate Appends(capacity: nat, ring: seq<Header>, h: Header) {
    var o := Feed(capacity, ring, h);
    o.verdict == Allowed && o.recorded && o.ring == Kept(capacity, ring) + [h]
  }

  lemma FollowingStep(name: string, capacity: nat, hs: seq<Header>, t: Track, rate: int)
    requires capacity >= 1 && OfStream(name, hs) && InOrderArrival(hs) && SteadyRate(hs, rate) && hs != []
    requires StartsApart(hs, Tolerance(rate).value)
    requires Following(capacity, hs[..|hs| - 1], t)
    ensures Following(capacity, hs, Advance(capacity, t, hs[|hs| - 1]))
  {
    var init := hs[..|hs| - 1];
    var h := hs[|hs| - 1];
    NextFound(name, capacity, hs, t, rate);
    NextLater(capacity, hs, t);
    assert hs == init + [h];
    FollowNext(capacity, init, t, h);
  }

  lemma NextFound(name: string, capacity: nat, hs: seq<Header>, t: Track, rate: int)
    requires capacity >= 1 && OfStream(name, hs) && SteadyRate(hs, rate) && hs != []
    requires StartsApart(hs, Tolerance(rate).value)
    requires Following(capacity, hs[..|hs| - 1], t)
    ensures Find(t.ring, hs[|hs| - 1]) == Success(false)
  {
    SuffixOfPrefix(hs, |t.ring|);
    FindsNothing(hs, t.ring, |hs| - 1, rate, name);
  }

  lemma NextLater(capacity: nat, hs: seq<Header>, t: Track)
    requires capacity >= 1 && InOrderArrival(hs) && |hs| > 0 && Following(capacity, hs[..|hs| - 1], t)
    ensures t.ring != [] ==> t.ring[|t.ring| - 1].end < hs[|hs| - 1].start
  {
    hide Feed, AllAllowed;
    var init := hs[..|hs| - 1];
    if t.ring != [] {
      assert t.ring[|t.ring| - 1] == init[|init| - |t.ring|..][|t.ring| - 1] == init[|init| - 1];
      assert init[|init| - 1] == hs[|hs| - 2];
    }
  }

  lemma FollowNext(capacity: nat, init: seq<Header>, t: Track, h: Header)
    requires capacity >= 1 && Following(capacity, init, t) && Find(t.ring, h) == Success(false)
    requires t.ring != [] ==> t.ring[|t.ring| - 1].end < h.start
    ensures Following(capacity, init + [h], Advance(capacity, t, h))
  {
    if t.ring != [] {
      FeedInOrder(capacity, t.ring, h);
    }
    FollowOne(capacity, init, t, h);
  }

  lemma SuffixOfPrefix(hs: seq<Header>, m: nat)
    requires hs != [] && m < |hs|
    ensures hs[..|hs| - 1][|hs| - 1 - m..] == hs[|hs| - 1 - m..|hs| - 1]
  {
  }

  lemma WindowShift(capacity: nat, init: seq<Header>, ring: seq<Header>, h: Header)
    requires capacity >= 1 && |ring| == (if |init| < capacity then |init| else capacity)
    requires ring == init[|init| - |ring|..]
    ensures var r := Kept(capacity, ring) + [h];
            var hs := init + [h];
            && |r| == (if |hs| < capacity then |hs| else capacity)
            && r == hs[|hs| - |r|..]
  {
  }

  lemma FollowOne(capacity: nat, init: seq<Header>, t: Track, h: Header)
    requires capacity >= 1 && Following(capacity, init, t) && Appends(capacity, t.ring, h)
    ensures Following(capacity, init + [h], Advance(capacity, t, h))
  {
    WindowShift(capacity, init, t.ring, h);
    AllAllowedMore(t.verdicts);
  }

  lemma AllAllowedMore(verdicts: seq<Verdict>)
    requires AllAllowed(verdicts)
    ensures AllAllowed(verdicts + [Allowed])
  {
  }

  lemma {:induction false} VerdictsGrow(capacity: nat, hs: seq<Header>)
    ensures |Run(capacity, hs).verdicts| == |hs|
    ensures hs != [] && AllAllowed(Run(capacity, hs).verdicts) ==>
              && AllAllowed(Run(capacity, hs[..|hs| - 1]).verdicts)
              && Feed(capacity, Run(capacity, hs[..|hs| - 1]).ring, hs[|hs| - 1]).verdict == Allowed
  {
    if hs != [] {
      var init := hs[..|hs| - 1];
      VerdictsGrow(capacity, init);
      var vs := Run(capacity, hs).verdicts;
      assert vs[..|vs| - 1] == Run(capacity, init).verdicts;
      if AllAllowed(vs) {
        assert vs[|vs| - 1] in vs;
        forall v | v in Run(capacity, init).verdicts ensures v == Allowed {
          assert v in vs;
        }
      }
    }
  }

  /** The last of an accepted run is at the back of its ring, so the next is compared with it. */
  lemma {:induction false} AcceptedApart(name: string, capacity: nat, hs: seq<Header>, rate: int)
    requires capacity >= 1 && OfStream(name, hs) && InOrderArrival(hs) && SteadyRate(hs, rate) && SameSamples(hs)
    requires AllAllowed(Run(capacity, hs).verdicts)
    ensures StartsApart(hs, Tolerance(rate).value)
  {
    hide Feed, Run, AllAllowed;
    if hs != [] {
      var init := hs[..|hs| - 1];
      VerdictsGrow(capacity, hs);
      AcceptedApart(name, capacity, init, rate);
      if init != [] {
        InOrderFollows(name, capacity, init, rate);
        LastAllowedApart(name, capacity, hs, Run(capacity, init), rate);
        OneMoreApart(hs, Tolerance(rate).value);
      }
    }
  }

  lemma LastAllowedApart(name: string, capacity: nat, hs: seq<Header>, t: Track, rate: int)
    requires capacity >= 1 && OfStream(name, hs) && InOrderArrival(hs) && SteadyRate(hs, rate) && SameSamples(hs)
    requires |hs| >= 2 && Following(capacity, hs[..|hs| - 1], t)
    requires Feed(capacity, t.ring, hs[|hs| - 1]).verdict == Allowed
    ensures hs[|hs| - 1].start - hs[|hs| - 2].start >= Tolerance(rate).value
  {
    hide Feed, AllAllowed;
    var p := hs[|hs| - 2];
    var h := hs[|hs| - 1];
    assert t.ring[|t.ring| - 1] == p;
    assert p in hs && h in hs;
    LastTwoApart(capacity, t.ring, p, h);
  }

  lemma OneMoreApart(hs: seq<Header>, tolerance: int)
    requires |hs| >= 2 && StartsApart(hs[..|hs| - 1], tolerance)
    requires hs[|hs| - 1].start - hs[|hs| - 2].start >= tolerance
    ensures StartsApart(hs, tolerance)
  {
    var init := hs[..|hs| - 1];
    forall i, k | 0 <= i < k < |hs| && k == i + 1 ensures hs[k].start - hs[i].start >= tolerance {
      assert k < |init| ==> init[k] == hs[k] && init[i] == hs[i];
    }
  }

  lemma LastTwoApart(capacity: nat, ring: seq<Header>, p: Header, h: Header)
    requires ring != [] && ring[|ring| - 1] == p && Feed(capacity, ring, h).verdict == Allowed
    requires p.Valid() && p.end < h.start && p.name == h.name && p.rate == h.rate < 1005 && p.samples == h.samples
    ensures h.start - p.start >= Tolerance(p.rate).value
  {
    FindMeaning(ring, h);
    assert p in ring;
    assert Compare(p, h) == Success(false);
  }

  /** In-order arrival at a steady rate: starts the tolerance apart are enough for every packet to be allowed, for
      any length and any capacity; and for packets of one size they are necessary. */
  lemma InOrderAccepted(name: string, capacity: nat, hs: seq<Header>, rate: int)
    requires capacity >= 1 && OfStream(name, hs) && InOrderArrival(hs) && SteadyRate(hs, rate)
    ensures StartsApart(hs, Tolerance(rate).value) ==> AllAllowed(Run(capacity, hs).verdicts)
    ensures SameSamples(hs) ==>
              (AllAllowed(Run(capacity, hs).verdicts) <==> StartsApart(hs, Tolerance(rate).value))
  {
    if StartsApart(hs, Tolerance(rate).value) {
      InOrderFollows(name, capacity, hs, rate);
    }
    if SameSamples(hs) && AllAllowed(Run(capacity, hs).verdicts) {
      AcceptedApart(name, capacity, hs, rate);
    }
  }

  /** `q` starts within `drift` microseconds of one sample interval after the last sample of `p`. */
  ghost predicate GapFree(p: Packet, q: Packet, drift: real) {
    p.samplingRate > 0.0 &&
    var next := p.startTime as real + p.numberOfSamples as real * (1000000.0 / p.samplingRate);
    -drift <= q.startTime as real - next <= drift
  }

  /** A gap-free successor starts after the computed end, as long as drift and rounding stay below one sample. */
  lemma GapFreeInOrder(p: Packet, q: Packet, drift: real)
    requires Unpack(p).Success? && Unpack(q).Success? && GapFree(p, q, drift)
    requires drift + (p.numberOfSamples - 1) as real / 2.0 < 1000000.0 / p.samplingRate
    ensures Unpack(p).value.end < Unpack(q).value.start
  {
    hide GapFree;
    EndTimeError(p);
    GapFreeNext(p, q, drift);
    hide Unpack, Round;
    var m: nat := p.numberOfSamples - 1;
    var x := 1000000.0 / p.samplingRate;
    OneMoreInterval(m, x);
    var start, end, next := p.startTime as real, Unpack(p).value.end as real, q.startTime as real;
    EndBelowNext(start, end, m as real, m as real * x, x, drift, next);
  }

  lemma OneMoreInterval(m: nat, x: real)
    ensures (m + 1) as real * x == m as real * x + x
  {
    assert (m + 1) as real == m as real + 1.0;
  }

  lemma EndBelowNext(start: real, end: real, m: real, length: real, x: real, drift: real, next: real)
    requires end <= start + length + m / 2.0
    requires start + (length + x) - drift <= next
    requires drift + m / 2.0 < x
    ensures end < next
  {
  }

  /** Between gap-free packets of at least three samples lies more than two sample intervals, and so the tolerance. */
  lemma GapFreeApart(p: Packet, q: Packet, drift: real)
    requires Unpack(p).Success? && Unpack(q).Success? && GapFree(p, q, drift)
    requires drift + (p.numberOfSamples - 1) as real / 2.0 < 1000000.0 / p.samplingRate
    requires p.numberOfSamples >= 3 && Unpack(p).value.rate < 1005
    ensures q.startTime - p.startTime >= Tolerance(Unpack(p).value.rate).value
  {
    hide Unpack, Tolerance, Round, GapFree;
    OwnRate(p);
    ToleranceBelowTwoSamples(p.samplingRate);
    GapFreeNext(p, q, drift);
    IntervalPositive(p.samplingRate);
    var x, n := 1000000.0 / p.samplingRate, p.numberOfSamples as real;
    TwoSamplesApart(p.startTime as real, q.startTime as real, n, x, drift);
  }

  lemma GapFreeNext(p: Packet, q: Packet, drift: real)
    requires p.samplingRate > 0.0 && GapFree(p, q, drift)
    ensures p.startTime as real + p.numberOfSamples as real * (1000000.0 / p.samplingRate) - drift
            <= q.startTime as real
  {
  }

  lemma OwnRate(p: Packet)
    requires Unpack(p).Success?
    ensures p.samplingRate > 0.0 && Unpack(p).value.rate == Round(p.samplingRate)
  {
  }

  lemma IntervalPositive(rate: real)
    requires rate > 0.0
    ensures 1000000.0 / rate > 0.0
  {
  }

  lemma TwoSamplesApart(start: real, next: real, n: real, x: real, drift: real)
    requires start + n * x - drift <= next && n >= 3.0 && x > 0.0 && drift + (n - 1.0) / 2.0 < x
    ensures next - start > 2.0 * x
  {
    Scale(3.0, n, x);
    var length := n * x;
    assert length >= 3.0 * x && drift < x;
  }

  // ---------------------------------------------------------------- how far back the ring remembers

  /** Disjoint spans of at least `length` each reach over the sum of their lengths. */
  lemma {:induction false} ChainReach(ring: seq<Header>, length: int)
    requires ring != [] && Chain(ring) && length >= 0
    requires forall h <- ring :: 3 * h.Duration() >= length
    ensures 3 * (ring[|ring| - 1].end - ring[0].start) >= |ring| * length
  {
    var last := ring[|ring| - 1];
    assert last in ring;
    if |ring| > 1 {
      var init := ring[..|ring| - 1];
      ChainReach(init, length);
      assert init[|init| - 1].end < last.start;
      assert |ring| * length == |init| * length + length;
    }
  }

  function Microseconds(seconds: int): int {
    1000000 * seconds
  }

  lemma ReachBeyondMemory(reach: int, slots: int, d: int, memory: int)
    requires 3 * reach >= slots * (2 * Microseconds(d)) && 2 * (slots * d) > 3 * memory
    ensures reach >= Microseconds(memory)
  {
    assert slots * (2 * Microseconds(d)) == 1000000 * (2 * (slots * d));
  }

  /** A ring whose capacity was estimated for `memory` seconds from the first packet: once it is full, and while its
      packets last at least two thirds of the first one's rounded duration, it spans at least `memory`. */
  lemma {:induction false} FullRingCoversMemory(name: string, first: Header, memory: nat, castOfInfinity: int,
                                                hs: seq<Header>)
    requires OfStream(name, [first] + hs) && RoundedSeconds(first) >= 1
    requires var capacity := EstimateCapacity(first, memory, castOfInfinity);
             var t := Run(capacity, [first] + hs);
             && NeverStraddles(capacity, [first] + hs)
             && |t.ring| == capacity
             && (forall h <- t.ring :: 3 * h.Duration() >= 2 * Microseconds(RoundedSeconds(first)))
    ensures var ring := Run(EstimateCapacity(first, memory, castOfInfinity), [first] + hs).ring;
            ring != [] && ring[|ring| - 1].end - ring[0].start >= Microseconds(memory)
  {
    hide Feed, Run, RoundedSeconds, EstimateCapacity;
    var capacity := EstimateCapacity(first, memory, castOfInfinity);
    EstimateCoversMemory(first, memory, castOfInfinity);
    FullRingReach(name, capacity, RoundedSeconds(first), memory, [first] + hs);
  }

  lemma FullRingReach(name: string, capacity: nat, d: nat, memory: nat, hs: seq<Header>)
    requires capacity >= 1 && OfStream(name, hs) && NeverStraddles(capacity, hs)
    requires |Run(capacity, hs).ring| == capacity && 2 * (capacity * d) > 3 * memory
    requires forall h <- Run(capacity, hs).ring :: 3 * h.Duration() >= 2 * Microseconds(d)
    ensures var ring := Run(capacity, hs).ring;
            ring != [] && ring[|ring| - 1].end - ring[0].start >= Microseconds(memory)
  {
    hide Feed, Run, NeverStraddles;
    var t := Run(capacity, hs);
    RunChain(name, capacity, hs);
    ChainSuffix(t.evicted, t.ring);
    RingReach(t.ring, d, memory);
  }

  lemma RingReach(ring: seq<Header>, d: nat, memory: nat)
    requires ring != [] && Chain(ring) && 2 * (|ring| * d) > 3 * memory
    requires forall h <- ring :: 3 * h.Duration() >= 2 * Microseconds(d)
    ensures ring[|ring| - 1].end - ring[0].start >= Microseconds(memory)
  {
    ChainReach(ring, 2 * Microseconds(d));
    ReachBeyondMemory(ring[|ring| - 1].end - ring[0].start, |ring|, d, memory);
  }

  /** A stored header is never recorded again: the search rejects it or throws. */
  lemma StoredNotRecordedAgain(name: string, capacity: nat, ring: seq<Header>, h: Header)
    requires RingInv(name, capacity, ring) && h in ring
    ensures !Feed(capacity, ring, h).recorded && Feed(capacity, ring, h).verdict != Allowed
  {
    FindMeaning(ring, h);
    assert Compare(h, h) != Success(false);
  }

  /** The configured memory holds: a recorded packet that started within `memory` of the newest end is refused when it
      comes again. */
  lemma {:induction false} RepeatWithinMemoryRefused(name: string, first: Header, memory: nat, castOfInfinity: int,
                                                     hs: seq<Header>, h: Header)
    requires OfStream(name, [first] + hs) && RoundedSeconds(first) >= 1
    requires var capacity := EstimateCapacity(first, memory, castOfInfinity);
             var t := Run(capacity, [first] + hs);
             && NeverStraddles(capacity, [first] + hs)
             && (forall x <- t.ring :: 3 * x.Duration() >= 2 * Microseconds(RoundedSeconds(first)))
             && h in t.recorded
             && t.ring != []
             && h.start >= t.ring[|t.ring| - 1].end - Microseconds(memory)
    ensures var capacity := EstimateCapacity(first, memory, castOfInfinity);
            var o := Feed(capacity, Run(capacity, [first] + hs).ring, h);
            !o.recorded && o.verdict != Allowed
  {
    hide Feed;
    var capacity := EstimateCapacity(first, memory, castOfInfinity);
    var t := Run(capacity, [first] + hs);
    RunInv(name, capacity, [first] + hs);
    RunChain(name, capacity, [first] + hs);
    assert h in multiset(t.recorded);
    assert h in t.evicted + t.ring;
    if h in t.evicted {
      FullRingCoversMemory(name, first, memory, castOfInfinity, hs);
      EvictedBeforeFront(name, capacity, t, h);
      assert false;
    }
    StoredNotRecordedAgain(name, capacity, t.ring, h);
  }

  lemma EvictedBeforeFront(name: string, capacity: nat, t: Track, h: Header)
    requires Inv(name, capacity, t) && Chain(t.evicted + t.ring) && h in t.evicted && t.ring != []
    ensures h.start < t.ring[0].start
  {
    InvAllValid(name, capacity, t);
    var i :| 0 <= i < |t.evicted| && t.evicted[i] == h;
    var c := t.evicted + t.ring;
    assert c[i] == h && c[|t.evicted|] == t.ring[0] && h in c;
    assert c[i].end < c[|t.evicted|].start;
  }
}
