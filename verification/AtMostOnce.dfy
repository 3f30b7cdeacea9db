/** Streams of uniform packets: no packet is recorded twice, however long the run and however small the ring. */
module AtMostOnce {
  import opened Packets
  import opened Rings
  import opened StreamRuns

  /** Two packets of one stream that look alike: same sample count, same rounded rate, durations within the
      tolerance. */
  ghost predicate Alike(a: Header, b: Header) {
    && a.name == b.name
    && a.rate == b.rate < 1005
    && a.samples == b.samples
    && Abs(a.Duration() - b.Duration()) <= Tolerance(a.rate).value
  }

  ghost predicate Uniform(hs: seq<Header>) {
    forall a, b | a in hs && b in hs :: Alike(a, b)
  }

  /** Among uniform packets, straddling a span means starting within the tolerance of it: the search rejects it. */
  lemma StraddleIsDuplicate(stored: Header, h: Header)
    requires Alike(stored, h) && Straddles(h, stored)
    ensures Compare(stored, h) == Success(true)
  {
    assert (stored.start - h.start) + (h.end - stored.end) == h.Duration() - stored.Duration();
  }

  lemma SubUniform(hs: seq<Header>, sub: seq<Header>)
    requires Uniform(hs) && forall h <- sub :: h in hs
    ensures Uniform(sub)
  {
    forall a, b | a in sub && b in sub ensures Alike(a, b) {
      assert a in hs && b in hs;
    }
  }

  lemma {:induction false} RecordedSubmitted(capacity: nat, hs: seq<Header>)
    ensures forall h <- Run(capacity, hs).recorded :: h in hs
  {
    if hs != [] {
      RecordedSubmitted(capacity, hs[..|hs| - 1]);
    }
  }

  lemma StoredSubmitted(name: string, capacity: nat, hs: seq<Header>)
    requires capacity >= 1 && OfStream(name, hs)
    ensures forall h <- Run(capacity, hs).ring :: h in hs
  {
    RunInv(name, capacity, hs);
    RecordedSubmitted(capacity, hs);
    var t := Run(capacity, hs);
    forall h | h in t.ring ensures h in hs {
      assert h in multiset(t.evicted + t.ring);
      assert h in t.recorded;
    }
  }

  lemma UniformFindsStraddled(hs: seq<Header>, ring: seq<Header>, h: Header)
    requires Uniform(hs) && h in hs && forall s <- ring :: s in hs
    ensures !StraddlingBackFill(ring, h)
  {
    FindMeaning(ring, h);
    forall s | s in ring && Straddles(h, s)
      ensures Find(ring, h) != Success(false)
    {
      StraddleIsDuplicate(s, h);
    }
  }

  lemma {:induction false} UniformNeverStraddles(name: string, capacity: nat, hs: seq<Header>)
    requires capacity >= 1 && OfStream(name, hs) && Uniform(hs)
    ensures NeverStraddles(capacity, hs)
  {
    if hs != [] {
      var init := hs[..|hs| - 1];
      SubUniform(hs, init);
      UniformNeverStraddles(name, capacity, init);
      StoredSubmitted(name, capacity, init);
      UniformFindsStraddled(hs, Run(capacity, init).ring, hs[|hs| - 1]);
    }
  }

  // ---------------------------------------------------------------- spacing

  ghost predicate FarFrom(h: Header, c: seq<Header>, tolerance: int) {
    forall s <- c :: Abs(h.start - s.start) >= tolerance
  }

  /** What a recorded header keeps its distance from: directly the ring, and through its front all of history. */
  lemma SpacedFromHistory(gone: seq<Header>, ring: seq<Header>, h: Header, tolerance: int)
    requires ring != [] && Chain(gone + ring) && ring[0].Valid() && AllValid(gone)
    requires gone != [] ==> ring[0].end < h.start
    requires forall i :: 0 <= i < |gone| ==> Abs(ring[0].start - gone[i].start) >= tolerance
    requires FarFrom(h, ring, tolerance)
    ensures FarFrom(h, gone + ring, tolerance)
  {
    forall i | 0 <= i < |gone|
      ensures Abs(h.start - gone[i].start) >= tolerance
    {
      assert (gone + ring)[i] == gone[i] && (gone + ring)[|gone|] == ring[0];
      assert gone[i].Valid() && gone[i].end < ring[0].start;
    }
  }

  /** Every two headers of a stream's history, in order of start time, are the tolerance apart. */
  ghost predicate Apart(c: seq<Header>, tolerance: int) {
    forall i, j :: 0 <= i < j < |c| ==> Abs(c[j].start - c[i].start) >= tolerance
  }

  lemma ApartSplice(c: seq<Header>, k: nat, h: Header, tolerance: int)
    requires Apart(c, tolerance) && k <= |c|
    requires FarFrom(h, c, tolerance)
    ensures Apart(Splice(c, k, h), tolerance)
  {
    hide Apart, FarFrom, Splice, Abs;
    var r := Splice(c, k, h);
    forall i, j | 0 <= i < j < |r|
      ensures Abs(r[j].start - r[i].start) >= tolerance
    {
      ApartPair(c, k, h, tolerance, i, j);
    }
    ApartAsPairs(r, tolerance);
  }

  lemma ApartAsPairs(r: seq<Header>, tolerance: int)
    requires forall i, j :: 0 <= i < j < |r| ==> Abs(r[j].start - r[i].start) >= tolerance
    ensures Apart(r, tolerance)
  {
  }

  lemma ApartPair(c: seq<Header>, k: nat, h: Header, tolerance: int, i: nat, j: nat)
    requires Apart(c, tolerance) && k <= |c| && i < j <= |c|
    requires FarFrom(h, c, tolerance)
    ensures Abs(Splice(c, k, h)[j].start - Splice(c, k, h)[i].start) >= tolerance
  {
    hide Abs;
    var r := Splice(c, k, h);
    AbsSymmetric(r[i].start, r[j].start);
    var a := if i < k then i else i - 1;
    var b := if j < k then j else j - 1;
    if i == k {
      assert r[j] == c[b] && c[b] in c;
    } else if j == k {
      assert r[i] == c[a] && c[a] in c;
    } else {
      assert r[i] == c[a] && r[j] == c[b];
    }
  }

  lemma AbsSymmetric(x: int, y: int)
    ensures Abs(x - y) == Abs(y - x)
  {
  }

  lemma SplicedApart(gone: seq<Header>, evicted: seq<Header>, base: seq<Header>, k: nat, h: Header, tolerance: int)
    requires k <= |base| && Apart(gone + (evicted + base), tolerance)
    requires FarFrom(h, gone + (evicted + base), tolerance)
    ensures Apart((gone + evicted) + Splice(base, k, h), tolerance)
  {
    var whole := gone + (evicted + base);
    var at := |gone| + |evicted| + k;
    assert (gone + evicted) + Splice(base, k, h) == Splice(whole, at, h) by {
      SplitSplice(gone, evicted, base, k, h);
    }
    ApartSplice(whole, at, h, tolerance);
  }

  ghost predicate ApartFrom(h: Header, ring: seq<Header>, tolerance: int) {
    forall s <- ring :: Compare(s, h) == Success(false) ==> Abs(h.start - s.start) >= tolerance
  }

  lemma RecordingKeepsApart(capacity: nat, t: Track, h: Header, tolerance: int)
    requires capacity >= 1 && |t.ring| <= capacity && t.ring != [] && (t.evicted != [] ==> |t.ring| == capacity)
    requires AllValid(t.evicted) && AllValid(t.ring) && Ordered(t.ring) && h.Valid()
    requires Chain(t.evicted + t.ring) && !StraddlingBackFill(t.ring, h)
    requires Feed(capacity, t.ring, h).recorded && ApartFrom(h, t.ring, tolerance)
    requires Apart(t.evicted + t.ring, tolerance)
    ensures Apart(Advance(capacity, t, h).evicted + Advance(capacity, t, h).ring, tolerance)
  {
    var o := Feed(capacity, t.ring, h);
    var base, k := Recording(capacity, t.ring, h);
    RecordedApart(capacity, t, h, tolerance);
    SplicedApart(t.evicted, o.evicted, base, k, h, tolerance);
  }

  lemma RecordedApart(capacity: nat, t: Track, h: Header, tolerance: int)
    requires t.ring != [] && (t.evicted != [] ==> |t.ring| == capacity)
    requires AllValid(t.evicted) && AllValid(t.ring) && h.Valid()
    requires Chain(t.evicted + t.ring) && !StraddlingBackFill(t.ring, h)
    requires Feed(capacity, t.ring, h).recorded && ApartFrom(h, t.ring, tolerance)
    requires Apart(t.evicted + t.ring, tolerance)
    ensures FarFrom(h, t.evicted + t.ring, tolerance)
  {
    FindMeaning(t.ring, h);
    ChainSuffix(t.evicted, t.ring);
    if t.evicted != [] {
      FullRingRecordsLater(capacity, t.ring, h);
    }
    ApartFromFront(t.evicted, t.ring, tolerance);
    SpacedFromHistory(t.evicted, t.ring, h, tolerance);
  }

  lemma ApartFromFront(gone: seq<Header>, ring: seq<Header>, tolerance: int)
    requires ring != [] && Apart(gone + ring, tolerance)
    ensures forall i :: 0 <= i < |gone| ==> Abs(ring[0].start - gone[i].start) >= tolerance
  {
    var c := gone + ring;
    forall i | 0 <= i < |gone| ensures Abs(ring[0].start - gone[i].start) >= tolerance {
      assert c[i] == gone[i] && c[|gone|] == ring[0];
    }
  }

  lemma AdvanceKeepsApart(name: string, capacity: nat, t: Track, h: Header, tolerance: int)
    requires capacity >= 1 && Inv(name, capacity, t) && h.Valid() && h.name == name
    requires Chain(t.evicted + t.ring) && !StraddlingBackFill(t.ring, h)
    requires ApartFrom(h, t.ring, tolerance)
    requires Apart(t.evicted + t.ring, tolerance)
    ensures Apart(Advance(capacity, t, h).evicted + Advance(capacity, t, h).ring, tolerance)
  {
    if t.ring == [] {
      EmptyRingMeansFresh(capacity, t);
    } else if Feed(capacity, t.ring, h).recorded {
      EvictedValid(name, capacity, t);
      RecordingKeepsApart(capacity, t, h, tolerance);
    } else {
      FeedConserves(capacity, t.ring, h);
      assert t.evicted + [] == t.evicted;
    }
  }

  lemma EvictedValid(name: string, capacity: nat, t: Track)
    requires Inv(name, capacity, t)
    ensures AllValid(t.evicted)
  {
    InvAllValid(name, capacity, t);
    forall h | h in t.evicted ensures h.Valid() {
      assert h in t.evicted + t.ring;
    }
  }

  lemma UniformApartFrom(hs: seq<Header>, ring: seq<Header>, h: Header)
    requires Uniform(hs) && hs != [] && h in hs && (forall s <- ring :: s in hs) && hs[0].rate < 1005
    ensures ApartFrom(h, ring, Tolerance(hs[0].rate).value)
  {
    forall s | s in ring && Compare(s, h) == Success(false)
      ensures Abs(h.start - s.start) >= Tolerance(hs[0].rate).value
    {
      assert Alike(s, h) && Alike(s, hs[0]);
    }
  }

  lemma {:induction false} RunApart(name: string, capacity: nat, hs: seq<Header>, tolerance: int)
    requires capacity >= 1 && OfStream(name, hs) && Uniform(hs)
    requires hs != [] ==> tolerance == Tolerance(hs[0].rate).value
    ensures Apart(Run(capacity, hs).evicted + Run(capacity, hs).ring, tolerance)
  {
    if hs != [] {
      var init := hs[..|hs| - 1];
      SubUniform(hs, init);
      RunApart(name, capacity, init, tolerance);
      ApartStep(name, capacity, hs, tolerance);
    }
  }

  lemma ApartStep(name: string, capacity: nat, hs: seq<Header>, tolerance: int)
    requires capacity >= 1 && OfStream(name, hs) && Uniform(hs) && hs != []
    requires tolerance == Tolerance(hs[0].rate).value
    requires var t := Run(capacity, hs[..|hs| - 1]); Apart(t.evicted + t.ring, tolerance)
    ensures Apart(Run(capacity, hs).evicted + Run(capacity, hs).ring, tolerance)
  {
    var init := hs[..|hs| - 1];
    var h := hs[|hs| - 1];
    UniformNeverStraddles(name, capacity, hs);
    RunInv(name, capacity, init);
    RunChain(name, capacity, init);
    StoredSubmitted(name, capacity, init);
    assert Alike(h, hs[0]);
    UniformApartFrom(hs, Run(capacity, init).ring, h);
    AdvanceKeepsApart(name, capacity, Run(capacity, init), h, tolerance);
  }

  lemma PermutedApart(s: seq<Header>, c: seq<Header>, tolerance: int)
    requires AllValid(c) && Chain(c) && Apart(c, tolerance) && multiset(s) == multiset(c)
    ensures Apart(s, tolerance)
  {
    forall i, j | 0 <= i < j < |s|
      ensures Abs(s[j].start - s[i].start) >= tolerance
    {
      PermutedChainDisjoint(s, c);
      assert s[i] in multiset(c) && s[j] in multiset(c);
      var a :| 0 <= a < |c| && c[a] == s[i];
      var b :| 0 <= b < |c| && c[b] == s[j];
      assert c[a].Valid() && Disjoint(s[i], s[j]);
      assert a != b;
      assert Abs(c[a].start - c[b].start) == Abs(c[b].start - c[a].start);
    }
  }

  /** At most once, with bounded memory: everything a uniform stream ever records, evicted or not, is pairwise
      disjoint and the tolerance apart. */
  lemma {:induction false} UniformHistory(name: string, capacity: nat, hs: seq<Header>)
    requires capacity >= 1 && OfStream(name, hs) && Uniform(hs) && hs != []
    ensures PairwiseDisjoint(Run(capacity, hs).recorded)
    ensures Apart(Run(capacity, hs).recorded, Tolerance(hs[0].rate).value)
  {
    UniformNeverStraddles(name, capacity, hs);
    HistoryDisjointIff(name, capacity, hs);
    UniformSpacing(name, capacity, hs);
  }

  lemma UniformSpacing(name: string, capacity: nat, hs: seq<Header>)
    requires capacity >= 1 && OfStream(name, hs) && Uniform(hs) && hs != []
    ensures Apart(Run(capacity, hs).recorded, Tolerance(hs[0].rate).value)
  {
    assert Alike(hs[0], hs[0]);
    UniformNeverStraddles(name, capacity, hs);
    RunInv(name, capacity, hs);
    RunChain(name, capacity, hs);
    RunApart(name, capacity, hs, Tolerance(hs[0].rate).value);
    RecordedIsApart(name, capacity, Run(capacity, hs), Tolerance(hs[0].rate).value);
  }

  lemma RecordedIsApart(name: string, capacity: nat, t: Track, tolerance: int)
    requires Inv(name, capacity, t) && Chain(t.evicted + t.ring) && Apart(t.evicted + t.ring, tolerance)
    ensures Apart(t.recorded, tolerance)
  {
    InvAllValid(name, capacity, t);
    PermutedApart(t.recorded, t.evicted + t.ring, tolerance);
  }

  // ---------------------------------------------------------------- the hypothesis is needed

  const NAME: string := "UU.CTU.HHZ..01"

  function Second(n: int): int {
    n * 1000000
  }

  /** A packet of 100 samples a second covering the whole seconds `from` to `to`. */
  function Covering(from: int, to: int): Header
    requires from <= to
  {
    Header(NAME, Second(from), Second(to), 100, 100 * (to - from) + 1)
  }

  lemma OneSlot(x: Header, h: Header)
    requires x.end < h.start && Compare(x, h) == Success(false)
    ensures Feed(2, [x], h) == Outcome(Allowed, [x, h], true, [])
  {
    assert [x][1..] == [];
    assert Find([x], h) == Success(false);
  }

  lemma TwoSlots(x: Header, y: Header, h: Header)
    requires x.start < y.start && x.Valid() && y.Valid() && h.Valid()
    requires Compare(x, h) == Success(false) && Compare(y, h) == Success(false)
    requires !Touches(h, x) && !Touches(h, y) && x.start <= h.end
    ensures Feed(2, [x, y], h) == Outcome(Allowed, if y.start < h.start then [y, h] else [h, y], true, [x])
  {
    var ring := [x, y];
    assert ring[1..] == [y] && [y][1..] == [];
    assert Find([y], h) == Success(false);
    assert Find(ring, h) == Success(false);
    assert Kept(2, ring) == [y] && PushBack(2, ring, h) == [y] + [h];
    assert !Slips(ring, h);
    if h.start <= y.end {
      assert InsertionPoint([y], h) == 0 by { assert [y][..0] == []; }
      SortedAppend([y], h);
    }
  }

  /** One more header after a known run. */
  lemma Then(capacity: nat, hs: seq<Header>, t: Track, h: Header, o: Outcome)
    requires Run(capacity, hs) == t && Feed(capacity, t.ring, h) == o && o.recorded
    ensures Run(capacity, hs + [h]) == Track(o.ring, t.recorded + [h], t.evicted + o.evicted, t.verdicts + [o.verdict])
  {
    assert (hs + [h])[..|hs|] == hs;
  }

  lemma ThreeSteps(a: Header, b: Header, c: Header)
    requires Feed(2, [a], b) == Outcome(Allowed, [a, b], true, [])
    requires Feed(2, [a, b], c) == Outcome(Allowed, [c, b], true, [a])
    ensures Run(2, [a, b, c]) == Track([c, b], [a, b, c], [a], [Allowed, Allowed, Allowed])
  {
    assert [] + [a] == [a] && [a] + [b] == [a, b] && [a, b] + [c] == [a, b, c];
    Then(2, [], FRESH, a, Outcome(Allowed, [a], true, []));
    Then(2, [a], Track([a], [a], [], [Allowed]), b, Outcome(Allowed, [a, b], true, []));
    Then(2, [a, b], Track([a, b], [a, b], [], [Allowed, Allowed]), c, Outcome(Allowed, [c, b], true, [a]));
  }

  lemma TwoMore(hs: seq<Header>, t: Track, d: Header, o: Outcome, c: Header, p: Outcome)
    requires Run(2, hs) == t && Feed(2, t.ring, d) == o && o.recorded && Feed(2, o.ring, c) == p && p.recorded
    ensures Run(2, hs + [d] + [c]) ==
            Track(p.ring, t.recorded + [d] + [c], t.evicted + o.evicted + p.evicted,
                  t.verdicts + [o.verdict] + [p.verdict])
  {
    Then(2, hs, t, d, o);
    Then(2, hs + [d], Run(2, hs + [d]), c, p);
  }

  /** Two slots, and a packet around two others: after one more packet it is allowed a second time. */
  lemma LongPacketAllowedTwice()
    ensures var hs := [Covering(10, 20), Covering(30, 40), Covering(5, 45), Covering(50, 60), Covering(5, 45)];
            && OfStream(NAME, hs)
            && Run(2, hs).verdicts == [Allowed, Allowed, Allowed, Allowed, Allowed]
            && !PairwiseDisjoint(Run(2, hs).recorded)
  {
    var a, b, c, d := Covering(10, 20), Covering(30, 40), Covering(5, 45), Covering(50, 60);
    OneSlot(a, b);
    TwoSlots(a, b, c);
    TwoSlots(c, b, d);
    TwoSlots(b, d, c);
    AllowedTwice(a, b, c, d);
  }

  lemma AllowedTwice(a: Header, b: Header, c: Header, d: Header)
    requires c.Valid()
    requires Feed(2, [a], b) == Outcome(Allowed, [a, b], true, [])
    requires Feed(2, [a, b], c) == Outcome(Allowed, [c, b], true, [a])
    requires Feed(2, [c, b], d) == Outcome(Allowed, [b, d], true, [c])
    requires Feed(2, [b, d], c) == Outcome(Allowed, [c, d], true, [b])
    ensures Run(2, [a, b, c, d, c]).verdicts == [Allowed, Allowed, Allowed, Allowed, Allowed]
    ensures !PairwiseDisjoint(Run(2, [a, b, c, d, c]).recorded)
  {
    hide Feed;
    ThreeSteps(a, b, c);
    TwoMore([a, b, c], Track([c, b], [a, b, c], [a], [Allowed, Allowed, Allowed]),
            d, Outcome(Allowed, [b, d], true, [c]), c, Outcome(Allowed, [c, d], true, [b]));
    assert [a, b, c] + [d] + [c] == [a, b, c, d, c];
    var r := Run(2, [a, b, c, d, c]).recorded;
    assert r[2] == c && r[4] == c;
  }
}
