/** Whole runs of the detector on one stream: what a bounded ring guarantees of an unbounded history. */
module StreamRuns {
  import opened Packets
  import opened Rings

  /** `recorded`: every header that ever went into the ring, in order of arrival;
      `evicted`: those it has lost, in order of eviction. */
  datatype Track = Track(ring: seq<Header>, recorded: seq<Header>, evicted: seq<Header>, verdicts: seq<Verdict>)

  const FRESH := Track([], [], [], [])

  function Advance(capacity: nat, t: Track, h: Header): Track {
    var o := Feed(capacity, t.ring, h);
    Track(o.ring,
          if o.recorded then t.recorded + [h] else t.recorded,
          t.evicted + o.evicted,
          t.verdicts + [o.verdict])
  }

  function Run(capacity: nat, hs: seq<Header>): Track {
    if hs == [] then FRESH else Advance(capacity, Run(capacity, hs[..|hs| - 1]), hs[|hs| - 1])
  }

  /** The headers of one stream. */
  ghost predicate OfStream(name: string, hs: seq<Header>) {
    forall h <- hs :: h.Valid() && h.name == name
  }

  // ---------------------------------------------------------------- every run

  ghost predicate Inv(name: string, capacity: nat, t: Track) {
    && RingInv(name, capacity, t.ring)
    && OfStream(name, t.recorded)
    && multiset(t.recorded) == multiset(t.evicted + t.ring)
    && (t.evicted != [] ==> |t.ring| == capacity)
  }

  lemma AdvanceKeepsInv(name: string, capacity: nat, t: Track, h: Header)
    requires capacity >= 1 && Inv(name, capacity, t) && h.Valid() && h.name == name
    ensures Inv(name, capacity, Advance(capacity, t, h))
  {
    FeedKeepsRing(name, capacity, t.ring, h);
    FeedConserves(capacity, t.ring, h);
    var o := Feed(capacity, t.ring, h);
    if o.recorded {
      Reassociate(t.evicted, o.evicted, o.ring, t.ring, h);
      assert |multiset(o.evicted + o.ring)| == |o.evicted + o.ring|;
      assert |multiset(t.ring) + multiset{h}| == |t.ring| + 1;
    } else {
      assert t.evicted + o.evicted == t.evicted;
    }
  }

  lemma Reassociate(gone: seq<Header>, evicted: seq<Header>, after: seq<Header>, before: seq<Header>, h: Header)
    requires multiset(evicted + after) == multiset(before) + multiset{h}
    ensures multiset((gone + evicted) + after) == multiset(gone + before) + multiset{h}
  {
    assert (gone + evicted) + after == gone + (evicted + after);
  }

  /** Unconditional: in every run the ring holds min(capacity, recorded) headers with strictly increasing starts,
      one rate and no two equal under the tolerance; and each recorded header is in the ring or was evicted. */
  lemma {:induction false} RunInv(name: string, capacity: nat, hs: seq<Header>)
    requires capacity >= 1 && OfStream(name, hs)
    ensures var t := Run(capacity, hs);
            Inv(name, capacity, t) && |t.ring| == if |t.recorded| < capacity then |t.recorded| else capacity
  {
    if hs != [] {
      RunInv(name, capacity, hs[..|hs| - 1]);
      AdvanceKeepsInv(name, capacity, Run(capacity, hs[..|hs| - 1]), hs[|hs| - 1]);
    }
    var t := Run(capacity, hs);
    assert |multiset(t.recorded)| == |multiset(t.evicted + t.ring)|;
  }

  // ---------------------------------------------------------------- at most once

  /** The guard of the branch that fails: `h` gets as far as the back-fill although a stored span lies inside it. */
  predicate StraddlingBackFill(ring: seq<Header>, h: Header) {
    && ring != []
    && Find(ring, h) == Success(false)
    && ring[0].start <= h.end
    && h.start <= ring[|ring| - 1].end
    && !Slips(ring, h)
    && exists stored <- ring :: h.start < stored.start && stored.end < h.end
  }

  /** No call of the run meets that guard. */
  ghost predicate NeverStraddles(capacity: nat, hs: seq<Header>) {
    hs == [] ||
    (NeverStraddles(capacity, hs[..|hs| - 1]) &&
     !StraddlingBackFill(Run(capacity, hs[..|hs| - 1]).ring, hs[|hs| - 1]))
  }

  /** A header that is recorded and straddles nothing is clear of every stored span. */
  lemma RecordedIsClear(capacity: nat, ring: seq<Header>, h: Header)
    requires ring != [] && AllValid(ring) && Chain(ring) && h.Valid()
    requires Feed(capacity, ring, h).recorded && !StraddlingBackFill(ring, h)
    ensures forall s <- ring :: Disjoint(h, s)
  {
    var last := ring[|ring| - 1];
    forall s | s in ring
      ensures Disjoint(h, s)
    {
      var i :| 0 <= i < |ring| && ring[i] == s;
      assert s.Valid() && last.Valid();
      if h.start > last.end {
        assert s.end <= last.end;
      } else if h.end < ring[0].start {
        assert ring[0].Valid();
        assert ring[0].start <= s.start;
      } else {
        assert !Touches(h, s);
      }
    }
  }

  lemma ChainOrdered(ring: seq<Header>)
    requires AllValid(ring) && Chain(ring)
    ensures Ordered(ring)
  {
    forall i, j | 0 <= i < j < |ring| ensures ring[i].start < ring[j].start {
      assert ring[i].Valid();
    }
  }

  /** A full ring only records what starts after its front has ended. */
  lemma FullRingRecordsLater(capacity: nat, ring: seq<Header>, h: Header)
    requires ring != [] && |ring| == capacity && AllValid(ring) && Chain(ring) && h.Valid()
    requires Feed(capacity, ring, h).recorded && !StraddlingBackFill(ring, h)
    ensures ring[0].end < h.start
  {
    RecordedIsClear(capacity, ring, h);
    assert ring[0] in ring;
    var last := ring[|ring| - 1];
    assert last.Valid() && ring[0].Valid();
    assert ring[0].start <= last.end;
  }

  /** `h` spliced into a chain at a place where it fits. */
  lemma SpliceChain(c: seq<Header>, k: nat, h: Header)
    requires Chain(c) && k <= |c| && h.Valid()
    requires forall i :: 0 <= i < k ==> c[i].end < h.start
    requires forall i :: k <= i < |c| ==> h.end < c[i].start
    ensures Chain(Splice(c, k, h))
  {
    var r := Splice(c, k, h);
    forall i, j | 0 <= i < j < |r|
      ensures r[i].end < r[j].start
    {
      var a := if i < k then i else i - 1;
      var b := if j < k then j else j - 1;
      assert i != k && j != k ==> c[a].end < c[b].start;
    }
  }

  /** A chain extended to the left by headers that all end before its first starts. */
  lemma AllBeforeFront(evicted: seq<Header>, ring: seq<Header>, h: Header)
    requires ring != [] && Chain(evicted + ring) && ring[0].Valid() && ring[0].end < h.start
    ensures forall i :: 0 <= i < |evicted| ==> evicted[i].end < h.start
  {
    forall i | 0 <= i < |evicted| ensures evicted[i].end < h.start {
      assert (evicted + ring)[i] == evicted[i] && (evicted + ring)[|evicted|] == ring[0];
    }
  }

  lemma ChainSuffix(evicted: seq<Header>, ring: seq<Header>)
    requires Chain(evicted + ring)
    ensures Chain(ring)
  {
    forall i, j | 0 <= i < j < |ring| ensures ring[i].end < ring[j].start {
      assert (evicted + ring)[|evicted| + i] == ring[i] && (evicted + ring)[|evicted| + j] == ring[j];
    }
  }

  /** One call that does not straddle keeps history and ring together a chain. */
  lemma AdvanceKeepsChain(name: string, capacity: nat, t: Track, h: Header)
    requires capacity >= 1 && Inv(name, capacity, t) && h.Valid() && h.name == name
    requires Chain(t.evicted + t.ring) && !StraddlingBackFill(t.ring, h)
    ensures Chain(Advance(capacity, t, h).evicted + Advance(capacity, t, h).ring)
  {
    if t.ring == [] {
      EmptyRingMeansFresh(capacity, t);
    } else {
      FeedKeepsChain(capacity, t.evicted, t.ring, h);
    }
  }

  lemma FeedKeepsChain(capacity: nat, gone: seq<Header>, ring: seq<Header>, h: Header)
    requires capacity >= 1 && |ring| <= capacity && AllValid(ring) && Ordered(ring) && ring != []
    requires gone != [] ==> |ring| == capacity
    requires Chain(gone + ring) && h.Valid() && !StraddlingBackFill(ring, h)
    ensures Chain((gone + Feed(capacity, ring, h).evicted) + Feed(capacity, ring, h).ring)
  {
    var o := Feed(capacity, ring, h);
    if o.recorded {
      var base, k := Recording(capacity, ring, h);
      FitsAfterHistory(capacity, gone, ring, h, o, base, k);
      SplicedChain(gone, o.evicted, base, k, h);
    } else {
      FeedConserves(capacity, ring, h);
      assert gone + o.evicted == gone;
    }
  }

  lemma EmptyRingMeansFresh(capacity: nat, t: Track)
    requires capacity >= 1 && t.ring == [] && (t.evicted != [] ==> |t.ring| == capacity)
    ensures t.evicted == []
  {
  }

  lemma SplicedChain(gone: seq<Header>, evicted: seq<Header>, base: seq<Header>, k: nat, h: Header)
    requires k <= |base| && h.Valid() && Chain(gone + (evicted + base))
    requires var at := |gone| + |evicted| + k;
             var c := gone + (evicted + base);
             && (forall i :: 0 <= i < at ==> c[i].end < h.start)
             && (forall i :: at <= i < |c| ==> h.end < c[i].start)
    ensures Chain((gone + evicted) + Splice(base, k, h))
  {
    SpliceChain(gone + (evicted + base), |gone| + |evicted| + k, h);
    SplitSplice(gone, evicted, base, k, h);
  }

  lemma FitsAfterHistory(capacity: nat, gone: seq<Header>, ring: seq<Header>, h: Header, o: Outcome,
                         base: seq<Header>, k: nat)
    requires capacity >= 1 && |ring| <= capacity && AllValid(ring) && ring != []
    requires gone != [] ==> |ring| == capacity
    requires h.Valid() && o == Feed(capacity, ring, h) && o.recorded && !StraddlingBackFill(ring, h)
    requires Chain(gone + ring) && GoesIn(capacity, ring, h, base, k, o)
    ensures var at := |gone| + |o.evicted| + k;
            && (forall i :: 0 <= i < at ==> (gone + ring)[i].end < h.start)
            && (forall i :: at <= i < |gone + ring| ==> h.end < (gone + ring)[i].start)
  {
    ChainSuffix(gone, ring);
    RecordedIsClear(capacity, ring, h);
    if |ring| == capacity {
      FullRingRecordsLater(capacity, ring, h);
      AllBeforeFront(gone, ring, h);
    }
    FitsInChain(gone, ring, o.evicted, base, k, h);
  }

  lemma SplitSplice(gone: seq<Header>, evicted: seq<Header>, base: seq<Header>, k: nat, h: Header)
    requires k <= |base|
    ensures (gone + evicted) + Splice(base, k, h) == Splice(gone + (evicted + base), |gone| + |evicted| + k, h)
  {
    var whole := gone + (evicted + base);
    assert whole[..|gone| + |evicted| + k] == (gone + evicted) + base[..k];
    assert whole[|gone| + |evicted| + k..] == base[k..];
  }

  lemma FitsInChain(gone: seq<Header>, ring: seq<Header>, evicted: seq<Header>, base: seq<Header>, k: nat, h: Header)
    requires ring == evicted + base && k <= |base| && |evicted| <= 1 && AllValid(ring) && h.Valid()
    requires forall s <- ring :: Disjoint(h, s)
    requires forall i :: 0 <= i < k ==> base[i].start < h.start
    requires forall i :: k <= i < |base| ==> h.start < base[i].start
    requires forall i :: 0 <= i < |gone| ==> gone[i].end < h.start
    requires evicted != [] ==> ring[0].end < h.start
    ensures var c := gone + ring;
            var at := |gone| + |evicted| + k;
            && (forall i :: 0 <= i < at ==> c[i].end < h.start)
            && (forall i :: at <= i < |c| ==> h.end < c[i].start)
  {
    forall i | 0 <= i < |base|
      ensures if i < k then base[i].end < h.start else h.end < base[i].start
    {
      assert base[i] == ring[|evicted| + i];
      assert base[i] in ring;
      assert base[i].Valid() && Disjoint(h, base[i]);
    }
    var c := gone + ring;
    var at := |gone| + |evicted| + k;
    forall i | 0 <= i < |c|
      ensures if i < at then c[i].end < h.start else h.end < c[i].start
    {
      if i >= |gone| + |evicted| {
        assert c[i] == base[i - |gone| - |evicted|];
      } else if i >= |gone| {
        assert c[i] == ring[0];
      }
    }
  }

  lemma {:induction false} RunChain(name: string, capacity: nat, hs: seq<Header>)
    requires capacity >= 1 && OfStream(name, hs) && NeverStraddles(capacity, hs)
    ensures Chain(Run(capacity, hs).evicted + Run(capacity, hs).ring)
  {
    if hs != [] {
      RunInv(name, capacity, hs[..|hs| - 1]);
      RunChain(name, capacity, hs[..|hs| - 1]);
      AdvanceKeepsChain(name, capacity, Run(capacity, hs[..|hs| - 1]), hs[|hs| - 1]);
    }
  }

  /** In a chain of valid headers each header occurs once. */
  lemma {:induction false} ChainHasNoRepeats(c: seq<Header>, h: Header)
    requires AllValid(c) && Chain(c)
    ensures multiset(c)[h] <= 1
  {
    if c != [] {
      var init := c[..|c| - 1];
      var last := c[|c| - 1];
      ChainHasNoRepeats(init, h);
      MultisetOfLast(c);
      forall i | 0 <= i < |init|
        ensures init[i] != last
      {
        assert c[i].end < last.start && last.Valid();
      }
    }
  }

  lemma TwicePresent(s: seq<Header>, i: nat, j: nat)
    requires i < j < |s| && s[i] == s[j]
    ensures multiset(s)[s[i]] >= 2
  {
    assert s == s[..j] + s[j..];
    assert s[i] in s[..j] && s[j] in s[j..];
  }

  /** Any arrangement of a chain is pairwise disjoint. */
  lemma PermutedChainDisjoint(s: seq<Header>, c: seq<Header>)
    requires AllValid(c) && Chain(c) && multiset(s) == multiset(c)
    ensures PairwiseDisjoint(s)
  {
    forall i, j | 0 <= i < j < |s|
      ensures Disjoint(s[i], s[j])
    {
      if s[i] == s[j] {
        TwicePresent(s, i, j);
        ChainHasNoRepeats(c, s[i]);
      } else {
        assert s[i] in multiset(c) && s[j] in multiset(c);
        var a :| 0 <= a < |c| && c[a] == s[i];
        var b :| 0 <= b < |c| && c[b] == s[j];
        assert a < b || b < a;
      }
    }
  }

  lemma InvAllValid(name: string, capacity: nat, t: Track)
    requires Inv(name, capacity, t)
    ensures AllValid(t.evicted + t.ring)
  {
    forall h | h in t.evicted + t.ring ensures h.Valid() {
      assert h in multiset(t.evicted + t.ring);
      assert h in t.recorded;
    }
  }

  /** A straddling back-fill puts two overlapping headers into the history. */
  lemma StraddlingOverlaps(name: string, capacity: nat, t: Track, h: Header)
    requires capacity >= 1 && Inv(name, capacity, t) && h.Valid() && h.name == name
    requires StraddlingBackFill(t.ring, h)
    ensures !PairwiseDisjoint(Advance(capacity, t, h).recorded)
  {
    var s :| s in t.ring && h.start < s.start && s.end < h.end;
    var r := Advance(capacity, t, h).recorded;
    StraddlingIsRecorded(capacity, t.ring, h, s);
    assert s in multiset(t.evicted + t.ring);
    assert s in t.recorded;
    var i :| 0 <= i < |t.recorded| && t.recorded[i] == s;
    assert r[i] == s && r[|t.recorded|] == h && s.Valid();
    assert !Disjoint(r[i], r[|t.recorded|]);
  }

  lemma StraddlingIsRecorded(capacity: nat, ring: seq<Header>, h: Header, s: Header)
    requires ring != [] && StraddlingBackFill(ring, h)
    ensures Feed(capacity, ring, h).recorded && Feed(capacity, ring, h).verdict == Allowed
  {
  }

  lemma PairwiseDisjointPrefix(s: seq<Header>, t: seq<Header>)
    requires PairwiseDisjoint(s + t)
    ensures PairwiseDisjoint(s)
  {
    forall i, j | 0 <= i < j < |s| ensures Disjoint(s[i], s[j]) {
      assert (s + t)[i] == s[i] && (s + t)[j] == s[j];
    }
  }

  lemma RecordedGrows(capacity: nat, t: Track, h: Header)
    ensures PairwiseDisjoint(Advance(capacity, t, h).recorded) ==> PairwiseDisjoint(t.recorded)
  {
    if PairwiseDisjoint(Advance(capacity, t, h).recorded) {
      if Feed(capacity, t.ring, h).recorded {
        PairwiseDisjointPrefix(t.recorded, [h]);
      }
    }
  }

  lemma {:induction false} DisjointNeverStraddles(name: string, capacity: nat, hs: seq<Header>)
    requires capacity >= 1 && OfStream(name, hs) && PairwiseDisjoint(Run(capacity, hs).recorded)
    ensures NeverStraddles(capacity, hs)
  {
    if hs != [] {
      var init := hs[..|hs| - 1];
      var last := hs[|hs| - 1];
      RunInv(name, capacity, init);
      RecordedGrows(capacity, Run(capacity, init), last);
      DisjointNeverStraddles(name, capacity, init);
      if StraddlingBackFill(Run(capacity, init).ring, last) {
        StraddlingOverlaps(name, capacity, Run(capacity, init), last);
      }
    }
  }

  /** The bounded ring keeps the unbounded history free of overlaps, evicted headers included,
      exactly when no call straddles a stored span on its way into the back-fill. */
  lemma HistoryDisjointIff(name: string, capacity: nat, hs: seq<Header>)
    requires capacity >= 1 && OfStream(name, hs)
    ensures PairwiseDisjoint(Run(capacity, hs).recorded) <==> NeverStraddles(capacity, hs)
  {
    if NeverStraddles(capacity, hs) {
      RunInv(name, capacity, hs);
      RunChain(name, capacity, hs);
      var t := Run(capacity, hs);
      InvAllValid(name, capacity, t);
      PermutedChainDisjoint(t.recorded, t.evicted + t.ring);
    }
    if PairwiseDisjoint(Run(capacity, hs).recorded) {
      DisjointNeverStraddles(name, capacity, hs);
    }
  }

  // ---------------------------------------------------------------- the window

  /** The ring is the window of latest starts of everything recorded, whatever the order of arrival. */
  lemma {:induction false} LatestWindow(name: string, capacity: nat, hs: seq<Header>)
    requires capacity >= 1 && OfStream(name, hs) && NeverStraddles(capacity, hs)
    ensures var t := Run(capacity, hs);
            && |t.ring| <= |t.recorded|
            && t.ring == Sorted(t.recorded)[|t.recorded| - |t.ring|..]
            && t.evicted == Sorted(t.recorded)[..|t.recorded| - |t.ring|]
  {
    RunInv(name, capacity, hs);
    RunChain(name, capacity, hs);
    var t := Run(capacity, hs);
    var c := t.evicted + t.ring;
    InvAllValid(name, capacity, t);
    ChainOrdered(c);
    SortedInOrder(t.recorded);
    SortedPermutes(t.recorded);
    OrderedUnique(c, Sorted(t.recorded));
    assert c[|t.evicted|..] == t.ring && c[..|t.evicted|] == t.evicted;
  }

  /** Once full, the ring only moves forward in time. */
  lemma {:induction false} FrontNeverDecreases(name: string, capacity: nat, hs: seq<Header>, h: Header)
    requires capacity >= 1 && OfStream(name, hs + [h]) && NeverStraddles(capacity, hs + [h])
    requires |Run(capacity, hs).ring| == capacity
    ensures Run(capacity, hs).ring[0].start <= Run(capacity, hs + [h]).ring[0].start
  {
    var all := hs + [h];
    assert all[..|all| - 1] == hs;
    assert OfStream(name, hs) by {
      forall x | x in hs ensures x.Valid() && x.name == name { assert x in all; }
    }
    assert h in all;
    var ring := Run(capacity, hs).ring;
    RunInv(name, capacity, hs);
    RunChain(name, capacity, hs);
    ChainSuffix(Run(capacity, hs).evicted, ring);
    if Feed(capacity, ring, h).recorded {
      FullRingRecordsLater(capacity, ring, h);
      var base, k := Recording(capacity, ring, h);
      LaterFront(ring, base, k, h);
    } else {
      FeedConserves(capacity, ring, h);
    }
  }

  lemma LaterFront(ring: seq<Header>, base: seq<Header>, k: nat, h: Header)
    requires ring != [] && Ordered(ring) && ring[0].Valid() && ring[0].end < h.start
    requires base == ring || base == ring[1..]
    requires k <= |base|
    ensures ring[0].start <= Splice(base, k, h)[0].start
  {
  }
}
