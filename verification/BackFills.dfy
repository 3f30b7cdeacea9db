/** Packets that arrive out of order, fewer than the ring has slots: every one is recorded and the ring ends up sorted,
    but the detector says so only if the earliest packet came first. */
module BackFills {
  import opened Packets
  import opened Rings
  import opened StreamRuns
  import opened Verdicts
  import opened Arrivals

  /** No two of the headers are equal under the tolerance or share an instant. */
  ghost predicate PairwiseClear(hs: seq<Header>) {
    forall i, j :: 0 <= i < j < |hs| ==> Compare(hs[i], hs[j]) == Success(false) && Disjoint(hs[j], hs[i])
  }

  ghost predicate FirstIsEarliest(hs: seq<Header>) {
    forall h <- hs :: hs[0].start <= h.start
  }

  /** The run so far: everything recorded and still stored, everything allowed just if the first was the earliest. */
  ghost predicate AllKept(hs: seq<Header>, t: Track) {
    && t.recorded == hs && t.evicted == []
    && (AllAllowed(t.verdicts) <==> FirstIsEarliest(hs))
  }

  lemma ClearOfRing(hs: seq<Header>, h: Header, ring: seq<Header>)
    requires PairwiseClear(hs + [h]) && multiset(hs) == multiset(ring)
    ensures Clear(ring, h)
  {
    forall s | s in ring ensures Compare(s, h) == Success(false) && Disjoint(h, s) {
      assert s in multiset(hs);
      var i :| 0 <= i < |hs| && hs[i] == s;
      assert (hs + [h])[i] == s && (hs + [h])[|hs|] == h;
    }
  }

  /** A clear header is recorded while there is room, and allowed just if something stored starts before it. */
  lemma ClearFeed(capacity: nat, ring: seq<Header>, h: Header)
    requires ring != [] && |ring| < capacity && AllValid(ring) && Chain(ring) && h.Valid() && Clear(ring, h)
    ensures var o := Feed(capacity, ring, h);
            && o.recorded && o.evicted == []
            && (o.verdict == Allowed <==> LaterThanSome(ring, h))
  {
    hide Feed, StraddlingBackFill, Clear, LaterThanSome;
    ChainOrdered(ring);
    ClearFinds(ring, h);
    NoStraddle(ring, h);
    AllowedRule(capacity, ring, h);
    RecordedButRejected(capacity, ring, h);
    FeedConserves(capacity, ring, h);
  }

  lemma NoStraddle(ring: seq<Header>, h: Header)
    requires !StraddlesAny(h, ring)
    ensures !StraddlingBackFill(ring, h)
  {
    assert forall s <- ring :: !Straddles(h, s);
  }

  lemma EarliestStep(hs: seq<Header>, h: Header, ring: seq<Header>)
    requires hs != [] && multiset(hs) == multiset(ring) && Clear(ring, h) && h.Valid() && AllValid(ring)
    ensures FirstIsEarliest(hs + [h]) <==> FirstIsEarliest(hs) && LaterThanSome(ring, h)
  {
    assert forall s :: s in hs <==> s in multiset(hs);
    assert forall s :: s in ring <==> s in multiset(ring);
    assert (hs + [h])[0] == hs[0] && hs[0] in ring;
    if FirstIsEarliest(hs + [h]) {
      assert h in hs + [h];
      assert hs[0].Valid() && Disjoint(h, hs[0]);
      forall x | x in hs ensures hs[0].start <= x.start {
        assert x in hs + [h];
      }
    }
  }

  lemma {:induction false} OutOfOrder(name: string, capacity: nat, hs: seq<Header>)
    requires capacity >= 1 && OfStream(name, hs) && PairwiseClear(hs) && |hs| <= capacity
    ensures AllKept(hs, Run(capacity, hs))
  {
    hide Feed, FirstIsEarliest, LaterThanSome, Clear, Inv, AllAllowed;
    if hs == [] {
      NothingKept();
    } else {
      var init := hs[..|hs| - 1];
      assert hs == init + [hs[|hs| - 1]];
      PrefixClear(init, hs[|hs| - 1]);
      OutOfOrder(name, capacity, init);
      RunInv(name, capacity, init);
      HistoryClear(name, capacity, init);
      OutOfOrderStep(name, capacity, init, hs[|hs| - 1], Run(capacity, init));
    }
  }

  lemma NothingKept()
    ensures AllKept([], FRESH)
  {
  }

  lemma PrefixClear(hs: seq<Header>, h: Header)
    requires PairwiseClear(hs + [h])
    ensures PairwiseClear(hs)
  {
    forall i, j | 0 <= i < j < |hs| ensures Compare(hs[i], hs[j]) == Success(false) && Disjoint(hs[j], hs[i]) {
      assert (hs + [h])[i] == hs[i] && (hs + [h])[j] == hs[j];
    }
  }

  /** What is recorded is disjoint, so the ring is a chain. */
  lemma HistoryClear(name: string, capacity: nat, hs: seq<Header>)
    requires capacity >= 1 && OfStream(name, hs) && PairwiseClear(hs) && Run(capacity, hs).recorded == hs
    ensures NeverStraddles(capacity, hs) && Chain(Run(capacity, hs).evicted + Run(capacity, hs).ring)
  {
    hide Compare, Run;
    assert PairwiseDisjoint(hs);
    HistoryDisjointIff(name, capacity, hs);
    RunChain(name, capacity, hs);
  }

  lemma OutOfOrderStep(name: string, capacity: nat, hs: seq<Header>, h: Header, t: Track)
    requires capacity >= 1 && OfStream(name, hs + [h]) && PairwiseClear(hs + [h]) && |hs| < capacity
    requires Inv(name, capacity, t) && AllKept(hs, t) && Chain(t.evicted + t.ring)
    ensures AllKept(hs + [h], Advance(capacity, t, h))
  {
    hide Feed, FirstIsEarliest, LaterThanSome, Clear, RingInv, PairwiseClear, AllAllowed;
    assert t.evicted + t.ring == t.ring;
    assert h in hs + [h];
    ClearOfRing(hs, h, t.ring);
    if hs == [] {
      FirstOfAll(capacity, t, h);
    } else {
      assert |multiset(hs)| == |multiset(t.ring)|;
      InvAllValid(name, capacity, t);
      ClearFeed(capacity, t.ring, h);
      EarliestStep(hs, h, t.ring);
      OneVerdictMore(t.verdicts, Feed(capacity, t.ring, h).verdict);
    }
  }

  lemma FirstOfAll(capacity: nat, t: Track, h: Header)
    requires t.recorded == [] && t.evicted == [] && multiset(t.recorded) == multiset(t.ring)
    requires AllAllowed(t.verdicts) <==> FirstIsEarliest([])
    ensures AllKept([] + [h], Advance(capacity, t, h))
  {
    assert |multiset(t.ring)| == |t.ring| == 0;
  }

  lemma OneVerdictMore(verdicts: seq<Verdict>, v: Verdict)
    ensures AllAllowed(verdicts + [v]) <==> AllAllowed(verdicts) && v == Allowed
  {
    if AllAllowed(verdicts + [v]) {
      assert v in verdicts + [v];
      forall x | x in verdicts ensures x == Allowed {
        assert x in verdicts + [v];
      }
    }
  }

  /** Disjoint packets, told apart by the tolerance and no more than there are slots, in any order: all are recorded,
      none is evicted and the ring ends up sorted by start. They are all allowed exactly when the earliest comes
      first; any other order has a packet refused although it is recorded. */
  lemma {:induction false} OutOfOrderArrival(name: string, capacity: nat, hs: seq<Header>)
    requires capacity >= 1 && OfStream(name, hs) && PairwiseClear(hs) && |hs| <= capacity
    ensures var t := Run(capacity, hs);
            && t.recorded == hs && t.ring == Sorted(hs)
            && (AllAllowed(t.verdicts) <==> FirstIsEarliest(hs))
  {
    hide Feed, FirstIsEarliest, PairwiseClear, AllAllowed;
    OutOfOrder(name, capacity, hs);
    HistoryClear(name, capacity, hs);
    LatestWindow(name, capacity, hs);
    RunInv(name, capacity, hs);
  }
}
