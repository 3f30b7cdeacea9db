/** The verdict of one call, freed from the order of its tests: the back test, the front test and the scan together
    decide a simple rule on the set of stored spans. */
module Verdicts {
  import opened Packets
  import opened Rings
  import opened StreamRuns

  /** No stored header is equal to `h` and no stored span shares an instant with it. */
  ghost predicate Clear(ring: seq<Header>, h: Header) {
    forall s <- ring :: Compare(s, h) == Success(false) && Disjoint(h, s)
  }

  /** Some stored header starts before `h`. */
  ghost predicate LaterThanSome(ring: seq<Header>, h: Header) {
    exists s <- ring :: s.start < h.start
  }

  lemma ClearFinds(ring: seq<Header>, h: Header)
    requires Clear(ring, h) && AllValid(ring) && h.Valid()
    ensures Find(ring, h) == Success(false) && !Slips(ring, h) && !StraddlesAny(h, ring)
  {
    FindMeaning(ring, h);
    forall s | s in ring ensures !Touches(h, s) && !Straddles(h, s) {
      assert Disjoint(h, s) && s.Valid();
    }
  }

  lemma RecordedClear(capacity: nat, ring: seq<Header>, h: Header)
    requires ring != [] && AllValid(ring) && Chain(ring) && h.Valid()
    requires Feed(capacity, ring, h).recorded && !StraddlingBackFill(ring, h)
    ensures Clear(ring, h)
  {
    FindMeaning(ring, h);
    RecordedIsClear(capacity, ring, h);
  }

  /** The tests and the rule agree on what to allow exactly on the calls that do not straddle. */
  lemma AllowedRule(capacity: nat, ring: seq<Header>, h: Header)
    requires capacity >= 1 && ring != [] && AllValid(ring) && Chain(ring) && h.Valid()
    ensures (Feed(capacity, ring, h).verdict == Allowed <==> Clear(ring, h) && LaterThanSome(ring, h))
            <==> !StraddlingBackFill(ring, h)
  {
    if StraddlingBackFill(ring, h) {
      var s :| s in ring && h.start < s.start && s.end < h.end;
      StraddlingIsRecorded(capacity, ring, h, s);
      assert s.Valid() && !Disjoint(h, s);
    } else {
      if Feed(capacity, ring, h).verdict == Allowed {
        RecordedClear(capacity, ring, h);
        AllowedIsLater(capacity, ring, h);
      }
      if Clear(ring, h) && LaterThanSome(ring, h) {
        ClearAndLater(capacity, ring, h);
      }
    }
  }

  lemma AllowedIsLater(capacity: nat, ring: seq<Header>, h: Header)
    requires ring != [] && AllValid(ring) && Clear(ring, h) && h.Valid()
    requires Feed(capacity, ring, h).verdict == Allowed
    ensures LaterThanSome(ring, h)
  {
    var front := ring[0];
    var last := ring[|ring| - 1];
    assert front in ring && last in ring && front.Valid() && last.Valid();
    assert Disjoint(h, front);
  }

  lemma ClearAndLater(capacity: nat, ring: seq<Header>, h: Header)
    requires ring != [] && AllValid(ring) && Chain(ring) && h.Valid()
    requires Clear(ring, h) && LaterThanSome(ring, h)
    ensures Feed(capacity, ring, h).verdict == Allowed
  {
    ClearFinds(ring, h);
    var s :| s in ring && s.start < h.start;
    var i :| 0 <= i < |ring| && ring[i] == s;
    assert ring[0].Valid() && s.Valid();
    assert ring[0].start <= h.end;
  }

  /** What is recorded although it is refused: a clear packet older than everything stored, while there is room. */
  lemma RecordedButRejected(capacity: nat, ring: seq<Header>, h: Header)
    requires capacity >= 1 && ring != [] && AllValid(ring) && Chain(ring) && h.Valid()
    ensures var o := Feed(capacity, ring, h);
            (o.recorded && o.verdict == Rejected) <==>
              (Clear(ring, h) && !LaterThanSome(ring, h) && |ring| < capacity)
  {
    var o := Feed(capacity, ring, h);
    if o.recorded && o.verdict == Rejected {
      RecordedClear(capacity, ring, h);
      assert h.end < ring[0].start && |ring| < capacity;
      forall s | s in ring ensures h.start <= s.start {
        var i :| 0 <= i < |ring| && ring[i] == s;
        assert ring[0].Valid() && s.Valid();
      }
    }
    if Clear(ring, h) && !LaterThanSome(ring, h) && |ring| < capacity {
      ClearFinds(ring, h);
      assert ring[0] in ring && ring[0].Valid() && ring[|ring| - 1] in ring && ring[|ring| - 1].Valid();
      assert Disjoint(h, ring[0]) && h.start <= ring[|ring| - 1].start;
    }
  }

  /** All stored headers have one name and one rate, so where one makes the comparison throw, no other is equal. */
  lemma ThrowsAlike(name: string, capacity: nat, ring: seq<Header>, s: Header, x: Header, h: Header)
    requires RingInv(name, capacity, ring) && s in ring && x in ring && h.name == name
    requires Compare(s, h).Failure?
    ensures Compare(x, h) != Success(true)
  {
    assert s.rate == ring[0].rate && x.rate == ring[0].rate;
    assert s.name == name && x.name == name;
  }

  /** A call throws exactly when comparing with some stored header does, wherever it is in the ring. */
  lemma ThrowsRule(name: string, capacity: nat, ring: seq<Header>, h: Header)
    requires RingInv(name, capacity, ring) && ring != [] && h.name == name
    ensures Feed(capacity, ring, h).verdict.Thrown? <==> exists s <- ring :: Compare(s, h).Failure?
    ensures Feed(capacity, ring, h).verdict.Thrown? ==> Feed(capacity, ring, h).ring == ring
  {
    hide Compare, RingInv;
    FindMeaning(ring, h);
    if s :| s in ring && Compare(s, h).Failure? {
      forall x | x in ring ensures Compare(x, h) != Success(true) {
        ThrowsAlike(name, capacity, ring, s, x, h);
      }
    }
  }
}
