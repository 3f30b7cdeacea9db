/** Sampling rates: what the first packet of a stream fixes, and when a call of the detector throws. */
module Rates {
  import opened Packets
  import opened Rings
  import opened StreamRuns
  import opened Verdicts
  import opened Detectors
  import opened DetectorRuns

  ghost predicate NoneThrown(verdicts: seq<Verdict>) {
    forall v <- verdicts :: !v.Thrown?
  }

  ghost predicate OneRate(hs: seq<Header>) {
    forall h <- hs :: h.rate == hs[0].rate
  }

  lemma OneVerdictMore(verdicts: seq<Verdict>, v: Verdict)
    ensures NoneThrown(verdicts + [v]) <==> NoneThrown(verdicts) && !v.Thrown?
  {
    if NoneThrown(verdicts + [v]) {
      assert v in verdicts + [v];
      forall x | x in verdicts ensures !x.Thrown? {
        assert x in verdicts + [v];
      }
    }
  }

  lemma OneHeaderMore(hs: seq<Header>, h: Header)
    requires hs != []
    ensures OneRate(hs + [h]) <==> OneRate(hs) && h.rate == hs[0].rate
  {
    if OneRate(hs + [h]) {
      assert h in hs + [h];
      forall x | x in hs ensures x.rate == hs[0].rate {
        assert x in hs + [h];
      }
    }
  }

  // ---------------------------------------------------------------- one stream

  /** The first packet of a stream fixes the rate of everything its ring ever holds. */
  lemma {:induction false} RateLatched(name: string, capacity: nat, hs: seq<Header>)
    requires capacity >= 1 && OfStream(name, hs) && hs != []
    ensures Run(capacity, hs).ring != [] && forall s <- Run(capacity, hs).ring :: s.rate == hs[0].rate
  {
    hide Feed;
    RunInv(name, capacity, hs);
    var init := hs[..|hs| - 1];
    if init == [] {
      FirstRun(capacity, hs);
    } else {
      RunInv(name, capacity, init);
      RateLatched(name, capacity, init);
      FeedKeepsRing(name, capacity, Run(capacity, init).ring, hs[|hs| - 1]);
    }
  }

  lemma FirstRun(capacity: nat, hs: seq<Header>)
    requires |hs| == 1
    ensures Run(capacity, hs) == Track(hs, hs, [], [Allowed])
  {
    assert hs[..0] == [] && hs == [hs[0]];
  }

  /** A call throws exactly when the rate differs from the one stored, if that rate has a tolerance. */
  lemma ThrowsOnRate(name: string, capacity: nat, ring: seq<Header>, h: Header)
    requires RingInv(name, capacity, ring) && ring != [] && h.name == name && ring[0].rate < 1005
    ensures Feed(capacity, ring, h).verdict.Thrown? <==> h.rate != ring[0].rate
  {
    hide Feed, Compare;
    ThrowsRule(name, capacity, ring, h);
    forall s | s in ring ensures Compare(s, h).Failure? <==> h.rate != ring[0].rate {
      CompareFailsOnRate(s, h);
    }
    assert ring[0] in ring;
  }

  lemma CompareFailsOnRate(s: Header, h: Header)
    requires s.name == h.name && s.rate < 1005
    ensures Compare(s, h).Failure? <==> h.rate != s.rate
  {
  }

  /** A stream that begins at a rate below 1005 never makes a call throw exactly if all its packets have that rate. */
  lemma {:induction false} NoThrowIff(name: string, capacity: nat, hs: seq<Header>)
    requires capacity >= 1 && OfStream(name, hs) && (hs != [] ==> hs[0].rate < 1005)
    ensures NoneThrown(Run(capacity, hs).verdicts) <==> OneRate(hs)
  {
    hide Feed, NoneThrown, OneRate;
    if hs == [] {
      NothingThrown(capacity);
    } else {
      var init, h := hs[..|hs| - 1], hs[|hs| - 1];
      assert hs == init + [h];
      if init == [] {
        FirstRun(capacity, hs);
        OnlyOne(hs);
      } else {
        NoThrowIff(name, capacity, init);
        RunInv(name, capacity, init);
        RateLatched(name, capacity, init);
        ThrowsOnRate(name, capacity, Run(capacity, init).ring, h);
        OneVerdictMore(Run(capacity, init).verdicts, Feed(capacity, Run(capacity, init).ring, h).verdict);
        OneHeaderMore(init, h);
      }
    }
  }

  lemma NothingThrown(capacity: nat)
    ensures NoneThrown(Run(capacity, []).verdicts) && OneRate([])
  {
  }

  lemma OnlyOne(hs: seq<Header>)
    requires |hs| == 1
    ensures OneRate(hs) && NoneThrown([Allowed])
  {
  }

  // ---------------------------------------------------------------- all streams

  /** Packets without a header are refused, whatever comes before them. */
  lemma {:induction false} UnreadableRefused(sizing: Sizing, ps: seq<Packet>)
    ensures forall k :: 0 <= k < |ps| && Unpack(ps[k]).Failure? ==> ServeAll(sizing, ps).verdicts[k] == Rejected
  {
    hide Unpack, Submit;
    if ps != [] {
      UnreadableRefused(sizing, ps[..|ps| - 1]);
    }
  }

  /** An exception is always the doing of a stream. */
  lemma {:induction false} ThrownInStream(sizing: Sizing, ps: seq<Packet>)
    requires forall name: string :: NoneThrown(VerdictsOf(sizing, ps, name))
    ensures NoneThrown(ServeAll(sizing, ps).verdicts)
  {
    hide NoneThrown, ServeAll, Unpack;
    if ps == [] {
      NothingServed(sizing);
    } else {
      var init, p := ps[..|ps| - 1], ps[|ps| - 1];
      forall name: string ensures NoneThrown(VerdictsOf(sizing, init, name)) {
        assert NoneThrown(VerdictsOf(sizing, ps, name));
        LastVerdict(sizing, ps, name);
      }
      ThrownInStream(sizing, init);
      LastServed(sizing, ps);
      var v := ServeAll(sizing, ps).verdicts[|ps| - 1];
      UnreadableRefused(sizing, ps);
      if Unpack(p).Success? {
        var name := Unpack(p).value.name;
        assert NoneThrown(VerdictsOf(sizing, ps, name));
        LastVerdict(sizing, ps, name);
      }
      OneVerdictMore(ServeAll(sizing, init).verdicts, v);
    }
  }

  lemma NothingServed(sizing: Sizing)
    ensures NoneThrown(ServeAll(sizing, []).verdicts)
  {
  }

  lemma LastServed(sizing: Sizing, ps: seq<Packet>)
    requires ps != []
    ensures ServeAll(sizing, ps).verdicts ==
            ServeAll(sizing, ps[..|ps| - 1]).verdicts + [ServeAll(sizing, ps).verdicts[|ps| - 1]]
  {
  }

  lemma LastVerdict(sizing: Sizing, ps: seq<Packet>, name: string)
    requires ps != [] && NoneThrown(VerdictsOf(sizing, ps, name))
    ensures NoneThrown(VerdictsOf(sizing, ps[..|ps| - 1], name))
    ensures Belongs(ps[|ps| - 1], name) ==> !ServeAll(sizing, ps).verdicts[|ps| - 1].Thrown?
  {
    hide ServeAll, NoneThrown, Belongs;
    if Belongs(ps[|ps| - 1], name) {
      OneVerdictMore(VerdictsOf(sizing, ps[..|ps| - 1], name), ServeAll(sizing, ps).verdicts[|ps| - 1]);
    }
  }

  /** Every readable packet's rate stays within half a hertz of the nominal rate of its stream. */
  ghost predicate Steady(ps: seq<Packet>, nominal: map<string, int>) {
    forall p <- ps :: p.samplingRate > 0.0 && p.numberOfSamples > 0 ==>
      var name := ToName(p.identifier);
      name in nominal && nominal[name] < 1005 && -0.5 <= p.samplingRate - nominal[name] as real < 0.5
  }

  /** Observed rates may wobble: if all of a stream's stay within half a hertz of one whole number below 1005, no call
      throws, for any number of streams in any order, unreadable packets among them. */
  lemma {:induction false} SteadyNeverThrows(sizing: Sizing, ps: seq<Packet>, nominal: map<string, int>)
    requires sizing.Valid() && Steady(ps, nominal)
    ensures NoneThrown(ServeAll(sizing, ps).verdicts)
  {
    hide ServeAll, VerdictsOf, NoneThrown, Run, Unpack, ToName;
    forall name: string ensures NoneThrown(VerdictsOf(sizing, ps, name)) {
      HeadersOfStream(ps, name);
      var hs := HeadersOf(ps, name);
      forall h | h in hs ensures name in nominal && h.rate == nominal[name] < 1005 {
        var p :| p in ps && Unpack(p) == Success(h);
        assert Steady([p], nominal);
        NominalHeader(p, h, nominal);
      }
      VerdictsMirrored(sizing, ps, name);
      CapacityPositive(sizing, hs);
      NoThrowIff(name, CapacityFor(sizing, hs), hs);
    }
    ThrownInStream(sizing, ps);
  }

  lemma NominalHeader(p: Packet, h: Header, nominal: map<string, int>)
    requires Unpack(p) == Success(h) && Steady([p], nominal)
    ensures h.name in nominal && h.rate == nominal[h.name] < 1005
  {
    hide ToName;
    assert p in [p];
    UnpackNominal(p, nominal[ToName(p.identifier)]);
  }
}
