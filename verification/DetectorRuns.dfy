/** Runs of the whole detector over packets of many streams: streams do not influence one another, and the packets let
    through never overlap within a stream. */
module DetectorRuns {
  import opened Packets
  import opened Rings
  import opened StreamRuns
  import opened AtMostOnce
  import opened Arrivals
  import opened Detectors

  datatype Session = Session(buffers: Buffers, verdicts: seq<Verdict>)

  function Serve(sizing: Sizing, s: Session, p: Packet): Session {
    var r := SubmitPacket(sizing, s.buffers, p);
    Session(r.buffers, s.verdicts + [r.verdict])
  }

  /** A fresh detector given the packets `ps` one after another. */
  function ServeAll(sizing: Sizing, ps: seq<Packet>): (s: Session)
    ensures |s.verdicts| == |ps|
  {
    if ps == [] then Session(map[], [])
    else Serve(sizing, ServeAll(sizing, ps[..|ps| - 1]), ps[|ps| - 1])
  }

  /** The packet unpacks to a header of the stream `name`. */
  predicate Belongs(p: Packet, name: string) {
    Unpack(p).Success? && Unpack(p).value.name == name
  }

  /** The headers of one stream among the packets. */
  function HeadersOf(ps: seq<Packet>, name: string): (hs: seq<Header>) {
    if ps == [] then []
    else
      var before := HeadersOf(ps[..|ps| - 1], name);
      if Belongs(ps[|ps| - 1], name) then before + [Unpack(ps[|ps| - 1]).value] else before
  }

  /** The packets of one stream. */
  function Only(ps: seq<Packet>, name: string): seq<Packet> {
    if ps == [] then []
    else
      var before := Only(ps[..|ps| - 1], name);
      if Belongs(ps[|ps| - 1], name) then before + [ps[|ps| - 1]] else before
  }

  /** The verdicts the packets of one stream got among all others. */
  function VerdictsOf(sizing: Sizing, ps: seq<Packet>, name: string): seq<Verdict> {
    if ps == [] then []
    else
      var before := VerdictsOf(sizing, ps[..|ps| - 1], name);
      if Belongs(ps[|ps| - 1], name) then before + [ServeAll(sizing, ps).verdicts[|ps| - 1]] else before
  }

  lemma {:induction false} HeadersOfStream(ps: seq<Packet>, name: string)
    ensures OfStream(name, HeadersOf(ps, name))
    ensures forall h <- HeadersOf(ps, name) :: exists p <- ps :: Unpack(p) == Success(h)
  {
    if ps != [] {
      HeadersOfStream(ps[..|ps| - 1], name);
      assert forall p <- ps[..|ps| - 1] :: p in ps;
    }
  }

  // ---------------------------------------------------------------- independence of streams

  /** The capacity a stream's first header fixes for good. */
  function CapacityFor(sizing: Sizing, hs: seq<Header>): nat
    requires forall h <- hs :: h.samples >= 1
  {
    if hs == [] then 1 else sizing.Capacity(hs[0])
  }

  lemma CapacityPositive(sizing: Sizing, hs: seq<Header>)
    requires sizing.Valid() && forall h <- hs :: h.samples >= 1
    ensures CapacityFor(sizing, hs) >= 1
  {
  }

  /** The buffers hold, for the stream `name`, just what the run over its headers alone leaves. */
  ghost predicate Mirrors(sizing: Sizing, buffers: Buffers, hs: seq<Header>, name: string)
    requires OfStream(name, hs)
  {
    && (name in buffers <==> hs != [])
    && (hs != [] ==> buffers[name] == Stored(CapacityFor(sizing, hs), Run(CapacityFor(sizing, hs), hs).ring))
  }

  lemma ServeMirrors(sizing: Sizing, s: Session, hs: seq<Header>, p: Packet, h: Header, name: string)
    requires OfStream(name, hs) && Mirrors(sizing, s.buffers, hs, name)
    requires Unpack(p) == Success(h) && h.name == name
    ensures OfStream(name, hs + [h])
    ensures var c := CapacityFor(sizing, hs + [h]);
            && Mirrors(sizing, Serve(sizing, s, p).buffers, hs + [h], name)
            && Serve(sizing, s, p).verdicts == s.verdicts + [Feed(c, Run(c, hs).ring, h).verdict]
  {
    hide Feed, Run, Unpack, Sizing.Capacity;
    var all := hs + [h];
    var c := CapacityFor(sizing, all);
    RunExtend(c, hs, h);
    FreshHistory(c);
    assert hs != [] ==> all[0] == hs[0];
    assert BufferFor(sizing, s.buffers, h) == Stored(c, Run(c, hs).ring);
  }

  lemma RunExtend(capacity: nat, hs: seq<Header>, h: Header)
    ensures Run(capacity, hs + [h]) == Advance(capacity, Run(capacity, hs), h)
  {
    assert (hs + [h])[..|hs|] == hs;
  }

  lemma FreshHistory(capacity: nat)
    ensures Run(capacity, []) == FRESH
  {
  }

  lemma ServeOther(sizing: Sizing, s: Session, hs: seq<Header>, p: Packet, name: string)
    requires OfStream(name, hs) && Mirrors(sizing, s.buffers, hs, name) && !Belongs(p, name)
    ensures Mirrors(sizing, Serve(sizing, s, p).buffers, hs, name)
  {
    hide Feed;
  }

  lemma {:induction false} StreamMirrored(sizing: Sizing, ps: seq<Packet>, name: string)
    ensures OfStream(name, HeadersOf(ps, name))
    ensures Mirrors(sizing, ServeAll(sizing, ps).buffers, HeadersOf(ps, name), name)
  {
    HeadersOfStream(ps, name);
    if ps != [] {
      var init := ps[..|ps| - 1];
      var p := ps[|ps| - 1];
      StreamMirrored(sizing, init, name);
      if Belongs(p, name) {
        ServeMirrors(sizing, ServeAll(sizing, init), HeadersOf(init, name), p, Unpack(p).value, name);
      } else {
        ServeOther(sizing, ServeAll(sizing, init), HeadersOf(init, name), p, name);
      }
    }
  }

  lemma {:induction false} VerdictsMirrored(sizing: Sizing, ps: seq<Packet>, name: string)
    ensures OfStream(name, HeadersOf(ps, name))
    ensures VerdictsOf(sizing, ps, name) ==
            Run(CapacityFor(sizing, HeadersOf(ps, name)), HeadersOf(ps, name)).verdicts
  {
    hide Feed, Run, Unpack, Sizing.Capacity;
    FreshHistory(CapacityFor(sizing, []));
    HeadersOfStream(ps, name);
    if ps != [] {
      var init := ps[..|ps| - 1];
      var p := ps[|ps| - 1];
      VerdictsMirrored(sizing, init, name);
      if Belongs(p, name) {
        VerdictStep(sizing, init, p, name);
        assert init + [p] == ps;
      }
    }
  }

  lemma VerdictStep(sizing: Sizing, init: seq<Packet>, p: Packet, name: string)
    requires Belongs(p, name) && OfStream(name, HeadersOf(init, name))
    requires VerdictsOf(sizing, init, name) ==
             Run(CapacityFor(sizing, HeadersOf(init, name)), HeadersOf(init, name)).verdicts
    ensures OfStream(name, HeadersOf(init + [p], name))
    ensures VerdictsOf(sizing, init + [p], name) ==
            Run(CapacityFor(sizing, HeadersOf(init + [p], name)), HeadersOf(init + [p], name)).verdicts
  {
    hide Feed, Run, Unpack, Sizing.Capacity;
    var ps := init + [p];
    assert ps[..|ps| - 1] == init;
    var hs := HeadersOf(init, name);
    var h := Unpack(p).value;
    StreamMirrored(sizing, init, name);
    ServeMirrors(sizing, ServeAll(sizing, init), hs, p, h, name);
    var c := CapacityFor(sizing, hs + [h]);
    RunExtend(c, hs, h);
    assert hs != [] ==> c == CapacityFor(sizing, hs);
    FreshHistory(c);
    FreshHistory(CapacityFor(sizing, hs));
  }

  lemma {:induction false} OnlyKeepsHeaders(ps: seq<Packet>, name: string)
    ensures HeadersOf(Only(ps, name), name) == HeadersOf(ps, name)
    ensures forall p <- Only(ps, name) :: Belongs(p, name)
  {
    if ps != [] {
      var init := ps[..|ps| - 1];
      var p := ps[|ps| - 1];
      OnlyKeepsHeaders(init, name);
      if Belongs(p, name) {
        assert (Only(init, name) + [p])[..|Only(init, name)|] == Only(init, name);
      }
    }
  }

  lemma {:induction false} AllBelong(sizing: Sizing, ps: seq<Packet>, name: string)
    requires forall p <- ps :: Belongs(p, name)
    ensures VerdictsOf(sizing, ps, name) == ServeAll(sizing, ps).verdicts
  {
    if ps != [] {
      assert forall p <- ps[..|ps| - 1] :: p in ps;
      AllBelong(sizing, ps[..|ps| - 1], name);
    }
  }

  /** Whatever is interleaved with a stream, calls that throw included: its verdicts and its final ring are those of
      the stream alone. */
  lemma {:induction false} StreamsIndependent(sizing: Sizing, ps: seq<Packet>, name: string)
    ensures var alone := ServeAll(sizing, Only(ps, name));
            var mixed := ServeAll(sizing, ps);
            && VerdictsOf(sizing, ps, name) == alone.verdicts
            && (name in mixed.buffers <==> name in alone.buffers)
            && (name in mixed.buffers ==> mixed.buffers[name] == alone.buffers[name])
  {
    OnlyKeepsHeaders(ps, name);
    StreamMirrored(sizing, ps, name);
    StreamMirrored(sizing, Only(ps, name), name);
    VerdictsMirrored(sizing, ps, name);
    VerdictsMirrored(sizing, Only(ps, name), name);
    AllBelong(sizing, Only(ps, name), name);
  }

  // ---------------------------------------------------------------- what is let through

  /** The packets the detector allows, in order. */
  function Admitted(sizing: Sizing, ps: seq<Packet>): seq<Packet> {
    if ps == [] then []
    else
      var before := Admitted(sizing, ps[..|ps| - 1]);
      if ServeAll(sizing, ps).verdicts[|ps| - 1] == Allowed then before + [ps[|ps| - 1]] else before
  }

  /** Every stream among the packets is uniform: a property of the packets alone. */
  ghost predicate UniformStreams(ps: seq<Packet>) {
    forall p, q | p in ps && q in ps :: AlikePackets(p, q)
  }

  ghost predicate AlikePackets(p: Packet, q: Packet) {
    Unpack(p).Success? && Unpack(q).Success? && ToName(p.identifier) == ToName(q.identifier) ==>
      Alike(Unpack(p).value, Unpack(q).value)
  }

  /** Two packets do not hold data for the same instant of one stream. */
  ghost predicate NoOverlap(p: Packet, q: Packet) {
    Unpack(p).Success? && Unpack(q).Success? && ToName(p.identifier) == ToName(q.identifier) ==>
      Disjoint(Unpack(p).value, Unpack(q).value)
  }

  ghost predicate NoOverlaps(ps: seq<Packet>) {
    forall i, j :: 0 <= i < j < |ps| ==> NoOverlap(ps[i], ps[j])
  }

  lemma UniformHeaders(ps: seq<Packet>, name: string)
    requires UniformStreams(ps)
    ensures Uniform(HeadersOf(ps, name))
  {
    HeadersOfStream(ps, name);
    var hs := HeadersOf(ps, name);
    forall a, b | a in hs && b in hs ensures Alike(a, b) {
      var p :| p in ps && Unpack(p) == Success(a);
      var q :| q in ps && Unpack(q) == Success(b);
      assert AlikePackets(p, q);
    }
  }

  /** The history of the stream a packet belongs to. */
  ghost function HistoryOf(sizing: Sizing, ps: seq<Packet>, name: string): seq<Header> {
    HeadersOfStream(ps, name);
    Run(CapacityFor(sizing, HeadersOf(ps, name)), HeadersOf(ps, name)).recorded
  }

  /** Histories only grow. */
  lemma HistoryGrows(sizing: Sizing, init: seq<Packet>, p: Packet, name: string)
    ensures HistoryOf(sizing, init, name) <= HistoryOf(sizing, init + [p], name)
  {
    hide Feed, Run;
    var ps := init + [p];
    assert ps[..|ps| - 1] == init;
    HeadersOfStream(init, name);
    var hs := HeadersOf(init, name);
    if Belongs(p, name) {
      var h := Unpack(p).value;
      HeadersOfStream(ps, name);
      if hs == [] {
        FreshHistory(CapacityFor(sizing, hs));
      } else {
        assert (hs + [h])[0] == hs[0];
        RunExtend(CapacityFor(sizing, hs), hs, h);
      }
    }
  }

  /** An allowed packet joins its stream's history. */
  lemma AdmittedRecorded(sizing: Sizing, init: seq<Packet>, p: Packet)
    requires ServeAll(sizing, init + [p]).verdicts[|init|] == Allowed
    ensures Unpack(p).Success?
    ensures var name := ToName(p.identifier);
            HistoryOf(sizing, init + [p], name) == HistoryOf(sizing, init, name) + [Unpack(p).value]
  {
    hide Feed, Run, Sizing.Capacity, ToName;
    var ps := init + [p];
    assert ps[..|ps| - 1] == init;
    var name := ToName(p.identifier);
    var h := Unpack(p).value;
    var hs := HeadersOf(init, name);
    HeadersOfStream(ps, name);
    StreamMirrored(sizing, init, name);
    ServeMirrors(sizing, ServeAll(sizing, init), hs, p, h, name);
    var c := CapacityFor(sizing, hs + [h]);
    RunExtend(c, hs, h);
    AllowedMeansRecorded(c, Run(c, hs).ring, h);
    if hs == [] {
      FreshHistory(c);
      FreshHistory(CapacityFor(sizing, hs));
    } else {
      assert (hs + [h])[0] == hs[0];
    }
  }

  lemma AllowedMeansRecorded(capacity: nat, ring: seq<Header>, h: Header)
    requires Feed(capacity, ring, h).verdict == Allowed
    ensures Feed(capacity, ring, h).recorded
  {
  }

  ghost predicate InHistory(sizing: Sizing, ps: seq<Packet>, q: Packet) {
    Unpack(q).Success? && Unpack(q).value in HistoryOf(sizing, ps, ToName(q.identifier))
  }

  lemma {:induction false} AdmittedInHistory(sizing: Sizing, ps: seq<Packet>)
    ensures forall q <- Admitted(sizing, ps) :: InHistory(sizing, ps, q)
  {
    hide HistoryOf, ServeAll;
    if ps != [] {
      var init := ps[..|ps| - 1];
      var p := ps[|ps| - 1];
      assert init + [p] == ps;
      AdmittedInHistory(sizing, init);
      forall q | q in Admitted(sizing, init) ensures InHistory(sizing, ps, q) {
        HistoryGrows(sizing, init, p, ToName(q.identifier));
      }
      if ServeAll(sizing, ps).verdicts[|ps| - 1] == Allowed {
        AdmittedRecorded(sizing, init, p);
      }
    }
  }

  ghost predicate HistoriesDisjoint(sizing: Sizing, ps: seq<Packet>) {
    forall name: string :: PairwiseDisjoint(HistoryOf(sizing, ps, name))
  }

  lemma PrefixHistoriesDisjoint(sizing: Sizing, init: seq<Packet>, p: Packet)
    requires HistoriesDisjoint(sizing, init + [p])
    ensures HistoriesDisjoint(sizing, init)
  {
    hide HistoryOf;
    forall name: string ensures PairwiseDisjoint(HistoryOf(sizing, init, name)) {
      HistoryGrows(sizing, init, p, name);
      var longer := HistoryOf(sizing, init + [p], name);
      var shorter := HistoryOf(sizing, init, name);
      assert longer == shorter + longer[|shorter|..];
      PairwiseDisjointPrefix(shorter, longer[|shorter|..]);
    }
  }

  lemma LastIsDisjoint(s: seq<Header>, h: Header, x: Header)
    requires PairwiseDisjoint(s + [h]) && x in s
    ensures Disjoint(x, h)
  {
    var i :| 0 <= i < |s| && s[i] == x;
    assert (s + [h])[i] == x && (s + [h])[|s|] == h;
  }

  /** With disjoint histories, what is let through never overlaps. */
  lemma {:induction false} AdmittedDisjoint(sizing: Sizing, ps: seq<Packet>)
    requires HistoriesDisjoint(sizing, ps)
    ensures NoOverlaps(Admitted(sizing, ps))
  {
    hide HistoryOf, ServeAll, HistoriesDisjoint;
    if ps != [] {
      var init := ps[..|ps| - 1];
      var p := ps[|ps| - 1];
      assert init + [p] == ps;
      PrefixHistoriesDisjoint(sizing, init, p);
      AdmittedDisjoint(sizing, init);
      if ServeAll(sizing, ps).verdicts[|ps| - 1] == Allowed {
        AdmittedRecorded(sizing, init, p);
        AdmittedInHistory(sizing, init);
        forall q | q in Admitted(sizing, init) ensures NoOverlap(q, p) {
          if ToName(q.identifier) == ToName(p.identifier) {
            NewestDisjoint(sizing, init, p);
            LastIsDisjoint(HistoryOf(sizing, init, ToName(p.identifier)), Unpack(p).value, Unpack(q).value);
          }
        }
        OneMoreNoOverlap(Admitted(sizing, init), p);
      }
    }
  }

  lemma NewestDisjoint(sizing: Sizing, init: seq<Packet>, p: Packet)
    requires HistoriesDisjoint(sizing, init + [p])
    ensures PairwiseDisjoint(HistoryOf(sizing, init + [p], ToName(p.identifier)))
  {
  }

  lemma OneMoreNoOverlap(ps: seq<Packet>, p: Packet)
    requires NoOverlaps(ps) && forall q <- ps :: NoOverlap(q, p)
    ensures NoOverlaps(ps + [p])
  {
  }

  /** At most once, end to end through the detector: uniform streams in, pairwise disjoint packets of each stream out,
      for every number of streams, every interleaving and every way of sizing the rings. */
  lemma {:induction false} UniformAdmittedDisjoint(sizing: Sizing, ps: seq<Packet>)
    requires sizing.Valid() && UniformStreams(ps)
    ensures NoOverlaps(Admitted(sizing, ps))
  {
    forall name: string ensures PairwiseDisjoint(HistoryOf(sizing, ps, name)) {
      HeadersOfStream(ps, name);
      UniformHeaders(ps, name);
      var hs := HeadersOf(ps, name);
      if hs == [] {
        FreshHistory(CapacityFor(sizing, hs));
      } else {
        UniformHistory(name, CapacityFor(sizing, hs), hs);
      }
    }
    AdmittedDisjoint(sizing, ps);
  }

  // ---------------------------------------------------------------- a gap-free stream

  /** A stream sent without gaps: every packet unpacks, at one rounded rate, and follows on from the one before
      with a drift that stays below a sample interval. */
  ghost predicate GapFreeStream(ps: seq<Packet>, name: string, rate: int, drift: real) {
    && (forall p <- ps :: Belongs(p, name) && Unpack(p).value.rate == rate)
    && (forall p <- ps ::
          p.samplingRate > 0.0 && drift + (p.numberOfSamples - 1) as real / 2.0 < 1000000.0 / p.samplingRate)
    && (forall i, k :: 0 <= i < k < |ps| && k == i + 1 ==> GapFree(ps[i], ps[k], drift))
  }

  ghost predicate Indexed(ps: seq<Packet>, hs: seq<Header>) {
    |hs| == |ps| && forall k :: 0 <= k < |ps| ==> Unpack(ps[k]) == Success(hs[k])
  }

  lemma IndexedMore(ps: seq<Packet>, hs: seq<Header>, p: Packet)
    requires Indexed(ps, hs) && Unpack(p).Success?
    ensures Indexed(ps + [p], hs + [Unpack(p).value])
  {
    hide Unpack;
  }

  lemma HeadersOfLast(init: seq<Packet>, p: Packet, name: string)
    requires Belongs(p, name)
    ensures HeadersOf(init + [p], name) == HeadersOf(init, name) + [Unpack(p).value]
  {
    hide Unpack;
    assert (init + [p])[..|init|] == init;
  }

  lemma {:induction false} HeadersIndexed(ps: seq<Packet>, name: string)
    requires forall p <- ps :: Belongs(p, name)
    ensures Indexed(ps, HeadersOf(ps, name))
  {
    if ps != [] {
      hide Belongs, Indexed, HeadersOf;
      var init := ps[..|ps| - 1];
      var p := ps[|ps| - 1];
      forall q | q in init ensures Belongs(q, name) {
        assert q in ps;
      }
      HeadersIndexed(init, name);
      OneMoreIndexed(init, p, name);
      assert init + [p] == ps;
    }
  }

  lemma OneMoreIndexed(init: seq<Packet>, p: Packet, name: string)
    requires Belongs(p, name) && Indexed(init, HeadersOf(init, name))
    ensures Indexed(init + [p], HeadersOf(init + [p], name))
  {
    hide Unpack, HeadersOf, Indexed;
    HeadersOfLast(init, p, name);
    IndexedMore(init, HeadersOf(init, name), p);
  }

  /** Every packet of such a stream is allowed, whatever comes between, as long as successive starts are apart; for
      packets of one size, exactly then. */
  lemma {:induction false} GapFreeStreamAllowed(sizing: Sizing, ps: seq<Packet>, name: string, rate: int, drift: real)
    requires sizing.Valid() && rate < 1005 && GapFreeStream(Only(ps, name), name, rate, drift)
    ensures StartsApart(HeadersOf(ps, name), Tolerance(rate).value) ==> AllAllowed(VerdictsOf(sizing, ps, name))
    ensures SameSamples(HeadersOf(ps, name)) ==>
              (AllAllowed(VerdictsOf(sizing, ps, name)) <==> StartsApart(HeadersOf(ps, name), Tolerance(rate).value))
  {
    var mine := Only(ps, name);
    var hs := HeadersOf(ps, name);
    HeadersOfStream(ps, name);
    OnlyKeepsHeaders(ps, name);
    GapFreeArrival(mine, name, rate, drift);
    VerdictsMirrored(sizing, ps, name);
    InOrderAccepted(name, CapacityFor(sizing, hs), hs, rate);
  }

  /** The law the detector is there for, with no condition on starts: a gap-free stream of packets of at least three
      samples at a rounded rate below 1005 is allowed in full, whatever comes between. */
  lemma {:induction false} GapFreeStreamAllowedInFull(sizing: Sizing, ps: seq<Packet>, name: string, rate: int,
                                                      drift: real)
    requires sizing.Valid() && rate < 1005 && GapFreeStream(Only(ps, name), name, rate, drift)
    requires forall p <- Only(ps, name) :: p.numberOfSamples >= 3
    ensures AllAllowed(VerdictsOf(sizing, ps, name))
  {
    hide Unpack, GapFree;
    var mine, hs := Only(ps, name), HeadersOf(ps, name);
    OnlyKeepsHeaders(ps, name);
    HeadersIndexed(mine, name);
    forall i, k | 0 <= i < k < |hs| && k == i + 1 ensures hs[k].start - hs[i].start >= Tolerance(rate).value {
      assert mine[i] in mine && mine[k] in mine;
      GapFreeApart(mine[i], mine[k], drift);
    }
    GapFreeStreamAllowed(sizing, ps, name, rate, drift);
  }

  /** A packet of one sample at 100 samples a second. */
  function OneSample(start: int): Packet {
    Packet(StreamIdentifier("UU", "CTU", "HHZ", "01"), start, 100.0, Integer32, 1, 0)
  }

  lemma OneSampleUnpacks(start: int)
    ensures Unpack(OneSample(start)) == Success(Header(NAME, start, start, 100, 1))
  {
    assert ToName(OneSample(start).identifier) == NAME;
    assert Round(100.0) == 100;
  }

  lemma OneSampleGap()
    ensures GapFree(OneSample(0), OneSample(10000), 0.0)
  {
  }

  lemma FirstServed(sizing: Sizing, p: Packet, h: Header)
    requires Unpack(p) == Success(h)
    ensures ServeAll(sizing, [p]) == Session(map[h.name := Stored(sizing.Capacity(h), [h])], [Allowed])
  {
    hide Unpack, Sizing.Capacity;
    assert [p][..0] == [];
    assert ServeAll(sizing, []) == Session(map[], []);
    assert Feed(sizing.Capacity(h), [], h) == Outcome(Allowed, [h], true, []);
  }

  /** Shorter packets can be too close: of two packets of one sample each, without gap, the second passes for the
      first. */
  lemma OneSamplePacketsRefused(sizing: Sizing)
    requires sizing.Valid()
    ensures GapFree(OneSample(0), OneSample(10000), 0.0)
    ensures ServeAll(sizing, [OneSample(0), OneSample(10000)]).verdicts == [Allowed, Rejected]
  {
    hide Unpack, Sizing.Capacity, OneSample, Compare;
    var p, q := OneSample(0), OneSample(10000);
    OneSampleUnpacks(0);
    OneSampleUnpacks(10000);
    OneSampleGap();
    var g, h := Header(NAME, 0, 0, 100, 1), Header(NAME, 10000, 10000, 100, 1);
    CompareExactly(g, h);
    assert Find([g], h) == Success(true);
    FirstServed(sizing, p, g);
    assert [p, q][..1] == [p];
  }

  lemma GapFreeArrival(ps: seq<Packet>, name: string, rate: int, drift: real)
    requires rate < 1005 && GapFreeStream(ps, name, rate, drift)
    ensures InOrderArrival(HeadersOf(ps, name)) && SteadyRate(HeadersOf(ps, name), rate)
  {
    hide Unpack;
    HeadersIndexed(ps, name);
    var hs := HeadersOf(ps, name);
    forall i, k | 0 <= i < k < |hs| && k == i + 1 ensures hs[i].end < hs[k].start {
      assert ps[i] in ps && ps[k] in ps;
      GapFreeInOrder(ps[i], ps[k], drift);
    }
    forall h | h in hs ensures h.rate == rate {
      var i :| 0 <= i < |hs| && hs[i] == h;
      assert ps[i] in ps;
    }
  }

  // ---------------------------------------------------------------- uniformity is needed

  /** A packet of 100 samples a second covering the whole seconds `from` to `to`. */
  function CoveringPacket(from: int, to: int): Packet
    requires from <= to <= from + 1000
  {
    Packet(StreamIdentifier("UU", "CTU", "HHZ", "01"), Second(from), 100.0, Integer32, 100 * (to - from) + 1, 0)
  }

  lemma CoveringUnpacks(from: int, to: int)
    requires from <= to <= from + 1000
    ensures Unpack(CoveringPacket(from, to)) == Success(Covering(from, to))
    ensures Belongs(CoveringPacket(from, to), NAME)
  {
    assert ToName(CoveringPacket(from, to).identifier) == NAME;
    assert SampleInterval(100.0) == 10000;
    assert Round(100.0) == 100;
  }

  lemma AllButLastAllowed(verdicts: seq<Verdict>, v: Verdict)
    requires AllAllowed(verdicts + [v])
    ensures AllAllowed(verdicts) && v == Allowed
  {
    assert v in verdicts + [v];
    forall x | x in verdicts ensures x == Allowed {
      assert x in verdicts + [v];
    }
  }

  lemma {:induction false} AllAdmitted(sizing: Sizing, ps: seq<Packet>)
    requires AllAllowed(ServeAll(sizing, ps).verdicts)
    ensures Admitted(sizing, ps) == ps
  {
    hide SubmitPacket, AllAllowed;
    if ps != [] {
      var init := ps[..|ps| - 1];
      var before, vs := ServeAll(sizing, init).verdicts, ServeAll(sizing, ps).verdicts;
      assert vs == before + [vs[|vs| - 1]];
      AllButLastAllowed(before, vs[|vs| - 1]);
      AllAdmitted(sizing, init);
    }
  }

  /** Two slots, and a packet around two others: after one more packet the detector lets it through a second time. */
  lemma LongPacketAdmittedTwice()
    ensures var ps := [CoveringPacket(10, 20), CoveringPacket(30, 40), CoveringPacket(5, 45), CoveringPacket(50, 60),
                       CoveringPacket(5, 45)];
            && AllAllowed(ServeAll(Slots(2), ps).verdicts) && Admitted(Slots(2), ps) == ps && ps[2] == ps[4]
            && !NoOverlap(ps[2], ps[4])
  {
    hide Run, ServeAll, Admitted, Unpack, Belongs, HeadersOf, CoveringPacket, Covering;
    var ps := [CoveringPacket(10, 20), CoveringPacket(30, 40), CoveringPacket(5, 45), CoveringPacket(50, 60),
               CoveringPacket(5, 45)];
    var hs := [Covering(10, 20), Covering(30, 40), Covering(5, 45), Covering(50, 60), Covering(5, 45)];
    CoveringUnpacks(10, 20);
    CoveringUnpacks(30, 40);
    CoveringUnpacks(5, 45);
    CoveringUnpacks(50, 60);
    HeadersIndexed(ps, NAME);
    assert HeadersOf(ps, NAME) == hs;
    LongPacketAllowedTwice();
    VerdictsMirrored(Slots(2), ps, NAME);
    AllBelong(Slots(2), ps, NAME);
    AllAdmitted(Slots(2), ps);
    CoveringNotDisjoint();
  }

  lemma CoveringNotDisjoint()
    ensures !NoOverlap(CoveringPacket(5, 45), CoveringPacket(5, 45))
  {
    hide Round, Unpack;
    CoveringUnpacks(5, 45);
  }
}
