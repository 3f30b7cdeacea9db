/** What the detector remembers, for both ways of sizing its rings: a fixed number of slots, and a time to remember. */
module Memories {
  import opened Packets
  import opened Rings
  import opened StreamRuns
  import opened Arrivals
  import opened Detectors
  import opened DetectorRuns

  /** With a fixed number of slots, every stream's ring has that many, and holds as many of its recorded headers as
      fit. */
  lemma SlotsHold(slots: nat, ps: seq<Packet>, name: string)
    requires slots >= 1
    ensures var buffers := ServeAll(Slots(slots), ps).buffers;
            name in buffers ==>
              && buffers[name].capacity == slots
              && |buffers[name].headers| == (if |HistoryOf(Slots(slots), ps, name)| < slots
                                             then |HistoryOf(Slots(slots), ps, name)| else slots)
  {
    hide Feed, Run;
    HeadersOfStream(ps, name);
    StreamMirrored(Slots(slots), ps, name);
    RunInv(name, slots, HeadersOf(ps, name));
  }

  // ---------------------------------------------------------------- a time to remember

  /** The rate that counts when a duration is estimated. */
  function CountedRate(h: Header): int {
    if h.rate < 1 then 1 else h.rate
  }

  /** The samples of the header last half a second or more. */
  ghost predicate LastsHalfASecond(h: Header) {
    2 * (h.samples - 1) >= CountedRate(h)
  }

  /** The packet lasts at least a third of a second more than two thirds of what the samples of `first` last. */
  ghost predicate LongEnough(h: Header, first: Header) {
    3 * (h.Duration() * CountedRate(first)) >= 1000000 * (2 * (first.samples - 1) + CountedRate(first))
  }

  /** In microseconds, that is two thirds of the rounded duration of `first`. */
  lemma LongEnoughRounded(h: Header, first: Header)
    requires first.samples >= 1 && LongEnough(h, first)
    ensures 3 * h.Duration() >= 2 * Microseconds(RoundedSeconds(first))
  {
    hide RoundedSeconds;
    RoundedSecondsNearest(first);
    CancelRate(3 * h.Duration(), 2 * RoundedSeconds(first), CountedRate(first), h.Duration(), RoundedSeconds(first));
  }

  lemma CancelRate(x: int, y: int, rate: int, duration: int, d: int)
    requires rate >= 1 && x == 3 * duration && y == 2 * d
    requires 3 * (duration * rate) >= 1000000 * (2 * (d * rate))
    ensures x >= 1000000 * y
  {
    assert x < 1000000 * y ==> (1000000 * y - x) * rate > 0;
  }

  /** The ring of the stream never straddles, and its packets are long enough compared to the stream's first. */
  ghost predicate Remembers(sizing: Sizing, ps: seq<Packet>, name: string) {
    HeadersOfStream(ps, name);
    var hs := HeadersOf(ps, name);
    && hs != [] && LastsHalfASecond(hs[0])
    && NeverStraddles(CapacityFor(sizing, hs), hs)
    && forall h <- Run(CapacityFor(sizing, hs), hs).ring :: LongEnough(h, hs[0])
  }

  /** A full ring of the detector reaches over the time it was told to remember. */
  lemma {:induction false} FullRingRemembers(memory: nat, castOfInfinity: int, ps: seq<Packet>, name: string)
    requires Remembers(Memory(memory, castOfInfinity), ps, name)
    requires var buffers := ServeAll(Memory(memory, castOfInfinity), ps).buffers;
             name in buffers && |buffers[name].headers| == buffers[name].capacity
    ensures var ring := ServeAll(Memory(memory, castOfInfinity), ps).buffers[name].headers;
            ring != [] && ring[|ring| - 1].end - ring[0].start >= 1000000 * memory
  {
    hide ServeAll, Run, NeverStraddles, LongEnough, RoundedSeconds, EstimateCapacity;
    var sizing := Memory(memory, castOfInfinity);
    StreamMirrored(sizing, ps, name);
    var hs := HeadersOf(ps, name);
    var first := hs[0];
    RoundedSecondsNearest(first);
    EstimateCoversMemory(first, memory, castOfInfinity);
    var ring := Run(CapacityFor(sizing, hs), hs).ring;
    forall h | h in ring ensures 3 * h.Duration() >= 2 * Microseconds(RoundedSeconds(first)) {
      LongEnoughRounded(h, first);
    }
    FullRingReach(name, CapacityFor(sizing, hs), RoundedSeconds(first), memory, hs);
  }

  /** A packet that was recorded, and started within that time of the newest end, is refused when it comes again, and
      nothing changes. */
  lemma {:induction false} RepeatRefused(memory: nat, castOfInfinity: int, ps: seq<Packet>, p: Packet)
    requires var sizing, name := Memory(memory, castOfInfinity), ToName(p.identifier);
             && Remembers(sizing, ps, name) && InHistory(sizing, ps, p)
             && var buffers := ServeAll(sizing, ps).buffers;
             && name in buffers && buffers[name].headers != []
             && p.startTime >= buffers[name].headers[|buffers[name].headers| - 1].end - 1000000 * memory
    ensures var sizing := Memory(memory, castOfInfinity);
            var buffers := ServeAll(sizing, ps).buffers;
            SubmitPacket(sizing, buffers, p).verdict != Allowed && SubmitPacket(sizing, buffers, p).buffers == buffers
  {
    hide ServeAll, Run, NeverStraddles, LongEnough, RoundedSeconds, EstimateCapacity, Feed, ToName;
    var sizing, name, h := Memory(memory, castOfInfinity), ToName(p.identifier), Unpack(p).value;
    StreamMirrored(sizing, ps, name);
    var hs := HeadersOf(ps, name);
    RoundedSecondsNearest(hs[0]);
    forall x | x in Run(CapacityFor(sizing, hs), hs).ring
      ensures 3 * x.Duration() >= 2 * Microseconds(RoundedSeconds(hs[0]))
    {
      LongEnoughRounded(x, hs[0]);
    }
    assert hs == [hs[0]] + hs[1..];
    RepeatWithinMemoryRefused(name, hs[0], memory, castOfInfinity, hs[1..], h);
    RunInv(name, CapacityFor(sizing, hs), hs);
    UnrecordedKeepsRing(name, CapacityFor(sizing, hs), Run(CapacityFor(sizing, hs), hs).ring, h);
  }
}
