/** Packets, the headers the duplicate detector keeps of them, and the arithmetic on headers:
    end times, stream names, the tolerant comparison and the capacity estimate. */
module Packets {

  datatype Error =
    | RateNotPositive
    | NoSamples
    | InconsistentRates
    | UnclassifiableRate

  /** A C++ call that returns a value or throws. */
  datatype Result<+T> = Success(value: T) | Failure(error: Error)

  datatype Option<+T> = None | Some(value: T)

  type Uint32 = n: nat | n < 0x1_0000_0000

  datatype DataType = Unknown | Integer32 | Float | Double | Text | Integer64

  datatype StreamIdentifier =
    StreamIdentifier(network: string, station: string, channel: string, locationCode: string)

  /** Times are microseconds since the epoch; `payload` stands for the sample bytes. */
  datatype Packet = Packet(
    identifier: StreamIdentifier,
    startTime: int,
    samplingRate: real,
    dataType: DataType,
    numberOfSamples: Uint32,
    payload: nat)

  datatype Header = Header(name: string, start: int, end: int, rate: int, samples: nat) {
    ghost predicate Valid() {
      start <= end && samples >= 1
    }

    function Duration(): int {
      end - start
    }
  }

  /** std::round: the nearest integer, ties away from zero. */
  function Round(x: real): (r: int)
    ensures -0.5 <= x - r as real <= 0.5
    ensures x >= 0.0 ==> r >= 0 && x - (r as real) < 0.5
    ensures x <= 0.0 ==> r <= 0 && x - (r as real) > -0.5
  {
    if x >= 0.0 then (x + 0.5).Floor else -((0.5 - x).Floor)
  }

  // ---------------------------------------------------------------- stream names

  function ToName(id: StreamIdentifier): string {
    var stem := id.network + "." + id.station + "." + id.channel + ".";
    if id.locationCode == "" then stem else stem + "." + id.locationCode
  }

  /** The parts of an identifier before its location code hold no separator. */
  ghost predicate DotFree(id: StreamIdentifier) {
    '.' !in id.network && '.' !in id.station && '.' !in id.channel
  }

  // ---------------------------------------------------------------- headers

  /** Microseconds between two samples, as getEndTimeInMicroSeconds rounds them. */
  function SampleInterval(rate: real): (dt: int)
    requires rate > 0.0
    ensures dt >= 0
  {
    Round(1000000.0 / rate)
  }

  /** `nSamples - 1` is 32-bit unsigned arithmetic: zero samples wrap around. */
  function LastSample(samples: Uint32): nat {
    if samples == 0 then 0xFFFF_FFFF else samples - 1
  }

  function EndTime(p: Packet): (r: Result<int>) {
    if p.samplingRate <= 0.0 then Failure(RateNotPositive)
    else Success(p.startTime + SampleInterval(p.samplingRate) * LastSample(p.numberOfSamples))
  }

  function Unpack(p: Packet): (r: Result<Header>)
    ensures r.Success? <==> p.samplingRate > 0.0 && p.numberOfSamples > 0
    ensures r.Success? ==> r.value.Valid() && r.value.name == ToName(p.identifier)
    ensures r.Success? ==> r.value.start == p.startTime && r.value.samples == p.numberOfSamples
    ensures r.Success? ==> -0.5 <= p.samplingRate - r.value.rate as real < 0.5
  {
    match EndTime(p)
    case Failure(e) => Failure(e)
    case Success(end) =>
      if p.numberOfSamples <= 0 then Failure(NoSamples)
      else
        Success(Header(ToName(p.identifier), p.startTime, end, Round(p.samplingRate), p.numberOfSamples))
  }

  /** An observed rate that wobbles around a whole number by less than half a hertz is taken for that number, and one
      halfway between two for the higher; start and sample count are the packet's own. */
  lemma UnpackNominal(p: Packet, n: int)
    requires p.numberOfSamples > 0 && p.samplingRate > 0.0 && -0.5 <= p.samplingRate - n as real < 0.5
    ensures Unpack(p).Success?
    ensures var h := Unpack(p).value;
            h.rate == n && h.start == p.startTime && h.samples == p.numberOfSamples
  {
  }

  /** The computed end of a packet is within half a microsecond per sample of the exact time of its last sample. */
  lemma EndTimeError(p: Packet)
    requires Unpack(p).Success?
    ensures var exact := p.startTime as real + (p.numberOfSamples - 1) as real * (1000000.0 / p.samplingRate);
            var slack := (p.numberOfSamples - 1) as real / 2.0;
            exact - slack <= Unpack(p).value.end as real <= exact + slack
  {
    var x := 1000000.0 / p.samplingRate;
    ScaledError(p.startTime, SampleInterval(p.samplingRate), x, p.numberOfSamples - 1);
  }

  lemma ScaledError(start: int, dt: int, x: real, n: nat)
    requires -0.5 <= x - dt as real <= 0.5
    ensures start as real + n as real * x - n as real / 2.0 <= (start + dt * n) as real
    ensures (start + dt * n) as real <= start as real + n as real * x + n as real / 2.0
  {
    var m := n as real;
    RealProduct(dt, n);
    Scale(x - 0.5, dt as real, m);
    Scale(dt as real, x + 0.5, m);
    assert (x - 0.5) * m == m * x - m / 2.0 && (x + 0.5) * m == m * x + m / 2.0;
  }

  lemma Scale(a: real, b: real, c: real)
    requires a <= b && c >= 0.0
    ensures a * c <= b * c && c * a <= c * b
  {
    assert (b - a) * c >= 0.0;
  }

  // ---------------------------------------------------------------- tolerant comparison

  /** Start times closer than this many microseconds count as equal. */
  function Tolerance(rate: int): (r: Result<int>)
    ensures r.Success? <==> rate < 1005
    ensures r.Success? ==> r.value >= 1500
  {
    if rate < 105 then Success(15000)
    else if rate < 255 then Success(4500)
    else if rate < 505 then Success(2500)
    else if rate < 1005 then Success(1500)
    else Failure(UnclassifiableRate)
  }

  function Abs(x: int): nat {
    if x < 0 then -x else x
  }

  /** `stored == h`, which throws on a change of rate and on rates it has no tolerance for. */
  function Compare(stored: Header, h: Header): (r: Result<bool>) {
    if h.name != stored.name then Success(false)
    else if h.rate != stored.rate then Failure(InconsistentRates)
    else if h.samples != stored.samples then Success(false)
    else
      match Tolerance(stored.rate)
      case Failure(e) => Failure(e)
      case Success(tolerance) => Success(Abs(h.start - stored.start) < tolerance)
  }

  /** When two headers count as the same packet: of one stream, with equal sample counts, and with starts less than a
      fixed distance apart, which depends on the class of the rate. */
  lemma CompareExactly(a: Header, b: Header)
    ensures a.name != b.name ==> Compare(a, b) == Success(false)
    ensures Compare(a, b) == Failure(InconsistentRates) <==> a.name == b.name && a.rate != b.rate
    ensures a.name == b.name && a.rate == b.rate && a.samples != b.samples ==> Compare(a, b) == Success(false)
    ensures a.name == b.name && a.rate == b.rate && a.samples == b.samples ==>
              (Compare(a, b) == Success(true) <==>
                || (a.rate <= 104 && -15000 < b.start - a.start < 15000)
                || (105 <= a.rate <= 254 && -4500 < b.start - a.start < 4500)
                || (255 <= a.rate <= 504 && -2500 < b.start - a.start < 2500)
                || (505 <= a.rate <= 1004 && -1500 < b.start - a.start < 1500))
    ensures a.name == b.name && a.rate == b.rate && a.samples == b.samples ==>
              (Compare(a, b) == Failure(UnclassifiableRate) <==> a.rate >= 1005)
  {
  }

  /** In every class of rates the tolerance is less than two sample intervals. */
  lemma ToleranceBelowTwoSamples(rate: real)
    requires 0.0 < rate && Round(rate) < 1005
    ensures Tolerance(Round(rate)).value as real < 2.0 * (1000000.0 / rate)
  {
    var n, t := Round(rate), Tolerance(Round(rate)).value as real;
    assert rate <= n as real + 0.5;
    assert t * (n as real + 0.5) < 2000000.0 by {
      if n < 105 {
        Scale(n as real, 104.0, t);
      } else if n < 255 {
        Scale(n as real, 254.0, t);
      } else if n < 505 {
        Scale(n as real, 504.0, t);
      } else {
        Scale(n as real, 1004.0, t);
      }
    }
    Scale(rate, n as real + 0.5, t);
    DivideThenMultiply(1000000.0, rate);
    LessByProduct(t, 2.0 * (1000000.0 / rate), rate);
  }

  lemma LessByProduct(a: real, b: real, c: real)
    requires c > 0.0 && a * c < b * c
    ensures a < b
  {
    if a >= b {
      Scale(b, a, c);
    }
  }

  lemma CompareSymmetric(a: Header, b: Header)
    ensures Compare(a, b) == Compare(b, a)
  {
    assert Abs(a.start - b.start) == Abs(b.start - a.start);
  }

  // ---------------------------------------------------------------- capacity estimate

  /** Truncation of a floating-point number toward zero. */
  function Truncate(x: real): int {
    if x >= 0.0 then x.Floor else -((-x).Floor)
  }

  function Max(a: int, b: int): int {
    if a < b then b else a
  }

  /** Whole seconds a packet lasts, judged by its rounded sampling rate. */
  function RoundedSeconds(h: Header): (d: int)
    requires h.samples >= 1
    ensures d >= 0
  {
    Max(0, Round((h.samples - 1) as real / (Max(1, h.rate) as real)))
  }

  /** The rounded duration is the whole number of seconds nearest to what the samples last at the rounded rate, or at
      one hertz if that is less; it is at least one exactly if they last half a second. */
  lemma RoundedSecondsNearest(h: Header)
    requires h.samples >= 1
    ensures var rate := if h.rate < 1 then 1 else h.rate;
            && -rate <= 2 * (RoundedSeconds(h) * rate - (h.samples - 1)) <= rate
            && (RoundedSeconds(h) >= 1 <==> 2 * (h.samples - 1) >= rate)
  {
    QuotientNearest(h.samples - 1, if h.rate < 1 then 1 else h.rate);
  }

  lemma QuotientNearest(n: nat, rate: int)
    requires rate >= 1
    ensures var d := Round(n as real / rate as real);
            d >= 0 && -rate <= 2 * (d * rate - n) <= rate && (d >= 1 <==> 2 * n >= rate)
  {
    var m, r := n as real, rate as real;
    var x := m / r;
    DivideThenMultiply(m, r);
    QuotientNonNegative(m, r);
    NearestMultiple(x, Round(x) as real, m, r);
    RealProduct(Round(x), rate);
    RoundsToZero(x);
  }

  lemma RoundsToZero(x: real)
    requires x >= 0.0
    ensures Round(x) >= 1 <==> x >= 0.5
  {
  }

  lemma HalfTimes(e: real, r: real)
    requires -0.5 <= e <= 0.5 && r > 0.0
    ensures -r <= 2.0 * (e * r) <= r
  {
    Scale(-0.5, e, r);
    Scale(e, 0.5, r);
  }

  lemma Distribute(x: real, e: real, r: real)
    ensures (x + e) * r == x * r + e * r
  {
  }

  lemma NearMultiple(x: real, e: real, d: real, m: real, r: real)
    requires x * r == m && r > 0.0 && -0.5 <= e <= 0.5 && d == x + e
    ensures -r <= 2.0 * (d * r - m) <= r
  {
    HalfTimes(e, r);
    Distribute(x, e, r);
    var q := e * r;
    assert -r <= 2.0 * q <= r;
    assert d * r == m + q;
  }

  lemma NearestMultiple(x: real, d: real, m: real, r: real)
    requires x * r == m && r > 0.0 && -0.5 <= x - d <= 0.5
    ensures -r <= 2.0 * (d * r - m) <= r
    ensures x >= 0.5 <==> 2.0 * m >= r
  {
    NearMultiple(x, d - x, d, m, r);
    if x >= 0.5 {
      Scale(0.5, x, r);
    } else {
      ScaleStrictly(x, 0.5, r);
    }
  }

  /** Slots for `memory` seconds of packets like `h`. A packet of less than half a second divides by zero;
      converting the infinite quotient gives an unspecified integer, `castOfInfinity`. */
  function EstimateCapacity(h: Header, memory: nat, castOfInfinity: int): (capacity: nat)
    requires h.samples >= 1
    ensures capacity >= 11
  {
    var d := RoundedSeconds(h);
    Max(10, if d == 0 then castOfInfinity else Truncate(1.5 * memory as real / d as real)) + 1
  }

  /** The estimated slots, each holding a packet as long as the first, span more than 1.5 times the memory. */
  lemma EstimateCoversMemory(h: Header, memory: nat, castOfInfinity: int)
    requires h.samples >= 1 && RoundedSeconds(h) >= 1
    ensures 2 * (EstimateCapacity(h, memory, castOfInfinity) * RoundedSeconds(h)) > 3 * memory
  {
    QuotientBound(memory, RoundedSeconds(h), EstimateCapacity(h, memory, castOfInfinity));
  }

  /** Nor are there more slots than for 1.5 times the memory, beyond the eleven there always are. */
  lemma EstimateNotTooLarge(h: Header, memory: nat, castOfInfinity: int)
    requires h.samples >= 1 && RoundedSeconds(h) >= 1
    ensures var d, slots := RoundedSeconds(h), EstimateCapacity(h, memory, castOfInfinity);
            2 * ((slots - 1) * d) <= Max(20 * d, 3 * memory)
  {
    var d := RoundedSeconds(h);
    var q := 1.5 * memory as real / d as real;
    QuotientNonNegative(1.5 * memory as real, d as real);
    DivideThenMultiply(1.5 * memory as real, d as real);
    Scale(Truncate(q) as real, q, d as real);
    RealProduct(Truncate(q), d);
    assert 2 * (Truncate(q) * d) <= 3 * memory;
    if Truncate(q) <= 10 {
      assert EstimateCapacity(h, memory, castOfInfinity) == 11;
    }
  }

  lemma QuotientNonNegative(x: real, y: real)
    requires x >= 0.0 && y > 0.0
    ensures x / y >= 0.0
  {
  }

  lemma QuotientBound(memory: nat, d: int, capacity: int)
    requires d >= 1 && capacity as real > 1.5 * memory as real / d as real
    ensures 2 * (capacity * d) > 3 * memory
  {
    var q := 1.5 * memory as real / d as real;
    DivideThenMultiply(1.5 * memory as real, d as real);
    ScaleStrictly(q, capacity as real, d as real);
    RealProduct(capacity, d);
    assert (capacity * d) as real > 1.5 * memory as real;
  }

  lemma DivideThenMultiply(x: real, y: real)
    requires y != 0.0
    ensures x / y * y == x
  {
  }

  lemma RealProduct(a: int, b: int)
    ensures (a * b) as real == a as real * b as real
  {
  }

  lemma ScaleStrictly(a: real, b: real, c: real)
    requires a < b && c > 0.0
    ensures a * c < b * c
  {
    assert (b - a) * c > 0.0;
  }
}
