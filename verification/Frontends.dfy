/** A publishing RPC of the frontend: each packet read is validated, its codes are normalised, and it is handed to the
    proxy; a publisher that keeps sending invalid packets is cut off. */
module Frontends {
  import opened Packets
  import opened Codes

  datatype Status = Fine | InvalidArgument | Unavailable

  /** What OnReadDone is given: a packet, whether the proxy's callback throws for it and whether the server still runs;
      or the news that there is nothing more to read. */
  datatype Read = Read(packet: Packet, throws: bool, keepRunning: bool) | NoMore

  /** The counters of an RPC, the totals written to its response, what the callback accepted, and the status the RPC
      was finished with. */
  datatype Reader = Reader(
    total: nat,
    rejected: nat,
    consecutive: nat,
    response: (nat, nat),
    handed: seq<Packet>,
    status: Option<Status>)

  predicate Usable(p: Packet) {
    p.numberOfSamples > 0 && p.dataType != Unknown && p.samplingRate > 0.0 && Canonical(p.identifier).Some?
  }

  function Prepared(p: Packet): Packet
    requires Usable(p)
  {
    p.(identifier := Canonical(p.identifier).value)
  }

  /** A packet that arrived, before the checks that follow every read. */
  function Counted(r: Reader, p: Packet, throws: bool): Reader {
    var r1 := r.(total := r.total + 1);
    if !Usable(p) then r1.(rejected := r.rejected + 1, consecutive := r.consecutive + 1)
    else if throws then r1.(rejected := r.rejected + 1)
    else r1.(handed := r.handed + [Prepared(p)], consecutive := 0)
  }

  /** One callback; a finished RPC gets no more of them. */
  function AfterRead(maximum: nat, r: Reader, read: Read): Reader {
    if r.status.Some? then r
    else
      match read
      case NoMore => r.(response := (r.total, r.rejected), status := Some(Fine))
      case Read(p, throws, keepRunning) =>
        var r1 := Counted(r, p, throws);
        if r1.consecutive > maximum then r1.(status := Some(InvalidArgument))
        else if !keepRunning then r1.(status := Some(Unavailable))
        else r1
  }

  const IDLE: Reader := Reader(0, 0, 0, (0, 0), [], None)

  function Serve(maximum: nat, inputs: seq<Read>): Reader {
    if inputs == [] then IDLE else AfterRead(maximum, Serve(maximum, inputs[..|inputs| - 1]), inputs[|inputs| - 1])
  }

  // ---------------------------------------------------------------- what a sequence of reads amounts to

  predicate Delivered(read: Read) {
    read.Read? && Usable(read.packet) && !read.throws
  }

  predicate Invalid(read: Read) {
    read.Read? && !Usable(read.packet)
  }

  predicate Failed(read: Read) {
    read.Read? && Usable(read.packet) && read.throws
  }

  function CountOf(inputs: seq<Read>, test: Read -> bool): nat {
    if inputs == [] then 0
    else CountOf(inputs[..|inputs| - 1], test) + if test(inputs[|inputs| - 1]) then 1 else 0
  }

  /** The packets delivered, normalised, in the order they were read. */
  function DeliveredPackets(inputs: seq<Read>): seq<Packet> {
    if inputs == [] then []
    else
      var before := DeliveredPackets(inputs[..|inputs| - 1]);
      var read := inputs[|inputs| - 1];
      if Delivered(read) then before + [Prepared(read.packet)] else before
  }

  /** How many reads there were up to and including the last delivery. */
  function LastDelivery(inputs: seq<Read>): (n: nat)
    ensures n <= |inputs|
  {
    if inputs == [] then 0
    else if Delivered(inputs[|inputs| - 1]) then |inputs|
    else LastDelivery(inputs[..|inputs| - 1])
  }

  lemma {:induction false} LastDeliveryIsLast(inputs: seq<Read>)
    ensures var n := LastDelivery(inputs);
            && (n > 0 ==> Delivered(inputs[n - 1]))
            && (forall k :: n <= k < |inputs| ==> !Delivered(inputs[k]))
  {
    hide Delivered;
    if inputs != [] && !Delivered(inputs[|inputs| - 1]) {
      LastDeliveryIsLast(inputs[..|inputs| - 1]);
    }
  }

  /** The invalid packets since the last delivery. */
  function InvalidSince(inputs: seq<Read>): nat {
    CountOf(inputs[LastDelivery(inputs)..], Invalid)
  }

  /** The RPC asks for another read after these. */
  predicate AsksForMore(maximum: nat, inputs: seq<Read>) {
    inputs != [] ==>
      var last := inputs[|inputs| - 1];
      last.Read? && last.keepRunning && InvalidSince(inputs) <= maximum
  }

  /** Each of the reads was asked for. */
  ghost predicate AskedFor(maximum: nat, inputs: seq<Read>) {
    forall k | 0 <= k < |inputs| :: AsksForMore(maximum, inputs[..k])
  }

  lemma InvalidSinceStep(inputs: seq<Read>)
    requires inputs != []
    ensures var init := inputs[..|inputs| - 1];
            var last := inputs[|inputs| - 1];
            InvalidSince(inputs) ==
              if Delivered(last) then 0 else InvalidSince(init) + if Invalid(last) then 1 else 0
  {
    var init := inputs[..|inputs| - 1];
    var last := inputs[|inputs| - 1];
    if !Delivered(last) {
      var n := LastDelivery(init);
      assert LastDelivery(inputs) == n;
      var s := inputs[n..];
      assert s[..|s| - 1] == init[n..] && s[|s| - 1] == last;
    }
  }

  lemma AskedForInit(maximum: nat, inputs: seq<Read>)
    requires inputs != []
    ensures var init := inputs[..|inputs| - 1];
            AskedFor(maximum, inputs) <==> AskedFor(maximum, init) && AsksForMore(maximum, init)
  {
    hide AsksForMore;
    var init := inputs[..|inputs| - 1];
    assert forall k :: 0 <= k < |init| ==> inputs[..k] == init[..k];
  }

  // ---------------------------------------------------------------- accounting

  /** Every packet read is handed off or rejected, and what is handed off is what was delivered, normalised, in order.
      The response tells the totals once the publisher has finished, and nothing before. */
  lemma {:induction false} Accounting(maximum: nat, inputs: seq<Read>)
    requires AskedFor(maximum, inputs)
    ensures var r := Serve(maximum, inputs);
            && r.total == |r.handed| + r.rejected
            && r.total == CountOf(inputs, (x: Read) => x.Read?)
            && r.rejected == CountOf(inputs, Invalid) + CountOf(inputs, Failed)
            && r.handed == DeliveredPackets(inputs)
            && r.consecutive == InvalidSince(inputs)
            && r.response == (if inputs != [] && inputs[|inputs| - 1].NoMore? then (r.total, r.rejected) else (0, 0))
            && (r.status.None? <==> AsksForMore(maximum, inputs))
  {
    hide Usable, Prepared, InvalidSince;
    if inputs != [] {
      var init := inputs[..|inputs| - 1];
      AskedForInit(maximum, inputs);
      Accounting(maximum, init);
      InvalidSinceStep(inputs);
      assert init != [] ==> init[|init| - 1].Read?;
    } else {
      assert InvalidSince([]) == 0 by { NoneSince(); }
    }
  }

  lemma NoneSince()
    ensures InvalidSince([]) == 0
  {
  }

  // ---------------------------------------------------------------- how the RPC ends

  /** How a requested read ends the RPC, or does not. */
  lemma Ending(maximum: nat, inputs: seq<Read>)
    requires AskedFor(maximum, inputs) && inputs != []
    ensures var last := inputs[|inputs| - 1];
            Serve(maximum, inputs).status ==
              if last.NoMore? then Some(Fine)
              else if InvalidSince(inputs) > maximum then Some(InvalidArgument)
              else if !last.keepRunning then Some(Unavailable)
              else None
  {
    hide Usable, InvalidSince, CountOf, DeliveredPackets;
    AskedForInit(maximum, inputs);
    Accounting(maximum, inputs[..|inputs| - 1]);
    Accounting(maximum, inputs);
  }

  /** The RPC is open exactly while every read so far asks for another. */
  lemma {:induction false} OpenIff(maximum: nat, inputs: seq<Read>)
    ensures Serve(maximum, inputs).status.None? <==> AskedFor(maximum, inputs) && AsksForMore(maximum, inputs)
  {
    hide AsksForMore, Counted;
    if AskedFor(maximum, inputs) {
      Accounting(maximum, inputs);
    } else {
      AskedForInit(maximum, inputs);
      OpenIff(maximum, inputs[..|inputs| - 1]);
    }
  }

  /** The last read was asked for, and it takes the invalid packets since the last delivery over the maximum. */
  ghost predicate Oversteps(maximum: nat, inputs: seq<Read>) {
    && inputs != [] && AskedFor(maximum, inputs)
    && inputs[|inputs| - 1].Read? && InvalidSince(inputs) > maximum
  }

  /** The cut-off: a publisher is disconnected for invalid packets exactly when, at some read it was asked for, the
      invalid packets since the last delivery exceed the maximum. */
  lemma {:induction false} CutOff(maximum: nat, inputs: seq<Read>)
    ensures Serve(maximum, inputs).status == Some(InvalidArgument) <==>
            exists k | 0 <= k <= |inputs| :: Oversteps(maximum, inputs[..k])
  {
    hide Oversteps, Serve;
    assert inputs[..|inputs|] == inputs;
    if inputs == [] {
      assert !Oversteps(maximum, []) by { NoReads(maximum); }
      assert Serve(maximum, inputs).status.None? by { NoReads(maximum); }
    } else {
      var init := inputs[..|inputs| - 1];
      CutOff(maximum, init);
      assert forall k :: 0 <= k <= |init| ==> init[..k] == inputs[..k];
      CutOffLast(maximum, inputs);
      if Serve(maximum, init).status.None? {
        forall k | 0 <= k <= |init| ensures !Oversteps(maximum, inputs[..k]) {
          assert init[..k] == inputs[..k];
        }
      }
    }
  }

  lemma NoReads(maximum: nat)
    ensures !Oversteps(maximum, []) && Serve(maximum, []).status.None?
  {
  }

  lemma CutOffLast(maximum: nat, inputs: seq<Read>)
    requires inputs != []
    ensures var init := inputs[..|inputs| - 1];
            if Serve(maximum, init).status.None?
            then Serve(maximum, inputs).status == Some(InvalidArgument) <==> Oversteps(maximum, inputs)
            else Serve(maximum, inputs) == Serve(maximum, init) && !Oversteps(maximum, inputs)
  {
    hide InvalidSince, AskedFor, AsksForMore;
    OpenIff(maximum, inputs[..|inputs| - 1]);
    AskedForInit(maximum, inputs);
    if AskedFor(maximum, inputs) {
      Ending(maximum, inputs);
    }
  }

  // ---------------------------------------------------------------- what a publisher can achieve

  /** While the RPC lasts, rejections the proxy did not cause are bounded by the deliveries. */
  lemma {:induction false} RejectionsBounded(maximum: nat, inputs: seq<Read>)
    requires AskedFor(maximum, inputs)
    ensures var r := Serve(maximum, inputs);
            r.rejected <= CountOf(inputs, Failed) + |r.handed| * maximum + r.consecutive
    ensures Serve(maximum, inputs).consecutive <= maximum + 1
  {
    hide Usable, Prepared, AsksForMore, InvalidSince, AskedFor;
    if inputs != [] {
      var init := inputs[..|inputs| - 1];
      AskedForInit(maximum, inputs);
      RejectionsBounded(maximum, init);
      OpenIff(maximum, init);
      Accounting(maximum, init);
      OpenWithin(maximum, init);
      var r := Serve(maximum, init);
      assert (|r.handed| + 1) * maximum == |r.handed| * maximum + maximum;
    }
  }

  lemma {:induction false} OpenWithin(maximum: nat, inputs: seq<Read>)
    ensures Serve(maximum, inputs).status.None? ==> Serve(maximum, inputs).consecutive <= maximum
  {
    hide Usable, Prepared;
    if inputs != [] {
      OpenWithin(maximum, inputs[..|inputs| - 1]);
    }
  }

  /** What reaches the proxy: positive rate and samples, so that a header can be unpacked, and codes in normal form. */
  predicate Presentable(p: Packet) {
    && Unpack(p).Success? && p.dataType != Unknown
    && Canonical(p.identifier) == Some(p.identifier)
  }

  lemma {:induction false} HandedPresentable(maximum: nat, inputs: seq<Read>)
    ensures forall p <- Serve(maximum, inputs).handed :: Presentable(p)
  {
    hide Canonical, Unpack;
    if inputs != [] {
      HandedPresentable(maximum, inputs[..|inputs| - 1]);
      var last := inputs[|inputs| - 1];
      if Delivered(last) {
        PreparedPresentable(last.packet);
      }
    }
  }

  /** Which packets are accepted: a header can be unpacked, the type is known, and no code is blank. */
  lemma UsableExactly(p: Packet)
    ensures Usable(p) <==>
              && Unpack(p).Success? && p.dataType != Unknown
              && !Blank(p.identifier.network) && !Blank(p.identifier.station) && !Blank(p.identifier.channel)
  {
    hide Blank, Canonical;
    CanonicalFixed(p.identifier);
  }

  /** `handed` is the packet that was read, with its codes in normal form and nothing else changed. */
  ghost predicate Renamed(packet: Packet, handed: Packet) {
    var id, id' := packet.identifier, handed.identifier;
    && handed.(identifier := id) == packet
    && Canonical(id') == Some(id')
    && Variants(id.network, id'.network) && Variants(id.station, id'.station) && Variants(id.channel, id'.channel)
    && LocationVariants(id.locationCode, id'.locationCode)
  }

  /** A requested read hands a packet to the proxy exactly if a header can be unpacked, the type is known, no code is
      blank and the callback does not throw; it is the packet that was read, renamed. Any other packet is rejected. */
  lemma HandedExactly(maximum: nat, inputs: seq<Read>)
    requires AskedFor(maximum, inputs) && inputs != [] && inputs[|inputs| - 1].Read?
    ensures var before, after := Serve(maximum, inputs[..|inputs| - 1]), Serve(maximum, inputs);
            var p, id := inputs[|inputs| - 1].packet, inputs[|inputs| - 1].packet.identifier;
            if && Unpack(p).Success? && p.dataType != Unknown && !inputs[|inputs| - 1].throws
               && !Blank(id.network) && !Blank(id.station) && !Blank(id.channel)
            then
              && after.rejected == before.rejected && |after.handed| == |before.handed| + 1
              && before.handed == after.handed[..|before.handed|]
              && Renamed(p, after.handed[|before.handed|])
            else after.handed == before.handed && after.rejected == before.rejected + 1
  {
    var p := inputs[|inputs| - 1].packet;
    UsableExactly(p);
    if Usable(p) {
      PreparedRenamed(p);
    }
    hide Usable, Prepared, Blank, Unpack, Renamed, InvalidSince, CountOf, DeliveredPackets, AsksForMore, AskedFor;
    AskedForInit(maximum, inputs);
    OpenIff(maximum, inputs[..|inputs| - 1]);
  }

  lemma PreparedRenamed(p: Packet)
    requires Usable(p)
    ensures Renamed(p, Prepared(p))
  {
    hide Canonical, Variants, LocationVariants;
    CanonicalFixed(p.identifier);
  }

  lemma PreparedPresentable(p: Packet)
    requires Usable(p)
    ensures Presentable(Prepared(p))
  {
    CanonicalFixed(p.identifier);
  }

  // ---------------------------------------------------------------- the reader

  class AsynchronousReader {
    const maximum: nat
    var totalPackets: nat
    var packetsRejected: nat
    var consecutiveInvalidMessages: nat
    var response: (nat, nat)
    var finished: Option<Status>
    var handedOff: seq<Packet>   // what the callback has been given and has accepted

    function View(): Reader
      reads this
    {
      Reader(totalPackets, packetsRejected, consecutiveInvalidMessages, response, handedOff, finished)
    }

    /** An RPC that was admitted and asked for its first packet. */
    constructor (maximum: nat)
      ensures this.maximum == maximum && View() == IDLE
    {
      this.maximum := maximum;
      totalPackets := 0;
      packetsRejected := 0;
      consecutiveInvalidMessages := 0;
      response := (0, 0);
      finished := None;
      handedOff := [];
    }

    method OnReadDone(ok: bool, packet: Packet, throws: bool, keepRunning: bool)
      requires finished.None?
      modifies this
      ensures View() == AfterRead(maximum, old(View()), if ok then Read(packet, throws, keepRunning) else NoMore)
    {
      hide Normal;
      if ok {
        totalPackets := totalPackets + 1;
        if packet.numberOfSamples > 0 && packet.dataType != Unknown && packet.samplingRate > 0.0 {
          var network := Normalise(packet.identifier.network);
          var station := Normalise(packet.identifier.station);
          var channel := Normalise(packet.identifier.channel);
          var locationCode := Normalise(packet.identifier.locationCode);
          if locationCode == "" {
            locationCode := "--";
          }
          if network != "" && station != "" && channel != "" {
            var prepared := packet.(identifier := StreamIdentifier(network, station, channel, locationCode));
            if !throws {
              handedOff := handedOff + [prepared];
              consecutiveInvalidMessages := 0;
            } else {
              packetsRejected := packetsRejected + 1;
            }
          } else {
            packetsRejected := packetsRejected + 1;
            consecutiveInvalidMessages := consecutiveInvalidMessages + 1;
          }
        } else {
          packetsRejected := packetsRejected + 1;
          consecutiveInvalidMessages := consecutiveInvalidMessages + 1;
        }
        if consecutiveInvalidMessages > maximum {
          finished := Some(InvalidArgument);
          return;
        }
        if !keepRunning {
          finished := Some(Unavailable);
        }
      } else {
        response := (totalPackets, packetsRejected);
        finished := Some(Fine);
      }
    }
  }
}
