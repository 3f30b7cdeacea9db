/** The duplicate packet detector: one ring per stream name, all behind one `allow`. */
module Detectors {
  import opened Packets
  import opened Rings
  import opened CircularBuffers

  /** How the capacity of a new ring is chosen. `castOfInfinity` is explained at Packets.EstimateCapacity. */
  datatype Sizing = Slots(count: nat) | Memory(seconds: nat, castOfInfinity: int) {
    ghost predicate Valid() {
      Slots? ==> count >= 1
    }

    function Capacity(first: Header): (capacity: nat)
      requires first.samples >= 1
      ensures Valid() ==> capacity >= 1
    {
      match this
      case Slots(n) => n
      case Memory(seconds, c) => EstimateCapacity(first, seconds, c)
    }
  }

  /** A ring as a value. */
  datatype Stored = Stored(capacity: nat, headers: seq<Header>)

  type Buffers = map<string, Stored>

  datatype Reply = Reply(verdict: Verdict, buffers: Buffers)

  function BufferFor(sizing: Sizing, buffers: Buffers, h: Header): Stored
    requires h.samples >= 1
  {
    if h.name in buffers then buffers[h.name] else Stored(sizing.Capacity(h), [])
  }

  /** `allow` on a header. */
  function Submit(sizing: Sizing, buffers: Buffers, h: Header): Reply
    requires h.samples >= 1
  {
    var stored := BufferFor(sizing, buffers, h);
    var o := Feed(stored.capacity, stored.headers, h);
    Reply(o.verdict, buffers[h.name := Stored(stored.capacity, o.ring)])
  }

  /** `allow` on a packet: one that cannot be unpacked is not allowed. */
  function SubmitPacket(sizing: Sizing, buffers: Buffers, p: Packet): Reply {
    match Unpack(p)
    case Failure(_) => Reply(Rejected, buffers)
    case Success(h) => Submit(sizing, buffers, h)
  }

  /** What holds of the rings in every reachable state, whatever was submitted. */
  ghost predicate Sound(buffers: Buffers) {
    forall n <- buffers ::
      buffers[n].capacity >= 1 && buffers[n].headers != [] && RingInv(n, buffers[n].capacity, buffers[n].headers)
  }

  lemma SubmitKeepsSound(sizing: Sizing, buffers: Buffers, h: Header)
    requires sizing.Valid() && Sound(buffers) && h.Valid()
    ensures Sound(Submit(sizing, buffers, h).buffers)
  {
    var stored := BufferFor(sizing, buffers, h);
    assert RingInv(h.name, stored.capacity, stored.headers);
    FeedKeepsRing(h.name, stored.capacity, stored.headers, h);
  }

  /** A call that throws or records nothing leaves every ring as it was, and no call touches the ring of another
      stream. */
  lemma {:induction false} SubmitFrame(sizing: Sizing, buffers: Buffers, h: Header)
    requires sizing.Valid() && Sound(buffers) && h.Valid()
    ensures var stored := BufferFor(sizing, buffers, h);
            var r := Submit(sizing, buffers, h);
            && (!Feed(stored.capacity, stored.headers, h).recorded ==> r.buffers == buffers && r.verdict != Allowed)
            && (r.verdict.Thrown? ==> r.buffers == buffers)
            && r.buffers.Keys == buffers.Keys + {h.name}
            && (forall n <- buffers :: n != h.name ==> r.buffers[n] == buffers[n])
  {
    hide Feed;
    var stored := BufferFor(sizing, buffers, h);
    assert RingInv(h.name, stored.capacity, stored.headers);
    UnrecordedKeepsRing(h.name, stored.capacity, stored.headers, h);
    if !Feed(stored.capacity, stored.headers, h).recorded {
      assert h.name in buffers;
      assert Submit(sizing, buffers, h).buffers == buffers;
    }
  }

  lemma UnrecordedKeepsRing(name: string, capacity: nat, ring: seq<Header>, h: Header)
    requires capacity >= 1 && RingInv(name, capacity, ring) && h.Valid()
    ensures var o := Feed(capacity, ring, h);
            && (o.verdict.Thrown? ==> !o.recorded)
            && (!o.recorded ==> o.ring == ring && ring != [] && o.verdict != Allowed)
  {
    FeedConserves(capacity, ring, h);
  }

  // ---------------------------------------------------------------- the class

  class DuplicatePacketDetector {
    const sizing: Sizing
    var buffers: map<string, CircularBuffer>

    ghost var Repr: set<object>

    /** The rings are well formed and share nothing. */
    ghost predicate Separate()
      reads this, Repr
    {
      && this in Repr
      && (forall n <- buffers :: buffers[n] in Repr && buffers[n].slots in Repr && buffers[n].Valid())
      && (forall n, m | n in buffers && m in buffers && n != m ::
            buffers[n] != buffers[m] && buffers[n].slots != buffers[m].slots)
    }

    ghost predicate Valid()
      reads this, Repr
    {
      sizing.Valid() && Separate() && Sound(View())
    }

    ghost function BufferView(b: CircularBuffer): Stored
      requires b.Valid()
      reads b, b.slots
    {
      Stored(b.slots.Length, b.Contents())
    }

    ghost function View(): Buffers
      requires Separate()
      reads this, Repr
    {
      map n | n in buffers :: BufferView(buffers[n])
    }

    constructor (sizing: Sizing)
      requires sizing.Valid()
      ensures Valid() && fresh(Repr) && this.sizing == sizing && View() == map[]
    {
      this.sizing := sizing;
      buffers := map[];
      Repr := {this};
    }

    method Allow(h: Header) returns (verdict: Verdict)
      requires Valid() && h.Valid()
      modifies Repr
      ensures Valid() && fresh(Repr - old(Repr))
      ensures Reply(verdict, View()) == Submit(sizing, old(View()), h)
    {
      SubmitKeepsSound(sizing, View(), h);
      if h.name !in buffers {
        Create(h);
        verdict := Allowed;
      } else {
        verdict := AllowKnown(h);
      }
    }

    method Create(h: Header)
      requires Separate() && sizing.Valid() && h.Valid() && h.name !in buffers
      modifies this
      ensures Separate() && fresh(Repr - old(Repr))
      ensures View() == old(View())[h.name := Stored(sizing.Capacity(h), [h])]
    {
      hide Sizing.Capacity, CircularBuffer.Contents, CircularBuffer.Valid;
      var created := NewBuffer(sizing.Capacity(h), h);
      buffers := buffers[h.name := created];
      Repr := Repr + {created, created.slots};
    }

    method NewBuffer(capacity: nat, h: Header) returns (created: CircularBuffer)
      requires capacity >= 1
      ensures fresh(created) && fresh(created.slots) && created.Valid()
      ensures created.slots.Length == capacity && created.Contents() == [h]
    {
      created := new CircularBuffer(capacity);
      created.PushBack(h);
    }

    method AllowKnown(h: Header) returns (verdict: Verdict)
      requires Separate() && h.name in buffers && View()[h.name].headers != []
      modifies Repr
      ensures Separate() && Repr == old(Repr)
      ensures var stored := old(View())[h.name];
              var o := Feed(stored.capacity, stored.headers, h);
              verdict == o.verdict && View() == old(View())[h.name := Stored(stored.capacity, o.ring)]
    {
      hide Feed, Window, CircularBuffer.Contents;
      ghost var was := View();
      verdict := AllowIn(buffers[h.name], h);
      forall n | n in was && n != h.name ensures BufferView(buffers[n]) == was[n] {
        assert buffers[n] != buffers[h.name];
      }
    }

    method AllowIn(b: CircularBuffer, h: Header) returns (verdict: Verdict)
      requires b.Valid() && b.count > 0
      modifies b, b.slots
      ensures b.Valid()
      ensures var o := Feed(b.slots.Length, old(b.Contents()), h);
              verdict == o.verdict && b.Contents() == o.ring
    {
      var found := b.Find(h);
      if found.Failure? {
        return Thrown(found.error);
      }
      if found.value {
        return Rejected;
      }
      var back := b.Get(b.count - 1);
      if h.start > back.end {
        b.PushBack(h);
        return Allowed;
      }
      var front := b.Get(0);
      if h.end < front.start {
        var full := b.Full();
        if !full {
          b.PushFront(h);
        }
        return Rejected;
      }
      var slip := b.Slips(h);
      if slip {
        return Rejected;
      }
      b.PushBack(h);
      b.Sort();
      return Allowed;
    }

    method AllowPacket(p: Packet) returns (verdict: Verdict)
      requires Valid()
      modifies Repr
      ensures Valid() && fresh(Repr - old(Repr))
      ensures Reply(verdict, View()) == SubmitPacket(sizing, old(View()), p)
    {
      var header := Unpack(p);
      match header
      case Failure(_) => verdict := Rejected;
      case Success(h) => verdict := Allow(h);
    }
  }
}
