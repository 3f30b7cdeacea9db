/** The outbound side of the backend: one bounded queue per subscriber, and the manager that owns them. */
module Streams {
  import opened Packets

  /** Address of the call context of a subscriber. */
  type Address = nat

  // ---------------------------------------------------------------- queues as values

  /** How many packets a queue must lose before one more fits. */
  function Overflow(capacity: nat, queue: seq<Packet>): nat {
    if |queue| >= capacity then |queue| - capacity + 1 else 0
  }

  /** Drop-oldest: the queue after a packet was put into it. */
  function Enqueued(capacity: nat, queue: seq<Packet>, p: Packet): (q: seq<Packet>)
    requires capacity >= 1
  {
    queue[Overflow(capacity, queue)..] + [p]
  }

  type Queues = map<Address, seq<Packet>>

  function FannedOut(capacity: nat, queues: Queues, p: Packet): Queues
    requires capacity >= 1
  {
    map a | a in queues :: Enqueued(capacity, queues[a], p)
  }

  /** The subscribers that lose a packet to the next one. */
  function Full(capacity: nat, queues: Queues): set<Address> {
    set a | a in queues && |queues[a]| >= capacity
  }

  /** A fan-out on its way: the subscribers `todo` have not got the packet yet. */
  ghost function PartFannedOut(capacity: nat, queues: Queues, p: Packet, todo: set<Address>): Queues
    requires capacity >= 1
  {
    map a | a in queues :: if a in todo then queues[a] else Enqueued(capacity, queues[a], p)
  }

  lemma PartBegins(capacity: nat, queues: Queues, p: Packet)
    requires capacity >= 1
    ensures PartFannedOut(capacity, queues, p, queues.Keys) == queues
    ensures |Full(capacity, queues) - queues.Keys| == 0
  {
    assert Full(capacity, queues) - queues.Keys == {};
  }

  lemma PartStep(capacity: nat, queues: Queues, p: Packet, todo: set<Address>, a: Address)
    requires capacity >= 1 && a in todo && todo <= queues.Keys
    ensures var part := PartFannedOut(capacity, queues, p, todo);
            && part[a] == queues[a]
            && (a in Full(capacity, part) <==> a in Full(capacity, queues))
            && part[a := Enqueued(capacity, part[a], p)] == PartFannedOut(capacity, queues, p, todo - {a})
  {
  }

  lemma PartEnds(capacity: nat, queues: Queues, p: Packet)
    requires capacity >= 1
    ensures PartFannedOut(capacity, queues, p, {}) == FannedOut(capacity, queues, p)
    ensures Full(capacity, queues) - {} == Full(capacity, queues)
  {
  }

  function Min(a: nat, b: nat): nat {
    if a < b then a else b
  }

  /** What a subscriber is handed in one go. */
  function Batch(queue: seq<Packet>, max: nat): seq<Packet> {
    queue[..Min(max, |queue|)]
  }

  function AfterBatch(queue: seq<Packet>, max: nat): seq<Packet> {
    queue[Min(max, |queue|)..]
  }

  /** A batch is the oldest packets, as many as there are up to the maximum, and the others stay. */
  lemma BatchSplits(queue: seq<Packet>, max: nat)
    ensures Batch(queue, max) + AfterBatch(queue, max) == queue
    ensures |Batch(queue, max)| == if |queue| < max then |queue| else max
  {
  }

  // ---------------------------------------------------------------- classes

  class PacketStream {
    const capacity: nat
    var queue: seq<Packet>

    ghost predicate Valid()
      reads this
    {
      capacity >= 1 && |queue| <= capacity
    }

    /** A capacity below one is refused by the options that set it. */
    constructor (capacity: nat)
      requires capacity >= 1
      ensures Valid() && this.capacity == capacity && queue == []
    {
      this.capacity := capacity;
      queue := [];
    }

    method EnqueuePacket(p: Packet) returns (lost: nat)
      requires Valid()
      modifies this
      ensures Valid() && queue == Enqueued(capacity, old(queue), p)
      ensures lost == (if |old(queue)| == capacity then 1 else 0)
      ensures |old(queue)| + 1 == |queue| + lost
    {
      lost := 0;
      while |queue| >= capacity
        invariant lost <= |old(queue)| && queue == old(queue)[lost..]
        invariant lost <= Overflow(capacity, old(queue))
        decreases |queue|
      {
        if queue == [] {
          break;
        }
        queue := queue[1..];
        lost := lost + 1;
      }
      if |queue| < capacity {
        queue := queue + [p];
      }
    }

    method DequeuePacket() returns (found: bool, p: Packet)
      requires Valid()
      modifies this
      ensures Valid() && (found <==> old(queue) != [])
      ensures found ==> [p] + queue == old(queue)
      ensures !found ==> queue == old(queue)
    {
      found := queue != [];
      if found {
        p := queue[0];
        queue := queue[1..];
      } else {
        p := *;
      }
    }
  }

  class SubscriptionManager {
    const capacity: nat
    var keepRunning: bool
    var subscribers: map<Address, PacketStream>
    ghost var Repr: set<object>

    ghost predicate Valid()
      reads this, Repr
    {
      && capacity >= 1
      && this in Repr
      && (forall a <- subscribers ::
            subscribers[a] in Repr && subscribers[a].Valid() && subscribers[a].capacity == capacity)
      && (forall a, b | a in subscribers && b in subscribers && a != b :: subscribers[a] != subscribers[b])
    }

    ghost function View(): Queues
      requires Valid()
      reads this, Repr
    {
      map a | a in subscribers :: subscribers[a].queue
    }

    constructor (capacity: nat)
      requires capacity >= 1
      ensures Valid() && fresh(Repr) && this.capacity == capacity && keepRunning && View() == map[]
    {
      this.capacity := capacity;
      keepRunning := true;
      subscribers := map[];
      Repr := {this};
    }

    method GetNumberOfSubscribers() returns (n: nat)
      requires Valid()
      ensures n == |View()|
    {
      n := |subscribers|;
      assert View().Keys == subscribers.Keys;
    }

    method UnsubscribeAll()
      requires Valid()
      modifies this
      ensures Valid() && Repr == old(Repr) && !keepRunning && View() == map[]
    {
      keepRunning := false;
      subscribers := map[];
    }

    /** A context that is known already keeps its stream. Inserting a new one `fails` if the map throws. */
    method Subscribe(context: Address, fails: bool) returns (ok: bool)
      requires Valid()
      modifies this
      ensures Valid() && fresh(Repr - old(Repr)) && keepRunning == old(keepRunning)
      ensures !ok <==> fails && keepRunning && context !in old(View())
      ensures View() == if ok && keepRunning && context !in old(View())
                        then old(View())[context := []] else old(View())
    {
      ok := true;
      if keepRunning && context !in subscribers {
        if fails {
          return false;
        }
        var stream := new PacketStream(capacity);
        subscribers := subscribers[context := stream];
        Repr := Repr + {stream};
      }
    }

    method Unsubscribe(context: Address)
      requires Valid()
      modifies this
      ensures Valid() && Repr == old(Repr) && keepRunning == old(keepRunning)
      ensures View() == if old(keepRunning) then old(View()) - {context} else old(View())
    {
      if keepRunning {
        subscribers := subscribers - {context};
      }
    }

    /** The packet goes to every subscriber; the result counts the subscribers that lost their oldest packet for it. */
    method EnqueuePacket(p: Packet) returns (lost: nat)
      requires Valid()
      modifies Repr
      ensures Valid() && Repr == old(Repr) && keepRunning == old(keepRunning)
      ensures View() == if keepRunning then FannedOut(capacity, old(View()), p) else old(View())
      ensures lost == if keepRunning then |Full(capacity, old(View()))| else 0
    {
      hide Full, Enqueued, FannedOut, PartFannedOut;
      lost := 0;
      if keepRunning {
        ghost var was := View();
        var todo := subscribers.Keys;
        PartBegins(capacity, was, p);
        while todo != {}
          invariant Valid() && Repr == old(Repr) && keepRunning && subscribers == old(subscribers)
          invariant todo <= was.Keys == subscribers.Keys
          invariant View() == PartFannedOut(capacity, was, p, todo)
          invariant lost == |Full(capacity, was) - todo|
          decreases |todo|
        {
          var a :| a in todo;
          CountOne(Full(capacity, was), todo, a);
          PartStep(capacity, was, p, todo, a);
          var l := EnqueueTo(a, p);
          lost := lost + l;
          todo := todo - {a};
        }
        PartEnds(capacity, was, p);
      }
    }

    method EnqueueTo(a: Address, p: Packet) returns (lost: nat)
      requires Valid() && a in subscribers
      modifies subscribers[a]
      ensures Valid() && View() == old(View())[a := Enqueued(capacity, old(View())[a], p)]
      ensures lost == if a in Full(capacity, old(View())) then 1 else 0
    {
      lost := subscribers[a].EnqueuePacket(p);
    }

    static lemma CountOne(full: set<Address>, todo: set<Address>, a: Address)
      requires a in todo
      ensures |full - (todo - {a})| == |full - todo| + if a in full then 1 else 0
    {
      if a in full {
        assert full - (todo - {a}) == (full - todo) + {a};
      } else {
        assert full - (todo - {a}) == full - todo;
      }
    }

    /** Up to `max` packets of the context's stream, oldest first; an unknown context is an error. */
    method GetNextPackets(context: Address, max: nat) returns (known: bool, packets: seq<Packet>)
      requires Valid()
      modifies Repr
      ensures Valid() && Repr == old(Repr) && keepRunning == old(keepRunning)
      ensures known <==> !keepRunning || context in old(View())
      ensures packets == if keepRunning && known then Batch(old(View())[context], max) else []
      ensures View() == if keepRunning && known
                        then old(View())[context := AfterBatch(old(View())[context], max)] else old(View())
    {
      known, packets := true, [];
      if keepRunning {
        known := context in subscribers;
        if known {
          packets := Take(subscribers[context], max);
        }
      }
    }

    method Take(stream: PacketStream, max: nat) returns (packets: seq<Packet>)
      requires stream.Valid()
      modifies stream
      ensures stream.Valid()
      ensures packets == Batch(old(stream.queue), max) && stream.queue == AfterBatch(old(stream.queue), max)
    {
      packets := [];
      for i := 0 to max
        invariant stream.Valid() && i == |packets| <= |old(stream.queue)|
        invariant packets == old(stream.queue)[..i] && stream.queue == old(stream.queue)[i..]
      {
        var found, p := stream.DequeuePacket();
        if !found {
          break;
        }
        packets := packets + [p];
      }
    }
  }
}
