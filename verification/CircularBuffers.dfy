/** The circular buffer of one stream: a fixed array of slots, where the first header sits and how many there are. */
module CircularBuffers {
  import opened Packets
  import opened Rings

  // ---------------------------------------------------------------- windows of a sequence of slots

  function Wrap(slots: nat, i: nat): nat {
    if i < slots then i else i - slots
  }

  /** The `count` slots from `first` on, going round. */
  function Window(a: seq<Header>, first: nat, count: nat): (w: seq<Header>)
    requires first < |a| && count <= |a|
    ensures |w| == count
  {
    if first + count <= |a| then a[first..first + count] else a[first..] + a[..first + count - |a|]
  }

  lemma WindowAt(a: seq<Header>, first: nat, count: nat, i: nat)
    requires first < |a| && i < count <= |a|
    ensures Wrap(|a|, first + i) < |a| && Window(a, first, count)[i] == a[Wrap(|a|, first + i)]
  {
  }

  lemma WindowSet(a: seq<Header>, first: nat, count: nat, i: nat, h: Header)
    requires first < |a| && i < count <= |a|
    ensures Window(a[Wrap(|a|, first + i) := h], first, count) == Window(a, first, count)[i := h]
  {
  }

  lemma WindowAppend(a: seq<Header>, first: nat, count: nat, h: Header)
    requires first < |a| && count < |a|
    ensures Wrap(|a|, first + count) < |a|
    ensures Window(a[Wrap(|a|, first + count) := h], first, count + 1) == Window(a, first, count) + [h]
  {
  }

  lemma WindowOverwrite(a: seq<Header>, first: nat, h: Header)
    requires first < |a|
    ensures Wrap(|a|, first + 1) < |a|
    ensures Window(a[first := h], Wrap(|a|, first + 1), |a|) == Window(a, first, |a|)[1..] + [h]
  {
  }

  lemma WindowPrepend(a: seq<Header>, first: nat, count: nat, h: Header)
    requires first < |a| && count < |a|
    ensures var k := if first == 0 then |a| - 1 else first - 1;
            Window(a[k := h], k, count + 1) == [h] + Window(a, first, count)
  {
    if first == 0 {
      var b := a[|a| - 1 := h];
      assert Window(b, |a| - 1, count + 1) == b[|a| - 1..] + b[..count];
    } else {
      var b := a[first - 1 := h];
      assert b[first..] == a[first..];
      assert b[first - 1..] == [h] + b[first..];
      if first + count > |a| {
        assert b[..first + count - |a|] == a[..first + count - |a|];
      }
    }
  }

  // ---------------------------------------------------------------- one pass of the insertion sort

  /** Headers `was` with the one at `i` taken out and put back at `k`. */
  function Moved(was: seq<Header>, i: nat, k: nat): (s: seq<Header>)
    requires k <= i < |was|
    ensures |s| == |was| && s[k] == was[i]
    ensures k > 0 ==> s[k - 1] == was[k - 1]
  {
    was[..k] + [was[i]] + was[k..i] + was[i + 1..]
  }

  lemma MoveDown(was: seq<Header>, i: nat, k: nat)
    requires 0 < k <= i < |was|
    ensures Moved(was, i, k)[k := was[k - 1]][k - 1 := was[i]] == Moved(was, i, k - 1)
  {
  }

  lemma MovedNowhere(was: seq<Header>, i: nat)
    requires i < |was|
    ensures Moved(was, i, i) == was
  {
  }

  lemma PointBelow(was: seq<Header>, k: nat, h: Header)
    requires k <= |was|
    ensures k == 0 || was[k - 1].start <= h.start ==> InsertionPoint(was[..k], h) == k
    ensures k > 0 && was[k - 1].start > h.start ==> InsertionPoint(was[..k], h) == InsertionPoint(was[..k - 1], h)
  {
    if k > 0 {
      assert was[..k][..k - 1] == was[..k - 1];
    }
  }

  /** The header at position `i` sunk into the sorted headers before it. */
  function SunkIn(was: seq<Header>, i: nat): (s: seq<Header>)
    requires i < |was|
    ensures |s| == |was|
  {
    Insert(was[..i], was[i]) + was[i + 1..]
  }

  lemma MovedToPoint(was: seq<Header>, i: nat, k: nat)
    requires k <= i < |was| && k == InsertionPoint(was[..i], was[i])
    ensures Moved(was, i, k) == SunkIn(was, i)
  {
    assert was[..i][k..] == was[k..i];
    assert was[..i][..k] == was[..k];
  }

  /** The first `i` headers sorted, the rest as they were. */
  function SortedUpTo(s: seq<Header>, i: nat): (r: seq<Header>)
    requires i <= |s|
    ensures |r| == |s|
  {
    Sorted(s[..i]) + s[i..]
  }

  lemma SortedOneMore(s: seq<Header>, i: nat)
    requires i < |s|
    ensures SunkIn(SortedUpTo(s, i), i) == SortedUpTo(s, i + 1)
  {
    var was := SortedUpTo(s, i);
    assert was[..i] == Sorted(s[..i]) && was[i] == s[i] && was[i + 1..] == s[i + 1..];
    assert s[..i + 1][..i] == s[..i];
    SortedOfLast(s[..i + 1]);
  }

  lemma SortedOfLast(s: seq<Header>)
    requires s != []
    ensures Sorted(s) == Insert(Sorted(s[..|s| - 1]), s[|s| - 1])
  {
  }

  lemma SortedEnds(s: seq<Header>)
    ensures SortedUpTo(s, 0) == s && SortedUpTo(s, |s|) == Sorted(s)
  {
    assert s[..0] == [] && s[..|s|] == s;
  }

  // ---------------------------------------------------------------- the buffer

  class CircularBuffer {
    const slots: array<Header>
    var first: nat
    var count: nat

    ghost predicate Valid()
      reads this
    {
      slots.Length >= 1 && first < slots.Length && count <= slots.Length
    }

    ghost function Contents(): (s: seq<Header>)
      requires Valid()
      reads this, slots
      ensures |s| == count
    {
      Window(slots[..], first, count)
    }

    constructor (capacity: nat)
      requires capacity >= 1
      ensures Valid() && fresh(slots) && slots.Length == capacity && Contents() == []
    {
      slots := new Header[capacity];
      first, count := 0, 0;
    }

    method Get(i: nat) returns (h: Header)
      requires Valid() && i < count
      ensures h == Contents()[i]
    {
      WindowAt(slots[..], first, count, i);
      h := slots[Wrap(slots.Length, first + i)];
    }

    method Set(i: nat, h: Header)
      requires Valid() && i < count
      modifies slots
      ensures Contents() == old(Contents())[i := h]
    {
      hide Window;
      WindowAt(slots[..], first, count, i);
      WindowSet(slots[..], first, count, i, h);
      Store(Wrap(slots.Length, first + i), h);
    }

    method Store(k: nat, h: Header)
      requires k < slots.Length
      modifies slots
      ensures slots[..] == old(slots[..])[k := h]
    {
      slots[k] := h;
    }

    method Full() returns (full: bool)
      requires Valid()
      ensures full <==> |Contents()| == slots.Length
    {
      full := count == slots.Length;
    }

    /** Appends; a full buffer loses its front. */
    method PushBack(h: Header)
      requires Valid()
      modifies this, slots
      ensures Valid() && Contents() == Rings.PushBack(slots.Length, old(Contents()), h)
    {
      hide Window;
      if count < slots.Length {
        WindowAppend(slots[..], first, count, h);
        Store(Wrap(slots.Length, first + count), h);
        count := count + 1;
      } else {
        WindowOverwrite(slots[..], first, h);
        Store(first, h);
        first := Wrap(slots.Length, first + 1);
      }
    }

    /** Prepends; the detector only does so while there is room. */
    method PushFront(h: Header)
      requires Valid() && count < slots.Length
      modifies this, slots
      ensures Valid() && Contents() == [h] + old(Contents())
    {
      hide Window;
      WindowPrepend(slots[..], first, count, h);
      first := if first == 0 then slots.Length - 1 else first - 1;
      Store(first, h);
      count := count + 1;
    }

    /** std::find, stopping at the first header that is equal or throws. */
    method Find(h: Header) returns (r: Result<bool>)
      requires Valid()
      ensures r == Rings.Find(Contents(), h)
    {
      var i := 0;
      ghost var s := Contents();
      assert s[0..] == s;
      while i < count
        invariant i <= count
        invariant Rings.Find(s[i..], h) == Rings.Find(s, h)
      {
        var stored := Get(i);
        assert s[i..][1..] == s[i + 1..] && s[i..][0] == stored;
        var c := Compare(stored, h);
        if c != Success(false) {
          return c;
        }
        i := i + 1;
      }
      r := Success(false);
    }

    /** The scan for timing slips. */
    method Slips(h: Header) returns (slip: bool)
      requires Valid()
      ensures slip <==> Rings.Slips(Contents(), h)
    {
      var i := 0;
      ghost var s := Contents();
      while i < count
        invariant i <= count
        invariant forall k :: 0 <= k < i ==> !Touches(h, s[k])
      {
        var stored := Get(i);
        if Touches(h, stored) {
          assert stored in s;
          return true;
        }
        i := i + 1;
      }
      slip := false;
    }

    /** std::sort by start time, here as an insertion sort of the slots. */
    method Sort()
      requires Valid()
      modifies slots
      ensures Contents() == Sorted(old(Contents()))
    {
      hide Sorted, SortedUpTo, SunkIn, Window;
      var i := 0;
      ghost var s := Contents();
      SortedEnds(s);
      while i < count
        invariant i <= count == |s|
        invariant Contents() == SortedUpTo(s, i)
      {
        SortedOneMore(s, i);
        SinkIn(i);
        i := i + 1;
      }
    }

    /** Moves the header at position `i` down to its place among the sorted headers before it. */
    method SinkIn(i: nat)
      requires Valid() && i < count
      modifies slots
      ensures Contents() == SunkIn(old(Contents()), i)
    {
      hide SunkIn, Moved, Window, InsertionPoint;
      ghost var was := Contents();
      var h := Get(i);
      var k: nat := i;
      MovedNowhere(was, i);
      while k > 0
        invariant k <= i < count == |was|
        invariant Contents() == Moved(was, i, k)
        invariant InsertionPoint(was[..i], h) == InsertionPoint(was[..k], h)
      {
        var below := Get(k - 1);
        PointBelow(was, k, h);
        if below.start <= h.start {
          break;
        }
        MoveDown(was, i, k);
        Set(k, below);
        Set(k - 1, h);
        k := k - 1;
      }
      PointBelow(was, k, h);
      MovedToPoint(was, i, k);
    }
  }
}
