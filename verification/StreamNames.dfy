/** Stream names: which identifiers have a name to themselves, and so a ring of their own in the duplicate detector. */
module StreamNames {
  import opened Packets

  /** What a name holds after the separator that follows the channel. */
  function Tail(locationCode: string): string {
    if locationCode == "" then "" else "." + locationCode
  }

  /** The location code neither begins nor ends with a separator and holds no two in a row. */
  ghost predicate PlainLocation(locationCode: string) {
    && (locationCode != "" ==> locationCode[0] != '.' && locationCode[|locationCode| - 1] != '.')
    && (forall i, k :: 0 <= i < k < |locationCode| && k == i + 1 ==> locationCode[i] != '.' || locationCode[k] != '.')
  }

  ghost predicate OwnsName(id: StreamIdentifier) {
    DotFree(id) && PlainLocation(id.locationCode)
  }

  // ---------------------------------------------------------------- where the separators of a name are

  /** The separators that follow network, station and channel. */
  function FirstDot(id: StreamIdentifier): nat {
    |id.network|
  }

  function SecondDot(id: StreamIdentifier): nat {
    |id.network| + 1 + |id.station|
  }

  function ThirdDot(id: StreamIdentifier): nat {
    |id.network| + 1 + |id.station| + 1 + |id.channel|
  }

  lemma NameParts(id: StreamIdentifier)
    ensures var s := ToName(id);
            && FirstDot(id) < SecondDot(id) < ThirdDot(id) < |s|
            && s[FirstDot(id)] == s[SecondDot(id)] == s[ThirdDot(id)] == '.'
            && s[..FirstDot(id)] == id.network
            && s[FirstDot(id) + 1..SecondDot(id)] == id.station
            && s[SecondDot(id) + 1..ThirdDot(id)] == id.channel
            && s[ThirdDot(id) + 1..] == Tail(id.locationCode)
  {
    var n, p, c, l := id.network, id.station, id.channel, Tail(id.locationCode);
    assert ToName(id) == n + "." + p + "." + c + "." + l;
  }

  /** The name and the places of its three separators determine the identifier. */
  lemma SamePlaces(a: StreamIdentifier, b: StreamIdentifier)
    requires ToName(a) == ToName(b)
    requires FirstDot(a) == FirstDot(b) && SecondDot(a) == SecondDot(b) && ThirdDot(a) == ThirdDot(b)
    ensures a == b
  {
    NameParts(a);
    NameParts(b);
    assert a.locationCode != "" ==> a.locationCode == Tail(a.locationCode)[1..];
    assert b.locationCode != "" ==> b.locationCode == Tail(b.locationCode)[1..];
  }

  /** Up to the third separator, a separator-free identifier's name has no others. */
  lemma DotsOfDotFree(id: StreamIdentifier, k: nat)
    requires DotFree(id) && k <= ThirdDot(id)
    ensures k < |ToName(id)|
    ensures ToName(id)[k] == '.' <==> k in {FirstDot(id), SecondDot(id), ThirdDot(id)}
  {
    NameParts(id);
    var s := ToName(id);
    if k < FirstDot(id) {
      assert s[k] == id.network[k];
    } else if FirstDot(id) < k < SecondDot(id) {
      assert s[k] == id.station[k - FirstDot(id) - 1];
    } else if SecondDot(id) < k < ThirdDot(id) {
      assert s[k] == id.channel[k - SecondDot(id) - 1];
    }
  }

  /** Whoever shares the name of a separator-free identifier has its third separator no earlier, and is the same
      identifier if it has it at the same place. */
  lemma ThirdDotLater(a: StreamIdentifier, b: StreamIdentifier)
    requires DotFree(a) && ToName(a) == ToName(b)
    ensures ThirdDot(a) <= ThirdDot(b)
    ensures ThirdDot(a) == ThirdDot(b) ==> a == b
  {
    NameParts(a);
    NameParts(b);
    if ThirdDot(b) <= ThirdDot(a) {
      DotsOfDotFree(a, FirstDot(b));
      DotsOfDotFree(a, SecondDot(b));
      DotsOfDotFree(a, ThirdDot(b));
      SamePlaces(a, b);
    }
  }

  /** A third separator further on lies in the location code: at its end, or before another separator, or one of the
      two is its beginning. */
  lemma ThirdDotInLocation(a: StreamIdentifier, b: StreamIdentifier)
    requires ToName(a) == ToName(b) && ThirdDot(a) < ThirdDot(b)
    ensures !PlainLocation(a.locationCode)
  {
    NameParts(a);
    NameParts(b);
    var s, at, l := ToName(a), ThirdDot(b), a.locationCode;
    var from := ThirdDot(a) + 2;
    assert s[ThirdDot(a) + 1..][1..] == s[from..];
    assert l == s[from..];
    if at + 1 < |s| {
      assert s[at + 1] == Tail(b.locationCode)[0] == '.';
      assert l[at + 1 - from] == '.';
      assert at >= from ==> l[at - from] == '.';
    } else {
      assert l != "" ==> l[|l| - 1] == '.';
    }
  }

  // ---------------------------------------------------------------- another identifier with the same name

  /** Two strings with a separator between them. */
  function Dotted(s: string, t: string): string {
    s + "." + t
  }

  lemma Regroup(s: string, t: string, u: string)
    ensures Dotted(Dotted(s, t), u) == Dotted(s, Dotted(t, u))
  {
  }

  lemma NameDotted(id: StreamIdentifier)
    ensures ToName(id) == Dotted(id.network, Dotted(id.station, Dotted(id.channel, Tail(id.locationCode))))
  {
    assert ToName(id) == id.network + "." + id.station + "." + id.channel + "." + Tail(id.locationCode);
  }

  lemma SplitAtDot(s: string) returns (before: string, after: string)
    requires '.' in s
    ensures s == Dotted(before, after)
    ensures |before| < |s| && |after| < |s|
  {
    var k :| 0 <= k < |s| && s[k] == '.';
    before, after := s[..k], s[k + 1..];
  }

  lemma Longer(s: string, t: string)
    ensures |Dotted(s, t)| > |s| && |Dotted(s, t)| > |t|
  {
  }

  lemma DottedShares(a: StreamIdentifier) returns (b: StreamIdentifier)
    requires !DotFree(a)
    ensures b != a && ToName(b) == ToName(a)
  {
    hide Dotted, ToName, Tail;
    var n, p, c, l := a.network, a.station, a.channel, a.locationCode;
    if '.' in n {
      var x, y := SplitAtDot(n);
      b := StreamIdentifier(x, y, Dotted(p, c), l);
      Regroup(x, y, Dotted(p, Dotted(c, Tail(l))));
      Regroup(p, c, Tail(l));
    } else if '.' in p {
      var x, y := SplitAtDot(p);
      b := StreamIdentifier(n, x, Dotted(y, c), l);
      Regroup(x, y, Dotted(c, Tail(l)));
      Regroup(y, c, Tail(l));
    } else {
      var x, y := SplitAtDot(c);
      b := StreamIdentifier(Dotted(n, p), x, y, l);
      Regroup(n, p, Dotted(x, Dotted(y, Tail(l))));
      Regroup(x, y, Tail(l));
      Longer(n, p);
    }
    NameDotted(a);
    NameDotted(b);
  }

  /** The channel swallows the beginning of an odd location code. */
  lemma SwallowingShares(a: StreamIdentifier, start: string, rest: string) returns (b: StreamIdentifier)
    requires Tail(a.locationCode) == Dotted(start, Tail(rest))
    ensures b != a && ToName(b) == ToName(a)
    ensures b == StreamIdentifier(a.network, a.station, Dotted(a.channel, start), rest)
  {
    hide Dotted, ToName, Tail;
    b := StreamIdentifier(a.network, a.station, Dotted(a.channel, start), rest);
    Longer(a.channel, start);
    Regroup(a.channel, start, Tail(rest));
    NameDotted(a);
    NameDotted(b);
  }

  lemma CutAt(t: string, k: nat)
    requires k < |t| && t[k] == '.'
    ensures t == Dotted(t[..k], t[k + 1..])
  {
  }

  lemma OddLocationSplits(l: string) returns (start: string, rest: string)
    requires !PlainLocation(l)
    ensures Tail(l) == Dotted(start, Tail(rest))
  {
    hide Dotted;
    var t := Tail(l);
    var k: nat := 0;
    if l[|l| - 1] == '.' {
      k, rest := |l|, "";
      assert t[|l| + 1..] == "";
    } else if l[0] == '.' {
      rest := l[1..];
      assert t[1..] == l == "." + rest;
    } else {
      var i, j :| 0 <= i < j < |l| && j == i + 1 && l[i] == '.' && l[j] == '.';
      k, rest := j, l[j + 1..];
      assert t[j + 1..] == l[j..] == "." + rest;
    }
    start := t[..k];
    CutAt(t, k);
  }

  // ---------------------------------------------------------------- the exact condition

  /** An identifier has its name to itself exactly when network, station and channel hold no separator, and the location
      code neither begins nor ends with one nor holds two in a row. */
  lemma NameUnshared(a: StreamIdentifier)
    ensures (forall b :: ToName(b) == ToName(a) ==> b == a) <==> OwnsName(a)
  {
    if OwnsName(a) {
      forall b | ToName(b) == ToName(a) ensures b == a {
        ThirdDotLater(a, b);
        if ThirdDot(a) < ThirdDot(b) {
          ThirdDotInLocation(a, b);
        }
      }
    } else {
      var b;
      if DotFree(a) {
        var start, rest := OddLocationSplits(a.locationCode);
        b := SwallowingShares(a, start, rest);
      } else {
        b := DottedShares(a);
      }
    }
  }

  /** Names tell identifiers apart as soon as one of the two owns its name, or neither has a separator before its
      location code. */
  lemma ToNameInjective(a: StreamIdentifier, b: StreamIdentifier)
    requires OwnsName(a) || (DotFree(a) && DotFree(b))
    ensures ToName(a) == ToName(b) <==> a == b
  {
    NameUnshared(a);
    if ToName(a) == ToName(b) && DotFree(b) {
      ThirdDotLater(a, b);
      ThirdDotLater(b, a);
    }
  }

  /** A separator in the wrong place of any identifier lets another stream into its ring. */
  lemma DottedCodesCollide(a: StreamIdentifier)
    requires !OwnsName(a)
    ensures exists b :: b != a && ToName(b) == ToName(a)
  {
    NameUnshared(a);
  }

  // ---------------------------------------------------------------- identifiers without empty codes

  /** What the frontend hands on: no code is empty. */
  ghost predicate Named(id: StreamIdentifier) {
    "" !in {id.network, id.station, id.channel, id.locationCode}
  }

  /** Two separators in a row, and something after them. */
  ghost predicate BreaksAt(t: string, k: nat) {
    k + 2 < |t| && t[k] == '.' && t[k + 1] == '.'
  }

  lemma BrokenTail(a: StreamIdentifier, b: StreamIdentifier)
    requires ToName(a) == ToName(b) && ThirdDot(a) < ThirdDot(b) && b.locationCode != ""
    ensures exists k: nat :: BreaksAt(Tail(a.locationCode), k)
  {
    NameParts(a);
    NameParts(b);
    var s, t := ToName(a), Tail(a.locationCode);
    var k := ThirdDot(b) - ThirdDot(a) - 1;
    assert s[ThirdDot(a) + 1..] == t;
    assert s[ThirdDot(b) + 1..] == Tail(b.locationCode);
    assert t[k] == s[ThirdDot(b)] && t[k + 1] == s[ThirdDot(b) + 1] == Tail(b.locationCode)[0];
    assert BreaksAt(t, k);
  }

  /** Among identifiers without empty codes, one without separators before its location code has its name to itself
      exactly when the location code, with the separator before it, nowhere goes on after two separators in a row. */
  lemma NameUnsharedAmongNamed(a: StreamIdentifier)
    requires DotFree(a) && Named(a)
    ensures (forall b | Named(b) :: ToName(b) == ToName(a) ==> b == a) <==>
            forall k: nat :: !BreaksAt(Tail(a.locationCode), k)
  {
    if k: nat :| BreaksAt(Tail(a.locationCode), k) {
      var t := Tail(a.locationCode);
      assert t == Dotted(t[..k], Tail(t[k + 2..]));
      var b := SwallowingShares(a, t[..k], t[k + 2..]);
      assert Named(b);
    } else {
      forall b | Named(b) && ToName(b) == ToName(a) ensures b == a {
        ThirdDotLater(a, b);
        if ThirdDot(a) < ThirdDot(b) {
          BrokenTail(a, b);
        }
      }
    }
  }
}
