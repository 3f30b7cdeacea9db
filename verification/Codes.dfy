/** Normal form of the codes that name a stream: outer white space removed, letters in upper case. Exactly the codes
    that differ in case or outer white space share a normal form, so one stream has one key in the duplicate
    detector. */
module Codes {
  import opened Packets
  import opened StreamNames

  /** std::isspace in the classic locale: space, tab, line feed, vertical tab, form feed, carriage return. */
  predicate IsSpace(c: char) {
    c == ' ' || '\t' <= c <= '\r'
  }

  /** std::toupper in the classic locale. */
  function ToUpper(c: char): char {
    if 'a' <= c <= 'z' then (c as int - 32) as char else c
  }

  function Upper(s: string): (r: string)
    ensures |r| == |s|
  {
    seq(|s|, i requires 0 <= i < |s| => ToUpper(s[i]))
  }

  function TrimRight(s: string): string {
    if s != [] && IsSpace(s[|s| - 1]) then TrimRight(s[..|s| - 1]) else s
  }

  function TrimLeft(s: string): string {
    if s != [] && IsSpace(s[0]) then TrimLeft(s[1..]) else s
  }

  function Trim(s: string): string {
    TrimLeft(TrimRight(s))
  }

  function Normal(s: string): string {
    Upper(Trim(s))
  }

  /** The string is trimmed from both ends where it lies, then each letter is replaced. */
  method Normalise(code: string) returns (normal: string)
    ensures normal == Normal(code)
  {
    normal := code;
    while normal != [] && IsSpace(normal[|normal| - 1])
      invariant TrimRight(normal) == TrimRight(code)
      decreases |normal|
    {
      normal := normal[..|normal| - 1];
    }
    while normal != [] && IsSpace(normal[0])
      invariant TrimLeft(normal) == Trim(code)
      decreases |normal|
    {
      normal := normal[1..];
    }
    ghost var trimmed := normal;
    for i := 0 to |normal|
      invariant |normal| == |trimmed|
      invariant forall k :: 0 <= k < i ==> normal[k] == ToUpper(trimmed[k])
      invariant forall k :: i <= k < |normal| ==> normal[k] == trimmed[k]
    {
      normal := normal[i := ToUpper(normal[i])];
    }
  }

  // ---------------------------------------------------------------- what trimming means

  /** White space, character by character. */
  predicate White(c: char) {
    c in {' ', '\t', '\n', '\U{B}', '\U{C}', '\r'}
  }

  lemma SpacesAreWhite()
    ensures forall c: char :: IsSpace(c) <==> White(c)
  {
    forall c: char ensures IsSpace(c) <==> White(c) {
      assert '\t' <= c <= '\r' ==> c as int in {9, 10, 11, 12, 13};
      CharOf(c);
    }
  }

  lemma CharOf(c: char)
    ensures c as int == 9 ==> c == '\t'
    ensures c as int == 10 ==> c == '\n'
    ensures c as int == 11 ==> c == '\U{B}'
    ensures c as int == 12 ==> c == '\U{C}'
    ensures c as int == 13 ==> c == '\r'
  {
  }

  ghost predicate Blank(s: string) {
    forall c <- s :: White(c)
  }

  /** No white space at either end. */
  ghost predicate Tight(s: string) {
    s != [] ==> !White(s[0]) && !White(s[|s| - 1])
  }

  /** `m` is what remains of `s` between white space before and after. */
  ghost predicate Within(before: string, m: string, after: string, s: string) {
    s == before + m + after && Blank(before) && Blank(after)
  }

  lemma {:induction false} TrimRightMeans(s: string) returns (after: string)
    ensures s == TrimRight(s) + after && Blank(after)
    ensures TrimRight(s) != [] ==> !White(TrimRight(s)[|TrimRight(s)| - 1])
  {
    SpacesAreWhite();
    after := [];
    if s != [] && IsSpace(s[|s| - 1]) {
      after := TrimRightMeans(s[..|s| - 1]);
      after := after + [s[|s| - 1]];
    }
  }

  lemma {:induction false} TrimLeftMeans(s: string) returns (before: string)
    ensures s == before + TrimLeft(s) && Blank(before)
    ensures TrimLeft(s) != [] ==> !White(TrimLeft(s)[0]) && TrimLeft(s)[|TrimLeft(s)| - 1] == s[|s| - 1]
  {
    SpacesAreWhite();
    before := [];
    if s != [] && IsSpace(s[0]) {
      before := TrimLeftMeans(s[1..]);
      before := [s[0]] + before;
    }
  }

  /** Trimming removes white space only, and all of it at the ends. */
  lemma TrimMeans(s: string) returns (before: string, after: string)
    ensures Within(before, Trim(s), after, s) && Tight(Trim(s))
  {
    after := TrimRightMeans(s);
    before := TrimLeftMeans(TrimRight(s));
  }

  lemma {:induction false} TrimRightPadded(s: string, after: string)
    requires Blank(after)
    ensures TrimRight(s + after) == TrimRight(s)
  {
    SpacesAreWhite();
    if after == [] {
      assert s + after == s;
    } else {
      TrimRightPadded(s, after[..|after| - 1]);
      assert (s + after)[..|s + after| - 1] == s + after[..|after| - 1];
      assert IsSpace(after[|after| - 1]);
    }
  }

  lemma {:induction false} TrimLeftPadded(before: string, s: string)
    requires Blank(before)
    ensures TrimLeft(before + s) == TrimLeft(s)
  {
    SpacesAreWhite();
    if before == [] {
      assert before + s == s;
    } else {
      TrimLeftPadded(before[1..], s);
      assert (before + s)[1..] == before[1..] + s;
    }
  }

  lemma {:induction false} TrimBlank(s: string)
    requires Blank(s)
    ensures TrimRight(s) == []
  {
    TrimRightPadded([], s);
    assert [] + s == s;
  }

  lemma TrimTight(m: string)
    requires Tight(m)
    ensures Trim(m) == m
  {
    SpacesAreWhite();
  }

  /** The middle is unique: however the white space is split off, trimming finds it. */
  lemma TrimIsMiddle(before: string, m: string, after: string, s: string)
    requires Within(before, m, after, s) && Tight(m)
    ensures Trim(s) == m
  {
    TrimRightPadded(before + m, after);
    if m == [] {
      assert before + m == before;
      TrimBlank(before);
    } else {
      assert (before + m)[|before + m| - 1] == m[|m| - 1];
      TrimLeftPadded(before, m);
    }
  }

  lemma UpperSpaces(s: string)
    ensures Blank(s) <==> Blank(Upper(s))
    ensures Tight(s) <==> Tight(Upper(s))
  {
    SpacesAreWhite();
    assert forall i :: 0 <= i < |s| ==> (IsSpace(s[i]) <==> IsSpace(Upper(s)[i]));
  }

  /** Trimming and upper-casing commute. */
  lemma TrimUpper(s: string)
    ensures Trim(Upper(s)) == Upper(Trim(s))
  {
    var before, after := TrimMeans(s);
    UpperSpaces(before);
    UpperSpaces(Trim(s));
    UpperSpaces(after);
    assert Upper(s) == Upper(before) + Upper(Trim(s)) + Upper(after);
    TrimIsMiddle(Upper(before), Upper(Trim(s)), Upper(after), Upper(s));
  }

  /** White space around a string does not change its normal form. */
  lemma NormalOfPadded(before: string, m: string, after: string, s: string)
    requires Within(before, m, after, s)
    ensures Normal(s) == Normal(m)
  {
    var b, a := TrimMeans(m);
    assert s == (before + b) + Trim(m) + (a + after);
    TrimIsMiddle(before + b, Trim(m), a + after, s);
  }

  // ---------------------------------------------------------------- variants of a code

  /** The k-th letter of the alphabet that begins with `first`. */
  function Letter(first: char, k: nat): char
    requires first in {'a', 'A'} && k < 26
  {
    (first as int + k) as char
  }

  /** The same character, or the small and the capital form of one letter. */
  ghost predicate SameLetter(c: char, d: char) {
    c == d ||
    exists k: nat | k < 26 ::
      (c == Letter('a', k) && d == Letter('A', k)) || (c == Letter('A', k) && d == Letter('a', k))
  }

  ghost predicate SameLetters(s: string, t: string) {
    |s| == |t| && forall i :: 0 <= i < |s| ==> SameLetter(s[i], t[i])
  }

  lemma UpperIffSame(c: char, d: char)
    ensures ToUpper(c) == ToUpper(d) <==> SameLetter(c, d)
  {
    if ToUpper(c) == ToUpper(d) && c != d {
      var k: nat := ToUpper(c) as int - 65;
      assert k < 26 && Letter('A', k) == ToUpper(c) && Letter('a', k) as int == ToUpper(c) as int + 32;
    }
  }

  lemma UpperIffSameLetters(s: string, t: string)
    ensures Upper(s) == Upper(t) <==> SameLetters(s, t)
  {
    forall i | 0 <= i < |s| && |s| == |t| ensures Upper(s)[i] == Upper(t)[i] <==> SameLetter(s[i], t[i]) {
      UpperIffSame(s[i], t[i]);
    }
  }

  /** The codes are equal up to letter case and outer white space. */
  ghost predicate Variants(s: string, t: string) {
    exists b, m, a, d, n, e :: Within(b, m, a, s) && Within(d, n, e, t) && SameLetters(m, n)
  }

  lemma NormalIffVariants(s: string, t: string)
    ensures Normal(s) == Normal(t) <==> Variants(s, t)
  {
    hide SameLetters, Upper, Trim;
    if Normal(s) == Normal(t) {
      var b, a := TrimMeans(s);
      var d, e := TrimMeans(t);
      UpperIffSameLetters(Trim(s), Trim(t));
      assert Within(b, Trim(s), a, s) && Within(d, Trim(t), e, t);
    }
    if Variants(s, t) {
      var b, m, a, d, n, e :| Within(b, m, a, s) && Within(d, n, e, t) && SameLetters(m, n);
      UpperIffSameLetters(m, n);
      NormalOfPadded(b, m, a, s);
      NormalOfPadded(d, n, e, t);
      TrimUpper(m);
      TrimUpper(n);
    }
  }

  /** A normal form is a variant of the code, is trimmed, holds no small letter and is its own normal form; it is empty
      exactly for blank codes. */
  lemma NormalFixed(s: string)
    ensures Variants(s, Normal(s)) && Tight(Normal(s))
    ensures forall c <- Normal(s) :: !('a' <= c <= 'z')
    ensures Normal(Normal(s)) == Normal(s)
    ensures Normal(s) == "" <==> Blank(s)
  {
    hide Variants;
    var before, after := TrimMeans(s);
    UpperSpaces(Trim(s));
    TrimTight(Normal(s));
    assert Upper(Normal(s)) == Normal(s);
    NormalIffVariants(s, Normal(s));
    if Blank(s) {
      TrimBlank(s);
    }
  }

  // ---------------------------------------------------------------- stream identifiers

  /** An absent location code is written as two dashes. */
  function NormalLocation(code: string): string {
    if Normal(code) == "" then "--" else Normal(code)
  }

  /** None when the network, station or channel is blank. */
  function Canonical(id: StreamIdentifier): Option<StreamIdentifier> {
    var network, station, channel := Normal(id.network), Normal(id.station), Normal(id.channel);
    if network != "" && station != "" && channel != "" then
      Some(StreamIdentifier(network, station, channel, NormalLocation(id.locationCode)))
    else None
  }

  lemma NormalLocationFixed(code: string)
    ensures NormalLocation(code) != "" && NormalLocation(NormalLocation(code)) == NormalLocation(code)
  {
    NormalFixed(code);
    NormalFixed("--");
    TrimTight("--");
    assert Upper("--") == "--";
  }

  /** An identifier is refused exactly for a blank code; the normal form of an accepted one has no empty part, is a
      variant of it code by code, and is its own normal form. */
  lemma CanonicalFixed(id: StreamIdentifier)
    ensures Canonical(id).None? <==> Blank(id.network) || Blank(id.station) || Blank(id.channel)
    ensures Canonical(id).Some? ==>
              var c := Canonical(id).value;
              && Canonical(c) == Some(c) && "" !in {c.network, c.station, c.channel, c.locationCode}
              && Variants(id.network, c.network) && Variants(id.station, c.station) && Variants(id.channel, c.channel)
              && LocationVariants(id.locationCode, c.locationCode)
  {
    hide Normal, NormalLocation, Variants, LocationVariants;
    LocationIffVariants(id.locationCode, NormalLocation(id.locationCode));
    NormalFixed(id.network);
    NormalFixed(id.station);
    NormalFixed(id.channel);
    NormalLocationFixed(id.locationCode);
  }

  /** Both blank, or written as the dashes that stand for blank, or variants of each other. */
  ghost predicate LocationVariants(s: string, t: string) {
    || Variants(s, t)
    || ((Blank(s) || Variants(s, "--")) && (Blank(t) || Variants(t, "--")))
  }

  lemma LocationIffVariants(s: string, t: string)
    ensures NormalLocation(s) == NormalLocation(t) <==> LocationVariants(s, t)
  {
    hide Normal, Variants;
    NormalFixed(s);
    NormalFixed(t);
    NormalIffVariants(s, t);
    NormalIffVariants(s, "--");
    NormalIffVariants(t, "--");
    DashesNormal();
  }

  lemma DashesNormal()
    ensures Normal("--") == "--"
  {
    TrimTight("--");
    assert Upper("--") == "--";
  }

  /** Two accepted identifiers get one key in the duplicate detector exactly when they are variants of each other, code
      by code, as soon as one of them owns its name, or neither has a separator before its location code. */
  lemma {:induction false} OneKeyPerStream(a: StreamIdentifier, b: StreamIdentifier)
    requires Canonical(a).Some? && Canonical(b).Some?
    requires OwnsName(Canonical(a).value) || (DotFree(Canonical(a).value) && DotFree(Canonical(b).value))
    ensures ToName(Canonical(a).value) == ToName(Canonical(b).value) <==>
              && Variants(a.network, b.network) && Variants(a.station, b.station) && Variants(a.channel, b.channel)
              && LocationVariants(a.locationCode, b.locationCode)
  {
    hide Normal, NormalLocation, Variants, LocationVariants, ToName;
    ToNameInjective(Canonical(a).value, Canonical(b).value);
    NormalIffVariants(a.network, b.network);
    NormalIffVariants(a.station, b.station);
    NormalIffVariants(a.channel, b.channel);
    LocationIffVariants(a.locationCode, b.locationCode);
  }
}
