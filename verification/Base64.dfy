/** The standard Base64 alphabet with padding (section 4 of RFC 4648), decoded strictly. */
module Base64 {
  import opened Wire

  type Sextet = x: int | 0 <= x < 64

  const PAD: Byte := 61

  // ---------------------------------------------------------------- bytes and six-bit groups

  function First(x: Byte): Sextet { x / 4 }
  function Second(x: Byte, y: Byte): Sextet { x % 4 * 16 + y / 16 }
  function Third(y: Byte, z: Byte): Sextet { y % 16 * 4 + z / 64 }
  function Fourth(z: Byte): Sextet { z % 64 }

  function High(a: Sextet, b: Sextet): Byte { a * 4 + b / 16 }
  function Middle(b: Sextet, c: Sextet): Byte { b % 16 * 16 + c / 4 }
  function Low(c: Sextet, d: Sextet): Byte { c % 4 * 64 + d }

  lemma Recombine(x: Byte, y: Byte, z: Byte)
    ensures High(First(x), Second(x, y)) == x
    ensures Middle(Second(x, y), Third(y, z)) == y
    ensures Low(Third(y, z), Fourth(z)) == z
    ensures Second(x, 0) % 16 == 0 && Third(y, 0) % 4 == 0
  {
  }

  lemma Resplit(a: Sextet, b: Sextet, c: Sextet, d: Sextet)
    ensures First(High(a, b)) == a
    ensures Second(High(a, b), Middle(b, c)) == b
    ensures Third(Middle(b, c), Low(c, d)) == c
    ensures Fourth(Low(c, d)) == d
    ensures b % 16 == 0 ==> Second(High(a, b), 0) == b
    ensures c % 4 == 0 ==> Third(Middle(b, c), 0) == c
  {
  }

  function Sextets(s: Bytes): seq<Sextet> {
    if s == [] then []
    else if |s| == 1 then [First(s[0]), Second(s[0], 0)]
    else if |s| == 2 then [First(s[0]), Second(s[0], s[1]), Third(s[1], 0)]
    else [First(s[0]), Second(s[0], s[1]), Third(s[1], s[2]), Fourth(s[2])] + Sextets(s[3..])
  }

  /** No group of a single sextet, and no stray bits in a short group. */
  function Joined(d: seq<Sextet>): Option<Bytes> {
    if d == [] then Some([])
    else if |d| == 1 then None
    else if |d| == 2 then (if d[1] % 16 == 0 then Some([High(d[0], d[1])]) else None)
    else if |d| == 3 then (if d[2] % 4 == 0 then Some([High(d[0], d[1]), Middle(d[1], d[2])]) else None)
    else match Joined(d[4..])
      case None => None
      case Some(rest) => Some([High(d[0], d[1]), Middle(d[1], d[2]), Low(d[2], d[3])] + rest)
  }

  lemma JoinFour(a: Sextet, b: Sextet, c: Sextet, d: Sextet, more: seq<Sextet>)
    requires Joined(more).Some?
    ensures Joined([a, b, c, d] + more) == Some([High(a, b), Middle(b, c), Low(c, d)] + Joined(more).value)
  {
    assert ([a, b, c, d] + more)[4..] == more;
  }

  lemma JoinFew(a: Sextet, b: Sextet, c: Sextet)
    ensures b % 16 == 0 ==> Joined([a, b]) == Some([High(a, b)])
    ensures c % 4 == 0 ==> Joined([a, b, c]) == Some([High(a, b), Middle(b, c)])
  {
  }

  lemma JoinGroup(x: Byte, y: Byte, z: Byte, more: seq<Sextet>)
    requires Joined(more).Some?
    ensures Joined([First(x), Second(x, y), Third(y, z), Fourth(z)] + more) == Some([x, y, z] + Joined(more).value)
  {
    Recombine(x, y, z);
    JoinFour(First(x), Second(x, y), Third(y, z), Fourth(z), more);
  }

  lemma JoinOne(x: Byte, none: Byte)
    requires none == 0
    ensures Joined([First(x), Second(x, none)]) == Some([x])
  {
    var b := Second(x, none);
    assert b % 16 == 0 && High(First(x), b) == x;
    JoinFew(First(x), b, b);
  }

  lemma JoinTwo(x: Byte, y: Byte)
    ensures Joined([First(x), Second(x, y), Third(y, 0)]) == Some([x, y])
  {
    Recombine(x, y, 0);
    JoinFew(First(x), Second(x, y), Third(y, 0));
  }

  lemma {:induction false} JoinedSextets(s: Bytes)
    ensures Joined(Sextets(s)) == Some(s)
    decreases |s|
  {
    if |s| >= 3 {
      JoinedSextets(s[3..]);
      JoinGroup(s[0], s[1], s[2], Sextets(s[3..]));
      assert s == [s[0], s[1], s[2]] + s[3..];
    } else if |s| == 2 {
      JoinTwo(s[0], s[1]);
      assert s == [s[0], s[1]];
    } else if |s| == 1 {
      JoinOne(s[0], 0);
      assert s == [s[0]];
    }
  }

  lemma SplitGroup(a: Sextet, b: Sextet, c: Sextet, d: Sextet, s: Bytes)
    ensures b % 16 == 0 ==> Sextets([High(a, b)]) == [a, b]
    ensures c % 4 == 0 ==> Sextets([High(a, b), Middle(b, c)]) == [a, b, c]
    ensures Sextets([High(a, b), Middle(b, c), Low(c, d)] + s) == [a, b, c, d] + Sextets(s)
  {
    Resplit(a, b, c, d);
    var more := [High(a, b), Middle(b, c), Low(c, d)] + s;
    assert more[3..] == s;
  }

  lemma {:induction false} SextetsJoined(d: seq<Sextet>)
    requires Joined(d).Some?
    ensures Sextets(Joined(d).value) == d
    decreases |d|
  {
    if |d| >= 4 {
      SextetsJoined(d[4..]);
      SplitGroup(d[0], d[1], d[2], d[3], Joined(d[4..]).value);
      assert d == [d[0], d[1], d[2], d[3]] + d[4..];
    } else if |d| == 3 {
      SplitGroup(d[0], d[1], d[2], 0, []);
      assert d == [d[0], d[1], d[2]];
    } else if |d| == 2 {
      SplitGroup(d[0], d[1], 0, 0, []);
      assert d == [d[0], d[1]];
    }
  }

  // ---------------------------------------------------------------- six-bit groups and letters

  function Digit(d: Sextet): Byte {
    if d < 26 then 65 + d
    else if d < 52 then 97 + d - 26
    else if d < 62 then 48 + d - 52
    else if d == 62 then 43
    else 47
  }

  function Value(b: Byte): Option<Sextet> {
    if 65 <= b <= 90 then Some(b - 65)
    else if 97 <= b <= 122 then Some(b - 97 + 26)
    else if 48 <= b <= 57 then Some(b - 48 + 52)
    else if b == 43 then Some(62)
    else if b == 47 then Some(63)
    else None
  }

  function Text(d: seq<Sextet>): (s: Bytes)
    ensures |s| == |d|
  {
    if d == [] then [] else [Digit(d[0])] + Text(d[1..])
  }

  function Digits(s: Bytes): (d: Option<seq<Sextet>>)
    ensures d.Some? ==> |d.value| == |s|
  {
    if s == [] then Some([])
    else match Value(s[0])
      case None => None
      case Some(v) =>
        match Digits(s[1..])
        case None => None
        case Some(rest) => Some([v] + rest)
  }

  predicate Letter(b: Byte) { 33 <= b <= 126 && b != PAD }

  lemma {:induction false} DigitsOfText(d: seq<Sextet>)
    ensures Digits(Text(d)) == Some(d)
    ensures forall i :: 0 <= i < |d| ==> Letter(Text(d)[i])
  {
    if d != [] {
      DigitsOfText(d[1..]);
      assert Text(d)[1..] == Text(d[1..]);
      assert d == [d[0]] + d[1..];
    }
  }

  lemma {:induction false} TextOfDigits(s: Bytes)
    ensures Digits(s).Some? ==> Text(Digits(s).value) == s
    ensures Digits(s).Some? ==> forall i :: 0 <= i < |s| ==> s[i] != PAD
  {
    if Digits(s).Some? && s != [] {
      TextOfDigits(s[1..]);
      assert Digits(s).value[1..] == Digits(s[1..]).value;
      assert s == [s[0]] + s[1..];
    }
  }

  // ---------------------------------------------------------------- the whole text

  /** What fills a text of `n` digits up to a multiple of four. */
  function Padding(n: nat): (p: Bytes)
    ensures |p| <= 2 && forall i :: 0 <= i < |p| ==> p[i] == PAD
  {
    if n % 4 == 2 then [PAD, PAD] else if n % 4 == 3 then [PAD] else []
  }

  function Padded(text: Bytes): Bytes { text + Padding(|text|) }

  function Encode(s: Bytes): Bytes { Padded(Text(Sextets(s))) }

  /** How many padding characters end the text, at most two. */
  function Pads(s: Bytes): (n: nat)
    ensures n <= 2 && n <= |s|
  {
    if |s| >= 1 && s[|s| - 1] == PAD then (if |s| >= 2 && s[|s| - 2] == PAD then 2 else 1) else 0
  }

  function Unpadded(s: Bytes): Bytes { s[..|s| - Pads(s)] }

  function Decode(s: Bytes): Option<Bytes> {
    if |s| % 4 != 0 then None
    else match Digits(Unpadded(s))
      case None => None
      case Some(d) => Joined(d)
  }

  lemma {:induction false} SextetCount(s: Bytes)
    ensures |Sextets(s)| % 4 != 1
    ensures 4 * |s| <= 3 * |Sextets(s)| <= 4 * |s| + 2
    decreases |s|
  {
    if |s| >= 3 {
      SextetCount(s[3..]);
    }
  }

  /** Four letters for every three bytes begun, all printable. */
  lemma EncodedShape(s: Bytes)
    ensures |Encode(s)| % 4 == 0 && 4 * |s| <= 3 * |Encode(s)| <= 4 * |s| + 8
    ensures forall i :: 0 <= i < |Encode(s)| ==> 33 <= Encode(s)[i] <= 126
  {
    SextetCount(s);
    DigitsOfText(Sextets(s));
  }

  lemma UnpaddedPadded(text: Bytes)
    requires |text| % 4 != 1 && forall i :: 0 <= i < |text| ==> text[i] != PAD
    ensures |Padded(text)| % 4 == 0 && Unpadded(Padded(text)) == text
  {
    assert text != [] ==> Padded(text)[|text| - 1] != PAD;
  }

  lemma PaddedUnpadded(s: Bytes)
    requires |s| % 4 == 0 && forall i :: 0 <= i < |Unpadded(s)| ==> Unpadded(s)[i] != PAD
    ensures Padded(Unpadded(s)) == s
  {
    var n := |s| - Pads(s);
    assert s == s[..n] + s[n..];
    assert s[n..] == Padding(n);
  }

  /** The alphabet: capitals, small letters, digits, plus and slash. */
  lemma AlphabetIsSpelled(d: Sextet)
    ensures d < 26 ==> Digit(d) == 'A' as int + d <= 'Z' as int
    ensures 26 <= d < 52 ==> Digit(d) == 'a' as int + (d - 26) <= 'z' as int
    ensures 52 <= d < 62 ==> Digit(d) == '0' as int + (d - 52) <= '9' as int
    ensures d == 62 ==> Digit(d) == '+' as int
    ensures d == 63 ==> Digit(d) == '/' as int
    ensures PAD == '=' as int
  {
  }

  /** Four letters carry the 24 bits of three bytes, high bits first. */
  lemma BitsInOrder(x: Byte, y: Byte, z: Byte)
    ensures ((First(x) * 64 + Second(x, y)) * 64 + Third(y, z)) * 64 + Fourth(z) == (x * 256 + y) * 256 + z
  {
  }

  lemma {:induction false} TextJoins(a: seq<Sextet>, b: seq<Sextet>)
    ensures Text(a + b) == Text(a) + Text(b)
  {
    if a == [] {
      assert a + b == b;
    } else {
      assert (a + b)[1..] == a[1..] + b;
      TextJoins(a[1..], b);
    }
  }

  /** Group by group: four letters for three bytes, and padding for a short group. */
  lemma EncodedByGroups(x: Byte, y: Byte, z: Byte, s: Bytes)
    ensures Encode([]) == []
    ensures Encode([x]) == [Digit(First(x)), Digit(Second(x, 0)), PAD, PAD]
    ensures Encode([x, y]) == [Digit(First(x)), Digit(Second(x, y)), Digit(Third(y, 0)), PAD]
    ensures Encode([x, y, z] + s) ==
            [Digit(First(x)), Digit(Second(x, y)), Digit(Third(y, z)), Digit(Fourth(z))] + Encode(s)
  {
    FewLetters([First(x), Second(x, 0)]);
    FewLetters([First(x), Second(x, y), Third(y, 0)]);
    FullGroup(x, y, z, s);
  }

  lemma FullGroup(x: Byte, y: Byte, z: Byte, s: Bytes)
    ensures Encode([x, y, z] + s) ==
            [Digit(First(x)), Digit(Second(x, y)), Digit(Third(y, z)), Digit(Fourth(z))] + Encode(s)
  {
    var four := [First(x), Second(x, y), Third(y, z), Fourth(z)];
    SextetsOfGroup(x, y, z, s);
    TextJoins(four, Sextets(s));
    FewLetters(four);
    PaddedGroup(Text(four), Text(Sextets(s)));
  }

  lemma SextetsOfGroup(x: Byte, y: Byte, z: Byte, s: Bytes)
    ensures Sextets([x, y, z] + s) == [First(x), Second(x, y), Third(y, z), Fourth(z)] + Sextets(s)
  {
    assert ([x, y, z] + s)[3..] == s;
  }

  lemma PaddedGroup(four: Bytes, text: Bytes)
    requires |four| == 4
    ensures Padded(four + text) == four + Padded(text)
  {
    assert Padding(4 + |text|) == Padding(|text|);
  }

  lemma FewLetters(d: seq<Sextet>)
    ensures |d| == 2 ==> Text(d) == [Digit(d[0]), Digit(d[1])]
    ensures |d| == 3 ==> Text(d) == [Digit(d[0]), Digit(d[1]), Digit(d[2])]
    ensures |d| == 4 ==> Text(d) == [Digit(d[0]), Digit(d[1]), Digit(d[2]), Digit(d[3])]
  {
  }

  /** Decoding undoes encoding. */
  lemma RoundTrip(s: Bytes)
    ensures Decode(Encode(s)) == Some(s)
  {
    DigitsOfText(Sextets(s));
    JoinedSextets(s);
    SextetCount(s);
    UnpaddedPadded(Text(Sextets(s)));
  }

  /** Only canonical text decodes: every accepted text is the encoding of what it decodes to. */
  lemma OnlyCanonicalTextDecodes(s: Bytes)
    requires Decode(s).Some?
    ensures Encode(Decode(s).value) == s
  {
    TextOfDigits(Unpadded(s));
    SextetsJoined(Digits(Unpadded(s)).value);
    PaddedUnpadded(s);
  }
}
