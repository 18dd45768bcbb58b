/** Well-formed text as the encodings of its characters, and white space among them. */
module Characters {
  import opened Wire
  import opened Utf8

  /** A Unicode scalar value. */
  predicate Scalar(c: int) { 0 <= c < 0xD800 || 0xE000 <= c < 0x110000 }

  /** The UTF-8 form of a character (section 3 of RFC 3629). */
  function Encode(c: int): (b: Bytes)
    requires Scalar(c)
    ensures 1 <= |b| <= 4
  {
    if c < 0x80 then [c]
    else if c < 0x800 then [0xC0 + c / 64, 0x80 + c % 64]
    else if c < 0x10000 then [0xE0 + c / 64 / 64, 0x80 + c / 64 % 64, 0x80 + c % 64]
    else [0xF0 + c / 64 / 64 / 64, 0x80 + c / 64 / 64 % 64, 0x80 + c / 64 % 64, 0x80 + c % 64]
  }

  // ---------------------------------------------------------------- one character

  function Shift(high: int, low: int): int { high * 64 + low }

  lemma Shifted(high: int, low: int)
    requires 0 <= low < 64
    ensures Shift(high, low) / 64 == high && Shift(high, low) % 64 == low
  {
  }

  lemma Unshifted(n: int)
    ensures Shift(n / 64, n % 64) == n
  {
  }

  /** The character in front. */
  function CharOf(s: Bytes): int
    requires CharLength(s) > 0
  {
    match CharLength(s)
    case 1 => s[0]
    case 2 => Shift(s[0] - 0xC0, s[1] - 0x80)
    case 3 => Shift(Shift(s[0] - 0xE0, s[1] - 0x80), s[2] - 0x80)
    case _ => Shift(Shift(Shift(s[0] - 0xF0, s[1] - 0x80), s[2] - 0x80), s[3] - 0x80)
  }

  lemma CharIsEncoded(s: Bytes)
    requires CharLength(s) > 0
    ensures Scalar(CharOf(s)) && s[..CharLength(s)] == Encode(CharOf(s))
  {
    if CharLength(s) == 3 {
      ThreeBytes(s);
    } else if CharLength(s) == 4 {
      FourBytes(s);
    } else if CharLength(s) == 2 {
      Shifted(s[0] - 0xC0, s[1] - 0x80);
    }
  }

  lemma ThreeBytes(s: Bytes)
    requires CharLength(s) == 3
    ensures Scalar(CharOf(s)) && s[..3] == Encode(CharOf(s))
  {
    var high := Shift(s[0] - 0xE0, s[1] - 0x80);
    Shifted(s[0] - 0xE0, s[1] - 0x80);
    Shifted(high, s[2] - 0x80);
    assert CharOf(s) == Shift(high, s[2] - 0x80);
  }

  lemma FourBytes(s: Bytes)
    requires CharLength(s) == 4
    ensures Scalar(CharOf(s)) && s[..4] == Encode(CharOf(s))
  {
    var high := Shift(s[0] - 0xF0, s[1] - 0x80);
    Shifted(s[0] - 0xF0, s[1] - 0x80);
    Shifted(high, s[2] - 0x80);
    Shifted(Shift(high, s[2] - 0x80), s[3] - 0x80);
    assert CharOf(s) == Shift(Shift(high, s[2] - 0x80), s[3] - 0x80);
  }

  lemma EncodedIsChar(c: int, rest: Bytes)
    requires Scalar(c)
    ensures CharLength(Encode(c) + rest) == |Encode(c)| && CharOf(Encode(c) + rest) == c
  {
    var s := Encode(c) + rest;
    Unshifted(c);
    Unshifted(c / 64);
    Unshifted(c / 64 / 64);
    if c < 0x80 {
      assert s[0] == c;
    } else if c < 0x800 {
      assert s[0] == 0xC0 + c / 64 && s[1] == 0x80 + c % 64;
    } else if c < 0x10000 {
      assert s[0] == 0xE0 + c / 64 / 64 && s[1] == 0x80 + c / 64 % 64 && s[2] == 0x80 + c % 64;
    } else {
      assert s[0] == 0xF0 + c / 64 / 64 / 64 && s[1] == 0x80 + c / 64 / 64 % 64;
      assert s[2] == 0x80 + c / 64 % 64 && s[3] == 0x80 + c % 64;
    }
  }

  // ---------------------------------------------------------------- whole texts

  predicate AllScalar(cs: seq<int>) { forall i :: 0 <= i < |cs| ==> Scalar(cs[i]) }

  function EncodeAll(cs: seq<int>): Bytes
    requires AllScalar(cs)
  {
    if cs == [] then [] else Encode(cs[0]) + EncodeAll(cs[1..])
  }

  /** Every encoded text is well formed. */
  lemma {:induction false} EncodedIsValid(cs: seq<int>)
    requires AllScalar(cs)
    ensures ValidUtf8(EncodeAll(cs))
  {
    if cs != [] {
      var head, tail := Encode(cs[0]), EncodeAll(cs[1..]);
      EncodedIsValid(cs[1..]);
      EncodedIsChar(cs[0], tail);
      assert (head + tail)[|head|..] == tail;
    }
  }

  /** Every well-formed text is the encoding of its characters. */
  lemma {:induction false} ValidIsEncoded(s: Bytes) returns (cs: seq<int>)
    requires ValidUtf8(s)
    ensures AllScalar(cs) && s == EncodeAll(cs)
    decreases |s|
  {
    if s == [] {
      cs := [];
    } else {
      var n := CharLength(s);
      CharIsEncoded(s);
      var rest := ValidIsEncoded(s[n..]);
      cs := [CharOf(s)] + rest;
      assert cs[1..] == rest && s == s[..n] + s[n..];
    }
  }

  // ---------------------------------------------------------------- white space

  /** The White_Space property of the Unicode character database. */
  predicate White(c: int) {
    || 9 <= c <= 13 || c == 0x20 || c == 0x85 || c == 0xA0 || c == 0x1680 || 0x2000 <= c <= 0x200A
    || c == 0x2028 || c == 0x2029 || c == 0x202F || c == 0x205F || c == 0x3000
  }

  /** The white-space character in front. */
  function SpaceOf(s: Bytes): int
    requires LeadingSpace(s) > 0
  {
    match LeadingSpace(s)
    case 1 => s[0]
    case 2 => s[1]
    case _ => Shift(Shift(s[0] - 0xE0, s[1] - 0x80), s[2] - 0x80)
  }

  lemma SpaceIsWhite(s: Bytes)
    requires LeadingSpace(s) > 0
    ensures White(SpaceOf(s)) && s[..LeadingSpace(s)] == Encode(SpaceOf(s))
  {
    if LeadingSpace(s) == 3 {
      Shifted(s[0] - 0xE0, s[1] - 0x80);
      Shifted(Shift(s[0] - 0xE0, s[1] - 0x80), s[2] - 0x80);
    }
  }

  lemma WhiteIsSpace(c: int, rest: Bytes)
    requires White(c)
    ensures LeadingSpace(Encode(c) + rest) == |Encode(c)|
  {
    var s := Encode(c) + rest;
    if c < 0x80 {
      assert s[0] == c;
    } else if c < 0x800 {
      assert s[0] == 0xC0 + c / 64 && s[1] == 0x80 + c % 64;
    } else {
      assert s[0] == 0xE0 + c / 64 / 64 && s[1] == 0x80 + c / 64 % 64 && s[2] == 0x80 + c % 64;
    }
  }

  predicate AllWhite(cs: seq<int>) { forall i :: 0 <= i < |cs| ==> White(cs[i]) }

  /** A blank text is nothing but white space. */
  lemma {:induction false} BlankIsWhite(s: Bytes) returns (cs: seq<int>)
    requires Blank(s)
    ensures AllWhite(cs) && s == EncodeAll(cs)
    decreases |s|
  {
    if s == [] {
      cs := [];
    } else {
      var n := LeadingSpace(s);
      SpaceIsWhite(s);
      var rest := BlankIsWhite(s[n..]);
      cs := [SpaceOf(s)] + rest;
      assert cs[1..] == rest && s == s[..n] + s[n..];
    }
  }

  /** And white space is blank. */
  lemma {:induction false} WhiteIsBlank(cs: seq<int>)
    requires AllWhite(cs)
    ensures Blank(EncodeAll(cs))
  {
    if cs != [] {
      var head, tail := Encode(cs[0]), EncodeAll(cs[1..]);
      WhiteIsBlank(cs[1..]);
      WhiteIsSpace(cs[0], tail);
      assert (head + tail)[|head|..] == tail;
    }
  }

  // ---------------------------------------------------------------- trimming

  lemma SpaceInFront(s: Bytes, k: nat)
    requires k <= |s| && LeadingSpace(s[..k]) > 0
    ensures LeadingSpace(s) == LeadingSpace(s[..k])
  {
    assert forall i :: 0 <= i < k ==> s[..k][i] == s[i];
  }

  lemma {:induction false} BlankJoins(x: Bytes, y: Bytes)
    requires Blank(x) && Blank(y)
    ensures Blank(x + y)
    decreases |x|
  {
    if x == [] {
      assert x + y == y;
    } else {
      var n := LeadingSpace(x);
      assert (x + y)[..|x|] == x;
      SpaceInFront(x + y, |x|);
      assert (x + y)[n..] == x[n..] + y;
      BlankJoins(x[n..], y);
    }
  }

  lemma Regroup(x: Bytes, y: Bytes, z: Bytes)
    ensures x + (y + z) == x + y + z
  {
  }

  lemma CutInFront(s: Bytes, n: nat, more: Bytes, rest: Bytes)
    requires n <= |s| && s[n..] == more + rest
    ensures s == s[..n] + more + rest
  {
    assert s == s[..n] + s[n..];
    Regroup(s[..n], more, rest);
  }

  lemma CutBehind(s: Bytes, k: nat, rest: Bytes, more: Bytes)
    requires k <= |s| && s[..k] == rest + more
    ensures s == rest + (more + s[k..])
  {
    assert s == s[..k] + s[k..];
    Regroup(rest, more, s[k..]);
  }

  lemma {:induction false} TrimStartMeaning(s: Bytes) returns (front: Bytes)
    ensures s == front + TrimStart(s) && Blank(front) && LeadingSpace(TrimStart(s)) == 0
    decreases |s|
  {
    var n := LeadingSpace(s);
    if n == 0 {
      front := [];
    } else {
      var more := TrimStartMeaning(s[n..]);
      front := s[..n] + more;
      FirstIsBlank(s);
      BlankJoins(s[..n], more);
      CutInFront(s, n, more, TrimStart(s));
    }
  }

  lemma FirstIsBlank(s: Bytes)
    requires LeadingSpace(s) > 0
    ensures Blank(s[..LeadingSpace(s)])
  {
    SpaceIsWhite(s);
    var c := SpaceOf(s);
    WhiteIsSpace(c, []);
    assert Encode(c) + [] == Encode(c);
    assert Encode(c)[|Encode(c)|..] == [];
  }

  lemma LastIsBlank(s: Bytes)
    requires TrailingSpace(s) > 0
    ensures Blank(s[|s| - TrailingSpace(s)..])
  {
    var n := TrailingSpace(s);
    var last := s[|s| - n..];
    assert LeadingSpace(last) == n by {
      assert last[0] == s[|s| - n];
    }
    FirstIsBlank(last);
    assert last[..n] == last;
  }

  lemma {:induction false} TrimEndMeaning(s: Bytes) returns (back: Bytes)
    ensures s == TrimEnd(s) + back && Blank(back) && TrailingSpace(TrimEnd(s)) == 0
    decreases |s|
  {
    var n := TrailingSpace(s);
    if n == 0 {
      back := [];
    } else {
      var k := |s| - n;
      var more := TrimEndMeaning(s[..k]);
      back := more + s[k..];
      LastIsBlank(s);
      BlankJoins(more, s[k..]);
      CutBehind(s, k, TrimEnd(s), more);
    }
  }

  /** Trimming takes white space off both ends, all of it, and nothing else. */
  lemma TrimMeaning(s: Bytes) returns (front: Bytes, back: Bytes)
    ensures s == front + Trim(s) + back && Blank(front) && Blank(back)
    ensures LeadingSpace(Trim(s)) == 0 && TrailingSpace(Trim(s)) == 0
  {
    front := TrimStartMeaning(s);
    back := TrimEndMeaning(TrimStart(s));
    NoSpaceInFront(Trim(s), back);
    Regroup(front, Trim(s), back);
  }

  lemma NoSpaceInFront(x: Bytes, y: Bytes)
    requires LeadingSpace(x + y) == 0
    ensures LeadingSpace(x) == 0
  {
    assert (x + y)[..|x|] == x;
    if LeadingSpace(x) > 0 {
      SpaceInFront(x + y, |x|);
    }
  }
}
