/** Byte strings, big-endian integers, length-prefixed lists and decimal numerals,
    as the persisted and signed formats of the bridge use them. */
module Wire {

  type Byte = x: int | 0 <= x < 256
  type Bytes = seq<Byte>

  datatype Option<+T> = None | Some(value: T)

  /** The bytes of an ASCII text. */
  function Ascii(s: string): (b: Bytes)
    requires forall i :: 0 <= i < |s| ==> s[i] < 128 as char
    ensures |b| == |s| && forall i :: 0 <= i < |s| ==> b[i] == s[i] as int
  {
    seq(|s|, i requires 0 <= i < |s| => s[i] as int)
  }

  const U64_LIMIT: int := 0x1_0000_0000_0000_0000
  /** Eight; written as a list length so that the verifier keeps `BigEndian` folded. */
  const U64_WIDTH: nat := |[0, 1, 2, 3, 4, 5, 6, 7]|

  /** `n` as `width` big-endian bytes; bits above the width are dropped. */
  function BigEndian(n: nat, width: nat): (r: Bytes)
    ensures |r| == width
    decreases width
  {
    if width == 0 then [] else BigEndian(n / 256, width - 1) + [n % 256]
  }

  function FromBigEndian(b: Bytes): (n: nat) {
    if b == [] then 0 else FromBigEndian(b[..|b| - 1]) * 256 + b[|b| - 1]
  }

  function Pow256(width: nat): (r: nat)
    ensures r > 0
  {
    if width == 0 then 1 else 256 * Pow256(width - 1)
  }

  lemma {:induction false} BigEndianRoundTrip(n: nat, width: nat)
    requires n < Pow256(width)
    ensures FromBigEndian(BigEndian(n, width)) == n
    decreases width
  {
    if width > 0 {
      var b := BigEndian(n, width);
      assert b[..|b| - 1] == BigEndian(n / 256, width - 1);
      BigEndianRoundTrip(n / 256, width - 1);
    }
  }

  /** The byte in front weighs the most. */
  lemma {:induction false} FrontWeighsMost(x: Byte, b: Bytes)
    ensures FromBigEndian([x] + b) == x * Pow256(|b|) + FromBigEndian(b)
  {
    if b == [] {
      assert ([x] + b)[..0] == [];
    } else {
      var front, last := b[..|b| - 1], b[|b| - 1];
      assert ([x] + b)[..|b|] == [x] + front;
      FrontWeighsMost(x, front);
      Scaled(x, Pow256(|front|));
    }
  }

  lemma Scaled(x: nat, p: nat)
    ensures (x * p) * 256 == x * (256 * p)
  {
  }

  lemma {:induction false} FromBigEndianRoundTrip(b: Bytes)
    ensures FromBigEndian(b) < Pow256(|b|)
    ensures BigEndian(FromBigEndian(b), |b|) == b
  {
    if b != [] {
      var front, last := b[..|b| - 1], b[|b| - 1];
      FromBigEndianRoundTrip(front);
      assert FromBigEndian(b) / 256 == FromBigEndian(front);
      assert b == front + [last];
    }
  }

  lemma Pow256Values()
    ensures Pow256(4) == 0x1_0000_0000
    ensures Pow256(8) == U64_LIMIT
  {
    assert Pow256(2) == 65536;
    assert Pow256(4) == 65536 * 65536;
    assert Pow256(6) == 65536 * Pow256(4);
  }

  /** One length-prefixed component: `(len as u64).to_be_bytes()` and then the bytes. */
  function Prefixed(part: Bytes): (r: Bytes)
    ensures |r| == U64_WIDTH + |part|
  {
    BigEndian(|part|, U64_WIDTH) + part
  }

  function PrefixedAll(parts: seq<Bytes>): (r: Bytes) {
    if parts == [] then [] else Prefixed(parts[0]) + PrefixedAll(parts[1..])
  }

  /** What a 64-bit address space guarantees of every buffer. */
  predicate Sized(parts: seq<Bytes>) {
    forall i :: 0 <= i < |parts| ==> |parts[i]| < U64_LIMIT
  }

  lemma Slices(head: Bytes, part: Bytes, rest: Bytes)
    ensures var whole := head + part + rest;
            && whole[..|head|] == head
            && whole[|head|..|head| + |part|] == part
            && whole[|head| + |part|..] == rest
  {
  }

  lemma WordInjective(m: nat, n: nat, width: nat)
    requires m < Pow256(width) && n < Pow256(width)
    requires BigEndian(m, width) == BigEndian(n, width)
    ensures m == n
  {
    BigEndianRoundTrip(m, width);
    BigEndianRoundTrip(n, width);
  }

  lemma HeadInjective(width: nat, a: Bytes, b: Bytes, x: Bytes, y: Bytes)
    requires |a| < Pow256(width) && |b| < Pow256(width)
    requires BigEndian(|a|, width) + a + x == BigEndian(|b|, width) + b + y
    ensures a == b && x == y
  {
    Slices(BigEndian(|a|, width), a, x);
    Slices(BigEndian(|b|, width), b, y);
    WordInjective(|a|, |b|, width);
  }

  lemma PrefixedHead(a: Bytes, b: Bytes, x: Bytes, y: Bytes)
    requires |a| < U64_LIMIT && |b| < U64_LIMIT
    requires Prefixed(a) + x == Prefixed(b) + y
    ensures a == b && x == y
  {
    Pow256Values();
    HeadInjective(U64_WIDTH, a, b, x, y);
  }

  /** A list of length-prefixed components is uniquely decodable, number of components included. */
  lemma {:induction false} PrefixedAllInjective(p: seq<Bytes>, q: seq<Bytes>)
    requires Sized(p) && Sized(q)
    requires PrefixedAll(p) == PrefixedAll(q)
    ensures p == q
    decreases |p|
  {
    assert p != [] ==> |PrefixedAll(p)| >= 8;
    assert q != [] ==> |PrefixedAll(q)| >= 8;
    if p != [] {
      PrefixedHead(p[0], q[0], PrefixedAll(p[1..]), PrefixedAll(q[1..]));
      PrefixedAllInjective(p[1..], q[1..]);
      assert p == [p[0]] + p[1..] && q == [q[0]] + q[1..];
    }
  }

  // ---------------------------------------------------------------- decimal numerals

  const ZERO: Byte := 48
  const MINUS: Byte := 45

  /** `n.to_string()` for an unsigned integer. */
  function Decimal(n: nat): (r: Bytes)
    ensures r != []
    ensures forall i :: 0 <= i < |r| ==> ZERO <= r[i] < ZERO + 10
  {
    if n < 10 then [ZERO + n] else Decimal(n / 10) + [ZERO + n % 10]
  }

  /** `n.to_string()` for a signed integer. */
  function SignedDecimal(n: int): (r: Bytes) {
    if n < 0 then [MINUS] + Decimal(-n) else Decimal(n)
  }

  function DecimalValue(b: Bytes): (n: int) {
    if b == [] then 0 else DecimalValue(b[..|b| - 1]) * 10 + (b[|b| - 1] - ZERO)
  }

  lemma {:induction false} DecimalRoundTrip(n: nat)
    ensures DecimalValue(Decimal(n)) == n
  {
    var d := Decimal(n);
    if n < 10 {
      assert d[..0] == [];
    } else {
      assert d[..|d| - 1] == Decimal(n / 10);
      DecimalRoundTrip(n / 10);
    }
  }

  lemma SignedDecimalInjective(m: int, n: int)
    requires SignedDecimal(m) == SignedDecimal(n)
    ensures m == n
  {
    var a, b := if m < 0 then -m else m, if n < 0 then -n else n;
    DecimalRoundTrip(a);
    DecimalRoundTrip(b);
    assert m < 0 <==> SignedDecimal(m)[0] == MINUS;
    assert n < 0 <==> SignedDecimal(n)[0] == MINUS;
    if m < 0 {
      assert SignedDecimal(m)[1..] == Decimal(a) && SignedDecimal(n)[1..] == Decimal(b);
    }
  }

  // ---------------------------------------------------------------- blank text

  /** Length of the UTF-8 form of the White_Space character that `s` starts with, 0 if there is none. */
  function LeadingSpace(s: Bytes): (n: nat)
    ensures n <= |s|
  {
    if s == [] then 0
    else if 9 <= s[0] <= 13 || s[0] == 32 then 1
    else if |s| >= 2 && s[0] == 0xC2 && (s[1] == 0x85 || s[1] == 0xA0) then 2
    else if |s| >= 3 && s[0] == 0xE1 && s[1] == 0x9A && s[2] == 0x80 then 3
    else if |s| >= 3 && s[0] == 0xE2 && s[1] == 0x80
      && (0x80 <= s[2] <= 0x8A || s[2] == 0xA8 || s[2] == 0xA9 || s[2] == 0xAF) then 3
    else if |s| >= 3 && s[0] == 0xE2 && s[1] == 0x81 && s[2] == 0x9F then 3
    else if |s| >= 3 && s[0] == 0xE3 && s[1] == 0x80 && s[2] == 0x80 then 3
    else 0
  }

  /** `s.trim().is_empty()` */
  predicate Blank(s: Bytes) {
    s == [] || (LeadingSpace(s) > 0 && Blank(s[LeadingSpace(s)..]))
  }

  /** Length of the White_Space character that `s` ends with, 0 if there is none. */
  function TrailingSpace(s: Bytes): (n: nat)
    ensures n <= |s|
  {
    var k := |s|;
    if k >= 1 && (9 <= s[k - 1] <= 13 || s[k - 1] == 32) then 1
    else if k >= 2 && LeadingSpace(s[k - 2..]) == 2 then 2
    else if k >= 3 && LeadingSpace(s[k - 3..]) == 3 then 3
    else 0
  }

  function TrimStart(s: Bytes): Bytes
    decreases |s|
  {
    if LeadingSpace(s) == 0 then s else TrimStart(s[LeadingSpace(s)..])
  }

  function TrimEnd(s: Bytes): Bytes
    decreases |s|
  {
    if TrailingSpace(s) == 0 then s else TrimEnd(s[..|s| - TrailingSpace(s)])
  }

  function Trim(s: Bytes): Bytes { TrimEnd(TrimStart(s)) }

  /** Text with no byte outside printable ASCII at either end is its own trim. */
  lemma NothingToTrim(s: Bytes)
    requires forall i :: 0 <= i < |s| ==> 33 <= s[i] <= 126
    ensures Trim(s) == s
  {
  }
}
