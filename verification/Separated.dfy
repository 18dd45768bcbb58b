/** Texts cut into fields by one separator byte. */
module Separated {
  import opened Wire

  /** Index of the first `b`, or the length. */
  function Find(s: Bytes, b: Byte): (n: nat)
    ensures n <= |s| && (n < |s| ==> s[n] == b) && forall i :: 0 <= i < n ==> s[i] != b
  {
    if s == [] || s[0] == b then 0 else 1 + Find(s[1..], b)
  }

  /** `split(sep)`: never empty. */
  function Split(s: Bytes, sep: Byte): (p: seq<Bytes>)
    ensures |p| >= 1
    decreases |s|
  {
    var n := Find(s, sep);
    if n == |s| then [s] else [s[..n]] + Split(s[n + 1..], sep)
  }

  function Join(parts: seq<Bytes>, sep: Byte): Bytes {
    if parts == [] then []
    else if |parts| == 1 then parts[0]
    else parts[0] + [sep] + Join(parts[1..], sep)
  }

  predicate Free(s: Bytes, b: Byte) { forall i :: 0 <= i < |s| ==> s[i] != b }

  predicate AllFree(parts: seq<Bytes>, b: Byte) { forall i :: 0 <= i < |parts| ==> Free(parts[i], b) }

  lemma FindInPrefix(x: Bytes, b: Byte, y: Bytes)
    requires Free(x, b)
    ensures Find(x, b) == |x| && Find(x + [b] + y, b) == |x|
  {
    var s := x + [b] + y;
    assert s[|x|] == b;
    assert forall i :: 0 <= i < |x| ==> s[i] == x[i];
  }

  /** Splitting at the first separator. */
  lemma SplitOfCons(x: Bytes, rest: Bytes, sep: Byte)
    requires Free(x, sep)
    ensures Split(x, sep) == [x] && Split(x + [sep] + rest, sep) == [x] + Split(rest, sep)
  {
    FindInPrefix(x, sep, rest);
    var whole := x + [sep] + rest;
    assert whole[..|x|] == x && whole[|x| + 1..] == rest;
  }

  /** Fields without the separator survive joining and splitting. */
  lemma {:induction false} SplitOfJoin(parts: seq<Bytes>, sep: Byte)
    requires parts != [] && AllFree(parts, sep)
    ensures Split(Join(parts, sep), sep) == parts
    decreases |parts|
  {
    if |parts| == 1 {
      SplitOfCons(parts[0], [], sep);
      assert parts == [parts[0]];
    } else {
      SplitOfJoin(parts[1..], sep);
      SplitOfCons(parts[0], Join(parts[1..], sep), sep);
      assert parts == [parts[0]] + parts[1..];
    }
  }

  /** Every text is the join of its fields. */
  lemma {:induction false} JoinOfSplit(s: Bytes, sep: Byte)
    ensures Join(Split(s, sep), sep) == s
    decreases |s|
  {
    var n := Find(s, sep);
    if n < |s| {
      JoinOfSplit(s[n + 1..], sep);
      var tail := Split(s[n + 1..], sep);
      assert Split(s, sep)[1..] == tail;
      assert s == s[..n] + [sep] + s[n + 1..];
    }
  }

  lemma {:induction false} SplitIsFree(s: Bytes, sep: Byte)
    ensures AllFree(Split(s, sep), sep)
    ensures forall b :: Free(s, b) ==> AllFree(Split(s, sep), b)
    decreases |s|
  {
    var n := Find(s, sep);
    if n < |s| {
      SplitIsFree(s[n + 1..], sep);
      assert forall b :: Free(s, b) ==> Free(s[n + 1..], b) && Free(s[..n], b);
    }
  }

  lemma {:induction false} JoinIsFree(parts: seq<Bytes>, sep: Byte, b: Byte)
    requires b != sep && AllFree(parts, b)
    ensures Free(Join(parts, sep), b)
    decreases |parts|
  {
    if |parts| > 1 {
      JoinIsFree(parts[1..], sep, b);
    }
  }

  /** Shorter fields make a shorter text. */
  lemma {:induction false} JoinIsMonotone(xs: seq<Bytes>, ys: seq<Bytes>, sep: Byte)
    requires |xs| == |ys| && forall i :: 0 <= i < |xs| ==> |xs[i]| <= |ys[i]|
    ensures |Join(xs, sep)| <= |Join(ys, sep)|
    decreases |xs|
  {
    if |xs| > 1 {
      JoinIsMonotone(xs[1..], ys[1..], sep);
    }
  }
}
