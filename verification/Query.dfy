/** The query canonicalisation that signed connector requests use. */
module Query {
  import opened Separated
  import opened Wire

  const AMPERSAND: Byte := 38
  const EQUALS: Byte := 61
  const HASH: Byte := 35
  const SPACE: Byte := 32

  lemma SeparatorsAreSpelled()
    ensures [AMPERSAND] == Ascii("&") && [EQUALS] == Ascii("=") && [HASH] == Ascii("#") && [SPACE] == Ascii(" ")
  {
  }

  datatype Pair = Pair(key: Bytes, value: Bytes)

  // ---------------------------------------------------------------- pairs

  /** `split_once('=')`, with an empty value when there is no sign. */
  function PairOf(part: Bytes): Pair {
    var n := Find(part, EQUALS);
    if n == |part| then Pair(part, []) else Pair(part[..n], part[n + 1..])
  }

  function Render(p: Pair): Bytes { p.key + [EQUALS] + p.value }

  function RenderAll(ps: seq<Pair>): (r: seq<Bytes>)
    ensures |r| == |ps| && forall i :: 0 <= i < |ps| ==> r[i] == Render(ps[i])
  {
    if ps == [] then [] else [Render(ps[0])] + RenderAll(ps[1..])
  }

  function PairsOf(parts: seq<Bytes>): (ps: seq<Pair>)
    ensures |ps| == |parts| && forall i :: 0 <= i < |parts| ==> ps[i] == PairOf(parts[i])
  {
    if parts == [] then [] else [PairOf(parts[0])] + PairsOf(parts[1..])
  }

  /** Bytes a query may contain inside a part. */
  predicate Legal(s: Bytes) { Free(s, AMPERSAND) && Free(s, HASH) && Free(s, SPACE) }

  predicate Proper(p: Pair) { p.key != [] && Free(p.key, EQUALS) && Legal(p.key) && Legal(p.value) }

  predicate DistinctKeys(ps: seq<Pair>) {
    forall i, j :: 0 <= i < j < |ps| ==> ps[i].key != ps[j].key
  }

  lemma RenderedPair(p: Pair)
    requires Proper(p)
    ensures PairOf(Render(p)) == p && Legal(Render(p)) && Render(p) != []
  {
    FindInPrefix(p.key, EQUALS, p.value);
    assert Render(p)[..|p.key|] == p.key && Render(p)[|p.key| + 1..] == p.value;
  }

  lemma PairOfIsProper(part: Bytes)
    requires Legal(part) && PairOf(part).key != []
    ensures Proper(PairOf(part))
  {
  }

  // ---------------------------------------------------------------- byte order and sorting

  predicate Less(a: Bytes, b: Bytes) {
    b != [] && (a == [] || a[0] < b[0] || (a[0] == b[0] && Less(a[1..], b[1..])))
  }

  lemma {:induction false} LessTrichotomy(a: Bytes, b: Bytes)
    ensures Less(a, b) || a == b || Less(b, a)
    ensures !(Less(a, b) && Less(b, a)) && !Less(a, a)
  {
    if a != [] && b != [] {
      LessTrichotomy(a[1..], b[1..]);
      assert a == [a[0]] + a[1..] && b == [b[0]] + b[1..];
    }
    if a != [] {
      LessTrichotomy(a[1..], a[1..]);
    }
  }

  lemma {:induction false} LessTransitive(a: Bytes, b: Bytes, c: Bytes)
    requires Less(a, b) && Less(b, c)
    ensures Less(a, c)
  {
    if a != [] && a[0] == b[0] && b[0] == c[0] {
      LessTransitive(a[1..], b[1..], c[1..]);
    }
  }

  /** The texts agree up to `n`, where the first one ends or has the smaller byte. */
  predicate Before(a: Bytes, b: Bytes, n: int) {
    0 <= n <= |a| && n < |b| && a[..n] == b[..n] && (n == |a| || a[n] < b[n])
  }

  ghost predicate Precedes(a: Bytes, b: Bytes) { exists n :: Before(a, b, n) }

  /** Keys are ordered as byte strings. */
  lemma {:induction false} LessMeaning(a: Bytes, b: Bytes)
    ensures Less(a, b) <==> Precedes(a, b)
  {
    if a == [] && b != [] {
      assert Before(a, b, 0);
    } else if a != [] && b != [] {
      LessMeaning(a[1..], b[1..]);
      if a[0] < b[0] {
        assert Before(a, b, 0);
      } else if a[0] == b[0] {
        BeforeLater(a, b);
      } else {
        forall n ensures !Before(a, b, n) {
          if 0 < n <= |a| && n < |b| {
            assert a[..n][0] == a[0] && b[..n][0] == b[0];
          }
        }
      }
    }
  }

  lemma BeforeLater(a: Bytes, b: Bytes)
    requires a != [] && b != [] && a[0] == b[0]
    ensures Precedes(a, b) <==> Precedes(a[1..], b[1..])
  {
    if n :| Before(a, b, n) {
      assert a[1..][..n - 1] == a[..n][1..] && b[1..][..n - 1] == b[..n][1..];
      assert Before(a[1..], b[1..], n - 1);
    }
    if n :| Before(a[1..], b[1..], n) {
      assert a[..n + 1] == [a[0]] + a[1..][..n] && b[..n + 1] == [b[0]] + b[1..][..n];
      assert Before(a, b, n + 1);
    }
  }

  predicate Sorted(ps: seq<Pair>) {
    |ps| <= 1 || (Less(ps[0].key, ps[1].key) && Sorted(ps[1..]))
  }

  function Insert(p: Pair, ps: seq<Pair>): seq<Pair> {
    if ps == [] then [p]
    else if Less(p.key, ps[0].key) then [p] + ps
    else [ps[0]] + Insert(p, ps[1..])
  }

  function Sort(ps: seq<Pair>): seq<Pair> {
    if ps == [] then [] else Insert(ps[0], Sort(ps[1..]))
  }

  /** The key-to-value map a list of pairs denotes. */
  function ToMap(ps: seq<Pair>): map<Bytes, Bytes> {
    if ps == [] then map[] else ToMap(ps[1..])[ps[0].key := ps[0].value]
  }

  lemma {:induction false} MapKeys(ps: seq<Pair>, k: Bytes)
    ensures k in ToMap(ps) <==> exists i :: 0 <= i < |ps| && ps[i].key == k
  {
    if ps != [] {
      MapKeys(ps[1..], k);
      assert forall i :: 1 <= i < |ps| ==> ps[i] == ps[1..][i - 1];
      assert forall i :: 0 <= i < |ps| - 1 ==> ps[1..][i] == ps[i + 1];
    }
  }

  lemma {:induction false} SortedAbove(ps: seq<Pair>, i: nat)
    requires Sorted(ps) && 0 < i < |ps|
    ensures Less(ps[0].key, ps[i].key)
    decreases i
  {
    if i > 1 {
      SortedAbove(ps[1..], i - 1);
      LessTransitive(ps[0].key, ps[1].key, ps[i].key);
    }
  }

  lemma SortedHeadIsFresh(ps: seq<Pair>)
    requires Sorted(ps) && ps != []
    ensures ps[0].key !in ToMap(ps[1..])
  {
    MapKeys(ps[1..], ps[0].key);
    if ps[0].key in ToMap(ps[1..]) {
      var i :| 0 <= i < |ps[1..]| && ps[1..][i].key == ps[0].key;
      SortedAbove(ps, i + 1);
      LessTrichotomy(ps[0].key, ps[0].key);
    }
  }

  /** A sorted list is determined by the map it denotes. */
  lemma {:induction false} SortedIsUnique(xs: seq<Pair>, ys: seq<Pair>)
    requires Sorted(xs) && Sorted(ys) && ToMap(xs) == ToMap(ys)
    ensures xs == ys
    decreases |xs|
  {
    assert xs != [] ==> xs[0].key in ToMap(xs);
    assert ys != [] ==> ys[0].key in ToMap(ys);
    if xs != [] {
      HeadsAgree(xs, ys);
      SortedHeadIsFresh(xs);
      SortedHeadIsFresh(ys);
      assert ToMap(xs[1..]) == ToMap(xs) - {xs[0].key};
      assert ToMap(ys[1..]) == ToMap(ys) - {ys[0].key};
      SortedIsUnique(xs[1..], ys[1..]);
      assert ToMap(xs)[xs[0].key] == xs[0].value && ToMap(ys)[ys[0].key] == ys[0].value;
      assert xs == [xs[0]] + xs[1..] && ys == [ys[0]] + ys[1..];
    }
  }

  lemma HeadsAgree(xs: seq<Pair>, ys: seq<Pair>)
    requires Sorted(xs) && Sorted(ys) && ToMap(xs) == ToMap(ys) && xs != [] && ys != []
    ensures xs[0].key == ys[0].key
  {
    assert xs[0].key in ToMap(xs) && ys[0].key in ToMap(ys);
    MapKeys(ys, xs[0].key);
    MapKeys(xs, ys[0].key);
    var i :| 0 <= i < |ys| && ys[i].key == xs[0].key;
    var j :| 0 <= j < |xs| && xs[j].key == ys[0].key;
    if i > 0 && j > 0 {
      SortedAbove(ys, i);
      SortedAbove(xs, j);
      LessTrichotomy(xs[0].key, ys[0].key);
    }
  }

  lemma {:induction false} InsertSorted(p: Pair, ps: seq<Pair>)
    requires Sorted(ps) && p.key !in ToMap(ps)
    ensures Sorted(Insert(p, ps))
    ensures Insert(p, ps)[0] == p || (ps != [] && Insert(p, ps)[0] == ps[0])
    decreases |ps|
  {
    if ps != [] {
      if Less(p.key, ps[0].key) {
        assert ([p] + ps)[1..] == ps;
      } else {
        LessTrichotomy(p.key, ps[0].key);
        InsertSorted(p, ps[1..]);
        assert Insert(p, ps)[1..] == Insert(p, ps[1..]);
      }
    }
  }

  lemma {:induction false} InsertMap(p: Pair, ps: seq<Pair>)
    requires p.key !in ToMap(ps)
    ensures ToMap(Insert(p, ps)) == ToMap(ps)[p.key := p.value]
    decreases |ps|
  {
    if ps != [] {
      if Less(p.key, ps[0].key) {
        assert ([p] + ps)[1..] == ps;
      } else {
        InsertMap(p, ps[1..]);
        assert Insert(p, ps)[1..] == Insert(p, ps[1..]);
      }
    } else {
      assert [p][1..] == [];
    }
  }

  lemma {:induction false} InsertPermutes(p: Pair, ps: seq<Pair>)
    ensures multiset(Insert(p, ps)) == multiset(ps) + multiset{p}
    decreases |ps|
  {
    if ps != [] {
      InsertPermutes(p, ps[1..]);
      assert ps == [ps[0]] + ps[1..];
    }
  }

  lemma {:induction false} SortWorks(ps: seq<Pair>)
    requires DistinctKeys(ps)
    ensures Sorted(Sort(ps)) && ToMap(Sort(ps)) == ToMap(ps) && multiset(Sort(ps)) == multiset(ps)
  {
    if ps != [] {
      assert forall i :: 0 <= i < |ps| - 1 ==> ps[1..][i] == ps[i + 1];
      SortWorks(ps[1..]);
      MapKeys(ps[1..], ps[0].key);
      InsertSorted(ps[0], Sort(ps[1..]));
      InsertMap(ps[0], Sort(ps[1..]));
      InsertPermutes(ps[0], Sort(ps[1..]));
      assert ps == [ps[0]] + ps[1..];
    }
  }

  // ---------------------------------------------------------------- the normal form

  function Pairs(q: Bytes): seq<Pair> { if q == [] then [] else PairsOf(Split(q, AMPERSAND)) }

  predicate Accepted(q: Bytes) {
    && Free(q, HASH) && Free(q, SPACE)
    && (forall i :: 0 <= i < |Pairs(q)| ==> Pairs(q)[i].key != [])
    && DistinctKeys(Pairs(q))
  }

  function Normal(ps: seq<Pair>): Bytes { Join(RenderAll(Sort(ps)), AMPERSAND) }

  /** `normalize_query`; None is the ambiguous-query error. */
  function Normalize(q: Bytes): Option<Bytes> {
    if Accepted(q) then Some(Normal(Pairs(q))) else None
  }

  predicate AllProper(ps: seq<Pair>) { forall i :: 0 <= i < |ps| ==> Proper(ps[i]) }

  lemma PairsAreProper(q: Bytes)
    requires Accepted(q)
    ensures AllProper(Pairs(q))
  {
    if q != [] {
      SplitIsFree(q, AMPERSAND);
      forall i | 0 <= i < |Pairs(q)|
        ensures Proper(Pairs(q)[i])
      {
        PairOfIsProper(Split(q, AMPERSAND)[i]);
      }
    }
  }

  lemma {:induction false} SortedIsDistinct(ps: seq<Pair>)
    requires Sorted(ps)
    ensures DistinctKeys(ps)
  {
    forall i, j | 0 <= i < j < |ps|
      ensures ps[i].key != ps[j].key
    {
      SortedSuffix(ps, i);
      SortedAbove(ps[i..], j - i);
      LessTrichotomy(ps[i].key, ps[i].key);
    }
  }

  lemma {:induction false} SortedSuffix(ps: seq<Pair>, i: nat)
    requires Sorted(ps) && i <= |ps|
    ensures Sorted(ps[i..])
    decreases i
  {
    if i == 0 {
      assert ps[i..] == ps;
    } else if |ps| > 1 {
      SortedSuffix(ps[1..], i - 1);
      assert ps[1..][i - 1..] == ps[i..];
    }
  }

  /** Parsing a rendered list gives the list back. */
  lemma ReadsBack(ps: seq<Pair>)
    requires AllProper(ps) && DistinctKeys(ps)
    ensures var n := Join(RenderAll(ps), AMPERSAND); Accepted(n) && Pairs(n) == ps
  {
    if ps != [] {
      var parts := RenderAll(ps);
      forall i | 0 <= i < |ps|
        ensures PairOf(parts[i]) == ps[i] && Legal(parts[i]) && parts[i] != []
      {
        RenderedPair(ps[i]);
      }
      SplitOfJoin(parts, AMPERSAND);
      JoinIsFree(parts, AMPERSAND, HASH);
      JoinIsFree(parts, AMPERSAND, SPACE);
      assert parts[0] != [];
      assert PairsOf(parts) == ps;
    }
  }

  lemma SortKeepsProper(ps: seq<Pair>)
    requires AllProper(ps) && DistinctKeys(ps)
    ensures AllProper(Sort(ps))
  {
    SortWorks(ps);
    forall i | 0 <= i < |Sort(ps)|
      ensures Proper(Sort(ps)[i])
    {
      assert Sort(ps)[i] in multiset(ps);
    }
  }

  /** A normal form is an accepted query for the same map, already in sorted order. */
  lemma NormalFormReadsBack(q: Bytes)
    requires Accepted(q)
    ensures var n := Normal(Pairs(q));
      Accepted(n) && Pairs(n) == Sort(Pairs(q)) && ToMap(Pairs(n)) == ToMap(Pairs(q))
  {
    PairsAreProper(q);
    SortWorks(Pairs(q));
    SortKeepsProper(Pairs(q));
    SortedIsDistinct(Sort(Pairs(q)));
    ReadsBack(Sort(Pairs(q)));
  }

  /** A normal form is `key=value` for each pair of the query, joined by ampersands, keys rising. */
  lemma NormalFormMeaning(q: Bytes) returns (ps: seq<Pair>)
    requires Accepted(q)
    ensures Normalize(q) == Some(Join(RenderAll(ps), AMPERSAND)) && multiset(ps) == multiset(Pairs(q))
    ensures forall i, j :: 0 <= i < j < |ps| ==> Precedes(ps[i].key, ps[j].key)
  {
    ps := Sort(Pairs(q));
    SortWorks(Pairs(q));
    forall i, j | 0 <= i < j < |ps| ensures Precedes(ps[i].key, ps[j].key) {
      Rising(ps, i, j);
    }
  }

  lemma Rising(ps: seq<Pair>, i: nat, j: nat)
    requires Sorted(ps) && i < j < |ps|
    ensures Precedes(ps[i].key, ps[j].key)
  {
    SortedSuffix(ps, i);
    var tail := ps[i..];
    assert tail[0] == ps[i] && tail[j - i] == ps[j];
    SortedAbove(tail, j - i);
    LessMeaning(ps[i].key, ps[j].key);
  }

  /** A part as a client writes it: a key and a value, or a key alone. */
  datatype Part = Assign(key: Bytes, value: Bytes) | KeyOnly(key: Bytes)

  function Written(p: Part): Bytes { if p.Assign? then p.key + [EQUALS] + p.value else p.key }

  function Meant(p: Part): Pair { Pair(p.key, if p.Assign? then p.value else []) }

  function Texts(parts: seq<Part>): (r: seq<Bytes>)
    ensures |r| == |parts| && forall i :: 0 <= i < |parts| ==> r[i] == Written(parts[i])
  {
    seq(|parts|, i requires 0 <= i < |parts| => Written(parts[i]))
  }

  predicate Writes(parts: seq<Part>, q: Bytes) {
    && (forall i :: 0 <= i < |parts| ==> Proper(Meant(parts[i])))
    && (forall i, j :: 0 <= i < j < |parts| ==> parts[i].key != parts[j].key)
    && q == Join(Texts(parts), AMPERSAND)
  }

  lemma WrittenPart(p: Part)
    requires Proper(Meant(p))
    ensures PairOf(Written(p)) == Meant(p) && Legal(Written(p)) && Written(p) != []
  {
    if p.Assign? {
      RenderedPair(Meant(p));
    } else {
      FindInPrefix(p.key, EQUALS, []);
    }
  }

  function PartOf(s: Bytes): Part {
    var n := Find(s, EQUALS);
    if n == |s| then KeyOnly(s) else Assign(s[..n], s[n + 1..])
  }

  function PartsOf(texts: seq<Bytes>): (r: seq<Part>)
    ensures |r| == |texts| && forall i :: 0 <= i < |texts| ==> r[i] == PartOf(texts[i])
  {
    seq(|texts|, i requires 0 <= i < |texts| => PartOf(texts[i]))
  }

  lemma PartIsWritten(s: Bytes)
    ensures Written(PartOf(s)) == s && Meant(PartOf(s)) == PairOf(s)
  {
    var n := Find(s, EQUALS);
    if n < |s| {
      assert s == s[..n] + [EQUALS] + s[n + 1..];
    }
  }

  /** A query written as parts with keys, no key twice and no ampersand, hash or space inside is accepted and means
      those keys and values. */
  lemma WrittenIsAccepted(parts: seq<Part>, q: Bytes)
    requires Writes(parts, q)
    ensures Accepted(q) && |Pairs(q)| == |parts| && forall i :: 0 <= i < |parts| ==> Pairs(q)[i] == Meant(parts[i])
  {
    if parts != [] {
      var texts := Texts(parts);
      forall i | 0 <= i < |parts| ensures PairOf(texts[i]) == Meant(parts[i]) && Legal(texts[i]) && texts[i] != [] {
        WrittenPart(parts[i]);
      }
      SplitOfJoin(texts, AMPERSAND);
      JoinIsFree(texts, AMPERSAND, HASH);
      JoinIsFree(texts, AMPERSAND, SPACE);
      assert texts[0] != [];
      assert PairsOf(texts) == Pairs(q);
    }
  }

  /** Every accepted query is written so. */
  lemma AcceptedIsWritten(q: Bytes) returns (parts: seq<Part>)
    requires Accepted(q)
    ensures Writes(parts, q)
  {
    if q == [] {
      parts := [];
    } else {
      var texts := Split(q, AMPERSAND);
      parts := PartsOf(texts);
      PairsAreProper(q);
      JoinOfSplit(q, AMPERSAND);
      forall i | 0 <= i < |parts| ensures Written(parts[i]) == texts[i] && Meant(parts[i]) == Pairs(q)[i] {
        PartIsWritten(texts[i]);
      }
      assert Texts(parts) == texts;
      forall i, j | 0 <= i < j < |parts| ensures parts[i].key != parts[j].key {
        assert Meant(parts[i]).key == Pairs(q)[i].key && Meant(parts[j]).key == Pairs(q)[j].key;
      }
    }
  }

  /** Normalising twice is normalising once. */
  lemma NormalizeIdempotent(q: Bytes)
    requires Normalize(q).Some?
    ensures Normalize(Normalize(q).value) == Normalize(q)
  {
    NormalFormReadsBack(q);
    var ps := Sort(Pairs(q));
    SortWorks(Pairs(q));
    SortedIsDistinct(ps);
    SortWorks(ps);
    SortedIsUnique(Sort(ps), ps);
  }

  /** Two accepted queries have the same normal form exactly when they denote the same map. */
  lemma NormalFormIsCanonical(q: Bytes, r: Bytes)
    requires Normalize(q).Some? && Normalize(r).Some?
    ensures Normalize(q) == Normalize(r) <==> ToMap(Pairs(q)) == ToMap(Pairs(r))
  {
    NormalFormReadsBack(q);
    NormalFormReadsBack(r);
    SortWorks(Pairs(q));
    SortWorks(Pairs(r));
    if ToMap(Pairs(q)) == ToMap(Pairs(r)) {
      SortedIsUnique(Sort(Pairs(q)), Sort(Pairs(r)));
    }
  }

  predicate PairFree(p: Pair, b: Byte) { Free(p.key, b) && Free(p.value, b) }

  predicate AllPairsFree(ps: seq<Pair>, b: Byte) { forall i :: 0 <= i < |ps| ==> PairFree(ps[i], b) }

  lemma PairOfIsFree(part: Bytes, b: Byte)
    requires Free(part, b)
    ensures PairFree(PairOf(part), b)
  {
  }

  lemma PairsAreFree(q: Bytes, b: Byte)
    requires Free(q, b)
    ensures AllPairsFree(Pairs(q), b)
  {
    if q != [] {
      SplitIsFree(q, AMPERSAND);
      assert AllFree(Split(q, AMPERSAND), b);
      forall i | 0 <= i < |Pairs(q)| ensures PairFree(Pairs(q)[i], b) {
        PairOfIsFree(Split(q, AMPERSAND)[i], b);
      }
    }
  }

  lemma {:induction false} RenderedIsFree(ps: seq<Pair>, b: Byte)
    requires AllPairsFree(ps, b) && b != EQUALS
    ensures AllFree(RenderAll(ps), b)
  {
    forall i | 0 <= i < |ps| ensures Free(Render(ps[i]), b) {
      assert PairFree(ps[i], b);
    }
  }

  lemma SortKeepsFree(ps: seq<Pair>, b: Byte)
    requires AllPairsFree(ps, b) && DistinctKeys(ps)
    ensures AllPairsFree(Sort(ps), b)
  {
    SortWorks(ps);
    forall i | 0 <= i < |Sort(ps)| ensures PairFree(Sort(ps)[i], b) {
      assert Sort(ps)[i] in multiset(ps);
    }
  }

  /** A byte that is no separator and not in a query is not in its normal form either. */
  lemma NormalFormIsFree(q: Bytes, b: Byte)
    requires Accepted(q) && Free(q, b) && b != AMPERSAND && b != EQUALS
    ensures Free(Normal(Pairs(q)), b)
  {
    PairsAreFree(q, b);
    SortKeepsFree(Pairs(q), b);
    RenderedIsFree(Sort(Pairs(q)), b);
    JoinIsFree(RenderAll(Sort(Pairs(q))), AMPERSAND, b);
  }

  // ---------------------------------------------------------------- the loop

  function Keys(ps: seq<Pair>): set<Bytes> {
    if ps == [] then {} else Keys(ps[..|ps| - 1]) + {ps[|ps| - 1].key}
  }

  /** Keys checked one at a time, each against those before it. */
  predicate KeysOk(ps: seq<Pair>) {
    ps == [] ||
    (KeysOk(ps[..|ps| - 1]) && ps[|ps| - 1].key != [] && ps[|ps| - 1].key !in Keys(ps[..|ps| - 1]))
  }

  lemma {:induction false} KeysAre(ps: seq<Pair>, k: Bytes)
    ensures k in Keys(ps) <==> exists i :: 0 <= i < |ps| && ps[i].key == k
  {
    if ps != [] {
      KeysAre(ps[..|ps| - 1], k);
    }
  }

  lemma {:induction false} KeysOkMeans(ps: seq<Pair>)
    ensures KeysOk(ps) <==> (forall i :: 0 <= i < |ps| ==> ps[i].key != []) && DistinctKeys(ps)
  {
    if ps != [] {
      var front, last := ps[..|ps| - 1], ps[|ps| - 1];
      KeysOkMeans(front);
      KeysAre(front, last.key);
      assert forall i :: 0 <= i < |front| ==> front[i] == ps[i];
      if last.key in Keys(front) {
        var j :| 0 <= j < |front| && front[j].key == last.key;
        assert ps[j].key == ps[|ps| - 1].key;
      }
    }
  }

  lemma {:induction false} KeysOkPrefix(before: seq<Pair>, rest: seq<Pair>)
    requires KeysOk(before + rest)
    ensures KeysOk(before)
    decreases |rest|
  {
    if rest == [] {
      assert before + rest == before;
    } else {
      assert (before + rest)[..|before + rest| - 1] == before + rest[..|rest| - 1];
      KeysOkPrefix(before, rest[..|rest| - 1]);
    }
  }

  /** A key that fails its check spoils every longer list. */
  lemma KeyFails(before: seq<Pair>, p: Pair, rest: seq<Pair>)
    requires p.key == [] || p.key in Keys(before)
    ensures !KeysOk(before + [p] + rest)
  {
    assert (before + [p])[..|before|] == before;
    if KeysOk(before + [p] + rest) {
      KeysOkPrefix(before + [p], rest);
    }
  }

  /** Where the loop stands: the list so far, the keys in it, and what is still to come. */
  ghost predicate Collecting(all: seq<Pair>, pairs: seq<Pair>, seen: set<Bytes>, i: nat) {
    i <= |all| && pairs == all[..i] && seen == Keys(pairs) && KeysOk(pairs)
  }

  lemma CollectStep(all: seq<Pair>, pairs: seq<Pair>, seen: set<Bytes>, i: nat)
    requires Collecting(all, pairs, seen, i) && i < |all|
    ensures if all[i].key == [] || all[i].key in seen then !KeysOk(all)
            else Collecting(all, pairs + [all[i]], seen + {all[i].key}, i + 1)
  {
    assert all == pairs + [all[i]] + all[i + 1..];
    assert (pairs + [all[i]])[..i] == pairs;
    if all[i].key == [] || all[i].key in seen {
      KeyFails(pairs, all[i], all[i + 1..]);
    } else {
      assert all[..i + 1] == pairs + [all[i]];
    }
  }

  /** The loop over the parts: a growing list and the keys seen so far. */
  method Collect(parts: seq<Bytes>) returns (r: Option<seq<Pair>>)
    ensures r == if KeysOk(PairsOf(parts)) then Some(PairsOf(parts)) else None
  {
    var pairs: seq<Pair> := [];
    var seen: set<Bytes> := {};
    for i := 0 to |parts|
      invariant Collecting(PairsOf(parts), pairs, seen, i)
    {
      var pair := PairOf(parts[i]);
      CollectStep(PairsOf(parts), pairs, seen, i);
      if parts[i] == [] || pair.key == [] || pair.key in seen {
        return None;
      }
      seen := seen + {pair.key};
      pairs := pairs + [pair];
    }
    assert PairsOf(parts)[..|parts|] == PairsOf(parts);
    r := Some(pairs);
  }

  /** `normalize_query`: fill the list part by part, refusing duplicates, then sort and join. */
  method NormalizeQuery(q: Bytes) returns (r: Option<Bytes>)
    ensures r == Normalize(q)
  {
    if q == [] {
      return Some([]);
    }
    if !Free(q, HASH) || !Free(q, SPACE) {
      return None;
    }
    var pairs := Collect(Split(q, AMPERSAND));
    KeysOkMeans(Pairs(q));
    if pairs.None? {
      return None;
    }
    r := Some(Join(RenderAll(Sort(pairs.value)), AMPERSAND));
  }
}
