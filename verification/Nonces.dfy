/** Verifying signed connector requests against a window of remembered nonces. */
module Nonces {
  import opened Separated
  import opened Wire
  import Query

  const MAX_SKEW_SECS: int := 30
  const NEWLINE: Byte := 10
  const OCTET_STREAM: Bytes :=    // "application/octet-stream"
    [97, 112, 112, 108, 105, 99, 97, 116, 105, 111, 110, 47,
     111, 99, 116, 101, 116, 45, 115, 116, 114, 101, 97, 109]

  /** Hex HMAC-SHA256 of a text under a key, and hex SHA-256 of a body. */
  const Hmac: (Bytes, Bytes) -> Bytes
  const BodyHash: Bytes -> Bytes

  datatype Request = Request(
    verb: Bytes, path: Bytes, query: Bytes, timestamp: int, nonce: Bytes, contentType: Bytes, body: Bytes)

  datatype Verdict =
    Accepted | MediaType | InvalidPath | AmbiguousQuery | InvalidNonce | TimestampSkew | NonceReplay | InvalidKey
    | SignatureMismatch

  function Upper(s: Bytes): Bytes { seq(|s|, i requires 0 <= i < |s| => if 97 <= s[i] <= 122 then s[i] - 32 else s[i]) }

  function Lower(s: Bytes): Bytes { seq(|s|, i requires 0 <= i < |s| => if 65 <= s[i] <= 90 then s[i] + 32 else s[i]) }

  predicate HasPair(s: Bytes, b: Byte) { exists i :: 0 <= i < |s| - 1 && s[i] == b && s[i + 1] == b }

  /** Starts with a slash and holds no "..", "//", '?' or '#'. */
  predicate PathIsLegal(p: Bytes) {
    p != [] && p[0] == 47 && !HasPair(p, 46) && !HasPair(p, 47) && Free(p, 63) && Free(p, 35)
  }

  predicate NonceIsValid(n: Bytes) {
    && 8 <= |n| <= 128
    && forall i :: 0 <= i < |n| ==> 65 <= n[i] <= 90 || 97 <= n[i] <= 122 || 48 <= n[i] <= 57 || n[i] == 95 || n[i] == 45
  }

  /** `canonical_string` once the request has passed its checks. */
  function Canonical(r: Request): Bytes
    requires Query.Normalize(r.query).Some?
  {
    Join(Parts(r), NEWLINE)
  }

  /** The signed text does not depend on the order of the query's parts. */
  lemma CanonicalIgnoresQueryOrder(r: Request, query: Bytes)
    requires Query.Normalize(r.query).Some? && Query.Normalize(query).Some?
    requires Query.ToMap(Query.Pairs(r.query)) == Query.ToMap(Query.Pairs(query))
    ensures Canonical(r) == Canonical(r.(query := query))
  {
    Query.NormalFormIsCanonical(r.query, query);
  }

  function Parts(r: Request): seq<Bytes>
    requires Query.Normalize(r.query).Some?
  {
    [Upper(r.verb), r.path, Query.Normalize(r.query).value, SignedDecimal(r.timestamp), r.nonce, r.contentType,
     BodyHash(r.body)]
  }

  /** No field brings a line end of its own into the signed text. */
  predicate OneLineEach(r: Request) {
    && Free(r.verb, NEWLINE) && Free(r.path, NEWLINE) && Free(r.query, NEWLINE) && Free(r.nonce, NEWLINE)
    && Free(r.contentType, NEWLINE) && Free(BodyHash(r.body), NEWLINE)
  }

  lemma PartsAreOneLine(r: Request)
    requires Query.Normalize(r.query).Some? && OneLineEach(r)
    ensures AllFree(Parts(r), NEWLINE)
  {
    Query.NormalFormIsFree(r.query, NEWLINE);
    UpperIsFree(r.verb);
    NumeralIsFree(r.timestamp);
  }

  lemma UpperIsFree(s: Bytes)
    requires Free(s, NEWLINE)
    ensures Free(Upper(s), NEWLINE)
  {
  }

  lemma NumeralIsFree(n: int)
    ensures Free(SignedDecimal(n), NEWLINE)
  {
  }

  /** Among requests whose fields are single lines the signed text determines everything it is meant to
      cover: the verb up to case, the path, the query as a map, the timestamp, the nonce, the media type
      and the body's hash. */
  lemma SignedTextDeterminesRequest(r: Request, q: Request)
    requires Query.Normalize(r.query).Some? && Query.Normalize(q.query).Some? && OneLineEach(r) && OneLineEach(q)
    ensures Canonical(r) == Canonical(q) <==>
      && Upper(r.verb) == Upper(q.verb) && r.path == q.path
      && Query.ToMap(Query.Pairs(r.query)) == Query.ToMap(Query.Pairs(q.query))
      && r.timestamp == q.timestamp && r.nonce == q.nonce && r.contentType == q.contentType
      && BodyHash(r.body) == BodyHash(q.body)
  {
    Query.NormalFormIsCanonical(r.query, q.query);
    if Canonical(r) == Canonical(q) {
      PartsAreOneLine(r);
      PartsAreOneLine(q);
      SplitOfJoin(Parts(r), NEWLINE);
      SplitOfJoin(Parts(q), NEWLINE);
      SameParts(r, q);
    }
  }

  lemma SameParts(r: Request, q: Request)
    requires Query.Normalize(r.query).Some? && Query.Normalize(q.query).Some? && Parts(r) == Parts(q)
    ensures Upper(r.verb) == Upper(q.verb) && r.path == q.path && Query.Normalize(r.query) == Query.Normalize(q.query)
    ensures r.timestamp == q.timestamp && r.nonce == q.nonce && r.contentType == q.contentType
    ensures BodyHash(r.body) == BodyHash(q.body)
  {
    var a, b := Parts(r), Parts(q);
    assert a[0] == b[0] && a[1] == b[1] && a[2] == b[2] && a[3] == b[3] && a[4] == b[4] && a[5] == b[5] && a[6] == b[6];
    SignedDecimalInjective(r.timestamp, q.timestamp);
  }

  predicate WithinSkew(timestamp: int, now: int) { -MAX_SKEW_SECS <= timestamp - now <= MAX_SKEW_SECS }

  /** `verify`, as a verdict on the nonces remembered so far. */
  function Verify(seen: map<Bytes, int>, key: Bytes, r: Request, provided: Bytes, now: int): Verdict {
    if r.contentType != OCTET_STREAM then MediaType
    else if !PathIsLegal(r.path) then InvalidPath
    else if Query.Normalize(r.query).None? then AmbiguousQuery
    else if !NonceIsValid(r.nonce) then InvalidNonce
    else if !WithinSkew(r.timestamp, now) then TimestampSkew
    else if r.nonce in seen then NonceReplay
    else if key == [] then InvalidKey
    else if Lower(provided) != Hmac(key, Canonical(r)) then SignatureMismatch
    else Accepted
  }

  // ---------------------------------------------------------------- what is accepted

  predicate At(s: Bytes, t: Bytes, i: int) { 0 <= i <= |s| - |t| && s[i..i + |t|] == t }

  ghost predicate Contains(s: Bytes, t: Bytes) { exists i :: At(s, t, i) }

  lemma PairMeaning(s: Bytes, b: Byte)
    ensures HasPair(s, b) <==> Contains(s, [b, b])
  {
    if HasPair(s, b) {
      var i :| 0 <= i < |s| - 1 && s[i] == b && s[i + 1] == b;
      assert At(s, [b, b], i);
    }
    if Contains(s, [b, b]) {
      var i :| At(s, [b, b], i);
      assert s[i] == s[i..i + 2][0] && s[i + 1] == s[i..i + 2][1];
    }
  }

  lemma ByteMeaning(s: Bytes, b: Byte)
    ensures Free(s, b) <==> !Contains(s, [b])
  {
    forall i | 0 <= i < |s| ensures At(s, [b], i) <==> s[i] == b {
      assert s[i..i + 1] == [s[i]];
    }
  }

  /** A path inside the connector: it starts with a slash, without "..", "//", "?" and "#". */
  ghost predicate GoodPath(p: Bytes) {
    && p != [] && p[0] == '/' as int
    && !Contains(p, Ascii("..")) && !Contains(p, Ascii("//")) && !Contains(p, Ascii("?")) && !Contains(p, Ascii("#"))
  }

  lemma PathMeaning(p: Bytes)
    ensures PathIsLegal(p) <==> GoodPath(p)
  {
    PairMeaning(p, 46);
    PairMeaning(p, 47);
    ByteMeaning(p, 63);
    ByteMeaning(p, 35);
    assert Ascii("..") == [46, 46] && Ascii("//") == [47, 47] && Ascii("?") == [63] && Ascii("#") == [35];
  }

  predicate GoodNonce(n: Bytes) {
    8 <= |n| <= 128 && forall i :: 0 <= i < |n| ==>
      || 'A' as int <= n[i] <= 'Z' as int || 'a' as int <= n[i] <= 'z' as int || '0' as int <= n[i] <= '9' as int
      || n[i] == '_' as int || n[i] == '-' as int
  }

  /** The digest in small letters, given in letters of either case. */
  predicate SameDigest(given: Bytes, digest: Bytes) {
    && |given| == |digest|
    && forall i :: 0 <= i < |digest| ==>
         && !(65 <= digest[i] <= 90)
         && (given[i] == digest[i] || (97 <= digest[i] <= 122 && given[i] == digest[i] - 32))
  }

  lemma DigestMeaning(given: Bytes, digest: Bytes)
    ensures Lower(given) == digest <==> SameDigest(given, digest)
  {
    if SameDigest(given, digest) {
      assert forall i :: 0 <= i < |given| ==> Lower(given)[i] == digest[i];
    }
  }

  /** The signed text, line by line. */
  function SignedText(r: Request): Bytes
    requires Query.Normalize(r.query).Some?
  {
    Upper(r.verb) + [NEWLINE] + (r.path + [NEWLINE] + (Query.Normalize(r.query).value + [NEWLINE] +
      (SignedDecimal(r.timestamp) + [NEWLINE] + (r.nonce + [NEWLINE] + (r.contentType + [NEWLINE] + BodyHash(r.body))))))
  }

  lemma CanonicalMeaning(r: Request)
    requires Query.Normalize(r.query).Some?
    ensures Canonical(r) == SignedText(r)
  {
    var p := Parts(r);
    JoinTail(p, 5);
    JoinTail(p, 4);
    JoinTail(p, 3);
    JoinTail(p, 2);
    JoinTail(p, 1);
    JoinTail(p, 0);
    assert p[6..] == [p[6]] && p[0..] == p;
  }

  lemma JoinTail(p: seq<Bytes>, i: nat)
    requires i + 1 < |p|
    ensures Join(p[i..], NEWLINE) == p[i] + [NEWLINE] + Join(p[i + 1..], NEWLINE)
  {
    assert p[i..][1..] == p[i + 1..];
  }

  lemma MediaTypeIsSpelled()
    ensures OCTET_STREAM == Ascii("application/octet-stream")
  {
  }

  /** A request is accepted exactly when its media type is right, its path is good, its query is unambiguous, its
      nonce is good and new, its time is within thirty seconds, and a key signs its text as given. */
  lemma AcceptedExactly(seen: map<Bytes, int>, key: Bytes, r: Request, provided: Bytes, now: int)
    ensures Verify(seen, key, r, provided, now).Accepted? <==>
      && r.contentType == Ascii("application/octet-stream")
      && GoodPath(r.path)
      && Query.Accepted(r.query)
      && GoodNonce(r.nonce) && r.nonce !in seen
      && r.timestamp <= now + 30 && now <= r.timestamp + 30
      && key != [] && SameDigest(provided, Hmac(key, SignedText(r)))
  {
    MediaTypeIsSpelled();
    PathMeaning(r.path);
    if Query.Accepted(r.query) {
      CanonicalMeaning(r);
      DigestMeaning(provided, Hmac(key, SignedText(r)));
    }
  }

  datatype Event =
    | Check(key: Bytes, request: Request, provided: Bytes, now: int)
    | Prune(minimum: int, now: int)

  function Pruned(seen: map<Bytes, int>, minimum: int): map<Bytes, int> {
    map n | n in seen && seen[n] >= minimum :: seen[n]
  }

  function After(seen: map<Bytes, int>, e: Event): map<Bytes, int> {
    match e
    case Check(key, r, provided, now) =>
      if Verify(seen, key, r, provided, now).Accepted? then seen[r.nonce := r.timestamp] else seen
    case Prune(minimum, _) => Pruned(seen, minimum)
  }

  class NonceSet {
    var inner: map<Bytes, int>

    constructor ()
      ensures inner == map[]
    {
      inner := map[];
    }

    method InsertIfNew(nonce: Bytes, timestamp: int) returns (ok: bool)
      modifies this
      ensures ok == (nonce !in old(inner))
      ensures inner == if ok then old(inner)[nonce := timestamp] else old(inner)
    {
      ok := nonce !in inner;
      if ok {
        inner := inner[nonce := timestamp];
      }
    }

    method PruneOlderThan(minimum: int)
      modifies this
      ensures inner == Pruned(old(inner), minimum)
    {
      var left, todo := inner, inner.Keys;
      while todo != {}
        invariant todo <= left.Keys <= inner.Keys && inner == old(inner)
        invariant forall n :: n in left ==> left[n] == inner[n]
        invariant forall n :: n in inner && n !in todo ==> (n in left <==> inner[n] >= minimum)
        decreases |todo|
      {
        var n :| n in todo;
        todo := todo - {n};
        if left[n] < minimum {
          left := left - {n};
        }
      }
      inner := left;
    }

    /** `verify` */
    method CheckRequest(key: Bytes, r: Request, provided: Bytes, now: int) returns (v: Verdict)
      modifies this
      ensures v == Verify(old(inner), key, r, provided, now)
      ensures inner == After(old(inner), Check(key, r, provided, now))
    {
      if r.contentType != OCTET_STREAM {
        return MediaType;
      }
      if !PathIsLegal(r.path) {
        return InvalidPath;
      }
      var query := Query.NormalizeQuery(r.query);
      if query.None? {
        return AmbiguousQuery;
      }
      if !NonceIsValid(r.nonce) {
        return InvalidNonce;
      }
      if r.timestamp - now > MAX_SKEW_SECS || now - r.timestamp > MAX_SKEW_SECS {
        return TimestampSkew;
      }
      if r.nonce in inner {
        return NonceReplay;
      }
      if key == [] {
        return InvalidKey;
      }
      var expected := Hmac(key, Canonical(r));
      if Lower(provided) != expected {
        return SignatureMismatch;
      }
      var ok := InsertIfNew(r.nonce, r.timestamp);
      v := if ok then Accepted else NonceReplay;
    }
  }

  // ---------------------------------------------------------------- whole runs

  /** A history with a monotone clock that forgets only what the skew window already refuses. */
  ghost predicate History(states: seq<map<Bytes, int>>, events: seq<Event>) {
    && |states| == |events| + 1
    && states[0] == map[]
    && (forall i :: 0 <= i < |events| ==> states[i + 1] == After(states[i], events[i]))
    && (forall i, j :: 0 <= i <= j < |events| ==> events[i].now <= events[j].now)
    && (forall i :: 0 <= i < |events| && events[i].Prune? ==> events[i].minimum <= events[i].now - MAX_SKEW_SECS)
  }

  ghost predicate AcceptedAt(states: seq<map<Bytes, int>>, events: seq<Event>, i: nat) {
    && i < |events| && i < |states| && events[i].Check?
    && Verify(states[i], events[i].key, events[i].request, events[i].provided, events[i].now).Accepted?
  }

  /** After its acceptance a nonce is remembered until its timestamp has left the window for good. */
  lemma {:induction false} RememberedOrExpired(states: seq<map<Bytes, int>>, events: seq<Event>, i: nat, j: nat)
    requires History(states, events) && AcceptedAt(states, events, i) && i < j <= |events|
    ensures var r := events[i].request;
      (r.nonce in states[j] && states[j][r.nonce] == r.timestamp) || r.timestamp < events[j - 1].now - MAX_SKEW_SECS
    decreases j
  {
    if j > i + 1 {
      RememberedOrExpired(states, events, i, j - 1);
      assert events[j - 2].now <= events[j - 1].now;
      assert states[j] == After(states[j - 1], events[j - 1]);
    }
  }

  /** No request is accepted twice, whichever key or signature accompanies it the second time, even
      after its nonce has been pruned and used again by others. */
  lemma NeverAcceptedTwice(states: seq<map<Bytes, int>>, events: seq<Event>, i: nat, j: nat)
    requires History(states, events) && i < j
    requires AcceptedAt(states, events, i) && AcceptedAt(states, events, j)
    ensures events[i].request.nonce != events[j].request.nonce ||
            events[i].request.timestamp != events[j].request.timestamp
    ensures events[i].request != events[j].request
  {
    RememberedOrExpired(states, events, i, j);
    assert events[j - 1].now <= events[j].now;
  }
}
