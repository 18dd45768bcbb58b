/** The connector client: one authenticated request, how its failures are classified, and when a
    commit or create answer counts as definite. */
module Connector {
  import opened Wire
  import opened Operations

  const MAX_CONNECTOR_BODY_BYTES: nat := 4 * 1024 * 1024
  const MAX_SNAPSHOT_BYTES: nat := 64 * 1024 * 1024
  const MAX_SNAPSHOT_MESSAGES: nat := 1_000_000
  const SHA256_HEX_LENGTH: nat := 64

  datatype Chunk = Data(bytes: Bytes) | Broken

  /** What the network did with one request that was sent. */
  datatype Exchange = SendFailed | Response(status: nat, declared: Option<nat>, chunks: seq<Chunk>)

  /** The first step that can stop a request before it is sent. */
  datatype Preparation = Ready | NoSession | BadCanonical | BadKey | BadMethod

  datatype Reply = Body(bytes: Bytes) | Error(commitState: CommitState)

  /** `error.commitState` of a JSON error body that names a known error code. */
  const UpstreamCommitState: Bytes -> Option<CommitState>

  /** Whether serde_json accepts the body. */
  const IsJson: Bytes -> bool

  // ---------------------------------------------------------------- reading the body

  function Concatenated(chunks: seq<Chunk>): Bytes {
    if chunks == [] then []
    else Concatenated(chunks[..|chunks| - 1]) + (if chunks[|chunks| - 1].Data? then chunks[|chunks| - 1].bytes else [])
  }

  ghost predicate Readable(chunks: seq<Chunk>) {
    (forall i :: 0 <= i < |chunks| ==> chunks[i].Data?) && |Concatenated(chunks)| <= MAX_CONNECTOR_BODY_BYTES
  }

  lemma {:induction false} ConcatenatedGrows(chunks: seq<Chunk>, n: nat)
    requires n <= |chunks|
    ensures |Concatenated(chunks[..n])| <= |Concatenated(chunks)|
    decreases |chunks| - n
  {
    if n < |chunks| {
      assert chunks[..n + 1][..n] == chunks[..n];
      ConcatenatedGrows(chunks, n + 1);
    } else {
      assert chunks[..n] == chunks;
    }
  }

  /** The streaming loop: the whole body, or nothing when the stream breaks or outgrows the limit. */
  method ReadBody(chunks: seq<Chunk>) returns (body: Option<Bytes>)
    ensures body.Some? <==> Readable(chunks)
    ensures body.Some? ==> body.value == Concatenated(chunks)
  {
    var bytes: Bytes := [];
    for i := 0 to |chunks|
      invariant bytes == Concatenated(chunks[..i]) && |bytes| <= MAX_CONNECTOR_BODY_BYTES
      invariant forall k :: 0 <= k < i ==> chunks[k].Data?
    {
      assert chunks[..i + 1][..i] == chunks[..i];
      if chunks[i].Broken? {
        return None;
      }
      if |bytes| + |chunks[i].bytes| > MAX_CONNECTOR_BODY_BYTES {
        ConcatenatedGrows(chunks, i + 1);
        return None;
      }
      bytes := bytes + chunks[i].bytes;
    }
    assert chunks[..|chunks|] == chunks;
    body := Some(bytes);
  }

  // ---------------------------------------------------------------- one request

  predicate IsSuccess(status: nat) { 200 <= status < 300 }
  predicate IsClientError(status: nat) { 400 <= status < 500 }

  /** The commit state of a refused HTTP status, after `map_st_error` on the commit stage. */
  function RejectionState(status: nat, body: Bytes): CommitState {
    match UpstreamCommitState(body)
    case Some(cs) => cs
    case None => if IsClientError(status) then NotApplied else Unknown
  }

  /** The server itself said that the mutation was not applied. */
  predicate ServerDeclined(x: Exchange) {
    x.Response? && !IsSuccess(x.status)
    && match UpstreamCommitState(Concatenated(x.chunks))
       case Some(cs) => cs == NotApplied
       case None => IsClientError(x.status)
  }

  /** The whole answer arrived within four mebibytes, declared and counted. */
  ghost predicate ReadInFull(x: Exchange) {
    && x.Response? && (x.declared.Some? ==> x.declared.value <= 4194304)
    && (forall i :: 0 <= i < |x.chunks| ==> x.chunks[i].Data?) && |Concatenated(x.chunks)| <= 4194304
  }

  /** The server answered with success and JSON. */
  ghost predicate Answered(x: Exchange) {
    ReadInFull(x) && 200 <= x.status <= 299 && IsJson(Concatenated(x.chunks))
  }

  /** The server answered otherwise. */
  ghost predicate Refused(x: Exchange) { ReadInFull(x) && !(200 <= x.status <= 299) }

  predicate Forbidden(x: Exchange) { x.Response? && x.status == 403 }

  /** `request_once`: `exchange(k)` is what the network does with the k-th request sent; `sent`
      counts the requests that have left when the call starts, `sends` when it returns. */
  method RequestOnce(prepare: nat -> Preparation, exchange: nat -> Exchange, mutation: bool,
                     retryOn403: bool, sent: nat)
    returns (reply: Reply, sends: nat)
    ensures mutation && !prepare(sent).Ready? ==> sends == sent && reply == Error(NotApplied)
    ensures mutation && prepare(sent).Ready? ==> sends == sent + 1
    ensures sent <= sends <= sent + 2
    ensures sends == sent <==> !prepare(sent).Ready?
    ensures sends == sent + 2 <==>
      !mutation && retryOn403 && prepare(sent).Ready? && Forbidden(exchange(sent)) && prepare(sent + 1).Ready?
    ensures reply.Body? <==> sends > sent && Answered(exchange(sends - 1))
    ensures reply.Body? ==> reply.bytes == Concatenated(exchange(sends - 1).chunks)
    ensures mutation && sends > sent && ReadInFull(exchange(sent)) && !IsSuccess(exchange(sent).status) ==>
      reply == Error(RejectionState(exchange(sent).status, Concatenated(exchange(sent).chunks)))
    ensures mutation && sends > sent && !Answered(exchange(sent)) && !Refused(exchange(sent)) ==> reply == Error(Unknown)
    ensures mutation ==>
      (reply == Error(NotApplied) <==> sends == sent || (ReadInFull(exchange(sent)) && ServerDeclined(exchange(sent))))
    decreases retryOn403
  {
    var doubt := if mutation then Unknown else NotStarted;
    if !prepare(sent).Ready? {
      return Error(if mutation || prepare(sent) != NoSession then NotApplied else NotStarted), sent;
    }
    var x := exchange(sent);
    if x.SendFailed? {
      return Error(doubt), sent + 1;
    }
    if x.status == 403 && retryOn403 && !mutation {
      reply, sends := RequestOnce(prepare, exchange, mutation, false, sent + 1);
      return;
    }
    sends := sent + 1;
    if x.declared.Some? && x.declared.value > MAX_CONNECTOR_BODY_BYTES {
      return Error(doubt), sends;
    }
    var body := ReadBody(x.chunks);
    if body.None? {
      return Error(doubt), sends;
    }
    if !IsSuccess(x.status) {
      var state := if mutation then RejectionState(x.status, body.value)
                   else match UpstreamCommitState(body.value) case Some(cs) => cs case None => NotStarted;
      return Error(state), sends;
    }
    if !IsJson(body.value) {
      return Error(doubt), sends;
    }
    reply := Body(body.value);
  }

  // ---------------------------------------------------------------- commit answers

  datatype WireStatus = WApplied | WAlreadyApplied | WNotApplied | WFailed | WUnknown | WOther

  datatype CommitWire = CommitWire(
    status: WireStatus, sha256: Option<Bytes>, integrity: Option<Bytes>,
    byteLength: Option<nat>, messageCount: Option<nat>)

  const CommitWireOf: Bytes -> Option<CommitWire>

  predicate IsHexDigit(b: Byte) {
    48 <= b <= 57 || 65 <= b <= 70 || 97 <= b <= 102
  }

  predicate IsSha256(s: Bytes) {
    |s| == SHA256_HEX_LENGTH && forall i :: 0 <= i < |s| ==> IsHexDigit(s[i])
  }

  predicate ValidIntegrity(s: Bytes) { !Blank(s) && |s| <= 256 }

  predicate ValidAfterFields(w: CommitWire) {
    && w.sha256.Some? && IsSha256(w.sha256.value)
    && w.integrity.Some? && ValidIntegrity(w.integrity.value)
    && w.byteLength.Some? && 0 < w.byteLength.value <= MAX_SNAPSHOT_BYTES
    && w.messageCount.Some? && 0 < w.messageCount.value <= MAX_SNAPSHOT_MESSAGES
  }

  /** What the coordinator acts on. */
  datatype Verdict = Confirmed | Declined | Doubtful

  /** `ConnectorClient::commit` and the coordinator's match on its result. */
  function Judge(reply: Reply): Verdict {
    match reply
    case Error(cs) => if cs == NotApplied then Declined else Doubtful
    case Body(bytes) =>
      match CommitWireOf(bytes)
      case None => Doubtful
      case Some(w) =>
        match w.status
        case WApplied => if ValidAfterFields(w) then Confirmed else Doubtful
        case WAlreadyApplied => if ValidAfterFields(w) then Confirmed else Doubtful
        case WNotApplied => Declined
        case WFailed => Declined
        case WUnknown => Doubtful
        case WOther => Doubtful
  }

  /** A digest of 64 hexadecimal digits, an integrity of at most 256 bytes that is not blank, a length of at most 64
      mebibytes and at most a million messages, none of them zero. */
  predicate Plausible(w: CommitWire) {
    && w.sha256.Some? && |w.sha256.value| == 64 && AllHex(w.sha256.value)
    && w.integrity.Some? && !Blank(w.integrity.value) && |w.integrity.value| <= 256
    && w.byteLength.Some? && 1 <= w.byteLength.value <= 67108864
    && w.messageCount.Some? && 1 <= w.messageCount.value <= 1000000
  }

  predicate AllHex(s: Bytes) {
    forall i :: 0 <= i < |s| ==>
      || '0' as int <= s[i] <= '9' as int || 'a' as int <= s[i] <= 'f' as int || 'A' as int <= s[i] <= 'F' as int
  }

  /** The server answered this exchange with a commit result of this kind. */
  ghost predicate ServerSaid(x: Exchange, statuses: set<WireStatus>) {
    && Answered(x) && CommitWireOf(Concatenated(x.chunks)).Some?
    && CommitWireOf(Concatenated(x.chunks)).value.status in statuses
  }

  /** The result of `create_chat` also names the file. */
  const CreatedFile: Bytes -> Option<Bytes>

  /** `ConnectorClient::create_chat`: a chat counts as created only under the name that was asked for. */
  function JudgeCreate(reply: Reply, chatFile: Bytes): Verdict {
    var v := Judge(reply);
    if v == Confirmed && !(CreatedFile(reply.bytes) == Some(chatFile) && !Blank(chatFile)) then Doubtful else v
  }

  /** A mutating call leaves the process once, unless it cannot be prepared. It is confirmed exactly when the server
      says it is applied, with plausible fields; declined exactly when nothing was sent or the server says it was not
      applied; and everything else is doubt. */
  method CommitOnce(prepare: nat -> Preparation, exchange: nat -> Exchange) returns (verdict: Verdict, sends: nat)
    ensures sends == if prepare(0).Ready? then 1 else 0
    ensures verdict == Confirmed <==>
      && sends == 1 && ServerSaid(exchange(0), {WApplied, WAlreadyApplied})
      && Plausible(CommitWireOf(Concatenated(exchange(0).chunks)).value)
    ensures verdict == Declined <==>
      || sends == 0 || (ReadInFull(exchange(0)) && ServerDeclined(exchange(0)))
      || ServerSaid(exchange(0), {WNotApplied, WFailed})
  {
    var reply;
    reply, sends := RequestOnce(prepare, exchange, true, true, 0);
    verdict := Judge(reply);
  }

  /** Creating a chat, likewise, where success has to name the chat file asked for. */
  method CreateOnce(prepare: nat -> Preparation, exchange: nat -> Exchange, chatFile: Bytes)
    returns (verdict: Verdict, sends: nat)
    ensures sends == if prepare(0).Ready? then 1 else 0
    ensures verdict == Confirmed <==>
      && sends == 1 && ServerSaid(exchange(0), {WApplied, WAlreadyApplied})
      && Plausible(CommitWireOf(Concatenated(exchange(0).chunks)).value)
      && CreatedFile(Concatenated(exchange(0).chunks)) == Some(chatFile) && !Blank(chatFile)
    ensures verdict == Declined <==>
      || sends == 0 || (ReadInFull(exchange(0)) && ServerDeclined(exchange(0)))
      || ServerSaid(exchange(0), {WNotApplied, WFailed})
  {
    var reply;
    reply, sends := RequestOnce(prepare, exchange, true, true, 0);
    verdict := JudgeCreate(reply, chatFile);
  }
}
