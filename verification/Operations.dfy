/** The durable operation record: its status and commit-state vocabulary, the typed recovery
    payload and the authenticated identity (AAD) that a sealed payload is bound to. */
module Operations {
  import opened Wire

  // ---------------------------------------------------------------- status machine

  datatype Status =
    | Received | SnapshotReady | Generating | Generated | Committing
    | Committed | Delivered | Conflict | Failed | Interrupted

  datatype CommitState = NotStarted | NotApplied | Applied | Unknown

  predicate IsTerminal(s: Status) {
    s.Delivered? || s.Conflict? || s.Failed? || s.Interrupted?
  }

  predicate CanTransition(from: Status, to: Status) {
    match (from, to)
    case (Received, SnapshotReady) => true
    case (SnapshotReady, Generating) => true
    case (SnapshotReady, Generated) => true
    case (Generating, Generated) => true
    case (Generated, Committing) => true
    case (Committing, Committed) => true
    case (Committed, Delivered) => true
    case (Received, Failed) => true
    case (SnapshotReady, Failed) => true
    case (Generating, Failed) => true
    case (Generating, Interrupted) => true
    case (Generated, Failed) => true
    case (Committing, Conflict) => true
    case (Committing, Failed) => true
    case (Committing, Interrupted) => true
    case _ => false
  }

  /** The terminal statuses are those that nothing follows. */
  lemma TerminalExactly(s: Status)
    ensures IsTerminal(s) <==> forall to :: !CanTransition(s, to)
  {
    assert CanTransition(Received, Failed) && CanTransition(SnapshotReady, Failed) && CanTransition(Generating, Failed);
    assert CanTransition(Generated, Failed) && CanTransition(Committing, Failed) && CanTransition(Committed, Delivered);
  }

  // ---------------------------------------------------------------- fences, locators, mutations

  /** "rust_bridge" */
  const RUST_BRIDGE: Bytes := [114, 117, 115, 116, 95, 98, 114, 105, 100, 103, 101]

  datatype Fence = Fence(
    telegramBotId: int,
    owner: Bytes,
    epoch: nat,
    internalBotId: Bytes,
    runtimeInstanceId: Bytes)
  {
    predicate IsValid() {
      && telegramBotId > 0
      && owner == RUST_BRIDGE
      && epoch > 0
      && !Blank(internalBotId)
      && !Blank(runtimeInstanceId)
    }
  }

  datatype Locator = Locator(handle: Bytes, avatar: Bytes, characterName: Bytes, chatFile: Bytes)

  /** The mutations of the chat file; message contents are kept as opaque bytes. */
  datatype Mutation =
    | AppendTurn(userMessage: Bytes, assistantMessage: Bytes)
    | UndoLastTurn(expectedUserSha256: Bytes, expectedAssistantSha256: Bytes)
    | ReplaceLastAssistant(expectedAssistant: Bytes, newAssistant: Bytes)
    | CompressMessages(patches: seq<Bytes>)

  datatype CreateCommand = CreateCommand(
    operationId: Bytes, locator: Locator, openingMessage: Bytes, testScope: bool, fence: Fence)

  datatype CommitCommand = CommitCommand(
    operationId: Bytes, locator: Locator, expectedSha256: Bytes, expectedIntegrity: Bytes,
    mutation: Mutation, fence: Fence)

  datatype Payload =
    | Append(mutation: Mutation, expectedSha256: Bytes, expectedIntegrity: Bytes, fence: Fence)
    | Replace(mutation: Mutation, expectedSha256: Bytes, expectedIntegrity: Bytes, fence: Fence)
    | Undo(mutation: Mutation, expectedSha256: Bytes, expectedIntegrity: Bytes, fence: Fence)
    | Compress(mutation: Mutation, expectedSha256: Bytes, expectedIntegrity: Bytes, fence: Fence)
    | Create(command: CreateCommand)
  {
    function PayloadFence(): Fence {
      if Create? then command.fence else fence
    }

    predicate MutationMatchesKind() {
      match this
      case Append(m, _, _, _) => m.AppendTurn?
      case Replace(m, _, _, _) => m.ReplaceLastAssistant?
      case Undo(m, _, _, _) => m.UndoLastTurn?
      case Compress(m, _, _, _) => m.CompressMessages?
      case Create(_) => true
    }

    /** `OperationRecoveryPayload::validate`: the fence is judged before the payload. */
    function Validate(): (r: Outcome) {
      if !PayloadFence().IsValid() then Refused(PayloadFenceInvalid)
      else if Create? then
        if Blank(command.operationId) then Refused(PayloadRecoveryInvalid) else Fine
      else if MutationMatchesKind() && !Blank(expectedSha256) && !Blank(expectedIntegrity) then Fine
      else Refused(PayloadRecoveryInvalid)
    }
  }

  datatype ErrorCode =
    | PayloadMissing | PayloadAadInvalid | PayloadDecryptFailed | PayloadRecoveryInvalid
    | PayloadFenceInvalid | PayloadDigestMismatch | NotGenerated

  datatype Outcome = Fine | Refused(code: ErrorCode)

  // "send", "undo", "revoke", "start", "regenerate", "compress"
  const KIND_SEND: Bytes := [115, 101, 110, 100]
  const KIND_UNDO: Bytes := [117, 110, 100, 111]
  const KIND_REVOKE: Bytes := [114, 101, 118, 111, 107, 101]
  const KIND_START: Bytes := [115, 116, 97, 114, 116]
  const KIND_REGENERATE: Bytes := [114, 101, 103, 101, 110, 101, 114, 97, 116, 101]
  const KIND_COMPRESS: Bytes := [99, 111, 109, 112, 114, 101, 115, 115]

  lemma KindsAreSpelled()
    ensures KIND_SEND == Ascii("send") && KIND_UNDO == Ascii("undo") && KIND_REVOKE == Ascii("revoke")
    ensures KIND_START == Ascii("start") && KIND_REGENERATE == Ascii("regenerate") && KIND_COMPRESS == Ascii("compress")
    ensures RUST_BRIDGE == Ascii("rust_bridge")
  {
  }

  lemma KindsDiffer()
    ensures KIND_SEND != KIND_REGENERATE && KIND_SEND != KIND_UNDO && KIND_SEND != KIND_REVOKE
    ensures KIND_SEND != KIND_COMPRESS && KIND_REGENERATE != KIND_UNDO && KIND_REGENERATE != KIND_REVOKE
    ensures KIND_REGENERATE != KIND_COMPRESS && KIND_UNDO != KIND_COMPRESS && KIND_REVOKE != KIND_COMPRESS
  {
    assert KIND_SEND[0] != KIND_UNDO[0];
  }

  // ---------------------------------------------------------------- authenticated identity

  /** Hex SHA-256, left uninterpreted. */
  const Sha256: Bytes -> Bytes

  function LocatorParts(l: Locator): seq<Bytes> { [l.handle, l.avatar, l.chatFile] }

  function LocatorHash(l: Locator): Bytes { Sha256(PrefixedAll(LocatorParts(l))) }

  datatype Aad = Aad(
    version: nat,
    operationId: Bytes,
    locatorHash: Bytes,
    operationKind: Bytes,
    actorId: Bytes,
    botId: Bytes,
    fence: Option<Fence>)
  {
    /** The components after the version, in wire order. */
    function Parts(): seq<Bytes> {
      [operationId, locatorHash, operationKind, actorId, botId]
      + match fence
        case None => []
        case Some(f) => [SignedDecimal(f.telegramBotId), f.owner, Decimal(f.epoch),
                         f.internalBotId, f.runtimeInstanceId]
    }

    /** Values a 64-bit process can hold: a 16-bit version and addressable components. */
    predicate Representable() {
      version < 0x1_0000 && Sized(Parts())
    }

    /** `validate_aad` */
    predicate Complete() {
      version != 0 && !Blank(operationId) && !Blank(locatorHash) && !Blank(operationKind)
      && !Blank(actorId) && !Blank(botId)
    }
  }

  function AadWithFence(operationId: Bytes, locatorHash: Bytes, kind: Bytes, actorId: Bytes, fence: Fence): Aad {
    Aad(1, operationId, locatorHash, kind, actorId, fence.internalBotId, Some(fence))
  }

  /** b"im-bridge/operation-payload\0" */
  const AAD_PREFIX: Bytes :=
    [105, 109, 45, 98, 114, 105, 100, 103, 101, 47, 111, 112, 101, 114, 97, 116, 105, 111, 110, 45,
     112, 97, 121, 108, 111, 97, 100, 0]

  const VERSION_WIDTH: nat := 2

  /** The byte buffer that `OperationAad::encode` builds. */
  function EncodedAad(a: Aad): Bytes {
    AAD_PREFIX + BigEndian(a.version, VERSION_WIDTH) + PrefixedAll(a.Parts())
  }

  lemma {:induction false} PrefixedAllConcat(p: seq<Bytes>, q: seq<Bytes>)
    ensures PrefixedAll(p + q) == PrefixedAll(p) + PrefixedAll(q)
  {
    if p == [] {
      assert p + q == q;
    } else {
      assert (p + q)[1..] == p[1..] + q;
      PrefixedAllConcat(p[1..], q);
    }
  }

  /** One `for part in [...]` loop of the encoder. */
  method ExtendPrefixed(buffer: Bytes, parts: seq<Bytes>) returns (out: Bytes)
    ensures out == buffer + PrefixedAll(parts)
  {
    out := buffer;
    for i := 0 to |parts|
      invariant out == buffer + PrefixedAll(parts[..i])
    {
      out := out + Prefixed(parts[i]);
      PrefixedAllConcat(parts[..i], [parts[i]]);
      assert parts[..i + 1] == parts[..i] + [parts[i]];
      assert PrefixedAll([parts[i]]) == Prefixed(parts[i]) + PrefixedAll([parts[i]][1..]);
    }
    assert parts[..|parts|] == parts;
  }

  /** `OperationAad::encode` */
  method EncodeAad(a: Aad) returns (out: Bytes)
    ensures out == EncodedAad(a)
  {
    var fixed := [a.operationId, a.locatorHash, a.operationKind, a.actorId, a.botId];
    out := ExtendPrefixed(AAD_PREFIX + BigEndian(a.version, VERSION_WIDTH), fixed);
    match a.fence
    case None => assert a.Parts() == fixed;
    case Some(f) =>
      var tail := [SignedDecimal(f.telegramBotId), f.owner, Decimal(f.epoch), f.internalBotId, f.runtimeInstanceId];
      out := ExtendPrefixed(out, tail);
      PrefixedAllConcat(fixed, tail);
  }

  /** The encoding names exactly one identity, with or without the fence tail. */
  lemma EncodedAadInjective(a: Aad, b: Aad)
    requires a.Representable() && b.Representable()
    requires EncodedAad(a) == EncodedAad(b)
    ensures a == b
  {
    Slices(AAD_PREFIX, BigEndian(a.version, VERSION_WIDTH), PrefixedAll(a.Parts()));
    Slices(AAD_PREFIX, BigEndian(b.version, VERSION_WIDTH), PrefixedAll(b.Parts()));
    assert Pow256(VERSION_WIDTH) == 0x1_0000;
    WordInjective(a.version, b.version, VERSION_WIDTH);
    PrefixedAllInjective(a.Parts(), b.Parts());
    PartsInjective(a, b);
  }

  lemma PartsInjective(a: Aad, b: Aad)
    requires a.version == b.version
    requires a.Parts() == b.Parts()
    ensures a == b
  {
    var p, q := a.Parts(), b.Parts();
    assert p[0] == q[0] && p[1] == q[1] && p[2] == q[2] && p[3] == q[3] && p[4] == q[4];
    assert a.fence.Some? <==> |p| == 10;
    assert b.fence.Some? <==> |q| == 10;
    if a.fence.Some? {
      assert p[5] == q[5] && p[6] == q[6] && p[7] == q[7] && p[8] == q[8] && p[9] == q[9];
      SignedDecimalInjective(a.fence.value.telegramBotId, b.fence.value.telegramBotId);
      DecimalRoundTrip(a.fence.value.epoch);
      DecimalRoundTrip(b.fence.value.epoch);
    }
  }

  // ---------------------------------------------------------------- records

  /** An ideal AEAD ciphertext: what was sealed, under which key, for which associated data. */
  datatype Sealed = Sealed(key: Bytes, aad: Bytes, plaintext: Bytes, keyVersion: nat)

  datatype ErrorInfo = ErrorInfo(stage: Bytes, code: Bytes, summary: Bytes, retryable: bool)

  datatype Source = Source(sha256: Option<Bytes>, integrity: Option<Bytes>, size: Option<int>, messageCount: Option<int>)

  datatype Record = Record(
    id: Bytes,
    actorId: Bytes,
    botId: Bytes,
    updateId: int,
    contextKey: Bytes,
    kind: Bytes,
    locator: Locator,
    status: Status,
    commitState: CommitState,
    source: Source,
    digest: Option<Bytes>,
    payload: Option<Sealed>,
    connectorResult: Option<Bytes>,
    error: Option<ErrorInfo>,
    updatedAt: int)
}
