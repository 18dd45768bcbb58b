/** Sealing a recovery payload, opening it again, and the command a replay sends.
    The AEAD is ideal: a ciphertext opens only under the key, version and associated data
    it was sealed with. JSON and SHA-256 are uninterpreted functions. */
module OperationPayload {
  import opened Wire
  import opened Operations

  /** serde_json::to_vec of a payload and of a mutation, and from_slice of a payload. */
  const PayloadJson: Payload -> Bytes
  const MutationJson: Mutation -> Bytes
  const PayloadFromJson: Bytes -> Option<Payload>

  /** This text reads back as the payload it was written from. */
  ghost predicate ReadsBack(text: Bytes) {
    forall p: Payload :: PayloadJson(p) == text ==> PayloadFromJson(text) == Some(p)
  }

  ghost predicate HashInjective() {
    forall a, b :: Sha256(a) == Sha256(b) ==> a == b
  }

  datatype Result<+T> = Ok(value: T) | Err(code: ErrorCode)

  datatype Encryptor = Encryptor(key: Bytes, keyVersion: nat)

  function Encrypt(e: Encryptor, plaintext: Bytes, aad: Aad): Option<Sealed> {
    if aad.Complete() then Some(Sealed(e.key, EncodedAad(aad), plaintext, e.keyVersion)) else None
  }

  function Decrypt(e: Encryptor, sealed: Sealed, aad: Aad): Option<Bytes> {
    if sealed.keyVersion == e.keyVersion && aad.Complete()
       && sealed.key == e.key && sealed.aad == EncodedAad(aad)
    then Some(sealed.plaintext) else None
  }

  function AadOf(record: Record, fence: Fence): Aad {
    AadWithFence(record.id, LocatorHash(record.locator), record.kind, record.actorId, fence)
  }

  function PayloadDigest(p: Payload, plaintext: Bytes): Bytes {
    if p.Create? then Sha256(plaintext) else Sha256(MutationJson(p.mutation))
  }

  /** `decode_and_validate_recovery_payload` */
  function DecodeAndValidate(e: Encryptor, record: Record, sealed: Sealed, fence: Fence): Result<Payload> {
    match Decrypt(e, sealed, AadOf(record, fence))
    case None => Err(PayloadDecryptFailed)
    case Some(plaintext) =>
      match PayloadFromJson(plaintext)
      case None => Err(PayloadRecoveryInvalid)
      case Some(p) =>
        match p.Validate()
        case Refused(code) => Err(code)
        case Fine =>
          if record.digest.Some? && record.digest.value != PayloadDigest(p, plaintext)
          then Err(PayloadDigestMismatch)
          else Ok(p)
  }

  /** `decrypt_recovery_payload_for_operation`, the key already restored. */
  function DecryptForOperation(e: Encryptor, record: Record, fence: Fence): Result<Payload> {
    if record.payload.None? then Err(PayloadMissing)
    else if Blank(record.id) || Blank(record.botId) then Err(PayloadAadInvalid)
    else if !fence.IsValid() || fence.internalBotId != record.botId then Err(PayloadAadInvalid)
    else DecodeAndValidate(e, record, record.payload.value, fence)
  }

  // ---------------------------------------------------------------- what goes on the wire

  /** The JSON bodies of the connector's commit and create endpoints. */
  datatype Body =
    | CommitBody(operationId: Bytes, handle: Bytes, avatar: Bytes, chatFile: Bytes,
                 expectedSha256: Bytes, expectedIntegrity: Bytes, mutation: Mutation, fence: Fence)
    | CreateBody(operationId: Bytes, handle: Bytes, avatar: Bytes, chatFile: Bytes,
                 openingMessage: Bytes, fence: Fence)

  function CommitBodyOf(c: CommitCommand): Body {
    CommitBody(c.operationId, c.locator.handle, c.locator.avatar, c.locator.chatFile,
               c.expectedSha256, c.expectedIntegrity, c.mutation, c.fence)
  }

  function CreateBodyOf(c: CreateCommand): Body {
    CreateBody(c.operationId, c.locator.handle, c.locator.avatar, c.locator.chatFile,
               c.openingMessage, c.fence)
  }

  /** The call that `replay_generated` makes from a decoded payload and the stored record. */
  function ReplayBody(record: Record, p: Payload): Body {
    if p.Create? then CreateBodyOf(p.command)
    else CommitBodyOf(CommitCommand(record.id, record.locator, p.expectedSha256, p.expectedIntegrity,
                                    p.mutation, p.fence))
  }

  /** `replay_generated` up to its CAS: the body it will send, or why it stops. */
  function ReplayPlan(e: Encryptor, record: Record, internalBotId: Bytes, fence: Fence): Result<Body> {
    if !fence.IsValid() || Blank(internalBotId) || internalBotId != record.botId
       || fence.internalBotId != record.botId then Err(PayloadAadInvalid)
    else if record.status != Generated then Err(NotGenerated)
    else
      match DecryptForOperation(e, record, fence)
      case Err(code) => Err(code)
      case Ok(p) => Ok(ReplayBody(record, p))
  }

  // ---------------------------------------------------------------- what the live engine persists

  /** The mutation a live run is about to commit: everything that reaches the connector. */
  datatype Intent =
    | Mutate(locator: Locator, sourceSha256: Bytes, sourceIntegrity: Bytes, mutation: Mutation)
    | Open(locator: Locator, openingMessage: Bytes, testScope: bool)

  /** The payload of `persist_generated_payload` and `persist_create_payload`. */
  function IntentPayload(id: Bytes, kind: Bytes, intent: Intent, fence: Fence): Option<Payload> {
    match intent
    case Open(l, m, t) =>
      if kind == KIND_START then Some(Create(CreateCommand(id, l, m, t, fence))) else None
    case Mutate(_, sha, integrity, m) =>
      if kind == KIND_SEND then Some(Append(m, sha, integrity, fence))
      else if kind == KIND_REGENERATE then Some(Replace(m, sha, integrity, fence))
      else if kind == KIND_UNDO || kind == KIND_REVOKE then Some(Undo(m, sha, integrity, fence))
      else if kind == KIND_COMPRESS then Some(Compress(m, sha, integrity, fence))
      else None
  }

  /** The body the live run itself sends for this intent. */
  function LiveBody(id: Bytes, intent: Intent, fence: Fence): Body {
    match intent
    case Open(l, m, t) => CreateBodyOf(CreateCommand(id, l, m, t, fence))
    case Mutate(l, sha, integrity, m) => CommitBodyOf(CommitCommand(id, l, sha, integrity, m, fence))
  }

  datatype Persisted = Persisted(sealed: Sealed, digest: Bytes)

  /** Sealed payload and digest that the engine hands to the Generated update; None when it stops first. */
  function Persist(e: Encryptor, record: Record, intent: Intent, fence: Fence): Option<Persisted> {
    match IntentPayload(record.id, record.kind, intent, fence)
    case None => None
    case Some(p) =>
      if p.Validate() != Fine then None
      else
        var plaintext := PayloadJson(p);
        match Encrypt(e, plaintext, AadOf(record, fence))
        case None => None
        case Some(sealed) => Some(Persisted(sealed, PayloadDigest(p, plaintext)))
  }

  predicate SameChat(a: Locator, b: Locator) {
    a.handle == b.handle && a.avatar == b.avatar && a.chatFile == b.chatFile
  }

  // ---------------------------------------------------------------- what a body must say

  /** Every field of a request, against the intent it is made for. */
  predicate CarriesIntent(b: Body, id: Bytes, intent: Intent, fence: Fence) {
    && b.operationId == id && b.fence == fence
    && b.handle == intent.locator.handle && b.avatar == intent.locator.avatar && b.chatFile == intent.locator.chatFile
    && match intent
       case Mutate(_, sha256, integrity, mutation) =>
         b.CommitBody? && b.expectedSha256 == sha256 && b.expectedIntegrity == integrity && b.mutation == mutation
       case Open(_, openingMessage, _) => b.CreateBody? && b.openingMessage == openingMessage
  }

  /** Every field of a request, against the stored record and the payload that was read back. */
  predicate CarriesPayload(b: Body, record: Record, p: Payload) {
    if p.Create? then
      && b.CreateBody? && b.operationId == p.command.operationId && b.fence == p.command.fence
      && b.handle == p.command.locator.handle && b.avatar == p.command.locator.avatar
      && b.chatFile == p.command.locator.chatFile && b.openingMessage == p.command.openingMessage
    else
      && b.CommitBody? && b.operationId == record.id && b.fence == p.fence
      && b.handle == record.locator.handle && b.avatar == record.locator.avatar && b.chatFile == record.locator.chatFile
      && b.expectedSha256 == p.expectedSha256 && b.expectedIntegrity == p.expectedIntegrity && b.mutation == p.mutation
  }

  lemma LiveBodyCarriesIntent(id: Bytes, intent: Intent, fence: Fence)
    ensures CarriesIntent(LiveBody(id, intent, fence), id, intent, fence)
  {
  }

  lemma ReplayBodyCarriesPayload(record: Record, p: Payload)
    ensures CarriesPayload(ReplayBody(record, p), record, p)
  {
  }

  /** The mutation an operation's kind stands for. */
  predicate KindAllows(kind: Bytes, m: Mutation) {
    || (kind == KIND_SEND && m.AppendTurn?)
    || (kind == KIND_REGENERATE && m.ReplaceLastAssistant?)
    || ((kind == KIND_UNDO || kind == KIND_REVOKE) && m.UndoLastTurn?)
    || (kind == KIND_COMPRESS && m.CompressMessages?)
  }

  /** An intent is persisted exactly when its kind allows it, its fence is valid, its source hashes are there
      and the associated data is complete. */
  lemma PersistedExactly(e: Encryptor, record: Record, intent: Intent, fence: Fence)
    ensures Persist(e, record, intent, fence).Some? <==>
      && fence.IsValid() && AadOf(record, fence).Complete()
      && match intent
         case Open(_, _, _) => record.kind == KIND_START && !Blank(record.id)
         case Mutate(_, sha256, integrity, m) => KindAllows(record.kind, m) && !Blank(sha256) && !Blank(integrity)
  {
    KindsDiffer();
  }

  /** Under injective hashing and writing, a stored digest names the mutation (or the whole create command). */
  lemma DigestNamesMutation(p: Payload, q: Payload, text: Bytes, text': Bytes)
    requires HashInjective() && (forall m, n :: MutationJson(m) == MutationJson(n) ==> m == n)
    requires p.Create? == q.Create? && PayloadDigest(p, text) == PayloadDigest(q, text')
    ensures if p.Create? then text == text' else p.mutation == q.mutation
  {
  }

  /** A replay goes through exactly when the record is generated, belongs to this bot, opens under this key and
      fence, reads back as a valid payload, and matches the stored digest. */
  lemma ReplayAcceptedExactly(e: Encryptor, record: Record, bot: Bytes, fence: Fence)
    ensures ReplayPlan(e, record, bot, fence).Ok? <==>
      && fence.IsValid() && !Blank(record.id) && !Blank(bot) && bot == record.botId == fence.internalBotId
      && record.status == Generated && record.payload.Some?
      && var sealed := record.payload.value;
         && sealed.key == e.key && sealed.keyVersion == e.keyVersion && AadOf(record, fence).Complete()
         && sealed.aad == EncodedAad(AadOf(record, fence))
         && var p := PayloadFromJson(sealed.plaintext);
            && p.Some? && p.value.Validate() == Fine
            && (record.digest.Some? ==> record.digest.value == PayloadDigest(p.value, sealed.plaintext))
  {
  }

  // ---------------------------------------------------------------- theorems

  /** A payload opens only for the operation, chat, kind, actor and fence it was sealed for, and
      yields the payload that was sealed: moving a ciphertext to another row never opens it. */
  lemma OpensOnlyWhereSealed(
      e: Encryptor, e': Encryptor, p': Payload, aad': Aad, sealed: Sealed, record: Record, fence: Fence)
    requires ReadsBack(PayloadJson(p'))
    requires aad'.Representable() && AadOf(record, fence).Representable()
    requires Encrypt(e', PayloadJson(p'), aad') == Some(sealed)
    requires DecodeAndValidate(e, record, sealed, fence).Ok?
    ensures aad' == AadOf(record, fence)
    ensures e == e'
    ensures DecodeAndValidate(e, record, sealed, fence) == Ok(p')
  {
    EncodedAadInjective(aad', AadOf(record, fence));
  }

  /** Under an injective hash the authenticated locator hash names one chat. */
  lemma LocatorHashNamesChat(a: Locator, b: Locator)
    requires HashInjective()
    requires Sized(LocatorParts(a)) && Sized(LocatorParts(b))
    requires LocatorHash(a) == LocatorHash(b)
    ensures SameChat(a, b)
  {
    PrefixedAllInjective(LocatorParts(a), LocatorParts(b));
    var p, q := LocatorParts(a), LocatorParts(b);
    assert p[0] == q[0] && p[1] == q[1] && p[2] == q[2];
  }

  /** What a replay of a persisted record sends is what the live run would have sent, whatever
      character name the record forgot; and with any other fence the replay sends nothing. */
  lemma ReplaySendsWhatWasPersisted(
      e: Encryptor, record: Record, intent: Intent, liveFence: Fence,
      e': Encryptor, internalBotId: Bytes, fence: Fence)
    requires record.payload.Some? && ReadsBack(record.payload.value.plaintext)
    requires AadOf(record, liveFence).Representable() && AadOf(record, fence).Representable()
    requires SameChat(record.locator, intent.locator)
    requires var persisted := Persist(e, record, intent, liveFence);
      && persisted.Some?
      && record.payload == Some(persisted.value.sealed)
      && record.digest == Some(persisted.value.digest)
    ensures ReplayPlan(e', record, internalBotId, fence).Ok? ==>
      && ReplayPlan(e', record, internalBotId, fence).value == LiveBody(record.id, intent, liveFence)
      && CarriesIntent(ReplayPlan(e', record, internalBotId, fence).value, record.id, intent, liveFence)
      && fence == liveFence
      && e' == e
  {
    if ReplayPlan(e', record, internalBotId, fence).Ok? {
      var p := IntentPayload(record.id, record.kind, intent, liveFence).value;
      OpensOnlyWhereSealed(e', e, p, AadOf(record, liveFence), record.payload.value, record, fence);
    }
  }

  /** The same instance, still running, can always replay what it persisted. */
  lemma OwnReplayAccepted(e: Encryptor, record: Record, intent: Intent, fence: Fence)
    requires record.payload.Some? && ReadsBack(record.payload.value.plaintext)
    requires record.status == Generated
    requires fence.internalBotId == record.botId
    requires SameChat(record.locator, intent.locator)
    requires var persisted := Persist(e, record, intent, fence);
      && persisted.Some?
      && record.payload == Some(persisted.value.sealed)
      && record.digest == Some(persisted.value.digest)
    ensures ReplayPlan(e, record, record.botId, fence) == Ok(LiveBody(record.id, intent, fence))
  {
    var p := IntentPayload(record.id, record.kind, intent, fence).value;
    assert p.PayloadFence() == fence;
    assert PayloadFromJson(PayloadJson(p)) == Some(p);
    assert DecodeAndValidate(e, record, record.payload.value, fence) == Ok(p);
  }
}
