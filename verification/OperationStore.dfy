/** The operation table: every compare-and-set update of the store, as one table of guarded
    row updates and as the methods of a store object. */
module OperationStore {
  import opened Wire
  import opened Operations

  datatype KeyReference = KeyReference(wrappedSecretId: Bytes, keyVersion: nat)

  /** One `UPDATE ... WHERE` statement of the store. */
  datatype StoreOp =
    | ToSnapshotReady(source: Source)
    | ToGenerating
    | ToGenerated(sealed: Sealed, digest: Bytes)
    | ToCommitting
    | ToCommitted(result: Bytes, expected: CommitState)
    | ToDelivered
    | ToConflict(summary: Bytes)
    | ToFailed(error: ErrorInfo, outcome: CommitState)
    | ToInterrupted
    | ToUnknown

  /** "commit" and "ST_CHAT_CONFLICT" */
  const STAGE_COMMIT: Bytes := [99, 111, 109, 109, 105, 116]
  const CODE_CONFLICT: Bytes := [83, 84, 95, 67, 72, 65, 84, 95, 67, 79, 78, 70, 76, 73, 67, 84]

  predicate BeforeCommitted(s: Status) {
    s.Received? || s.SnapshotReady? || s.Generating? || s.Generated? || s.Committing?
  }

  /** The WHERE clause. */
  predicate Guard(op: StoreOp, r: Record, key: Option<KeyReference>) {
    match op
    case ToSnapshotReady(_) => r.status == Received && r.commitState == NotStarted
    case ToGenerating => r.status == SnapshotReady && r.commitState == NotStarted
    case ToGenerated(sealed, _) =>
      && (r.status == SnapshotReady || r.status == Generating)
      && r.commitState == NotStarted
      && key.Some? && key.value.keyVersion == sealed.keyVersion
    case ToCommitting => r.status == Generated && r.commitState == NotStarted
    case ToCommitted(_, expected) => r.status == Committing && r.commitState == expected
    case ToDelivered => r.status == Committed && r.commitState == Applied
    case ToConflict(_) => r.status == Committing && r.commitState == NotStarted
    case ToFailed(_, _) => BeforeCommitted(r.status) && r.commitState == NotStarted
    case ToInterrupted => r.status == Generating && r.commitState == NotStarted
    case ToUnknown => r.status == Committing && r.commitState == NotStarted
  }

  /** The SET clause. */
  function Updated(op: StoreOp, r: Record, now: int): Record {
    match op
    case ToSnapshotReady(source) => r.(status := SnapshotReady, source := source, updatedAt := now)
    case ToGenerating => r.(status := Generating, updatedAt := now)
    case ToGenerated(sealed, digest) =>
      r.(status := Generated, payload := Some(sealed), digest := Some(digest), updatedAt := now)
    case ToCommitting => r.(status := Committing, updatedAt := now)
    case ToCommitted(result, _) =>
      r.(status := Committed, commitState := Applied, connectorResult := Some(result), updatedAt := now)
    case ToDelivered => r.(status := Delivered, updatedAt := now)
    case ToConflict(summary) =>
      r.(status := Conflict, commitState := NotApplied, updatedAt := now,
         error := Some(ErrorInfo(STAGE_COMMIT, CODE_CONFLICT, summary,
                                 if r.error.Some? then r.error.value.retryable else false)))
    case ToFailed(error, outcome) =>
      r.(status := Failed, commitState := outcome, error := Some(error), updatedAt := now)
    case ToInterrupted => r.(status := Interrupted, updatedAt := now)
    case ToUnknown => r.(commitState := Unknown, updatedAt := now)
  }

  type Rows = map<Bytes, Record>
  type Keys = map<Bytes, KeyReference>

  function KeyOf(keys: Keys, id: Bytes): Option<KeyReference> {
    if id in keys then Some(keys[id]) else None
  }

  predicate Fires(op: StoreOp, rows: Rows, keys: Keys, id: Bytes) {
    id in rows && Guard(op, rows[id], KeyOf(keys, id))
  }

  /** The table after the statement; a statement that matches no row changes nothing. */
  function Apply(op: StoreOp, rows: Rows, keys: Keys, id: Bytes, now: int): Rows {
    if Fires(op, rows, keys, id) then rows[id := Updated(op, rows[id], now)] else rows
  }

  // ---------------------------------------------------------------- row shape

  /** What a row's columns say about each other. */
  predicate RowShape(r: Record, key: Option<KeyReference>) {
    && (r.commitState == Applied <==> (r.status == Committed || r.status == Delivered))
    && (r.commitState == Unknown ==> r.status == Committing)
    && (r.commitState == NotApplied ==> (r.status == Failed || r.status == Conflict))
    && (r.status == Conflict ==> r.commitState == NotApplied)
    && (HasPayload(r.status) ==>
          && r.payload.Some? && r.digest.Some?
          && key.Some? && key.value.keyVersion == r.payload.value.keyVersion)
  }

  predicate HasPayload(s: Status) {
    s.Generated? || s.Committing? || s.Committed? || s.Delivered?
  }

  /** The two arguments that callers ever give to the failure update. */
  predicate Honest(op: StoreOp) {
    op.ToFailed? ==> op.outcome == NotStarted || op.outcome == NotApplied
  }

  ghost predicate TableShape(rows: Rows, keys: Keys) {
    forall id :: id in rows ==> rows[id].id == id && RowShape(rows[id], KeyOf(keys, id))
  }

  /** Progress left to a row: it falls whenever an update fires. */
  function Potential(r: Record): nat {
    match r.status
    case Received => 7
    case SnapshotReady => 6
    case Generating => 5
    case Generated => 4
    case Committing => if r.commitState == Unknown then 2 else 3
    case Committed => 1
    case _ => 0
  }

  predicate SameIdentity(a: Record, b: Record) {
    && a.id == b.id && a.actorId == b.actorId && a.botId == b.botId && a.updateId == b.updateId
    && a.contextKey == b.contextKey && a.kind == b.kind && a.locator == b.locator
  }

  /** Every update that fires moves along an edge of the status machine (or only settles the commit
      state of a committing row), keeps the row's identity, never rewrites a persisted payload,
      spends potential, and starts from a row that is not terminal. */
  lemma UpdateFollowsStatusMachine(op: StoreOp, r: Record, key: Option<KeyReference>, now: int)
    requires RowShape(r, key) && Guard(op, r, key)
    ensures var r' := Updated(op, r, now);
      && (CanTransition(r.status, r'.status) || (op.ToUnknown? && r'.status == r.status == Committing))
      && !IsTerminal(r.status)
      && SameIdentity(r, r')
      && (HasPayload(r.status) ==> r'.payload == r.payload && r'.digest == r.digest)
      && Potential(r') < Potential(r)
  {
  }

  /** The statements walk every edge of the status machine but one: nothing interrupts a committing row. */
  lemma StatementFor(r: Record, key: Option<KeyReference>, to: Status) returns (op: StoreOp)
    requires CanTransition(r.status, to) && !(r.status == Committing && to == Interrupted)
    requires r.commitState == if r.status == Committed then Applied else NotStarted
    requires to == Generated ==> key.Some?
    ensures Guard(op, r, key) && Updated(op, r, r.updatedAt).status == to
  {
    match to
    case SnapshotReady => op := ToSnapshotReady(r.source);
    case Generating => op := ToGenerating;
    case Generated => op := ToGenerated(Sealed([], [], [], key.value.keyVersion), []);
    case Committing => op := ToCommitting;
    case Committed => op := ToCommitted([], NotStarted);
    case Delivered => op := ToDelivered;
    case Conflict => op := ToConflict([]);
    case Interrupted => op := ToInterrupted;
    case _ => op := ToFailed(ErrorInfo([], [], [], false), NotStarted);
  }

  /** Who writes each column, and what: the snapshot its source, the draft its payload and digest, a confirmed commit
      its result, a failure or conflict its error; the commit state is settled by those that end a commit. */
  lemma ColumnsHaveTheirWriters(op: StoreOp, r: Record, now: int)
    ensures var r' := Updated(op, r, now);
      && r'.updatedAt == now && SameIdentity(r, r')
      && r'.source == (if op.ToSnapshotReady? then op.source else r.source)
      && r'.payload == (if op.ToGenerated? then Some(op.sealed) else r.payload)
      && r'.digest == (if op.ToGenerated? then Some(op.digest) else r.digest)
      && r'.connectorResult == (if op.ToCommitted? then Some(op.result) else r.connectorResult)
      && (op.ToFailed? ==> r'.error == Some(op.error))
      && (op.ToConflict? ==> r'.error.Some? && r'.error.value.stage == Ascii("commit")
                             && r'.error.value.code == Ascii("ST_CHAT_CONFLICT") && r'.error.value.summary == op.summary)
      && (!op.ToFailed? && !op.ToConflict? ==> r'.error == r.error)
      && r'.commitState == (if op.ToCommitted? then Applied
                            else if op.ToConflict? then NotApplied
                            else if op.ToFailed? then op.outcome
                            else if op.ToUnknown? then Unknown
                            else r.commitState)
  {
    assert STAGE_COMMIT == Ascii("commit") && CODE_CONFLICT == Ascii("ST_CHAT_CONFLICT");
  }

  /** The row shape survives an update exactly when the update is honest about the failure outcome:
      the statement itself would write any commit state next to `failed`. */
  lemma ShapeKeptExactlyByHonestUpdates(op: StoreOp, r: Record, key: Option<KeyReference>, now: int)
    requires RowShape(r, key) && Guard(op, r, key)
    ensures RowShape(Updated(op, r, now), key) <==> Honest(op)
  {
  }

  lemma TableShapeKept(op: StoreOp, rows: Rows, keys: Keys, id: Bytes, now: int)
    requires TableShape(rows, keys) && Honest(op)
    ensures TableShape(Apply(op, rows, keys, id, now), keys)
  {
    if Fires(op, rows, keys, id) {
      ShapeKeptExactlyByHonestUpdates(op, rows[id], KeyOf(keys, id), now);
    }
  }

  // ---------------------------------------------------------------- claims

  datatype ClaimRequest = ClaimRequest(
    id: Bytes, actorId: Bytes, botId: Bytes, updateId: int, contextKey: Bytes, kind: Bytes, locator: Locator)

  datatype ClaimResult =
    | Fresh(record: Record)
    | Duplicate(existing: Record)
    | IdReused
    | Collision

  predicate SameClaim(r: Record, q: ClaimRequest) {
    r.botId == q.botId && r.updateId == q.updateId && r.kind == q.kind
  }

  function ClaimKey(r: Record): (Bytes, int, Bytes) { (r.botId, r.updateId, r.kind) }

  /** UNIQUE (bot_id, telegram_update_id, operation_kind) */
  ghost predicate UniqueClaims(rows: Rows) {
    forall a, b :: a in rows && b in rows && ClaimKey(rows[a]) == ClaimKey(rows[b]) ==> a == b
  }

  predicate MatchesClaim(r: Record, q: ClaimRequest) {
    && (Blank(q.id) || r.id == q.id)
    && r.actorId == q.actorId && SameClaim(r, q) && r.contextKey == q.contextKey
    && r.locator.handle == q.locator.handle && r.locator.avatar == q.locator.avatar
    && r.locator.chatFile == q.locator.chatFile
  }

  function NewRecord(id: Bytes, q: ClaimRequest, now: int): Record {
    Record(id, q.actorId, q.botId, q.updateId, q.contextKey, q.kind,
           Locator(q.locator.handle, q.locator.avatar, [], q.locator.chatFile),
           Received, NotStarted, Source(None, None, None, None), None, None, None, None, now)
  }

  /** A claim meets the row of an earlier one exactly when the two say the same: actor, bot, update, context, kind and
      chat; an id it brings has to be the row's. */
  lemma ClaimMeetsEarlierClaim(id: Bytes, earlier: ClaimRequest, now: int, q: ClaimRequest)
    ensures MatchesClaim(NewRecord(id, earlier, now), q) <==>
      && (Blank(q.id) || q.id == id)
      && earlier.actorId == q.actorId && earlier.botId == q.botId && earlier.updateId == q.updateId
      && earlier.contextKey == q.contextKey && earlier.kind == q.kind
      && earlier.locator.handle == q.locator.handle && earlier.locator.avatar == q.locator.avatar
      && earlier.locator.chatFile == q.locator.chatFile
    ensures var r := NewRecord(id, earlier, now);
      && r.id == id && r.status == Received && r.commitState == NotStarted && r.updatedAt == now
      && r.payload.None? && r.digest.None? && r.connectorResult.None? && r.error.None?
  {
  }

  /** Rows that keep their identity and are each either kept or interrupted keep the table valid. */
  lemma InterruptKeepsTable(rows: Rows, rows': Rows, keys: Keys, hit: set<Bytes>, now: int)
    requires TableShape(rows, keys) && UniqueClaims(rows)
    requires rows'.Keys == rows.Keys
    requires forall id :: id in hit ==> id in rows && rows[id].status == Generating
    requires forall id :: id in rows ==>
      rows'[id] == if id in hit then Updated(ToInterrupted, rows[id], now) else rows[id]
    ensures TableShape(rows', keys) && UniqueClaims(rows')
  {
    forall id | id in rows' ensures rows'[id].id == id && RowShape(rows'[id], KeyOf(keys, id)) {
      assert RowShape(rows[id], KeyOf(keys, id));
    }
    forall a, b | a in rows' && b in rows' && ClaimKey(rows'[a]) == ClaimKey(rows'[b]) ensures a == b {
      assert ClaimKey(rows[a]) == ClaimKey(rows[b]);
    }
  }

  /** A claim that nobody holds yet adds a well-shaped row. */
  lemma ClaimKeepsTable(rows: Rows, keys: Keys, id: Bytes, q: ClaimRequest, now: int)
    requires TableShape(rows, keys) && UniqueClaims(rows) && id !in rows
    requires forall other :: other in rows ==> !SameClaim(rows[other], q)
    ensures var rows' := rows[id := NewRecord(id, q, now)]; TableShape(rows', keys) && UniqueClaims(rows')
  {
    var rows' := rows[id := NewRecord(id, q, now)];
    forall x | x in rows' ensures rows'[x].id == x && RowShape(rows'[x], KeyOf(keys, x)) {
      if x != id { assert RowShape(rows[x], KeyOf(keys, x)); }
    }
    forall a, b | a in rows' && b in rows' && ClaimKey(rows'[a]) == ClaimKey(rows'[b]) ensures a == b {
      if a != id && b != id { assert ClaimKey(rows[a]) == ClaimKey(rows[b]); }
    }
  }

  // ---------------------------------------------------------------- the store object

  class Store {
    var rows: Rows
    var keys: Keys

    ghost predicate Valid()
      reads this
    {
      TableShape(rows, keys) && UniqueClaims(rows)
    }

    constructor ()
      ensures Valid() && rows == map[] && keys == map[]
    {
      rows := map[];
      keys := map[];
    }

    /** `claim_operation`; `newId` is the id drawn when the request brings none. */
    method ClaimOperation(q: ClaimRequest, newId: Bytes, now: int) returns (result: ClaimResult)
      requires Valid()
      modifies this`rows
      ensures Valid()
      ensures result.Fresh? ==>
        var id := if Blank(q.id) then newId else q.id;
        && id !in old(rows)
        && (forall other :: other in old(rows) ==> !SameClaim(old(rows)[other], q))
        && rows == old(rows)[id := NewRecord(id, q, now)]
        && result.record == rows[id]
      ensures !result.Fresh? ==> rows == old(rows)
      ensures result.Duplicate? ==>
        && result.existing.id in rows && rows[result.existing.id] == result.existing
        && MatchesClaim(result.existing, q)
      ensures result.IdReused? ==>
        exists other :: other in rows && SameClaim(rows[other], q) && !MatchesClaim(rows[other], q)
      ensures result.Collision? ==>
        && (if Blank(q.id) then newId else q.id) in rows
        && forall other :: other in rows ==> !SameClaim(rows[other], q)
    {
      var id := if Blank(q.id) then newId else q.id;
      if other :| other in rows && SameClaim(rows[other], q) {
        if MatchesClaim(rows[other], q) {
          result := Duplicate(rows[other]);
        } else {
          result := IdReused;
        }
      } else if id in rows {
        result := Collision;
      } else {
        var record := NewRecord(id, q, now);
        ClaimKeepsTable(rows, keys, id, q, now);
        rows := rows[id := record];
        result := Fresh(record);
      }
    }

    method UpdateSnapshotReady(id: Bytes, source: Source, now: int) returns (ok: bool)
      requires Valid()
      modifies this`rows
      ensures Valid()
      ensures ok == Fires(ToSnapshotReady(source), old(rows), keys, id)
      ensures rows == Apply(ToSnapshotReady(source), old(rows), keys, id, now)
    {
      TableShapeKept(ToSnapshotReady(source), rows, keys, id, now);
      ok := id in rows && rows[id].status == Received && rows[id].commitState == NotStarted;
      if ok {
        rows := rows[id := rows[id].(status := SnapshotReady, source := source, updatedAt := now)];
      }
    }

    method UpdateGenerating(id: Bytes, now: int) returns (ok: bool)
      requires Valid()
      modifies this`rows
      ensures Valid()
      ensures ok == Fires(ToGenerating, old(rows), keys, id)
      ensures rows == Apply(ToGenerating, old(rows), keys, id, now)
    {
      TableShapeKept(ToGenerating, rows, keys, id, now);
      ok := id in rows && rows[id].status == SnapshotReady && rows[id].commitState == NotStarted;
      if ok {
        rows := rows[id := rows[id].(status := Generating, updatedAt := now)];
      }
    }

    method UpdateGenerated(id: Bytes, sealed: Sealed, digest: Bytes, now: int) returns (ok: bool)
      requires Valid()
      modifies this`rows
      ensures Valid()
      ensures ok == Fires(ToGenerated(sealed, digest), old(rows), keys, id)
      ensures rows == Apply(ToGenerated(sealed, digest), old(rows), keys, id, now)
    {
      TableShapeKept(ToGenerated(sealed, digest), rows, keys, id, now);
      ok := id in rows && rows[id].status in {SnapshotReady, Generating} && rows[id].commitState == NotStarted
            && id in keys && keys[id].keyVersion == sealed.keyVersion;
      if ok {
        rows := rows[id := rows[id].(status := Generated, payload := Some(sealed),
                                     digest := Some(digest), updatedAt := now)];
      }
    }

    method MarkCommitting(id: Bytes, now: int) returns (ok: bool)
      requires Valid()
      modifies this`rows
      ensures Valid()
      ensures ok == Fires(ToCommitting, old(rows), keys, id)
      ensures rows == Apply(ToCommitting, old(rows), keys, id, now)
    {
      TableShapeKept(ToCommitting, rows, keys, id, now);
      ok := id in rows && rows[id].status == Generated && rows[id].commitState == NotStarted;
      if ok {
        rows := rows[id := rows[id].(status := Committing, updatedAt := now)];
      }
    }

    method MarkCommittedWithState(id: Bytes, result: Bytes, expected: CommitState, now: int) returns (ok: bool)
      requires Valid()
      modifies this`rows
      ensures Valid()
      ensures ok == Fires(ToCommitted(result, expected), old(rows), keys, id)
      ensures rows == Apply(ToCommitted(result, expected), old(rows), keys, id, now)
    {
      TableShapeKept(ToCommitted(result, expected), rows, keys, id, now);
      ok := id in rows && rows[id].status == Committing && rows[id].commitState == expected;
      if ok {
        rows := rows[id := rows[id].(status := Committed, commitState := Applied,
                                     connectorResult := Some(result), updatedAt := now)];
      }
    }

    method MarkDelivered(id: Bytes, now: int) returns (ok: bool)
      requires Valid()
      modifies this`rows
      ensures Valid()
      ensures ok == Fires(ToDelivered, old(rows), keys, id)
      ensures rows == Apply(ToDelivered, old(rows), keys, id, now)
    {
      TableShapeKept(ToDelivered, rows, keys, id, now);
      ok := id in rows && rows[id].status == Committed && rows[id].commitState == Applied;
      if ok {
        rows := rows[id := rows[id].(status := Delivered, updatedAt := now)];
      }
    }

    method MarkFailedWithState(id: Bytes, error: ErrorInfo, outcome: CommitState, now: int) returns (ok: bool)
      requires Valid()
      modifies this`rows
      ensures Honest(ToFailed(error, outcome)) ==> Valid()
      ensures ok == Fires(ToFailed(error, outcome), old(rows), keys, id)
      ensures rows == Apply(ToFailed(error, outcome), old(rows), keys, id, now)
    {
      if Honest(ToFailed(error, outcome)) {
        TableShapeKept(ToFailed(error, outcome), rows, keys, id, now);
      }
      ok := id in rows && rows[id].commitState == NotStarted
            && rows[id].status in {Received, SnapshotReady, Generating, Generated, Committing};
      if ok {
        rows := rows[id := rows[id].(status := Failed, commitState := outcome, error := Some(error),
                                     updatedAt := now)];
      }
    }

    method MarkCommitUnknown(id: Bytes, now: int) returns (ok: bool)
      requires Valid()
      modifies this`rows
      ensures Valid()
      ensures ok == Fires(ToUnknown, old(rows), keys, id)
      ensures rows == Apply(ToUnknown, old(rows), keys, id, now)
    {
      TableShapeKept(ToUnknown, rows, keys, id, now);
      ok := id in rows && rows[id].status == Committing && rows[id].commitState == NotStarted;
      if ok {
        rows := rows[id := rows[id].(commitState := Unknown, updatedAt := now)];
      }
    }

    /** `interrupt_stale_generating`: every generating row last touched before the cutoff, and no other row. */
    method InterruptStaleGenerating(cutoff: int, now: int) returns (interrupted: set<Bytes>)
      requires Valid()
      modifies this`rows
      ensures Valid()
      ensures interrupted == set id | id in old(rows) && old(rows)[id].status == Generating && old(rows)[id].updatedAt < cutoff
      ensures rows.Keys == old(rows).Keys
      ensures forall id :: id in rows ==>
        rows[id] == if id in interrupted then Updated(ToInterrupted, old(rows)[id], now) else old(rows)[id]
    {
      interrupted := set id | id in rows && rows[id].status == Generating && rows[id].updatedAt < cutoff;
      var after := map id | id in rows ::
        if id in interrupted then rows[id].(status := Interrupted, updatedAt := now) else rows[id];
      assert forall id :: id in rows ==>
        after[id] == if id in interrupted then Updated(ToInterrupted, rows[id], now) else rows[id];
      InterruptKeepsTable(rows, after, keys, interrupted, now);
      rows := after;
    }

    /** `put_operation_key_reference`: the first reference stays; a different one is refused. */
    method PutKeyReference(id: Bytes, secret: Bytes, version: nat) returns (ok: bool)
      requires Valid()
      modifies this`keys
      ensures Valid()
      ensures ok <==> !Blank(id) && !Blank(secret) && version != 0
                      && (id in old(keys) ==> old(keys)[id] == KeyReference(secret, version))
      ensures keys == if ok && id !in old(keys) then old(keys)[id := KeyReference(secret, version)] else old(keys)
    {
      if Blank(id) || Blank(secret) || version == 0 {
        return false;
      }
      if id !in keys {
        keys := keys[id := KeyReference(secret, version)];
        return true;
      }
      ok := keys[id] == KeyReference(secret, version);
    }
  }
}
