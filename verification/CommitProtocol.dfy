/** The commit protocol as an interleaving of live engine runs, recovery runs, the stale-run sweeper,
    delivery and the remote connector. Every database statement is one step; a run may stop after any
    step (crash, error return or cancellation); a statement may take effect without its
    acknowledgement reaching the run; the connector's answer may be lost. */
module CommitProtocol {
  import opened Wire
  import opened Operations
  import opened OperationStore
  import P = OperationPayload
  import J = ConnectorJournal

  // ---------------------------------------------------------------- claims of the engine

  datatype Disposition = FreshClaim | Resume | AlreadyDelivered | Rejected

  /** `OperationCoordinator::claim` on a row that already exists. */
  function DispositionOf(r: Record): Disposition {
    match (r.status, r.commitState)
    case (Delivered, Applied) => AlreadyDelivered
    case (Committed, Applied) => Resume
    case (Committed, NotApplied) => Rejected
    case (Delivered, NotApplied) => Rejected
    case (Committed, Unknown) => Resume
    case (Delivered, Unknown) => Resume
    case (_, NotApplied) => Rejected
    case (Conflict, _) => Rejected
    case (Failed, _) => Rejected
    case (Interrupted, _) => Rejected
    case _ => Resume
  }

  datatype Next = Proceed | AlreadyCommitted | Stop

  /** `resume_or_replay`: whether a run goes on to take a snapshot. */
  function AfterClaim(d: Disposition, r: Record): Next {
    match d
    case FreshClaim => Proceed
    case AlreadyDelivered => AlreadyCommitted
    case Rejected => Stop
    case Resume =>
      if (r.status == Committed || r.status == Delivered) && r.commitState == Applied then AlreadyCommitted
      else if r.commitState == Unknown then Stop
      else if r.status == Generated || r.status == Committing then Stop
      else Proceed
  }

  predicate Generates(kind: Bytes) {
    kind == KIND_SEND || kind == KIND_REGENERATE || kind == KIND_COMPRESS
  }

  /** Sending, regenerating and compressing ask the model; undoing, revoking and starting do not. */
  lemma KindsThatGenerate(kind: Bytes)
    ensures Generates(kind) <==> kind == Ascii("send") || kind == Ascii("regenerate") || kind == Ascii("compress")
  {
    KindsAreSpelled();
  }

  // ---------------------------------------------------------------- states

  datatype Fate = InFlight | TookEffect | Declined

  /** One mutating request that left the process. */
  datatype Call = Call(op: Bytes, body: P.Body, fate: Fate)

  datatype Pc =
    | AtSnapshot
    | AtGenerating
    | AtDraft
    | AtSettleFailure
    | AtPersist(intent: P.Intent)
    | AtReplay(seen: Record)
    | AtCommit(body: P.Body)
    | AtCall(body: P.Body)
    | AwaitAnswer(call: nat)
    | AtCommitted
    | AtNotApplied
    | AtUnknown
    | AtLookup(seen: Record)
    | AtConfirm(expected: CommitState)

  datatype Run = Run(op: Bytes, fence: Fence, replaying: bool, pc: Pc)

  datatype State = State(
    rows: Rows,
    keys: Keys,
    runs: map<nat, Run>,
    calls: seq<Call>,
    journal: J.Entries)

  /** How a database statement came back: it fired and was acknowledged, it fired but the
      acknowledgement was lost, or it did not fire. */
  datatype Ack = Won | Lost | Missed

  datatype Answer = SaysApplied | SaysNotApplied | Ambiguous

  datatype Event =
    | ClaimFresh(run: nat, request: ClaimRequest, newId: Bytes, fence: Fence, now: int)
    | ClaimExisting(run: nat, request: ClaimRequest, existing: Bytes, fence: Fence)
    | Update(run: nat, op: StoreOp, ack: Ack, now: int)
    | PutKey(id: Bytes, key: KeyReference)
    | Draft(run: nat, intent: P.Intent)
    | GenerationFailed(run: nat)
    | RefusedLocally(run: nat, definite: bool)
    | Send(run: nat)
    | Answered(run: nat, answer: Answer)
    | Abandon(run: nat)
    | StartRecovery(run: nat, id: Bytes, fence: Fence, seen: Record)
    | PlanReplay(run: nat, encryptor: P.Encryptor)
    | LookUp(run: nat)
    | Sweep(id: Bytes, cutoff: int, now: int)
    | Deliver(id: Bytes, now: int)
    | Backend(call: nat, fate: Fate)
    | JournalWrite(command: J.Command)

  // ---------------------------------------------------------------- one step

  predicate SomeEffect(calls: seq<Call>, op: Bytes) {
    exists i :: 0 <= i < |calls| && calls[i].op == op && calls[i].fate == TookEffect
  }

  predicate NoCalls(calls: seq<Call>, op: Bytes) {
    forall i :: 0 <= i < |calls| ==> calls[i].op != op
  }

  predicate AllDeclined(calls: seq<Call>, op: Bytes) {
    forall i :: 0 <= i < |calls| && calls[i].op == op ==> calls[i].fate == Declined
  }

  /** Which statements a run may issue where it stands. */
  ghost predicate Issues(run: Run, row: Record, op: StoreOp) {
    match run.pc
    case AtSnapshot => op.ToSnapshotReady?
    case AtGenerating => op.ToGenerating?
    case AtSettleFailure => op.ToFailed? && op.outcome == NotStarted
    case AtPersist(intent) =>
      op.ToGenerated? && exists e :: P.Persist(e, row, intent, run.fence) == Some(P.Persisted(op.sealed, op.digest))
    case AtCommit(_) => op.ToCommitting?
    case AtCommitted => op.ToCommitted? && op.expected == NotStarted
    case AtNotApplied => op.ToFailed? && op.outcome == NotApplied
    case AtUnknown => op.ToUnknown?
    case AtConfirm(expected) => op.ToCommitted? && op.expected == expected
    case _ => false
  }

  /** Where a run goes once its statement is acknowledged; None when it is done. */
  function WhenWon(run: Run, row: Record): Option<Pc> {
    match run.pc
    case AtSnapshot => Some(if Generates(row.kind) then AtGenerating else AtDraft)
    case AtGenerating => Some(AtDraft)
    case AtPersist(intent) => Some(AtCommit(P.LiveBody(row.id, intent, run.fence)))
    case AtCommit(body) => Some(AtCall(body))
    case _ => None
  }

  /** Where a run goes on an error: the live committer still tries to record doubt, every other run returns. */
  function WhenFailed(run: Run): Option<Pc> {
    if run.pc.AtCommitted? && !run.replaying then Some(AtUnknown) else None
  }

  function Moved(runs: map<nat, Run>, r: nat, pc: Option<Pc>): map<nat, Run>
    requires r in runs
  {
    match pc
    case None => runs - {r}
    case Some(p) => runs[r := runs[r].(pc := p)]
  }

  ghost predicate UpdateStep(s: State, r: nat, op: StoreOp, ack: Ack, now: int, s': State) {
    && r in s.runs && s.runs[r].op in s.rows
    && var run := s.runs[r];
    && var row := s.rows[run.op];
    && Issues(run, row, op)
    && match ack
       case Won =>
         && Fires(op, s.rows, s.keys, run.op)
         && s' == s.(rows := Apply(op, s.rows, s.keys, run.op, now),
                     runs := Moved(s.runs, r, WhenWon(run, row)))
       case Lost =>
         && Fires(op, s.rows, s.keys, run.op)
         && s' == s.(rows := Apply(op, s.rows, s.keys, run.op, now),
                     runs := Moved(s.runs, r, WhenFailed(run)))
       case Missed => s' == s.(runs := Moved(s.runs, r, WhenFailed(run)))
  }

  predicate At(s: State, r: nat) {
    r in s.runs && s.runs[r].op in s.rows
  }

  function Goto(s: State, r: nat, pc: Pc): State
    requires r in s.runs
  {
    s.(runs := s.runs[r := s.runs[r].(pc := pc)])
  }

  ghost predicate Step(s: State, e: Event, s': State) {
    match e
    case ClaimFresh(r, q, newId, fence, now) =>
      var id := if Blank(q.id) then newId else q.id;
      && r !in s.runs && id !in s.rows
      && (forall other :: other in s.rows ==> !SameClaim(s.rows[other], q))
      && s' == s.(rows := s.rows[id := NewRecord(id, q, now)], runs := s.runs[r := Run(id, fence, false, AtSnapshot)])
    case ClaimExisting(r, q, id, fence) =>
      && r !in s.runs && id in s.rows && MatchesClaim(s.rows[id], q)
      && AfterClaim(DispositionOf(s.rows[id]), s.rows[id]) == Proceed
      && s' == s.(runs := s.runs[r := Run(id, fence, false, AtSnapshot)])
    case Update(r, op, ack, now) => UpdateStep(s, r, op, ack, now, s')
    case PutKey(id, key) => id !in s.keys && s' == s.(keys := s.keys[id := key])
    case Draft(r, intent) =>
      && At(s, r) && s.runs[r].pc.AtDraft?
      && P.SameChat(s.rows[s.runs[r].op].locator, intent.locator)
      && s' == Goto(s, r, AtPersist(intent))
    case GenerationFailed(r) =>
      && At(s, r) && s.runs[r].pc.AtDraft? && Generates(s.rows[s.runs[r].op].kind)
      && s' == Goto(s, r, AtSettleFailure)
    case RefusedLocally(r, definite) =>
      && At(s, r) && s.runs[r].pc.AtCall?
      && s' == Goto(s, r, if definite then AtNotApplied else AtUnknown)
    case Send(r) =>
      && At(s, r) && s.runs[r].pc.AtCall?
      && s' == Goto(s, r, AwaitAnswer(|s.calls|))
               .(calls := s.calls + [Call(s.runs[r].op, s.runs[r].pc.body, InFlight)])
    case Answered(r, answer) =>
      && At(s, r) && s.runs[r].pc.AwaitAnswer? && s.runs[r].pc.call < |s.calls|
      && (answer == SaysApplied ==> s.calls[s.runs[r].pc.call].fate == TookEffect)
      && (answer == SaysNotApplied ==> s.calls[s.runs[r].pc.call].fate == Declined)
      && s' == Goto(s, r, match answer
                          case SaysApplied => AtCommitted
                          case SaysNotApplied => AtNotApplied
                          case Ambiguous => AtUnknown)
    case Abandon(r) => r in s.runs && s' == s.(runs := s.runs - {r})
    case StartRecovery(r, id, fence, seen) =>
      && r !in s.runs && id in s.rows
      && (seen.status == Generated || seen.status == Committing)
      && StillMatches(seen, s.rows[id])
      && s' == s.(runs := s.runs[r := Run(id, fence, true,
                     if seen.status == Generated then AtReplay(seen) else AtLookup(seen))])
    case PlanReplay(r, encryptor) =>
      && At(s, r) && s.runs[r].pc.AtReplay?
      && var seen := s.runs[r].pc.seen;
      && var plan := P.ReplayPlan(encryptor, seen, seen.botId, s.runs[r].fence);
      && plan.Ok?
      && s' == Goto(s, r, AtCommit(plan.value))
    case LookUp(r) =>
      && At(s, r) && s.runs[r].pc.AtLookup?
      && var seen := s.runs[r].pc.seen;
      && seen.digest.Some?
      && J.Replay(s.journal, seen.id, LocatorHash(seen.locator), seen.digest.value) == J.AlreadyApplied
      && s' == Goto(s, r, AtConfirm(seen.commitState))
    case Sweep(id, cutoff, now) =>
      && id in s.rows && s.rows[id].status == Generating && s.rows[id].updatedAt < cutoff
      && s' == s.(rows := s.rows[id := Updated(ToInterrupted, s.rows[id], now)])
    case Deliver(id, now) =>
      s' == s.(rows := Apply(ToDelivered, s.rows, s.keys, id, now))
    case Backend(i, fate) =>
      && i < |s.calls| && s.calls[i].fate == InFlight && fate != InFlight
      && s' == s.(calls := s.calls[i := s.calls[i].(fate := fate)])
    case JournalWrite(c) =>
      && (c.MarkApplied? ==> SomeEffect(s.calls, c.id))
      && s' == s.(journal := J.After(s.journal, c))
  }

  predicate Init(s: State) {
    s.rows == map[] && s.keys == map[] && s.runs == map[] && s.calls == [] && s.journal == map[]
  }

  // ---------------------------------------------------------------- the invariant

  /** The body that the persisted payload of a row stands for. */
  function RowBody(r: Record): Option<P.Body> {
    if r.payload.None? then None
    else match P.PayloadFromJson(r.payload.value.plaintext)
      case None => None
      case Some(p) => Some(P.ReplayBody(r, p))
  }

  /** The row's payload stands for this body, as far as its text reads back. */
  ghost predicate Carries(r: Record, body: P.Body) {
    r.payload.Some? && (P.ReadsBack(r.payload.value.plaintext) ==> RowBody(r) == Some(body))
  }

  predicate Owns(pc: Pc) {
    pc.AtGenerating? || pc.AtDraft? || pc.AtSettleFailure? || pc.AtPersist?
  }

  predicate HoldsCommit(pc: Pc) {
    pc.AtCall? || pc.AwaitAnswer? || pc.AtCommitted? || pc.AtNotApplied? || pc.AtUnknown?
  }

  predicate Undecided(r: Record) { r.status == Committing && r.commitState == NotStarted }

  predicate Landed(r: Record) { r.status == Committed || r.status == Delivered }

  /** What a row listed earlier, from Generated on, still has in common with the row now. */
  predicate StillMatches(seen: Record, row: Record) {
    SameIdentity(seen, row) && HasPayload(seen.status) && seen.payload.Some?
    && seen.payload == row.payload && seen.digest == row.digest
    && row.status in {Generated, Committing, Committed, Delivered, Failed}
  }

  ghost predicate RunOk(s: State, run: Run)
    requires run.op in s.rows
  {
    var row := s.rows[run.op];
    match run.pc
    case AtSnapshot => true
    case AtGenerating => row.status == SnapshotReady
    case AtDraft => row.status in {Generating, Interrupted} || (!Generates(row.kind) && row.status == SnapshotReady)
    case AtSettleFailure => row.status in {Generating, Interrupted}
    case AtPersist(intent) =>
      row.status in {SnapshotReady, Generating, Interrupted} && P.SameChat(row.locator, intent.locator)
    case AtReplay(seen) => StillMatches(seen, row)
    case AtCommit(body) =>
      row.status in {Generated, Committing, Committed, Delivered, Failed} && Carries(row, body)
    case AtCall(body) => Undecided(row) && Carries(row, body) && NoCalls(s.calls, run.op)
    case AwaitAnswer(i) => i < |s.calls| && s.calls[i].op == run.op && (Undecided(row) || Landed(row))
    case AtCommitted => SomeEffect(s.calls, run.op) && (Undecided(row) || Landed(row))
    case AtNotApplied => Undecided(row) && AllDeclined(s.calls, run.op)
    case AtUnknown => Undecided(row) || Landed(row)
    case AtLookup(seen) => StillMatches(seen, row)
    case AtConfirm(_) => SomeEffect(s.calls, run.op) && run.op in s.journal && s.journal[run.op].phase == J.Done
  }

  ghost predicate RunsOk(s: State) {
    forall r :: r in s.runs ==> s.runs[r].op in s.rows && RunOk(s, s.runs[r])
  }

  ghost predicate Exclusive(s: State) {
    forall r, q :: r in s.runs && q in s.runs && s.runs[r].op == s.runs[q].op
      && ((Owns(s.runs[r].pc) && Owns(s.runs[q].pc)) || (HoldsCommit(s.runs[r].pc) && HoldsCommit(s.runs[q].pc)))
      ==> r == q
  }

  ghost predicate CallOk(s: State, c: Call) {
    && c.op in s.rows
    && Carries(s.rows[c.op], c.body)
    && match c.fate
       case InFlight => s.rows[c.op].status == Committing
       case TookEffect => s.rows[c.op].status == Committing || Landed(s.rows[c.op])
       case Declined => s.rows[c.op].status == Committing || s.rows[c.op].commitState == NotApplied
  }

  ghost predicate CallsOk(s: State) {
    && (forall i :: 0 <= i < |s.calls| ==> CallOk(s, s.calls[i]))
    && (forall i, j :: 0 <= i < j < |s.calls| ==> s.calls[i].op != s.calls[j].op)
  }

  predicate RowOk(s: State, id: Bytes)
    requires id in s.rows
  {
    && (s.rows[id].commitState == Applied ==> SomeEffect(s.calls, id))
    && (s.rows[id].commitState == NotApplied ==> AllDeclined(s.calls, id))
  }

  ghost predicate RowsOk(s: State) {
    && TableShape(s.rows, s.keys)
    && forall id :: id in s.rows ==> RowOk(s, id)
  }

  ghost predicate JournalOk(s: State) {
    forall id :: id in s.journal && s.journal[id].phase == J.Done ==> SomeEffect(s.calls, id)
  }

  ghost predicate Inv(s: State) {
    RowsOk(s) && CallsOk(s) && RunsOk(s) && Exclusive(s) && JournalOk(s)
  }

  // ---------------------------------------------------------------- the invariant is inductive

  /** Rows change only at `id`, and there by a statement that fired. */
  ghost predicate RowStep(s: State, id: Bytes, op: StoreOp, now: int, rows: Rows) {
    id in s.rows && Guard(op, s.rows[id], KeyOf(s.keys, id)) && Honest(op)
    && rows == s.rows[id := Updated(op, s.rows[id], now)]
  }

  lemma RowStepKeepsBodies(s: State, id: Bytes, op: StoreOp, now: int, rows: Rows)
    requires RowsOk(s) && RowStep(s, id, op, now, rows)
    ensures TableShape(rows, s.keys)
    ensures HasPayload(s.rows[id].status) ==>
      RowBody(rows[id]) == RowBody(s.rows[id]) && rows[id].payload == s.rows[id].payload
    ensures SameIdentity(s.rows[id], rows[id])
  {
    UpdateFollowsStatusMachine(op, s.rows[id], KeyOf(s.keys, id), now);
    TableShapeKept(op, s.rows, s.keys, id, now);
  }

  /** A statement whose effect agrees with what the connector did keeps rows and calls truthful. */
  lemma RowStepKeepsLedger(s: State, id: Bytes, op: StoreOp, now: int, s': State)
    requires RowsOk(s) && CallsOk(s) && RowStep(s, id, op, now, s'.rows)
    requires s'.keys == s.keys && s'.calls == s.calls
    requires op.ToCommitted? ==> SomeEffect(s.calls, id)
    requires op.ToFailed? && s.rows[id].status == Committing ==> op.outcome == NotApplied && AllDeclined(s.calls, id)
    requires op.ToFailed? && op.outcome == NotApplied ==> s.rows[id].status == Committing
    requires !op.ToConflict?
    ensures RowsOk(s') && CallsOk(s')
  {
    RowStepKeepsBodies(s, id, op, now, s'.rows);
    forall i | 0 <= i < |s'.calls| ensures CallOk(s', s'.calls[i]) {
      assert CallOk(s, s.calls[i]);
      if s.calls[i].op == id && op.ToCommitted? {
        var k :| 0 <= k < |s.calls| && s.calls[k].op == id && s.calls[k].fate == TookEffect;
        assert k == i;
      }
    }
  }

  /** While some other run is still preparing the mutation, no statement on its row fires. */
  lemma OwnerIsUndisturbed(s: State, r: nat, op: StoreOp, q: nat)
    requires Inv(s) && At(s, r) && Issues(s.runs[r], s.rows[s.runs[r].op], op)
    requires q in s.runs && q != r && s.runs[q].op == s.runs[r].op && Owns(s.runs[q].pc)
    ensures !Guard(op, s.rows[s.runs[r].op], KeyOf(s.keys, s.runs[r].op))
  {
    assert RunOk(s, s.runs[r]) && RunOk(s, s.runs[q]);
    assert !Owns(s.runs[r].pc);
  }

  /** While some other run holds the commit, only a confirmation from the journal fires, and only
      if the call really took effect. */
  lemma CommitterIsUndisturbed(s: State, r: nat, op: StoreOp, q: nat)
    requires Inv(s) && At(s, r) && Issues(s.runs[r], s.rows[s.runs[r].op], op)
    requires q in s.runs && q != r && s.runs[q].op == s.runs[r].op && HoldsCommit(s.runs[q].pc)
    requires Guard(op, s.rows[s.runs[r].op], KeyOf(s.keys, s.runs[r].op))
    ensures op.ToCommitted? && SomeEffect(s.calls, s.runs[r].op)
    ensures !s.runs[q].pc.AtCall? && !s.runs[q].pc.AtNotApplied?
  {
    assert RunOk(s, s.runs[r]) && RunOk(s, s.runs[q]);
    assert !HoldsCommit(s.runs[r].pc);
  }

  /** A run's own statement does not disturb what any other run relies on. */
  lemma OtherRunKept(s: State, r: nat, op: StoreOp, now: int, s': State, q: nat)
    requires Inv(s) && At(s, r) && Issues(s.runs[r], s.rows[s.runs[r].op], op)
    requires RowStep(s, s.runs[r].op, op, now, s'.rows)
    requires s'.keys == s.keys && s'.calls == s.calls && s'.journal == s.journal
    requires q in s.runs && q != r
    ensures RunOk(s', s.runs[q])
  {
    var id := s.runs[r].op;
    assert RunOk(s, s.runs[q]);
    if s.runs[q].op == id {
      if Owns(s.runs[q].pc) {
        OwnerIsUndisturbed(s, r, op, q);
      } else if HoldsCommit(s.runs[q].pc) {
        CommitterIsUndisturbed(s, r, op, q);
      } else {
        BystanderKept(s, s.runs[q], op, now, s');
      }
    }
  }

  /** Runs that neither prepare nor commit rely only on what every statement keeps. */
  lemma BystanderKept(s: State, run: Run, op: StoreOp, now: int, s': State)
    requires RowsOk(s) && RowStep(s, run.op, op, now, s'.rows)
    requires s'.keys == s.keys && s'.calls == s.calls && s'.journal == s.journal
    requires !Owns(run.pc) && !HoldsCommit(run.pc) && RunOk(s, run) && !op.ToConflict?
    ensures RunOk(s', run)
  {
    RowStepKeepsBodies(s, run.op, op, now, s'.rows);
    assert RowShape(s.rows[run.op], KeyOf(s.keys, run.op));
    UpdateFollowsStatusMachine(op, s.rows[run.op], KeyOf(s.keys, run.op), now);
  }

  /** The row a run's statement may touch agrees with what the connector did. */
  lemma StatementIsTruthful(s: State, r: nat, op: StoreOp)
    requires Inv(s) && At(s, r) && Issues(s.runs[r], s.rows[s.runs[r].op], op)
    requires Guard(op, s.rows[s.runs[r].op], KeyOf(s.keys, s.runs[r].op))
    ensures Honest(op) && !op.ToConflict?
    ensures op.ToCommitted? ==> SomeEffect(s.calls, s.runs[r].op)
    ensures op.ToFailed? && s.rows[s.runs[r].op].status == Committing ==>
      op.outcome == NotApplied && AllDeclined(s.calls, s.runs[r].op)
    ensures op.ToFailed? && op.outcome == NotApplied ==> s.rows[s.runs[r].op].status == Committing
  {
    assert RunOk(s, s.runs[r]);
  }

  /** No call has gone out for a row that is only generated. */
  lemma GeneratedHasNoCalls(s: State, id: Bytes)
    requires RowsOk(s) && CallsOk(s) && id in s.rows && s.rows[id].status == Generated
    ensures NoCalls(s.calls, id)
  {
    assert RowShape(s.rows[id], KeyOf(s.keys, id));
    forall i | 0 <= i < |s.calls| ensures s.calls[i].op != id {
      assert CallOk(s, s.calls[i]);
    }
  }

  /** The run itself arrives where its new program point requires. */
  lemma WinnerArrives(s: State, r: nat, op: StoreOp, now: int, s': State)
    requires Inv(s) && UpdateStep(s, r, op, Won, now, s')
    requires WhenWon(s.runs[r], s.rows[s.runs[r].op]).Some?
    ensures RunOk(s', s'.runs[r])
  {
    var id := s.runs[r].op;
    var run := s.runs[r];
    assert RunOk(s, run);
    assert RowShape(s.rows[id], KeyOf(s.keys, id));
    if run.pc.AtPersist? {
      PersistedBodyIsLiveBody(s.rows[id], run.pc.intent, run.fence, op, now);
    } else if run.pc.AtCommit? {
      GeneratedHasNoCalls(s, id);
    }
  }

  lemma PersistedBodyIsLiveBody(row: Record, intent: P.Intent, fence: Fence, op: StoreOp, now: int)
    requires op.ToGenerated? && P.SameChat(row.locator, intent.locator)
    requires exists e :: P.Persist(e, row, intent, fence) == Some(P.Persisted(op.sealed, op.digest))
    ensures Carries(Updated(op, row, now), P.LiveBody(row.id, intent, fence))
  {
    var e :| P.Persist(e, row, intent, fence) == Some(P.Persisted(op.sealed, op.digest));
    var p := P.IntentPayload(row.id, row.kind, intent, fence).value;
    var text := op.sealed.plaintext;
    assert P.PayloadJson(p) == text;
    assert P.ReadsBack(text) ==> P.PayloadFromJson(text) == Some(p);
  }

  ghost predicate NoOtherOwner(s: State, r: nat)
    requires r in s.runs
  {
    forall q :: q in s.runs && q != r && s.runs[q].op == s.runs[r].op ==> !Owns(s.runs[q].pc)
  }

  ghost predicate NoOtherCommitter(s: State, r: nat)
    requires r in s.runs
  {
    forall q :: q in s.runs && q != r && s.runs[q].op == s.runs[r].op ==> !HoldsCommit(s.runs[q].pc)
  }

  /** Moving one run within its class, or out, keeps the others exclusive. */
  lemma ExclusiveKept(s: State, r: nat, pc: Option<Pc>, s': State)
    requires Exclusive(s) && r in s.runs && s'.runs == Moved(s.runs, r, pc)
    requires pc.Some? && Owns(pc.value) && !Owns(s.runs[r].pc) ==> NoOtherOwner(s, r)
    requires pc.Some? && HoldsCommit(pc.value) && !HoldsCommit(s.runs[r].pc) ==> NoOtherCommitter(s, r)
    ensures Exclusive(s')
  {
  }

  /** A run that fires its first claim on the row, or on the commit, has no rival. */
  lemma WinnerHasNoRival(s: State, r: nat, op: StoreOp)
    requires Inv(s) && At(s, r) && Issues(s.runs[r], s.rows[s.runs[r].op], op)
    requires Fires(op, s.rows, s.keys, s.runs[r].op)
    ensures NoOtherOwner(s, r)
    ensures !op.ToCommitted? ==> NoOtherCommitter(s, r)
  {
    forall q | q in s.runs && q != r && s.runs[q].op == s.runs[r].op ensures !Owns(s.runs[q].pc) {
      if Owns(s.runs[q].pc) { OwnerIsUndisturbed(s, r, op, q); }
    }
    if !op.ToCommitted? {
      forall q | q in s.runs && q != r && s.runs[q].op == s.runs[r].op ensures !HoldsCommit(s.runs[q].pc) {
        if HoldsCommit(s.runs[q].pc) { CommitterIsUndisturbed(s, r, op, q); }
      }
    }
  }

  /** A run whose acknowledgement was lost and which goes on to record doubt. */
  lemma LoserArrives(s: State, r: nat, op: StoreOp, now: int, s': State)
    requires Inv(s) && UpdateStep(s, r, op, Lost, now, s') && r in s'.runs
    ensures s'.runs[r].op in s'.rows && RunOk(s', s'.runs[r])
  {
    assert RunOk(s, s.runs[r]);
  }

  lemma FiredUpdateKeepsRuns(s: State, r: nat, op: StoreOp, ack: Ack, now: int, s': State)
    requires Inv(s) && UpdateStep(s, r, op, ack, now, s') && !ack.Missed?
    requires Honest(op)
    ensures RunsOk(s')
  {
    forall q | q in s'.runs ensures s'.runs[q].op in s'.rows && RunOk(s', s'.runs[q]) {
      if q != r {
        OtherRunKept(s, r, op, now, s', q);
      } else if ack.Won? {
        WinnerArrives(s, r, op, now, s');
      } else {
        LoserArrives(s, r, op, now, s');
      }
    }
  }

  lemma FiredUpdateKeepsExclusive(s: State, r: nat, op: StoreOp, ack: Ack, now: int, s': State)
    requires Inv(s) && UpdateStep(s, r, op, ack, now, s') && !ack.Missed?
    ensures Exclusive(s')
  {
    WinnerHasNoRival(s, r, op);
    ExclusiveKept(s, r, if ack.Won? then WhenWon(s.runs[r], s.rows[s.runs[r].op]) else WhenFailed(s.runs[r]), s');
  }

  lemma FiredUpdateKeepsInv(s: State, r: nat, op: StoreOp, ack: Ack, now: int, s': State)
    requires Inv(s) && UpdateStep(s, r, op, ack, now, s') && !ack.Missed?
    ensures Inv(s')
  {
    StatementIsTruthful(s, r, op);
    RowStepKeepsLedger(s, s.runs[r].op, op, now, s');
    FiredUpdateKeepsExclusive(s, r, op, ack, now, s');
    FiredUpdateKeepsRuns(s, r, op, ack, now, s');
  }

  /** Rows, keys, calls and journal stand still. */
  predicate SameLedger(s: State, s': State) {
    s'.rows == s.rows && s'.keys == s.keys && s'.calls == s.calls && s'.journal == s.journal
  }

  lemma LedgerFrame(s: State, s': State)
    requires RowsOk(s) && CallsOk(s) && JournalOk(s) && SameLedger(s, s')
    ensures RowsOk(s') && CallsOk(s') && JournalOk(s')
  {
    forall i | 0 <= i < |s'.calls| ensures CallOk(s', s'.calls[i]) { assert CallOk(s, s.calls[i]); }
    forall id | id in s'.rows ensures RowOk(s', id) { assert RowOk(s, id); }
  }

  lemma RunFrame(s: State, s': State, run: Run)
    requires run.op in s.rows && RunOk(s, run) && SameLedger(s, s')
    ensures RunOk(s', run)
  {
  }

  /** A run that moves while rows, calls and journal stand still. */
  lemma MoveKeepsInv(s: State, r: nat, pc: Option<Pc>, s': State)
    requires Inv(s) && r in s.runs && s' == s.(runs := Moved(s.runs, r, pc))
    requires pc.Some? ==> RunOk(s, s.runs[r].(pc := pc.value))
    requires pc.Some? && Owns(pc.value) ==> Owns(s.runs[r].pc)
    requires pc.Some? && HoldsCommit(pc.value) ==> HoldsCommit(s.runs[r].pc)
    ensures Inv(s')
  {
    ExclusiveKept(s, r, pc, s');
    LedgerFrame(s, s');
    forall q | q in s'.runs ensures s'.runs[q].op in s'.rows && RunOk(s', s'.runs[q]) {
      RunFrame(s, s', if q == r then s'.runs[r] else s.runs[q]);
    }
  }

  lemma UpdateKeepsInv(s: State, r: nat, op: StoreOp, ack: Ack, now: int, s': State)
    requires Inv(s) && UpdateStep(s, r, op, ack, now, s')
    ensures Inv(s')
  {
    if ack.Missed? {
      assert RunOk(s, s.runs[r]);
      MoveKeepsInv(s, r, WhenFailed(s.runs[r]), s');
    } else {
      FiredUpdateKeepsInv(s, r, op, ack, now, s');
    }
  }

  /** A row that appears where there was none disturbs nothing. */
  lemma NewRowKeepsLedger(s: State, q: ClaimRequest, id: Bytes, now: int, s': State)
    requires RowsOk(s) && CallsOk(s) && JournalOk(s) && id !in s.rows
    requires s'.rows == s.rows[id := NewRecord(id, q, now)]
    requires s'.keys == s.keys && s'.calls == s.calls && s'.journal == s.journal
    ensures RowsOk(s') && CallsOk(s') && JournalOk(s')
  {
    forall x | x in s'.rows ensures s'.rows[x].id == x && RowShape(s'.rows[x], KeyOf(s'.keys, x)) && RowOk(s', x) {
      if x != id { assert RowOk(s, x) && RowShape(s.rows[x], KeyOf(s.keys, x)); }
    }
    forall i | 0 <= i < |s'.calls| ensures CallOk(s', s'.calls[i]) { assert CallOk(s, s.calls[i]); }
  }

  lemma NewRowKeepsRun(s: State, q: ClaimRequest, id: Bytes, now: int, s': State, run: Run)
    requires run.op in s.rows && RunOk(s, run) && id !in s.rows
    requires s'.rows == s.rows[id := NewRecord(id, q, now)] && s'.calls == s.calls && s'.journal == s.journal
    ensures RunOk(s', run)
  {
  }

  lemma ClaimKeepsInv(s: State, r: nat, q: ClaimRequest, id: Bytes, fence: Fence, now: int, s': State)
    requires Inv(s) && r !in s.runs && id !in s.rows
    requires s' == s.(rows := s.rows[id := NewRecord(id, q, now)], runs := s.runs[r := Run(id, fence, false, AtSnapshot)])
    ensures Inv(s')
  {
    NewRowKeepsLedger(s, q, id, now, s');
    forall x | x in s'.runs ensures s'.runs[x].op in s'.rows && RunOk(s', s'.runs[x]) {
      if x != r { NewRowKeepsRun(s, q, id, now, s', s.runs[x]); }
    }
  }

  /** A new run at a point that claims nothing. */
  lemma NewRunKeepsInv(s: State, r: nat, run: Run, s': State)
    requires Inv(s) && r !in s.runs && run.op in s.rows && s' == s.(runs := s.runs[r := run])
    requires !Owns(run.pc) && !HoldsCommit(run.pc) && RunOk(s, run)
    ensures Inv(s')
  {
    LedgerFrame(s, s');
    forall x | x in s'.runs ensures s'.runs[x].op in s'.rows && RunOk(s', s'.runs[x]) {
      RunFrame(s, s', if x == r then run else s.runs[x]);
    }
  }

  lemma PutKeyKeepsInv(s: State, id: Bytes, key: KeyReference, s': State)
    requires Inv(s) && id !in s.keys && s' == s.(keys := s.keys[id := key])
    ensures Inv(s')
  {
    forall x | x in s'.rows ensures s'.rows[x].id == x && RowShape(s'.rows[x], KeyOf(s'.keys, x)) && RowOk(s', x) {
      assert RowOk(s, x) && RowShape(s.rows[x], KeyOf(s.keys, x));
    }
    forall i | 0 <= i < |s'.calls| ensures CallOk(s', s'.calls[i]) { assert CallOk(s, s.calls[i]); }
    forall x | x in s'.runs ensures s'.runs[x].op in s'.rows && RunOk(s', s'.runs[x]) { assert RunOk(s, s.runs[x]); }
  }

  /** Appending a call keeps what other operations' calls show. */
  lemma AppendedCall(calls: seq<Call>, c: Call, op: Bytes)
    ensures SomeEffect(calls, op) ==> SomeEffect(calls + [c], op)
    ensures op != c.op ==> (AllDeclined(calls + [c], op) <==> AllDeclined(calls, op))
    ensures op != c.op ==> (NoCalls(calls + [c], op) <==> NoCalls(calls, op))
  {
    var calls' := calls + [c];
    assert forall i :: 0 <= i < |calls| ==> calls'[i] == calls[i];
    if SomeEffect(calls, op) {
      var i :| 0 <= i < |calls| && calls[i].op == op && calls[i].fate == TookEffect;
      assert calls'[i].op == op && calls'[i].fate == TookEffect;
    }
  }

  lemma SendKeepsLedger(s: State, r: nat, s': State)
    requires Inv(s) && Step(s, Send(r), s')
    ensures RowsOk(s') && CallsOk(s') && JournalOk(s')
  {
    var c := s'.calls[|s.calls|];
    assert RunOk(s, s.runs[r]);
    forall i | 0 <= i < |s'.calls| ensures CallOk(s', s'.calls[i]) {
      if i < |s.calls| { assert CallOk(s, s.calls[i]); }
    }
    forall x | x in s'.rows ensures RowOk(s', x) {
      assert RowOk(s, x);
      AppendedCall(s.calls, c, x);
    }
    forall x | x in s'.journal && s'.journal[x].phase == J.Done ensures SomeEffect(s'.calls, x) {
      AppendedCall(s.calls, c, x);
    }
  }

  /** A call for another operation, or for one this run does not commit, leaves the run as it was. */
  lemma AppendKeepsRun(s: State, c: Call, s': State, run: Run)
    requires run.op in s.rows && RunOk(s, run) && (run.op == c.op ==> !HoldsCommit(run.pc))
    requires s'.rows == s.rows && s'.journal == s.journal && s'.calls == s.calls + [c]
    ensures RunOk(s', run)
  {
    AppendedCall(s.calls, c, run.op);
  }

  lemma SendKeepsRuns(s: State, r: nat, s': State)
    requires Inv(s) && Step(s, Send(r), s')
    ensures RunsOk(s')
  {
    assert RunOk(s, s.runs[r]);
    forall q | q in s'.runs ensures s'.runs[q].op in s'.rows && RunOk(s', s'.runs[q]) {
      if q != r {
        AppendKeepsRun(s, s'.calls[|s.calls|], s', s.runs[q]);
      }
    }
  }

  lemma SendKeepsInv(s: State, r: nat, s': State)
    requires Inv(s) && Step(s, Send(r), s')
    ensures Inv(s')
  {
    SendKeepsLedger(s, r, s');
    SendKeepsRuns(s, r, s');
    ExclusiveKept(s, r, Some(AwaitAnswer(|s.calls|)), s');
  }

  lemma SettledCall(calls: seq<Call>, i: nat, fate: Fate, op: Bytes)
    requires i < |calls| && calls[i].fate == InFlight && fate != InFlight
    ensures var calls' := calls[i := calls[i].(fate := fate)];
      && (SomeEffect(calls, op) ==> SomeEffect(calls', op))
      && (AllDeclined(calls, op) ==> AllDeclined(calls', op))
      && (NoCalls(calls, op) ==> NoCalls(calls', op))
  {
    var calls' := calls[i := calls[i].(fate := fate)];
    if SomeEffect(calls, op) {
      var k :| 0 <= k < |calls| && calls[k].op == op && calls[k].fate == TookEffect;
      assert calls'[k].op == op && calls'[k].fate == TookEffect;
    }
  }

  lemma SettlingKeepsRun(s: State, i: nat, fate: Fate, s': State, run: Run)
    requires run.op in s.rows && RunOk(s, run)
    requires i < |s.calls| && s.calls[i].fate == InFlight && fate != InFlight
    requires s' == s.(calls := s.calls[i := s.calls[i].(fate := fate)])
    ensures RunOk(s', run)
  {
    SettledCall(s.calls, i, fate, run.op);
  }

  lemma BackendKeepsInv(s: State, i: nat, fate: Fate, s': State)
    requires Inv(s) && Step(s, Backend(i, fate), s')
    ensures Inv(s')
  {
    forall k | 0 <= k < |s'.calls| ensures CallOk(s', s'.calls[k]) { assert CallOk(s, s.calls[k]); }
    forall x | x in s'.rows ensures RowOk(s', x) {
      assert RowOk(s, x);
      SettledCall(s.calls, i, fate, x);
    }
    forall q | q in s'.runs ensures s'.runs[q].op in s'.rows && RunOk(s', s'.runs[q]) {
      SettlingKeepsRun(s, i, fate, s', s.runs[q]);
    }
    forall x | x in s'.journal && s'.journal[x].phase == J.Done ensures SomeEffect(s'.calls, x) {
      SettledCall(s.calls, i, fate, x);
    }
  }

  lemma SweepKeepsRun(s: State, id: Bytes, now: int, s': State, run: Run)
    requires run.op in s.rows && RunOk(s, run) && id in s.rows && s.rows[id].status == Generating
    requires s' == s.(rows := s.rows[id := Updated(ToInterrupted, s.rows[id], now)])
    ensures RunOk(s', run)
  {
  }

  /** The sweeper and the delivery mark touch rows that no run relies on. */
  lemma SweepKeepsInv(s: State, id: Bytes, now: int, s': State)
    requires Inv(s) && id in s.rows && s.rows[id].status == Generating
    requires s' == s.(rows := s.rows[id := Updated(ToInterrupted, s.rows[id], now)])
    ensures Inv(s')
  {
    assert RowShape(s.rows[id], KeyOf(s.keys, id));
    RowStepKeepsLedger(s, id, ToInterrupted, now, s');
    forall q | q in s'.runs ensures s'.runs[q].op in s'.rows && RunOk(s', s'.runs[q]) {
      SweepKeepsRun(s, id, now, s', s.runs[q]);
    }
  }

  lemma DeliveryKeepsRun(s: State, id: Bytes, now: int, s': State, run: Run)
    requires run.op in s.rows && RunOk(s, run) && Fires(ToDelivered, s.rows, s.keys, id)
    requires s' == s.(rows := Apply(ToDelivered, s.rows, s.keys, id, now))
    requires RowBody(s'.rows[id]) == RowBody(s.rows[id]) && SameIdentity(s.rows[id], s'.rows[id])
    requires s'.rows[id].payload == s.rows[id].payload
    ensures RunOk(s', run)
  {
  }

  lemma DeliverKeepsInv(s: State, id: Bytes, now: int, s': State)
    requires Inv(s) && s' == s.(rows := Apply(ToDelivered, s.rows, s.keys, id, now))
    ensures Inv(s')
  {
    if Fires(ToDelivered, s.rows, s.keys, id) {
      RowStepKeepsLedger(s, id, ToDelivered, now, s');
      RowStepKeepsBodies(s, id, ToDelivered, now, s'.rows);
      forall q | q in s'.runs ensures s'.runs[q].op in s'.rows && RunOk(s', s'.runs[q]) {
        DeliveryKeepsRun(s, id, now, s', s.runs[q]);
      }
    }
  }

  /** A replay plan made from a stale but unchanged view is the body the row stands for. */
  lemma PlanIsRowBody(e: P.Encryptor, seen: Record, row: Record, fence: Fence)
    requires StillMatches(seen, row)
    requires P.ReplayPlan(e, seen, seen.botId, fence).Ok?
    ensures RowBody(row) == Some(P.ReplayPlan(e, seen, seen.botId, fence).value)
  {
    var p := P.DecryptForOperation(e, seen, fence).value;
    assert P.DecodeAndValidate(e, seen, seen.payload.value, fence) == P.Ok(p);
    assert P.PayloadFromJson(seen.payload.value.plaintext) == Some(p);
  }

  /** Where a planned replay and a positive lookup lead. */
  lemma PlanArrives(s: State, r: nat, e: P.Encryptor, s': State)
    requires RunsOk(s) && Step(s, PlanReplay(r, e), s')
    ensures r in s'.runs && s'.runs[r].pc.AtCommit? && s' == Goto(s, r, s'.runs[r].pc)
    ensures RunOk(s, s'.runs[r])
  {
    var run := s.runs[r];
    assert RunOk(s, run);
    PlanIsRowBody(e, run.pc.seen, s.rows[run.op], run.fence);
  }

  lemma PlanReplayKeepsInv(s: State, r: nat, e: P.Encryptor, s': State)
    requires Inv(s) && Step(s, PlanReplay(r, e), s')
    ensures Inv(s')
  {
    PlanArrives(s, r, e, s');
    GotoKeepsInv(s, r, s'.runs[r].pc, s');
  }

  lemma LookUpArrives(s: State, r: nat, s': State)
    requires RowsOk(s) && RunsOk(s) && JournalOk(s) && Step(s, LookUp(r), s')
    ensures r in s'.runs && s'.runs[r].pc.AtConfirm? && s' == Goto(s, r, s'.runs[r].pc)
    ensures RunOk(s, s'.runs[r])
  {
    var run := s.runs[r];
    assert RunOk(s, run);
    assert s.rows[run.op].id == run.op;
  }

  lemma LookUpKeepsInv(s: State, r: nat, s': State)
    requires Inv(s) && Step(s, LookUp(r), s')
    ensures Inv(s')
  {
    LookUpArrives(s, r, s');
    GotoKeepsInv(s, r, s'.runs[r].pc, s');
  }

  lemma GotoKeepsInv(s: State, r: nat, pc: Pc, s': State)
    requires Inv(s) && r in s.runs && s' == Goto(s, r, pc)
    requires RunOk(s, s.runs[r].(pc := pc))
    requires Owns(pc) ==> Owns(s.runs[r].pc)
    requires HoldsCommit(pc) ==> HoldsCommit(s.runs[r].pc)
    ensures Inv(s')
  {
    MoveKeepsInv(s, r, Some(pc), s');
  }

  /** Where drafting, a failed generation and a local refusal lead. */
  lemma LocalArrives(s: State, e: Event, s': State)
    requires RunsOk(s) && Step(s, e, s') && (e.Draft? || e.GenerationFailed? || e.RefusedLocally?)
    ensures e.run in s.runs && e.run in s'.runs && s' == Goto(s, e.run, s'.runs[e.run].pc)
    ensures RunOk(s, s'.runs[e.run])
    ensures Owns(s'.runs[e.run].pc) ==> Owns(s.runs[e.run].pc)
    ensures HoldsCommit(s'.runs[e.run].pc) ==> HoldsCommit(s.runs[e.run].pc)
  {
    assert RunOk(s, s.runs[e.run]);
  }

  /** Steps inside a run: drafting, failing to generate, refusing locally, stopping. */
  lemma LocalStepKeepsInv(s: State, e: Event, s': State)
    requires Inv(s) && Step(s, e, s')
    requires e.Draft? || e.GenerationFailed? || e.RefusedLocally? || e.Abandon?
    ensures Inv(s')
  {
    if e.Abandon? {
      MoveKeepsInv(s, e.run, None, s');
    } else {
      LocalArrives(s, e, s');
      GotoKeepsInv(s, e.run, s'.runs[e.run].pc, s');
    }
  }

  lemma ClaimStepKeepsInv(s: State, e: Event, s': State)
    requires Inv(s) && Step(s, e, s')
    requires e.ClaimFresh? || e.ClaimExisting?
    ensures Inv(s')
  {
    match e
    case ClaimFresh(r, q, newId, fence, now) =>
      ClaimKeepsInv(s, r, q, if Blank(q.id) then newId else q.id, fence, now, s');
    case ClaimExisting(r, q, id, fence) => NewRunKeepsInv(s, r, Run(id, fence, false, AtSnapshot), s');
  }

  /** A journal entry that says applied keeps saying so. */
  lemma JournalKeepsRun(s: State, c: J.Command, s': State, run: Run)
    requires run.op in s.rows && RunOk(s, run) && s' == s.(journal := J.After(s.journal, c))
    ensures RunOk(s', run)
  {
  }

  lemma JournalWriteKeepsInv(s: State, c: J.Command, s': State)
    requires Inv(s) && Step(s, JournalWrite(c), s')
    ensures Inv(s')
  {
    forall q | q in s'.runs ensures s'.runs[q].op in s'.rows && RunOk(s', s'.runs[q]) {
      JournalKeepsRun(s, c, s', s.runs[q]);
    }
    forall i | 0 <= i < |s'.calls| ensures CallOk(s', s'.calls[i]) { assert CallOk(s, s.calls[i]); }
    forall id | id in s'.rows ensures RowOk(s', id) { assert RowOk(s, id); }
  }

  /** Steps of one run between its statements. */
  lemma RunStepKeepsInv(s: State, e: Event, s': State)
    requires Inv(s) && Step(s, e, s')
    requires e.Draft? || e.GenerationFailed? || e.RefusedLocally? || e.Abandon? || e.Send? || e.Answered?
             || e.PlanReplay? || e.LookUp?
    ensures Inv(s')
  {
    match e
    case Send(r) => SendKeepsInv(s, r, s');
    case Answered(r, answer) => AnswerKeepsInv(s, r, answer, s');
    case PlanReplay(r, encryptor) => PlanReplayKeepsInv(s, r, encryptor, s');
    case LookUp(r) => LookUpKeepsInv(s, r, s');
    case _ => LocalStepKeepsInv(s, e, s');
  }

  /** Steps that no run takes. */
  lemma OutsideStepKeepsInv(s: State, e: Event, s': State)
    requires Inv(s) && Step(s, e, s')
    requires e.PutKey? || e.Sweep? || e.Deliver? || e.Backend? || e.JournalWrite?
    ensures Inv(s')
  {
    match e
    case PutKey(id, key) => PutKeyKeepsInv(s, id, key, s');
    case Sweep(id, cutoff, now) => SweepKeepsInv(s, id, now, s');
    case Deliver(id, now) => DeliverKeepsInv(s, id, now, s');
    case Backend(i, fate) => BackendKeepsInv(s, i, fate, s');
    case JournalWrite(c) => JournalWriteKeepsInv(s, c, s');
  }

  lemma StepKeepsInv(s: State, e: Event, s': State)
    requires Inv(s) && Step(s, e, s')
    ensures Inv(s')
  {
    if e.Update? {
      UpdateKeepsInv(s, e.run, e.op, e.ack, e.now, s');
    } else if e.StartRecovery? {
      StartRecoveryKeepsInv(s, e.run, e.id, e.fence, e.seen, s');
    } else if e.ClaimFresh? || e.ClaimExisting? {
      ClaimStepKeepsInv(s, e, s');
    } else if e.PutKey? || e.Sweep? || e.Deliver? || e.Backend? || e.JournalWrite? {
      OutsideStepKeepsInv(s, e, s');
    } else {
      RunStepKeepsInv(s, e, s');
    }
  }

  lemma AnswerArrives(s: State, r: nat, answer: Answer, s': State)
    requires RowsOk(s) && CallsOk(s) && RunsOk(s) && Step(s, Answered(r, answer), s')
    ensures r in s.runs && r in s'.runs && s' == Goto(s, r, s'.runs[r].pc)
    ensures HoldsCommit(s.runs[r].pc) && HoldsCommit(s'.runs[r].pc) && RunOk(s, s'.runs[r])
  {
    var run := s.runs[r];
    assert RunOk(s, run);
    if answer == SaysNotApplied {
      DeclinedIsUndecided(s, run.pc.call);
    }
  }

  /** The one call of an operation was declined: its row is undecided or already says so. */
  lemma DeclinedIsUndecided(s: State, i: nat)
    requires RowsOk(s) && CallsOk(s) && i < |s.calls| && s.calls[i].fate == Declined
    ensures s.calls[i].op in s.rows && AllDeclined(s.calls, s.calls[i].op)
    ensures !Landed(s.rows[s.calls[i].op])
  {
    var id := s.calls[i].op;
    assert CallOk(s, s.calls[i]);
    assert RowShape(s.rows[id], KeyOf(s.keys, id));
    forall k | 0 <= k < |s.calls| && s.calls[k].op == id ensures s.calls[k].fate == Declined {
      assert k == i;
    }
  }

  lemma AnswerKeepsInv(s: State, r: nat, answer: Answer, s': State)
    requires Inv(s) && Step(s, Answered(r, answer), s')
    ensures Inv(s')
  {
    AnswerArrives(s, r, answer, s');
    GotoKeepsInv(s, r, s'.runs[r].pc, s');
  }

  lemma StartRecoveryKeepsInv(s: State, r: nat, id: Bytes, fence: Fence, seen: Record, s': State)
    requires Inv(s) && Step(s, StartRecovery(r, id, fence, seen), s')
    ensures Inv(s')
  {
    NewRunKeepsInv(s, r, s'.runs[r], s');
  }
}
