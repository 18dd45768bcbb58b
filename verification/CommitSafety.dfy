/** What every execution of the commit protocol guarantees. */
module CommitSafety {
  import opened Wire
  import opened Operations
  import opened OperationStore
  import opened CommitProtocol
  import P = OperationPayload
  import J = ConnectorJournal

  ghost predicate Execution(states: seq<State>, events: seq<Event>) {
    && |states| == |events| + 1
    && Init(states[0])
    && forall i :: 0 <= i < |events| ==> Step(states[i], events[i], states[i + 1])
  }

  lemma {:induction false} InvHolds(states: seq<State>, events: seq<Event>, n: nat)
    requires Execution(states, events) && n < |states|
    ensures Inv(states[n])
  {
    if n > 0 {
      InvHolds(states, events, n - 1);
      StepKeepsInv(states[n - 1], events[n - 1], states[n]);
    }
  }

  // ---------------------------------------------------------------- how rows and calls evolve

  /** One row across one step: untouched, or rewritten by one honest statement whose guard held. */
  ghost predicate RowAdvances(s: State, s': State, id: Bytes)
    requires id in s.rows && id in s'.rows
  {
    s'.rows[id] == s.rows[id]
    || exists op, now :: Guard(op, s.rows[id], KeyOf(s.keys, id)) && Honest(op) && !op.ToConflict?
                         && s'.rows[id] == Updated(op, s.rows[id], now)
  }

  lemma StatementAdvances(s: State, s': State, id: Bytes, op: StoreOp, now: int)
    requires id in s.rows && id in s'.rows
    requires Guard(op, s.rows[id], KeyOf(s.keys, id)) && Honest(op) && !op.ToConflict?
    requires s'.rows[id] == Updated(op, s.rows[id], now)
    ensures RowAdvances(s, s', id)
  {
  }

  lemma UpdateAdvancesRow(s: State, r: nat, op: StoreOp, ack: Ack, now: int, s': State, id: Bytes)
    requires Inv(s) && UpdateStep(s, r, op, ack, now, s') && id in s.rows
    ensures id in s'.rows && RowAdvances(s, s', id)
  {
    if s'.rows[id] != s.rows[id] {
      StatementIsTruthful(s, r, op);
      StatementAdvances(s, s', id, op, now);
    }
  }

  lemma BystanderAdvancesRow(s: State, e: Event, s': State, id: Bytes)
    requires RowsOk(s) && Step(s, e, s') && (e.Sweep? || e.Deliver?) && id in s.rows
    ensures id in s'.rows && RowAdvances(s, s', id)
  {
    assert RowShape(s.rows[id], KeyOf(s.keys, id));
    if s'.rows[id] != s.rows[id] {
      if e.Sweep? {
        StatementAdvances(s, s', id, ToInterrupted, e.now);
      } else {
        StatementAdvances(s, s', id, ToDelivered, e.now);
      }
    }
  }

  lemma RowAdvancesByStatements(s: State, e: Event, s': State, id: Bytes)
    requires Inv(s) && Step(s, e, s') && id in s.rows
    ensures id in s'.rows && RowAdvances(s, s', id)
  {
    if e.Update? {
      UpdateAdvancesRow(s, e.run, e.op, e.ack, e.now, s', id);
    } else if e.Sweep? || e.Deliver? {
      BystanderAdvancesRow(s, e, s', id);
    } else {
      assert s'.rows[id] == s.rows[id];
    }
  }

  /** Calls are only appended; operation and body of a call never change. */
  ghost predicate CallsExtend(a: seq<Call>, b: seq<Call>) {
    |a| <= |b| && forall i :: 0 <= i < |a| ==> a[i].op == b[i].op && a[i].body == b[i].body
  }

  lemma CallsOnlyGrow(s: State, e: Event, s': State)
    requires Step(s, e, s')
    ensures CallsExtend(s.calls, s'.calls)
  {
  }

  lemma {:induction false} CallsGrowAlong(states: seq<State>, events: seq<Event>, m: nat, n: nat)
    requires Execution(states, events) && m <= n < |states|
    ensures CallsExtend(states[m].calls, states[n].calls)
    decreases n
  {
    if m < n {
      CallsGrowAlong(states, events, m, n - 1);
      CallsOnlyGrow(states[n - 1], events[n - 1], states[n]);
    }
  }

  // ---------------------------------------------------------------- at most one call

  /** The operation whose mutating request leaves the process in this step, if any. */
  function SentFor(s: State, e: Event): Option<Bytes> {
    if e.Send? && e.run in s.runs then Some(s.runs[e.run].op) else None
  }

  lemma SendAppends(s: State, e: Event, s': State)
    requires Inv(s) && Step(s, e, s') && e.Send?
    ensures SentFor(s, e).Some?
    ensures NoCalls(s.calls, SentFor(s, e).value)
    ensures |s'.calls| == |s.calls| + 1 && s'.calls[|s.calls|].op == SentFor(s, e).value
  {
    assert RunOk(s, s.runs[e.run]);
  }

  /** No two mutating requests of one execution carry the same operation id, whoever sends them:
      the live committer, a replay, or both in a race, before or after any crash. */
  lemma AtMostOneRequestPerOperation(states: seq<State>, events: seq<Event>, m: nat, n: nat)
    requires Execution(states, events) && m < n < |events|
    requires events[m].Send? && events[n].Send?
    ensures SentFor(states[m], events[m]).Some? && SentFor(states[n], events[n]).Some?
    ensures SentFor(states[m], events[m]) != SentFor(states[n], events[n])
  {
    InvHolds(states, events, m);
    SendAppends(states[m], events[m], states[m + 1]);
    var k := |states[m].calls|;
    CallsGrowAlong(states, events, m + 1, n);
    assert states[n].calls[k].op == states[m + 1].calls[k].op;
    InvHolds(states, events, n);
    SendAppends(states[n], events[n], states[n + 1]);
  }

  /** The Generated-to-Committing statement fires at most once per operation. */
  lemma CommitIsWonOnce(states: seq<State>, events: seq<Event>, m: nat, n: nat, id: Bytes)
    requires Execution(states, events) && m < n < |events|
    requires id in states[m].rows && states[m].rows[id].status == Generated
    requires id in states[m + 1].rows && states[m + 1].rows[id].status == Committing
    ensures id in states[n].rows && states[n].rows[id].status != Generated
  {
    InvHolds(states, events, m);
    RowAdvancesByStatements(states[m], events[m], states[m + 1], id);
    PotentialFalls(states, events, m + 1, n, id);
  }

  // ---------------------------------------------------------------- progress is bounded

  lemma {:induction false} PotentialFalls(states: seq<State>, events: seq<Event>, m: nat, n: nat, id: Bytes)
    requires Execution(states, events) && m <= n < |states| && id in states[m].rows
    ensures id in states[n].rows && Potential(states[n].rows[id]) <= Potential(states[m].rows[id])
    decreases n
  {
    if m < n {
      PotentialFalls(states, events, m, n - 1, id);
      StepSpendsPotential(states, events, n - 1, id);
    }
  }

  lemma StepSpendsPotential(states: seq<State>, events: seq<Event>, n: nat, id: Bytes)
    requires Execution(states, events) && n < |events| && id in states[n].rows
    ensures id in states[n + 1].rows
    ensures states[n + 1].rows[id] != states[n].rows[id] ==>
      && Potential(states[n + 1].rows[id]) < Potential(states[n].rows[id])
      && !IsTerminal(states[n].rows[id].status)
      && (CanTransition(states[n].rows[id].status, states[n + 1].rows[id].status)
          || states[n + 1].rows[id].status == states[n].rows[id].status == Committing)
  {
    var s, s' := states[n], states[n + 1];
    InvHolds(states, events, n);
    RowAdvancesByStatements(s, events[n], s', id);
    if s'.rows[id] != s.rows[id] {
      var op, now :| Guard(op, s.rows[id], KeyOf(s.keys, id)) && Honest(op) && !op.ToConflict?
                     && s'.rows[id] == Updated(op, s.rows[id], now);
      assert RowShape(s.rows[id], KeyOf(s.keys, id));
      UpdateFollowsStatusMachine(op, s.rows[id], KeyOf(s.keys, id), now);
    }
  }

  /** How often the row of `id` was rewritten in the first `n` steps after it existed. */
  ghost function Rewrites(states: seq<State>, id: Bytes, n: nat): nat
    requires n < |states|
  {
    if n == 0 then 0
    else Rewrites(states, id, n - 1)
         + if id in states[n - 1].rows && id in states[n].rows && states[n].rows[id] != states[n - 1].rows[id] then 1 else 0
  }

  /** Every operation makes at most seven transitions in any execution, however long. */
  lemma {:induction false} AtMostSevenTransitions(states: seq<State>, events: seq<Event>, id: Bytes, n: nat)
    requires Execution(states, events) && n < |states|
    ensures id in states[n].rows ==> Rewrites(states, id, n) + Potential(states[n].rows[id]) <= 7
    ensures id !in states[n].rows ==> Rewrites(states, id, n) == 0
    ensures Rewrites(states, id, n) <= 7
  {
    if n > 0 {
      AtMostSevenTransitions(states, events, id, n - 1);
      if id in states[n - 1].rows {
        StepSpendsPotential(states, events, n - 1, id);
      }
    }
  }

  // ---------------------------------------------------------------- the ledger is truthful

  /** In every reachable state: Applied says the request took effect, NotApplied says that none is in
      flight or took effect, and while the outcome is open the row is still Committing. */
  lemma LedgerIsTruthful(states: seq<State>, events: seq<Event>, n: nat, id: Bytes)
    requires Execution(states, events) && n < |states| && id in states[n].rows
    ensures var s := states[n]; var row := s.rows[id];
      && (row.commitState == Applied <==> Landed(row))
      && (row.commitState == Applied ==> SomeEffect(s.calls, id))
      && (row.commitState == NotApplied ==> AllDeclined(s.calls, id))
      && (row.commitState == Unknown ==> row.status == Committing)
      && (forall i :: 0 <= i < |s.calls| && s.calls[i].op == id && s.calls[i].fate == InFlight ==>
            row.status == Committing)
      && (SomeEffect(s.calls, id) ==> row.status == Committing || Landed(row))
  {
    InvHolds(states, events, n);
    var s := states[n];
    assert RowOk(s, id) && RowShape(s.rows[id], KeyOf(s.keys, id));
    forall i | 0 <= i < |s.calls| && s.calls[i].op == id
      ensures s.calls[i].fate == InFlight ==> s.rows[id].status == Committing
      ensures s.calls[i].fate == TookEffect ==> s.rows[id].status == Committing || Landed(s.rows[id])
    {
      assert CallOk(s, s.calls[i]);
    }
  }

  /** A repeated claim goes on to work on a row exactly while the row has not been generated and has not ended, and
      then nothing was ever sent for it; it is told of success exactly when the mutation landed; otherwise it stops. */
  lemma RepeatedClaims(states: seq<State>, events: seq<Event>, n: nat, id: Bytes)
    requires Execution(states, events) && n < |states| && id in states[n].rows
    ensures var s := states[n]; var row := s.rows[id]; var next := AfterClaim(DispositionOf(row), row);
      && (next == Proceed <==> row.status == Received || row.status == SnapshotReady || row.status == Generating)
      && (next == AlreadyCommitted <==> row.status == Committed || row.status == Delivered)
      && (next == Proceed ==> forall i :: 0 <= i < |s.calls| ==> s.calls[i].op != id)
      && (next == AlreadyCommitted ==> SomeEffect(s.calls, id))
  {
    InvHolds(states, events, n);
    var s := states[n];
    assert RowOk(s, id) && RowShape(s.rows[id], KeyOf(s.keys, id));
    ClaimsByStatus(s.rows[id], KeyOf(s.keys, id));
    assert forall i :: 0 <= i < |s.calls| && s.calls[i].op == id ==> CallOk(s, s.calls[i]);
  }

  lemma ClaimsByStatus(row: Record, key: Option<KeyReference>)
    requires RowShape(row, key)
    ensures var next := AfterClaim(DispositionOf(row), row);
      && (next == Proceed <==> row.status == Received || row.status == SnapshotReady || row.status == Generating)
      && (next == AlreadyCommitted <==> row.status == Committed || row.status == Delivered)
  {
  }

  lemma {:induction false} TerminalRowsAreFrozen(states: seq<State>, events: seq<Event>, m: nat, n: nat, id: Bytes)
    requires Execution(states, events) && m <= n < |states|
    requires id in states[m].rows && IsTerminal(states[m].rows[id].status)
    ensures id in states[n].rows && states[n].rows[id] == states[m].rows[id]
    decreases n
  {
    if m < n {
      TerminalRowsAreFrozen(states, events, m, n - 1, id);
      StepSpendsPotential(states, events, n - 1, id);
    }
  }

  /** NotApplied is final: from then on the row stands, and no request of this operation is ever in
      flight or takes effect. */
  lemma NotAppliedIsForever(states: seq<State>, events: seq<Event>, m: nat, n: nat, id: Bytes)
    requires Execution(states, events) && m <= n < |states|
    requires id in states[m].rows && states[m].rows[id].commitState == NotApplied
    ensures id in states[n].rows && states[n].rows[id] == states[m].rows[id]
    ensures AllDeclined(states[n].calls, id)
  {
    InvHolds(states, events, m);
    assert RowShape(states[m].rows[id], KeyOf(states[m].keys, id));
    TerminalRowsAreFrozen(states, events, m, n, id);
    LedgerIsTruthful(states, events, n, id);
  }

  /** A row that failed before starting, or was interrupted, proves that no request was ever sent
      for it, up to now and in every later state. */
  lemma NeverStartedIsForever(states: seq<State>, events: seq<Event>, m: nat, n: nat, id: Bytes)
    requires Execution(states, events) && m <= n < |states|
    requires id in states[m].rows
    requires var row := states[m].rows[id];
      (row.status == Failed && row.commitState == NotStarted) || row.status == Interrupted
    ensures id in states[n].rows && states[n].rows[id] == states[m].rows[id]
    ensures NoCalls(states[n].calls, id)
  {
    TerminalRowsAreFrozen(states, events, m, n, id);
    InvHolds(states, events, n);
    var s := states[n];
    assert RowShape(s.rows[id], KeyOf(s.keys, id));
    forall i | 0 <= i < |s.calls| ensures s.calls[i].op != id {
      assert CallOk(s, s.calls[i]);
    }
  }

  lemma SettlerIsAlone(s: State, r: nat)
    requires Inv(s) && r in s.runs && s.runs[r].pc.AtSettleFailure?
    ensures var id := s.runs[r].op;
      && id in s.rows
      && (s.rows[id].status == Generating || s.rows[id].status == Interrupted)
      && NoCalls(s.calls, id)
      && forall q :: q in s.runs && q != r && s.runs[q].op == id ==> !Owns(s.runs[q].pc) && !HoldsCommit(s.runs[q].pc)
  {
    var id := s.runs[r].op;
    assert RunOk(s, s.runs[r]);
    assert RowShape(s.rows[id], KeyOf(s.keys, id));
    forall i | 0 <= i < |s.calls| ensures s.calls[i].op != id {
      assert CallOk(s, s.calls[i]);
    }
    forall q | q in s.runs && q != r && s.runs[q].op == id ensures !Owns(s.runs[q].pc) && !HoldsCommit(s.runs[q].pc) {
      assert RunOk(s, s.runs[q]);
    }
  }

  /** The store would let `mark_failed` overwrite a Committing row; in no execution does a run that
      settles a generation failure meet one. */
  lemma GenerationFailureNeverMeetsCommit(states: seq<State>, events: seq<Event>, n: nat, r: nat)
    requires Execution(states, events) && n < |states|
    requires r in states[n].runs && states[n].runs[r].pc.AtSettleFailure?
    ensures var s := states[n]; var id := s.runs[r].op;
      && id in s.rows
      && (s.rows[id].status == Generating || s.rows[id].status == Interrupted)
      && NoCalls(s.calls, id)
      && forall q :: q in s.runs && q != r && s.runs[q].op == id ==> !Owns(s.runs[q].pc) && !HoldsCommit(s.runs[q].pc)
  {
    InvHolds(states, events, n);
    SettlerIsAlone(states[n], r);
  }

  /** One step that rewrites a row in doubt. */
  ghost predicate ConfirmsFromJournal(s: State, e: Event, s': State, id: Bytes) {
    && e.Update? && e.run in s.runs && s.runs[e.run].op == id && s.runs[e.run].pc.AtConfirm?
    && id in s.journal && s.journal[id].phase == J.Done
    && SomeEffect(s.calls, id)
    && id in s'.rows && s'.rows[id].status == Committed && s'.rows[id].commitState == Applied
  }

  /** The commit is open and nobody holds a definite answer: the committer stopped, gave up, or is
      only left to record doubt. */
  ghost predicate InDoubt(s: State, id: Bytes) {
    && id in s.rows && s.rows[id].status == Committing
    && forall r :: r in s.runs && s.runs[r].op == id && HoldsCommit(s.runs[r].pc) ==> s.runs[r].pc.AtUnknown?
  }

  /** A row in the Unknown state is in doubt: no committer can still be at work on it. */
  lemma UnknownIsDoubt(s: State, id: Bytes)
    requires Inv(s) && id in s.rows && s.rows[id].commitState == Unknown
    ensures InDoubt(s, id)
  {
    assert RowShape(s.rows[id], KeyOf(s.keys, id));
    forall r | r in s.runs && s.runs[r].op == id && HoldsCommit(s.runs[r].pc) ensures s.runs[r].pc.AtUnknown? {
      assert RunOk(s, s.runs[r]);
    }
  }

  /** What a statement does to a row in doubt: nothing, or it records the doubt, or it confirms. */
  lemma DoubtAndUpdate(s: State, r: nat, op: StoreOp, ack: Ack, now: int, s': State, id: Bytes)
    requires RunsOk(s) && InDoubt(s, id) && UpdateStep(s, r, op, ack, now, s')
    ensures id in s'.rows
    ensures s'.rows[id] != s.rows[id] ==>
      ConfirmsFromJournal(s, Update(r, op, ack, now), s', id)
      || (op.ToUnknown? && s'.rows[id] == Updated(ToUnknown, s.rows[id], now))
  {
    assert RunOk(s, s.runs[r]);
  }

  /** A statement brings no new committer to a row that is already committing. */
  lemma DoubtKeepsRunsOut(s: State, r: nat, op: StoreOp, ack: Ack, now: int, s': State, id: Bytes)
    requires InDoubt(s, id) && UpdateStep(s, r, op, ack, now, s')
    ensures forall q :: q in s'.runs && s'.runs[q].op == id && HoldsCommit(s'.runs[q].pc) ==> s'.runs[q].pc.AtUnknown?
  {
    forall q | q in s'.runs && s'.runs[q].op == id && HoldsCommit(s'.runs[q].pc) ensures s'.runs[q].pc.AtUnknown? {
      assert q != r ==> s'.runs[q] == s.runs[q];
    }
  }

  /** No other step touches the status of a committing row or hands out the commit. */
  lemma OtherStepsKeepDoubt(s: State, e: Event, s': State, id: Bytes)
    requires InDoubt(s, id) && Step(s, e, s') && !e.Update?
    ensures id in s'.rows && s'.rows[id] == s.rows[id] && InDoubt(s', id)
  {
    assert s'.rows[id] == s.rows[id];
    forall q | q in s'.runs && s'.runs[q].op == id && HoldsCommit(s'.runs[q].pc) ensures s'.runs[q].pc.AtUnknown? {
      if q in s.runs && s.runs[q].op == id {
        assert HoldsCommit(s.runs[q].pc) ==> s.runs[q].pc.AtUnknown?;
      }
    }
  }

  /** Unchanged, or no more than the doubt itself was written down. */
  predicate RowKeepsDoubt(row: Record, row': Record) {
    row' == row || (row.commitState == NotStarted && row' == row.(commitState := Unknown, updatedAt := row'.updatedAt))
  }

  /** Every step from doubt stays in doubt, with the row as it was but for the mark of doubt itself, or is
      the journal's confirmation. */
  lemma DoubtStep(s: State, e: Event, s': State, id: Bytes)
    requires Inv(s) && InDoubt(s, id) && Step(s, e, s')
    ensures ConfirmsFromJournal(s, e, s', id) || InDoubt(s', id)
    ensures InDoubt(s', id) ==> RowKeepsDoubt(s.rows[id], s'.rows[id])
  {
    if e.Update? {
      DoubtAndUpdate(s, e.run, e.op, e.ack, e.now, s', id);
      DoubtKeepsRunsOut(s, e.run, e.op, e.ack, e.now, s', id);
    } else {
      OtherStepsKeepDoubt(s, e, s', id);
    }
  }

  /** How a commit comes into doubt: the answer is lost or ambiguous, the client refuses without
      being sure, the committer stops, or it fails to record an applied answer. */
  ghost predicate LosesTheAnswer(s: State, e: Event) {
    match e
    case Answered(r, answer) => answer == Ambiguous
    case RefusedLocally(r, definite) => !definite
    case Abandon(r) => r in s.runs && HoldsCommit(s.runs[r].pc)
    case Update(r, op, ack, _) => r in s.runs && HoldsCommit(s.runs[r].pc) && (op.ToUnknown? || ack != Won)
    case _ => false
  }

  /** A lost or ambiguous answer, or a committer that stops anywhere, leaves a committing row in doubt. */
  lemma LostAnswersLeaveDoubt(s: State, e: Event, s': State)
    requires Inv(s) && Step(s, e, s') && LosesTheAnswer(s, e)
    ensures e.run in s.runs && s.runs[e.run].op in s'.rows
    ensures s'.rows[s.runs[e.run].op].status == Committing ==> InDoubt(s', s.runs[e.run].op)
  {
    assert RunOk(s, s.runs[e.run]);
    LoserHeldAlone(s, e, s');
  }

  /** The run that loses the answer held the commit alone, and no other run takes it over. */
  lemma LoserHeldAlone(s: State, e: Event, s': State)
    requires Exclusive(s) && Step(s, e, s') && LosesTheAnswer(s, e)
    ensures e.run in s.runs
    ensures forall q :: q in s'.runs && s'.runs[q].op == s.runs[e.run].op && HoldsCommit(s'.runs[q].pc) ==>
      s'.runs[q].pc.AtUnknown?
  {
  }

  /** One of the steps from `m` on and before `n` was the journal's confirmation. */
  ghost predicate ConfirmedBetween(states: seq<State>, events: seq<Event>, m: nat, n: nat, id: Bytes)
    requires n <= |events| < |states|
    decreases n
  {
    m < n && (ConfirmsFromJournal(states[n - 1], events[n - 1], states[n], id)
              || ConfirmedBetween(states, events, m, n - 1, id))
  }

  lemma DoubtAt(states: seq<State>, events: seq<Event>, n: nat, id: Bytes)
    requires Execution(states, events) && n < |events| && InDoubt(states[n], id)
    ensures ConfirmsFromJournal(states[n], events[n], states[n + 1], id) || InDoubt(states[n + 1], id)
  {
    InvHolds(states, events, n);
    DoubtStep(states[n], events[n], states[n + 1], id);
  }

  /** Doubt is resolved only by the journal: from the moment a commit is in doubt, after a lost or
      ambiguous answer or a crash of the committer, its row stays Committing in every later state until
      a recovery run confirms it from an applied journal entry. */
  lemma {:induction false} OnlyTheJournalResolvesDoubt(states: seq<State>, events: seq<Event>, m: nat, n: nat, id: Bytes)
    requires Execution(states, events) && m <= n < |states| && InDoubt(states[m], id)
    ensures InDoubt(states[n], id) || ConfirmedBetween(states, events, m, n, id)
    decreases n
  {
    if m < n {
      OnlyTheJournalResolvesDoubt(states, events, m, n - 1, id);
      if InDoubt(states[n - 1], id) {
        DoubtAt(states, events, n - 1, id);
      }
    }
  }

  // ---------------------------------------------------------------- what is sent is what was persisted

  lemma PersistedBodyStaysInStep(s: State, e: Event, s': State, id: Bytes)
    requires Inv(s) && Step(s, e, s')
    requires id in s.rows && s.rows[id].payload.Some?
    requires HasPayload(s.rows[id].status) || s.rows[id].status == Failed
    ensures id in s'.rows
    ensures SameIdentity(s.rows[id], s'.rows[id])
    ensures s'.rows[id].payload == s.rows[id].payload && s'.rows[id].digest == s.rows[id].digest
    ensures HasPayload(s'.rows[id].status) || s'.rows[id].status == Failed
  {
    RowAdvancesByStatements(s, e, s', id);
    if s'.rows[id] != s.rows[id] {
      var op, now :| Guard(op, s.rows[id], KeyOf(s.keys, id)) && Honest(op) && !op.ToConflict?
                     && s'.rows[id] == Updated(op, s.rows[id], now);
      assert RowShape(s.rows[id], KeyOf(s.keys, id));
      UpdateFollowsStatusMachine(op, s.rows[id], KeyOf(s.keys, id), now);
    }
  }

  lemma {:induction false} PersistedBodyStays(states: seq<State>, events: seq<Event>, m: nat, n: nat, id: Bytes)
    requires Execution(states, events) && m <= n < |states|
    requires id in states[m].rows && HasPayload(states[m].rows[id].status)
    ensures id in states[n].rows
    ensures SameIdentity(states[m].rows[id], states[n].rows[id])
    ensures states[m].rows[id].payload.Some? && states[n].rows[id].payload == states[m].rows[id].payload
    ensures states[n].rows[id].digest == states[m].rows[id].digest
    ensures HasPayload(states[n].rows[id].status) || states[n].rows[id].status == Failed
    decreases n
  {
    if m < n {
      PersistedBodyStays(states, events, m, n - 1, id);
      PersistedBodyStaysAt(states, events, n - 1, id);
    } else {
      PayloadIsThere(states, events, n, id);
    }
  }

  lemma PersistedBodyStaysAt(states: seq<State>, events: seq<Event>, k: nat, id: Bytes)
    requires Execution(states, events) && k < |events|
    requires id in states[k].rows && states[k].rows[id].payload.Some?
    requires HasPayload(states[k].rows[id].status) || states[k].rows[id].status == Failed
    ensures id in states[k + 1].rows && SameIdentity(states[k].rows[id], states[k + 1].rows[id])
    ensures states[k + 1].rows[id].payload == states[k].rows[id].payload
    ensures states[k + 1].rows[id].digest == states[k].rows[id].digest
    ensures HasPayload(states[k + 1].rows[id].status) || states[k + 1].rows[id].status == Failed
  {
    InvHolds(states, events, k);
    PersistedBodyStaysInStep(states[k], events[k], states[k + 1], id);
  }

  lemma PayloadIsThere(states: seq<State>, events: seq<Event>, n: nat, id: Bytes)
    requires Execution(states, events) && n < |states|
    requires id in states[n].rows && HasPayload(states[n].rows[id].status)
    ensures states[n].rows[id].payload.Some?
  {
    InvHolds(states, events, n);
    assert RowShape(states[n].rows[id], KeyOf(states[n].keys, id));
  }

  /** A row listed at some point of an execution, with a payload, still matches at any later point. */
  lemma ListedRowStillMatches(states: seq<State>, events: seq<Event>, m: nat, n: nat, id: Bytes)
    requires Execution(states, events) && m <= n < |states|
    requires id in states[m].rows && HasPayload(states[m].rows[id].status)
    ensures id in states[n].rows && StillMatches(states[m].rows[id], states[n].rows[id])
  {
    PersistedBodyStays(states, events, m, n, id);
  }

  /** An operation the journal shows as applied is shown so for ever. */
  lemma {:induction false} JournalAnswerStays(
      states: seq<State>, events: seq<Event>, m: nat, n: nat, id: Bytes, locatorHash: Bytes, digest: Bytes)
    requires Execution(states, events) && m <= n < |states|
    requires J.Replay(states[m].journal, id, locatorHash, digest) == J.AlreadyApplied
    ensures J.Replay(states[n].journal, id, locatorHash, digest) == J.AlreadyApplied
    decreases n
  {
    if m < n {
      JournalAnswerStays(states, events, m, n - 1, id, locatorHash, digest);
      JournalStep(states[n - 1], events[n - 1], states[n], id, locatorHash, digest);
    }
  }

  lemma JournalStep(s: State, e: Event, s': State, id: Bytes, locatorHash: Bytes, digest: Bytes)
    requires Step(s, e, s') && J.Replay(s.journal, id, locatorHash, digest) == J.AlreadyApplied
    ensures J.Replay(s'.journal, id, locatorHash, digest) == J.AlreadyApplied
  {
  }

  /** A row that landed stays landed. */
  lemma {:induction false} LandedStays(states: seq<State>, events: seq<Event>, m: nat, n: nat, id: Bytes)
    requires Execution(states, events) && m <= n < |states|
    requires id in states[m].rows && Landed(states[m].rows[id])
    ensures id in states[n].rows && Landed(states[n].rows[id])
    decreases n
  {
    if m < n {
      LandedStays(states, events, m, n - 1, id);
      StepSpendsPotential(states, events, n - 1, id);
    }
  }

  /** The row's stored payload reads back, and as this one. */
  ghost predicate ReadsAs(row: Record, p: Payload) {
    && row.payload.Some? && P.ReadsBack(row.payload.value.plaintext)
    && P.PayloadFromJson(row.payload.value.plaintext) == Some(p)
  }

  /** Whatever was persisted when the operation became Generated is, byte for byte, the body of the
      only request ever sent for it. */
  lemma RequestCarriesThePersistedMutation(
      states: seq<State>, events: seq<Event>, m: nat, n: nat, id: Bytes, i: nat)
    requires Execution(states, events) && m <= n < |states|
    requires id in states[m].rows && HasPayload(states[m].rows[id].status)
    requires i < |states[n].calls| && states[n].calls[i].op == id
    ensures Carries(states[m].rows[id], states[n].calls[i].body)
    ensures forall p :: ReadsAs(states[m].rows[id], p) ==>
      P.CarriesPayload(states[n].calls[i].body, states[m].rows[id], p)
  {
    InvHolds(states, events, n);
    assert CallOk(states[n], states[n].calls[i]);
    PersistedBodyStays(states, events, m, n, id);
  }

  /** The statement that makes an operation Generated, by a run that drafted `intent`. */
  ghost predicate Persists(s: State, e: Event, id: Bytes, intent: P.Intent, fence: Fence) {
    && e.Update? && e.op.ToGenerated? && !e.ack.Missed? && e.run in s.runs
    && s.runs[e.run].op == id && s.runs[e.run].pc == AtPersist(intent) && s.runs[e.run].fence == fence
  }

  /** Whatever a run drafted and persisted is what reaches the connector, field by field, in the only request ever
      sent for the operation, whoever sends it. */
  lemma RequestCarriesTheIntent(
      states: seq<State>, events: seq<Event>, m: nat, n: nat, id: Bytes, intent: P.Intent, fence: Fence, i: nat)
    requires Execution(states, events) && m < n < |states|
    requires Persists(states[m], events[m], id, intent, fence) && P.ReadsBack(events[m].op.sealed.plaintext)
    requires i < |states[n].calls| && states[n].calls[i].op == id
    ensures P.CarriesIntent(states[n].calls[i].body, id, intent, fence)
  {
    InvHolds(states, events, m);
    PersistedRow(states[m], events[m], states[m + 1], id, intent, fence);
    RequestCarriesThePersistedMutation(states, events, m + 1, n, id, i);
    P.LiveBodyCarriesIntent(id, intent, fence);
  }

  lemma PersistedRow(s: State, e: Event, s': State, id: Bytes, intent: P.Intent, fence: Fence)
    requires Inv(s) && Step(s, e, s') && Persists(s, e, id, intent, fence)
    ensures id in s'.rows && HasPayload(s'.rows[id].status) && Carries(s'.rows[id], P.LiveBody(id, intent, fence))
    ensures s'.rows[id].payload == Some(e.op.sealed)
  {
    assert RunOk(s, s.runs[e.run]);
    assert s.rows[id].id == id;
    PersistedBodyIsLiveBody(s.rows[id], intent, fence, e.op, e.now);
  }
}
