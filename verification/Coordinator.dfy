/** The coordinator's commit, replay and reconciliation as code over the store object, each call of it
    a run of the commit protocol amid whatever the other parties do between its statements. */
module Coordinator {
  import opened Wire
  import opened Operations
  import opened OperationStore
  import opened CommitProtocol
  import opened CommitSafety
  import P = OperationPayload
  import J = ConnectorJournal

  /** What happens to one call from outside: how its statements come back, whether the connector
      client refuses before sending, whether the answer is lost, and the text of an applied result. */
  datatype Weather = Weather(first: Ack, refusal: Option<bool>, lost: bool, result: Bytes, second: Ack, third: Ack)

  datatype Outcome =
    | CommitApplied
    | CommitRejected     // recorded as not applied
    | CommitUnknown      // in doubt, or not recorded
    | CommitNotTried     // the race for the commit was lost, or the statement did not come back

  datatype History = History(states: seq<State>, events: seq<Event>)

  ghost predicate Extends(h: History, h': History) {
    && h.states <= h'.states && h.events <= h'.events
  }

  ghost predicate StepAt(h: History, i: int) {
    0 <= i < |h.events| && i + 1 < |h.states| && Step(h.states[i], h.events[i], h.states[i + 1])
  }

  /** The history is an execution of the protocol. */
  ghost predicate Happened(h: History) {
    && |h.states| == |h.events| + 1 && Init(h.states[0])
    && forall i :: 0 <= i < |h.events| ==> StepAt(h, i)
  }

  lemma HappenedIsExecution(h: History)
    requires Happened(h)
    ensures Execution(h.states, h.events)
  {
    forall i | 0 <= i < |h.events| ensures Step(h.states[i], h.events[i], h.states[i + 1]) {
      assert StepAt(h, i);
    }
  }

  lemma OneMoreStep(h: History, e: Event, s: State)
    requires Happened(h) && Step(h.states[|h.events|], e, s)
    ensures Happened(History(h.states + [s], h.events + [e]))
  {
    var h' := History(h.states + [s], h.events + [e]);
    forall i | 0 <= i < |h'.events| ensures StepAt(h', i) {
      if i < |h.events| {
        assert StepAt(h, i);
      }
    }
  }

  // ---------------------------------------------------------------- what a run did

  /** The run whose step this is, if it is a step of a run. */
  function RunOf(e: Event): Option<nat> {
    if e.PutKey? || e.Sweep? || e.Deliver? || e.Backend? || e.JournalWrite? then None else Some(e.run)
  }

  /** The steps of one run, in order. */
  function OwnEvents(events: seq<Event>, r: nat): seq<Event> {
    if events == [] then []
    else
      var e := events[|events| - 1];
      OwnEvents(events[..|events| - 1], r) + if RunOf(e) == Some(r) then [e] else []
  }

  /** How a statement comes back: not at all if it did not fire. */
  function Returned(ack: Ack, fires: bool): Ack { if fires then ack else Missed }

  /** The run's own record of an applied commit, acknowledged. */
  predicate RecordsApplied(e: Event) { e.Update? && e.op.ToCommitted? && e.ack.Won? }

  /** The run's own record of a rejected commit, acknowledged. */
  predicate RecordsRejected(e: Event) {
    e.Update? && e.op.ToFailed? && e.op.outcome == NotApplied && e.ack.Won?
  }

  /** The request left, or the client refused to send it. */
  predicate Tries(e: Event) { e.Send? || e.RefusedLocally? }

  ghost predicate Recorded(trace: seq<Event>) { exists e :: e in trace && RecordsApplied(e) }

  ghost predicate Rejected(trace: seq<Event>) { exists e :: e in trace && RecordsRejected(e) }

  ghost predicate Tried(trace: seq<Event>) { exists e :: e in trace && Tries(e) }

  /** What a call must tell its caller, from what its own run did. */
  ghost predicate Reports(trace: seq<Event>, outcome: Outcome) {
    && (outcome.CommitApplied? <==> Recorded(trace))
    && (outcome.CommitRejected? <==> Rejected(trace))
    && (outcome.CommitNotTried? <==> !Tried(trace))
  }

  lemma OneStep(e: Event)
    ensures Recorded([e]) <==> RecordsApplied(e)
    ensures Rejected([e]) <==> RecordsRejected(e)
    ensures Tried([e]) <==> Tries(e)
  {
    assert e in [e];
  }

  /** Two stretches of steps, one after the other. */
  lemma Chain(own: seq<Event>, own': seq<Event>, own'': seq<Event>, a: seq<Event>, b: seq<Event>)
    requires own' == own + a && own'' == own' + b
    ensures own'' == own + (a + b)
  {
  }

  lemma StepsJoin(a: seq<Event>, b: seq<Event>)
    ensures Recorded(a + b) <==> Recorded(a) || Recorded(b)
    ensures Rejected(a + b) <==> Rejected(a) || Rejected(b)
    ensures Tried(a + b) <==> Tried(a) || Tried(b)
  {
    forall e ensures e in a + b <==> e in a || e in b {
    }
  }

  class World {
    const store: Store
    var calls: seq<Call>
    var journal: J.Entries
    ghost var runs: map<nat, Run>
    ghost var history: History

    ghost function Current(): State
      reads this, store
    {
      State(store.rows, store.keys, runs, calls, journal)
    }

    /** The history so far is an execution of the protocol that ends in the present state. */
    ghost predicate Valid()
      reads this, store
    {
      && store.Valid()
      && Happened(history)
      && history.states[|history.events|] == Current()
    }

    /** The steps of run `r` so far. */
    ghost function Own(r: nat): seq<Event>
      reads this
    {
      OwnEvents(history.events, r)
    }

    constructor (store: Store)
      requires store.Valid() && store.rows == map[] && store.keys == map[]
      ensures Valid() && this.store == store && runs == map[] && calls == [] && journal == map[]
    {
      this.store := store;
      calls, journal, runs := [], map[], map[];
      history := History([State(store.rows, store.keys, map[], [], map[])], []);
    }

    /** Any number of steps of other parties, none of them a step of run `r`. Callers may rely on nothing but this contract, which
        every schedule of those parties meets; the body is the schedule in which they are idle. */
    method Elsewhere(ghost r: nat)
      requires Valid()
      modifies this, store
      ensures Valid() && Extends(old(history), history)
      ensures r in old(runs) ==> r in runs && runs[r] == old(runs)[r]
      ensures r !in old(runs) ==> r !in runs
      ensures Own(r) == old(Own(r))
    {
    }

    /** Enter the step that run `r` just took into the history. */
    ghost method Log(r: nat, e: Event, before: State)
      requires store.Valid() && Happened(history) && RunOf(e) == Some(r)
      requires history.states[|history.events|] == before && Step(before, e, Current())
      modifies `history
      ensures Valid() && Extends(old(history), history)
      ensures Own(r) == old(Own(r)) + [e]
    {
      assert (history.events + [e])[..|history.events|] == history.events;
      OneMoreStep(history, e, Current());
      history := History(history.states + [Current()], history.events + [e]);
    }

    /** Run `r` has issued a statement: move the run on and enter the step. */
    ghost method Issued(r: nat, id: Bytes, op: StoreOp, ack: Ack, now: int, before: State)
      requires store.Valid() && Happened(history)
      requires history.states[|history.events|] == before && before.runs == runs
      requires before.calls == calls && before.journal == journal && before.keys == store.keys
      requires r in runs && runs[r].op == id && id in before.rows && Issues(runs[r], before.rows[id], op)
      requires ack.Missed? || Fires(op, before.rows, before.keys, id)
      requires store.rows == if ack.Missed? then before.rows else Apply(op, before.rows, before.keys, id, now)
      modifies `runs, `history
      ensures Valid() && Extends(old(history), history)
      ensures Own(r) == old(Own(r)) + [Update(r, op, ack, now)]
      ensures runs == Moved(old(runs), r, if ack.Won? then WhenWon(old(runs)[r], before.rows[id]) else WhenFailed(old(runs)[r]))
    {
      runs := Moved(runs, r, if ack.Won? then WhenWon(runs[r], before.rows[id]) else WhenFailed(runs[r]));
      LogUpdate(r, op, ack, now, before);
    }

    ghost method LogUpdate(r: nat, op: StoreOp, ack: Ack, now: int, before: State)
      requires store.Valid() && Happened(history)
      requires history.states[|history.events|] == before && UpdateStep(before, r, op, ack, now, Current())
      modifies `history
      ensures Valid() && Extends(old(history), history)
      ensures Own(r) == old(Own(r)) + [Update(r, op, ack, now)]
    {
      Log(r, Update(r, op, ack, now), before);
    }

    ghost predicate Stands(r: nat, id: Bytes)
      reads this, store
    {
      r in runs && runs[r].op == id && id in store.rows
    }

    lemma InvNow()
      requires Valid()
      ensures Inv(Current())
    {
      HappenedIsExecution(history);
      InvHolds(history.states, history.events, |history.events|);
    }

    /** `mark_committing` by run `r`. */
    method MarkCommitting(ghost r: nat, id: Bytes, ack: Ack, now: int) returns (won: bool)
      requires Valid() && Stands(r, id) && runs[r].pc.AtCommit?
      modifies this, store
      ensures Valid() && Extends(old(history), history) && calls == old(calls) && journal == old(journal)
      ensures won == (ack.Won? && Fires(ToCommitting, old(store.rows), store.keys, id))
      ensures store.rows == if ack.Missed? then old(store.rows) else Apply(ToCommitting, old(store.rows), store.keys, id, now)
      ensures Own(r) == old(Own(r)) +
              [Update(r, ToCommitting, Returned(ack, Fires(ToCommitting, old(store.rows), store.keys, id)), now)]
      ensures won ==> Stands(r, id) && runs[r] == old(runs)[r].(pc := AtCall(old(runs)[r].pc.body))
      ensures !won ==> r !in runs
    {
      ghost var before := Current();
      var ok := false;
      if !ack.Missed? {
        ok := store.MarkCommitting(id, now);
      }
      won := ok && ack.Won?;
      Issued(r, id, ToCommitting, if ok then ack else Missed, now, before);
    }

    /** `mark_committed_with_state` after an applied answer. */
    method MarkCommitted(ghost r: nat, id: Bytes, result: Bytes, ack: Ack, now: int) returns (won: bool)
      requires Valid() && Stands(r, id) && runs[r].pc.AtCommitted?
      modifies this, store
      ensures Valid() && Extends(old(history), history) && calls == old(calls) && journal == old(journal)
      ensures won == (ack.Won? && Fires(ToCommitted(result, NotStarted), old(store.rows), store.keys, id))
      ensures store.rows == if ack.Missed? then old(store.rows) else Apply(ToCommitted(result, NotStarted), old(store.rows), store.keys, id, now)
      ensures Own(r) == old(Own(r)) +
              [Update(r, ToCommitted(result, NotStarted), Returned(ack, Fires(ToCommitted(result, NotStarted), old(store.rows), store.keys, id)), now)]
      ensures !won && !old(runs)[r].replaying ==> Stands(r, id) && runs[r] == old(runs)[r].(pc := AtUnknown)
      ensures won || old(runs)[r].replaying ==> r !in runs
    {
      ghost var before := Current();
      var ok := false;
      if !ack.Missed? {
        ok := store.MarkCommittedWithState(id, result, NotStarted, now);
      }
      won := ok && ack.Won?;
      Issued(r, id, ToCommitted(result, NotStarted), if ok then ack else Missed, now, before);
    }

    /** `mark_failed_with_state` after a definite rejection. */
    method MarkRejected(ghost r: nat, id: Bytes, error: ErrorInfo, ack: Ack, now: int) returns (won: bool)
      requires Valid() && Stands(r, id) && runs[r].pc.AtNotApplied?
      modifies this, store
      ensures Valid() && Extends(old(history), history) && calls == old(calls) && journal == old(journal)
      ensures won == (ack.Won? && Fires(ToFailed(error, NotApplied), old(store.rows), store.keys, id))
      ensures store.rows == if ack.Missed? then old(store.rows) else Apply(ToFailed(error, NotApplied), old(store.rows), store.keys, id, now)
      ensures Own(r) == old(Own(r)) +
              [Update(r, ToFailed(error, NotApplied), Returned(ack, Fires(ToFailed(error, NotApplied), old(store.rows), store.keys, id)), now)]
      ensures r !in runs
    {
      ghost var before := Current();
      var ok := false;
      if !ack.Missed? {
        ok := store.MarkFailedWithState(id, error, NotApplied, now);
      }
      won := ok && ack.Won?;
      Issued(r, id, ToFailed(error, NotApplied), if ok then ack else Missed, now, before);
    }

    /** `mark_commit_unknown` */
    method MarkUnknown(ghost r: nat, id: Bytes, ack: Ack, now: int) returns (won: bool)
      requires Valid() && Stands(r, id) && runs[r].pc.AtUnknown?
      modifies this, store
      ensures Valid() && Extends(old(history), history) && calls == old(calls) && journal == old(journal)
      ensures won == (ack.Won? && Fires(ToUnknown, old(store.rows), store.keys, id))
      ensures store.rows == if ack.Missed? then old(store.rows) else Apply(ToUnknown, old(store.rows), store.keys, id, now)
      ensures Own(r) == old(Own(r)) +
              [Update(r, ToUnknown, Returned(ack, Fires(ToUnknown, old(store.rows), store.keys, id)), now)]
      ensures r !in runs
    {
      ghost var before := Current();
      var ok := false;
      if !ack.Missed? {
        ok := store.MarkCommitUnknown(id, now);
      }
      won := ok && ack.Won?;
      Issued(r, id, ToUnknown, if ok then ack else Missed, now, before);
    }

    /** `mark_committed_with_state` after the journal confirmed the operation. */
    method MarkConfirmed(ghost r: nat, id: Bytes, result: Bytes, expected: CommitState, ack: Ack, now: int) returns (won: bool)
      requires Valid() && Stands(r, id) && runs[r].pc == AtConfirm(expected)
      modifies this, store
      ensures Valid() && Extends(old(history), history) && calls == old(calls) && journal == old(journal)
      ensures won == (ack.Won? && Fires(ToCommitted(result, expected), old(store.rows), store.keys, id))
      ensures store.rows == if ack.Missed? then old(store.rows) else Apply(ToCommitted(result, expected), old(store.rows), store.keys, id, now)
      ensures Own(r) == old(Own(r)) +
              [Update(r, ToCommitted(result, expected), Returned(ack, Fires(ToCommitted(result, expected), old(store.rows), store.keys, id)), now)]
      ensures r !in runs
    {
      ghost var before := Current();
      var ok := false;
      if !ack.Missed? {
        ok := store.MarkCommittedWithState(id, result, expected, now);
      }
      won := ok && ack.Won?;
      Issued(r, id, ToCommitted(result, expected), if ok then ack else Missed, now, before);
    }

    /** A run returns early. */
    ghost method GiveUp(r: nat)
      requires Valid() && r in runs
      modifies `runs, `history
      ensures Valid() && Extends(old(history), history) && r !in runs
      ensures Own(r) == old(Own(r)) + [Abandon(r)]
    {
      var before := Current();
      runs := runs - {r};
      Log(r, Abandon(r), before);
    }

    /** A recovery run begins from a record listed earlier. */
    ghost method Begin(r: nat, record: Record, fence: Fence)
      requires Valid() && r !in runs && record.id in store.rows
      requires (record.status == Generated || record.status == Committing) && StillMatches(record, store.rows[record.id])
      modifies `runs, `history
      ensures Valid() && Extends(old(history), history) && Stands(r, record.id)
      ensures runs[r] == Run(record.id, fence, true, if record.status == Generated then AtReplay(record) else AtLookup(record))
      ensures Own(r) == old(Own(r)) + [StartRecovery(r, record.id, fence, record)]
    {
      var before := Current();
      runs := runs[r := Run(record.id, fence, true,
                            if record.status == Generated then AtReplay(record) else AtLookup(record))];
      Log(r, StartRecovery(r, record.id, fence, record), before);
    }

    /** A replay has found out what to send. */
    ghost method Planned(r: nat, e: P.Encryptor, body: P.Body)
      requires Valid() && r in runs && runs[r].op in store.rows && runs[r].pc.AtReplay?
      requires P.ReplayPlan(e, runs[r].pc.seen, runs[r].pc.seen.botId, runs[r].fence) == P.Ok(body)
      modifies `runs, `history
      ensures Valid() && Extends(old(history), history)
      ensures r in runs && runs[r] == old(runs)[r].(pc := AtCommit(body))
      ensures Own(r) == old(Own(r)) + [PlanReplay(r, e)]
    {
      var before := Current();
      runs := runs[r := runs[r].(pc := AtCommit(body))];
      Log(r, PlanReplay(r, e), before);
    }

    /** A reconciliation has found the operation applied in the journal. */
    ghost method Found(r: nat, seen: Record)
      requires Valid() && r in runs && runs[r].op in store.rows && runs[r].pc == AtLookup(seen) && seen.digest.Some?
      requires J.Replay(journal, seen.id, LocatorHash(seen.locator), seen.digest.value) == J.AlreadyApplied
      modifies `runs, `history
      ensures Valid() && Extends(old(history), history)
      ensures r in runs && runs[r] == old(runs)[r].(pc := AtConfirm(seen.commitState))
      ensures Own(r) == old(Own(r)) + [LookUp(r)]
    {
      var before := Current();
      runs := runs[r := runs[r].(pc := AtConfirm(seen.commitState))];
      Log(r, LookUp(r), before);
    }

    /** The connector client refuses before anything is sent. */
    ghost method Refuse(r: nat, id: Bytes, definite: bool)
      requires Valid() && Stands(r, id) && runs[r].pc.AtCall?
      modifies `runs, `history
      ensures Valid() && Extends(old(history), history)
      ensures Stands(r, id) && runs[r] == old(runs)[r].(pc := if definite then AtNotApplied else AtUnknown)
      ensures Own(r) == old(Own(r)) + [RefusedLocally(r, definite)]
    {
      var before := Current();
      runs := runs[r := runs[r].(pc := if definite then AtNotApplied else AtUnknown)];
      Log(r, RefusedLocally(r, definite), before);
    }

    /** The mutating request leaves the process. */
    method Send(ghost r: nat, id: Bytes, body: P.Body) returns (call: nat)
      requires Valid() && Stands(r, id) && runs[r].pc == AtCall(body)
      modifies this
      ensures Valid() && Extends(old(history), history)
      ensures Stands(r, id) && runs[r] == old(runs)[r].(pc := AwaitAnswer(call)) && call == |old(calls)|
      ensures calls == old(calls) + [Call(id, body, InFlight)]
      ensures Own(r) == old(Own(r)) + [Event.Send(r)]
    {
      ghost var before := Current();
      call := |calls|;
      calls := calls + [Call(id, body, InFlight)];
      runs := runs[r := runs[r].(pc := AwaitAnswer(call))];
      Log(r, Event.Send(r), before);
    }

    /** The answer, if it arrives: a definite answer tells what became of the call. */
    method Receive(ghost r: nat, id: Bytes, call: nat, lost: bool) returns (answer: Answer)
      requires Valid() && Stands(r, id) && runs[r].pc == AwaitAnswer(call) && call < |calls|
      modifies this
      ensures Valid() && Extends(old(history), history) && calls == old(calls)
      ensures Stands(r, id) && runs[r] == old(runs)[r].(pc := PcAfter(answer))
      ensures answer == AnswerTo(calls[call].fate, lost)
      ensures Own(r) == old(Own(r)) + [Answered(r, answer)]
    {
      ghost var before := Current();
      answer := if lost || calls[call].fate == InFlight then Ambiguous
                else if calls[call].fate == TookEffect then SaysApplied
                else SaysNotApplied;
      runs := runs[r := runs[r].(pc := PcAfter(answer))];
      Log(r, Answered(r, answer), before);
    }
  }

  function PcAfter(answer: Answer): Pc {
    match answer
    case SaysApplied => AtCommitted
    case SaysNotApplied => AtNotApplied
    case Ambiguous => AtUnknown
  }

  /** What the caller learns of a call: its fate, unless the answer is lost or not there yet. */
  function AnswerTo(fate: Fate, lost: bool): Answer {
    if lost then Ambiguous
    else match fate
      case InFlight => Ambiguous
      case TookEffect => SaysApplied
      case Declined => SaysNotApplied
  }

  /** What a run may rely on where it stands. */
  predicate Fits(pc: Pc, row: Record, calls: nat) {
    && (pc.AwaitAnswer? ==> pc.call < calls)
    && (pc.AtCommit? ==> Potential(row) <= 4 && (row.status == Generated ==> row.commitState == NotStarted))
    && (pc.AtNotApplied? ==> Undecided(row))
    && (pc.AtCommitted? || pc.AtUnknown? ==> Undecided(row) || Landed(row))
  }

  lemma StandsIn(w: World, r: nat)
    requires w.Valid() && r in w.runs
    ensures w.runs[r].op in w.store.rows && Fits(w.runs[r].pc, w.store.rows[w.runs[r].op], |w.calls|)
  {
    w.InvNow();
    assert RunOk(w.Current(), w.runs[r]);
    assert RowShape(w.store.rows[w.runs[r].op], KeyOf(w.store.keys, w.runs[r].op));
  }

  /** The history up to some earlier moment. */
  ghost predicate Past(h: History, w: World)
    reads w
  {
    |h.states| == |h.events| + 1 && Extends(h, w.history)
  }

  /** What nobody can undo: a landed row and the progress of a row. */
  predicate Onward(row: Record, row': Record) {
    Potential(row') <= Potential(row) && (Landed(row) ==> Landed(row'))
  }

  lemma Irrevocable(w: World, h: History, id: Bytes)
    requires w.Valid() && Past(h, w) && id in h.states[|h.events|].rows
    ensures id in w.store.rows && Onward(h.states[|h.events|].rows[id], w.store.rows[id])
    ensures CallsExtend(h.states[|h.events|].calls, w.calls)
  {
    HappenedIsExecution(w.history);
    var states, events, m := w.history.states, w.history.events, |h.events|;
    assert states[m] == h.states[m];
    PotentialFalls(states, events, m, |events|, id);
    CallsGrowAlong(states, events, m, |events|);
    if Landed(states[m].rows[id]) {
      LandedStays(states, events, m, |events|, id);
    }
  }

  /** The others act while run `r` stands still. */
  method Meanwhile(w: World, ghost r: nat, ghost id: Bytes)
    requires w.Valid() && w.Stands(r, id)
    modifies w, w.store
    ensures w.Valid() && Extends(old(w.history), w.history) && w.Own(r) == old(w.Own(r))
    ensures w.Stands(r, id) && w.runs[r] == old(w.runs)[r] && Fits(w.runs[r].pc, w.store.rows[id], |w.calls|)
    ensures Onward(old(w.store.rows)[id], w.store.rows[id]) && CallsExtend(old(w.calls), w.calls)
  {
    ghost var h := w.history;
    w.Elsewhere(r);
    StandsIn(w, r);
    Irrevocable(w, h, id);
  }

  /** One call to the connector, answered or not. */
  method CallBackend(w: World, ghost r: nat, id: Bytes, body: P.Body, weather: Weather)
    returns (answer: Answer, ghost trace: seq<Event>)
    requires w.Valid() && w.Stands(r, id) && w.runs[r].pc == AtCall(body)
    modifies w, w.store
    ensures w.Valid() && Extends(old(w.history), w.history)
    ensures w.Stands(r, id) && w.runs[r] == old(w.runs)[r].(pc := PcAfter(answer))
    ensures w.Own(r) == old(w.Own(r)) + trace
    ensures weather.refusal.Some? ==>
      && trace == [RefusedLocally(r, weather.refusal.value)]
      && answer == if weather.refusal.value then SaysNotApplied else Ambiguous
    ensures weather.refusal.None? ==>
      trace == [Send(r)] + [Answered(r, answer)] && Answers(w.calls, id, body, weather.lost, answer)
  {
    if weather.refusal.Some? {
      w.Refuse(r, id, weather.refusal.value);
      return if weather.refusal.value then SaysNotApplied else Ambiguous, [RefusedLocally(r, weather.refusal.value)];
    }
    answer, trace := Ask(w, r, id, body, weather.lost);
  }

  /** The request leaves; its answer arrives or is lost. */
  method Ask(w: World, ghost r: nat, id: Bytes, body: P.Body, lost: bool) returns (answer: Answer, ghost trace: seq<Event>)
    requires w.Valid() && w.Stands(r, id) && w.runs[r].pc == AtCall(body)
    modifies w, w.store
    ensures w.Valid() && Extends(old(w.history), w.history)
    ensures w.Stands(r, id) && w.runs[r] == old(w.runs)[r].(pc := PcAfter(answer))
    ensures w.Own(r) == old(w.Own(r)) + trace
    ensures trace == [Send(r)] + [Answered(r, answer)] && Answers(w.calls, id, body, lost, answer)
  {
    var call := w.Send(r, id, body);
    Meanwhile(w, r, id);
    answer := w.Receive(r, id, call, lost);
    Heard(w.calls, call, id, body, lost, answer);
    trace := [Send(r)] + [Answered(r, answer)];
  }

  lemma Heard(calls: seq<Call>, call: nat, id: Bytes, body: P.Body, lost: bool, answer: Answer)
    requires call < |calls| && calls[call].op == id && calls[call].body == body
    requires answer == AnswerTo(calls[call].fate, lost)
    ensures Answers(calls, id, body, lost, answer)
  {
  }

  /** A request with this body was sent for the operation, and this is what its sender learned. */
  ghost predicate Answers(calls: seq<Call>, id: Bytes, body: P.Body, lost: bool, answer: Answer) {
    exists k :: 0 <= k < |calls| && calls[k].op == id && calls[k].body == body && Tells(answer, calls[k].fate, lost)
  }

  /** Applied is heard of a call that took effect, not applied of one that was declined, and only if the answer
      arrives; anything else is doubt. */
  predicate Tells(answer: Answer, fate: Fate, lost: bool) {
    && (answer == SaysApplied <==> !lost && fate == TookEffect)
    && (answer == SaysNotApplied <==> !lost && fate == Declined)
  }

  /** The rows after each statement of a settlement, from what the run may rely on. */
  lemma DoubtWritten(rows: Rows, keys: Keys, id: Bytes, now: int)
    requires id in rows && (Undecided(rows[id]) || Landed(rows[id]))
    ensures var rows' := Apply(ToUnknown, rows, keys, id, now);
      && id in rows' && (Landed(rows[id]) ==> Landed(rows'[id]))
      && (rows'[id].commitState == Unknown || Landed(rows'[id]))
  {
  }

  lemma RejectionWritten(rows: Rows, keys: Keys, id: Bytes, error: ErrorInfo, now: int)
    requires id in rows && Undecided(rows[id])
    ensures Fires(ToFailed(error, NotApplied), rows, keys, id)
    ensures var rows' := Apply(ToFailed(error, NotApplied), rows, keys, id, now);
      id in rows' && rows'[id].commitState == NotApplied
  {
  }

  lemma AppliedWritten(rows: Rows, keys: Keys, id: Bytes, result: Bytes, now: int)
    requires id in rows && (Undecided(rows[id]) || Landed(rows[id]))
    ensures var op := ToCommitted(result, NotStarted);
      var rows' := Apply(op, rows, keys, id, now);
      && id in rows' && Landed(rows'[id])
      && (Fires(op, rows, keys, id) ==> rows'[id].status == Committed)
  {
  }

  lemma CommitTaken(rows: Rows, keys: Keys, id: Bytes, now: int)
    requires id in rows && Potential(rows[id]) <= 4 && (rows[id].status == Generated ==> rows[id].commitState == NotStarted)
    ensures var rows' := Apply(ToCommitting, rows, keys, id, now); id in rows' && Potential(rows'[id]) < 4
  {
  }

  /** Recording doubt. */
  method RecordDoubt(w: World, ghost r: nat, id: Bytes, ack: Ack, now: int) returns (ghost trace: seq<Event>)
    requires w.Valid() && w.Stands(r, id) && w.runs[r].pc.AtUnknown?
    requires Fits(w.runs[r].pc, w.store.rows[id], |w.calls|)
    modifies w, w.store
    ensures w.Valid() && Extends(old(w.history), w.history) && r !in w.runs
    ensures (forall e :: e in trace ==> e.Update?)
    ensures w.Own(r) == old(w.Own(r)) + trace && !Tried(trace) && !Rejected(trace) && !Recorded(trace)
    ensures id in w.store.rows && (Landed(old(w.store.rows)[id]) ==> Landed(w.store.rows[id]))
    ensures !ack.Missed? ==> w.store.rows[id].commitState == Unknown || Landed(w.store.rows[id])
  {
    ghost var last := Update(r, ToUnknown, Returned(ack, Fires(ToUnknown, w.store.rows, w.store.keys, id)), now);
    DoubtWritten(w.store.rows, w.store.keys, id, now);
    var _ := w.MarkUnknown(r, id, ack, now);
    OneStep(last);
    trace := [last];
  }

  /** Recording a definite rejection. */
  method RecordRejected(w: World, ghost r: nat, id: Bytes, ack: Ack, now: int)
    returns (outcome: Outcome, ghost trace: seq<Event>)
    requires w.Valid() && w.Stands(r, id) && w.runs[r].pc.AtNotApplied?
    requires Fits(w.runs[r].pc, w.store.rows[id], |w.calls|)
    modifies w, w.store
    ensures w.Valid() && Extends(old(w.history), w.history) && r !in w.runs
    ensures (forall e :: e in trace ==> e.Update?)
    ensures w.Own(r) == old(w.Own(r)) + trace && !Tried(trace) && !Recorded(trace)
    ensures outcome == if Rejected(trace) then CommitRejected else CommitUnknown
    ensures Rejected(trace) <==> ack.Won?
    ensures !ack.Missed? ==> id in w.store.rows && w.store.rows[id].commitState == NotApplied
  {
    var error := ErrorInfo(STAGE_COMMIT, [], [], false);
    RejectionWritten(w.store.rows, w.store.keys, id, error, now);
    var won := w.MarkRejected(r, id, error, ack, now);
    ghost var last := Update(r, ToFailed(error, NotApplied), ack, now);
    OneStep(last);
    trace := [last];
    outcome := if won then CommitRejected else CommitUnknown;
  }

  /** Recording an applied answer; a live committer that cannot do so records doubt. */
  method RecordApplied(w: World, ghost r: nat, id: Bytes, replaying: bool, weather: Weather, now: int)
    returns (outcome: Outcome, ghost trace: seq<Event>)
    requires w.Valid() && w.Stands(r, id)
    requires w.runs[r].pc.AtCommitted? && w.runs[r].replaying == replaying
    requires Fits(w.runs[r].pc, w.store.rows[id], |w.calls|)
    modifies w, w.store
    ensures w.Valid() && Extends(old(w.history), w.history) && r !in w.runs
    ensures (forall e :: e in trace ==> e.Update?)
    ensures w.Own(r) == old(w.Own(r)) + trace && !Tried(trace) && !Rejected(trace)
    ensures outcome == if Recorded(trace) then CommitApplied else CommitUnknown
    ensures outcome.CommitApplied? ==> id in w.store.rows && w.store.rows[id].status == Committed
    ensures weather.second.Won? ==> id in w.store.rows && Landed(w.store.rows[id])
  {
    ghost var own := w.Own(r);
    var won;
    won, trace := TryRecordApplied(w, r, id, weather, now);
    if won {
      return CommitApplied, trace;
    }
    outcome := CommitUnknown;
    if !replaying {
      Meanwhile(w, r, id);
      ghost var own' := w.Own(r);
      var doubt := RecordDoubt(w, r, id, weather.third, now);
      StepsJoin(trace, doubt);
      Chain(own, own', w.Own(r), trace, doubt);
      trace := trace + doubt;
    }
  }

  method TryRecordApplied(w: World, ghost r: nat, id: Bytes, weather: Weather, now: int)
    returns (won: bool, ghost trace: seq<Event>)
    requires w.Valid() && w.Stands(r, id) && w.runs[r].pc.AtCommitted?
    requires Fits(w.runs[r].pc, w.store.rows[id], |w.calls|)
    modifies w, w.store
    ensures w.Valid() && Extends(old(w.history), w.history)
    ensures (forall e :: e in trace ==> e.Update?)
    ensures w.Own(r) == old(w.Own(r)) + trace && !Tried(trace) && !Rejected(trace)
    ensures won <==> Recorded(trace)
    ensures won ==> r !in w.runs && id in w.store.rows && w.store.rows[id].status == Committed
    ensures !won && old(w.runs)[r].replaying ==> r !in w.runs
    ensures !won && !old(w.runs)[r].replaying ==> w.Stands(r, id) && w.runs[r] == old(w.runs)[r].(pc := AtUnknown)
    ensures weather.second.Won? ==> id in w.store.rows && Landed(w.store.rows[id])
  {
    ghost var op := ToCommitted(weather.result, NotStarted);
    ghost var last := Update(r, op, Returned(weather.second, Fires(op, w.store.rows, w.store.keys, id)), now);
    AppliedWritten(w.store.rows, w.store.keys, id, weather.result, now);
    won := w.MarkCommitted(r, id, weather.result, weather.second, now);
    OneStep(last);
    trace := [last];
  }

  /** Recording the answer. */
  method Settle(w: World, ghost r: nat, id: Bytes, answer: Answer, replaying: bool, weather: Weather, now: int)
    returns (outcome: Outcome, ghost trace: seq<Event>)
    requires w.Valid() && w.Stands(r, id) && w.runs[r].pc == PcAfter(answer)
    requires w.runs[r].replaying == replaying
    modifies w, w.store
    ensures w.Valid() && Extends(old(w.history), w.history) && r !in w.runs
    ensures (forall e :: e in trace ==> e.Update?)
    ensures w.Own(r) == old(w.Own(r)) + trace && !Tried(trace)
    ensures outcome == if Recorded(trace) then CommitApplied else if Rejected(trace) then CommitRejected else CommitUnknown
    ensures Recorded(trace) ==> answer == SaysApplied && !Rejected(trace)
    ensures Rejected(trace) <==> answer == SaysNotApplied && weather.second.Won?
    ensures outcome.CommitApplied? ==> id in w.store.rows && w.store.rows[id].status == Committed
    ensures outcome.CommitRejected? ==> id in w.store.rows && w.store.rows[id].commitState == NotApplied
    ensures answer == SaysApplied && weather.second.Won? ==> id in w.store.rows && Landed(w.store.rows[id])
    ensures answer == Ambiguous && !weather.second.Missed? ==>
      id in w.store.rows && (w.store.rows[id].commitState == Unknown || Landed(w.store.rows[id]))
  {
    Meanwhile(w, r, id);
    match answer {
      case SaysApplied =>
        outcome, trace := RecordApplied(w, r, id, replaying, weather, now);
      case SaysNotApplied =>
        outcome, trace := RecordRejected(w, r, id, weather.second, now);
      case Ambiguous =>
        trace := RecordDoubt(w, r, id, weather.second, now);
        outcome := CommitUnknown;
    }
  }

  /** What a finished call may tell its caller: applied and rejected are true of the connector. */
  ghost predicate Truthful(w: World, id: Bytes, outcome: Outcome)
    reads w, w.store
  {
    && (outcome.CommitApplied? ==>
          id in w.store.rows && Landed(w.store.rows[id]) && SomeEffect(w.calls, id))
    && (outcome.CommitRejected? ==>
          id in w.store.rows && w.store.rows[id].commitState == NotApplied && AllDeclined(w.calls, id))
  }

  lemma OutcomeIsTruthful(w: World, id: Bytes, outcome: Outcome)
    requires w.Valid()
    requires outcome.CommitApplied? ==> id in w.store.rows && w.store.rows[id].status == Committed
    requires outcome.CommitRejected? ==> id in w.store.rows && w.store.rows[id].commitState == NotApplied
    ensures Truthful(w, id, outcome)
  {
    w.InvNow();
    if id in w.store.rows {
      assert RowOk(w.Current(), id);
      assert RowShape(w.store.rows[id], KeyOf(w.store.keys, id));
    }
  }

  /** The one step of the race for the commit. */
  predicate Raced(trace: seq<Event>, r: nat, now: int, won: bool) {
    |trace| == 1 && trace[0].Update? && trace[0] == Update(r, ToCommitting, trace[0].ack, now) && (won <==> trace[0].ack.Won?)
  }

  /** A lost race is all that its run did. */
  lemma LostRace(trace: seq<Event>, r: nat, now: int)
    requires Raced(trace, r, now, false)
    ensures Reports(trace, CommitNotTried)
  {
    OneStep(trace[0]);
    assert trace == [trace[0]];
  }

  /** The race for the commit. */
  method TakeCommit(w: World, ghost r: nat, id: Bytes, ack: Ack, now: int) returns (won: bool, ghost trace: seq<Event>)
    requires w.Valid() && w.Stands(r, id) && w.runs[r].pc.AtCommit?
    modifies w, w.store
    ensures w.Valid() && Extends(old(w.history), w.history)
    ensures w.Own(r) == old(w.Own(r)) + trace && Raced(trace, r, now, won) && (trace[0].ack == ack || trace[0].ack.Missed?)
    ensures won || !ack.Missed? ==> id in w.store.rows && Potential(w.store.rows[id]) < 4
    ensures won ==> w.Stands(r, id) && w.runs[r] == old(w.runs)[r].(pc := AtCall(old(w.runs)[r].pc.body))
    ensures !won ==> r !in w.runs
  {
    Meanwhile(w, r, id);
    won, trace := RaceNow(w, r, id, ack, now);
    if won {
      Meanwhile(w, r, id);
    }
  }

  method RaceNow(w: World, ghost r: nat, id: Bytes, ack: Ack, now: int) returns (won: bool, ghost trace: seq<Event>)
    requires w.Valid() && w.Stands(r, id) && w.runs[r].pc.AtCommit? && Fits(w.runs[r].pc, w.store.rows[id], |w.calls|)
    modifies w, w.store
    ensures w.Valid() && Extends(old(w.history), w.history)
    ensures w.Own(r) == old(w.Own(r)) + trace && Raced(trace, r, now, won) && (trace[0].ack == ack || trace[0].ack.Missed?)
    ensures won || !ack.Missed? ==> id in w.store.rows && Potential(w.store.rows[id]) < 4
    ensures won ==> w.Stands(r, id) && w.runs[r] == old(w.runs)[r].(pc := AtCall(old(w.runs)[r].pc.body))
    ensures !won ==> r !in w.runs
  {
    CommitTaken(w.store.rows, w.store.keys, id, now);
    trace := [Update(r, ToCommitting, Returned(ack, Fires(ToCommitting, w.store.rows, w.store.keys, id)), now)];
    won := w.MarkCommitting(r, id, ack, now);
  }

  /** How the weather and the connector decide a call that was tried. */
  ghost predicate DecidedBy(calls: seq<Call>, rows: Rows, r: nat, id: Bytes, body: P.Body, weather: Weather,
                            trace: seq<Event>, outcome: Outcome)
  {
    && (weather.refusal.None? ==> SentWith(calls, id, body))
    && (weather.refusal.Some? ==> RefusedLocally(r, weather.refusal.value) in trace)
    && (Answered(r, SaysApplied) in trace && weather.second.Won? ==> id in rows && Landed(rows[id]))
    && (outcome.CommitRejected? <==>
          weather.second.Won? && (weather.refusal == Some(true) || Answered(r, SaysNotApplied) in trace))
  }

  ghost predicate SentWith(calls: seq<Call>, id: Bytes, body: P.Body) {
    exists k :: 0 <= k < |calls| && calls[k].op == id && calls[k].body == body
  }

  lemma SentWithStays(calls: seq<Call>, calls': seq<Call>, id: Bytes, body: P.Body)
    requires SentWith(calls, id, body) && CallsExtend(calls, calls')
    ensures SentWith(calls', id, body)
  {
    var k :| 0 <= k < |calls| && calls[k].op == id && calls[k].body == body;
    assert calls'[k].op == id;
  }

  /** One call and the record of its answer. */
  method CallAndSettle(w: World, ghost r: nat, id: Bytes, body: P.Body, replaying: bool, weather: Weather, now: int)
    returns (outcome: Outcome, ghost trace: seq<Event>)
    requires w.Valid() && w.Stands(r, id) && w.runs[r].pc == AtCall(body) && w.runs[r].replaying == replaying
    modifies w, w.store
    ensures w.Valid() && Extends(old(w.history), w.history) && r !in w.runs
    ensures w.Own(r) == old(w.Own(r)) + trace && Tried(trace)
    ensures outcome == if Recorded(trace) then CommitApplied else if Rejected(trace) then CommitRejected else CommitUnknown
    ensures Recorded(trace) ==> !Rejected(trace)
    ensures Truthful(w, id, outcome)
    ensures id in w.store.rows && Onward(old(w.store.rows)[id], w.store.rows[id])
    ensures DecidedBy(w.calls, w.store.rows, r, id, body, weather, trace, outcome)
  {
    ghost var own, h0 := w.Own(r), w.history;
    var answer, called := CallBackend(w, r, id, body, weather);
    ghost var h, calls, own' := w.history, w.calls, w.Own(r);
    ghost var settled;
    outcome, settled := Settle(w, r, id, answer, replaying, weather, now);
    OutcomeIsTruthful(w, id, outcome);
    Irrevocable(w, h0, id);
    Irrevocable(w, h, id);
    if weather.refusal.None? {
      SentWithStays(calls, w.calls, id, body);
    }
    trace := called + settled;
    Chain(own, own', w.Own(r), called, settled);
    CalledThenSettled(r, weather.refusal, answer, called, settled);
  }

  /** The steps of a call and of its settlement, taken together. */
  lemma CalledThenSettled(r: nat, refusal: Option<bool>, answer: Answer, called: seq<Event>, settled: seq<Event>)
    requires refusal.Some? ==> called == [RefusedLocally(r, refusal.value)]
    requires refusal.None? ==> called == [Send(r)] + [Answered(r, answer)]
    requires refusal.Some? ==> answer == if refusal.value then SaysNotApplied else Ambiguous
    requires forall e :: e in settled ==> e.Update?
    ensures Tried(called + settled)
    ensures Recorded(called + settled) <==> Recorded(settled)
    ensures Rejected(called + settled) <==> Rejected(settled)
    ensures refusal.Some? ==> RefusedLocally(r, refusal.value) in called + settled
    ensures forall a :: Answered(r, a) in called + settled <==> refusal.None? && a == answer
  {
    StepsJoin(called, settled);
    if refusal.Some? {
      OneStep(called[0]);
    } else {
      StepsJoin([Send(r)], [Answered(r, answer)]);
      OneStep(Send(r));
      OneStep(Answered(r, answer));
    }
  }

  /** Winning the commit in front of a call changes nothing of what the call says. */
  lemma TakenThenCalled(calls: seq<Call>, rows: Rows, r: nat, id: Bytes, body: P.Body, weather: Weather, now: int,
                        taken: seq<Event>, called: seq<Event>, outcome: Outcome)
    requires taken == [Update(r, ToCommitting, Won, now)] && Tried(called)
    requires outcome == if Recorded(called) then CommitApplied else if Rejected(called) then CommitRejected else CommitUnknown
    requires Recorded(called) ==> !Rejected(called)
    requires DecidedBy(calls, rows, r, id, body, weather, called, outcome)
    ensures Reports(taken + called, outcome) && Update(r, ToCommitting, Won, now) in taken + called
    ensures DecidedBy(calls, rows, r, id, body, weather, taken + called, outcome)
  {
    OneStep(taken[0]);
    StepsJoin(taken, called);
    assert forall e :: e in taken + called <==> e == taken[0] || e in called;
  }

  /** Take the commit, call once, record the answer. */
  method Commit(w: World, ghost r: nat, id: Bytes, body: P.Body, replaying: bool, weather: Weather, now: int)
    returns (outcome: Outcome, ghost trace: seq<Event>)
    requires w.Valid()
    requires w.Stands(r, id) && w.runs[r].pc == AtCommit(body) && w.runs[r].replaying == replaying
    modifies w, w.store
    ensures w.Valid() && Extends(old(w.history), w.history) && r !in w.runs
    ensures w.Own(r) == old(w.Own(r)) + trace && Reports(trace, outcome) && Truthful(w, id, outcome)
    ensures !weather.first.Missed? ==> id in w.store.rows && Potential(w.store.rows[id]) < 4
    ensures !outcome.CommitNotTried? <==> Update(r, ToCommitting, Won, now) in trace
    ensures weather.first.Won? && outcome.CommitNotTried? ==> trace == [Update(r, ToCommitting, Missed, now)]
    ensures !outcome.CommitNotTried? ==> DecidedBy(w.calls, w.store.rows, r, id, body, weather, trace, outcome)
  {
    ghost var own := w.Own(r);
    var won, taken := TakeCommit(w, r, id, weather.first, now);
    assert taken == [Update(r, ToCommitting, taken[0].ack, now)];
    if !won {
      LostRace(taken, r, now);
      return CommitNotTried, taken;
    }
    ghost var own' := w.Own(r);
    ghost var called;
    outcome, called := CallAndSettle(w, r, id, body, replaying, weather, now);
    TakenThenCalled(w.calls, w.store.rows, r, id, body, weather, now, taken, called, outcome);
    trace := taken + called;
    Chain(own, own', w.Own(r), taken, called);
  }

  /** `commit`, and `create`, which makes no check of its own: a live run with an invalid fence changes nothing. */
  method CommitLive(w: World, ghost r: nat, id: Bytes, body: P.Body, fence: Fence, creates: bool, weather: Weather, now: int)
    returns (outcome: Outcome, ghost trace: seq<Event>)
    requires w.Valid() && w.Stands(r, id) && w.runs[r] == Run(id, fence, false, AtCommit(body))
    modifies w, w.store
    ensures w.Valid() && Extends(old(w.history), w.history) && r !in w.runs
    ensures w.Own(r) == old(w.Own(r)) + trace && Reports(trace, outcome) && Truthful(w, id, outcome)
    ensures !creates && !fence.IsValid() ==>
      trace == [Abandon(r)] && w.store.rows == old(w.store.rows) && w.calls == old(w.calls)
    ensures creates || fence.IsValid() ==>
      && (!weather.first.Missed? ==> id in w.store.rows && Potential(w.store.rows[id]) < 4)
      && (!outcome.CommitNotTried? <==> Update(r, ToCommitting, Won, now) in trace)
      && (weather.first.Won? && outcome.CommitNotTried? ==> trace == [Update(r, ToCommitting, Missed, now)])
      && (!outcome.CommitNotTried? ==> DecidedBy(w.calls, w.store.rows, r, id, body, weather, trace, outcome))
  {
    if !creates && !fence.IsValid() {
      w.GiveUp(r);
      OneStep(Abandon(r));
      return CommitNotTried, [Abandon(r)];
    }
    outcome, trace := Commit(w, r, id, body, false, weather, now);
  }

  lemma PlannedThenCommitted(calls: seq<Call>, rows: Rows, r: nat, id: Bytes, body: P.Body, weather: Weather,
                             e: P.Encryptor, committed: seq<Event>, outcome: Outcome)
    requires Reports(committed, outcome)
    ensures Reports([PlanReplay(r, e)] + committed, outcome)
    ensures DecidedBy(calls, rows, r, id, body, weather, committed, outcome) ==>
      DecidedBy(calls, rows, r, id, body, weather, [PlanReplay(r, e)] + committed, outcome)
  {
    OneStep(PlanReplay(r, e));
    StepsJoin([PlanReplay(r, e)], committed);
  }

  /** `replay_generated`: decide what to send from the persisted payload, then commit it. */
  method ReplayGenerated(w: World, ghost r: nat, record: Record, fence: Fence, e: P.Encryptor, weather: Weather, now: int)
    returns (outcome: Outcome, ghost trace: seq<Event>)
    requires w.Valid()
    requires w.Stands(r, record.id) && w.runs[r] == Run(record.id, fence, true, AtReplay(record))
    modifies w, w.store
    ensures w.Valid() && Extends(old(w.history), w.history) && r !in w.runs
    ensures w.Own(r) == old(w.Own(r)) + trace && Reports(trace, outcome) && Truthful(w, record.id, outcome)
    ensures P.ReplayPlan(e, record, record.botId, fence).Err? ==> trace == [Abandon(r)]
    ensures P.ReplayPlan(e, record, record.botId, fence).Ok? ==>
      && (!weather.first.Missed? ==> record.id in w.store.rows && Potential(w.store.rows[record.id]) < 4)
      && (!outcome.CommitNotTried? <==> Update(r, ToCommitting, Won, now) in trace)
      && (!outcome.CommitNotTried? ==>
            DecidedBy(w.calls, w.store.rows, r, record.id, P.ReplayPlan(e, record, record.botId, fence).value, weather,
                      trace, outcome))
  {
    var plan := P.ReplayPlan(e, record, record.botId, fence);
    if plan.Err? {
      w.GiveUp(r);
      OneStep(Abandon(r));
      return CommitNotTried, [Abandon(r)];
    }
    ghost var own := w.Own(r);
    w.Planned(r, e, plan.value);
    ghost var own' := w.Own(r);
    ghost var committed;
    outcome, committed := Commit(w, r, record.id, plan.value, true, weather, now);
    PlannedThenCommitted(w.calls, w.store.rows, r, record.id, plan.value, weather, e, committed, outcome);
    trace := [PlanReplay(r, e)] + committed;
    assert Update(r, ToCommitting, Won, now) in trace <==> Update(r, ToCommitting, Won, now) in committed;
    Chain(own, own', w.Own(r), [PlanReplay(r, e)], committed);
  }

  /** The connector's journal shows the record's operation as applied. */
  predicate ShownApplied(journal: J.Entries, record: Record) {
    record.digest.Some? &&
    J.Replay(journal, record.id, LocatorHash(record.locator), record.digest.value) == J.AlreadyApplied
  }

  lemma ShownAppliedStays(w: World, h: History, record: Record)
    requires w.Valid() && Past(h, w) && ShownApplied(h.states[|h.events|].journal, record)
    ensures ShownApplied(w.journal, record)
  {
    HappenedIsExecution(w.history);
    var states, events, m := w.history.states, w.history.events, |h.events|;
    assert states[m] == h.states[m];
    JournalAnswerStays(states, events, m, |events|, record.id, LocatorHash(record.locator), record.digest.value);
  }

  /** The journal lookup of a reconciliation. */
  method ConfirmedByJournal(w: World, ghost r: nat, record: Record) returns (applied: bool)
    requires w.Valid() && w.Stands(r, record.id) && w.runs[r].pc == AtLookup(record)
    modifies w, w.store
    ensures w.Valid() && Extends(old(w.history), w.history)
    ensures ShownApplied(old(w.journal), record) ==> applied
    ensures applied ==> ShownApplied(w.journal, record)
    ensures applied ==> w.Stands(r, record.id) && w.runs[r].pc == AtConfirm(record.commitState)
    ensures !applied ==> r !in w.runs
    ensures w.Own(r) == old(w.Own(r)) + [if applied then LookUp(r) else Abandon(r)]
  {
    ghost var h := w.history;
    w.Elsewhere(r);
    StandsIn(w, r);
    if ShownApplied(h.states[|h.events|].journal, record) {
      ShownAppliedStays(w, h, record);
    }
    applied := record.digest.Some? &&
      J.Replay(w.journal, record.id, LocatorHash(record.locator), record.digest.value) == J.AlreadyApplied;
    if applied {
      w.Found(r, record);
    } else {
      w.GiveUp(r);
    }
  }

  /** `reconcile_commit` on a committing record: an applied journal entry, and nothing else, confirms it. */
  method ReconcileCommit(w: World, ghost r: nat, record: Record, weather: Weather, now: int)
    returns (confirmed: bool, ghost trace: seq<Event>)
    requires w.Valid()
    requires w.Stands(r, record.id) && w.runs[r].pc == AtLookup(record)
    modifies w, w.store
    ensures w.Valid() && Extends(old(w.history), w.history) && r !in w.runs
    ensures w.Own(r) == old(w.Own(r)) + trace && !Tried(trace)
    ensures confirmed <==> Recorded(trace)
    ensures confirmed ==> Truthful(w, record.id, CommitApplied)
    ensures ShownApplied(old(w.journal), record) && !weather.second.Missed? ==>
      record.id in w.store.rows && !(w.store.rows[record.id].status == Committing
                                     && w.store.rows[record.id].commitState == record.commitState)
  {
    ghost var own := w.Own(r);
    var applied := ConfirmedByJournal(w, r, record);
    OneStep(if applied then LookUp(r) else Abandon(r));
    if !applied {
      return false, [Abandon(r)];
    }
    ghost var own' := w.Own(r);
    ghost var last;
    confirmed, last := ConfirmRow(w, r, record, weather, now);
    OneStep(last);
    StepsJoin([LookUp(r)], [last]);
    trace := [LookUp(r)] + [last];
    Chain(own, own', w.Own(r), [LookUp(r)], [last]);
  }

  /** Recording what the journal confirmed. */
  method ConfirmRow(w: World, ghost r: nat, record: Record, weather: Weather, now: int)
    returns (confirmed: bool, ghost last: Event)
    requires w.Valid() && w.Stands(r, record.id) && w.runs[r].pc == AtConfirm(record.commitState)
    modifies w, w.store
    ensures w.Valid() && Extends(old(w.history), w.history) && r !in w.runs
    ensures w.Own(r) == old(w.Own(r)) + [last] && !Tries(last)
    ensures confirmed <==> RecordsApplied(last)
    ensures confirmed ==> Truthful(w, record.id, CommitApplied)
    ensures !weather.second.Missed? ==>
      record.id in w.store.rows && !(w.store.rows[record.id].status == Committing
                                     && w.store.rows[record.id].commitState == record.commitState)
  {
    Meanwhile(w, r, record.id);
    ghost var op := ToCommitted(weather.result, record.commitState);
    last := Update(r, op, Returned(weather.second, Fires(op, w.store.rows, w.store.keys, record.id)), now);
    confirmed := w.MarkConfirmed(r, record.id, weather.result, record.commitState, weather.second, now);
    if confirmed {
      OutcomeIsTruthful(w, record.id, CommitApplied);
    }
  }

  // ---------------------------------------------------------------- own steps inside a history

  lemma {:induction false} OwnSplits(a: seq<Event>, b: seq<Event>, r: nat)
    ensures OwnEvents(a + b, r) == OwnEvents(a, r) + OwnEvents(b, r)
    decreases |b|
  {
    if b == [] {
      assert a + b == a;
    } else {
      assert (a + b)[..|a + b| - 1] == a + b[..|b| - 1];
      OwnSplits(a, b[..|b| - 1], r);
    }
  }

  lemma {:induction false} OwnIsMembership(events: seq<Event>, r: nat, e: Event)
    ensures e in OwnEvents(events, r) <==> e in events && RunOf(e) == Some(r)
  {
    if events != [] {
      OwnIsMembership(events[..|events| - 1], r, e);
    }
  }

  /** What a run did between two moments is what the history holds of it there. */
  lemma TraceIsHistory(before: seq<Event>, after: seq<Event>, r: nat, trace: seq<Event>, e: Event)
    requires before <= after && OwnEvents(after, r) == OwnEvents(before, r) + trace
    ensures e in trace <==> e in after[|before|..] && RunOf(e) == Some(r)
  {
    var later := after[|before|..];
    assert after == before + later;
    OwnSplits(before, later, r);
    assert trace == OwnEvents(after, r)[|OwnEvents(before, r)|..];
    OwnIsMembership(later, r, e);
  }
}
