/** The recovery loop of one bot: lease a listed operation, replay or reconcile it, release the lease. */
module Recovery {
  import opened Wire
  import opened Operations
  import opened OperationStore
  import opened CommitProtocol
  import opened CommitSafety
  import opened Coordinator
  import P = OperationPayload
  import L = Leases

  /** One deadline for the whole loop, this long after it was computed. */
  const LEASE_SECONDS: int := 60

  /** What surrounds one candidate: lease traffic of other instances before and during the work, the
      clock when its lease is asked for, the verdict on the runtime fence, and the connector's weather. */
  datatype Surroundings = Surroundings(
    before: seq<L.Event>, now: int, fenceOk: bool, during: seq<L.Event>, weather: Weather)

  // ---------------------------------------------------------------- views of the past

  /** The record is how its row once looked. */
  ghost predicate Listed(h: History, record: Record) {
    exists m :: 0 <= m < |h.states| && record.id in h.states[m].rows && h.states[m].rows[record.id] == record
  }

  ghost predicate LandedIn(h: History, id: Bytes) {
    exists m :: 0 <= m < |h.states| && id in h.states[m].rows && Landed(h.states[m].rows[id])
  }

  ghost predicate AllListed(h: History, records: seq<Record>) {
    forall i :: 0 <= i < |records| ==> Listed(h, records[i]) && !Blank(records[i].id)
  }

  ghost predicate AllLanded(h: History, ids: seq<Bytes>) {
    forall i :: 0 <= i < |ids| ==> LandedIn(h, ids[i])
  }

  lemma ListedStays(h: History, h': History, record: Record)
    requires Extends(h, h') && Listed(h, record)
    ensures Listed(h', record)
  {
    var m :| 0 <= m < |h.states| && record.id in h.states[m].rows && h.states[m].rows[record.id] == record;
    assert h'.states[m] == h.states[m];
  }

  lemma LandedInStays(h: History, h': History, id: Bytes)
    requires Extends(h, h') && LandedIn(h, id)
    ensures LandedIn(h', id)
  {
    var m :| 0 <= m < |h.states| && id in h.states[m].rows && Landed(h.states[m].rows[id]);
    assert h'.states[m] == h.states[m];
  }

  lemma PastStays(h: History, h': History, records: seq<Record>, ids: seq<Bytes>)
    requires Extends(h, h') && AllListed(h, records) && AllLanded(h, ids)
    ensures AllListed(h', records) && AllLanded(h', ids)
  {
    forall i | 0 <= i < |records| ensures Listed(h', records[i]) { ListedStays(h, h', records[i]); }
    forall i | 0 <= i < |ids| ensures LandedIn(h', ids[i]) { LandedInStays(h, h', ids[i]); }
  }

  /** A listed record of an unfinished commit still matches its row. */
  lemma ListedMatches(w: World, record: Record)
    requires w.Valid() && Listed(w.history, record) && (record.status == Generated || record.status == Committing)
    ensures record.id in w.store.rows && StillMatches(record, w.store.rows[record.id])
  {
    HappenedIsExecution(w.history);
    var states, events := w.history.states, w.history.events;
    var m :| 0 <= m < |states| && record.id in states[m].rows && states[m].rows[record.id] == record;
    ListedRowStillMatches(states, events, m, |events|, record.id);
  }

  /** What landed once is applied now, and the connector did apply it. */
  lemma LandedIsTruthful(w: World, id: Bytes)
    requires w.Valid() && LandedIn(w.history, id)
    ensures Truthful(w, id, CommitApplied)
  {
    HappenedIsExecution(w.history);
    var states, events := w.history.states, w.history.events;
    var m :| 0 <= m < |states| && id in states[m].rows && Landed(states[m].rows[id]);
    LandedStays(states, events, m, |events|, id);
    LedgerIsTruthful(states, events, |events|, id);
  }

  lemma AllTruthful(w: World, ids: seq<Bytes>)
    requires w.Valid() && AllLanded(w.history, ids)
    ensures forall id :: id in ids ==> Truthful(w, id, CommitApplied)
  {
    forall id | id in ids ensures Truthful(w, id, CommitApplied) {
      LandedIsTruthful(w, id);
    }
  }

  lemma TruthIsLanded(w: World, id: Bytes)
    requires w.Valid() && Truthful(w, id, CommitApplied)
    ensures LandedIn(w.history, id)
  {
    assert Landed(w.history.states[|w.history.events|].rows[id]);
  }

  lemma {:induction false} Above(s: set<nat>) returns (b: nat)
    ensures forall x :: x in s ==> x < b
  {
    if s == {} {
      return 0;
    }
    var x :| x in s;
    var c := Above(s - {x});
    assert forall y :: y in s ==> y == x || y in s - {x};
    b := if x < c then c else x + 1;
  }

  // ---------------------------------------------------------------- the work on one candidate

  /** The work on one candidate: run `run` acted between these two points of the history. */
  datatype Span = Span(run: nat, from: nat, to: nat)

  predicate Within(span: Span, h: History, k: int) {
    0 <= span.from <= k < span.to && k < |h.events| && RunOf(h.events[k]) == Some(span.run)
  }

  /** The run of this work recorded the operation as applied, and was told so. */
  ghost predicate RecordedIn(h: History, span: Span) {
    exists k :: Within(span, h, k) && RecordsApplied(h.events[k])
  }

  /** The run of this work took the record up. */
  ghost predicate TakenUpIn(h: History, span: Span, record: Record, fence: Fence) {
    exists k :: Within(span, h, k) && h.events[k] == StartRecovery(span.run, record.id, fence, record)
  }

  lemma SpanOfTrace(h: History, h': History, r: nat, trace: seq<Event>, e: Event)
    requires Extends(h, h') && OwnEvents(h'.events, r) == OwnEvents(h.events, r) + trace
    ensures e in trace <==> exists k :: Within(Span(r, |h.events|, |h'.events|), h', k) && h'.events[k] == e
  {
    TraceIsHistory(h.events, h'.events, r, trace, e);
    var later := h'.events[|h.events|..];
    if e in later && RunOf(e) == Some(r) {
      var i :| 0 <= i < |later| && later[i] == e;
      assert Within(Span(r, |h.events|, |h'.events|), h', |h.events| + i);
    }
    if k :| Within(Span(r, |h.events|, |h'.events|), h', k) && h'.events[k] == e {
      assert later[k - |h.events|] == e;
    }
  }

  lemma RecordedTrace(h: History, h': History, r: nat, trace: seq<Event>)
    requires Extends(h, h') && OwnEvents(h'.events, r) == OwnEvents(h.events, r) + trace
    ensures Recorded(trace) <==> RecordedIn(h', Span(r, |h.events|, |h'.events|))
  {
    var span := Span(r, |h.events|, |h'.events|);
    if Recorded(trace) {
      var e :| e in trace && RecordsApplied(e);
      SpanOfTrace(h, h', r, trace, e);
    }
    if RecordedIn(h', span) {
      var k :| Within(span, h', k) && RecordsApplied(h'.events[k]);
      SpanOfTrace(h, h', r, trace, h'.events[k]);
    }
  }

  /** Steps already in the history stay where they are. */
  lemma SpanStays(h: History, h': History, span: Span)
    requires Extends(h, h') && span.to <= |h.events|
    ensures RecordedIn(h', span) <==> RecordedIn(h, span)
    ensures forall record, fence :: TakenUpIn(h, span, record, fence) ==> TakenUpIn(h', span, record, fence)
  {
    assert forall k :: Within(span, h', k) <==> Within(span, h, k);
    assert forall k :: Within(span, h, k) ==> h'.events[k] == h.events[k];
    forall record, fence | TakenUpIn(h, span, record, fence) ensures TakenUpIn(h', span, record, fence) {
      var k :| Within(span, h, k) && h.events[k] == StartRecovery(span.run, record.id, fence, record);
      assert Within(span, h', k);
    }
  }

  predicate Unfinished(record: Record) { record.status == Generated || record.status == Committing }

  /** Replay a generated operation, reconcile a committing one, leave the others. */
  method RecoverRecord(w: World, record: Record, fence: Fence, e: P.Encryptor, fenceOk: bool, weather: Weather, now: int)
    returns (works: bool, ghost span: Span)
    requires w.Valid() && Listed(w.history, record)
    modifies w, w.store
    ensures w.Valid() && Extends(old(w.history), w.history)
    ensures span.from == |old(w.history).events| && span.to == |w.history.events|
    ensures works <==> RecordedIn(w.history, span)
    ensures works ==> LandedIn(w.history, record.id)
    ensures fenceOk && Unfinished(record) ==> TakenUpIn(w.history, span, record, fence)
    ensures !fenceOk || !Unfinished(record) ==> w.history == old(w.history)
  {
    ghost var h := w.history;
    if !fenceOk || !Unfinished(record) {
      return false, Span(0, |h.events|, |h.events|);
    }
    ListedMatches(w, record);
    ghost var r := Above(w.runs.Keys);
    ghost var trace;
    works, trace := WorkOn(w, r, record, fence, e, weather, now);
    span := Span(r, |h.events|, |w.history.events|);
    RecordedTrace(h, w.history, r, trace);
    SpanOfTrace(h, w.history, r, trace, trace[0]);
  }

  /** A recovery run from beginning to end. */
  method WorkOn(w: World, ghost r: nat, record: Record, fence: Fence, e: P.Encryptor, weather: Weather, now: int)
    returns (works: bool, ghost trace: seq<Event>)
    requires w.Valid() && r !in w.runs && Unfinished(record)
    requires record.id in w.store.rows && StillMatches(record, w.store.rows[record.id])
    modifies w, w.store
    ensures w.Valid() && Extends(old(w.history), w.history)
    ensures w.Own(r) == old(w.Own(r)) + trace && trace != [] && trace[0] == StartRecovery(r, record.id, fence, record)
    ensures works <==> Recorded(trace)
    ensures works ==> LandedIn(w.history, record.id)
    ensures record.status == Generated && P.ReplayPlan(e, record, record.botId, fence).Ok? && !weather.first.Missed? ==>
      record.id in w.store.rows && Potential(w.store.rows[record.id]) < 4
  {
    ghost var own := w.Own(r);
    w.Begin(r, record, fence);
    ghost var first, own' := [StartRecovery(r, record.id, fence, record)], w.Own(r);
    ghost var rest;
    if record.status == Generated {
      var outcome;
      outcome, rest := ReplayGenerated(w, r, record, fence, e, weather, now);
      works := outcome.CommitApplied?;
    } else {
      works, rest := ReconcileCommit(w, r, record, weather, now);
    }
    OneStep(first[0]);
    StepsJoin(first, rest);
    Chain(own, own', w.Own(r), first, rest);
    trace := first + rest;
    if works {
      TruthIsLanded(w, record.id);
    }
  }

  // ---------------------------------------------------------------- the loop

  function TurnOf(record: Record, around: Surroundings, works: bool): L.Turn {
    L.Turn(record.id, around.before, around.now, around.during, works)
  }

  /** The turns are those of the first candidates, in order. */
  ghost predicate TurnsOf(turns: seq<L.Turn>, records: seq<Record>, around: seq<Surroundings>)
    requires |around| == |records|
  {
    && |turns| <= |records|
    && forall i :: 0 <= i < |turns| ==> turns[i] == TurnOf(records[i], around[i], turns[i].works)
  }

  lemma LoopExtends(t: L.Table, turns: seq<L.Turn>, u: L.Turn, instance: Bytes, until: int)
    requires L.Loop(t, turns, instance, until).Completed?
    ensures var so := L.Loop(t, turns, instance, until);
      var end := L.TurnStep(so.table, u, instance, until);
      L.Loop(t, turns + [u], instance, until) ==
      if end.Skipped? then L.Completed(end.table, so.recovered)
      else if end.Finished? then L.Completed(end.table, if u.works then so.recovered + [u.op] else so.recovered)
      else L.LeaseLost(end.table)
  {
    assert (turns + [u])[..|turns|] == turns;
  }

  /** One candidate: lease it, do the work, release; `lost` is the lost-lease error. */
  method RecoverOne(w: World, leases: L.LeaseTable, record: Record, bot: Bytes, instance: Bytes, until: int,
                    around: Surroundings, fence: Fence, e: P.Encryptor)
    returns (works: bool, granted: bool, lost: bool, ghost span: Span)
    requires w.Valid() && Listed(w.history, record) && !Blank(record.id) && !Blank(bot) && !Blank(instance)
    modifies w, w.store, leases
    ensures w.Valid() && Extends(old(w.history), w.history)
    ensures span.from == |old(w.history).events| && span.to == |w.history.events|
    ensures works <==> RecordedIn(w.history, span)
    ensures works ==> granted && LandedIn(w.history, record.id)
    ensures lost ==> granted
    ensures granted && around.fenceOk && Unfinished(record) ==> TakenUpIn(w.history, span, record, fence)
    ensures L.TurnStep(old(leases.leases), TurnOf(record, around, works), instance, until) ==
            if lost then L.Overtaken(leases.leases)
            else if granted then L.Finished(leases.leases)
            else L.Skipped(leases.leases)
  {
    works, lost, span := false, false, Span(0, |w.history.events|, |w.history.events|);
    leases.Others(around.before);
    var attempt := leases.TryAcquire(record.id, bot, instance, until, around.now, true);
    granted := attempt.Held?;
    if granted {
      works, span := RecoverRecord(w, record, fence, e, around.fenceOk, around.weather, around.now);
      leases.Others(around.during);
      var ok := leases.Release(attempt.handle);
      lost := !ok;
    }
  }

  /** Where the loop stands before candidate |turns|. */
  ghost predicate Underway(h: History, t0: L.Table, t: L.Table, turns: seq<L.Turn>, ids: seq<Bytes>,
                           records: seq<Record>, around: seq<Surroundings>, instance: Bytes, until: int)
    requires |around| == |records|
  {
    && TurnsOf(turns, records, around)
    && L.Loop(t0, turns, instance, until) == L.Completed(t, ids)
    && AllLanded(h, ids) && AllListed(h, records)
  }

  lemma TurnTaken(h: History, h': History, t0: L.Table, t: L.Table, t': L.Table, turns: seq<L.Turn>, ids: seq<Bytes>,
                  records: seq<Record>, around: seq<Surroundings>, instance: Bytes, until: int,
                  works: bool, granted: bool, lost: bool)
    requires |around| == |records| && |turns| < |records|
    requires Underway(h, t0, t, turns, ids, records, around, instance, until) && Extends(h, h')
    requires works ==> granted && LandedIn(h', records[|turns|].id)
    requires L.TurnStep(t, TurnOf(records[|turns|], around[|turns|], works), instance, until) ==
             if lost then L.Overtaken(t') else if granted then L.Finished(t') else L.Skipped(t')
    ensures var more := turns + [TurnOf(records[|turns|], around[|turns|], works)];
      && TurnsOf(more, records, around)
      && if lost then L.Loop(t0, more, instance, until) == L.LeaseLost(t')
         else Underway(h', t0, t', more, if works then ids + [records[|turns|].id] else ids, records, around, instance, until)
  {
    LoopExtends(t0, turns, TurnOf(records[|turns|], around[|turns|], works), instance, until);
    TurnsExtend(turns, records, around, works);
    PastStays(h, h', records, ids);
    if works {
      LandedExtend(h', ids, records[|turns|].id);
    }
  }

  lemma TurnsExtend(turns: seq<L.Turn>, records: seq<Record>, around: seq<Surroundings>, works: bool)
    requires |around| == |records| && |turns| < |records| && TurnsOf(turns, records, around)
    ensures TurnsOf(turns + [TurnOf(records[|turns|], around[|turns|], works)], records, around)
  {
  }

  lemma LandedExtend(h: History, ids: seq<Bytes>, id: Bytes)
    requires AllLanded(h, ids) && LandedIn(h, id)
    ensures AllLanded(h, ids + [id])
  {
  }

  /** Each turn's work: it counts as recovered exactly if its own run recorded the operation as applied,
      and a leased, unfinished candidate whose fence holds is always taken up. */
  ghost predicate Worked(h: History, turns: seq<L.Turn>, spans: seq<Span>, granted: seq<bool>,
                         records: seq<Record>, around: seq<Surroundings>, fence: Fence)
  {
    && |spans| == |turns| == |granted| && |turns| <= |records| == |around|
    && forall i :: 0 <= i < |turns| ==> WorkedAt(h, turns[i], spans[i], granted[i], records[i], around[i], fence)
  }

  ghost predicate WorkedAt(h: History, turn: L.Turn, span: Span, granted: bool, record: Record, around: Surroundings, fence: Fence) {
    && span.from <= span.to <= |h.events|
    && (turn.works <==> RecordedIn(h, span))
    && (granted && around.fenceOk && Unfinished(record) ==> TakenUpIn(h, span, record, fence))
  }

  lemma WorkStays(h: History, h': History, turns: seq<L.Turn>, spans: seq<Span>, granted: seq<bool>,
                  records: seq<Record>, around: seq<Surroundings>, fence: Fence)
    requires Worked(h, turns, spans, granted, records, around, fence) && Extends(h, h')
    ensures Worked(h', turns, spans, granted, records, around, fence)
  {
    forall i | 0 <= i < |turns|
      ensures WorkedAt(h', turns[i], spans[i], granted[i], records[i], around[i], fence)
    {
      assert WorkedAt(h, turns[i], spans[i], granted[i], records[i], around[i], fence);
      SpanStays(h, h', spans[i]);
    }
  }

  lemma WorkExtends(h: History, turns: seq<L.Turn>, spans: seq<Span>, granted: seq<bool>, records: seq<Record>,
                    around: seq<Surroundings>, fence: Fence, turn: L.Turn, span: Span, got: bool)
    requires Worked(h, turns, spans, granted, records, around, fence) && |turns| < |records|
    requires WorkedAt(h, turn, span, got, records[|turns|], around[|turns|], fence)
    ensures Worked(h, turns + [turn], spans + [span], granted + [got], records, around, fence)
  {
  }

  /** Which turns got their lease, by the loop rule. */
  ghost predicate GrantsMatch(t0: L.Table, turns: seq<L.Turn>, granted: seq<bool>, instance: Bytes, until: int) {
    && |granted| == |turns|
    && forall i :: 0 <= i < |turns| ==>
         (granted[i] <==> !L.TurnStep(L.TableAt(t0, turns, instance, until, i), turns[i], instance, until).Skipped?)
  }

  lemma GrantsExtend(t0: L.Table, turns: seq<L.Turn>, granted: seq<bool>, instance: Bytes, until: int, turn: L.Turn, got: bool)
    requires GrantsMatch(t0, turns, granted, instance, until)
    requires got <==> !L.TurnStep(L.Loop(t0, turns, instance, until).table, turn, instance, until).Skipped?
    ensures GrantsMatch(t0, turns + [turn], granted + [got], instance, until)
  {
    var more := turns + [turn];
    assert more[..|turns|] == turns;
    forall i | 0 <= i < |turns|
      ensures L.TableAt(t0, more, instance, until, i) == L.TableAt(t0, turns, instance, until, i)
    {
      assert more[..i] == turns[..i];
    }
  }

  /** All that the loop has established. */
  ghost predicate SoFar(h: History, t0: L.Table, t: L.Table, turns: seq<L.Turn>, spans: seq<Span>, granted: seq<bool>,
                        ids: seq<Bytes>, records: seq<Record>, around: seq<Surroundings>, instance: Bytes, until: int,
                        fence: Fence)
    requires |around| == |records|
  {
    && Underway(h, t0, t, turns, ids, records, around, instance, until)
    && Worked(h, turns, spans, granted, records, around, fence)
    && GrantsMatch(t0, turns, granted, instance, until)
  }

  lemma TurnDone(h: History, h': History, t0: L.Table, t: L.Table, t': L.Table, turns: seq<L.Turn>, spans: seq<Span>,
                 granted: seq<bool>, ids: seq<Bytes>, records: seq<Record>, around: seq<Surroundings>, instance: Bytes,
                 until: int, fence: Fence, works: bool, got: bool, lost: bool, span: Span)
    requires |around| == |records| && |turns| < |records| && Extends(h, h') && (lost ==> got)
    requires SoFar(h, t0, t, turns, spans, granted, ids, records, around, instance, until, fence)
    requires works ==> got && LandedIn(h', records[|turns|].id)
    requires WorkedAt(h', TurnOf(records[|turns|], around[|turns|], works), span, got, records[|turns|], around[|turns|], fence)
    requires L.TurnStep(t, TurnOf(records[|turns|], around[|turns|], works), instance, until) ==
             if lost then L.Overtaken(t') else if got then L.Finished(t') else L.Skipped(t')
    ensures var turn := TurnOf(records[|turns|], around[|turns|], works);
      && TurnsOf(turns + [turn], records, around)
      && Worked(h', turns + [turn], spans + [span], granted + [got], records, around, fence)
      && GrantsMatch(t0, turns + [turn], granted + [got], instance, until)
      && (lost ==> L.Loop(t0, turns + [turn], instance, until) == L.LeaseLost(t'))
      && (!lost ==> SoFar(h', t0, t', turns + [turn], spans + [span], granted + [got],
                          if works then ids + [records[|turns|].id] else ids, records, around, instance, until, fence))
  {
    var turn := TurnOf(records[|turns|], around[|turns|], works);
    TurnTaken(h, h', t0, t, t', turns, ids, records, around, instance, until, works, got, lost);
    WorkStays(h, h', turns, spans, granted, records, around, fence);
    WorkExtends(h', turns, spans, granted, records, around, fence, turn, span, got);
    GrantsExtend(t0, turns, granted, instance, until, turn, got);
  }

  /** `recover_for_bot` after the candidates were listed: the deadline is computed once, every lease is asked
      for by the clock of its turn, and a lease lost to another instance ends the loop with an error. */
  method RecoverForBot(w: World, leases: L.LeaseTable, records: seq<Record>, bot: Bytes, instance: Bytes, start: int,
                       around: seq<Surroundings>, fence: Fence, e: P.Encryptor)
    returns (recovered: Option<seq<Bytes>>, ghost turns: seq<L.Turn>, ghost spans: seq<Span>, ghost granted: seq<bool>)
    requires w.Valid() && |around| == |records| && !Blank(bot) && !Blank(instance)
    requires AllListed(w.history, records)
    modifies w, w.store, leases
    ensures w.Valid() && Extends(old(w.history), w.history)
    ensures TurnsOf(turns, records, around)
    ensures L.Loop(old(leases.leases), turns, instance, start + LEASE_SECONDS) ==
            if recovered.Some? then L.Completed(leases.leases, recovered.value) else L.LeaseLost(leases.leases)
    ensures Worked(w.history, turns, spans, granted, records, around, fence)
    ensures GrantsMatch(old(leases.leases), turns, granted, instance, start + LEASE_SECONDS)
    ensures recovered.Some? ==> |turns| == |records|
    ensures recovered.Some? ==> forall id :: id in recovered.value ==> Truthful(w, id, CommitApplied)
  {
    var until := start + LEASE_SECONDS;
    var ids: seq<Bytes> := [];
    turns, spans, granted := [], [], [];
    ghost var t0 := leases.leases;
    for i := 0 to |records|
      invariant w.Valid() && Extends(old(w.history), w.history) && |turns| == i
      invariant SoFar(w.history, t0, leases.leases, turns, spans, granted, ids, records, around, instance, until, fence)
    {
      ghost var h, t := w.history, leases.leases;
      var works, got, lost, span := RecoverOne(w, leases, records[i], bot, instance, until, around[i], fence, e);
      ghost var turn := TurnOf(records[i], around[i], works);
      TurnDone(h, w.history, t0, t, leases.leases, turns, spans, granted, ids, records, around, instance, until, fence,
               works, got, lost, span);
      turns, spans, granted := turns + [turn], spans + [span], granted + [got];
      if lost {
        return None, turns, spans, granted;
      }
      if works {
        ids := ids + [records[i].id];
      }
    }
    AllTruthful(w, ids);
    recovered := Some(ids);
  }
}
