/** Deliveries under retries, concurrent attempts, lost answers, lost acknowledgements and crashes. */
module DeliveryRuns {
  import opened Wire
  import opened Delivery

  /** What Telegram did with a sendMessage; a declined one put nothing in the chat. */
  datatype Fate = Flying | Accepted | Declined(rateLimited: bool)

  datatype Request = Request(id: DeliveryId, fate: Fate)

  type Attempt = nat

  datatype Pc =
    | Marking(id: DeliveryId)                  // about to run the UPDATE to sending
    | Ready(id: DeliveryId)                    // that UPDATE changed one row
    | InFlight(id: DeliveryId, request: nat)
    | Answered(id: DeliveryId, answer: Answer)
    | Posted(id: DeliveryId)                   // the UPDATE to sent changed one row
    | Unsettling(id: DeliveryId)               // in mark_unknown_after_persistence_failure
    | Adopted(id: DeliveryId)                  // a stream sink over a row that read sent
    | Finalizing(id: DeliveryId)               // such a sink, unable to finalize: about to mark unknown

  datatype State = State(rows: map<DeliveryId, Status>, requests: seq<Request>, attempts: map<Attempt, Pc>)

  datatype Event =
    | Create(id: DeliveryId)
    | Begin(a: Attempt, id: DeliveryId)
    | Update(a: Attempt, acked: bool)
    | Send(a: Attempt)
    | Decide(request: nat, fate: Fate)
    | Respond(a: Attempt)
    | LoseAnswer(a: Attempt)
    | LedgerFails(a: Attempt)
    | DeleteFails(a: Attempt)
    | Adopt(a: Attempt, id: DeliveryId)
    | FinalizeFails(a: Attempt)
    | End(a: Attempt)

  /** The attempt that brought its row to sending. */
  predicate Owns(p: Pc) { !p.Marking? && !p.Adopted? && !p.Finalizing? }

  /** The statement an attempt runs next, if it is about to run one. */
  function NextMark(p: Pc): Option<Mark> {
    match p
    case Marking(_) => Some(ToSending)
    case Answered(_, answer) => Some(MarkFor(answer))
    case Unsettling(_) => Some(ToUnsettled)
    case Finalizing(_) => Some(ToUnsettled)
    case _ => None
  }

  /** Where an attempt goes after its statement; None means it returns. */
  function AfterMark(p: Pc, changed: bool): Option<Pc> {
    match p
    case Marking(id) => if changed then Some(Ready(id)) else None
    case Answered(id, Delivered) => if changed then Some(Posted(id)) else Some(Unsettling(id))
    case _ => None
  }

  function With(attempts: map<Attempt, Pc>, a: Attempt, p: Option<Pc>): map<Attempt, Pc> {
    if p.Some? then attempts[a := p.value] else attempts - {a}
  }

  function AnswerTo(fate: Fate): Answer {
    match fate
    case Accepted => Delivered
    case Declined(rateLimited) => if rateLimited then RateLimited else ApiError
    case Flying => Doubtful
  }

  ghost predicate Step(s: State, e: Event, s': State) {
    match e
    case Create(id) =>
      id !in s.rows && s' == s.(rows := s.rows[id := Pending])
    case Begin(a, id) =>
      a !in s.attempts && s' == s.(attempts := s.attempts[a := Marking(id)])
    case Update(a, acked) =>
      && a in s.attempts && NextMark(s.attempts[a]).Some?
      && var p := s.attempts[a];
         var m := NextMark(p).value;
         s' == s.(rows := Marked(s.rows, p.id, m),
                  attempts := With(s.attempts, a, AfterMark(p, acked && Fires(s.rows, p.id, m))))
    case Send(a) =>
      && a in s.attempts && s.attempts[a].Ready?
      && var id := s.attempts[a].id;
         s' == s.(requests := s.requests + [Request(id, Flying)],
                  attempts := s.attempts[a := InFlight(id, |s.requests|)])
    case Decide(r, fate) =>
      && r < |s.requests| && s.requests[r].fate.Flying? && !fate.Flying?
      && s' == s.(requests := s.requests[r := s.requests[r].(fate := fate)])
    case Respond(a) =>
      && a in s.attempts && s.attempts[a].InFlight? && s.attempts[a].request < |s.requests|
      && var p := s.attempts[a];
         var fate := s.requests[p.request].fate;
         && !fate.Flying?
         && s' == s.(attempts := s.attempts[a := Answered(p.id, AnswerTo(fate))])
    case LoseAnswer(a) =>
      && a in s.attempts && s.attempts[a].InFlight?
      && s' == s.(attempts := s.attempts[a := Answered(s.attempts[a].id, Doubtful)])
    case LedgerFails(a) =>
      && a in s.attempts && s.attempts[a].Answered? && s.attempts[a].answer.Delivered?
      && s' == s.(attempts := s.attempts[a := Unsettling(s.attempts[a].id)])
    case DeleteFails(a) =>
      && a in s.attempts && s.attempts[a].Posted?
      && s' == s.(attempts := s.attempts[a := Unsettling(s.attempts[a].id)])
    case Adopt(a, id) =>
      && a !in s.attempts && id in s.rows && s.rows[id].Sent?
      && s' == s.(attempts := s.attempts[a := Adopted(id)])
    case FinalizeFails(a) =>
      && a in s.attempts && s.attempts[a].Adopted?
      && s' == s.(attempts := s.attempts[a := Finalizing(s.attempts[a].id)])
    case End(a) =>
      a in s.attempts && s' == s.(attempts := s.attempts - {a})
  }

  ghost predicate Init(s: State) { s == State(map[], [], map[]) }

  // ---------------------------------------------------------------- the invariant

  /** Every request for this delivery was turned away by a rate limit. */
  ghost predicate AllLimited(rs: seq<Request>, id: DeliveryId) {
    forall r :: 0 <= r < |rs| && rs[r].id == id ==> rs[r].fate == Declined(true)
  }

  ghost predicate AllDeclined(rs: seq<Request>, id: DeliveryId) {
    forall r :: 0 <= r < |rs| && rs[r].id == id ==> rs[r].fate.Declined?
  }

  /** At most one request for this delivery was not turned away by a rate limit. */
  ghost predicate OneOpen(rs: seq<Request>, id: DeliveryId) {
    forall q, r :: 0 <= q < |rs| && 0 <= r < |rs| && Open(rs[q], id) && Open(rs[r], id) ==> q == r
  }

  predicate Open(request: Request, id: DeliveryId) { request.id == id && request.fate != Declined(true) }

  ghost predicate SomeAccepted(rs: seq<Request>, id: DeliveryId) {
    exists r :: 0 <= r < |rs| && rs[r].id == id && rs[r].fate.Accepted?
  }

  ghost predicate RowOk(rs: seq<Request>, id: DeliveryId, status: Status) {
    && OneOpen(rs, id)
    && (status.Pending? || status.RetryPending? ==> AllLimited(rs, id))
    && (status.Failed? ==> AllDeclined(rs, id))
    && (status.Sent? ==> SomeAccepted(rs, id))
  }

  /** What an attempt that owns its row knows. */
  ghost predicate OwnerOk(rs: seq<Request>, p: Pc, status: Status) {
    match p
    case Marking(_) => true
    case Ready(id) => status.Sending? && AllLimited(rs, id)
    case InFlight(id, r) =>
      && status.Sending? && r < |rs| && rs[r].id == id
      && forall q :: 0 <= q < |rs| && rs[q].id == id && q != r ==> rs[q].fate == Declined(true)
    case Answered(id, answer) =>
      && status.Sending?
      && (answer.RateLimited? ==> AllLimited(rs, id))
      && (answer.ApiError? ==> AllDeclined(rs, id))
      && (answer.Delivered? ==> SomeAccepted(rs, id))
    case Posted(_) => status.Sent? || status.Unknown?
    case Unsettling(_) => status.Sending? || status.Sent? || status.Unknown?
    case Adopted(_) => true
    case Finalizing(_) => true
  }

  ghost predicate Rows(s: State) {
    && (forall r :: 0 <= r < |s.requests| ==> s.requests[r].id in s.rows)
    && (forall id :: id in s.rows ==> RowOk(s.requests, id, s.rows[id]))
  }

  predicate Rivals(p: Pc, q: Pc) { Owns(p) && Owns(q) && p.id == q.id }

  ghost predicate Owners(s: State) {
    && (forall a :: a in s.attempts && Owns(s.attempts[a]) ==>
          s.attempts[a].id in s.rows && OwnerOk(s.requests, s.attempts[a], s.rows[s.attempts[a].id]))
    && (forall a, b :: a in s.attempts && b in s.attempts && Rivals(s.attempts[a], s.attempts[b]) ==> a == b)
  }

  /** A sink works on a row that read sent: it reads sent or unknown ever after. */
  ghost predicate Sinks(s: State) {
    forall a :: a in s.attempts && (s.attempts[a].Adopted? || s.attempts[a].Finalizing?) ==>
      s.attempts[a].id in s.rows && (s.rows[s.attempts[a].id].Sent? || s.rows[s.attempts[a].id].Unknown?)
  }

  ghost predicate Inv(s: State) { Rows(s) && Owners(s) && Sinks(s) }

  // ---------------------------------------------------------------- preservation

  lemma CreateKeepsInv(s: State, id: DeliveryId, s': State)
    requires Inv(s) && Step(s, Create(id), s')
    ensures Inv(s')
  {
  }

  lemma UpdateKeepsRows(s: State, a: Attempt, acked: bool, s': State)
    requires Inv(s) && Step(s, Update(a, acked), s')
    ensures Rows(s')
  {
    var p := s.attempts[a];
    assert Owns(p) ==> OwnerOk(s.requests, p, s.rows[p.id]);
  }

  lemma UpdateKeepsOwners(s: State, a: Attempt, acked: bool, s': State)
    requires Inv(s) && Step(s, Update(a, acked), s')
    ensures Owners(s')
  {
    var p := s.attempts[a];
    var m := NextMark(p).value;
    forall b | b in s'.attempts && Owns(s'.attempts[b])
      ensures s'.attempts[b].id in s'.rows && OwnerOk(s'.requests, s'.attempts[b], s'.rows[s'.attempts[b].id])
    {
      if b == a {
        assert Owns(p) ==> OwnerOk(s.requests, p, s.rows[p.id]);
      } else if p.id == s.attempts[b].id && Fires(s.rows, p.id, m) {
        OthersUndisturbed(s, a, b);
      }
    }
    forall b | b in s'.attempts && Owns(s'.attempts[b]) && b != a && a in s'.attempts && Owns(s'.attempts[a])
      ensures s'.attempts[a].id != s'.attempts[b].id
    {
      if p.id == s.attempts[b].id && Fires(s.rows, p.id, m) {
        OthersUndisturbed(s, a, b);
      }
    }
  }

  /** A statement that fires leaves every other owner with what it knows: only a sink's mark can fire on
      an owned row, and then the owner is past caring. */
  lemma OthersUndisturbed(s: State, a: Attempt, b: Attempt)
    requires Inv(s) && a in s.attempts && b in s.attempts && a != b
    requires NextMark(s.attempts[a]).Some? && Owns(s.attempts[b]) && s.attempts[a].id == s.attempts[b].id
    requires Fires(s.rows, s.attempts[a].id, NextMark(s.attempts[a]).value)
    ensures s.attempts[a].Finalizing? && s.rows[s.attempts[a].id].Sent?
    ensures s.attempts[b].Posted? || s.attempts[b].Unsettling?
  {
    assert OwnerOk(s.requests, s.attempts[b], s.rows[s.attempts[b].id]);
  }

  lemma UpdateKeepsSinks(s: State, a: Attempt, acked: bool, s': State)
    requires Inv(s) && Step(s, Update(a, acked), s')
    ensures Sinks(s')
  {
    forall b | b in s'.attempts && (s'.attempts[b].Adopted? || s'.attempts[b].Finalizing?)
      ensures s'.attempts[b].id in s'.rows && (s'.rows[s'.attempts[b].id].Sent? || s'.rows[s'.attempts[b].id].Unknown?)
    {
      assert b in s.attempts && s'.attempts[b] == s.attempts[b];
    }
  }

  lemma SendKeepsInv(s: State, a: Attempt, s': State)
    requires Inv(s) && Step(s, Send(a), s')
    ensures Inv(s')
  {
    var id := s.attempts[a].id;
    assert OwnerOk(s.requests, s.attempts[a], s.rows[id]);
    forall i | i in s'.rows
      ensures RowOk(s'.requests, i, s'.rows[i])
    {
      SendKeepsRow(s.requests, id, i, s.rows[i]);
    }
    forall b | b in s'.attempts && Owns(s'.attempts[b]) && b != a
      ensures s'.attempts[b].id in s'.rows && OwnerOk(s'.requests, s'.attempts[b], s'.rows[s'.attempts[b].id])
    {
      SendKeepsOwner(s.requests, id, s.attempts[b], s.rows[s.attempts[b].id]);
    }
  }

  lemma SendKeepsRow(rs: seq<Request>, id: DeliveryId, i: DeliveryId, status: Status)
    requires RowOk(rs, i, status) && (i == id ==> status.Sending? && AllLimited(rs, id))
    ensures RowOk(rs + [Request(id, Flying)], i, status)
  {
    var more := rs + [Request(id, Flying)];
    if status.Sent? {
      var r :| 0 <= r < |rs| && rs[r].id == i && rs[r].fate.Accepted?;
      assert more[r] == rs[r];
    }
  }

  lemma SendKeepsOwner(rs: seq<Request>, id: DeliveryId, p: Pc, status: Status)
    requires OwnerOk(rs, p, status) && Owns(p) && p.id != id
    ensures OwnerOk(rs + [Request(id, Flying)], p, status)
  {
    var more := rs + [Request(id, Flying)];
    if p.Answered? && p.answer.Delivered? {
      var r :| 0 <= r < |rs| && rs[r].id == p.id && rs[r].fate.Accepted?;
      assert more[r] == rs[r];
    }
  }

  /** Telegram's decision turns one flying request into a settled one. */
  lemma DecideKeepsInv(s: State, r: nat, fate: Fate, s': State)
    requires Inv(s) && Step(s, Decide(r, fate), s')
    ensures Inv(s')
  {
    forall i | i in s'.rows
      ensures RowOk(s'.requests, i, s'.rows[i])
    {
      DecideKeepsAccepted(s.requests, r, fate, i);
    }
    forall b | b in s'.attempts && Owns(s'.attempts[b])
      ensures s'.attempts[b].id in s'.rows && OwnerOk(s'.requests, s'.attempts[b], s'.rows[s'.attempts[b].id])
    {
      DecideKeepsAccepted(s.requests, r, fate, s.attempts[b].id);
    }
  }

  lemma DecideKeepsAccepted(rs: seq<Request>, r: nat, fate: Fate, i: DeliveryId)
    requires r < |rs| && rs[r].fate.Flying?
    ensures SomeAccepted(rs, i) ==> SomeAccepted(rs[r := rs[r].(fate := fate)], i)
  {
    var now := rs[r := rs[r].(fate := fate)];
    if SomeAccepted(rs, i) {
      var q :| 0 <= q < |rs| && rs[q].id == i && rs[q].fate.Accepted?;
      assert now[q] == rs[q];
    }
  }

  /** Steps of one attempt that touch neither rows nor requests. */
  predicate Local(e: Event) {
    e.Begin? || e.Respond? || e.LoseAnswer? || e.LedgerFails? || e.DeleteFails? || e.Adopt? || e.FinalizeFails? || e.End?
  }

  lemma LocalFrame(s: State, e: Event, s': State)
    requires Step(s, e, s') && Local(e)
    ensures s'.rows == s.rows && s'.requests == s.requests
    ensures forall b :: b in s'.attempts && b != e.a ==> b in s.attempts && s'.attempts[b] == s.attempts[b]
    ensures e.a in s'.attempts && Owns(s'.attempts[e.a]) ==>
      e.a in s.attempts && Owns(s.attempts[e.a]) && s.attempts[e.a].id == s'.attempts[e.a].id
  {
  }

  /** The attempt that moves still knows what its new place requires. */
  lemma LocalOwner(s: State, e: Event, s': State)
    requires Owners(s) && Step(s, e, s') && Local(e) && e.a in s'.attempts && Owns(s'.attempts[e.a])
    ensures s'.attempts[e.a].id in s'.rows
    ensures OwnerOk(s'.requests, s'.attempts[e.a], s'.rows[s'.attempts[e.a].id])
  {
    LocalFrame(s, e, s');
    assert OwnerOk(s.requests, s.attempts[e.a], s.rows[s.attempts[e.a].id]);
  }

  lemma LocalKeepsSinks(s: State, e: Event, s': State)
    requires Sinks(s) && Step(s, e, s') && Local(e)
    ensures Sinks(s')
  {
    LocalFrame(s, e, s');
  }

  lemma LocalStepKeepsInv(s: State, e: Event, s': State)
    requires Inv(s) && Step(s, e, s') && Local(e)
    ensures Inv(s')
  {
    LocalFrame(s, e, s');
    LocalKeepsSinks(s, e, s');
    if e.a in s'.attempts && Owns(s'.attempts[e.a]) {
      LocalOwner(s, e, s');
    }
  }

  lemma StepKeepsInv(s: State, e: Event, s': State)
    requires Inv(s) && Step(s, e, s')
    ensures Inv(s')
  {
    match e
    case Create(id) => CreateKeepsInv(s, id, s');
    case Update(a, acked) =>
      UpdateKeepsRows(s, a, acked, s');
      UpdateKeepsOwners(s, a, acked, s');
      UpdateKeepsSinks(s, a, acked, s');
    case Send(a) => SendKeepsInv(s, a, s');
    case Decide(r, fate) => DecideKeepsInv(s, r, fate, s');
    case _ => LocalStepKeepsInv(s, e, s');
  }

  // ---------------------------------------------------------------- whole runs

  ghost predicate Execution(states: seq<State>, events: seq<Event>) {
    && |states| == |events| + 1
    && Init(states[0])
    && forall i :: 0 <= i < |events| ==> Step(states[i], events[i], states[i + 1])
  }

  lemma {:induction false} InvHolds(states: seq<State>, events: seq<Event>, n: nat)
    requires Execution(states, events) && n < |states|
    ensures Inv(states[n])
    decreases n
  {
    if n > 0 {
      InvHolds(states, events, n - 1);
      StepKeepsInv(states[n - 1], events[n - 1], states[n]);
    }
  }

  /** Telegram accepts at most one sendMessage per delivery, and every other request for that
      delivery was turned away by a rate limit. */
  lemma AcceptedAtMostOnce(states: seq<State>, events: seq<Event>, n: nat, q: nat, r: nat)
    requires Execution(states, events) && n < |states|
    requires q < |states[n].requests| && r < |states[n].requests| && q != r
    requires states[n].requests[q].id == states[n].requests[r].id && states[n].requests[q].fate.Accepted?
    ensures states[n].requests[r].fate == Declined(true)
  {
    InvHolds(states, events, n);
  }

  /** Rows that promise nothing was delivered tell the truth, with no request still in flight. */
  lemma UndeliveredRowsAreTruthful(states: seq<State>, events: seq<Event>, n: nat, id: DeliveryId, r: nat)
    requires Execution(states, events) && n < |states| && id in states[n].rows
    requires states[n].rows[id] in {Pending, RetryPending, Failed}
    requires r < |states[n].requests| && states[n].requests[r].id == id
    ensures states[n].requests[r].fate.Declined?
    ensures !states[n].rows[id].Failed? ==> states[n].requests[r].fate == Declined(true)
  {
    InvHolds(states, events, n);
  }

  /** Request `r` was accepted and every other one for this delivery was turned away by a rate limit. */
  ghost predicate OnlyAccepted(rs: seq<Request>, id: DeliveryId, r: nat) {
    && r < |rs| && rs[r] == Request(id, Accepted)
    && forall q :: 0 <= q < |rs| && Open(rs[q], id) ==> q == r
  }

  /** A sent row has exactly one accepted request behind it. */
  lemma SentRowsAreTruthful(states: seq<State>, events: seq<Event>, n: nat, id: DeliveryId)
    requires Execution(states, events) && n < |states| && id in states[n].rows && states[n].rows[id].Sent?
    ensures exists r :: 0 <= r < |states[n].requests| && OnlyAccepted(states[n].requests, id, r)
  {
    InvHolds(states, events, n);
    var rs := states[n].requests;
    var r :| 0 <= r < |rs| && rs[r].id == id && rs[r].fate.Accepted?;
    assert Open(rs[r], id);
    assert OnlyAccepted(rs, id, r);
  }

  predicate Closed(status: Status) { status.Sent? || status.Unknown? || status.Failed? }

  lemma ClosedStaysClosed(s: State, e: Event, s': State, id: DeliveryId)
    requires Step(s, e, s') && id in s.rows && Closed(s.rows[id])
    ensures id in s'.rows && Closed(s'.rows[id])
    ensures s'.rows[id] == s.rows[id] || (s.rows[id].Sent? && s'.rows[id].Unknown?)
  {
  }

  lemma {:induction false} ClosedFrom(states: seq<State>, events: seq<Event>, i: nat, j: nat, id: DeliveryId)
    requires Execution(states, events) && i <= j < |states|
    requires id in states[i].rows && Closed(states[i].rows[id])
    ensures id in states[j].rows && Closed(states[j].rows[id])
    ensures states[j].rows[id] == states[i].rows[id] || (states[i].rows[id].Sent? && states[j].rows[id].Unknown?)
    decreases j
  {
    if i < j {
      ClosedFrom(states, events, i, j - 1, id);
      ClosedStaysClosed(states[j - 1], events[j - 1], states[j], id);
    }
  }

  /** Once a row reads sent, unknown or failed, its message is never posted again. */
  lemma ClosedRowsAreNeverSentAgain(states: seq<State>, events: seq<Event>, i: nat, j: nat, id: DeliveryId)
    requires Execution(states, events) && i <= j < |events|
    requires id in states[i].rows && Closed(states[i].rows[id])
    requires events[j].Send?
    ensures events[j].a in states[j].attempts && states[j].attempts[events[j].a].id != id
  {
    InvHolds(states, events, j);
    ClosedFrom(states, events, i, j, id);
    assert Step(states[j], events[j], states[j + 1]);
  }

  /** Every resend of a delivery follows only rate-limited requests. */
  lemma ResendsFollowRateLimits(states: seq<State>, events: seq<Event>, n: nat, r: nat)
    requires Execution(states, events) && n < |events| && events[n].Send?
    requires events[n].a in states[n].attempts && r < |states[n].requests|
    requires states[n].requests[r].id == states[n].attempts[events[n].a].id
    ensures states[n].requests[r].fate == Declined(true)
  {
    InvHolds(states, events, n);
    assert Step(states[n], events[n], states[n + 1]);
    assert Owns(states[n].attempts[events[n].a]);
  }

  // ---------------------------------------------------------------- where each answer leaves its row

  /** The ways a row may change. */
  predicate Moves(was: Status, now: Status) {
    match was
    case Pending | RetryPending => now == Sending
    case Sending => now == Sent || now == RetryPending || now == Failed || now == Unknown
    case Sent => now == Unknown
    case Unknown | Failed => false
  }

  /** Rows are never removed, start pending, and change only along these moves. */
  lemma RowsMove(s: State, e: Event, s': State, id: DeliveryId)
    requires Step(s, e, s')
    ensures id in s.rows ==> id in s'.rows && (s'.rows[id] == s.rows[id] || Moves(s.rows[id], s'.rows[id]))
    ensures id !in s.rows && id in s'.rows ==> e == Create(id) && s'.rows[id] == Pending
  {
  }

  /** This event is the attempt's own. */
  predicate By(e: Event, a: Attempt) { !e.Create? && !e.Decide? && e.a == a }

  /** An attempt stays where it is until it acts. */
  lemma {:induction false} AttemptWaits(states: seq<State>, events: seq<Event>, i: nat, j: nat, a: Attempt)
    requires Execution(states, events) && i <= j < |states| && a in states[i].attempts
    requires forall k :: i <= k < j ==> !By(events[k], a)
    ensures a in states[j].attempts && states[j].attempts[a] == states[i].attempts[a]
    decreases j
  {
    if i < j {
      AttemptWaits(states, events, i, j - 1, a);
      assert Step(states[j - 1], events[j - 1], states[j]) && !By(events[j - 1], a);
    }
  }

  /** Attempt `a`, at its place in state `i`, next acts at step `j`. */
  ghost predicate NextActs(states: seq<State>, events: seq<Event>, i: nat, j: nat, a: Attempt) {
    && Execution(states, events) && i <= j < |events|
    && (forall k :: i <= k < j ==> !By(events[k], a)) && By(events[j], a)
  }

  /** An attempt that has read Telegram's answer and then runs its statement leaves its row sent when the message was
      accepted, pending a retry when it was rate limited, failed when it was refused, and unknown when the answer was
      lost; whatever others did in between, and whether or not it learns of it. */
  lemma AnswersSettleRows(states: seq<State>, events: seq<Event>, i: nat, j: nat, a: Attempt, id: DeliveryId, r: nat)
    requires NextActs(states, events, i + 1, j, a) && events[j].Update?
    requires By(events[i], a) && (events[i].Respond? || events[i].LoseAnswer?)
    requires a in states[i].attempts && states[i].attempts[a] == InFlight(id, r) && r < |states[i].requests|
    ensures id in states[j + 1].rows
    ensures events[i].LoseAnswer? ==> states[j + 1].rows[id] == Unknown
    ensures events[i].Respond? && states[i].requests[r].fate == Accepted ==> states[j + 1].rows[id] == Sent
    ensures events[i].Respond? && states[i].requests[r].fate == Declined(true) ==> states[j + 1].rows[id] == RetryPending
    ensures events[i].Respond? && states[i].requests[r].fate == Declined(false) ==> states[j + 1].rows[id] == Failed
  {
    assert Step(states[i], events[i], states[i + 1]);
    AttemptWaits(states, events, i + 1, j, a);
    InvHolds(states, events, j);
    assert Step(states[j], events[j], states[j + 1]);
    assert OwnerOk(states[j].requests, states[j].attempts[a], states[j].rows[id]);
  }

  /** An accepted message whose turn could not be recorded leaves its row unknown. */
  lemma UnrecordedIsUnknown(states: seq<State>, events: seq<Event>, i: nat, j: nat, a: Attempt, id: DeliveryId)
    requires NextActs(states, events, i + 1, j, a) && events[j].Update? && events[i] in {LedgerFails(a), DeleteFails(a)}
    requires a in states[i].attempts && states[i].attempts[a].id == id
    ensures id in states[j + 1].rows && states[j + 1].rows[id] == Unknown
  {
    assert Step(states[i], events[i], states[i + 1]);
    AttemptWaits(states, events, i + 1, j, a);
    InvHolds(states, events, j);
    assert Step(states[j], events[j], states[j + 1]);
    assert OwnerOk(states[j].requests, states[j].attempts[a], states[j].rows[id]);
  }

  /** This event is a claim of the delivery by an attempt. */
  predicate Claims(s: State, e: Event, id: DeliveryId) { e.Update? && e.a in s.attempts && s.attempts[e.a] == Marking(id) }

  predicate Claimable(status: Status) { status == Pending || status == RetryPending }

  /** A row that waits to be sent waits until it is claimed. */
  lemma {:induction false} WaitsForClaim(states: seq<State>, events: seq<Event>, i: nat, j: nat, id: DeliveryId)
    requires Execution(states, events) && i <= j < |states| && id in states[i].rows && Claimable(states[i].rows[id])
    requires forall k :: i <= k < j ==> !Claims(states[k], events[k], id)
    ensures id in states[j].rows && states[j].rows[id] == states[i].rows[id]
    decreases j
  {
    if i < j {
      WaitsForClaim(states, events, i, j - 1, id);
      WaitsOneStep(states, events, j - 1, id);
    }
  }

  lemma WaitsOneStep(states: seq<State>, events: seq<Event>, k: nat, id: DeliveryId)
    requires Execution(states, events) && k < |events| && id in states[k].rows && Claimable(states[k].rows[id])
    requires !Claims(states[k], events[k], id)
    ensures id in states[k + 1].rows && states[k + 1].rows[id] == states[k].rows[id]
  {
    InvHolds(states, events, k);
    OnlyClaimsMove(states[k], events[k], states[k + 1], id);
  }

  lemma OnlyClaimsMove(s: State, e: Event, s': State, id: DeliveryId)
    requires Inv(s) && Step(s, e, s') && id in s.rows && Claimable(s.rows[id]) && !Claims(s, e, id)
    ensures id in s'.rows && s'.rows[id] == s.rows[id]
  {
    assert e.Update? && Owns(s.attempts[e.a]) ==> OwnerOk(s.requests, s.attempts[e.a], s.rows[s.attempts[e.a].id]);
  }

  /** A row that waits to be sent, new or rate limited, is taken by the first attempt that claims it: the row reads
      sending and an attempt that learns of it goes on to send. */
  lemma WaitingRowsAreClaimed(states: seq<State>, events: seq<Event>, i: nat, j: nat, id: DeliveryId)
    requires Execution(states, events) && i <= j < |events| && id in states[i].rows && Claimable(states[i].rows[id])
    requires (forall k :: i <= k < j ==> !Claims(states[k], events[k], id)) && Claims(states[j], events[j], id)
    ensures id in states[j + 1].rows && states[j + 1].rows[id] == Sending
    ensures events[j].acked ==>
      events[j].a in states[j + 1].attempts && states[j + 1].attempts[events[j].a] == Ready(id)
  {
    WaitsForClaim(states, events, i, j, id);
    assert Step(states[j], events[j], states[j + 1]);
  }
}
