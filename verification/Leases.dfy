/** Execution leases of the recovery loop: one row per operation, taken over only by its own
    instance or after it expires, removed only by a handle that still matches. */
module Leases {
  import opened Wire

  const MAX_GENERATION: nat := 9223372036854775807

  datatype Lease = Lease(instance: Bytes, generation: nat, until: int)

  /** What an acquirer keeps and later releases with. */
  datatype Handle = Handle(op: Bytes, instance: Bytes, generation: nat, until: int)

  type Table = map<Bytes, Lease>

  predicate Available(t: Table, op: Bytes, instance: Bytes, now: int) {
    op !in t
    || ((t[op].instance == instance || t[op].until <= now) && t[op].generation < MAX_GENERATION)
  }

  function Taken(t: Table, op: Bytes, instance: Bytes, until: int): Table {
    t[op := Lease(instance, if op in t then t[op].generation + 1 else 1, until)]
  }

  predicate Matches(t: Table, h: Handle) {
    h.op in t && t[h.op].instance == h.instance && t[h.op].generation == h.generation
  }

  function Released(t: Table, h: Handle): Table {
    if Matches(t, h) then t - {h.op} else t
  }

  datatype Attempt = Held(handle: Handle) | Busy | Invalid

  class LeaseTable {
    var leases: Table

    constructor ()
      ensures leases == map[]
    {
      leases := map[];
    }

    /** `try_acquire_execution_lease`; `known` says whether the operation row exists for this bot. */
    method TryAcquire(op: Bytes, bot: Bytes, instance: Bytes, until: int, now: int, known: bool)
      returns (a: Attempt)
      modifies this
      ensures a.Invalid? <==> Blank(op) || Blank(bot) || Blank(instance)
      ensures a.Held? <==> !a.Invalid? && known && Available(old(leases), op, instance, now)
      ensures a.Held? && op in old(leases) ==>
        && (old(leases)[op].instance == instance || old(leases)[op].until <= now)
        && old(leases)[op].generation < 9223372036854775807
        && a.handle == Handle(op, instance, old(leases)[op].generation + 1, until)
      ensures a.Held? && op !in old(leases) ==> a.handle == Handle(op, instance, 1, until)
      ensures a.Held? ==> leases == old(leases)[op := Lease(instance, a.handle.generation, until)]
      ensures a.Held? ==>
        && leases == Taken(old(leases), op, instance, until)
        && a.handle == HandleOf(old(leases), op, instance, until)
      ensures a.Busy? <==>
        && !a.Invalid? && (known ==>
             && op in old(leases)
             && ((old(leases)[op].instance != instance && now < old(leases)[op].until)
                 || old(leases)[op].generation >= 9223372036854775807))
      ensures !a.Held? ==> leases == old(leases)
    {
      if Blank(op) || Blank(bot) || Blank(instance) {
        return Invalid;
      }
      if !known {
        return Busy;
      }
      if op !in leases {
        leases := leases[op := Lease(instance, 1, until)];
        return Held(Handle(op, instance, 1, until));
      }
      var row := leases[op];
      if (row.instance == instance || row.until <= now) && row.generation < MAX_GENERATION {
        leases := leases[op := Lease(instance, row.generation + 1, until)];
        return Held(Handle(op, instance, row.generation + 1, until));
      }
      a := Busy;
    }

    /** `release_execution_lease` */
    method Release(h: Handle) returns (ok: bool)
      modifies this
      ensures ok == Matches(old(leases), h)
      ensures leases == Released(old(leases), h)
      ensures ok <==> h.op in old(leases) && old(leases)[h.op].instance == h.instance
                      && old(leases)[h.op].generation == h.generation
      ensures leases == if ok then old(leases) - {h.op} else old(leases)
    {
      ok := h.op in leases && leases[h.op].instance == h.instance && leases[h.op].generation == h.generation;
      if ok {
        leases := leases - {h.op};
      }
    }

    /** Attempts and releases of other instances. */
    method Others(es: seq<Event>)
      modifies this
      ensures leases == After(old(leases), es)
    {
      for i := 0 to |es|
        invariant leases == After(old(leases), es[..i])
      {
        assert es[..i + 1][..i] == es[..i];
        match es[i] {
          case Acquire(op, instance, until, now) =>
            if Available(leases, op, instance, now) {
              leases := Taken(leases, op, instance, until);
            }
          case Drop(h) => leases := Released(leases, h);
        }
      }
      assert es[..|es|] == es;
    }
  }

  // ---------------------------------------------------------------- all interleavings

  datatype Event =
    | Acquire(op: Bytes, instance: Bytes, until: int, now: int)
    | Drop(handle: Handle)

  function Next(t: Table, e: Event): Table {
    match e
    case Acquire(op, instance, until, now) =>
      if Available(t, op, instance, now) then Taken(t, op, instance, until) else t
    case Drop(h) => Released(t, h)
  }

  function After(t: Table, es: seq<Event>): Table {
    if es == [] then t else Next(After(t, es[..|es| - 1]), es[|es| - 1])
  }

  /** No event of `instance` touches `op`, and nobody's clock has reached `until`. */
  ghost predicate Undisturbed(es: seq<Event>, op: Bytes, instance: Bytes, until: int) {
    forall i :: 0 <= i < |es| ==>
      match es[i]
      case Acquire(o, who, _, now) => o == op ==> who != instance && now < until
      case Drop(h) => h.op == op ==> h.instance != instance
  }

  /** Until it expires or its own instance acts, a lease stands against every other instance:
      whatever they attempt, in whatever order, the row does not change, so all of them were refused. */
  lemma {:induction false} LeaseExcludesOthers(t: Table, es: seq<Event>, op: Bytes)
    requires op in t
    requires Undisturbed(es, op, t[op].instance, t[op].until)
    ensures op in After(t, es) && After(t, es)[op] == t[op]
  {
    if es != [] {
      var front, last := es[..|es| - 1], es[|es| - 1];
      assert forall i :: 0 <= i < |front| ==> front[i] == es[i];
      LeaseExcludesOthers(t, front, op);
    }
  }

  /** The row lives through the whole stretch. */
  ghost predicate Lives(t: Table, es: seq<Event>, op: Bytes) {
    forall n :: 0 <= n <= |es| ==> op in After(t, es[..n])
  }

  function Grants(t: Table, es: seq<Event>, op: Bytes): nat {
    if es == [] then 0
    else
      var front, last := es[..|es| - 1], es[|es| - 1];
      Grants(t, front, op)
      + if last.Acquire? && last.op == op && Available(After(t, front), op, last.instance, last.now) then 1 else 0
  }

  /** While a row lives its generation counts the grants exactly, so no two handles handed out in
      that time are equal. */
  lemma {:induction false} GenerationCountsGrants(t: Table, es: seq<Event>, op: Bytes)
    requires Lives(t, es, op)
    ensures op in t && op in After(t, es)
    ensures After(t, es)[op].generation == t[op].generation + Grants(t, es, op)
  {
    assert es[..0] == [] && op in After(t, es[..0]);
    assert es[..|es|] == es && op in After(t, es[..|es|]);
    if es != [] {
      var front := es[..|es| - 1];
      forall n | 0 <= n <= |front| ensures op in After(t, front[..n]) {
        assert front[..n] == es[..n];
      }
      GenerationCountsGrants(t, front, op);
    }
  }

  /** A step changes hands only when the old lease has expired, and removes a row only for the very
      handle of the instance that holds it. */
  lemma HandsChangeOnlyAfterExpiry(t: Table, e: Event, op: Bytes)
    requires op in t
    ensures op !in Next(t, e) ==>
      e.Drop? && e.handle.op == op && e.handle.instance == t[op].instance && e.handle.generation == t[op].generation
    ensures op in Next(t, e) && Next(t, e)[op].instance != t[op].instance ==>
      e.Acquire? && e.op == op && e.instance == Next(t, e)[op].instance && t[op].until <= e.now
  {
  }

  // ---------------------------------------------------------------- how long a lease excludes

  /** Events of other instances only; they release only with handles of their own. */
  ghost predicate Foreign(es: seq<Event>, instance: Bytes) {
    forall i :: 0 <= i < |es| ==> ForeignEvent(es[i], instance)
  }

  predicate ForeignEvent(e: Event, instance: Bytes) {
    match e
    case Acquire(_, who, _, _) => who != instance
    case Drop(h) => h.instance != instance
  }

  /** Somebody tries for the operation when the deadline has passed. */
  ghost predicate LateAttempt(es: seq<Event>, op: Bytes, until: int) {
    exists i :: 0 <= i < |es| && LateEvent(es[i], op, until)
  }

  predicate LateEvent(e: Event, op: Bytes, until: int) { e.Acquire? && e.op == op && until <= e.now }

  /** A granted lease keeps another instance out exactly while that instance's clock is below the deadline. */
  lemma ExclusiveExactlyUntil(t: Table, op: Bytes, instance: Bytes, until: int, other: Bytes, now: int)
    requires other != instance
    ensures var row := Taken(t, op, instance, until)[op];
      Available(Taken(t, op, instance, until), op, other, now) <==> until <= now && row.generation < MAX_GENERATION
  {
  }

  predicate Gone(t: Table, op: Bytes, instance: Bytes) { op !in t || t[op].instance != instance }

  /** What others can do to a row: nothing before its deadline or at the last generation; one late
      attempt takes it, and then they never give it back. */
  lemma {:induction false} OthersAgainstRow(t: Table, es: seq<Event>, op: Bytes)
    requires op in t && Foreign(es, t[op].instance)
    ensures !LateAttempt(es, op, t[op].until) || t[op].generation >= MAX_GENERATION ==>
      op in After(t, es) && After(t, es)[op] == t[op]
    ensures LateAttempt(es, op, t[op].until) && t[op].generation < MAX_GENERATION ==>
      Gone(After(t, es), op, t[op].instance)
    decreases |es|
  {
    if es != [] {
      var front, last := es[..|es| - 1], es[|es| - 1];
      assert forall i :: 0 <= i < |front| ==> front[i] == es[i];
      OthersAgainstRow(t, front, op);
      assert ForeignEvent(last, t[op].instance);
      if LateAttempt(front, op, t[op].until) {
        var i :| 0 <= i < |front| && LateEvent(front[i], op, t[op].until);
        assert LateEvent(es[i], op, t[op].until);
      } else if LateEvent(last, op, t[op].until) {
        assert LateEvent(es[|es| - 1], op, t[op].until);
      } else {
        assert forall i :: 0 <= i < |es| ==> es[i] == last || es[i] == front[i];
        assert !LateAttempt(es, op, t[op].until);
      }
    }
  }

  /** The handle of a grant. */
  function HandleOf(t: Table, op: Bytes, instance: Bytes, until: int): Handle {
    Handle(op, instance, Taken(t, op, instance, until)[op].generation, until)
  }

  /** Whatever others do meanwhile, a handle still matches if and only if nobody tried for its operation
      past the deadline (or the generations are used up). */
  lemma HandleSurvivesExactly(t: Table, op: Bytes, instance: Bytes, until: int, es: seq<Event>)
    requires Foreign(es, instance)
    ensures var h := HandleOf(t, op, instance, until);
      Matches(After(Taken(t, op, instance, until), es), h) <==>
      !LateAttempt(es, op, until) || h.generation >= MAX_GENERATION
  {
    OthersAgainstRow(Taken(t, op, instance, until), es, op);
  }

  // ---------------------------------------------------------------- the recovery loop

  /** One candidate: what others do before and during the work on it, when its lease is asked for,
      and whether the work succeeds. */
  datatype Turn = Turn(op: Bytes, before: seq<Event>, now: int, during: seq<Event>, works: bool)

  datatype TurnEnd = Skipped(table: Table) | Finished(table: Table) | Overtaken(table: Table)

  function TurnStep(t: Table, u: Turn, instance: Bytes, until: int): TurnEnd {
    var t1 := After(t, u.before);
    if !Available(t1, u.op, instance, u.now) then Skipped(t1)
    else
      var h := HandleOf(t1, u.op, instance, until);
      var t2 := After(Taken(t1, u.op, instance, until), u.during);
      if Matches(t2, h) then Finished(Released(t2, h)) else Overtaken(t2)
  }

  datatype LoopEnd = Completed(table: Table, recovered: seq<Bytes>) | LeaseLost(table: Table)

  /** The loop of `recover_for_bot`, with one deadline for all candidates. */
  function Loop(t: Table, turns: seq<Turn>, instance: Bytes, until: int): LoopEnd
    decreases |turns|
  {
    if turns == [] then Completed(t, [])
    else
      var front, last := turns[..|turns| - 1], turns[|turns| - 1];
      match Loop(t, front, instance, until)
      case LeaseLost(table) => LeaseLost(table)
      case Completed(table, recovered) =>
        match TurnStep(table, last, instance, until)
        case Skipped(next) => Completed(next, recovered)
        case Finished(next) => Completed(next, if last.works then recovered + [last.op] else recovered)
        case Overtaken(next) => LeaseLost(next)
  }

  ghost predicate ForeignTurns(turns: seq<Turn>, instance: Bytes) {
    forall i :: 0 <= i < |turns| ==> Foreign(turns[i].before, instance) && Foreign(turns[i].during, instance)
  }

  /** A turn loses its lease exactly when it was granted one and another instance tried for the
      operation past the deadline while the work went on. */
  lemma TurnLosesExactly(t: Table, u: Turn, instance: Bytes, until: int)
    requires Foreign(u.during, instance)
    ensures TurnStep(t, u, instance, until).Overtaken? <==>
      var t1 := After(t, u.before);
      && Available(t1, u.op, instance, u.now)
      && HandleOf(t1, u.op, instance, until).generation < MAX_GENERATION
      && LateAttempt(u.during, u.op, until)
  {
    HandleSurvivesExactly(After(t, u.before), u.op, instance, until, u.during);
  }

  /** The table when the loop comes to candidate `i`. */
  function TableAt(t: Table, turns: seq<Turn>, instance: Bytes, until: int, i: nat): Table
    requires i <= |turns|
  {
    Loop(t, turns[..i], instance, until).table
  }

  /** At candidate `i` the loop holds the lease and is overtaken past the deadline. */
  ghost predicate OvertakenAt(t: Table, turns: seq<Turn>, instance: Bytes, until: int, i: nat)
    requires i < |turns|
  {
    var u, t1 := turns[i], After(TableAt(t, turns, instance, until, i), turns[i].before);
    && Loop(t, turns[..i], instance, until).Completed?
    && Available(t1, u.op, instance, u.now)
    && HandleOf(t1, u.op, instance, until).generation < MAX_GENERATION
    && LateAttempt(u.during, u.op, until)
  }

  /** The loop aborts exactly when it is overtaken at some candidate. */
  lemma {:induction false} LoopAbortsExactly(t: Table, turns: seq<Turn>, instance: Bytes, until: int)
    requires ForeignTurns(turns, instance)
    ensures Loop(t, turns, instance, until).LeaseLost? <==>
      exists i :: 0 <= i < |turns| && OvertakenAt(t, turns, instance, until, i)
    decreases |turns|
  {
    if turns != [] {
      var n := |turns| - 1;
      var front := turns[..n];
      assert forall i :: 0 <= i < n ==> front[i] == turns[i];
      LoopAbortsExactly(t, front, instance, until);
      forall i | 0 <= i < n
        ensures OvertakenAt(t, turns, instance, until, i) <==> OvertakenAt(t, front, instance, until, i)
      {
        assert front[..i] == turns[..i];
      }
      if Loop(t, front, instance, until).Completed? {
        TurnLosesExactly(Loop(t, front, instance, until).table, turns[n], instance, until);
        assert OvertakenAt(t, turns, instance, until, n) <==>
               TurnStep(Loop(t, front, instance, until).table, turns[n], instance, until).Overtaken?;
      }
    }
  }

  /** The loop gets the lease of candidate `i` and its work succeeds. */
  ghost predicate RecoversAt(t: Table, turns: seq<Turn>, instance: Bytes, until: int, i: nat)
    requires i < |turns|
  {
    turns[i].works &&
    Available(After(TableAt(t, turns, instance, until, i), turns[i].before), turns[i].op, instance, turns[i].now)
  }

  /** A completed loop reports exactly the candidates it leased and whose work succeeded. */
  lemma {:induction false} RecoveredExactly(t: Table, turns: seq<Turn>, instance: Bytes, until: int, op: Bytes)
    requires Loop(t, turns, instance, until).Completed?
    ensures op in Loop(t, turns, instance, until).recovered <==>
      exists i :: 0 <= i < |turns| && turns[i].op == op && RecoversAt(t, turns, instance, until, i)
    decreases |turns|
  {
    if turns != [] {
      var n := |turns| - 1;
      var front := turns[..n];
      assert forall i :: 0 <= i < n ==> front[i] == turns[i];
      RecoveredExactly(t, front, instance, until, op);
      forall i | 0 <= i < n
        ensures RecoversAt(t, turns, instance, until, i) <==> RecoversAt(t, front, instance, until, i)
      {
        assert front[..i] == turns[..i];
      }
      assert RecoversAt(t, turns, instance, until, n) <==>
             turns[n].works && TurnStep(Loop(t, front, instance, until).table, turns[n], instance, until).Finished?;
    }
  }

  /** While everybody's clock is below the deadline the loop completes. */
  lemma LoopCompletesInTime(t: Table, turns: seq<Turn>, instance: Bytes, until: int)
    requires ForeignTurns(turns, instance)
    requires forall i :: 0 <= i < |turns| ==> !LateAttempt(turns[i].during, turns[i].op, until)
    ensures Loop(t, turns, instance, until).Completed?
  {
    LoopAbortsExactly(t, turns, instance, until);
  }

  /** A row that another instance holds, untouched by its holder and by third parties and unexpired by
      every clock involved, stands through the whole loop: the loop never takes or removes it. */
  ghost predicate LeftAlone(turns: seq<Turn>, op: Bytes, lease: Lease, instance: Bytes) {
    && lease.instance != instance
    && forall i :: 0 <= i < |turns| ==>
         && turns[i].now < lease.until
         && Undisturbed(turns[i].before, op, lease.instance, lease.until)
         && Undisturbed(turns[i].during, op, lease.instance, lease.until)
  }

  lemma {:induction false} LoopSparesOthers(t: Table, turns: seq<Turn>, instance: Bytes, until: int, op: Bytes)
    requires op in t && LeftAlone(turns, op, t[op], instance)
    ensures var end := Loop(t, turns, instance, until); op in end.table && end.table[op] == t[op]
    decreases |turns|
  {
    if turns != [] {
      var front, last := turns[..|turns| - 1], turns[|turns| - 1];
      assert forall i :: 0 <= i < |front| ==> front[i] == turns[i];
      LoopSparesOthers(t, front, instance, until, op);
      var end := Loop(t, front, instance, until);
      if end.Completed? {
        TurnSparesOthers(end.table, last, instance, until, op);
      }
    }
  }

  lemma TurnSparesOthers(t: Table, u: Turn, instance: Bytes, until: int, op: Bytes)
    requires op in t && t[op].instance != instance && u.now < t[op].until
    requires Undisturbed(u.before, op, t[op].instance, t[op].until)
    requires Undisturbed(u.during, op, t[op].instance, t[op].until)
    ensures var end := TurnStep(t, u, instance, until); op in end.table && end.table[op] == t[op]
  {
    LeaseExcludesOthers(t, u.before, op);
    var t1 := After(t, u.before);
    if Available(t1, u.op, instance, u.now) {
      LeaseExcludesOthers(Taken(t1, u.op, instance, until), u.during, op);
    }
  }

  /** A lease asked for when its deadline has already passed protects nothing: another instance takes
      the operation at once, and the loop ends with its lease lost, whatever the work did. */
  lemma LateLeaseIsLost(op: Bytes, instance: Bytes, other: Bytes, until: int, later: int, now: int, works: bool)
    requires other != instance && until <= now
    ensures var turn := Turn(op, [], now, [Acquire(op, other, later, now)], works);
      Loop(map[], [turn], instance, until) == LeaseLost(map[op := Lease(other, 2, later)])
  {
    var turn := Turn(op, [], now, [Acquire(op, other, later, now)], works);
    assert [turn][..0] == [];
    var t2 := Taken(map[], op, instance, until);
    var es := [Acquire(op, other, later, now)];
    assert es[..0] == [];
    assert After(t2, es) == Next(t2, es[0]);
    assert TurnStep(map[], turn, instance, until).Overtaken?;
  }
}
