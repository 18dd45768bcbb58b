/** The connector's operation journal: one record per operation id, prepared once and settled once. */
module ConnectorJournal {
  import opened Wire

  datatype Phase = Prepared | Done | Rejected | Doubtful

  datatype Entry = Entry(
    operationId: Bytes, locatorHash: Bytes, digest: Bytes, phase: Phase,
    afterSha256: Option<Bytes>, afterIntegrity: Option<Bytes>)

  type Entries = map<Bytes, Entry>

  datatype JournalError = DuplicatePrepare | InvalidTransition | OperationIdReused | Missing | Clash

  datatype JournalResult = Accepted | Denied(error: JournalError)

  datatype Lookup = AlreadyApplied | Continue(phase: Phase) | FailedTerminal | NotFound | Reused

  datatype Command =
    | Prepare(entry: Entry)
    | MarkApplied(id: Bytes, sha256: Bytes, integrity: Bytes)
    | MarkFailed(id: Bytes)
    | MarkUnknown(id: Bytes)

  function Outcome(j: Entries, c: Command): JournalResult {
    match c
    case Prepare(e) =>
      if e.operationId in j then Denied(DuplicatePrepare)
      else if e.phase != Prepared || e.locatorHash == [] || e.digest == [] then Denied(InvalidTransition)
      else Accepted
    case MarkApplied(id, sha, integrity) =>
      if id !in j then Denied(Missing)
      else if j[id].phase == Rejected then Denied(InvalidTransition)
      else if j[id].phase == Done && !(j[id].afterSha256 == Some(sha) && j[id].afterIntegrity == Some(integrity))
      then Denied(Clash)
      else Accepted
    case MarkFailed(id) =>
      if id !in j then Denied(Missing)
      else if j[id].phase == Prepared || j[id].phase == Doubtful then Accepted
      else Denied(InvalidTransition)
    case MarkUnknown(id) =>
      if id !in j then Denied(Missing)
      else if j[id].phase == Prepared then Accepted
      else Denied(InvalidTransition)
  }

  function After(j: Entries, c: Command): Entries {
    if Outcome(j, c) != Accepted then j
    else
      match c
      case Prepare(e) => j[e.operationId := e]
      case MarkApplied(id, sha, integrity) =>
        j[id := j[id].(phase := Done, afterSha256 := Some(sha), afterIntegrity := Some(integrity))]
      case MarkFailed(id) => j[id := j[id].(phase := Rejected)]
      case MarkUnknown(id) => j[id := j[id].(phase := Doubtful)]
  }

  function RunAll(j: Entries, cs: seq<Command>): Entries
    decreases |cs|
  {
    if cs == [] then j else RunAll(After(j, cs[0]), cs[1..])
  }

  function Replay(j: Entries, id: Bytes, locatorHash: Bytes, digest: Bytes): Lookup {
    if id !in j then NotFound
    else if j[id].locatorHash != locatorHash || j[id].digest != digest then Reused
    else match j[id].phase
      case Done => AlreadyApplied
      case Rejected => FailedTerminal
      case p => Continue(p)
  }

  predicate Settled(p: Phase) { p == Done || p == Rejected }

  /** What one entry may become: same identity, never unsettled, never a second result. */
  predicate Extends(a: Entry, b: Entry) {
    && a.operationId == b.operationId && a.locatorHash == b.locatorHash && a.digest == b.digest
    && (Settled(a.phase) ==> b == a)
  }

  /** Whatever commands follow, in whatever order, an entry keeps its identity, and a settled entry
      never changes again: an applied operation is answered `AlreadyApplied` with the same
      result forever, a rejected one is terminal forever. */
  lemma {:induction false} EntriesOnlySettle(j: Entries, cs: seq<Command>)
    ensures forall id :: id in j ==> id in RunAll(j, cs) && Extends(j[id], RunAll(j, cs)[id])
    decreases |cs|
  {
    if cs != [] {
      var j' := After(j, cs[0]);
      EntriesOnlySettle(j', cs[1..]);
      forall id | id in j ensures id in RunAll(j, cs) && Extends(j[id], RunAll(j, cs)[id]) {
        assert id in j' && Extends(j[id], j'[id]);
        assert Extends(j'[id], RunAll(j', cs[1..])[id]);
      }
    }
  }

  /** Replaying a settled operation gives the same answer after any later commands. */
  lemma ReplayAnswerIsStable(j: Entries, cs: seq<Command>, id: Bytes, locatorHash: Bytes, digest: Bytes)
    requires var answer := Replay(j, id, locatorHash, digest);
             answer.AlreadyApplied? || answer.FailedTerminal? || answer.Reused?
    ensures Replay(RunAll(j, cs), id, locatorHash, digest) == Replay(j, id, locatorHash, digest)
  {
    EntriesOnlySettle(j, cs);
  }

  /** Which commands are accepted: a first preparation, a result for an entry that is open or already has that very
      result, a failure for an open entry, a doubt for a prepared one. */
  lemma AcceptedExactly(j: Entries, c: Command)
    ensures Outcome(j, c) == Accepted <==>
      match c
      case Prepare(e) => e.operationId !in j && e.phase == Prepared && e.locatorHash != [] && e.digest != []
      case MarkApplied(id, sha, integrity) =>
        id in j && (Open(j[id]) || Holds(j[id], sha, integrity))
      case MarkFailed(id) => id in j && Open(j[id])
      case MarkUnknown(id) => id in j && j[id].phase == Prepared
  {
  }

  /** The entry already has this very result. */
  predicate Holds(e: Entry, sha256: Bytes, integrity: Bytes) {
    e.phase == Done && e.afterSha256 == Some(sha256) && e.afterIntegrity == Some(integrity)
  }

  predicate Open(e: Entry) { e.phase == Prepared || e.phase == Doubtful }

  lemma {:induction false} RunsSplit(j: Entries, cs: seq<Command>, c: Command)
    ensures RunAll(j, cs + [c]) == After(RunAll(j, cs), c)
    decreases |cs|
  {
    if cs == [] {
      assert cs + [c] == [c];
      assert RunAll(After(j, c), [c][1..]) == After(j, c);
    } else {
      assert (cs + [c])[1..] == cs[1..] + [c];
      RunsSplit(After(j, cs[0]), cs[1..], c);
    }
  }

  /** The i-th command is accepted and says so of this operation. */
  predicate Settles(j: Entries, cs: seq<Command>, i: nat, id: Bytes, applied: bool)
    requires i < |cs|
  {
    && Outcome(RunAll(j, cs[..i]), cs[i]) == Accepted
    && (if applied then cs[i].MarkApplied? else cs[i].MarkFailed?) && cs[i].id == id
  }

  ghost predicate SettledBy(j: Entries, cs: seq<Command>, id: Bytes, applied: bool) {
    exists i :: 0 <= i < |cs| && Settles(j, cs, i, id, applied)
  }

  lemma SettledByMore(j: Entries, cs: seq<Command>, c: Command, id: Bytes, applied: bool)
    ensures SettledBy(j, cs + [c], id, applied) <==>
      || SettledBy(j, cs, id, applied)
      || (Outcome(RunAll(j, cs), c) == Accepted && (if applied then c.MarkApplied? else c.MarkFailed?) && c.id == id)
  {
    var more := cs + [c];
    assert forall i :: 0 <= i < |cs| ==> more[i] == cs[i] && more[..i] == cs[..i];
    assert more[|cs|] == c && more[..|cs|] == cs;
    forall i | 0 <= i < |cs| ensures Settles(j, more, i, id, applied) <==> Settles(j, cs, i, id, applied) {
    }
    assert Settles(j, more, |cs|, id, applied) <==>
      Outcome(RunAll(j, cs), c) == Accepted && (if applied then c.MarkApplied? else c.MarkFailed?) && c.id == id;
  }

  /** An open entry is answered as applied exactly once a result was accepted for it, as failed exactly once a failure
      was, and until then as in progress. */
  lemma {:induction false} AnswersFollowCommands(j: Entries, cs: seq<Command>, id: Bytes)
    requires id in j && Open(j[id])
    ensures id in RunAll(j, cs)
    ensures var answer := Replay(RunAll(j, cs), id, j[id].locatorHash, j[id].digest);
      && (answer == AlreadyApplied <==> SettledBy(j, cs, id, true))
      && (answer == FailedTerminal <==> SettledBy(j, cs, id, false))
      && (answer.Continue? <==> !SettledBy(j, cs, id, true) && !SettledBy(j, cs, id, false))
    decreases |cs|
  {
    EntriesOnlySettle(j, cs);
    if cs != [] {
      var front, c := cs[..|cs| - 1], cs[|cs| - 1];
      assert cs == front + [c];
      AnswersFollowCommands(j, front, id);
      EntriesOnlySettle(j, front);
      RunsSplit(j, front, c);
      SettledByMore(j, front, c, id, true);
      SettledByMore(j, front, c, id, false);
    }
  }

  /** The accepted result is kept with the entry. */
  lemma ResultIsKept(j: Entries, id: Bytes, sha256: Bytes, integrity: Bytes, cs: seq<Command>)
    requires Outcome(j, MarkApplied(id, sha256, integrity)) == Accepted
    ensures var later := RunAll(After(j, MarkApplied(id, sha256, integrity)), cs);
      && id in later && later[id].phase == Done
      && later[id].afterSha256 == Some(sha256) && later[id].afterIntegrity == Some(integrity)
      && later[id].locatorHash == j[id].locatorHash && later[id].digest == j[id].digest
  {
    EntriesOnlySettle(After(j, MarkApplied(id, sha256, integrity)), cs);
  }

  class Journal {
    var records: Entries

    constructor ()
      ensures records == map[]
    {
      records := map[];
    }

    method PrepareRecord(entry: Entry) returns (r: JournalResult)
      modifies this
      ensures r == Outcome(old(records), Prepare(entry)) && records == After(old(records), Prepare(entry))
    {
      if entry.operationId in records {
        return Denied(DuplicatePrepare);
      }
      if entry.phase != Prepared || entry.locatorHash == [] || entry.digest == [] {
        return Denied(InvalidTransition);
      }
      records := records[entry.operationId := entry];
      r := Accepted;
    }

    method Applied(id: Bytes, sha256: Bytes, integrity: Bytes) returns (r: JournalResult)
      modifies this
      ensures r == Outcome(old(records), MarkApplied(id, sha256, integrity))
      ensures records == After(old(records), MarkApplied(id, sha256, integrity))
    {
      if id !in records {
        return Denied(Missing);
      }
      var e := records[id];
      match e.phase
      case Done =>
        if e.afterSha256 == Some(sha256) && e.afterIntegrity == Some(integrity) {
          r := Accepted;
          assert records[id := e] == records;
        } else {
          r := Denied(Clash);
        }
      case Rejected => r := Denied(InvalidTransition);
      case _ =>
        records := records[id := e.(phase := Done, afterSha256 := Some(sha256), afterIntegrity := Some(integrity))];
        r := Accepted;
    }

    method Failed(id: Bytes) returns (r: JournalResult)
      modifies this
      ensures r == Outcome(old(records), MarkFailed(id)) && records == After(old(records), MarkFailed(id))
    {
      if id !in records {
        return Denied(Missing);
      }
      if Settled(records[id].phase) {
        return Denied(InvalidTransition);
      }
      records := records[id := records[id].(phase := Rejected)];
      r := Accepted;
    }

    method Doubted(id: Bytes) returns (r: JournalResult)
      modifies this
      ensures r == Outcome(old(records), MarkUnknown(id)) && records == After(old(records), MarkUnknown(id))
    {
      if id !in records {
        return Denied(Missing);
      }
      if records[id].phase != Prepared {
        return Denied(InvalidTransition);
      }
      records := records[id := records[id].(phase := Doubtful)];
      r := Accepted;
    }
  }
}
