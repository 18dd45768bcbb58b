# IM Bridge in Dafny

A Dafny 4.11 model of the parts of IM Bridge whose correctness is hard to see from reading one
function: the commit protocol that writes a generated reply into a chat at most once, the stream
decoder and the fold that turns a stream into a reply, the keyed lock table, Telegram delivery and
rate limits, poller ownership, execution leases, and the text and byte formats that several of them
rely on. `dafny verify dfyconfig.toml` checks everything.

## How it is laid out

- `Wire`, `Separated`, `Utf8`, `Characters`, `Base64`: byte strings, big-endian words, length-prefixed lists,
  decimal numerals, trimming, separators, UTF-8 text and its characters, white space, Base64.
- `Operations`, `OperationPayload`, `OperationStore`, `ConnectorJournal`, `Connector`: the operation
  record and its authenticated payload, the store's guarded updates, the connector's journal and the
  connector client.
- `CommitProtocol`, `CommitSafety`, `Coordinator`: the protocol as a transition system, what every
  execution of it guarantees, and the coordinator's methods as code over the store object, proved to
  be runs of that system amid arbitrary steps of the other parties.
- `Leases`, `Recovery`, `Poller`: who may act for an operation or a bot, and the recovery loop.
- `Sse`, `SseMeaning`, `Generation`, `GenerationMeaning`, `WholeReply`, `Cutting`: the stream decoder and what
  lines and messages mean, event decoding and what each JSON tree says, the reply from what the server streams to
  what the user reads, and what the cutting of a response can and cannot decide.
- `LockTable`, `LockRuns`, `Delivery`, `DeliveryRuns`, `Cooldown`: each first as an object with
  methods, then (where several tasks meet) as every interleaving of its users.
- `CardPng`, `CardMeaning`, `Query`, `Nonces`, `Callback`: card images and which card they give, canonical
  queries, signed requests, callback texts.

Where the source changes state in place there is a class whose methods are proved against
specification functions on values; the theorems are about those functions and about whole runs. What a
specification function means is in turn stated without it: formats by how they are written, decisions by all their
conditions at once, outcomes by the steps that led to them.

## What the model takes for granted

- Authenticated encryption is ideal: a sealed payload opens only under the key and the associated
  data it was sealed with. SHA-256, HMAC, CRC-32 and JSON text are uninterpreted functions; where a
  theorem needs the JSON text at hand to read back, or the hash to be injective, it says so.
- The connector's and Telegram's definite error answers are true: a 4xx of the connector, a
  429 or an API error of Telegram means that request had no effect. Lost, broken or malformed answers
  mean nothing.
- A database statement is atomic. It may run without its acknowledgement arriving. A task may stop
  for good between any two steps. The table keeps (bot, update, kind) and the id unique.
- Time is an integer, read from parameters or from a clock that never runs backwards. `usize` is 64 bits.
- Strings are byte strings in UTF-8; JSON member names are told apart by the parser.

Four observations about the code that the model follows:

- `mark_failed_with_state` writes any commit state next to `failed`; rows keep their shape exactly when
  callers pass NotStarted or NotApplied (`ShapeKeptExactlyByHonestUpdates`), which all of them do.
  `mark_conflict` and `mark_interrupted` have no callers, so Conflict is not reachable in the protocol.
- Embedding a card checks neither sizes nor CRCs. Reading it back therefore succeeds exactly under the
  condition of `CardRoundTrip`, not for every picture that embedding accepts (`EmbeddingCanLoseTheCard`).
- After `[DONE]` the bytes already read with it still count, so the way a response is cut can decide
  whether generation succeeds (`CuttingCanDecide`; exactly when it succeeds is `ReplyIsWhatWasStreamed`); it
  never decides what the reply says (`RepliesAgree`).
- The recovery loop computes one lease deadline and asks for every lease by a fresh clock. A lease protects the
  work on it exactly while the other clocks are below that deadline (`HandleSurvivesExactly`); one asked for
  later is lost to the next instance that tries, and the loop ends with an error (`LateLeaseIsLost`).

## Model

| member | source | states |
|---|---|---|
| `Operations.EncodeAad` | src/modules/bridge/operations.rs:325-351 | the appended buffer is the length-prefixed list of the parts, with the optional fence tail |
| `Operations.EncodedAadInjective` | src/modules/bridge/operations.rs:282-351 | two associated-data values with the same bytes are equal, fence tail included |
| `Operations.TerminalExactly` | src/modules/bridge/operations.rs:62-88 | a status is terminal if and only if no transition leaves it |
| `OperationPayload.OpensOnlyWhereSealed` | src/modules/bridge/operation_coordinator.rs:188-227 | a payload that decodes for a record was sealed, under that key, for that id, locator hash, kind, actor and fence, and decodes to what was sealed |
| `OperationPayload.LocatorHashNamesChat` | src/domain/locator.rs:5-13 | under an injective hash equal locator hashes name the same chat |
| `OperationPayload.ReplaySendsWhatWasPersisted` | src/modules/bridge/operation_coordinator.rs:229-299 | a replay that goes through sends the body the live run would have sent, which carries every field of the intent where it belongs, and only with the fence and key of that run |
| `OperationPayload.LiveBodyCarriesIntent` | src/adapters/st/connector.rs:346-446 | helper, by evaluation: the request names operation, chat, fence, expected hash and integrity, mutation or opening message each as the intent has it |
| `OperationPayload.PersistedExactly` | src/modules/bridge/engine.rs:360-503 | an intent is persisted if and only if its kind allows that mutation, the fence is valid, the source hashes are there and the associated data is complete |
| `OperationPayload.ReplayAcceptedExactly` | src/modules/bridge/operation_coordinator.rs:229-299 | a replay is accepted if and only if every one of the stated conditions on row, key, fence, kind and digest holds |
| `OperationPayload.OwnReplayAccepted` | src/modules/bridge/operation_coordinator.rs:153-299 | helper, by evaluation: the instance that persisted a payload can always replay it |
| `OperationStore.UpdateFollowsStatusMachine` | src/modules/bridge/operations.rs:62-88 | helper, one update: every update that fires is an edge of the status machine from a non-terminal status, keeps identity and payload, and lowers the progress measure |
| `OperationStore.StatementFor` | src/modules/bridge/operation_store.rs:215-483 | every edge of the status machine but committing to interrupted is walked by a statement, from any row that is ready for it |
| `OperationStore.ColumnsHaveTheirWriters` | src/modules/bridge/operation_store.rs:215-483 | column by column: which statements write it and what, with everything else unchanged |
| `OperationStore.ClaimMeetsEarlierClaim` | src/modules/bridge/operation_store.rs:144-213 | a claim matches the row of an earlier claim if and only if the two say the same |
| `OperationStore.ShapeKeptExactlyByHonestUpdates` | src/modules/bridge/operation_store.rs:215-483 | helper, one update: the row shape (Applied exactly in Committed or Delivered, Unknown only in Committing, payload, digest and key reference from Generated on) survives an update if and only if the failure outcome is NotStarted or NotApplied |
| `OperationStore.TableShapeKept` | src/modules/bridge/operation_store.rs:215-483 | helper, one update: the whole table keeps its shape under any honest update of any row |
| `OperationStore.Store.ClaimOperation` | src/modules/bridge/operation_store.rs:144-213 | a claim adds exactly one fresh row, or returns the existing match, or refuses a reused or colliding id; claims stay unique |
| `OperationStore.Store.UpdateSnapshotReady` | src/modules/bridge/operation_store.rs:215-245 | fires exactly on a received row; new table stated in full |
| `OperationStore.Store.UpdateGenerating` | src/modules/bridge/operation_store.rs:247-261 | fires exactly on a snapshot-ready row; new table stated in full |
| `OperationStore.Store.UpdateGenerated` | src/modules/bridge/operation_store.rs:263-298 | fires exactly before commit and with the registered key version; new table stated in full |
| `OperationStore.Store.MarkCommitting` | src/modules/bridge/operation_store.rs:300-314 | fires exactly on a generated row not yet started; new table stated in full |
| `OperationStore.Store.MarkCommittedWithState` | src/modules/bridge/operation_store.rs:325-354 | fires exactly on a committing row in the expected commit state; new table stated in full |
| `OperationStore.Store.MarkDelivered` | src/modules/bridge/operation_store.rs:356-370 | fires exactly on a committed and applied row; new table stated in full |
| `OperationStore.Store.MarkFailedWithState` | src/modules/bridge/operation_store.rs:417-451 | fires exactly on an unfinished row whose commit has not started; keeps the table valid when the outcome is honest |
| `OperationStore.Store.MarkCommitUnknown` | src/modules/bridge/operation_store.rs:469-483 | fires exactly on a committing row without an outcome; new table stated in full |
| `OperationStore.Store.InterruptStaleGenerating` | src/modules/bridge/operation_store.rs:718-731 | interrupts exactly the generating rows older than the cutoff and touches no other row |
| `OperationStore.Store.PutKeyReference` | src/modules/bridge/operation_store.rs:514-553 | the first key reference stays; the same one is accepted again, a different one refused |
| `ConnectorJournal.EntriesOnlySettle` | src/modules/bridge/connector_journal.rs:67-141 | under any sequence of commands an entry keeps its identity and a settled entry never changes |
| `ConnectorJournal.ReplayAnswerIsStable` | src/modules/bridge/connector_journal.rs:143-164 | a settled or refused replay answer is the same after any later commands |
| `ConnectorJournal.AcceptedExactly` | src/modules/bridge/connector_journal.rs:67-141 | helper, by evaluation: which commands each entry accepts |
| `ConnectorJournal.AnswersFollowCommands` | src/modules/bridge/connector_journal.rs:67-164 | after any commands an open entry is answered applied if and only if a result was accepted for it, failed if and only if a failure was, and in progress otherwise |
| `ConnectorJournal.ResultIsKept` | src/modules/bridge/connector_journal.rs:81-109 | an accepted result stays with its entry under any later commands |
| `ConnectorJournal.Journal.PrepareRecord` | src/modules/bridge/connector_journal.rs:67-79 | result and new journal as the entry rules say |
| `ConnectorJournal.Journal.Applied` | src/modules/bridge/connector_journal.rs:81-109 | result and new journal as the entry rules say |
| `ConnectorJournal.Journal.Failed` | src/modules/bridge/connector_journal.rs:111-125 | result and new journal as the entry rules say |
| `ConnectorJournal.Journal.Doubted` | src/modules/bridge/connector_journal.rs:127-141 | result and new journal as the entry rules say |
| `Connector.ReadBody` | src/adapters/st/connector.rs:684-719 | the loop yields the whole body exactly when no chunk breaks and the limit is never exceeded |
| `Connector.RequestOnce` | src/adapters/st/connector.rs:547-777 | two ways: a mutation leaves exactly when it can be prepared, anything else a second time exactly after a 403; a body is returned if and only if the last answer was whole, successful and JSON; a mutation is NotApplied if and only if nothing was sent or the server said so in a whole answer, and Unknown whenever the answer is not whole |
| `Connector.CommitOnce` | src/adapters/st/connector.rs:430-478 | a commit is confirmed if and only if the server says applied or already applied with plausible fields, declined if and only if nothing was sent or the server says it was not applied, and doubtful otherwise |
| `Connector.CreateOnce` | src/adapters/st/connector.rs:346-428 | creating a chat, likewise, where success has to name the chat file asked for |
| `CommitProtocol.StepKeepsInv` | src/modules/bridge/operation_coordinator.rs:229-919 | the invariant tying rows, runs, calls and journal is kept by every step of live runs, replays and reconciliations from any earlier view of a row, sweeps, delivery, backend and journal |
| `CommitProtocol.OwnerIsUndisturbed` | src/modules/bridge/engine.rs:782-862 | helper, one step: while a run prepares a mutation no statement of another run on that row fires |
| `CommitProtocol.CommitterIsUndisturbed` | src/modules/bridge/operation_coordinator.rs:731-919 | helper, one step: while a run holds the commit the only statement of another run that fires is a journal confirmation of a call that took effect |
| `CommitProtocol.PlanIsRowBody` | src/modules/bridge/operation_coordinator.rs:229-299 | helper, by evaluation: a replay planned from an earlier view of the row sends the body the row still stands for |
| `CommitSafety.AtMostOneRequestPerOperation` | src/modules/bridge/operation_coordinator.rs:554-729 | in every execution no two mutating requests carry the same operation id |
| `CommitSafety.CommitIsWonOnce` | src/modules/bridge/operation_store.rs:263-314 | once a row has gone from Generated to Committing it is never Generated again |
| `CommitSafety.StepSpendsPotential` | src/modules/bridge/operations.rs:69-88 | along every execution each rewrite of a row follows the status machine and strictly lowers the measure |
| `CommitSafety.AtMostSevenTransitions` | src/modules/bridge/operations.rs:62-88 | every operation makes at most seven transitions in any execution |
| `CommitSafety.LedgerIsTruthful` | src/modules/bridge/operation_store.rs:325-483 | Applied means the request took effect, NotApplied that none did or is in flight, and while the outcome is open the row is Committing |
| `CommitSafety.RepeatedClaims` | src/modules/bridge/engine.rs:312-357 | in every reachable state a repeated claim proceeds if and only if the row is received, snapshot-ready or generating, and then nothing was ever sent for it; it is told of success if and only if the mutation landed |
| `CommitSafety.NotAppliedIsForever` | src/modules/bridge/operation_coordinator.rs:731-863 | after NotApplied the row stands and no request of the operation ever takes effect |
| `CommitSafety.NeverStartedIsForever` | src/modules/bridge/operation_coordinator.rs:486-511 | Failed with NotStarted, or Interrupted, proves that no request was sent and none will be |
| `CommitSafety.TerminalRowsAreFrozen` | src/modules/bridge/operations.rs:62-67 | a terminal row never changes in any later state |
| `CommitSafety.GenerationFailureNeverMeetsCommit` | src/modules/bridge/operation_store.rs:417-467 | a run that settles a generation failure is alone with its row, which is still generating or interrupted and has no calls |
| `CommitSafety.LostAnswersLeaveDoubt` | src/modules/bridge/operation_coordinator.rs:731-863 | a lost or ambiguous answer, an unsure local refusal, an answer that could not be recorded, or a committer that stops anywhere leaves a committing row in doubt: nobody holds a definite answer for it |
| `CommitSafety.DoubtStep` | src/modules/bridge/operation_coordinator.rs:731-919 | every step from doubt keeps it, with the row unchanged but for the mark of doubt, or is a confirmation from the journal |
| `CommitSafety.OnlyTheJournalResolvesDoubt` | src/modules/bridge/operation_coordinator.rs:875-919 | from the moment a commit is in doubt, crashes included, the row stays Committing in every later state until a recovery run confirms it after an applied journal entry, and then the request did take effect |
| `CommitSafety.UnknownIsDoubt` | src/modules/bridge/operation_store.rs:469-483 | a row marked Unknown is in doubt in that sense |
| `CommitSafety.PersistedBodyStays` | src/modules/bridge/operation_store.rs:263-298 | identity and payload of a row with a payload are the same in every later state |
| `CommitSafety.RequestCarriesThePersistedMutation` | src/modules/bridge/operation_coordinator.rs:258-299 | the only request ever sent for an operation carries the body persisted when it became Generated, field by field the payload that reads back |
| `CommitSafety.RequestCarriesTheIntent` | src/modules/bridge/engine.rs:360-503 | what a run drafted and persisted is, field by field, what reaches the connector in the only request ever sent for the operation, whoever sends it, if that payload reads back |
| `Coordinator.CommitLive` | src/modules/bridge/operation_coordinator.rs:554-863 | a live commit with an invalid fence changes nothing; otherwise as Commit |
| `Coordinator.Commit` | src/modules/bridge/operation_coordinator.rs:714-863 | each call is a run of the protocol amid any steps of others and ends its run; it reports applied if and only if its own statement to Committed was won, rejected if and only if its own statement to Failed/NotApplied was, not tried if and only if it neither sent nor was refused, and what it reports is true of row and connector |
| `Coordinator.CallBackend` | src/modules/bridge/operation_coordinator.rs:719-729 | one call, step by step: refused locally, or sent once and answered by what became of that very request or not at all |
| `Coordinator.Settle` | src/modules/bridge/operation_coordinator.rs:731-863 | the answer is recorded by the matching statement: applied is reported if and only if that record was won, rejected exactly for a won record of a definite refusal, and everything else is unknown |
| `Coordinator.ReplayGenerated` | src/modules/bridge/operation_coordinator.rs:229-412 | a replay is a run of the protocol that commits the planned body or gives up, and reports by the same rules as Commit |
| `Coordinator.ReconcileCommit` | src/modules/bridge/operation_coordinator.rs:875-919 | reconciliation confirms if and only if its own statement to Committed was won after an applied journal entry, never sends, and then tells the truth |
| `Coordinator.OutcomeIsTruthful` | src/modules/bridge/operation_coordinator.rs:731-863 | what a finished call reports holds of the connector in the state it returns in |
| `Coordinator.TraceIsHistory` | src/modules/bridge/operation_coordinator.rs:714-863 | the steps a call reports of its run are exactly those the history holds of that run meanwhile |
| `Leases.LeaseTable.TryAcquire` | src/modules/bridge/operation_store.rs:555-617 | granted exactly when the row is absent, its own or expired and generations are left; handle and new row in full |
| `Leases.LeaseTable.Release` | src/modules/bridge/operation_store.rs:619-635 | removes the row exactly for a handle whose instance and generation match |
| `Leases.LeaseExcludesOthers` | src/modules/bridge/operation_store.rs:555-617 | until it expires or its own instance acts, a lease stands against any sequence of attempts by others |
| `Leases.GenerationCountsGrants` | src/modules/bridge/operation_store.rs:572-617 | while a row lives its generation grows by exactly the number of grants |
| `Leases.HandsChangeOnlyAfterExpiry` | src/modules/bridge/operation_store.rs:572-635 | helper, one step: a lease changes instance only after expiry and is removed only by its holder's own handle |
| `Leases.ExclusiveExactlyUntil` | src/modules/bridge/operation_store.rs:572-600 | helper, one attempt: another instance gets a granted lease if and only if its clock has reached the deadline and generations are left |
| `Leases.OthersAgainstRow` | src/modules/bridge/operation_store.rs:555-635 | against any sequence of others' events a row stands unless one of them tries late, and after a late try it is never given back |
| `Leases.HandleSurvivesExactly` | src/modules/bridge/operation_store.rs:555-635 | whatever others do during the work, the handle still matches if and only if nobody tried for the operation past the deadline (or generations are used up) |
| `Leases.LoopAbortsExactly` | src/modules/bridge/operation_recovery.rs:48-130 | the loop ends with a lost lease if and only if at some candidate it held the lease and another instance tried for it past the deadline during the work |
| `Leases.LoopCompletesInTime` | src/modules/bridge/operation_recovery.rs:37-119 | without such late tries the loop completes |
| `Leases.RecoveredExactly` | src/modules/bridge/operation_recovery.rs:106-119 | a completed loop reports exactly the candidates whose lease it got and whose work succeeded |
| `Leases.LoopSparesOthers` | src/modules/bridge/operation_recovery.rs:48-130 | a lease another instance holds, unexpired by every clock involved, stands through the whole loop |
| `Leases.LateLeaseIsLost` | src/modules/bridge/operation_recovery.rs:37-58 | a lease asked for at or after the deadline is taken by the next instance at once and the loop ends with its lease lost |
| `Recovery.RecoverRecord` | src/modules/bridge/operation_recovery.rs:61-104 | with its fence accepted a generated or committing record is taken up as a run of the commit protocol and any other changes nothing; success is reported if and only if that run won its record of an applied commit |
| `Recovery.RecoverOne` | src/modules/bridge/operation_recovery.rs:49-116 | one turn: lease by the turn's clock, work if granted, others' lease traffic, release; the lease table ends as the turn rule says and success is reported as by RecoverRecord |
| `Recovery.RecoverForBot` | src/modules/bridge/operation_recovery.rs:37-130 | the loop's lease table, result and early error are those of the loop rule with one deadline 60 seconds after the start; every turn got its lease exactly as the rule says, took up the work exactly then, and counts as recovered if and only if its own commit record was won; every reported id is applied in the ledger and by the connector |
| `Poller.Registry.BootstrapLegacy` | src/modules/bridge/poller_ownership.rs:91-107 | succeeds exactly once, on an empty registry, and leaves the legacy plugin owner in epoch 1 |
| `Poller.Registry.TransferTo` | src/modules/bridge/poller_ownership.rs:119-148 | succeeds exactly for the present owner and epoch, another new owner and an epoch that fits 64 bits; the new owner gets the next epoch |
| `Poller.Registry.ClaimRuntime` | src/modules/bridge/poller_ownership.rs:170-188 | succeeds exactly for a starting or running binding with both ids, in the bridge's present epoch, while nobody is bound |
| `Poller.Registry.ReleaseRuntime` | src/modules/bridge/poller_ownership.rs:190-204 | succeeds exactly for the bound instance and removes only that binding |
| `Poller.EpochsOnlyGrow` | src/modules/bridge/poller_ownership.rs:119-148 | along every run a bot's record stays or moves to a later epoch and never disappears |
| `Poller.OwnersAlternate` | src/modules/bridge/poller_ownership.rs:91-148 | along every run the legacy plugin has the odd epochs from the first on and the bridge the even ones |
| `Poller.PassesExactly` | src/modules/bridge/poller_ownership.rs:422-445 | helper, by evaluation: a fence passes if and only if it is running, the bot is owned in its epoch and the binding held has its ids and epoch |
| `Poller.TransferAdvances` | src/modules/bridge/poller_ownership.rs:119-148 | every successful transfer is followed by strictly later epochs only |
| `Poller.SupersededFenceIsRefused` | src/modules/bridge/poller_ownership.rs:422-445 | a fence from an earlier epoch is refused in every later state, whatever owner and binding it shows |
| `Poller.LostOwnershipIsFinal` | src/modules/bridge/poller_ownership.rs:422-445 | a fence that passed is refused forever once the record has changed |
| `Poller.AcceptedFencesAgree` | src/modules/bridge/poller_ownership.rs:422-445 | helper, one state: all fences accepted in one state for a bot have the same owner, internal id, instance and epoch |
| `Poller.OnlyTheBridgePasses` | src/modules/bridge/poller_ownership.rs:150-188 | no fence passes while the legacy plugin owns the bot |
| `Poller.PassingRuntimeHoldsTheClaim` | src/modules/bridge/poller_ownership.rs:170-204 | a passing fence belongs to a runtime that claimed in this epoch and has kept binding and record unchanged since |
| `Poller.OneBotPerRegistry` | src/modules/bridge/poller_ownership.rs:89-107 | the one-time bootstrap admits a single bot for the life of the registry |
| `Poller.Guard.RuntimeFence` | src/modules/bridge/poller_ownership.rs:549-566 | a fence is issued if and only if a bridge guard is running, with a bot, an epoch and both ids, and it shows exactly those |
| `Poller.Guard.BeginDraining` | src/modules/bridge/poller_ownership.rs:603-616 | draining stops the issue of fences; a stopped guard refuses |
| `Poller.Guard.MarkStopped` | src/modules/bridge/poller_ownership.rs:618-632 | only a draining or stopped guard stops |
| `Poller.Guard.ReleaseFrom` | src/modules/bridge/poller_ownership.rs:537-547 | a guard releases only once it no longer writes, and after a release its fence does not pass |
| `Sse.StreamDecoder.PushBytes` | src/adapters/st/sse.rs:61-82 | the byte loop with its byte-order-mark prefix computes the specification of a push |
| `Sse.StreamDecoder.ProcessBytes` | src/adapters/st/sse.rs:84-107 | the loop over bytes computes the fold of byte steps |
| `Sse.StreamDecoder.FinishLine` | src/adapters/st/sse.rs:109-143 | one line has the effect of the line rule on frame and events (what that rule means: SseMeaning) |
| `Sse.StreamDecoder.Finish` | src/adapters/st/sse.rs:145-155 | succeeds exactly when nothing half-read is left |
| `Sse.ManyPushesAreOne` | src/adapters/st/sse.rs:61-107 | pushing pieces is pushing their concatenation |
| `Sse.ChunkingIsInvisible` | src/adapters/st/sse.rs:46-143 | for every byte string and every cutting, the decoder has the result, events, final state or error of a one-shot split-and-fold reference |
| `Sse.LimitsHold` | src/adapters/st/sse.rs:84-143 | the line buffer stays within its limit and so does every message's data plus event name |
| `SseMeaning.EveryLineIsWritten` | src/adapters/st/sse.rs:109-143 | every line that is not blank is a comment, a field with or without a space after the colon, or a bare name |
| `SseMeaning.FieldsOf` | src/adapters/st/sse.rs:135-141 | name:value and name: value both give the name and the value, a line without a colon gives itself and nothing |
| `SseMeaning.LineMeans` | src/adapters/st/sse.rs:109-143 | comments are heartbeats, data is collected, the event name is replaced, other fields only count, and a field too many bytes is an error exactly then |
| `SseMeaning.MessageMeans` | src/adapters/st/sse.rs:109-143 | a block of lines and a blank line give its heartbeats and one message: the values of its data lines in order, joined by line feeds, under the last event named; none without data and event; too large exactly by the sum of its lines |
| `SseMeaning.DataSplitsBack` | src/adapters/st/sse.rs:109-143 | cutting a message's data at its line feeds gives the values of its data lines back |
| `SseMeaning.FirstFault` | src/adapters/st/sse.rs:84-143 | the first line at fault decides the error: over the line limit, not UTF-8, too much for its message |
| `SseMeaning.StreamMeans` | src/adapters/st/sse.rs:46-143 | however its bytes are cut and its lines end, with or without a byte order mark, a stream of messages decodes to exactly what its lines say, with nothing left over |
| `Generation.OneDeltaPerEvent` | src/adapters/st/sse.rs:177-284 | helper, by evaluation: an event decodes to at most one delta, in front, carrying its sequence number and some text |
| `GenerationMeaning.SpokenMeaning` | src/adapters/st/sse.rs:223-284 | on the JSON tree, for an object without error whose first choice has a delta and no message: it refuses if and only if the first member that is not fine calls a tool; otherwise it adds text t if and only if content is the non-empty string t, finishes with r if and only if finish_reason is the non-blank string r, in that order, and is not understood if and only if some member or the finish reason is not fine |
| `GenerationMeaning.SilentMeaning` | src/adapters/st/sse.rs:181-224 | everything else: blank data and pure metadata are passed over, [DONE] finishes with stop, an error member refuses, the rest is not understood |
| `GenerationMeaning.RefusalMeaning` | src/adapters/st/sse.rs:193-252 | a message refuses if and only if it has an error member or the first member of its delta that is not fine calls a tool |
| `GenerationMeaning.MessageMeaning` | src/adapters/st/backend.rs:467-487 | an event named error, in letters of either case, refuses whatever its data; the others are numbered from one and read by their data, and only [DONE] ends the stream |
| `GenerationMeaning.RepliesAreProper` | src/adapters/st/backend.rs:563-581 | every reply is not blank, at most 4 MiB, and finished by stop, eos or end_turn |
| `Generation.FoldMeaning` | src/adapters/st/backend.rs:493-560 | folding events succeeds exactly on admissible lists, and the text is the deltas before the first Finished |
| `Generation.ReadingsMeaning` | src/adapters/st/backend.rs:466-565 | handling messages as they come equals reading them all and folding the lot |
| `Generation.ReplyIsWhatWasStreamed` | src/adapters/st/backend.rs:421-581 | for every cutting and interruption, a run replies with a text if and only if the bytes it took decode and fold to it (the concatenated deltas before the first Finished, non-blank, at most 4 MiB, accepted reason, no delta after it) and it stopped taking bytes at [DONE] or at the end of the response |
| `Generation.RunReadsAsOne` | src/adapters/st/backend.rs:433-581 | a run that stops properly concludes from all it took at once, and every other run fails |
| `Generation.RepliesAgree` | src/adapters/st/backend.rs:421-581 | two ways of cutting one response that both succeed give the same reply and the same progress |
| `WholeReply.StreamedReply` | src/adapters/st/backend.rs:421-581 | a response whose messages add texts t1 to tn and end with [DONE], with comments and other fields among its lines, any line ends, a byte order mark or not, and cut anywhere, is answered with t1 to tn in order |
| `Cutting.CutAfterDone` | src/adapters/st/backend.rs:460-570 | a successful response that ends with [DONE] still succeeds when more comes in a later chunk and fails when one more byte comes in the same chunk |
| `Cutting.CuttingCanDecide` | src/adapters/st/backend.rs:460-570 | any such response and one byte more, cut in two ways, one giving the reply and the other failing |
| `Generation.ReportsGrow` | src/adapters/st/backend.rs:515-545 | progress numbers rise strictly and each full text extends the one before |
| `Generation.ApplyEvents` | src/adapters/st/backend.rs:493-560 | the inner loop computes the fold and keeps the progress narration, also when it stops early |
| `Generation.ConsumeEvents` | src/adapters/st/backend.rs:466-565 | the loop over one chunk's events computes the specification |
| `Generation.StreamGenerate` | src/adapters/st/backend.rs:421-581 | the stream loop computes the specified reply (what it is: ReplyIsWhatWasStreamed, StreamedReply, RepliesAreProper); progress is well narrated in every outcome and spells the reply on success |
| `LockTable.Table.Reserve` | src/lock_table.rs:30-58 | expired idle entries go, at most one oldest idle entry is evicted and only when it must be, a listed key keeps its lock, AtCapacity exactly at zero capacity or when all slots are busy |
| `LockTable.Table.ChooseVictim` | src/lock_table.rs:41-47 | the loop finds an oldest idle entry or shows that all are in use |
| `LockTable.Table.Prune` | src/lock_table.rs:77-86 | removes exactly the unused entries last used a time to live ago or longer, and counts them |
| `LockTable.Table.ActiveCount` | src/lock_table.rs:68-75 | counts exactly the entries in use |
| `LockRuns.StepKeepsInv` | src/lock_table.rs:30-86 | the invariant tying entries, clones, holders and scans is kept by every microstep |
| `LockRuns.OneHolderPerKey` | src/lock_table.rs:30-58 | in every interleaving at most one task holds a key |
| `LockRuns.NeverOverCapacity` | src/lock_table.rs:30-58 | the table never exceeds its capacity |
| `LockRuns.UsersPinTheirEntry` | src/lock_table.rs:36-56 | while anyone waits for, holds or drops a key's lock the key stays listed with that lock |
| `LockRuns.RefusedOnlyWhenFull` | src/lock_table.rs:31-47 | AtCapacity only at zero capacity or when, at one moment of that call, every slot was another key's and in use |
| `LockRuns.EvictsOldestIdle` | src/lock_table.rs:41-48 | the evicted entry is unused, and no entry idle when the scan began had gone unused longer |
| `LockRuns.LastUsedIsLastTake` | src/lock_table.rs:48-55 | in every interleaving an entry's age counts from the last time its lock was handed out, by that caller's clock |
| `Delivery.Ledger.Create` | src/modules/telegram/delivery.rs:611-629 | a fresh pending row |
| `Delivery.Ledger.Update` | src/modules/telegram/delivery.rs:701-738 | each guarded status update fires exactly when its condition holds |
| `Delivery.Ledger.Attempt` | src/modules/telegram/delivery.rs:1470-1501 | a row is claimed exactly if it is pending or retry_pending; it ends sent when delivered and recorded, unknown when delivered and not recorded or in doubt, retry_pending when rate limited, failed on any other API error; the result says which |
| `Delivery.Ledger.SendSingle` | src/modules/telegram/delivery.rs:319-368 | a first send creates one row, always claims it, and leaves it as Attempt says |
| `DeliveryRuns.StepKeepsInv` | src/modules/telegram/delivery.rs:319-905 | the invariant tying rows, requests, attempts and adopting stream sinks is kept by every step |
| `DeliveryRuns.AcceptedAtMostOnce` | src/modules/telegram/delivery.rs:319-368 | Telegram accepts at most one sendMessage per delivery, and every other request for it was rate limited |
| `DeliveryRuns.UndeliveredRowsAreTruthful` | src/modules/telegram/delivery.rs:1118-1184 | pending, retry_pending and failed rows had nothing accepted and have nothing in flight |
| `DeliveryRuns.SentRowsAreTruthful` | src/modules/telegram/delivery.rs:721-738 | a sent row has exactly one accepted request |
| `DeliveryRuns.ClosedRowsAreNeverSentAgain` | src/modules/telegram/delivery.rs:1079-1184 | once sent, unknown or failed, a delivery is never posted again |
| `DeliveryRuns.ResendsFollowRateLimits` | src/modules/telegram/delivery.rs:1470-1501 | whenever a delivery is sent, all its earlier requests were turned away by a rate limit |
| `DeliveryRuns.AnswersSettleRows` | src/modules/telegram/delivery.rs:1470-1501 | in every run, an attempt that reads Telegram's answer and then runs its statement leaves its row sent, retry_pending or failed as the message was accepted, rate limited or refused, and unknown when the answer was lost, whatever others do meanwhile |
| `DeliveryRuns.UnrecordedIsUnknown` | src/modules/telegram/delivery.rs:319-368 | an accepted message whose turn could not be recorded leaves its row unknown |
| `DeliveryRuns.WaitingRowsAreClaimed` | src/modules/telegram/delivery.rs:701-738 | a row that waits, new or rate limited, stays so until it is claimed; the first claim brings it to sending, and an attempt that learns of it goes on to send |
| `DeliveryRuns.RowsMove` | src/modules/telegram/delivery.rs:611-738 | helper, one step: the only ways a row may change |
| `Cooldown.PrunedMapAgrees` | src/modules/telegram/delivery_queue.rs:187-208 | at any later time the wait read from the pruned map is the latest deadline over the whole history of the bot |
| `Cooldown.LatestIsMaximum` | src/modules/telegram/delivery_queue.rs:86-119 | that deadline bounds every past one and is one of them unless all are over |
| `Cooldown.RaisingAgrees` | src/modules/telegram/delivery_queue.rs:99-117 | raising the bot and chat entries restores agreement with the longer history |
| `Cooldown.PruningAgrees` | src/modules/telegram/delivery_queue.rs:118-118 | dropping a passed deadline loses nothing |
| `Cooldown.Coordinator.Deadline` | src/modules/telegram/delivery_queue.rs:96-99 | the deadline is retry_after past a clock reading of the call, or the cap past it when the clock cannot represent that |
| `Cooldown.Coordinator.SetCooldown` | src/modules/telegram/delivery_queue.rs:86-119 | exactly one rate limit is added to the history, retry_after past a clock reading of the call, or the cap past it when the clock cannot represent that, and the map still agrees with it |
| `Cooldown.Coordinator.Retain` | src/modules/telegram/delivery_queue.rs:118-118 | pruning with a clock read per entry keeps agreement and leaves only later deadlines |
| `Cooldown.Coordinator.CooldownRemaining` | src/modules/telegram/delivery_queue.rs:187-208 | the reported wait is the history's, or the cap when the lock is contended |
| `Cooldown.Coordinator.Wait` | src/modules/telegram/delivery_queue.rs:58-84 | returns only when every deadline of the bot, also those set while it slept, has passed |
| `Base64.RoundTrip` | src/modules/characters/card_png.rs:122-124 | strict decoding undoes encoding |
| `Base64.OnlyCanonicalTextDecodes` | src/modules/characters/card_png.rs:189-194 | a text that decodes is the encoding of what it decodes to |
| `Base64.EncodedByGroups` | src/modules/characters/card_png.rs:122-124 | four letters for three bytes, high bits first, and padding for a short group |
| `Characters.TrimMeaning` | src/adapters/st/sse.rs:181-181 | trimming takes white space off both ends, all of it, and nothing else |
| `Characters.BlankIsWhite` | src/adapters/st/sse.rs:271-271 | a blank text is nothing but white-space characters, each in its UTF-8 form |
| `Characters.WhiteIsBlank` | src/adapters/st/sse.rs:271-271 | and white space is blank |
| `Characters.ValidIsEncoded` | src/adapters/st/sse.rs:109-114 | every text the decoder accepts is the UTF-8 form of a list of characters |
| `Characters.EncodedIsValid` | src/adapters/st/sse.rs:109-114 | and every such form is accepted |
| `CardPng.ParseCard` | src/modules/characters/card_png.rs:48-112 | the cursor loop computes the parse, errors included |
| `CardPng.EncodeCard` | src/modules/characters/card_png.rs:114-164 | the copying loop computes the embedding, errors included |
| `CardPng.CardRoundTrip` | src/modules/characters/card_png.rs:48-206 | parsing an embedded card gives it back if and only if the picture reaches IEND, its surviving chunks are intact and the card chunk is within the limit, for every value that JSON writes and reads back; it never gives another card |
| `CardPng.EmbeddingCanLoseTheCard` | src/modules/characters/card_png.rs:114-164 | a bare signature: embedding succeeds, reading finds no card |
| `CardPng.OtherChunksSurvive` | src/modules/characters/card_png.rs:127-164 | non-card chunks survive unchanged and in order, and only the two card chunks are added, right before IEND |
| `CardPng.LastCardWins` | src/modules/characters/card_png.rs:114-164 | embedding v and then w is embedding w, byte for byte |
| `CardMeaning.CardOfPicture` | src/modules/characters/card_png.rs:48-112 | from the chunks alone: a sound picture gives card v if and only if every card in it can be read and v is its last ccv3 card, or its last chara card when it has no ccv3 card |
| `CardMeaning.MissingFromPicture` | src/modules/characters/card_png.rs:105-112 | the card is reported missing if and only if there is none |
| `CardMeaning.DecodeMeaning` | src/modules/characters/card_png.rs:189-206 | a card text gives v if and only if, trimmed, it is the Base64 form of at most 2 MiB of JSON for v |
| `Query.NormalizeQuery` | src/modules/bridge/connector_hmac.rs:86-120 | the loop and sort compute the normal form or refuse the query |
| `Query.NormalizeIdempotent` | src/modules/bridge/connector_hmac.rs:86-120 | normalising twice is normalising once |
| `Query.NormalFormIsCanonical` | src/modules/bridge/connector_hmac.rs:86-120 | two accepted queries have equal normal forms if and only if they denote the same key-to-value map |
| `Query.SortWorks` | src/modules/bridge/connector_hmac.rs:114-114 | the sorted list is strictly ordered, a permutation, and denotes the same map |
| `Query.WrittenIsAccepted` | src/modules/bridge/connector_hmac.rs:86-113 | a query written as key=value or bare key parts, no key twice and no ampersand, hash or space inside, is accepted and means those keys and values |
| `Query.AcceptedIsWritten` | src/modules/bridge/connector_hmac.rs:86-113 | every accepted query is written so |
| `Query.NormalFormMeaning` | src/modules/bridge/connector_hmac.rs:114-120 | the normal form is key=value for each pair of the query, joined by ampersands, keys rising as byte strings |
| `Nonces.NonceSet.CheckRequest` | src/modules/bridge/connector_hmac.rs:152-186 | verdict and new nonce map in full, with the checks in the source's order |
| `Nonces.AcceptedExactly` | src/modules/bridge/connector_hmac.rs:152-186 | a request is accepted if and only if media type, path, query, nonce and time are as required, the nonce is new, and a key signs the request's seven lines as given |
| `Nonces.NonceSet.InsertIfNew` | src/modules/bridge/connector_hmac.rs:65-71 | inserts exactly when the nonce is new |
| `Nonces.NonceSet.PruneOlderThan` | src/modules/bridge/connector_hmac.rs:73-75 | keeps exactly the nonces at or above the bound |
| `Nonces.NeverAcceptedTwice` | src/modules/bridge/connector_hmac.rs:64-80 | with a monotone clock and pruning at or below now minus the window, no request is accepted twice |
| `Nonces.CanonicalIgnoresQueryOrder` | src/modules/bridge/connector_hmac.rs:122-140 | the signed text does not depend on the order of query parts |
| `Nonces.SignedTextDeterminesRequest` | src/modules/bridge/connector_hmac.rs:122-140 | among requests whose fields are single lines, two signed texts are equal if and only if verb up to case, path, query map, timestamp, nonce, media type and body hash are |
| `Callback.ActionRoundTrip` | src/modules/telegram/callback.rs:96-142 | parsing a printed action gives it back if and only if its keys hold no colon and the text fits |
| `Callback.PrintedAs` | src/modules/telegram/callback.rs:96-142 | the words of every action, in order |
| `Callback.OtherSpellings` | src/modules/telegram/callback.rs:191-205 | plus signs, leading zeros and the long word for the compression model are read alike |
| `Callback.PrintingNeverLengthens` | src/modules/telegram/callback.rs:184-271 | printing what was parsed is never longer than the text it came from |
| `Callback.OpaqueKeepsMeaning` | src/modules/telegram/callback.rs:267-271 | rewriting a text does not change what it parses to |
| `Callback.OpaqueIsIdempotent` | src/modules/telegram/callback.rs:267-271 | rewriting twice is rewriting once, for every text |

## Left out

- HTTP routes, sessions, the web UI, configuration, migrations, the command line and real I/O: no logic of their own.
- The retired local chat engine, prompt building, presets, panels, import and export: text formatting and plain sequencing.
- Liveness: a new runtime instance cannot open payloads sealed under the old fence; only safety is claimed.
- `mark_conflict`, `mark_interrupted` and the in-process claim guard: the first two are never called, the third only avoids contention.
- CommitProtocol.StepKeepsInv: the bulk sweep of stale rows is taken row by row.
- Coordinator.Commit: the code and summary of recorded errors are left empty.
- Coordinator.ReplayGenerated: the wrapped key is a parameter; restoring it from storage is not modelled.
- Connector.CommitOnce: the signing of the request is not modelled here (Nonces has its text).
- Leases.LoopAbortsExactly: a second loop of the same instance, which may retake that instance's own leases, is not among the others.
- Recovery.RecoverForBot: the scope checks before the loop and the candidate query are not modelled; the records are any earlier views of their rows.
- Leases.GenerationCountsGrants: release deletes the row and numbering restarts, so generations are not unique for ever.
- LockRuns.OneHolderPerKey: fairness of the per-key queue is not modelled.
- Delivery.Ledger.SendSingle: the turn ledger's rows and `replace_turn_chunk_scoped` appear only as a recording that succeeds or fails, before or after the row reads sent.
- Cooldown.Coordinator.Wait: other tasks record a finite number of rate limits during the wait.
- The pending-delivery queue of the rate limiter: a set with insert and remove.
- Nonces.SignedTextDeterminesRequest: requests with line ends inside a field are not covered.
- Generation.StreamGenerate: the relay of progress to a worker and the idle deadline's bookkeeping are not modelled; an interruption may come at any input.
- Poller.EpochsOnlyGrow: `set_lifecycle`, which may set any lifecycle, and registries behind the network are not modelled.
- CardPng.CardRoundTrip: card texts of 4 GiB and more, whose length field would wrap, are not covered.
- Nonces.NonceSet.CheckRequest: constant-time comparison is plain equality here.
- Callback storage, deduplication and opaque tokens: rows keyed by a random token.
