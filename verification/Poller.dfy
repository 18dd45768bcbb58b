/** Poller ownership: epochs, runtime bindings and the fence every poller write must pass. */
module Poller {
  import opened Wire

  type BotId = int

  datatype Owner = LegacyPlugin | RustBridge

  datatype Record = Record(owner: Owner, epoch: nat)

  datatype Lifecycle = Starting | Running | Draining | Stopped

  datatype Binding = Binding(internalId: Bytes, instanceId: Bytes, epoch: nat, lifecycle: Lifecycle)

  datatype Error =
    BootstrapClosed | NotRegistered | NotOwner | EpochMismatch | InvalidBotId | Conflict | LifecycleInvalid

  datatype Result<+T> = Ok(value: T) | Err(error: Error)

  predicate CanOwn(l: Lifecycle) { l.Starting? || l.Running? }

  datatype State = State(records: map<BotId, Record>, bindings: map<BotId, Binding>, bootstrapped: bool)

  // ---------------------------------------------------------------- the registry operations

  function AssertCanStart(s: State, bot: BotId, owner: Owner, epoch: nat): Result<()> {
    if bot <= 0 then Err(InvalidBotId)
    else if bot !in s.records then Err(NotRegistered)
    else if s.records[bot].owner != owner then Err(NotOwner)
    else if s.records[bot].epoch != epoch then Err(EpochMismatch)
    else Ok(())
  }

  function AssertFence(s: State, bot: BotId, owner: Owner, b: Binding): Result<()> {
    if !b.lifecycle.Running? then Err(LifecycleInvalid)
    else
      var start := AssertCanStart(s, bot, owner, b.epoch);
      if start.Err? then start
      else if bot !in s.bindings then Err(NotRegistered)
      else
        var current := s.bindings[bot];
        if current.internalId != b.internalId || current.instanceId != b.instanceId then Err(Conflict)
        else if current.epoch != b.epoch then Err(EpochMismatch)
        else Ok(())
  }

  datatype Op =
    | Bootstrap(bot: BotId)
    | Transfer(bot: BotId, expectedOwner: Owner, expectedEpoch: nat, newOwner: Owner)
    | Claim(bot: BotId, binding: Binding)
    | Release(bot: BotId, instanceId: Bytes)

  /** The error an operation reports, or none. */
  function Verdict(s: State, op: Op): Result<()> {
    if op.bot <= 0 then Err(InvalidBotId)
    else match op
      case Bootstrap(_) =>
        if s.bootstrapped || s.records != map[] then Err(BootstrapClosed) else Ok(())
      case Transfer(bot, expectedOwner, expectedEpoch, newOwner) =>
        var start := AssertCanStart(s, bot, expectedOwner, expectedEpoch);
        if start.Err? then start
        else if newOwner == expectedOwner then Err(NotOwner)
        else if expectedEpoch + 1 >= U64_LIMIT then Err(Conflict)
        else Ok(())
      case Claim(bot, b) =>
        if !CanOwn(b.lifecycle) || Blank(b.internalId) || Blank(b.instanceId) then Err(LifecycleInvalid)
        else
          var start := AssertCanStart(s, bot, RustBridge, b.epoch);
          if start.Err? then start
          else if bot in s.bindings then Err(Conflict)
          else Ok(())
      case Release(bot, instanceId) =>
        if bot !in s.bindings then Err(NotRegistered)
        else if s.bindings[bot].instanceId != instanceId then Err(NotOwner)
        else Ok(())
  }

  function After(s: State, op: Op): State {
    if Verdict(s, op).Err? then s
    else match op
      case Bootstrap(bot) => s.(records := s.records[bot := Record(LegacyPlugin, 1)], bootstrapped := true)
      case Transfer(bot, _, epoch, newOwner) => s.(records := s.records[bot := Record(newOwner, epoch + 1)])
      case Claim(bot, b) => s.(bindings := s.bindings[bot := b])
      case Release(bot, _) => s.(bindings := s.bindings - {bot})
  }

  class Registry {
    var records: map<BotId, Record>
    var bindings: map<BotId, Binding>
    var bootstrapped: bool

    function Snapshot(): State
      reads this
    {
      State(records, bindings, bootstrapped)
    }

    constructor ()
      ensures Snapshot() == EMPTY
    {
      records, bindings, bootstrapped := map[], map[], false;
    }

    method BootstrapLegacy(bot: BotId) returns (r: Result<Record>)
      modifies this
      ensures Snapshot() == After(old(Snapshot()), Bootstrap(bot))
      ensures r == match Verdict(old(Snapshot()), Bootstrap(bot))
                   case Err(e) => Err(e)
                   case Ok(_) => Ok(records[bot])
      ensures r.Ok? <==> bot > 0 && !old(bootstrapped) && old(records) == map[]
      ensures r.Ok? ==> r.value == Record(LegacyPlugin, 1) && records == map[bot := Record(LegacyPlugin, 1)] && bootstrapped
      ensures r.Err? ==> records == old(records) && bootstrapped == old(bootstrapped)
      ensures bindings == old(bindings)
    {
      if bot <= 0 {
        return Err(InvalidBotId);
      }
      if bootstrapped || |records| != 0 {
        return Err(BootstrapClosed);
      }
      var record := Record(LegacyPlugin, 1);
      records := records[bot := record];
      bootstrapped := true;
      r := Ok(record);
    }

    method TransferTo(bot: BotId, expectedOwner: Owner, expectedEpoch: nat, newOwner: Owner) returns (r: Result<Record>)
      modifies this
      ensures var op := Transfer(bot, expectedOwner, expectedEpoch, newOwner);
        && Snapshot() == After(old(Snapshot()), op)
        && r == match Verdict(old(Snapshot()), op)
                case Err(e) => Err(e)
                case Ok(_) => Ok(records[bot])
      ensures r.Ok? <==>
        && bot > 0 && bot in old(records) && old(records)[bot] == Record(expectedOwner, expectedEpoch)
        && newOwner != expectedOwner && expectedEpoch + 1 < 0x1_0000_0000_0000_0000
      ensures r.Ok? ==>
        r.value == Record(newOwner, expectedEpoch + 1) && records == old(records)[bot := Record(newOwner, expectedEpoch + 1)]
      ensures r.Err? ==> records == old(records)
      ensures bindings == old(bindings) && bootstrapped == old(bootstrapped)
    {
      if bot <= 0 {
        return Err(InvalidBotId);
      }
      if bot !in records {
        return Err(NotRegistered);
      }
      var record := records[bot];
      if record.owner != expectedOwner {
        return Err(NotOwner);
      }
      if record.epoch != expectedEpoch {
        return Err(EpochMismatch);
      }
      if newOwner == record.owner {
        return Err(NotOwner);
      }
      if record.epoch + 1 >= U64_LIMIT {
        return Err(Conflict);
      }
      var updated := Record(newOwner, record.epoch + 1);
      records := records[bot := updated];
      r := Ok(updated);
    }

    method ClaimRuntime(bot: BotId, binding: Binding) returns (r: Result<()>)
      modifies this
      ensures Snapshot() == After(old(Snapshot()), Claim(bot, binding)) && r == Verdict(old(Snapshot()), Claim(bot, binding))
      ensures r.Ok? <==>
        && bot > 0 && (binding.lifecycle == Starting || binding.lifecycle == Running)
        && !Blank(binding.internalId) && !Blank(binding.instanceId)
        && bot in old(records) && old(records)[bot] == Record(RustBridge, binding.epoch) && bot !in old(bindings)
      ensures bindings == if r.Ok? then old(bindings)[bot := binding] else old(bindings)
      ensures records == old(records) && bootstrapped == old(bootstrapped)
    {
      if bot <= 0 {
        return Err(InvalidBotId);
      }
      if !CanOwn(binding.lifecycle) || Blank(binding.internalId) || Blank(binding.instanceId) {
        return Err(LifecycleInvalid);
      }
      r := AssertCanStart(Snapshot(), bot, RustBridge, binding.epoch);
      if r.Err? {
        return;
      }
      if bot in bindings {
        return Err(Conflict);
      }
      bindings := bindings[bot := binding];
    }

    method ReleaseRuntime(bot: BotId, instanceId: Bytes) returns (r: Result<()>)
      modifies this
      ensures Snapshot() == After(old(Snapshot()), Release(bot, instanceId)) && r == Verdict(old(Snapshot()), Release(bot, instanceId))
      ensures r.Ok? <==> bot > 0 && bot in old(bindings) && old(bindings)[bot].instanceId == instanceId
      ensures bindings == if r.Ok? then old(bindings) - {bot} else old(bindings)
      ensures records == old(records) && bootstrapped == old(bootstrapped)
    {
      if bot <= 0 {
        return Err(InvalidBotId);
      }
      if bot !in bindings {
        return Err(NotRegistered);
      }
      if bindings[bot].instanceId != instanceId {
        return Err(NotOwner);
      }
      bindings := bindings - {bot};
      r := Ok(());
    }
  }

  // ---------------------------------------------------------------- whole runs

  const EMPTY: State := State(map[], map[], false)

  ghost predicate Execution(states: seq<State>, ops: seq<Op>) {
    && |states| == |ops| + 1
    && states[0] == EMPTY
    && forall i :: 0 <= i < |ops| ==> states[i + 1] == After(states[i], ops[i])
  }

  predicate Passes(s: State, bot: BotId, owner: Owner, b: Binding) { AssertFence(s, bot, owner, b).Ok? }

  /** A fence passes exactly when it is running, its bot is owned by this owner in this epoch, and the binding held for
      the bot has its internal id, its instance id and its epoch. */
  lemma PassesExactly(s: State, bot: BotId, owner: Owner, b: Binding)
    ensures Passes(s, bot, owner, b) <==>
      && bot > 0 && b.lifecycle == Running
      && bot in s.records && s.records[bot] == Record(owner, b.epoch)
      && bot in s.bindings && s.bindings[bot].internalId == b.internalId && s.bindings[bot].instanceId == b.instanceId
      && s.bindings[bot].epoch == b.epoch
  {
  }

  /** Ownership alternates: the legacy plugin has every odd epoch, from the first on, and the bridge every even one. */
  lemma {:induction false} OwnersAlternate(states: seq<State>, ops: seq<Op>, n: nat, bot: BotId)
    requires Execution(states, ops) && n < |states| && bot in states[n].records
    ensures 1 <= states[n].records[bot].epoch < 0x1_0000_0000_0000_0000
    ensures states[n].records[bot].owner == LegacyPlugin <==> states[n].records[bot].epoch % 2 == 1
    decreases n
  {
    var s, op := states[n - 1], ops[n - 1];
    assert states[n] == After(s, op);
    if bot in s.records {
      OwnersAlternate(states, ops, n - 1, bot);
    }
  }

  /** A bot's record never goes away, and either stays as it is or moves to a later epoch. */
  lemma {:induction false} EpochsOnlyGrow(states: seq<State>, ops: seq<Op>, i: nat, j: nat, bot: BotId)
    requires Execution(states, ops) && i <= j < |states| && bot in states[i].records
    ensures bot in states[j].records
    ensures states[j].records[bot] == states[i].records[bot] ||
            states[i].records[bot].epoch < states[j].records[bot].epoch
    decreases j
  {
    if i < j {
      EpochsOnlyGrow(states, ops, i, j - 1, bot);
      RecordStep(states[j - 1], ops[j - 1], bot);
    }
  }

  lemma RecordStep(s: State, op: Op, bot: BotId)
    requires bot in s.records
    ensures var s' := After(s, op);
      && bot in s'.records
      && (s'.records[bot] == s.records[bot] ||
          (s'.records[bot].epoch == s.records[bot].epoch + 1 && op.Transfer? && op.bot == bot && Verdict(s, op).Ok?))
  {
  }

  /** Every successful transfer opens a later epoch. */
  lemma TransferAdvances(states: seq<State>, ops: seq<Op>, i: nat, j: nat)
    requires Execution(states, ops) && i < j < |states|
    requires ops[i].Transfer? && Verdict(states[i], ops[i]).Ok?
    ensures ops[i].bot in states[i].records && ops[i].bot in states[j].records
    ensures states[i].records[ops[i].bot].epoch < states[j].records[ops[i].bot].epoch
  {
    RecordStep(states[i], ops[i], ops[i].bot);
    EpochsOnlyGrow(states, ops, i + 1, j, ops[i].bot);
  }

  /** A fence from an epoch that has been superseded is refused forever, whatever else it carries. */
  lemma SupersededFenceIsRefused(states: seq<State>, ops: seq<Op>, i: nat, j: nat, bot: BotId, owner: Owner, b: Binding)
    requires Execution(states, ops) && i <= j < |states|
    requires bot in states[i].records && b.epoch < states[i].records[bot].epoch
    ensures !Passes(states[j], bot, owner, b)
  {
    EpochsOnlyGrow(states, ops, i, j, bot);
  }

  /** A fence that passed once and is refused after the record moved on stays refused. */
  lemma LostOwnershipIsFinal(states: seq<State>, ops: seq<Op>, i: nat, j: nat, k: nat, bot: BotId, owner: Owner, b: Binding)
    requires Execution(states, ops) && i <= j <= k < |states|
    requires Passes(states[i], bot, owner, b)
    requires bot in states[j].records && states[j].records[bot] != states[i].records[bot]
    ensures !Passes(states[k], bot, owner, b)
  {
    EpochsOnlyGrow(states, ops, i, j, bot);
    SupersededFenceIsRefused(states, ops, j, k, bot, owner, b);
  }

  /** All fences a state accepts for a bot carry one owner, internal id, instance id and epoch. */
  lemma AcceptedFencesAgree(s: State, bot: BotId, o: Owner, b: Binding, p: Owner, c: Binding)
    requires Passes(s, bot, o, b) && Passes(s, bot, p, c)
    ensures o == p && b.internalId == c.internalId && b.instanceId == c.instanceId && b.epoch == c.epoch
    ensures b == c
  {
  }

  /** A binding dates from an epoch of its bot, and from the present one only if the bridge owns the bot. */
  ghost predicate BindingsDated(s: State) {
    forall bot :: bot in s.bindings ==>
      && bot in s.records && s.bindings[bot].epoch <= s.records[bot].epoch
      && (s.bindings[bot].epoch == s.records[bot].epoch ==> s.records[bot].owner.RustBridge?)
      && !Blank(s.bindings[bot].internalId) && !Blank(s.bindings[bot].instanceId)
  }

  lemma {:induction false} BindingsStayDated(states: seq<State>, ops: seq<Op>, n: nat)
    requires Execution(states, ops) && n < |states|
    ensures BindingsDated(states[n])
    decreases n
  {
    if n > 0 {
      BindingsStayDated(states, ops, n - 1);
      assert states[n] == After(states[n - 1], ops[n - 1]);
    }
  }

  /** No fence passes while the legacy plugin owns the bot. */
  lemma OnlyTheBridgePasses(states: seq<State>, ops: seq<Op>, n: nat, bot: BotId, owner: Owner, b: Binding)
    requires Execution(states, ops) && n < |states| && Passes(states[n], bot, owner, b)
    ensures owner.RustBridge? && states[n].records[bot] == Record(RustBridge, b.epoch)
  {
    BindingsStayDated(states, ops, n);
  }

  /** The claim behind a binding. */
  ghost predicate ClaimedAt(states: seq<State>, ops: seq<Op>, m: nat, bot: BotId, b: Binding) {
    && m < |ops| && m < |states| && ops[m] == Claim(bot, b) && Verdict(states[m], ops[m]).Ok?
  }

  lemma {:induction false} BindingWasClaimed(states: seq<State>, ops: seq<Op>, n: nat, bot: BotId) returns (m: nat)
    requires Execution(states, ops) && n < |states| && bot in states[n].bindings
    ensures m < n && ClaimedAt(states, ops, m, bot, states[n].bindings[bot])
    ensures forall k :: m < k <= n ==> bot in states[k].bindings && states[k].bindings[bot] == states[n].bindings[bot]
    decreases n
  {
    var s, op := states[n - 1], ops[n - 1];
    assert states[n] == After(s, op);
    if bot in s.bindings && s.bindings[bot] == states[n].bindings[bot] {
      m := BindingWasClaimed(states, ops, n - 1, bot);
    } else {
      m := n - 1;
    }
  }

  /** A passing fence belongs to a runtime that claimed the bot in this very epoch and has kept the
      binding, and the ownership record, unchanged since. */
  lemma PassingRuntimeHoldsTheClaim(states: seq<State>, ops: seq<Op>, n: nat, bot: BotId, owner: Owner, b: Binding) returns (m: nat)
    requires Execution(states, ops) && n < |states| && Passes(states[n], bot, owner, b)
    ensures m < n && ClaimedAt(states, ops, m, bot, states[n].bindings[bot])
    ensures states[n].bindings[bot].instanceId == b.instanceId && states[n].bindings[bot].epoch == b.epoch
    ensures forall k :: m <= k <= n ==> bot in states[k].records && states[k].records[bot] == Record(RustBridge, b.epoch)
    ensures forall k :: m < k <= n ==> bot in states[k].bindings && states[k].bindings[bot] == states[n].bindings[bot]
  {
    OnlyTheBridgePasses(states, ops, n, bot, owner, b);
    m := BindingWasClaimed(states, ops, n, bot);
    forall k | m <= k <= n
      ensures bot in states[k].records && states[k].records[bot] == Record(RustBridge, b.epoch)
    {
      EpochsOnlyGrow(states, ops, m, k, bot);
      EpochsOnlyGrow(states, ops, k, n, bot);
    }
  }

  /** The one-time bootstrap admits a single bot for the whole life of the registry. */
  lemma {:induction false} OneBotPerRegistry(states: seq<State>, ops: seq<Op>, n: nat, a: BotId, b: BotId)
    requires Execution(states, ops) && n < |states| && a in states[n].records && b in states[n].records
    ensures a == b && states[n].bootstrapped
    decreases n
  {
    var s, op := states[n - 1], ops[n - 1];
    assert states[n] == After(s, op);
    if a in s.records && b in s.records {
      OneBotPerRegistry(states, ops, n - 1, a, b);
    }
  }

  // ---------------------------------------------------------------- the guard

  datatype Fence = Fence(bot: BotId, epoch: nat, internalId: Bytes, instanceId: Bytes)

  class Guard {
    const bot: BotId
    const owner: Owner
    const binding: Binding
    var lifecycle: Lifecycle

    constructor (bot: BotId, owner: Owner, binding: Binding)
      ensures this.bot == bot && this.owner == owner && this.binding == binding && lifecycle == binding.lifecycle
    {
      this.bot, this.owner, this.binding, this.lifecycle := bot, owner, binding, binding.lifecycle;
    }

    /** `runtime_fence` */
    function RuntimeFence(): (f: Option<Fence>)
      reads this
      ensures f.Some? <==>
        && lifecycle.Running? && owner.RustBridge? && bot > 0 && binding.epoch > 0
        && !Blank(binding.internalId) && !Blank(binding.instanceId)
      ensures f.Some? ==>
        && f.value.bot == bot && f.value.epoch == binding.epoch
        && f.value.internalId == binding.internalId && f.value.instanceId == binding.instanceId
    {
      if !owner.RustBridge? || !lifecycle.Running? || bot <= 0 || binding.epoch == 0 ||
         Blank(binding.internalId) || Blank(binding.instanceId)
      then None
      else Some(Fence(bot, binding.epoch, binding.internalId, binding.instanceId))
    }

    method BeginDraining() returns (ok: bool)
      modifies this
      ensures ok == !old(lifecycle).Stopped?
      ensures lifecycle == if ok then Draining else Stopped
      ensures RuntimeFence().None?
    {
      ok := !lifecycle.Stopped?;
      if lifecycle.Starting? || lifecycle.Running? {
        lifecycle := Draining;
      }
    }

    method MarkStopped() returns (ok: bool)
      modifies this
      ensures ok == !CanOwn(old(lifecycle))
      ensures lifecycle == if ok then Stopped else old(lifecycle)
    {
      ok := lifecycle.Draining? || lifecycle.Stopped?;
      if ok {
        lifecycle := Stopped;
      }
    }

    /** A runtime gives its binding back only once it has stopped writing. */
    method ReleaseFrom(registry: Registry) returns (r: Result<()>)
      modifies registry
      ensures CanOwn(lifecycle) ==> r == Err(LifecycleInvalid) && registry.Snapshot() == old(registry.Snapshot())
      ensures !CanOwn(lifecycle) ==> registry.Snapshot() == After(old(registry.Snapshot()), Release(bot, binding.instanceId))
      ensures !CanOwn(lifecycle) ==> (r.Ok? <==>
        bot > 0 && bot in old(registry.bindings) && old(registry.bindings)[bot].instanceId == binding.instanceId)
      ensures r.Ok? ==> RuntimeFence().None? && !Passes(registry.Snapshot(), bot, owner, binding)
    {
      if lifecycle.Starting? || lifecycle.Running? {
        return Err(LifecycleInvalid);
      }
      r := registry.ReleaseRuntime(bot, binding.instanceId);
    }
  }
}
