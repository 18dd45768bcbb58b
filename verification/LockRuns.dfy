/** Every interleaving of lock-table users: clones and drops race with the scans of the table. */
module LockRuns {
  import opened Wire
  import opened LockTable

  /** Where one caller stands. The first three hold the table mutex. */
  datatype Phase =
    | Retaining(key: Option<Key>, now: int, todo: set<Key>)    // in `retain`; no key means `prune`
    | Choosing(wanted: Key, at: int, left: set<Key>, best: Option<Key>)
    | Waiting(name: Key, lock: Lock)
    | Holding(name: Key, lock: Lock)
    | Dropping(name: Key, lock: Lock)                          // mutex released, clone still alive
    | Refused

  datatype State = State(
    entries: map<Key, Entry>,
    nextLock: Lock,
    tasks: map<Task, Phase>,
    table: Option<Task>,
    held: map<Lock, Task>
  )

  datatype Config = Config(capacity: nat, ttl: int)

  predicate Scans(p: Phase) { p.Retaining? || p.Choosing? }

  predicate Clones(p: Phase) { p.Waiting? || p.Holding? || p.Dropping? }

  /** `strong_count > 1` */
  ghost predicate InUse(s: State, l: Lock) {
    exists t :: t in s.tasks && Clones(s.tasks[t]) && s.tasks[t].lock == l
  }

  datatype Event =
    | Enter(t: Task, key: Option<Key>, now: int)
    | RefuseAtZero(t: Task)
    | RetainOne(t: Task, k: Key)
    | EndPrune(t: Task)
    | Scan(t: Task)
    | ChooseOne(t: Task, k: Key)
    | GiveUp(t: Task)
    | Take(t: Task)
    | Acquire(t: Task)
    | Unlock(t: Task)
    | Drop(t: Task)
    | Cancel(t: Task)
    | Leave(t: Task)

  /** After the scans: evict if a victim was chosen, list the key, clone, unlock the table. */
  function Taken(s: State, t: Task, key: Key, now: int, victim: Option<Key>): State {
    var room := if victim.Some? then s.entries - {victim.value} else s.entries;
    var lock := if key in room then room[key].lock else s.nextLock;
    s.(entries := room[key := Entry(lock, now)],
       nextLock := if key in room then s.nextLock else s.nextLock + 1,
       tasks := s.tasks[t := Waiting(key, lock)],
       table := None)
  }

  ghost predicate Step(c: Config, s: State, e: Event, s': State) {
    match e
    case Enter(t, key, now) =>
      && t !in s.tasks && s.table.None? && (key.Some? ==> c.capacity > 0)
      && s' == s.(tasks := s.tasks[t := Retaining(key, now, s.entries.Keys)], table := Some(t))
    case RefuseAtZero(t) =>
      && t !in s.tasks && c.capacity == 0
      && s' == s.(tasks := s.tasks[t := Refused])
    case RetainOne(t, k) =>
      && t in s.tasks && s.tasks[t].Retaining? && k in s.tasks[t].todo
      && var p := s.tasks[t];
         var gone := k in s.entries && !InUse(s, s.entries[k].lock) && Expired(s.entries[k], p.now, c.ttl);
         s' == s.(entries := if gone then s.entries - {k} else s.entries,
                  tasks := s.tasks[t := p.(todo := p.todo - {k})])
    case EndPrune(t) =>
      && t in s.tasks && s.tasks[t].Retaining? && s.tasks[t].todo == {} && s.tasks[t].key.None?
      && s' == s.(tasks := s.tasks - {t}, table := None)
    case Scan(t) =>
      && t in s.tasks && s.tasks[t].Retaining? && s.tasks[t].todo == {} && s.tasks[t].key.Some?
      && var p := s.tasks[t];
         && p.key.value !in s.entries && |s.entries| >= c.capacity
         && s' == s.(tasks := s.tasks[t := Choosing(p.key.value, p.now, s.entries.Keys, None)])
    case ChooseOne(t, k) =>
      && t in s.tasks && s.tasks[t].Choosing? && k in s.tasks[t].left && k in s.entries
      && var p := s.tasks[t];
         var better := !InUse(s, s.entries[k].lock) &&
           (p.best.None? || (p.best.value in s.entries && s.entries[k].lastUsed < s.entries[p.best.value].lastUsed));
         s' == s.(tasks := s.tasks[t := p.(left := p.left - {k}, best := if better then Some(k) else p.best)])
    case GiveUp(t) =>
      && t in s.tasks && s.tasks[t].Choosing? && s.tasks[t].left == {} && s.tasks[t].best.None?
      && s' == s.(tasks := s.tasks[t := Refused], table := None)
    case Take(t) =>
      && t in s.tasks
      && var p := s.tasks[t];
         if p.Retaining? then
           && p.todo == {} && p.key.Some? && (p.key.value in s.entries || |s.entries| < c.capacity)
           && s' == Taken(s, t, p.key.value, p.now, None)
         else
           && p.Choosing? && p.left == {} && p.best.Some?
           && s' == Taken(s, t, p.wanted, p.at, p.best)
    case Acquire(t) =>
      && t in s.tasks && s.tasks[t].Waiting? && s.tasks[t].lock !in s.held
      && var p := s.tasks[t];
         s' == s.(tasks := s.tasks[t := Holding(p.name, p.lock)], held := s.held[p.lock := t])
    case Unlock(t) =>
      && t in s.tasks && s.tasks[t].Holding?
      && var p := s.tasks[t];
         s' == s.(tasks := s.tasks[t := Dropping(p.name, p.lock)], held := s.held - {p.lock})
    case Drop(t) =>
      && t in s.tasks && s.tasks[t].Dropping?
      && s' == s.(tasks := s.tasks - {t})
    case Cancel(t) =>
      && t in s.tasks && s.tasks[t].Waiting?
      && s' == s.(tasks := s.tasks - {t})
    case Leave(t) =>
      && t in s.tasks && s.tasks[t].Refused?
      && s' == s.(tasks := s.tasks - {t})
  }

  ghost predicate Init(s: State) { s == State(map[], s.nextLock, map[], None, map[]) }

  // ---------------------------------------------------------------- the invariant

  ghost predicate Told(entries: map<Key, Entry>, nextLock: Lock) {
    && (forall k :: k in entries ==> entries[k].lock < nextLock)
    && (forall k, o :: k in entries && o in entries && entries[k].lock == entries[o].lock ==> k == o)
  }

  ghost predicate LocksDistinct(s: State) { Told(s.entries, s.nextLock) }

  /** Whoever owns a clone owns a clone of the lock its key is listed with. */
  ghost predicate ClonesListed(s: State) {
    forall t :: t in s.tasks && Clones(s.tasks[t]) ==>
      s.tasks[t].name in s.entries && s.entries[s.tasks[t].name].lock == s.tasks[t].lock
  }

  ghost predicate HeldOk(s: State) {
    && (forall l :: l in s.held ==>
          s.held[l] in s.tasks && s.tasks[s.held[l]].Holding? && s.tasks[s.held[l]].lock == l)
    && (forall t :: t in s.tasks && s.tasks[t].Holding? ==> s.tasks[t].lock in s.held && s.held[s.tasks[t].lock] == t)
  }

  ghost predicate ScansOk(c: Config, s: State) {
    forall t :: t in s.tasks && Scans(s.tasks[t]) ==> s.table == Some(t) && ScanOk(c, s, s.tasks[t])
  }

  ghost predicate ScanOk(c: Config, s: State, p: Phase) {
    && (p.Retaining? && p.key.Some? ==> c.capacity > 0)
    && (p.Choosing? ==>
          && p.wanted !in s.entries && p.left <= s.entries.Keys
          && (p.best.Some? ==> p.best.value in s.entries && !InUse(s, s.entries[p.best.value].lock)))
  }

  ghost predicate Inv(c: Config, s: State) {
    && |s.entries| <= c.capacity
    && LocksDistinct(s)
    && ClonesListed(s)
    && HeldOk(s)
    && ScansOk(c, s)
  }

  // ---------------------------------------------------------------- preservation

  /** Only Take makes a new clone. */
  lemma UseOnlyShrinks(c: Config, s: State, e: Event, s': State, l: Lock)
    requires Step(c, s, e, s') && !e.Take? && InUse(s', l)
    ensures InUse(s, l)
  {
    var t :| t in s'.tasks && Clones(s'.tasks[t]) && s'.tasks[t].lock == l;
    ClonerWasOne(c, s, e, s', t);
  }

  lemma ClonerWasOne(c: Config, s: State, e: Event, s': State, t: Task)
    requires Step(c, s, e, s') && !e.Take? && t in s'.tasks && Clones(s'.tasks[t])
    ensures t in s.tasks && Clones(s.tasks[t]) && s.tasks[t].lock == s'.tasks[t].lock
  {
  }

  lemma RemovalKeepsInv(c: Config, s: State, t: Task, k: Key, s': State)
    requires Inv(c, s) && Step(c, s, RetainOne(t, k), s')
    ensures Inv(c, s')
  {
    if s'.entries != s.entries {
      Shrinks(s.entries, k);
      forall u | u in s'.tasks && Clones(s'.tasks[u])
        ensures s'.tasks[u].name != k
      {
        if s.tasks[u].name == k {
          assert Clones(s.tasks[u]);
        }
      }
    }
    forall u | u in s'.tasks && Scans(s'.tasks[u])
      ensures s'.table == Some(u) && ScanOk(c, s', s'.tasks[u])
    {
      assert Scans(s.tasks[u]) && Scans(s.tasks[t]);
    }
  }

  lemma ListingKeepsTold(room: map<Key, Entry>, nextLock: Lock, key: Key, now: int)
    requires Told(room, nextLock)
    ensures var lock := if key in room then room[key].lock else nextLock;
      Told(room[key := Entry(lock, now)], if key in room then nextLock else nextLock + 1)
  {
  }

  /** The entries after a Take. */
  lemma TakenEntries(c: Config, s: State, t: Task, key: Key, now: int, victim: Option<Key>)
    requires |s.entries| <= c.capacity && LocksDistinct(s)
    requires if victim.Some? then victim.value in s.entries else key in s.entries || |s.entries| < c.capacity
    ensures var s' := Taken(s, t, key, now, victim); |s'.entries| <= c.capacity && LocksDistinct(s')
  {
    var room := if victim.Some? then s.entries - {victim.value} else s.entries;
    if victim.Some? {
      Shrinks(s.entries, victim.value);
    }
    assert Told(room, s.nextLock);
    ListingKeepsTold(room, s.nextLock, key, now);
    var s' := Taken(s, t, key, now, victim);
    assert s'.entries.Keys == room.Keys + {key};
  }

  /** A victim that nobody uses takes no clone with it. */
  lemma TakenClones(s: State, t: Task, key: Key, now: int, victim: Option<Key>)
    requires ClonesListed(s)
    requires victim.Some? ==> victim.value in s.entries && !InUse(s, s.entries[victim.value].lock)
    ensures ClonesListed(Taken(s, t, key, now, victim))
  {
    var s' := Taken(s, t, key, now, victim);
    forall u | u in s'.tasks && Clones(s'.tasks[u])
      ensures s'.tasks[u].name in s'.entries && s'.entries[s'.tasks[u].name].lock == s'.tasks[u].lock
    {
      if u != t {
        assert s'.tasks[u] == s.tasks[u];
        assert victim.Some? ==> s.tasks[u].name != victim.value;
      }
    }
  }

  lemma TakenRest(c: Config, s: State, t: Task, key: Key, now: int, victim: Option<Key>)
    requires HeldOk(s) && ScansOk(c, s) && t in s.tasks && Scans(s.tasks[t])
    ensures HeldOk(Taken(s, t, key, now, victim)) && ScansOk(c, Taken(s, t, key, now, victim))
  {
  }

  lemma TakeKeepsInv(c: Config, s: State, t: Task, s': State)
    requires Inv(c, s) && Step(c, s, Take(t), s')
    ensures Inv(c, s')
  {
    var p := s.tasks[t];
    assert Scans(p);
    var key, now, victim := if p.Retaining? then p.key.value else p.wanted, if p.Retaining? then p.now else p.at,
      if p.Retaining? then None else p.best;
    TakenEntries(c, s, t, key, now, victim);
    TakenClones(s, t, key, now, victim);
    TakenRest(c, s, t, key, now, victim);
  }

  predicate Quiet(e: Event) { !e.Take? && !e.RetainOne? }

  lemma QuietKeepsClones(c: Config, s: State, e: Event, s': State)
    requires ClonesListed(s) && Step(c, s, e, s') && Quiet(e)
    ensures s'.entries == s.entries && s'.nextLock == s.nextLock && ClonesListed(s')
  {
    forall u | u in s'.tasks && Clones(s'.tasks[u])
      ensures s'.tasks[u].name in s'.entries && s'.entries[s'.tasks[u].name].lock == s'.tasks[u].lock
    {
      assert u in s.tasks && Clones(s.tasks[u]) && s.tasks[u].name == s'.tasks[u].name;
    }
  }

  lemma LockingKeepsHeld(c: Config, s: State, e: Event, s': State)
    requires HeldOk(s) && Step(c, s, e, s') && (e.Acquire? || e.Unlock?)
    ensures HeldOk(s')
  {
    if e.Acquire? {
      AcquireKeepsHeld(c, s, e.t, s');
    } else {
      UnlockKeepsHeld(c, s, e.t, s');
    }
  }

  lemma AcquireKeepsHeld(c: Config, s: State, t: Task, s': State)
    requires HeldOk(s) && Step(c, s, Acquire(t), s')
    ensures HeldOk(s')
  {
    var l := s.tasks[t].lock;
    assert s'.tasks == s.tasks[t := Holding(s.tasks[t].name, l)] && s'.held == s.held[l := t];
  }

  lemma UnlockKeepsHeld(c: Config, s: State, t: Task, s': State)
    requires HeldOk(s) && Step(c, s, Unlock(t), s')
    ensures HeldOk(s')
  {
    var l := s.tasks[t].lock;
    assert s'.tasks == s.tasks[t := Dropping(s.tasks[t].name, l)] && s'.held == s.held - {l};
  }

  /** Only task `t` may have moved, and neither from nor to holding. */
  ghost predicate HoldersAlone(s: State, s': State, t: Task) {
    && s'.held == s.held
    && (t in s.tasks ==> !s.tasks[t].Holding?) && (t in s'.tasks ==> !s'.tasks[t].Holding?)
    && forall u :: u != t ==> (u in s'.tasks <==> u in s.tasks) && (u in s.tasks ==> s'.tasks[u] == s.tasks[u])
  }

  lemma QuietLeavesHolders(c: Config, s: State, e: Event, s': State)
    requires Step(c, s, e, s') && Quiet(e) && !e.Acquire? && !e.Unlock?
    ensures HoldersAlone(s, s', e.t)
  {
  }

  lemma HoldersAloneKeepHeld(s: State, s': State, t: Task)
    requires HeldOk(s) && HoldersAlone(s, s', t)
    ensures HeldOk(s')
  {
  }

  lemma QuietKeepsHeld(c: Config, s: State, e: Event, s': State)
    requires HeldOk(s) && Step(c, s, e, s') && Quiet(e)
    ensures HeldOk(s')
  {
    if e.Acquire? || e.Unlock? {
      LockingKeepsHeld(c, s, e, s');
    } else {
      QuietLeavesHolders(c, s, e, s');
      HoldersAloneKeepHeld(s, s', e.t);
    }
  }

  lemma QuietKeepsScans(c: Config, s: State, e: Event, s': State)
    requires ScansOk(c, s) && Step(c, s, e, s') && Quiet(e)
    ensures ScansOk(c, s')
  {
    forall u | u in s'.tasks && Scans(s'.tasks[u])
      ensures s'.table == Some(u) && ScanOk(c, s', s'.tasks[u])
    {
      QuietKeepsScan(c, s, e, s', u);
    }
  }

  lemma QuietKeepsScan(c: Config, s: State, e: Event, s': State, u: Task)
    requires ScansOk(c, s) && Step(c, s, e, s') && Quiet(e) && u in s'.tasks && Scans(s'.tasks[u])
    ensures s'.table == Some(u) && ScanOk(c, s', s'.tasks[u])
  {
    assert e.t != u ==> u in s.tasks && s.tasks[u] == s'.tasks[u];
    if s'.tasks[u].Choosing? && s'.tasks[u].best.Some? {
      var b := s'.tasks[u].best.value;
      assert b in s.entries && !InUse(s, s.entries[b].lock);
      if InUse(s', s.entries[b].lock) {
        UseOnlyShrinks(c, s, e, s', s.entries[b].lock);
      }
    }
  }

  /** Steps that leave the entries alone and make no clone. */
  lemma QuietStepKeepsInv(c: Config, s: State, e: Event, s': State)
    requires Inv(c, s) && Step(c, s, e, s') && Quiet(e)
    ensures Inv(c, s')
  {
    QuietKeepsClones(c, s, e, s');
    QuietKeepsHeld(c, s, e, s');
    QuietKeepsScans(c, s, e, s');
  }

  lemma StepKeepsInv(c: Config, s: State, e: Event, s': State)
    requires Inv(c, s) && Step(c, s, e, s')
    ensures Inv(c, s')
  {
    match e
    case RetainOne(t, k) => RemovalKeepsInv(c, s, t, k, s');
    case Take(t) => TakeKeepsInv(c, s, t, s');
    case _ => QuietStepKeepsInv(c, s, e, s');
  }

  // ---------------------------------------------------------------- whole runs

  ghost predicate Execution(c: Config, states: seq<State>, events: seq<Event>) {
    && |states| == |events| + 1
    && Init(states[0])
    && forall i :: 0 <= i < |events| ==> Step(c, states[i], events[i], states[i + 1])
  }

  lemma {:induction false} InvHolds(c: Config, states: seq<State>, events: seq<Event>, n: nat)
    requires Execution(c, states, events) && n < |states|
    ensures Inv(c, states[n])
    decreases n
  {
    if n > 0 {
      InvHolds(c, states, events, n - 1);
      StepKeepsInv(c, states[n - 1], events[n - 1], states[n]);
    }
  }

  /** Mutual exclusion: in every reachable state at most one caller holds a given key. */
  lemma OneHolderPerKey(c: Config, states: seq<State>, events: seq<Event>, n: nat, t: Task, u: Task)
    requires Execution(c, states, events) && n < |states|
    requires t in states[n].tasks && u in states[n].tasks
    requires states[n].tasks[t].Holding? && states[n].tasks[u].Holding?
    requires states[n].tasks[t].name == states[n].tasks[u].name
    ensures t == u
  {
    InvHolds(c, states, events, n);
  }

  /** The table never outgrows its capacity. */
  lemma NeverOverCapacity(c: Config, states: seq<State>, events: seq<Event>, n: nat)
    requires Execution(c, states, events) && n < |states|
    ensures |states[n].entries| <= c.capacity
  {
    InvHolds(c, states, events, n);
  }

  /** While anyone waits for, holds or is dropping a key's lock, the key stays listed with that lock. */
  lemma UsersPinTheirEntry(c: Config, states: seq<State>, events: seq<Event>, n: nat, t: Task)
    requires Execution(c, states, events) && n < |states|
    requires t in states[n].tasks && Clones(states[n].tasks[t])
    ensures var p := states[n].tasks[t];
      p.name in states[n].entries && states[n].entries[p.name].lock == p.lock
  {
    InvHolds(c, states, events, n);
  }

  /** What a scan in progress has established about the state `s0` it began in. */
  ghost predicate ScanSince(s0: State, s: State, t: Task) {
    && t in s.tasks && s.tasks[t].Choosing?
    && t in s0.tasks && s0.tasks[t].Choosing? && s0.tasks[t].wanted == s.tasks[t].wanted
    && s0.entries == s.entries
    && (forall l :: InUse(s, l) ==> InUse(s0, l))
    && var p := s.tasks[t];
       forall k :: k in s.entries && k !in p.left && !InUse(s0, s.entries[k].lock) ==> AtLeastAsOld(s, p.best, k)
  }

  predicate AtLeastAsOld(s: State, best: Option<Key>, k: Key)
    requires k in s.entries
  {
    best.Some? && best.value in s.entries && s.entries[best.value].lastUsed <= s.entries[k].lastUsed
  }

  /** While one caller chooses, no other caller touches the entries or makes a clone. */
  lemma OthersCannotScan(c: Config, s: State, e: Event, s': State, t: Task)
    requires ScansOk(c, s) && Step(c, s, e, s')
    requires t in s.tasks && s.tasks[t].Choosing? && t in s'.tasks && s'.tasks[t].Choosing?
    ensures !e.Take? && s'.entries == s.entries
    ensures s'.tasks[t] == s.tasks[t] || (e.ChooseOne? && e.t == t)
  {
    assert Scans(s.tasks[t]);
  }

  lemma ScanContinues(c: Config, s0: State, s: State, e: Event, s': State, t: Task)
    requires ScansOk(c, s) && Step(c, s, e, s') && ScanSince(s0, s, t)
    requires t in s'.tasks && s'.tasks[t].Choosing?
    ensures ScanSince(s0, s', t)
  {
    OthersCannotScan(c, s, e, s', t);
    forall l | InUse(s', l)
      ensures InUse(s0, l)
    {
      UseOnlyShrinks(c, s, e, s', l);
    }
    var p, p' := s.tasks[t], s'.tasks[t];
    assert Scans(p);
    forall k | k in s'.entries && k !in p'.left && !InUse(s0, s'.entries[k].lock)
      ensures AtLeastAsOld(s', p'.best, k)
    {
      if p' != p {
        assert k != e.k ==> AtLeastAsOld(s, p.best, k);
      }
    }
  }

  /** A choice in progress was either just begun, by a caller that found the table full, or goes on. */
  lemma ChoiceOrigin(c: Config, s: State, e: Event, s': State, t: Task)
    requires Inv(c, s) && Step(c, s, e, s') && t in s'.tasks && s'.tasks[t].Choosing?
    ensures e == Scan(t) ==>
      ScanSince(s', s', t) && |s'.entries| == c.capacity && s'.tasks[t].wanted !in s'.entries
    ensures e != Scan(t) ==> t in s.tasks && s.tasks[t].Choosing?
  {
    if e == Scan(t) {
      ChoiceBegins(c, s, s', t);
    } else {
      ChoiceGoesOn(c, s, e, s', t);
    }
  }

  lemma ChoiceBegins(c: Config, s: State, s': State, t: Task)
    requires Inv(c, s) && Step(c, s, Scan(t), s') && t in s'.tasks && s'.tasks[t].Choosing?
    ensures ScanSince(s', s', t) && |s'.entries| == c.capacity && s'.tasks[t].wanted !in s'.entries
  {
  }

  lemma ChoiceGoesOn(c: Config, s: State, e: Event, s': State, t: Task)
    requires Step(c, s, e, s') && e != Scan(t) && t in s'.tasks && s'.tasks[t].Choosing?
    ensures t in s.tasks && s.tasks[t].Choosing?
  {
    if e.t != t {
      OthersStay(c, s, e, s', t);
    }
  }

  /** A step moves no task but its own. */
  lemma OthersStay(c: Config, s: State, e: Event, s': State, u: Task)
    requires Step(c, s, e, s') && u != e.t
    ensures u in s'.tasks <==> u in s.tasks
    ensures u in s.tasks ==> s'.tasks[u] == s.tasks[u]
  {
    match e
    case Take(t) =>
    case RetainOne(t, k) =>
    case ChooseOne(t, k) =>
    case _ =>
  }

  lemma {:induction false} ScanBegan(c: Config, states: seq<State>, events: seq<Event>, n: nat, t: Task) returns (m: nat)
    requires Execution(c, states, events) && n < |states|
    requires t in states[n].tasks && states[n].tasks[t].Choosing?
    ensures m <= n && ScanSince(states[m], states[n], t) && |states[m].entries| == c.capacity
    ensures states[m].tasks[t].wanted !in states[m].entries
    decreases n
  {
    InvHolds(c, states, events, n - 1);
    ChoiceOrigin(c, states[n - 1], events[n - 1], states[n], t);
    if events[n - 1] == Scan(t) {
      m := n;
    } else {
      m := ScanBegan(c, states, events, n - 1, t);
      ScanContinues(c, states[m], states[n - 1], events[n - 1], states[n], t);
    }
  }

  ghost predicate EverySlotBusy(c: Config, s: State, t: Task) {
    && t in s.tasks && s.tasks[t].Choosing? && s.tasks[t].wanted !in s.entries
    && |s.entries| == c.capacity
    && forall k :: k in s.entries ==> InUse(s, s.entries[k].lock)
  }

  lemma RefusalComesFromScan(c: Config, s: State, e: Event, s': State, t: Task)
    requires Step(c, s, e, s') && c.capacity != 0
    requires t in s'.tasks && s'.tasks[t].Refused? && (t !in s.tasks || !s.tasks[t].Refused?)
    ensures t in s.tasks && s.tasks[t].Choosing? && s.tasks[t].left == {} && s.tasks[t].best.None?
  {
  }

  /** AtCapacity is reported only at zero capacity or when, at one moment of that very call, every
      slot was taken by another key and every listed lock was in use. */
  lemma RefusedOnlyWhenFull(c: Config, states: seq<State>, events: seq<Event>, n: nat, t: Task)
    requires Execution(c, states, events) && n < |events|
    requires t in states[n + 1].tasks && states[n + 1].tasks[t].Refused?
    requires t !in states[n].tasks || !states[n].tasks[t].Refused?
    ensures c.capacity == 0 || exists m :: 0 <= m <= n && EverySlotBusy(c, states[m], t)
  {
    if c.capacity != 0 {
      RefusalComesFromScan(c, states[n], events[n], states[n + 1], t);
      var m := ScanBegan(c, states, events, n, t);
      assert EverySlotBusy(c, states[m], t);
    }
  }

  /** The evicted entry is in use by nobody, and among the entries that were idle when the scan
      began none had gone unused longer. */
  lemma EvictsOldestIdle(c: Config, states: seq<State>, events: seq<Event>, n: nat, t: Task)
    requires Execution(c, states, events) && n < |events| && events[n] == Take(t)
    requires t in states[n].tasks && states[n].tasks[t].Choosing? && states[n].tasks[t].best.Some?
    ensures var s, v := states[n], states[n].tasks[t].best.value;
      && v in s.entries && !InUse(s, s.entries[v].lock)
      && exists m :: 0 <= m <= n && ScanSince(states[m], s, t) &&
           forall k :: k in s.entries && !InUse(states[m], s.entries[k].lock) ==>
             s.entries[v].lastUsed <= s.entries[k].lastUsed
  {
    InvHolds(c, states, events, n);
    assert Step(c, states[n], events[n], states[n + 1]) && Scans(states[n].tasks[t]);
    var m := ScanBegan(c, states, events, n, t);
    forall k | k in states[n].entries && !InUse(states[m], states[n].entries[k].lock)
      ensures states[n].entries[states[n].tasks[t].best.value].lastUsed <= states[n].entries[k].lastUsed
    {
      assert AtLeastAsOld(states[n], states[n].tasks[t].best, k);
    }
  }

  /** This event hands out the lock of this key. */
  predicate TakesKey(s: State, e: Event, k: Key) {
    && e.Take? && e.t in s.tasks
    && ((s.tasks[e.t].Retaining? && s.tasks[e.t].key == Some(k)) || (s.tasks[e.t].Choosing? && s.tasks[e.t].wanted == k))
  }

  /** The time its caller came with. */
  function TimeOf(p: Phase): int
    requires Scans(p)
  {
    if p.Retaining? then p.now else p.at
  }

  lemma TakeStamps(c: Config, s: State, e: Event, s': State, k: Key)
    requires Step(c, s, e, s') && k in s'.entries
    ensures TakesKey(s, e, k) ==> s'.entries[k].lastUsed == TimeOf(s.tasks[e.t])
    ensures !TakesKey(s, e, k) ==> k in s.entries && s'.entries[k] == s.entries[k]
  {
  }

  lemma StampsAt(c: Config, states: seq<State>, events: seq<Event>, n: nat, k: Key)
    requires Execution(c, states, events) && n < |states| && k in states[n].entries
    ensures n > 0
    ensures var s, e := states[n - 1], events[n - 1];
      && (TakesKey(s, e, k) ==> states[n].entries[k].lastUsed == TimeOf(s.tasks[e.t]))
      && (!TakesKey(s, e, k) ==> k in s.entries && states[n].entries[k] == s.entries[k])
  {
    TakeStamps(c, states[n - 1], events[n - 1], states[n], k);
  }

  /** How long an entry has gone unused is counted from the last time its lock was handed out. */
  lemma {:induction false} LastUsedIsLastTake(c: Config, states: seq<State>, events: seq<Event>, n: nat, k: Key)
    returns (m: nat)
    requires Execution(c, states, events) && n < |states| && k in states[n].entries
    ensures m < n && TakesKey(states[m], events[m], k)
    ensures states[n].entries[k].lastUsed == TimeOf(states[m].tasks[events[m].t])
    ensures forall j :: m < j < n ==> !TakesKey(states[j], events[j], k)
    decreases n
  {
    StampsAt(c, states, events, n, k);
    if TakesKey(states[n - 1], events[n - 1], k) {
      m := n - 1;
    } else {
      m := LastUsedIsLastTake(c, states, events, n - 1, k);
    }
  }
}
