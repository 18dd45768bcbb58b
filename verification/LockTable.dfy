/** The keyed lock table: the table as an object, and every interleaving of its users. */
module LockTable {
  import opened Wire

  type Key = Bytes
  type Lock = nat
  type Task = nat

  datatype Entry = Entry(lock: Lock, lastUsed: int)

  // ---------------------------------------------------------------- the table under its mutex

  predicate Expired(e: Entry, now: int, ttl: int) { now - e.lastUsed >= ttl }

  /** What `retain` leaves: entries that are cloned somewhere or not yet expired. */
  function Kept(entries: map<Key, Entry>, clones: multiset<Lock>, now: int, ttl: int): map<Key, Entry> {
    map k | k in entries && (entries[k].lock in clones || !Expired(entries[k], now, ttl)) :: entries[k]
  }

  /** An unused entry is kept while it was last used less than the time to live ago. */
  lemma KeptMeaning(entries: map<Key, Entry>, clones: multiset<Lock>, now: int, ttl: int, k: Key)
    ensures k in Kept(entries, clones, now, ttl) <==>
      k in entries && (entries[k].lock in clones || now < entries[k].lastUsed + ttl)
    ensures k in Kept(entries, clones, now, ttl) ==> Kept(entries, clones, now, ttl)[k] == entries[k]
  {
  }

  predicate Idle(entries: map<Key, Entry>, clones: multiset<Lock>, k: Key) {
    k in entries && entries[k].lock !in clones
  }

  /** An idle entry that has gone unused the longest. */
  ghost predicate OldestIdle(entries: map<Key, Entry>, clones: multiset<Lock>, k: Key) {
    && Idle(entries, clones, k)
    && forall o :: Idle(entries, clones, o) ==> entries[k].lastUsed <= entries[o].lastUsed
  }

  /** Locks are told apart, every clone belongs to a listed entry, and the table fits. */
  ghost predicate Sound(entries: map<Key, Entry>, nextLock: Lock, clones: multiset<Lock>, capacity: nat) {
    && |entries| <= capacity
    && (forall k :: k in entries ==> entries[k].lock < nextLock)
    && (forall k, o :: k in entries && o in entries && entries[k].lock == entries[o].lock ==> k == o)
    && (forall l :: l in clones ==> Listed(entries, l))
  }

  ghost predicate Listed(entries: map<Key, Entry>, l: Lock) {
    exists k :: k in entries && entries[k].lock == l
  }

  lemma KeptIsSound(entries: map<Key, Entry>, nextLock: Lock, clones: multiset<Lock>, capacity: nat, now: int, ttl: int)
    requires Sound(entries, nextLock, clones, capacity)
    ensures Sound(Kept(entries, clones, now, ttl), nextLock, clones, capacity)
  {
    var kept := Kept(entries, clones, now, ttl);
    Submap(kept, entries);
    forall l | l in clones
      ensures Listed(kept, l)
    {
      var k :| k in entries && entries[k].lock == l;
      assert k in kept && kept[k].lock == l;
    }
  }

  lemma EvictionIsSound(entries: map<Key, Entry>, nextLock: Lock, clones: multiset<Lock>, capacity: nat, v: Key)
    requires Sound(entries, nextLock, clones, capacity) && Idle(entries, clones, v)
    ensures Sound(entries - {v}, nextLock, clones, capacity) && |entries - {v}| < capacity
  {
    var less := entries - {v};
    Shrinks(entries, v);
    forall l | l in clones
      ensures Listed(less, l)
    {
      var k :| k in entries && entries[k].lock == l;
      assert k in less && less[k].lock == l;
    }
  }

  lemma HandOutIsSound(entries: map<Key, Entry>, nextLock: Lock, clones: multiset<Lock>, capacity: nat, key: Key, now: int)
    requires Sound(entries, nextLock, clones, capacity) && (key in entries || |entries| < capacity)
    ensures var lock := if key in entries then entries[key].lock else nextLock;
      var next := if key in entries then nextLock else nextLock + 1;
      && Sound(entries[key := Entry(lock, now)], next, clones + multiset{lock}, capacity)
      && (key !in entries ==> lock !in clones)
  {
    var lock := if key in entries then entries[key].lock else nextLock;
    var more := entries[key := Entry(lock, now)];
    assert more.Keys == entries.Keys + {key};
    assert more[key].lock == lock;
    forall l | l in clones + multiset{lock}
      ensures Listed(more, l)
    {
      if l != lock {
        var k :| k in entries && entries[k].lock == l;
        assert k in more && more[k].lock == l;
      }
    }
  }

  /** Every slot is taken by another key and every entry is cloned somewhere. */
  ghost predicate Full(entries: map<Key, Entry>, clones: multiset<Lock>, key: Key, capacity: nat) {
    key !in entries && |entries| == capacity && forall k :: k in entries ==> entries[k].lock in clones
  }

  /** At most one entry goes, only when it must, and then an idle one unused for longest. */
  ghost predicate MadeRoom(kept: map<Key, Entry>, clones: multiset<Lock>, key: Key, capacity: nat, after: map<Key, Entry>) {
    if key in kept || |kept| < capacity then after == kept
    else exists v :: OldestIdle(kept, clones, v) && after == kept - {v}
  }

  /** The key keeps its lock if it was listed, and otherwise gets one nobody holds. */
  ghost predicate Reserved(
    kept: map<Key, Entry>, clones: multiset<Lock>, key: Key, capacity: nat, now: int, lock: Lock, after: map<Key, Entry>)
  {
    && (if key in kept then lock == kept[key].lock else lock !in clones)
    && exists room ::
         MadeRoom(kept, clones, key, capacity, room) && after == room[key := Entry(lock, now)]
  }

  method RetainIn(entries: map<Key, Entry>, clones: multiset<Lock>, now: int, ttl: int) returns (left: map<Key, Entry>)
    ensures left == Kept(entries, clones, now, ttl)
  {
    left := entries;
    var todo := entries.Keys;
    while todo != {}
      invariant todo <= left.Keys <= entries.Keys
      invariant forall k :: k in left ==> left[k] == entries[k]
      invariant forall k :: k in entries && k !in todo ==>
        (k in left <==> entries[k].lock in clones || !Expired(entries[k], now, ttl))
      decreases |todo|
    {
      var k :| k in todo;
      todo := todo - {k};
      if entries[k].lock !in clones && Expired(entries[k], now, ttl) {
        left := left - {k};
      }
    }
  }

  class Table {
    var entries: map<Key, Entry>
    var nextLock: Lock
    /** Clones of the per-key mutexes that holders, waiters and dying guards still own. */
    var clones: multiset<Lock>
    const capacity: nat
    const ttl: int

    ghost predicate Valid()
      reads this
    {
      Sound(entries, nextLock, clones, capacity)
    }

    constructor (capacity: nat, ttl: int)
      ensures Valid() && entries == map[] && clones == multiset{}
      ensures this.capacity == capacity && this.ttl == ttl
    {
      entries, nextLock, clones := map[], 0, multiset{};
      this.capacity, this.ttl := capacity, ttl;
    }

    /** `retain` */
    method Retain(now: int)
      requires Valid()
      modifies `entries
      ensures Valid() && entries == Kept(old(entries), clones, now, ttl)
    {
      KeptIsSound(entries, nextLock, clones, capacity, now, ttl);
      entries := RetainIn(entries, clones, now, ttl);
    }

    method ChooseVictim() returns (victim: Option<Key>)
      ensures victim.Some? ==> OldestIdle(entries, clones, victim.value)
      ensures victim.None? ==> forall k :: k in entries ==> entries[k].lock in clones
    {
      victim := None;
      var todo := entries.Keys;
      while todo != {}
        invariant todo <= entries.Keys
        invariant victim.Some? ==> Idle(entries, clones, victim.value)
        invariant forall k :: Idle(entries, clones, k) && k !in todo ==>
          victim.Some? && entries[victim.value].lastUsed <= entries[k].lastUsed
        decreases |todo|
      {
        var k :| k in todo;
        todo := todo - {k};
        if entries[k].lock !in clones &&
           (victim.None? || entries[k].lastUsed < entries[victim.value].lastUsed) {
          victim := Some(k);
        }
      }
    }

    method MakeRoom(key: Key) returns (ok: bool)
      requires Valid()
      modifies `entries
      ensures Valid()
      ensures ok ==> MadeRoom(old(entries), clones, key, capacity, entries)
      ensures ok ==> key in entries || |entries| < capacity
      ensures !ok ==> entries == old(entries) && Full(entries, clones, key, capacity)
    {
      if key in entries || |entries| < capacity {
        return true;
      }
      var victim := ChooseVictim();
      if victim.None? {
        return false;
      }
      EvictionIsSound(entries, nextLock, clones, capacity, victim.value);
      entries := entries - {victim.value};
      ok := true;
    }

    method HandOut(key: Key, now: int) returns (lock: Lock)
      requires Valid() && (key in entries || |entries| < capacity)
      modifies this
      ensures Valid()
      ensures entries == old(entries)[key := Entry(lock, now)] && clones == old(clones) + multiset{lock}
      ensures if key in old(entries) then lock == old(entries)[key].lock else lock !in old(clones)
    {
      HandOutIsSound(entries, nextLock, clones, capacity, key, now);
      if key in entries {
        lock := entries[key].lock;
      } else {
        lock := nextLock;
        nextLock := nextLock + 1;
      }
      entries := entries[key := Entry(lock, now)];
      clones := clones + multiset{lock};
    }

    /** `acquire` up to the wait on the per-key mutex: the clone handed out, or AtCapacity. */
    method Reserve(key: Key, now: int) returns (r: Option<Lock>)
      requires Valid()
      modifies this
      ensures Valid()
      ensures r.None? ==> clones == old(clones)
      ensures r.None? ==> capacity == 0 || Full(entries, clones, key, capacity)
      ensures r.None? ==> entries == (if capacity == 0 then old(entries) else Kept(old(entries), clones, now, ttl))
      ensures r.Some? ==> clones == old(clones) + multiset{r.value}
      ensures r.Some? ==> Reserved(Kept(old(entries), old(clones), now, ttl), old(clones), key, capacity, now, r.value, entries)
    {
      if capacity == 0 {
        return None;
      }
      Retain(now);
      var ok := MakeRoom(key);
      if !ok {
        return None;
      }
      ghost var room := entries;
      var lock := HandOut(key, now);
      assert entries == room[key := Entry(lock, now)];
      r := Some(lock);
    }

    /** A clone goes away: a waiter was cancelled or a guard was dropped. */
    method DropClone(lock: Lock)
      requires Valid() && lock in clones
      modifies `clones
      ensures Valid() && clones == old(clones) - multiset{lock}
    {
      clones := clones - multiset{lock};
    }

    method Prune(now: int) returns (removed: nat)
      requires Valid()
      modifies `entries
      ensures Valid() && entries == Kept(old(entries), clones, now, ttl)
      ensures forall k :: k in old(entries) ==>
        (k in entries <==> old(entries)[k].lock in clones || now < old(entries)[k].lastUsed + ttl)
      ensures forall k :: k in entries ==> k in old(entries) && entries[k] == old(entries)[k]
      ensures removed + |entries| == |old(entries)|
    {
      var before := |entries|;
      Retain(now);
      Submap(entries, old(entries));
      removed := before - |entries|;
    }

    method ActiveCount() returns (n: nat)
      ensures n == |set k | k in entries && entries[k].lock in clones|
    {
      n := 0;
      var todo := entries.Keys;
      ghost var counted: set<Key> := {};
      while todo != {}
        invariant todo <= entries.Keys
        invariant counted == set k | k in entries && k !in todo && entries[k].lock in clones
        invariant n == |counted|
        decreases |todo|
      {
        var k :| k in todo;
        todo := todo - {k};
        if entries[k].lock in clones {
          n := n + 1;
          counted := counted + {k};
        }
      }
      assert counted == set k | k in entries && entries[k].lock in clones;
    }
  }

  lemma Shrinks(m: map<Key, Entry>, k: Key)
    requires k in m
    ensures |m - {k}| == |m| - 1
  {
    assert (m - {k}).Keys == m.Keys - {k};
  }

  lemma Submap(small: map<Key, Entry>, big: map<Key, Entry>)
    requires small.Keys <= big.Keys
    ensures |small| <= |big|
  {
    var rest := big.Keys - small.Keys;
    assert big.Keys == small.Keys + rest;
  }
}
