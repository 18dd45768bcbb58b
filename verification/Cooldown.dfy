/** Telegram rate-limit cooldowns: a pruned map of deadlines against the whole history of rate limits. */
module Cooldown {
  import opened Wire

  type Bot = Bytes
  type Chat = int
  type Instant = int

  /** A bot-wide entry has no chat. */
  datatype Key = Key(bot: Bot, chat: Option<Chat>)

  datatype RateLimit = RateLimit(bot: Bot, chat: Chat, until: Instant)

  /** The last instant the platform clock can represent. */
  const INSTANT_MAX: Instant

  /** The latest deadline any past rate limit set for this bot, or `t` when all of them are over. */
  function LatestFor(history: seq<RateLimit>, bot: Bot, t: Instant): (d: Instant)
    ensures d >= t
  {
    if history == [] then t
    else
      var last := history[|history| - 1];
      var d := LatestFor(history[..|history| - 1], bot, t);
      if last.bot == bot && last.until > d then last.until else d
  }

  /** It bounds every deadline of the bot, and is one of them unless they are all over. */
  lemma {:induction false} LatestIsMaximum(history: seq<RateLimit>, bot: Bot, t: Instant)
    ensures forall i :: 0 <= i < |history| && history[i].bot == bot ==> history[i].until <= LatestFor(history, bot, t)
    ensures LatestFor(history, bot, t) == t ||
      exists i :: 0 <= i < |history| && history[i].bot == bot && history[i].until == LatestFor(history, bot, t)
  {
    if history != [] {
      var front := history[..|history| - 1];
      LatestIsMaximum(front, bot, t);
      assert forall i :: 0 <= i < |front| ==> front[i] == history[i];
    }
  }

  function Lookup(states: map<Key, Instant>, k: Key, t: Instant): Instant {
    if k in states then states[k] else t
  }

  /** The wait the map calls for at time `t`. */
  function Remaining(states: map<Key, Instant>, bot: Bot, chat: Chat, t: Instant): int {
    var botUntil := Lookup(states, Key(bot, None), t);
    var chatUntil := Lookup(states, Key(bot, Some(chat)), t);
    var until := if botUntil >= chatUntil then botUntil else chatUntil;
    if until > t then until - t else 0
  }

  /** What the map must still know at time `now` about the history. */
  ghost predicate Agrees(states: map<Key, Instant>, history: seq<RateLimit>, now: Instant) {
    && (forall k :: k in states ==> states[k] <= LatestFor(history, k.bot, now))
    && (forall bot :: BotWide(states, history, bot, now))
  }

  ghost predicate BotWide(states: map<Key, Instant>, history: seq<RateLimit>, bot: Bot, now: Instant) {
    LatestFor(history, bot, now) > now ==>
      Key(bot, None) in states && states[Key(bot, None)] == LatestFor(history, bot, now)
  }

  lemma {:induction false} LatestLater(history: seq<RateLimit>, bot: Bot, now: Instant, t: Instant)
    requires now <= t
    ensures LatestFor(history, bot, t) == if LatestFor(history, bot, now) > t then LatestFor(history, bot, now) else t
    decreases |history|
  {
    if history != [] {
      LatestLater(history[..|history| - 1], bot, now, t);
    }
  }

  /** From an agreeing map, the wait at any later time is the one the whole history calls for. */
  lemma PrunedMapAgrees(states: map<Key, Instant>, history: seq<RateLimit>, now: Instant, bot: Bot, chat: Chat, t: Instant)
    requires Agrees(states, history, now) && now <= t
    ensures Remaining(states, bot, chat, t) == LatestFor(history, bot, t) - t
  {
    LatestLater(history, bot, now, t);
    assert BotWide(states, history, bot, now);
    assert Key(bot, Some(chat)) in states ==> states[Key(bot, Some(chat))] <= LatestFor(history, Key(bot, Some(chat)).bot, now);
    assert Key(bot, None) in states ==> states[Key(bot, None)] <= LatestFor(history, Key(bot, None).bot, now);
  }

  lemma AgreesLater(states: map<Key, Instant>, history: seq<RateLimit>, now: Instant, t: Instant)
    requires Agrees(states, history, now) && now <= t
    ensures Agrees(states, history, t)
  {
    forall k | k in states
      ensures states[k] <= LatestFor(history, k.bot, t)
    {
      LatestLater(history, k.bot, now, t);
    }
    forall bot
      ensures BotWide(states, history, bot, t)
    {
      LatestLater(history, bot, now, t);
      assert BotWide(states, history, bot, now);
    }
  }

  /** One entry of the two the update touches: created at `created` if absent, then raised to `until`. */
  function Raised(states: map<Key, Instant>, k: Key, created: Instant, until: Instant): map<Key, Instant> {
    var current := Lookup(states, k, created);
    states[k := if until > current then until else current]
  }

  lemma LatestExtended(history: seq<RateLimit>, l: RateLimit, bot: Bot, t: Instant)
    ensures var d := LatestFor(history, bot, t);
      LatestFor(history + [l], bot, t) == if l.bot == bot && l.until > d then l.until else d
  {
    assert (history + [l])[..|history|] == history;
  }

  /** Both entries of a new rate limit. */
  function RaisedBoth(states: map<Key, Instant>, l: RateLimit, t1: Instant, t2: Instant): map<Key, Instant> {
    Raised(Raised(states, Key(l.bot, None), t1, l.until), Key(l.bot, Some(l.chat)), t2, l.until)
  }

  lemma RaisedBound(states: map<Key, Instant>, history: seq<RateLimit>, l: RateLimit,
                    t1: Instant, t2: Instant, t: Instant, k: Key)
    requires t1 <= t2 <= t && (k in states ==> states[k] <= LatestFor(history, k.bot, t))
    requires k in RaisedBoth(states, l, t1, t2)
    ensures RaisedBoth(states, l, t1, t2)[k] <= LatestFor(history + [l], k.bot, t)
  {
    LatestExtended(history, l, k.bot, t);
  }

  lemma RaisedBotWide(states: map<Key, Instant>, history: seq<RateLimit>, l: RateLimit,
                      t1: Instant, t2: Instant, t: Instant, bot: Bot)
    requires t1 <= t2 <= t && BotWide(states, history, bot, t)
    requires Key(bot, None) in states ==> states[Key(bot, None)] <= LatestFor(history, bot, t)
    ensures BotWide(RaisedBoth(states, l, t1, t2), history + [l], bot, t)
  {
    LatestExtended(history, l, bot, t);
  }

  /** Raising both entries of a new rate limit restores agreement with the longer history. */
  lemma RaisingAgrees(states: map<Key, Instant>, history: seq<RateLimit>, now: Instant, l: RateLimit,
                      t1: Instant, t2: Instant, t: Instant)
    requires Agrees(states, history, now) && now <= t1 <= t2 <= t
    ensures Agrees(RaisedBoth(states, l, t1, t2), history + [l], t)
  {
    AgreesLater(states, history, now, t);
    forall k | k in RaisedBoth(states, l, t1, t2)
      ensures RaisedBoth(states, l, t1, t2)[k] <= LatestFor(history + [l], k.bot, t)
    {
      RaisedBound(states, history, l, t1, t2, t, k);
    }
    forall bot
      ensures BotWide(RaisedBoth(states, l, t1, t2), history + [l], bot, t)
    {
      assert BotWide(states, history, bot, t);
      assert Key(bot, None).bot == bot;
      RaisedBotWide(states, history, l, t1, t2, t, bot);
    }
  }

  /** Dropping an entry whose deadline has passed loses nothing. */
  lemma PruningAgrees(states: map<Key, Instant>, history: seq<RateLimit>, t: Instant, k: Key)
    requires Agrees(states, history, t) && k in states && states[k] <= t
    ensures Agrees(states - {k}, history, t)
  {
    forall bot
      ensures BotWide(states - {k}, history, bot, t)
    {
      assert BotWide(states, history, bot, t);
    }
  }

  /** `left` is part of `all`, and outside `todo` only deadlines after `t` are left. */
  ghost predicate KeptFrom(all: map<Key, Instant>, left: map<Key, Instant>, todo: set<Key>, t: Instant) {
    forall k :: k in left ==> k in all && left[k] == all[k] && (k in todo || left[k] > t)
  }

  function DeadlineFrom(read: Instant, retryAfter: nat, cap: nat): Instant {
    if read + retryAfter <= INSTANT_MAX then read + retryAfter else read + cap
  }

  /** A clock that never runs backwards. */
  class Clock {
    var time: Instant

    constructor (start: Instant)
      ensures time == start
    {
      time := start;
    }

    method Now() returns (t: Instant)
      modifies this
      ensures t == time && time >= old(time)
    {
      var elapsed :| elapsed >= 0;
      time := time + elapsed;
      t := time;
    }

    method Sleep(duration: nat)
      modifies this
      ensures time >= old(time) + duration
    {
      var late :| late >= 0;
      time := time + duration + late;
    }
  }

  class Coordinator {
    var states: map<Key, Instant>
    ghost var history: seq<RateLimit>
    const clock: Clock
    const maxRetryAfter: nat

    ghost predicate Valid()
      reads this, clock
    {
      maxRetryAfter >= 1 && Agrees(states, history, clock.time)
    }

    constructor (clock: Clock, maxRetryAfter: nat)
      ensures Valid() && states == map[] && history == [] && this.clock == clock
    {
      this.clock := clock;
      this.maxRetryAfter := if maxRetryAfter < 1 then 1 else maxRetryAfter;
      states, history := map[], [];
    }

    /** The deadline computed before the map is locked: the server's, counted from a reading of the clock
        during the call, unless the clock cannot represent it; then the local cap. */
    method Deadline(retryAfter: nat) returns (until: Instant, ghost read: Instant)
      requires Valid()
      modifies clock
      ensures Valid() && old(clock.time) <= read <= clock.time
      ensures until == DeadlineFrom(read, retryAfter, maxRetryAfter)
    {
      var now := clock.Now();
      AgreesLater(states, history, old(clock.time), now);
      until, read := now + retryAfter, now;
      if until > INSTANT_MAX {
        var again := clock.Now();
        AgreesLater(states, history, now, again);
        until, read := again + maxRetryAfter, again;
      }
    }

    /** The locked part of `set_cooldown_secs`: raise both entries, then drop the expired ones. */
    method Record(bot: Bot, chat: Chat, until: Instant)
      requires Valid()
      modifies this, clock
      ensures Valid() && clock.time >= old(clock.time)
      ensures history == old(history) + [RateLimit(bot, chat, until)]
    {
      ghost var start := clock.time;
      var t1 := clock.Now();
      ghost var before := states;
      states := Raised(states, Key(bot, None), t1, until);
      var t2 := clock.Now();
      states := Raised(states, Key(bot, Some(chat)), t2, until);
      RaisingAgrees(before, history, start, RateLimit(bot, chat, until), t1, t2, t2);
      history := history + [RateLimit(bot, chat, until)];
      Retain();
    }

    /** `set_cooldown_secs` */
    method SetCooldown(bot: Bot, chat: Chat, retryAfter: nat) returns (ghost read: Instant)
      requires Valid()
      modifies this, clock
      ensures Valid() && old(clock.time) <= read <= clock.time
      ensures history == old(history) + [RateLimit(bot, chat, DeadlineFrom(read, retryAfter, maxRetryAfter))]
      ensures read + retryAfter <= INSTANT_MAX ==> history == old(history) + [RateLimit(bot, chat, read + retryAfter)]
      ensures read + retryAfter > INSTANT_MAX ==> history == old(history) + [RateLimit(bot, chat, read + maxRetryAfter)]
    {
      var until;
      until, read := Deadline(retryAfter);
      Record(bot, chat, until);
    }

    /** The closure of `retain` on one entry. */
    method KeepOrDrop(left: map<Key, Instant>, k: Key) returns (rest: map<Key, Instant>)
      requires Agrees(left, history, clock.time) && k in left
      modifies clock
      ensures Agrees(rest, history, clock.time) && clock.time >= old(clock.time)
      ensures rest == (if left[k] > clock.time then left else left - {k})
    {
      ghost var was := clock.time;
      var now := clock.Now();
      AgreesLater(left, history, was, now);
      if left[k] > now {
        return left;
      }
      PruningAgrees(left, history, now, k);
      rest := left - {k};
    }

    method Retain()
      requires Valid()
      modifies `states, clock
      ensures Valid() && clock.time >= old(clock.time)
      ensures KeptFrom(old(states), states, {}, old(clock.time))
    {
      var left, todo := states, states.Keys;
      while todo != {}
        invariant Agrees(left, history, clock.time) && clock.time >= old(clock.time)
        invariant todo <= left.Keys
        invariant KeptFrom(old(states), left, todo, old(clock.time))
        decreases |todo|
      {
        var k :| k in todo;
        todo := todo - {k};
        left := KeepOrDrop(left, k);
      }
      states := left;
    }

    /** `cooldown_remaining`; a contended lock reports the cap. */
    method CooldownRemaining(bot: Bot, chat: Chat, contended: bool) returns (d: int)
      requires Valid()
      modifies clock
      ensures Valid() && clock.time >= old(clock.time)
      ensures d == if contended then maxRetryAfter else LatestFor(history, bot, clock.time) - clock.time
    {
      ghost var was := clock.time;
      var now := clock.Now();
      AgreesLater(states, history, was, now);
      if contended {
        return maxRetryAfter;
      }
      PrunedMapAgrees(states, history, now, bot, chat, now);
      d := Remaining(states, bot, chat, now);
    }

    /** `wait`, with other tasks recording the rate limits `others[i]` during the i-th sleep. */
    method Wait(bot: Bot, chat: Chat, others: seq<seq<RateLimit>>)
      requires Valid()
      modifies this, clock
      ensures Valid() && clock.time >= old(clock.time)
      ensures forall i :: 0 <= i < |history| && history[i].bot == bot ==> history[i].until <= clock.time
    {
      var i := 0;
      while true
        invariant Valid() && clock.time >= old(clock.time)
        invariant 0 <= i <= |others| + 1
        invariant i == |others| + 1 ==> LatestFor(history, bot, clock.time) == clock.time
        decreases |others| + 1 - i
      {
        ghost var was := clock.time;
        var wait := CooldownRemaining(bot, chat, false);
        LatestLater(history, bot, was, clock.time);
        if wait == 0 {
          LatestIsMaximum(history, bot, clock.time);
          return;
        }
        ghost var asleep := clock.time;
        clock.Sleep(wait);
        AgreesLater(states, history, asleep, clock.time);
        LatestLater(history, bot, asleep, clock.time);
        if i < |others| {
          RecordAll(others[i]);
        }
        i := i + 1;
      }
    }

    method RecordAll(limits: seq<RateLimit>)
      requires Valid()
      modifies this, clock
      ensures Valid() && clock.time >= old(clock.time)
      ensures history == old(history) + limits
    {
      for i := 0 to |limits|
        invariant Valid() && clock.time >= old(clock.time)
        invariant history == old(history) + limits[..i]
      {
        Record(limits[i].bot, limits[i].chat, limits[i].until);
        assert limits[..i + 1] == limits[..i] + [RateLimit(limits[i].bot, limits[i].chat, limits[i].until)];
      }
      assert limits[..|limits|] == limits;
    }
  }
}
