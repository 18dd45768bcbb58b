/** What the messages of a generation stream say, read off the JSON tree: which string becomes reply text, what
    finishes the reply, what refuses it, and what is not understood. */
module GenerationMeaning {
  import opened Wire
  import opened Sse
  import opened Generation

  // ---------------------------------------------------------------- members

  /** The first member named `key` has the value `v`; serde_json keeps one member per name. */
  ghost predicate Holds(members: seq<Member>, key: Name, v: Json) {
    exists i :: At(members, i, key, v)
  }

  predicate At(members: seq<Member>, i: int, key: Name, v: Json) {
    0 <= i < |members| && members[i] == Member(key, v) && forall j :: 0 <= j < i ==> members[j].key != key
  }

  predicate Lacks(members: seq<Member>, key: Name) { forall i :: 0 <= i < |members| ==> members[i].key != key }

  lemma {:induction false} GetMeaning(members: seq<Member>, key: Name)
    ensures Get(members, key).None? <==> Lacks(members, key)
    ensures forall v :: Get(members, key) == Some(v) <==> Holds(members, key, v)
  {
    if members != [] {
      var first, rest := members[0], members[1..];
      if first.key == key {
        HoldsFirst(members, key);
      } else {
        GetMeaning(rest, key);
        assert members == [first] + rest;
        forall v ensures Holds(members, key, v) <==> Holds(rest, key, v) {
          HoldsLater(members, key, v);
        }
      }
    }
  }

  lemma HoldsFirst(members: seq<Member>, key: Name)
    requires members != [] && members[0].key == key
    ensures forall v :: Holds(members, key, v) <==> v == members[0].value
  {
    assert At(members, 0, key, members[0].value);
  }

  lemma HoldsLater(members: seq<Member>, key: Name, v: Json)
    requires members != [] && members[0].key != key
    ensures Holds(members, key, v) <==> Holds(members[1..], key, v)
  {
    var rest := members[1..];
    if Holds(members, key, v) {
      var i :| At(members, i, key, v);
      assert At(rest, i - 1, key, v);
    }
    if Holds(rest, key, v) {
      var i :| At(rest, i, key, v);
      assert At(members, i + 1, key, v);
    }
  }

  // ---------------------------------------------------------------- the shape of a message

  lemma WordsAreSpelled()
    ensures DONE == Ascii("[DONE]") && STOP == Ascii("stop") && EOS == Ascii("eos") && END_TURN == Ascii("end_turn")
  {
  }

  /** The data is a JSON object, not blank and not the end mark. */
  predicate Parsed(data: Bytes, members: seq<Member>) {
    Trim(data) != [] && Trim(data) != DONE && ParseJson(Trim(data)) == Some(JObject(members))
  }

  /** Without an error: the first choice, which has no whole message, and its delta. */
  ghost predicate Opens(members: seq<Member>, choice: seq<Member>, delta: seq<Member>) {
    && Lacks(members, ErrorName)
    && (exists items :: Holds(members, Choices, JArray(items)) && items != [] && items[0] == JObject(choice))
    && Lacks(choice, MessageName)
    && Holds(choice, Delta, JObject(delta))
  }

  /** What a delta may hold: a role, and content or reasoning that is text or null. */
  predicate Fine(m: Member) {
    m.key == Role || ((m.key == Content || m.key == ReasoningContent) && (m.value.JNull? || m.value.JString?))
  }

  predicate AllFine(delta: seq<Member>) { forall i :: 0 <= i < |delta| ==> Fine(delta[i]) }

  /** The first member that is not fine calls a tool. */
  ghost predicate ToolFirst(delta: seq<Member>) {
    exists i :: ToolAt(delta, i)
  }

  predicate ToolAt(delta: seq<Member>, i: int) {
    && 0 <= i < |delta| && (delta[i].key == ToolCalls || delta[i].key == FunctionCall)
    && forall j :: 0 <= j < i ==> Fine(delta[j])
  }

  lemma {:induction false} CheckMeaning(delta: seq<Member>)
    ensures CheckDelta(delta) == Acceptable <==> AllFine(delta)
    ensures CheckDelta(delta) == ToolUse <==> ToolFirst(delta)
  {
    if delta != [] {
      var rest := delta[1..];
      CheckMeaning(rest);
      assert delta == [delta[0]] + rest;
      if Fine(delta[0]) {
        ToolLater(delta);
      } else if CheckDelta(delta) == ToolUse {
        assert ToolAt(delta, 0);
      }
    }
  }

  lemma ToolLater(delta: seq<Member>)
    requires delta != [] && Fine(delta[0])
    ensures ToolFirst(delta) <==> ToolFirst(delta[1..])
  {
    var rest := delta[1..];
    if ToolFirst(delta) {
      var i :| ToolAt(delta, i);
      assert ToolAt(rest, i - 1);
    }
    if ToolFirst(rest) {
      var i :| ToolAt(rest, i);
      assert ToolAt(delta, i + 1);
    }
  }

  /** A finish reason that is not blank. */
  ghost predicate FinishesWith(choice: seq<Member>, reason: Bytes) {
    Holds(choice, FinishReason, JString(reason)) && !Blank(reason)
  }

  ghost predicate NotFinished(choice: seq<Member>) {
    Lacks(choice, FinishReason) || Holds(choice, FinishReason, JNull)
  }

  lemma FinishMeaning(choice: seq<Member>)
    ensures FinishOf(choice) == NoFinish <==> NotFinished(choice)
    ensures forall r :: FinishOf(choice) == FinishWith(r) <==> FinishesWith(choice, r)
  {
    GetMeaning(choice, FinishReason);
  }

  /** The text a delta adds. */
  ghost predicate Adds(delta: seq<Member>, text: Bytes) { text != [] && Holds(delta, Content, JString(text)) }

  lemma TextMeaning(delta: seq<Member>, sequence: nat)
    ensures |DeltaEvents(delta, sequence)| <= 1
    ensures forall e :: e in DeltaEvents(delta, sequence) <==>
                        e.TextDelta? && e.sequence == sequence && Adds(delta, e.text)
  {
    GetMeaning(delta, Content);
  }

  // ---------------------------------------------------------------- what a message says

  /** A choice that can be read to its end. */
  ghost predicate Legible(choice: seq<Member>, delta: seq<Member>) {
    AllFine(delta) && (NotFinished(choice) || exists r :: FinishesWith(choice, r))
  }

  /** What the events of a legible choice are. */
  ghost predicate Tells(events: seq<GenEvent>, choice: seq<Member>, delta: seq<Member>, sequence: nat) {
    && (forall n, t :: TextDelta(n, t) in events <==> n == sequence && Adds(delta, t))
    && (forall r :: Finished(r) in events <==> FinishesWith(choice, r))
    && (Ignored in events <==> (forall t :: !Adds(delta, t)) && NotFinished(choice))
    && Refusal !in events
    && (|events| == 1 || (|events| == 2 && events[0].TextDelta? && events[1].Finished?))
    && (NotFinished(choice) ==> |events| == 1)
  }

  lemma ChoiceMeaning(choice: seq<Member>, delta: seq<Member>, sequence: nat)
    requires Lacks(choice, MessageName) && Holds(choice, Delta, JObject(delta))
    ensures var d := DecodeChoice(choice, sequence);
      && (ToolFirst(delta) ==> d == Events([Refusal]))
      && (Legible(choice, delta) ==> d.Events? && Tells(d.events, choice, delta, sequence))
      && (!ToolFirst(delta) && !Legible(choice, delta) ==> d == Malformed)
  {
    GetMeaning(choice, MessageName);
    GetMeaning(choice, Delta);
    CheckMeaning(delta);
    FinishMeaning(choice);
    if AllFine(delta) {
      LegibleMeaning(choice, delta, sequence);
    }
  }

  lemma LegibleMeaning(choice: seq<Member>, delta: seq<Member>, sequence: nat)
    ensures var text := DeltaEvents(delta, sequence);
      match FinishOf(choice)
      case BadFinish => !NotFinished(choice) && forall r :: !FinishesWith(choice, r)
      case FinishWith(reason) => FinishesWith(choice, reason) && Tells(text + [Finished(reason)], choice, delta, sequence)
      case NoFinish => NotFinished(choice) && Tells(if text == [] then [Ignored] else text, choice, delta, sequence)
  {
    FinishMeaning(choice);
    TextMeaning(delta, sequence);
    var text := DeltaEvents(delta, sequence);
    assert forall t :: Adds(delta, t) ==> TextDelta(sequence, t) in text;
    assert forall n, t :: TextDelta(n, t) in text <==> n == sequence && Adds(delta, t);
  }

  /** An object that opens on a choice and a delta says what they say. */
  lemma SpokenMeaning(data: Bytes, sequence: nat, members: seq<Member>, choice: seq<Member>, delta: seq<Member>)
    requires Parsed(data, members) && Opens(members, choice, delta)
    ensures var d := DecodeEvent(data, sequence);
      && (ToolFirst(delta) ==> d == Events([Refusal]))
      && (Legible(choice, delta) ==> d.Events? && Tells(d.events, choice, delta, sequence))
      && (!ToolFirst(delta) && !Legible(choice, delta) ==> d == Malformed)
  {
    OpensOnChoice(data, sequence, members, choice, delta);
    ChoiceMeaning(choice, delta, sequence);
  }

  lemma OpensOnChoice(data: Bytes, sequence: nat, members: seq<Member>, choice: seq<Member>, delta: seq<Member>)
    requires Parsed(data, members) && Opens(members, choice, delta)
    ensures DecodeEvent(data, sequence) == DecodeChoice(choice, sequence)
  {
    GetMeaning(members, ErrorName);
    GetMeaning(members, Choices);
  }

  ghost predicate Speaking(data: Bytes) {
    exists members, choice, delta :: Parsed(data, members) && Opens(members, choice, delta)
  }

  /** Metadata beside an empty list of choices, and nothing the bridge does not know. */
  ghost predicate OnlyMetadata(members: seq<Member>) {
    && Holds(members, Choices, JArray([]))
    && (forall i :: 0 <= i < |members| ==>
          members[i].key in {Choices, Usage, Id, Object, Created, ModelName, SystemFingerprint})
    && (exists i :: 0 <= i < |members| && members[i].key != Choices)
  }

  ghost predicate Errs(data: Bytes) { exists members :: Parsed(data, members) && !Lacks(members, ErrorName) }

  ghost predicate Metadata(data: Bytes) { exists members :: Parsed(data, members) && OnlyMetadata(members) }

  /** Everything else: blank data and metadata are passed over, [DONE] finishes with "stop", an error refuses, and
      the rest is not understood. */
  lemma SilentMeaning(data: Bytes, sequence: nat)
    requires !Speaking(data)
    ensures DecodeEvent(data, sequence) ==
            if Trim(data) == [] then Events([Ignored])
            else if Trim(data) == DONE then Events([Finished(STOP)])
            else if Errs(data) then Events([Refusal])
            else if Metadata(data) then Events([Ignored])
            else Malformed
  {
    if Trim(data) != [] && Trim(data) != DONE {
      var parsed := ParseJson(Trim(data));
      if parsed.Some? && parsed.value.JObject? {
        assert Parsed(data, parsed.value.members);
        UnspokenMeaning(data, sequence, parsed.value.members);
      }
    }
  }

  lemma UnspokenMeaning(data: Bytes, sequence: nat, members: seq<Member>)
    requires Parsed(data, members) && !Speaking(data)
    ensures DecodeEvent(data, sequence) ==
            if !Lacks(members, ErrorName) then Events([Refusal])
            else if OnlyMetadata(members) then Events([Ignored])
            else Malformed
  {
    GetMeaning(members, ErrorName);
    GetMeaning(members, Choices);
    var choices := Get(members, Choices);
    if Lacks(members, ErrorName) && choices.Some? && choices.value.JArray? && choices.value.items != [] {
      var items := choices.value.items;
      assert Holds(members, Choices, JArray(items));
      if items[0].JObject? {
        var choice := items[0].members;
        GetMeaning(choice, MessageName);
        GetMeaning(choice, Delta);
        var delta := Get(choice, Delta);
        if Lacks(choice, MessageName) && delta.Some? && delta.value.JObject? {
          assert Opens(members, choice, delta.value.members);
        }
      }
    }
  }

  /** A message refuses the generation exactly when it has an error member, or when the first member of its delta
      that is not fine calls a tool. */
  lemma RefusalMeaning(data: Bytes, sequence: nat)
    ensures var d := DecodeEvent(data, sequence);
      d.Events? && Refusal in d.events <==>
      Errs(data) || exists members, choice, delta :: Parsed(data, members) && Opens(members, choice, delta) && ToolFirst(delta)
  {
    if Speaking(data) {
      var members, choice, delta :| Parsed(data, members) && Opens(members, choice, delta);
      SpokenMeaning(data, sequence, members, choice, delta);
      OneReading(data, members, choice, delta);
    } else {
      SilentMeaning(data, sequence);
    }
  }

  /** A message opens on at most one choice and delta. */
  lemma OneReading(data: Bytes, members: seq<Member>, choice: seq<Member>, delta: seq<Member>)
    requires Parsed(data, members) && Opens(members, choice, delta)
    ensures forall m, c, d :: Parsed(data, m) && Opens(m, c, d) ==> m == members && c == choice && d == delta
  {
    GetMeaning(members, Choices);
    GetMeaning(choice, Delta);
  }

  // ---------------------------------------------------------------- whole messages and replies

  /** Spelled like this word, in letters of either case. */
  predicate SpeltError(e: Bytes) {
    |e| == 5 && forall i :: 0 <= i < 5 ==> e[i] == Ascii("error")[i] || e[i] == Ascii("ERROR")[i]
  }

  lemma ErrorEvents(event: Option<Bytes>)
    ensures IsError(event) <==> event.Some? && SpeltError(event.value)
  {
    assert ERROR == Ascii("error");
    assert forall i :: 0 <= i < 5 ==> Ascii("ERROR")[i] == ERROR[i] - 32 && 97 <= ERROR[i] <= 122;
    if event.Some? && |event.value| == 5 {
      var e := event.value;
      forall i | 0 <= i < 5
        ensures Lower(e[i]) == Lower(ERROR[i]) <==> e[i] == Ascii("error")[i] || e[i] == Ascii("ERROR")[i]
      {
        assert Lower(ERROR[i]) == ERROR[i];
      }
    }
  }

  /** An error event refuses whatever its data; the rest are numbered from one and read by their data, and only
      [DONE] ends the stream. */
  lemma MessageMeaning(event: Option<Bytes>, data: Bytes, sequence: nat)
    ensures ReadMessage(event, data, sequence) ==
            if event.Some? && SpeltError(event.value) then Unreadable(Rejected)
            else if sequence + 1 >= U64_LIMIT then Unreadable(StreamInvalid)
            else
              var d := DecodeEvent(data, sequence + 1);
              if d.Malformed? then Unreadable(StreamInvalid) else Said(d.events, Trim(data) == Ascii("[DONE]"))
  {
    ErrorEvents(event);
    WordsAreSpelled();
  }

  lemma AcceptedReasons(reason: Bytes)
    ensures Accepted(reason) <==> reason == Ascii("stop") || reason == Ascii("eos") || reason == Ascii("end_turn")
  {
    WordsAreSpelled();
  }

  /** A reply has a text that is not blank and at most four mebibytes, and a finish reason the bridge accepts. */
  lemma RepliesAreProper(inputs: seq<Input>)
    requires Generate(FRESH, START, inputs).reply.Reply?
    ensures var reply := Generate(FRESH, START, inputs).reply;
      && !Blank(reply.text) && |reply.text| <= 4194304
      && (reply.reason == Ascii("stop") || reply.reason == Ascii("eos") || reply.reason == Ascii("end_turn"))
  {
    var reply := Generate(FRESH, START, inputs).reply;
    ReplyIsWhatWasStreamed(inputs, reply.text, reply.reason);
    AcceptedReasons(reply.reason);
  }
}
