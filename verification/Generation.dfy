/** Turning a generation stream into a reply: decoding each event's JSON and folding the deltas. */
module Generation {
  import opened Wire
  import opened Sse

  const GENERATION_MAX_TEXT_BYTES: nat := 4 * 1024 * 1024
  const SSE_MAX_LINE_BYTES: nat := 64 * 1024
  const SSE_MAX_EVENT_BYTES: nat := 256 * 1024

  // ---------------------------------------------------------------- JSON values

  datatype Json =
    | JNull
    | JBool(b: bool)
    | JNumber(literal: Bytes)
    | JString(text: Bytes)
    | JArray(items: seq<Json>)
    | JObject(members: seq<Member>)

  /** The member names the bridge knows, and all others. */
  datatype Name =
    | ErrorName | Choices | Usage | Id | Object | Created | ModelName | SystemFingerprint
    | MessageName | Delta | Role | Content | ReasoningContent | ToolCalls | FunctionCall | FinishReason
    | OtherName(spelling: Bytes)

  /** Members in iteration order; names are distinct. */
  datatype Member = Member(key: Name, value: Json)

  /** serde_json::from_str */
  const ParseJson: Bytes -> Option<Json>

  function Get(members: seq<Member>, key: Name): Option<Json> {
    if members == [] then None
    else if members[0].key == key then Some(members[0].value)
    else Get(members[1..], key)
  }

  // ---------------------------------------------------------------- names

  const DONE: Bytes := [91, 68, 79, 78, 69, 93]                                        // "[DONE]"
  const STOP: Bytes := [115, 116, 111, 112]                                            // "stop"
  const EOS: Bytes := [101, 111, 115]                                                  // "eos"
  const END_TURN: Bytes := [101, 110, 100, 95, 116, 117, 114, 110]                     // "end_turn"
  const ERROR: Bytes := [101, 114, 114, 111, 114]                                      // "error"

  // ---------------------------------------------------------------- one event

  function Lower(b: Byte): Byte { if 65 <= b <= 90 then b + 32 else b }

  predicate EqualsIgnoreCase(a: Bytes, b: Bytes) {
    |a| == |b| && forall i :: 0 <= i < |a| ==> Lower(a[i]) == Lower(b[i])
  }

  datatype GenEvent =
    | Ignored
    | TextDelta(sequence: nat, text: Bytes)
    | Finished(reason: Bytes)
    | Refusal

  datatype Decoded = Events(events: seq<GenEvent>) | Malformed

  predicate TextOrNull(v: Json) { v.JNull? || v.JString? }

  datatype DeltaCheck = Acceptable | ToolUse | BadDelta

  /** The key loop over a delta object; the first offending key decides. */
  function CheckDelta(members: seq<Member>): DeltaCheck {
    if members == [] then Acceptable
    else
      var k := members[0].key;
      if k == Role then CheckDelta(members[1..])
      else if k == Content || k == ReasoningContent then
        if TextOrNull(members[0].value) then CheckDelta(members[1..]) else BadDelta
      else if k == ToolCalls || k == FunctionCall then ToolUse
      else BadDelta
  }

  predicate MetadataOnly(members: seq<Member>) {
    && (forall i :: 0 <= i < |members| ==>
          members[i].key in {Choices, Usage, Id, Object, Created, ModelName, SystemFingerprint})
    && (exists i :: 0 <= i < |members| && members[i].key != Choices)
  }

  function DeltaEvents(delta: seq<Member>, sequence: nat): seq<GenEvent> {
    match Get(delta, Content)
    case Some(JString(text)) => if text != [] then [TextDelta(sequence, text)] else []
    case _ => []
  }

  datatype Finish = NoFinish | FinishWith(reason: Bytes) | BadFinish

  function FinishOf(choice: seq<Member>): Finish {
    match Get(choice, FinishReason)
    case None => NoFinish
    case Some(JNull) => NoFinish
    case Some(JString(reason)) => if Blank(reason) then BadFinish else FinishWith(reason)
    case Some(_) => BadFinish
  }

  function DecodeChoice(choice: seq<Member>, sequence: nat): Decoded {
    if Get(choice, MessageName).Some? then Malformed
    else match Get(choice, Delta)
      case Some(JObject(delta)) =>
        (match CheckDelta(delta)
         case ToolUse => Events([Refusal])
         case BadDelta => Malformed
         case Acceptable =>
           var text := DeltaEvents(delta, sequence);
           match FinishOf(choice)
           case BadFinish => Malformed
           case FinishWith(reason) => Events(text + [Finished(reason)])
           case NoFinish => Events(if text == [] then [Ignored] else text))
      case _ => Malformed
  }

  /** `decode_st_generation_event` */
  function DecodeEvent(data: Bytes, sequence: nat): Decoded {
    var trimmed := Trim(data);
    if trimmed == [] then Events([Ignored])
    else if trimmed == DONE then Events([Finished(STOP)])
    else match ParseJson(trimmed)
      case None => Malformed
      case Some(JObject(members)) =>
        if Get(members, ErrorName).Some? then Events([Refusal])
        else (match Get(members, Choices)
          case Some(JArray(items)) =>
            if items == [] then (if MetadataOnly(members) then Events([Ignored]) else Malformed)
            else (match items[0]
              case JObject(choice) => DecodeChoice(choice, sequence)
              case _ => Malformed)
          case _ => Malformed)
      case Some(_) => Malformed
  }

  predicate Accepted(reason: Bytes) { reason == STOP || reason == EOS || reason == END_TURN }

  /** One event carries at most one delta, in front. */
  lemma OneDeltaPerEvent(data: Bytes, sequence: nat)
    ensures var d := DecodeEvent(data, sequence);
      d.Events? ==> d.events != [] && forall i :: 1 <= i < |d.events| ==> !d.events[i].TextDelta?
    ensures var d := DecodeEvent(data, sequence);
      d.Events? && d.events[0].TextDelta? ==> d.events[0].sequence == sequence && d.events[0].text != []
  {
  }

  // ---------------------------------------------------------------- the fold

  datatype FailureCode = StreamInvalid | Rejected | Empty | HardTimeout | IdleTimeout

  datatype Progress = Progress(sequence: nat, text: Bytes, fullText: Bytes)

  datatype Fold = Fold(text: Bytes, terminal: Option<Bytes>, sequence: nat, progress: seq<Progress>)

  const START: Fold := Fold([], None, 0, [])

  datatype FoldResult = Going(fold: Fold) | Failed(code: FailureCode)

  /** One decoded event; after the first Finished only harmless repeats are tolerated. */
  function GenStep(f: Fold, e: GenEvent): FoldResult {
    if f.terminal.Some? then
      match e
      case Ignored => Going(f)
      case Finished(reason) => if reason == STOP || reason == f.terminal.value then Going(f) else Failed(StreamInvalid)
      case TextDelta(_, _) => Failed(StreamInvalid)
      case Refusal => Failed(Rejected)
    else
      match e
      case Ignored => Going(f)
      case TextDelta(_, text) =>
        if |f.text| + |text| > GENERATION_MAX_TEXT_BYTES then Failed(StreamInvalid)
        else Going(f.(text := f.text + text, progress := f.progress + [Progress(f.sequence, text, f.text + text)]))
      case Finished(reason) => Going(f.(terminal := Some(reason)))
      case Refusal => Failed(Rejected)
  }

  function GenSteps(f: Fold, es: seq<GenEvent>): FoldResult
    decreases |es|
  {
    if es == [] then Going(f)
    else match GenStep(f, es[0])
      case Failed(c) => Failed(c)
      case Going(g) => GenSteps(g, es[1..])
  }

  predicate IsError(event: Option<Bytes>) {
    event.Some? && EqualsIgnoreCase(event.value, ERROR)
  }

  datatype Consumed = Running(fold: Fold) | Stopped(fold: Fold) | Broke(code: FailureCode)

  /** What one SSE message says: its decoded events and whether it is [DONE]. */
  datatype Reading = Unreadable(code: FailureCode) | Said(events: seq<GenEvent>, done: bool)

  function ReadMessage(event: Option<Bytes>, data: Bytes, sequence: nat): Reading {
    if IsError(event) then Unreadable(Rejected)
    else if sequence + 1 >= U64_LIMIT then Unreadable(StreamInvalid)
    else match DecodeEvent(data, sequence + 1)
      case Malformed => Unreadable(StreamInvalid)
      case Events(es) => Said(es, Trim(data) == DONE)
  }

  /** One SSE message. */
  function MessageStep(f: Fold, r: Reading): Consumed {
    match r
    case Unreadable(code) => Broke(code)
    case Said(es, done) =>
      match GenSteps(f.(sequence := f.sequence + 1), es)
      case Failed(c) => Broke(c)
      case Going(g) => if done then Stopped(g) else Running(g)
  }

  function Consume(f: Fold, events: seq<SseEvent>): Consumed
    decreases |events|
  {
    if events == [] then Running(f)
    else match events[0]
      case Heartbeat => Consume(f, events[1..])
      case Message(event, data) =>
        match MessageStep(f, ReadMessage(event, data, f.sequence))
        case Running(g) => Consume(g, events[1..])
        case other => other
  }

  datatype Input = Chunk(bytes: Bytes) | Interruption(code: FailureCode)

  datatype Reply = Reply(text: Bytes, reason: Bytes) | NoReply(code: FailureCode)

  const LIMITS: Limits := Limits(SSE_MAX_LINE_BYTES, SSE_MAX_EVENT_BYTES)

  /** The checks after the stream loop. */
  function Conclude(d: Decoder, f: Fold): Reply {
    if (!d.bomChecked && d.bomPrefix != []) || d.line != [] || d.frame.data != [] || d.frame.event.Some?
    then NoReply(StreamInvalid)
    else if f.terminal.None? || !Accepted(f.terminal.value) then NoReply(StreamInvalid)
    else if Blank(f.text) then NoReply(Empty)
    else Reply(f.text, f.terminal.value)
  }

  datatype Run = Run(reply: Reply, fold: Fold)

  /** The stream loop over arriving chunks; the end of the list is the end of the response. */
  function Generate(d: Decoder, f: Fold, inputs: seq<Input>): Run
    decreases |inputs|
  {
    if inputs == [] then Run(Conclude(d, f), f)
    else match inputs[0]
      case Interruption(code) => Run(NoReply(code), f)
      case Chunk(bytes) =>
        match Push(d, bytes, LIMITS)
        case Err(_) => Run(NoReply(StreamInvalid), f)
        case Ok(o) =>
          match Consume(f, o.events)
          case Broke(code) => Run(NoReply(code), f)
          case Stopped(g) => Run(Conclude(o.decoder, g), g)
          case Running(g) => Generate(o.decoder, g, inputs[1..])
  }

  // ---------------------------------------------------------------- what the fold means

  /** Index of the first Finished, or the length when there is none. */
  function FirstFinish(es: seq<GenEvent>): (k: nat)
    ensures k <= |es|
    ensures k < |es| ==> es[k].Finished?
    ensures forall i :: 0 <= i < k ==> !es[i].Finished?
  {
    if es == [] || es[0].Finished? then 0 else 1 + FirstFinish(es[1..])
  }

  /** All the delta text, in order. */
  function TextOf(es: seq<GenEvent>): Bytes {
    if es == [] then []
    else (if es[0].TextDelta? then es[0].text else []) + TextOf(es[1..])
  }

  predicate Harmless(e: GenEvent, reason: Bytes) {
    e.Ignored? || (e.Finished? && (e.reason == STOP || e.reason == reason))
  }

  /** The event lists the fold lets through, from a text of length `had`. */
  predicate Admissible(es: seq<GenEvent>, had: nat) {
    var k := FirstFinish(es);
    && (forall i :: 0 <= i < k ==> !es[i].Refusal?)
    && had + |TextOf(es[..k])| <= GENERATION_MAX_TEXT_BYTES
    && (k < |es| ==> forall i :: k < i < |es| ==> Harmless(es[i], es[k].reason))
  }

  lemma {:induction false} AfterTheFinish(f: Fold, es: seq<GenEvent>)
    requires f.terminal.Some?
    ensures GenSteps(f, es).Going? <==> forall i :: 0 <= i < |es| ==> Harmless(es[i], f.terminal.value)
    ensures GenSteps(f, es).Going? ==> GenSteps(f, es).fold == f
    decreases |es|
  {
    if es != [] && GenStep(f, es[0]).Going? {
      AfterTheFinish(f, es[1..]);
      assert es == [es[0]] + es[1..];
    }
  }

  /** The fold succeeds exactly on admissible lists; its text is the deltas before the first Finished. */
  lemma {:induction false} FoldMeaning(f: Fold, es: seq<GenEvent>)
    requires f.terminal.None? && |f.text| <= GENERATION_MAX_TEXT_BYTES
    ensures GenSteps(f, es).Going? <==> Admissible(es, |f.text|)
    ensures GenSteps(f, es).Going? ==>
              var g := GenSteps(f, es).fold;
              var k := FirstFinish(es);
              && g.text == f.text + TextOf(es[..k])
              && g.terminal == (if k < |es| then Some(es[k].reason) else None)
    decreases |es|
  {
    if es != [] {
      if es[0].Finished? {
        FinishedFirst(f, es);
      } else if GenStep(f, es[0]).Going? {
        FoldMeaning(GenStep(f, es[0]).fold, es[1..]);
        AdmissibleTail(es, |f.text|);
      } else {
        AdmissibleTail(es, |f.text|);
      }
    }
  }

  /** A Finished in front: no text before it, and only harmless events after it. */
  lemma FinishedFirst(f: Fold, es: seq<GenEvent>)
    requires f.terminal.None? && |f.text| <= GENERATION_MAX_TEXT_BYTES && es != [] && es[0].Finished?
    ensures FirstFinish(es) == 0 && TextOf(es[..0]) == []
    ensures GenSteps(f, es).Going? <==> Admissible(es, |f.text|)
    ensures GenSteps(f, es).Going? ==> GenSteps(f, es).fold == f.(terminal := Some(es[0].reason))
  {
    AfterTheFinish(f.(terminal := Some(es[0].reason)), es[1..]);
    assert forall i :: 0 < i < |es| ==> es[i] == es[1..][i - 1];
    assert forall i :: 0 <= i < |es| - 1 ==> es[1..][i] == es[i + 1];
  }

  function DeltaText(e: GenEvent): Bytes { if e.TextDelta? then e.text else [] }

  lemma TextTail(es: seq<GenEvent>)
    requires es != [] && !es[0].Finished?
    ensures var k := FirstFinish(es);
      && k == 1 + FirstFinish(es[1..])
      && TextOf(es[..k]) == DeltaText(es[0]) + TextOf(es[1..][..k - 1])
  {
    var k := FirstFinish(es);
    assert es[..k][0] == es[0] && es[..k][1..] == es[1..][..k - 1];
  }

  /** Admissibility and text, one event further on. */
  lemma AdmissibleTail(es: seq<GenEvent>, had: nat)
    requires es != [] && !es[0].Finished?
    ensures var k := FirstFinish(es);
      && k == 1 + FirstFinish(es[1..])
      && TextOf(es[..k]) == DeltaText(es[0]) + TextOf(es[1..][..k - 1])
      && (Admissible(es, had) <==> !es[0].Refusal? && Admissible(es[1..], had + |DeltaText(es[0])|))
  {
    TextTail(es);
    var k, tail := FirstFinish(es), es[1..];
    assert forall i :: 0 <= i < |tail| ==> tail[i] == es[i + 1];
    if Admissible(tail, had + |DeltaText(es[0])|) && !es[0].Refusal? {
      assert forall i :: 0 < i < |es| ==> es[i] == tail[i - 1];
    }
  }

  /** The messages read in order, up to and including the first unreadable one or [DONE]. */
  function Readings(events: seq<SseEvent>, sequence: nat): seq<Reading>
    decreases |events|
  {
    if events == [] then []
    else match events[0]
      case Heartbeat => Readings(events[1..], sequence)
      case Message(event, data) =>
        var r := ReadMessage(event, data, sequence);
        [r] + if r.Unreadable? || r.done then [] else Readings(events[1..], sequence + 1)
  }

  /** No error event, nothing undecodable and no counter overflow. */
  predicate Readable(rs: seq<Reading>) { forall i :: 0 <= i < |rs| ==> rs[i].Said? }

  /** Everything the messages say. */
  function Yield(rs: seq<Reading>): seq<GenEvent> {
    if rs == [] then [] else (if rs[0].Said? then rs[0].events else []) + Yield(rs[1..])
  }

  function ConsumeReadings(f: Fold, rs: seq<Reading>): Consumed
    decreases |rs|
  {
    if rs == [] then Running(f)
    else match MessageStep(f, rs[0])
      case Running(g) => ConsumeReadings(g, rs[1..])
      case other => other
  }

  predicate SameText(f: Fold, g: Fold) { f.text == g.text && f.terminal == g.terminal }

  /** Text and verdict do not depend on the counter or on what was reported. */
  lemma {:induction false} StepsAgree(f: Fold, g: Fold, es: seq<GenEvent>)
    requires SameText(f, g)
    ensures GenSteps(f, es).Going? <==> GenSteps(g, es).Going?
    ensures GenSteps(f, es).Going? ==> SameText(GenSteps(f, es).fold, GenSteps(g, es).fold)
    decreases |es|
  {
    if es != [] && GenStep(f, es[0]).Going? {
      StepsAgree(GenStep(f, es[0]).fold, GenStep(g, es[0]).fold, es[1..]);
    }
  }

  lemma {:induction false} StepsSplit(f: Fold, x: seq<GenEvent>, y: seq<GenEvent>)
    ensures GenSteps(f, x + y) ==
            match GenSteps(f, x)
            case Failed(c) => Failed(c)
            case Going(g) => GenSteps(g, y)
    decreases |x|
  {
    if x == [] {
      assert x + y == y;
    } else {
      assert (x + y)[1..] == x[1..] + y;
      if GenStep(f, x[0]).Going? {
        StepsSplit(GenStep(f, x[0]).fold, x[1..], y);
      }
    }
  }

  lemma {:induction false} StepsKeepSequence(f: Fold, es: seq<GenEvent>)
    ensures GenSteps(f, es).Going? ==> GenSteps(f, es).fold.sequence == f.sequence
    decreases |es|
  {
    if es != [] && GenStep(f, es[0]).Going? {
      StepsKeepSequence(GenStep(f, es[0]).fold, es[1..]);
    }
  }

  /** Only the last reading ends the list. */
  predicate OpenUntilLast(rs: seq<Reading>) {
    forall i :: 0 <= i < |rs| - 1 ==> rs[i].Said? && !rs[i].done
  }

  lemma {:induction false} ReadingsAreOpen(events: seq<SseEvent>, sequence: nat)
    ensures OpenUntilLast(Readings(events, sequence))
    decreases |events|
  {
    if events != [] {
      ReadingsAreOpen(events[1..], sequence);
      ReadingsAreOpen(events[1..], sequence + 1);
    }
  }

  lemma StepKeepsSequence(f: Fold, r: Reading)
    ensures var c := MessageStep(f, r); c.Running? ==> c.fold.sequence == f.sequence + 1 && r.Said? && !r.done
  {
    if r.Said? {
      StepsKeepSequence(f.(sequence := f.sequence + 1), r.events);
    }
  }

  lemma ConsumeCons(f: Fold, r: Reading, rest: seq<Reading>)
    ensures var c := MessageStep(f, r);
      ConsumeReadings(f, [r] + rest) == if c.Running? then ConsumeReadings(c.fold, rest) else c
  {
    assert ([r] + rest)[1..] == rest;
  }

  /** A message in front is read once, by the loop and by the list alike. */
  lemma FirstReading(f: Fold, events: seq<SseEvent>) returns (r: Reading, rest: seq<Reading>)
    requires events != [] && events[0].Message?
    ensures Readings(events, f.sequence) == [r] + rest
    ensures r.Said? && !r.done ==> rest == Readings(events[1..], f.sequence + 1)
    ensures var c := MessageStep(f, r); Consume(f, events) == if c.Running? then Consume(c.fold, events[1..]) else c
  {
    r := ReadMessage(events[0].event, events[0].data, f.sequence);
    rest := if r.Unreadable? || r.done then [] else Readings(events[1..], f.sequence + 1);
  }

  lemma {:induction false} ConsumeIsReadings(f: Fold, events: seq<SseEvent>)
    ensures Consume(f, events) == ConsumeReadings(f, Readings(events, f.sequence))
    decreases |events|
  {
    if events != [] {
      if events[0].Heartbeat? {
        ConsumeIsReadings(f, events[1..]);
      } else {
        var r, rest := FirstReading(f, events);
        ConsumeCons(f, r, rest);
        StepKeepsSequence(f, r);
        var c := MessageStep(f, r);
        if c.Running? {
          ConsumeIsReadings(c.fold, events[1..]);
        }
      }
    }
  }

  /** Handling messages as they come is reading them all and folding the lot. */
  lemma {:induction false} ReadingsMeaning(f: Fold, rs: seq<Reading>)
    requires OpenUntilLast(rs)
    ensures var c := ConsumeReadings(f, rs);
      !c.Broke? <==> Readable(rs) && GenSteps(f, Yield(rs)).Going?
    ensures var c := ConsumeReadings(f, rs);
      !c.Broke? ==> SameText(c.fold, GenSteps(f, Yield(rs)).fold)
    decreases |rs|
  {
    if rs != [] {
      assert rs == [rs[0]] + rs[1..];
      if rs[0].Said? {
        var f' := f.(sequence := f.sequence + 1);
        StepsAgree(f, f', rs[0].events);
        StepsSplit(f, rs[0].events, Yield(rs[1..]));
        var g, h := GenSteps(f', rs[0].events), GenSteps(f, rs[0].events);
        if g.Going? {
          ReadingsMeaning(g.fold, rs[1..]);
          StepsAgree(h.fold, g.fold, Yield(rs[1..]));
        }
      }
    }
  }

  // ---------------------------------------------------------------- whole runs

  /** How many inputs the stream loop takes before it leaves. */
  function Taken(d: Decoder, f: Fold, inputs: seq<Input>): (k: nat)
    ensures k <= |inputs|
    decreases |inputs|
  {
    if inputs == [] || inputs[0].Interruption? then 0
    else match Push(d, inputs[0].bytes, LIMITS)
      case Err(_) => 1
      case Ok(o) =>
        match Consume(f, o.events)
        case Running(g) => 1 + Taken(o.decoder, g, inputs[1..])
        case _ => 1
  }

  /** The response bytes among the inputs. */
  function Body(inputs: seq<Input>): Bytes {
    if inputs == [] then []
    else (if inputs[0].Chunk? then inputs[0].bytes else []) + Body(inputs[1..])
  }

  lemma {:induction false} BodySplits(x: seq<Input>, y: seq<Input>)
    ensures Body(x + y) == Body(x) + Body(y)
    decreases |x|
  {
    if x == [] {
      assert x + y == y;
    } else {
      assert (x + y)[1..] == x[1..] + y;
      BodySplits(x[1..], y);
    }
  }

  lemma {:induction false} ConsumeSplits(f: Fold, x: seq<SseEvent>, y: seq<SseEvent>)
    ensures Consume(f, x + y) ==
            match Consume(f, x)
            case Running(g) => Consume(g, y)
            case other => other
    decreases |x|
  {
    if x == [] {
      assert x + y == y;
    } else {
      assert (x + y)[1..] == x[1..] + y;
      if x[0].Heartbeat? {
        ConsumeSplits(f, x[1..], y);
      } else {
        var m := MessageStep(f, ReadMessage(x[0].event, x[0].data, f.sequence));
        if m.Running? {
          ConsumeSplits(m.fold, x[1..], y);
        }
      }
    }
  }

  /** The chunks a run takes, read as one, decode and fold, and the run left them for a good reason:
      it saw [DONE] or the response ended. */
  ghost predicate Settles(d: Decoder, f: Fold, inputs: seq<Input>) {
    var k := Taken(d, f, inputs);
    var push := Push(d, Body(inputs[..k]), LIMITS);
    && push.Ok?
    && var c := Consume(f, push.value.events);
       !c.Broke? && (c.Running? ==> k == |inputs|)
  }

  /** What a settled run concludes from. */
  ghost function Conclusion(d: Decoder, f: Fold, inputs: seq<Input>): Run
    requires Settles(d, f, inputs)
  {
    var push := Push(d, Body(inputs[..Taken(d, f, inputs)]), LIMITS);
    var c := Consume(f, push.value.events);
    Run(Conclude(push.value.decoder, c.fold), c.fold)
  }

  /** A run that settles concludes from all it took at once; any other run fails. */
  lemma {:induction false} RunReadsAsOne(d: Decoder, f: Fold, inputs: seq<Input>)
    requires Coherent(d)
    ensures Settles(d, f, inputs) ==> Generate(d, f, inputs) == Conclusion(d, f, inputs)
    ensures !Settles(d, f, inputs) ==> Generate(d, f, inputs).reply.NoReply?
    decreases |inputs|
  {
    var k := Taken(d, f, inputs);
    var taken := inputs[..k];
    if inputs == [] || inputs[0].Interruption? {
      assert taken == [];
      assert d.bomPrefix + [] == d.bomPrefix;
    } else {
      var b := inputs[0].bytes;
      assert taken[0] == inputs[0];
      var rest := Body(taken[1..]);
      assert Body(taken) == b + rest;
      PushKeepsCoherent(d, b, LIMITS);
      PushSplits(d, b, rest, LIMITS);
      if k == 1 {
        assert taken[1..] == [];
        assert b + rest == b;
      }
      if Push(d, b, LIMITS).Ok? {
        ChunkThenRest(d, f, inputs, Push(d, b, LIMITS).value);
      }
    }
  }

  /** The step of RunReadsAsOne over a chunk that decodes. */
  lemma {:induction false} ChunkThenRest(d: Decoder, f: Fold, inputs: seq<Input>, o: Out)
    requires Coherent(d) && inputs != [] && inputs[0].Chunk? && Push(d, inputs[0].bytes, LIMITS) == Ok(o)
    ensures Settles(d, f, inputs) ==> Generate(d, f, inputs) == Conclusion(d, f, inputs)
    ensures !Settles(d, f, inputs) ==> Generate(d, f, inputs).reply.NoReply?
    decreases |inputs|, 0
  {
    var taken := inputs[..Taken(d, f, inputs)];
    assert taken[0] == inputs[0];
    PushKeepsCoherent(d, inputs[0].bytes, LIMITS);
    var c := Consume(f, o.events);
    if c.Running? {
      assert taken[1..] == inputs[1..][..Taken(o.decoder, c.fold, inputs[1..])];
      RunReadsAsOne(o.decoder, c.fold, inputs[1..]);
      PushThenRest(d, f, inputs[0].bytes, o, Body(taken[1..]));
    } else {
      assert taken == [inputs[0]];
      LoneChunk(inputs[0].bytes);
    }
  }

  lemma LoneChunk(b: Bytes)
    ensures Body([Chunk(b)]) == b
  {
    assert [Chunk(b)][1..] == [];
    assert b + [] == b;
  }

  /** Decoding and consuming a chunk and then the rest is doing so with both at once. */
  lemma PushThenRest(d: Decoder, f: Fold, b: Bytes, o: Out, rest: Bytes)
    requires Coherent(d) && Push(d, b, LIMITS) == Ok(o) && Consume(f, o.events).Running?
    ensures var later, both := Push(o.decoder, rest, LIMITS), Push(d, b + rest, LIMITS);
      && (both.Ok? <==> later.Ok?)
      && (both.Ok? ==>
            && both.value.decoder == later.value.decoder
            && Consume(f, both.value.events) == Consume(Consume(f, o.events).fold, later.value.events))
  {
    PushSplits(d, b, rest, LIMITS);
    var later := Push(o.decoder, rest, LIMITS);
    if later.Ok? {
      ConsumeSplits(f, o.events, later.value.events);
    }
  }

  /** The conditions on the response bytes under which a reply is made of them. */
  ghost predicate Speaks(bytes: Bytes, text: Bytes, reason: Bytes) {
    var r := Reference(bytes, LIMITS);
    && r.Ok?
    && var d := r.value.decoder;
       var said := Readings(r.value.events, 0);
       var gens := Yield(said);
       var k := FirstFinish(gens);
       && (d.bomChecked || d.bomPrefix == []) && d.line == [] && d.frame.data == [] && d.frame.event.None?
       && Readable(said)
       && Admissible(gens, 0)
       && k < |gens| && gens[k] == Finished(reason) && Accepted(reason)
       && text == TextOf(gens[..k]) && !Blank(text)
  }

  /** The bytes a whole run takes. */
  function TakenBody(inputs: seq<Input>): Bytes { Body(inputs[..Taken(FRESH, START, inputs)]) }

  /** The run stopped taking chunks because it saw [DONE], or because the response ended. */
  ghost predicate EndsProperly(inputs: seq<Input>) {
    var push := Push(FRESH, TakenBody(inputs), LIMITS);
    push.Ok? && Consume(START, push.value.events).Running? ==> Taken(FRESH, START, inputs) == |inputs|
  }

  /** However a response is cut and interrupted, a run answers with a text exactly when the bytes it took
      speak that text and it ended properly. */
  lemma ReplyIsWhatWasStreamed(inputs: seq<Input>, text: Bytes, reason: Bytes)
    ensures Generate(FRESH, START, inputs).reply == Reply(text, reason) <==>
            Speaks(TakenBody(inputs), text, reason) && EndsProperly(inputs)
  {
    RunReadsAsOne(FRESH, START, inputs);
    OneChunkSpeaks(TakenBody(inputs), text, reason);
  }

  lemma OneChunkSpeaks(bytes: Bytes, text: Bytes, reason: Bytes)
    ensures Push(FRESH, bytes, LIMITS) == Reference(bytes, LIMITS)
    ensures Speaks(bytes, text, reason) <==>
            var push := Push(FRESH, bytes, LIMITS);
            && push.Ok?
            && var c := Consume(START, push.value.events);
               !c.Broke? && Conclude(push.value.decoder, c.fold) == Reply(text, reason)
  {
    ChunkingIsInvisible([bytes], LIMITS);
    ManyPushesAreOne(FRESH, [bytes], LIMITS);
    assert Flatten([bytes]) == bytes + [] == bytes;
    var push := Push(FRESH, bytes, LIMITS);
    if push.Ok? {
      var events := push.value.events;
      var said := Readings(events, 0);
      ConsumeIsReadings(START, events);
      ReadingsAreOpen(events, 0);
      ReadingsMeaning(START, said);
      FoldMeaning(START, Yield(said));
      var gens := Yield(said);
      assert [] + TextOf(gens[..FirstFinish(gens)]) == TextOf(gens[..FirstFinish(gens)]);
    }
  }

  /** Once a prefix of the bytes has settled the outcome, more bytes do not change it. */
  lemma PrefixRunAgrees(x: Bytes, y: Bytes)
    requires x <= y && Push(FRESH, y, LIMITS).Ok?
    ensures Push(FRESH, x, LIMITS).Ok?
    ensures var c := Consume(START, Push(FRESH, x, LIMITS).value.events);
      !c.Running? ==> Consume(START, Push(FRESH, y, LIMITS).value.events) == c
  {
    var more := y[|x|..];
    assert y == x + more;
    PushSplits(FRESH, x, more, LIMITS);
    var o := Push(FRESH, x, LIMITS).value;
    ConsumeSplits(START, o.events, Push(o.decoder, more, LIMITS).value.events);
  }

  lemma TakenIsPrefix(inputs: seq<Input>)
    ensures TakenBody(inputs) <= Body(inputs)
    ensures Taken(FRESH, START, inputs) == |inputs| ==> TakenBody(inputs) == Body(inputs)
  {
    BodyPrefix(inputs, Taken(FRESH, START, inputs));
    assert inputs[..|inputs|] == inputs;
  }

  lemma BodyPrefix(inputs: seq<Input>, k: nat)
    requires k <= |inputs|
    ensures Body(inputs[..k]) <= Body(inputs)
  {
    BodySplits(inputs[..k], inputs[k..]);
    assert inputs == inputs[..k] + inputs[k..];
  }

  /** This run is what these bytes, read at once, lead to. */
  ghost predicate RunOn(bytes: Bytes, run: Run) {
    var push := Push(FRESH, bytes, LIMITS);
    && push.Ok?
    && var c := Consume(START, push.value.events);
       !c.Broke? && run == Run(Conclude(push.value.decoder, c.fold), c.fold)
  }

  ghost predicate StillRunning(bytes: Bytes) {
    var push := Push(FRESH, bytes, LIMITS);
    push.Ok? && Consume(START, push.value.events).Running?
  }

  lemma SuccessfulRun(inputs: seq<Input>)
    requires Generate(FRESH, START, inputs).reply.Reply?
    ensures RunOn(TakenBody(inputs), Generate(FRESH, START, inputs)) && TakenBody(inputs) <= Body(inputs)
    ensures StillRunning(TakenBody(inputs)) ==> TakenBody(inputs) == Body(inputs)
  {
    RunReadsAsOne(FRESH, START, inputs);
    TakenIsPrefix(inputs);
  }

  lemma ShorterDecides(x: Bytes, y: Bytes, run: Run, run': Run)
    requires RunOn(x, run) && RunOn(y, run') && run.reply.Reply? && run'.reply.Reply?
    requires x <= y && (StillRunning(x) ==> x == y)
    ensures run == run'
  {
    PrefixRunAgrees(x, y);
  }

  /** Two ways of cutting one response that both succeed give the same reply and the same progress. */
  lemma RepliesAgree(a: seq<Input>, b: seq<Input>)
    requires Body(a) == Body(b)
    requires Generate(FRESH, START, a).reply.Reply? && Generate(FRESH, START, b).reply.Reply?
    ensures Generate(FRESH, START, a) == Generate(FRESH, START, b)
  {
    SuccessfulRun(a);
    SuccessfulRun(b);
    var x, y := TakenBody(a), TakenBody(b);
    if |x| <= |y| {
      ShorterDecides(x, y, Generate(FRESH, START, a), Generate(FRESH, START, b));
    } else {
      ShorterDecides(y, x, Generate(FRESH, START, b), Generate(FRESH, START, a));
    }
  }

  // ---------------------------------------------------------------- progress reports

  function Spoken(ps: seq<Progress>): Bytes {
    if ps == [] then [] else Spoken(ps[..|ps| - 1]) + ps[|ps| - 1].text
  }

  /** Each report carries all the text so far, and report numbers rise strictly, up to `last`. */
  predicate Narrated(ps: seq<Progress>, last: nat)
    decreases |ps|
  {
    ps == [] ||
    var p := ps[|ps| - 1];
    && p.fullText == Spoken(ps)
    && 1 <= p.sequence <= last
    && Narrated(ps[..|ps| - 1], p.sequence - 1)
  }

  lemma NarratedLater(ps: seq<Progress>, last: nat, later: nat)
    requires Narrated(ps, last) && last <= later
    ensures Narrated(ps, later)
  {
  }

  lemma ReportExtends(ps: seq<Progress>, last: nat, text: Bytes)
    requires Narrated(ps, last)
    ensures var more := ps + [Progress(last + 1, text, Spoken(ps) + text)];
      Narrated(more, last + 1) && Spoken(more) == Spoken(ps) + text
  {
    var more := ps + [Progress(last + 1, text, Spoken(ps) + text)];
    assert more[..|more| - 1] == ps;
  }

  /** Read pointwise: numbers rise strictly and each report's text extends the one before. */
  lemma {:induction false} ReportsGrow(ps: seq<Progress>, last: nat, i: nat, j: nat)
    requires Narrated(ps, last) && i < j < |ps|
    ensures ps[i].sequence < ps[j].sequence <= last
    ensures ps[i].fullText <= ps[j].fullText <= Spoken(ps)
    ensures ps[j].fullText == Spoken(ps[..j + 1])
    decreases |ps|
  {
    var front := ps[..|ps| - 1];
    if j == |ps| - 1 {
      assert ps[..j + 1] == ps;
      if i == j - 1 {
        assert ps[i] == front[|front| - 1];
      } else {
        ReportsGrow(front, ps[j].sequence - 1, i, j - 1);
        assert ps[j - 1] == front[|front| - 1];
      }
    } else {
      ReportsGrow(front, ps[|ps| - 1].sequence - 1, i, j);
      assert front[..j + 1] == ps[..j + 1];
    }
  }

  predicate Telling(f: Fold) { Narrated(f.progress, f.sequence) && f.text == Spoken(f.progress) }

  // ---------------------------------------------------------------- the loops

  lemma {:induction false} StepsFail(f: Fold, es: seq<GenEvent>, i: nat, g: Fold)
    requires i < |es| && GenSteps(f, es[..i]) == Going(g) && GenStep(g, es[i]).Failed?
    ensures GenSteps(f, es) == GenStep(g, es[i])
  {
    assert es == es[..i] + es[i..];
    StepsSplit(f, es[..i], es[i..]);
  }

  lemma {:induction false} StepsAdvance(f: Fold, es: seq<GenEvent>, i: nat, g: Fold)
    requires i < |es| && GenSteps(f, es[..i]) == Going(g) && GenStep(g, es[i]).Going?
    ensures GenSteps(f, es[..i + 1]) == GenStep(g, es[i])
  {
    assert es[..i + 1] == es[..i] + [es[i]];
    StepsSplit(f, es[..i], [es[i]]);
    assert [es[i]][1..] == [];
    assert GenSteps(g, [es[i]]) == GenSteps(GenStep(g, es[i]).fold, []);
  }

  /** The inner loop over one message's events; `f'` is the state the loop stops in. */
  method ApplyEvents(f: Fold, es: seq<GenEvent>) returns (r: FoldResult, f': Fold)
    requires f.sequence >= 1 && Narrated(f.progress, f.sequence - 1) && f.text == Spoken(f.progress)
    requires OneDelta(es)
    ensures r == GenSteps(f, es) && (r.Going? ==> f' == r.fold)
    ensures Telling(f')
  {
    f' := f;
    NarratedLater(f.progress, f.sequence - 1, f.sequence);
    for i := 0 to |es|
      invariant GenSteps(f, es[..i]) == Going(f') && f'.sequence == f.sequence
      invariant if i == 0 then f' == f else Telling(f')
    {
      ghost var before := f';
      match es[i] {
        case Ignored =>
        case Refusal =>
          StepsFail(f, es, i, before);
          return Failed(Rejected), f';
        case Finished(reason) =>
          if f'.terminal.None? {
            f' := f'.(terminal := Some(reason));
          } else if reason != STOP && reason != f'.terminal.value {
            StepsFail(f, es, i, before);
            return Failed(StreamInvalid), f';
          }
        case TextDelta(_, text) =>
          if f'.terminal.Some? || |f'.text| + |text| > GENERATION_MAX_TEXT_BYTES {
            StepsFail(f, es, i, before);
            return Failed(StreamInvalid), f';
          }
          var full := f'.text + text;
          ReportExtends(f'.progress, f'.sequence - 1, text);
          f' := f'.(text := full, progress := f'.progress + [Progress(f'.sequence, text, full)]);
      }
      StepsAdvance(f, es, i, before);
    }
    assert es[..|es|] == es;
    r := Going(f');
  }

  predicate OneDelta(es: seq<GenEvent>) { forall i :: 1 <= i < |es| ==> !es[i].TextDelta? }

  lemma ReadingHasOneDelta(event: Option<Bytes>, data: Bytes, sequence: nat)
    ensures var r := ReadMessage(event, data, sequence); r.Said? ==> OneDelta(r.events)
  {
    OneDeltaPerEvent(data, sequence + 1);
  }

  /** The checks on one message before its events are applied. */
  method ReadOne(event: Option<Bytes>, data: Bytes, sequence: nat) returns (r: Reading)
    ensures r == ReadMessage(event, data, sequence) && (r.Said? ==> OneDelta(r.events))
  {
    if IsError(event) {
      return Unreadable(Rejected);
    }
    var streamDone := Trim(data) == DONE;
    if sequence + 1 >= U64_LIMIT {
      return Unreadable(StreamInvalid);
    }
    var decoded := DecodeEvent(data, sequence + 1);
    ReadingHasOneDelta(event, data, sequence);
    r := if decoded.Malformed? then Unreadable(StreamInvalid) else Said(decoded.events, streamDone);
  }

  /** The loop body for one message. */
  method HandleMessage(f: Fold, r: Reading) returns (c: Consumed, f': Fold)
    requires Telling(f) && (r.Said? ==> OneDelta(r.events))
    ensures c == MessageStep(f, r) && (!c.Broke? ==> f' == c.fold)
    ensures Telling(f')
  {
    if r.Unreadable? {
      return Broke(r.code), f;
    }
    var step;
    step, f' := ApplyEvents(f.(sequence := f.sequence + 1), r.events);
    c := if step.Failed? then Broke(step.code) else if r.done then Stopped(f') else Running(f');
  }

  /** Taking the next event off the list. */
  lemma ConsumeAt(f: Fold, events: seq<SseEvent>, i: nat, g: Fold)
    requires i < |events| && Consume(f, events[..i]) == Running(g)
    ensures var step := if events[i].Heartbeat? then Running(g)
                        else MessageStep(g, ReadMessage(events[i].event, events[i].data, g.sequence));
      if step.Running? then Consume(f, events[..i + 1]) == step else Consume(f, events) == step
  {
    assert events == events[..i] + events[i..];
    ConsumeSplits(f, events[..i], events[i..]);
    assert events[..i + 1] == events[..i] + [events[i]];
    ConsumeSplits(f, events[..i], [events[i]]);
    assert [events[i]][1..] == [];
  }

  /** The loop over the events of one chunk. */
  method ConsumeEvents(f: Fold, events: seq<SseEvent>) returns (r: Consumed, f': Fold)
    requires Telling(f)
    ensures r == Consume(f, events) && (!r.Broke? ==> f' == r.fold)
    ensures Telling(f')
  {
    f' := f;
    for i := 0 to |events|
      invariant Consume(f, events[..i]) == Running(f')
      invariant Telling(f')
    {
      ConsumeAt(f, events, i, f');
      if events[i].Message? {
        var reading := ReadOne(events[i].event, events[i].data, f'.sequence);
        var step, g := HandleMessage(f', reading);
        f' := g;
        if !step.Running? {
          return step, f';
        }
      }
    }
    assert events[..|events|] == events;
    r := Running(f');
  }

  /** `stream_generate` after the response has opened. */
  method StreamGenerate(inputs: seq<Input>) returns (reply: Reply, progress: seq<Progress>)
    ensures reply == Generate(FRESH, START, inputs).reply
    ensures reply.Reply? ==> progress == Generate(FRESH, START, inputs).fold.progress && reply.text == Spoken(progress)
    ensures exists last: nat :: Narrated(progress, last)
  {
    var decoder := new StreamDecoder(SSE_MAX_LINE_BYTES, SSE_MAX_EVENT_BYTES);
    var f := START;
    var i := 0;
    var stopped := false;
    while i < |inputs| && !stopped
      invariant 0 <= i <= |inputs| && decoder.limits == LIMITS && Coherent(decoder.State())
      invariant Telling(f)
      invariant Generate(FRESH, START, inputs) ==
                if stopped then Run(Conclude(decoder.State(), f), f) else Generate(decoder.State(), f, inputs[i..])
      decreases |inputs| - i, !stopped
    {
      assert inputs[i..][1..] == inputs[i + 1..];
      match inputs[i] {
        case Interruption(code) =>
          return NoReply(code), f.progress;
        case Chunk(bytes) =>
          var pushed := decoder.PushBytes(bytes);
          if pushed.Err? {
            return NoReply(StreamInvalid), f.progress;
          }
          var r, g := ConsumeEvents(f, pushed.value);
          f := g;
          if r.Broke? {
            return NoReply(r.code), f.progress;
          }
          stopped := r.Stopped?;
      }
      i := i + 1;
    }
    var finish := decoder.Finish();
    progress := f.progress;
    if finish.Err? || f.terminal.None? || !Accepted(f.terminal.value) {
      reply := NoReply(StreamInvalid);
    } else if Blank(f.text) {
      reply := NoReply(Empty);
    } else {
      reply := Reply(f.text, f.terminal.value);
    }
  }
}
