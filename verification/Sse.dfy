/** The incremental server-sent-events decoder: byte order mark, CR/LF/CRLF line ends, field lines,
    size limits, and input cut into arbitrary chunks. */
module Sse {
  import opened Wire
  import opened Utf8
  import S = Separated

  const CR: Byte := 13
  const LF: Byte := 10
  const COLON: Byte := 58
  const SPACE: Byte := 32
  const BOM: Bytes := [0xEF, 0xBB, 0xBF]

  /** "data" and "event" */
  const FIELD_DATA: Bytes := [100, 97, 116, 97]
  const FIELD_EVENT: Bytes := [101, 118, 101, 110, 116]

  datatype SseEvent = Heartbeat | Message(event: Option<Bytes>, data: Bytes)

  datatype DecodeError = LineTooLarge | EventTooLarge | InvalidUtf8 | Truncated

  datatype Result<+T> = Ok(value: T) | Err(error: DecodeError)

  datatype Limits = Limits(maxLine: nat, maxEvent: nat)

  /** The event being assembled from field lines. */
  datatype Frame = Frame(data: seq<Bytes>, event: Option<Bytes>, eventBytes: nat)

  const EMPTY: Frame := Frame([], None, 0)

  datatype Decoder = Decoder(line: Bytes, frame: Frame, skipLf: bool, bomPrefix: Bytes, bomChecked: bool)

  const FRESH: Decoder := Decoder([], EMPTY, false, [], false)

  // ---------------------------------------------------------------- one line

  /** Position of the first colon, |line| if there is none. */
  function ColonAt(line: Bytes): (n: nat)
    ensures n <= |line|
  {
    if line == [] || line[0] == COLON then 0 else 1 + ColonAt(line[1..])
  }

  function FieldName(line: Bytes): Bytes { line[..ColonAt(line)] }

  function FieldValue(line: Bytes): Bytes {
    var at := ColonAt(line);
    if at == |line| then []
    else if at + 1 < |line| && line[at + 1] == SPACE then line[at + 2..]
    else line[at + 1..]
  }

  datatype Framed = Framed(frame: Frame, events: seq<SseEvent>)

  /** `finish_line` on a complete line. */
  function LineStep(f: Frame, line: Bytes, limits: Limits): Result<Framed> {
    if !ValidUtf8(line) then Err(InvalidUtf8)
    else if line == [] then
      Ok(Framed(EMPTY, if f.data != [] || f.event.Some? then [Message(f.event, S.Join(f.data, LF))] else []))
    else if line[0] == COLON then Ok(Framed(f, [Heartbeat]))
    else if f.eventBytes + |line| + 1 > limits.maxEvent then Err(EventTooLarge)
    else
      var g := f.(eventBytes := f.eventBytes + |line| + 1);
      if FieldName(line) == FIELD_DATA then Ok(Framed(g.(data := g.data + [FieldValue(line)]), []))
      else if FieldName(line) == FIELD_EVENT then Ok(Framed(g.(event := Some(FieldValue(line))), []))
      else Ok(Framed(g, []))
  }

  // ---------------------------------------------------------------- bytes

  datatype Out = Out(decoder: Decoder, events: seq<SseEvent>)

  function ByteStep(d: Decoder, b: Byte, limits: Limits): Result<Out> {
    if d.skipLf && b == LF then Ok(Out(d.(skipLf := false), []))
    else if b == CR || b == LF then
      match LineStep(d.frame, d.line, limits)
      case Err(e) => Err(e)
      case Ok(r) => Ok(Out(d.(line := [], frame := r.frame, skipLf := b == CR), r.events))
    else if |d.line| >= limits.maxLine then Err(LineTooLarge)
    else Ok(Out(d.(line := d.line + [b], skipLf := false), []))
  }

  function Process(d: Decoder, bytes: Bytes, limits: Limits): Result<Out>
    decreases |bytes|, 0
  {
    if bytes == [] then Ok(Out(d, []))
    else Then(ByteStep(d, bytes[0], limits), bytes[1..], limits)
  }

  /** Continue with more bytes after a result. */
  function Then(r: Result<Out>, bytes: Bytes, limits: Limits): Result<Out>
    decreases |bytes|, 1
  {
    match r
    case Err(e) => Err(e)
    case Ok(o) => Prepend(o.events, Process(o.decoder, bytes, limits))
  }

  function Prepend(events: seq<SseEvent>, r: Result<Out>): Result<Out> {
    match r
    case Err(e) => Err(e)
    case Ok(o) => Ok(Out(o.decoder, events + o.events))
  }

  lemma PrependNothing(r: Result<Out>)
    ensures Prepend([], r) == r
  {
    if r.Ok? { assert [] + r.value.events == r.value.events; }
  }

  lemma ProcessOne(d: Decoder, bytes: Bytes, limits: Limits, o: Out)
    requires bytes != [] && ByteStep(d, bytes[0], limits) == Ok(o)
    ensures Process(d, bytes, limits) == Prepend(o.events, Process(o.decoder, bytes[1..], limits))
  {
  }

  /** Cutting the bytes anywhere changes nothing. */
  lemma {:induction false} ProcessSplits(d: Decoder, x: Bytes, y: Bytes, limits: Limits)
    ensures Process(d, x + y, limits) == Then(Process(d, x, limits), y, limits)
    decreases |x|
  {
    if x == [] {
      assert x + y == y;
      assert Process(d, x, limits) == Ok(Out(d, []));
      PrependNothing(Process(d, y, limits));
    } else {
      assert (x + y)[1..] == x[1..] + y && (x + y)[0] == x[0];
      match ByteStep(d, x[0], limits)
      case Err(_) =>
      case Ok(o) =>
        ProcessSplits(o.decoder, x[1..], y, limits);
        match Process(o.decoder, x[1..], limits)
        case Err(_) =>
        case Ok(o2) =>
          match Process(o2.decoder, y, limits)
          case Err(_) =>
          case Ok(o3) => assert o.events + (o2.events + o3.events) == (o.events + o2.events) + o3.events;
    }
  }

  // ---------------------------------------------------------------- pushes

  /** `push`: bytes are withheld until the first three can be compared with the byte order mark. */
  function Push(d: Decoder, bytes: Bytes, limits: Limits): Result<Out> {
    if d.bomChecked then Process(d, bytes, limits)
    else
      var prefix := d.bomPrefix + bytes;
      if |prefix| < 3 then Ok(Out(d.(bomPrefix := prefix), []))
      else
        var open := d.(bomChecked := true, bomPrefix := []);
        Process(open, if prefix[..3] == BOM then prefix[3..] else prefix, limits)
  }

  function PushAll(d: Decoder, chunks: seq<Bytes>, limits: Limits): Result<Out>
    decreases |chunks|
  {
    if chunks == [] then Ok(Out(d, []))
    else match Push(d, chunks[0], limits)
      case Err(e) => Err(e)
      case Ok(o) => Prepend(o.events, PushAll(o.decoder, chunks[1..], limits))
  }

  predicate Coherent(d: Decoder) {
    if d.bomChecked then d.bomPrefix == [] else |d.bomPrefix| < 3
  }

  lemma {:induction false} ProcessKeepsBom(d: Decoder, bytes: Bytes, limits: Limits)
    ensures Process(d, bytes, limits).Ok? ==>
      var d' := Process(d, bytes, limits).value.decoder;
      d'.bomChecked == d.bomChecked && d'.bomPrefix == d.bomPrefix
    decreases |bytes|
  {
    if bytes != [] && ByteStep(d, bytes[0], limits).Ok? {
      ProcessKeepsBom(ByteStep(d, bytes[0], limits).value.decoder, bytes[1..], limits);
    }
  }

  lemma PushKeepsCoherent(d: Decoder, bytes: Bytes, limits: Limits)
    requires Coherent(d)
    ensures Push(d, bytes, limits).Ok? ==> Coherent(Push(d, bytes, limits).value.decoder)
  {
    ProcessKeepsBom(d, bytes, limits);
    var prefix := d.bomPrefix + bytes;
    if |prefix| >= 3 {
      ProcessKeepsBom(d.(bomChecked := true, bomPrefix := []), if prefix[..3] == BOM then prefix[3..] else prefix, limits);
    }
  }

  function FollowedBy(r: Result<Out>, bytes: Bytes, limits: Limits): Result<Out> {
    match r
    case Err(e) => Err(e)
    case Ok(o) => Prepend(o.events, Push(o.decoder, bytes, limits))
  }

  /** One push of two pieces is two pushes. */
  lemma PushSplits(d: Decoder, x: Bytes, y: Bytes, limits: Limits)
    requires Coherent(d)
    ensures Push(d, x + y, limits) == FollowedBy(Push(d, x, limits), y, limits)
  {
    if d.bomChecked {
      ProcessSplits(d, x, y, limits);
      ProcessKeepsBom(d, x, limits);
    } else {
      var px, pxy := d.bomPrefix + x, d.bomPrefix + (x + y);
      assert pxy == px + y;
      if |px| < 3 {
        PrependNothing(Push(d.(bomPrefix := px), y, limits));
      } else {
        var open := d.(bomChecked := true, bomPrefix := []);
        var body := if px[..3] == BOM then px[3..] else px;
        assert pxy[..3] == px[..3];
        assert (if pxy[..3] == BOM then pxy[3..] else pxy) == body + y;
        ProcessSplits(open, body, y, limits);
        ProcessKeepsBom(open, body, limits);
      }
    }
  }

  function Flatten(chunks: seq<Bytes>): Bytes {
    if chunks == [] then [] else chunks[0] + Flatten(chunks[1..])
  }

  lemma {:induction false} ManyPushesAreOne(d: Decoder, chunks: seq<Bytes>, limits: Limits)
    requires Coherent(d)
    ensures PushAll(d, chunks, limits) == Push(d, Flatten(chunks), limits)
    decreases |chunks|
  {
    if chunks == [] {
      assert d.bomPrefix + [] == d.bomPrefix;
    } else {
      PushSplits(d, chunks[0], Flatten(chunks[1..]), limits);
      PushKeepsCoherent(d, chunks[0], limits);
      if Push(d, chunks[0], limits).Ok? {
        ManyPushesAreOne(Push(d, chunks[0], limits).value.decoder, chunks[1..], limits);
      }
    }
  }

  // ---------------------------------------------------------------- one-shot reference

  predicate EndsLine(b: Byte) { b == CR || b == LF }

  /** Position of the first line end, |b| if there is none. */
  function LineEnd(b: Bytes): (n: nat)
    ensures n <= |b|
    ensures forall i :: 0 <= i < n ==> !EndsLine(b[i])
    ensures n < |b| ==> EndsLine(b[n])
  {
    if b == [] || EndsLine(b[0]) then 0 else 1 + LineEnd(b[1..])
  }

  /** What follows the line end at `n`; CR LF is one line end. */
  function AfterLine(b: Bytes, n: nat): (rest: Bytes)
    requires n < |b|
    ensures |rest| < |b|
  {
    if b[n] == CR && n + 1 < |b| && b[n + 1] == LF then b[n + 2..] else b[n + 1..]
  }

  datatype Lines = Lines(complete: seq<Bytes>, partial: Bytes)

  function SplitLines(b: Bytes): Lines
    decreases |b|
  {
    var n := LineEnd(b);
    if n == |b| then Lines([], b)
    else
      var rest := SplitLines(AfterLine(b, n));
      Lines([b[..n]] + rest.complete, rest.partial)
  }

  /** Fold complete lines into events; a line over the limit is an error. */
  function FoldLines(f: Frame, lines: seq<Bytes>, limits: Limits): Result<Framed>
    decreases |lines|
  {
    if lines == [] then Ok(Framed(f, []))
    else if |lines[0]| > limits.maxLine then Err(LineTooLarge)
    else match LineStep(f, lines[0], limits)
      case Err(e) => Err(e)
      case Ok(r) =>
        match FoldLines(r.frame, lines[1..], limits)
        case Err(e) => Err(e)
        case Ok(r2) => Ok(Framed(r2.frame, r.events + r2.events))
  }

  /** The whole body at once: split into lines, fold them, keep the unfinished line. */
  function ReferenceBody(f: Frame, body: Bytes, limits: Limits): Result<Out> {
    var lines := SplitLines(body);
    match FoldLines(f, lines.complete, limits)
    case Err(e) => Err(e)
    case Ok(r) =>
      if |lines.partial| > limits.maxLine then Err(LineTooLarge)
      else Ok(Out(Decoder(lines.partial, r.frame, body != [] && body[|body| - 1] == CR, [], true), r.events))
  }

  /** The one-shot decoder: strip a byte order mark, then the body; fewer than three bytes are withheld. */
  function Reference(input: Bytes, limits: Limits): Result<Out> {
    if |input| < 3 then Ok(Out(FRESH.(bomPrefix := input), []))
    else ReferenceBody(EMPTY, if input[..3] == BOM then input[3..] else input, limits)
  }

  function Open(f: Frame, line: Bytes, skipLf: bool): Decoder {
    Decoder(line, f, skipLf, [], true)
  }

  /** Bytes that end no line only lengthen the line, up to the limit. */
  lemma {:induction false} PlainBytes(f: Frame, line: Bytes, skip: bool, plain: Bytes, limits: Limits)
    requires forall i :: 0 <= i < |plain| ==> !EndsLine(plain[i])
    requires |line| <= limits.maxLine
    ensures Process(Open(f, line, skip), plain, limits) ==
      if |line| + |plain| > limits.maxLine then Err(LineTooLarge)
      else Ok(Out(Open(f, line + plain, skip && plain == []), []))
    decreases |plain|
  {
    if plain == [] {
      assert line + plain == line;
    } else if |line| < limits.maxLine {
      ProcessOne(Open(f, line, skip), plain, limits, Out(Open(f, line + [plain[0]], false), []));
      PlainBytes(f, line + [plain[0]], false, plain[1..], limits);
      PrependNothing(Process(Open(f, line + [plain[0]], false), plain[1..], limits));
      assert line + [plain[0]] + plain[1..] == line + plain;
    }
  }

  /** A pending line feed is swallowed; anything else is read as usual. */
  lemma PendingLineFeed(f: Frame, rest: Bytes, limits: Limits)
    requires rest != []
    ensures Process(Open(f, [], true), rest, limits) ==
      Process(Open(f, [], false), if rest[0] == LF then rest[1..] else rest, limits)
  {
    if rest[0] == LF {
      PrependNothing(Process(Open(f, [], false), rest[1..], limits));
    }
  }

  /** The incremental decoder agrees with the reference on any body. */
  lemma {:induction false} ProcessIsReference(f: Frame, body: Bytes, limits: Limits)
    ensures Process(Open(f, [], false), body, limits) == ReferenceBody(f, body, limits)
    decreases |body|
  {
    var n := LineEnd(body);
    var line := body[..n];
    PlainBytes(f, [], false, line, limits);
    assert [] + line == line;
    if n == |body| {
      assert body == line;
    } else {
      assert body == line + body[n..];
      ProcessSplits(Open(f, [], false), line, body[n..], limits);
      if n <= limits.maxLine {
        LineThenRest(f, body, n, limits);
      }
    }
  }

  function LastIsCr(b: Bytes): bool { b != [] && b[|b| - 1] == CR }

  /** The reference, unfolded by one line. */
  lemma ReferenceByLine(f: Frame, body: Bytes, n: nat, r: Framed, limits: Limits)
    requires n == LineEnd(body) < |body| && n <= limits.maxLine
    requires LineStep(f, body[..n], limits) == Ok(r)
    ensures var rest := AfterLine(body, n);
      ReferenceBody(f, body, limits) ==
      match Prepend(r.events, ReferenceBody(r.frame, rest, limits))
      case Err(e) => Err(e)
      case Ok(o) => Ok(o.(decoder := o.decoder.(skipLf := LastIsCr(body))))
  {
    var rest := AfterLine(body, n);
    var whole, later := SplitLines(body), SplitLines(rest);
    assert whole == Lines([body[..n]] + later.complete, later.partial);
    assert whole.complete[0] == body[..n] && whole.complete[1..] == later.complete;
    assert FoldLines(f, whole.complete, limits) ==
           match FoldLines(r.frame, later.complete, limits)
           case Err(e) => Err(e)
           case Ok(g) => Ok(Framed(g.frame, r.events + g.events));
  }

  /** The step at the first line end: finish the line, then the reference on the rest. */
  lemma {:induction false} LineThenRest(f: Frame, body: Bytes, n: nat, limits: Limits)
    requires n == LineEnd(body) < |body| && n <= limits.maxLine
    ensures Then(Ok(Out(Open(f, body[..n], false), [])), body[n..], limits) == ReferenceBody(f, body, limits)
    decreases |body|, 0
  {
    var tail := body[n + 1..];
    var rest := AfterLine(body, n);
    assert body[n..][1..] == tail;
    var r := LineStep(f, body[..n], limits);
    if r.Err? {
      FailureSticks(Open(f, body[..n], false), body[n..], limits);
      assert SplitLines(body).complete[0] == body[..n];
      assert FoldLines(f, SplitLines(body).complete, limits) == Err(r.error);
    } else {
      var after := Open(r.value.frame, [], body[n] == CR);
      ProcessOne(Open(f, body[..n], false), body[n..], limits, Out(after, r.value.events));
      assert Then(Ok(Out(Open(f, body[..n], false), [])), body[n..], limits)
        == Prepend([], Prepend(r.value.events, Process(after, tail, limits)));
      PrependNothing(Prepend(r.value.events, Process(after, tail, limits)));
      ReferenceByLine(f, body, n, r.value, limits);
      ProcessIsReference(r.value.frame, rest, limits);
      if tail != [] {
        assert body[|body| - 1] == tail[|tail| - 1];
        if body[n] == CR {
          PendingLineFeed(r.value.frame, tail, limits);
        }
        assert Process(after, tail, limits) == ReferenceBody(r.value.frame, rest, limits);
        assert rest != [] ==> rest[|rest| - 1] == tail[|tail| - 1];
      }
    }
  }

  // ---------------------------------------------------------------- main theorems

  /** However the input is cut into pushes, the decoder succeeds exactly when the one-shot reference
      does on the whole input, and then with the same events and the same final state; otherwise
      both report the same error. */
  lemma ChunkingIsInvisible(chunks: seq<Bytes>, limits: Limits)
    ensures PushAll(FRESH, chunks, limits) == Reference(Flatten(chunks), limits)
  {
    ManyPushesAreOne(FRESH, chunks, limits);
    var input := Flatten(chunks);
    assert FRESH.bomPrefix + input == input;
    if |input| >= 3 {
      ProcessIsReference(EMPTY, if input[..3] == BOM then input[3..] else input, limits);
    }
  }

  function DataSize(data: seq<Bytes>): nat {
    if data == [] then 0 else DataSize(data[..|data| - 1]) + |data[|data| - 1]| + 1
  }

  function NameSize(event: Option<Bytes>): nat {
    if event.Some? then |event.value| + 1 else 0
  }

  /** The assembled event is paid for by the bytes counted so far. */
  predicate Within(f: Frame, limits: Limits) {
    DataSize(f.data) + NameSize(f.event) <= f.eventBytes && f.eventBytes <= limits.maxEvent
  }

  predicate Small(e: SseEvent, limits: Limits) {
    e.Message? ==> |e.data| + (if e.event.Some? then |e.event.value| else 0) <= limits.maxEvent
  }

  lemma {:induction false} JoinSize(data: seq<Bytes>)
    ensures data != [] ==> |S.Join(data, LF)| + 1 == DataSizeFront(data)
    decreases |data|
  {
    if |data| > 1 { JoinSize(data[1..]); }
  }

  function DataSizeFront(data: seq<Bytes>): nat {
    if data == [] then 0 else |data[0]| + 1 + DataSizeFront(data[1..])
  }

  lemma {:induction false} DataSizesAgree(data: seq<Bytes>)
    ensures DataSize(data) == DataSizeFront(data)
    decreases |data|
  {
    if |data| > 1 {
      var front, last := data[..|data| - 1], data[|data| - 1];
      DataSizesAgree(front);
      assert data[1..][..|data| - 2] == front[1..];
      DataSizesAgree(data[1..]);
      DataSizesAgree(front[1..]);
    }
  }

  lemma LineStepStaysWithin(f: Frame, line: Bytes, limits: Limits)
    requires Within(f, limits)
    ensures var r := LineStep(f, line, limits); r.Ok? ==>
      Within(r.value.frame, limits) && forall i :: 0 <= i < |r.value.events| ==> Small(r.value.events[i], limits)
  {
    JoinSize(f.data);
    DataSizesAgree(f.data);
    var more := f.data + [FieldValue(line)];
    assert more[..|more| - 1] == f.data;
  }

  ghost predicate Bounded(d: Decoder, limits: Limits) {
    |d.line| <= limits.maxLine && Within(d.frame, limits)
  }

  lemma {:induction false} ProcessStaysBounded(d: Decoder, bytes: Bytes, limits: Limits)
    requires Bounded(d, limits)
    ensures var r := Process(d, bytes, limits); r.Ok? ==>
      Bounded(r.value.decoder, limits) && forall i :: 0 <= i < |r.value.events| ==> Small(r.value.events[i], limits)
    decreases |bytes|
  {
    if bytes != [] {
      LineStepStaysWithin(d.frame, d.line, limits);
      var step := ByteStep(d, bytes[0], limits);
      if step.Ok? {
        ProcessStaysBounded(step.value.decoder, bytes[1..], limits);
      }
    }
  }

  /** As long as no push failed, the buffered line stays within `maxLine` and every message emitted
      so far, data and event name together, within `maxEvent`. */
  lemma LimitsHold(chunks: seq<Bytes>, limits: Limits)
    ensures var r := PushAll(FRESH, chunks, limits); r.Ok? ==>
      Bounded(r.value.decoder, limits) && forall i :: 0 <= i < |r.value.events| ==> Small(r.value.events[i], limits)
  {
    ManyPushesAreOne(FRESH, chunks, limits);
    var input := FRESH.bomPrefix + Flatten(chunks);
    ProcessStaysBounded(FRESH.(bomChecked := true), if |input| >= 3 && input[..3] == BOM then input[3..] else input, limits);
  }

  // ---------------------------------------------------------------- the decoder object

  class StreamDecoder {
    var line: Bytes
    var data: seq<Bytes>
    var event: Option<Bytes>
    var eventBytes: nat
    var skipLf: bool
    var bomPrefix: Bytes
    var bomChecked: bool
    const limits: Limits

    function State(): Decoder
      reads this
    {
      Decoder(line, Frame(data, event, eventBytes), skipLf, bomPrefix, bomChecked)
    }

    constructor (maxLine: nat, maxEvent: nat)
      ensures State() == FRESH && limits == Limits(maxLine, maxEvent)
    {
      line, data, event, eventBytes, skipLf, bomPrefix, bomChecked := [], [], None, 0, false, [], false;
      limits := Limits(maxLine, maxEvent);
    }

    method FinishLine() returns (r: Result<seq<SseEvent>>)
      modifies this
      ensures match LineStep(old(State()).frame, old(line), limits)
              case Err(e) => r == Err(e)
              case Ok(f) => r == Ok(f.events) && State() == old(State()).(line := [], frame := f.frame)
    {
      var bytes := line;
      line := [];
      if !ValidUtf8(bytes) {
        return Err(InvalidUtf8);
      }
      if bytes == [] {
        var out := [];
        if data != [] || event.Some? {
          out := [Message(event, S.Join(data, LF))];
        }
        data, event, eventBytes := [], None, 0;
        return Ok(out);
      }
      if bytes[0] == COLON {
        return Ok([Heartbeat]);
      }
      eventBytes := eventBytes + |bytes| + 1;
      if eventBytes > limits.maxEvent {
        return Err(EventTooLarge);
      }
      var field, value := FieldName(bytes), FieldValue(bytes);
      if field == FIELD_DATA {
        data := data + [value];
      } else if field == FIELD_EVENT {
        event := Some(value);
      }
      r := Ok([]);
    }

    method ProcessBytes(bytes: Bytes) returns (r: Result<seq<SseEvent>>)
      modifies this
      ensures match Process(old(State()), bytes, limits)
              case Err(e) => r == Err(e)
              case Ok(o) => r == Ok(o.events) && State() == o.decoder
    {
      var out: seq<SseEvent> := [];
      for i := 0 to |bytes|
        invariant Process(old(State()), bytes[..i], limits) == Ok(Out(State(), out))
      {
        assert bytes == bytes[..i] + bytes[i..];
        ProcessSplits(old(State()), bytes[..i], bytes[i..], limits);
        ProcessSplits(old(State()), bytes[..i], [bytes[i]], limits);
        assert bytes[..i + 1] == bytes[..i] + [bytes[i]];
        ghost var before := State();
        SingleByte(before, bytes[i], limits);
        assert out + [] == out;
        if skipLf {
          skipLf := false;
          if bytes[i] == LF {
            continue;
          }
        }
        if bytes[i] == CR || bytes[i] == LF {
          var finished := FinishLine();
          if finished.Err? {
            FailureSticks(before, bytes[i..], limits);
            return finished;
          }
          out := out + finished.value;
          skipLf := bytes[i] == CR;
        } else {
          if |line| >= limits.maxLine {
            FailureSticks(before, bytes[i..], limits);
            return Err(LineTooLarge);
          }
          line := line + [bytes[i]];
        }
      }
      assert bytes[..|bytes|] == bytes;
      r := Ok(out);
    }

    /** `push` */
    method PushBytes(bytes: Bytes) returns (r: Result<seq<SseEvent>>)
      requires Coherent(State())
      modifies this
      ensures match Push(old(State()), bytes, limits)
              case Err(e) => r == Err(e)
              case Ok(o) => r == Ok(o.events) && State() == o.decoder && Coherent(State())
    {
      PushKeepsCoherent(State(), bytes, limits);
      if bomChecked {
        r := ProcessBytes(bytes);
        return;
      }
      ghost var prefix := bomPrefix + bytes;
      var take := if 3 - |bomPrefix| <= |bytes| then 3 - |bomPrefix| else |bytes|;
      bomPrefix := bomPrefix + bytes[..take];
      var slice := bytes[take..];
      assert prefix == bomPrefix + slice;
      if |bomPrefix| < 3 {
        assert slice == [];
        return Ok([]);
      }
      assert prefix[..3] == bomPrefix;
      bomChecked := true;
      var first := bomPrefix;
      bomPrefix := [];
      if first == BOM {
        r := ProcessBytes(slice);
        return;
      }
      ProcessSplits(State(), first, slice, limits);
      var head := ProcessBytes(first);
      if head.Err? {
        return head;
      }
      var rest := ProcessBytes(slice);
      if rest.Err? {
        return rest;
      }
      r := Ok(head.value + rest.value);
    }

    /** `finish`: nothing half-read may be left. */
    method Finish() returns (r: Result<()>)
      ensures r.Ok? <==> (bomChecked || bomPrefix == []) && line == [] && data == [] && event.None?
      ensures r.Err? ==> r.error == Truncated
    {
      if !bomChecked && bomPrefix != [] {
        return Err(Truncated);
      }
      if line == [] && data == [] && event.None? {
        r := Ok(());
      } else {
        r := Err(Truncated);
      }
    }
  }

  lemma SingleByte(d: Decoder, b: Byte, limits: Limits)
    ensures Process(d, [b], limits) == ByteStep(d, b, limits)
  {
    var step := ByteStep(d, b, limits);
    if step.Ok? {
      assert [b][1..] == [];
      assert Process(step.value.decoder, [], limits) == Ok(Out(step.value.decoder, []));
      assert step.value.events + [] == step.value.events;
    }
  }

  lemma FailureSticks(d: Decoder, bytes: Bytes, limits: Limits)
    requires bytes != [] && ByteStep(d, bytes[0], limits).Err?
    ensures Process(d, bytes, limits) == Err(ByteStep(d, bytes[0], limits).error)
  {
  }
}
