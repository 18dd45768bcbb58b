/** What a stream of server-sent events says, from its lines alone: comments, fields with and without a
    space after the colon, names without a colon, and the messages that blank lines end. */
module SseMeaning {
  import opened Wire
  import opened Utf8
  import opened Sse
  import S = Separated

  // ---------------------------------------------------------------- lines

  /** The ways a line that is not blank can be written. */
  datatype Line =
    | Comment(text: Bytes)
    | Field(name: Bytes, value: Bytes, spaced: bool)
    | Bare(name: Bytes)

  function Written(l: Line): Bytes {
    match l
    case Comment(text) => [COLON] + text
    case Field(name, value, spaced) => name + [COLON] + (if spaced then [SPACE] + value else value)
    case Bare(name) => name
  }

  /** Each line is written in one way only: names hold no colon, and an unspaced value does not start with a space. */
  predicate Proper(l: Line) {
    match l
    case Comment(_) => true
    case Field(name, value, spaced) => name != [] && COLON !in name && (!spaced && value != [] ==> value[0] != SPACE)
    case Bare(name) => name != [] && COLON !in name
  }

  /** The value a field line gives. */
  function ValueOf(l: Line): Bytes
    requires !l.Comment?
  {
    if l.Field? then l.value else []
  }

  lemma FieldNamesAreSpelled()
    ensures FIELD_DATA == Ascii("data") && FIELD_EVENT == Ascii("event")
    ensures [COLON] == Ascii(":") && [SPACE] == Ascii(" ") && LF == 10 && CR == 13
  {
  }

  lemma {:induction false} ColonAfter(x: Bytes, y: Bytes)
    requires COLON !in x
    ensures ColonAt(x + [COLON] + y) == |x|
  {
    if x == [] {
      assert (x + [COLON] + y)[0] == COLON;
    } else {
      assert (x + [COLON] + y)[1..] == x[1..] + [COLON] + y;
      ColonAfter(x[1..], y);
    }
  }

  lemma {:induction false} NoColon(x: Bytes)
    requires COLON !in x
    ensures ColonAt(x) == |x|
  {
    if x != [] {
      NoColon(x[1..]);
    }
  }

  lemma {:induction false} ColonFound(line: Bytes)
    ensures COLON !in line[..ColonAt(line)]
    ensures ColonAt(line) < |line| ==> line[ColonAt(line)] == COLON
  {
    if line != [] && line[0] != COLON {
      ColonFound(line[1..]);
      var n := ColonAt(line[1..]);
      assert line[..n + 1] == [line[0]] + line[1..][..n];
    }
  }

  /** Every line that is not blank is written in one of the three ways. */
  lemma EveryLineIsWritten(line: Bytes) returns (l: Line)
    requires line != []
    ensures Proper(l) && Written(l) == line
  {
    var n := ColonAt(line);
    ColonFound(line);
    if n == |line| {
      assert line[..n] == line;
      l := Bare(line);
    } else if n == 0 {
      l := Comment(line[1..]);
    } else {
      var rest := line[n + 1..];
      assert line == line[..n] + [COLON] + rest;
      if rest != [] && rest[0] == SPACE {
        assert rest == [SPACE] + rest[1..];
        l := Field(line[..n], rest[1..], true);
      } else {
        l := Field(line[..n], rest, false);
      }
    }
  }

  /** The name before the first colon and the value after it, without one leading space. */
  lemma FieldsOf(l: Line)
    requires Proper(l) && !l.Comment?
    ensures FieldName(Written(l)) == l.name && FieldValue(Written(l)) == ValueOf(l)
    ensures Written(l) != [] && Written(l)[0] != COLON
  {
    var line := Written(l);
    if l.Bare? {
      NoColon(l.name);
    } else {
      var rest := if l.spaced then [SPACE] + l.value else l.value;
      ColonAfter(l.name, rest);
      assert line[..|l.name|] == l.name && line[|l.name| + 1..] == rest;
      if l.spaced {
        assert line[|l.name| + 1] == SPACE && line[|l.name| + 2..] == l.value;
      } else if rest != [] {
        assert line[|l.name| + 1] == l.value[0];
      }
    }
    assert line[0] == l.name[0];
  }

  /** The frame after a field that fits. */
  function Counted(f: Frame, name: Bytes, value: Bytes, size: nat): Frame {
    Frame(if name == FIELD_DATA then f.data + [value] else f.data,
          if name == FIELD_EVENT then Some(value) else f.event,
          size)
  }

  lemma NamesDiffer()
    ensures FIELD_DATA != FIELD_EVENT
  {
    assert FIELD_DATA[0] != FIELD_EVENT[0];
  }

  /** What one line does: comments are heartbeats, data is collected, an event name replaces the last one, other
      fields only count. */
  lemma LineMeans(f: Frame, l: Line, limits: Limits)
    requires Proper(l) && ValidUtf8(Written(l))
    ensures LineStep(f, Written(l), limits) ==
            if l.Comment? then Ok(Framed(f, [Heartbeat]))
            else if f.eventBytes + |Written(l)| + 1 > limits.maxEvent then Err(EventTooLarge)
            else Ok(Framed(Counted(f, l.name, ValueOf(l), f.eventBytes + |Written(l)| + 1), []))
  {
    if l.Comment? {
      assert Written(l)[0] == COLON;
    } else {
      FieldsOf(l);
      FieldStep(f, Written(l), l.name, ValueOf(l), limits);
    }
  }

  /** A line that names a field and fits, or not. */
  predicate Names(line: Bytes, name: Bytes, value: Bytes) {
    line != [] && line[0] != COLON && ValidUtf8(line) && FieldName(line) == name && FieldValue(line) == value
  }

  lemma FieldStep(f: Frame, line: Bytes, name: Bytes, value: Bytes, limits: Limits)
    requires Names(line, name, value)
    ensures LineStep(f, line, limits) ==
            if f.eventBytes + |line| + 1 > limits.maxEvent then Err(EventTooLarge)
            else Ok(Framed(Counted(f, name, value, f.eventBytes + |line| + 1), []))
  {
    var size := f.eventBytes + |line| + 1;
    if size <= limits.maxEvent {
      if name == FIELD_DATA {
        DataStep(f, line, value, limits);
      } else if name == FIELD_EVENT {
        EventStep(f, line, value, limits);
      } else {
        OtherStep(f, line, name, value, limits);
      }
    }
  }

  lemma DataStep(f: Frame, line: Bytes, value: Bytes, limits: Limits)
    requires Names(line, FIELD_DATA, value) && f.eventBytes + |line| + 1 <= limits.maxEvent
    ensures LineStep(f, line, limits) == Ok(Framed(Frame(f.data + [value], f.event, f.eventBytes + |line| + 1), []))
  {
  }

  lemma EventStep(f: Frame, line: Bytes, value: Bytes, limits: Limits)
    requires Names(line, FIELD_EVENT, value) && f.eventBytes + |line| + 1 <= limits.maxEvent
    ensures LineStep(f, line, limits) == Ok(Framed(Frame(f.data, Some(value), f.eventBytes + |line| + 1), []))
  {
    NamesDiffer();
  }

  lemma OtherStep(f: Frame, line: Bytes, name: Bytes, value: Bytes, limits: Limits)
    requires Names(line, name, value) && name != FIELD_DATA && name != FIELD_EVENT
    requires f.eventBytes + |line| + 1 <= limits.maxEvent
    ensures LineStep(f, line, limits) == Ok(Framed(Frame(f.data, f.event, f.eventBytes + |line| + 1), []))
  {
  }

  // ---------------------------------------------------------------- messages

  /** The values of the data lines, in order. */
  function DataOf(block: seq<Line>): seq<Bytes> {
    if block == [] then []
    else
      var last := block[|block| - 1];
      DataOf(block[..|block| - 1]) + if !last.Comment? && last.name == FIELD_DATA then [ValueOf(last)] else []
  }

  /** The value of the last event line, if there is one. */
  function EventOf(block: seq<Line>): Option<Bytes> {
    if block == [] then None
    else
      var last := block[|block| - 1];
      if !last.Comment? && last.name == FIELD_EVENT then Some(ValueOf(last)) else EventOf(block[..|block| - 1])
  }

  /** What the lines count towards the event limit. */
  function SizeOf(block: seq<Line>): nat {
    if block == [] then 0
    else
      var last := block[|block| - 1];
      SizeOf(block[..|block| - 1]) + if last.Comment? then 0 else |Written(last)| + 1
  }

  function Beats(block: seq<Line>): seq<SseEvent> {
    if block == [] then []
    else Beats(block[..|block| - 1]) + BeatOf(block[|block| - 1])
  }

  /** Data lines of one half come before those of the other; an event named later replaces one named before. */
  lemma {:induction false} InOrder(x: seq<Line>, y: seq<Line>)
    ensures DataOf(x + y) == DataOf(x) + DataOf(y)
    ensures EventOf(x + y) == if EventOf(y).Some? then EventOf(y) else EventOf(x)
    decreases |y|
  {
    if y == [] {
      assert x + y == x && DataOf(x) + [] == DataOf(x);
    } else {
      var front := y[..|y| - 1];
      assert (x + y)[..|x + y| - 1] == x + front;
      InOrder(x, front);
    }
  }

  function WrittenAll(block: seq<Line>): (r: seq<Bytes>)
    ensures |r| == |block|
  {
    if block == [] then [] else WrittenAll(block[..|block| - 1]) + [Written(block[|block| - 1])]
  }

  predicate Readable(l: Line, limits: Limits) {
    Proper(l) && ValidUtf8(Written(l)) && |Written(l)| <= limits.maxLine
  }

  predicate AllReadable(block: seq<Line>, limits: Limits) {
    forall i :: 0 <= i < |block| ==> Readable(block[i], limits)
  }

  /** The frame and the heartbeats that the lines of a message leave before the blank line. */
  function Gathered(block: seq<Line>): Framed { Framed(Frame(DataOf(block), EventOf(block), SizeOf(block)), Beats(block)) }

  lemma {:induction false} FoldSplits(f: Frame, x: seq<Bytes>, y: seq<Bytes>, limits: Limits)
    ensures var first := FoldLines(f, x, limits);
      FoldLines(f, x + y, limits) ==
      if first.Err? then first
      else
        var then_ := FoldLines(first.value.frame, y, limits);
        if then_.Err? then then_ else Ok(Framed(then_.value.frame, first.value.events + then_.value.events))
    decreases |x|
  {
    if x == [] {
      assert x + y == y;
      var later := FoldLines(f, y, limits);
      if later.Ok? {
        assert [] + later.value.events == later.value.events;
      }
    } else {
      assert (x + y)[1..] == x[1..] + y;
      if |x[0]| <= limits.maxLine && LineStep(f, x[0], limits).Ok? {
        var r := LineStep(f, x[0], limits).value;
        FoldSplits(r.frame, x[1..], y, limits);
        var mid := FoldLines(r.frame, x[1..], limits);
        if mid.Ok? && FoldLines(mid.value.frame, y, limits).Ok? {
          Associates(r.events, mid.value.events, FoldLines(mid.value.frame, y, limits).value.events);
        }
      }
    }
  }

  lemma Associates(x: seq<SseEvent>, y: seq<SseEvent>, z: seq<SseEvent>)
    ensures x + (y + z) == x + y + z
  {
  }

  lemma FoldLine(f: Frame, line: Bytes, limits: Limits)
    requires |line| <= limits.maxLine
    ensures FoldLines(f, [line], limits) == LineStep(f, line, limits)
  {
    assert [line][1..] == [];
    var r := LineStep(f, line, limits);
    if r.Ok? {
      assert FoldLines(r.value.frame, [], limits) == Ok(Framed(r.value.frame, []));
      assert r.value.events + [] == r.value.events;
    }
  }

  function BeatOf(l: Line): seq<SseEvent> { if l.Comment? then [Heartbeat] else [] }

  lemma GatheredMore(block: seq<Line>)
    requires block != []
    ensures var front, last := Gathered(block[..|block| - 1]).frame, block[|block| - 1];
      Gathered(block).frame ==
      if last.Comment? then front
      else Counted(front, last.name, ValueOf(last), front.eventBytes + |Written(last)| + 1)
  {
    var front, last := block[..|block| - 1], block[|block| - 1];
    assert DataOf(front) + [] == DataOf(front);
    NamesDiffer();
  }

  lemma OneMoreLine(f: Frame, g: Frame, last: Line, limits: Limits)
    requires Readable(last, limits) && f.eventBytes <= limits.maxEvent
    requires g == if last.Comment? then f else Counted(f, last.name, ValueOf(last), f.eventBytes + |Written(last)| + 1)
    ensures LineStep(f, Written(last), limits) ==
            if g.eventBytes > limits.maxEvent then Err(EventTooLarge) else Ok(Framed(g, BeatOf(last)))
  {
    LineMeans(f, last, limits);
  }

  /** The lines of one message are gathered, or are too much for it; nothing else can happen. */
  lemma {:induction false} BlockGathers(block: seq<Line>, limits: Limits)
    requires AllReadable(block, limits)
    ensures FoldLines(EMPTY, WrittenAll(block), limits) ==
            if SizeOf(block) > limits.maxEvent then Err(EventTooLarge) else Ok(Gathered(block))
    decreases |block|
  {
    if block != [] {
      var front, last := block[..|block| - 1], block[|block| - 1];
      assert forall i :: 0 <= i < |front| ==> front[i] == block[i];
      BlockGathers(front, limits);
      FoldSplits(EMPTY, WrittenAll(front), [Written(last)], limits);
      if SizeOf(front) <= limits.maxEvent {
        assert Readable(last, limits);
        FoldLine(Gathered(front).frame, Written(last), limits);
        GatheredMore(block);
        OneMoreLine(Gathered(front).frame, Gathered(block).frame, last, limits);
      }
    }
  }

  /** What a message says: its event is the last one named, its data the values of its data lines, in order, one to a
      line; without either there is no message. */
  function MessageOf(block: seq<Line>): seq<SseEvent> {
    if DataOf(block) == [] && EventOf(block).None? then []
    else [Message(EventOf(block), S.Join(DataOf(block), LF))]
  }

  lemma MessageMeans(block: seq<Line>, limits: Limits)
    requires AllReadable(block, limits)
    ensures FoldLines(EMPTY, WrittenAll(block) + [[]], limits) ==
            if SizeOf(block) > limits.maxEvent then Err(EventTooLarge)
            else Ok(Framed(EMPTY, Beats(block) + MessageOf(block)))
  {
    BlockGathers(block, limits);
    FoldSplits(EMPTY, WrittenAll(block), [[]], limits);
    if SizeOf(block) <= limits.maxEvent {
      FoldLine(Gathered(block).frame, [], limits);
    }
  }

  predicate OneLine(s: Bytes) { forall i :: 0 <= i < |s| ==> !EndsLine(s[i]) }

  predicate AllOneLine(block: seq<Line>) { forall i :: 0 <= i < |block| ==> OneLine(Written(block[i])) }

  lemma ValueIsOneLine(l: Line)
    requires OneLine(Written(l)) && !l.Comment?
    ensures S.Free(ValueOf(l), LF)
  {
    if l.Field? {
      var front := l.name + [COLON] + if l.spaced then [SPACE] else [];
      assert Written(l) == front + l.value;
      forall i | 0 <= i < |l.value| ensures l.value[i] != LF {
        assert Written(l)[|front| + i] == l.value[i];
      }
    }
  }

  lemma {:induction false} DataIsOneLineEach(block: seq<Line>)
    requires AllOneLine(block)
    ensures S.AllFree(DataOf(block), LF)
  {
    if block != [] {
      var front, last := block[..|block| - 1], block[|block| - 1];
      assert forall i :: 0 <= i < |front| ==> front[i] == block[i];
      DataIsOneLineEach(front);
      if !last.Comment? {
        ValueIsOneLine(last);
      }
    }
  }

  /** Cutting a message's data at its line feeds gives the values of its data lines back. */
  lemma DataSplitsBack(block: seq<Line>)
    requires AllOneLine(block) && DataOf(block) != []
    ensures MessageOf(block) != [] && S.Split(MessageOf(block)[0].data, LF) == DataOf(block)
  {
    DataIsOneLineEach(block);
    S.SplitOfJoin(DataOf(block), LF);
  }

  // ---------------------------------------------------------------- whole streams

  /** The three ways a line may end. */
  datatype Ending = Lf | Cr | CrLf

  function EndOf(e: Ending): Bytes {
    match e
    case Lf => [LF]
    case Cr => [CR]
    case CrLf => [CR, LF]
  }

  function Rendered(lines: seq<Bytes>, e: Ending): Bytes {
    if lines == [] then [] else lines[0] + EndOf(e) + Rendered(lines[1..], e)
  }

  /** What follows cannot be taken for the second half of the line end. */
  predicate Apart(e: Ending, rest: Bytes) { e.Cr? && rest != [] ==> rest[0] != LF }

  lemma SplitLine(line: Bytes, e: Ending, rest: Bytes)
    requires OneLine(line) && Apart(e, rest)
    ensures SplitLines(line + EndOf(e) + rest) == Lines([line] + SplitLines(rest).complete, SplitLines(rest).partial)
  {
    var b := line + EndOf(e) + rest;
    assert b[|line|] == EndOf(e)[0];
    assert forall i :: 0 <= i < |line| ==> b[i] == line[i];
    assert LineEnd(b) == |line|;
    assert b[..|line|] == line && b[|line| + |EndOf(e)|..] == rest;
    assert AfterLine(b, |line|) == rest by {
      if e.CrLf? {
        assert b[|line| + 1] == LF;
      } else if rest != [] {
        assert b[|line| + 1] == rest[0];
      }
    }
  }

  lemma RenderedStaysApart(lines: seq<Bytes>, e: Ending, rest: Bytes)
    requires if lines == [] then Apart(e, rest) else OneLine(lines[0])
    ensures Apart(e, Rendered(lines, e) + rest)
  {
    if lines == [] {
      assert [] + rest == rest;
    } else {
      var b := Rendered(lines, e);
      assert b[0] == if lines[0] == [] then EndOf(e)[0] else lines[0][0];
    }
  }

  /** Rendered lines are read as those lines, and then what follows them. */
  lemma {:induction false} SplitRendered(lines: seq<Bytes>, e: Ending, rest: Bytes)
    requires (forall i :: 0 <= i < |lines| ==> OneLine(lines[i])) && Apart(e, rest)
    ensures SplitLines(Rendered(lines, e) + rest) ==
            Lines(lines + SplitLines(rest).complete, SplitLines(rest).partial)
    decreases |lines|
  {
    if lines == [] {
      NothingRendered(e, rest);
    } else {
      var tail := Rendered(lines[1..], e) + rest;
      SplitRendered(lines[1..], e, rest);
      RenderedStaysApart(lines[1..], e, rest);
      RenderedHead(lines, e, rest);
      SplitLine(lines[0], e, tail);
      HeadAndTail(lines, SplitLines(rest).complete);
    }
  }

  lemma NothingRendered(e: Ending, rest: Bytes)
    ensures Rendered([], e) + rest == rest
    ensures Lines([] + SplitLines(rest).complete, SplitLines(rest).partial) == SplitLines(rest)
  {
    assert [] + SplitLines(rest).complete == SplitLines(rest).complete;
  }

  lemma RenderedHead(lines: seq<Bytes>, e: Ending, rest: Bytes)
    requires lines != []
    ensures Rendered(lines, e) + rest == lines[0] + EndOf(e) + (Rendered(lines[1..], e) + rest)
  {
  }

  lemma HeadAndTail(lines: seq<Bytes>, more: seq<Bytes>)
    requires lines != []
    ensures [lines[0]] + (lines[1..] + more) == lines + more
  {
  }

  lemma {:induction false} RenderedEnds(lines: seq<Bytes>, e: Ending)
    requires lines != []
    ensures var b := Rendered(lines, e); b != [] && b[|b| - 1] == if e.Cr? then CR else LF
    decreases |lines|
  {
    if |lines| > 1 {
      RenderedEnds(lines[1..], e);
    } else {
      assert Rendered(lines[1..], e) == [];
    }
  }

  /** A stream is a sequence of messages, each a block of lines and a blank line. */
  function LinesOf(blocks: seq<seq<Line>>): seq<Bytes> {
    if blocks == [] then [] else WrittenAll(blocks[0]) + [[]] + LinesOf(blocks[1..])
  }

  function SaidBy(blocks: seq<seq<Line>>): seq<SseEvent> {
    if blocks == [] then [] else Beats(blocks[0]) + MessageOf(blocks[0]) + SaidBy(blocks[1..])
  }

  predicate BlockFits(block: seq<Line>, limits: Limits) {
    AllReadable(block, limits) && AllOneLine(block) && SizeOf(block) <= limits.maxEvent
  }

  predicate Fits(blocks: seq<seq<Line>>, limits: Limits) {
    forall i :: 0 <= i < |blocks| ==> BlockFits(blocks[i], limits)
  }

  lemma {:induction false} FoldBlocks(blocks: seq<seq<Line>>, limits: Limits)
    requires Fits(blocks, limits)
    ensures FoldLines(EMPTY, LinesOf(blocks), limits) == Ok(Framed(EMPTY, SaidBy(blocks)))
    decreases |blocks|
  {
    if blocks != [] {
      assert BlockFits(blocks[0], limits);
      MessageMeans(blocks[0], limits);
      FoldBlocks(blocks[1..], limits);
      FoldSplits(EMPTY, WrittenAll(blocks[0]) + [[]], LinesOf(blocks[1..]), limits);
    }
  }

  lemma {:induction false} WrittenLines(block: seq<Line>, i: nat)
    requires i < |block|
    ensures WrittenAll(block)[i] == Written(block[i])
  {
    if i < |block| - 1 {
      WrittenLines(block[..|block| - 1], i);
    }
  }

  lemma {:induction false} LinesAreOneLine(blocks: seq<seq<Line>>, limits: Limits)
    requires Fits(blocks, limits)
    ensures forall i :: 0 <= i < |LinesOf(blocks)| ==> OneLine(LinesOf(blocks)[i])
    decreases |blocks|
  {
    if blocks != [] {
      assert BlockFits(blocks[0], limits);
      LinesAreOneLine(blocks[1..], limits);
      var first := WrittenAll(blocks[0]);
      forall i | 0 <= i < |first| ensures OneLine(first[i]) {
        WrittenLines(blocks[0], i);
      }
    }
  }

  /** The bytes of a stream, behind a byte order mark or not. */
  function StreamOf(blocks: seq<seq<Line>>, e: Ending, marked: bool): Bytes {
    (if marked then BOM else []) + Rendered(LinesOf(blocks), e)
  }

  /** An unmarked stream must not look marked, and must be long enough to tell. */
  predicate Plain(body: Bytes) { |body| >= 3 && body[..3] != BOM }

  lemma BodyMeans(blocks: seq<seq<Line>>, e: Ending, limits: Limits)
    requires blocks != [] && Fits(blocks, limits)
    ensures ReferenceBody(EMPTY, Rendered(LinesOf(blocks), e), limits) ==
            Ok(Out(Decoder([], EMPTY, e.Cr?, [], true), SaidBy(blocks)))
  {
    FoldBlocks(blocks, limits);
    LinesAreOneLine(blocks, limits);
    SplitRendered(LinesOf(blocks), e, []);
    assert Rendered(LinesOf(blocks), e) + [] == Rendered(LinesOf(blocks), e) && LinesOf(blocks) + [] == LinesOf(blocks);
    RenderedEnds(LinesOf(blocks), e);
  }

  lemma MarkIsDropped(body: Bytes, marked: bool, limits: Limits)
    requires marked || Plain(body)
    ensures Reference((if marked then BOM else []) + body, limits) == ReferenceBody(EMPTY, body, limits)
  {
    var input := (if marked then BOM else []) + body;
    if marked {
      assert input[..3] == BOM && input[3..] == body;
    } else {
      assert input == body;
    }
  }

  /** However its bytes are cut and its lines end, a stream of messages decodes to exactly what its lines say, with
      nothing left over. */
  lemma StreamMeans(blocks: seq<seq<Line>>, e: Ending, marked: bool, chunks: seq<Bytes>, limits: Limits)
    requires blocks != [] && Fits(blocks, limits) && Flatten(chunks) == StreamOf(blocks, e, marked)
    requires marked || Plain(StreamOf(blocks, e, false))
    ensures PushAll(FRESH, chunks, limits) == Ok(Out(Decoder([], EMPTY, e.Cr?, [], true), SaidBy(blocks)))
  {
    var body := Rendered(LinesOf(blocks), e);
    assert [] + body == body;
    ChunkingIsInvisible(chunks, limits);
    MarkIsDropped(body, marked, limits);
    BodyMeans(blocks, e, limits);
  }

  predicate Overflows(block: seq<Line>, line: Bytes, limits: Limits)
    requires line != []
  {
    line[0] != COLON && SizeOf(block) + |line| + 1 > limits.maxEvent
  }

  /** The first line at fault decides the error: over the line limit, then not UTF-8, then too much for its message. */
  lemma FirstFault(before: seq<seq<Line>>, block: seq<Line>, line: Bytes, after: seq<Bytes>, limits: Limits)
    requires Fits(before, limits) && BlockFits(block, limits) && line != []
    ensures var r := FoldLines(EMPTY, LinesOf(before) + (WrittenAll(block) + ([line] + after)), limits);
      && (|line| > limits.maxLine ==> r == Err(LineTooLarge))
      && (|line| <= limits.maxLine && !ValidUtf8(line) ==> r == Err(InvalidUtf8))
      && (|line| <= limits.maxLine && ValidUtf8(line) && Overflows(block, line, limits) ==> r == Err(EventTooLarge))
  {
    FoldBlocks(before, limits);
    BlockGathers(block, limits);
    FoldSplits(EMPTY, LinesOf(before), WrittenAll(block) + ([line] + after), limits);
    FoldSplits(EMPTY, WrittenAll(block), [line] + after, limits);
    assert ([line] + after)[0] == line;
  }
}
