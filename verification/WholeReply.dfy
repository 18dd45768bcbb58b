/** From what the server streams to what the user reads: messages that each carry some text, then [DONE], however the
    response is cut. */
module WholeReply {
  import opened Wire
  import opened Utf8
  import opened Sse
  import opened Generation
  import opened GenerationMeaning
  import M = SseMeaning

  // ---------------------------------------------------------------- where a run may be cut

  predicate AllChunks(inputs: seq<Input>) { forall i :: 0 <= i < |inputs| ==> inputs[i].Chunk? }

  /** A run that is still waiting for more has taken all there was. */
  lemma {:induction false} WaitingTookAll(d: Decoder, f: Fold, inputs: seq<Input>)
    requires Coherent(d) && AllChunks(inputs)
    requires var push := Push(d, Body(inputs[..Taken(d, f, inputs)]), LIMITS);
      push.Ok? && Consume(f, push.value.events).Running?
    ensures Taken(d, f, inputs) == |inputs|
    decreases |inputs|
  {
    if inputs != [] {
      var b, taken := inputs[0].bytes, inputs[..Taken(d, f, inputs)];
      assert taken[0] == inputs[0];
      var rest := Body(taken[1..]);
      assert Body(taken) == b + rest;
      PushKeepsCoherent(d, b, LIMITS);
      PushSplits(d, b, rest, LIMITS);
      if |taken| == 1 {
        assert taken[1..] == [];
        assert b + rest == b;
      }
      var o := Push(d, b, LIMITS).value;
      if Consume(f, o.events).Running? {
        var g := Consume(f, o.events).fold;
        assert taken[1..] == inputs[1..][..Taken(o.decoder, g, inputs[1..])];
        PushThenRest(d, f, b, o, rest);
        WaitingTookAll(o.decoder, g, inputs[1..]);
      }
    }
  }

  /** These bytes end a run with this reply. */
  ghost predicate Finishes(bytes: Bytes, run: Run) {
    var push := Push(FRESH, bytes, LIMITS);
    && push.Ok?
    && Consume(START, push.value.events) == Stopped(run.fold)
    && Conclude(push.value.decoder, run.fold) == run.reply
  }

  /** A run goes past bytes that leave it undecided, however they are cut. */
  lemma GoesPast(front: Bytes, inputs: seq<Input>)
    requires front < Body(inputs) && AllChunks(inputs) && StillRunning(front)
    ensures |front| < |TakenBody(inputs)| && TakenBody(inputs) <= Body(inputs)
  {
    var taken := TakenBody(inputs);
    TakenIsPrefix(inputs);
    if |taken| <= |front| {
      assert taken <= front;
      PrefixRunAgrees(taken, front);
      WaitingTookAll(FRESH, START, inputs);
    }
  }

  /** A run that takes bytes that finish it ends so. */
  lemma EndsThere(inputs: seq<Input>, run: Run)
    requires Finishes(TakenBody(inputs), run)
    ensures Generate(FRESH, START, inputs) == run
  {
    RunReadsAsOne(FRESH, START, inputs);
  }

  // ---------------------------------------------------------------- messages that carry text

  /** The data is one line of JSON that adds this text and does not finish. */
  ghost predicate Adding(data: Bytes, text: Bytes) {
    exists members, choice, delta ::
      && Parsed(data, members) && Opens(members, choice, delta)
      && AllFine(delta) && NotFinished(choice) && Adds(delta, text)
  }

  lemma AddingDecodes(data: Bytes, text: Bytes, sequence: nat)
    requires Adding(data, text)
    ensures DecodeEvent(data, sequence) == Events([TextDelta(sequence, text)]) && Trim(data) != DONE
  {
    var members, choice, delta :|
      && Parsed(data, members) && Opens(members, choice, delta)
      && AllFine(delta) && NotFinished(choice) && Adds(delta, text);
    SpokenMeaning(data, sequence, members, choice, delta);
    assert Legible(choice, delta);
    OnlyDelta(DecodeEvent(data, sequence).events, choice, delta, sequence, text);
  }

  lemma OnlyDelta(events: seq<GenEvent>, choice: seq<Member>, delta: seq<Member>, sequence: nat, text: Bytes)
    requires Tells(events, choice, delta, sequence) && NotFinished(choice) && Adds(delta, text)
    ensures events == [TextDelta(sequence, text)]
  {
    assert TextDelta(sequence, text) in events && |events| == 1;
  }

  function Concat(texts: seq<Bytes>): Bytes {
    if texts == [] then [] else Concat(texts[..|texts| - 1]) + texts[|texts| - 1]
  }

  lemma OneMessage(f: Fold, event: Option<Bytes>, value: Bytes, es: seq<GenEvent>, done: bool, g: Fold)
    requires ReadMessage(event, value, f.sequence) == Said(es, done)
    requires GenSteps(f.(sequence := f.sequence + 1), es) == Going(g)
    ensures Consume(f, [Message(event, value)]) == if done then Stopped(g) else Running(g)
  {
    var r := ReadMessage(event, value, f.sequence);
    Handled(f, r, es, done, g);
    Alone(f, event, value, r, MessageStep(f, r));
  }

  lemma Handled(f: Fold, r: Reading, es: seq<GenEvent>, done: bool, g: Fold)
    requires r == Said(es, done) && GenSteps(f.(sequence := f.sequence + 1), es) == Going(g)
    ensures MessageStep(f, r) == if done then Stopped(g) else Running(g)
  {
  }

  lemma Alone(f: Fold, event: Option<Bytes>, data: Bytes, r: Reading, c: Consumed)
    requires ReadMessage(event, data, f.sequence) == r && MessageStep(f, r) == c
    ensures Consume(f, [Message(event, data)]) == c
  {
    assert [Message(event, data)][1..] == [];
    if c.Running? {
      assert Consume(c.fold, []) == c;
    }
  }

  lemma OneEvent(f: Fold, e: GenEvent, g: Fold)
    requires GenStep(f, e) == Going(g)
    ensures GenSteps(f, [e]) == Going(g)
  {
    assert [e][1..] == [];
  }

  lemma OneMoreDelta(f: Fold, event: Option<Bytes>, value: Bytes, text: Bytes) returns (g: Fold)
    requires !IsError(event) && Adding(value, text) && f.terminal.None? && f.sequence + 1 < U64_LIMIT
    requires |f.text| + |text| <= GENERATION_MAX_TEXT_BYTES
    ensures Consume(f, [Message(event, value)]) == Running(g)
    ensures g.text == f.text + text && g.terminal.None? && g.sequence == f.sequence + 1
  {
    AddingReads(event, value, text, f.sequence);
    g := DeltaMessage(f, event, value, TextDelta(f.sequence + 1, text));
  }

  lemma DeltaMessage(f: Fold, event: Option<Bytes>, value: Bytes, e: GenEvent) returns (g: Fold)
    requires ReadMessage(event, value, f.sequence) == Said([e], false)
    requires e.TextDelta? && f.terminal.None? && |f.text| + |e.text| <= GENERATION_MAX_TEXT_BYTES
    ensures Consume(f, [Message(event, value)]) == Running(g)
    ensures g.text == f.text + e.text && g.terminal.None? && g.sequence == f.sequence + 1
  {
    g := DeltaStep(f.(sequence := f.sequence + 1), e);
    OneMessage(f, event, value, [e], false, g);
  }

  lemma AddingReads(event: Option<Bytes>, value: Bytes, text: Bytes, sequence: nat)
    requires !IsError(event) && Adding(value, text) && sequence + 1 < U64_LIMIT
    ensures ReadMessage(event, value, sequence) == Said([TextDelta(sequence + 1, text)], false)
  {
    AddingDecodes(value, text, sequence + 1);
  }

  lemma DeltaStep(h: Fold, e: GenEvent) returns (g: Fold)
    requires e.TextDelta? && h.terminal.None? && |h.text| + |e.text| <= GENERATION_MAX_TEXT_BYTES
    ensures GenSteps(h, [e]) == Going(g)
    ensures g.text == h.text + e.text && g.terminal.None? && g.sequence == h.sequence
  {
    g := GenStep(h, e).fold;
    OneEvent(h, e, g);
  }

  lemma DoneMessage(f: Fold, event: Option<Bytes>, last: Bytes) returns (g: Fold)
    requires !IsError(event) && f.terminal.None? && f.sequence + 1 < U64_LIMIT && Trim(last) == DONE
    ensures Consume(f, [Message(event, last)]) == Stopped(g)
    ensures g.text == f.text && g.terminal == Some(STOP)
  {
    var h := f.(sequence := f.sequence + 1);
    g := h.(terminal := Some(STOP));
    assert DecodeEvent(last, f.sequence + 1) == Events([Finished(STOP)]);
    OneEvent(h, Finished(STOP), g);
    OneMessage(f, event, last, [Finished(STOP)], true, g);
  }

  // ---------------------------------------------------------------- blocks of lines

  /** The block is a message, under no error event, with this data. */
  predicate Gives(block: seq<M.Line>, data: Bytes) {
    && M.MessageOf(block) != [] && M.MessageOf(block)[0].data == data && !IsError(M.MessageOf(block)[0].event)
  }

  ghost predicate BlockAdds(block: seq<M.Line>, text: Bytes) {
    exists data :: Gives(block, data) && Adding(data, text)
  }

  ghost predicate AllAdd(blocks: seq<seq<M.Line>>, texts: seq<Bytes>) {
    |blocks| == |texts| && forall i :: 0 <= i < |blocks| ==> BlockAdds(blocks[i], texts[i])
  }

  predicate OnlyBeats(events: seq<SseEvent>) { forall i :: 0 <= i < |events| ==> events[i] == Heartbeat }

  lemma {:induction false} BeatsAreBeats(block: seq<M.Line>)
    ensures OnlyBeats(M.Beats(block))
  {
    if block != [] {
      BeatsAreBeats(block[..|block| - 1]);
    }
  }

  lemma {:induction false} BeatsAreSkipped(f: Fold, beats: seq<SseEvent>, y: seq<SseEvent>)
    requires OnlyBeats(beats)
    ensures Consume(f, beats + y) == Consume(f, y)
  {
    if beats == [] {
      assert beats + y == y;
    } else {
      assert (beats + y)[1..] == beats[1..] + y;
      BeatsAreSkipped(f, beats[1..], y);
    }
  }

  function SaidIn(block: seq<M.Line>): seq<SseEvent> { M.Beats(block) + M.MessageOf(block) }

  lemma BlockIsItsMessage(f: Fold, block: seq<M.Line>, data: Bytes)
    requires Gives(block, data)
    ensures Consume(f, SaidIn(block)) == Consume(f, [Message(M.MessageOf(block)[0].event, data)])
  {
    BeatsAreBeats(block);
    BeatsAreSkipped(f, M.Beats(block), M.MessageOf(block));
    assert M.MessageOf(block) == [Message(M.MessageOf(block)[0].event, data)];
  }

  lemma {:induction false} SaidByMore(blocks: seq<seq<M.Line>>, block: seq<M.Line>)
    ensures M.SaidBy(blocks + [block]) == M.SaidBy(blocks) + SaidIn(block)
    decreases |blocks|
  {
    if blocks == [] {
      assert blocks + [block] == [block] && [block][1..] == [];
      assert SaidIn(block) + [] == SaidIn(block);
    } else {
      assert (blocks + [block])[1..] == blocks[1..] + [block];
      SaidByMore(blocks[1..], block);
    }
  }

  lemma BlockThen(blocks: seq<seq<M.Line>>, f: Fold, block: seq<M.Line>, c: Consumed)
    requires Consume(START, M.SaidBy(blocks)) == Running(f) && Consume(f, SaidIn(block)) == c
    ensures Consume(START, M.SaidBy(blocks + [block])) == c
  {
    SaidByMore(blocks, block);
    ConsumeSplits(START, M.SaidBy(blocks), SaidIn(block));
  }

  lemma OneMoreBlock(f: Fold, block: seq<M.Line>, text: Bytes) returns (g: Fold)
    requires BlockAdds(block, text) && f.terminal.None? && f.sequence + 1 < U64_LIMIT
    requires |f.text| + |text| <= GENERATION_MAX_TEXT_BYTES
    ensures Consume(f, SaidIn(block)) == Running(g)
    ensures g.text == f.text + text && g.terminal.None? && g.sequence == f.sequence + 1
  {
    var data :| Gives(block, data) && Adding(data, text);
    g := OneMoreDelta(f, M.MessageOf(block)[0].event, data, text);
    BlockIsItsMessage(f, block, data);
  }

  lemma AllButLast(blocks: seq<seq<M.Line>>, texts: seq<Bytes>, n: nat)
    requires AllAdd(blocks, texts) && |blocks| == n + 1
    ensures AllAdd(blocks[..n], texts[..n]) && BlockAdds(blocks[n], texts[n])
  {
    var front, said := blocks[..n], texts[..n];
    forall i | 0 <= i < n ensures BlockAdds(front[i], said[i]) {
      assert front[i] == blocks[i] && said[i] == texts[i];
    }
  }

  lemma LastApart(blocks: seq<seq<M.Line>>, n: nat)
    requires |blocks| == n + 1
    ensures blocks == blocks[..n] + [blocks[n]]
  {
  }

  /** Messages that carry text are folded into all of it, in order. */
  lemma {:induction false} Deltas(blocks: seq<seq<M.Line>>, texts: seq<Bytes>) returns (f: Fold)
    requires AllAdd(blocks, texts) && |blocks| < U64_LIMIT && |Concat(texts)| <= GENERATION_MAX_TEXT_BYTES
    ensures Consume(START, M.SaidBy(blocks)) == Running(f)
    ensures f.text == Concat(texts) && f.terminal.None? && f.sequence == |blocks|
    decreases |blocks|
  {
    if blocks == [] {
      f := START;
    } else {
      var n := |blocks| - 1;
      AllButLast(blocks, texts, n);
      LastApart(blocks, n);
      var before := Deltas(blocks[..n], texts[..n]);
      f := OneMoreBlock(before, blocks[n], texts[n]);
      BlockThen(blocks[..n], before, blocks[n], Running(f));
    }
  }

  /** And [DONE] after them finishes with "stop". */
  lemma Ending(blocks: seq<seq<M.Line>>, texts: seq<Bytes>, last: seq<M.Line>, data: Bytes) returns (g: Fold)
    requires AllAdd(blocks, texts) && |blocks| + 1 < U64_LIMIT && |Concat(texts)| <= GENERATION_MAX_TEXT_BYTES
    requires Gives(last, data) && Trim(data) == DONE
    ensures Consume(START, M.SaidBy(blocks) + M.Beats(last)).Running?
    ensures Consume(START, M.SaidBy(blocks + [last])) == Stopped(g)
    ensures g.text == Concat(texts) && g.terminal == Some(STOP)
  {
    var f := Deltas(blocks, texts);
    g := DoneMessage(f, M.MessageOf(last)[0].event, data);
    BlockIsItsMessage(f, last, data);
    BlockThen(blocks, f, last, Stopped(g));
    BeatsAreBeats(last);
    BeatsAreSkipped(f, M.Beats(last), []);
    assert M.Beats(last) + [] == M.Beats(last);
    ConsumeSplits(START, M.SaidBy(blocks), M.Beats(last));
  }

  // ---------------------------------------------------------------- the stream

  /** All lines but the blank one that ends the last message. */
  function Lines(blocks: seq<seq<M.Line>>, last: seq<M.Line>): seq<Bytes> { M.LinesOf(blocks) + M.WrittenAll(last) }

  lemma {:induction false} LinesOfMore(blocks: seq<seq<M.Line>>, last: seq<M.Line>)
    ensures M.LinesOf(blocks + [last]) == Lines(blocks, last) + [[]]
    decreases |blocks|
  {
    var all := blocks + [last];
    if blocks == [] {
      assert all == [last] && all[1..] == [];
      assert M.LinesOf(all[1..]) == [];
    } else {
      assert all[1..] == blocks[1..] + [last];
      LinesOfMore(blocks[1..], last);
    }
  }

  lemma {:induction false} RenderedMore(lines: seq<Bytes>, e: M.Ending)
    ensures M.Rendered(lines + [[]], e) == M.Rendered(lines, e) + M.EndOf(e)
    decreases |lines|
  {
    if lines == [] {
      assert lines + [[]] == [[]];
      assert M.Rendered([[]][1..], e) == [];
    } else {
      assert (lines + [[]])[1..] == lines[1..] + [[]];
      RenderedMore(lines[1..], e);
    }
  }

  predicate AllOneLine(lines: seq<Bytes>) { forall i :: 0 <= i < |lines| ==> M.OneLine(lines[i]) }

  lemma LinesAreOneLine(blocks: seq<seq<M.Line>>, last: seq<M.Line>)
    requires M.Fits(blocks + [last], LIMITS)
    ensures AllOneLine(Lines(blocks, last))
  {
    M.LinesAreOneLine(blocks + [last], LIMITS);
    LinesOfMore(blocks, last);
    var all, lines := M.LinesOf(blocks + [last]), Lines(blocks, last);
    forall i | 0 <= i < |lines| ensures M.OneLine(lines[i]) {
      assert lines[i] == all[i];
    }
  }

  /** Before its last line end the stream has said all but the last message. */
  lemma FrontReads(blocks: seq<seq<M.Line>>, last: seq<M.Line>, e: M.Ending)
    requires M.Fits(blocks + [last], LIMITS)
    ensures var r := ReferenceBody(EMPTY, M.Rendered(Lines(blocks, last), e), LIMITS);
      r.Ok? && r.value.events == M.SaidBy(blocks) + M.Beats(last)
  {
    FrontFolds(blocks, last);
    LinesAreOneLine(blocks, last);
    M.SplitRendered(Lines(blocks, last), e, []);
    var body := M.Rendered(Lines(blocks, last), e);
    assert body + [] == body && Lines(blocks, last) + [] == Lines(blocks, last);
  }

  lemma FrontFolds(blocks: seq<seq<M.Line>>, last: seq<M.Line>)
    requires M.Fits(blocks + [last], LIMITS)
    ensures var r := FoldLines(EMPTY, Lines(blocks, last), LIMITS);
      r.Ok? && r.value.events == M.SaidBy(blocks) + M.Beats(last)
  {
    var all := blocks + [last];
    assert forall i :: 0 <= i < |blocks| ==> blocks[i] == all[i];
    assert M.BlockFits(all[|blocks|], LIMITS);
    M.FoldBlocks(blocks, LIMITS);
    M.BlockGathers(last, LIMITS);
    M.FoldSplits(EMPTY, M.LinesOf(blocks), M.WrittenAll(last), LIMITS);
  }

  lemma EndIsBlank(e: M.Ending, k: nat)
    requires 0 < k <= |M.EndOf(e)|
    ensures SplitLines(M.EndOf(e)[..k]) == Sse.Lines([[]], []) && M.Apart(e, M.EndOf(e)[..k])
  {
    var b := M.EndOf(e)[..k];
    assert EndsLine(b[0]) && LineEnd(b) == 0;
    assert b[..0] == [] && AfterLine(b, 0) == [];
    assert SplitLines([]) == Sse.Lines([], []);
  }

  /** From then on it has said everything, and nothing is left half-read. */
  lemma EndReads(blocks: seq<seq<M.Line>>, last: seq<M.Line>, e: M.Ending, k: nat)
    requires M.Fits(blocks + [last], LIMITS) && 0 < k <= |M.EndOf(e)|
    ensures var r := ReferenceBody(EMPTY, M.Rendered(Lines(blocks, last), e) + M.EndOf(e)[..k], LIMITS);
      && r.Ok? && r.value.events == M.SaidBy(blocks + [last])
      && r.value.decoder.line == [] && r.value.decoder.frame == EMPTY && r.value.decoder.bomChecked
  {
    M.FoldBlocks(blocks + [last], LIMITS);
    LinesOfMore(blocks, last);
    LinesAreOneLine(blocks, last);
    EndIsBlank(e, k);
    M.SplitRendered(Lines(blocks, last), e, M.EndOf(e)[..k]);
  }

  // ---------------------------------------------------------------- the reply

  function Mark(marked: bool): Bytes { if marked then BOM else [] }

  lemma Reads(body: Bytes, marked: bool, o: Out)
    requires ReferenceBody(EMPTY, body, LIMITS) == Ok(o) && (marked || M.Plain(body))
    ensures Push(FRESH, Mark(marked) + body, LIMITS) == Ok(o)
  {
    M.MarkIsDropped(body, marked, LIMITS);
    OneChunkSpeaks(Mark(marked) + body, [], []);
  }

  /** Messages that carry text and then [DONE], as lines of the response: 64 KiB a line, 256 KiB a message, 4 MiB of
      text. */
  ghost predicate Streams(blocks: seq<seq<M.Line>>, texts: seq<Bytes>, last: seq<M.Line>) {
    && M.Fits(blocks + [last], Limits(65536, 262144)) && AllAdd(blocks, texts) && |blocks| + 1 < U64_LIMIT
    && |Concat(texts)| <= 4194304 && !Blank(Concat(texts))
    && exists data :: Gives(last, data) && Trim(data) == DONE
  }

  /** A response whose messages carry these texts and end with [DONE], its lines ended in any one way, comments and
      other fields among them, behind a byte order mark or not, and cut anywhere, is answered with all the texts, in
      order. */
  lemma StreamedReply(blocks: seq<seq<M.Line>>, texts: seq<Bytes>, last: seq<M.Line>, e: M.Ending, marked: bool,
                      inputs: seq<Input>)
    requires Streams(blocks, texts, last)
    requires marked || M.Plain(M.Rendered(Lines(blocks, last), e))
    requires AllChunks(inputs) && Body(inputs) == M.StreamOf(blocks + [last], e, marked)
    ensures Generate(FRESH, START, inputs).reply == Reply(Concat(texts), STOP)
  {
    var data :| Gives(last, data) && Trim(data) == DONE;
    var g := Ending(blocks, texts, last, data);
    var run := Run(Reply(Concat(texts), STOP), g);
    var front := Mark(marked) + M.Rendered(Lines(blocks, last), e);
    StreamBytes(blocks, last, e, marked);
    FrontRuns(blocks, last, e, marked);
    GoesPast(front, inputs);
    var k := PartTaken(front, M.EndOf(e), TakenBody(inputs));
    PrefixFinishes(blocks, last, e, marked, k, run);
    EndsThere(inputs, run);
  }

  lemma PartTaken(front: Bytes, tail: Bytes, taken: Bytes) returns (k: nat)
    requires taken <= front + tail && |front| < |taken|
    ensures 0 < k <= |tail| && taken == front + tail[..k]
  {
    k := |taken| - |front|;
    assert taken == (front + tail)[..|front| + k];
  }

  /** Its own bytes, all at once, end the run. */
  lemma StreamFinishes(blocks: seq<seq<M.Line>>, texts: seq<Bytes>, last: seq<M.Line>, e: M.Ending, marked: bool)
    returns (run: Run)
    requires Streams(blocks, texts, last) && (marked || M.Plain(M.Rendered(Lines(blocks, last), e)))
    ensures Finishes(M.StreamOf(blocks + [last], e, marked), run) && run.reply == Reply(Concat(texts), STOP)
  {
    var data :| Gives(last, data) && Trim(data) == DONE;
    var g := Ending(blocks, texts, last, data);
    run := Run(Reply(Concat(texts), STOP), g);
    StreamBytes(blocks, last, e, marked);
    PrefixFinishes(blocks, last, e, marked, |M.EndOf(e)|, run);
    assert M.EndOf(e)[..|M.EndOf(e)|] == M.EndOf(e);
  }

  lemma StreamBytes(blocks: seq<seq<M.Line>>, last: seq<M.Line>, e: M.Ending, marked: bool)
    ensures M.StreamOf(blocks + [last], e, marked) == Mark(marked) + M.Rendered(Lines(blocks, last), e) + M.EndOf(e)
  {
    LinesOfMore(blocks, last);
    RenderedMore(Lines(blocks, last), e);
    var body := M.Rendered(Lines(blocks, last), e);
    assert Mark(marked) + (body + M.EndOf(e)) == Mark(marked) + body + M.EndOf(e);
  }

  lemma FrontRuns(blocks: seq<seq<M.Line>>, last: seq<M.Line>, e: M.Ending, marked: bool)
    requires M.Fits(blocks + [last], LIMITS) && (marked || M.Plain(M.Rendered(Lines(blocks, last), e)))
    requires Consume(START, M.SaidBy(blocks) + M.Beats(last)).Running?
    ensures StillRunning(Mark(marked) + M.Rendered(Lines(blocks, last), e))
  {
    var body := M.Rendered(Lines(blocks, last), e);
    FrontReads(blocks, last, e);
    Reads(body, marked, ReferenceBody(EMPTY, body, LIMITS).value);
  }

  lemma PrefixFinishes(blocks: seq<seq<M.Line>>, last: seq<M.Line>, e: M.Ending, marked: bool, k: nat, run: Run)
    requires M.Fits(blocks + [last], LIMITS) && 0 < k <= |M.EndOf(e)|
    requires marked || M.Plain(M.Rendered(Lines(blocks, last), e))
    requires Consume(START, M.SaidBy(blocks + [last])) == Stopped(run.fold)
    requires run.fold.terminal == Some(STOP) && !Blank(run.fold.text) && run.reply == Reply(run.fold.text, STOP)
    ensures Finishes(Mark(marked) + M.Rendered(Lines(blocks, last), e) + M.EndOf(e)[..k], run)
  {
    var body, tail := M.Rendered(Lines(blocks, last), e), M.EndOf(e)[..k];
    EndReads(blocks, last, e, k);
    StillPlain(body, tail, marked);
    CleanEnd(body + tail, marked, ReferenceBody(EMPTY, body + tail, LIMITS).value, run);
    Regrouped(Mark(marked), body, tail);
  }

  lemma StillPlain(body: Bytes, tail: Bytes, marked: bool)
    requires marked || M.Plain(body)
    ensures marked || M.Plain(body + tail)
  {
    if !marked {
      assert (body + tail)[..3] == body[..3];
    }
  }

  lemma CleanEnd(body: Bytes, marked: bool, o: Out, run: Run)
    requires ReferenceBody(EMPTY, body, LIMITS) == Ok(o) && (marked || M.Plain(body))
    requires o.decoder.line == [] && o.decoder.frame == EMPTY && o.decoder.bomChecked
    requires Consume(START, o.events) == Stopped(run.fold)
    requires run.fold.terminal == Some(STOP) && !Blank(run.fold.text) && run.reply == Reply(run.fold.text, STOP)
    ensures Finishes(Mark(marked) + body, run)
  {
    Reads(body, marked, o);
  }

  lemma Regrouped(x: Bytes, y: Bytes, z: Bytes)
    ensures x + (y + z) == x + y + z
  {
  }
}
