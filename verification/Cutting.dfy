/** How a response is cut into chunks can decide whether a reply is made of it: what follows [DONE] in
    the same chunk counts against the stream, what follows in the next chunk is never read. */
module Cutting {
  import opened Wire
  import opened Utf8
  import opened Sse
  import opened Generation
  import M = SseMeaning
  import W = WholeReply

  // ---------------------------------------------------------------- one byte too many

  lemma LooseByte(d: Decoder, x: Byte)
    requires d.bomChecked && d.line == [] && !EndsLine(x)
    ensures Push(d, [x], LIMITS) == Ok(Out(d.(line := [x], skipLf := false), []))
  {
    SingleByte(d, x, LIMITS);
    assert [] + [x] == [x];
  }

  lemma EventsComeAfterTheMark(b: Bytes)
    requires Push(FRESH, b, LIMITS).Ok? && Push(FRESH, b, LIMITS).value.events != []
    ensures Push(FRESH, b, LIMITS).value.decoder.bomChecked
  {
    var prefix := FRESH.bomPrefix + b;
    assert prefix == b;
    if |b| >= 3 {
      ProcessKeepsBom(FRESH.(bomChecked := true, bomPrefix := []), if b[..3] == BOM then b[3..] else b, LIMITS);
    }
  }

  /** A response that ends with [DONE] and succeeds still succeeds when more comes in a later chunk,
      and fails when one more byte comes in the same chunk. */
  lemma CutAfterDone(b: Bytes, x: Byte)
    requires Generate(FRESH, START, [Chunk(b)]).reply.Reply? && !StillRunning(b) && !EndsLine(x)
    ensures Generate(FRESH, START, [Chunk(b), Chunk([x])]) == Generate(FRESH, START, [Chunk(b)])
    ensures Generate(FRESH, START, [Chunk(b + [x])]).reply == NoReply(StreamInvalid)
  {
    var o := Push(FRESH, b, LIMITS).value;
    var c := Consume(START, o.events);
    assert c.Stopped?;
    EventsComeAfterTheMark(b);
    LooseByte(o.decoder, x);
    PushSplits(FRESH, b, [x], LIMITS);
    assert o.events + [] == o.events;
  }

  // ---------------------------------------------------------------- such a response

  /** One response, two ways of cutting it: one gives a reply, the other fails. */
  lemma CuttingCanDecide(blocks: seq<seq<M.Line>>, texts: seq<Bytes>, last: seq<M.Line>, e: M.Ending, marked: bool, x: Byte)
    requires W.Streams(blocks, texts, last) && (marked || M.Plain(M.Rendered(W.Lines(blocks, last), e))) && !EndsLine(x)
    ensures var stream := M.StreamOf(blocks + [last], e, marked);
      var apart, together := [Chunk(stream), Chunk([x])], [Chunk(stream + [x])];
      && Body(apart) == Body(together)
      && Generate(FRESH, START, apart).reply == Reply(W.Concat(texts), STOP)
      && Generate(FRESH, START, together).reply == NoReply(StreamInvalid)
  {
    var stream := M.StreamOf(blocks + [last], e, marked);
    var run := W.StreamFinishes(blocks, texts, last, e, marked);
    StoppedRun(stream, run);
    CutAfterDone(stream, x);
    SameBody(stream, x);
  }

  /** A run over one chunk that ends the stream. */
  lemma StoppedRun(b: Bytes, run: Run)
    requires W.Finishes(b, run)
    ensures Generate(FRESH, START, [Chunk(b)]) == run && !StillRunning(b)
  {
  }

  lemma SameBody(b: Bytes, x: Byte)
    ensures Body([Chunk(b), Chunk([x])]) == Body([Chunk(b + [x])])
  {
    LoneChunk(b + [x]);
    LoneChunk([x]);
    assert [Chunk(b), Chunk([x])][1..] == [Chunk([x])];
  }
}
