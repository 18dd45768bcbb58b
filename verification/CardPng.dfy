/** Character cards inside PNG files: embedding, extracting, and what each leaves of the other. */
module CardPng {
  import opened Wire
  import opened Utf8
  import Base64
  import Generation

  type Json = Generation.Json
  type Word = x: int | 0 <= x < 0x1_0000_0000

  const MAX_JSON_BYTES: nat := 2 * 1024 * 1024
  /** Four; written as a list length so that the verifier keeps `BigEndian` folded. */
  const U32_WIDTH: nat := |[0, 1, 2, 3]|
  const SIGNATURE: Bytes := [137, 80, 78, 71, 13, 10, 26, 10]
  const IEND: Bytes := [73, 69, 78, 68]
  const TEXT: Bytes := [116, 69, 88, 116]         // "tEXt"
  const CCV3: Bytes := [99, 99, 118, 51]          // "ccv3"
  const CHARA: Bytes := [99, 104, 97, 114, 97]    // "chara"

  /** crc32fast::hash */
  const Crc32: Bytes -> Word
  /** serde_json::to_vec and serde_json::from_slice */
  const JsonBytes: Json -> Bytes
  const JsonFrom: Bytes -> Option<Json>

  /** This value survives being written and read. */
  predicate RoundTrips(v: Json) { JsonFrom(JsonBytes(v)) == Some(v) }

  datatype Error =
    PngInvalid | ChunkTooLarge | CrcMismatch | CardBase64 | CardTooLarge | CardJson | CardMissing

  datatype Result<+T> = Ok(value: T) | Err(error: Error)

  // ---------------------------------------------------------------- chunks

  datatype Chunk = Chunk(kind: Bytes, data: Bytes, crc: Bytes)

  /** Length, type, data and CRC (section 3.2 of RFC 2083); the length field holds 32 bits. */
  function Frame(c: Chunk): Bytes { BigEndian(|c.data|, U32_WIDTH) + c.kind + c.data + c.crc }

  predicate Sized(c: Chunk) { |c.kind| == 4 && |c.crc| == 4 && |c.data| < 0x1_0000_0000 }

  datatype Cut = Cut(chunk: Chunk, tail: Bytes)

  function Length(rest: Bytes): nat
    requires |rest| >= 4
  {
    FromBigEndian(rest[..4])
  }

  /** The chunk at the front, if all of it is there. */
  function Next(rest: Bytes): (r: Option<Cut>)
    ensures r.Some? ==> |r.value.tail| < |rest|
  {
    if |rest| < 8 then None
    else
      var n := Length(rest);
      if |rest| < 12 + n then None
      else Some(Cut(Chunk(rest[4..8], rest[8..8 + n], rest[8 + n..12 + n]), rest[12 + n..]))
  }

  lemma CutIsFrame(rest: Bytes)
    requires Next(rest).Some?
    ensures var cut := Next(rest).value; rest == Frame(cut.chunk) + cut.tail && Sized(cut.chunk)
  {
    FromBigEndianRoundTrip(rest[..4]);
    Pow256Values();
    var n := Length(rest);
    assert rest == rest[..4] + rest[4..8] + rest[8..8 + n] + rest[8 + n..12 + n] + rest[12 + n..];
  }

  lemma FrameSlices(head: Bytes, kind: Bytes, data: Bytes, crc: Bytes, tail: Bytes)
    requires |head| == 4 && |kind| == 4 && |crc| == 4
    ensures var rest, n := head + kind + data + crc + tail, |data|;
      && |rest| == 12 + n + |tail|
      && rest[..4] == head && rest[4..8] == kind && rest[8..8 + n] == data
      && rest[8 + n..12 + n] == crc && rest[12 + n..] == tail
  {
    Slices(head, kind, data + crc + tail);
    Slices(head + kind, data, crc + tail);
    Slices(head + kind + data, crc, tail);
    assert head + kind + data + crc + tail == head + kind + (data + crc + tail);
    assert head + kind + data + crc + tail == head + kind + data + (crc + tail);
  }

  lemma NextOfFrame(c: Chunk, tail: Bytes)
    requires Sized(c)
    ensures Next(Frame(c) + tail) == Some(Cut(c, tail)) && Length(Frame(c) + tail) == |c.data|
  {
    Pow256Values();
    BigEndianRoundTrip(|c.data|, U32_WIDTH);
    FrameSlices(BigEndian(|c.data|, U32_WIDTH), c.kind, c.data, c.crc, tail);
  }

  // ---------------------------------------------------------------- text chunks

  function ZeroAt(data: Bytes): (n: nat)
    ensures n <= |data| && (n < |data| ==> data[n] == 0) && forall i :: 0 <= i < n ==> data[i] != 0
  {
    if data == [] || data[0] == 0 then 0 else 1 + ZeroAt(data[1..])
  }

  datatype Entry = Entry(keyword: Bytes, text: Bytes)

  /** `split_text_chunk` */
  function SplitText(data: Bytes): Option<Entry> {
    var n := ZeroAt(data);
    if n == |data| || !ValidUtf8(data[..n]) || !ValidUtf8(data[n + 1..]) then None
    else Some(Entry(data[..n], data[n + 1..]))
  }

  predicate IsCard(c: Chunk) {
    c.kind == TEXT && SplitText(c.data).Some? && SplitText(c.data).value.keyword in {CCV3, CHARA}
  }

  function TextChunk(keyword: Bytes, text: Bytes): Chunk {
    var data := keyword + [0] + text;
    Chunk(TEXT, data, BigEndian(Crc32(TEXT + data), U32_WIDTH))
  }

  predicate CrcOk(c: Chunk) { FromBigEndian(c.crc) == Crc32(c.kind + c.data) }

  /** What the parser demands of any chunk it walks over. */
  predicate Intact(c: Chunk) { |c.data| <= MAX_JSON_BYTES && CrcOk(c) }

  predicate Plain(s: Bytes) { forall i :: 0 <= i < |s| ==> 1 <= s[i] <= 126 }

  lemma TextChunkSplits(keyword: Bytes, text: Bytes)
    requires Plain(keyword) && Plain(text)
    ensures SplitText(TextChunk(keyword, text).data) == Some(Entry(keyword, text))
    ensures |TextChunk(keyword, text).crc| == 4 && CrcOk(TextChunk(keyword, text))
  {
    var c := TextChunk(keyword, text);
    Pow256Values();
    BigEndianRoundTrip(Crc32(TEXT + c.data), U32_WIDTH);
    AsciiIsValid(keyword);
    AsciiIsValid(text);
    var n := ZeroAt(c.data);
    assert c.data[|keyword|] == 0;
    assert forall i :: 0 <= i < |keyword| ==> c.data[i] == keyword[i];
    assert n == |keyword|;
    assert c.data[..n] == keyword && c.data[n + 1..] == text;
  }

  // ---------------------------------------------------------------- embedding

  function CardText(v: Json): Bytes { Base64.Encode(JsonBytes(v)) }

  /** The two chunks written before IEND. */
  function CardFrames(v: Json): Bytes { Frame(TextChunk(CHARA, CardText(v))) + Frame(TextChunk(CCV3, CardText(v))) }

  function Onto(head: Bytes, r: Result<Bytes>): Result<Bytes> {
    match r
    case Ok(b) => Ok(head + b)
    case Err(e) => Err(e)
  }

  /** The copying loop of `encode_png_with_card`. */
  function Embed(rest: Bytes, cards: Bytes): Result<Bytes>
    decreases |rest|
  {
    if |rest| < 8 then Ok([])
    else match Next(rest)
      case None => Err(PngInvalid)
      case Some(cut) =>
        if IsCard(cut.chunk) then Embed(cut.tail, cards)
        else if cut.chunk.kind == IEND then Ok(cards + Frame(cut.chunk))
        else Onto(Frame(cut.chunk), Embed(cut.tail, cards))
  }

  function Encode(png: Bytes, v: Json): Result<Bytes> {
    if SIGNATURE <= png then Onto(SIGNATURE, Embed(png[8..], CardFrames(v))) else Err(PngInvalid)
  }

  // ---------------------------------------------------------------- extracting

  /** `decode_card_text` */
  function DecodeCard(text: Bytes): Result<Json> {
    match Base64.Decode(Trim(text))
    case None => Err(CardBase64)
    case Some(bytes) =>
      if |bytes| > MAX_JSON_BYTES then Err(CardTooLarge)
      else match JsonFrom(bytes)
        case None => Err(CardJson)
        case Some(v) => Ok(v)
  }

  datatype Found = Found(ccv3: Option<Json>, chara: Option<Json>)

  function Best(f: Found): Result<Json> {
    if f.ccv3.Some? then Ok(f.ccv3.value)
    else if f.chara.Some? then Ok(f.chara.value)
    else Err(CardMissing)
  }

  /** What one text chunk adds. */
  function Noted(f: Found, c: Chunk): Result<Found> {
    if !IsCard(c) then Ok(f)
    else
      var entry := SplitText(c.data).value;
      match DecodeCard(entry.text)
      case Err(e) => Err(e)
      case Ok(v) => Ok(if entry.keyword == CCV3 then f.(ccv3 := Some(v)) else f.(chara := Some(v)))
  }

  /** The reading loop of `parse_png_card`. */
  function Extract(rest: Bytes, f: Found): Result<Json>
    decreases |rest|
  {
    if |rest| < 4 then Best(f)
    else if |rest| < 8 then Err(PngInvalid)
    else if Length(rest) > MAX_JSON_BYTES then Err(ChunkTooLarge)
    else match Next(rest)
      case None => Err(PngInvalid)
      case Some(cut) =>
        if !CrcOk(cut.chunk) then Err(CrcMismatch)
        else if cut.chunk.kind == IEND then Best(f)
        else match Noted(f, cut.chunk)
          case Err(e) => Err(e)
          case Ok(g) => Extract(cut.tail, g)
  }

  const NOTHING: Found := Found(None, None)

  function Parse(png: Bytes): Result<Json> {
    if SIGNATURE <= png then Extract(png[8..], NOTHING) else Err(PngInvalid)
  }

  // ---------------------------------------------------------------- extracting what was embedded

  /** The chunk list that survives: everything but cards, up to and including IEND. */
  function Kept(rest: Bytes): seq<Chunk>
    decreases |rest|
  {
    match Next(rest)
    case None => []
    case Some(cut) =>
      if IsCard(cut.chunk) then Kept(cut.tail)
      else if cut.chunk.kind == IEND then [cut.chunk]
      else [cut.chunk] + Kept(cut.tail)
  }

  /** Every chunk, up to and including IEND. */
  function Chunks(rest: Bytes): seq<Chunk>
    decreases |rest|
  {
    match Next(rest)
    case None => []
    case Some(cut) => [cut.chunk] + if cut.chunk.kind == IEND then [] else Chunks(cut.tail)
  }

  /** IEND is there, and every chunk that survives is intact. */
  predicate Clean(rest: Bytes)
    decreases |rest|
  {
    match Next(rest)
    case None => false
    case Some(cut) =>
      if IsCard(cut.chunk) then Clean(cut.tail)
      else Intact(cut.chunk) && (cut.chunk.kind == IEND || Clean(cut.tail))
  }

  /** The larger of the two card chunks respects the limit the parser puts on chunks. */
  predicate Fits(v: Json) { |CHARA| + 1 + |CardText(v)| <= MAX_JSON_BYTES }

  /** The card chunks' length fields do not overflow. */
  predicate Representable(v: Json) { |CHARA| + 1 + |CardText(v)| < 0x1_0000_0000 }

  lemma CardChunk(keyword: Bytes, v: Json)
    requires keyword == CCV3 || keyword == CHARA
    requires Representable(v)
    ensures var c := TextChunk(keyword, CardText(v));
      && Sized(c) && IsCard(c) && CrcOk(c)
      && SplitText(c.data) == Some(Entry(keyword, CardText(v)))
      && |c.data| == |keyword| + 1 + |CardText(v)|
  {
    Base64.EncodedShape(JsonBytes(v));
    TextChunkSplits(keyword, CardText(v));
  }

  lemma CardDecodes(v: Json)
    requires RoundTrips(v) && Fits(v)
    ensures DecodeCard(CardText(v)) == Ok(v)
  {
    Base64.EncodedShape(JsonBytes(v));
    Base64.RoundTrip(JsonBytes(v));
    NothingToTrim(CardText(v));
  }

  /** Walking over one intact chunk that is no card and not IEND. */
  lemma ExtractFrame(c: Chunk, tail: Bytes, f: Found)
    requires Sized(c)
    ensures Extract(Frame(c) + tail, f) ==
            if |c.data| > MAX_JSON_BYTES then Err(ChunkTooLarge)
            else if !CrcOk(c) then Err(CrcMismatch)
            else if c.kind == IEND then Best(f)
            else if Noted(f, c).Err? then Err(Noted(f, c).error)
            else Extract(tail, Noted(f, c).value)
  {
    NextOfFrame(c, tail);
  }

  /** Reading one card chunk. */
  lemma ExtractCard(keyword: Bytes, v: Json, tail: Bytes, f: Found)
    requires keyword == CCV3 || keyword == CHARA
    requires RoundTrips(v) && Representable(v)
    ensures var r := Extract(Frame(TextChunk(keyword, CardText(v))) + tail, f);
      if Fits(v) then r == Extract(tail, if keyword == CCV3 then f.(ccv3 := Some(v)) else f.(chara := Some(v)))
      else keyword == CHARA ==> r == Err(ChunkTooLarge)
  {
    CardChunk(keyword, v);
    ExtractFrame(TextChunk(keyword, CardText(v)), tail, f);
    if Fits(v) {
      CardDecodes(v);
    }
  }

  lemma CardsThenEnd(v: Json, end: Chunk)
    ensures CardFrames(v) + Frame(end) ==
            Frame(TextChunk(CHARA, CardText(v))) + (Frame(TextChunk(CCV3, CardText(v))) + (Frame(end) + []))
  {
  }

  /** The tail of an embedded file: both cards, then IEND. */
  lemma ExtractCards(v: Json, end: Chunk)
    requires RoundTrips(v) && Representable(v) && Sized(end) && end.kind == IEND
    ensures var r := Extract(CardFrames(v) + Frame(end), NOTHING);
      && (r == Ok(v) <==> Fits(v) && Intact(end))
      && (r.Ok? ==> r == Ok(v))
  {
    CardsThenEnd(v, end);
    var second := Frame(TextChunk(CCV3, CardText(v)));
    ExtractCard(CHARA, v, second + (Frame(end) + []), NOTHING);
    ExtractCard(CCV3, v, Frame(end) + [], Found(None, Some(v)));
    ExtractFrame(end, [], Found(Some(v), Some(v)));
  }

  lemma {:induction false} ExtractEmbedded(rest: Bytes, v: Json)
    requires RoundTrips(v) && Representable(v) && Embed(rest, CardFrames(v)).Ok?
    ensures var r := Extract(Embed(rest, CardFrames(v)).value, NOTHING);
      && (r == Ok(v) <==> Clean(rest) && Fits(v))
      && (r.Ok? ==> r == Ok(v))
    decreases |rest|
  {
    if |rest| >= 8 {
      var cut := Next(rest).value;
      CutIsFrame(rest);
      if IsCard(cut.chunk) {
        ExtractEmbedded(cut.tail, v);
      } else if cut.chunk.kind == IEND {
        ExtractCards(v, cut.chunk);
      } else {
        ExtractEmbedded(cut.tail, v);
        ExtractFrame(cut.chunk, Embed(cut.tail, CardFrames(v)).value, NOTHING);
      }
    }
  }

  /** Parsing the result of embedding a card gives that card exactly when the picture reaches IEND,
      its surviving chunks are intact and the card chunk is within the limit; it never gives another. */
  lemma CardRoundTrip(png: Bytes, v: Json)
    requires RoundTrips(v) && Representable(v) && Encode(png, v).Ok?
    ensures Parse(Encode(png, v).value) == Ok(v) <==> Clean(png[8..]) && Fits(v)
    ensures Parse(Encode(png, v).value).Ok? ==> Parse(Encode(png, v).value) == Ok(v)
  {
    ExtractEmbedded(png[8..], v);
    var out := Encode(png, v).value;
    assert out[8..] == Embed(png[8..], CardFrames(v)).value;
  }

  /** Embedding can succeed and the card be lost: a bare signature has no IEND to put the card before. */
  lemma EmbeddingCanLoseTheCard(v: Json)
    ensures Encode(SIGNATURE, v) == Ok(SIGNATURE)
    ensures Parse(SIGNATURE) == Err(CardMissing)
    ensures !Clean(SIGNATURE[8..])
  {
    assert SIGNATURE[8..] == [];
    assert SIGNATURE + [] == SIGNATURE;
  }

  // ---------------------------------------------------------------- what embedding keeps

  /** The cards are put right before IEND; everything else is copied in order. */
  function WithCards(kept: seq<Chunk>, v: Json): seq<Chunk> {
    if kept != [] && kept[|kept| - 1].kind == IEND then
      kept[..|kept| - 1] + [TextChunk(CHARA, CardText(v)), TextChunk(CCV3, CardText(v)), kept[|kept| - 1]]
    else kept
  }

  lemma ChunksOfFrame(c: Chunk, tail: Bytes)
    requires Sized(c)
    ensures Chunks(Frame(c) + tail) == [c] + (if c.kind == IEND then [] else Chunks(tail))
    ensures Kept(Frame(c) + tail) ==
            if IsCard(c) then Kept(tail) else if c.kind == IEND then [c] else [c] + Kept(tail)
  {
    NextOfFrame(c, tail);
  }

  lemma ChunksOfCard(keyword: Bytes, v: Json, tail: Bytes)
    requires keyword == CCV3 || keyword == CHARA
    requires Representable(v)
    ensures var c := TextChunk(keyword, CardText(v));
      Chunks(Frame(c) + tail) == [c] + Chunks(tail) && Kept(Frame(c) + tail) == Kept(tail)
  {
    CardChunk(keyword, v);
    ChunksOfFrame(TextChunk(keyword, CardText(v)), tail);
  }

  lemma ChunksOfCards(v: Json, end: Chunk)
    requires Representable(v) && Sized(end) && end.kind == IEND
    ensures Chunks(CardFrames(v) + Frame(end)) == [TextChunk(CHARA, CardText(v)), TextChunk(CCV3, CardText(v)), end]
    ensures Kept(CardFrames(v) + Frame(end)) == [end]
  {
    var last := Frame(end) + [];
    var second := Frame(TextChunk(CCV3, CardText(v))) + last;
    ChunksOfFrame(end, []);
    ChunksOfCard(CCV3, v, last);
    assert Chunks(second) == [TextChunk(CCV3, CardText(v)), end];
    ChunksOfCard(CHARA, v, second);
    CardsThenEnd(v, end);
  }

  lemma {:induction false} EmbedKeepsChunks(rest: Bytes, v: Json)
    requires Representable(v) && Embed(rest, CardFrames(v)).Ok?
    ensures var out := Embed(rest, CardFrames(v)).value;
      Chunks(out) == WithCards(Kept(rest), v) && Kept(out) == Kept(rest)
    decreases |rest|
  {
    if |rest| >= 8 {
      var cut := Next(rest).value;
      CutIsFrame(rest);
      if IsCard(cut.chunk) {
        EmbedKeepsChunks(cut.tail, v);
      } else if cut.chunk.kind == IEND {
        ChunksOfCards(v, cut.chunk);
        assert [cut.chunk][..0] == [];
      } else {
        EmbedKeepsChunks(cut.tail, v);
        ChunksOfFrame(cut.chunk, Embed(cut.tail, CardFrames(v)).value);
        ConsWithCards(cut.chunk, Kept(cut.tail), v);
      }
    }
  }

  lemma ConsWithCards(c: Chunk, kept: seq<Chunk>, v: Json)
    requires c.kind != IEND
    ensures WithCards([c] + kept, v) == [c] + WithCards(kept, v)
  {
    if kept != [] {
      assert ([c] + kept)[..|kept|] == [c] + kept[..|kept| - 1];
    }
  }

  /** Non-card chunks survive unchanged and in order, and the only other chunks are the two new cards. */
  lemma OtherChunksSurvive(png: Bytes, v: Json)
    requires Representable(v) && Encode(png, v).Ok?
    ensures var out := Encode(png, v).value;
      && SIGNATURE <= out
      && Chunks(out[8..]) == WithCards(Kept(png[8..]), v)
      && Kept(out[8..]) == Kept(png[8..])
  {
    EmbedKeepsChunks(png[8..], v);
    assert Encode(png, v).value[8..] == Embed(png[8..], CardFrames(v)).value;
  }

  // ---------------------------------------------------------------- embedding twice

  lemma EmbedFrame(c: Chunk, tail: Bytes, cards: Bytes)
    requires Sized(c)
    ensures Embed(Frame(c) + tail, cards) ==
            if IsCard(c) then Embed(tail, cards)
            else if c.kind == IEND then Ok(cards + Frame(c))
            else Onto(Frame(c), Embed(tail, cards))
  {
    NextOfFrame(c, tail);
  }

  lemma EmbedOverCards(v: Json, end: Chunk, cards: Bytes)
    requires Representable(v) && Sized(end) && end.kind == IEND
    ensures Embed(CardFrames(v) + Frame(end), cards) == Ok(cards + Frame(end))
  {
    CardsThenEnd(v, end);
    var second := Frame(TextChunk(CCV3, CardText(v)));
    CardChunk(CHARA, v);
    EmbedFrame(TextChunk(CHARA, CardText(v)), second + (Frame(end) + []), cards);
    CardChunk(CCV3, v);
    EmbedFrame(TextChunk(CCV3, CardText(v)), Frame(end) + [], cards);
    EmbedFrame(end, [], cards);
  }

  lemma {:induction false} EmbedTwice(rest: Bytes, v: Json, cards: Bytes)
    requires Representable(v) && Embed(rest, CardFrames(v)).Ok?
    ensures Embed(Embed(rest, CardFrames(v)).value, cards) == Embed(rest, cards)
    decreases |rest|
  {
    if |rest| >= 8 {
      var cut := Next(rest).value;
      CutIsFrame(rest);
      if IsCard(cut.chunk) {
        EmbedTwice(cut.tail, v, cards);
      } else if cut.chunk.kind == IEND {
        EmbedOverCards(v, cut.chunk, cards);
      } else {
        EmbedTwice(cut.tail, v, cards);
        EmbedFrame(cut.chunk, Embed(cut.tail, CardFrames(v)).value, cards);
      }
    }
  }

  /** Embedding `v` and then `w` is embedding `w` alone, byte for byte. */
  lemma LastCardWins(png: Bytes, v: Json, w: Json)
    requires Representable(v) && Encode(png, v).Ok?
    ensures Encode(Encode(png, v).value, w) == Encode(png, w)
  {
    EmbedTwice(png[8..], v, CardFrames(w));
    assert Encode(png, v).value[8..] == Embed(png[8..], CardFrames(v)).value;
  }

  // ---------------------------------------------------------------- the loops

  /** What one turn of the reading loop does. */
  datatype Look = Done(result: Result<Json>) | Onward(found: Found, next: nat)

  /** A whole chunk in front, as the reading loop treats it. */
  lemma ExtractTurn(png: Bytes, pos: nat, length: nat, f: Found)
    requires pos + 12 + length <= |png| && FromBigEndian(png[pos..pos + 4]) == length <= MAX_JSON_BYTES
    ensures var c := ChunkAt(png, pos, length);
      Extract(png[pos..], f) ==
      if !CrcOk(c) then Err(CrcMismatch)
      else if c.kind == IEND then Best(f)
      else if Noted(f, c).Err? then Err(Noted(f, c).error)
      else Extract(png[pos + 12 + length..], Noted(f, c).value)
  {
    var c := ChunkAt(png, pos, length);
    assert png[pos..][..4] == png[pos..pos + 4];
  }

  /** Anything less, or a chunk over the limit. */
  lemma ExtractStops(png: Bytes, pos: nat, length: nat, f: Found)
    requires pos + 4 <= |png| && FromBigEndian(png[pos..pos + 4]) == length
    requires |png| < pos + 12 + length || length > MAX_JSON_BYTES
    ensures Extract(png[pos..], f) ==
            Err(if |png| >= pos + 8 && length > MAX_JSON_BYTES then ChunkTooLarge else PngInvalid)
  {
    assert png[pos..][..4] == png[pos..pos + 4];
  }

  method ReadChunk(png: Bytes, pos: nat, f: Found) returns (t: Look)
    requires pos <= |png|
    ensures t.Onward? ==> pos < t.next <= |png|
    ensures Extract(png[pos..], f) == if t.Done? then t.result else Extract(png[t.next..], t.found)
  {
    if |png| - pos < 4 {
      return Done(Best(f));
    }
    var length := FromBigEndian(png[pos..pos + 4]);
    if |png| - pos < 12 + length || length > MAX_JSON_BYTES {
      ExtractStops(png, pos, length, f);
    }
    if |png| - pos < 8 {
      return Done(Err(PngInvalid));
    }
    if length > MAX_JSON_BYTES {
      return Done(Err(ChunkTooLarge));
    }
    if |png| - pos < 12 + length {
      return Done(Err(PngInvalid));
    }
    var chunk := ChunkAt(png, pos, length);
    ExtractTurn(png, pos, length, f);
    if !CrcOk(chunk) {
      return Done(Err(CrcMismatch));
    }
    if chunk.kind == IEND {
      return Done(Best(f));
    }
    var noted := Noted(f, chunk);
    t := if noted.Err? then Done(Err(noted.error)) else Onward(noted.value, pos + 12 + length);
  }

  method ParseCard(png: Bytes) returns (r: Result<Json>)
    ensures r == Parse(png)
  {
    if !(SIGNATURE <= png) {
      return Err(PngInvalid);
    }
    var pos := 8;
    var found := NOTHING;
    while true
      invariant 8 <= pos <= |png|
      invariant Extract(png[8..], NOTHING) == Extract(png[pos..], found)
      decreases |png| - pos
    {
      var t := ReadChunk(png, pos, found);
      if t.Done? {
        return t.result;
      }
      found, pos := t.found, t.next;
    }
  }

  function ChunkAt(png: Bytes, pos: nat, length: nat): (c: Chunk)
    requires pos + 12 + length <= |png| && FromBigEndian(png[pos..pos + 4]) == length
    ensures Next(png[pos..]) == Some(Cut(c, png[pos + 12 + length..]))
  {
    var rest := png[pos..];
    assert rest[..4] == png[pos..pos + 4];
    assert rest[4..8] == png[pos + 4..pos + 8];
    assert rest[8..8 + length] == png[pos + 8..pos + 8 + length];
    assert rest[8 + length..12 + length] == png[pos + 8 + length..pos + 12 + length];
    Chunk(png[pos + 4..pos + 8], png[pos + 8..pos + 8 + length], png[pos + 8 + length..pos + 12 + length])
  }

  /** One turn of the copying loop. */
  lemma EmbedTurn(png: Bytes, pos: nat, length: nat, cards: Bytes)
    requires pos + 12 + length <= |png| && FromBigEndian(png[pos..pos + 4]) == length
    ensures var c := ChunkAt(png, pos, length);
      Embed(png[pos..], cards) ==
      if IsCard(c) then Embed(png[pos + 12 + length..], cards)
      else if c.kind == IEND then Ok(cards + Frame(c))
      else Onto(Frame(c), Embed(png[pos + 12 + length..], cards))
  {
    var c := ChunkAt(png, pos, length);
  }

  method EncodeCard(png: Bytes, v: Json) returns (r: Result<Bytes>)
    ensures r == Encode(png, v)
  {
    if !(SIGNATURE <= png) {
      return Err(PngInvalid);
    }
    var text := CardText(v);
    var cards := Frame(TextChunk(CHARA, text)) + Frame(TextChunk(CCV3, text));
    r := CopyWithCards(png, cards);
  }

  /** What one turn of the copying loop does. */
  datatype Turn = Truncated | Skip(next: nat) | Last(end: Bytes) | Copy(frame: Bytes, next: nat)

  predicate InRange(t: Turn, pos: nat, size: nat) { t.Truncated? || t.Last? || pos < t.next <= size }

  function Continued(png: Bytes, cards: Bytes, t: Turn): Result<Bytes>
    requires InRange(t, 0, |png|)
  {
    if t.Truncated? then Err(PngInvalid)
    else if t.Last? then Ok(cards + t.end)
    else if t.Skip? then Embed(png[t.next..], cards)
    else Onto(t.frame, Embed(png[t.next..], cards))
  }

  method CopyChunk(png: Bytes, pos: nat, ghost cards: Bytes) returns (t: Turn)
    requires pos + 8 <= |png|
    ensures InRange(t, pos, |png|) && Embed(png[pos..], cards) == Continued(png, cards, t)
  {
    var length := FromBigEndian(png[pos..pos + 4]);
    if |png| - pos < 12 + length {
      EmbedTruncated(png, pos, length, cards);
      return Truncated;
    }
    var chunk := ChunkAt(png, pos, length);
    EmbedTurn(png, pos, length, cards);
    var next := pos + 12 + length;
    t := if IsCard(chunk) then Skip(next)
         else if chunk.kind == IEND then Last(Frame(chunk))
         else Copy(Frame(chunk), next);
  }

  /** The copying loop. */
  method CopyWithCards(png: Bytes, cards: Bytes) returns (r: Result<Bytes>)
    requires |png| >= 8
    ensures r == Onto(SIGNATURE, Embed(png[8..], cards))
  {
    var output := SIGNATURE;
    var pos := 8;
    ghost var goal := Onto(SIGNATURE, Embed(png[8..], cards));
    while |png| - pos >= 8
      invariant 8 <= pos <= |png|
      invariant goal == Onto(output, Embed(png[pos..], cards))
      decreases |png| - pos
    {
      var t := CopyChunk(png, pos, cards);
      if t.Truncated? {
        return Err(PngInvalid);
      }
      if t.Last? {
        return Ok(output + (cards + t.end));
      }
      if t.Copy? {
        OntoOnto(output, t.frame, Embed(png[t.next..], cards));
        output := output + t.frame;
      }
      pos := t.next;
    }
    assert output + [] == output;
    r := Ok(output);
  }

  lemma EmbedTruncated(png: Bytes, pos: nat, length: nat, cards: Bytes)
    requires pos + 8 <= |png| < pos + 12 + length && FromBigEndian(png[pos..pos + 4]) == length
    ensures Embed(png[pos..], cards) == Err(PngInvalid)
  {
    assert png[pos..][..4] == png[pos..pos + 4];
  }

  lemma OntoOnto(x: Bytes, y: Bytes, r: Result<Bytes>)
    ensures Onto(x, Onto(y, r)) == Onto(x + y, r)
  {
    if r.Ok? {
      assert x + (y + r.value) == (x + y) + r.value;
    }
  }
}
