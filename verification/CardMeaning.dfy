/** Which card a picture gives, from its chunks alone. */
module CardMeaning {
  import opened Wire
  import opened Utf8
  import opened CardPng
  import Base64

  lemma NamesAreSpelled()
    ensures TEXT == Ascii("tEXt") && IEND == Ascii("IEND") && CCV3 == Ascii("ccv3") && CHARA == Ascii("chara")
  {
  }

  // ---------------------------------------------------------------- one chunk

  /** The two keywords under which cards are stored. */
  predicate Keyword(k: Bytes) { k == CCV3 || k == CHARA }

  /** A text chunk that holds this text under this keyword. */
  predicate Carries(c: Chunk, keyword: Bytes, text: Bytes) {
    c.kind == TEXT && c.data == keyword + [0] + text && ValidUtf8(text)
  }

  lemma KeywordsArePlain(keyword: Bytes)
    requires Keyword(keyword)
    ensures ValidUtf8(keyword) && forall i :: 0 <= i < |keyword| ==> keyword[i] != 0
  {
    AsciiIsValid(keyword);
  }

  lemma KeywordsDiffer()
    ensures CCV3 != CHARA
  {
    assert |CCV3| != |CHARA|;
  }

  lemma ZeroSplits(keyword: Bytes, text: Bytes)
    requires forall i :: 0 <= i < |keyword| ==> keyword[i] != 0
    ensures var data := keyword + [0] + text;
      ZeroAt(data) == |keyword| && data[..|keyword|] == keyword && data[|keyword| + 1..] == text
  {
    var data := keyword + [0] + text;
    assert data[|keyword|] == 0;
    assert forall i :: 0 <= i < |keyword| ==> data[i] == keyword[i];
  }

  lemma CarriesMeaning(c: Chunk, keyword: Bytes, text: Bytes)
    requires Keyword(keyword)
    ensures Carries(c, keyword, text) <==> c.kind == TEXT && SplitText(c.data) == Some(Entry(keyword, text))
  {
    KeywordsArePlain(keyword);
    var n := ZeroAt(c.data);
    ZeroSplits(keyword, text);
    if n < |c.data| {
      assert c.data == c.data[..n] + [0] + c.data[n + 1..];
    }
  }

  /** A card's text is the canonical Base64 form, white space around it aside, of JSON of at most two mebibytes. */
  ghost predicate Holds(text: Bytes, v: Json) { exists bytes :: Spells(Trim(text), bytes, v) }

  predicate Spells(text: Bytes, bytes: Bytes, v: Json) {
    text == Base64.Encode(bytes) && |bytes| <= 2097152 && JsonFrom(bytes) == Some(v)
  }

  lemma DecodeMeaning(text: Bytes, v: Json)
    ensures DecodeCard(text) == Ok(v) <==> Holds(text, v)
  {
    DecodedCard(text, v);
    var decoded := Base64.Decode(Trim(text));
    if decoded.Some? {
      Base64.OnlyCanonicalTextDecodes(Trim(text));
      if DecodeCard(text) == Ok(v) {
        assert Spells(Trim(text), decoded.value, v);
      }
    }
    if bytes :| Spells(Trim(text), bytes, v) {
      Undone(Trim(text), bytes);
    }
  }

  lemma DecodedCard(text: Bytes, v: Json)
    ensures var decoded := Base64.Decode(Trim(text));
      DecodeCard(text) == Ok(v) <==>
      decoded.Some? && |decoded.value| <= 2097152 && JsonFrom(decoded.value) == Some(v)
  {
  }

  lemma Undone(text: Bytes, bytes: Bytes)
    requires text == Base64.Encode(bytes)
    ensures Base64.Decode(text) == Some(bytes)
  {
    Base64.RoundTrip(bytes);
  }

  // ---------------------------------------------------------------- all chunks

  function FrameAll(cs: seq<Chunk>): Bytes { if cs == [] then [] else Frame(cs[0]) + FrameAll(cs[1..]) }

  /** A chunk the reader walks over. */
  predicate Walkable(c: Chunk) { CardPng.Sized(c) && Intact(c) && c.kind != IEND }

  predicate AllWalkable(cs: seq<Chunk>) { forall i :: 0 <= i < |cs| ==> Walkable(cs[i]) }

  /** What the reader has noted after these chunks. */
  function NoteAll(cs: seq<Chunk>): Result<Found> {
    if cs == [] then Ok(NOTHING)
    else match NoteAll(cs[..|cs| - 1])
      case Err(e) => Err(e)
      case Ok(f) => Noted(f, cs[|cs| - 1])
  }

  lemma {:induction false} NotingFails(x: seq<Chunk>, y: seq<Chunk>)
    requires NoteAll(x).Err?
    ensures NoteAll(x + y) == NoteAll(x)
    decreases |y|
  {
    if y == [] {
      assert x + y == x;
    } else {
      assert (x + y)[..|x + y| - 1] == x + y[..|y| - 1];
      NotingFails(x, y[..|y| - 1]);
    }
  }

  lemma Regrouped(before: seq<Chunk>, cs: seq<Chunk>, rest: Bytes)
    requires cs != []
    ensures FrameAll(cs) + rest == Frame(cs[0]) + (FrameAll(cs[1..]) + rest)
    ensures before + [cs[0]] + cs[1..] == before + cs
  {
    assert cs == [cs[0]] + cs[1..];
  }

  lemma WalkOne(before: seq<Chunk>, c: Chunk, tail: Bytes)
    requires Walkable(c) && NoteAll(before).Ok?
    ensures Extract(Frame(c) + tail, NoteAll(before).value) ==
            var noted := NoteAll(before + [c]);
            if noted.Err? then Err(noted.error) else Extract(tail, noted.value)
  {
    ExtractFrame(c, tail, NoteAll(before).value);
    var longer := before + [c];
    assert longer[..|longer| - 1] == before && longer[|longer| - 1] == c;
    assert NoteAll(longer) == Noted(NoteAll(before).value, c);
  }

  lemma {:induction false} Walk(before: seq<Chunk>, cs: seq<Chunk>, rest: Bytes)
    requires AllWalkable(cs) && NoteAll(before).Ok?
    ensures Extract(FrameAll(cs) + rest, NoteAll(before).value) ==
            var noted := NoteAll(before + cs);
            if noted.Err? then Err(noted.error) else Extract(rest, noted.value)
    decreases |cs|
  {
    if cs == [] {
      assert before + cs == before && FrameAll(cs) + rest == rest;
    } else {
      var c, tail := cs[0], FrameAll(cs[1..]) + rest;
      assert Walkable(c);
      Regrouped(before, cs, rest);
      WalkOne(before, c, tail);
      var longer := before + [c];
      if NoteAll(longer).Err? {
        NotingFails(longer, cs[1..]);
      } else {
        Walk(longer, cs[1..], rest);
      }
    }
  }

  /** The last chunk with this keyword holds this text. */
  ghost predicate LastUnder(cs: seq<Chunk>, keyword: Bytes, text: Bytes) {
    exists i :: LastAt(cs, keyword, text, i)
  }

  ghost predicate LastAt(cs: seq<Chunk>, keyword: Bytes, text: Bytes, i: int) {
    && 0 <= i < |cs| && Carries(cs[i], keyword, text)
    && forall j, t :: i < j < |cs| ==> !Carries(cs[j], keyword, t)
  }

  ghost predicate NoneUnder(cs: seq<Chunk>, keyword: Bytes) {
    forall i, t :: 0 <= i < |cs| ==> !Carries(cs[i], keyword, t)
  }

  function Under(f: Found, keyword: Bytes): Option<Json> { if keyword == CCV3 then f.ccv3 else f.chara }

  /** What a chunk changes under a keyword. */
  lemma NotedUnder(f: Found, c: Chunk, keyword: Bytes)
    requires Keyword(keyword) && Noted(f, c).Ok?
    ensures var g := Noted(f, c).value;
      && (forall t :: Carries(c, keyword, t) ==> DecodeCard(t).Ok? && Under(g, keyword) == Some(DecodeCard(t).value))
      && ((forall t :: !Carries(c, keyword, t)) ==> Under(g, keyword) == Under(f, keyword))
  {
    KeywordsDiffer();
    forall t ensures Carries(c, keyword, t) <==> c.kind == TEXT && SplitText(c.data) == Some(Entry(keyword, t)) {
      CarriesMeaning(c, keyword, t);
    }
    if IsCard(c) && SplitText(c.data).value.keyword == keyword {
      assert Carries(c, keyword, SplitText(c.data).value.text);
    }
  }

  lemma LastOfMore(cs: seq<Chunk>, c: Chunk, keyword: Bytes, t: Bytes)
    ensures Carries(c, keyword, t) ==> LastUnder(cs + [c], keyword, t) && !NoneUnder(cs + [c], keyword)
    ensures (forall u :: !Carries(c, keyword, u)) ==>
      && (LastUnder(cs + [c], keyword, t) <==> LastUnder(cs, keyword, t))
      && (NoneUnder(cs + [c], keyword) <==> NoneUnder(cs, keyword))
  {
    var more := cs + [c];
    assert more[|cs|] == c && forall i :: 0 <= i < |cs| ==> more[i] == cs[i];
    if Carries(c, keyword, t) {
      assert LastAt(more, keyword, t, |cs|);
    }
    if forall u :: !Carries(c, keyword, u) {
      forall i ensures LastAt(more, keyword, t, i) <==> LastAt(cs, keyword, t, i) {
      }
    }
  }

  /** The reader remembers, under each keyword, the last card. */
  lemma {:induction false} NotedIsLast(cs: seq<Chunk>, keyword: Bytes)
    requires Keyword(keyword) && NoteAll(cs).Ok?
    ensures var u := Under(NoteAll(cs).value, keyword);
      && (u.None? <==> NoneUnder(cs, keyword))
      && (u.Some? ==> exists t :: LastUnder(cs, keyword, t) && DecodeCard(t) == Ok(u.value))
  {
    if cs != [] {
      var front, c := cs[..|cs| - 1], cs[|cs| - 1];
      assert cs == front + [c];
      NotedIsLast(front, keyword);
      NotedUnder(NoteAll(front).value, c, keyword);
      var u := Under(NoteAll(cs).value, keyword);
      if t :| Carries(c, keyword, t) {
        LastOfMore(front, c, keyword, t);
        assert LastUnder(cs, keyword, t) && DecodeCard(t) == Ok(u.value);
      } else {
        LastOfMore(front, c, keyword, []);
        if u.Some? {
          var t :| LastUnder(front, keyword, t) && DecodeCard(t) == Ok(u.value);
          LastOfMore(front, c, keyword, t);
        }
      }
    }
  }

  lemma OneLast(cs: seq<Chunk>, keyword: Bytes, t: Bytes, u: Bytes)
    requires LastUnder(cs, keyword, t) && LastUnder(cs, keyword, u)
    ensures t == u
  {
    var i :| LastAt(cs, keyword, t, i);
    var j :| LastAt(cs, keyword, u, j);
    assert i == j;
    var n := |keyword| + 1;
    assert (keyword + [0] + t)[n..] == t && (keyword + [0] + u)[n..] == u;
  }

  lemma LastIsThere(cs: seq<Chunk>, keyword: Bytes, t: Bytes)
    requires LastUnder(cs, keyword, t)
    ensures !NoneUnder(cs, keyword)
  {
  }

  /** Every card there is can be read. */
  ghost predicate Legible(cs: seq<Chunk>) { forall i :: 0 <= i < |cs| ==> LegibleChunk(cs[i]) }

  ghost predicate LegibleChunk(c: Chunk) {
    forall k, t :: Keyword(k) && Carries(c, k, t) ==> exists v :: Holds(t, v)
  }

  lemma NotedExactly(f: Found, c: Chunk)
    ensures Noted(f, c).Ok? <==> LegibleChunk(c)
  {
    forall k, t | Keyword(k)
      ensures Carries(c, k, t) <==> c.kind == TEXT && SplitText(c.data) == Some(Entry(k, t))
    {
      CarriesMeaning(c, k, t);
    }
    forall t ensures DecodeCard(t).Ok? <==> exists v :: Holds(t, v) {
      if DecodeCard(t).Ok? {
        DecodeMeaning(t, DecodeCard(t).value);
      }
      if v :| Holds(t, v) {
        DecodeMeaning(t, v);
      }
    }
    if IsCard(c) {
      var entry := SplitText(c.data).value;
      assert Carries(c, entry.keyword, entry.text);
    }
  }

  lemma {:induction false} NotedAllExactly(cs: seq<Chunk>)
    ensures NoteAll(cs).Ok? <==> Legible(cs)
  {
    if cs != [] {
      var front, c := cs[..|cs| - 1], cs[|cs| - 1];
      assert cs == front + [c];
      NotedAllExactly(front);
      if NoteAll(front).Ok? {
        NotedExactly(NoteAll(front).value, c);
      }
      assert forall i :: 0 <= i < |front| ==> front[i] == cs[i];
    }
  }

  // ---------------------------------------------------------------- a whole picture

  function Picture(cs: seq<Chunk>, end: Chunk, more: Bytes): Bytes {
    SIGNATURE + (FrameAll(cs) + (Frame(end) + more))
  }

  /** Chunks the reader walks over, and an intact end. */
  predicate Sound(cs: seq<Chunk>, end: Chunk) {
    AllWalkable(cs) && CardPng.Sized(end) && Intact(end) && end.kind == IEND
  }

  lemma PictureNotes(cs: seq<Chunk>, end: Chunk, more: Bytes)
    requires Sound(cs, end)
    ensures Parse(Picture(cs, end, more)) ==
            var noted := NoteAll(cs);
            if noted.Err? then Err(noted.error) else Best(noted.value)
  {
    var body := FrameAll(cs) + (Frame(end) + more);
    assert Picture(cs, end, more)[8..] == body && SIGNATURE <= Picture(cs, end, more);
    assert [] + cs == cs;
    Walk([], cs, Frame(end) + more);
    if NoteAll(cs).Ok? {
      ExtractFrame(end, more, NoteAll(cs).value);
    }
  }

  /** The last card under a keyword is this one. */
  ghost predicate Card(cs: seq<Chunk>, keyword: Bytes, v: Json) {
    exists t :: LastUnder(cs, keyword, t) && Holds(t, v)
  }

  lemma CardIsNoted(cs: seq<Chunk>, keyword: Bytes, v: Json)
    requires Keyword(keyword) && NoteAll(cs).Ok?
    ensures Under(NoteAll(cs).value, keyword) == Some(v) <==> Card(cs, keyword, v)
  {
    NotedIsLast(cs, keyword);
    var u := Under(NoteAll(cs).value, keyword);
    if u == Some(v) {
      var t :| LastUnder(cs, keyword, t) && DecodeCard(t) == Ok(v);
      DecodeMeaning(t, v);
    }
    if Card(cs, keyword, v) {
      var t :| LastUnder(cs, keyword, t) && Holds(t, v);
      LastIsThere(cs, keyword, t);
      var t' :| LastUnder(cs, keyword, t') && DecodeCard(t') == Ok(u.value);
      OneLast(cs, keyword, t, t');
      DecodeMeaning(t, v);
    }
  }

  /** A picture gives its last ccv3 card, or its last chara card when it has no ccv3 card; every card in it has to be
      readable, whichever is given. */
  lemma CardOfPicture(cs: seq<Chunk>, end: Chunk, more: Bytes, v: Json)
    requires Sound(cs, end)
    ensures Parse(Picture(cs, end, more)) == Ok(v) <==>
      Legible(cs) && (Card(cs, CCV3, v) || (NoneUnder(cs, CCV3) && Card(cs, CHARA, v)))
  {
    PictureNotes(cs, end, more);
    NotedAllExactly(cs);
    if Legible(cs) {
      KeywordsDiffer();
      CardIsNoted(cs, CCV3, v);
      CardIsNoted(cs, CHARA, v);
      NotedIsLast(cs, CCV3);
    }
  }

  /** The card is reported missing exactly when there is none. */
  lemma MissingFromPicture(cs: seq<Chunk>, end: Chunk, more: Bytes)
    requires Sound(cs, end)
    ensures Parse(Picture(cs, end, more)) == Err(CardMissing) <==> NoneUnder(cs, CCV3) && NoneUnder(cs, CHARA)
  {
    PictureNotes(cs, end, more);
    if NoneUnder(cs, CCV3) && NoneUnder(cs, CHARA) {
      assert Legible(cs);
    }
    NotedAllExactly(cs);
    if NoteAll(cs).Ok? {
      KeywordsDiffer();
      NotedIsLast(cs, CCV3);
      NotedIsLast(cs, CHARA);
    } else {
      NotingNeverMisses(cs);
    }
  }

  lemma {:induction false} NotingNeverMisses(cs: seq<Chunk>)
    requires NoteAll(cs).Err?
    ensures NoteAll(cs).error != CardMissing
  {
    if cs != [] && NoteAll(cs[..|cs| - 1]).Err? {
      NotingNeverMisses(cs[..|cs| - 1]);
    }
  }
}
