/** Callback actions printed as colon-separated text and parsed back. */
module Callback {
  import opened Separated
  import opened Wire

  const COLON: Byte := 58
  const PLUS: Byte := 43
  const MAX_DATA_BYTES: nat := 4096

  /** `usize` on a 64-bit target. */
  type Usize = n: int | 0 <= n < U64_LIMIT

  datatype Purpose = Chat | Compression

  datatype Action =
    | Home
    | Help
    | Settings
    | Status
    | Now
    | Characters(page: Usize)
    | SelectCharacter(page: Usize, index: Usize)
    | History(page: Usize)
    | SelectHistory(page: Usize, index: Usize)
    | Recent(page: Usize)
    | SelectRecent(page: Usize, index: Usize)
    | Providers(purpose: Purpose, page: Usize)
    | ProviderModels(purpose: Purpose, providerKey: Bytes, page: Usize)
    | SelectModel(purpose: Purpose, providerKey: Bytes, modelIndex: Usize)
    | SelectModelById(purpose: Purpose, providerKey: Bytes, modelId: Bytes)
    | ResetModel(purpose: Purpose)

  // ---------------------------------------------------------------- words

  const CB: Bytes := [99, 98]
  const HOME: Bytes := [104, 111, 109, 101]
  const HELP: Bytes := [104, 101, 108, 112]
  const SETTINGS: Bytes := [115, 101, 116, 116, 105, 110, 103, 115]
  const STATUS: Bytes := [115, 116, 97, 116, 117, 115]
  const NOW: Bytes := [110, 111, 119]
  const CHARS: Bytes := [99, 104, 97, 114, 115]
  const SEL_CHAR: Bytes := [115, 101, 108, 95, 99, 104, 97, 114]
  const HIST: Bytes := [104, 105, 115, 116]
  const SEL_HIST: Bytes := [115, 101, 108, 95, 104, 105, 115, 116]
  const RECENT: Bytes := [114, 101, 99, 101, 110, 116]
  const SEL_RECENT: Bytes := [115, 101, 108, 95, 114, 101, 99, 101, 110, 116]
  const PROV: Bytes := [112, 114, 111, 118]
  const P_MDL: Bytes := [112, 95, 109, 100, 108]
  const SEL_MDL: Bytes := [115, 101, 108, 95, 109, 100, 108]
  const SEL_MDL_ID: Bytes := [115, 101, 108, 95, 109, 100, 108, 95, 105, 100]
  const RST_MDL: Bytes := [114, 115, 116, 95, 109, 100, 108]
  const CHAT: Bytes := [99, 104, 97, 116]
  const COMP: Bytes := [99, 111, 109, 112]
  const COMPRESSION: Bytes := [99, 111, 109, 112, 114, 101, 115, 115, 105, 111, 110]

  /** The action kinds, as the second word names them. */
  datatype Kind =
    KHome | KHelp | KSettings | KStatus | KNow | KChars | KSelChar | KHist | KSelHist | KRecent | KSelRecent
    | KProv | KProviderModels | KSelModel | KSelModelId | KReset

  function Name(k: Kind): Bytes {
    match k
    case KHome => HOME
    case KHelp => HELP
    case KSettings => SETTINGS
    case KStatus => STATUS
    case KNow => NOW
    case KChars => CHARS
    case KSelChar => SEL_CHAR
    case KHist => HIST
    case KSelHist => SEL_HIST
    case KRecent => RECENT
    case KSelRecent => SEL_RECENT
    case KProv => PROV
    case KProviderModels => P_MDL
    case KSelModel => SEL_MDL
    case KSelModelId => SEL_MDL_ID
    case KReset => RST_MDL
  }

  function KindOf(w: Bytes): Option<Kind> {
    if w == HOME then Some(KHome)
    else if w == HELP then Some(KHelp)
    else if w == SETTINGS then Some(KSettings)
    else if w == STATUS then Some(KStatus)
    else if w == NOW then Some(KNow)
    else if w == CHARS then Some(KChars)
    else if w == SEL_CHAR then Some(KSelChar)
    else if w == HIST then Some(KHist)
    else if w == SEL_HIST then Some(KSelHist)
    else if w == RECENT then Some(KRecent)
    else if w == SEL_RECENT then Some(KSelRecent)
    else if w == PROV then Some(KProv)
    else if w == P_MDL then Some(KProviderModels)
    else if w == SEL_MDL then Some(KSelModel)
    else if w == SEL_MDL_ID then Some(KSelModelId)
    else if w == RST_MDL then Some(KReset)
    else None
  }

  lemma NamesTellKinds(k: Kind)
    ensures KindOf(Name(k)) == Some(k) && Free(Name(k), COLON)
  {
    assert HOME[1] != HELP[1] && HOME[1] != HIST[1] && HELP[1] != HIST[1] && PROV[0] != HOME[0];
    assert SETTINGS[2] != SEL_CHAR[2] && SEL_CHAR[4] != SEL_HIST[4];
    assert STATUS[0] != RECENT[0] && CHARS[0] != P_MDL[0];
    assert SEL_RECENT[4] != SEL_MDL_ID[4] && SEL_MDL[0] != RST_MDL[0];
  }

  lemma KindsHaveNames(w: Bytes)
    requires KindOf(w).Some?
    ensures Name(KindOf(w).value) == w
  {
  }

  function PurposeWord(p: Purpose): Bytes { if p.Chat? then CHAT else COMP }

  function PurposeOf(w: Bytes): Option<Purpose> {
    if w == CHAT then Some(Chat) else if w == COMP || w == COMPRESSION then Some(Compression) else None
  }

  lemma PurposeRoundTrip(p: Purpose)
    ensures PurposeOf(PurposeWord(p)) == Some(p) && Free(PurposeWord(p), COLON)
  {
    assert CHAT[1] != COMP[1];
  }

  /** The alias is the longer word. */
  lemma PurposeNeverGrows(w: Bytes)
    requires PurposeOf(w).Some?
    ensures |PurposeWord(PurposeOf(w).value)| <= |w|
  {
  }

  // ---------------------------------------------------------------- numbers

  predicate IsDigit(b: Byte) { ZERO <= b < ZERO + 10 }

  predicate AllDigits(s: Bytes) { forall i :: 0 <= i < |s| ==> IsDigit(s[i]) }

  /** `str::parse::<usize>`: an optional plus sign, then digits, within 64 bits. */
  function ParseUsize(s: Bytes): Option<Usize> {
    var digits := if s != [] && s[0] == PLUS then s[1..] else s;
    if digits == [] || !AllDigits(digits) || !(0 <= DecimalValue(digits) < U64_LIMIT) then None
    else Some(DecimalValue(digits))
  }

  lemma ParsePrintedUsize(n: Usize)
    ensures ParseUsize(Decimal(n)) == Some(n) && Free(Decimal(n), COLON)
  {
    DecimalRoundTrip(n);
    assert IsDigit(Decimal(n)[0]);
  }

  lemma {:induction false} LeadingZero(s: Bytes)
    ensures DecimalValue([ZERO] + s) == DecimalValue(s)
  {
    if s == [] {
      assert ([ZERO] + s)[..0] == [];
    } else {
      var front := s[..|s| - 1];
      assert ([ZERO] + s)[..|s|] == [ZERO] + front;
      LeadingZero(front);
    }
  }

  /** Other spellings that are read: a plus sign, leading zeros, and the long word for the compression model. */
  lemma OtherSpellings(n: Usize, s: Bytes)
    requires ParseUsize(s) == Some(n) && s[0] != PLUS
    ensures ParseUsize([PLUS] + s) == Some(n) && ParseUsize([ZERO] + s) == Some(n)
    ensures PurposeOf(COMPRESSION) == Some(Compression) && PurposeOf(COMP) == Some(Compression)
  {
    assert ([PLUS] + s)[1..] == s;
    LeadingZero(s);
    assert CHAT[1] != COMP[1] && |CHAT| != |COMPRESSION|;
  }

  lemma {:induction false} DecimalIsShortest(s: Bytes)
    requires s != [] && AllDigits(s)
    ensures DecimalValue(s) >= 0 && |Decimal(DecimalValue(s))| <= |s|
  {
    var front, last := s[..|s| - 1], s[|s| - 1] - ZERO;
    if front == [] {
      assert DecimalValue(s) == last;
    } else {
      DecimalIsShortest(front);
      assert DecimalValue(s) / 10 == DecimalValue(front);
    }
  }

  /** Leading zeros and plus signs only make the text longer. */
  lemma UsizeNeverGrows(s: Bytes)
    requires ParseUsize(s).Some?
    ensures |Decimal(ParseUsize(s).value)| <= |s|
  {
    DecimalIsShortest(if s != [] && s[0] == PLUS then s[1..] else s);
  }

  // ---------------------------------------------------------------- arguments

  datatype Value = Number(n: Usize) | Word(purpose: Purpose) | Text(text: Bytes)

  datatype Sort = ANumber | APurpose | AText

  predicate HasSort(v: Value, s: Sort) {
    match s
    case ANumber => v.Number?
    case APurpose => v.Word?
    case AText => v.Text?
  }

  function PrintValue(v: Value): Bytes {
    match v
    case Number(n) => Decimal(n)
    case Word(p) => PurposeWord(p)
    case Text(t) => t
  }

  function ParseValue(s: Sort, w: Bytes): Option<Value> {
    match s
    case ANumber => if ParseUsize(w).Some? then Some(Number(ParseUsize(w).value)) else None
    case APurpose => if PurposeOf(w).Some? then Some(Word(PurposeOf(w).value)) else None
    case AText => Some(Text(w))
  }

  predicate ValueFree(v: Value) { v.Text? ==> Free(v.text, COLON) }

  lemma ValueRoundTrip(v: Value, s: Sort)
    requires HasSort(v, s)
    ensures ParseValue(s, PrintValue(v)) == Some(v)
    ensures ValueFree(v) ==> Free(PrintValue(v), COLON)
  {
    match v
    case Number(n) => ParsePrintedUsize(n);
    case Word(p) => PurposeRoundTrip(p);
    case Text(_) =>
  }

  lemma ValueNeverGrows(s: Sort, w: Bytes)
    requires ParseValue(s, w).Some?
    ensures var v := ParseValue(s, w).value;
      HasSort(v, s) && |PrintValue(v)| <= |w| && (Free(w, COLON) ==> ValueFree(v))
  {
    match s
    case ANumber => UsizeNeverGrows(w);
    case APurpose => PurposeNeverGrows(w);
    case AText =>
  }

  function PrintAll(vs: seq<Value>): (r: seq<Bytes>)
    ensures |r| == |vs|
  {
    if vs == [] then [] else [PrintValue(vs[0])] + PrintAll(vs[1..])
  }

  /** Exactly as many words as the kind takes, each of its sort. */
  function ParseAll(sorts: seq<Sort>, words: seq<Bytes>): Option<seq<Value>>
    decreases |words|
  {
    if |sorts| != |words| then None
    else if words == [] then Some([])
    else match ParseValue(sorts[0], words[0])
      case None => None
      case Some(v) =>
        match ParseAll(sorts[1..], words[1..])
        case None => None
        case Some(rest) => Some([v] + rest)
  }

  predicate HaveSorts(vs: seq<Value>, sorts: seq<Sort>) {
    |vs| == |sorts| && forall i :: 0 <= i < |vs| ==> HasSort(vs[i], sorts[i])
  }

  predicate AllValuesFree(vs: seq<Value>) { forall i :: 0 <= i < |vs| ==> ValueFree(vs[i]) }

  predicate NoLonger(xs: seq<Bytes>, ys: seq<Bytes>) {
    |xs| == |ys| && forall i :: 0 <= i < |xs| ==> |xs[i]| <= |ys[i]|
  }

  lemma PrintedFirst(vs: seq<Value>)
    requires vs != []
    ensures PrintAll(vs)[0] == PrintValue(vs[0]) && PrintAll(vs)[1..] == PrintAll(vs[1..])
  {
  }

  lemma {:induction false} AllRoundTrip(vs: seq<Value>, sorts: seq<Sort>)
    requires HaveSorts(vs, sorts)
    ensures ParseAll(sorts, PrintAll(vs)) == Some(vs)
    decreases |vs|
  {
    if vs != [] {
      ValueRoundTrip(vs[0], sorts[0]);
      AllRoundTrip(vs[1..], sorts[1..]);
      PrintedFirst(vs);
      FirstWord(sorts, PrintAll(vs), vs[0], vs[1..]);
      assert vs == [vs[0]] + vs[1..];
    }
  }

  lemma {:induction false} AllPrintedFree(vs: seq<Value>, sorts: seq<Sort>)
    requires HaveSorts(vs, sorts) && AllValuesFree(vs)
    ensures AllFree(PrintAll(vs), COLON)
    decreases |vs|
  {
    if vs != [] {
      ValueRoundTrip(vs[0], sorts[0]);
      AllPrintedFree(vs[1..], sorts[1..]);
    }
  }

  lemma FirstWord(sorts: seq<Sort>, words: seq<Bytes>, v: Value, rest: seq<Value>)
    requires words != [] && |words| == |sorts| && ParseValue(sorts[0], words[0]) == Some(v)
    requires ParseAll(sorts[1..], words[1..]) == Some(rest)
    ensures ParseAll(sorts, words) == Some([v] + rest)
  {
  }

  lemma {:induction false} AllNeverGrow(sorts: seq<Sort>, words: seq<Bytes>)
    requires ParseAll(sorts, words).Some?
    ensures var vs := ParseAll(sorts, words).value;
      HaveSorts(vs, sorts) && NoLonger(PrintAll(vs), words) && (AllFree(words, COLON) ==> AllValuesFree(vs))
    decreases |words|
  {
    if words != [] {
      ValueNeverGrows(sorts[0], words[0]);
      AllNeverGrow(sorts[1..], words[1..]);
      var vs := ParseAll(sorts, words).value;
      assert vs[1..] == ParseAll(sorts[1..], words[1..]).value;
    }
  }

  // ---------------------------------------------------------------- actions

  /** What each kind of callback takes after its name. */
  function Takes(k: Kind): seq<Sort> {
    match k
    case KHome | KHelp | KSettings | KStatus | KNow => []
    case KChars | KHist | KRecent => [ANumber]
    case KSelChar | KSelHist | KSelRecent => [ANumber, ANumber]
    case KProv => [APurpose, ANumber]
    case KProviderModels | KSelModel => [APurpose, AText, ANumber]
    case KSelModelId => [APurpose, AText, AText]
    case KReset => [APurpose]
  }

  function Build(k: Kind, vs: seq<Value>): Action
    requires HaveSorts(vs, Takes(k))
  {
    match k
    case KHome => Home
    case KHelp => Help
    case KSettings => Settings
    case KStatus => Status
    case KNow => Now
    case KChars => Characters(vs[0].n)
    case KSelChar => SelectCharacter(vs[0].n, vs[1].n)
    case KHist => History(vs[0].n)
    case KSelHist => SelectHistory(vs[0].n, vs[1].n)
    case KRecent => Recent(vs[0].n)
    case KSelRecent => SelectRecent(vs[0].n, vs[1].n)
    case KProv => Providers(vs[0].purpose, vs[1].n)
    case KProviderModels => ProviderModels(vs[0].purpose, vs[1].text, vs[2].n)
    case KSelModel => SelectModel(vs[0].purpose, vs[1].text, vs[2].n)
    case KSelModelId => SelectModelById(vs[0].purpose, vs[1].text, vs[2].text)
    case KReset => ResetModel(vs[0].purpose)
  }

  function KindFor(a: Action): Kind {
    match a
    case Home => KHome
    case Help => KHelp
    case Settings => KSettings
    case Status => KStatus
    case Now => KNow
    case Characters(_) => KChars
    case SelectCharacter(_, _) => KSelChar
    case History(_) => KHist
    case SelectHistory(_, _) => KSelHist
    case Recent(_) => KRecent
    case SelectRecent(_, _) => KSelRecent
    case Providers(_, _) => KProv
    case ProviderModels(_, _, _) => KProviderModels
    case SelectModel(_, _, _) => KSelModel
    case SelectModelById(_, _, _) => KSelModelId
    case ResetModel(_) => KReset
  }

  function Values(a: Action): seq<Value> {
    match a
    case Home | Help | Settings | Status | Now => []
    case Characters(page) => [Number(page)]
    case SelectCharacter(page, index) => [Number(page), Number(index)]
    case History(page) => [Number(page)]
    case SelectHistory(page, index) => [Number(page), Number(index)]
    case Recent(page) => [Number(page)]
    case SelectRecent(page, index) => [Number(page), Number(index)]
    case Providers(purpose, page) => [Word(purpose), Number(page)]
    case ProviderModels(purpose, key, page) => [Word(purpose), Text(key), Number(page)]
    case SelectModel(purpose, key, index) => [Word(purpose), Text(key), Number(index)]
    case SelectModelById(purpose, key, id) => [Word(purpose), Text(key), Text(id)]
    case ResetModel(purpose) => [Word(purpose)]
  }

  lemma BuildValues(a: Action)
    ensures HaveSorts(Values(a), Takes(KindFor(a))) && Build(KindFor(a), Values(a)) == a
  {
  }

  lemma ValuesBuild(k: Kind, vs: seq<Value>)
    requires HaveSorts(vs, Takes(k))
    ensures KindFor(Build(k, vs)) == k && Values(Build(k, vs)) == vs
  {
  }

  function Fields(a: Action): seq<Bytes> { [CB, Name(KindFor(a))] + PrintAll(Values(a)) }

  /** `legacy_data` */
  function Print(a: Action): Bytes { Join(Fields(a), COLON) }

  function ParseArguments(k: Kind, words: seq<Bytes>): Option<Action> {
    match ParseAll(Takes(k), words)
    case None => None
    case Some(vs) =>
      AllNeverGrow(Takes(k), words);
      Some(Build(k, vs))
  }

  function ParseFields(parts: seq<Bytes>): Option<Action> {
    if |parts| < 2 || parts[0] != CB then None
    else match KindOf(parts[1])
      case None => None
      case Some(k) => ParseArguments(k, parts[2..])
  }

  /** `parse_legacy_callback_data` */
  function Parse(data: Bytes): Option<Action> {
    if |data| > MAX_DATA_BYTES then None else ParseFields(Split(data, COLON))
  }

  /** `opaque_callback` */
  function Opaque(data: Bytes): Bytes {
    match Parse(data)
    case None => data
    case Some(a) => Print(a)
  }

  lemma WordsAreSpelled()
    ensures CB == Ascii("cb") && HOME == Ascii("home") && HELP == Ascii("help") && SETTINGS == Ascii("settings")
    ensures STATUS == Ascii("status") && NOW == Ascii("now") && CHARS == Ascii("chars") && SEL_CHAR == Ascii("sel_char")
    ensures HIST == Ascii("hist") && SEL_HIST == Ascii("sel_hist") && RECENT == Ascii("recent")
    ensures SEL_RECENT == Ascii("sel_recent") && PROV == Ascii("prov") && P_MDL == Ascii("p_mdl")
    ensures SEL_MDL == Ascii("sel_mdl") && SEL_MDL_ID == Ascii("sel_mdl_id") && RST_MDL == Ascii("rst_mdl")
    ensures CHAT == Ascii("chat") && COMP == Ascii("comp") && COMPRESSION == Ascii("compression")
    ensures [COLON] == Ascii(":") && [PLUS] == Ascii("+")
  {
  }

  /** The words of each action, in order. */
  lemma PrintedAs(a: Action)
    ensures Fields(a) ==
      match a
      case Home => [CB, HOME]
      case Help => [CB, HELP]
      case Settings => [CB, SETTINGS]
      case Status => [CB, STATUS]
      case Now => [CB, NOW]
      case Characters(page) => [CB, CHARS, Decimal(page)]
      case SelectCharacter(page, index) => [CB, SEL_CHAR, Decimal(page), Decimal(index)]
      case History(page) => [CB, HIST, Decimal(page)]
      case SelectHistory(page, index) => [CB, SEL_HIST, Decimal(page), Decimal(index)]
      case Recent(page) => [CB, RECENT, Decimal(page)]
      case SelectRecent(page, index) => [CB, SEL_RECENT, Decimal(page), Decimal(index)]
      case Providers(purpose, page) => [CB, PROV, PurposeWord(purpose), Decimal(page)]
      case ProviderModels(purpose, key, page) => [CB, P_MDL, PurposeWord(purpose), key, Decimal(page)]
      case SelectModel(purpose, key, index) => [CB, SEL_MDL, PurposeWord(purpose), key, Decimal(index)]
      case SelectModelById(purpose, key, id) => [CB, SEL_MDL_ID, PurposeWord(purpose), key, id]
      case ResetModel(purpose) => [CB, RST_MDL, PurposeWord(purpose)]
  {
    PrintsFew(Values(a));
  }

  lemma PrintsFew(vs: seq<Value>)
    ensures |vs| == 0 ==> PrintAll(vs) == []
    ensures |vs| == 1 ==> PrintAll(vs) == [PrintValue(vs[0])]
    ensures |vs| == 2 ==> PrintAll(vs) == [PrintValue(vs[0]), PrintValue(vs[1])]
    ensures |vs| == 3 ==> PrintAll(vs) == [PrintValue(vs[0]), PrintValue(vs[1]), PrintValue(vs[2])]
  {
  }

  // ---------------------------------------------------------------- round trip

  /** The provider key and the model id of an action hold no colon. */
  predicate NoColon(a: Action) { AllValuesFree(Values(a)) }

  lemma FieldsRoundTrip(a: Action)
    ensures ParseFields(Fields(a)) == Some(a)
    ensures NoColon(a) ==> AllFree(Fields(a), COLON)
  {
    BuildValues(a);
    AllRoundTrip(Values(a), Takes(KindFor(a)));
    if NoColon(a) {
      AllPrintedFree(Values(a), Takes(KindFor(a)));
    }
    NamesTellKinds(KindFor(a));
    assert Fields(a)[2..] == PrintAll(Values(a));
  }

  /** What parsing tells about the words it was given. */
  lemma ParsedArguments(k: Kind, words: seq<Bytes>)
    requires ParseArguments(k, words).Some?
    ensures var a := ParseArguments(k, words).value;
      && KindFor(a) == k
      && NoLonger(PrintAll(Values(a)), words)
      && (AllFree(words, COLON) ==> NoColon(a))
  {
    AllNeverGrow(Takes(k), words);
    ValuesBuild(k, ParseAll(Takes(k), words).value);
  }

  lemma ParseGivesNoColon(data: Bytes)
    requires Parse(data).Some?
    ensures NoColon(Parse(data).value)
  {
    SplitIsFree(data, COLON);
    var parts := Split(data, COLON);
    ParsedArguments(KindOf(parts[1]).value, parts[2..]);
  }

  /** Parsing what was printed gives the action back exactly when its keys hold no colon and the text fits. */
  lemma ActionRoundTrip(a: Action)
    ensures Parse(Print(a)) == Some(a) <==> NoColon(a) && |Print(a)| <= MAX_DATA_BYTES
  {
    FieldsRoundTrip(a);
    if NoColon(a) {
      SplitOfJoin(Fields(a), COLON);
    }
    if Parse(Print(a)) == Some(a) {
      ParseGivesNoColon(Print(a));
    }
  }

  // ---------------------------------------------------------------- canonical printing

  lemma PrintingNeverLengthens(data: Bytes)
    requires Parse(data).Some?
    ensures |Print(Parse(data).value)| <= |data|
  {
    var parts := Split(data, COLON);
    var a := Parse(data).value;
    ParsedArguments(KindOf(parts[1]).value, parts[2..]);
    KindsHaveNames(parts[1]);
    assert parts == [parts[0], parts[1]] + parts[2..];
    JoinOfSplit(data, COLON);
    JoinIsMonotone(Fields(a), parts, COLON);
  }

  /** Rewriting a callback text never changes what it means. */
  lemma OpaqueKeepsMeaning(data: Bytes)
    ensures Parse(Opaque(data)) == Parse(data)
  {
    if Parse(data).Some? {
      ParseGivesNoColon(data);
      PrintingNeverLengthens(data);
      ActionRoundTrip(Parse(data).value);
    }
  }

  /** Rewriting a callback text twice is rewriting it once, whatever the text. */
  lemma OpaqueIsIdempotent(data: Bytes)
    ensures Opaque(Opaque(data)) == Opaque(data)
  {
    OpaqueKeepsMeaning(data);
  }
}
