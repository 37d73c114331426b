/** `notetypes`: the collection's note types projected to the printed
    shape, the two integer-coded enumerations decoded with an error for
    unknown codes, and the lookup of note types by requested id. */
module NoteTypes {
  import Util
  import Decimal

  type I32 = x: int | -0x8000_0000 <= x < 0x8000_0000

  /** The collection library's note type, as far as this command reads it. */
  datatype AnkiNoteType = AnkiNoteType(
    id: int, name: string, mtimeSecs: int,
    fields: seq<AnkiNoteField>, templates: seq<AnkiCardTemplate>, config: AnkiNoteTypeConfig)
  datatype AnkiNoteFieldConfig = AnkiNoteFieldConfig(sticky: bool, rtl: bool, fontName: string, fontSize: nat)
  datatype AnkiNoteField = AnkiNoteField(name: string, config: AnkiNoteFieldConfig)
  datatype AnkiTemplateConfig = AnkiTemplateConfig(qFormat: string, aFormat: string, targetDeckId: int)
  datatype AnkiCardTemplate = AnkiCardTemplate(name: string, mtimeSecs: int, config: AnkiTemplateConfig)
  datatype AnkiNoteTypeConfig = AnkiNoteTypeConfig(
    kind: I32, sortFieldIdx: nat, css: string, targetDeckId: int,
    latexPre: string, latexPost: string, latexSvg: bool, reqs: seq<AnkiCardRequirement>)
  datatype AnkiCardRequirement = AnkiCardRequirement(kind: I32, cardOrd: nat, fieldOrds: seq<nat>)

  /** The printed shapes. */
  datatype NoteType = NoteType(
    id: int, name: string, mtime: int,
    fields: seq<NoteField>, templates: seq<CardTemplate>, config: NoteTypeConfig)
  datatype NoteField = NoteField(name: string, sticky: bool, rtl: bool, fontName: string, fontSize: nat)
  datatype CardTemplate = CardTemplate(name: string, mtime: int, qFormat: string, aFormat: string, targetDeckId: int)
  datatype NoteTypeConfig = NoteTypeConfig(
    kind: NoteKind, sortFieldIdx: nat, css: string, targetDeckId: int,
    latexPre: string, latexPost: string, latexSvg: bool, reqs: seq<CardRequirement>)
  datatype NoteKind = Normal | Cloze
  datatype CardRequirement = CardRequirement(kind: CardRequirementKind, cardOrd: nat, fieldOrds: seq<nat>)
  datatype CardRequirementKind = None | Any | All

  /** The code the collection stores for a note kind. */
  function NoteKindCode(k: NoteKind): I32 {
    match k
    case Normal => 0
    case Cloze => 1
  }

  /** The code the collection stores for a requirement kind. */
  function RequirementKindCode(k: CardRequirementKind): I32 {
    match k
    case None => 0
    case Any => 1
    case All => 2
  }

  /** `TryFrom<i32> for NoteKind`: an unknown code is reported with its
      decimal text and the accepted codes. */
  function NoteKindFrom(value: I32): (r: Util.Result<NoteKind, Util.Error>)
    ensures r.Ok? <==> value == 0 || value == 1
    ensures r.Ok? ==> NoteKindCode(r.value) == value
    ensures r.Err? ==> r.error == Util.InvalidNumber(Decimal.ToDecimal(value), "0, 1")
  {
    match value
    case 0 => Util.Ok(Normal)
    case 1 => Util.Ok(Cloze)
    case _ => Util.Err(Util.InvalidNumber(Decimal.ToDecimal(value), "0, 1"))
  }

  /** `TryFrom<i32> for CardRequirementKind`. */
  function RequirementKindFrom(value: I32): (r: Util.Result<CardRequirementKind, Util.Error>)
    ensures r.Ok? <==> 0 <= value <= 2
    ensures r.Ok? ==> RequirementKindCode(r.value) == value
    ensures r.Err? ==> r.error == Util.InvalidNumber(Decimal.ToDecimal(value), "0, 1, 2")
  {
    match value
    case 0 => Util.Ok(None)
    case 1 => Util.Ok(Any)
    case 2 => Util.Ok(All)
    case _ => Util.Err(Util.InvalidNumber(Decimal.ToDecimal(value), "0, 1, 2"))
  }

  /** Decoding a stored code gives back the kind that was stored. */
  lemma KindCodesRoundTrip(k: NoteKind, q: CardRequirementKind)
    ensures NoteKindFrom(NoteKindCode(k)) == Util.Ok(k)
    ensures RequirementKindFrom(RequirementKindCode(q)) == Util.Ok(q)
  {
  }

  /** The rejected number can be read back from the error text. */
  lemma InvalidNumberNamesValue(value: I32)
    ensures NoteKindFrom(value).Err? ==> Decimal.ParseI64(NoteKindFrom(value).error.given) == Util.Some(value as int)
    ensures RequirementKindFrom(value).Err? ==>
      Decimal.ParseI64(RequirementKindFrom(value).error.given) == Util.Some(value as int)
  {
  }

  /** `From<&NoteField>`: the name and the four configuration attributes. */
  function NoteFieldFrom(v: AnkiNoteField): (f: NoteField)
    ensures f.name == v.name && f.sticky == v.config.sticky && f.rtl == v.config.rtl
    ensures f.fontName == v.config.fontName && f.fontSize == v.config.fontSize
  {
    NoteField(v.name, v.config.sticky, v.config.rtl, v.config.fontName, v.config.fontSize)
  }

  /** `From<&CardTemplate>`: name, modification time and the three configuration attributes. */
  function CardTemplateFrom(v: AnkiCardTemplate): (t: CardTemplate)
    ensures t.name == v.name && t.mtime == v.mtimeSecs
    ensures t.qFormat == v.config.qFormat && t.aFormat == v.config.aFormat
    ensures t.targetDeckId == v.config.targetDeckId
  {
    CardTemplate(v.name, v.mtimeSecs, v.config.qFormat, v.config.aFormat, v.config.targetDeckId)
  }

  /** `TryFrom<&CardRequirement>`: only the kind can fail. */
  function RequirementFrom(v: AnkiCardRequirement): (r: Util.Result<CardRequirement, Util.Error>)
    ensures r.Ok? <==> RequirementKindFrom(v.kind).Ok?
    ensures r.Ok? ==>
      && r.value.cardOrd == v.cardOrd && r.value.fieldOrds == v.fieldOrds
      && RequirementKindCode(r.value.kind) == v.kind
  {
    match RequirementKindFrom(v.kind)
    case Err(e) => Util.Err(e)
    case Ok(kind) => Util.Ok(CardRequirement(kind, v.cardOrd, v.fieldOrds))
  }

  /** Whether every requirement has a known kind; otherwise the conversion
      of the configuration aborts (`unwrap`). */
  predicate RequirementsDecode(reqs: seq<AnkiCardRequirement>) {
    forall i | 0 <= i < |reqs| :: RequirementKindFrom(reqs[i].kind).Ok?
  }

  function RequirementsFrom(reqs: seq<AnkiCardRequirement>): (rs: seq<CardRequirement>)
    requires RequirementsDecode(reqs)
    ensures |rs| == |reqs|
    ensures forall i | 0 <= i < |reqs| :: Util.Ok(rs[i]) == RequirementFrom(reqs[i])
  {
    if reqs == [] then [] else [RequirementFrom(reqs[0]).value] + RequirementsFrom(reqs[1..])
  }

  /** Whether the configuration converts without aborting: the kind is
      decoded first, and an unknown kind returns before the requirements are read. */
  predicate ConfigConverts(v: AnkiNoteTypeConfig) {
    NoteKindFrom(v.kind).Ok? ==> RequirementsDecode(v.reqs)
  }

  /** `TryFrom<&NoteTypeConfig>`: `Err` exactly for an unknown note kind. */
  function ConfigFrom(v: AnkiNoteTypeConfig): (r: Util.Result<NoteTypeConfig, Util.Error>)
    requires ConfigConverts(v)
    ensures r.Err? <==> v.kind != 0 && v.kind != 1
    ensures r.Err? ==> r.error == Util.InvalidNumber(Decimal.ToDecimal(v.kind), "0, 1")
    ensures r.Ok? ==>
      && NoteKindCode(r.value.kind) == v.kind
      && |r.value.reqs| == |v.reqs|
      && (forall i | 0 <= i < |v.reqs| ::
            r.value.reqs[i].cardOrd == v.reqs[i].cardOrd && r.value.reqs[i].fieldOrds == v.reqs[i].fieldOrds)
      && (forall i | 0 <= i < |v.reqs| :: Util.Ok(r.value.reqs[i]) == RequirementFrom(v.reqs[i]))
      && r.value.sortFieldIdx == v.sortFieldIdx && r.value.css == v.css
      && r.value.targetDeckId == v.targetDeckId && r.value.latexPre == v.latexPre
      && r.value.latexPost == v.latexPost && r.value.latexSvg == v.latexSvg
  {
    match NoteKindFrom(v.kind)
    case Err(e) => Util.Err(e)
    case Ok(kind) =>
      var reqs := RequirementsFrom(v.reqs);
      assert forall i | 0 <= i < |v.reqs| :: RequirementFrom(v.reqs[i]) == Util.Ok(reqs[i]);
      Util.Ok(NoteTypeConfig(kind, v.sortFieldIdx, v.css, v.targetDeckId, v.latexPre, v.latexPost, v.latexSvg, reqs))
  }

  /** `TryFrom<&NoteType>`: fields and templates one for one, in order. */
  function NoteTypeFrom(v: AnkiNoteType): (r: Util.Result<NoteType, Util.Error>)
    requires ConfigConverts(v.config)
    ensures r.Err? <==> ConfigFrom(v.config).Err?
    ensures r.Ok? ==>
      && r.value.id == v.id && r.value.name == v.name && r.value.mtime == v.mtimeSecs
      && Util.Ok(r.value.config) == ConfigFrom(v.config)
      && |r.value.fields| == |v.fields|
      && (forall i | 0 <= i < |v.fields| ::
            r.value.fields[i].name == v.fields[i].name && r.value.fields[i].fontName == v.fields[i].config.fontName
            && r.value.fields[i].fontSize == v.fields[i].config.fontSize
            && r.value.fields[i].sticky == v.fields[i].config.sticky && r.value.fields[i].rtl == v.fields[i].config.rtl)
      && |r.value.templates| == |v.templates|
      && (forall i | 0 <= i < |v.templates| ::
            r.value.templates[i].name == v.templates[i].name && r.value.templates[i].mtime == v.templates[i].mtimeSecs
            && r.value.templates[i].qFormat == v.templates[i].config.qFormat
            && r.value.templates[i].aFormat == v.templates[i].config.aFormat
            && r.value.templates[i].targetDeckId == v.templates[i].config.targetDeckId)
  {
    var fields := seq(|v.fields|, i requires 0 <= i < |v.fields| => NoteFieldFrom(v.fields[i]));
    var templates := seq(|v.templates|, i requires 0 <= i < |v.templates| => CardTemplateFrom(v.templates[i]));
    match ConfigFrom(v.config)
    case Err(e) => Util.Err(e)
    case Ok(config) => Util.Ok(NoteType(v.id, v.name, v.mtimeSecs, fields, templates, config))
  }

  /** The note types the requested id tokens resolve to, in request order:
      tokens that do not parse and ids without a note type are skipped. */
  function Resolve(tokens: seq<string>, lookup: map<int, AnkiNoteType>): (r: seq<AnkiNoteType>)
    ensures |r| <= |tokens|
    ensures forall x | x in r :: exists t | t in tokens ::
      && Decimal.ParseI64(t).Some? && Decimal.ParseI64(t).value in lookup
      && lookup[Decimal.ParseI64(t).value] == x
    ensures forall t | t in tokens && Decimal.ParseI64(t).Some? && Decimal.ParseI64(t).value in lookup ::
      lookup[Decimal.ParseI64(t).value] in r
  {
    if tokens == [] then []
    else
      var id := Decimal.ParseI64(tokens[0]);
      var rest := Resolve(tokens[1..], lookup);
      assert forall t | t in tokens[1..] :: t in tokens;
      if id.Some? && id.value in lookup then [lookup[id.value]] + rest else rest
  }

  /** Resolution works token by token, so results keep the request order
      and a repeated id is resolved once per request. */
  lemma {:induction false} ResolveAppend(a: seq<string>, b: seq<string>, lookup: map<int, AnkiNoteType>)
    ensures Resolve(a + b, lookup) == Resolve(a, lookup) + Resolve(b, lookup)
  {
    if a == [] {
      assert a + b == b;
    } else {
      assert (a + b)[0] == a[0];
      assert (a + b)[1..] == a[1..] + b;
      ResolveAppend(a[1..], b, lookup);
    }
  }

  /** A single token resolves to its note type when it parses to a known id, else to nothing. */
  lemma ResolveOne(t: string, lookup: map<int, AnkiNoteType>)
    ensures Resolve([t], lookup) ==
      if Decimal.ParseI64(t).Some? && Decimal.ParseI64(t).value in lookup
      then [lookup[Decimal.ParseI64(t).value]] else []
  {
  }

  predicate AllConvert(nts: seq<AnkiNoteType>) {
    forall i | 0 <= i < |nts| :: ConfigConverts(nts[i].config) && NoteTypeFrom(nts[i]).Ok?
  }

  function AllFrom(nts: seq<AnkiNoteType>): (r: seq<NoteType>)
    requires AllConvert(nts)
    ensures |r| == |nts|
    ensures forall i | 0 <= i < |nts| :: Util.Ok(r[i]) == NoteTypeFrom(nts[i])
  {
    seq(|nts|, i requires 0 <= i < |nts| => NoteTypeFrom(nts[i]).value)
  }

  /** `view_notetypes`. With id tokens: the note types they resolve to
      (`lookup` stands for `get_notetype`), or `NoResults` when there are
      none. Without: every note type of the collection (`all`), or the
      collection's error. A note type that does not convert aborts. */
  function ViewNoteTypes(
    idTokens: Util.Option<seq<string>>,
    lookup: map<int, AnkiNoteType>,
    all: Util.Result<seq<AnkiNoteType>, string>): (r: Util.Result<seq<NoteType>, Util.Error>)
    requires idTokens.Some? ==> AllConvert(Resolve(idTokens.value, lookup))
    requires idTokens.None? && all.Ok? ==> AllConvert(all.value)
    ensures idTokens.Some? ==>
      (r.Err? <==> Resolve(idTokens.value, lookup) == []) && (r.Err? ==> r.error == Util.NoResults)
    ensures idTokens.Some? && r.Ok? ==>
      && |r.value| == |Resolve(idTokens.value, lookup)|
      && forall i | 0 <= i < |r.value| :: Util.Ok(r.value[i]) == NoteTypeFrom(Resolve(idTokens.value, lookup)[i])
    ensures idTokens.None? ==> (r.Err? <==> all.Err?) && (r.Err? ==> r.error == Util.Anki(all.error))
    ensures idTokens.None? && r.Ok? ==>
      && |r.value| == |all.value|
      && forall i | 0 <= i < |r.value| :: Util.Ok(r.value[i]) == NoteTypeFrom(all.value[i])
  {
    match idTokens
    case Some(tokens) =>
      var res := AllFrom(Resolve(tokens, lookup));
      if |res| > 0 then Util.Ok(res) else Util.Err(Util.NoResults)
    case None =>
      match all
      case Err(e) => Util.Err(Util.Anki(e))
      case Ok(nts) => Util.Ok(AllFrom(nts))
  }
}
