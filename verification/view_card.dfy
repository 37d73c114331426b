/** The card view of `study`: rendered template nodes become card contents,
    question nodes fill `back` and answer nodes fill `front`, and the side
    token may then clear one of the two. */
module ViewCard {
  import opened Util

  /** A node of a rendered template, as the collection library returns it. */
  datatype RenderedNode =
    | TextNode(text: string)
    | ReplacementNode(fieldName: string, currentText: string, filters: seq<string>)

  /** The collection's rendering of one card: question and answer nodes. */
  datatype RenderedCard = RenderedCard(qnodes: seq<RenderedNode>, anodes: seq<RenderedNode>)

  /** One piece of displayed card content. */
  datatype CardContent =
    | Text(text: string)
    | Replacement(fieldName: string, currentText: string, filters: seq<string>)

  /** `From<RenderedNode> for CardContent`. */
  function ContentFrom(rn: RenderedNode): (c: CardContent)
    ensures c.Text? <==> rn.TextNode?
  {
    match rn
    case TextNode(text) => Text(text)
    case ReplacementNode(fieldName, currentText, filters) => Replacement(fieldName, currentText, filters)
  }

  /** The rendered node a content piece stands for. */
  function NodeOf(c: CardContent): RenderedNode {
    match c
    case Text(text) => TextNode(text)
    case Replacement(fieldName, currentText, filters) => ReplacementNode(fieldName, currentText, filters)
  }

  /** `nodes.into_iter().map(From::from).collect()`. */
  function ContentsFrom(nodes: seq<RenderedNode>): (cs: seq<CardContent>)
    ensures |cs| == |nodes|
    ensures forall i | 0 <= i < |nodes| :: cs[i] == ContentFrom(nodes[i])
  {
    if nodes == [] then [] else [ContentFrom(nodes[0])] + ContentsFrom(nodes[1..])
  }

  function NodesOf(cs: seq<CardContent>): seq<RenderedNode> {
    if cs == [] then [] else [NodeOf(cs[0])] + NodesOf(cs[1..])
  }

  /** The conversion loses nothing: the variant, every payload field, the
      number of nodes and their order all come back. */
  lemma {:induction false} ContentsFromLossless(nodes: seq<RenderedNode>)
    ensures NodesOf(ContentsFrom(nodes)) == nodes
  {
    if nodes != [] {
      ContentsFromLossless(nodes[1..]);
      assert ContentsFrom(nodes)[1..] == ContentsFrom(nodes[1..]);
    }
  }

  /** Two different nodes never give the same content. */
  lemma ContentFromInjective(a: RenderedNode, b: RenderedNode)
    requires ContentFrom(a) == ContentFrom(b)
    ensures a == b
  {
  }

  /** The sides left after the side token: `(back, front)`. */
  function SidesShown(back: seq<CardContent>, front: seq<CardContent>, side: string): (r: (seq<CardContent>, seq<CardContent>))
    ensures r.0 == back || r.1 == front
    ensures r.0 in {back, []} && r.1 in {front, []}
    ensures side in {"back", "question"} ==> r == (back, [])
    ensures side in {"front", "answer"} ==> r == ([], front)
    ensures side !in {"back", "question", "front", "answer"} ==> r == (back, front)
  {
    if side == "back" || side == "question" then (back, [])
    else if side == "front" || side == "answer" then ([], front)
    else (back, front)
  }

  /** Choosing the same side a second time changes nothing more. */
  lemma SidesShownIdempotent(back: seq<CardContent>, front: seq<CardContent>, side: string)
    ensures var (b, f) := SidesShown(back, front, side); SidesShown(b, f, side) == (b, f)
  {
  }

  /** The card printed by `study`. */
  class Card {
    var id: int
    var back: seq<CardContent>
    var front: seq<CardContent>

    constructor (id: int, back: seq<CardContent>, front: seq<CardContent>)
      ensures this.id == id && this.back == back && this.front == front
    {
      this.id := id;
      this.back := back;
      this.front := front;
    }

    /** The side match of `study_card`: "back" or "question" clears
        `front`, "front" or "answer" clears `back`, any other token keeps both. */
    method SelectSide(side: string)
      modifies this
      ensures id == old(id)
      ensures (back, front) == SidesShown(old(back), old(front), side)
    {
      if side == "back" || side == "question" {
        front := [];
      } else if side == "front" || side == "answer" {
        back := [];
      }
    }
  }

  /** `render`: the card for `id` from the collection's rendering of it, or
      the collection's error. */
  method Render(id: int, rendered: Result<RenderedCard, string>) returns (r: Result<Card, string>)
    ensures rendered.Err? ==> r == Err(rendered.error)
    ensures rendered.Ok? ==>
      && r.Ok? && fresh(r.value) && r.value.id == id
      && r.value.back == ContentsFrom(rendered.value.qnodes)
      && r.value.front == ContentsFrom(rendered.value.anodes)
  {
    match rendered
    case Err(e) =>
      r := Err(e);
    case Ok(card) =>
      var c := new Card(id, ContentsFrom(card.qnodes), ContentsFrom(card.anodes));
      r := Ok(c);
  }

  /** The collection state `study` changes: which deck is the current one. */
  class Collection {
    var currentDeckId: int

    constructor (currentDeckId: int)
      ensures this.currentDeckId == currentDeckId
    {
      this.currentDeckId := currentDeckId;
    }

    method SetCurrentDeckId(id: int)
      modifies this
      ensures currentDeckId == id
    {
      currentDeckId := id;
    }
  }

  /** `study_card`: make the requested deck current, take the head of that
      deck's queue (`nextEntry`), render it (`renderCard`), then apply the
      side token. An empty queue or a failed rendering aborts the command. */
  method StudyCard(
    col: Collection,
    deckId: Option<int>,
    side: string,
    nextEntry: int -> Option<int>,
    renderCard: int -> Result<RenderedCard, string>) returns (card: Card)
    requires nextEntry(if deckId.Some? then deckId.value else col.currentDeckId).Some?
    requires renderCard(nextEntry(if deckId.Some? then deckId.value else col.currentDeckId).value).Ok?
    modifies col
    ensures col.currentDeckId == if deckId.Some? then deckId.value else old(col.currentDeckId)
    ensures nextEntry(col.currentDeckId).Some? && fresh(card)
    ensures card.id == nextEntry(col.currentDeckId).value
    ensures (card.back, card.front) == SidesShown(
      ContentsFrom(renderCard(card.id).value.qnodes),
      ContentsFrom(renderCard(card.id).value.anodes),
      side)
  {
    if deckId.Some? {
      col.SetCurrentDeckId(deckId.value);
    }
    var next := nextEntry(col.currentDeckId);
    var id := next.value;
    var rendered := Render(id, renderCard(id));
    card := rendered.value;
    card.SelectSide(side);
  }
}
