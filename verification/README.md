# anki-tui study core, modelled in Dafny

This project models the logic at the centre of `anki-tui`, a command-line
client for an Anki flashcard collection. Every call into the collection
library that only supplies data (`deck_tree`, `get_queues().next_entry`,
`render_existing_card`, `get_next_card_states`, `get_notetype`,
`get_all_notetypes`) becomes a plain input value or a function-typed
parameter. `set_current_deck_id`, which changes the collection's current deck, becomes
a method of the small `Collection` class. `Note::set_field`, which edits a
note in memory, becomes a method of the `Note` class. `answer_card`, which
records the answer in the collection, is not modelled: the model returns the
record it would submit.

- `decks.dfy` (module `Decks`). The deck tree is walked in pre-order by
  `DeckTreeNodeIter`, a class holding the queue of siblings of the current
  frame and the queues of its enclosing frames. `Next` is proved against a
  recursive pre-order: its ghost `Remaining()` is the pre-order of every
  pending queue, innermost first, and each call yields the head of
  `Remaining()` and leaves its tail. `ListDecks` drives the iterator in a
  loop. It drops every node with id 0, projects the rest to `Deck`, applies
  the id and name filters (an empty filter passes everything) and is proved
  equal to `Listing`, the reference definition.
- `answer.dfy` (module `Answer`). The eight answer tokens select one of the
  four candidate scheduling states. Scheduling states are an opaque type
  parameter. `AnswerCard` builds the `CardAnswer` record that forwards the
  card's current state and the selected candidate unchanged.
- `view_card.dfy` (module `ViewCard`). Rendered nodes are converted to card
  contents without loss. `Render` puts question nodes into `back` and answer
  nodes into `front`, as the code does. `Card.SelectSide` clears one side in
  place, and `StudyCard` makes the requested deck current before it consults
  the queue.
- `notetype.dfy` (module `NoteTypes`). The decoders of the two integer-coded
  kinds, the record projections, and the id resolution of `view_notetypes`.
  The lookup is a map.
- `note.dfy` (module `Note`). A `Note` class with an array of field values
  and a tag sequence, and the in-place `set_fields` and `add_tags`.
- `decimal.dfy` (module `Decimal`). Rust's `str::parse::<i64>` and integer
  `to_string`, which the filters and error messages rely on.
- `util.dfy` (module `Util`). `Option`, `Result` and the client's error
  kinds. The error enum is imported from `crate::util`, but `src/util.rs`
  does not define it; its variants are taken from their uses.

The model follows the code in four places a reader might not expect:
- answering does not check for a stale current state;
- an unrecognised side token leaves both sides shown;
- `level` is copied from the tree, not recomputed;
- question nodes go into `back`.

## Model

| member | source | states |
|---|---|---|
| `Decimal.ParseI64` | src/decks.rs:38-41 | A parsed deck id lies in the 64-bit signed range and comes from a non-empty token. |
| `Decimal.ToDecimal` | src/notetype.rs:124 | The decimal text of a number starts with a minus sign exactly when the number is negative. |
| `Decimal.NatToDecimal` | src/notetype.rs:164-167 | The numeral is non-empty, all digits, without a leading zero, and denotes the number. |
| `Decimal.ParseToDecimal` | src/notetype.rs:121-125 | Parsing the text `to_string` writes for an i64 value gives that value back. |
| `Decimal.ParseNeedsDigit` | src/decks.rs:40 | A token without any digit never parses as a deck id. |
| `Decks.DeckTreeNodeIter.From` | src/decks.rs:104-113 | The new iterator has one frame holding only the root; what remains to yield is the tree's pre-order. |
| `Decks.DeckTreeNodeIter.Next` | src/decks.rs:82-101 | Yields the head of the remaining pre-order and leaves its tail, resuming parent frames when the current one is used up. It yields `None` only when nothing remains, after which nothing remains and every later call is `None`. A yielded node has no children. |
| `Decks.PreOrderSize` | src/decks.rs:82-101 | The walk yields as many nodes as the tree has: each node once. |
| `Decks.PreOrderDetached` | src/decks.rs:83-94 | Every node the walk yields has had its children drained. |
| `Decks.ForestPreOrderEmpty` | src/decks.rs:95-100 | A queue has nothing left to walk exactly when it is empty. |
| `Decks.SelectAppend` | src/decks.rs:60-70 | The filter and projection pipeline works node by node: it distributes over concatenation. |
| `Decks.SelectMembership` | src/decks.rs:60-67 | A deck is listed exactly when a walked node with a non-zero id projects to it and it passes both filters. |
| `Decks.ListingHasNoZeroId` | src/decks.rs:60-61 | No listed deck has id 0; every such node is dropped, not only the root. |
| `Decks.ListingRespectsFilters` | src/decks.rs:66-67 | A non-empty id filter, and likewise a non-empty name filter, admits only its own members; both must pass. |
| `Decks.DeckFrom` | src/decks.rs:22-35 | Every attribute of the node is copied into the deck: id, name, level, collapsed, the three counts and filtered. |
| `Decks.Detached` | src/decks.rs:85-91 | The yielded node has no children left and projects to the same deck as before its children were drained. |
| `Decks.Keep` | src/decks.rs:66-67 | Two empty filters admit every deck; an admitted deck is in each non-empty filter. |
| `Decks.SelectUnfiltered` | src/decks.rs:60-70 | With empty filters and no id-0 node the listing is every walked node projected to `Deck` in walk order, attributes copied, duplicates kept; it is never longer than the walk. |
| `Decks.NonSynthetic` | src/decks.rs:60-61 | Dropping the id-0 nodes keeps exactly the walked nodes with a non-zero id, in walk order, and never lengthens the walk. |
| `Decks.NonSyntheticAppend` | src/decks.rs:60-61 | Dropping the id-0 nodes distributes over concatenation, so the kept nodes stay in walk order. |
| `Decks.Projected` | src/decks.rs:62 | One deck per node, in order, with the node's id and name. |
| `Decks.SelectUnfilteredNonSynthetic` | src/decks.rs:60-70 | With empty filters the listing is exactly the walk with its id-0 nodes removed, each projected to `Deck`, in walk order. |
| `Decks.UnfilteredListing` | src/decks.rs:37-71 | For a tree under the synthetic root 0 whose other nodes have non-zero ids, the unfiltered listing is every deck below the root in pre-order. |
| `Decks.ParsedIds` | src/decks.rs:38-41 | The id filter holds exactly the values of the tokens that parse. |
| `Decks.UnparseableIdsDoNotFilter` | src/decks.rs:38-41 | Id tokens of which none parses give the same listing as no id filter. |
| `Decks.NestedDecksExample` | src/decks.rs:60-70 | Root 0 over Spanish (10) over Verbs (11) lists Spanish then Verbs; the id filter {11} lists only Verbs. |
| `Decks.ListDecks` | src/decks.rs:37-71 | Always `Some`, holding exactly the reference listing of the tree under the parsed id filter and the name filter. |
| `Answer.Candidate` | src/answer.rs:21-24 | Each rating picks its own one of the four candidate states: again, hard, good, easy in rating order. |
| `Answer.Index` | src/answer.rs:20-24 | Each rating has its position in the rating order. |
| `Answer.ChooseState` | src/answer.rs:20-31 | Succeeds exactly for the eight accepted tokens. The token at position i selects the (i/2)-th rating, again, hard, good or easy, and that rating's candidate. Any other token gives `InvalidParam(token, ANSWER_VALUES)`. |
| `Answer.TokensOfRating` | src/answer.rs:20-24 | The tokens selecting a rating are exactly its name and its digit. |
| `Answer.AnswerCard` | src/answer.rs:11-49 | Fails exactly for a rejected token, with the `InvalidParam` error and no record. Otherwise the record carries the requested card id, that card's current state and the candidate of the chosen rating, unmodified, plus the caller's time taken and clock reading. |
| `ViewCard.ContentFrom` | src/view_card.rs:27-42 | The content is text exactly when the node is text. |
| `ViewCard.ContentsFrom` | src/view_card.rs:79-80 | One content per node, in order, each the node's conversion. |
| `ViewCard.ContentsFromLossless` | src/view_card.rs:27-42 | The conversion keeps the variant, every payload field and the order: the nodes can be recovered. |
| `ViewCard.ContentFromInjective` | src/view_card.rs:27-42 | Different nodes never become the same content. |
| `ViewCard.SidesShown` | src/view_card.rs:59-63 | "back" or "question" keeps only `back`; "front" or "answer" keeps only `front`; any other token keeps both. A side is either kept or emptied, and at least one is kept. |
| `ViewCard.SidesShownIdempotent` | src/view_card.rs:59-63 | Selecting the same side twice gives what selecting it once gives. |
| `ViewCard.Card.constructor` | src/view_card.rs:8-12 | A card holds its id and both sides as given. |
| `ViewCard.Card.SelectSide` | src/view_card.rs:59-63 | "back" or "question" empties `front` and keeps `back`; "front" or "answer" empties `back` and keeps `front`; any other token keeps both; `id` is unchanged. |
| `ViewCard.Render` | src/view_card.rs:76-82 | A rendering failure is passed on. Otherwise a new card with the requested id, question nodes converted in order into `back` and answer nodes into `front`. |
| `ViewCard.Collection.SetCurrentDeckId` | src/view_card.rs:47-55 | The given deck becomes the current one. |
| `ViewCard.StudyCard` | src/view_card.rs:46-66 | A requested deck becomes current before the queue is consulted. The card is the head of that deck's queue, rendered, with the side token applied. An empty queue or failed rendering is excluded, as the code aborts. |
| `NoteTypes.NoteKindFrom` | src/notetype.rs:117-127 | 0 and 1 decode to the kind with that code. Any other value gives `InvalidNumber(its decimal text, "0, 1")`. |
| `NoteTypes.RequirementKindFrom` | src/notetype.rs:156-170 | 0, 1 and 2 decode to the kind with that code. Any other value gives `InvalidNumber(its decimal text, "0, 1, 2")`. |
| `NoteTypes.KindCodesRoundTrip` | src/notetype.rs:121-123 | Decoding the code of a kind gives the kind back. |
| `NoteTypes.InvalidNumberNamesValue` | src/notetype.rs:124 | The rejected value can be read back from the error text. |
| `NoteTypes.NoteFieldFrom` | src/notetype.rs:43-53 | A field keeps its name, sticky and right-to-left flags, font name and font size. |
| `NoteTypes.CardTemplateFrom` | src/notetype.rs:64-74 | A template keeps its name, modification time, question and answer formats and target deck. |
| `NoteTypes.RequirementFrom` | src/notetype.rs:136-146 | Fails exactly for an unknown kind. Otherwise `card_ord` and `field_ords` are kept and the kind decodes the code. |
| `NoteTypes.RequirementsFrom` | src/notetype.rs:100-105 | One requirement per source requirement, in order, each its conversion. |
| `NoteTypes.ConfigFrom` | src/notetype.rs:88-108 | Fails exactly when the note kind is not 0 or 1, with the decoder's error. Otherwise every attribute is copied and the requirements are kept one for one, each the conversion of its source. A bad requirement kind is excluded, as `unwrap` aborts, but only when the note kind decodes. |
| `NoteTypes.NoteTypeFrom` | src/notetype.rs:19-32 | Fails exactly when the configuration does. Id, name and mtime are copied. Fields and templates keep their count and order, with each attribute copied. |
| `NoteTypes.Resolve` | src/notetype.rs:173-178 | Every resolved note type comes from a token that parses to a known id, and every such token's note type is resolved. Unparseable and unknown ids are skipped. |
| `NoteTypes.ResolveAppend` | src/notetype.rs:173-178 | Resolution works token by token: resolving two token lists one after the other gives the two results concatenated, so the request order is kept and a repeated id is resolved once per occurrence. |
| `NoteTypes.ResolveOne` | src/notetype.rs:173-178 | One token resolves to its note type when it parses to a known id, and to nothing otherwise. |
| `NoteTypes.AllFrom` | src/notetype.rs:179-181 | One converted note type per resolved one, in order. |
| `NoteTypes.ViewNoteTypes` | src/notetype.rs:172-200 | With ids: `NoResults` exactly when nothing resolves, else the conversions in request order. Without ids: the collection's error as `Anki`, else every note type converted. |
| `Note.Overwritten` | src/note/mod.rs:6-14 | Same length; positions below the number of values hold the values, later positions keep their old text. |
| `Note.OverwrittenIdempotent` | src/note/mod.rs:6-14 | Writing the same values twice equals writing them once. |
| `Note.OverwrittenStep` | src/note/mod.rs:10-13 | Writing value i after the first i values equals writing the first i+1 values. |
| `Note.Note.SetField` | src/note/mod.rs:11 | Only field i changes, to the given value. |
| `Note.Note.SetFields` | src/note/mod.rs:6-14 | Field i holds the i-th value for every supplied i. Later fields and the tags are unchanged. |
| `Note.Note.AddTags` | src/note/mod.rs:16-21 | The tags become the old tags followed by the new ones, in order. The fields are unchanged. |
| `Note.Note.ReplaceTags` | src/note/edit.rs:40-41 | Clearing the tags and then adding leaves exactly the given tags. |

## Left out

- `src/main.rs`: argument definitions, opening and closing the collection, and JSON output. This is I/O.
- `src/util.rs`: the wall clock and the output envelope. Clock readings (`now_millis`, `now_secs`, the deck-tree timestamp) are parameters or are not modelled.
- `src/note.rs`, `src/note/add.rs` and `src/note/edit.rs` are not part of this model beyond the tag-replacement pattern. They are glue around collection calls.
- `search` in `src/view_card.rs`: it collects rendered cards into the command result through `From` conversions into `ApiResult` that `src/util.rs` does not define, so it has no definite behaviour to model.
- Answer.AnswerValues: that the accepted-values text lists exactly the eight tokens in order is not proved. The constant holds the code's literal text, and `ChooseState` and `AnswerCard` prove that errors carry it.
- Answer.AnswerCard: the submission itself (`answer_card` and its result) is the collection's. The model returns the record that would be submitted. A failure of `get_next_card_states(...).expect("card states")` (src/answer.rs:17-19) aborts the command; the model's `statesOf` is total, so that abort is not modelled.
- Decks.ListDecks: a failure of `deck_tree(...).expect("deck tree")` (src/decks.rs:48-58) aborts the command; the model takes the tree as an input, so that abort is not modelled.
- Parsing of the card id, time taken and deck id arguments aborts on bad input. The model takes the parsed values.
- ViewCard.StudyCard: a failure of `get_queues` or of `set_current_deck_id` aborts the command. The model treats both calls as succeeding.
- NoteTypes.ViewNoteTypes: `get_notetype` errors and missing note types are both skipped, so both are modelled as ids absent from the lookup map. The order of `get_all_notetypes` comes from a hash map and is taken as given.
- Note.Note.SetField: the collection library's own range check is modelled as a precondition, as `set_fields` aborts when it fails.
- Unsigned 32-bit counts, levels and sizes are modelled as naturals. They are only copied, never computed, so no wrap-around arises.
- Serialisation attributes and the JSON shape of the output.
