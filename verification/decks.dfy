/** The deck catalog: a pre-order walk of the deck tree that keeps its own
    stack of sibling queues instead of recursing, and the `list-decks`
    pipeline that drops the synthetic root, projects every node to a `Deck`
    summary and applies the id and name filters. */
module Decks {
  import opened Util
  import Decimal

  /** A node of the collection's deck tree, as the collection library hands it out. */
  datatype DeckTreeNode = DeckTreeNode(
    deckId: int,
    name: string,
    level: nat,
    collapsed: bool,
    reviewCount: nat,
    learnCount: nat,
    newCount: nat,
    filtered: bool,
    children: seq<DeckTreeNode>)

  /** The flat summary of one deck printed by `list-decks`. */
  datatype Deck = Deck(
    id: int,
    name: string,
    level: nat,
    collapsed: bool,
    reviewCount: nat,
    learnCount: nat,
    newCount: nat,
    filtered: bool)

  /** `From<DeckTreeNode> for Deck`: every attribute but the children. */
  function DeckFrom(n: DeckTreeNode): (d: Deck)
    ensures d.id == n.deckId && d.name == n.name && d.level == n.level && d.collapsed == n.collapsed
    ensures d.reviewCount == n.reviewCount && d.learnCount == n.learnCount && d.newCount == n.newCount
    ensures d.filtered == n.filtered
  {
    Deck(n.deckId, n.name, n.level, n.collapsed, n.reviewCount, n.learnCount, n.newCount, n.filtered)
  }

  /** The node as the walk hands it out: its children have been moved away. */
  function Detached(n: DeckTreeNode): (m: DeckTreeNode)
    ensures m.children == []
    ensures DeckFrom(m) == DeckFrom(n)
  {
    n.(children := [])
  }

  /** The number of nodes in a tree. */
  function Size(n: DeckTreeNode): nat
    decreases n, 1
  {
    1 + ForestSize(n.children)
  }

  function ForestSize(ns: seq<DeckTreeNode>): nat
    decreases ns, 0
  {
    if ns == [] then 0 else Size(ns[0]) + ForestSize(ns[1..])
  }

  /** Reference order of the walk: a node (detached from its children), then
      the pre-order of each of its children, siblings left to right. */
  function PreOrder(n: DeckTreeNode): seq<DeckTreeNode>
    decreases n, 1
  {
    [Detached(n)] + ForestPreOrder(n.children)
  }

  function ForestPreOrder(ns: seq<DeckTreeNode>): seq<DeckTreeNode>
    decreases ns, 0
  {
    if ns == [] then [] else PreOrder(ns[0]) + ForestPreOrder(ns[1..])
  }

  /** The pre-order of a sequence of sibling queues, innermost queue first. */
  function PendingPreOrder(frames: seq<seq<DeckTreeNode>>): seq<DeckTreeNode> {
    if frames == [] then [] else ForestPreOrder(frames[0]) + PendingPreOrder(frames[1..])
  }

  /** The walk visits every node of the tree exactly once. */
  lemma {:induction false} PreOrderSize(n: DeckTreeNode)
    ensures |PreOrder(n)| == Size(n)
    decreases n, 1
  {
    ForestPreOrderSize(n.children);
  }

  lemma {:induction false} ForestPreOrderSize(ns: seq<DeckTreeNode>)
    ensures |ForestPreOrder(ns)| == ForestSize(ns)
    decreases ns, 0
  {
    if ns != [] {
      PreOrderSize(ns[0]);
      ForestPreOrderSize(ns[1..]);
    }
  }

  /** Every node the walk hands out has had its children moved away. */
  lemma {:induction false} PreOrderDetached(n: DeckTreeNode)
    ensures forall m | m in PreOrder(n) :: m.children == []
    decreases n, 1
  {
    ForestPreOrderDetached(n.children);
  }

  lemma {:induction false} ForestPreOrderDetached(ns: seq<DeckTreeNode>)
    ensures forall m | m in ForestPreOrder(ns) :: m.children == []
    decreases ns, 0
  {
    if ns != [] {
      PreOrderDetached(ns[0]);
      ForestPreOrderDetached(ns[1..]);
    }
  }

  /** A queue of siblings has nothing left to walk exactly when it is empty. */
  lemma ForestPreOrderEmpty(ns: seq<DeckTreeNode>)
    ensures ForestPreOrder(ns) == [] <==> ns == []
  {
  }

  /** `DeckTreeNodeIter`: `children` is the queue of siblings not yet visited
      in the current frame; `parents` holds the queues of the enclosing
      frames, the nearest parent first. */
  class DeckTreeNodeIter {
    var children: seq<DeckTreeNode>
    var parents: seq<seq<DeckTreeNode>>

    /** The nodes the iterator has still to yield, in order. */
    ghost function Remaining(): seq<DeckTreeNode>
      reads this
    {
      ForestPreOrder(children) + PendingPreOrder(parents)
    }

    /** `From<DeckTreeNode>`: one frame holding only the root. */
    constructor From(n: DeckTreeNode)
      ensures children == [n] && parents == []
      ensures Remaining() == PreOrder(n)
    {
      children := [n];
      parents := [];
      assert ForestPreOrder([n][1..]) == [];
    }

    /** `next`: when the current frame is used up, resume the parent frame;
        otherwise pop the front sibling, open a frame for its children and
        yield it without them. `None` only once every frame is used up. */
    method Next() returns (r: Option<DeckTreeNode>)
      modifies this
      ensures old(Remaining()) == [] ==> r == None && Remaining() == []
      ensures old(Remaining()) != [] ==>
        r == Some(old(Remaining())[0]) && Remaining() == old(Remaining())[1..]
      ensures r.Some? ==> r.value.children == []
    {
      while children == [] && parents != []
        invariant Remaining() == old(Remaining())
        decreases |parents|
      {
        children := parents[0];
        parents := parents[1..];
      }
      ForestPreOrderEmpty(children);
      if children == [] {
        r := None;
      } else {
        var child := children[0];
        ghost var rest := ForestPreOrder(children[1..]) + PendingPreOrder(parents);
        assert ForestPreOrder(children) == [Detached(child)] + ForestPreOrder(child.children) + ForestPreOrder(children[1..]);
        assert old(Remaining()) == [Detached(child)] + (ForestPreOrder(child.children) + rest);
        parents := [children[1..]] + parents;
        children := child.children;
        r := Some(Detached(child));
      }
    }
  }

  /** Whether a deck passes both filters; an empty filter passes everything. */
  predicate Keep(d: Deck, ids: set<int>, names: set<string>)
    ensures ids == {} && names == {} ==> Keep(d, ids, names)
    ensures Keep(d, ids, names) ==> (ids == {} || d.id in ids) && (names == {} || d.name in names)
  {
    (ids == {} || d.id in ids) && (names == {} || d.name in names)
  }

  /** Reference definition of the pipeline after the walk: drop the nodes
      with id 0, project to `Deck`, keep those that pass both filters. */
  function Select(nodes: seq<DeckTreeNode>, ids: set<int>, names: set<string>): seq<Deck> {
    if nodes == [] then []
    else
      var d := DeckFrom(nodes[0]);
      (if nodes[0].deckId != 0 && Keep(d, ids, names) then [d] else [])
        + Select(nodes[1..], ids, names)
  }

  /** The decks `list-decks` prints for a tree and the two filters. */
  function Listing(tree: DeckTreeNode, ids: set<int>, names: set<string>): seq<Deck> {
    Select(PreOrder(tree), ids, names)
  }

  lemma {:induction false} SelectAppend(a: seq<DeckTreeNode>, b: seq<DeckTreeNode>, ids: set<int>, names: set<string>)
    ensures Select(a + b, ids, names) == Select(a, ids, names) + Select(b, ids, names)
  {
    if a == [] {
      assert a + b == b;
    } else {
      assert (a + b)[1..] == a[1..] + b;
      SelectAppend(a[1..], b, ids, names);
    }
  }

  /** A deck is listed exactly when some walked node with a non-zero id
      projects to it and passes both filters. */
  lemma {:induction false} SelectMembership(nodes: seq<DeckTreeNode>, ids: set<int>, names: set<string>, d: Deck)
    ensures d in Select(nodes, ids, names) <==>
      exists i | 0 <= i < |nodes| :: nodes[i].deckId != 0 && DeckFrom(nodes[i]) == d && Keep(d, ids, names)
  {
    if nodes != [] {
      SelectMembership(nodes[1..], ids, names, d);
      if d in Select(nodes[1..], ids, names) {
        var i :| 0 <= i < |nodes[1..]| && nodes[1..][i].deckId != 0 && DeckFrom(nodes[1..][i]) == d && Keep(d, ids, names);
        assert nodes[i + 1] == nodes[1..][i];
      }
      if exists i | 0 <= i < |nodes| :: nodes[i].deckId != 0 && DeckFrom(nodes[i]) == d && Keep(d, ids, names) {
        var i :| 0 <= i < |nodes| && nodes[i].deckId != 0 && DeckFrom(nodes[i]) == d && Keep(d, ids, names);
        if i > 0 {
          assert nodes[1..][i - 1] == nodes[i];
        }
      }
    }
  }

  /** No listed deck has id 0: every synthetic node is dropped, not only the root. */
  lemma ListingHasNoZeroId(tree: DeckTreeNode, ids: set<int>, names: set<string>)
    ensures forall d | d in Listing(tree, ids, names) :: d.id != 0
  {
    forall d | d in Listing(tree, ids, names) ensures d.id != 0 {
      SelectMembership(PreOrder(tree), ids, names, d);
    }
  }

  /** With both filters non-empty, a deck is listed only when its id and its
      name are both selected. */
  lemma ListingRespectsFilters(tree: DeckTreeNode, ids: set<int>, names: set<string>)
    ensures forall d | d in Listing(tree, ids, names) ::
      (ids != {} ==> d.id in ids) && (names != {} ==> d.name in names)
  {
    forall d | d in Listing(tree, ids, names)
      ensures (ids != {} ==> d.id in ids) && (names != {} ==> d.name in names)
    {
      SelectMembership(PreOrder(tree), ids, names, d);
    }
  }

  /** The walked nodes whose id is not 0, in walk order. */
  function NonSynthetic(nodes: seq<DeckTreeNode>): (r: seq<DeckTreeNode>)
    ensures |r| <= |nodes|
    ensures forall m | m in r :: m in nodes && m.deckId != 0
    ensures forall i | 0 <= i < |nodes| && nodes[i].deckId != 0 :: nodes[i] in r
  {
    if nodes == [] then []
    else
      assert forall i | 1 <= i < |nodes| :: nodes[i] == nodes[1..][i - 1];
      (if nodes[0].deckId != 0 then [nodes[0]] else []) + NonSynthetic(nodes[1..])
  }

  /** Dropping id-0 nodes works node by node, so it keeps the walk order. */
  lemma {:induction false} NonSyntheticAppend(a: seq<DeckTreeNode>, b: seq<DeckTreeNode>)
    ensures NonSynthetic(a + b) == NonSynthetic(a) + NonSynthetic(b)
  {
    if a == [] {
      assert a + b == b;
    } else {
      assert (a + b)[0] == a[0];
      assert (a + b)[1..] == a[1..] + b;
      NonSyntheticAppend(a[1..], b);
    }
  }

  /** Without filters every non-synthetic node is listed, in walk order,
      duplicates of a name included. */
  lemma {:induction false} SelectUnfiltered(nodes: seq<DeckTreeNode>)
    ensures |Select(nodes, {}, {})| <= |nodes|
    ensures (forall i | 0 <= i < |nodes| :: nodes[i].deckId != 0) ==>
      Select(nodes, {}, {}) == seq(|nodes|, i requires 0 <= i < |nodes| => DeckFrom(nodes[i]))
  {
    if nodes != [] {
      SelectUnfiltered(nodes[1..]);
    }
  }

  /** Each node projected to the `Deck` it is printed as. */
  function Projected(nodes: seq<DeckTreeNode>): (r: seq<Deck>)
    ensures |r| == |nodes|
    ensures forall i | 0 <= i < |nodes| :: r[i].id == nodes[i].deckId && r[i].name == nodes[i].name
  {
    seq(|nodes|, i requires 0 <= i < |nodes| => DeckFrom(nodes[i]))
  }

  lemma ProjectedAppend(a: seq<DeckTreeNode>, b: seq<DeckTreeNode>)
    ensures Projected(a + b) == Projected(a) + Projected(b)
  {
  }

  /** Without filters, whatever the ids, the listing is the walk with its
      id-0 nodes removed, each projected to `Deck`. */
  lemma {:induction false} SelectUnfilteredNonSynthetic(nodes: seq<DeckTreeNode>)
    ensures Select(nodes, {}, {}) == Projected(NonSynthetic(nodes))
  {
    if nodes != [] {
      SelectUnfilteredNonSynthetic(nodes[1..]);
      var head := if nodes[0].deckId != 0 then [nodes[0]] else [];
      ProjectedAppend(head, NonSynthetic(nodes[1..]));
    }
  }

  /** A tree under the synthetic root whose other nodes all have non-zero
      ids lists every deck below the root, in pre-order. */
  lemma UnfilteredListing(root: DeckTreeNode)
    requires root.deckId == 0
    requires forall m | m in ForestPreOrder(root.children) :: m.deckId != 0
    ensures Listing(root, {}, {}) == Projected(ForestPreOrder(root.children))
  {
    var w := ForestPreOrder(root.children);
    SelectAppend([Detached(root)], w, {}, {});
    SelectUnfiltered(w);
  }

  /** A synthetic root over "Spanish" (id 10) over "Verbs" (id 11) lists
      Spanish then Verbs; the id filter {11} keeps only Verbs. */
  lemma NestedDecksExample()
    ensures var verbs := DeckTreeNode(11, "Verbs", 2, false, 0, 0, 0, false, []);
      var spanish := DeckTreeNode(10, "Spanish", 1, false, 0, 0, 0, false, [verbs]);
      var root := DeckTreeNode(0, "", 0, false, 0, 0, 0, false, [spanish]);
      && Listing(root, {}, {}) == [DeckFrom(spanish), DeckFrom(verbs)]
      && Listing(root, {11}, {}) == [DeckFrom(verbs)]
  {
  }

  /** The deck ids a list of `--deck-id` tokens selects: the tokens that
      parse as a 64-bit integer; the others are dropped silently. */
  function ParsedIds(tokens: seq<string>): (ids: set<int>)
    ensures forall x :: x in ids <==> exists t | t in tokens :: Decimal.ParseI64(t) == Some(x)
  {
    set t | t in tokens && Decimal.ParseI64(t).Some? :: Decimal.ParseI64(t).value
  }

  /** Id tokens none of which parse filter nothing, like no tokens at all. */
  lemma UnparseableIdsDoNotFilter(tree: DeckTreeNode, tokens: seq<string>, names: set<string>)
    requires forall t | t in tokens :: Decimal.ParseI64(t).None?
    ensures Listing(tree, ParsedIds(tokens), names) == Listing(tree, {}, names)
  {
    assert ParsedIds(tokens) == {};
  }

  /** `list_decks`, with the collection's deck tree passed in. It always
      answers `Some`, possibly with no decks. */
  method ListDecks(tree: DeckTreeNode, idTokens: seq<string>, names: set<string>) returns (r: Option<seq<Deck>>)
    ensures r == Some(Listing(tree, ParsedIds(idTokens), names))
  {
    var ids := ParsedIds(idTokens);
    var it := new DeckTreeNodeIter.From(tree);
    var decks: seq<Deck> := [];
    while true
      invariant decks + Select(it.Remaining(), ids, names) == Listing(tree, ids, names)
      decreases |it.Remaining()|
    {
      ghost var before := it.Remaining();
      var next := it.Next();
      if next.None? {
        assert Select(it.Remaining(), ids, names) == [];
        assert decks + [] == decks;
        break;
      }
      var node := next.value;
      assert before == [node] + it.Remaining();
      SelectAppend([node], it.Remaining(), ids, names);
      if node.deckId != 0 && Keep(DeckFrom(node), ids, names) {
        decks := decks + [DeckFrom(node)];
      }
    }
    r := Some(decks);
  }
}
