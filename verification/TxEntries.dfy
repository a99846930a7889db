/**
 * Where the cut between shown and unshown parts of a transaction lies, said of its fields: which
 * entry of the fee, of the tip and of a message becomes a leaf, and with which key.
 */
module TxEntries {
  import opened JsonNav
  import opened JsonTree
  import opened TxCoverage
  import opened TxLeaves
  import opened TxScreens

  // ----- Leaves of a child are leaves of its parent -----

  // Tokens of the node at v.
  predicate InNode(k: nat, v: nat, n: Node) {
    v <= k < v + Size(n)
  }

  function ChildLevel(n: Node, level: nat): nat
    requires level > 0
  {
    if n.ObjectNode? then level - 1 else level
  }

  // The leaves from the j-th child on that lie in the l-th one.
  lemma {:induction false} LeavesInChild(json: ParsedJson, n: Node, i: nat, j: nat, l: nat, level: nat, depth: nat,
                                         path: string, leaf: LeafRef)
    requires Hosts(json, i, n) && level > 0 && depth > 0 && i < json.numberOfTokens && j <= l < Visited(json, n, i)
    requires InNode(leaf.index, ChildIndex(n, i, l), Children(n)[l])
    ensures Hosts(json, ChildIndex(n, i, l), Children(n)[l])
    ensures leaf in ChildLeaves(json, n, i, j, level, depth, path) <==>
      leaf in Leaves(json, Children(n)[l], ChildIndex(n, i, l), ChildLevel(n, level), depth - 1,
        ChildPath(json, n, l, path))
    decreases l - j
  {
    hide Laid, HostsListing, Listing, Leaves, Visited, ChildIndex, Size, ChildPath;
    ChildHosted(json, i, n, l);
    ChildHosted(json, i, n, j);
    LeavesIncrease(json, Children(n)[j], ChildIndex(n, i, j), ChildLevel(n, level), depth - 1,
      ChildPath(json, n, j, path));
    if j == l {
      LaterLeaves(json, n, i, l, level, depth, path);
    } else {
      ChildrenApart(n, i, j, l);
      LeavesInChild(json, n, i, j + 1, l, level, depth, path, leaf);
    }
  }

  // Leaves of later children lie behind the l-th one.
  lemma {:induction false} LaterLeaves(json: ParsedJson, n: Node, i: nat, l: nat, level: nat, depth: nat, path: string)
    requires Hosts(json, i, n) && level > 0 && depth > 0 && i < json.numberOfTokens && l < Visited(json, n, i)
    ensures forall leaf :: leaf in ChildLeaves(json, n, i, l + 1, level, depth, path) ==>
      leaf.index >= ChildEnd(n, i, l)
  {
    hide Laid, HostsListing, Listing, Leaves, Visited, ChildIndex, Size, ChildPath, ChildLeaves;
    ChildLeavesIncrease(json, n, i, l + 1, level, depth, path);
    ChildHosted(json, i, n, l);
    ChildInOrder(n, i, l);
    forall leaf | leaf in ChildLeaves(json, n, i, l + 1, level, depth, path) ensures leaf.index >= ChildEnd(n, i, l) {
      var k :| 0 <= k < |ChildLeaves(json, n, i, l + 1, level, depth, path)|
        && ChildLeaves(json, n, i, l + 1, level, depth, path)[k] == leaf;
    }
  }

  // The leaf at v is the only one in that node.
  predicate OnlyLeaf(leaves: seq<LeafRef>, v: nat, n: Node, path: string) {
    LeafRef(v, path) in leaves && forall leaf :: leaf in leaves && InNode(leaf.index, v, n) ==> leaf == LeafRef(v, path)
  }

  // What holds of a child's leaves holds of the parent's.
  lemma {:induction false} OnlyLeafInChild(json: ParsedJson, n: Node, i: nat, l: nat, level: nat, depth: nat,
                                           path: string, v: nat, m: Node, q: string)
    requires Hosts(json, i, n) && level > 0 && depth > 0 && !n.Leaf? && i < json.numberOfTokens
    requires l < Visited(json, n, i) && Hosts(json, ChildIndex(n, i, l), Children(n)[l])
    requires ChildIndex(n, i, l) <= v && v + Size(m) <= ChildEnd(n, i, l)
    requires OnlyLeaf(Leaves(json, Children(n)[l], ChildIndex(n, i, l), ChildLevel(n, level), depth - 1,
      ChildPath(json, n, l, path)), v, m, q)
    ensures OnlyLeaf(Leaves(json, n, i, level, depth, path), v, m, q)
  {
    hide Laid, HostsListing, Listing, Visited, ChildIndex, ChildPath, ChildLeaves, Size;
    assert Leaves(json, n, i, level, depth, path) == ChildLeaves(json, n, i, 0, level, depth, path);
    forall leaf: LeafRef | InNode(leaf.index, v, m)
      ensures leaf in Leaves(json, n, i, level, depth, path) <==>
        leaf in Leaves(json, Children(n)[l], ChildIndex(n, i, l), ChildLevel(n, level), depth - 1,
          ChildPath(json, n, l, path)) {
      LeavesInChild(json, n, i, 0, l, level, depth, path, leaf);
    }
    SizePositive(m);
  }

  lemma SizePositive(n: Node)
    ensures Size(n) > 0
  {
  }

  // A node that is cut off is the only leaf in itself.
  lemma CutIsOnly(json: ParsedJson, n: Node, i: nat, level: nat, depth: nat, path: string)
    requires Hosts(json, i, n) && IsCut(n, level, depth)
    ensures OnlyLeaf(Leaves(json, n, i, level, depth, path), i, n, path)
  {
    hide Laid, HostsListing, Listing;
  }

  // ----- Entries of an object -----

  // The e-th entry of an object at i is one leaf, under a path.
  ghost predicate EntryIsLeaf(json: ParsedJson, leaves: seq<LeafRef>, n: Node, i: nat, e: nat, path: string)
    requires Laid(n) && n.ObjectNode? && |n.keys| == |n.values| && e < |n.values|
  {
    OnlyLeaf(leaves, ChildIndex(n, i, e), n.values[e], path + "/" + TokenText(json, n.keys[e]))
  }

  lemma {:induction false} EntryCut(json: ParsedJson, n: Node, i: nat, e: nat, level: nat, depth: nat, path: string)
    requires Hosts(json, i, n) && n.ObjectNode? && |n.keys| == |n.values| && e < |n.values| && path != ""
    requires level > 0 && depth > 0 && IsCut(n.values[e], level - 1, depth - 1)
    ensures EntryIsLeaf(json, Leaves(json, n, i, level, depth, path), n, i, e, path)
  {
    hide Laid, HostsListing, Listing, Visited, ChildIndex, Leaves, OnlyLeaf, Size;
    VisitedIsReach(json, n, i);
    ChildHosted(json, i, n, e);
    CutIsOnly(json, n.values[e], ChildIndex(n, i, e), level - 1, depth - 1, ChildPath(json, n, e, path));
    OnlyLeafInChild(json, n, i, e, level, depth, path, ChildIndex(n, i, e), n.values[e], ChildPath(json, n, e, path));
  }

  // ----- Root fields -----

  lemma FieldNames(r: nat)
    requires r < 7
    ensures RootName(r) == ["chain_id", "account_number", "sequence", "msgs", "memo", "fee", "tip"][r]
  {
  }

  // The first child of the root under a name, and its place among the tokens.
  ghost predicate Field(json: ParsedJson, root: Node, name: string, n: Node, i: nat)
    requires IsRoot(json, root)
  {
    var j := ChildNamed(json, root.keys, name);
    j >= 0 && n == root.values[j] && Laid(root) && i == ChildIndex(root, 0, j)
  }

  lemma FieldLeaves(json: ParsedJson, root: Node, r: nat, name: string, n: Node, i: nat)
    requires IsRoot(json, root) && RootName(r) == name && Field(json, root, name, n, i)
    ensures Hosts(json, i, n)
    ensures RootLeaves(json, root, r) == Leaves(json, n, i, RootMaxLevel(r, false), MAX_RECURSION_DEPTH, name)
  {
    hide Hosts, Laid, Leaves, ChildIndex, ChildNamed;
    StartHosted(json, root, r, 0);
  }

  lemma FieldLaid(json: ParsedJson, root: Node, r: nat, name: string, n: Node, i: nat)
    requires IsRoot(json, root) && RootName(r) == name && Field(json, root, name, n, i)
    ensures Laid(n)
  {
    hide Laid, HostsListing, Listing;
    FieldLeaves(json, root, r, name, n, i);
  }

  // Entries that are all cut off are the leaves, in their order.
  lemma {:induction false} EntriesCut(json: ParsedJson, n: Node, i: nat, e: nat, depth: nat, path: string)
    requires Hosts(json, i, n) && n.ObjectNode? && |n.keys| == |n.values| && depth > 0 && path != ""
    ensures |ChildLeaves(json, n, i, e, 1, depth, path)| == if e < |n.values| then |n.values| - e else 0
    ensures forall k :: e <= k < |n.values| ==>
      ChildLeaves(json, n, i, e, 1, depth, path)[k - e]
        == LeafRef(ChildIndex(n, i, k), path + "/" + TokenText(json, n.keys[k]))
    decreases |n.values| - e
  {
    hide Laid, HostsListing, Listing, Visited, ChildIndex, TokenText, ChildLeaves, Leaves;
    FirstEntryCut(json, n, i, e, depth, path);
    if e < |n.values| { EntriesCut(json, n, i, e + 1, depth, path); }
  }

  lemma FirstEntryCut(json: ParsedJson, n: Node, i: nat, e: nat, depth: nat, path: string)
    requires Hosts(json, i, n) && n.ObjectNode? && |n.keys| == |n.values| && depth > 0 && path != ""
    ensures e >= |n.values| ==> ChildLeaves(json, n, i, e, 1, depth, path) == []
    ensures e < |n.values| ==>
      && Laid(n)
      && ChildLeaves(json, n, i, e, 1, depth, path)
         == [LeafRef(ChildIndex(n, i, e), path + "/" + TokenText(json, n.keys[e]))]
          + ChildLeaves(json, n, i, e + 1, 1, depth, path)
  {
    hide Laid, HostsListing, Listing, Visited, ChildIndex, TokenText;
    VisitedIsReach(json, n, i);
    if e < |n.values| { ChildHosted(json, i, n, e); }
  }

  // The leaves of an object are its entries, under a path.
  ghost predicate LeavesAreEntries(json: ParsedJson, leaves: seq<LeafRef>, n: Node, i: nat, path: string)
    requires Laid(n) && n.ObjectNode?
  {
    && |leaves| == |n.keys| == |n.values|
    && forall e :: 0 <= e < |leaves| ==>
         leaves[e] == LeafRef(ChildIndex(n, i, e), path + "/" + TokenText(json, n.keys[e]))
  }

  lemma LeavesOfEntries(json: ParsedJson, n: Node, i: nat, depth: nat, path: string)
    requires Hosts(json, i, n) && n.ObjectNode? && depth > 0 && path != ""
    ensures LeavesAreEntries(json, Leaves(json, n, i, 1, depth, path), n, i, path)
  {
    hide HostsListing, Listing, ChildIndex, ChildLeaves, TokenText, EntriesLaid;
    EntriesCut(json, n, i, 0, depth, path);
  }

  /** The leaves of a fee are its entries, each with "fee", a slash and its key, whatever its value. */
  lemma {:induction false} FeeLeaves(json: ParsedJson, root: Node, n: Node, i: nat)
    requires IsRoot(json, root) && Field(json, root, "fee", n, i) && n.ObjectNode?
    ensures Laid(n) && LeavesAreEntries(json, RootLeaves(json, root, 5), n, i, "fee")
  {
    hide Laid, Leaves, HostsListing, LeavesAreEntries;
    FieldLaid(json, root, 5, "fee", n, i);
    FieldLeaves(json, root, 5, "fee", n, i);
    LeavesOfEntries(json, n, i, 6, "fee");
  }

  /** So are those of a tip. */
  lemma {:induction false} TipLeaves(json: ParsedJson, root: Node, n: Node, i: nat)
    requires IsRoot(json, root) && Field(json, root, "tip", n, i) && n.ObjectNode?
    ensures Laid(n) && LeavesAreEntries(json, RootLeaves(json, root, 6), n, i, "tip")
  {
    hide Laid, Leaves, HostsListing, LeavesAreEntries;
    FieldLaid(json, root, 6, "tip", n, i);
    FieldLeaves(json, root, 6, "tip", n, i);
    LeavesOfEntries(json, n, i, 6, "tip");
  }

  /** A string or primitive in any root field is its only leaf, with the field's name. */
  lemma {:induction false} ScalarLeaf(json: ParsedJson, root: Node, r: nat, name: string, n: Node, i: nat)
    requires IsRoot(json, root) && RootName(r) == name && Field(json, root, name, n, i) && n.Leaf?
    ensures RootLeaves(json, root, r) == [LeafRef(i, name)]
  {
    hide Laid, HostsListing, Listing;
    FieldLeaves(json, root, r, name, n, i);
  }

  // ----- Messages -----

  // The l-th message and its place.
  ghost predicate Message(json: ParsedJson, root: Node, l: nat, n: Node, i: nat)
    requires IsRoot(json, root)
  {
    var j := ChildNamed(json, root.keys, "msgs");
    && j >= 0 && Laid(root) && Laid(root.values[j])
    && var msgs := root.values[j];
       && msgs.ArrayNode? && l < |msgs.items|
          && (forall k :: 0 <= k < |msgs.items| ==> NonEmptyContainer(msgs.items[k]))
       && n == msgs.items[l] && i == ChildIndex(msgs, ChildIndex(root, 0, j), l) && n.ObjectNode?
  }

  lemma {:induction false} MessageLeaf(json: ParsedJson, root: Node, l: nat, n: Node, i: nat, v: nat, m: Node,
                                       q: string)
    requires IsRoot(json, root) && Message(json, root, l, n, i)
    requires i <= v && v + Size(m) <= i + Size(n)
    ensures Hosts(json, i, n)
    ensures OnlyLeaf(Leaves(json, n, i, 2, 5, "msgs"), v, m, q) ==> OnlyLeaf(RootLeaves(json, root, 3), v, m, q)
  {
    hide Laid, HostsListing, Listing, ChildIndex, ChildNamed, Leaves, OnlyLeaf, Size, NonEmptyContainer;
    var j := ChildNamed(json, root.keys, "msgs");
    var msgs, at := root.values[j], ChildIndex(root, 0, j);
    FieldLeaves(json, root, 3, "msgs", msgs, at);
    ChildHosted(json, at, msgs, l);
    VisitedIsReach(json, msgs, at);
    ArrayReached(msgs);
    if OnlyLeaf(Leaves(json, n, i, 2, 5, "msgs"), v, m, q) {
      OnlyLeafInChild(json, msgs, at, l, 2, 6, "msgs", v, m, q);
    }
  }

  /** An entry of a message that is a string or a primitive is one leaf: "msgs", a slash and its key. */
  lemma {:induction false} MessageEntry(json: ParsedJson, root: Node, l: nat, n: Node, i: nat, e: nat)
    requires IsRoot(json, root) && Message(json, root, l, n, i)
    requires |n.keys| == |n.values| && e < |n.values| && n.values[e].Leaf?
    ensures Laid(n) && EntryIsLeaf(json, RootLeaves(json, root, 3), n, i, e, "msgs")
  {
    hide Laid, HostsListing, Listing, ChildIndex, Leaves, OnlyLeaf, NonEmptyContainer, ChildNamed;
    MessageLeaf(json, root, l, n, i, i, n, "");
    ChildInOrder(n, i, e);
    EntryCut(json, n, i, e, 2, 5, "msgs");
    MessageLeaf(json, root, l, n, i, ChildIndex(n, i, e), n.values[e], "msgs" + "/" + TokenText(json, n.keys[e]));
  }

  /** An entry of an object directly inside a message is one leaf, whatever its value, and its path has
      both keys. */
  lemma {:induction false} InnerEntry(json: ParsedJson, root: Node, l: nat, n: Node, i: nat, e: nat, f: nat)
    requires IsRoot(json, root) && Message(json, root, l, n, i)
    requires |n.keys| == |n.values| && e < |n.values| && n.values[e].ObjectNode?
    requires var m := n.values[e]; |m.keys| == |m.values| && f < |m.values|
    ensures Laid(n) && Laid(n.values[e])
    ensures EntryIsLeaf(json, RootLeaves(json, root, 3), n.values[e], ChildIndex(n, i, e), f,
      "msgs/" + TokenText(json, n.keys[e]))
  {
    hide Laid, HostsListing, Listing, ChildIndex, Leaves, OnlyLeaf, NonEmptyContainer, ChildNamed, Size;
    MessageLeaf(json, root, l, n, i, i, n, "");
    var m, at, path := n.values[e], ChildIndex(n, i, e), "msgs/" + TokenText(json, n.keys[e]);
    assert path == ChildPath(json, n, e, "msgs") by { assert "msgs" + "/" == "msgs/"; }
    ChildHosted(json, i, n, e);
    VisitedIsReach(json, n, i);
    ChildInOrder(n, i, e);
    ChildInOrder(m, at, f);
    EntryCut(json, m, at, f, 1, 4, path);
    var q := path + "/" + TokenText(json, m.keys[f]);
    OnlyLeafInChild(json, n, i, e, 2, 5, "msgs", ChildIndex(m, at, f), m.values[f], q);
    MessageLeaf(json, root, l, n, i, ChildIndex(m, at, f), m.values[f], q);
  }

  /** So is an entry of an object in a list inside a message; lists add nothing to the path. */
  lemma {:induction false} ListedEntry(json: ParsedJson, root: Node, l: nat, n: Node, i: nat, e: nat, g: nat, f: nat)
    requires IsRoot(json, root) && Message(json, root, l, n, i)
    requires |n.keys| == |n.values| && e < |n.values| && n.values[e].ArrayNode? && g < |n.values[e].items|
    requires forall k :: 0 <= k < |n.values[e].items| ==> NonEmptyContainer(n.values[e].items[k])
    requires var m := n.values[e].items[g]; m.ObjectNode? && |m.keys| == |m.values| && f < |m.values|
    ensures Laid(n) && Laid(n.values[e]) && Laid(n.values[e].items[g])
    ensures EntryIsLeaf(json, RootLeaves(json, root, 3), n.values[e].items[g],
      ChildIndex(n.values[e], ChildIndex(n, i, e), g), f, "msgs/" + TokenText(json, n.keys[e]))
  {
    hide Laid, HostsListing, Listing, ChildIndex, Leaves, OnlyLeaf, NonEmptyContainer, ChildNamed, Size;
    MessageLeaf(json, root, l, n, i, i, n, "");
    var list, at, path := n.values[e], ChildIndex(n, i, e), "msgs/" + TokenText(json, n.keys[e]);
    assert path == ChildPath(json, n, e, "msgs") by { assert "msgs" + "/" == "msgs/"; }
    ChildHosted(json, i, n, e);
    VisitedIsReach(json, n, i);
    ChildInOrder(n, i, e);
    var m, mat := list.items[g], ChildIndex(list, at, g);
    ChildHosted(json, at, list, g);
    VisitedIsReach(json, list, at);
    ArrayReached(list);
    ChildInOrder(list, at, g);
    ChildInOrder(m, mat, f);
    EntryCut(json, m, mat, f, 1, 3, path);
    var v, q := ChildIndex(m, mat, f), path + "/" + TokenText(json, m.keys[f]);
    OnlyLeafInChild(json, list, at, g, 1, 4, path, v, m.values[f], q);
    OnlyLeafInChild(json, n, i, e, 2, 5, "msgs", v, m.values[f], q);
    MessageLeaf(json, root, l, n, i, v, m.values[f], q);
  }

  // ----- Nested lists -----

  // A string or primitive inside k lists of one element.
  predicate Nested(n: Node, k: nat) {
    if k == 0 then n.Leaf? else n.ArrayNode? && |n.items| == 1 && Nested(n.items[0], k - 1)
  }

  lemma {:induction false} NestedLeaf(json: ParsedJson, n: Node, i: nat, level: nat, depth: nat, path: string, k: nat)
    requires Hosts(json, i, n) && Nested(n, k) && level > 0
    ensures Leaves(json, n, i, level, depth, path) == [LeafRef(i + if k < depth then k else depth, path)]
    decreases k
  {
    hide Laid, HostsListing, Listing, PairCount;
    if k > 0 && depth > 0 {
      ChildHosted(json, i, n, 0);
      VisitedIsReach(json, n, i);
      OneIsReached(n);
      NestedLeaf(json, n.items[0], i + 1, level, depth - 1, path, k - 1);
      assert ChildIndex(n, i, 0) == i + 1;
      assert ChildLeaves(json, n, i, 1, level, depth, path) == [];
      assert Leaves(json, n, i, level, depth, path) == ChildLeaves(json, n, i, 0, level, depth, path);
    }
  }

  lemma OneIsReached(n: Node)
    requires n.ArrayNode? && |n.items| == 1
    ensures Reach(n) == 1
  {
    hide Pairs, PairsOfItems;
    FirstIsCounted(n.items);
  }

  /** Lists are looked into up to a depth of six; what is nested deeper is shown as the text of a list. */
  lemma NestedField(json: ParsedJson, root: Node, r: nat, name: string, n: Node, i: nat, k: nat)
    requires IsRoot(json, root) && r < 7 && RootName(r) == name && Field(json, root, name, n, i) && Nested(n, k)
    ensures RootLeaves(json, root, r) == [LeafRef(i + if k < 6 then k else 6, name)]
  {
    hide Hosts, Laid, Leaves;
    FieldLeaves(json, root, r, name, n, i);
    NestedLeaf(json, n, i, RootMaxLevel(r, false), 6, name, k);
  }
}
