/**
 * What the display shows of a JSON value: its subtree flattened below a level and a depth, each
 * leaf with the path of keys that leads to it, less the leaves the grouping rules skip.
 */
module TxLeaves {
  import opened Jsmn
  import opened JsonTree
  import opened JsonNav

  // ----- Children -----

  function Children(n: Node): seq<Node> {
    match n
    case Leaf(_) => []
    case ArrayNode(_, xs) => xs
    case ObjectNode(_, _, vs) => vs
  }

  // Token index of the j-th child of the node at i.
  function ChildIndex(n: Node, i: nat, j: nat): nat
    requires Laid(n) && j < |Children(n)|
  {
    if n.ArrayNode? then ItemIndices(n.items, i + 1)[j] else KeyIndices(n.keys, n.values, i + 1)[j] + 1
  }

  lemma {:induction false} ItemHosted(json: ParsedJson, i: nat, xs: seq<Node>, a: int, b: int, j: nat)
    requires Usable(json) && ItemsLaid(xs, a, b) && HostsListing(json, i, ListItems(xs), b) && j < |xs|
    ensures Hosts(json, ItemIndices(xs, i)[j], xs[j])
    decreases xs
  {
    hide HostsListing, Laid, Listing, ListItems;
    FirstItem(json, i, xs, a, b);
    if j > 0 { ItemHosted(json, i + Size(xs[0]), xs[1..], xs[0].tok.end, b, j - 1); }
  }

  lemma {:induction false} ValueHosted(json: ParsedJson, i: nat, ks: seq<Token>, vs: seq<Node>, a: int, b: int, j: nat)
    requires Usable(json) && |ks| == |vs| && EntriesLaid(ks, vs, a, b) && j < |ks|
    requires HostsListing(json, i, ListEntries(ks, vs), b)
    ensures var k := KeyIndices(ks, vs, i)[j];
      k < json.numberOfTokens && json.tokens[k] == ks[j] && Hosts(json, k + 1, vs[j])
    decreases vs
  {
    hide HostsListing, Laid, Listing, ListEntries;
    FirstEntry(json, i, ks, vs, a, b);
    if j > 0 { ValueHosted(json, i + 1 + Size(vs[0]), ks[1..], vs[1..], vs[0].tok.end, b, j - 1); }
  }

  lemma {:induction false} ChildHosted(json: ParsedJson, i: nat, n: Node, j: nat)
    requires Hosts(json, i, n) && j < |Children(n)|
    ensures Hosts(json, ChildIndex(n, i, j), Children(n)[j])
    ensures n.ObjectNode? ==> json.tokens[ChildIndex(n, i, j) - 1] == n.keys[j]
  {
    hide HostsListing, Listing, ListItems, ListEntries;
    ChildrenHosted(json, i, n);
    match n
    case ArrayNode(t, xs) => ItemHosted(json, i + 1, xs, t.start, t.end, j);
    case ObjectNode(t, ks, vs) => ValueHosted(json, i + 1, ks, vs, t.start, t.end, j);
  }

  // ----- Leaves -----

  datatype LeafRef = LeafRef(index: nat, path: string)

  function TokenText(json: ParsedJson, t: Token): string {
    if 0 <= t.start <= t.end <= |json.buffer| then json.buffer[t.start..t.end] else ""
  }

  function Join(path: string, key: string): string {
    if path == "" then key else path + "/" + key
  }

  function ChildPath(json: ParsedJson, n: Node, j: nat, path: string): string
    requires Laid(n) && j < |Children(n)|
  {
    if n.ObjectNode? then Join(path, TokenText(json, n.keys[j])) else path
  }

  predicate IsCut(n: Node, level: nat, depth: nat) {
    level == 0 || depth == 0 || n.Leaf?
  }

  // How many children of the node at i the traversal visits.
  function Visited(json: ParsedJson, n: Node, i: nat): (c: nat)
    requires Usable(json) && i < json.numberOfTokens
    ensures c <= |Children(n)|
  {
    if |Keys(json, i)| < |Children(n)| then |Keys(json, i)| else |Children(n)|
  }

  // The leaves of the node at i. Objects use up both level and depth, arrays only depth.
  function Leaves(json: ParsedJson, n: Node, i: nat, level: nat, depth: nat, path: string): seq<LeafRef>
    requires Hosts(json, i, n)
    decreases n, 1, 0
  {
    if IsCut(n, level, depth) then [LeafRef(i, path)] else ChildLeaves(json, n, i, 0, level, depth, path)
  }

  // Those of its children from the j-th on.
  function ChildLeaves(json: ParsedJson, n: Node, i: nat, j: nat, level: nat, depth: nat, path: string): seq<LeafRef>
    requires Hosts(json, i, n) && level > 0 && depth > 0
    decreases n, 0, |Children(n)| - j
  {
    ChildrenHosted(json, i, n);
    if j >= Visited(json, n, i) then []
    else
      ChildHosted(json, i, n, j);
      Leaves(json, Children(n)[j], ChildIndex(n, i, j), if n.ObjectNode? then level - 1 else level, depth - 1,
        ChildPath(json, n, j, path))
      + ChildLeaves(json, n, i, j + 1, level, depth, path)
  }

  // ----- Order -----

  predicate Increasing(leaves: seq<LeafRef>, lo: nat, hi: nat) {
    && (forall k :: 0 <= k < |leaves| ==> lo <= leaves[k].index < hi)
    && (forall k, l :: 0 <= k < l < |leaves| ==> leaves[k].index < leaves[l].index)
  }

  // Where the listing of the j-th child ends, which is where the next one's begins.
  function ChildEnd(n: Node, i: nat, j: nat): nat
    requires Laid(n) && j < |Children(n)|
  {
    ChildIndex(n, i, j) + Size(Children(n)[j])
  }

  lemma {:induction false} ItemsInOrder(xs: seq<Node>, i: nat, j: nat)
    requires j < |xs|
    ensures i <= ItemIndices(xs, i)[j] && ItemIndices(xs, i)[j] + Size(xs[j]) <= i + |ListItems(xs)|
    ensures j + 1 < |xs| ==> ItemIndices(xs, i)[j] + Size(xs[j]) == ItemIndices(xs, i)[j + 1]
    decreases xs
  {
    hide Listing;
    if j > 0 { ItemsInOrder(xs[1..], i + Size(xs[0]), j - 1); }
  }

  lemma {:induction false} EntriesInOrder(ks: seq<Token>, vs: seq<Node>, i: nat, j: nat)
    requires |ks| == |vs| && j < |ks|
    ensures var k := KeyIndices(ks, vs, i)[j];
      && i <= k && k + 1 + Size(vs[j]) <= i + |ListEntries(ks, vs)|
      && (j + 1 < |ks| ==> k + 1 + Size(vs[j]) == KeyIndices(ks, vs, i)[j + 1])
    decreases vs
  {
    hide Listing;
    if j > 0 { EntriesInOrder(ks[1..], vs[1..], i + 1 + Size(vs[0]), j - 1); }
  }

  lemma {:induction false} ChildInOrder(n: Node, i: nat, j: nat)
    requires Laid(n) && j < |Children(n)|
    ensures i < ChildIndex(n, i, j) && ChildEnd(n, i, j) <= i + Size(n)
    ensures j + 1 < |Children(n)| ==> ChildEnd(n, i, j) <= ChildIndex(n, i, j + 1)
  {
    hide ListItems, ListEntries, ItemIndices, KeyIndices;
    match n
    case ArrayNode(_, xs) => ItemsInOrder(xs, i + 1, j);
    case ObjectNode(_, ks, vs) => EntriesInOrder(ks, vs, i + 1, j);
  }

  /** The leaves are in document order, and within the node's own tokens. */
  lemma {:induction false} LeavesIncrease(json: ParsedJson, n: Node, i: nat, level: nat, depth: nat, path: string)
    requires Hosts(json, i, n)
    ensures Increasing(Leaves(json, n, i, level, depth, path), i, i + Size(n))
    decreases n, 1, 0
  {
    hide Laid, Listing, HostsListing;
    if !IsCut(n, level, depth) {
      if Children(n) != [] { ChildInOrder(n, i, 0); }
      ChildLeavesIncrease(json, n, i, 0, level, depth, path);
    }
  }

  lemma {:induction false} ChildLeavesIncrease(json: ParsedJson, n: Node, i: nat, j: nat, level: nat, depth: nat,
                                               path: string)
    requires Hosts(json, i, n) && level > 0 && depth > 0
    ensures Increasing(ChildLeaves(json, n, i, j, level, depth, path),
      if j < |Children(n)| then ChildIndex(n, i, j) else i + Size(n), i + Size(n))
    decreases n, 0, |Children(n)| - j
  {
    hide Laid, Listing, HostsListing, ChildIndex, Leaves, ChildPath, Visited, Size;
    ChildrenHosted(json, i, n);
    if j < Visited(json, n, i) {
      ChildHosted(json, i, n, j);
      ChildInOrder(n, i, j);
      LeavesIncrease(json, Children(n)[j], ChildIndex(n, i, j), if n.ObjectNode? then level - 1 else level, depth - 1,
        ChildPath(json, n, j, path));
      ChildLeavesIncrease(json, n, i, j + 1, level, depth, path);
    }
  }

  lemma {:induction false} LeafInRange(json: ParsedJson, n: Node, i: nat, level: nat, depth: nat, path: string, k: nat)
    requires Hosts(json, i, n) && k < |Leaves(json, n, i, level, depth, path)|
    ensures Leaves(json, n, i, level, depth, path)[k].index < json.numberOfTokens
  {
    hide Leaves, Laid;
    LeavesIncrease(json, n, i, level, depth, path);
  }

  // What a node's token type tells about it.
  lemma {:induction false} LeavesByType(json: ParsedJson, n: Node, i: nat, level: nat, depth: nat, path: string)
    requires Hosts(json, i, n)
    ensures i < json.numberOfTokens
    ensures var t := json.tokens[i].typ;
      && (n.Leaf? <==> t == String || t == Primitive) && (n.ArrayNode? <==> t == Array)
         && (n.ObjectNode? <==> t == Object)
      && Leaves(json, n, i, level, depth, path)
        == if level == 0 || depth == 0 || t == String || t == Primitive then [LeafRef(i, path)]
           else ChildLeaves(json, n, i, 0, level, depth, path)
  {
    ChildrenHosted(json, i, n);
  }

  // ----- Skipping and searching -----

  const MSG_TYPE := "msgs/type"
  const MSG_FROM := "msgs/value/delegator_address"

  function Take(s: string, n: nat): (r: string)
    ensures |r| <= n
  {
    if |s| <= n then s else s[..n]
  }

  // The grouping rules in force; keys are seen cut to keyCap characters.
  datatype Rule = Rule(keyCap: nat, active: bool, byType: bool, typeIndex: int, byFrom: bool, fromIndex: int,
                       hideFrom: bool)

  // Is the leaf with this path, the cur-th of the search, to be skipped?
  predicate Skips(r: Rule, path: string, cur: nat) {
    r.active &&
    ((r.byType && Take(path, r.keyCap) == MSG_TYPE && r.typeIndex != cur) ||
     (r.byFrom && Take(path, r.keyCap) == MSG_FROM && (r.hideFrom || r.fromIndex != cur)))
  }

  // cur and item are the search's counters when it ends.
  datatype Found = Hit(leaf: LeafRef, cur: nat, item: int) | Miss(cur: nat, item: int)

  // The counting search: a skipped leaf moves the wanted index on by one.
  function Search(leaves: seq<LeafRef>, cur: nat, item: int, r: Rule): Found {
    if leaves == [] then Miss(cur, item)
    else if Skips(r, leaves[0].path, cur) then Search(leaves[1..], cur + 1, item + 1, r)
    else if cur == item then Hit(leaves[0], cur, item)
    else Search(leaves[1..], cur + 1, item, r)
  }

  lemma {:induction false} SearchAppend(a: seq<LeafRef>, b: seq<LeafRef>, cur: nat, item: int, r: Rule)
    ensures var f := Search(a, cur, item, r);
      Search(a + b, cur, item, r) == if f.Hit? then f else Search(b, f.cur, f.item, r)
    decreases a
  {
    if a == [] {
      assert a + b == b;
    } else {
      assert (a + b)[1..] == a[1..] + b;
      SearchAppend(a[1..], b, cur + 1, if Skips(r, a[0].path, cur) then item + 1 else item, r);
    }
  }

  // Searching the children from the j-th on is searching the j-th and then the others.
  lemma {:induction false} SearchChild(json: ParsedJson, n: Node, i: nat, j: nat, level: nat, depth: nat, path: string,
                                       cur: nat, item: int, r: Rule)
    requires Hosts(json, i, n) && level > 0 && depth > 0 && i < json.numberOfTokens && j < Visited(json, n, i)
    ensures Laid(n) && Hosts(json, ChildIndex(n, i, j), Children(n)[j]) && ChildIndex(n, i, j) < json.numberOfTokens
    ensures var child := Leaves(json, Children(n)[j], ChildIndex(n, i, j), if n.ObjectNode? then level - 1 else level,
        depth - 1, ChildPath(json, n, j, path));
      var f := Search(child, cur, item, r);
      Search(ChildLeaves(json, n, i, j, level, depth, path), cur, item, r)
        == if f.Hit? then f else Search(ChildLeaves(json, n, i, j + 1, level, depth, path), f.cur, f.item, r)
  {
    hide Search, Visited, Leaves;
    ChildHosted(json, i, n, j);
    ChildrenHosted(json, ChildIndex(n, i, j), Children(n)[j]);
    SearchAppend(Leaves(json, Children(n)[j], ChildIndex(n, i, j),
      if n.ObjectNode? then level - 1 else level, depth - 1,
        ChildPath(json, n, j, path)), ChildLeaves(json, n, i, j + 1, level, depth, path), cur, item, r);
  }

  lemma {:induction false} SearchNoChild(json: ParsedJson, n: Node, i: nat, j: nat, level: nat, depth: nat,
                                         path: string, cur: nat, item: int, r: Rule)
    requires Hosts(json, i, n) && level > 0 && depth > 0 && i < json.numberOfTokens && j >= Visited(json, n, i)
    ensures Search(ChildLeaves(json, n, i, j, level, depth, path), cur, item, r) == Miss(cur, item)
  {
  }

  // The leaves that are not skipped, when the first of them is the cur-th.
  function Shown(leaves: seq<LeafRef>, cur: nat, r: Rule): seq<LeafRef> {
    if leaves == [] then []
    else (if Skips(r, leaves[0].path, cur) then [] else [leaves[0]]) + Shown(leaves[1..], cur + 1, r)
  }

  /** The search for item k finds the k-th leaf that is not skipped, or none if there are not
      that many. */
  lemma {:induction false} SearchFindsKthShown(leaves: seq<LeafRef>, cur: nat, k: nat, r: Rule)
    ensures var f := Search(leaves, cur, cur + k, r);
      if k < |Shown(leaves, cur, r)| then f.Hit? && f.leaf == Shown(leaves, cur, r)[k] else f.Miss?
    decreases leaves
  {
    if leaves != [] {
      if Skips(r, leaves[0].path, cur) {
        SearchFindsKthShown(leaves[1..], cur + 1, k, r);
      } else if k > 0 {
        SearchFindsKthShown(leaves[1..], cur + 1, k - 1, r);
      }
    }
  }

  /** Without grouping rules it finds the k-th leaf. */
  lemma {:induction false} NothingSkipped(leaves: seq<LeafRef>, cur: nat, r: Rule)
    requires !r.active || r.keyCap < 9 || (!r.byType && !r.byFrom)
    ensures Shown(leaves, cur, r) == leaves
    decreases leaves
  {
    if leaves != [] { NothingSkipped(leaves[1..], cur + 1, r); }
  }
}
