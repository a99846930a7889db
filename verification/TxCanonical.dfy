/**
 * What the validation accepts, said of the text: one object and nothing around it, none of the blanks
 * that are seen, keys in order in every object, and the required fields.
 */
module TxCanonical {
  import opened Jsmn
  import opened JsmnPrinter
  import opened JsonMeaning
  import opened JsonNav
  import opened JsonText
  import opened JsonTree
  import opened TxLeaves
  import opened TxScreens
  import opened TxSpacing
  import opened TxValidate

  // ----- Sorted trees -----

  predicate TextsInOrder(s: string, t: string) {
    |s| < MAX_KEY_SIZE && |t| < MAX_KEY_SIZE && Less(s, t)
  }

  predicate KeysInOrder(ks: seq<Key>) {
    forall j :: 0 < j < |ks| ==> TextsInOrder(ks[j - 1].text, ks[j].text)
  }

  predicate Sorted(x: Json) {
    match x
    case Prim(_) => true
    case Str(_) => true
    case Arr(_, xs) => AllSorted(xs)
    case Obj(_, ks, vs) => KeysInOrder(ks) && AllSorted(vs)
    case Padded(_, y, _) => Sorted(y)
  }

  predicate AllSorted(xs: seq<Json>) {
    xs == [] || (Sorted(xs[0]) && AllSorted(xs[1..]))
  }

  // The same of the tree behind the tokens.
  predicate TokensInOrder(json: ParsedJson, ks: seq<Token>) {
    forall j :: 0 < j < |ks| ==> TextsInOrder(TokenText(json, ks[j - 1]), TokenText(json, ks[j]))
  }

  predicate SortedNode(json: ParsedJson, n: Node) {
    match n
    case Leaf(_) => true
    case ArrayNode(_, xs) => SortedNodes(json, xs)
    case ObjectNode(_, ks, vs) => TokensInOrder(json, ks) && SortedNodes(json, vs)
  }

  predicate SortedNodes(json: ParsedJson, ns: seq<Node>) {
    ns == [] || (SortedNode(json, ns[0]) && SortedNodes(json, ns[1..]))
  }

  lemma {:induction false} SaidSorted(json: ParsedJson, n: Node, x: Json)
    requires Says(json, n, x)
    ensures SortedNode(json, n) <==> Sorted(x)
    decreases x
  {
    hide KeysSay, AllSay, TokensInOrder, KeysInOrder, SortedNodes, AllSorted, TokenText;
    match x
    case Prim(_) =>
    case Str(_) =>
    case Arr(_, xs) => AllSaidSorted(json, n.items, xs);
    case Obj(_, ks, vs) =>
      KeysSaidSorted(json, n.keys, ks);
      AllSaidSorted(json, n.values, vs);
    case Padded(_, y, _) => SaidSorted(json, n, y);
  }

  lemma {:induction false} AllSaidSorted(json: ParsedJson, ns: seq<Node>, xs: seq<Json>)
    requires AllSay(json, ns, xs)
    ensures SortedNodes(json, ns) <==> AllSorted(xs)
    decreases xs
  {
    hide Says, SortedNode, Sorted;
    if xs != [] {
      SaidSorted(json, ns[0], xs[0]);
      AllSaidSorted(json, ns[1..], xs[1..]);
    }
  }

  lemma {:induction false} KeysSaidSorted(json: ParsedJson, toks: seq<Token>, ks: seq<Key>)
    requires KeysSay(json, toks, ks)
    ensures TokensInOrder(json, toks) <==> KeysInOrder(ks)
  {
    hide KeysSay, TokenText, TextsInOrder;
    KeysSayCount(json, toks, ks);
    forall j | 0 <= j < |ks| ensures TokenText(json, toks[j]) == ks[j].text { KeySays(json, toks, ks, j); }
  }

  lemma KeysSayCount(json: ParsedJson, toks: seq<Token>, ks: seq<Key>)
    requires KeysSay(json, toks, ks)
    ensures |toks| == |ks|
  {
  }

  // ----- Sorted tokens -----

  predicate SortedWithin(json: ParsedJson, a: nat, b: nat)
    requires Usable(json) && SpansInBuffer(json) && b <= json.numberOfTokens
  {
    forall k :: a <= k < b ==> ObjectSorted(json, k)
  }

  lemma NoObjectSorted(json: ParsedJson, i: nat)
    requires Usable(json) && SpansInBuffer(json) && i < json.numberOfTokens && json.tokens[i].typ != Object
    ensures ObjectSorted(json, i)
  {
  }

  // An object's own keys, as indices and as tokens.
  lemma {:induction false} OwnKeysSorted(json: ParsedJson, i: nat, n: Node)
    requires Hosts(json, i, n) && n.ObjectNode? && SpansInBuffer(json) && !HasNul(json.buffer)
    ensures i < json.numberOfTokens && (ObjectSorted(json, i) <==> TokensInOrder(json, n.keys))
  {
    hide HostsListing, Laid, Listing, KeyIndices, KeyScan, Less, TokenText, Text, SpansInBuffer, HasNul, KeyString;
    KeysOfObject(json, i, n);
    HostsLaid(json, i, n);
    ChildrenHosted(json, i, n);
    var keys := ObjectKeys(json, i);
    assert |keys| == |n.keys| && (ObjectSorted(json, i) <==> NeighboursSorted(json, keys));
    forall j | 0 < j < |n.keys|
      ensures InOrder(json, keys[j - 1], keys[j]) <==>
        TextsInOrder(TokenText(json, n.keys[j - 1]), TokenText(json, n.keys[j])) {
      KeyAt(json, i, n, j - 1);
      KeyAt(json, i, n, j);
    }
  }

  lemma {:induction false} KeyAt(json: ParsedJson, i: nat, n: Node, j: nat)
    requires Hosts(json, i, n) && n.ObjectNode? && SpansInBuffer(json) && !HasNul(json.buffer)
    requires |n.keys| == |n.values| && j < |n.keys|
    ensures var k := KeyIndices(n.keys, n.values, i + 1)[j];
      && k < json.numberOfTokens && Text(json, k) == TokenText(json, n.keys[j])
      && KeyString(json, k) == Text(json, k)
  {
    hide HostsListing, Laid, Listing, KeyIndices, TokenText, Text, SpansInBuffer, HasNul, KeyString;
    KeyHosted(json, i, n, j);
    var k := KeyIndices(n.keys, n.values, i + 1)[j];
    SameText(json, k);
    KeyIsText(json, k);
  }

  lemma {:induction false} NodeSorted(json: ParsedJson, i: nat, n: Node)
    requires Hosts(json, i, n) && SpansInBuffer(json) && !HasNul(json.buffer)
    ensures i + Size(n) <= json.numberOfTokens
    ensures SortedWithin(json, i, i + Size(n)) <==> SortedNode(json, n)
    decreases n
  {
    hide Occurs, ObjectSorted, SpansInBuffer, HasNul, SortedNodes, TokensInOrder, ItemsLaid, EntriesLaid, ListItems,
         ListEntries;
    ChildrenHosted(json, i, n);
    OccursFits(json, i, Listing(n));
    match n
    case Leaf(_) => NoObjectSorted(json, i);
    case ArrayNode(t, xs) =>
      NoObjectSorted(json, i);
      ItemsSorted(json, i + 1, xs, t.start, t.end);
    case ObjectNode(t, ks, vs) =>
      OwnKeysSorted(json, i, n);
      EntriesSorted(json, i + 1, ks, vs, t.start, t.end);
  }

  lemma {:induction false} ItemsSorted(json: ParsedJson, i: nat, xs: seq<Node>, a: int, b: int)
    requires Usable(json) && ItemsLaid(xs, a, b) && HostsListing(json, i, ListItems(xs), b)
    requires SpansInBuffer(json) && !HasNul(json.buffer)
    ensures i + |ListItems(xs)| <= json.numberOfTokens
    ensures SortedWithin(json, i, i + |ListItems(xs)|) <==> SortedNodes(json, xs)
    decreases xs
  {
    hide Occurs, ObjectSorted, SpansInBuffer, HasNul, SortedNode, Laid, Listing;
    OccursFits(json, i, ListItems(xs));
    if xs != [] {
      FirstItem(json, i, xs, a, b);
      NodeSorted(json, i, xs[0]);
      ItemsSorted(json, i + Size(xs[0]), xs[1..], xs[0].tok.end, b);
    }
  }

  lemma {:induction false} EntriesSorted(json: ParsedJson, i: nat, ks: seq<Token>, vs: seq<Node>, a: int, b: int)
    requires Usable(json) && |ks| == |vs| && EntriesLaid(ks, vs, a, b) && HostsListing(json, i, ListEntries(ks, vs), b)
    requires SpansInBuffer(json) && !HasNul(json.buffer)
    ensures i + |ListEntries(ks, vs)| <= json.numberOfTokens
    ensures SortedWithin(json, i, i + |ListEntries(ks, vs)|) <==> SortedNodes(json, vs)
    decreases vs
  {
    hide Occurs, ObjectSorted, SpansInBuffer, HasNul, SortedNode, Laid, Listing;
    OccursFits(json, i, ListEntries(ks, vs));
    if ks != [] {
      JsonNav.FirstEntry(json, i, ks, vs, a, b);
      NoObjectSorted(json, i);
      NodeSorted(json, i + 1, vs[0]);
      EntriesSorted(json, i + 1 + Size(vs[0]), ks[1..], vs[1..], vs[0].tok.end, b);
    }
  }

  // ----- The whole validation -----

  predicate HasNames(ks: seq<Key>) {
    forall k :: 0 <= k < 6 ==> exists j :: 0 <= j < |ks| && ks[j].text == RequiredField(k).0
  }

  predicate Canonical(x: Json) {
    match x
    case Obj(g, ks, vs) =>
      && g == "" && (ks != [] ==> ks[0].before == "") && TightEntries(ks, vs)
      && Sorted(x) && HasNames(ks)
    case Padded(b, y, a) => b == "" && a == "" && Canonical(y)
    case _ => false
  }

  lemma {:induction false} CanonicalIsObject(x: Json)
    ensures Canonical(x) ==> IsObject(x)
    decreases x
  {
    if x.Padded? { CanonicalIsObject(x.inner); }
  }

  /** Of any JSON text the validation accepts exactly the canonical objects. */
  lemma {:induction false} ValidIsCanonical(json: ParsedJson, x: Json)
    requires Lists(json, x) && SpansInBuffer(json) && !HasNul(json.buffer)
    ensures TxValid(json) <==> Canonical(x)
    decreases x
  {
    hide FlatItems, FlatEntries, PrintItems, PrintEntries, BlankFree, HasRequiredFields, ObjectSorted, TightEntries,
         Sorted, HasNames, Blank, SpansInBuffer, HasNul, TreeOf, KeyWritten, StringText, PrimitiveText, Laid, Listing;
    assert json.tokens[0] == Flat(x, 0)[0] && json.numberOfTokens > 0 by {
      assert json.tokens[..json.numberOfTokens][0] == json.tokens[0];
    }
    match x
    case Obj(g, ks, vs) => ObjectCanonical(json, g, ks, vs);
    case Padded(b, y, a) =>
      TreeLaid(y, |b|);
      if b == "" && a == "" {
        assert b + Print(y) + a == Print(y);
        ValidIsCanonical(json, y);
      }
    case _ =>
  }

  lemma {:induction false} ObjectCanonical(json: ParsedJson, g: string, ks: seq<Key>, vs: seq<Json>)
    requires Lists(json, Obj(g, ks, vs)) && SpansInBuffer(json) && !HasNul(json.buffer)
    ensures TxValid(json) <==> Canonical(Obj(g, ks, vs))
  {
    hide Print, Flat, WellFormed, BlankFree, HasRequiredFields, ObjectSorted, TightEntries, Sorted, HasNames,
         SpansInBuffer, HasNul, TreeOf, Laid, Listing, HostsListing, Says, SortedNode, FlatEntries;
    var x, root := Obj(g, ks, vs), TreeOf(Obj(g, ks, vs), 0);
    BlanksSeen(json, g, ks, vs);
    TextAhead(json.buffer);
    ObjectAhead(json.buffer, 0, g, ks, vs);
    assert json.tokens[0] == Flat(x, 0)[0] by { assert json.tokens[..json.numberOfTokens][0] == json.tokens[0]; }
    PrintedTreeHosted(x, json);
    TreeLaid(x, 0);
    TreeSays(json, x, 0);
    NodeSorted(json, 0, root);
    SaidSorted(json, root, x);
    FieldsNamed(json, root, x);
    assert (forall i :: 0 <= i < json.numberOfTokens ==> ObjectSorted(json, i)) <==> SortedWithin(json, 0, Size(root));
  }

  lemma {:induction false} FieldsNamed(json: ParsedJson, root: Node, x: Json)
    requires x.Obj? && |x.keys| == |x.values| && Hosts(json, 0, root) && Says(json, root, x) && SpansInBuffer(json)
    ensures json.numberOfTokens > 0 && (HasRequiredFields(json) <==> HasNames(x.keys))
  {
    hide Laid, HostsListing, KeysSay, AllSay, SpansInBuffer, LookUp, ChildNamed, TokenText, RequiredField;
    ChildrenHosted(json, 0, root);
    KeysSayCount(json, root.keys, x.keys);
    forall j | 0 <= j < |x.keys| ensures TokenText(json, root.keys[j]) == x.keys[j].text {
      KeySays(json, root.keys, x.keys, j);
    }
    forall k | 0 <= k < 6
      ensures HasField(json, RequiredField(k).0) <==>
        exists j :: 0 <= j < |x.keys| && x.keys[j].text == RequiredField(k).0
    {
      LookUpFindsChild(json, 0, root, RequiredField(k).0);
      var c := ChildNamed(json, root.keys, RequiredField(k).0);
      if c >= 0 { assert x.keys[c].text == RequiredField(k).0; }
    }
  }

  /** Keys are in order if both are shorter than 256 characters, and where they part the lesser
      character decides. */
  lemma OrderOfKeys(s: string, t: string)
    ensures TextsInOrder(s, t) <==>
      && |s| <= 255 && |t| <= 255
      && exists k :: 0 <= k <= |s| && k < |t| && s[..k] == t[..k] && (k == |s| || s[k] < t[k])
  {
    hide Less;
    LessIs(s, t);
  }

  predicate HasKey(ks: seq<Key>, name: string) {
    exists j :: 0 <= j < |ks| && ks[j].text == name
  }

  /** The keys that are required. */
  lemma RequiredNames(ks: seq<Key>)
    ensures HasNames(ks) <==>
      && HasKey(ks, "account_number") && HasKey(ks, "chain_id") && HasKey(ks, "fee") && HasKey(ks, "memo")
      && HasKey(ks, "msgs") && HasKey(ks, "sequence")
  {
    hide HasKey;
    forall k | 0 <= k < 6
      ensures HasKey(ks, RequiredField(k).0) <==> exists j :: 0 <= j < |ks| && ks[j].text == RequiredField(k).0
    {
      HasKeyIs(ks, RequiredField(k).0);
    }
    FieldNames();
  }

  lemma HasKeyIs(ks: seq<Key>, name: string)
    ensures HasKey(ks, name) <==> exists j :: 0 <= j < |ks| && ks[j].text == name
  {
  }

  lemma FieldNames()
    ensures RequiredField(0).0 == "chain_id" && RequiredField(1).0 == "sequence" && RequiredField(2).0 == "fee"
    ensures RequiredField(3).0 == "msgs" && RequiredField(4).0 == "account_number" && RequiredField(5).0 == "memo"
  {
  }
}
