/**
 * Concrete transactions for what the display theorems leave open: a fee without leaves, a chain
 * name that is refused, an array of which half is seen, and two types that are shown as one.
 */
module TxSamples {
  import opened Bytes
  import opened Jsmn
  import opened JsmnPrinter
  import opened JsonMeaning
  import opened JsonNav
  import opened JsonText
  import opened JsonTree
  import opened TxCanonical
  import opened TxCoverage
  import opened TxDisplay
  import opened TxLeaves
  import opened TxParser
  import opened TxReview
  import opened TxScreens
  import opened TxSpacing
  import opened TxValidate

  function Name(s: string): Key {
    Key("", s, "")
  }

  // A transaction with all required fields and no blanks.
  function Sample(chain: string, fee: Json, memo: Json, msgs: Json): Json {
    Obj("", [Name("account_number"), Name("chain_id"), Name("fee"), Name("memo"), Name("msgs"), Name("sequence")],
        [Str("0"), Str(chain), fee, memo, msgs, Str("0")])
  }

  const NOTHING := Obj("", [], [])

  predicate Plain(s: string) {
    forall j :: 0 <= j < |s| ==> s[j] != '\\' && s[j] != '\"' && s[j] != '\0'
  }

  lemma {:induction false} PlainIsText(s: string)
    requires Plain(s)
    ensures StringText(s)
    decreases s
  {
    if s != "" { PlainIsText(s[1..]); }
  }

  lemma NamesArePlain(k: nat)
    requires k < 6
    ensures var names := ["account_number", "chain_id", "fee", "memo", "msgs", "sequence"];
      Plain(names[k]) && forall j :: 0 <= j < k ==> names[j] != names[k]
  {
  }

  lemma {:induction false} EachWellFormed(xs: seq<Json>)
    requires forall j :: 0 <= j < |xs| ==> WellFormed(xs[j])
    ensures AllWellFormed(xs)
    decreases xs
  {
    hide WellFormed;
    if xs != [] { EachWellFormed(xs[1..]); }
  }

  lemma SampleWellFormed(chain: string, fee: Json, memo: Json, msgs: Json)
    requires Plain(chain) && WellFormed(fee) && WellFormed(memo) && WellFormed(msgs)
    ensures WellFormed(Sample(chain, fee, memo, msgs))
  {
    hide StringText, Plain;
    var x := Sample(chain, fee, memo, msgs);
    assert Plain("0") by { NothingSpecial(); }
    PlainIsText("0");
    PlainIsText(chain);
    forall k | 0 <= k < 6 ensures StringText(x.keys[k].text) {
      NamesArePlain(k);
      PlainIsText(x.keys[k].text);
    }
    EachWellFormed(x.values);
  }

  lemma NothingSpecial()
    ensures Plain("0") && Plain("1") && Plain("cosmoshub-4")
  {
  }

  // ----- Fields of parsed objects -----

  lemma {:induction false} ListsTree(json: ParsedJson, x: Json)
    requires Lists(json, x) && x.Obj?
    ensures IsRoot(json, TreeOf(x, 0)) && SpansInBuffer(json) && Says(json, TreeOf(x, 0), x)
    ensures json.numberOfTokens > 0
  {
    hide Run, Laid, Listing, HostsListing, TreeOf, Flat, WellFormed, Says, TokenText;
    TokenizerInvertsPrinter(x, |Flat(x, 0)|);
    AcceptedTokensInBuffer(json, |Flat(x, 0)|);
    PrintedTreeHosted(x, json);
    ObjectTree(x, 0);
    TreeSays(json, x, 0);
  }

  // The k-th field of an object that has no earlier one of that name.
  lemma {:induction false} FieldOf(json: ParsedJson, x: Json, k: nat)
    requires Lists(json, x) && x.Obj? && k < |x.keys| == |x.values|
    requires forall j :: 0 <= j < k ==> x.keys[j].text != x.keys[k].text
    ensures IsRoot(json, TreeOf(x, 0)) && ChildNamed(json, TreeOf(x, 0).keys, x.keys[k].text) == k
    ensures k < |TreeOf(x, 0).values| && Says(json, TreeOf(x, 0).values[k], x.values[k])
  {
    hide IsRoot, TreeOf, Flat, WellFormed, TokenText, KeysSay, AllSay, SpansInBuffer;
    ListsTree(json, x);
    SaysOfObject(json, TreeOf(x, 0), x);
    forall j | 0 <= j <= k ensures TokenText(json, TreeOf(x, 0).keys[j]) == x.keys[j].text {
      KeySays(json, TreeOf(x, 0).keys, x.keys, j);
    }
    ChildSays(json, TreeOf(x, 0).values, x.values, k);
  }

  lemma SaysOfObject(json: ParsedJson, n: Node, x: Json)
    requires x.Obj? && Says(json, n, x)
    ensures n.ObjectNode? && KeysSay(json, n.keys, x.keys) && AllSay(json, n.values, x.values)
    ensures |n.keys| == |x.keys| && |n.values| == |x.values|
  {
  }

  // Where the sample has the r-th root field.
  function FieldPlace(r: nat): nat {
    match r
    case 0 => 1
    case 1 => 0
    case 2 => 5
    case 3 => 4
    case 4 => 3
    case _ => 2
  }

  lemma {:induction false} SampleField(json: ParsedJson, chain: string, fee: Json, memo: Json, msgs: Json, r: nat)
    requires Lists(json, Sample(chain, fee, memo, msgs)) && r < 6
    ensures var x, root := Sample(chain, fee, memo, msgs), TreeOf(Sample(chain, fee, memo, msgs), 0);
      && IsRoot(json, root) && ChildNamed(json, root.keys, RootName(r)) == FieldPlace(r)
      && Says(json, root.values[FieldPlace(r)], x.values[FieldPlace(r)])
  {
    hide Print, Flat, WellFormed, IsRoot, TreeOf, Says, ChildNamed, Plain;
    var x := Sample(chain, fee, memo, msgs);
    forall j | 0 <= j < FieldPlace(r) ensures x.keys[j].text != x.keys[FieldPlace(r)].text {
      NamesArePlain(FieldPlace(r));
    }
    FieldOf(json, x, FieldPlace(r));
  }

  lemma {:induction false} SampleHasFields(json: ParsedJson, chain: string, fee: Json, memo: Json, msgs: Json)
    requires Lists(json, Sample(chain, fee, memo, msgs))
    ensures SpansInBuffer(json) && json.numberOfTokens > 0 && HasRequiredFields(json)
  {
    hide Print, Flat, WellFormed, Hosts, TreeOf, Says, ChildNamed, SpansInBuffer, LookUp;
    var x := Sample(chain, fee, memo, msgs);
    ListsTree(json, x);
    forall k | 0 <= k < 6 ensures HasField(json, RequiredField(k).0) {
      var r := match k case 0 => 0 case 1 => 2 case 2 => 5 case 3 => 3 case 4 => 1 case _ => 4;
      assert RequiredField(k).0 == RootName(r);
      SampleField(json, chain, fee, memo, msgs, r);
      LookUpFindsChild(json, 0, TreeOf(x, 0), RootName(r));
    }
  }

  // A root field that is a string has one leaf, with its text.
  lemma {:induction false} StringLeaf(json: ParsedJson, root: Node, r: nat, text: string)
    requires IsRoot(json, root) && ChildNamed(json, root.keys, RootName(r)) >= 0
    requires Says(json, root.values[ChildNamed(json, root.keys, RootName(r))], Str(text))
    ensures |RootLeaves(json, root, r)| == 1 && RootLeaves(json, root, r)[0].path == RootName(r)
    ensures var i := RootLeaves(json, root, r)[0].index;
      i < json.numberOfTokens && TokenText(json, json.tokens[i]) == text
    ensures r == ROOT_CHAIN_ID ==>
      |ChainLeaves(json, root)| == 1 && ChainLeaves(json, root)[0].index == RootLeaves(json, root, r)[0].index
  {
    hide Laid, HostsListing, Listing, ChildNamed, RootName, TokenText;
    StartHosted(json, root, r, 0);
    var j := ChildNamed(json, root.keys, RootName(r));
    ChildrenHosted(json, ChildIndex(root, 0, j), root.values[j]);
  }

  // ----- A fee without leaves -----

  /** With an empty fee a transaction that has all required fields has an item without a screen. */
  lemma {:induction false} EmptyFeeNotShown(json: ParsedJson, memo: Json, msgs: Json, own: Option<string>,
                                            hideAllBefore: bool)
    requires Lists(json, Sample(COIN_DEFAULT_CHAINID, NOTHING, memo, msgs))
    ensures SpansInBuffer(json) && json.numberOfTokens > 0 && HasRequiredFields(json)
    ensures var root := TreeOf(Sample(COIN_DEFAULT_CHAINID, NOTHING, memo, msgs), 0);
      && IsRoot(json, root) && ChainAccepted(json, root)
      && !FeeShown(json, root, Setting(false, own, hideAllBefore))
      && forall format :: !Accepted(json, root, Setting(false, own, hideAllBefore), format)
  {
    hide Print, Flat, WellFormed, Hosts, TreeOf, Says, ChildNamed, SpansInBuffer, HasRequiredFields, TokenText,
         ChainLeaves, RootLeaves, RootName;
    var root := TreeOf(Sample(COIN_DEFAULT_CHAINID, NOTHING, memo, msgs), 0);
    SampleHasFields(json, COIN_DEFAULT_CHAINID, NOTHING, memo, msgs);
    SampleChain(json, COIN_DEFAULT_CHAINID, NOTHING, memo, msgs);
    SampleField(json, COIN_DEFAULT_CHAINID, NOTHING, memo, msgs, ROOT_FEE);
    ChildlessSaid(json, root.values[ChildNamed(json, root.keys, RootName(ROOT_FEE))]);
    NoLeaves(json, root, ROOT_FEE);
    assert |Counted(json, root, ROOT_CHAIN_ID)| == 1;
  }

  lemma {:induction false} SampleChain(json: ParsedJson, chain: string, fee: Json, memo: Json, msgs: Json)
    requires Lists(json, Sample(chain, fee, memo, msgs))
    ensures var root := TreeOf(Sample(chain, fee, memo, msgs), 0);
      && IsRoot(json, root) && |RootLeaves(json, root, ROOT_CHAIN_ID)| == 1 && |ChainLeaves(json, root)| == 1
      && LeafValue(json, ChainLeaves(json, root)[0], COIN_MAX_CHAINID_LEN)
         == Take(Substitute(chain), COIN_MAX_CHAINID_LEN - 1)
  {
    hide Print, Flat, WellFormed, Hosts, TreeOf, Says, ChildNamed, TokenText, ChainLeaves, RootLeaves, Substitute;
    SampleField(json, chain, fee, memo, msgs, ROOT_CHAIN_ID);
    assert Says(json, TreeOf(Sample(chain, fee, memo, msgs), 0).values[1], Str(chain));
    StringLeaf(json, TreeOf(Sample(chain, fee, memo, msgs), 0), ROOT_CHAIN_ID, chain);
  }

  lemma {:induction false} NoLeaves(json: ParsedJson, root: Node, r: nat)
    requires IsRoot(json, root) && ChildNamed(json, root.keys, RootName(r)) >= 0 && RootMaxLevel(r, false) > 0
    requires var n := root.values[ChildNamed(json, root.keys, RootName(r))]; !n.Leaf? && Children(n) == []
    ensures RootLeaves(json, root, r) == []
  {
    hide Laid, HostsListing, Listing, ChildNamed, RootName, ChildIndex;
    StartHosted(json, root, r, 0);
    var j := ChildNamed(json, root.keys, RootName(r));
    assert ChildLeaves(json, root.values[j], ChildIndex(root, 0, j), 0, RootMaxLevel(r, false), MAX_RECURSION_DEPTH,
      RootName(r)) == [];
  }

  lemma ChildlessSaid(json: ParsedJson, n: Node)
    requires Says(json, n, NOTHING) || Says(json, n, Arr("", []))
    ensures !n.Leaf? && Children(n) == []
  {
  }

  // ----- A chain name that is refused -----

  lemma {:induction false} ZeroChainRefused(json: ParsedJson, fee: Json, memo: Json, msgs: Json)
    requires Lists(json, Sample("0", fee, memo, msgs))
    ensures SpansInBuffer(json) && json.numberOfTokens > 0 && HasRequiredFields(json)
    ensures var root := TreeOf(Sample("0", fee, memo, msgs), 0);
      && IsRoot(json, root) && !ChainAccepted(json, root)
      && forall s, format :: !Accepted(json, root, s, format)
  {
    hide Print, Flat, WellFormed, Hosts, TreeOf, ChildNamed, SpansInBuffer, HasRequiredFields, TokenText, ChainLeaves,
         RootLeaves;
    SampleHasFields(json, "0", fee, memo, msgs);
    SampleChain(json, "0", fee, memo, msgs);
  }

  // ----- An array of which half is seen -----

  function TwoStrings(): Json {
    Arr("", [Str("a"), Str("b")])
  }

  /** The second of two strings in an array is a leaf of the tree, and no leaf for the display. */
  lemma {:induction false} SecondStringMissed(json: ParsedJson, chain: string, fee: Json, msgs: Json)
    requires Lists(json, Sample(chain, fee, TwoStrings(), msgs))
    ensures var root := TreeOf(Sample(chain, fee, TwoStrings(), msgs), 0);
      && IsRoot(json, root)
      && var j := ChildNamed(json, root.keys, RootName(ROOT_MEMO));
         && j >= 0 && Laid(root) && Laid(root.values[j])
         && var all := AllLeaves(json, root.values[j], ChildIndex(root, 0, j), RootMaxLevel(ROOT_MEMO, false),
              MAX_RECURSION_DEPTH, RootName(ROOT_MEMO));
            && |all| == 2 && RootLeaves(json, root, ROOT_MEMO) == [all[0]]
            && all[1].index < json.numberOfTokens && TokenText(json, json.tokens[all[1].index]) == "b"
  {
    hide Print, Flat, WellFormed, HostsListing, Listing, Laid, TreeOf, Says, ChildNamed, TokenText, Leaves, AllLeaves,
         TwoStrings;
    var root := TreeOf(Sample(chain, fee, TwoStrings(), msgs), 0);
    SampleField(json, chain, fee, TwoStrings(), msgs, ROOT_MEMO);
    StartHosted(json, root, ROOT_MEMO, 0);
    var j := ChildNamed(json, root.keys, RootName(ROOT_MEMO));
    SecondMissed(json, root.values[j], ChildIndex(root, 0, j), RootMaxLevel(ROOT_MEMO, false), MAX_RECURSION_DEPTH,
      RootName(ROOT_MEMO));
  }

  lemma TwoStringsSaid(json: ParsedJson, n: Node)
    requires Says(json, n, TwoStrings())
    ensures n.ArrayNode? && |n.items| == 2 && n.items[0].Leaf? && n.items[1].Leaf?
    ensures TokenText(json, n.items[1].tok) == "b"
  {
    hide TokenText;
    ChildSays(json, n.items, TwoStrings().items, 0);
    ChildSays(json, n.items, TwoStrings().items, 1);
  }

  lemma {:induction false} SecondMissed(json: ParsedJson, n: Node, i: nat, level: nat, depth: nat, path: string)
    requires Hosts(json, i, n) && Says(json, n, TwoStrings()) && level > 0 && depth > 0
    ensures var all := AllLeaves(json, n, i, level, depth, path);
      && |all| == 2 && Leaves(json, n, i, level, depth, path) == [all[0]]
      && all[1].index < json.numberOfTokens && TokenText(json, json.tokens[all[1].index]) == "b"
  {
    hide HostsListing, Listing, Laid, TokenText, Says, ChildIndex, TwoStrings;
    TwoStringsSaid(json, n);
    ChildHosted(json, i, n, 0);
    ChildHosted(json, i, n, 1);
    ChildrenHosted(json, ChildIndex(n, i, 1), n.items[1]);
    HalfMissed(json, n, i, level, depth, path);
    assert Leaves(json, n, i, level, depth, path) == ChildLeaves(json, n, i, 0, level, depth, path);
    assert Leaves(json, n.items[0], ChildIndex(n, i, 0), level, depth - 1, path)
      == [LeafRef(ChildIndex(n, i, 0), path)];
    assert AllChildLeaves(json, n, i, 2, level, depth, path) == [];
    assert AllChildLeaves(json, n, i, 1, level, depth, path) == [LeafRef(ChildIndex(n, i, 1), path)];
    assert AllChildLeaves(json, n, i, 0, level, depth, path)
      == [LeafRef(ChildIndex(n, i, 0), path)] + [LeafRef(ChildIndex(n, i, 1), path)];
  }

  // ----- Two types shown as one -----

  function OneMessage(typ: string): Json {
    Obj("", [Name("type")], [Str(typ)])
  }

  function TwoTypes(): Json {
    Arr("", [OneMessage("cosmos-sdk/MsgSend"), OneMessage("Send")])
  }

  // The one leaf of an object with one entry.
  lemma {:induction false} EntryLeaves(json: ParsedJson, n: Node, i: nat, level: nat, depth: nat, path: string)
    requires Hosts(json, i, n) && level > 0 && depth > 0
    requires n.ObjectNode? && |n.keys| == |n.values| == 1 && n.values[0].Leaf?
    ensures Explorable(n, level, depth) && NonEmptyContainer(n)
    ensures var leaf := LeafRef(ChildIndex(n, i, 0), Join(path, TokenText(json, n.keys[0])));
      && AllLeaves(json, n, i, level, depth, path) == [leaf]
      && LeafText(json, leaf) == TokenText(json, n.values[0].tok)
  {
    hide HostsListing, Listing, Laid, TokenText, ChildIndex, Join;
    ChildHosted(json, i, n, 0);
    ChildrenHosted(json, ChildIndex(n, i, 0), n.values[0]);
    var path' := ChildPath(json, n, 0, path);
    assert AllLeaves(json, n.values[0], ChildIndex(n, i, 0), level - 1, depth - 1, path')
      == [LeafRef(ChildIndex(n, i, 0), path')];
    assert AllLeaves(json, n, i, level, depth, path) == AllChildLeaves(json, n, i, 0, level, depth, path);
    assert AllChildLeaves(json, n, i, 1, level, depth, path) == [];
  }

  lemma MessageSaid(json: ParsedJson, n: Node, typ: string)
    requires Says(json, n, OneMessage(typ))
    ensures n.ObjectNode? && |n.keys| == |n.values| == 1 && n.values[0].Leaf?
    ensures TokenText(json, n.keys[0]) == "type" && TokenText(json, n.values[0].tok) == typ
  {
    hide TokenText;
    SaysOfObject(json, n, OneMessage(typ));
    KeySays(json, n.keys, OneMessage(typ).keys, 0);
    ChildSays(json, n.values, OneMessage(typ).values, 0);
  }

  lemma {:induction false} TypeLeaf(json: ParsedJson, n: Node, i: nat, typ: string)
    requires Hosts(json, i, n) && Says(json, n, OneMessage(typ))
    ensures Explorable(n, 2, 5) && NonEmptyContainer(n)
    ensures AllLeaves(json, n, i, 2, 5, "msgs") == [LeafRef(ChildIndex(n, i, 0), MSG_TYPE)]
    ensures LeafText(json, LeafRef(ChildIndex(n, i, 0), MSG_TYPE)) == typ
  {
    hide HostsListing, Listing, Laid, TokenText, Says, ChildIndex, OneMessage, AllLeaves, Explorable, LeafText;
    MessageSaid(json, n, typ);
    EntryLeaves(json, n, i, 2, 5, "msgs");
    assert Join("msgs", "type") == MSG_TYPE;
  }

  lemma {:induction false} TypesLeaves(json: ParsedJson, n: Node, i: nat)
    requires Hosts(json, i, n) && Says(json, n, TwoTypes())
    ensures var leaves := Leaves(json, n, i, 2, MAX_RECURSION_DEPTH, "msgs");
      && |leaves| == 2 && leaves[0].path == leaves[1].path == MSG_TYPE
      && LeafText(json, leaves[0]) == "cosmos-sdk/MsgSend" && LeafText(json, leaves[1]) == "Send"
  {
    hide HostsListing, Listing, Laid, LeafText, Leaves, AllLeaves, Explorable, NonEmptyContainer, ChildIndex,
         OneMessage, Says;
    TypesSaid(json, n);
    ChildHosted(json, i, n, 0);
    ChildHosted(json, i, n, 1);
    TypeLeaf(json, n.items[0], ChildIndex(n, i, 0), "cosmos-sdk/MsgSend");
    TypeLeaf(json, n.items[1], ChildIndex(n, i, 1), "Send");
    TypesExplorable(n);
    NothingMissed(json, n, i, 2, MAX_RECURSION_DEPTH, "msgs");
    AllOfTwo(json, n, i, "msgs");
  }

  lemma TypesSaid(json: ParsedJson, n: Node)
    requires Says(json, n, TwoTypes())
    ensures n.ArrayNode? && |n.items| == 2
    ensures Says(json, n.items[0], OneMessage("cosmos-sdk/MsgSend")) && Says(json, n.items[1], OneMessage("Send"))
  {
    hide OneMessage;
    ChildSays(json, n.items, TwoTypes().items, 0);
    ChildSays(json, n.items, TwoTypes().items, 1);
  }

  lemma TypesExplorable(n: Node)
    requires n.ArrayNode? && |n.items| == 2 && NonEmptyContainer(n.items[0]) && NonEmptyContainer(n.items[1])
    requires Explorable(n.items[0], 2, 5) && Explorable(n.items[1], 2, 5)
    ensures Explorable(n, 2, MAX_RECURSION_DEPTH)
  {
    hide NonEmptyContainer;
  }

  lemma AllOfTwo(json: ParsedJson, n: Node, i: nat, path: string)
    requires Laid(n) && n.ArrayNode? && |n.items| == 2 && Laid(n.items[0]) && Laid(n.items[1])
    ensures AllLeaves(json, n, i, 2, MAX_RECURSION_DEPTH, path)
      == AllLeaves(json, n.items[0], ChildIndex(n, i, 0), 2, 5, path)
       + AllLeaves(json, n.items[1], ChildIndex(n, i, 1), 2, 5, path)
  {
    hide Laid, AllLeaves, ChildIndex;
    assert AllChildLeaves(json, n, i, 2, 2, MAX_RECURSION_DEPTH, path) == [];
    AllOfChildren(json, n, i, path);
  }

  lemma AllOfChildren(json: ParsedJson, n: Node, i: nat, path: string)
    requires Laid(n) && n.ArrayNode?
    ensures AllLeaves(json, n, i, 2, MAX_RECURSION_DEPTH, path)
      == AllChildLeaves(json, n, i, 0, 2, MAX_RECURSION_DEPTH, path)
  {
    hide Laid, AllChildLeaves;
  }

  /** Two messages of different types, one named as the other one is shown: the second one's type
      is on no screen. */
  lemma {:induction false} TypesShownAsOne(json: ParsedJson, chain: string, fee: Json, memo: Json, s: Setting)
    requires Lists(json, Sample(chain, fee, memo, TwoTypes()))
    ensures var root := TreeOf(Sample(chain, fee, memo, TwoTypes()), 0);
      && IsRoot(json, root)
      && var leaves := RootLeaves(json, root, ROOT_MSGS);
         && |leaves| == 2 && leaves[0].path == leaves[1].path == MSG_TYPE
         && LeafText(json, leaves[0]) == "cosmos-sdk/MsgSend" && LeafText(json, leaves[1]) == "Send"
         && leaves[0] in Screens(json, root, s, 0) && leaves[1] !in Screens(json, root, s, 0)
  {
    hide Print, Flat, WellFormed, HostsListing, Listing, Laid, TreeOf, Says, ChildNamed, LeafText, Leaves, TwoTypes,
         ChildIndex, Screens, Hidden;
    var root := TreeOf(Sample(chain, fee, memo, TwoTypes()), 0);
    SampleField(json, chain, fee, memo, TwoTypes(), ROOT_MSGS);
    StartHosted(json, root, ROOT_MSGS, 0);
    TypesLeaves(json, root.values[4], ChildIndex(root, 0, 4));
    SecondTypeHidden(json, root, s);
    ScreensCover(json, root, s, ROOT_MSGS, 0);
    ScreensCover(json, root, s, ROOT_MSGS, 1);
  }

  lemma SecondTypeHidden(json: ParsedJson, root: Node, s: Setting)
    requires IsRoot(json, root)
    requires var leaves := RootLeaves(json, root, ROOT_MSGS);
      && |leaves| == 2 && leaves[0].path == leaves[1].path == MSG_TYPE
      && LeafText(json, leaves[0]) == "cosmos-sdk/MsgSend" && LeafText(json, leaves[1]) == "Send"
    ensures Hidden(json, root, s, ROOT_MSGS, 1) && !Hidden(json, root, s, ROOT_MSGS, 0)
  {
    hide IsRoot, RootLeaves, SenderGrouped, SenderHidden, TokenText;
    CutKeysCompare(MSG_TYPE, 29);
    assert |MSG_TYPE| != |MSG_FROM|;
  }

  // ----- A blank that goes unseen -----

  function BlankInside(): Json {
    Obj("", [Name("a")], [Arr(" ", [])])
  }

  /** A text with a blank that passes the check for whitespace. */
  lemma BlankUnseen(json: ParsedJson)
    requires Lists(json, BlankInside())
    ensures json.buffer == "{\"a\":[ ]}" && json.numberOfTokens > 0 && BlankFree(json)
  {
    var x := BlankInside();
    assert PrintEntries(x.keys, x.values) == "\"a\":[ ]";
    BlanksSeen(json, x.gap, x.keys, x.values);
  }

  // ----- A transaction that is accepted -----

  function GasFee(): Json {
    Obj("", [Name("gas")], [Str("1")])
  }

  lemma NamesInOrder(k: nat)
    requires 0 < k < 6
    ensures var names := ["account_number", "chain_id", "fee", "memo", "msgs", "sequence"];
      TextsInOrder(names[k - 1], names[k])
  {
  }

  // Samples of compact and sorted parts are canonical.
  lemma SampleCanonical(chain: string, fee: Json, memo: Json, msgs: Json)
    requires Flush(fee) && Tight(fee) && Flush(memo) && Tight(memo) && Flush(msgs) && Tight(msgs)
    requires Sorted(fee) && Sorted(memo) && Sorted(msgs)
    ensures Canonical(Sample(chain, fee, memo, msgs))
  {
    hide TextsInOrder;
    var x := Sample(chain, fee, memo, msgs);
    forall j | 0 < j < 6 ensures TextsInOrder(x.keys[j - 1].text, x.keys[j].text) { NamesInOrder(j); }
    SampleTight(x.keys, x.values);
    SampleSorted(x.values);
    forall k | 0 <= k < 6 ensures exists j :: 0 <= j < |x.keys| && x.keys[j].text == RequiredField(k).0 {
      assert x.keys[FieldPlace(match k case 0 => 0 case 1 => 2 case 2 => 5 case 3 => 3 case 4 => 1 case _ => 4)].text
        == RequiredField(k).0;
    }
  }

  lemma {:induction false} SampleTight(ks: seq<Key>, vs: seq<Json>)
    requires |ks| == |vs| && forall j :: 0 <= j < |ks| ==>
      ks[j].before == ks[j].after == "" && Flush(vs[j]) && Tight(vs[j])
    ensures TightEntries(ks, vs)
    decreases vs
  {
    hide Flush, Tight;
    if ks != [] { SampleTight(ks[1..], vs[1..]); }
  }

  lemma {:induction false} SampleSorted(xs: seq<Json>)
    requires forall j :: 0 <= j < |xs| ==> Sorted(xs[j])
    ensures AllSorted(xs)
    decreases xs
  {
    hide Sorted;
    if xs != [] { SampleSorted(xs[1..]); }
  }

  // A field that is an object with one string has one leaf, with its text.
  lemma {:induction false} EntryLeaf(json: ParsedJson, n: Node, i: nat, level: nat, depth: nat, path: string)
    requires Hosts(json, i, n) && level > 0 && depth > 0
    requires n.ObjectNode? && |n.keys| == |n.values| == 1 && n.values[0].Leaf?
    ensures var leaves := Leaves(json, n, i, level, depth, path);
      && |leaves| == 1 && leaves[0].path == Join(path, TokenText(json, n.keys[0]))
      && LeafText(json, leaves[0]) == TokenText(json, n.values[0].tok)
  {
    hide Hosts, Laid, TokenText, ChildIndex, Leaves, AllLeaves, Explorable, Join, LeafText;
    EntryLeaves(json, n, i, level, depth, path);
    NothingMissed(json, n, i, level, depth, path);
  }

  // The leaves of the root fields that are shown outside expert mode.
  lemma {:induction false} SampleLeaves(json: ParsedJson)
    requires Lists(json, Sample(COIN_DEFAULT_CHAINID, GasFee(), Str("m"), Arr("", [])))
    ensures var root := TreeOf(Sample(COIN_DEFAULT_CHAINID, GasFee(), Str("m"), Arr("", [])), 0);
      && IsRoot(json, root)
      && RootLeaves(json, root, ROOT_MSGS) == [] && RootLeaves(json, root, 6) == []
      && |RootLeaves(json, root, ROOT_MEMO)| == 1 && |RootLeaves(json, root, ROOT_FEE)| == 1
      && RootLeaves(json, root, ROOT_MEMO)[0].path == "memo" && RootLeaves(json, root, ROOT_FEE)[0].path == "fee/gas"
      && LeafText(json, RootLeaves(json, root, ROOT_MEMO)[0]) == "m"
      && LeafText(json, RootLeaves(json, root, ROOT_FEE)[0]) == "1"
  {
    hide Print, Flat, WellFormed, HostsListing, Laid, Listing, TreeOf, Says, ChildNamed, TokenText, Leaves, ChildIndex,
         GasFee;
    var root := TreeOf(Sample(COIN_DEFAULT_CHAINID, GasFee(), Str("m"), Arr("", [])), 0);
    SampleField(json, COIN_DEFAULT_CHAINID, GasFee(), Str("m"), Arr("", []), ROOT_MSGS);
    SampleField(json, COIN_DEFAULT_CHAINID, GasFee(), Str("m"), Arr("", []), ROOT_MEMO);
    SampleField(json, COIN_DEFAULT_CHAINID, GasFee(), Str("m"), Arr("", []), ROOT_FEE);
    ChildlessSaid(json, root.values[4]);
    NoLeaves(json, root, ROOT_MSGS);
    StringLeaf(json, root, ROOT_MEMO, "m");
    StartHosted(json, root, ROOT_FEE, 0);
    GasSaid(json, root.values[2]);
    EntryLeaf(json, root.values[2], ChildIndex(root, 0, 2), 1, MAX_RECURSION_DEPTH, "fee");
    assert Join("fee", "gas") == "fee/gas";
    NoTip(json, COIN_DEFAULT_CHAINID, GasFee(), Str("m"), Arr("", []));
  }

  lemma GasSaid(json: ParsedJson, n: Node)
    requires Says(json, n, GasFee())
    ensures n.ObjectNode? && |n.keys| == |n.values| == 1 && n.values[0].Leaf?
    ensures TokenText(json, n.keys[0]) == "gas" && TokenText(json, n.values[0].tok) == "1"
  {
    hide TokenText;
    SaysOfObject(json, n, GasFee());
    KeySays(json, n.keys, GasFee().keys, 0);
    ChildSays(json, n.values, GasFee().values, 0);
  }

  lemma {:induction false} NoTip(json: ParsedJson, chain: string, fee: Json, memo: Json, msgs: Json)
    requires Lists(json, Sample(chain, fee, memo, msgs))
    ensures IsRoot(json, TreeOf(Sample(chain, fee, memo, msgs), 0))
    ensures RootLeaves(json, TreeOf(Sample(chain, fee, memo, msgs), 0), 6) == []
  {
    hide Print, Flat, WellFormed, Hosts, TreeOf, TokenText, KeysSay, AllSay;
    var x, root := Sample(chain, fee, memo, msgs), TreeOf(Sample(chain, fee, memo, msgs), 0);
    ListsTree(json, x);
    SaysOfObject(json, root, x);
    var c := ChildNamed(json, root.keys, RootName(6));
    if c >= 0 {
      KeySays(json, root.keys, x.keys, c);
      assert false;
    }
  }

  /** A transaction with a gas fee, a memo and no messages is accepted, and has two screens. */
  lemma {:induction false} SampleAccepted(json: ParsedJson, own: Option<string>, hideAllBefore: bool, format: Formatter)
    requires Lists(json, Sample(COIN_DEFAULT_CHAINID, GasFee(), Str("m"), Arr("", []))) && !HasNul(json.buffer)
    ensures SpansInBuffer(json)
    ensures var root := TreeOf(Sample(COIN_DEFAULT_CHAINID, GasFee(), Str("m"), Arr("", [])), 0);
      && Accepted(json, root, Setting(false, own, hideAllBefore), format)
      && var screens := Screens(json, root, Setting(false, own, hideAllBefore), 0);
         |screens| == 2 && LeafText(json, screens[0]) == "m" && LeafText(json, screens[1]) == "1"
  {
    hide Print, Flat, WellFormed, IsRoot, TreeOf, Says, SpansInBuffer, HasNul, RootLeaves, Canonical, Screens, TxValid,
         LeafText, GroupsFit, FeeShown, Formats, ChainAccepted, ExpertOrNotDefault;
    var x := Sample(COIN_DEFAULT_CHAINID, GasFee(), Str("m"), Arr("", []));
    var root, s := TreeOf(x, 0), Setting(false, own, hideAllBefore);
    ListsTree(json, x);
    SampleCanonical(COIN_DEFAULT_CHAINID, GasFee(), Str("m"), Arr("", []));
    ValidIsCanonical(json, x);
    DefaultSample(json, GasFee(), Str("m"), Arr("", []), s);
    SampleLeaves(json);
    TwoScreens(json, root, s);
    NoneGrouped(json, root, s);
    PlainPath(RootLeaves(json, root, ROOT_MEMO)[0], format);
    PlainPath(RootLeaves(json, root, ROOT_FEE)[0], format);
  }

  lemma {:induction false} DefaultSample(json: ParsedJson, fee: Json, memo: Json, msgs: Json, s: Setting)
    requires Lists(json, Sample(COIN_DEFAULT_CHAINID, fee, memo, msgs)) && !s.expert
    ensures var root := TreeOf(Sample(COIN_DEFAULT_CHAINID, fee, memo, msgs), 0);
      IsRoot(json, root) && ChainAccepted(json, root) && !ExpertOrNotDefault(json, root, s)
  {
    hide Print, Flat, WellFormed, Hosts, TreeOf, ChainLeaves, RootLeaves;
    SampleChain(json, COIN_DEFAULT_CHAINID, fee, memo, msgs);
  }

  lemma NoneGrouped(json: ParsedJson, root: Node, s: Setting)
    requires IsRoot(json, root) && RootLeaves(json, root, ROOT_MSGS) == [] && RootLeaves(json, root, ROOT_FEE) != []
    ensures GroupsFit(json, root) && FeeShown(json, root, s)
  {
    hide IsRoot, RootLeaves;
  }

  lemma PlainPath(leaf: LeafRef, format: Formatter)
    requires leaf.path == "memo" || leaf.path == "fee/gas"
    ensures Formats(leaf, format)
  {
  }

  lemma {:induction false} TwoScreens(json: ParsedJson, root: Node, s: Setting)
    requires IsRoot(json, root) && !ExpertOrNotDefault(json, root, s)
    requires RootLeaves(json, root, ROOT_MSGS) == [] && RootLeaves(json, root, 6) == []
    requires |RootLeaves(json, root, ROOT_MEMO)| == 1 && |RootLeaves(json, root, ROOT_FEE)| == 1
    requires LeafText(json, RootLeaves(json, root, ROOT_MEMO)[0]) == "m"
    ensures Screens(json, root, s, 0) == RootLeaves(json, root, ROOT_MEMO) + RootLeaves(json, root, ROOT_FEE)
  {
    hide IsRoot, RootLeaves, ExpertOrNotDefault, MessageRule, TokenText;
    assert Value(json, RootLeaves(json, root, ROOT_MEMO)[0]) == "m";
    assert Screens(json, root, s, 7) == [];
    assert Screens(json, root, s, 6) == [];
    assert Screens(json, root, s, 5) == RootLeaves(json, root, ROOT_FEE);
    assert Screens(json, root, s, 4) == RootLeaves(json, root, ROOT_MEMO) + RootLeaves(json, root, ROOT_FEE);
    assert Screens(json, root, s, 3) == Screens(json, root, s, 4);
    assert Screens(json, root, s, 2) == Screens(json, root, s, 3);
    assert Screens(json, root, s, 1) == Screens(json, root, s, 2);
  }
}
