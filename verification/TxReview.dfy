/**
 * The check before a transaction is shown. It asks for every item once, and is refused if one of
 * them fails; so on what is accepted each display index has the screen with that very index.
 */
module TxReview {
  import opened Bytes
  import opened Jsmn
  import opened JsmnPrinter
  import opened JsonNav
  import opened JsonText
  import opened JsonTree
  import opened ParserErrors
  import TxCanonical
  import opened TxCoverage
  import opened TxDisplay
  import opened TxLeaves
  import opened TxParser
  import opened TxPipeline
  import opened TxScreens
  import TxValidate

  const QUERY_KEY_BUFFER_SIZE := 35
  const MAX_TITLE_SIZE := 40

  predicate IsAmount(key: string) {
    key in {
      "fee/amount", "msgs/inputs/coins", "msgs/outputs/coins", "msgs/value/inputs/coins", "msgs/value/outputs/coins",
      "msgs/value/amount", "tip/amount"
    }
  }

  // What is made of the token of an amount, for a value buffer's size and a page.
  type Formatter = (nat, nat, nat) -> (ParserError, string)

  datatype Item = Item(token: nat, key: string, value: string)

  // A leaf as an item: amounts are formatted, other values cut into pages.
  function ItemOf(json: ParsedJson, leaf: LeafRef, size: nat, page: nat, format: Formatter): (ParserError, Item)
    requires size > 1
  {
    var key := Take(leaf.path, QUERY_KEY_BUFFER_SIZE - 1);
    if IsAmount(key) then
      var f := format(leaf.index, size, page);
      (f.0, Item(leaf.index, key, f.1))
    else
      var text := if leaf.index < |json.tokens| then Substitute(TokenText(json, json.tokens[leaf.index])) else "";
      (if page < PageCount(text, size - 1) then Ok else DisplayPageOutOfRange,
       Item(leaf.index, key, Page(text, size - 1, page)))
  }

  // The first page of a leaf can be shown, unless it is an amount that cannot be formatted.
  predicate Formats(leaf: LeafRef, format: Formatter) {
    IsAmount(Take(leaf.path, QUERY_KEY_BUFFER_SIZE - 1)) ==> format(leaf.index, MAX_TITLE_SIZE, 0).0 == Ok
  }

  lemma FirstPageShown(json: ParsedJson, leaf: LeafRef, format: Formatter)
    ensures ItemOf(json, leaf, MAX_TITLE_SIZE, 0, format).0 == Ok <==> Formats(leaf, format)
  {
    hide IsAmount, Substitute;
  }

  // ----- Screens are tokens -----

  lemma {:induction false} VisibleInRange(json: ParsedJson, root: Node, s: Setting, r: nat, k: nat)
    requires IsRoot(json, root) && k < |Visible(json, root, s, r)|
    ensures Visible(json, root, s, r)[k].index < json.numberOfTokens
  {
    hide Laid, Listing, HostsListing, Visible, ChildNamed, ChildIndex;
    VisibleIncreases(json, root, s, r);
    var j := ChildNamed(json, root.keys, RootName(r));
    if j >= 0 {
      StartHosted(json, root, r, 0);
      EndInRange(json, ChildIndex(root, 0, j), root.values[j]);
    }
  }

  lemma EndInRange(json: ParsedJson, i: nat, n: Node)
    requires Hosts(json, i, n)
    ensures i + Size(n) <= json.numberOfTokens
  {
    hide Laid;
  }

  lemma {:induction false} ScreenInRange(json: ParsedJson, root: Node, s: Setting, i: nat)
    requires IsRoot(json, root) && i < |Screens(json, root, s, 0)|
    ensures Screens(json, root, s, 0)[i].index < json.numberOfTokens
  {
    hide IsRoot, Visible, Screens;
    var r, m := ScreenOrigin(json, root, s, 0, i);
    VisibleInRange(json, root, s, r, m);
  }

  // ----- Asking for an item -----

  // What an index brings: too many items or none are refused, and so is a fee without leaves.
  ghost predicate Brings(json: ParsedJson, root: Node, s: Setting, displayIdx: nat, size: nat, page: nat,
                         format: Formatter, err: ParserError, item: Item)
    requires IsRoot(json, root) && size > 1
  {
    var screens, count := Screens(json, root, s, 0), ItemsBefore(json, root, s, NUM_ROOTS);
    if count == 0 || count > 255 || !GroupsFit(json, root) then err == UnexpectedNumberItems
    else if displayIdx >= count then err == DisplayIdxOutOfRange
    else if IsBlank(json, root, s, displayIdx) then err == NoData || err == QueryNoResults
    else
      var i := ScreenIndex(json, root, s, displayIdx);
      i < |screens| && (err, item) == ItemOf(json, screens[i], size, page, format)
  }

  // The value of the leaf that a query brought.
  method GetValue(display: Display, key: string, token: nat, size: nat, page: nat, format: Formatter, ghost root: Node,
                  ghost leaf: LeafRef)
    returns (err: ParserError, item: Item)
    requires display.Indexed(root) && NoMultiSend(display.tx.json) && size > 1
    requires token < display.tx.json.numberOfTokens
    requires token == leaf.index && key == Take(leaf.path, QUERY_KEY_BUFFER_SIZE - 1)
    modifies display.tx`extraDepthLevel
    ensures display.Indexed(root)
    ensures (err, item) == ItemOf(display.tx.json, leaf, size, page, format)
  {
    hide IsAmount, Substitute, Page, PageCount, Filled, IsRoot, TokenText, MULTI_SEND;
    var val, pageCount := "", 0;
    if IsAmount(key) {
      var f := format(token, size, page);
      err, val := f.0, f.1;
    } else {
      err, val, pageCount := display.tx.GetToken(token, size, page);
    }
    item := Item(token, key, val);
    display.IndexedKept(root);
  }

  /** The item for a display index, as far as it has one. */
  method GetItem(display: Display, displayIdx: nat, size: nat, page: nat, format: Formatter, ghost root: Node)
    returns (err: ParserError, item: Item)
    requires display.Ready(root) && size > 1
    modifies display, display.tx`itemIndexCurrent, display.tx`itemIndex, display.tx`maxLevel, display.tx`maxDepth
    modifies display.tx`outKey, display.tx`extraDepthLevel, display.tx`cacheValid
    modifies display.tx`msgTypeGrouping, display.tx`filterMsgTypeCount, display.tx`filterMsgTypeValidIdx
    modifies display.tx`msgFromGrouping, display.tx`filterMsgFromCount, display.tx`filterMsgFromValidIdx
    modifies display.tx`msgFromGroupingHideAll
    ensures display.Indexed(root)
    ensures if old(display.tx.cacheValid) || ChainAccepted(display.tx.json, root)
      then Brings(display.tx.json, root, display.SettingNow(), displayIdx, size, page, format, err, item)
      else err != Ok
  {
    hide Filled, IsRoot, DefaultChain, ChainAccepted, GroupsFit, Screens, ItemsBefore, IsBlank, ScreenIndex, ItemOf,
         RootLeaves, Tracks, AllZero, SenderGrouped, SenderHidden, Reference, Count, CString, Take, SpansInBuffer,
         HasNul, NoMultiSend;
    item := Item(0, "", "");
    var numItems, token;
    err, numItems := display.DisplayNumItems(root);
    if err != Ok { return; }
    if numItems == 0 { return UnexpectedNumberItems, item; }
    if displayIdx >= numItems { return DisplayIdxOutOfRange, item; }
    var tmpKey := new char[QUERY_KEY_BUFFER_SIZE];
    err, token := display.DisplayQuery(displayIdx, tmpKey, root);
    if err != Ok { return; }
    ghost var i := ScreenIndex(display.tx.json, root, display.SettingNow(), displayIdx);
    ScreenInRange(display.tx.json, root, display.SettingNow(), i);
    err, item := GetValue(display, CString(tmpKey[..]), token, size, page, format, root,
      Screens(display.tx.json, root, display.SettingNow(), 0)[i]);
  }

  // ----- Asking for every item -----

  // There is something to show for each of at most 255 items.
  ghost predicate AllShown(json: ParsedJson, root: Node, s: Setting, format: Formatter)
    requires IsRoot(json, root)
  {
    var screens := Screens(json, root, s, 0);
    && GroupsFit(json, root) && FeeShown(json, root, s) && |screens| <= 255
    && forall i :: 0 <= i < |screens| ==> Formats(screens[i], format)
  }

  // The display index has a screen, and that can be shown.
  ghost predicate Passes(json: ParsedJson, root: Node, s: Setting, displayIdx: nat, format: Formatter)
    requires IsRoot(json, root)
  {
    var i := ScreenIndex(json, root, s, displayIdx);
    && !IsBlank(json, root, s, displayIdx)
    && i < |Screens(json, root, s, 0)| && Formats(Screens(json, root, s, 0)[i], format)
  }

  lemma PassesIfBrought(json: ParsedJson, root: Node, s: Setting, displayIdx: nat, format: Formatter, err: ParserError,
                        item: Item)
    requires IsRoot(json, root) && GroupsFit(json, root) && displayIdx < ItemsBefore(json, root, s, NUM_ROOTS) <= 255
    requires Brings(json, root, s, displayIdx, MAX_TITLE_SIZE, 0, format, err, item)
    ensures err == Ok <==> Passes(json, root, s, displayIdx, format)
  {
    hide IsRoot, GroupsFit, ItemsBefore, ItemOf, Formats, IsBlank, ScreenIndex, Screens;
    var i := ScreenIndex(json, root, s, displayIdx);
    if i < |Screens(json, root, s, 0)| { FirstPageShown(json, Screens(json, root, s, 0)[i], format); }
  }

  // A fee without leaves has an index, and at that index nothing is shown.
  lemma BlankInRange(json: ParsedJson, root: Node, s: Setting)
    requires IsRoot(json, root) && !FeeShown(json, root, s)
    ensures IsBlank(json, root, s, ItemsBefore(json, root, s, ROOT_FEE))
    ensures ItemsBefore(json, root, s, ROOT_FEE) < ItemsBefore(json, root, s, NUM_ROOTS)
  {
    hide IsRoot, Items, ItemsBefore, FeeShown;
    FeeItems(json, root, s);
    NextItems(json, root, s, ROOT_FEE);
    ItemsBeforeGrow(json, root, s, ROOT_FEE + 1, NUM_ROOTS);
  }

  lemma {:induction false} AllPass(json: ParsedJson, root: Node, s: Setting, format: Formatter)
    requires IsRoot(json, root) && GroupsFit(json, root) && ItemsBefore(json, root, s, NUM_ROOTS) <= 255
    ensures AllShown(json, root, s, format) <==>
      forall k :: 0 <= k < ItemsBefore(json, root, s, NUM_ROOTS) ==> Passes(json, root, s, k, format)
  {
    hide IsRoot, GroupsFit, ItemsBefore, Formats, Screens, FeeShown;
    AllItems(json, root, s);
    if FeeShown(json, root, s) {
      forall k | 0 <= k < ItemsBefore(json, root, s, NUM_ROOTS)
        ensures Passes(json, root, s, k, format) <==> Formats(Screens(json, root, s, 0)[k], format) {}
      if forall k :: 0 <= k < ItemsBefore(json, root, s, NUM_ROOTS) ==> Passes(json, root, s, k, format) {
        forall i | 0 <= i < |Screens(json, root, s, 0)| ensures Formats(Screens(json, root, s, 0)[i], format) {
          assert Passes(json, root, s, i, format);
        }
      }
    } else {
      BlankInRange(json, root, s);
      assert !Passes(json, root, s, ItemsBefore(json, root, s, ROOT_FEE), format);
    }
  }

  // Number of items first, then every one of them.
  method ValidateItems(display: Display, format: Formatter, ghost root: Node) returns (err: ParserError)
    requires display.Ready(root)
    modifies display, display.tx`itemIndexCurrent, display.tx`itemIndex, display.tx`maxLevel, display.tx`maxDepth
    modifies display.tx`outKey, display.tx`extraDepthLevel, display.tx`cacheValid
    modifies display.tx`msgTypeGrouping, display.tx`filterMsgTypeCount, display.tx`filterMsgTypeValidIdx
    modifies display.tx`msgFromGrouping, display.tx`filterMsgFromCount, display.tx`filterMsgFromValidIdx
    modifies display.tx`msgFromGroupingHideAll
    ensures display.Indexed(root)
    ensures err == Ok <==>
      && (old(display.tx.cacheValid) || ChainAccepted(display.tx.json, root))
      && AllShown(display.tx.json, root, display.SettingNow(), format)
  {
    hide Filled, IsRoot, DefaultChain, ChainAccepted, GroupsFit, Screens, ItemsBefore, IsBlank, ScreenIndex, ItemOf,
         RootLeaves, Tracks, AllZero, SenderGrouped, SenderHidden, Reference, Count, CString, Take, SpansInBuffer,
         HasNul, NoMultiSend, Passes, FeeShown, Formats, Brings;
    ghost var json, s := display.tx.json, display.SettingNow();
    var numItems, item;
    err, numItems := display.DisplayNumItems(root);
    if err != Ok {
      TooManyItems(json, root, s, format);
      return;
    }
    AllPass(json, root, s, format);
    for idx := 0 to numItems
      invariant display.Indexed(root) && display.tx.json == json && display.SettingNow() == s
      invariant forall k :: 0 <= k < idx ==> Passes(json, root, s, k, format)
    {
      err, item := GetItem(display, idx, MAX_TITLE_SIZE, 0, format, root);
      PassesIfBrought(json, root, s, idx, format, err, item);
      if err != Ok { return; }
    }
    return Ok;
  }

  lemma TooManyItems(json: ParsedJson, root: Node, s: Setting, format: Formatter)
    requires IsRoot(json, root)
    ensures AllShown(json, root, s, format) ==>
      GroupsFit(json, root) && ItemsBefore(json, root, s, NUM_ROOTS) == |Screens(json, root, s, 0)| <= 255
  {
    hide IsRoot, GroupsFit, Screens, ItemsBefore, FeeShown, Formats;
    AllItems(json, root, s);
  }

  // ----- The check -----

  /** What is accepted: valid transactions on a chain with an allowed name that can be shown whole. */
  ghost predicate Accepted(json: ParsedJson, root: Node, s: Setting, format: Formatter)
    requires Usable(json) && SpansInBuffer(json)
  {
    TxValidate.TxValid(json) && IsRoot(json, root) && ChainAccepted(json, root) && AllShown(json, root, s, format)
  }

  method Validate(display: Display, format: Formatter, ghost root: Node) returns (err: ParserError)
    requires display.tx.Parsed() && AllTyped(display.tx.json) && !display.tx.cacheValid
    requires display.tx.json.tokens[0].typ == Object ==> display.Ready(root)
    modifies display, display.tx`itemIndexCurrent, display.tx`itemIndex, display.tx`maxLevel, display.tx`maxDepth
    modifies display.tx`outKey, display.tx`extraDepthLevel, display.tx`cacheValid
    modifies display.tx`msgTypeGrouping, display.tx`filterMsgTypeCount, display.tx`filterMsgTypeValidIdx
    modifies display.tx`msgFromGrouping, display.tx`filterMsgFromCount, display.tx`filterMsgFromValidIdx
    modifies display.tx`msgFromGroupingHideAll
    ensures display.tx.Parsed()
    ensures err == Ok <==> Accepted(display.tx.json, root, display.SettingNow(), format)
    ensures err == Ok ==> display.Indexed(root)
  {
    hide Filled, IsRoot, DefaultChain, ChainAccepted, AllShown, RootLeaves, Tracks, AllZero, SenderGrouped,
         SenderHidden, Reference, Count, SpansInBuffer, HasNul, NoMultiSend;
    err := TxValidate.Validate(display.tx.json);
    if err != Ok { return; }
    err := ValidateItems(display, format, root);
  }

  // ----- After it -----

  // How many leaves there are does not depend on the path to them.
  lemma {:induction false} AsManyLeaves(json: ParsedJson, n: Node, i: nat, level: nat, depth: nat, p: string, q: string)
    requires Hosts(json, i, n)
    ensures |Leaves(json, n, i, level, depth, p)| == |Leaves(json, n, i, level, depth, q)|
    decreases n, 1, 0
  {
    hide Laid, HostsListing, Listing, ChildLeaves;
    if !IsCut(n, level, depth) { AsManyChildLeaves(json, n, i, 0, level, depth, p, q); }
  }

  lemma {:induction false} AsManyChildLeaves(json: ParsedJson, n: Node, i: nat, j: nat, level: nat, depth: nat,
                                             p: string, q: string)
    requires Hosts(json, i, n) && level > 0 && depth > 0
    ensures |ChildLeaves(json, n, i, j, level, depth, p)| == |ChildLeaves(json, n, i, j, level, depth, q)|
    decreases n, 0, |Children(n)| - j
  {
    hide Laid, HostsListing, Listing, Leaves, ChildLeaves, ChildIndex, ChildPath, Visited;
    ChildrenHosted(json, i, n);
    ChildLeavesLength(json, n, i, j, level, depth, p);
    ChildLeavesLength(json, n, i, j, level, depth, q);
    if j < Visited(json, n, i) {
      ChildHosted(json, i, n, j);
      AsManyLeaves(json, Children(n)[j], ChildIndex(n, i, j), if n.ObjectNode? then level - 1 else level, depth - 1,
        ChildPath(json, n, j, p), ChildPath(json, n, j, q));
      AsManyChildLeaves(json, n, i, j + 1, level, depth, p, q);
    }
  }

  lemma {:induction false} ChildLeavesLength(json: ParsedJson, n: Node, i: nat, j: nat, level: nat, depth: nat,
                                             path: string)
    requires Hosts(json, i, n) && level > 0 && depth > 0
    ensures i < json.numberOfTokens
    ensures j >= Visited(json, n, i) ==> ChildLeaves(json, n, i, j, level, depth, path) == []
    ensures j < Visited(json, n, i) ==>
      && Hosts(json, ChildIndex(n, i, j), Children(n)[j])
      && |ChildLeaves(json, n, i, j, level, depth, path)|
         == |Leaves(json, Children(n)[j], ChildIndex(n, i, j), if n.ObjectNode? then level - 1 else level, depth - 1,
              ChildPath(json, n, j, path))|
          + |ChildLeaves(json, n, i, j + 1, level, depth, path)|
  {
    hide Laid, HostsListing, Listing, Leaves, ChildIndex, ChildPath, Visited;
    ChildrenHosted(json, i, n);
    if j < Visited(json, n, i) { ChildHosted(json, i, n, j); }
  }

  lemma {:induction false} ChainHasLeaves(json: ParsedJson, root: Node)
    requires IsRoot(json, root) && SpansInBuffer(json) && json.numberOfTokens > 0
    requires TxValidate.HasField(json, "chain_id") && ChainAccepted(json, root)
    ensures RootLeaves(json, root, ROOT_CHAIN_ID) != []
  {
    hide Laid, HostsListing, LookUp, Leaves, SpansInBuffer, ChildNamed;
    LookUpFindsChild(json, 0, root, RootName(ROOT_CHAIN_ID));
    StartHosted(json, root, ROOT_CHAIN_ID, 0);
    var j := ChildNamed(json, root.keys, RootName(ROOT_CHAIN_ID));
    AsManyLeaves(json, root.values[j], ChildIndex(root, 0, j), RootMaxLevel(ROOT_CHAIN_ID, false), MAX_RECURSION_DEPTH,
      "", RootName(ROOT_CHAIN_ID));
  }

  // Something is shown of a transaction that names its chain.
  lemma SomethingShown(json: ParsedJson, root: Node, s: Setting)
    requires IsRoot(json, root) && SpansInBuffer(json) && json.numberOfTokens > 0
    requires TxValidate.HasField(json, "chain_id") && ChainAccepted(json, root) && FeeShown(json, root, s)
    ensures Screens(json, root, s, 0) != []
  {
    hide IsRoot, RootLeaves, ExpertOrNotDefault, Screens, LookUp, SpansInBuffer, ChainAccepted;
    ChainHasLeaves(json, root);
    assert |Counted(json, root, ROOT_CHAIN_ID)| != 0;
    var r := if ExpertOrNotDefault(json, root, s) then ROOT_CHAIN_ID else ROOT_FEE;
    VisibleOnScreen(json, root, s, 0, r, Visible(json, root, s, r)[0]);
  }

  // On what is accepted there is something to show, and every index below the number of screens
  // brings the screen with that index.
  lemma AcceptedItem(json: ParsedJson, root: Node, s: Setting, format: Formatter, displayIdx: nat, size: nat, page: nat,
                     err: ParserError, item: Item)
    requires Usable(json) && SpansInBuffer(json) && Accepted(json, root, s, format) && size > 1
    requires Brings(json, root, s, displayIdx, size, page, format, err, item)
    ensures var screens := Screens(json, root, s, 0);
      && 0 < |screens| == ItemsBefore(json, root, s, NUM_ROOTS)
      && if displayIdx < |screens| then (err, item) == ItemOf(json, screens[displayIdx], size, page, format)
         else err == DisplayIdxOutOfRange
  {
    hide IsRoot, GroupsFit, Screens, ItemsBefore, FeeShown, Formats, ChainAccepted, ItemOf, SpansInBuffer;
    TooManyItems(json, root, s, format);
    ValidNamesChain(json);
    SomethingShown(json, root, s);
  }

  lemma ValidNamesChain(json: ParsedJson)
    requires Usable(json) && SpansInBuffer(json) && TxValidate.TxValid(json)
    ensures json.numberOfTokens > 0 && TxValidate.HasField(json, "chain_id")
  {
    hide SpansInBuffer, LookUp;
    assert TxValidate.HasField(json, TxValidate.RequiredField(0).0);
  }

  // ----- From the text to the answer -----

  /** For every JSON text: what parsing and the check accept are exactly the canonical objects that
      fit, with an allowed chain, a fee to show, and amounts that can be formatted; and then there
      are as many items as screens, and each index brings the screen with that very index. */
  method ReviewPrinted(text: string, capacity: nat, after: Token, expert: bool, own: Option<string>,
                       hideAllBefore: bool, displayIdx: nat, size: nat, page: nat, format: Formatter, ghost x: Json)
    returns (err: ParserError, json: ParsedJson, count: nat, answer: ParserError, item: Item)
    requires WellFormed(x) && text == Print(x) && WithoutMultiSend(x) && size > 1
    ensures Usable(json) && json.buffer == text
    ensures err == Ok ==> Fits(x, capacity) && IsObject(x)
    ensures Fits(x, capacity) ==>
      && json.tokens[..json.numberOfTokens] == Flat(x, 0) && SpansInBuffer(json)
      && (err == Ok <==>
            && TxCanonical.Canonical(x) && IsRoot(json, TreeOf(x, 0)) && ChainAccepted(json, TreeOf(x, 0))
            && AllShown(json, TreeOf(x, 0), Setting(expert, own, hideAllBefore), format))
      && (err == Ok ==>
            && FeeShown(json, TreeOf(x, 0), Setting(expert, own, hideAllBefore))
            && var screens := Screens(json, TreeOf(x, 0), Setting(expert, own, hideAllBefore), 0);
               && 0 < count == |screens| <= 255
               && if displayIdx < count then (answer, item) == ItemOf(json, screens[displayIdx], size, page, format)
                  else answer == DisplayIdxOutOfRange)
  {
    hide Run, WellFormed, Print, Flat, TreeOf, Fits, IsRoot, SpansInBuffer, AllTyped, WithoutMultiSend, ChainAccepted,
         AllShown, TxValidate.TxValid, TxCanonical.Canonical, FeeShown, Screens, ItemOf, HasNul;
    count, answer, item := 0, Ok, Item(0, "", "");
    FitsMeans(x, capacity);
    err, json := ParseJson(text, capacity, after);
    if err != Ok { return; }
    PrintedParsesTo(x, json, capacity);
    err, count, answer, item :=
      ReviewParsed(json, expert, own, hideAllBefore, displayIdx, size, page, format, TreeOf(x, 0));
    AcceptedMeans(json, TreeOf(x, 0), Setting(expert, own, hideAllBefore), format);
    TxCanonical.ValidIsCanonical(json, x);
  }

  lemma PrintedParsesTo(x: Json, json: ParsedJson, capacity: nat)
    requires WellFormed(x) && WithoutMultiSend(x) && Usable(json) && json.buffer == Print(x)
    requires Run(Print(x), START, capacity).Done?
    requires json.tokens[..json.numberOfTokens] == Run(Print(x), START, capacity).st.toks
    ensures |Flat(x, 0)| <= capacity && json.tokens[..json.numberOfTokens] == Flat(x, 0)
    ensures json.tokens[0].typ == Object || IsRoot(json, TreeOf(x, 0)) ==>
      IsObject(x) && IsRoot(json, TreeOf(x, 0)) && NoMultiSend(json)
  {
    hide Run, Listing, HostsListing, Print, Flat, TreeOf, WellFormed, WithoutMultiSend, NoMultiSend, ItemsLaid,
         EntriesLaid;
    TokenizerInvertsPrinter(x, capacity);
    TreeLaid(x, 0);
    ObjectTree(x, 0);
    if IsObject(x) { PrintedParses(x, json, capacity); }
    assert json.tokens[0] == Flat(x, 0)[0];
  }

  lemma AcceptedMeans(json: ParsedJson, root: Node, s: Setting, format: Formatter)
    requires Usable(json) && SpansInBuffer(json)
    ensures Accepted(json, root, s, format) ==>
      IsRoot(json, root) && FeeShown(json, root, s) && |Screens(json, root, s, 0)| <= 255
  {
    hide IsRoot, FeeShown, Screens, SpansInBuffer;
  }

  // Parsed tokens are checked, and if they are accepted the number of items and one item are asked for.
  method ReviewParsed(json: ParsedJson, expert: bool, own: Option<string>, hideAllBefore: bool, displayIdx: nat,
                      size: nat, page: nat, format: Formatter, ghost root: Node)
    returns (err: ParserError, count: nat, answer: ParserError, item: Item)
    requires Usable(json) && SpansInBuffer(json) && AllTyped(json) && !HasNul(json.buffer) && size > 1
    requires json.tokens[0].typ == Object ==> IsRoot(json, root) && NoMultiSend(json)
    ensures err == Ok <==> Accepted(json, root, Setting(expert, own, hideAllBefore), format)
    ensures err == Ok ==>
      && IsRoot(json, root)
      && var screens := Screens(json, root, Setting(expert, own, hideAllBefore), 0);
         && 0 < count == |screens|
         && if displayIdx < count then (answer, item) == ItemOf(json, screens[displayIdx], size, page, format)
            else answer == DisplayIdxOutOfRange
  {
    hide Screens, FeeShown, SpansInBuffer, HasNul, ItemsBefore, ChainAccepted, Filled, DefaultChain, GroupsFit,
         NoMultiSend, RootLeaves, IsBlank, ScreenIndex, Tracks, AllZero, SenderGrouped, SenderHidden, Reference, Count,
         IsRoot, ItemOf, AllShown, Brings;
    count, answer, item := 0, Ok, Item(0, "", "");
    var tx := new TxObject(json, own, hideAllBefore);
    var display := new Display(tx, expert);
    err := Validate(display, format, root);
    assert display.SettingNow() == Setting(expert, own, hideAllBefore);
    if err != Ok { return; }
    TooManyItems(json, root, Setting(expert, own, hideAllBefore), format);
    err, count := display.DisplayNumItems(root);
    answer, item := GetItem(display, displayIdx, size, page, format, root);
    AcceptedItem(json, root, Setting(expert, own, hideAllBefore), format, displayIdx, size, page, answer, item);
  }
}
