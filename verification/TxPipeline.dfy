/** From a transaction's text to one of its screens: tokenizing, indexing and querying together. */
module TxPipeline {
  import opened Bytes
  import opened Jsmn
  import opened JsmnPrinter
  import opened JsonNav
  import opened JsonText
  import opened JsonTree
  import opened ParserErrors
  import opened TxCoverage
  import opened TxDisplay
  import opened TxLeaves
  import opened TxParser
  import opened TxScreens

  // No string or primitive in the tree is the type of a multi-send message.
  predicate WithoutMultiSend(x: Json)
    requires WellFormed(x)
  {
    forall t :: t in Flat(x, 0) && 0 <= t.start <= t.end <= |Print(x)| ==> Print(x)[t.start..t.end] != MULTI_SEND
  }

  lemma {:induction false} PrintedParses(x: Json, json: ParsedJson, capacity: nat)
    requires WellFormed(x) && IsObject(x) && WithoutMultiSend(x) && Usable(json) && json.buffer == Print(x)
    requires Run(Print(x), START, capacity).Done?
    requires json.tokens[..json.numberOfTokens] == Run(Print(x), START, capacity).st.toks
    ensures |Flat(x, 0)| <= capacity && json.tokens[..json.numberOfTokens] == Flat(x, 0)
    ensures IsRoot(json, TreeOf(x, 0)) && NoMultiSend(json)
  {
    hide Run, Laid, Listing, Hosts, TreeOf, Print, Flat, WellFormed;
    TokenizerInvertsPrinter(x, capacity);
    PrintedObjectIsRoot(x, json, capacity);
    forall i | 0 <= i < json.numberOfTokens ensures TokenText(json, json.tokens[i]) != MULTI_SEND {
      assert json.tokens[i] == Flat(x, 0)[i] && Flat(x, 0)[i] in Flat(x, 0);
      assert |MULTI_SEND| > 0;
    }
  }

  // What the display answers for the tree x: the token and the key of the screen that the index
  // stands for, which is the screen with that index unless it lies behind a fee without leaves.
  ghost predicate Shows(x: Json, json: ParsedJson, s: Setting, count: nat, displayIdx: nat, token: nat, key: string,
                        cap: nat)
    requires WellFormed(x) && IsRoot(json, TreeOf(x, 0))
  {
    var root := TreeOf(x, 0);
    var screens, i := Screens(json, root, s, 0), ScreenIndex(json, root, s, displayIdx);
    && count == |screens| + (if FeeShown(json, root, s) then 0 else 1)
    && i < |screens| && token == screens[i].index && key == Take(screens[i].path, cap)
  }

  // The text is short enough, free of NUL bytes, and has no more tokens than there is room for.
  predicate Fits(x: Json, capacity: nat)
    requires WellFormed(x)
  {
    |Print(x)| <= TX_BUFFER_SIZE && !HasNul(Print(x)) && |Flat(x, 0)| <= capacity
  }

  lemma {:induction false} FitsMeans(x: Json, capacity: nat)
    requires WellFormed(x)
    ensures var r := Run(Print(x), START, capacity);
      Fits(x, capacity) <==> |Print(x)| <= TX_BUFFER_SIZE && !HasNul(Print(x)) && r.Done? && r.st.toks != []
  {
    hide Run, Print, Flat, WellFormed;
    TokenizerInvertsPrinter(x, capacity);
  }

  // Whether the display answers for an index: the chain has an allowed name, there are no more
  // than 255 items, and the index is that of an item other than a fee without leaves.
  ghost predicate Answers(x: Json, json: ParsedJson, s: Setting, displayIdx: nat)
    requires WellFormed(x) && IsRoot(json, TreeOf(x, 0))
  {
    var root := TreeOf(x, 0);
    && ChainAccepted(json, root) && GroupsFit(json, root)
    && displayIdx < ItemsBefore(json, root, s, NUM_ROOTS) <= 255
    && !IsBlank(json, root, s, displayIdx)
  }

  /** For every JSON object, written with any blanks between its tokens, that the parser has room
      for: it parses to the listing of its tree, and the query for any index below the number of
      items brings the token and the key of the screen that the index stands for. */
  method ShowPrinted(text: string, capacity: nat, after: Token, expert: bool, own: Option<string>, hideAllBefore: bool,
                     displayIdx: nat, outKey: array<char>, ghost x: Json)
    returns (err: ParserError, json: ParsedJson, count: nat, token: nat)
    requires WellFormed(x) && IsObject(x) && text == Print(x) && WithoutMultiSend(x) && outKey.Length >= 30
    modifies outKey
    ensures Usable(json) && json.buffer == text
    ensures err == Ok ==> Fits(x, capacity)
    ensures Fits(x, capacity) ==>
      && json.tokens[..json.numberOfTokens] == Flat(x, 0) && IsRoot(json, TreeOf(x, 0))
      && (err == Ok <==> Answers(x, json, Setting(expert, own, hideAllBefore), displayIdx))
      && (err == Ok ==>
            Shows(x, json, Setting(expert, own, hideAllBefore), count, displayIdx, token,
              CString(outKey[..]), outKey.Length - 1))
  {
    hide Run, WellFormed, Print, Flat, TreeOf, Fits, IsRoot, CString, SpansInBuffer, WithoutMultiSend, Answers, Shows;
    count, token := 0, 0;
    FitsMeans(x, capacity);
    err, json := ParseJson(text, capacity, after);
    if err != Ok { return; }
    PrintedParses(x, json, capacity);
    err, count, token := ShowParsed(json, expert, own, hideAllBefore, displayIdx, outKey, x);
  }

  method ShowParsed(json: ParsedJson, expert: bool, own: Option<string>, hideAllBefore: bool, displayIdx: nat,
                    outKey: array<char>, ghost x: Json)
    returns (err: ParserError, count: nat, token: nat)
    requires WellFormed(x) && Usable(json) && IsRoot(json, TreeOf(x, 0)) && NoMultiSend(json)
    requires SpansInBuffer(json) && !HasNul(json.buffer) && outKey.Length >= 30
    modifies outKey
    ensures err == Ok <==> Answers(x, json, Setting(expert, own, hideAllBefore), displayIdx)
    ensures err == Ok ==>
      Shows(x, json, Setting(expert, own, hideAllBefore), count, displayIdx, token, CString(outKey[..]),
        outKey.Length - 1)
  {
    hide WellFormed, TreeOf, Hosts, Laid, Screens, FeeShown, CString, SpansInBuffer, HasNul, ItemsBefore, ChainAccepted,
         Filled, DefaultChain, GroupsFit, NoMultiSend, RootLeaves, IsBlank, ScreenIndex, Take, Tracks, AllZero,
         SenderGrouped, SenderHidden, Reference, Count;
    token := 0;
    ghost var root := TreeOf(x, 0);
    var tx := new TxObject(json, own, hideAllBefore);
    var display := new Display(tx, expert);
    err, count := display.DisplayNumItems(root);
    assert display.SettingNow() == Setting(expert, own, hideAllBefore);
    if err != Ok { return; }
    AllItems(json, root, Setting(expert, own, hideAllBefore));
    err, token := display.DisplayQuery(displayIdx, outKey, root);
  }
}
