/**
 * What the user reads: which chains, memos, fees and tips are shown, said of their texts, and every
 * item of the transaction with two delegations, key by key and value by value.
 */
module TxItems {
  import opened Bytes
  import opened JsonMeaning
  import opened JsonNav
  import opened JsonText
  import opened JsonTree
  import opened ParserErrors
  import opened TxCanonical
  import opened TxCoverage
  import opened TxDelegations
  import opened TxEntries
  import opened TxLeaves
  import opened TxParser
  import opened TxReview
  import opened TxSamples
  import opened TxScreens
  import opened TxSpacing
  import opened TxValidate
  import opened TxDisplay

  // ----- Chains -----

  // No text is shown in the form of a chain's name or of nothing, except that text itself.
  lemma ShownAsItself(t: string)
    ensures Take(Substitute(t), 19) == "cosmoshub-4" <==> t == "cosmoshub-4"
    ensures Take(Substitute(t), 19) == "0" <==> t == "0"
    ensures Take(Substitute(t), 19) == "1" <==> t == "1"
    ensures Take(Substitute(t), 69) == "" <==> t == ""
  {
    hide Substitute;
    WordsBegin(t);
    TheseShown();
  }

  // A word begins with a capital letter.
  lemma WordsBegin(t: string)
    ensures Substitute(t) == t || (Substitute(t) != "" && 'D' <= Substitute(t)[0] <= 'W')
  {
    hide Substitute;
    SubstitutedNames(t);
    WordsShown();
  }

  lemma TheseShown()
    ensures Substitute("cosmoshub-4") == "cosmoshub-4" && Substitute("0") == "0" && Substitute("1") == "1"
    ensures Substitute("") == ""
  {
  }

  /** The default chain is the one with that very name, and only those named 0 and 1 are refused. */
  lemma {:induction false} ChainByName(json: ParsedJson, root: Node, t: string)
    requires FieldSays(json, root, 0, Str(t))
    ensures DefaultChain(json, root) <==> t == "cosmoshub-4"
    ensures ChainAccepted(json, root) <==> t != "0" && t != "1"
  {
    hide IsRoot, Says, Laid, Hosts, Substitute, TokenText, ChildIndex, ChildNamed;
    var n, i :| Field(json, root, "chain_id", n, i) && Says(json, n, Str(t));
    FieldLeaves(json, root, 0, "chain_id", n, i);
    TextOfLeaf(json, n, i, t);
    assert ChainLeaves(json, root) == [LeafRef(i, "")];
    ShownAsItself(t);
  }

  lemma TextOfLeaf(json: ParsedJson, n: Node, i: nat, t: string)
    requires Hosts(json, i, n) && Says(json, n, Str(t))
    ensures n.Leaf? && i < |json.tokens| && TokenText(json, json.tokens[i]) == t
  {
    hide TokenText, Laid;
    ChildrenHosted(json, i, n);
  }

  // ----- Memo, fee and tip -----

  /** A memo is shown unless it is empty. */
  lemma {:induction false} MemoByText(json: ParsedJson, root: Node, s: Setting, t: string)
    requires FieldSays(json, root, 4, Str(t))
    ensures AreScreens(json, Visible(json, root, s, 4), if t == "" then [] else [("memo", Str(t))])
  {
    hide IsRoot, Field, Says, RootLeaves, Screen, Value, Substitute;
    ScalarField(json, root, 4, t);
    var leaf := RootLeaves(json, root, 4)[0];
    assert Screen(json, leaf, "memo", Str(t));
    ScreenValue(json, leaf, "memo", t);
    ShownAsItself(t);
    assert RootLeaves(json, root, 4) == [leaf];
  }

  /** Outside expert mode on the default chain the fee's first entry is shown, and all of it otherwise. */
  lemma {:induction false} FeeEntries(json: ParsedJson, root: Node, s: Setting, n: Node, i: nat)
    requires IsRoot(json, root) && Field(json, root, "fee", n, i) && n.ObjectNode?
    ensures Laid(n)
    ensures s.expert || !DefaultChain(json, root) ==> LeavesAreEntries(json, Visible(json, root, s, 5), n, i, "fee")
    ensures !s.expert && DefaultChain(json, root) && n.keys != [] ==>
      Visible(json, root, s, 5) == [LeafRef(ChildIndex(n, i, 0), "fee/" + TokenText(json, n.keys[0]))]
  {
    hide IsRoot, Field, RootLeaves, DefaultChain, Laid, TokenText, ChildIndex;
    FeeLeaves(json, root, n, i);
    assert "fee" + "/" == "fee/";
  }

  /** Every entry of a tip is shown. */
  lemma {:induction false} TipEntries(json: ParsedJson, root: Node, s: Setting, n: Node, i: nat)
    requires IsRoot(json, root) && Field(json, root, "tip", n, i) && n.ObjectNode?
    ensures Laid(n) && LeavesAreEntries(json, Visible(json, root, s, 6), n, i, "tip")
  {
    hide IsRoot, Field, RootLeaves, LeavesAreEntries, Laid;
    TipLeaves(json, root, n, i);
  }

  // ----- Message types -----

  /** The words that are shown for the message types. */
  lemma WordsShown()
    ensures Substitute("cosmos-sdk/MsgSend") == "Send" && Substitute("cosmos-sdk/MsgDelegate") == "Delegate"
    ensures Substitute("cosmos-sdk/MsgUndelegate") == "Undelegate"
    ensures Substitute("cosmos-sdk/MsgBeginRedelegate") == "Redelegate"
    ensures Substitute("cosmos-sdk/MsgSubmitProposal") == "Propose"
    ensures Substitute("cosmos-sdk/MsgDeposit") == "Deposit" && Substitute("cosmos-sdk/MsgVote") == "Vote"
    ensures Substitute("cosmos-sdk/MsgWithdrawDelegationReward") == "Withdraw Reward"
    ensures Substitute("cosmos-sdk/MsgWithdrawValidatorCommission") == "Withdraw Val. Commission"
    ensures Substitute("cosmos-sdk/MsgSetWithdrawAddress") == "Withdraw Set Address"
    ensures Substitute("cosmos-sdk/MsgMultiSend") == "Multi Send"
  {
  }

  // ----- Items -----

  // A key and a value, or a key and an amount that is formatted.
  ghost predicate Shows(json: ParsedJson, leaf: LeafRef, size: nat, format: Formatter, key: string,
                        value: Option<string>)
    requires size > 1
  {
    ItemOf(json, leaf, size, 0, format) ==
      if value.Some? then (Ok, Item(leaf.index, key, value.value))
      else var f := format(leaf.index, size, 0); (f.0, Item(leaf.index, key, f.1))
  }

  /** A text that is no amount is shown as it is, cut to the first page. */
  lemma {:induction false} TextShown(json: ParsedJson, leaf: LeafRef, key: string, t: string, size: nat,
                                     format: Formatter)
    requires Screen(json, leaf, key, Str(t)) && |key| <= 34 && size > 1
    requires key !in {"msgs/value/amount", "fee/amount", "tip/amount", "msgs/inputs/coins", "msgs/outputs/coins",
      "msgs/value/inputs/coins", "msgs/value/outputs/coins"}
    ensures Shows(json, leaf, size, format, key, Some(Take(Substitute(t), size - 1)))
  {
    hide Laid, Substitute, TokenText;
    var n :| Hosts(json, leaf.index, n) && Says(json, n, Str(t));
    TextOfLeaf(json, n, leaf.index, t);
  }

  lemma {:induction false} AmountShown(json: ParsedJson, leaf: LeafRef, size: nat, format: Formatter)
    requires size > 1
    requires leaf.path in {"msgs/value/amount", "fee/amount", "tip/amount", "msgs/inputs/coins",
      "msgs/outputs/coins", "msgs/value/inputs/coins", "msgs/value/outputs/coins"}
    ensures Shows(json, leaf, size, format, leaf.path, None)
  {
  }

  function MessageItems(grouped: bool, hidden: bool): seq<(string, Option<string>)> {
    var kind, amount := ("msgs/type", Some("Delegate")), ("msgs/value/amount", None);
    var from, to := ("msgs/value/delegator_address", Some("d")), ("msgs/value/validator_address", Some("v"));
    if !grouped then [kind, amount, from, to, amount, from, to]
    else if hidden then [kind, amount, to, amount, to]
    else [kind, amount, from, to, amount, to]
  }

  function TransactionItems(s: Setting): seq<(string, Option<string>)> {
    if s.expert then
      [("chain_id", Some("cosmoshub-4")), ("account_number", Some("0")), ("sequence", Some("0"))]
      + MessageItems(false, false)
      + [("memo", Some("m")), ("fee/amount", None), ("fee/gas", Some("200000"))]
    else
      MessageItems(true, s.own == Some("d")) + [("memo", Some("m")), ("fee/amount", None)]
  }

  // Which value goes with which item in this transaction.
  predicate Reads(e: (string, Json), w: (string, Option<string>)) {
    e.0 == w.0 &&
    match w.0
    case "chain_id" => e.1 == Str("cosmoshub-4") && w.1 == Some("cosmoshub-4")
    case "account_number" | "sequence" => e.1 == Str("0") && w.1 == Some("0")
    case "msgs/type" => e.1 == Str("cosmos-sdk/MsgDelegate") && w.1 == Some("Delegate")
    case "msgs/value/delegator_address" => e.1 == Str("d") && w.1 == Some("d")
    case "msgs/value/validator_address" => e.1 == Str("v") && w.1 == Some("v")
    case "memo" => e.1 == Str("m") && w.1 == Some("m")
    case "fee/gas" => e.1 == Str("200000") && w.1 == Some("200000")
    case "fee/amount" | "msgs/value/amount" => w.1 == None
    case _ => false
  }

  predicate AllRead(es: seq<(string, Json)>, ws: seq<(string, Option<string>)>) {
    |es| == |ws| && forall k :: 0 <= k < |es| ==> Reads(es[k], ws[k])
  }

  lemma ReadJoin(es: seq<(string, Json)>, fs: seq<(string, Json)>, ws: seq<(string, Option<string>)>,
                 vs: seq<(string, Option<string>)>)
    requires AllRead(es, ws) && AllRead(fs, vs)
    ensures AllRead(es + fs, ws + vs)
  {
    hide Reads;
  }

  lemma MessagesRead(grouped: bool, hidden: bool)
    ensures AllRead(MessagesShown(grouped, hidden), MessageItems(grouped, hidden))
  {
    hide Coin;
  }

  lemma FirstRead()
    ensures AllRead([("chain_id", Str("cosmoshub-4")), ("account_number", Str("0")), ("sequence", Str("0"))],
      [("chain_id", Some("cosmoshub-4")), ("account_number", Some("0")), ("sequence", Some("0"))])
  {
  }

  lemma MemoAndFeeRead()
    ensures var memo, fee := ("memo", Str("m")), ("fee/amount", Arr("", [Coin("5000")]));
      && AllRead([memo, fee], [("memo", Some("m")), ("fee/amount", None)])
      && AllRead([memo, fee, ("fee/gas", Str("200000"))],
         [("memo", Some("m")), ("fee/amount", None), ("fee/gas", Some("200000"))])
  {
    hide Coin;
  }

  lemma ItemsRead(s: Setting)
    ensures AllRead(Expected(s), TransactionItems(s))
  {
    hide AllRead, MessagesShown, MessageItems, Coin;
    var hidden := s.own == Some("d");
    var memo, fee, gas := ("memo", Str("m")), ("fee/amount", Arr("", [Coin("5000")])), ("fee/gas", Str("200000"));
    FirstRead();
    MessagesRead(!s.expert, hidden);
    MessagesRead(false, false);
    MemoAndFeeRead();
    if s.expert {
      var es := [("chain_id", Str("cosmoshub-4")), ("account_number", Str("0")), ("sequence", Str("0"))];
      var ws := [("chain_id", Some("cosmoshub-4")), ("account_number", Some("0")), ("sequence", Some("0"))];
      ReadJoin(es, MessagesShown(false, false), ws, MessageItems(false, false));
      ReadJoin(es + MessagesShown(false, false), [memo, fee, gas], ws + MessageItems(false, false),
        [("memo", Some("m")), ("fee/amount", None), ("fee/gas", Some("200000"))]);
    } else {
      ReadJoin(MessagesShown(true, hidden), [memo, fee], MessageItems(true, hidden),
        [("memo", Some("m")), ("fee/amount", None)]);
    }
  }

  lemma ShortTexts()
    ensures Take(Substitute("cosmoshub-4"), 39) == "cosmoshub-4" && Take(Substitute("0"), 39) == "0"
    ensures Take(Substitute("cosmos-sdk/MsgDelegate"), 39) == "Delegate"
    ensures Take(Substitute("d"), 39) == "d" && Take(Substitute("v"), 39) == "v" && Take(Substitute("m"), 39) == "m"
    ensures Take(Substitute("200000"), 39) == "200000"
  {
  }

  lemma {:induction false} ReadShown(json: ParsedJson, leaf: LeafRef, e: (string, Json), w: (string, Option<string>),
                                     format: Formatter)
    requires Screen(json, leaf, e.0, e.1) && Reads(e, w)
    ensures Shows(json, leaf, 40, format, w.0, w.1)
  {
    hide Screen, Substitute, Shows;
    ShortTexts();
    if w.1 == None {
      PathOfScreen(json, leaf, e);
      AmountShown(json, leaf, 40, format);
    } else {
      TextShown(json, leaf, e.0, e.1.text, 40, format);
    }
  }

  lemma PathOfScreen(json: ParsedJson, leaf: LeafRef, e: (string, Json))
    requires Screen(json, leaf, e.0, e.1)
    ensures leaf.path == e.0
  {
  }

  /** What is shown for each screen of the transaction, in every setting. */
  lemma {:induction false} TransactionShown(json: ParsedJson, s: Setting, format: Formatter)
    requires Lists(json, Transaction())
    ensures IsRoot(json, TreeOf(Transaction(), 0))
    ensures var screens, items := Screens(json, TreeOf(Transaction(), 0), s, 0), TransactionItems(s);
      |screens| == |items| && forall k :: 0 <= k < |items| ==>
        Shows(json, screens[k], 40, format, items[k].0, items[k].1)
  {
    hide Print, Flat, WellFormed, TreeOf, Transaction, Expected, Screens, IsRoot, TransactionItems, Screen, Shows,
         Reads;
    TransactionScreens(json, s);
    ItemsRead(s);
    var screens := Screens(json, TreeOf(Transaction(), 0), s, 0);
    forall k | 0 <= k < |screens|
      ensures Shows(json, screens[k], 40, format, TransactionItems(s)[k].0, TransactionItems(s)[k].1) {
      ReadShown(json, screens[k], Expected(s)[k], TransactionItems(s)[k], format);
    }
  }

  // ----- It is accepted -----

  // Objects without blanks around keys and values, and with keys in order.
  lemma {:induction false} EntriesCanonical(ks: seq<Key>, vs: seq<Json>)
    requires |ks| == |vs| && forall j :: 0 <= j < |ks| ==>
      ks[j].before == ks[j].after == "" && Flush(vs[j]) && Tight(vs[j]) && Sorted(vs[j])
    requires forall j :: 0 < j < |ks| ==> TextsInOrder(ks[j - 1].text, ks[j].text)
    ensures Compact(Obj("", ks, vs))
  {
    hide TextsInOrder;
    SampleTight(ks, vs);
    SampleSorted(vs);
  }

  predicate Compact(x: Json) {
    Flush(x) && Tight(x) && Sorted(x)
  }

  lemma KeysInOrder()
    ensures TextsInOrder("amount", "denom") && TextsInOrder("amount", "delegator_address")
    ensures TextsInOrder("delegator_address", "validator_address") && TextsInOrder("type", "value")
    ensures TextsInOrder("amount", "gas")
  {
  }

  lemma CoinCompact(amount: string)
    ensures Compact(Coin(amount))
  {
    hide TextsInOrder;
    KeysInOrder();
    EntriesCanonical(Coin(amount).keys, Coin(amount).values);
  }

  lemma DelegationCompact()
    ensures Compact(Delegation())
  {
    hide TextsInOrder, Coin;
    KeysInOrder();
    CoinCompact("5");
    EntriesCanonical(Delegated().keys, Delegated().values);
    EntriesCanonical(Delegation().keys, Delegation().values);
  }

  // Lists of the same value, with no blanks between.
  lemma {:induction false} AllCompact(xs: seq<Json>, x: Json)
    requires Compact(x) && forall k :: 0 <= k < |xs| ==> xs[k] == x
    ensures Compact(Arr("", xs))
    decreases xs
  {
    hide Flush, Tight, Sorted;
    if xs != [] { AllCompact(xs[1..], x); }
    ListCompact(xs);
  }

  lemma ListCompact(xs: seq<Json>)
    requires xs != [] ==> Compact(xs[0]) && Compact(Arr("", xs[1..])) && (|xs| > 1 ==> Flush(xs[1]))
    ensures Compact(Arr("", xs))
  {
  }

  lemma FeeCompact()
    ensures Compact(CoinFee())
  {
    hide TextsInOrder, Coin;
    KeysInOrder();
    CoinCompact("5000");
    AllCompact([Coin("5000")], Coin("5000"));
    EntriesCanonical(CoinFee().keys, CoinFee().values);
  }

  lemma TransactionCanonical()
    ensures Canonical(Transaction())
  {
    hide Flush, Tight, Sorted, Canonical, Delegation, CoinFee;
    DelegationCompact();
    AllCompact(Delegations().items, Delegation());
    FeeCompact();
    MemoCompact();
    SampleCanonical("cosmoshub-4", CoinFee(), Str("m"), Delegations());
  }

  lemma MemoCompact()
    ensures Compact(Str("m"))
  {
  }

  lemma {:induction false} TransactionFits(json: ParsedJson, root: Node, s: Setting)
    requires SaysTransaction(json, root)
    ensures IsRoot(json, root) && GroupsFit(json, root) && FeeShown(json, root, s)
  {
    hide IsRoot, FieldSays, RootLeaves, DefaultChain, ChainAccepted, Screen, MessageScreens;
    MessagesLeaves(json, root);
    EightOfThem();
    FeeScreens(json, root);
  }

  lemma EightOfThem()
    ensures |MessageScreens() + MessageScreens()| == 8
  {
  }

  lemma ShownFormats(json: ParsedJson, leaf: LeafRef, format: Formatter, key: string, value: Option<string>)
    requires Shows(json, leaf, 40, format, key, value)
    ensures Formats(leaf, format) <==> (value == None ==> format(leaf.index, 40, 0).0 == Ok)
  {
    hide ItemOf, Formats;
    FirstPageShown(json, leaf, format);
  }

  /** The transaction is accepted in every setting exactly if its amounts can be formatted. */
  lemma {:induction false} TransactionAccepted(json: ParsedJson, s: Setting, format: Formatter)
    requires Lists(json, Transaction()) && SpansInBuffer(json) && !HasNul(json.buffer)
    ensures IsRoot(json, TreeOf(Transaction(), 0))
    ensures var root, items := TreeOf(Transaction(), 0), TransactionItems(s);
      && |Screens(json, root, s, 0)| == |items|
      && (Accepted(json, root, s, format) <==>
          forall k :: 0 <= k < |items| && items[k].1 == None ==>
            format(Screens(json, root, s, 0)[k].index, 40, 0).0 == Ok)
  {
    hide Print, Flat, WellFormed, TreeOf, Transaction, Screens, IsRoot, TransactionItems, Shows, Formats, GroupsFit,
         FeeShown, ChainAccepted, TxValid, Canonical, FieldSays, SpansInBuffer, HasNul, RootLeaves, DefaultChain;
    TransactionCanonical();
    ValidIsCanonical(json, Transaction());
    TransactionShown(json, s, format);
    TransactionSays(json);
    var root, items := TreeOf(Transaction(), 0), TransactionItems(s);
    TransactionFits(json, root, s);
    FewItems(s);
    var screens := Screens(json, root, s, 0);
    forall k | 0 <= k < |items|
      ensures Formats(screens[k], format) <==> (items[k].1 == None ==> format(screens[k].index, 40, 0).0 == Ok) {
      ShownFormats(json, screens[k], format, items[k].0, items[k].1);
    }
  }

  lemma FewItems(s: Setting)
    ensures |TransactionItems(s)| <= 13
  {
  }
}
