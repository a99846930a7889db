/**
 * A transaction with two delegations and a fee: all its screens, in and outside expert mode, key by
 * key and token by token.
 */
module TxDelegations {
  import opened Bytes
  import opened JsonMeaning
  import opened JsonNav
  import opened JsonText
  import opened JsonTree
  import opened TxCoverage
  import opened TxEntries
  import opened TxLeaves
  import opened TxParser
  import opened TxSamples
  import opened TxScreens

  // ----- The transaction -----

  function Coin(amount: string): Json {
    Obj("", [Name("amount"), Name("denom")], [Str(amount), Str("uatom")])
  }

  function Delegated(): Json {
    Obj("", [Name("amount"), Name("delegator_address"), Name("validator_address")], [Coin("5"), Str("d"), Str("v")])
  }

  function Delegation(): Json {
    Obj("", [Name("type"), Name("value")], [Str("cosmos-sdk/MsgDelegate"), Delegated()])
  }

  function Delegations(): Json {
    Arr("", [Delegation(), Delegation()])
  }

  function CoinFee(): Json {
    Obj("", [Name("amount"), Name("gas")], [Arr("", [Coin("5000")]), Str("200000")])
  }

  function Transaction(): Json {
    Sample("cosmoshub-4", CoinFee(), Str("m"), Delegations())
  }

  // A leaf with that path, whose token begins the tree of x.
  ghost predicate Screen(json: ParsedJson, leaf: LeafRef, path: string, x: Json) {
    leaf.path == path && exists n :: Hosts(json, leaf.index, n) && Says(json, n, x)
  }

  ghost predicate AreScreens(json: ParsedJson, leaves: seq<LeafRef>, expected: seq<(string, Json)>) {
    |leaves| == |expected| && forall k :: 0 <= k < |leaves| ==> Screen(json, leaves[k], expected[k].0, expected[k].1)
  }

  lemma ScreensJoin(json: ParsedJson, a: seq<LeafRef>, b: seq<LeafRef>, xs: seq<(string, Json)>, ys: seq<(string,
                    Json)>)
    requires AreScreens(json, a, xs) && AreScreens(json, b, ys)
    ensures AreScreens(json, a + b, xs + ys)
  {
    hide Screen;
  }

  // ----- Leaves of objects -----

  // An object with these keys and values, whose entries are all cut off.
  function Listed(path: string, ks: seq<Key>, vs: seq<Json>): (r: seq<(string, Json)>)
    requires |ks| == |vs|
    ensures |r| == |ks|
  {
    seq(|ks|, e requires 0 <= e < |ks| => (path + "/" + ks[e].text, vs[e]))
  }

  lemma {:induction false} ObjectScreens(json: ParsedJson, n: Node, i: nat, depth: nat, path: string, x: Json)
    requires Hosts(json, i, n) && Says(json, n, x) && x.Obj? && |x.keys| == |x.values| && depth > 0 && path != ""
    ensures AreScreens(json, Leaves(json, n, i, 1, depth, path), Listed(path, x.keys, x.values))
  {
    hide HostsListing, Listing, Laid, Leaves, TokenText, ChildIndex, Says, KeysSay, AllSay;
    SaysOfObject(json, n, x);
    LeavesOfEntries(json, n, i, depth, path);
    var leaves := Leaves(json, n, i, 1, depth, path);
    forall e | 0 <= e < |leaves| ensures Screen(json, leaves[e], path + "/" + x.keys[e].text, x.values[e]) {
      KeySays(json, n.keys, x.keys, e);
      ChildSays(json, n.values, x.values, e);
      ChildHosted(json, i, n, e);
    }
  }

  lemma {:induction false} DelegationLeaves(json: ParsedJson, n: Node, i: nat)
    requires Hosts(json, i, n) && Says(json, n, Delegation())
    ensures AreScreens(json, Leaves(json, n, i, 2, 5, "msgs"), MessageScreens())
  {
    hide HostsListing, Listing, Laid, TokenText, ChildIndex, Says, Delegated, Screen, ChildPath;
    DelegationSaid(json, n);
    ChildHosted(json, i, n, 0);
    ChildHosted(json, i, n, 1);
    VisitedIsReach(json, n, i);
    PathsOfDelegation(json, n);
    var first, second := ChildIndex(n, i, 0), ChildIndex(n, i, 1);
    DelegatedListed();
    ObjectScreens(json, n.values[1], second, 4, "msgs/value", Delegated());
    LeafScreen(json, n.values[0], first, "msgs/type", "cosmos-sdk/MsgDelegate");
    assert ChildLeaves(json, n, i, 2, 2, 5, "msgs") == [];
    assert ChildLeaves(json, n, i, 1, 2, 5, "msgs") == Leaves(json, n.values[1], second, 1, 4, "msgs/value");
    assert Leaves(json, n.values[0], first, 1, 4, "msgs/type") == [LeafRef(first, "msgs/type")];
    assert Leaves(json, n, i, 2, 5, "msgs") == ChildLeaves(json, n, i, 0, 2, 5, "msgs");
    assert Leaves(json, n, i, 2, 5, "msgs")
      == [LeafRef(first, "msgs/type")] + Leaves(json, n.values[1], second, 1, 4, "msgs/value");
    ScreensJoin(json, [LeafRef(first, "msgs/type")], Leaves(json, n.values[1], second, 1, 4, "msgs/value"),
      [("msgs/type", Str("cosmos-sdk/MsgDelegate"))], Listed("msgs/value", Delegated().keys, Delegated().values));
  }

  // The screens of one delegation by itself.
  function MessageScreens(): seq<(string, Json)> {
    [("msgs/type", Str("cosmos-sdk/MsgDelegate")), ("msgs/value/amount", Coin("5")),
     ("msgs/value/delegator_address", Str("d")), ("msgs/value/validator_address", Str("v"))]
  }

  lemma DelegatedListed()
    ensures Delegated().Obj? && |Delegated().keys| == |Delegated().values|
    ensures [("msgs/type", Str("cosmos-sdk/MsgDelegate"))]
      + Listed("msgs/value", Delegated().keys, Delegated().values) == MessageScreens()
  {
    var r := Listed("msgs/value", Delegated().keys, Delegated().values);
    assert "msgs/value" + "/" + "amount" == "msgs/value/amount";
    assert "msgs/value" + "/" + "delegator_address" == "msgs/value/delegator_address";
    assert "msgs/value" + "/" + "validator_address" == "msgs/value/validator_address";
    assert r[0] == ("msgs/value/amount", Coin("5")) && r[1] == ("msgs/value/delegator_address", Str("d"))
      && r[2] == ("msgs/value/validator_address", Str("v"));
  }

  lemma DelegationSaid(json: ParsedJson, n: Node)
    requires Says(json, n, Delegation())
    ensures n.ObjectNode? && |n.keys| == |n.values| == 2
    ensures TokenText(json, n.keys[0]) == "type" && TokenText(json, n.keys[1]) == "value"
    ensures Says(json, n.values[0], Str("cosmos-sdk/MsgDelegate")) && Says(json, n.values[1], Delegated())
  {
    hide TokenText, Delegated;
    SaysOfObject(json, n, Delegation());
    KeySays(json, n.keys, Delegation().keys, 0);
    KeySays(json, n.keys, Delegation().keys, 1);
    ChildSays(json, n.values, Delegation().values, 0);
    ChildSays(json, n.values, Delegation().values, 1);
  }

  lemma PathsOfDelegation(json: ParsedJson, n: Node)
    requires Laid(n) && n.ObjectNode? && |n.values| == |n.keys| == 2
    requires TokenText(json, n.keys[0]) == "type" && TokenText(json, n.keys[1]) == "value"
    ensures ChildPath(json, n, 0, "msgs") == "msgs/type" && ChildPath(json, n, 1, "msgs") == "msgs/value"
  {
    hide TokenText, Laid;
  }

  lemma {:induction false} LeafScreen(json: ParsedJson, n: Node, i: nat, path: string, text: string)
    requires Hosts(json, i, n) && Says(json, n, Str(text))
    ensures n.Leaf? && AreScreens(json, [LeafRef(i, path)], [(path, Str(text))])
  {
    hide Hosts, TokenText;
  }

  // ----- Leaves of the root fields -----

  // The r-th root field says x.
  ghost predicate FieldSays(json: ParsedJson, root: Node, r: nat, x: Json) {
    IsRoot(json, root) && exists n, i :: Field(json, root, RootName(r), n, i) && Says(json, n, x)
  }

  lemma {:induction false} SampleFieldSays(json: ParsedJson, chain: string, fee: Json, memo: Json, msgs: Json, r: nat)
    requires Lists(json, Sample(chain, fee, memo, msgs)) && r < 6
    ensures FieldSays(json, TreeOf(Sample(chain, fee, memo, msgs), 0), r,
      Sample(chain, fee, memo, msgs).values[FieldPlace(r)])
  {
    hide Print, Flat, WellFormed, HostsListing, Listing, TreeOf, Says, ChildNamed, TokenText, ChildIndex, Laid,
         RootName;
    var root, j := TreeOf(Sample(chain, fee, memo, msgs), 0), FieldPlace(r);
    SampleField(json, chain, fee, memo, msgs, r);
    StartHosted(json, root, r, 0);
    assert Field(json, root, RootName(r), root.values[j], ChildIndex(root, 0, j));
  }

  lemma {:induction false} ScalarField(json: ParsedJson, root: Node, r: nat, text: string)
    requires FieldSays(json, root, r, Str(text)) && r < 7
    ensures AreScreens(json, RootLeaves(json, root, r), [(RootName(r), Str(text))])
  {
    hide IsRoot, Field, Says, RootLeaves, Hosts, AreScreens, RootName;
    var n, i :| Field(json, root, RootName(r), n, i) && Says(json, n, Str(text));
    FieldLeaves(json, root, r, RootName(r), n, i);
    LeafScreen(json, n, i, RootName(r), text);
    ScalarLeaf(json, root, r, RootName(r), n, i);
  }

  lemma {:induction false} FeeScreens(json: ParsedJson, root: Node)
    requires FieldSays(json, root, 5, CoinFee())
    ensures AreScreens(json, RootLeaves(json, root, 5),
      [("fee/amount", Arr("", [Coin("5000")])), ("fee/gas", Str("200000"))])
  {
    hide IsRoot, Field, Says, RootLeaves, Hosts, AreScreens, Coin, Leaves;
    var n, i :| Field(json, root, "fee", n, i) && Says(json, n, CoinFee());
    FieldLeaves(json, root, 5, "fee", n, i);
    ObjectScreens(json, n, i, 6, "fee", CoinFee());
    assert "fee" + "/" + "amount" == "fee/amount" && "fee" + "/" + "gas" == "fee/gas";
    var r := Listed("fee", CoinFee().keys, CoinFee().values);
    assert r[0] == ("fee/amount", Arr("", [Coin("5000")])) && r[1] == ("fee/gas", Str("200000"));
    assert r == [("fee/amount", Arr("", [Coin("5000")])), ("fee/gas", Str("200000"))];
  }

  lemma DelegationsSaid(json: ParsedJson, n: Node)
    requires Says(json, n, Delegations())
    ensures n.ArrayNode? && |n.items| == 2
    ensures Says(json, n.items[0], Delegation()) && Says(json, n.items[1], Delegation())
  {
    hide Delegation;
    ChildSays(json, n.items, Delegations().items, 0);
    ChildSays(json, n.items, Delegations().items, 1);
  }

  lemma {:induction false} TwoElements(json: ParsedJson, n: Node, i: nat, level: nat, depth: nat, path: string)
    requires Hosts(json, i, n) && n.ArrayNode? && |n.items| == 2 && level > 0 && depth > 0
    requires NonEmptyContainer(n.items[0]) && NonEmptyContainer(n.items[1])
    ensures Hosts(json, ChildIndex(n, i, 0), n.items[0]) && Hosts(json, ChildIndex(n, i, 1), n.items[1])
    ensures Leaves(json, n, i, level, depth, path)
      == Leaves(json, n.items[0], ChildIndex(n, i, 0), level, depth - 1, path)
       + Leaves(json, n.items[1], ChildIndex(n, i, 1), level, depth - 1, path)
  {
    hide HostsListing, Listing, Laid, ChildIndex, NonEmptyContainer, PairCount;
    ChildHosted(json, i, n, 0);
    ChildHosted(json, i, n, 1);
    VisitedIsReach(json, n, i);
    ArrayReached(n);
    assert ChildLeaves(json, n, i, 2, level, depth, path) == [];
    assert ChildLeaves(json, n, i, 1, level, depth, path)
      == Leaves(json, n.items[1], ChildIndex(n, i, 1), level, depth - 1, path);
    assert Leaves(json, n, i, level, depth, path) == ChildLeaves(json, n, i, 0, level, depth, path);
  }

  lemma {:induction false} MessagesLeaves(json: ParsedJson, root: Node)
    requires FieldSays(json, root, 3, Delegations())
    ensures AreScreens(json, RootLeaves(json, root, 3), MessageScreens() + MessageScreens())
  {
    hide IsRoot, Says, Field, RootLeaves, Hosts, AreScreens, Leaves, Delegations, MessageScreens, ChildIndex,
         Delegation;
    var n, i :| Field(json, root, "msgs", n, i) && Says(json, n, Delegations());
    FieldLeaves(json, root, 3, "msgs", n, i);
    FieldLaid(json, root, 3, "msgs", n, i);
    DelegationsSaid(json, n);
    DelegationSaid(json, n.items[0]);
    DelegationSaid(json, n.items[1]);
    TwoElements(json, n, i, 2, 6, "msgs");
    DelegationLeaves(json, n.items[0], ChildIndex(n, i, 0));
    DelegationLeaves(json, n.items[1], ChildIndex(n, i, 1));
    ScreensJoin(json, Leaves(json, n.items[0], ChildIndex(n, i, 0), 2, 5, "msgs"),
      Leaves(json, n.items[1], ChildIndex(n, i, 1), 2, 5, "msgs"), MessageScreens(), MessageScreens());
  }

  // ----- Which of the messages' leaves are shown -----

  function Kept<T>(xs: seq<T>, keep: seq<bool>): seq<T>
    requires |xs| == |keep|
  {
    if xs == [] then [] else (if keep[0] then [xs[0]] else []) + Kept(xs[1..], keep[1..])
  }

  lemma {:induction false} ShownIsKept(leaves: seq<LeafRef>, cur: nat, r: Rule, keep: seq<bool>)
    requires |leaves| == |keep| && forall m :: 0 <= m < |leaves| ==> Skips(r, leaves[m].path, cur + m) == !keep[m]
    ensures Shown(leaves, cur, r) == Kept(leaves, keep)
    decreases leaves
  {
    hide Skips;
    if leaves != [] {
      assert Skips(r, leaves[0].path, cur + 0) == !keep[0];
      forall m | 0 <= m < |leaves| - 1 ensures Skips(r, leaves[1..][m].path, cur + 1 + m) == !keep[1..][m] {
        assert Skips(r, leaves[m + 1].path, cur + (m + 1)) == !keep[m + 1];
      }
      ShownIsKept(leaves[1..], cur + 1, r, keep[1..]);
    }
  }

  lemma {:induction false} KeptScreens(json: ParsedJson, leaves: seq<LeafRef>, xs: seq<(string, Json)>, keep: seq<bool>)
    requires AreScreens(json, leaves, xs) && |keep| == |xs|
    ensures AreScreens(json, Kept(leaves, keep), Kept(xs, keep))
    decreases leaves
  {
    hide Screen;
    if leaves != [] {
      forall k | 0 <= k < |leaves| - 1 ensures Screen(json, leaves[1..][k], xs[1..][k].0, xs[1..][k].1) {
        assert Screen(json, leaves[k + 1], xs[k + 1].0, xs[k + 1].1);
      }
      KeptScreens(json, leaves[1..], xs[1..], keep[1..]);
    }
  }

  // Values of leaves that say strings.
  lemma ScreenValue(json: ParsedJson, leaf: LeafRef, path: string, text: string)
    requires Screen(json, leaf, path, Str(text))
    ensures Value(json, leaf) == Take(Substitute(text), 69)
  {
    hide Substitute, Laid, HostsListing, TokenText;
    var n :| Hosts(json, leaf.index, n) && Says(json, n, Str(text));
    ChildrenHosted(json, leaf.index, n);
  }

  ghost predicate EightLeaves(json: ParsedJson, leaves: seq<LeafRef>) {
    AreScreens(json, leaves, MessageScreens() + MessageScreens())
  }

  lemma EightPaths(json: ParsedJson, leaves: seq<LeafRef>)
    requires EightLeaves(json, leaves)
    ensures |leaves| == 8
    ensures leaves[0].path == leaves[4].path == "msgs/type" && leaves[1].path == leaves[5].path == "msgs/value/amount"
    ensures leaves[2].path == leaves[6].path == "msgs/value/delegator_address"
    ensures leaves[3].path == leaves[7].path == "msgs/value/validator_address"
    ensures Value(json, leaves[0]) == Value(json, leaves[4]) && Value(json, leaves[2]) == Value(json, leaves[6]) == "d"
  {
    hide Substitute, Coin, Value;
    var xs := MessageScreens() + MessageScreens();
    forall k | 0 <= k < 8 ensures Screen(json, leaves[k], xs[k].0, xs[k].1) {}
    ScreenValue(json, leaves[0], "msgs/type", "cosmos-sdk/MsgDelegate");
    ScreenValue(json, leaves[4], "msgs/type", "cosmos-sdk/MsgDelegate");
    ScreenValue(json, leaves[2], "msgs/value/delegator_address", "d");
    ScreenValue(json, leaves[6], "msgs/value/delegator_address", "d");
    ShortUnchanged();
  }

  lemma ShortUnchanged()
    ensures Take(Substitute("d"), 69) == "d"
  {
  }

  lemma PathsDiffer()
    ensures "msgs/value/amount" != "msgs/type" && "msgs/value/delegator_address" != "msgs/type"
    ensures "msgs/value/validator_address" != "msgs/type" && "msgs/value/amount" != "msgs/value/delegator_address"
    ensures "msgs/value/validator_address" != "msgs/value/delegator_address"
    ensures "msgs/type" != "msgs/value/delegator_address"
  {
    assert "msgs/value/validator_address"[11] == 'v' && "msgs/value/delegator_address"[11] == 'd';
  }

  // Which of the paths are grouped.
  predicate EightGrouped(leaves: seq<LeafRef>) {
    |leaves| == 8 && forall m :: 0 <= m < 8 ==>
      && (leaves[m].path == MSG_TYPE <==> m == 0 || m == 4)
      && (leaves[m].path == MSG_FROM <==> m == 2 || m == 6)
  }

  lemma EightAreGrouped(json: ParsedJson, leaves: seq<LeafRef>)
    requires EightLeaves(json, leaves)
    ensures EightGrouped(leaves)
    ensures Value(json, leaves[0]) == Value(json, leaves[4]) && Value(json, leaves[2]) == Value(json, leaves[6]) == "d"
  {
    hide Value, AreScreens;
    EightPaths(json, leaves);
    PathsDiffer();
  }

  // Types and delegators agree, and the first of each are the leaves 0 and 2.
  lemma GroupsOfEight(json: ParsedJson, leaves: seq<LeafRef>)
    requires EightGrouped(leaves)
    requires Value(json, leaves[0]) == Value(json, leaves[4]) && Value(json, leaves[2]) == Value(json, leaves[6]) == "d"
    ensures Uniform(json, leaves, MSG_TYPE) && FirstAt(leaves, MSG_TYPE) == 0
    ensures Uniform(json, leaves, MSG_FROM) && FirstAt(leaves, MSG_FROM) == 2
    ensures Reference(json, leaves, MSG_FROM) == "d"
  {
    hide Value, FirstAt, MSG_TYPE, MSG_FROM;
    var i, j := FirstAt(leaves, MSG_TYPE), FirstAt(leaves, MSG_FROM);
    assert leaves[0].path == MSG_TYPE && leaves[2].path == MSG_FROM;
    assert i == 0 && j == 2;
  }

  // Which of the eight leaves are kept: the second type is dropped, and grouped delegators.
  function KeepEight(grouped: bool, hidden: bool): seq<bool> {
    [true, true, !(grouped && hidden), true] + [false, true, !grouped, true]
  }

  lemma EightKept(leaves: seq<LeafRef>, r: Rule, grouped: bool, hidden: bool)
    requires EightGrouped(leaves) && r == Rule(69, true, true, 0, grouped, 2, hidden)
    ensures Shown(leaves, 0, r) == Kept(leaves, KeepEight(grouped, hidden))
  {
    hide Shown, Kept, MSG_TYPE, MSG_FROM, Take;
    var keep := KeepEight(grouped, hidden);
    forall m | 0 <= m < 8 ensures Skips(r, leaves[m].path, 0 + m) == !keep[m] { CutKeysCompare(leaves[m].path, 69); }
    ShownIsKept(leaves, 0, r, keep);
  }

  lemma {:induction false} KeptAppend<T>(xs: seq<T>, ys: seq<T>, k: seq<bool>, l: seq<bool>)
    requires |xs| == |k| && |ys| == |l|
    ensures Kept(xs + ys, k + l) == Kept(xs, k) + Kept(ys, l)
    decreases xs
  {
    hide Kept;
    if xs == [] {
      assert xs + ys == ys && k + l == l;
      KeptNothing<T>();
    } else {
      KeptAppend(xs[1..], ys, k[1..], l);
      KeptCons(xs[0], xs[1..] + ys, k[0], k[1..] + l);
      KeptCons(xs[0], xs[1..], k[0], k[1..]);
      assert xs + ys == [xs[0]] + (xs[1..] + ys) && k + l == [k[0]] + (k[1..] + l);
      assert xs == [xs[0]] + xs[1..] && k == [k[0]] + k[1..];
    }
  }

  lemma KeptNothing<T>()
    ensures Kept<T>([], []) == []
  {
  }

  lemma KeptCons<T>(x: T, xs: seq<T>, b: bool, k: seq<bool>)
    requires |xs| == |k|
    ensures Kept([x] + xs, [b] + k) == (if b then [x] else []) + Kept(xs, k)
  {
    assert ([x] + xs)[1..] == xs && ([b] + k)[1..] == k;
  }

  lemma KeptFour<T>(a: T, b: T, c: T, d: T, k: bool, l: bool)
    ensures Kept([a, b, c, d], [true, true, k, true]) == if k then [a, b, c, d] else [a, b, d]
    ensures Kept([a, b, c, d], [false, true, l, true]) == if l then [b, c, d] else [b, d]
  {
    assert [a, b, c, d][1..] == [b, c, d] && [b, c, d][1..] == [c, d] && [c, d][1..] == [d] && [d][1..] == [];
    assert [true, true, k, true][1..] == [true, k, true] && [false, true, l, true][1..] == [true, l, true];
    assert [true, k, true][1..] == [k, true] && [true, l, true][1..] == [l, true];
    assert [k, true][1..] == [true] && [l, true][1..] == [true] && [true][1..] == [];
    assert Kept([d], [true]) == [d];
    assert Kept([c, d], [k, true]) == if k then [c, d] else [d];
    assert Kept([c, d], [l, true]) == if l then [c, d] else [d];
    assert Kept([b, c, d], [true, k, true]) == [b] + Kept([c, d], [k, true]);
    assert Kept([b, c, d], [true, l, true]) == [b] + Kept([c, d], [l, true]);
  }

  // The screens of both messages: the delegator is shown twice, once or not at all.
  function MessagesShown(grouped: bool, hidden: bool): seq<(string, Json)> {
    var kind, amount := ("msgs/type", Str("cosmos-sdk/MsgDelegate")), ("msgs/value/amount", Coin("5"));
    var from, to := ("msgs/value/delegator_address", Str("d")), ("msgs/value/validator_address", Str("v"));
    if !grouped then [kind, amount, from, to, amount, from, to]
    else if hidden then [kind, amount, to, amount, to]
    else [kind, amount, from, to, amount, to]
  }

  lemma MessagesKept(grouped: bool, hidden: bool)
    ensures Kept(MessageScreens() + MessageScreens(), KeepEight(grouped, hidden)) == MessagesShown(grouped, hidden)
  {
    hide Kept, Coin;
    var x := MessageScreens();
    KeptAppend(x, x, [true, true, !(grouped && hidden), true], [false, true, !grouped, true]);
    KeptFour(x[0], x[1], x[2], x[3], !(grouped && hidden), !grouped);
  }

  lemma {:induction false} MessagesVisible(json: ParsedJson, root: Node, s: Setting)
    requires FieldSays(json, root, 3, Delegations()) && ChainAccepted(json, root) && DefaultChain(json, root)
    ensures AreScreens(json, Visible(json, root, s, 3), MessagesShown(!s.expert, s.own == Some("d")))
  {
    hide IsRoot, Field, Says, RootLeaves, AreScreens, Shown, Uniform, FirstAt, Kept, KeepEight, MessageScreens, Value,
         MessagesShown, DefaultChain, ChainAccepted, Delegations;
    var leaves := RootLeaves(json, root, 3);
    MessagesLeaves(json, root);
    EightAreGrouped(json, leaves);
    GroupsOfEight(json, leaves);
    var hidden := s.own == Some("d");
    EightKept(leaves, MessageRule(json, root, s), !s.expert, hidden);
    MessagesKept(!s.expert, hidden);
    KeepsEight(!s.expert, hidden);
    KeptScreens(json, leaves, MessageScreens() + MessageScreens(), KeepEight(!s.expert, hidden));
  }

  lemma KeepsEight(grouped: bool, hidden: bool)
    ensures |KeepEight(grouped, hidden)| == |MessageScreens() + MessageScreens()| == 8
  {
  }

  // ----- All screens -----

  function Expected(s: Setting): seq<(string, Json)> {
    if s.expert then
      [("chain_id", Str("cosmoshub-4")), ("account_number", Str("0")), ("sequence", Str("0"))]
      + MessagesShown(false, false)
      + [("memo", Str("m")), ("fee/amount", Arr("", [Coin("5000")])), ("fee/gas", Str("200000"))]
    else
      MessagesShown(true, s.own == Some("d")) + [("memo", Str("m")), ("fee/amount", Arr("", [Coin("5000")]))]
  }

  function FirstShown(s: Setting): seq<(string, Json)> {
    if s.expert then [("chain_id", Str("cosmoshub-4")), ("account_number", Str("0")), ("sequence", Str("0"))] else []
  }

  function FeesShown(s: Setting): seq<(string, Json)> {
    var fee := ("fee/amount", Arr("", [Coin("5000")]));
    if s.expert then [fee, ("fee/gas", Str("200000"))] else [fee]
  }

  // What the root fields say, and that the chain is the default one.
  ghost predicate SaysTransaction(json: ParsedJson, root: Node) {
    && IsRoot(json, root)
    && FieldSays(json, root, 0, Str("cosmoshub-4")) && FieldSays(json, root, 1, Str("0"))
    && FieldSays(json, root, 2, Str("0")) && FieldSays(json, root, 3, Delegations())
    && FieldSays(json, root, 4, Str("m")) && FieldSays(json, root, 5, CoinFee())
    && RootLeaves(json, root, 6) == [] && ChainAccepted(json, root) && DefaultChain(json, root)
  }

  lemma {:induction false} TransactionSays(json: ParsedJson)
    requires Lists(json, Transaction())
    ensures IsRoot(json, TreeOf(Transaction(), 0)) && SaysTransaction(json, TreeOf(Transaction(), 0))
  {
    hide Lists, TreeOf, FieldSays, ChainAccepted, ChainLeaves, RootLeaves, Delegations, CoinFee, IsRoot;
    var fee, msgs := CoinFee(), Delegations();
    SampleFieldSays(json, "cosmoshub-4", fee, Str("m"), msgs, 0);
    SampleFieldSays(json, "cosmoshub-4", fee, Str("m"), msgs, 1);
    SampleFieldSays(json, "cosmoshub-4", fee, Str("m"), msgs, 2);
    SampleFieldSays(json, "cosmoshub-4", fee, Str("m"), msgs, 3);
    SampleFieldSays(json, "cosmoshub-4", fee, Str("m"), msgs, 4);
    SampleFieldSays(json, "cosmoshub-4", fee, Str("m"), msgs, 5);
    NoTip(json, "cosmoshub-4", fee, Str("m"), msgs);
    DefaultSample(json, fee, Str("m"), msgs, Setting(false, None, false));
  }

  lemma {:induction false} MemoAndFee(json: ParsedJson, root: Node, s: Setting)
    requires FieldSays(json, root, 4, Str("m")) && FieldSays(json, root, 5, CoinFee()) && DefaultChain(json, root)
    ensures AreScreens(json, Visible(json, root, s, 4), [("memo", Str("m"))])
    ensures AreScreens(json, Visible(json, root, s, 5), FeesShown(s))
  {
    hide IsRoot, Field, Says, RootLeaves, Screen, Coin, Value, DefaultChain;
    ScalarField(json, root, 4, "m");
    FeeScreens(json, root);
    var leaf := RootLeaves(json, root, 4)[0];
    assert Screen(json, leaf, "memo", Str("m"));
    ScreenValue(json, leaf, "memo", "m");
    MemoUnchanged();
    assert BeforeEmpty(json, [leaf]) == [leaf];
    assert RootLeaves(json, root, 4) == [leaf];
  }

  lemma MemoUnchanged()
    ensures Take(Substitute("m"), 69) == "m"
  {
  }

  lemma {:induction false} IdentityFields(json: ParsedJson, root: Node, s: Setting)
    requires FieldSays(json, root, 0, Str("cosmoshub-4")) && FieldSays(json, root, 1, Str("0"))
    requires FieldSays(json, root, 2, Str("0")) && DefaultChain(json, root)
    ensures AreScreens(json, Visible(json, root, s, 0) + Visible(json, root, s, 1) + Visible(json, root, s, 2),
      FirstShown(s))
  {
    hide IsRoot, Field, Says, RootLeaves, Screen, DefaultChain;
    ScalarField(json, root, 0, "cosmoshub-4");
    ScalarField(json, root, 1, "0");
    ScalarField(json, root, 2, "0");
  }

  lemma {:induction false} ScreensUnfold(json: ParsedJson, root: Node, s: Setting)
    requires IsRoot(json, root)
    ensures Screens(json, root, s, 0)
      == (Visible(json, root, s, 0) + Visible(json, root, s, 1) + Visible(json, root, s, 2))
       + Visible(json, root, s, 3) + (Visible(json, root, s, 4) + Visible(json, root, s, 5)) + Visible(json, root, s, 6)
  {
    hide IsRoot, Visible;
    assert Screens(json, root, s, 7) == [];
    assert Screens(json, root, s, 6) == Visible(json, root, s, 6);
    assert Screens(json, root, s, 5) == Visible(json, root, s, 5) + Screens(json, root, s, 6);
    assert Screens(json, root, s, 4) == Visible(json, root, s, 4) + Screens(json, root, s, 5);
    assert Screens(json, root, s, 3) == Visible(json, root, s, 3) + Screens(json, root, s, 4);
    assert Screens(json, root, s, 2) == Visible(json, root, s, 2) + Screens(json, root, s, 3);
    assert Screens(json, root, s, 1) == Visible(json, root, s, 1) + Screens(json, root, s, 2);
    assert Screens(json, root, s, 0) == Visible(json, root, s, 0) + Screens(json, root, s, 1);
  }

  /** All screens of the transaction, in every setting. */
  lemma {:induction false} TransactionScreens(json: ParsedJson, s: Setting)
    requires Lists(json, Transaction())
    ensures IsRoot(json, TreeOf(Transaction(), 0))
    ensures AreScreens(json, Screens(json, TreeOf(Transaction(), 0), s, 0), Expected(s))
  {
    hide Print, Flat, WellFormed, TreeOf, Transaction, SaysTransaction, Expected, Screens, AreScreens, IsRoot;
    TransactionSays(json);
    ExpectedScreens(json, TreeOf(Transaction(), 0), s);
  }

  lemma {:induction false} ExpectedScreens(json: ParsedJson, root: Node, s: Setting)
    requires SaysTransaction(json, root)
    ensures IsRoot(json, root) && AreScreens(json, Screens(json, root, s, 0), Expected(s))
  {
    hide IsRoot, FieldSays, RootLeaves, AreScreens, Screens, Visible, MessagesShown, DefaultChain, ChainAccepted,
         Delegations, CoinFee, FirstShown, FeesShown, Expected;
    var shown := MessagesShown(!s.expert, s.own == Some("d"));
    IdentityFields(json, root, s);
    MessagesVisible(json, root, s);
    MemoAndFee(json, root, s);
    NoTipShown(json, root, s);
    var v0 := Visible(json, root, s, 0) + Visible(json, root, s, 1) + Visible(json, root, s, 2);
    ScreensJoin(json, v0, Visible(json, root, s, 3), FirstShown(s), shown);
    ScreensJoin(json, Visible(json, root, s, 4), Visible(json, root, s, 5), [("memo", Str("m"))], FeesShown(s));
    ScreensJoin(json, v0 + Visible(json, root, s, 3), Visible(json, root, s, 4) + Visible(json, root, s, 5),
      FirstShown(s) + shown, [("memo", Str("m"))] + FeesShown(s));
    ScreensUnfold(json, root, s);
    ExpectedParts(s);
    assert Screens(json, root, s, 0) == v0 + Visible(json, root, s, 3)
      + (Visible(json, root, s, 4) + Visible(json, root, s, 5));
  }

  lemma NoTipShown(json: ParsedJson, root: Node, s: Setting)
    requires IsRoot(json, root) && RootLeaves(json, root, 6) == []
    ensures Visible(json, root, s, 6) == []
  {
  }

  lemma ExpectedParts(s: Setting)
    ensures Expected(s) == FirstShown(s) + MessagesShown(!s.expert, s.own == Some("d"))
      + ([("memo", Str("m"))] + FeesShown(s))
  {
    hide Coin;
  }
}
