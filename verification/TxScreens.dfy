/**
 * What the screens of a transaction are, as a function of its JSON tree: the leaves of the
 * root fields in a fixed order, less those that the mode or the grouping of messages hides.
 */
module TxScreens {
  import opened Bytes
  import opened Jsmn
  import opened JsonTree
  import opened JsonNav
  import opened TxLeaves
  import opened TxParser

  // ----- Root fields -----

  const NUM_ROOTS := 7
  const ROOT_CHAIN_ID := 0
  const ROOT_MSGS := 3
  const ROOT_MEMO := 4
  const ROOT_FEE := 5
  const MAX_RECURSION_DEPTH := 6

  function RootName(r: nat): (s: string)
    ensures 0 < |s| <= 14
  {
    match r
    case 0 => "chain_id"
    case 1 => "account_number"
    case 2 => "sequence"
    case 3 => "msgs"
    case 4 => "memo"
    case 5 => "fee"
    case 6 => "tip"
    case _ => "?"
  }

  function RootMaxLevel(r: nat, extraDepthLevel: bool): nat {
    match r
    case 0 | 1 | 2 | 4 => 2
    case 3 => if extraDepthLevel then 3 else 2
    case 5 | 6 => 1
    case _ => 0
  }

  // Which child of the root object is the first with that name, or -1.
  function ChildNamed(json: ParsedJson, ks: seq<Token>, name: string): (j: int)
    ensures -1 <= j < |ks|
    ensures j >= 0 ==> TokenText(json, ks[j]) == name
    ensures forall l :: 0 <= l < (if j >= 0 then j else |ks|) ==> TokenText(json, ks[l]) != name
  {
    if ks == [] then -1
    else if TokenText(json, ks[0]) == name then 0
    else
      var j := ChildNamed(json, ks[1..], name);
      if j == -1 then -1 else j + 1
  }

  /** Looking a name up among an object's tokens finds the value of its first key of that name. */
  lemma {:induction false} LookUpFindsChild(json: ParsedJson, i: nat, n: Node, name: string)
    requires Hosts(json, i, n) && n.ObjectNode? && SpansInBuffer(json)
    ensures i < json.numberOfTokens && json.tokens[i].typ == Object && |n.keys| == |n.values|
    ensures var j := ChildNamed(json, n.keys, name);
      LookUp(json, i, name) == if j == -1 then None else Some(ChildIndex(n, i, j))
  {
    hide HostsListing, Laid, KeyScan, KeyIndices, FirstNamed, SpansInBuffer;
    KeysOfObject(json, i, n);
    HostsLaid(json, i, n);
    ChildrenHosted(json, i, n);
    KeysInRange(json.tokens, json.numberOfTokens, i + 1, n.tok.end, n.tok.start);
    var indices := KeyIndices(n.keys, n.values, i + 1);
    forall j | 0 <= j < |n.keys| ensures indices[j] + 1 < json.numberOfTokens && json.tokens[indices[j]] == n.keys[j] {
      KeyHosted(json, i, n, j);
    }
    FirstNamedAmong(json, indices, n.keys, name);
  }

  lemma {:induction false} KeyHosted(json: ParsedJson, i: nat, n: Node, j: nat)
    requires Hosts(json, i, n) && n.ObjectNode? && |n.keys| == |n.values| && j < |n.keys|
    ensures var k := KeyIndices(n.keys, n.values, i + 1)[j]; k + 1 < json.numberOfTokens && json.tokens[k] == n.keys[j]
  {
    hide HostsListing, Laid, Listing, KeyIndices, ListEntries;
    HostsLaid(json, i, n);
    ValueHosted(json, i + 1, n.keys, n.values, n.tok.start, n.tok.end, j);
    ChildrenHosted(json, KeyIndices(n.keys, n.values, i + 1)[j] + 1, n.values[j]);
  }

  lemma {:induction false} HostsLaid(json: ParsedJson, i: nat, n: Node)
    requires Hosts(json, i, n) && n.ObjectNode?
    ensures Laid(n) && n.tok.typ == Object && |n.keys| == |n.values|
      && EntriesLaid(n.keys, n.values, n.tok.start, n.tok.end)
    ensures HostsListing(json, i + 1, ListEntries(n.keys, n.values), n.tok.end)
  {
    ChildrenHosted(json, i, n);
  }

  // The first of the keys with that name, as their tokens say and as the array of tokens says.
  lemma {:induction false} FirstNamedAmong(json: ParsedJson, indices: seq<nat>, ks: seq<Token>, name: string)
    requires Usable(json) && SpansInBuffer(json) && |indices| == |ks|
    requires forall j :: 0 <= j < |ks| ==> indices[j] + 1 < json.numberOfTokens && json.tokens[indices[j]] == ks[j]
    ensures var j := ChildNamed(json, ks, name);
      FirstNamed(json, indices, name) == if j == -1 then None else Some(indices[j] + 1)
    decreases ks
  {
    hide TokenText, Text, SpansInBuffer;
    if ks != [] {
      SameText(json, indices[0]);
      forall j | 0 <= j < |ks| - 1
        ensures indices[1..][j] + 1 < json.numberOfTokens && json.tokens[indices[1..][j]] == ks[1..][j] {
        assert indices[1..][j] == indices[j + 1] && ks[1..][j] == ks[j + 1];
      }
      FirstNamedAmong(json, indices[1..], ks[1..], name);
    }
  }

  lemma SameText(json: ParsedJson, k: nat)
    requires Usable(json) && SpansInBuffer(json) && k < json.numberOfTokens
    ensures Text(json, k) == TokenText(json, json.tokens[k])
  {
  }

  ghost predicate IsRoot(json: ParsedJson, root: Node) {
    Hosts(json, 0, root) && root.ObjectNode? && |root.keys| == |root.values|
  }

  // The leaves of a root field; none if the field is missing.
  ghost function RootLeaves(json: ParsedJson, root: Node, r: nat): seq<LeafRef>
    requires IsRoot(json, root)
  {
    var j := ChildNamed(json, root.keys, RootName(r));
    if j == -1 then []
    else
      ChildHosted(json, 0, root, j);
      Leaves(json, root.values[j], ChildIndex(root, 0, j), RootMaxLevel(r, false), MAX_RECURSION_DEPTH, RootName(r))
  }

  lemma {:induction false} StartHosted(json: ParsedJson, root: Node, r: nat, start: nat)
    requires IsRoot(json, root) && ChildNamed(json, root.keys, RootName(r)) >= 0
    ensures Laid(root) && Hosts(json, ChildIndex(root, 0, ChildNamed(json, root.keys, RootName(r))),
      root.values[ChildNamed(json, root.keys, RootName(r))])
  {
    ChildHosted(json, 0, root, ChildNamed(json, root.keys, RootName(r)));
  }

  lemma NameHasNoNul(r: nat)
    ensures '\0' !in RootName(r)
  {
  }

  // ----- Values -----

  const INDEXING_TMP_SIZE := 70
  const COIN_MAX_CHAINID_LEN := 20
  const COIN_DEFAULT_CHAINID := "cosmoshub-4"
  const MAX_BECH32_ADDR_LEN := 128

  // The first page of a leaf's value in a buffer of the given size.
  function LeafValue(json: ParsedJson, leaf: LeafRef, size: nat): string {
    if leaf.index < |json.tokens| && size > 0 then Take(Substitute(TokenText(json, json.tokens[leaf.index])), size - 1)
    else ""
  }

  function Value(json: ParsedJson, leaf: LeafRef): string {
    LeafValue(json, leaf, INDEXING_TMP_SIZE)
  }

  // ----- Grouping -----

  function Count(leaves: seq<LeafRef>, path: string): (c: nat)
    ensures c <= |leaves|
  {
    if leaves == [] then 0 else (if leaves[0].path == path then 1 else 0) + Count(leaves[1..], path)
  }

  // The first leaf with that path, or -1.
  function FirstAt(leaves: seq<LeafRef>, path: string): (m: int)
    ensures -1 <= m < |leaves|
    ensures m >= 0 ==> leaves[m].path == path
    ensures forall l :: 0 <= l < (if m >= 0 then m else |leaves|) ==> leaves[l].path != path
  {
    if leaves == [] then -1
    else if leaves[0].path == path then 0
    else
      var m := FirstAt(leaves[1..], path);
      if m == -1 then -1 else m + 1
  }

  // All leaves with that path have the same value.
  predicate Uniform(json: ParsedJson, leaves: seq<LeafRef>, path: string) {
    forall m :: 0 <= m < |leaves| && leaves[m].path == path ==>
      Value(json, leaves[m]) == Value(json, leaves[FirstAt(leaves, path)])
  }

  function Reference(json: ParsedJson, leaves: seq<LeafRef>, path: string): string {
    var m := FirstAt(leaves, path);
    if m == -1 then "" else Value(json, leaves[m])
  }

  predicate IsOwnAddress(own: Option<string>, addr: string) {
    own.Some? && |own.value| <= MAX_BECH32_ADDR_LEN && own.value == addr
  }

  // ----- Screens -----

  // The mode, the device's own address, and what the flag that hides the sender was left at.
  datatype Setting = Setting(expert: bool, own: Option<string>, hideAllBefore: bool)

  // The leaf that names the chain: the first one under chain_id.
  ghost function ChainLeaves(json: ParsedJson, root: Node): seq<LeafRef>
    requires IsRoot(json, root)
  {
    var j := ChildNamed(json, root.keys, RootName(ROOT_CHAIN_ID));
    if j == -1 then Leaves(json, root, 0, RootMaxLevel(ROOT_CHAIN_ID, false), MAX_RECURSION_DEPTH, "")
    else
      ChildHosted(json, 0, root, j);
      Leaves(json, root.values[j], ChildIndex(root, 0, j), RootMaxLevel(ROOT_CHAIN_ID, false), MAX_RECURSION_DEPTH, "")
  }

  ghost predicate DefaultChain(json: ParsedJson, root: Node)
    requires IsRoot(json, root)
  {
    ChainLeaves(json, root) != [] &&
    LeafValue(json, ChainLeaves(json, root)[0], COIN_MAX_CHAINID_LEN) == COIN_DEFAULT_CHAINID
  }

  // The chain has a name, other than the one-digit ones that are not allowed.
  ghost predicate ChainAccepted(json: ParsedJson, root: Node)
    requires IsRoot(json, root)
  {
    ChainLeaves(json, root) != [] &&
    LeafValue(json, ChainLeaves(json, root)[0], COIN_MAX_CHAINID_LEN) !in {"0", "1"}
  }

  ghost predicate ExpertOrNotDefault(json: ParsedJson, root: Node, s: Setting)
    requires IsRoot(json, root)
  {
    s.expert || !DefaultChain(json, root)
  }

  // Senders are grouped outside expert mode on the default chain, and when the indexing stopped at
  // the chain's name; hidden are those with the device's own address, unless it stopped there.
  ghost predicate SenderGrouped(json: ParsedJson, root: Node, s: Setting)
    requires IsRoot(json, root)
  {
    !ExpertOrNotDefault(json, root, s) || !ChainAccepted(json, root)
  }

  ghost predicate SenderHidden(json: ParsedJson, root: Node, s: Setting)
    requires IsRoot(json, root)
  {
    if ChainAccepted(json, root) then IsOwnAddress(s.own, Reference(json, RootLeaves(json, root, ROOT_MSGS), MSG_FROM))
    else s.hideAllBefore
  }

  // Of several messages of one type the type is shown once; of one grouped sender the sender is
  // shown once, or not at all if hidden.
  ghost function MessageRule(json: ParsedJson, root: Node, s: Setting): Rule
    requires IsRoot(json, root)
  {
    var leaves := RootLeaves(json, root, ROOT_MSGS);
    Rule(INDEXING_TMP_SIZE - 1, true, Uniform(json, leaves, MSG_TYPE), FirstAt(leaves, MSG_TYPE),
      Uniform(json, leaves, MSG_FROM) && SenderGrouped(json, root, s), FirstAt(leaves, MSG_FROM),
      SenderHidden(json, root, s))
  }

  // The leaves up to the first with an empty value.
  function BeforeEmpty(json: ParsedJson, leaves: seq<LeafRef>): (r: seq<LeafRef>)
    ensures r <= leaves
    ensures forall leaf :: leaf in r ==> Value(json, leaf) != ""
    ensures |r| < |leaves| ==> Value(json, leaves[|r|]) == ""
  {
    if leaves == [] || Value(json, leaves[0]) == "" then []
    else [leaves[0]] + BeforeEmpty(json, leaves[1..])
  }

  /** The screens of one root field. */
  ghost function Visible(json: ParsedJson, root: Node, s: Setting, r: nat): seq<LeafRef>
    requires IsRoot(json, root)
  {
    var leaves := RootLeaves(json, root, r);
    match r
    case 0 | 1 | 2 => if ExpertOrNotDefault(json, root, s) then leaves else []
    case 3 => Shown(leaves, 0, MessageRule(json, root, s))
    case 4 => BeforeEmpty(json, leaves)
    case 5 => if ExpertOrNotDefault(json, root, s) || leaves == [] then leaves else leaves[..1]
    case _ => leaves
  }

  /** The screens of all root fields from the r-th on. */
  ghost function Screens(json: ParsedJson, root: Node, s: Setting, r: nat): seq<LeafRef>
    requires IsRoot(json, root)
    decreases NUM_ROOTS - r
  {
    if r >= NUM_ROOTS then [] else Visible(json, root, s, r) + Screens(json, root, s, r + 1)
  }

  // ----- How many leaves the grouping rules skip -----

  // Leaves with that path other than the one at idx; the first leaf is the cur-th.
  function Others(leaves: seq<LeafRef>, path: string, cur: nat, idx: int): nat {
    if leaves == [] then 0
    else (if leaves[0].path == path && idx != cur then 1 else 0) + Others(leaves[1..], path, cur + 1, idx)
  }

  lemma {:induction false} OthersAllButFirst(leaves: seq<LeafRef>, path: string, cur: nat, idx: int)
    requires idx < cur || (FirstAt(leaves, path) >= 0 && idx == cur + FirstAt(leaves, path))
      || (FirstAt(leaves, path) == -1)
    ensures Others(leaves, path, cur, idx)
      == if idx < cur || FirstAt(leaves, path) == -1 then Count(leaves, path) else Count(leaves, path) - 1
    ensures FirstAt(leaves, path) == -1 <==> Count(leaves, path) == 0
    decreases leaves
  {
    if leaves != [] { OthersAllButFirst(leaves[1..], path, cur + 1, idx); }
  }

  // A key cut to 29 characters or more is compared with the grouped keys as if it were whole.
  lemma CutKeysCompare(path: string, cap: nat)
    requires cap >= 29
    ensures Take(path, cap) == MSG_TYPE <==> path == MSG_TYPE
    ensures Take(path, cap) == MSG_FROM <==> path == MSG_FROM
  {
    assert |MSG_TYPE| == 9 && |MSG_FROM| == 28;
  }

  lemma {:induction false} ShownLength(leaves: seq<LeafRef>, cur: nat, r: Rule)
    requires r.active && r.keyCap >= 29
    ensures |Shown(leaves, cur, r)|
      + (if r.byType then Others(leaves, MSG_TYPE, cur, r.typeIndex) else 0)
      + (if !r.byFrom then 0 else if r.hideFrom then Count(leaves, MSG_FROM)
        else Others(leaves, MSG_FROM, cur, r.fromIndex))
      == |leaves|
    decreases leaves
  {
    if leaves != [] {
      CutKeysCompare(leaves[0].path, r.keyCap);
      assert MSG_TYPE != MSG_FROM by { assert |MSG_TYPE| != |MSG_FROM|; }
      ShownLength(leaves[1..], cur + 1, r);
    }
  }

  /** Counting and subtracting gives the number of messages' screens: the cached count, less the
      grouped leaves, plus one for each group that still shows its first. */
  lemma {:induction false} GroupedCount(leaves: seq<LeafRef>, r: Rule)
    requires r.active && r.keyCap >= 29
    requires Count(leaves, MSG_TYPE) > 0 ==> r.typeIndex == FirstAt(leaves, MSG_TYPE)
    requires Count(leaves, MSG_FROM) > 0 ==> r.fromIndex == FirstAt(leaves, MSG_FROM)
    ensures |Shown(leaves, 0, r)| == |leaves|
      - (if r.byType && Count(leaves, MSG_TYPE) > 0 then Count(leaves, MSG_TYPE) - 1 else 0)
      - (if r.byFrom && Count(leaves, MSG_FROM) > 0 then Count(leaves, MSG_FROM) - (if r.hideFrom then 0 else 1) else 0)
  {
    ShownLength(leaves, 0, r);
    OthersAllButFirst(leaves, MSG_TYPE, 0, if Count(leaves, MSG_TYPE) > 0 then r.typeIndex else -1);
    OthersAllButFirst(leaves, MSG_FROM, 0, if Count(leaves, MSG_FROM) > 0 then r.fromIndex else -1);
    OthersOfNone(leaves, MSG_TYPE, 0, r.typeIndex);
    OthersOfNone(leaves, MSG_FROM, 0, r.fromIndex);
  }

  lemma {:induction false} OthersOfNone(leaves: seq<LeafRef>, path: string, cur: nat, idx: int)
    ensures Others(leaves, path, cur, idx) <= Count(leaves, path)
    decreases leaves
  {
    if leaves != [] { OthersOfNone(leaves[1..], path, cur + 1, idx); }
  }

  // Rules that agree on every leaf show the same leaves.
  lemma {:induction false} ShownAlike(leaves: seq<LeafRef>, cur: nat, r: Rule, r': Rule)
    requires forall m :: 0 <= m < |leaves| ==> Skips(r, leaves[m].path, cur + m) == Skips(r', leaves[m].path, cur + m)
    ensures Shown(leaves, cur, r) == Shown(leaves, cur, r')
    decreases leaves
  {
    if leaves != [] {
      assert Skips(r, leaves[0].path, cur + 0) == Skips(r', leaves[0].path, cur + 0);
      forall m | 0 <= m < |leaves| - 1
        ensures Skips(r, leaves[1..][m].path, cur + 1 + m) == Skips(r', leaves[1..][m].path, cur + 1 + m)
      {
        assert leaves[1..][m] == leaves[m + 1];
        assert Skips(r, leaves[m + 1].path, cur + (m + 1)) == Skips(r', leaves[m + 1].path, cur + (m + 1));
      }
      ShownAlike(leaves[1..], cur + 1, r, r');
    }
  }

  // ----- Leaves of other root fields are never grouped -----

  predicate AllExtend(leaves: seq<LeafRef>, path: string) {
    forall k :: 0 <= k < |leaves| ==> path <= leaves[k].path
  }

  lemma {:induction false} PathsExtend(json: ParsedJson, n: Node, i: nat, level: nat, depth: nat, path: string)
    requires Hosts(json, i, n) && path != ""
    ensures AllExtend(Leaves(json, n, i, level, depth, path), path)
    decreases n, 1, 0
  {
    hide Laid, Listing, HostsListing;
    if !IsCut(n, level, depth) { ChildPathsExtend(json, n, i, 0, level, depth, path); }
  }

  lemma {:induction false} ChildPathsExtend(json: ParsedJson, n: Node, i: nat, j: nat, level: nat, depth: nat,
                                            path: string)
    requires Hosts(json, i, n) && level > 0 && depth > 0 && path != ""
    ensures AllExtend(ChildLeaves(json, n, i, j, level, depth, path), path)
    decreases n, 0, |Children(n)| - j
  {
    hide Laid, Listing, HostsListing, ChildIndex, Leaves, ChildPath, Visited;
    ChildrenHosted(json, i, n);
    if j < Visited(json, n, i) {
      ChildHosted(json, i, n, j);
      var child := ChildPath(json, n, j, path);
      ChildPathExtends(json, n, j, path);
      PathsExtend(json, Children(n)[j], ChildIndex(n, i, j),
        if n.ObjectNode? then level - 1 else level, depth - 1, child);
      ChildPathsExtend(json, n, i, j + 1, level, depth, path);
    }
  }

  lemma ChildPathExtends(json: ParsedJson, n: Node, j: nat, path: string)
    requires Laid(n) && j < |Children(n)| && path != ""
    ensures path <= ChildPath(json, n, j, path)
  {
    hide Laid;
  }

  lemma OtherNames(r: nat, path: string)
    requires r < NUM_ROOTS && r != ROOT_MSGS && RootName(r) <= path
    ensures path != MSG_TYPE && path != MSG_FROM
  {
    var name := RootName(r);
    assert name[0] == path[0] && name[1] == path[1];
    assert MSG_TYPE[0] == MSG_FROM[0] == 'm' && MSG_TYPE[1] == MSG_FROM[1] == 's';
  }

  lemma {:induction false} OthersShownWhole(json: ParsedJson, root: Node, r: nat, rule: Rule)
    requires IsRoot(json, root) && r < NUM_ROOTS && r != ROOT_MSGS && rule.keyCap >= 29
    ensures Shown(RootLeaves(json, root, r), 0, rule) == RootLeaves(json, root, r)
  {
    hide Hosts, Laid, Leaves, ChildNamed, RootName;
    var leaves := RootLeaves(json, root, r);
    if leaves != [] {
      StartHosted(json, root, r, 0);
      var j := ChildNamed(json, root.keys, RootName(r));
      PathsExtend(json, root.values[j], ChildIndex(root, 0, j), RootMaxLevel(r, false),
        MAX_RECURSION_DEPTH, RootName(r));
      var plain := rule.(active := false);
      forall m | 0 <= m < |leaves| ensures Skips(rule, leaves[m].path, 0 + m) == Skips(plain, leaves[m].path, 0 + m) {
        CutKeysCompare(leaves[m].path, rule.keyCap);
        OtherNames(r, leaves[m].path);
      }
      ShownAlike(leaves, 0, rule, plain);
      NothingSkipped(leaves, 0, plain);
    }
  }

  // The rule as the flags and counters give it: it says the same about the messages' leaves.
  predicate RuleFor(json: ParsedJson, leaves: seq<LeafRef>, rule: Rule, grouped: bool, hidden: bool) {
    && rule.active && rule.keyCap >= 29
    && rule.byType == Uniform(json, leaves, MSG_TYPE)
    && (rule.byType && FirstAt(leaves, MSG_TYPE) >= 0 ==> rule.typeIndex == FirstAt(leaves, MSG_TYPE))
    && rule.byFrom == (Uniform(json, leaves, MSG_FROM) && grouped)
    && (rule.byFrom && FirstAt(leaves, MSG_FROM) >= 0 ==> rule.fromIndex == FirstAt(leaves, MSG_FROM))
    && rule.hideFrom == hidden
  }

  lemma {:induction false} RulesAgree(json: ParsedJson, leaves: seq<LeafRef>, r: Rule, r': Rule, grouped: bool,
                                      hidden: bool)
    requires RuleFor(json, leaves, r, grouped, hidden) && RuleFor(json, leaves, r', grouped, hidden)
    ensures Shown(leaves, 0, r) == Shown(leaves, 0, r')
  {
    hide Uniform, Shown;
    forall m | 0 <= m < |leaves| ensures Skips(r, leaves[m].path, 0 + m) == Skips(r', leaves[m].path, 0 + m) {
      CutKeysCompare(leaves[m].path, r.keyCap);
      CutKeysCompare(leaves[m].path, r'.keyCap);
    }
    ShownAlike(leaves, 0, r, r');
  }

  // ----- Item counts -----

  // The leaves counted for a root field: a memo is counted up to its first empty value.
  ghost function Counted(json: ParsedJson, root: Node, r: nat): seq<LeafRef>
    requires IsRoot(json, root)
  {
    if r == ROOT_MEMO then BeforeEmpty(json, RootLeaves(json, root, r)) else RootLeaves(json, root, r)
  }

  ghost predicate NothingCounted(json: ParsedJson, root: Node)
    requires IsRoot(json, root)
  {
    forall r :: 0 <= r < NUM_ROOTS ==> |Counted(json, root, r)| == 0
  }

  // The number of items of one root field: outside expert mode a fee is taken for one item.
  ghost function Items(json: ParsedJson, root: Node, s: Setting, r: nat): nat
    requires IsRoot(json, root)
  {
    if NothingCounted(json, root) then 0
    else if r == ROOT_FEE && !ExpertOrNotDefault(json, root, s) then 1
    else |Visible(json, root, s, r)|
  }

  // Items of the root fields before the r-th.
  ghost function ItemsBefore(json: ParsedJson, root: Node, s: Setting, r: nat): nat
    requires IsRoot(json, root)
  {
    if r == 0 then 0 else ItemsBefore(json, root, s, r - 1) + Items(json, root, s, r - 1)
  }

  lemma {:induction false} ItemsBeforeGrow(json: ParsedJson, root: Node, s: Setting, q: nat, r: nat)
    requires IsRoot(json, root) && q <= r
    ensures ItemsBefore(json, root, s, q) <= ItemsBefore(json, root, s, r)
    decreases r
  {
    if q < r { ItemsBeforeGrow(json, root, s, q, r - 1); }
  }

  // There is a fee to show, or none is asked for.
  ghost predicate FeeShown(json: ParsedJson, root: Node, s: Setting)
    requires IsRoot(json, root)
  {
    ExpertOrNotDefault(json, root, s) || RootLeaves(json, root, ROOT_FEE) != [] || NothingCounted(json, root)
  }

  lemma {:induction false} ItemsAreScreens(json: ParsedJson, root: Node, s: Setting, r: nat)
    requires IsRoot(json, root) && r < NUM_ROOTS
    ensures Items(json, root, s, r) == |Visible(json, root, s, r)| || (r == ROOT_FEE && !FeeShown(json, root, s))
    ensures r == ROOT_FEE && !FeeShown(json, root, s) ==> Items(json, root, s, r) != |Visible(json, root, s, r)|
  {
    hide IsRoot, RootLeaves, ExpertOrNotDefault;
    if NothingCounted(json, root) {
      assert |Counted(json, root, r)| == 0;
      if r == ROOT_MSGS { ShownNoMore(RootLeaves(json, root, r), 0, MessageRule(json, root, s)); }
    }
  }

  lemma {:induction false} ShownNoMore(leaves: seq<LeafRef>, cur: nat, r: Rule)
    ensures |Shown(leaves, cur, r)| <= |leaves|
    decreases leaves
  {
    if leaves != [] { ShownNoMore(leaves[1..], cur + 1, r); }
  }

  // How many items of the root fields from the q-th up to the r-th have no screen.
  ghost function Blanks(json: ParsedJson, root: Node, s: Setting, q: nat, r: nat): nat
    requires IsRoot(json, root)
  {
    if q <= ROOT_FEE < r && !FeeShown(json, root, s) then 1 else 0
  }

  lemma {:induction false} ScreenAt(json: ParsedJson, root: Node, s: Setting, q: nat, r: nat, k: nat)
    requires IsRoot(json, root) && q <= r < NUM_ROOTS && k < |Visible(json, root, s, r)|
    ensures var i := ItemsBefore(json, root, s, r) - ItemsBefore(json, root, s, q) - Blanks(json, root, s, q, r) + k;
      0 <= i < |Screens(json, root, s, q)| && Screens(json, root, s, q)[i] == Visible(json, root, s, r)[k]
    decreases r - q
  {
    hide IsRoot, Visible, Items, FeeShown;
    ItemsAreScreens(json, root, s, q);
    FeeItems(json, root, s);
    if q < r {
      ScreenAt(json, root, s, q + 1, r, k);
      ItemsBeforeGrow(json, root, s, q + 1, r);
    }
  }

  /** The items are as many as the screens, and one more if a fee without leaves is counted. */
  lemma {:induction false} AsManyItemsAsScreens(json: ParsedJson, root: Node, s: Setting, r: nat)
    requires IsRoot(json, root) && r <= NUM_ROOTS
    ensures ItemsBefore(json, root, s, NUM_ROOTS) - ItemsBefore(json, root, s, r)
      == |Screens(json, root, s, r)| + Blanks(json, root, s, r, NUM_ROOTS)
    decreases NUM_ROOTS - r
  {
    hide IsRoot, Visible, Items, FeeShown;
    FeeItems(json, root, s);
    if r < NUM_ROOTS {
      ItemsAreScreens(json, root, s, r);
      AsManyItemsAsScreens(json, root, s, r + 1);
    }
  }

  lemma AllItems(json: ParsedJson, root: Node, s: Setting)
    requires IsRoot(json, root)
    ensures ItemsBefore(json, root, s, NUM_ROOTS)
      == |Screens(json, root, s, 0)| + if FeeShown(json, root, s) then 0 else 1
  {
    hide IsRoot, Items, Screens, FeeShown;
    AsManyItemsAsScreens(json, root, s, 0);
  }

  // The display index of a fee that has an item and no leaves.
  ghost predicate IsBlank(json: ParsedJson, root: Node, s: Setting, displayIdx: nat)
    requires IsRoot(json, root)
  {
    !FeeShown(json, root, s) && displayIdx == ItemsBefore(json, root, s, ROOT_FEE)
  }

  // Which screen a display index stands for: behind the blank index they are one ahead.
  ghost function ScreenIndex(json: ParsedJson, root: Node, s: Setting, displayIdx: nat): nat
    requires IsRoot(json, root)
  {
    if !FeeShown(json, root, s) && displayIdx > ItemsBefore(json, root, s, ROOT_FEE) then displayIdx - 1 else displayIdx
  }

  /** The item k of the r-th root field has the screen of its display index, unless that is blank. */
  lemma {:induction false} ScreenOfItem(json: ParsedJson, root: Node, s: Setting, r: nat, k: nat)
    requires IsRoot(json, root) && r < NUM_ROOTS && k < Items(json, root, s, r)
    ensures var d := ItemsBefore(json, root, s, r) + k;
      if k < |Visible(json, root, s, r)| then
        && !IsBlank(json, root, s, d) && ScreenIndex(json, root, s, d) < |Screens(json, root, s, 0)|
        && Screens(json, root, s, 0)[ScreenIndex(json, root, s, d)] == Visible(json, root, s, r)[k]
      else IsBlank(json, root, s, d)
  {
    hide IsRoot, Visible, Items, Screens, FeeShown;
    FeeIndex(json, root, s, r, k);
    if k < |Visible(json, root, s, r)| {
      ScreenAt(json, root, s, 0, r, k);
      NextItems(json, root, s, r);
      NextItems(json, root, s, ROOT_FEE);
      if r > ROOT_FEE {
        ItemsBeforeGrow(json, root, s, ROOT_FEE + 1, r);
        FeeItems(json, root, s);
      } else if r < ROOT_FEE {
        ItemsBeforeGrow(json, root, s, r + 1, ROOT_FEE);
      } else {
        FeeItems(json, root, s);
      }
    }
  }

  // What a search in a root field finds for an item is the screen with that index; only a fee
  // without leaves has an item and no screen.
  lemma {:induction false} ItemFound(json: ParsedJson, root: Node, s: Setting, r: nat, k: nat, rule: Rule)
    requires IsRoot(json, root) && r < NUM_ROOTS && k < Items(json, root, s, r)
    requires RuleFor(json, RootLeaves(json, root, ROOT_MSGS), rule, SenderGrouped(json, root, s),
      SenderHidden(json, root, s))
    ensures var shown := Shown(RootLeaves(json, root, r), 0, rule);
      if k < |Visible(json, root, s, r)| then k < |shown| && shown[k] == Visible(json, root, s, r)[k] else k >= |shown|
  {
    hide IsRoot, RootLeaves, ExpertOrNotDefault, SenderGrouped, SenderHidden, Shown, RuleFor, NothingCounted;
    if r == ROOT_MSGS {
      RuleIsFor(json, root, s);
      RulesAgree(json, RootLeaves(json, root, r), rule, MessageRule(json, root, s), SenderGrouped(json, root, s),
        SenderHidden(json, root, s));
    } else {
      KeyCapOf(json, RootLeaves(json, root, ROOT_MSGS), rule, SenderGrouped(json, root, s),
        SenderHidden(json, root, s));
      OthersShownWhole(json, root, r, rule);
    }
  }

  lemma {:induction false} RuleIsFor(json: ParsedJson, root: Node, s: Setting)
    requires IsRoot(json, root)
    ensures RuleFor(json, RootLeaves(json, root, ROOT_MSGS), MessageRule(json, root, s), SenderGrouped(json, root, s),
      SenderHidden(json, root, s))
  {
    hide IsRoot, RootLeaves, SenderGrouped, SenderHidden, Uniform;
  }

  lemma KeyCapOf(json: ParsedJson, leaves: seq<LeafRef>, rule: Rule, grouped: bool, hidden: bool)
    requires RuleFor(json, leaves, rule, grouped, hidden)
    ensures rule.keyCap >= 29
  {
  }

  // When the fee has an item and no screen, its display index is the one that has no screen.
  lemma {:induction false} FeeIndex(json: ParsedJson, root: Node, s: Setting, r: nat, k: nat)
    requires IsRoot(json, root) && r < NUM_ROOTS && k < Items(json, root, s, r)
    ensures k >= |Visible(json, root, s, r)| <==>
      !FeeShown(json, root, s) && ItemsBefore(json, root, s, r) + k == ItemsBefore(json, root, s, ROOT_FEE)
  {
    hide IsRoot, Visible, Items, ItemsBefore, FeeShown;
    ItemsAreScreens(json, root, s, r);
    if r == ROOT_FEE {
      FeeItems(json, root, s);
    } else if r < ROOT_FEE {
      NextItems(json, root, s, r);
      ItemsBeforeGrow(json, root, s, r + 1, ROOT_FEE);
    } else {
      NextItems(json, root, s, ROOT_FEE);
      ItemsBeforeGrow(json, root, s, ROOT_FEE + 1, r);
      if !FeeShown(json, root, s) { FeeItems(json, root, s); }
    }
  }

  lemma {:induction false} NextItems(json: ParsedJson, root: Node, s: Setting, r: nat)
    requires IsRoot(json, root)
    ensures ItemsBefore(json, root, s, r + 1) == ItemsBefore(json, root, s, r) + Items(json, root, s, r)
  {
    hide IsRoot, Items;
  }

  lemma {:induction false} FeeItems(json: ParsedJson, root: Node, s: Setting)
    requires IsRoot(json, root)
    ensures !FeeShown(json, root, s) ==>
      Items(json, root, s, ROOT_FEE) == 1 && |Visible(json, root, s, ROOT_FEE)| == 0
  {
    hide IsRoot, RootLeaves, ExpertOrNotDefault;
  }
}
