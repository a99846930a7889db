/**
 * The screens show every leaf of the root fields that is not hidden, once each and in order;
 * and exactly when the traversal visits every leaf that the tree has.
 */
module TxCoverage {
  import opened Jsmn
  import opened JsmnPrinter
  import opened JsonText
  import opened JsonTree
  import opened JsonNav
  import opened TxLeaves
  import opened TxParser
  import opened TxScreens

  // ----- Order within a root field -----

  lemma {:induction false} ShownIncreases(leaves: seq<LeafRef>, cur: nat, r: Rule, lo: nat, hi: nat)
    requires Increasing(leaves, lo, hi)
    ensures Increasing(Shown(leaves, cur, r), lo, hi)
    decreases leaves
  {
    hide Skips;
    if leaves != [] {
      var rest := leaves[1..];
      forall k | 0 <= k < |rest| ensures leaves[0].index + 1 <= rest[k].index { assert rest[k] == leaves[k + 1]; }
      assert Increasing(rest, leaves[0].index + 1, hi);
      ShownIncreases(rest, cur + 1, r, leaves[0].index + 1, hi);
    }
  }

  // A root field's place among the tokens.
  ghost function Place(json: ParsedJson, root: Node, r: nat): (nat, nat)
    requires IsRoot(json, root) && Laid(root)
  {
    var j := ChildNamed(json, root.keys, RootName(r));
    if j == -1 then (0, 0) else (ChildIndex(root, 0, j), ChildEnd(root, 0, j))
  }

  lemma {:induction false} RootLeavesInPlace(json: ParsedJson, root: Node, r: nat)
    requires IsRoot(json, root)
    ensures Laid(root) && Increasing(RootLeaves(json, root, r), Place(json, root, r).0, Place(json, root, r).1)
  {
    hide Hosts, Laid, Leaves, ChildNamed;
    RootLaid(json, root);
    var j := ChildNamed(json, root.keys, RootName(r));
    if j >= 0 {
      StartHosted(json, root, r, 0);
      LeavesIncrease(json, root.values[j], ChildIndex(root, 0, j), RootMaxLevel(r, false),
        MAX_RECURSION_DEPTH, RootName(r));
    }
  }

  lemma RootLaid(json: ParsedJson, root: Node)
    requires IsRoot(json, root)
    ensures Laid(root)
  {
    hide Laid;
  }

  lemma {:induction false} VisibleIncreases(json: ParsedJson, root: Node, s: Setting, r: nat)
    requires IsRoot(json, root)
    ensures Laid(root) && Increasing(Visible(json, root, s, r), Place(json, root, r).0, Place(json, root, r).1)
  {
    hide IsRoot, RootLeaves, ExpertOrNotDefault, Shown, Laid, Place, MessageRule;
    RootLeavesInPlace(json, root, r);
    ShownIncreases(RootLeaves(json, root, r), 0, MessageRule(json, root, s), Place(json, root, r).0,
      Place(json, root, r).1);
  }

  // ----- Root fields lie apart -----

  lemma {:induction false} ChildrenApart(n: Node, i: nat, j: nat, k: nat)
    requires Laid(n) && j < k < |Children(n)|
    ensures ChildEnd(n, i, j) <= ChildIndex(n, i, k)
    decreases k - j
  {
    hide Laid, ChildIndex;
    ChildInOrder(n, i, j);
    if j + 1 < k {
      ChildrenApart(n, i, j + 1, k);
      ChildInOrder(n, i, j + 1);
    }
  }

  predicate Apart(p: (nat, nat), q: (nat, nat)) {
    p.1 <= q.0 || q.1 <= p.0
  }

  lemma RootNamesDiffer(q: nat, r: nat)
    requires q < r < NUM_ROOTS
    ensures RootName(q) != RootName(r)
  {
    assert RootName(q)[0..2] != RootName(r)[0..2] by {
      assert RootName(q)[0] != RootName(r)[0] || RootName(q)[1] != RootName(r)[1];
    }
  }

  lemma {:induction false} PlacesApart(json: ParsedJson, root: Node, q: nat, r: nat)
    requires IsRoot(json, root) && Laid(root) && q < r < NUM_ROOTS
    ensures Apart(Place(json, root, q), Place(json, root, r))
  {
    hide Hosts, Laid, ChildIndex, ChildEnd, ChildNamed, RootName;
    var j, k := ChildNamed(json, root.keys, RootName(q)), ChildNamed(json, root.keys, RootName(r));
    RootNamesDiffer(q, r);
    if j >= 0 && k >= 0 {
      assert j != k;
      if j < k { ChildrenApart(root, 0, j, k); } else { ChildrenApart(root, 0, k, j); }
    }
  }

  // ----- The screens are distinct -----

  // Where the k-th screen comes from.
  lemma {:induction false} ScreenOrigin(json: ParsedJson, root: Node, s: Setting, q: nat, k: nat)
    returns (r: nat, m: nat)
    requires IsRoot(json, root) && k < |Screens(json, root, s, q)|
    ensures q <= r < NUM_ROOTS && m < |Visible(json, root, s, r)|
    ensures Screens(json, root, s, q)[k] == Visible(json, root, s, r)[m]
    ensures k < |Visible(json, root, s, q)| ==> r == q && m == k
    ensures k >= |Visible(json, root, s, q)| ==> r > q
    decreases NUM_ROOTS - q
  {
    hide IsRoot, Visible;
    if k < |Visible(json, root, s, q)| {
      r, m := q, k;
    } else {
      r, m := ScreenOrigin(json, root, s, q + 1, k - |Visible(json, root, s, q)|);
    }
  }

  /** No two screens show the same token; those of one root field are in document order. */
  lemma {:induction false} ScreensDistinct(json: ParsedJson, root: Node, s: Setting, q: nat, k: nat, l: nat)
    requires IsRoot(json, root) && k < l < |Screens(json, root, s, q)|
    ensures Screens(json, root, s, q)[k].index != Screens(json, root, s, q)[l].index
    ensures l < |Visible(json, root, s, q)| ==> Screens(json, root, s, q)[k].index < Screens(json, root, s, q)[l].index
    decreases NUM_ROOTS - q
  {
    hide IsRoot, Visible, Place, Laid;
    var c := |Visible(json, root, s, q)|;
    if k >= c {
      ScreensDistinct(json, root, s, q + 1, k - c, l - c);
    } else {
      var r, m := ScreenOrigin(json, root, s, q, l);
      VisibleIncreases(json, root, s, q);
      VisibleIncreases(json, root, s, r);
      if r > q { PlacesApart(json, root, q, r); }
    }
  }

  // ----- Which leaves are hidden -----

  // Is the m-th leaf of a root field hidden, by the mode, by grouping, or behind an empty memo?
  ghost predicate Hidden(json: ParsedJson, root: Node, s: Setting, r: nat, m: nat)
    requires IsRoot(json, root) && m < |RootLeaves(json, root, r)|
  {
    var leaves := RootLeaves(json, root, r);
    match r
    case 0 | 1 | 2 => !ExpertOrNotDefault(json, root, s)
    case 3 =>
      || (Uniform(json, leaves, MSG_TYPE) && leaves[m].path == MSG_TYPE && m != FirstAt(leaves, MSG_TYPE))
      || (Uniform(json, leaves, MSG_FROM) && SenderGrouped(json, root, s) && leaves[m].path == MSG_FROM
          && (m != FirstAt(leaves, MSG_FROM) || SenderHidden(json, root, s)))
    case 4 => exists l :: 0 <= l <= m && Value(json, leaves[l]) == ""
    case 5 => !ExpertOrNotDefault(json, root, s) && m > 0
    case _ => false
  }

  lemma {:induction false} ShownMembers(leaves: seq<LeafRef>, cur: nat, r: Rule, m: nat)
    requires m < |leaves| && !Skips(r, leaves[m].path, cur + m)
    ensures leaves[m] in Shown(leaves, cur, r)
    decreases leaves
  {
    if m > 0 { ShownMembers(leaves[1..], cur + 1, r, m - 1); }
  }

  lemma {:induction false} ShownOnly(leaves: seq<LeafRef>, cur: nat, r: Rule, k: nat) returns (m: nat)
    requires k < |Shown(leaves, cur, r)|
    ensures m < |leaves| && Shown(leaves, cur, r)[k] == leaves[m] && !Skips(r, leaves[m].path, cur + m)
    decreases leaves
  {
    var skipped := Skips(r, leaves[0].path, cur);
    if !skipped && k == 0 {
      m := 0;
    } else {
      m := ShownOnly(leaves[1..], cur + 1, r, if skipped then k else k - 1);
      m := m + 1;
    }
  }

  lemma {:induction false} SkippedIsHidden(json: ParsedJson, root: Node, s: Setting, m: nat)
    requires IsRoot(json, root) && m < |RootLeaves(json, root, ROOT_MSGS)|
    ensures Skips(MessageRule(json, root, s), RootLeaves(json, root, ROOT_MSGS)[m].path, m) <==>
      Hidden(json, root, s, ROOT_MSGS, m)
  {
    hide IsRoot, RootLeaves, ExpertOrNotDefault, SenderGrouped, SenderHidden, Value;
    CutKeysCompare(RootLeaves(json, root, ROOT_MSGS)[m].path, INDEXING_TMP_SIZE - 1);
  }

  lemma {:induction false} VisibleExactly(json: ParsedJson, root: Node, s: Setting, r: nat, m: nat)
    requires IsRoot(json, root) && r < NUM_ROOTS && m < |RootLeaves(json, root, r)|
    ensures RootLeaves(json, root, r)[m] in Visible(json, root, s, r) <==> !Hidden(json, root, s, r, m)
  {
    hide IsRoot, RootLeaves, ExpertOrNotDefault, Place, Laid, MessageRule, Skips, Shown;
    var leaves, visible := RootLeaves(json, root, r), Visible(json, root, s, r);
    RootLeavesInPlace(json, root, r);
    if r == ROOT_MSGS {
      SkippedIsHidden(json, root, s, m);
      MessageVisible(leaves, MessageRule(json, root, s), Place(json, root, r).0, Place(json, root, r).1, m);
    } else if r == ROOT_MEMO {
      MemoVisible(json, leaves, Place(json, root, r).0, Place(json, root, r).1, m);
    }
  }

  lemma {:induction false} MessageVisible(leaves: seq<LeafRef>, rule: Rule, lo: nat, hi: nat, m: nat)
    requires Increasing(leaves, lo, hi) && m < |leaves|
    ensures leaves[m] in Shown(leaves, 0, rule) <==> !Skips(rule, leaves[m].path, m)
  {
    hide Skips, Shown;
    if !Skips(rule, leaves[m].path, m) { ShownMembers(leaves, 0, rule, m); }
    if leaves[m] in Shown(leaves, 0, rule) {
      var k :| 0 <= k < |Shown(leaves, 0, rule)| && Shown(leaves, 0, rule)[k] == leaves[m];
      var l := ShownOnly(leaves, 0, rule, k);
      assert l == m;
    }
  }

  lemma {:induction false} MemoVisible(json: ParsedJson, leaves: seq<LeafRef>, lo: nat, hi: nat, m: nat)
    requires Increasing(leaves, lo, hi) && m < |leaves|
    ensures leaves[m] in BeforeEmpty(json, leaves) <==> forall l :: 0 <= l <= m ==> Value(json, leaves[l]) != ""
  {
    hide BeforeEmpty, Value;
    var r := BeforeEmpty(json, leaves);
    assert r == leaves[..|r|];
    forall l | 0 <= l < |r| ensures Value(json, leaves[l]) != "" { assert r[l] == leaves[l] && r[l] in r; }
    if m < |r| { assert r[m] == leaves[m]; }
  }

  lemma {:induction false} VisibleOnScreen(json: ParsedJson, root: Node, s: Setting, q: nat, r: nat, leaf: LeafRef)
    requires IsRoot(json, root) && q <= r < NUM_ROOTS && leaf in Visible(json, root, s, r)
    ensures leaf in Screens(json, root, s, q)
    decreases r - q
  {
    hide IsRoot, Visible;
    if q < r { VisibleOnScreen(json, root, s, q + 1, r, leaf); }
  }

  /** A leaf of a root field has a screen exactly when it is not hidden. */
  lemma {:induction false} ScreensCover(json: ParsedJson, root: Node, s: Setting, r: nat, m: nat)
    requires IsRoot(json, root) && r < NUM_ROOTS && m < |RootLeaves(json, root, r)|
    ensures RootLeaves(json, root, r)[m] in Screens(json, root, s, 0) <==> !Hidden(json, root, s, r, m)
  {
    hide IsRoot, Visible, RootLeaves, Screens, Hidden, Place, Laid;
    var leaf := RootLeaves(json, root, r)[m];
    VisibleExactly(json, root, s, r, m);
    if !Hidden(json, root, s, r, m) { VisibleOnScreen(json, root, s, 0, r, leaf); }
    if leaf in Screens(json, root, s, 0) {
      var k :| 0 <= k < |Screens(json, root, s, 0)| && Screens(json, root, s, 0)[k] == leaf;
      var q, l := ScreenOrigin(json, root, s, 0, k);
      RootLeavesInPlace(json, root, r);
      VisibleIncreases(json, root, s, q);
      if q < r { PlacesApart(json, root, q, r); }
      if r < q { PlacesApart(json, root, r, q); }
      assert q == r;
    }
  }

  // ----- What a hidden leaf says -----

  // A leaf's whole text, of which grouping compares the first page as it is shown.
  function LeafText(json: ParsedJson, leaf: LeafRef): string {
    if leaf.index < |json.tokens| then TokenText(json, json.tokens[leaf.index]) else ""
  }

  function BehindFirstPage(s: string): string {
    if |s| < INDEXING_TMP_SIZE then "" else s[INDEXING_TMP_SIZE - 1..]
  }

  predicate Substituted(s: string) {
    Substitute(s) != s
  }

  // The forms differ in length or in their first letters.
  function Unsubstitute(s: string): string
    requires s != ""
  {
    match |s|
    case 4 => if s[0] == 'S' then "cosmos-sdk/MsgSend" else "cosmos-sdk/MsgVote"
    case 7 => if s[0] == 'P' then "cosmos-sdk/MsgSubmitProposal" else "cosmos-sdk/MsgDeposit"
    case 8 => "cosmos-sdk/MsgDelegate"
    case 10 =>
      if s[0] == 'U' then "cosmos-sdk/MsgUndelegate"
      else if s[0] == 'R' then "cosmos-sdk/MsgBeginRedelegate" else MULTI_SEND
    case 15 => "cosmos-sdk/MsgWithdrawDelegationReward"
    case 20 => "cosmos-sdk/MsgSetWithdrawAddress"
    case _ => "cosmos-sdk/MsgWithdrawValidatorCommission"
  }

  lemma FormsDiffer()
    ensures Unsubstitute("Send") == "cosmos-sdk/MsgSend" && Unsubstitute("Vote") == "cosmos-sdk/MsgVote"
    ensures Unsubstitute("Propose") == "cosmos-sdk/MsgSubmitProposal"
      && Unsubstitute("Deposit") == "cosmos-sdk/MsgDeposit"
    ensures Unsubstitute("Delegate") == "cosmos-sdk/MsgDelegate"
    ensures Unsubstitute("Undelegate") == "cosmos-sdk/MsgUndelegate"
    ensures Unsubstitute("Redelegate") == "cosmos-sdk/MsgBeginRedelegate"
    ensures Unsubstitute("Multi Send") == MULTI_SEND
    ensures Unsubstitute("Withdraw Reward") == "cosmos-sdk/MsgWithdrawDelegationReward"
    ensures Unsubstitute("Withdraw Set Address") == "cosmos-sdk/MsgSetWithdrawAddress"
    ensures Unsubstitute("Withdraw Val. Commission") == "cosmos-sdk/MsgWithdrawValidatorCommission"
  {
  }

  /** The eleven message types are shown as words, and nothing else is shown in another form. */
  lemma SubstitutedNames(s: string)
    ensures Substituted(s) <==> s in [
      "cosmos-sdk/MsgSend", "cosmos-sdk/MsgDelegate", "cosmos-sdk/MsgUndelegate", "cosmos-sdk/MsgBeginRedelegate",
      "cosmos-sdk/MsgSubmitProposal", "cosmos-sdk/MsgDeposit", "cosmos-sdk/MsgVote",
      "cosmos-sdk/MsgWithdrawDelegationReward", "cosmos-sdk/MsgWithdrawValidatorCommission",
      "cosmos-sdk/MsgSetWithdrawAddress", "cosmos-sdk/MsgMultiSend"]
  {
  }

  lemma SubstitutionsDiffer(s: string)
    requires Substituted(s)
    ensures Substitute(s) != "" && Unsubstitute(Substitute(s)) == s && |Substitute(s)| < INDEXING_TMP_SIZE
  {
    hide Unsubstitute;
    FormsDiffer();
  }

  /** Texts shown with the same first page are equal exactly if they agree behind it, and both or
      neither of them are names that are shown in another form. */
  lemma FirstPageDecides(s: string, t: string)
    requires Take(Substitute(s), INDEXING_TMP_SIZE - 1) == Take(Substitute(t), INDEXING_TMP_SIZE - 1)
    ensures s == t <==> BehindFirstPage(s) == BehindFirstPage(t) && (Substituted(s) <==> Substituted(t))
  {
    hide Substitute, Unsubstitute;
    var n := INDEXING_TMP_SIZE - 1;
    if Substituted(s) && Substituted(t) {
      SubstitutionsDiffer(s);
      SubstitutionsDiffer(t);
    } else if !Substituted(s) && !Substituted(t) && BehindFirstPage(s) == BehindFirstPage(t) {
      assert s == Take(s, n) + BehindFirstPage(s) && t == Take(t, n) + BehindFirstPage(t);
    }
  }

  /** So does a leaf hidden by grouping have the very text of the first leaf of its group. */
  lemma {:induction false} HiddenText(json: ParsedJson, root: Node, s: Setting, m: nat)
    requires IsRoot(json, root) && m < |RootLeaves(json, root, ROOT_MSGS)| && Hidden(json, root, s, ROOT_MSGS, m)
    ensures var leaves := RootLeaves(json, root, ROOT_MSGS);
      var k := FirstAt(leaves, leaves[m].path);
      && 0 <= k <= m && leaves[k].path == leaves[m].path && Value(json, leaves[k]) == Value(json, leaves[m])
      && var shown, hidden := LeafText(json, leaves[k]), LeafText(json, leaves[m]);
         hidden == shown <==>
           BehindFirstPage(hidden) == BehindFirstPage(shown) && (Substituted(hidden) <==> Substituted(shown))
  {
    hide IsRoot, RootLeaves, SenderGrouped, SenderHidden, Substituted, BehindFirstPage, Substitute, TokenText;
    var leaves := RootLeaves(json, root, ROOT_MSGS);
    var k := FirstAt(leaves, leaves[m].path);
    EmptyHasNoForm();
    FirstPageDecides(LeafText(json, leaves[m]), LeafText(json, leaves[k]));
  }

  lemma EmptyHasNoForm()
    ensures Substitute("") == ""
  {
  }

  // ----- What the traversal reaches -----

  // All leaves of the tree above the same cut, whatever the scans count.
  function AllLeaves(json: ParsedJson, n: Node, i: nat, level: nat, depth: nat, path: string): seq<LeafRef>
    requires Laid(n)
    decreases n, 1, 0
  {
    if IsCut(n, level, depth) then [LeafRef(i, path)] else AllChildLeaves(json, n, i, 0, level, depth, path)
  }

  function AllChildLeaves(json: ParsedJson, n: Node, i: nat, j: nat, level: nat, depth: nat, path: string): seq<LeafRef>
    requires Laid(n) && level > 0 && depth > 0
    decreases n, 0, |Children(n)| - j
  {
    if j >= |Children(n)| then []
    else
      ChildLaid(n, j);
      AllLeaves(json, Children(n)[j], ChildIndex(n, i, j), if n.ObjectNode? then level - 1 else level, depth - 1,
        ChildPath(json, n, j, path))
      + AllChildLeaves(json, n, i, j + 1, level, depth, path)
  }

  lemma {:induction false} ChildLaid(n: Node, j: nat)
    requires Laid(n) && j < |Children(n)|
    ensures Laid(Children(n)[j])
  {
    match n
    case ArrayNode(t, xs) => ItemLaid(xs, t.start, t.end, j);
    case ObjectNode(t, ks, vs) => ValueLaid(ks, vs, t.start, t.end, j);
  }

  lemma {:induction false} ItemLaid(xs: seq<Node>, a: int, b: int, j: nat)
    requires ItemsLaid(xs, a, b) && j < |xs|
    ensures Laid(xs[j])
    decreases j
  {
    if j > 0 { ItemLaid(xs[1..], xs[0].tok.end, b, j - 1); }
  }

  lemma {:induction false} ValueLaid(ks: seq<Token>, vs: seq<Node>, a: int, b: int, j: nat)
    requires |ks| == |vs| && EntriesLaid(ks, vs, a, b) && j < |vs|
    ensures Laid(vs[j])
    decreases j
  {
    if j > 0 { ValueLaid(ks[1..], vs[1..], vs[0].tok.end, b, j - 1); }
  }

  // How many of its children the traversal visits: all of an object's, and as many of an array's
  // as the object count of its tokens says.
  function Reach(n: Node): (c: nat)
    ensures c <= |Children(n)|
  {
    if n.ArrayNode? && PairCount(n) < |n.items| then PairCount(n) else |Children(n)|
  }

  lemma {:induction false} VisitedIsReach(json: ParsedJson, n: Node, i: nat)
    requires Hosts(json, i, n) && !n.Leaf?
    ensures i < json.numberOfTokens && Visited(json, n, i) == Reach(n)
  {
    hide Hosts, Laid, PairCount;
    match n
    case ArrayNode(_, _) => ObjectCountOfArray(json, i, n);
    case ObjectNode(_, _, _) => KeysOfObject(json, i, n);
  }

  // Nothing above the cut is a leaf.
  predicate Barren(n: Node, level: nat, depth: nat)
    decreases n
  {
    !IsCut(n, level, depth) && BarrenFrom(n, 0, level, depth)
  }

  predicate BarrenFrom(n: Node, j: nat, level: nat, depth: nat)
    requires level > 0 && depth > 0
    decreases n, 0
  {
    forall k :: j <= k < |Children(n)| ==> Barren(Children(n)[k], if n.ObjectNode? then level - 1 else level, depth - 1)
  }

  // Every child above the cut is visited or has no leaves.
  predicate Complete(n: Node, level: nat, depth: nat)
    decreases n
  {
    IsCut(n, level, depth) || CompleteFrom(n, 0, level, depth)
  }

  predicate CompleteFrom(n: Node, j: nat, level: nat, depth: nat)
    requires level > 0 && depth > 0
    decreases n, 0
  {
    forall k :: j <= k < |Children(n)| ==>
      var level' := if n.ObjectNode? then level - 1 else level;
      if k < Reach(n) then Complete(Children(n)[k], level', depth - 1) else Barren(Children(n)[k], level', depth - 1)
  }

  lemma {:induction false} BarrenHasNone(json: ParsedJson, n: Node, i: nat, level: nat, depth: nat, path: string)
    requires Laid(n)
    ensures AllLeaves(json, n, i, level, depth, path) == [] <==> Barren(n, level, depth)
    decreases n, 1, 0
  {
    hide Laid, AllChildLeaves, BarrenFrom;
    if !IsCut(n, level, depth) { NoChildHasAny(json, n, i, 0, level, depth, path); }
  }

  lemma {:induction false} NoChildHasAny(json: ParsedJson, n: Node, i: nat, j: nat, level: nat, depth: nat,
                                         path: string)
    requires Laid(n) && level > 0 && depth > 0
    ensures AllChildLeaves(json, n, i, j, level, depth, path) == [] <==> BarrenFrom(n, j, level, depth)
    decreases n, 0, |Children(n)| - j
  {
    hide Laid, AllLeaves, Barren, ChildIndex, ChildPath;
    if j < |Children(n)| {
      ChildLaid(n, j);
      BarrenHasNone(json, Children(n)[j], ChildIndex(n, i, j), if n.ObjectNode? then level - 1 else level, depth - 1,
        ChildPath(json, n, j, path));
      NoChildHasAny(json, n, i, j + 1, level, depth, path);
    }
  }

  // How the leaves visited compare with all there are.
  predicate Compares(some: seq<LeafRef>, all: seq<LeafRef>, complete: bool) {
    if complete then some == all else |some| < |all|
  }

  lemma {:induction false} LeavesCompare(json: ParsedJson, n: Node, i: nat, level: nat, depth: nat, path: string)
    requires Hosts(json, i, n)
    ensures Compares(Leaves(json, n, i, level, depth, path), AllLeaves(json, n, i, level, depth, path),
      Complete(n, level, depth))
    decreases n, 1, 0
  {
    hide Laid, HostsListing, Listing, CompleteFrom, ChildLeaves, AllChildLeaves;
    if !IsCut(n, level, depth) { ChildLeavesCompare(json, n, i, 0, level, depth, path); }
  }

  lemma {:induction false} ChildLeavesCompare(json: ParsedJson, n: Node, i: nat, j: nat, level: nat, depth: nat,
                                              path: string)
    requires Hosts(json, i, n) && !IsCut(n, level, depth)
    ensures Compares(ChildLeaves(json, n, i, j, level, depth, path), AllChildLeaves(json, n, i, j, level, depth, path),
      CompleteFrom(n, j, level, depth))
    decreases n, 0, |Children(n)| - j
  {
    hide Laid, HostsListing, Listing, Visited, Reach, Leaves, AllLeaves, Complete, Barren, ChildIndex, ChildPath;
    VisitedIsReach(json, n, i);
    NoChildHasAny(json, n, i, j, level, depth, path);
    if j < Reach(n) {
      ChildHosted(json, i, n, j);
      LeavesCompare(json, Children(n)[j], ChildIndex(n, i, j), if n.ObjectNode? then level - 1 else level, depth - 1,
        ChildPath(json, n, j, path));
      ChildLeavesCompare(json, n, i, j + 1, level, depth, path);
    }
  }

  /** The traversal visits every leaf of the tree above the cut exactly if the pair count of each
      array there that it visits reaches all its elements with leaves. */
  lemma {:induction false} VisitsAllLeaves(json: ParsedJson, n: Node, i: nat, level: nat, depth: nat, path: string)
    requires Hosts(json, i, n)
    ensures Leaves(json, n, i, level, depth, path) == AllLeaves(json, n, i, level, depth, path) <==>
      Complete(n, level, depth)
  {
    hide Hosts, Laid, Leaves, AllLeaves, Complete;
    LeavesCompare(json, n, i, level, depth, path);
  }

  // Arrays above the cut hold nothing but non-empty containers.
  predicate Explorable(n: Node, level: nat, depth: nat)
    decreases n
  {
    IsCut(n, level, depth) ||
    match n
    case ArrayNode(_, xs) => forall j :: 0 <= j < |xs| ==>
      NonEmptyContainer(xs[j]) && Explorable(xs[j], level, depth - 1)
    case ObjectNode(_, _, vs) => forall j :: 0 <= j < |vs| ==> Explorable(vs[j], level - 1, depth - 1)
  }

  lemma {:induction false} ExplorableIsComplete(n: Node, level: nat, depth: nat)
    requires Laid(n) && Explorable(n, level, depth)
    ensures Complete(n, level, depth)
    decreases n
  {
    hide Laid, ItemsLaid, PairCount, NonEmptyContainer;
    if !IsCut(n, level, depth) {
      if n.ArrayNode? { ArrayReached(n); }
      forall k | 0 <= k < |Children(n)|
        ensures Complete(Children(n)[k], if n.ObjectNode? then level - 1 else level, depth - 1) {
        ChildLaid(n, k);
        ExplorableIsComplete(Children(n)[k], if n.ObjectNode? then level - 1 else level, depth - 1);
      }
    }
  }

  lemma ArrayReached(n: Node)
    requires Laid(n) && n.ArrayNode? && forall j :: 0 <= j < |n.items| ==> NonEmptyContainer(n.items[j])
    ensures Reach(n) == |n.items|
  {
    hide PairsOfItems, NonEmptyContainer;
    PairsCoverItems(n.items, n.tok.start, n.tok.end, false);
  }

  /** So where arrays above the cut hold only non-empty containers the traversal misses nothing. */
  lemma {:induction false} NothingMissed(json: ParsedJson, n: Node, i: nat, level: nat, depth: nat, path: string)
    requires Hosts(json, i, n) && Explorable(n, level, depth)
    ensures Leaves(json, n, i, level, depth, path) == AllLeaves(json, n, i, level, depth, path)
  {
    hide Laid, HostsListing, Leaves, AllLeaves, Complete, Explorable;
    ExplorableIsComplete(n, level, depth);
    VisitsAllLeaves(json, n, i, level, depth, path);
  }

  /** The leaves of a root field are all that the tree has exactly if the field is complete; then
      each of them is on a screen unless hidden. */
  lemma {:induction false} EveryLeafOnScreen(json: ParsedJson, root: Node, s: Setting, r: nat, j: nat, m: nat)
    requires IsRoot(json, root) && r < NUM_ROOTS && j == ChildNamed(json, root.keys, RootName(r))
    ensures Laid(root) && Laid(root.values[j])
    ensures var leaves := AllLeaves(json, root.values[j], ChildIndex(root, 0, j), RootMaxLevel(r, false),
        MAX_RECURSION_DEPTH, RootName(r));
      var complete := Complete(root.values[j], RootMaxLevel(r, false), MAX_RECURSION_DEPTH);
      && (leaves == RootLeaves(json, root, r) <==> complete)
      && (complete && m < |leaves| ==> (leaves[m] in Screens(json, root, s, 0) <==> !Hidden(json, root, s, r, m)))
  {
    hide HostsListing, Laid, Complete, AllLeaves, Leaves, Screens, Hidden, ChildIndex;
    StartHosted(json, root, r, 0);
    VisitsAllLeaves(json, root.values[j], ChildIndex(root, 0, j), RootMaxLevel(r, false),
      MAX_RECURSION_DEPTH, RootName(r));
    if m < |RootLeaves(json, root, r)| { ScreensCover(json, root, s, r, m); }
  }

  /** Of an array of strings and primitives above the cut it reaches only the first half. */
  lemma {:induction false} HalfMissed(json: ParsedJson, n: Node, i: nat, level: nat, depth: nat, path: string)
    requires Hosts(json, i, n) && n.ArrayNode? && level > 0 && depth > 0
    requires forall j :: 0 <= j < |n.items| ==> n.items[j].Leaf?
    ensures |Leaves(json, n, i, level, depth, path)| == (|n.items| + 1) / 2
  {
    hide Laid, HostsListing;
    ObjectCountHalvesLeaves(json, i, n);
    OneLeafEach(json, n, i, 0, level, depth, path);
  }

  lemma {:induction false} OneLeafEach(json: ParsedJson, n: Node, i: nat, j: nat, level: nat, depth: nat, path: string)
    requires Hosts(json, i, n) && n.ArrayNode? && level > 0 && depth > 0 && i < json.numberOfTokens
    requires j <= Visited(json, n, i) && forall j :: 0 <= j < |n.items| ==> n.items[j].Leaf?
    ensures |ChildLeaves(json, n, i, j, level, depth, path)| == Visited(json, n, i) - j
    decreases Visited(json, n, i) - j
  {
    hide Laid, HostsListing, Visited, ChildIndex;
    if j < Visited(json, n, i) {
      ChildHosted(json, i, n, j);
      OneLeafEach(json, n, i, j + 1, level, depth, path);
    }
  }

  /** The tokens of a JSON object's text, as the tokenizer lists them, are a transaction's root. */
  lemma {:induction false} PrintedObjectIsRoot(x: Json, json: ParsedJson, capacity: nat)
    requires WellFormed(x) && IsObject(x) && Usable(json)
    ensures var r := Run(Print(x), START, capacity);
      r.Done? && json.tokens[..json.numberOfTokens] == r.st.toks ==> IsRoot(json, TreeOf(x, 0))
  {
    hide Run, Laid, Listing, TreeOf, Print, Flat;
    TokenizerInvertsPrinter(x, capacity);
    if json.tokens[..json.numberOfTokens] == Flat(x, 0) { PrintedTreeHosted(x, json); }
    ObjectTree(x, 0);
  }
}
