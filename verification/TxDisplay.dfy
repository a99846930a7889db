/**
 * Indexing a transaction for display and answering display queries: each index below the
 * number of items brings one leaf, in the order of TxScreens.Screens.
 */
module TxDisplay {
  import opened JsonTree
  import opened JsonNav
  import opened ParserErrors
  import opened TxLeaves
  import opened TxParser
  import opened TxScreens

  // ----- Grouping, leaf by leaf -----

  // What is known about the leaves of one grouped path: whether they still all agree, how many
  // there are, where the first is and what its value is. The count is an 8-bit counter.
  datatype Group = Group(enabled: bool, count: nat, first: int, reference: string)

  function GroupStep(g: Group, member: bool, val: string, idx: nat): Group {
    if !g.enabled || !member then g
    else
      var g1 := if g.count == 0 then g.(reference := val, first := idx) else g;
      if g1.reference != val then g1.(enabled := false, count := 1)
      else g1.(count := (g1.count + 1) % 256)
  }

  // Exact as long as the counter does not wrap; after that only the count modulo 256 is known.
  predicate Tracks(g: Group, json: ParsedJson, leaves: seq<LeafRef>, path: string) {
    && (g.enabled ==> g.count == Count(leaves, path) % 256)
    && (Count(leaves, path) <= 255 ==> TracksExactly(g, json, leaves, path))
  }

  predicate TracksExactly(g: Group, json: ParsedJson, leaves: seq<LeafRef>, path: string) {
    && g.enabled == Uniform(json, leaves, path)
    && (g.enabled ==> g.count == Count(leaves, path))
    && (g.enabled && Count(leaves, path) > 0 ==> g.first == FirstAt(leaves, path))
    && g.reference == Reference(json, leaves, path)
  }

  lemma {:induction false} CountAppend(leaves: seq<LeafRef>, x: LeafRef, path: string)
    ensures Count(leaves + [x], path) == Count(leaves, path) + if x.path == path then 1 else 0
    decreases leaves
  {
    if leaves == [] {
      assert leaves + [x] == [x];
    } else {
      assert (leaves + [x])[1..] == leaves[1..] + [x];
      CountAppend(leaves[1..], x, path);
    }
  }

  lemma {:induction false} FirstAppend(leaves: seq<LeafRef>, x: LeafRef, path: string)
    ensures FirstAt(leaves + [x], path)
      == if FirstAt(leaves, path) >= 0 then FirstAt(leaves, path) else if x.path == path then |leaves| else -1
    ensures FirstAt(leaves, path) == -1 <==> Count(leaves, path) == 0
    decreases leaves
  {
    if leaves == [] {
      assert leaves + [x] == [x];
    } else {
      assert (leaves + [x])[1..] == leaves[1..] + [x];
      FirstAppend(leaves[1..], x, path);
    }
  }

  lemma {:induction false} GroupStepTracks(g: Group, json: ParsedJson, leaves: seq<LeafRef>, x: LeafRef, path: string)
    requires TracksExactly(g, json, leaves, path) && Count(leaves + [x], path) <= 255
    ensures TracksExactly(GroupStep(g, x.path == path, Value(json, x), |leaves|), json, leaves + [x], path)
  {
    hide Count, FirstAt, Value;
    var all, i := leaves + [x], FirstAt(leaves, path);
    CountAppend(leaves, x, path);
    FirstAppend(leaves, x, path);
    forall m | 0 <= m < |leaves| ensures all[m] == leaves[m] {}
    assert all[|leaves|] == x;
    assert Uniform(json, all, path) <==>
      Uniform(json, leaves, path) && (x.path == path && i >= 0 ==> Value(json, x) == Value(json, leaves[i])) by {
      if Uniform(json, all, path) {
        forall m | 0 <= m < |leaves| && leaves[m].path == path
          ensures Value(json, leaves[m]) == Value(json, leaves[i]) {
          assert all[m] == leaves[m];
        }
        assert all[|leaves|] == x;
      }
    }
  }

  lemma {:induction false} GroupedStep(g: Group, json: ParsedJson, leaves: seq<LeafRef>, m: nat, path: string)
    requires m < |leaves| && Tracks(g, json, leaves[..m], path)
    ensures Tracks(GroupStep(g, leaves[m].path == path, Value(json, leaves[m]), m), json, leaves[..m + 1], path)
  {
    hide TracksExactly, Count, Value;
    assert leaves[..m + 1] == leaves[..m] + [leaves[m]];
    CountAppend(leaves[..m], leaves[m], path);
    if Count(leaves[..m + 1], path) <= 255 { GroupStepTracks(g, json, leaves[..m], leaves[m], path); }
  }

  // A memo's count stops at the first leaf with an empty value, or with the leaves.
  lemma MemoStops(json: ParsedJson, leaves: seq<LeafRef>, count: nat)
    requires count <= |leaves|
    ensures |BeforeEmpty(json, leaves)| <= |leaves|
    ensures count <= |BeforeEmpty(json, leaves)| ==>
      (count == |BeforeEmpty(json, leaves)| <==> count == |leaves| || Value(json, leaves[count]) == "")
  {
    var r := BeforeEmpty(json, leaves);
    if count < |r| { assert r[count] == leaves[count] && r[count] in r; }
  }

  // ----- The display cache -----

  // No value would set the extra depth level.
  predicate NoMultiSend(json: ParsedJson)
    requires Usable(json)
  {
    forall i :: 0 <= i < json.numberOfTokens ==> TokenText(json, json.tokens[i]) != MULTI_SEND
  }

  // Traversal starts here for a root field.
  ghost predicate Starts(json: ParsedJson, root: Node, r: nat, start: nat, n: Node)
    requires IsRoot(json, root)
  {
    var j := ChildNamed(json, root.keys, RootName(r));
    j >= 0 && n == root.values[j] && Laid(root) && start == ChildIndex(root, 0, j)
  }

  lemma {:induction false} GroupsApart(leaves: seq<LeafRef>)
    ensures Count(leaves, MSG_TYPE) + Count(leaves, MSG_FROM) <= |leaves|
    decreases leaves
  {
    if leaves != [] {
      assert |MSG_TYPE| != |MSG_FROM|;
      GroupsApart(leaves[1..]);
    }
  }

  // The 8-bit counters of grouped leaves do not wrap. If one does, too many items are left.
  ghost predicate GroupsFit(json: ParsedJson, root: Node)
    requires IsRoot(json, root)
  {
    var leaves := RootLeaves(json, root, ROOT_MSGS);
    Count(leaves, MSG_TYPE) <= 255 && Count(leaves, MSG_FROM) <= 255
  }

  lemma NothingGrouped(json: ParsedJson, root: Node)
    requires IsRoot(json, root)
    ensures NothingCounted(json, root) ==> GroupsFit(json, root)
  {
    hide IsRoot, RootLeaves;
    if NothingCounted(json, root) { assert |Counted(json, root, ROOT_MSGS)| == 0; }
  }

  // What the cache holds for a root field: whether and where it is, and how many leaves it has.
  ghost predicate Entry(json: ParsedJson, root: Node, r: nat, valid: bool, start: nat, count: nat)
    requires IsRoot(json, root)
  {
    var j := ChildNamed(json, root.keys, RootName(r));
    && valid == (j >= 0) && count == |Counted(json, root, r)|
    && start == if j >= 0 && Laid(root) then ChildIndex(root, 0, j) else 0
  }

  // The entries of the first r root fields are filled in, the others still empty.
  ghost predicate Filled(json: ParsedJson, root: Node, valid: seq<bool>, starts: seq<nat>, counts: seq<nat>, r: nat)
    requires IsRoot(json, root)
  {
    && |valid| == |starts| == |counts| == NUM_ROOTS
    && (forall q :: 0 <= q < r && q < NUM_ROOTS ==> Entry(json, root, q, valid[q], starts[q], counts[q]))
    && (forall q :: r <= q < NUM_ROOTS ==> !valid[q] && starts[q] == 0 && counts[q] == 0)
  }

  lemma {:induction false} FillNext(json: ParsedJson, root: Node, valid: seq<bool>, starts: seq<nat>, counts: seq<nat>,
                                    r: nat, v: bool, start: nat, count: nat)
    requires IsRoot(json, root) && r < NUM_ROOTS && Filled(json, root, valid, starts, counts, r)
    requires Entry(json, root, r, v, start, count)
    ensures Filled(json, root, valid[r := v], starts[r := start], counts[r := count], r + 1)
  {
    hide Entry;
  }

  predicate AllZero(counts: seq<nat>, r: nat)
    requires r <= |counts|
  {
    forall q :: 0 <= q < r ==> counts[q] == 0
  }

  lemma AllZeroNext(counts: seq<nat>, r: nat, c: nat)
    requires r < |counts|
    ensures AllZero(counts[r := c], r + 1) <==> AllZero(counts, r) && c == 0
  {
    assert counts[r := c][r] == c;
    forall q | 0 <= q < r ensures counts[r := c][q] == counts[q] {}
  }

  lemma {:induction false} FilledLengths(json: ParsedJson, root: Node, valid: seq<bool>, starts: seq<nat>,
                                         counts: seq<nat>, r: nat)
    requires IsRoot(json, root) && Filled(json, root, valid, starts, counts, r)
    ensures |valid| == |starts| == |counts| == NUM_ROOTS
    ensures r < NUM_ROOTS ==> valid[r := false] == valid && starts[r := 0] == starts && counts[r := 0] == counts
  {
    hide Entry;
  }

  lemma {:induction false} MissingEntry(json: ParsedJson, root: Node, r: nat)
    requires IsRoot(json, root) && ChildNamed(json, root.keys, RootName(r)) == -1
    ensures Entry(json, root, r, false, 0, 0) && RootLeaves(json, root, r) == []
  {
    hide ChildNamed;
  }

  lemma {:induction false} ChainStart(json: ParsedJson, root: Node, start: nat,
                                      valid: seq<bool>, starts: seq<nat>, counts: seq<nat>) returns (n: Node)
    requires IsRoot(json, root) && Filled(json, root, valid, starts, counts, NUM_ROOTS)
      && start == starts[ROOT_CHAIN_ID]
    ensures Hosts(json, start, n)
    ensures ChainLeaves(json, root)
      == Leaves(json, n, start, RootMaxLevel(ROOT_CHAIN_ID, false), MAX_RECURSION_DEPTH, "")
  {
    hide Hosts, Laid, Leaves, ChildNamed, RootName, Counted;
    var j := ChildNamed(json, root.keys, RootName(ROOT_CHAIN_ID));
    assert Entry(json, root, ROOT_CHAIN_ID, valid[0], starts[0], counts[0]);
    if j == -1 {
      n := root;
    } else {
      StartHosted(json, root, ROOT_CHAIN_ID, 0);
      n := root.values[j];
    }
  }

  lemma {:induction false} NothingYet(json: ParsedJson, root: Node, valid: seq<bool>, starts: seq<nat>,
                                      counts: seq<nat>, g: Group, h: Group)
    requires IsRoot(json, root) && |valid| == |starts| == |counts| == NUM_ROOTS
    requires forall q :: 0 <= q < NUM_ROOTS ==> !valid[q] && starts[q] == 0 && counts[q] == 0
    requires g.enabled && h.enabled && g.count == h.count == 0 && g.reference == h.reference == ""
    ensures Filled(json, root, valid, starts, counts, 0) && AllZero(counts, 0)
    ensures Tracks(g, json, [], MSG_TYPE) && Tracks(h, json, [], MSG_FROM)
  {
  }

  lemma ReferencesKept(json: ParsedJson, leaves: seq<LeafRef>, g: Group, path: string)
    requires Tracks(g, json, leaves, path)
    ensures Count(leaves, path) <= 255 ==> g.reference == Reference(json, leaves, path)
    ensures Tracks(g.(reference := Reference(json, leaves, path)), json, leaves, path)
  {
    hide Count, Uniform, FirstAt;
  }

  lemma {:induction false} CountsFilled(json: ParsedJson, root: Node, valid: seq<bool>, starts: seq<nat>,
                                        counts: seq<nat>, r: nat)
    requires IsRoot(json, root) && r < NUM_ROOTS && Filled(json, root, valid, starts, counts, NUM_ROOTS)
    ensures |counts| == NUM_ROOTS && counts[r] == |Counted(json, root, r)|
    ensures AllZero(counts, NUM_ROOTS) <==> NothingCounted(json, root)
  {
    hide Counted, IsRoot;
    assert Entry(json, root, r, valid[r], starts[r], counts[r]);
    forall q | 0 <= q < NUM_ROOTS ensures counts[q] == |Counted(json, root, q)| {
      assert Entry(json, root, q, valid[q], starts[q], counts[q]);
    }
  }

  lemma {:induction false} MessageCount(json: ParsedJson, root: Node, s: Setting, byType: bool, byFrom: bool,
                                        hideFrom: bool)
    requires IsRoot(json, root)
    ensures var leaves := RootLeaves(json, root, ROOT_MSGS);
      byType == Uniform(json, leaves, MSG_TYPE)
        && byFrom == (Uniform(json, leaves, MSG_FROM) && SenderGrouped(json, root, s))
        && hideFrom == SenderHidden(json, root, s) ==>
      |Visible(json, root, s, ROOT_MSGS)| == |leaves|
        - (if byType && Count(leaves, MSG_TYPE) > 0 then Count(leaves, MSG_TYPE) - 1 else 0)
        - (if byFrom && Count(leaves, MSG_FROM) > 0 then Count(leaves, MSG_FROM) - (if hideFrom then 0 else 1) else 0)
  {
    hide IsRoot, RootLeaves, Shown, Count, FirstAt, Uniform;
    GroupedCount(RootLeaves(json, root, ROOT_MSGS), MessageRule(json, root, s));
  }

  lemma {:induction false} EntryHosted(json: ParsedJson, root: Node, valid: seq<bool>, starts: seq<nat>,
                                       counts: seq<nat>, r: nat) returns (n: Node)
    requires IsRoot(json, root) && r < NUM_ROOTS && Filled(json, root, valid, starts, counts, NUM_ROOTS)
    ensures |valid| == |starts| == NUM_ROOTS
    ensures if valid[r] then Hosts(json, starts[r], n)
        && RootLeaves(json, root, r)
           == Leaves(json, n, starts[r], RootMaxLevel(r, false), MAX_RECURSION_DEPTH, RootName(r))
      else RootLeaves(json, root, r) == [] && forall rule :: Shown(RootLeaves(json, root, r), 0, rule) == []
  {
    hide Hosts, Laid, Leaves, ChildNamed, RootName, Counted;
    var j := ChildNamed(json, root.keys, RootName(r));
    assert Entry(json, root, r, valid[r], starts[r], counts[r]);
    if j == -1 {
      n := root;
    } else {
      StartHosted(json, root, r, 0);
      n := root.values[j];
    }
  }

  class Display {
    const tx: TxObject
    const expertMode: bool
    var startTokenValid: seq<bool>
    var startTokenIdx: seq<nat>
    var numberSubitems: seq<nat>
    var totalItemCount: nat
    var isDefaultChain: bool

    constructor (tx: TxObject, expertMode: bool)
      ensures this.tx == tx && this.expertMode == expertMode
    {
      this.tx := tx;
      this.expertMode := expertMode;
    }

    // One leaf of the messages joins the groups.
    method GroupMessage(val: string, idx: nat, ghost leaf: LeafRef, refType: string, refFrom: string)
      returns (err: ParserError, refType': string, refFrom': string)
      requires tx.Valid() && tx.outKey.Length == INDEXING_TMP_SIZE
      requires tx.Key() == Take(leaf.path, tx.outKey.Length - 1)
      modifies tx`msgTypeGrouping, tx`filterMsgTypeCount, tx`filterMsgTypeValidIdx,
               tx`msgFromGrouping, tx`filterMsgFromCount, tx`filterMsgFromValidIdx
      ensures |val| < INDEXING_TMP_SIZE ==>
        && err == Ok && tx.Valid()
        && TypeGroup(refType') == GroupStep(old(TypeGroup(refType)), leaf.path == MSG_TYPE, val, idx)
        && FromGroup(refFrom') == GroupStep(old(FromGroup(refFrom)), leaf.path == MSG_FROM, val, idx)
    {
      hide Take, CString, SpansInBuffer, HasNul, Usable;
      CutKeysCompare(leaf.path, tx.outKey.Length - 1);
      refType', refFrom' := refType, refFrom;
      if tx.msgTypeGrouping && tx.Key() == MSG_TYPE {
        if tx.filterMsgTypeCount == 0 {
          if |val| >= INDEXING_TMP_SIZE { return UnexpectedType, refType', refFrom'; }
          refType' := val;
          tx.filterMsgTypeValidIdx := idx;
        }
        if refType' != val {
          tx.msgTypeGrouping := false;
          tx.filterMsgTypeCount := 0;
        }
        tx.filterMsgTypeCount := (tx.filterMsgTypeCount + 1) % 256;
      }
      if tx.msgFromGrouping && tx.Key() == MSG_FROM {
        if tx.filterMsgFromCount == 0 {
          refFrom' := val;
          tx.filterMsgFromValidIdx := idx;
        }
        if refFrom' != val {
          tx.msgFromGrouping := false;
          tx.filterMsgFromCount := 0;
        }
        tx.filterMsgFromCount := (tx.filterMsgFromCount + 1) % 256;
      }
      return Ok, refType', refFrom';
    }

    // The leaf with the given index joins those before it.
    method GroupNext(val: string, idx: nat, ghost leaves: seq<LeafRef>, refType: string, refFrom: string)
      returns (err: ParserError, refType': string, refFrom': string)
      requires tx.Valid() && tx.outKey.Length == INDEXING_TMP_SIZE && idx < |leaves|
      requires tx.Key() == Take(leaves[idx].path, tx.outKey.Length - 1)
      requires val == Value(tx.json, leaves[idx]) && |val| < INDEXING_TMP_SIZE
      requires Grouped(leaves[..idx], refType, refFrom)
      modifies tx`msgTypeGrouping, tx`filterMsgTypeCount, tx`filterMsgTypeValidIdx,
               tx`msgFromGrouping, tx`filterMsgFromCount, tx`filterMsgFromValidIdx
      ensures err == Ok && tx.Valid() && Grouped(leaves[..idx + 1], refType', refFrom')
    {
      hide Tracks, GroupStep, CString, SpansInBuffer, HasNul, Value, Take;
      GroupedStep(TypeGroup(refType), tx.json, leaves, idx, MSG_TYPE);
      GroupedStep(FromGroup(refFrom), tx.json, leaves, idx, MSG_FROM);
      err, refType', refFrom' := GroupMessage(val, idx, leaves[idx], refType, refFrom);
    }

    ghost function TypeGroup(reference: string): Group
      reads this, tx
    {
      Group(tx.msgTypeGrouping, tx.filterMsgTypeCount, tx.filterMsgTypeValidIdx, reference)
    }

    ghost function FromGroup(reference: string): Group
      reads this, tx
    {
      Group(tx.msgFromGrouping, tx.filterMsgFromCount, tx.filterMsgFromValidIdx, reference)
    }

    // The leaf groups stand for the first m leaves of the messages.
    ghost predicate Grouped(leaves: seq<LeafRef>, refType: string, refFrom: string)
      reads this, tx
    {
      && Tracks(TypeGroup(refType), tx.json, leaves, MSG_TYPE)
      && Tracks(FromGroup(refFrom), tx.json, leaves, MSG_FROM)
    }

    twostate predicate GroupsKept(refType: string, refFrom: string, refType': string, refFrom': string)
      reads this, tx
    {
      && refType' == refType && refFrom' == refFrom
      && TypeGroup("") == old(TypeGroup("")) && FromGroup("") == old(FromGroup(""))
    }

    // The k-th leaf of a root field and its value, while nothing is skipped yet.
    method FetchLeaf(r: nat, start: nat, k: nat, key: array<char>, ghost root: Node, ghost n: Node)
      returns (err: ParserError, val: string)
      requires tx.Parsed() && !tx.cacheValid && !tx.extraDepthLevel && NoMultiSend(tx.json)
      requires IsRoot(tx.json, root) && Starts(tx.json, root, r, start, n) && key.Length == INDEXING_TMP_SIZE
      modifies tx`itemIndexCurrent, tx`itemIndex, tx`maxLevel, tx`maxDepth, tx`outKey, tx`extraDepthLevel, key
      ensures !tx.extraDepthLevel && tx.outKey == key && tx.Valid()
      ensures var leaves := RootLeaves(tx.json, root, r);
        if k < |leaves| then
          err == Ok && val == Value(tx.json, leaves[k]) && |val| < INDEXING_TMP_SIZE
            && tx.Key() == Take(leaves[k].path, tx.outKey.Length - 1)
        else err == QueryNoResults || err == NoData
    {
      hide Hosts, Laid, Leaves, Shown, CString, SpansInBuffer, PageCount, ChildNamed;
      StartHosted(tx.json, root, r, start);
      NameHasNoNul(r);
      ghost var leaves := Leaves(tx.json, n, start, RootMaxLevel(r, false), MAX_RECURSION_DEPTH, RootName(r));
      NothingSkipped(leaves, 0, Rule(INDEXING_TMP_SIZE - 1, false, tx.msgTypeGrouping, tx.filterMsgTypeValidIdx,
        tx.msgFromGrouping, tx.filterMsgFromValidIdx, tx.msgFromGroupingHideAll));
      var token, pageCount;
      val := "";
      err, token := tx.Query(start, RootMaxLevel(r, tx.extraDepthLevel), MAX_RECURSION_DEPTH, RootName(r), k, key, n);
      if err != Ok { return; }
      LeafInRange(tx.json, n, start, RootMaxLevel(r, false), MAX_RECURSION_DEPTH, RootName(r), k);
      err, val, pageCount := tx.GetToken(token, INDEXING_TMP_SIZE, 0);
    }

    // Counts the leaves of a root field by querying one after the other, and groups messages.
    method CountSubitems(r: nat, start: nat, key: array<char>, refType: string, refFrom: string,
                         ghost root: Node, ghost n: Node)
      returns (err: ParserError, count: nat, refType': string, refFrom': string)
      requires tx.Parsed() && !tx.cacheValid && !tx.extraDepthLevel && NoMultiSend(tx.json)
      requires IsRoot(tx.json, root) && Starts(tx.json, root, r, start, n) && r < NUM_ROOTS
      requires key.Length == INDEXING_TMP_SIZE
      requires r == ROOT_MSGS ==> Grouped([], refType, refFrom)
      modifies tx`itemIndexCurrent, tx`itemIndex, tx`maxLevel, tx`maxDepth, tx`outKey, tx`extraDepthLevel, key
      modifies tx`msgTypeGrouping, tx`filterMsgTypeCount, tx`filterMsgTypeValidIdx
      modifies tx`msgFromGrouping, tx`filterMsgFromCount, tx`filterMsgFromValidIdx
      ensures !tx.extraDepthLevel && (err == QueryNoResults || err == NoData)
      ensures count == |Counted(tx.json, root, r)|
      ensures if r == ROOT_MSGS then Grouped(RootLeaves(tx.json, root, r), refType', refFrom')
              else GroupsKept(refType, refFrom, refType', refFrom')
    {
      hide RootLeaves, IsRoot, Starts, Tracks, GroupStep, CString, SpansInBuffer, BeforeEmpty, Uniform, Value, Take,
           HasNul, NoMultiSend;
      ghost var leaves := RootLeaves(tx.json, root, r);
      refType', refFrom' := refType, refFrom;
      count := 0;
      err := Ok;
      while err == Ok
        invariant !tx.extraDepthLevel && count <= |leaves|
        invariant err == Ok || err == QueryNoResults || err == NoData
        invariant r == ROOT_MEMO ==> count <= |BeforeEmpty(tx.json, leaves)|
        invariant err != Ok ==> count == |Counted(tx.json, root, r)|
        invariant if r == ROOT_MSGS
          then Grouped(leaves[..count], refType', refFrom') && (err != Ok ==> count == |leaves|)
                  else GroupsKept(refType, refFrom, refType', refFrom')
        decreases |leaves| - count, err == Ok
      {
        var val;
        err, val := FetchLeaf(r, start, count, key, root, n);
        MemoStops(tx.json, leaves, count);
        if err != Ok { continue; }
        if r == ROOT_MEMO && |val| == 0 {
          err := QueryNoResults;
          continue;
        }
        if r == ROOT_MSGS {
          err, refType', refFrom' := GroupNext(val, count, leaves, refType', refFrom');
          if err != Ok { return; }
        }
        count := count + 1;
      }
      assert r == ROOT_MSGS ==> leaves[..count] == leaves;
    }

    ghost function GroupedLeaves(root: Node, r: nat): seq<LeafRef>
      requires IsRoot(tx.json, root)
      reads tx
    {
      if r <= ROOT_MSGS then [] else RootLeaves(tx.json, root, ROOT_MSGS)
    }

    // Looks the root field up and counts its leaves.
    method IndexRoot(r: nat, key: array<char>, refType: string, refFrom: string, ghost root: Node)
      returns (err: ParserError, refType': string, refFrom': string)
      requires tx.Parsed() && !tx.cacheValid && !tx.extraDepthLevel && NoMultiSend(tx.json)
      requires IsRoot(tx.json, root) && r < NUM_ROOTS
      requires key.Length == INDEXING_TMP_SIZE && Grouped(GroupedLeaves(root, r), refType, refFrom)
      requires Filled(tx.json, root, startTokenValid, startTokenIdx, numberSubitems, r)
      requires totalItemCount == 0 <==> AllZero(numberSubitems, r)
      modifies this, key
      modifies tx`itemIndexCurrent, tx`itemIndex, tx`maxLevel, tx`maxDepth, tx`outKey, tx`extraDepthLevel
      modifies tx`msgTypeGrouping, tx`filterMsgTypeCount, tx`filterMsgTypeValidIdx
      modifies tx`msgFromGrouping, tx`filterMsgFromCount, tx`filterMsgFromValidIdx
      ensures err == Ok && !tx.extraDepthLevel
      ensures Grouped(GroupedLeaves(root, r + 1), refType', refFrom')
      ensures Filled(tx.json, root, startTokenValid, startTokenIdx, numberSubitems, r + 1)
      ensures totalItemCount == 0 <==> AllZero(numberSubitems, r + 1)
    {
      hide RootLeaves, Tracks, Filled, Laid, ChildNamed, SpansInBuffer, LookUp, AllZero, BeforeEmpty;
      refType', refFrom' := refType, refFrom;
      var start, count;
      LookUpFindsChild(tx.json, 0, root, RootName(r));
      FilledLengths(tx.json, root, startTokenValid, startTokenIdx, numberSubitems, r);
      err, start := ObjectGetValue(tx.json, 0, RootName(r));
      AllZeroNext(numberSubitems, r, |Counted(tx.json, root, r)|);
      if err == NoData {
        MissingEntry(tx.json, root, r);
        FillNext(tx.json, root, startTokenValid, startTokenIdx, numberSubitems, r, false, 0, 0);
        return Ok, refType', refFrom';
      }
      if err != Ok { return; }
      ghost var n := root.values[ChildNamed(tx.json, root.keys, RootName(r))];
      FillNext(tx.json, root, startTokenValid, startTokenIdx, numberSubitems, r, true, start,
        |Counted(tx.json, root, r)|);
      startTokenValid := startTokenValid[r := true];
      startTokenIdx := startTokenIdx[r := start];
      err, count, refType', refFrom' := CountSubitems(r, start, key, refType, refFrom, root, n);
      if err != QueryNoResults && err != NoData { return; }
      numberSubitems := numberSubitems[r := count];
      totalItemCount := totalItemCount + count;
      err := Ok;
    }

    function SettingNow(): Setting
      reads this, tx
    {
      Setting(expertMode, tx.ownAddr, tx.hideAllBefore)
    }

    // The cache and the grouping flags are those of the transaction.
    ghost predicate Indexed(root: Node)
      reads this, tx
    {
      && tx.Parsed() && IsRoot(tx.json, root) && tx.cacheValid && !tx.extraDepthLevel
      && Filled(tx.json, root, startTokenValid, startTokenIdx, numberSubitems, NUM_ROOTS)
      && (totalItemCount == 0 <==> AllZero(numberSubitems, NUM_ROOTS))
      && isDefaultChain == DefaultChain(tx.json, root)
      && Flagged(root)
    }

    // Flags and counters agree with the messages' leaves.
    ghost predicate Flagged(root: Node)
      requires IsRoot(tx.json, root)
      reads this, tx
    {
      var leaves := RootLeaves(tx.json, root, ROOT_MSGS);
      var refType, refFrom := Reference(tx.json, leaves, MSG_TYPE), Reference(tx.json, leaves, MSG_FROM);
      && Tracks(TypeGroup(refType), tx.json, leaves, MSG_TYPE)
      && (if SenderGrouped(tx.json, root, SettingNow()) then Tracks(FromGroup(refFrom), tx.json, leaves, MSG_FROM)
          else !tx.msgFromGrouping)
      && (Count(leaves, MSG_FROM) <= 255 ==> tx.msgFromGroupingHideAll == SenderHidden(tx.json, root, SettingNow()))
    }

    // Which leaf names the chain: the query starts at the root if there is no chain_id.
    method CalculateIsDefaultChainid(ghost root: Node) returns (err: ParserError)
      requires tx.Parsed() && IsRoot(tx.json, root) && !tx.extraDepthLevel && NoMultiSend(tx.json)
      requires Filled(tx.json, root, startTokenValid, startTokenIdx, numberSubitems, NUM_ROOTS)
      modifies this`isDefaultChain
      modifies tx`itemIndexCurrent, tx`itemIndex, tx`maxLevel, tx`maxDepth, tx`outKey, tx`extraDepthLevel
      ensures !tx.extraDepthLevel
      ensures isDefaultChain == DefaultChain(tx.json, root)
      ensures err == Ok <==> ChainAccepted(tx.json, root)
      ensures err != Ok ==> err == QueryNoResults || err == NoData || err == UnexpectedChain
    {
      hide Hosts, Laid, Leaves, Shown, CString, SpansInBuffer, PageCount, ChildNamed, Counted, Substitute, TokenText,
           HasNul;
      ghost var n := ChainStart(tx.json, root, startTokenIdx[ROOT_CHAIN_ID], startTokenValid,
        startTokenIdx, numberSubitems);
      ghost var leaves := ChainLeaves(tx.json, root);
      isDefaultChain := false;
      var outKey := new char[2];
      var token, outVal, pageCount;
      NothingSkipped(leaves, 0, Rule(1, tx.cacheValid, tx.msgTypeGrouping, tx.filterMsgTypeValidIdx,
        tx.msgFromGrouping, tx.filterMsgFromValidIdx, tx.msgFromGroupingHideAll));
      err, token := tx.Query(startTokenIdx[ROOT_CHAIN_ID], RootMaxLevel(ROOT_CHAIN_ID, tx.extraDepthLevel),
        MAX_RECURSION_DEPTH, "", 0, outKey, n);
      if err != Ok { return; }
      LeafInRange(tx.json, n, startTokenIdx[ROOT_CHAIN_ID], RootMaxLevel(ROOT_CHAIN_ID, false),
        MAX_RECURSION_DEPTH, "", 0);
      err, outVal, pageCount := tx.GetToken(token, COIN_MAX_CHAINID_LEN, 0);
      if err != Ok { return; }
      if outVal == COIN_DEFAULT_CHAINID {
        isDefaultChain := true;
      } else if |outVal| == 1 && (outVal[0] == '0' || outVal[0] == '1') {
        assert outVal == [outVal[0]];
        return UnexpectedChain;
      }
    }

    // Nothing is counted and everything may still be grouped.
    method ClearCache(ghost root: Node)
      requires IsRoot(tx.json, root)
      modifies this, tx`msgTypeGrouping, tx`filterMsgTypeCount, tx`msgFromGrouping, tx`filterMsgFromCount
      ensures Filled(tx.json, root, startTokenValid, startTokenIdx, numberSubitems, 0)
      ensures |numberSubitems| == NUM_ROOTS && totalItemCount == 0 && AllZero(numberSubitems, 0)
      ensures Grouped([], "", "")
    {
      hide IsRoot, Tracks, Filled, AllZero;
      startTokenValid, startTokenIdx := seq(NUM_ROOTS, _ => false), seq(NUM_ROOTS, _ => 0);
      numberSubitems, totalItemCount, isDefaultChain := seq(NUM_ROOTS, _ => 0), 0, false;
      tx.filterMsgTypeCount := 0;
      tx.filterMsgFromCount := 0;
      tx.msgTypeGrouping := true;
      tx.msgFromGrouping := true;
      NothingYet(tx.json, root, startTokenValid, startTokenIdx, numberSubitems, TypeGroup(""), FromGroup(""));
    }

    // Fills the cleared cache root field by root field; the sender of the first message is returned.
    method CountRootItems(ghost root: Node) returns (err: ParserError, refFrom: string)
      requires tx.Parsed() && IsRoot(tx.json, root) && !tx.extraDepthLevel && NoMultiSend(tx.json)
      requires !tx.cacheValid
      modifies this, tx`itemIndexCurrent, tx`itemIndex, tx`maxLevel, tx`maxDepth, tx`outKey, tx`extraDepthLevel
      modifies tx`msgTypeGrouping, tx`filterMsgTypeCount, tx`filterMsgTypeValidIdx
      modifies tx`msgFromGrouping, tx`filterMsgFromCount, tx`filterMsgFromValidIdx
      ensures err == Ok && !tx.extraDepthLevel
      ensures Filled(tx.json, root, startTokenValid, startTokenIdx, numberSubitems, NUM_ROOTS)
      ensures |numberSubitems| == NUM_ROOTS && (totalItemCount == 0 <==> AllZero(numberSubitems, NUM_ROOTS))
      ensures var leaves := RootLeaves(tx.json, root, ROOT_MSGS);
        && (Count(leaves, MSG_FROM) <= 255 ==> refFrom == Reference(tx.json, leaves, MSG_FROM))
        && Grouped(leaves, Reference(tx.json, leaves, MSG_TYPE), Reference(tx.json, leaves, MSG_FROM))
    {
      hide IsRoot, RootLeaves, Tracks, Filled, SpansInBuffer, AllZero, Reference, HasNul;
      ClearCache(root);
      var key, refType := new char[INDEXING_TMP_SIZE], "";
      refFrom := "";
      for r := 0 to NUM_ROOTS
        invariant !tx.extraDepthLevel && |numberSubitems| == NUM_ROOTS
        invariant Grouped(GroupedLeaves(root, r), refType, refFrom)
        invariant Filled(tx.json, root, startTokenValid, startTokenIdx, numberSubitems, r)
        invariant totalItemCount == 0 <==> AllZero(numberSubitems, r)
      {
        err, refType, refFrom := IndexRoot(r, key, refType, refFrom, root);
        if err != Ok { return; }
        FilledLengths(tx.json, root, startTokenValid, startTokenIdx, numberSubitems, r + 1);
      }
      ReferencesKept(tx.json, RootLeaves(tx.json, root, ROOT_MSGS), TypeGroup(refType), MSG_TYPE);
      ReferencesKept(tx.json, RootLeaves(tx.json, root, ROOT_MSGS), FromGroup(refFrom), MSG_FROM);
      err := Ok;
    }

    // Ready to be asked about the transaction, for the first time or again.
    ghost predicate Ready(root: Node)
      reads this, tx
    {
      && tx.Parsed() && IsRoot(tx.json, root) && !tx.extraDepthLevel && NoMultiSend(tx.json)
      && if tx.cacheValid then Indexed(root) else tx.msgFromGroupingHideAll == tx.hideAllBefore
    }

    /** Indexes the root fields, unless that is done already. Also when the chain's name makes it
        fail the cache counts as valid afterwards, and the next call succeeds; what was left undone
        then is to say whether senders are grouped and hidden. */
    method IndexRootFields(ghost root: Node) returns (err: ParserError)
      requires Ready(root)
      modifies this, tx`itemIndexCurrent, tx`itemIndex, tx`maxLevel, tx`maxDepth, tx`outKey, tx`extraDepthLevel
      modifies tx`cacheValid, tx`msgTypeGrouping, tx`filterMsgTypeCount, tx`filterMsgTypeValidIdx
      modifies tx`msgFromGrouping, tx`filterMsgFromCount, tx`filterMsgFromValidIdx, tx`msgFromGroupingHideAll
      ensures tx.cacheValid && Indexed(root)
      ensures old(tx.cacheValid) ==> unchanged(this) && unchanged(tx)
      ensures err == Ok <==> old(tx.cacheValid) || ChainAccepted(tx.json, root)
    {
      hide Indexed, IsRoot, RootLeaves, DefaultChain, ChainAccepted, Tracks, Filled, SpansInBuffer, AllZero, Reference,
           Uniform, Count, HasNul;
      if tx.cacheValid { return Ok; }
      var refFrom;
      err, refFrom := CountRootItems(root);
      if err != Ok { return; }
      tx.cacheValid := true;
      err := CalculateIsDefaultChainid(root);
      if err != Ok {
        IndexedWithoutChain(root);
        return;
      }
      SetSenderGrouping(refFrom, root);
    }

    lemma IndexedWithoutChain(root: Node)
      requires tx.Parsed() && IsRoot(tx.json, root) && tx.cacheValid && !tx.extraDepthLevel
        && !ChainAccepted(tx.json, root)
      requires Filled(tx.json, root, startTokenValid, startTokenIdx, numberSubitems, NUM_ROOTS)
      requires |numberSubitems| == NUM_ROOTS && (totalItemCount == 0 <==> AllZero(numberSubitems, NUM_ROOTS))
      requires isDefaultChain == DefaultChain(tx.json, root) && tx.msgFromGroupingHideAll == tx.hideAllBefore
      requires var leaves := RootLeaves(tx.json, root, ROOT_MSGS);
        Grouped(leaves, Reference(tx.json, leaves, MSG_TYPE), Reference(tx.json, leaves, MSG_FROM))
      ensures Indexed(root)
    {
      hide IsRoot, RootLeaves, DefaultChain, Tracks, Filled, SpansInBuffer, AllZero, Reference, HasNul, Count;
    }

    // Senders are grouped outside expert mode, and hidden if they are the device's own address.
    method SetSenderGrouping(refFrom: string, ghost root: Node)
      requires tx.Parsed() && IsRoot(tx.json, root) && tx.cacheValid && !tx.extraDepthLevel
      requires Filled(tx.json, root, startTokenValid, startTokenIdx, numberSubitems, NUM_ROOTS)
      requires |numberSubitems| == NUM_ROOTS && (totalItemCount == 0 <==> AllZero(numberSubitems, NUM_ROOTS))
      requires isDefaultChain == DefaultChain(tx.json, root) && ChainAccepted(tx.json, root)
      requires var leaves := RootLeaves(tx.json, root, ROOT_MSGS);
        && (Count(leaves, MSG_FROM) <= 255 ==> refFrom == Reference(tx.json, leaves, MSG_FROM))
        && Grouped(leaves, Reference(tx.json, leaves, MSG_TYPE), Reference(tx.json, leaves, MSG_FROM))
      modifies tx`msgFromGrouping, tx`msgFromGroupingHideAll
      ensures Indexed(root)
    {
      hide IsRoot, RootLeaves, DefaultChain, ChainAccepted, Tracks, Filled, SpansInBuffer, AllZero, Reference,
           IsOwnAddress, HasNul, Count, Usable, TracksExactly;
      if expertMode || !isDefaultChain {
        tx.msgFromGrouping := false;
      }
      tx.msgFromGroupingHideAll := false;
      if AddressMatchesOwn(refFrom) {
        tx.msgFromGroupingHideAll := true;
      }
    }

    predicate AddressMatchesOwn(addr: string)
      reads this, tx
    {
      IsOwnAddress(tx.ownAddr, addr)
    }

    // The number of the messages' leaves less those the filters leave out.
    method UngroupedCount(count: nat, ghost root: Node) returns (n: int)
      requires Indexed(root) && count == |RootLeaves(tx.json, root, ROOT_MSGS)|
      ensures if GroupsFit(tx.json, root) then n == |Visible(tx.json, root, SettingNow(), ROOT_MSGS)| else n > 255
    {
      hide RootLeaves, DefaultChain, Shown, IsRoot, SpansInBuffer, Uniform, FirstAt, Count, Filled, SenderGrouped,
           SenderHidden, HasNul, Reference;
      MessageCount(tx.json, root, SettingNow(), tx.msgTypeGrouping, tx.msgFromGrouping, tx.msgFromGroupingHideAll);
      GroupsApart(RootLeaves(tx.json, root, ROOT_MSGS));
      n := count;
      if tx.msgTypeGrouping && tx.filterMsgTypeCount > 0 {
        n := n + 1;
        n := n - tx.filterMsgTypeCount;
      }
      if tx.msgFromGrouping && tx.filterMsgFromCount > 0 {
        if !tx.msgFromGroupingHideAll { n := n + 1; }
        n := n - tx.filterMsgFromCount;
      }
    }

    // The number of items of a root field; the source calls tx_indexRootFields first, which has
    // nothing left to do here.
    method GetSubitemCount(r: nat, ghost root: Node) returns (err: ParserError, count: nat)
      requires Indexed(root) && r < NUM_ROOTS
      ensures var n := Items(tx.json, root, SettingNow(), r);
        if n <= 255 && (r == ROOT_MSGS ==> GroupsFit(tx.json, root)) then err == Ok && count == n
          else err == UnexpectedNumberItems
    {
      hide RootLeaves, DefaultChain, Shown, IsRoot, SpansInBuffer, BeforeEmpty, GroupsFit, MessageRule, Flagged, HasNul;
      hide Filled, NothingCounted, AllZero;
      CountsFilled(tx.json, root, startTokenValid, startTokenIdx, numberSubitems, r);
      NothingGrouped(tx.json, root);
      if totalItemCount == 0 { return Ok, 0; }
      var expertOrNotDefault := expertMode || !isDefaultChain;
      var n: int := numberSubitems[r];
      match r {
        case 0 | 1 | 2 =>
          if !expertOrNotDefault { n := 0; }
        case 3 =>
          n := UngroupedCount(n, root);
        case 5 =>
          if !expertOrNotDefault { n := 1; }
        case _ =>
      }
      if n < 0 || n > 255 { return UnexpectedNumberItems, 0; }
      return Ok, n;
    }

    ghost predicate AllFit(root: Node)
      requires IsRoot(tx.json, root)
      reads this, tx
    {
      forall r :: 0 <= r < NUM_ROOTS ==> Items(tx.json, root, SettingNow(), r) <= 255
    }

    // Finds the root field and the item in it for a display index.
    method RetrieveTreeIndexes(displayIndex: nat, ghost root: Node) returns (err: ParserError, r: nat, subitem: nat)
      requires Indexed(root) && GroupsFit(tx.json, root) && AllFit(root)
      requires displayIndex < ItemsBefore(tx.json, root, SettingNow(), NUM_ROOTS)
      ensures err == Ok && r < NUM_ROOTS && subitem < Items(tx.json, root, SettingNow(), r)
      ensures ItemsBefore(tx.json, root, SettingNow(), r) + subitem == displayIndex
    {
      hide Items, Indexed, IsRoot;
      ghost var s := SettingNow();
      RootIs(root);
      subitem := 0;
      err, r := SkipEmpty(0, root);
      if err != Ok { return; }
      for i := 0 to displayIndex
        invariant err == Ok && r < NUM_ROOTS && subitem < Items(tx.json, root, s, r)
        invariant ItemsBefore(tx.json, root, s, r) + subitem == i
      {
        subitem := subitem + 1;
        var count;
        err, count := GetSubitemCount(r, root);
        if err != Ok { return; }
        if subitem >= count {
          subitem := 0;
          err, r := SkipEmpty(r + 1, root);
          if err != Ok { return; }
        }
      }
    }

    lemma RootIs(root: Node)
      requires Indexed(root)
      ensures IsRoot(tx.json, root)
    {
    }

    // The first root field from the given one on that has items.
    method SkipEmpty(start: nat, ghost root: Node) returns (err: ParserError, r: nat)
      requires Indexed(root) && GroupsFit(tx.json, root) && AllFit(root) && start <= NUM_ROOTS
      requires ItemsBefore(tx.json, root, SettingNow(), start) < ItemsBefore(tx.json, root, SettingNow(), NUM_ROOTS)
      ensures err == Ok && start <= r < NUM_ROOTS && Items(tx.json, root, SettingNow(), r) > 0
      ensures ItemsBefore(tx.json, root, SettingNow(), r) == ItemsBefore(tx.json, root, SettingNow(), start)
    {
      hide Items, Indexed, IsRoot;
      RootIs(root);
      r := start;
      var count;
      err, count := GetSubitemCount(r, root);
      if err != Ok { return; }
      while count == 0
        invariant err == Ok && start <= r < NUM_ROOTS && count == Items(tx.json, root, SettingNow(), r)
        invariant ItemsBefore(tx.json, root, SettingNow(), r) == ItemsBefore(tx.json, root, SettingNow(), start)
        decreases NUM_ROOTS - r
      {
        r := r + 1;
        err, count := GetSubitemCount(r, root);
        if err != Ok { return; }
      }
    }

    /** The number of items, which must fit 8 bits. */
    method DisplayNumItems(ghost root: Node) returns (err: ParserError, count: nat)
      requires Ready(root)
      modifies this, tx`itemIndexCurrent, tx`itemIndex, tx`maxLevel, tx`maxDepth, tx`outKey, tx`extraDepthLevel
      modifies tx`cacheValid, tx`msgTypeGrouping, tx`filterMsgTypeCount, tx`filterMsgTypeValidIdx
      modifies tx`msgFromGrouping, tx`filterMsgFromCount, tx`filterMsgFromValidIdx, tx`msgFromGroupingHideAll
      ensures Indexed(root)
      ensures err == Ok ==>
        GroupsFit(tx.json, root) && count == ItemsBefore(tx.json, root, SettingNow(), NUM_ROOTS) <= 255
      ensures old(tx.cacheValid) ==> unchanged(this) && unchanged(tx)
      ensures err == Ok ==> old(tx.cacheValid) || ChainAccepted(tx.json, root)
      ensures old(tx.cacheValid) || ChainAccepted(tx.json, root) ==>
        err == if ItemsBefore(tx.json, root, SettingNow(), NUM_ROOTS) <= 255 && GroupsFit(tx.json, root) then Ok
          else UnexpectedNumberItems
    {
      hide Items, Indexed, IsRoot, ChainAccepted, ItemsBefore;
      count := 0;
      err := IndexRootFields(root);
      if err != Ok { return; }
      err, count := SumItems(root);
    }

    method SumItems(ghost root: Node) returns (err: ParserError, count: nat)
      requires Indexed(root)
      ensures var n := ItemsBefore(tx.json, root, SettingNow(), NUM_ROOTS);
        if n <= 255 && GroupsFit(tx.json, root) then err == Ok && count == n else err == UnexpectedNumberItems
    {
      hide Items, Indexed, IsRoot;
      RootIs(root);
      err, count := Ok, 0;
      var n := 0;
      for r := 0 to NUM_ROOTS
        invariant err == Ok && count == ItemsBefore(tx.json, root, SettingNow(), r)
        invariant r > ROOT_MSGS ==> GroupsFit(tx.json, root)
      {
        err, n := GetSubitemCount(r, root);
        ItemsBeforeGrow(tx.json, root, SettingNow(), r + 1, NUM_ROOTS);
        if err != Ok { return; }
        count := count + n;
      }
      if count > 255 { return UnexpectedNumberItems, 0; }
    }

    lemma EachFits(root: Node)
      requires IsRoot(tx.json, root) && ItemsBefore(tx.json, root, SettingNow(), NUM_ROOTS) <= 255
      ensures AllFit(root)
    {
      hide Items, IsRoot;
      forall r | 0 <= r < NUM_ROOTS ensures Items(tx.json, root, SettingNow(), r) <= 255 {
        ItemsBeforeGrow(tx.json, root, SettingNow(), r + 1, NUM_ROOTS);
      }
    }

    // The grouping rule a query with this key buffer goes by.
    lemma RuleInForce(root: Node, cap: nat) returns (rule: Rule)
      requires Indexed(root) && GroupsFit(tx.json, root) && cap >= 29
      ensures rule == Rule(cap, tx.cacheValid, tx.msgTypeGrouping, tx.filterMsgTypeValidIdx,
        tx.msgFromGrouping, tx.filterMsgFromValidIdx, tx.msgFromGroupingHideAll)
      ensures RuleFor(tx.json, RootLeaves(tx.json, root, ROOT_MSGS), rule,
        SenderGrouped(tx.json, root, SettingNow()), SenderHidden(tx.json, root, SettingNow()))
    {
      hide IsRoot, RootLeaves, SenderGrouped, SenderHidden, Filled, Uniform, Count, FirstAt;
      var leaves := RootLeaves(tx.json, root, ROOT_MSGS);
      FirstAppend(leaves, LeafRef(0, ""), MSG_TYPE);
      FirstAppend(leaves, LeafRef(0, ""), MSG_FROM);
      rule := Rule(cap, tx.cacheValid, tx.msgTypeGrouping, tx.filterMsgTypeValidIdx,
        tx.msgFromGrouping, tx.filterMsgFromValidIdx, tx.msgFromGroupingHideAll);
    }

    // Where the query for an item starts, and what its search finds.
    lemma ItemQuery(root: Node, r: nat, subitem: nat, cap: nat) returns (n: Node, rule: Rule)
      requires Indexed(root) && GroupsFit(tx.json, root) && cap >= 29 && r < NUM_ROOTS
        && subitem < Items(tx.json, root, SettingNow(), r)
      ensures tx.Parsed() && !tx.extraDepthLevel && |startTokenValid| == |startTokenIdx| == NUM_ROOTS
        && IsRoot(tx.json, root)
      ensures rule == Rule(cap, tx.cacheValid, tx.msgTypeGrouping, tx.filterMsgTypeValidIdx,
        tx.msgFromGrouping, tx.filterMsgFromValidIdx, tx.msgFromGroupingHideAll)
      ensures var screens := Visible(tx.json, root, SettingNow(), r);
        if !startTokenValid[r] then subitem >= |screens|
        else
          && Hosts(tx.json, startTokenIdx[r], n)
          && var shown := Shown(Leaves(tx.json, n, startTokenIdx[r], RootMaxLevel(r, false),
             MAX_RECURSION_DEPTH, RootName(r)), 0, rule);
             if subitem < |screens| then subitem < |shown| && shown[subitem] == screens[subitem] else subitem >= |shown|
    {
      hide IsRoot, Visible, Items, RootLeaves, Hosts, Shown, RuleFor, Flagged, Filled;
      rule := RuleInForce(root, cap);
      ItemFound(tx.json, root, SettingNow(), r, subitem, rule);
      n := EntryHosted(tx.json, root, startTokenValid, startTokenIdx, numberSubitems, r);
    }

    // A query leaves what is indexed alone.
    twostate lemma IndexedKept(root: Node)
      requires old(Indexed(root)) && unchanged(this)
        && unchanged(tx`json, tx`cacheValid, tx`extraDepthLevel, tx`ownAddr)
      requires unchanged(tx`msgTypeGrouping, tx`filterMsgTypeCount, tx`filterMsgTypeValidIdx)
      requires unchanged(tx`msgFromGrouping, tx`filterMsgFromCount, tx`filterMsgFromValidIdx, tx`msgFromGroupingHideAll)
      ensures Indexed(root)
    {
      hide IsRoot, Filled, Tracks, RootLeaves, DefaultChain, SpansInBuffer, HasNul;
    }

    // Sets the query up for an item of a root field and searches for it.
    method QueryItem(r: nat, subitem: nat, outKey: array<char>, ghost root: Node) returns (err: ParserError, token: nat)
      requires Indexed(root) && GroupsFit(tx.json, root) && outKey.Length >= 30 && r < NUM_ROOTS
      requires subitem < Items(tx.json, root, SettingNow(), r)
      modifies outKey, tx`itemIndexCurrent, tx`itemIndex, tx`maxLevel, tx`maxDepth, tx`outKey
      ensures Indexed(root)
      ensures var screens := Visible(tx.json, root, SettingNow(), r);
        if subitem < |screens| then
          && err == Ok && token == screens[subitem].index
          && CString(outKey[..]) == Take(screens[subitem].path, outKey.Length - 1)
        else err == NoData || err == QueryNoResults
    {
      hide Indexed, IsRoot, Visible, Items, Laid, Hosts, Shown, SpansInBuffer, HasNul, CString;
      token := 0;
      ghost var n, rule := ItemQuery(root, r, subitem, outKey.Length - 1);
      NameHasNoNul(r);
      if !startTokenValid[r] { return NoData, 0; }
      err, token := tx.Query(startTokenIdx[r], RootMaxLevel(r, tx.extraDepthLevel), MAX_RECURSION_DEPTH, RootName(r),
        subitem, outKey, n);
      IndexedKept(root);
    }

    /** Answers a display query: the index brings the screen it stands for, and the key of its path.
        An index in range fails only if it is that of a fee without leaves. */
    method DisplayQuery(displayIdx: nat, outKey: array<char>, ghost root: Node) returns (err: ParserError, token: nat)
      requires Ready(root) && outKey.Length >= 30
      modifies this, outKey, tx`itemIndexCurrent, tx`itemIndex, tx`maxLevel, tx`maxDepth, tx`outKey, tx`extraDepthLevel
      modifies tx`cacheValid, tx`msgTypeGrouping, tx`filterMsgTypeCount, tx`filterMsgTypeValidIdx
      modifies tx`msgFromGrouping, tx`filterMsgFromCount, tx`filterMsgFromValidIdx, tx`msgFromGroupingHideAll
      ensures Indexed(root)
      ensures if old(tx.cacheValid) || ChainAccepted(tx.json, root) then Answered(displayIdx, outKey, root, err, token)
              else err != Ok
    {
      hide Indexed, IsRoot, ChainAccepted;
      token := 0;
      err := IndexRootFields(root);
      if err != Ok { return; }
      err, token := QueryIndexed(displayIdx, outKey, root);
    }

    // What the query answers once the root fields are indexed.
    ghost predicate Answered(displayIdx: nat, outKey: array<char>, root: Node, err: ParserError, token: nat)
      requires IsRoot(tx.json, root)
      reads this, tx, outKey
    {
      var screens, count := Screens(tx.json, root, SettingNow(), 0),
        ItemsBefore(tx.json, root, SettingNow(), NUM_ROOTS);
      if count > 255 || !GroupsFit(tx.json, root) then err == UnexpectedNumberItems
      else if displayIdx >= count then err == DisplayIdxOutOfRange
      else if IsBlank(tx.json, root, SettingNow(), displayIdx) then err == NoData || err == QueryNoResults
      else
        var i := ScreenIndex(tx.json, root, SettingNow(), displayIdx);
        && err == Ok && i < |screens| && token == screens[i].index && outKey.Length > 0
        && CString(outKey[..]) == Take(screens[i].path, outKey.Length - 1)
    }

    method QueryIndexed(displayIdx: nat, outKey: array<char>, ghost root: Node) returns (err: ParserError, token: nat)
      requires Indexed(root) && outKey.Length >= 30
      modifies outKey, tx`itemIndexCurrent, tx`itemIndex, tx`maxLevel, tx`maxDepth, tx`outKey
      ensures Indexed(root) && Answered(displayIdx, outKey, root, err, token)
    {
      hide Items, Indexed, IsRoot, Screens, CString, Visible, AllFit, IsBlank, ScreenIndex, ItemsBefore, GroupsFit;
      token := 0;
      RootIs(root);
      var numItems, r, subitem;
      err, numItems := SumItems(root);
      if err != Ok { return; }
      if displayIdx >= numItems { return DisplayIdxOutOfRange, 0; }
      EachFits(root);
      err, r, subitem := RetrieveTreeIndexes(displayIdx, root);
      if err != Ok { return; }
      ScreenOfItem(tx.json, root, SettingNow(), r, subitem);
      err, token := QueryItem(r, subitem, outKey, root);
    }
  }
}
