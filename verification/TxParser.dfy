/** The traversal that finds the leaf with a given index, over the parser's mutable query. */
module TxParser {
  import opened Bytes
  import opened Jsmn
  import opened JsonTree
  import opened JsonNav
  import opened ParserErrors
  import opened TxLeaves

  // ----- Text in fixed buffers -----

  // A buffer's text: what comes before the first NUL.
  function CString(s: string): (r: string)
    ensures |r| <= |s| && r == s[..|r|] && '\0' !in r && (|r| < |s| ==> s[|r|] == '\0')
  {
    if s == "" || s[0] == '\0' then "" else [s[0]] + CString(s[1..])
  }

  lemma {:induction false} CStringIs(s: string, n: nat)
    requires n < |s| && s[n] == '\0' && '\0' !in s[..n]
    ensures CString(s) == s[..n]
  {
    if n > 0 {
      assert s[..n][0] == s[0] && s[..n] == [s[0]] + s[1..][..n - 1];
      CStringIs(s[1..], n - 1);
    }
  }

  lemma {:induction false} CStringCut(s: string, n: nat)
    requires n < |s| && s[n] == '\0'
    ensures CString(s) == CString(s[..n])
    decreases n
  {
    if n > 0 {
      assert s[..n][1..] == s[1..][..n - 1];
      CStringCut(s[1..], n - 1);
    }
  }

  // A text without NUL is the text of its characters.
  lemma {:induction false} WholeText(s: string)
    requires '\0' !in s
    ensures CString(s) == s
    decreases s
  {
    if s != "" { WholeText(s[1..]); }
  }

  // Appends as much of the chunk as fits, always terminated; a NUL in the chunk ends the text too.
  method StrcatChunk(dst: array<char>, chunk: string)
    modifies dst
    ensures dst.Length > 0 ==>
      CString(dst[..]) == CString(Take(Take(CString(old(dst[..])), dst.Length - 1) + chunk, dst.Length - 1))
    ensures dst.Length > 0 && '\0' !in chunk ==>
      CString(dst[..]) == Take(Take(CString(old(dst[..])), dst.Length - 1) + chunk, dst.Length - 1)
  {
    if dst.Length == 0 { return; }
    ghost var before := dst[..];
    dst[dst.Length - 1] := '\0';
    var prevSize := |CString(dst[..])|;
    assert CString(dst[..]) == Take(CString(before), dst.Length - 1) by {
      var n := |Take(CString(before), dst.Length - 1)|;
      assert dst[..][..n] == before[..n] == CString(before)[..n];
      CStringIs(dst[..], n);
    }
    ghost var prev := CString(dst[..]);
    var spaceLeft := dst.Length - prevSize - 1;
    var size := if |chunk| > spaceLeft then spaceLeft else |chunk|;
    assert prev + chunk[..size] == Take(prev + chunk, dst.Length - 1);
    if size > 0 {
      forall k | 0 <= k < size { dst[prevSize + k] := chunk[k]; }
      dst[prevSize + size] := '\0';
      assert dst[..][..prevSize + size] == prev + chunk[..size];
      CStringCut(dst[..], prevSize + size);
    } else {
      assert prev + chunk[..size] == prev;
      WholeText(prev);
    }
    if '\0' !in chunk { WholeText(prev + chunk[..size]); }
  }

  lemma TextOfToken(json: ParsedJson, k: nat)
    requires Usable(json) && SpansInBuffer(json) && !HasNul(json.buffer) && k < json.numberOfTokens
    ensures 0 <= json.tokens[k].start <= json.tokens[k].end <= |json.buffer|
    ensures TokenText(json, json.tokens[k]) == json.buffer[json.tokens[k].start..json.tokens[k].end]
    ensures '\0' !in TokenText(json, json.tokens[k])
  {
  }

  lemma FirstOfKey(s: string)
    requires s != ""
    ensures s[0] != '\0' <==> CString(s) != ""
  {
  }

  lemma TakeAppended(a: string, b: string, n: nat)
    ensures Take(Take(Take(a, n), n) + b, n) == Take(a + b, n)
  {
  }

  lemma EmptyTake(s: string, n: nat)
    ensures Take(s, n) == "" <==> s == "" || n == 0
  {
  }

  lemma TakeExtends(a: string, b: string, n: nat)
    requires a <= b
    ensures Take(a, n) <= Take(b, n)
  {
  }

  // ----- The values shown for tokens -----

  const MULTI_SEND := "cosmos-sdk/MsgMultiSend"

  function Substitute(s: string): (r: string) {
    match s
    case "cosmos-sdk/MsgSend" => "Send"
    case "cosmos-sdk/MsgDelegate" => "Delegate"
    case "cosmos-sdk/MsgUndelegate" => "Undelegate"
    case "cosmos-sdk/MsgBeginRedelegate" => "Redelegate"
    case "cosmos-sdk/MsgSubmitProposal" => "Propose"
    case "cosmos-sdk/MsgDeposit" => "Deposit"
    case "cosmos-sdk/MsgVote" => "Vote"
    case "cosmos-sdk/MsgWithdrawDelegationReward" => "Withdraw Reward"
    case "cosmos-sdk/MsgWithdrawValidatorCommission" => "Withdraw Val. Commission"
    case "cosmos-sdk/MsgSetWithdrawAddress" => "Withdraw Set Address"
    case "cosmos-sdk/MsgMultiSend" => "Multi Send"
    case _ => s
  }

  // Of all message types only one is shown with the word that sets the extra depth level.
  lemma MultiSendIsOne(s: string)
    ensures Substitute(s) != s ==> (Substitute(s) == "Multi Send" <==> s == MULTI_SEND)
  {
  }

  // Pages of at most cap characters; an empty value has one empty page.
  function PageCount(s: string, cap: nat): (c: nat)
    requires cap > 0
    ensures c > 0
  {
    if s == "" then 1 else (|s| + cap - 1) / cap
  }

  function Page(s: string, cap: nat, page: nat): string
    requires cap > 0
  {
    if page == 0 then Take(s, cap) else if |s| <= cap then "" else Page(s[cap..], cap, page - 1)
  }

  function Least(a: nat, b: nat): nat {
    if a < b then a else b
  }

  // Where the pages before the n-th one end.
  function Before(cap: nat, n: nat): nat {
    if n == 0 then 0 else cap + Before(cap, n - 1)
  }

  lemma {:induction false} BeforeIs(cap: nat, n: nat)
    ensures Before(cap, n) == n * cap
    decreases n
  {
    if n > 0 {
      BeforeIs(cap, n - 1);
      assert n * cap == (n - 1) * cap + cap;
    }
  }

  /** A page is the stretch of the value that its number says. */
  lemma {:induction false} PageIsStretch(s: string, cap: nat, page: nat)
    requires cap > 0
    ensures var lo := Least(Before(cap, page), |s|);
      Page(s, cap, page) == s[lo..Least(lo + cap, |s|)]
    decreases page
  {
    if page > 0 && |s| > cap {
      PageIsStretch(s[cap..], cap, page - 1);
      var lo := Least(Before(cap, page - 1), |s| - cap);
      assert s[cap..][lo..Least(lo + cap, |s| - cap)] == s[cap + lo..Least(cap + lo + cap, |s|)];
    }
  }

  // The first n pages one after the other.
  function Pages(s: string, cap: nat, n: nat): string
    requires cap > 0
  {
    if n == 0 then "" else Pages(s, cap, n - 1) + Page(s, cap, n - 1)
  }

  lemma {:induction false} PagesShown(s: string, cap: nat, n: nat)
    requires cap > 0
    ensures Pages(s, cap, n) == s[..Least(Before(cap, n), |s|)]
    decreases n
  {
    hide Page;
    if n > 0 {
      PagesShown(s, cap, n - 1);
      PageIsStretch(s, cap, n - 1);
    }
  }

  /** All pages together are the whole value, and there are no more than it takes. */
  lemma PagesAreWhole(s: string, cap: nat)
    requires cap > 0
    ensures Pages(s, cap, PageCount(s, cap)) == s
    ensures PageCount(s, cap) > 1 ==> |s| > (PageCount(s, cap) - 1) * cap
  {
    hide Pages;
    var n := PageCount(s, cap);
    PagesShown(s, cap, n);
    BeforeIs(cap, n);
    EnoughPages(|s|, cap);
    assert s[..|s|] == s;
  }

  lemma EnoughPages(n: nat, cap: nat)
    requires cap > 0
    ensures (n + cap - 1) / cap * cap >= n
    ensures (n + cap - 1) / cap > 1 ==> n > ((n + cap - 1) / cap - 1) * cap
  {
    var q, r := (n + cap - 1) / cap, (n + cap - 1) % cap;
    assert n + cap - 1 == q * cap + r;
    assert (q - 1) * cap == q * cap - cap;
  }

  // ----- The transaction object -----

  class TxObject {
    var json: ParsedJson

    // set once the root fields are indexed, and what to group then
    var cacheValid: bool
    var msgTypeGrouping: bool
    var msgFromGrouping: bool
    var msgFromGroupingHideAll: bool
    const hideAllBefore: bool      // what that flag was left at by another transaction
    var filterMsgTypeCount: nat
    var filterMsgTypeValidIdx: int
    var filterMsgFromCount: nat
    var filterMsgFromValidIdx: int

    // the query
    var itemIndexCurrent: nat
    var maxLevel: nat
    var maxDepth: nat
    var itemIndex: int
    var outKey: array<char>

    var extraDepthLevel: bool
    var ownAddr: Option<string>

    // _read_json_tx, which leaves one flag as it was, and the own address the command handler sets.
    constructor (json: ParsedJson, ownAddr: Option<string>, hideAllBefore: bool)
      ensures this.json == json && this.ownAddr == ownAddr && !cacheValid && !extraDepthLevel
      ensures this.hideAllBefore == hideAllBefore && msgFromGroupingHideAll == hideAllBefore
      ensures filterMsgTypeCount == 0 && filterMsgFromCount == 0
    {
      this.json, this.ownAddr := json, ownAddr;
      cacheValid, extraDepthLevel := false, false;
      msgTypeGrouping, msgFromGrouping := false, false;
      this.hideAllBefore, msgFromGroupingHideAll := hideAllBefore, hideAllBefore;
      filterMsgTypeCount, filterMsgTypeValidIdx, filterMsgFromCount, filterMsgFromValidIdx := 0, 0, 0, 0;
      itemIndexCurrent, maxLevel, maxDepth, itemIndex := 0, 0, 0, 0;
      outKey := new char[1];
    }

    predicate Parsed()
      reads this
    {
      Usable(json) && SpansInBuffer(json) && !HasNul(json.buffer)
    }

    predicate Valid()
      reads this, outKey
    {
      && Parsed()
      && outKey.Length > 0 && |CString(outKey[..])| < outKey.Length
    }

    function Key(): string
      reads this, outKey
    {
      CString(outKey[..])
    }

    ghost function GroupingRule(): Rule
      reads this, outKey
    {
      Rule(if outKey.Length > 0 then outKey.Length - 1 else 0, cacheValid,
           msgTypeGrouping, filterMsgTypeValidIdx, msgFromGrouping, filterMsgFromValidIdx, msgFromGroupingHideAll)
    }

    method AppendKeyItem(k: nat, ghost path: string)
      requires Valid() && k < json.numberOfTokens && Key() == Take(path, outKey.Length - 1)
      modifies outKey
      ensures Valid() && Key() == Take(Join(path, TokenText(json, json.tokens[k])), outKey.Length - 1)
      ensures old(Key()) <= Key()
    {
      hide CString, SpansInBuffer, HasNul, TokenText, Take;
      ghost var cap := outKey.Length - 1;
      FirstOfKey(outKey[..]);
      TextOfToken(json, k);
      EmptyTake(path, cap);
      var text := json.buffer[json.tokens[k].start..json.tokens[k].end];
      ghost var separated := if path == "" then "" else path + "/";
      if outKey[0] != '\0' {
        TakeAppended(path, "/", cap);
        StrcatChunk(outKey, "/");
      } else {
        EmptyTake(separated, cap);
      }
      TakeAppended(separated, text, cap);
      StrcatChunk(outKey, text);
      TakeExtends(path, Join(path, text), cap);
      assert separated + text == Join(path, text);
    }

    // Cuts the key back to its first n characters.
    method TruncateKey(n: nat)
      requires Valid() && n <= |Key()|
      modifies outKey
      ensures Valid() && Key() == old(Key())[..n]
    {
      ghost var before := Key();
      outKey[n] := '\0';
      assert outKey[..][..n] == before[..n];
      CStringIs(outKey[..], n);
    }

    // The query after a search that came to f.
    twostate predicate Came(f: Found, err: ParserError, token: nat)
      reads this, outKey
    {
      && Valid() && maxLevel == old(maxLevel) && maxDepth == old(maxDepth)
      && itemIndexCurrent == f.cur && itemIndex == f.item
      && match f
         case Hit(leaf, _, _) => err == Ok && token == leaf.index && Key() == Take(leaf.path, outKey.Length - 1)
         case Miss(_, _) => (err == QueryNoResults || err == NoData) && Key() == old(Key())
    }

    // A leaf is the one looked for, or is counted, or is skipped with the wanted index moved on.
    method VisitLeaf(i: nat, ghost path: string) returns (err: ParserError, token: nat)
      requires Valid() && Key() == Take(path, outKey.Length - 1)
      modifies this`itemIndexCurrent, this`itemIndex
      ensures Came(Search([LeafRef(i, path)], old(itemIndexCurrent), old(itemIndex), old(GroupingRule())), err, token)
    {
      hide CString, SpansInBuffer, HasNul;
      token := 0;
      var skipTypeField := cacheValid && msgTypeGrouping && Key() == MSG_TYPE
        && filterMsgTypeValidIdx != itemIndexCurrent;
      var skipFromFieldHidingRule := msgFromGroupingHideAll || filterMsgFromValidIdx != itemIndexCurrent;
      var skipFromField := cacheValid && msgFromGrouping && Key() == MSG_FROM && skipFromFieldHidingRule;
      var skipField := skipFromField || skipTypeField;
      if !skipField && itemIndexCurrent == itemIndex { return Ok, i; }
      if skipField { itemIndex := itemIndex + 1; }
      itemIndexCurrent := itemIndexCurrent + 1;
      return QueryNoResults, token;
    }

    /** Finds the leaf of the node n at token i that the query's item index asks for, keeping
        the level and depth budgets, and the key unless the leaf is found. */
    method TraverseFind(i: nat, ghost n: Node, ghost path: string) returns (err: ParserError, token: nat)
      requires Valid() && Hosts(json, i, n) && Key() == Take(path, outKey.Length - 1)
      modifies this`itemIndexCurrent, this`itemIndex, this`maxLevel, this`maxDepth, outKey
      ensures Came(Search(old(Leaves(json, n, i, maxLevel, maxDepth, path)),
        old(itemIndexCurrent), old(itemIndex), old(GroupingRule())), err, token)
      decreases maxDepth, 2
    {
      hide ChildLeaves, Leaves, Laid, Hosts, SpansInBuffer, Search, HasNul, CString;
      LeavesByType(json, n, i, maxLevel, maxDepth, path);
      token := 0;
      var typ := json.tokens[i].typ;
      if maxLevel <= 0 || maxDepth <= 0 || typ == String || typ == Primitive {
        err, token := VisitLeaf(i, path);
        return;
      }
      var count;
      err, count := ObjectGetElementCount(json, i);
      if err != Ok { return; }
      match typ
      case Object =>
        err, token := FindInObject(i, count, n, path);
      case Array =>
        err, token := FindInArray(i, count, n, path);
    }

    // Searches one value with its key appended, and level and depth one less meanwhile.
    method FindInEntry(keyIndex: nat, valueIndex: nat, ghost n: Node, ghost path: string)
      returns (err: ParserError, token: nat)
      requires Valid() && Hosts(json, valueIndex, n) && keyIndex < json.numberOfTokens
      requires maxLevel > 0 && maxDepth > 0 && Key() == Take(path, outKey.Length - 1)
      modifies this`itemIndexCurrent, this`itemIndex, this`maxLevel, this`maxDepth, outKey
      ensures Came(Search(old(Leaves(json, n, valueIndex, maxLevel - 1, maxDepth - 1,
        Join(path, TokenText(json, json.tokens[keyIndex])))),
        old(itemIndexCurrent), old(itemIndex), old(GroupingRule())), err, token)
      decreases maxDepth, 0
    {
      hide Search, Leaves, Laid, Hosts, HostsListing, CString, Take, SpansInBuffer, HasNul, Join, TokenText;
      var keyLen := |Key()|;
      AppendKeyItem(keyIndex, path);
      maxLevel := maxLevel - 1;
      maxDepth := maxDepth - 1;
      err, token := TraverseFind(valueIndex, n, Join(path, TokenText(json, json.tokens[keyIndex])));
      maxLevel := maxLevel + 1;
      maxDepth := maxDepth + 1;
      if err == Ok { return; }
      TruncateKey(keyLen);
    }

    method FindInObject(i: nat, count: nat, ghost n: Node, ghost path: string) returns (err: ParserError, token: nat)
      requires Valid() && Hosts(json, i, n) && n.ObjectNode? && Key() == Take(path, outKey.Length - 1)
      requires maxLevel > 0 && maxDepth > 0 && i < json.numberOfTokens && count == |Keys(json, i)|
      modifies this`itemIndexCurrent, this`itemIndex, this`maxLevel, this`maxDepth, outKey
      ensures Came(Search(old(ChildLeaves(json, n, i, 0, maxLevel, maxDepth, path)),
        old(itemIndexCurrent), old(itemIndex), old(GroupingRule())), err, token)
      decreases maxDepth, 1
    {
      hide Search, ChildLeaves, Leaves, Laid, Hosts, ItemIndices, KeyIndices, CString, Take, SpansInBuffer, HasNul,
           Join, TokenText, HostsListing;
      token := 0;
      KeysOfObject(json, i, n);
      assert Visited(json, n, i) == count;
      ghost var rule, level, depth := GroupingRule(), maxLevel, maxDepth;
      for j := 0 to count
        invariant Valid() && maxLevel == level && maxDepth == depth && Key() == old(Key())
        invariant Search(ChildLeaves(json, n, i, 0, level, depth, path), old(itemIndexCurrent), old(itemIndex), rule)
          == Search(ChildLeaves(json, n, i, j, level, depth, path), itemIndexCurrent, itemIndex, rule)
      {
        var keyIndex, valueIndex;
        err, keyIndex := ObjectGetNthKey(json, i, j);
        if err != Ok { return; }
        err, valueIndex := ObjectGetNthValue(json, i, j);
        if err != Ok { return; }
        SearchChild(json, n, i, j, level, depth, path, itemIndexCurrent, itemIndex, rule);
        ChildHosted(json, i, n, j);
        err, token := FindInEntry(keyIndex, valueIndex, n.values[j], path);
        if err == Ok { return; }
      }
      SearchNoChild(json, n, i, count, level, depth, path, itemIndexCurrent, itemIndex, rule);
      return QueryNoResults, 0;
    }

    method FindInArray(i: nat, count: nat, ghost n: Node, ghost path: string) returns (err: ParserError, token: nat)
      requires Valid() && Hosts(json, i, n) && n.ArrayNode? && Key() == Take(path, outKey.Length - 1)
      requires maxLevel > 0 && maxDepth > 0 && i < json.numberOfTokens && count == |Keys(json, i)|
      modifies this`itemIndexCurrent, this`itemIndex, this`maxLevel, this`maxDepth, outKey
      ensures Came(Search(old(ChildLeaves(json, n, i, 0, maxLevel, maxDepth, path)),
        old(itemIndexCurrent), old(itemIndex), old(GroupingRule())), err, token)
      decreases maxDepth, 1
    {
      hide Search, ChildLeaves, Leaves, Laid, Hosts, ItemIndices, KeyIndices, CString, Take, SpansInBuffer, HasNul,
           Join, TokenText, HostsListing, Keys, Elements;
      token := 0;
      ElementsOfArray(json, i, n);
      ghost var rule, level, depth := GroupingRule(), maxLevel, maxDepth;
      ghost var found := Search(ChildLeaves(json, n, i, 0, level, depth, path), itemIndexCurrent, itemIndex, rule);
      for j := 0 to count
        invariant Valid() && maxLevel == level && maxDepth == depth && Key() == old(Key())
        invariant j <= |n.items|
        invariant found == Search(ChildLeaves(json, n, i, j, level, depth, path), itemIndexCurrent, itemIndex, rule)
      {
        var elementIndex;
        err, elementIndex := ArrayGetNthElement(json, i, j);
        if err != Ok {
          SearchNoChild(json, n, i, j, level, depth, path, itemIndexCurrent, itemIndex, rule);
          return;
        }
        SearchChild(json, n, i, j, level, depth, path, itemIndexCurrent, itemIndex, rule);
        err, token := FindInElement(elementIndex, n.items[j], path);
        if err == Ok { return; }
      }
      SearchNoChild(json, n, i, count, level, depth, path, itemIndexCurrent, itemIndex, rule);
      return QueryNoResults, 0;
    }

    // Searches one element with depth one less meanwhile.
    method FindInElement(i: nat, ghost n: Node, ghost path: string) returns (err: ParserError, token: nat)
      requires Valid() && Hosts(json, i, n) && Key() == Take(path, outKey.Length - 1) && maxDepth > 0
      modifies this`itemIndexCurrent, this`itemIndex, this`maxLevel, this`maxDepth, outKey
      ensures Came(Search(old(Leaves(json, n, i, maxLevel, maxDepth - 1, path)),
        old(itemIndexCurrent), old(itemIndex), old(GroupingRule())), err, token)
      decreases maxDepth, 0
    {
      hide Search, ChildLeaves, Leaves, Laid, Hosts, CString, Take, SpansInBuffer, HasNul;
      maxDepth := maxDepth - 1;
      err, token := TraverseFind(i, n, path);
      maxDepth := maxDepth + 1;
    }

    // INIT_QUERY_CONTEXT, with the key already set to the name of the root field.
    method InitQuery(key: array<char>, level: nat, depth: nat, name: string)
      requires Parsed() && key.Length > 0 && '\0' !in name
      modifies this`itemIndexCurrent, this`itemIndex, this`maxLevel, this`maxDepth, this`outKey, key
      ensures outKey == key && Valid() && Key() == Take(name, key.Length - 1)
      ensures itemIndexCurrent == 0 && itemIndex == 0 && maxLevel == level && maxDepth == depth
    {
      hide CString, SpansInBuffer, HasNul;
      itemIndexCurrent := 0;
      maxDepth := depth;
      maxLevel := level;
      itemIndex := 0;
      forall k | 0 <= k < key.Length { key[k] := '\0'; }
      outKey := key;
      FirstOfKey(outKey[..]);
      assert CString(outKey[..]) == "" && "" + name == name;
      StrcatChunk(outKey, name);
    }

    /** A query from a fresh context for item k finds the k-th leaf that is shown. */
    method Query(start: nat, level: nat, depth: nat, name: string, k: nat, key: array<char>, ghost n: Node)
      returns (err: ParserError, token: nat)
      requires Parsed() && Hosts(json, start, n) && key.Length > 0 && '\0' !in name
      modifies this`itemIndexCurrent, this`itemIndex, this`maxLevel, this`maxDepth, this`outKey, key
      ensures outKey == key && Valid()
      ensures var shown := Shown(Leaves(json, n, start, level, depth, name), 0, GroupingRule());
        if k < |shown| then err == Ok && token == shown[k].index && Key() == Take(shown[k].path, key.Length - 1)
        else err == QueryNoResults || err == NoData
    {
      hide Leaves, Laid, Hosts, Search, Shown, SpansInBuffer, CString;
      InitQuery(key, level, depth, name);
      itemIndex := k;
      SearchFindsKthShown(Leaves(json, n, start, level, depth, name), 0, k, GroupingRule());
      err, token := TraverseFind(start, n, name);
    }

    /** A page of a token's value. Showing a message type resets the extra depth level, and the
        multi-send type sets it. */
    method GetToken(k: nat, size: nat, page: nat) returns (err: ParserError, val: string, pageCount: nat)
      requires Parsed() && k < json.numberOfTokens && size > 1
      modifies this`extraDepthLevel
      ensures var text := TokenText(json, json.tokens[k]);
        && pageCount == PageCount(Substitute(text), size - 1)
        && err == (if page < pageCount then Ok else DisplayPageOutOfRange)
        && val == Page(Substitute(text), size - 1, page)
        && extraDepthLevel == (if Substitute(text) == text then old(extraDepthLevel) else text == MULTI_SEND)
    {
      hide Substitute, Page, PageCount, HasNul;
      // tokens of a parsed text are closed, so start > end does not occur
      var text := json.buffer[json.tokens[k].start..json.tokens[k].end];
      var shown := Substitute(text);
      MultiSendIsOne(text);
      if shown != text {
        extraDepthLevel := false;
        if shown == "Multi Send" { extraDepthLevel := true; }
      }
      val := Page(shown, size - 1, page);
      pageCount := PageCount(shown, size - 1);
      err := if page >= pageCount then DisplayPageOutOfRange else Ok;
    }
  }
}
