/**
 * Navigation over the flat token array, by comparing where tokens start with where the
 * previous child ended. On the tokens of a tree the scans find exactly its children.
 */
module JsonNav {
  import opened Bytes
  import opened Jsmn
  import opened JsmnProperties
  import opened JsonText
  import opened JsonTree
  import opened ParserErrors

  // One slot more than numberOfTokens can be read: object scans look one token ahead.
  datatype ParsedJson = ParsedJson(tokens: seq<Token>, numberOfTokens: nat, buffer: string)

  predicate Usable(json: ParsedJson) {
    json.numberOfTokens < |json.tokens|
  }

  const TX_BUFFER_SIZE := 16384

  predicate HasNul(s: string) {
    '\0' in s
  }

  // after stands for what is read from behind the array.
  method ParseJson(buffer: string, capacity: nat, after: Token) returns (err: ParserError, json: ParsedJson)
    ensures Usable(json) && json.buffer == buffer
    ensures err == Ok <==>
      && |buffer| <= TX_BUFFER_SIZE && !HasNul(buffer)
      && Run(buffer, START, capacity).Done? && Run(buffer, START, capacity).st.toks != []
    ensures err == Ok ==>
      json.tokens[..json.numberOfTokens] == Run(buffer, START, capacity).st.toks
    ensures err == Ok ==> SpansInBuffer(json) && AllTyped(json)
    ensures |buffer| > TX_BUFFER_SIZE ==> err == ContextUnexpectedSize
    ensures |buffer| <= TX_BUFFER_SIZE && HasNul(buffer) ==> err == UnexpectedCharacters
    ensures |buffer| <= TX_BUFFER_SIZE && !HasNul(buffer) ==>
      match Run(buffer, START, capacity)
      case Done(st) => st.toks == [] ==> err == JsonZeroTokens
      case Failed(NoMemory, _) => err == JsonTooManyTokens
      case Failed(Invalid, _) => err == UnexpectedCharacters
      case Failed(Partial, _) => err == JsonIncompleteJson
  {
    json := ParsedJson([after], 0, buffer);
    if |buffer| > TX_BUFFER_SIZE { return ContextUnexpectedSize, json; }
    for i := 0 to |buffer|
      invariant forall k :: 0 <= k < i ==> buffer[k] != '\0'
    {
      if buffer[i] == '\0' { return UnexpectedCharacters, json; }
    }
    var tokens := new Token[capacity](i => Token(Undefined, 0, 0, 0));
    var parser := new Parser.Init(tokens);
    var failure, count := parser.Parse(buffer);
    match failure {
      case Some(NoMemory) => return JsonTooManyTokens, json;
      case Some(Invalid) => return UnexpectedCharacters, json;
      case Some(Partial) => return JsonIncompleteJson, json;
      case None =>
    }
    if count == 0 { return JsonZeroTokens, json; }
    if count > capacity { return JsonTooManyTokens, json; }
    json := ParsedJson(tokens[..] + [after], count, buffer);
    assert json.tokens[..count] == tokens[..count];
    AcceptedTokensInBuffer(json, capacity);
    return Ok, json;
  }

  // The spans of accepted tokens lie in the text.
  lemma AcceptedTokensInBuffer(json: ParsedJson, capacity: nat)
    requires Usable(json) && Run(json.buffer, START, capacity).Done?
    requires json.tokens[..json.numberOfTokens] == Run(json.buffer, START, capacity).st.toks
    ensures SpansInBuffer(json) && AllTyped(json)
  {
    AcceptedSpans(json.buffer, START, capacity);
    var end := Run(json.buffer, START, capacity).st;
    forall i | 0 <= i < json.numberOfTokens
      ensures 0 <= json.tokens[i].start <= json.tokens[i].end <= |json.buffer| && json.tokens[i].typ != Undefined {
      assert json.tokens[i] == json.tokens[..json.numberOfTokens][i] == end.toks[i];
      assert TokenInPlace(json.buffer, end.toks[i], end.pos);
    }
  }

  predicate SpansInBuffer(json: ParsedJson)
    requires Usable(json)
  {
    forall i :: 0 <= i < json.numberOfTokens ==>
      0 <= json.tokens[i].start <= json.tokens[i].end <= |json.buffer|
  }

  predicate AllTyped(json: ParsedJson)
    requires Usable(json)
  {
    forall i :: 0 <= i < json.numberOfTokens ==> json.tokens[i].typ != Undefined
  }

  // ----- What the scans count -----

  // The tokens counted as elements when scanning from token k on; prev is where the element
  // before ended.
  function ArrayScan(toks: seq<Token>, n: nat, k: nat, end: int, prev: int): seq<nat>
    requires n <= |toks|
    decreases n - k
  {
    if k >= n || toks[k].start > end then []
    else if toks[k].start <= prev then ArrayScan(toks, n, k + 1, end, prev)
    else [k] + ArrayScan(toks, n, k + 1, end, toks[k].end)
  }

  // The tokens counted as keys; the token after a key is taken to be its value.
  function KeyScan(toks: seq<Token>, n: nat, k: nat, end: int, prev: int): seq<nat>
    requires n < |toks|
    decreases n - k
  {
    if k >= n || toks[k].start > end then []
    else if toks[k].start <= prev then KeyScan(toks, n, k + 1, end, prev)
    else [k] + KeyScan(toks, n, k + 1, end, toks[k + 1].end)
  }

  function Elements(json: ParsedJson, i: nat): seq<nat>
    requires Usable(json) && i < json.numberOfTokens
  {
    var t := json.tokens[i];
    ArrayScan(json.tokens, json.numberOfTokens, i + 1, t.end, t.start)
  }

  function Keys(json: ParsedJson, i: nat): seq<nat>
    requires Usable(json) && i < json.numberOfTokens
  {
    var t := json.tokens[i];
    KeyScan(json.tokens, json.numberOfTokens, i + 1, t.end, t.start)
  }

  method ArrayGetElementCount(json: ParsedJson, i: nat) returns (err: ParserError, count: nat)
    requires Usable(json)
    ensures if i < json.numberOfTokens then err == Ok && count == |Elements(json, i)| else err == NoData && count == 0
  {
    count := 0;
    if i >= json.numberOfTokens { return NoData, 0; }
    var arr, k := json.tokens[i], i;
    var prev := arr.start;
    while true
      invariant i <= k < json.numberOfTokens
      invariant count + |ArrayScan(json.tokens, json.numberOfTokens, k + 1, arr.end, prev)| == |Elements(json, i)|
      decreases json.numberOfTokens - k
    {
      k := k + 1;
      if k >= json.numberOfTokens { break; }
      var current := json.tokens[k];
      if current.start > arr.end { break; }
      if current.start <= prev { continue; }
      prev := current.end;
      count := count + 1;
    }
    return Ok, count;
  }

  method ArrayGetNthElement(json: ParsedJson, i: nat, nth: nat) returns (err: ParserError, k: nat)
    requires Usable(json)
    ensures err == Ok <==> i < json.numberOfTokens && nth < |Elements(json, i)|
    ensures if err == Ok then k == Elements(json, i)[nth] else err == NoData
  {
    k := i;
    if i >= json.numberOfTokens { return NoData, k; }
    var arr, count := json.tokens[i], 0;
    var prev := arr.start;
    while true
      invariant i <= k < json.numberOfTokens && count <= nth
      invariant count <= |Elements(json, i)|
      invariant ArrayScan(json.tokens, json.numberOfTokens, k + 1, arr.end, prev) == Elements(json, i)[count..]
      decreases json.numberOfTokens - k
    {
      k := k + 1;
      if k >= json.numberOfTokens { break; }
      var current := json.tokens[k];
      if current.start > arr.end { break; }
      if current.start <= prev { continue; }
      prev := current.end;
      if count == nth { return Ok, k; }
      count := count + 1;
    }
    return NoData, k;
  }

  method ObjectGetElementCount(json: ParsedJson, i: nat) returns (err: ParserError, count: nat)
    requires Usable(json)
    ensures if i < json.numberOfTokens then err == Ok && count == |Keys(json, i)| else err == NoData && count == 0
  {
    count := 0;
    if i >= json.numberOfTokens { return NoData, 0; }
    var obj, k := json.tokens[i], i + 1;
    var prev := obj.start;
    while true
      invariant i < k <= json.numberOfTokens
      invariant count + |KeyScan(json.tokens, json.numberOfTokens, k, obj.end, prev)| == |Keys(json, i)|
      decreases json.numberOfTokens - k
    {
      if k >= json.numberOfTokens { break; }
      var key := json.tokens[k];
      k := k + 1;
      var value := json.tokens[k];
      if key.start > obj.end { break; }
      if key.start <= prev { continue; }
      prev := value.end;
      count := count + 1;
    }
    return Ok, count;
  }

  method ObjectGetNthKey(json: ParsedJson, i: nat, nth: nat) returns (err: ParserError, k: nat)
    requires Usable(json)
    ensures err == Ok <==> i < json.numberOfTokens && nth < |Keys(json, i)|
    ensures if err == Ok then k == Keys(json, i)[nth] else err == NoData
  {
    k := i;
    if i >= json.numberOfTokens { return NoData, k; }
    var obj, count := json.tokens[i], 0;
    var prev := obj.start;
    k := k + 1;
    while true
      invariant i < k <= json.numberOfTokens && count <= nth
      invariant count <= |Keys(json, i)|
      invariant KeyScan(json.tokens, json.numberOfTokens, k, obj.end, prev) == Keys(json, i)[count..]
      decreases json.numberOfTokens - k
    {
      if k >= json.numberOfTokens { break; }
      var key := json.tokens[k];
      k := k + 1;
      var value := json.tokens[k];
      if key.start > obj.end { break; }
      if key.start <= prev { continue; }
      prev := value.end;
      if count == nth {
        k := k - 1;
        return Ok, k;
      }
      count := count + 1;
    }
    return NoData, k;
  }

  method ObjectGetNthValue(json: ParsedJson, i: nat, nth: nat) returns (err: ParserError, k: nat)
    requires Usable(json)
    ensures err == Ok <==> i < json.numberOfTokens && nth < |Keys(json, i)|
    ensures if err == Ok then k == Keys(json, i)[nth] + 1 else err == NoData
  {
    if i >= json.numberOfTokens { return NoData, 0; }
    err, k := ObjectGetNthKey(json, i, nth);
    if err != Ok { return; }
    k := k + 1;
  }

  // ----- Lookup by name -----

  function Text(json: ParsedJson, i: nat): string
    requires Usable(json) && SpansInBuffer(json) && i < json.numberOfTokens
  {
    json.buffer[json.tokens[i].start..json.tokens[i].end]
  }

  // The value of the first of the keys from index k on with that text.
  function FirstNamed(json: ParsedJson, keys: seq<nat>, name: string): (r: Option<nat>)
    requires Usable(json) && SpansInBuffer(json) && forall j :: 0 <= j < |keys| ==> keys[j] < json.numberOfTokens
  {
    if keys == [] || keys[0] + 1 >= json.numberOfTokens then None
    else if Text(json, keys[0]) == name then Some(keys[0] + 1)
    else FirstNamed(json, keys[1..], name)
  }

  predicate InRange(keys: seq<nat>, lo: nat, n: nat) {
    forall j :: 0 <= j < |keys| ==> lo <= keys[j] < n
  }

  lemma {:induction false} KeysInRange(toks: seq<Token>, n: nat, k: nat, end: int, prev: int)
    requires n < |toks|
    ensures InRange(KeyScan(toks, n, k, end, prev), k, n)
    decreases n - k
  {
    if k < n && toks[k].start <= end {
      var prev' := if toks[k].start <= prev then prev else toks[k + 1].end;
      KeysInRange(toks, n, k + 1, end, prev');
    }
  }

  function LookUp(json: ParsedJson, i: nat, name: string): (r: Option<nat>)
    requires Usable(json) && SpansInBuffer(json) && i < json.numberOfTokens
  {
    KeysInRange(json.tokens, json.numberOfTokens, i + 1, json.tokens[i].end, json.tokens[i].start);
    FirstNamed(json, Keys(json, i), name)
  }

  method ObjectGetValue(json: ParsedJson, i: nat, name: string) returns (err: ParserError, k: nat)
    requires Usable(json) && SpansInBuffer(json)
    ensures err == Ok <==> i < json.numberOfTokens && json.tokens[i].typ == Object && LookUp(json, i, name).Some?
    ensures if err == Ok then LookUp(json, i, name) == Some(k) else err == NoData
  {
    k := i;
    if i >= json.numberOfTokens { return NoData, k; }
    var obj := json.tokens[i];
    if obj.typ != Object { return NoData, k; }
    var prev := obj.start;
    ghost var rest := Keys(json, i);
    KeysInRange(json.tokens, json.numberOfTokens, i + 1, obj.end, obj.start);
    k := k + 1;
    while k < json.numberOfTokens
      invariant i < k <= json.numberOfTokens
      invariant rest == KeyScan(json.tokens, json.numberOfTokens, k, obj.end, prev)
      invariant forall j :: 0 <= j < |rest| ==> rest[j] < json.numberOfTokens
      invariant FirstNamed(json, rest, name) == LookUp(json, i, name)
      decreases json.numberOfTokens - k
    {
      var key := json.tokens[k];
      k := k + 1;
      if k >= json.numberOfTokens { break; }
      var value := json.tokens[k];
      if key.start > obj.end { break; }
      if key.start <= prev { continue; }
      prev := value.end;
      if |name| == key.end - key.start {
        if name == json.buffer[key.start..key.end] { return Ok, k; }
      }
      rest := rest[1..];
    }
    return NoData, k;
  }

  // ----- Scans of a tree's tokens -----

  // The tokens from i on are those of n, and what follows them starts after n ends.
  predicate Hosts(json: ParsedJson, i: nat, n: Node) {
    Usable(json) && Laid(n) && HostsListing(json, i, Listing(n), n.tok.end)
  }

  predicate Occurs(json: ParsedJson, i: nat, list: seq<Token>)
    requires Usable(json)
  {
    i + |list| <= json.numberOfTokens && json.tokens[i..i + |list|] == list
  }

  lemma OccursSplit(json: ParsedJson, i: nat, s: seq<Token>, t: seq<Token>)
    requires Usable(json) && Occurs(json, i, s + t)
    ensures Occurs(json, i, s) && Occurs(json, i + |s|, t)
  {
    var st := s + t;
    assert json.tokens[i..i + |st|][..|s|] == s && json.tokens[i..i + |st|][|s|..] == t;
  }

  lemma OccursAt(json: ParsedJson, i: nat, list: seq<Token>, j: nat)
    requires Usable(json) && Occurs(json, i, list) && j < |list|
    ensures json.tokens[i + j] == list[j]
  {
    assert json.tokens[i..i + |list|][j] == list[j];
  }

  lemma OccursFits(json: ParsedJson, i: nat, list: seq<Token>)
    requires Usable(json) && Occurs(json, i, list)
    ensures i + |list| <= json.numberOfTokens
  {
  }

  predicate HostsListing(json: ParsedJson, i: nat, list: seq<Token>, end: int)
    requires Usable(json)
  {
    && Occurs(json, i, list)
    && (i + |list| < json.numberOfTokens ==> json.tokens[i + |list|].start > end)
  }

  // Tokens that start no later than prev are passed over.
  lemma {:induction false} ScansPass(json: ParsedJson, k: nat, m: nat, end: int, prev: int)
    requires Usable(json) && k <= m <= json.numberOfTokens
    requires forall j :: k <= j < m ==> json.tokens[j].start <= prev && json.tokens[j].start <= end
    ensures ArrayScan(json.tokens, json.numberOfTokens, k, end, prev)
         == ArrayScan(json.tokens, json.numberOfTokens, m, end, prev)
    ensures KeyScan(json.tokens, json.numberOfTokens, k, end, prev)
         == KeyScan(json.tokens, json.numberOfTokens, m, end, prev)
    decreases m - k
  {
    if k < m { ScansPass(json, k + 1, m, end, prev); }
  }

  lemma {:induction false} ListingPassed(json: ParsedJson, k: nat, list: seq<Token>, lo: int, end: int, prev: int)
    requires Usable(json) && Occurs(json, k, list)
    requires Within(list, lo, prev) && prev <= end
    ensures var m := k + |list|;
      && ArrayScan(json.tokens, json.numberOfTokens, k, end, prev)
         == ArrayScan(json.tokens, json.numberOfTokens, m, end, prev)
      && KeyScan(json.tokens, json.numberOfTokens, k, end, prev)
         == KeyScan(json.tokens, json.numberOfTokens, m, end, prev)
  {
    forall j | k <= j < k + |list| ensures json.tokens[j].start <= prev {
      OccursAt(json, k, list, j - k);
      assert list[j - k] in list;
    }
    ScansPass(json, k, k + |list|, end, prev);
  }

  /** On an array's tokens the scan counts exactly its elements, at their preorder indices. */
  lemma {:induction false} ItemsScanned(json: ParsedJson, i: nat, xs: seq<Node>, a: int, b: int)
    requires Usable(json) && ItemsLaid(xs, a, b) && HostsListing(json, i, ListItems(xs), b)
    ensures ArrayScan(json.tokens, json.numberOfTokens, i, b, a) == ItemIndices(xs, i)
    decreases xs
  {
    if xs != [] {
      hide Occurs;
      FirstItem(json, i, xs, a, b);
      ItemsScanned(json, i + Size(xs[0]), xs[1..], xs[0].tok.end, b);
    }
  }

  lemma {:induction false} FirstItem(json: ParsedJson, i: nat, xs: seq<Node>, a: int, b: int)
    requires Usable(json) && xs != [] && ItemsLaid(xs, a, b) && HostsListing(json, i, ListItems(xs), b)
    ensures var x := xs[0];
      && i < json.numberOfTokens && json.tokens[i] == x.tok
      && Hosts(json, i, x)
      && HostsListing(json, i + Size(x), ListItems(xs[1..]), b)
      && ArrayScan(json.tokens, json.numberOfTokens, i + 1, b, x.tok.end)
        == ArrayScan(json.tokens, json.numberOfTokens, i + Size(x), b, x.tok.end)
  {
    hide Occurs, Listing, ArrayScan, KeyScan;
    var x, rest := xs[0], ListItems(xs[1..]);
    OccursSplit(json, i, Listing(x), rest);
    ListingSplit(json, i, x, b);
    if rest != [] {
      OccursAt(json, i + Size(x), rest, 0);
      assert rest[0] == xs[1].tok;
    }
  }

  lemma WithinTail(list: seq<Token>, a: int, b: int)
    requires list != [] && Within(list, a, b)
    ensures Within(list[1..], a, b)
  {
  }

  // A node's own token, and the tokens under it, which scans behind it pass over.
  lemma {:induction false} ListingSplit(json: ParsedJson, i: nat, n: Node, end: int)
    requires Usable(json) && Laid(n) && Occurs(json, i, Listing(n)) && n.tok.end <= end
    ensures i < json.numberOfTokens && json.tokens[i] == n.tok && Occurs(json, i + 1, Listing(n)[1..])
    ensures var m := i + Size(n);
      && ArrayScan(json.tokens, json.numberOfTokens, i + 1, end, n.tok.end)
         == ArrayScan(json.tokens, json.numberOfTokens, m, end, n.tok.end)
      && KeyScan(json.tokens, json.numberOfTokens, i, end, n.tok.end)
         == KeyScan(json.tokens, json.numberOfTokens, m, end, n.tok.end)
  {
    hide Occurs, Laid, ArrayScan, KeyScan, Within;
    var list := Listing(n);
    ListingWithin(n);
    WithinTail(list, n.tok.start, n.tok.end);
    OccursAt(json, i, list, 0);
    assert list == [list[0]] + list[1..];
    OccursSplit(json, i, [list[0]], list[1..]);
    ListingPassed(json, i + 1, list[1..], n.tok.start, end, n.tok.end);
    ListingPassed(json, i, list, n.tok.start, end, n.tok.end);
  }

  lemma {:induction false} EntriesScanned(json: ParsedJson, i: nat, ks: seq<Token>, vs: seq<Node>, a: int, b: int)
    requires Usable(json) && |ks| == |vs| && EntriesLaid(ks, vs, a, b)
    requires HostsListing(json, i, ListEntries(ks, vs), b)
    ensures KeyScan(json.tokens, json.numberOfTokens, i, b, a) == KeyIndices(ks, vs, i)
    decreases vs
  {
    if ks != [] {
      hide Occurs;
      FirstEntry(json, i, ks, vs, a, b);
      EntriesScanned(json, i + 1 + Size(vs[0]), ks[1..], vs[1..], vs[0].tok.end, b);
    }
  }

  lemma {:induction false} FirstEntry(json: ParsedJson, i: nat, ks: seq<Token>, vs: seq<Node>, a: int, b: int)
    requires Usable(json) && |ks| == |vs| && ks != [] && EntriesLaid(ks, vs, a, b)
    requires HostsListing(json, i, ListEntries(ks, vs), b)
    ensures var v := vs[0];
      && i + 1 < json.numberOfTokens && json.tokens[i] == ks[0] && json.tokens[i + 1] == v.tok
      && Hosts(json, i + 1, v)
      && HostsListing(json, i + 1 + Size(v), ListEntries(ks[1..], vs[1..]), b)
      && KeyScan(json.tokens, json.numberOfTokens, i + 1, b, v.tok.end)
        == KeyScan(json.tokens, json.numberOfTokens, i + 1 + Size(v), b, v.tok.end)
  {
    hide Occurs, Listing, ArrayScan, KeyScan;
    var k, v, rest := ks[0], vs[0], ListEntries(ks[1..], vs[1..]);
    assert [k] + Listing(v) + rest == [k] + (Listing(v) + rest);
    OccursSplit(json, i, [k], Listing(v) + rest);
    OccursAt(json, i, [k], 0);
    OccursSplit(json, i + 1, Listing(v), rest);
    ListingSplit(json, i + 1, v, b);
    if rest != [] {
      OccursAt(json, i + 1 + Size(v), rest, 0);
      assert rest[0] == ks[1];
    }
  }

  /** Array count and nth element are those of the tree, whatever surrounds it. */
  lemma {:induction false} ElementsOfArray(json: ParsedJson, i: nat, n: Node)
    requires Hosts(json, i, n) && n.ArrayNode?
    ensures i < json.numberOfTokens && Elements(json, i) == ItemIndices(n.items, i + 1)
  {
    ChildrenHosted(json, i, n);
    ItemsScanned(json, i + 1, n.items, n.tok.start, n.tok.end);
  }

  /** Object count, nth key and nth value are those of the tree. */
  lemma {:induction false} KeysOfObject(json: ParsedJson, i: nat, n: Node)
    requires Hosts(json, i, n) && n.ObjectNode?
    ensures i < json.numberOfTokens && |n.keys| == |n.values|
    ensures Keys(json, i) == KeyIndices(n.keys, n.values, i + 1)
  {
    ChildrenHosted(json, i, n);
    EntriesScanned(json, i + 1, n.keys, n.values, n.tok.start, n.tok.end);
  }

  lemma {:induction false} ChildrenHosted(json: ParsedJson, i: nat, n: Node)
    requires Hosts(json, i, n)
    ensures i < json.numberOfTokens && json.tokens[i] == n.tok
    ensures n.ArrayNode? ==> HostsListing(json, i + 1, ListItems(n.items), n.tok.end)
    ensures n.ObjectNode? ==>
      HostsListing(json, i + 1, ListEntries(n.keys, n.values), n.tok.end)
  {
    hide Occurs, ListItems, ListEntries, ItemsLaid, EntriesLaid;
    var list := Listing(n);
    assert list == [n.tok] + list[1..] && |[n.tok]| + |list[1..]| == |list|;
    OccursAt(json, i, list, 0);
    OccursSplit(json, i, [n.tok], list[1..]);
    OccursFits(json, i, list);
    match n
    case Leaf(t) =>
    case ArrayNode(t, xs) => assert list[1..] == ListItems(xs);
    case ObjectNode(t, ks, vs) => assert list[1..] == ListEntries(ks, vs);
  }

  /** The tokens of a JSON text, as the tokenizer lists them, are laid out as a tree at the root token. */
  lemma {:induction false} PrintedTreeHosted(x: Json, json: ParsedJson)
    requires WellFormed(x) && Usable(json) && json.tokens[..json.numberOfTokens] == Flat(x, 0)
    ensures Hosts(json, 0, TreeOf(x, 0))
  {
    TreeLaid(x, 0);
  }

  // ----- The object count of an array -----

  // The traversal asks how many keys an array has and takes that for its element count.
  predicate NonEmptyContainer(n: Node) {
    (n.ArrayNode? && n.items != []) || (n.ObjectNode? && n.keys != [])
  }

  // Keys are counted in the order of the listing: a token that is counted takes the next one for
  // its value, with all that is inside it. How many are counted in n, and whether the token behind
  // n is taken; taken says so of n itself.
  function Pairs(n: Node, taken: bool): (r: (nat, bool)) {
    if taken then (0, false)
    else
      match n
      case Leaf(_) => (1, true)
      case ArrayNode(_, xs) => CountOne(PairsOfItems(xs, true))
      case ObjectNode(_, _, vs) => CountOne(PairsOfEntries(vs, true))
  }

  function CountOne(r: (nat, bool)): (nat, bool) {
    (1 + r.0, r.1)
  }

  function PairsOfItems(xs: seq<Node>, taken: bool): (r: (nat, bool)) {
    if xs == [] then (0, taken)
    else
      var first := Pairs(xs[0], taken);
      var rest := PairsOfItems(xs[1..], first.1);
      (first.0 + rest.0, rest.1)
  }

  // Of a key and its value the key comes first.
  function PairsOfEntries(vs: seq<Node>, taken: bool): (r: (nat, bool)) {
    if vs == [] then (0, taken)
    else
      var first := Pairs(vs[0], !taken);
      var rest := PairsOfEntries(vs[1..], first.1);
      ((if taken then 0 else 1) + first.0 + rest.0, rest.1)
  }

  // The object count of an array, as a function of the tree.
  function PairCount(n: Node): nat
    requires n.ArrayNode?
  {
    PairsOfItems(n.items, false).0
  }

  // Where a scan stands at token k: behind what ends at prev, which is token k itself if that is
  // taken for a value, and lies before hi if not.
  predicate ScanAt(json: ParsedJson, k: nat, taken: bool, prev: int, hi: int)
    requires Usable(json) && k <= json.numberOfTokens
  {
    if taken then prev == json.tokens[k].end else prev <= hi
  }

  // How the scan from k with prev goes on at m with prev', r.0 keys later.
  predicate ScansOn(json: ParsedJson, b: int, k: nat, prev: int, r: (nat, bool), m: nat, prev': int, hi: int)
    requires Usable(json)
  {
    && m <= json.numberOfTokens && ScanAt(json, m, r.1, prev', hi)
    && |KeyScan(json.tokens, json.numberOfTokens, k, b, prev)|
       == r.0 + |KeyScan(json.tokens, json.numberOfTokens, m, b, prev')|
  }

  lemma StartsBeforeEnd(n: Node)
    requires Laid(n)
    ensures n.tok.start <= n.tok.end
  {
  }

  lemma CountsToken(json: ParsedJson, k: nat, b: int, prev: int)
    requires Usable(json) && k < json.numberOfTokens && prev < json.tokens[k].start <= b
    ensures |KeyScan(json.tokens, json.numberOfTokens, k, b, prev)|
      == 1 + |KeyScan(json.tokens, json.numberOfTokens, k + 1, b, json.tokens[k + 1].end)|
  {
  }

  lemma PassesToken(json: ParsedJson, k: nat, b: int)
    requires Usable(json) && k < json.numberOfTokens && json.tokens[k].start <= json.tokens[k].end <= b
    ensures KeyScan(json.tokens, json.numberOfTokens, k, b, json.tokens[k].end)
      == KeyScan(json.tokens, json.numberOfTokens, k + 1, b, json.tokens[k].end)
  {
  }

  lemma {:induction false} NodeScanned(json: ParsedJson, i: nat, n: Node, b: int, taken: bool, prev: int)
    returns (prev': int)
    requires Hosts(json, i, n) && n.tok.end <= b
    requires if taken then prev == n.tok.end else prev < n.tok.start
    ensures ScansOn(json, b, i, prev, Pairs(n, taken), i + Size(n), prev', n.tok.end)
    decreases n
  {
    hide KeyScan, Occurs, PairsOfItems, PairsOfEntries, ListItems, ListEntries;
    ListingSplit(json, i, n, b);
    OccursFits(json, i, Listing(n));
    ChildrenHosted(json, i, n);
    prev' := prev;
    if !taken {
      var t := n.tok;
      CountsToken(json, i, b, prev);
      prev' := json.tokens[i + 1].end;
      match n
      case Leaf(_) =>
      case ArrayNode(_, xs) => prev' := ItemsPaired(json, i + 1, xs, t.start, t.end, b, true, prev');
      case ObjectNode(_, ks, vs) => prev' := EntriesPaired(json, i + 1, ks, vs, t.start, t.end, b, true, prev');
    }
  }

  lemma {:induction false} ItemsPaired(json: ParsedJson, i: nat, xs: seq<Node>, a: int, c: int, b: int, taken: bool,
                                       prev: int)
    returns (prev': int)
    requires Usable(json) && ItemsLaid(xs, a, c) && HostsListing(json, i, ListItems(xs), c) && a <= c <= b
    requires i <= json.numberOfTokens && ScanAt(json, i, taken, prev, a)
    ensures ScansOn(json, b, i, prev, PairsOfItems(xs, taken), i + |ListItems(xs)|, prev', c)
    decreases xs
  {
    hide KeyScan, Occurs, Pairs, Listing, Laid;
    prev' := prev;
    if xs != [] {
      var x := xs[0];
      FirstItem(json, i, xs, a, c);
      prev' := NodeScanned(json, i, x, b, taken, prev);
      prev' := ItemsPaired(json, i + Size(x), xs[1..], x.tok.end, c, b, Pairs(x, taken).1, prev');
    }
  }

  lemma {:induction false} EntriesPaired(json: ParsedJson, i: nat, ks: seq<Token>, vs: seq<Node>, a: int, c: int,
                                         b: int, taken: bool, prev: int) returns (prev': int)
    requires Usable(json) && |ks| == |vs| && EntriesLaid(ks, vs, a, c) && HostsListing(json, i, ListEntries(ks, vs), c)
    requires a <= c <= b && i <= json.numberOfTokens && ScanAt(json, i, taken, prev, a)
    ensures ScansOn(json, b, i, prev, PairsOfEntries(vs, taken), i + |ListEntries(ks, vs)|, prev', c)
    decreases vs
  {
    hide KeyScan, Occurs, Pairs, Listing, Laid;
    prev' := prev;
    if ks != [] {
      var v := vs[0];
      FirstEntry(json, i, ks, vs, a, c);
      StartsBeforeEnd(v);
      if taken {
        PassesToken(json, i, b);
      } else {
        CountsToken(json, i, b, prev);
        prev' := v.tok.end;
      }
      prev' := NodeScanned(json, i + 1, v, b, !taken, prev');
      prev' := EntriesPaired(json, i + 1 + Size(v), ks[1..], vs[1..], v.tok.end, c, b, Pairs(v, !taken).1, prev');
    }
  }

  lemma ScanAtEnd(json: ParsedJson, m: nat, b: int, prev: int)
    requires Usable(json) && (m < json.numberOfTokens ==> json.tokens[m].start > b)
    ensures KeyScan(json.tokens, json.numberOfTokens, m, b, prev) == []
  {
  }

  /** The object count of an array is the pair count of its tree, whatever surrounds it. */
  lemma {:induction false} ObjectCountOfArray(json: ParsedJson, i: nat, n: Node)
    requires Hosts(json, i, n) && n.ArrayNode?
    ensures i < json.numberOfTokens && |Keys(json, i)| == PairCount(n)
  {
    hide KeyScan, Occurs, PairsOfItems, ItemsLaid, ListItems;
    ChildrenHosted(json, i, n);
    var prev := ItemsPaired(json, i + 1, n.items, n.tok.start, n.tok.end, n.tok.end, false, n.tok.start);
    ScanAtEnd(json, i + 1 + |ListItems(n.items)|, n.tok.end, prev);
  }

  // A container that is not empty is counted itself, and once more if it takes what follows it.
  lemma ContainerPairs(n: Node)
    requires Laid(n) && NonEmptyContainer(n)
    ensures Pairs(n, false).0 >= if Pairs(n, false).1 then 2 else 1
  {
    match n
    case ArrayNode(_, xs) =>
      TakenIsPassed(xs[0]);
      FirstIsCounted(xs[1..]);
      assert PairsOfItems(xs, true) == PairsOfItems(xs[1..], false);
    case ObjectNode(_, ks, vs) => assert Pairs(vs[0], false).0 > 0;
  }

  lemma FirstIsCounted(xs: seq<Node>)
    ensures xs != [] ==> PairsOfItems(xs, false).0 > 0
    ensures xs == [] ==> !PairsOfItems(xs, false).1
  {
  }

  // Every element of the array is counted, or the one before it was counted twice.
  lemma {:induction false} PairsCoverItems(xs: seq<Node>, a: int, b: int, taken: bool)
    requires ItemsLaid(xs, a, b) && forall j :: 0 <= j < |xs| ==> NonEmptyContainer(xs[j])
    ensures PairsOfItems(xs, taken).0 + (if taken then 1 else 0) >= |xs| + if PairsOfItems(xs, taken).1 then 1 else 0
    decreases xs
  {
    hide Pairs, Laid, NonEmptyContainer;
    if xs != [] {
      TakenIsPassed(xs[0]);
      if !taken { ContainerPairs(xs[0]); }
      PairsCoverItems(xs[1..], xs[0].tok.end, b, Pairs(xs[0], taken).1);
    }
  }

  lemma TakenIsPassed(n: Node)
    ensures Pairs(n, true) == (0, false)
  {
  }

  /** The object count of an array of non-empty containers is no less than its element count,
      so a loop bounded by it reaches every element. */
  lemma {:induction false} ObjectCountReachesItems(json: ParsedJson, i: nat, n: Node)
    requires Hosts(json, i, n) && n.ArrayNode? && forall j :: 0 <= j < |n.items| ==> NonEmptyContainer(n.items[j])
    ensures i < json.numberOfTokens && |Keys(json, i)| >= |Elements(json, i)| == |n.items|
    ensures PairCount(n) >= |n.items|
  {
    hide PairsOfItems, NonEmptyContainer;
    ElementsOfArray(json, i, n);
    ObjectCountOfArray(json, i, n);
    PairsCoverItems(n.items, n.tok.start, n.tok.end, false);
  }

  /** On an array of strings and primitives it is only half the element count, rounded up. */
  lemma {:induction false} ObjectCountHalvesLeaves(json: ParsedJson, i: nat, n: Node)
    requires Hosts(json, i, n) && n.ArrayNode? && forall j :: 0 <= j < |n.items| ==> n.items[j].Leaf?
    ensures i < json.numberOfTokens && |Keys(json, i)| == (|n.items| + 1) / 2
  {
    ObjectCountOfArray(json, i, n);
    PairsHalveLeaves(n.items, false);
  }

  lemma {:induction false} PairsHalveLeaves(xs: seq<Node>, taken: bool)
    requires forall j :: 0 <= j < |xs| ==> xs[j].Leaf?
    ensures PairsOfItems(xs, taken).0 == (|xs| + if taken then 0 else 1) / 2
    decreases xs
  {
    if xs != [] { PairsHalveLeaves(xs[1..], !taken); }
  }
}
