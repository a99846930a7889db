/** The order of dictionary keys: neighbours are compared, and that makes each object a map. */
module TxValidate {
  import opened Bytes
  import opened Jsmn
  import opened JsonTree
  import opened JsonNav
  import opened ParserErrors
  import opened TxLeaves
  import opened TxParser

  // ----- Order of strings -----

  predicate Less(a: string, b: string) {
    b != "" && (a == "" || a[0] < b[0] || (a[0] == b[0] && Less(a[1..], b[1..])))
  }

  lemma {:induction false} LessTransitive(a: string, b: string, c: string)
    requires Less(a, b) && Less(b, c)
    ensures Less(a, c)
    decreases a
  {
    if a != "" && a[0] == b[0] == c[0] { LessTransitive(a[1..], b[1..], c[1..]); }
  }

  lemma {:induction false} LessIrreflexive(a: string)
    ensures !Less(a, a)
    decreases a
  {
    if a != "" { LessIrreflexive(a[1..]); }
  }

  lemma {:induction false} LessTotal(a: string, b: string)
    ensures Less(a, b) || a == b || Less(b, a)
    decreases a
  {
    if a != "" && b != "" && a[0] == b[0] { LessTotal(a[1..], b[1..]); }
  }

  /** The order of dictionaries: where two texts part the lesser character decides, and a text comes
      before those it begins. */
  lemma {:induction false} LessIs(a: string, b: string)
    ensures Less(a, b) <==> exists k :: 0 <= k <= |a| && k < |b| && a[..k] == b[..k] && (k == |a| || a[k] < b[k])
    decreases a
  {
    if a != "" && b != "" && a[0] == b[0] {
      LessIs(a[1..], b[1..]);
      var c, d := a[1..], b[1..];
      if k :| 0 <= k <= |c| && k < |d| && c[..k] == d[..k] && (k == |c| || c[k] < d[k]) {
        assert a[..k + 1] == [a[0]] + c[..k] && b[..k + 1] == [b[0]] + d[..k];
      }
      if k :| 0 <= k <= |a| && k < |b| && a[..k] == b[..k] && (k == |a| || a[k] < b[k]) {
        if k > 0 { assert c[..k - 1] == a[..k][1..] && d[..k - 1] == b[..k][1..]; }
      }
    } else if b != "" {
      assert a[..0] == b[..0];
      forall k | 0 < k <= |a| && k < |b| ensures a[..k] != b[..k] { assert a[..k][0] == a[0] && b[..k][0] == b[0]; }
    }
  }

  lemma FirstCharacter(s: string, i: nat)
    requires i < |s|
    ensures CString(s[i..]) == if s[i] == '\0' then "" else [s[i]] + CString(s[i + 1..])
  {
    assert s[i..][1..] == s[i + 1..];
  }

  lemma LessBehind(c: char, a: string, b: string)
    ensures Less([c] + a, [c] + b) == Less(a, b)
    ensures [c] + a == [c] + b <==> a == b
  {
    assert ([c] + a)[1..] == a && ([c] + b)[1..] == b;
  }

  // Where two texts differ in their first characters, those decide.
  lemma LessHere(a: string, b: string)
    ensures a == "" || b == "" || a[0] != b[0] ==>
      (Less(a, b) <==> b != "" && (a == "" || a[0] < b[0])) && (a == b <==> a == "" && b == "")
  {
  }

  // The sign of strcmp on two terminated buffers.
  method Strcmp(s: string, t: string) returns (cmp: int)
    requires '\0' in s && '\0' in t
    ensures cmp < 0 <==> Less(CString(s), CString(t))
    ensures cmp == 0 <==> CString(s) == CString(t)
  {
    hide CString, Less;
    var i := 0;
    TerminatorFound(s);
    TerminatorFound(t);
    assert s[0..] == s && t[0..] == t;
    while s[i] == t[i] && s[i] != '\0'
      invariant i <= |CString(s)| < |s| && i <= |CString(t)| < |t|
      invariant Less(CString(s), CString(t)) == Less(CString(s[i..]), CString(t[i..]))
      invariant CString(s) == CString(t) <==> CString(s[i..]) == CString(t[i..])
      invariant |CString(s)| == i + |CString(s[i..])| && |CString(t)| == i + |CString(t[i..])|
      decreases |s| - i
    {
      FirstCharacter(s, i);
      FirstCharacter(t, i);
      LessBehind(s[i], CString(s[i + 1..]), CString(t[i + 1..]));
      i := i + 1;
    }
    FirstCharacter(s, i);
    FirstCharacter(t, i);
    LessHere(CString(s[i..]), CString(t[i..]));
    cmp := (s[i] as int) - (t[i] as int);
  }

  lemma {:induction false} TerminatorFound(s: string)
    requires '\0' in s
    ensures |CString(s)| < |s|
    decreases s
  {
    if s[0] != '\0' { TerminatorFound(s[1..]); }
  }

  // A text without NUL is what its terminated copy holds.
  lemma {:induction false} CopyHolds(s: string)
    ensures CString(s + "\0") == s[..|CString(s)|] && ('\0' !in s ==> CString(s + "\0") == s)
    decreases s
  {
    if s != "" && s[0] != '\0' {
      assert (s + "\0")[1..] == s[1..] + "\0";
      CopyHolds(s[1..]);
    }
  }

  // ----- Dictionaries -----

  const MAX_KEY_SIZE := 256

  // What is_sorted compares: a key's text up to its first NUL.
  function KeyString(json: ParsedJson, k: nat): string
    requires Usable(json) && SpansInBuffer(json) && k < json.numberOfTokens
  {
    CString(Text(json, k) + "\0")
  }

  predicate ShortKey(json: ParsedJson, k: nat)
    requires Usable(json) && SpansInBuffer(json) && k < json.numberOfTokens
  {
    |Text(json, k)| < MAX_KEY_SIZE
  }

  // 1 if in order, -1 if equal, 0 otherwise. Spans of parsed tokens are within the buffer.
  method IsSorted(json: ParsedJson, first: nat, second: nat) returns (order: int)
    requires Usable(json) && SpansInBuffer(json)
    ensures if first >= json.numberOfTokens || second >= json.numberOfTokens then order == 0
      else if !ShortKey(json, first) || !ShortKey(json, second) then order == 0
      else order == if Less(KeyString(json, first), KeyString(json, second)) then 1
                    else if KeyString(json, first) == KeyString(json, second) then -1 else 0
  {
    hide CString, Less;
    if first >= json.numberOfTokens || second >= json.numberOfTokens { return 0; }
    var size := json.tokens[first].end - json.tokens[first].start;
    if size >= MAX_KEY_SIZE { return 0; }
    var s := json.buffer[json.tokens[first].start..json.tokens[first].start + size] + "\0";
    size := json.tokens[second].end - json.tokens[second].start;
    if size >= MAX_KEY_SIZE { return 0; }
    var t := json.buffer[json.tokens[second].start..json.tokens[second].start + size] + "\0";
    assert s[|s| - 1] == t[|t| - 1] == '\0';
    var cmp := Strcmp(s, t);
    LessIrreflexive(CString(s));
    return if cmp < 0 then 1 else if cmp == 0 then -1 else 0;
  }

  // Two keys that is_sorted accepts one after the other.
  predicate InOrder(json: ParsedJson, j: nat, k: nat)
    requires Usable(json) && SpansInBuffer(json) && j < json.numberOfTokens && k < json.numberOfTokens
  {
    ShortKey(json, j) && ShortKey(json, k) && Less(KeyString(json, j), KeyString(json, k))
  }

  // Each of the keys is in order with the next one.
  predicate NeighboursSorted(json: ParsedJson, keys: seq<nat>)
    requires Usable(json) && SpansInBuffer(json) && InRange(keys, 0, json.numberOfTokens)
  {
    forall j :: 0 < j < |keys| ==> InOrder(json, keys[j - 1], keys[j])
  }

  function ObjectKeys(json: ParsedJson, i: nat): (keys: seq<nat>)
    requires Usable(json) && i < json.numberOfTokens
    ensures InRange(keys, 0, json.numberOfTokens)
  {
    KeysInRange(json.tokens, json.numberOfTokens, i + 1, json.tokens[i].end, json.tokens[i].start);
    Keys(json, i)
  }

  predicate ObjectSorted(json: ParsedJson, i: nat)
    requires Usable(json) && SpansInBuffer(json) && i < json.numberOfTokens
  {
    json.tokens[i].typ == Object ==> NeighboursSorted(json, ObjectKeys(json, i))
  }

  method DictionariesSorted(json: ParsedJson) returns (err: ParserError)
    requires Usable(json) && SpansInBuffer(json)
    ensures err == Ok <==> forall i :: 0 <= i < json.numberOfTokens ==> ObjectSorted(json, i)
    ensures err != Ok ==> err == DuplicatedField || err == JsonIsNotSorted
  {
    for i := 0 to json.numberOfTokens
      invariant forall k :: 0 <= k < i ==> ObjectSorted(json, k)
    {
      if json.tokens[i].typ == Object {
        err := KeysSorted(json, i);
        if err != Ok { return; }
      }
    }
    err := Ok;
  }

  // The keys of one object, neighbour by neighbour.
  method KeysSorted(json: ParsedJson, i: nat) returns (err: ParserError)
    requires Usable(json) && SpansInBuffer(json) && i < json.numberOfTokens && json.tokens[i].typ == Object
    ensures err == Ok <==> ObjectSorted(json, i)
    ensures err != Ok ==> err == DuplicatedField || err == JsonIsNotSorted
  {
    hide KeyString, ShortKey, Less;
    ghost var keys := ObjectKeys(json, i);
    var count, prev, next;
    err, count := ObjectGetElementCount(json, i);
    if count > 1 {
      err, prev := ObjectGetNthKey(json, i, 0);
      for j := 1 to count
        invariant prev == keys[j - 1] && forall k :: 0 < k < j ==> InOrder(json, keys[k - 1], keys[k])
      {
        err, next := ObjectGetNthKey(json, i, j);
        var order := IsSorted(json, prev, next);
        if order == -1 { return DuplicatedField; }
        if order != 1 { return JsonIsNotSorted; }
        prev := next;
      }
    }
    return Ok;
  }

  // ----- Whitespace -----

  const WHITESPACES := " \U{0c}\n\r\t\U{0b}"

  predicate IsSpace(c: char) {
    c in WHITESPACES
  }

  lemma SpacesAre(c: char)
    ensures IsSpace(c) <==> c as int == 32 || 9 <= c as int <= 13
  {
  }

  predicate NoSpace(s: string, a: int, b: int) {
    forall j :: 0 <= a <= j < b && j < |s| ==> !IsSpace(s[j])
  }

  // What is looked at before the token with that index starts behind the token before it and one
  // character more.
  function ScanStart(json: ParsedJson, i: nat): int
    requires Usable(json) && i <= json.numberOfTokens
  {
    if i <= 1 then 0 else json.tokens[i - 1].end + 1
  }

  // No blank is in what is looked at between the tokens, up to the end of the first one.
  predicate BlankFree(json: ParsedJson)
    requires Usable(json) && json.numberOfTokens > 0
  {
    && (forall i :: 1 <= i < json.numberOfTokens ==>
          NoSpace(json.buffer, ScanStart(json, i), json.tokens[i].start))
    && NoSpace(json.buffer, ScanStart(json, json.numberOfTokens), json.tokens[0].end)
  }

  // The first loop over characters: whether one from a on and before b is a blank.
  method SpaceBetween(s: string, a: int, b: int) returns (found: bool)
    requires 0 <= a
    ensures found <==> !NoSpace(s, a, b)
  {
    hide IsSpace;
    var j := a;
    while j < b && j < |s|
      invariant a <= j && NoSpace(s, a, j)
    {
      if IsSpace(s[j]) { return true; }
      j := j + 1;
    }
    return false;
  }

  // The second one, which would also stop at a NUL.
  method SpaceBeforeNul(s: string, a: int, b: int) returns (found: bool)
    requires 0 <= a && !HasNul(s)
    ensures found <==> !NoSpace(s, a, b)
  {
    hide IsSpace;
    var start := a;
    while start < b && start < |s| && s[start] != '\0'
      invariant a <= start && NoSpace(s, a, start)
    {
      if IsSpace(s[start]) { return true; }
      start := start + 1;
    }
    return false;
  }

  method ContainsWhitespace(json: ParsedJson) returns (err: ParserError)
    requires Usable(json) && SpansInBuffer(json) && AllTyped(json) && !HasNul(json.buffer)
    ensures err == if json.numberOfTokens == 0 then UnexpectedValue
      else if BlankFree(json) then Ok else JsonContainsWhitespace
  {
    hide NoSpace;
    if json.numberOfTokens == 0 { return UnexpectedValue; }
    var start, found := 0, false;
    var lastElementIndex := json.tokens[0].end;
    for i := 1 to json.numberOfTokens
      invariant start == ScanStart(json, i)
      invariant forall k :: 1 <= k < i ==> NoSpace(json.buffer, ScanStart(json, k), json.tokens[k].start)
    {
      if json.tokens[i].typ == Undefined { return Ok; }
      found := SpaceBetween(json.buffer, start, json.tokens[i].start);
      if found { return JsonContainsWhitespace; }
      start := json.tokens[i].end + 1;
    }
    found := SpaceBeforeNul(json.buffer, start, lastElementIndex);
    return if found then JsonContainsWhitespace else Ok;
  }

  // ----- The whole validation -----

  // The fields a transaction must have, in the order in which they are looked for.
  function RequiredField(k: nat): (string, ParserError) {
    match k
    case 0 => ("chain_id", JsonMissingChainId)
    case 1 => ("sequence", JsonMissingSequence)
    case 2 => ("fee", JsonMissingFee)
    case 3 => ("msgs", JsonMissingMsgs)
    case 4 => ("account_number", JsonMissingAccountNumber)
    case _ => ("memo", JsonMissingMemo)
  }

  predicate HasField(json: ParsedJson, name: string)
    requires Usable(json) && SpansInBuffer(json) && json.numberOfTokens > 0
  {
    json.tokens[0].typ == Object && LookUp(json, 0, name).Some?
  }

  predicate HasRequiredFields(json: ParsedJson)
    requires Usable(json) && SpansInBuffer(json) && json.numberOfTokens > 0
  {
    forall k :: 0 <= k < 6 ==> HasField(json, RequiredField(k).0)
  }

  // The whole text is one object with the required fields, sorted keys, and no blank that is seen.
  predicate TxValid(json: ParsedJson)
    requires Usable(json) && SpansInBuffer(json)
  {
    && json.numberOfTokens > 0
    && json.tokens[0].typ == Object && json.tokens[0].start == 0 && json.tokens[0].end == |json.buffer|
    && BlankFree(json)
    && (forall i :: 0 <= i < json.numberOfTokens ==> ObjectSorted(json, i))
    && HasRequiredFields(json)
  }

  /** A transaction passes exactly if it is valid; a required field that is missing is named by the
      error, the first one if there are several. */
  method Validate(json: ParsedJson) returns (err: ParserError)
    requires Usable(json) && SpansInBuffer(json) && AllTyped(json) && !HasNul(json.buffer)
    ensures err == Ok <==> TxValid(json)
    ensures json.numberOfTokens > 0 ==> Names(json, err)
  {
    hide ObjectSorted, BlankFree, HasRequiredFields, HasField;
    if json.numberOfTokens > 0 && json.tokens[0].typ == Object
      && (json.tokens[0].start != 0 || json.tokens[0].end != |json.buffer|) {
      return UnexpectedCharacters;
    }
    err := ContainsWhitespace(json);
    if err != Ok { return; }
    err := DictionariesSorted(json);
    if err != Ok { return; }
    err := FindRequiredFields(json);
  }

  // If the error says that a field is missing it is, and those looked for before it are there.
  predicate Names(json: ParsedJson, err: ParserError)
    requires Usable(json) && SpansInBuffer(json) && json.numberOfTokens > 0
  {
    forall k :: 0 <= k < 6 && err == RequiredField(k).1 ==>
      !HasField(json, RequiredField(k).0) && forall m :: 0 <= m < k ==> HasField(json, RequiredField(m).0)
  }

  lemma FieldErrorsDiffer()
    ensures forall k :: 0 <= k < 6 ==> RequiredField(k).1 != Ok
    ensures forall j, k :: 0 <= j < k < 6 ==> RequiredField(j).1 != RequiredField(k).1
  {
  }

  method FindField(json: ParsedJson, k: nat) returns (err: ParserError)
    requires Usable(json) && SpansInBuffer(json) && json.numberOfTokens > 0
    ensures err == if HasField(json, RequiredField(k).0) then Ok else RequiredField(k).1
  {
    hide LookUp;
    var tokenIndex;
    err, tokenIndex := ObjectGetValue(json, 0, RequiredField(k).0);
    if err != Ok { return RequiredField(k).1; }
  }

  method FindRequiredFields(json: ParsedJson) returns (err: ParserError)
    requires Usable(json) && SpansInBuffer(json) && json.numberOfTokens > 0
    ensures err == Ok <==> HasRequiredFields(json)
    ensures Names(json, err)
    ensures err == Ok ==> json.tokens[0].typ == Object
  {
    hide RequiredField, SpansInBuffer, LookUp;
    FieldErrorsDiffer();
    err := FindField(json, 0);
    if err != Ok { return; }
    err := FindField(json, 1);
    if err != Ok { return; }
    err := FindField(json, 2);
    if err != Ok { return; }
    err := FindField(json, 3);
    if err != Ok { return; }
    err := FindField(json, 4);
    if err != Ok { return; }
    err := FindField(json, 5);
  }

  // ----- Sorted objects are maps -----

  lemma {:induction false} SortedThroughout(json: ParsedJson, keys: seq<nat>, j: nat, k: nat)
    requires Usable(json) && SpansInBuffer(json) && InRange(keys, 0, json.numberOfTokens)
    requires NeighboursSorted(json, keys) && j < k < |keys|
    ensures Less(KeyString(json, keys[j]), KeyString(json, keys[k]))
    decreases k
  {
    hide Less, KeyString;
    assert InOrder(json, keys[k - 1], keys[k]);
    if j < k - 1 {
      SortedThroughout(json, keys, j, k - 1);
      LessTransitive(KeyString(json, keys[j]), KeyString(json, keys[k - 1]), KeyString(json, keys[k]));
    }
  }

  lemma KeyIsText(json: ParsedJson, k: nat)
    requires Usable(json) && SpansInBuffer(json) && k < json.numberOfTokens && !HasNul(json.buffer)
    ensures KeyString(json, k) == Text(json, k)
  {
    CopyHolds(Text(json, k));
  }

  /** Where neighbours are in order, all keys of an object strictly increase in byte order; this
      is about the keys' whole texts because NUL bytes were rejected before. */
  lemma {:induction false} AllKeysIncrease(json: ParsedJson, i: nat, j: nat, k: nat)
    requires Usable(json) && SpansInBuffer(json) && i < json.numberOfTokens && json.tokens[i].typ == Object
    requires ObjectSorted(json, i) && !HasNul(json.buffer) && j < k < |ObjectKeys(json, i)|
    ensures Less(Text(json, ObjectKeys(json, i)[j]), Text(json, ObjectKeys(json, i)[k]))
    ensures Text(json, ObjectKeys(json, i)[j]) != Text(json, ObjectKeys(json, i)[k])
  {
    hide Less, KeyString;
    var keys := ObjectKeys(json, i);
    SortedThroughout(json, keys, j, k);
    KeyIsText(json, keys[j]);
    KeyIsText(json, keys[k]);
    LessIrreflexive(Text(json, keys[j]));
  }

  /** So a lookup finds the value of the one key of that name, whichever place it has. */
  lemma {:induction false} LookUpIsMap(json: ParsedJson, i: nat, n: Node, name: string)
    requires Hosts(json, i, n) && n.ObjectNode? && SpansInBuffer(json) && !HasNul(json.buffer)
    requires i < json.numberOfTokens && json.tokens[i].typ == Object && ObjectSorted(json, i)
    ensures var keys := ObjectKeys(json, i);
      && (LookUp(json, i, name) == None <==> forall j :: 0 <= j < |keys| ==> Text(json, keys[j]) != name)
      && (forall j :: 0 <= j < |keys| && Text(json, keys[j]) == name ==> LookUp(json, i, name) == Some(keys[j] + 1))
  {
    hide Less, Laid, HostsListing, ObjectSorted, KeyScan;
    var keys := ObjectKeys(json, i);
    KeysHaveValues(json, i, n);
    forall j, k | 0 <= j < k < |keys| ensures Text(json, keys[j]) != Text(json, keys[k]) {
      AllKeysIncrease(json, i, j, k);
    }
    FirstOfDistinct(json, keys, name);
  }

  lemma {:induction false} KeysHaveValues(json: ParsedJson, i: nat, n: Node)
    requires Hosts(json, i, n) && n.ObjectNode?
    ensures i < json.numberOfTokens && forall j :: 0 <= j < |Keys(json, i)| ==>
      Keys(json, i)[j] + 1 < json.numberOfTokens
  {
    hide Laid, HostsListing, Listing;
    KeysOfObject(json, i, n);
    forall j | 0 <= j < |Keys(json, i)| ensures Keys(json, i)[j] + 1 < json.numberOfTokens {
      ChildHosted(json, i, n, j);
      ChildrenHosted(json, ChildIndex(n, i, j), n.values[j]);
    }
  }

  lemma {:induction false} FirstOfDistinct(json: ParsedJson, keys: seq<nat>, name: string)
    requires Usable(json) && SpansInBuffer(json)
    requires forall j :: 0 <= j < |keys| ==> keys[j] + 1 < json.numberOfTokens
    requires forall j, k :: 0 <= j < k < |keys| ==> Text(json, keys[j]) != Text(json, keys[k])
    ensures FirstNamed(json, keys, name) == None <==> forall j :: 0 <= j < |keys| ==> Text(json, keys[j]) != name
    ensures forall j :: 0 <= j < |keys| && Text(json, keys[j]) == name ==>
      FirstNamed(json, keys, name) == Some(keys[j] + 1)
    decreases keys
  {
    hide Text;
    if keys != [] {
      var rest := keys[1..];
      forall j | 0 <= j < |rest| ensures rest[j] == keys[j + 1] {}
      forall j, k | 0 <= j < k < |rest| ensures Text(json, rest[j]) != Text(json, rest[k]) {
        assert Text(json, keys[j + 1]) != Text(json, keys[k + 1]);
      }
      FirstOfDistinct(json, rest, name);
      if Text(json, keys[0]) != name {
        assert FirstNamed(json, keys, name) == FirstNamed(json, rest, name);
      }
    }
  }
}
