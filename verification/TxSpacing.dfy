/**
 * Which blanks of a JSON text the check for whitespace sees: those before and behind keys and
 * values, but not those that open a container, nor the one character behind a primitive or an
 * empty container.
 */
module TxSpacing {
  import opened Jsmn
  import opened JsmnPrinter
  import opened JsonNav
  import opened JsonText
  import opened TxValidate

  // Is the character behind the value left out, since it ends with its last token and no quote?
  predicate SkipsNext(x: Json) {
    match x
    case Prim(_) => true
    case Str(_) => false
    case Arr(_, xs) => xs == []
    case Obj(_, ks, _) => ks == []
    case Padded(_, y, a) => a == "" && SkipsNext(y)
  }

  // No blanks in front.
  predicate Flush(x: Json) {
    x.Padded? ==> x.before == "" && Flush(x.inner)
  }

  // No blanks that are seen inside the value or behind it.
  predicate Tight(x: Json) {
    match x
    case Prim(_) => true
    case Str(_) => true
    case Arr(_, xs) => TightItems(xs)
    case Obj(_, ks, vs) => TightEntries(ks, vs)
    case Padded(_, y, a) => Tight(y) && |a| <= if SkipsNext(y) then 1 else 0
  }

  predicate TightItems(xs: seq<Json>) {
    xs == [] || (Tight(xs[0]) && (|xs| > 1 ==> Flush(xs[1])) && TightItems(xs[1..]))
  }

  predicate TightEntries(ks: seq<Key>, vs: seq<Json>)
    decreases vs
  {
    ks == [] || vs == [] ||
    (ks[0].after == "" && Flush(vs[0]) && Tight(vs[0]) && (|ks| > 1 ==> ks[1].before == "")
     && TightEntries(ks[1..], vs[1..]))
  }

  // ----- Scanning a list of tokens -----

  predicate ScanFree(js: string, toks: seq<Token>, from: int) {
    toks == [] || (NoSpace(js, from, toks[0].start) && ScanFree(js, toks[1..], toks[0].end + 1))
  }

  // Where the scan stands behind the tokens.
  function ScanEnd(toks: seq<Token>, from: int): int {
    if toks == [] then from else toks[|toks| - 1].end + 1
  }

  // The same with what is behind them up to b.
  predicate ScanFreeTo(js: string, toks: seq<Token>, from: int, b: int) {
    ScanFree(js, toks, from) && NoSpace(js, ScanEnd(toks, from), b)
  }

  lemma {:induction false} ScanSplit(js: string, s: seq<Token>, t: seq<Token>, from: int, b: int)
    ensures ScanEnd(s + t, from) == ScanEnd(t, ScanEnd(s, from))
    ensures ScanFreeTo(js, s + t, from, b) <==> ScanFree(js, s, from) && ScanFreeTo(js, t, ScanEnd(s, from), b)
    decreases s
  {
    hide NoSpace;
    if s == [] {
      assert s + t == t;
    } else {
      assert (s + t)[1..] == s[1..] + t;
      ScanSplit(js, s[1..], t, s[0].end + 1, b);
    }
  }

  lemma SpaceSplit(s: string, a: int, b: int, c: int)
    requires b <= c
    ensures 0 <= a <= b ==> (NoSpace(s, a, c) <==> NoSpace(s, a, b) && NoSpace(s, b, c))
  {
    hide IsSpace;
  }

  // A blank text is seen unless it is empty.
  lemma BlankSeen(js: string, p: nat, b: string)
    requires Ahead(js, p, b) && Blank(b)
    ensures NoSpace(js, p, p + |b|) <==> b == ""
  {
    if b != "" {
      assert js[p] == js[p..p + |b|][0] == b[0] && b[0] in b;
      assert IsSpace(js[p]);
    }
  }

  lemma MarkSeen(js: string, p: nat, c: char)
    requires p < |js| && js[p] == c && c in "{}[],:\""
    ensures NoSpace(js, p, p + 1)
  {
  }

  // ----- Values -----

  // What is in front of a value's first token.
  lemma {:induction false} InFront(js: string, x: Json, p: nat)
    requires WellFormed(x) && Ahead(js, p, Print(x))
    ensures p <= Flat(x, p)[0].start <= p + |Print(x)|
    ensures NoSpace(js, p, Flat(x, p)[0].start) <==> Flush(x)
    decreases x
  {
    hide Ahead, Blank, StringText, PrimitiveText, KeyWritten, PrintItems, PrintEntries, FlatItems, FlatEntries, NoSpace;
    match x
    case Prim(s) => NothingThere(js, p);
    case Str(s) =>
      assert "\"" + s + "\"" == "\"" + (s + "\"");
      AheadSplit(js, p, "\"", s + "\"");
      CharAhead(js, p, '\"');
      MarkSeen(js, p, '\"');
    case Arr(_, _) => NothingThere(js, p);
    case Obj(_, _, _) => NothingThere(js, p);
    case Padded(b, y, a) =>
      assert b + Print(y) + a == b + (Print(y) + a);
      AheadSplit(js, p, b, Print(y) + a);
      AheadSplit(js, p + |b|, Print(y), a);
      InFront(js, y, p + |b|);
      BlankSeen(js, p, b);
      SpaceSplit(js, p, p + |b|, Flat(y, p + |b|)[0].start);
  }

  lemma NothingThere(js: string, p: int)
    ensures forall b :: b <= p ==> NoSpace(js, p, b)
  {
  }

  // What the scan over a value's tokens comes to, and where it stands then.
  ghost predicate Scanned(js: string, toks: seq<Token>, from: int, b: int, tight: bool, skips: bool)
  {
    && toks != []
    && (ScanFreeTo(js, toks, from, b) <==> NoSpace(js, from, toks[0].start) && tight)
    && 0 <= ScanEnd(toks, from) <= b + 1 && (skips <==> ScanEnd(toks, from) == b + 1)
  }

  // Blanks behind a value: one of them goes unseen if the character behind the value does.
  lemma PaddingScanned(js: string, toks: seq<Token>, from: int, b: nat, tight: bool, skips: bool, a: string)
    requires Scanned(js, toks, from, b, tight, skips) && Ahead(js, b, a) && Blank(a)
    ensures Scanned(js, toks, from, b + |a|, tight && |a| <= (if skips then 1 else 0), a == "" && skips)
  {
    hide ScanFree, ScanEnd, NoSpace, Ahead, Blank;
    if a != "" {
      assert a == a[..1] + a[1..];
      AheadSplit(js, b, a[..1], a[1..]);
      BlankPart(a);
      BlankSeen(js, b + 1, a[1..]);
      assert b + 1 + |a[1..]| == b + |a| && (a[1..] == "" <==> |a| <= 1);
      BlankSeen(js, b, a);
      NothingThere(js, b + 1);
      SpaceSplit(js, ScanEnd(toks, from), b, b + |a|);
    }
  }

  lemma BlankPart(a: string)
    requires Blank(a) && a != ""
    ensures Blank(a[1..])
  {
    assert forall c :: c in a[1..] ==> c in a;
  }

  // A closing bracket behind the tokens of a container is not a blank.
  lemma CloseScanned(js: string, toks: seq<Token>, from: int, b: nat, tight: bool, skips: bool, c: char)
    requires Scanned(js, toks, from, b, tight, skips) && Ahead(js, b, [c]) && c in "{}[],:\""
    ensures Scanned(js, toks, from, b + 1, tight, false)
  {
    hide ScanFree, ScanEnd, NoSpace, Ahead;
    CharAhead(js, b, c);
    MarkSeen(js, b, c);
    SpaceSplit(js, ScanEnd(toks, from), b, b + 1);
    NothingThere(js, b + 1);
  }

  // A container's own token hides what is before its first child.
  lemma OpenScanned(js: string, t: Token, toks: seq<Token>, from: int, b: int, tight: bool)
    requires Scanned(js, toks, t.end + 1, b, tight, false) && toks[0].start <= t.end
    ensures Scanned(js, [t] + toks, from, b, tight, false)
  {
    hide NoSpace, ScanFreeTo;
    ScanSplit(js, [t], toks, from, b);
    OneScanned(js, t, from);
    NothingThere(js, t.end + 1);
  }

  lemma OneScanned(js: string, t: Token, from: int)
    ensures ScanFree(js, [t], from) <==> NoSpace(js, from, t.start)
    ensures ScanEnd([t], from) == t.end + 1
  {
    hide NoSpace;
  }

  // A token that ends a value itself.
  lemma LastScanned(js: string, t: Token, from: int, b: nat, skips: bool)
    requires t.end == if skips then b else b - 1
    ensures Scanned(js, [t], from, b, true, skips)
  {
    hide NoSpace;
    OneScanned(js, t, from);
    NothingThere(js, b);
    NothingThere(js, b + 1);
  }

  /** The scan over a value's tokens, from wherever it comes, sees no blanks exactly if there are none
      in front of the first token and the value is tight. */
  lemma {:induction false} ValueScanned(js: string, x: Json, p: nat, from: int)
    requires WellFormed(x) && Ahead(js, p, Print(x))
    ensures Scanned(js, Flat(x, p), from, p + |Print(x)|, Tight(x), SkipsNext(x))
    decreases x, 0
  {
    hide Ahead, Blank, StringText, PrimitiveText, KeyWritten, PrintItems, PrintEntries, FlatItems, FlatEntries, NoSpace,
         Scanned, TightItems, TightEntries, ScanFree, ScanEnd;
    match x
    case Prim(s) => LastScanned(js, Flat(x, p)[0], from, p + |s|, true);
    case Str(s) => LastScanned(js, Flat(x, p)[0], from, p + |s| + 2, false);
    case Arr(g, xs) =>
      ArrayAhead(js, p, g, xs);
      var b := p + |Print(x)|;
      if xs == [] {
        NoItems(xs, p + 1 + |g|);
        assert Flat(x, p) == [Flat(x, p)[0]];
        LastScanned(js, Flat(x, p)[0], from, b, true);
      } else {
        ItemsScanned(js, xs, p + 1 + |g|, b + 1);
        CloseScanned(js, FlatItems(xs, p + 1 + |g|), b + 1, b - 1, TightItems(xs), SkipsNext(xs[|xs| - 1]), ']');
        OpenScanned(js, Flat(x, p)[0], FlatItems(xs, p + 1 + |g|), from, b, TightItems(xs));
      }
    case Obj(g, ks, vs) =>
      ObjectAhead(js, p, g, ks, vs);
      var b := p + |Print(x)|;
      if ks == [] {
        NoEntries(ks, vs, p + 1 + |g|);
        assert Flat(x, p) == [Flat(x, p)[0]];
        LastScanned(js, Flat(x, p)[0], from, b, true);
      } else {
        EntriesScanned(js, ks, vs, p + 1 + |g|, b + 1);
        CloseScanned(js, FlatEntries(ks, vs, p + 1 + |g|), b + 1, b - 1, TightEntries(ks, vs),
          SkipsNext(vs[|vs| - 1]), '}');
        OpenScanned(js, Flat(x, p)[0], FlatEntries(ks, vs, p + 1 + |g|), from, b, TightEntries(ks, vs));
      }
    case Padded(b, y, a) =>
      assert b + Print(y) + a == b + (Print(y) + a);
      AheadSplit(js, p, b, Print(y) + a);
      AheadSplit(js, p + |b|, Print(y), a);
      ValueScanned(js, y, p + |b|, from);
      PaddingScanned(js, Flat(y, p + |b|), from, p + |b| + |Print(y)|, Tight(y), SkipsNext(y), a);
  }

  // After a value and the comma behind it.
  lemma NextScanned(js: string, s: seq<Token>, t: seq<Token>, from: int, b: nat, c: nat, tight: bool, skips: bool,
                    front: bool, tight': bool, skips': bool)
    requires Scanned(js, s, from, b, tight, skips) && b < |js| && js[b] == ',' && b + 1 <= c
    requires t != [] && b + 1 <= t[0].start
    requires Scanned(js, t, ScanEnd(s, from), c, tight', skips') && (NoSpace(js, b + 1, t[0].start) <==> front)
    ensures Scanned(js, s + t, from, c, tight && front && tight', skips')
  {
    hide NoSpace, ScanFree, ScanEnd, Ahead;
    ScanSplit(js, s, t, from, c);
    MarkSeen(js, b, ',');
    NothingThere(js, b + 1);
    SpaceSplit(js, ScanEnd(s, from), b, b + 1);
    SpaceSplit(js, ScanEnd(s, from), b + 1, t[0].start);
  }

  lemma NoItems(xs: seq<Json>, p: nat)
    requires |xs| == 0
    ensures FlatItems(xs, p) == [] && TightItems(xs)
  {
  }

  lemma NoEntries(ks: seq<Key>, vs: seq<Json>, p: nat)
    requires |ks| == |vs| == 0
    ensures FlatEntries(ks, vs, p) == [] && PrintEntries(ks, vs) == "" && TightEntries(ks, vs)
  {
  }

  lemma {:induction false} ItemsScanned(js: string, xs: seq<Json>, p: nat, from: int)
    requires xs != [] && AllWellFormed(xs)
    requires Ahead(js, p, PrintItems(xs)) && Ahead(js, p + |PrintItems(xs)|, "]")
    ensures Scanned(js, FlatItems(xs, p), from, p + |PrintItems(xs)|, TightItems(xs), SkipsNext(xs[|xs| - 1]))
    ensures FlatItems(xs, p) != [] && FlatItems(xs, p)[0].start == Flat(xs[0], p)[0].start <= p + |PrintItems(xs)|
    decreases xs
  {
    hide Ahead, Print, Flat, WellFormed, Tight, Flush, SkipsNext, Scanned, ScanEnd, NoSpace;
    ItemsAhead(js, p, xs);
    ValueScanned(js, xs[0], p, from);
    InFront(js, xs[0], p);
    if |xs| == 1 {
      assert FlatItems(xs, p) == Flat(xs[0], p);
    } else {
      var b := p + |Print(xs[0])|;
      ItemsScanned(js, xs[1..], b + 1, ScanEnd(Flat(xs[0], p), from));
      ItemsAhead(js, b + 1, xs[1..]);
      InFront(js, xs[1], b + 1);
      NextScanned(js, Flat(xs[0], p), FlatItems(xs[1..], b + 1), from, b, p + |PrintItems(xs)|, Tight(xs[0]),
        SkipsNext(xs[0]), Flush(xs[1]), TightItems(xs[1..]), SkipsNext(xs[|xs| - 1]));
    }
  }

  // A key with its colon, and the value's first token behind them.
  lemma {:induction false} EntryScanned(js: string, k: Key, v: Json, p: nat, from: int)
    requires KeyWritten(k) && WellFormed(v) && Ahead(js, p, PrintKey(k) + Print(v))
    ensures Scanned(js, [KeyToken(k, p)] + Flat(v, p + |PrintKey(k)|), from, p + |PrintKey(k)| + |Print(v)|,
      k.after == "" && Flush(v) && Tight(v), SkipsNext(v))
    decreases v, 1
  {
    hide Print, Flat, WellFormed, Tight, Flush, SkipsNext, NoSpace, Ahead, Blank, StringText, ScanFree, ScanEnd;
    var q, t := p + |PrintKey(k)|, KeyToken(k, p);
    var toks := Flat(v, q);
    AheadSplit(js, p, PrintKey(k), Print(v));
    KeyParts(js, k, p);
    BlankSeen(js, t.end + 1, k.after);
    MarkSeen(js, q - 1, ':');
    InFront(js, v, q);
    SpaceSplit(js, t.end + 1, q - 1, q);
    SpaceSplit(js, t.end + 1, q, toks[0].start);
    ValueScanned(js, v, q, t.end + 1);
    OneScanned(js, t, from);
    ScanSplit(js, [t], toks, from, q + |Print(v)|);
  }

  // What is written before the key's text, and behind its closing quote.
  lemma KeyParts(js: string, k: Key, p: nat)
    requires Ahead(js, p, PrintKey(k))
    ensures Ahead(js, p, k.before) && p + |k.before| < |js| && js[p + |k.before|] == '\"'
    ensures Ahead(js, KeyToken(k, p).end + 1, k.after) && KeyToken(k, p).end + 1 + |k.after| + 1 == p + |PrintKey(k)|
    ensures p + |PrintKey(k)| <= |js| && js[p + |PrintKey(k)| - 1] == ':'
  {
    hide Ahead;
    var text := "\"" + k.text + "\"";
    assert PrintKey(k) == k.before + (text + (k.after + ":"));
    assert text == "\"" + (k.text + "\"");
    AheadSplit(js, p, k.before, text + (k.after + ":"));
    AheadSplit(js, p + |k.before|, text, k.after + ":");
    AheadSplit(js, p + |k.before|, "\"", k.text + "\"");
    CharAhead(js, p + |k.before|, '\"');
    AheadSplit(js, p + |k.before| + |text|, k.after, ":");
    CharAhead(js, p + |k.before| + |text| + |k.after|, ':');
  }

  // What is in front of a key's text.
  lemma InFrontOfKey(js: string, k: Key, p: nat)
    requires KeyWritten(k) && Ahead(js, p, PrintKey(k))
    ensures NoSpace(js, p, KeyToken(k, p).start) <==> k.before == ""
  {
    hide NoSpace, Ahead, Blank, StringText;
    KeyParts(js, k, p);
    BlankSeen(js, p, k.before);
    MarkSeen(js, p + |k.before|, '\"');
    SpaceSplit(js, p, p + |k.before|, p + |k.before| + 1);
  }

  lemma {:induction false} EntriesScanned(js: string, ks: seq<Key>, vs: seq<Json>, p: nat, from: int)
    requires ks != [] && |ks| == |vs| && (forall k :: k in ks ==> KeyWritten(k)) && AllWellFormed(vs)
    requires Ahead(js, p, PrintEntries(ks, vs)) && Ahead(js, p + |PrintEntries(ks, vs)|, "}")
    ensures Scanned(js, FlatEntries(ks, vs, p), from, p + |PrintEntries(ks, vs)|, TightEntries(ks, vs),
      SkipsNext(vs[|vs| - 1]))
    ensures FlatEntries(ks, vs, p) != [] && FlatEntries(ks, vs, p)[0] == KeyToken(ks[0], p)
    ensures KeyToken(ks[0], p).start <= p + |PrintEntries(ks, vs)|
    decreases vs
  {
    hide Ahead, Print, PrintKey, Flat, WellFormed, KeyWritten, Tight, Flush, SkipsNext, Scanned, ScanEnd, NoSpace,
         TightEntries, PrintEntries;
    var k, v := ks[0], vs[0];
    var b := p + |PrintKey(k)| + |Print(v)|;
    var entry := [KeyToken(k, p)] + Flat(v, p + |PrintKey(k)|);
    EntriesAhead(js, p, ks, vs);
    EntryScanned(js, k, v, p, from);
    KeyInside(k, p);
    EntriesUnfolded(ks, vs, p);
    if |ks| > 1 {
      EntriesScanned(js, ks[1..], vs[1..], b + 1, ScanEnd(entry, from));
      NextKey(js, ks[1..], vs[1..], b + 1);
      InFrontOfKey(js, ks[1], b + 1);
      NextScanned(js, entry, FlatEntries(ks[1..], vs[1..], b + 1), from, b, p + |PrintEntries(ks, vs)|,
        k.after == "" && Flush(v) && Tight(v), SkipsNext(v), ks[1].before == "", TightEntries(ks[1..], vs[1..]),
        SkipsNext(vs[|vs| - 1]));
    }
  }

  lemma EntriesUnfolded(ks: seq<Key>, vs: seq<Json>, p: nat)
    requires ks != [] && |ks| == |vs| && AllWellFormed(vs)
    ensures var k, v := ks[0], vs[0];
      var entry, b := [KeyToken(k, p)] + Flat(v, p + |PrintKey(k)|), p + |PrintKey(k)| + |Print(v)|;
      var tight := k.after == "" && Flush(v) && Tight(v);
      && FlatEntries(ks, vs, p) == (if |ks| == 1 then entry else entry + FlatEntries(ks[1..], vs[1..], b + 1))
      && TightEntries(ks, vs) == (tight && (|ks| > 1 ==> ks[1].before == "" && TightEntries(ks[1..], vs[1..])))
  {
    hide Print, PrintKey, Flat, WellFormed, Tight, Flush;
    if |ks| == 1 { NoEntries(ks[1..], vs[1..], p + |PrintKey(ks[0])| + |Print(vs[0])| + 1); }
  }

  lemma KeyInside(k: Key, p: nat)
    ensures p < KeyToken(k, p).start <= p + |PrintKey(k)|
  {
  }

  lemma NextKey(js: string, ks: seq<Key>, vs: seq<Json>, p: nat)
    requires ks != [] && |ks| == |vs| && AllWellFormed(vs) && Ahead(js, p, PrintEntries(ks, vs))
    ensures Ahead(js, p, PrintKey(ks[0])) && KeyToken(ks[0], p).start >= p
  {
    hide Ahead, Print, PrintKey, WellFormed;
    var first := PrintKey(ks[0]);
    if |ks| == 1 {
      AheadSplit(js, p, first, Print(vs[0]));
    } else {
      var more := PrintEntries(ks[1..], vs[1..]);
      assert PrintEntries(ks, vs) == first + (Print(vs[0]) + "," + more);
      AheadSplit(js, p, first, Print(vs[0]) + "," + more);
    }
  }

  // ----- The check -----

  lemma {:induction false} RestScanned(json: ParsedJson, k: nat)
    requires Usable(json) && 1 <= k <= json.numberOfTokens
    ensures ScanFree(json.buffer, json.tokens[k..json.numberOfTokens], ScanStart(json, k)) <==>
      forall i :: k <= i < json.numberOfTokens ==> NoSpace(json.buffer, ScanStart(json, i), json.tokens[i].start)
    ensures ScanEnd(json.tokens[k..json.numberOfTokens], ScanStart(json, k)) == ScanStart(json, json.numberOfTokens)
    decreases json.numberOfTokens - k
  {
    hide NoSpace;
    var n := json.numberOfTokens;
    if k < n {
      assert json.tokens[k..n][1..] == json.tokens[k + 1..n];
      RestScanned(json, k + 1);
    }
  }

  /** The check for whitespace passes exactly if there are no blanks before the first key, and the
      object is tight; so blanks that open an inner container, and one blank behind a primitive or an
      empty container, go unseen. */
  lemma {:induction false} BlanksSeen(json: ParsedJson, g: string, ks: seq<Key>, vs: seq<Json>)
    requires Usable(json) && WellFormed(Obj(g, ks, vs)) && json.buffer == Print(Obj(g, ks, vs))
    requires json.tokens[..json.numberOfTokens] == Flat(Obj(g, ks, vs), 0)
    ensures json.numberOfTokens > 0
    ensures BlankFree(json) <==> g == "" && (ks != [] ==> ks[0].before == "") && TightEntries(ks, vs)
  {
    hide Ahead, Print, Flat, NoSpace, PrintEntries, FlatEntries, TightEntries, WellFormed, Blank, StringText, ScanStart,
         KeyWritten, ScanFree, ScanEnd;
    var js, x, n := json.buffer, Obj(g, ks, vs), json.numberOfTokens;
    TextAhead(js);
    ObjectAhead(js, 0, g, ks, vs);
    BlankSeen(js, 1, g);
    MarkSeen(js, 0, '{');
    SpaceSplit(js, 0, 1, 1 + |g|);
    var toks := FlatEntries(ks, vs, 1 + |g|);
    assert json.tokens[0] == Flat(x, 0)[0] && json.tokens[1..n] == toks by {
      assert json.tokens[..n][1..] == json.tokens[1..n] && json.tokens[..n][0] == json.tokens[0];
    }
    RestScanned(json, 1);
    if ks == [] {
      NoEntries(ks, vs, 1 + |g|);
      EmptyScan(js, 0);
      MarkSeen(js, 1 + |g|, '}');
      SpaceSplit(js, 0, 1 + |g|, 2 + |g|);
    } else {
      EntriesScanned(js, ks, vs, 1 + |g|, 0);
      CloseScanned(js, toks, 0, |js| - 1, TightEntries(ks, vs), SkipsNext(vs[|vs| - 1]), '}');
      NextKey(js, ks, vs, 1 + |g|);
      InFrontOfKey(js, ks[0], 1 + |g|);
      SpaceSplit(js, 0, 1 + |g|, toks[0].start);
    }
    StartOfScan(json);
  }

  lemma TextAhead(js: string)
    ensures Ahead(js, 0, js)
  {
  }

  lemma EmptyScan(js: string, from: int)
    ensures ScanFree(js, [], from) && ScanEnd([], from) == from
  {
  }

  lemma StartOfScan(json: ParsedJson)
    requires Usable(json) && json.numberOfTokens > 0
    ensures ScanStart(json, 1) == 0
  {
  }
}
