/** The tree behind the tokens of a text says what was written: its shape, its keys, its leaves. */
module JsonMeaning {
  import opened Jsmn
  import opened JsmnPrinter
  import opened JsonNav
  import opened JsonText
  import opened JsonTree
  import opened TxLeaves

  // The tokens and the text of x.
  predicate Lists(json: ParsedJson, x: Json) {
    Usable(json) && WellFormed(x) && json.buffer == Print(x) && json.tokens[..json.numberOfTokens] == Flat(x, 0)
  }

  predicate Says(json: ParsedJson, n: Node, x: Json)
    decreases x
  {
    match x
    case Prim(s) => n.Leaf? && TokenText(json, n.tok) == s
    case Str(s) => n.Leaf? && TokenText(json, n.tok) == s
    case Arr(_, xs) => n.ArrayNode? && AllSay(json, n.items, xs)
    case Obj(_, ks, vs) => n.ObjectNode? && KeysSay(json, n.keys, ks) && AllSay(json, n.values, vs)
    case Padded(_, y, _) => Says(json, n, y)
  }

  predicate AllSay(json: ParsedJson, ns: seq<Node>, xs: seq<Json>)
    decreases xs
  {
    |ns| == |xs| && (xs == [] || (Says(json, ns[0], xs[0]) && AllSay(json, ns[1..], xs[1..])))
  }

  predicate KeysSay(json: ParsedJson, toks: seq<Token>, ks: seq<Key>) {
    |toks| == |ks| && (ks == [] || (TokenText(json, toks[0]) == ks[0].text && KeysSay(json, toks[1..], ks[1..])))
  }

  lemma TokenSays(json: ParsedJson, t: Token, p: nat, s: string)
    requires Ahead(json.buffer, p, s) && t.start == p && t.end == p + |s|
    ensures TokenText(json, t) == s
  {
  }

  lemma QuotedAhead(js: string, p: nat, s: string)
    requires Ahead(js, p, "\"" + s + "\"")
    ensures Ahead(js, p + 1, s)
  {
    hide Ahead;
    assert "\"" + s + "\"" == "\"" + (s + "\"");
    AheadSplit(js, p, "\"", s + "\"");
    AheadSplit(js, p + 1, s, "\"");
  }

  /** Keys and leaves have the texts that were written, in the places where they were written. */
  lemma {:induction false} TreeSays(json: ParsedJson, x: Json, p: nat)
    requires WellFormed(x) && Ahead(json.buffer, p, Print(x))
    ensures Says(json, TreeOf(x, p), x)
    decreases x
  {
    hide Ahead, TokenText, AllSay, KeysSay, TreesOf, KeysOf, ValuesOf, PrintItems, PrintEntries, FlatItems, FlatEntries;
    hide Blank, StringText, PrimitiveText, KeyWritten;
    match x
    case Prim(s) => TokenSays(json, Flat(x, p)[0], p, s);
    case Str(s) =>
      QuotedAhead(json.buffer, p, s);
      TokenSays(json, Flat(x, p)[0], p + 1, s);
    case Arr(g, xs) =>
      ArrayAhead(json.buffer, p, g, xs);
      TreesSay(json, xs, p + 1 + |g|);
    case Obj(g, ks, vs) =>
      ObjectAhead(json.buffer, p, g, ks, vs);
      EntriesSay(json, ks, vs, p + 1 + |g|);
    case Padded(b, y, a) =>
      assert b + Print(y) + a == b + (Print(y) + a);
      AheadSplit(json.buffer, p, b, Print(y) + a);
      AheadSplit(json.buffer, p + |b|, Print(y), a);
      TreeSays(json, y, p + |b|);
  }

  lemma {:induction false} TreesSay(json: ParsedJson, xs: seq<Json>, p: nat)
    requires AllWellFormed(xs)
    requires Ahead(json.buffer, p, PrintItems(xs)) && Ahead(json.buffer, p + |PrintItems(xs)|, "]")
    ensures AllSay(json, TreesOf(xs, p), xs)
    decreases xs
  {
    hide Ahead, Says, Print, PrintItems, TreeOf, Flat, FlatItems, WellFormed;
    if xs != [] {
      ItemsAhead(json.buffer, p, xs);
      TreeSays(json, xs[0], p);
      var q := p + |Print(xs[0])| + 1;
      if |xs| > 1 { TreesSay(json, xs[1..], q); } else { NothingSaid(json, q); }
      assert TreesOf(xs, p)[1..] == TreesOf(xs[1..], q);
    }
  }

  lemma NothingSaid(json: ParsedJson, p: nat)
    ensures AllSay(json, TreesOf([], p), [])
    ensures KeysSay(json, KeysOf([], [], p), []) && AllSay(json, ValuesOf([], [], p), [])
  {
  }

  lemma KeyAhead(js: string, p: nat, k: Key)
    requires Ahead(js, p, PrintKey(k))
    ensures Ahead(js, p + |k.before| + 1, k.text)
  {
    hide Ahead;
    var quoted := "\"" + k.text + "\"";
    assert PrintKey(k) == k.before + (quoted + (k.after + ":"));
    AheadSplit(js, p, k.before, quoted + (k.after + ":"));
    AheadSplit(js, p + |k.before|, quoted, k.after + ":");
    QuotedAhead(js, p + |k.before|, k.text);
  }

  lemma {:induction false} EntriesSay(json: ParsedJson, ks: seq<Key>, vs: seq<Json>, p: nat)
    requires |ks| == |vs| && AllWellFormed(vs)
    requires Ahead(json.buffer, p, PrintEntries(ks, vs)) && Ahead(json.buffer, p + |PrintEntries(ks, vs)|, "}")
    ensures KeysSay(json, KeysOf(ks, vs, p), ks) && AllSay(json, ValuesOf(ks, vs, p), vs)
    decreases vs
  {
    hide Ahead, Says, Print, PrintKey, PrintEntries, TreeOf, Flat, WellFormed, TokenText;
    if ks != [] {
      var k, v, q := ks[0], vs[0], p + |PrintKey(ks[0])|;
      EntriesAhead(json.buffer, p, ks, vs);
      AheadSplit(json.buffer, p, PrintKey(k), Print(v));
      KeyAhead(json.buffer, p, k);
      TokenSays(json, KeyToken(k, p), p + |k.before| + 1, k.text);
      TreeSays(json, v, q);
      var r := q + |Print(v)| + 1;
      if |ks| > 1 { EntriesSay(json, ks[1..], vs[1..], r); } else { NothingSaid(json, r); }
      assert KeysOf(ks, vs, p)[1..] == KeysOf(ks[1..], vs[1..], r);
      assert ValuesOf(ks, vs, p)[1..] == ValuesOf(ks[1..], vs[1..], r);
    }
  }

  // ----- What that means for children -----

  lemma {:induction false} ChildSays(json: ParsedJson, ns: seq<Node>, xs: seq<Json>, j: nat)
    requires AllSay(json, ns, xs) && j < |xs|
    ensures |ns| == |xs| && Says(json, ns[j], xs[j])
    decreases j
  {
    hide Says;
    if j > 0 { ChildSays(json, ns[1..], xs[1..], j - 1); }
  }

  lemma {:induction false} KeySays(json: ParsedJson, toks: seq<Token>, ks: seq<Key>, j: nat)
    requires KeysSay(json, toks, ks) && j < |ks|
    ensures |toks| == |ks| && TokenText(json, toks[j]) == ks[j].text
    decreases j
  {
    hide TokenText;
    if j > 0 { KeySays(json, toks[1..], ks[1..], j - 1); }
  }
}
