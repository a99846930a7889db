/**
 * The tokenizer inverts the printer: on the text of a tree, with whatever blanks between its
 * tokens, it lists the tree in preorder.
 */
module JsmnPrinter {
  import opened Jsmn
  import opened JsmnProperties
  import opened JsonText

  predicate AllClosed(toks: seq<Token>) {
    forall t :: t in toks ==> t.end != -1
  }

  lemma {:induction false} FlatClosed(x: Json, p: nat)
    requires WellFormed(x)
    ensures AllClosed(Flat(x, p))
    decreases x
  {
    match x
    case Arr(g, xs) => FlatItemsClosed(xs, p + 1 + |g|);
    case Obj(g, ks, vs) => FlatEntriesClosed(ks, vs, p + 1 + |g|);
    case Padded(b, y, _) => FlatClosed(y, p + |b|);
    case _ =>
  }

  lemma {:induction false} FlatItemsClosed(xs: seq<Json>, p: nat)
    requires AllWellFormed(xs)
    ensures AllClosed(FlatItems(xs, p))
    decreases xs
  {
    if xs != [] {
      FlatClosed(xs[0], p);
      FlatItemsClosed(xs[1..], p + |Print(xs[0])| + 1);
    }
  }

  lemma {:induction false} FlatEntriesClosed(ks: seq<Key>, vs: seq<Json>, p: nat)
    requires |ks| == |vs| && AllWellFormed(vs)
    ensures AllClosed(FlatEntries(ks, vs, p))
    decreases vs
  {
    if ks != [] {
      var q := p + |PrintKey(ks[0])|;
      FlatClosed(vs[0], q);
      FlatEntriesClosed(ks[1..], vs[1..], q + |Print(vs[0])| + 1);
    }
  }

  lemma {:induction false} LastOpenAppend(toks: seq<Token>, more: seq<Token>)
    requires AllClosed(more)
    ensures LastOpen(toks + more) == LastOpen(toks)
    decreases |more|
  {
    if more == [] {
      assert toks + more == toks;
    } else {
      var init := more[..|more| - 1];
      assert (toks + more)[..|toks + more| - 1] == toks + init;
      assert more[|more| - 1] in more;
      LastOpenAppend(toks, init);
    }
  }

  // The token at a gains n children and the list goes on with more.
  function Grow(toks: seq<Token>, a: int, n: nat, more: seq<Token>): (r: seq<Token>)
    requires -1 <= a < |toks|
    ensures |r| == |toks| + |more|
  {
    (if a == -1 then toks else toks[a := toks[a].(size := toks[a].size + n)]) + more
  }

  lemma {:induction false} GrowTwice(toks: seq<Token>, a: int, n: nat, f: seq<Token>, k: nat, g: seq<Token>)
    requires -1 <= a < |toks|
    ensures Grow(Grow(toks, a, n, f), a, k, g) == Grow(toks, a, n + k, f + g)
  {
  }

  lemma {:induction false} LastOpenGrow(toks: seq<Token>, a: int, n: nat, more: seq<Token>)
    requires -1 <= a < |toks| && AllClosed(more)
    ensures LastOpen(Grow(toks, a, n, more)) == LastOpen(toks)
  {
    hide LastOpen, AllClosed;
    LastOpenAppend(Grow(toks, a, n, []), more);
    assert Grow(toks, a, n, more) == Grow(toks, a, n, []) + more;
    LastOpenIsOpen(toks, Grow(toks, a, n, []));
  }

  lemma {:induction false} LastOpenIsOpen(toks: seq<Token>, toks': seq<Token>)
    requires |toks| == |toks'| && forall i :: 0 <= i < |toks| ==> IsOpen(toks[i]) == IsOpen(toks'[i])
    ensures LastOpen(toks) == LastOpen(toks')
  {
    hide LastOpen;
    var i, j := LastOpen(toks), LastOpen(toks');
    assert i >= 0 ==> IsOpen(toks'[i]);
    assert j >= 0 ==> IsOpen(toks[j]);
  }

  lemma {:induction false} LastOpenIsContainer(toks: seq<Token>)
    requires LastOpen(toks) >= 0 && IsContainer(toks[LastOpen(toks)].typ)
    ensures LastOpenContainer(toks) == LastOpen(toks)
  {
    hide LastOpen, LastOpenContainer;
    var i, j := LastOpen(toks), LastOpenContainer(toks);
    assert IsOpen(toks[i]) && IsContainer(toks[i].typ);
  }

  predicate IsLeaf(x: Json) {
    x.Prim? || x.Str? || (x.Padded? && IsLeaf(x.inner))
  }

  // The state once the text of x has been read.
  function After(st: State, x: Json): (r: State)
    requires WellFormed(x) && -1 <= st.super < |st.toks|
    ensures -1 <= r.super < |r.toks|
  {
    var toks := Grow(st.toks, st.super, 1, Flat(x, st.pos));
    State(st.pos + |Print(x)|, if IsLeaf(x) then st.super else LastOpen(toks), toks)
  }

  // Running on from either state comes to the same.
  predicate SameRun(js: string, st: State, st': State, cap: nat) {
    -1 <= st.super < |st.toks| && -1 <= st'.super < |st'.toks| && Run(js, st, cap) == Run(js, st', cap)
  }

  lemma {:induction false} OneStep(js: string, st: State, cap: nat)
    requires -1 <= st.super < |st.toks| && !AtEnd(js, st.pos) && StepAt(js, st, cap).Next?
    ensures SameRun(js, st, StepAt(js, st, cap).st, cap)
  {
  }

  lemma StepsComma(js: string, st: State, cap: nat)
    requires -1 <= st.super < |st.toks| && st.pos < |js| && js[st.pos] == ','
    ensures SameRun(js, st, State(st.pos + 1, AfterComma(st.toks, st.super), st.toks), cap)
  {
    hide AfterComma;
    OneStep(js, st, cap);
  }

  lemma StepsColon(js: string, st: State, cap: nat)
    requires -1 <= st.super < |st.toks| && st.pos < |js| && js[st.pos] == ':'
    ensures SameRun(js, st, State(st.pos + 1, |st.toks| - 1, st.toks), cap)
  {
    OneStep(js, st, cap);
  }

  // Blanks leave everything but the position alone.
  lemma {:induction false} SkipsBlanks(js: string, st: State, s: string, cap: nat)
    requires -1 <= st.super < |st.toks| && Blank(s) && Ahead(js, st.pos, s)
    ensures SameRun(js, st, st.(pos := st.pos + |s|), cap)
    decreases |s|
  {
    hide Run;
    if s != "" {
      AheadSplit(js, st.pos, s[..1], s[1..]);
      assert s == s[..1] + s[1..];
      CharAhead(js, st.pos, s[0]);
      assert s[0] in s && Blank(s[1..]) by { forall c | c in s[1..] ensures c in s {} }
      OneStep(js, st, cap);
      SkipsBlanks(js, st.(pos := st.pos + 1), s[1..], cap);
    }
  }

  // What ends a value: the end of the text, or a character that ends a primitive.
  predicate EndsAt(js: string, p: nat) {
    AtEnd(js, p) || IsDelimiter(js[p])
  }

  lemma {:induction false} ReadLeaf(js: string, st: State, x: Json, cap: nat)
    requires WellFormed(x) && (x.Prim? || x.Str?) && -1 <= st.super < |st.toks|
    requires Ahead(js, st.pos, Print(x)) && |st.toks| < cap
    requires x.Prim? ==> EndsAt(js, st.pos + |Print(x)|)
    ensures SameRun(js, st, After(st, x), cap)
  {
    hide Run, Ahead, StringText, PrimitiveText, AtEnd, Bump, Grow;
    if x.Prim? { ReadPrim(js, st, x.text, cap); } else { ReadStr(js, st, x.text, cap); }
    OneStep(js, st, cap);
  }

  lemma {:induction false} ReadPrim(js: string, st: State, s: string, cap: nat)
    requires PrimitiveText(s) && -1 <= st.super < |st.toks| < cap && Ahead(js, st.pos, s) && EndsAt(js, st.pos + |s|)
    ensures !AtEnd(js, st.pos) && StepAt(js, st, cap) == Next(After(st, Prim(s)))
  {
    assert js[st.pos] == js[st.pos..st.pos + |s|][0] == s[0] && s[0] in s;
    PrimitiveScans(js, st.pos, s);
    hide ScanPrimitive;
    AddsLeaf(st.toks, st.super, Token(Primitive, st.pos, st.pos + |s|, 0));
  }

  lemma {:induction false} ReadStr(js: string, st: State, s: string, cap: nat)
    requires StringText(s) && -1 <= st.super < |st.toks| < cap && Ahead(js, st.pos, "\"" + s + "\"")
    ensures !AtEnd(js, st.pos) && StepAt(js, st, cap) == Next(After(st, Str(s)))
  {
    hide Ahead, ScanString, StringText, Bump, Grow;
    var p := st.pos;
    assert "\"" + s + "\"" == "\"" + (s + "\"");
    AheadSplit(js, p, "\"", s + "\"");
    AheadSplit(js, p + 1, s, "\"");
    CharAhead(js, p, '\"');
    CharAhead(js, p + 1 + |s|, '\"');
    StringScans(js, p + 1, s);
    AddsLeaf(st.toks, st.super, Token(String, p + 1, p + 1 + |s|, 0));
  }

  lemma AddsLeaf(toks: seq<Token>, super: int, t: Token)
    requires -1 <= super < |toks|
    ensures Bump(toks + [t], super) == Grow(toks, super, 1, [t])
  {
  }

  /** Reading on from the start of a value's text appends exactly its token listing. */
  lemma {:induction false} ReadValue(js: string, st: State, x: Json, cap: nat)
    requires WellFormed(x) && -1 <= st.super < |st.toks|
    requires Ahead(js, st.pos, Print(x)) && |st.toks| + |Flat(x, st.pos)| <= cap
    requires EndsAt(js, st.pos + |Print(x)|)
    ensures SameRun(js, st, After(st, x), cap)
    decreases x, 1
  {
    match x
    case Arr(g, xs) => ReadArray(js, st, g, xs, cap);
    case Obj(g, ks, vs) => ReadObject(js, st, g, ks, vs, cap);
    case Padded(b, y, a) => ReadPadded(js, st, b, y, a, cap);
    case _ => ReadLeaf(js, st, x, cap);
  }

  lemma {:induction false} ReadPadded(js: string, st: State, b: string, y: Json, a: string, cap: nat)
    requires WellFormed(Padded(b, y, a)) && -1 <= st.super < |st.toks|
    requires Ahead(js, st.pos, Print(Padded(b, y, a))) && |st.toks| + |Flat(Padded(b, y, a), st.pos)| <= cap
    requires EndsAt(js, st.pos + |Print(Padded(b, y, a))|)
    ensures SameRun(js, st, After(st, Padded(b, y, a)), cap)
    decreases y, 2
  {
    hide Ahead, Run, StepAt, LastOpen, Blank;
    var st1 := st.(pos := st.pos + |b|);
    assert b + Print(y) + a == b + (Print(y) + a);
    AheadSplit(js, st.pos, b, Print(y) + a);
    AheadSplit(js, st1.pos, Print(y), a);
    BlankEnds(js, st1.pos + |Print(y)|, a);
    SkipsBlanks(js, st, b, cap);
    ReadValue(js, st1, y, cap);
    SkipsBlanks(js, After(st1, y), a, cap);
  }

  lemma BlankEnds(js: string, p: nat, s: string)
    requires Blank(s) && Ahead(js, p, s) && EndsAt(js, p + |s|)
    ensures EndsAt(js, p)
  {
    if s != "" { assert js[p] == js[p..p + |s|][0] == s[0] && s[0] in s; }
  }

  lemma {:induction false} Opens(js: string, st: State, c: char, cap: nat)
    requires -1 <= st.super < |st.toks| && |st.toks| < cap && (c == '[' || c == '{')
    requires st.pos < |js| && js[st.pos] == c
    ensures SameRun(js, st, Opened(st, c), cap)
  {
    OneStep(js, st, cap);
  }

  function Opened(st: State, c: char): (r: State)
    requires -1 <= st.super < |st.toks|
    ensures -1 <= r.super < |r.toks| && LastOpen(r.toks) == r.super
  {
    var toks := Grow(st.toks, st.super, 1, [Token(if c == '[' then Array else Object, st.pos, -1, 0)]);
    assert toks == Bump(st.toks, st.super) + [toks[|st.toks|]];
    State(st.pos + 1, |st.toks|, toks)
  }

  // The token of a container that starts at st and ends at end, with n children.
  function Whole(st: State, c: char, n: nat, end: nat): Token {
    Token(if c == '[' then Array else Object, st.pos, end, n)
  }

  lemma AllClosedToo(t: Token, more: seq<Token>)
    requires AllClosed(more) && t.end != -1
    ensures AllClosed([t] + more) && AllClosed([])
  {
  }

  // The list with that container open is the list with it closed, but for its end.
  lemma GrownOpen(st: State, c: char, n: nat, more: seq<Token>, end: nat)
    requires -1 <= st.super < |st.toks|
    ensures var a, t := |st.toks|, Whole(st, c, n, end);
      var open, toks := Grow(Opened(st, c).toks, a, n, more), Grow(st.toks, st.super, 1, [t] + more);
      && open[a] == t.(end := -1) && open[a := t] == toks && open[..a] == toks[..a] == Grow(st.toks, st.super, 1, [])
  {
    hide LastOpen;
  }

  // Closing the container opened at st.toks' end, whose children are more.
  lemma {:induction false} Closes(js: string, st: State, c: char, n: nat, more: seq<Token>, st': State, cap: nat)
    requires -1 <= st.super < |st.toks| && (c == '[' || c == '{') && AllClosed(more)
    requires st'.toks == Grow(Opened(st, c).toks, |st.toks|, n, more) && -1 <= st'.super < |st'.toks|
    requires st'.pos < |js| && js[st'.pos] == if c == '[' then ']' else '}'
    ensures var toks := Grow(st.toks, st.super, 1, [Whole(st, c, n, st'.pos + 1)] + more);
      SameRun(js, st', State(st'.pos + 1, LastOpen(toks), toks), cap)
  {
    hide Run, LastOpen, AllClosed, Grow, Opened;
    var a, t := |st.toks|, Whole(st, c, n, st'.pos + 1);
    AllClosedToo(t, more);
    OpenedSuper(st, c);
    GrownOpen(st, c, n, more, st'.pos + 1);
    LastOpenGrow(Opened(st, c).toks, a, n, more);
    LastOpenGrow(st.toks, st.super, 1, [t] + more);
    LastOpenGrow(st.toks, st.super, 1, []);
    OneStep(js, st', cap);
  }

  lemma OpenedSuper(st: State, c: char)
    requires -1 <= st.super < |st.toks|
    ensures Opened(st, c).super == |st.toks|
  {
  }

  lemma {:induction false} ReadArray(js: string, st: State, g: string, xs: seq<Json>, cap: nat)
    requires WellFormed(Arr(g, xs)) && -1 <= st.super < |st.toks|
    requires Ahead(js, st.pos, Print(Arr(g, xs))) && |st.toks| + |Flat(Arr(g, xs), st.pos)| <= cap
    ensures SameRun(js, st, After(st, Arr(g, xs)), cap)
    decreases xs, 1
  {
    hide Ahead, Run, StepAt, Print, PrintItems, Flat, FlatItems, LastOpen, WellFormed, Blank;
    var p := st.pos;
    ArrayAhead(js, p, g, xs);
    var q, st1 := p + 1 + |g|, Opened(st, '[');
    var end, f := q + |PrintItems(xs)|, FlatItems(xs, q);
    Opens(js, st, '[', cap);
    SkipsBlanks(js, st1, g, cap);
    ReadItems(js, st1.(pos := q), xs, cap);
    FlatItemsClosed(xs, q);
    Closes(js, st, '[', |xs|, f, State(end, |st.toks|, Grow(st1.toks, |st.toks|, |xs|, f)), cap);
  }

  lemma {:induction false} ArrayAhead(js: string, p: nat, g: string, xs: seq<Json>)
    requires WellFormed(Arr(g, xs)) && Ahead(js, p, Print(Arr(g, xs)))
    ensures Blank(g) && AllWellFormed(xs) && |Print(Arr(g, xs))| == |g| + |PrintItems(xs)| + 2
    ensures Flat(Arr(g, xs), p) == [Token(Array, p, p + |Print(Arr(g, xs))|, |xs|)] + FlatItems(xs, p + 1 + |g|)
    ensures BracketsAround(js, p, '[', g, PrintItems(xs), ']')
  {
    hide Ahead, PrintItems;
    assert "[" + g + PrintItems(xs) + "]" == "[" + (g + PrintItems(xs)) + "]";
    BracketsAhead(js, p, '[', g, PrintItems(xs), ']');
  }

  lemma CharAhead(js: string, p: nat, c: char)
    requires Ahead(js, p, [c])
    ensures p < |js| && js[p] == c
  {
    assert js[p] == js[p..p + 1][0];
  }

  // At p is an opening bracket, then a gap and a body, and behind them the closing bracket.
  predicate BracketsAround(js: string, p: nat, open: char, gap: string, body: string, close: char) {
    var q := p + 1 + |gap|;
    && p < |js| && js[p] == open && Ahead(js, p + 1, gap) && Ahead(js, q, body)
    && q + |body| < |js| && js[q + |body|] == close && Ahead(js, q + |body|, [close])
  }

  lemma BracketsAhead(js: string, p: nat, open: char, gap: string, body: string, close: char)
    requires Ahead(js, p, [open] + (gap + body) + [close])
    ensures BracketsAround(js, p, open, gap, body, close)
  {
    hide Ahead;
    assert [open] + (gap + body) + [close] == [open] + (gap + (body + [close]));
    AheadSplit(js, p, [open], gap + (body + [close]));
    AheadSplit(js, p + 1, gap, body + [close]);
    AheadSplit(js, p + 1 + |gap|, body, [close]);
    CharAhead(js, p, open);
    CharAhead(js, p + 1 + |gap| + |body|, close);
  }

  // The elements of the array st.super, up to its closing bracket.
  lemma {:induction false} ReadItems(js: string, st: State, xs: seq<Json>, cap: nat)
    requires AllWellFormed(xs) && 0 <= st.super < |st.toks|
    requires LastOpen(st.toks) == st.super && st.toks[st.super].typ == Array
    requires Ahead(js, st.pos, PrintItems(xs)) && Ahead(js, st.pos + |PrintItems(xs)|, "]")
    requires |st.toks| + |FlatItems(xs, st.pos)| <= cap
    ensures SameRun(js, st,
      State(st.pos + |PrintItems(xs)|, st.super, Grow(st.toks, st.super, |xs|, FlatItems(xs, st.pos))), cap)
    decreases xs, 0
  {
    hide Ahead, Run, StepAt, Print, PrintItems, Flat, FlatItems, LastOpen, LastOpenContainer, WellFormed, After, Grow;
    var a, p := st.super, st.pos;
    if xs == [] {
      NoItems(xs, st.toks, a, p);
    } else {
      var x, more := xs[0], xs[1..];
      var q := p + |Print(x)|;
      ItemsAhead(js, p, xs);
      ReadItem(js, st, x, cap);
      if more == [] {
        NoItems(more, Grow(st.toks, a, 1, Flat(x, p)), a, q + 1);
      } else {
        NextItem(js, st, x, cap);
        ReadItems(js, State(q + 1, a, Grow(st.toks, a, 1, Flat(x, p))), more, cap);
      }
      GrowTwice(st.toks, a, 1, Flat(x, p), |more|, FlatItems(more, q + 1));
    }
  }

  lemma {:induction false} NoItems(xs: seq<Json>, toks: seq<Token>, a: nat, p: nat)
    requires xs == [] && a < |toks|
    ensures PrintItems(xs) == "" && FlatItems(xs, p) == [] && Grow(toks, a, 0, []) == toks
  {
  }

  lemma {:induction false} NoEntries(ks: seq<Key>, vs: seq<Json>, toks: seq<Token>, a: nat, p: nat)
    requires ks == [] && vs == [] && a < |toks|
    ensures PrintEntries(ks, vs) == "" && FlatEntries(ks, vs, p) == [] && Grow(toks, a, 0, []) == toks
  {
  }

  lemma {:induction false} ReadItem(js: string, st: State, x: Json, cap: nat)
    requires WellFormed(x) && 0 <= st.super < |st.toks| && LastOpen(st.toks) == st.super
    requires Ahead(js, st.pos, Print(x)) && |st.toks| + |Flat(x, st.pos)| <= cap
    requires st.pos + |Print(x)| < |js| && IsDelimiter(js[st.pos + |Print(x)|])
    ensures SameRun(js, st, State(st.pos + |Print(x)|, st.super, Grow(st.toks, st.super, 1, Flat(x, st.pos))), cap)
    decreases x, 2
  {
    hide Ahead, Run, StepAt, Print, Flat, LastOpen, WellFormed;
    ReadValue(js, st, x, cap);
    FlatClosed(x, st.pos);
    LastOpenGrow(st.toks, st.super, 1, Flat(x, st.pos));
  }

  // The comma after an element makes the array the superior token, as it was.
  lemma {:induction false} NextItem(js: string, st: State, x: Json, cap: nat)
    requires WellFormed(x) && 0 <= st.super < |st.toks| && LastOpen(st.toks) == st.super
    requires st.toks[st.super].typ == Array
    requires st.pos + |Print(x)| < |js| && js[st.pos + |Print(x)|] == ','
    ensures var q, toks := st.pos + |Print(x)|, Grow(st.toks, st.super, 1, Flat(x, st.pos));
      && SameRun(js, State(q, st.super, toks), State(q + 1, st.super, toks), cap)
      && LastOpen(toks) == st.super && toks[st.super].typ == Array
  {
    hide Ahead, Run, StepAt, Print, Flat, LastOpen, WellFormed;
    var q, toks := st.pos + |Print(x)|, Grow(st.toks, st.super, 1, Flat(x, st.pos));
    FlatClosed(x, st.pos);
    LastOpenGrow(st.toks, st.super, 1, Flat(x, st.pos));
    StepsComma(js, State(q, st.super, toks), cap);
  }

  lemma {:induction false} ItemsAhead(js: string, p: nat, xs: seq<Json>)
    requires xs != [] && AllWellFormed(xs)
    requires Ahead(js, p, PrintItems(xs)) && Ahead(js, p + |PrintItems(xs)|, "]")
    ensures Ahead(js, p, Print(xs[0]))
    ensures var q := p + |Print(xs[0])|;
      && q < |js| && js[q] == (if |xs| == 1 then ']' else ',')
      && FlatItems(xs, p) == Flat(xs[0], p) + FlatItems(xs[1..], q + 1)
      && if |xs| == 1 then PrintItems(xs) == Print(xs[0])
         else |PrintItems(xs)| == |Print(xs[0])| + 1 + |PrintItems(xs[1..])| && Ahead(js, q + 1, PrintItems(xs[1..]))
  {
    hide Ahead, Print, Flat, WellFormed;
    var x, more := Print(xs[0]), PrintItems(xs[1..]);
    if |xs| > 1 {
      assert PrintItems(xs) == x + ("," + more);
      AheadSplit(js, p, x, "," + more);
      AheadSplit(js, p + |x|, ",", more);
      CharAhead(js, p + |x|, ',');
    } else {
      CharAhead(js, p + |x|, ']');
    }
  }

  lemma {:induction false} ReadObject(js: string, st: State, g: string, ks: seq<Key>, vs: seq<Json>, cap: nat)
    requires WellFormed(Obj(g, ks, vs)) && -1 <= st.super < |st.toks|
    requires Ahead(js, st.pos, Print(Obj(g, ks, vs))) && |st.toks| + |Flat(Obj(g, ks, vs), st.pos)| <= cap
    ensures SameRun(js, st, After(st, Obj(g, ks, vs)), cap)
    decreases vs, 1
  {
    hide Ahead, Run, StepAt, Print, PrintEntries, Flat, FlatEntries, LastOpen, WellFormed, Blank;
    var p := st.pos;
    ObjectAhead(js, p, g, ks, vs);
    var q, st1 := p + 1 + |g|, Opened(st, '{');
    var end, f := q + |PrintEntries(ks, vs)|, FlatEntries(ks, vs, q);
    Opens(js, st, '{', cap);
    SkipsBlanks(js, st1, g, cap);
    var super := ReadEntries(js, st1.(pos := q), ks, vs, cap);
    FlatEntriesClosed(ks, vs, q);
    Closes(js, st, '{', |ks|, f, State(end, super, Grow(st1.toks, |st.toks|, |ks|, f)), cap);
  }

  lemma {:induction false} ObjectAhead(js: string, p: nat, g: string, ks: seq<Key>, vs: seq<Json>)
    requires WellFormed(Obj(g, ks, vs)) && Ahead(js, p, Print(Obj(g, ks, vs)))
    ensures Blank(g) && |ks| == |vs| && (forall k :: k in ks ==> KeyWritten(k)) && AllWellFormed(vs)
    ensures |Print(Obj(g, ks, vs))| == |g| + |PrintEntries(ks, vs)| + 2
    ensures Flat(Obj(g, ks, vs), p) ==
      [Token(Object, p, p + |Print(Obj(g, ks, vs))|, |ks|)] + FlatEntries(ks, vs, p + 1 + |g|)
    ensures BracketsAround(js, p, '{', g, PrintEntries(ks, vs), '}')
  {
    hide Ahead, PrintEntries;
    assert "{" + g + PrintEntries(ks, vs) + "}" == "{" + (g + PrintEntries(ks, vs)) + "}";
    BracketsAhead(js, p, '{', g, PrintEntries(ks, vs), '}');
  }

  // The tokens of the key k and its value v, and the list after them in the object st.super.
  function EntryTokens(k: Key, v: Json, p: nat): seq<Token>
    requires WellFormed(v)
  {
    [KeyToken(k, p)] + Flat(v, p + |PrintKey(k)|)
  }

  function AfterEntry(st: State, k: Key, v: Json): (toks: seq<Token>)
    requires WellFormed(v) && 0 <= st.super < |st.toks|
  {
    Grow(st.toks, st.super, 1, EntryTokens(k, v, st.pos))
  }

  // The list once the key is there, which no value belongs to yet.
  function WithKey(st: State, k: Key): (toks: seq<Token>)
    requires 0 <= st.super < |st.toks|
    ensures |toks| == |st.toks| + 1
  {
    Grow(st.toks, st.super, 1, [KeyToken(k, st.pos).(size := 0)])
  }

  // One key and its value; whose child the value counted as is returned.
  lemma {:induction false} ReadEntry(js: string, st: State, k: Key, v: Json, cap: nat) returns (super: int)
    requires KeyWritten(k) && WellFormed(v) && 0 <= st.super < |st.toks|
    requires LastOpen(st.toks) == st.super && st.toks[st.super].typ == Object
    requires Ahead(js, st.pos, PrintKey(k) + Print(v)) && EndsAt(js, st.pos + |PrintKey(k)| + |Print(v)|)
    requires |st.toks| + 1 + |Flat(v, st.pos + |PrintKey(k)|)| <= cap
    ensures super == st.super || super == |st.toks|
    ensures SameRun(js, st, State(st.pos + |PrintKey(k)| + |Print(v)|, super, AfterEntry(st, k, v)), cap)
    decreases v, 2
  {
    hide Ahead, Run, StepAt, Print, PrintKey, Flat, LastOpen, WellFormed, EntryTokens;
    AheadSplit(js, st.pos, PrintKey(k), Print(v));
    ReadKey(js, st, k, cap);
    var st2 := State(st.pos + |PrintKey(k)|, |st.toks|, WithKey(st, k));
    ReadValue(js, st2, v, cap);
    LastOpenAfterEntry(st, k, v);
    ValueOfKey(st, k, v);
    super := After(st2, v).super;
  }

  // Growing the key by its value is the same as growing the object by the whole entry.
  lemma {:induction false} ValueOfKey(st: State, k: Key, v: Json)
    requires WellFormed(v) && 0 <= st.super < |st.toks|
    ensures Grow(WithKey(st, k), |st.toks|, 1, Flat(v, st.pos + |PrintKey(k)|)) == AfterEntry(st, k, v)
  {
    hide Flat, WellFormed;
  }

  lemma {:induction false} ReadKey(js: string, st: State, k: Key, cap: nat)
    requires KeyWritten(k) && 0 <= st.super < |st.toks| && |st.toks| < cap && Ahead(js, st.pos, PrintKey(k))
    ensures SameRun(js, st, State(st.pos + |PrintKey(k)|, |st.toks|, WithKey(st, k)), cap)
  {
    hide Ahead, Run, StepAt, LastOpen, Blank;
    var text := "\"" + k.text + "\"";
    var p := st.pos + |k.before|;
    assert PrintKey(k) == k.before + (text + (k.after + ":"));
    AheadSplit(js, st.pos, k.before, text + (k.after + ":"));
    AheadSplit(js, p, text, k.after + ":");
    AheadSplit(js, p + |text|, k.after, ":");
    CharAhead(js, p + |text| + |k.after|, ':');
    SkipsBlanks(js, st, k.before, cap);
    var st1 := After(st.(pos := p), Str(k.text));
    ReadLeaf(js, st.(pos := p), Str(k.text), cap);
    SkipsBlanks(js, st1, k.after, cap);
    StepsColon(js, st1.(pos := st1.pos + |k.after|), cap);
  }

  lemma {:induction false} LastOpenAfterEntry(st: State, k: Key, v: Json)
    requires WellFormed(v) && 0 <= st.super < |st.toks|
    ensures LastOpen(AfterEntry(st, k, v)) == LastOpen(st.toks)
  {
    hide Flat, LastOpen, WellFormed;
    FlatClosed(v, st.pos + |PrintKey(k)|);
    LastOpenGrow(st.toks, st.super, 1, EntryTokens(k, v, st.pos));
  }

  // After a comma the object is the superior token again.
  lemma {:induction false} NextEntry(js: string, st: State, k: Key, v: Json, q: nat, super: int, cap: nat)
    requires WellFormed(v) && 0 <= st.super < |st.toks| && (super == st.super || super == |st.toks|)
    requires LastOpen(st.toks) == st.super && st.toks[st.super].typ == Object
    requires q < |js| && js[q] == ','
    ensures var toks := AfterEntry(st, k, v);
      && SameRun(js, State(q, super, toks), State(q + 1, st.super, toks), cap)
      && LastOpen(toks) == st.super && toks[st.super].typ == Object
  {
    hide Ahead, Run, StepAt, Flat, LastOpen, LastOpenContainer, WellFormed;
    var toks := AfterEntry(st, k, v);
    LastOpenAfterEntry(st, k, v);
    LastOpenIsContainer(toks);
    StepsComma(js, State(q, super, toks), cap);
  }

  lemma {:induction false} ReadEntries(js: string, st: State, ks: seq<Key>, vs: seq<Json>, cap: nat)
    returns (super: int)
    requires |ks| == |vs| && (forall k :: k in ks ==> KeyWritten(k)) && AllWellFormed(vs)
    requires 0 <= st.super < |st.toks|
    requires LastOpen(st.toks) == st.super && st.toks[st.super].typ == Object
    requires Ahead(js, st.pos, PrintEntries(ks, vs)) && Ahead(js, st.pos + |PrintEntries(ks, vs)|, "}")
    requires |st.toks| + |FlatEntries(ks, vs, st.pos)| <= cap
    ensures SameRun(js, st,
      State(st.pos + |PrintEntries(ks, vs)|, super, Grow(st.toks, st.super, |ks|, FlatEntries(ks, vs, st.pos))), cap)
    decreases vs, 0
  {
    hide Ahead, Run, StepAt, Print, PrintEntries, Flat, FlatEntries, LastOpen, LastOpenContainer, WellFormed,
         EntryTokens, Grow;
    var o, p := st.super, st.pos;
    super := o;
    if ks == [] {
      NoEntries(ks, vs, st.toks, o, p);
    } else {
      var k, v := ks[0], vs[0];
      var q := p + |PrintKey(k)| + |Print(v)|;
      EntriesAhead(js, p, ks, vs);
      FirstEntry(ks, vs, p);
      super := ReadEntry(js, st, k, v, cap);
      var toks := AfterEntry(st, k, v);
      if |ks| == 1 {
        NoEntries(ks[1..], vs[1..], toks, o, q + 1);
      } else {
        NextEntry(js, st, k, v, q, super, cap);
        super := ReadEntries(js, State(q + 1, o, toks), ks[1..], vs[1..], cap);
      }
      GrowTwice(st.toks, o, 1, EntryTokens(k, v, p), |ks| - 1, FlatEntries(ks[1..], vs[1..], q + 1));
    }
  }

  lemma {:induction false} FirstEntry(ks: seq<Key>, vs: seq<Json>, p: nat)
    requires ks != [] && |ks| == |vs| && AllWellFormed(vs)
    ensures FlatEntries(ks, vs, p) ==
      EntryTokens(ks[0], vs[0], p) + FlatEntries(ks[1..], vs[1..], p + |PrintKey(ks[0])| + |Print(vs[0])| + 1)
    ensures |EntryTokens(ks[0], vs[0], p)| == 1 + |Flat(vs[0], p + |PrintKey(ks[0])|)|
  {
    hide Print, Flat, WellFormed;
  }

  lemma {:induction false} EntriesAhead(js: string, p: nat, ks: seq<Key>, vs: seq<Json>)
    requires ks != [] && |ks| == |vs| && AllWellFormed(vs)
    requires Ahead(js, p, PrintEntries(ks, vs)) && Ahead(js, p + |PrintEntries(ks, vs)|, "}")
    ensures Ahead(js, p, PrintKey(ks[0]) + Print(vs[0]))
    ensures var n := |PrintKey(ks[0])| + |Print(vs[0])|;
      && p + n < |js| && js[p + n] == (if |ks| == 1 then '}' else ',')
      && if |ks| == 1 then |PrintEntries(ks, vs)| == n
         else var more := PrintEntries(ks[1..], vs[1..]);
           |PrintEntries(ks, vs)| == n + 1 + |more| && Ahead(js, p + n + 1, more)
  {
    hide Ahead, Print, PrintKey, WellFormed;
    var entry, more := PrintKey(ks[0]) + Print(vs[0]), PrintEntries(ks[1..], vs[1..]);
    if |ks| > 1 {
      assert PrintEntries(ks, vs) == entry + ("," + more);
      AheadSplit(js, p, entry, "," + more);
      AheadSplit(js, p + |entry|, ",", more);
      CharAhead(js, p + |entry|, ',');
    } else {
      CharAhead(js, p + |entry|, '}');
    }
  }

  /** On the text of any tree, whatever blanks it is written with, the tokenizer succeeds exactly
      when it has room for every node, and then its tokens are the preorder listing: exact types,
      spans and child counts. */
  lemma {:induction false} TokenizerInvertsPrinter(x: Json, cap: nat)
    requires WellFormed(x)
    ensures match Run(Print(x), START, cap)
      case Done(st) => |Flat(x, 0)| <= cap && st.toks == Flat(x, 0)
      case Failed(e, _) => e == NoMemory && cap < |Flat(x, 0)|
  {
    hide Print, Flat, StepAt, WellFormed, Run, LastOpen;
    if |Flat(x, 0)| <= cap {
      ReadsWhole(x, cap);
    } else {
      ReadsWhole(x, |Flat(x, 0)|);
      ResumedRun(Print(x), START, cap, |Flat(x, 0)|);
      TokensWithinRoom(Print(x), START, cap);
    }
  }

  lemma {:induction false} ReadsWhole(x: Json, cap: nat)
    requires WellFormed(x) && |Flat(x, 0)| <= cap
    ensures var r := Run(Print(x), START, cap); r.Done? && r.st.toks == Flat(x, 0)
  {
    hide Print, Flat, StepAt, WellFormed, LastOpen;
    ReadValue(Print(x), START, x, cap);
    FlatClosed(x, 0);
    LastOpenAppend([], Flat(x, 0));
    assert [] + Flat(x, 0) == Flat(x, 0) && Grow([], -1, 1, Flat(x, 0)) == Flat(x, 0);
  }
}
