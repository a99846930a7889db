/**
 * The tree behind a flat token array: nodes carry their tokens, and the array lists them in
 * preorder. Laid says of the spans what any JSON text gives, whatever blanks it is written with.
 */
module JsonTree {
  import opened Jsmn
  import opened JsonText

  datatype Node =
    | Leaf(tok: Token)
    | ArrayNode(tok: Token, items: seq<Node>)
    | ObjectNode(tok: Token, keys: seq<Token>, values: seq<Node>)

  predicate Laid(n: Node) {
    n.tok.start <= n.tok.end &&
    match n
    case Leaf(t) => t.typ == String || t.typ == Primitive
    case ArrayNode(t, xs) => t.typ == Array && ItemsLaid(xs, t.start, t.end)
    case ObjectNode(t, ks, vs) => t.typ == Object && |ks| == |vs| && EntriesLaid(ks, vs, t.start, t.end)
  }

  // Nodes that start after position a, one after the other, and end by b.
  predicate ItemsLaid(xs: seq<Node>, a: int, b: int) {
    xs == [] ||
    (Laid(xs[0]) && a < xs[0].tok.start && xs[0].tok.end <= b && ItemsLaid(xs[1..], xs[0].tok.end, b))
  }

  predicate EntriesLaid(ks: seq<Token>, vs: seq<Node>, a: int, b: int)
    requires |ks| == |vs|
    decreases vs
  {
    ks == [] ||
    (&& a < ks[0].start <= ks[0].end < vs[0].tok.start && vs[0].tok.end <= b && ks[0].typ == String
     && Laid(vs[0]) && EntriesLaid(ks[1..], vs[1..], vs[0].tok.end, b))
  }

  // ----- Preorder -----

  function Listing(n: Node): (toks: seq<Token>)
    ensures toks != [] && toks[0] == n.tok
  {
    match n
    case Leaf(t) => [t]
    case ArrayNode(t, xs) => [t] + ListItems(xs)
    case ObjectNode(t, ks, vs) => [t] + ListEntries(ks, vs)
  }

  function ListItems(xs: seq<Node>): (toks: seq<Token>)
    ensures toks == [] <==> xs == []
  {
    if xs == [] then [] else Listing(xs[0]) + ListItems(xs[1..])
  }

  function ListEntries(ks: seq<Token>, vs: seq<Node>): (toks: seq<Token>)
    ensures toks == [] <==> ks == [] || vs == []
    decreases vs
  {
    if ks == [] || vs == [] then [] else [ks[0]] + Listing(vs[0]) + ListEntries(ks[1..], vs[1..])
  }

  function Size(n: Node): (s: nat)
    ensures s > 0
  {
    |Listing(n)|
  }

  // All starts lie within the node's own span.
  predicate Within(toks: seq<Token>, a: int, b: int) {
    forall t :: t in toks ==> a <= t.start <= b && t.start <= t.end <= b
  }

  lemma {:induction false} ListingWithin(n: Node)
    requires Laid(n)
    ensures Within(Listing(n), n.tok.start, n.tok.end)
    decreases n
  {
    match n
    case Leaf(t) =>
    case ArrayNode(t, xs) => ItemsWithin(xs, t.start, t.end);
    case ObjectNode(t, ks, vs) => EntriesWithin(ks, vs, t.start, t.end);
  }

  lemma {:induction false} ItemsWithin(xs: seq<Node>, a: int, b: int)
    requires ItemsLaid(xs, a, b)
    ensures Within(ListItems(xs), a + 1, b)
    decreases xs
  {
    if xs != [] {
      ListingWithin(xs[0]);
      ItemsWithin(xs[1..], xs[0].tok.end, b);
    }
  }

  lemma {:induction false} EntriesWithin(ks: seq<Token>, vs: seq<Node>, a: int, b: int)
    requires |ks| == |vs| && EntriesLaid(ks, vs, a, b)
    ensures Within(ListEntries(ks, vs), a + 1, b)
    decreases vs
  {
    if ks != [] {
      ListingWithin(vs[0]);
      EntriesWithin(ks[1..], vs[1..], vs[0].tok.end, b);
    }
  }

  // ----- Where children are listed -----

  // Indices of the nodes xs when the first of them is at i.
  function ItemIndices(xs: seq<Node>, i: nat): (r: seq<nat>)
    ensures |r| == |xs|
  {
    if xs == [] then [] else [i] + ItemIndices(xs[1..], i + Size(xs[0]))
  }

  // Indices of the keys when the first of them is at i; each value is next to its key.
  function KeyIndices(ks: seq<Token>, vs: seq<Node>, i: nat): (r: seq<nat>)
    requires |ks| == |vs|
    ensures |r| == |ks|
    decreases vs
  {
    if ks == [] then [] else [i] + KeyIndices(ks[1..], vs[1..], i + 1 + Size(vs[0]))
  }

  // ----- The tree of a JSON text -----

  function TreeOf(x: Json, p: nat): (n: Node)
    requires WellFormed(x)
    ensures n.tok == Flat(x, p)[0]
    decreases x
  {
    match x
    case Prim(s) => Leaf(Flat(x, p)[0])
    case Str(s) => Leaf(Flat(x, p)[0])
    case Arr(g, xs) => ArrayNode(Flat(x, p)[0], TreesOf(xs, p + 1 + |g|))
    case Obj(g, ks, vs) => ObjectNode(Flat(x, p)[0], KeysOf(ks, vs, p + 1 + |g|), ValuesOf(ks, vs, p + 1 + |g|))
    case Padded(b, y, _) => TreeOf(y, p + |b|)
  }

  function TreesOf(xs: seq<Json>, p: nat): seq<Node>
    requires AllWellFormed(xs)
    decreases xs
  {
    if xs == [] then [] else [TreeOf(xs[0], p)] + TreesOf(xs[1..], p + |Print(xs[0])| + 1)
  }

  function KeysOf(ks: seq<Key>, vs: seq<Json>, p: nat): (r: seq<Token>)
    requires |ks| == |vs| && AllWellFormed(vs)
    ensures |r| == |ks|
    decreases vs
  {
    if ks == [] then []
    else
      var q := p + |PrintKey(ks[0])|;
      [KeyToken(ks[0], p)] + KeysOf(ks[1..], vs[1..], q + |Print(vs[0])| + 1)
  }

  function ValuesOf(ks: seq<Key>, vs: seq<Json>, p: nat): (r: seq<Node>)
    requires |ks| == |vs| && AllWellFormed(vs)
    ensures |r| == |ks|
    decreases vs
  {
    if ks == [] then []
    else
      var q := p + |PrintKey(ks[0])|;
      [TreeOf(vs[0], q)] + ValuesOf(ks[1..], vs[1..], q + |Print(vs[0])| + 1)
  }

  lemma {:induction false} TreeLaid(x: Json, p: nat)
    requires WellFormed(x)
    ensures Laid(TreeOf(x, p)) && Listing(TreeOf(x, p)) == Flat(x, p)
    ensures var t := TreeOf(x, p).tok; p <= t.start && t.end <= p + |Print(x)|
    decreases x
  {
    hide TreesOf, KeysOf, ValuesOf, FlatItems, FlatEntries, PrintItems, PrintEntries, ItemsLaid, EntriesLaid;
    hide ListItems, ListEntries, Blank, StringText, PrimitiveText, KeyWritten, AllWellFormed;
    match x
    case Arr(g, xs) => TreesLaid(xs, p + 1 + |g|, p, p + |Print(x)|);
    case Obj(g, ks, vs) => EntriesOfLaid(ks, vs, p + 1 + |g|, p, p + |Print(x)|);
    case Padded(b, y, _) => TreeLaid(y, p + |b|);
    case _ =>
  }

  lemma {:induction false} TreesLaid(xs: seq<Json>, p: nat, a: int, b: int)
    requires AllWellFormed(xs) && a < p && p + |PrintItems(xs)| <= b
    ensures ItemsLaid(TreesOf(xs, p), a, b) && ListItems(TreesOf(xs, p)) == FlatItems(xs, p)
    decreases xs
  {
    if xs != [] {
      TreeLaid(xs[0], p);
      var t := TreeOf(xs[0], p).tok;
      TreesLaid(xs[1..], p + |Print(xs[0])| + 1, t.end, if |xs| == 1 then p + |Print(xs[0])| + 1 else b);
    }
  }

  lemma {:induction false} EntriesOfLaid(ks: seq<Key>, vs: seq<Json>, p: nat, a: int, b: int)
    requires |ks| == |vs| && AllWellFormed(vs) && a < p && p + |PrintEntries(ks, vs)| <= b
    ensures EntriesLaid(KeysOf(ks, vs, p), ValuesOf(ks, vs, p), a, b)
    ensures ListEntries(KeysOf(ks, vs, p), ValuesOf(ks, vs, p)) == FlatEntries(ks, vs, p)
    decreases vs
  {
    hide Print, Flat, TreeOf, Listing, Laid, WellFormed;
    if ks != [] {
      var q := p + |PrintKey(ks[0])|;
      TreeLaid(vs[0], q);
      var t := TreeOf(vs[0], q).tok;
      EntriesOfLaid(ks[1..], vs[1..], q + |Print(vs[0])| + 1, t.end,
        if |ks| == 1 then q + |Print(vs[0])| + 1 else b);
    }
  }

  lemma {:induction false} ObjectTree(x: Json, p: nat)
    requires WellFormed(x)
    ensures IsObject(x) <==> TreeOf(x, p).ObjectNode?
    ensures IsObject(x) ==> |TreeOf(x, p).keys| == |TreeOf(x, p).values|
    decreases x
  {
    if x.Padded? { ObjectTree(x.inner, p + |x.before|); }
  }
}
