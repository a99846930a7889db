/**
 * JSON trees as they are written, with any blanks between their tokens, their text, and the
 * preorder listing of their tokens; the tokenizer turns the one into the other.
 */
module JsonText {
  import opened Jsmn

  // A key of an object, without its quotes but with its escapes, and the blanks around it.
  datatype Key = Key(before: string, text: string, after: string)

  // Texts are kept as written, blanks included: gap is what follows an opening bracket, and a
  // padded value has blanks before and after it. The i-th key of an object goes with its i-th value.
  datatype Json =
    | Prim(text: string)
    | Str(text: string)
    | Arr(gap: string, items: seq<Json>)
    | Obj(gap: string, keys: seq<Key>, values: seq<Json>)
    | Padded(before: string, inner: Json, after: string)

  predicate Blank(s: string) {
    forall c :: c in s ==> c == '\t' || c == '\r' || c == '\n' || c == ' '
  }

  // What may follow a backslash, by itself or as one of the four digits behind a u.
  predicate EscapeLetter(c: char) {
    c in "\"\\/bfnrt"
  }

  predicate HexDigit(c: char) {
    c in "0123456789ABCDEFabcdef"
  }

  // Strings of section 7 of RFC 8259, in which control characters other than NUL may stand too.
  predicate StringText(s: string) {
    if s == "" then true
    else if s[0] == '\\' then
      |s| > 1 &&
      if EscapeLetter(s[1]) then StringText(s[2..])
      else
        && s[1] == 'u' && |s| >= 6
        && HexDigit(s[2]) && HexDigit(s[3]) && HexDigit(s[4]) && HexDigit(s[5]) && StringText(s[6..])
    else s[0] != '\0' && s[0] != '\"' && StringText(s[1..])
  }

  // Numbers, true, false and null, and whatever else is written with these characters.
  predicate PlainCharacter(c: char) {
    '!' <= c <= '~' && c !in ",:]}"
  }

  predicate PrimitiveText(s: string) {
    s != "" && s[0] !in "{[\"" && forall c :: c in s ==> PlainCharacter(c)
  }

  predicate KeyWritten(k: Key) {
    Blank(k.before) && StringText(k.text) && Blank(k.after)
  }

  predicate WellFormed(x: Json) {
    match x
    case Prim(s) => PrimitiveText(s)
    case Str(s) => StringText(s)
    case Arr(g, xs) => Blank(g) && AllWellFormed(xs)
    case Obj(g, ks, vs) => Blank(g) && |ks| == |vs| && (forall k :: k in ks ==> KeyWritten(k)) && AllWellFormed(vs)
    case Padded(b, y, a) => Blank(b) && WellFormed(y) && Blank(a)
  }

  predicate AllWellFormed(xs: seq<Json>) {
    xs == [] || (WellFormed(xs[0]) && AllWellFormed(xs[1..]))
  }

  predicate IsObject(x: Json) {
    x.Obj? || (x.Padded? && IsObject(x.inner))
  }

  // ----- Text -----

  function Print(x: Json): string
    requires WellFormed(x)
  {
    match x
    case Prim(s) => s
    case Str(s) => "\"" + s + "\""
    case Arr(g, xs) => "[" + g + PrintItems(xs) + "]"
    case Obj(g, ks, vs) => "{" + g + PrintEntries(ks, vs) + "}"
    case Padded(b, y, a) => b + Print(y) + a
  }

  function PrintItems(xs: seq<Json>): string
    requires AllWellFormed(xs)
  {
    if xs == [] then ""
    else if |xs| == 1 then Print(xs[0])
    else Print(xs[0]) + "," + PrintItems(xs[1..])
  }

  function PrintKey(k: Key): string {
    k.before + ("\"" + k.text + "\"") + k.after + ":"
  }

  function PrintEntries(ks: seq<Key>, vs: seq<Json>): string
    requires |ks| == |vs| && AllWellFormed(vs)
    decreases vs
  {
    if ks == [] then ""
    else if |ks| == 1 then PrintKey(ks[0]) + Print(vs[0])
    else PrintKey(ks[0]) + Print(vs[0]) + "," + PrintEntries(ks[1..], vs[1..])
  }

  // ----- Token listing -----

  // The tokens of x when its text starts at p: x's own token, then those of its children.
  function Flat(x: Json, p: nat): (toks: seq<Token>)
    requires WellFormed(x)
    ensures |toks| >= 1
  {
    match x
    case Prim(s) => [Token(Primitive, p, p + |s|, 0)]
    case Str(s) => [Token(String, p + 1, p + 1 + |s|, 0)]
    case Arr(g, xs) => [Token(Array, p, p + |Print(x)|, |xs|)] + FlatItems(xs, p + 1 + |g|)
    case Obj(g, ks, vs) => [Token(Object, p, p + |Print(x)|, |ks|)] + FlatEntries(ks, vs, p + 1 + |g|)
    case Padded(b, y, _) => Flat(y, p + |b|)
  }

  function FlatItems(xs: seq<Json>, p: nat): seq<Token>
    requires AllWellFormed(xs)
  {
    if xs == [] then [] else Flat(xs[0], p) + FlatItems(xs[1..], p + |Print(xs[0])| + 1)
  }

  // Each key counts the one value that belongs to it.
  function KeyToken(k: Key, p: nat): Token {
    Token(String, p + |k.before| + 1, p + |k.before| + 1 + |k.text|, 1)
  }

  function FlatEntries(ks: seq<Key>, vs: seq<Json>, p: nat): seq<Token>
    requires |ks| == |vs| && AllWellFormed(vs)
    decreases vs
  {
    if ks == [] then []
    else
      var q := p + |PrintKey(ks[0])|;
      [KeyToken(ks[0], p)] + Flat(vs[0], q) + FlatEntries(ks[1..], vs[1..], q + |Print(vs[0])| + 1)
  }

  // ----- Scanning texts -----

  predicate Ahead(js: string, p: nat, s: string) {
    p + |s| <= |js| && js[p..p + |s|] == s
  }

  lemma AheadSplit(js: string, p: nat, s: string, t: string)
    ensures Ahead(js, p, s + t) <==> Ahead(js, p, s) && Ahead(js, p + |s|, t)
  {
    if p + |s + t| <= |js| {
      assert js[p..p + |s + t|] == js[p..p + |s|] + js[p + |s|..p + |s + t|];
      assert js[p..p + |s + t|][..|s|] == js[p..p + |s|];
      assert js[p..p + |s + t|][|s|..] == js[p + |s|..p + |s + t|];
      assert (s + t)[..|s|] == s && (s + t)[|s|..] == t;
    }
  }

  // The tokenizer's classes of characters are those of the grammar.
  lemma CharactersAgree(c: char)
    ensures IsEscape(c) <==> EscapeLetter(c)
    ensures IsHex(c) <==> HexDigit(c)
    ensures IsPrintable(c) && !IsDelimiter(c) <==> PlainCharacter(c)
  {
  }

  // How many characters of a string stand for its first one.
  function UnitLength(s: string): (n: nat)
    requires s != "" && StringText(s)
    ensures 0 < n <= |s| && StringText(s[n..])
  {
    if s[0] != '\\' then 1 else if EscapeLetter(s[1]) then 2 else 6
  }

  lemma UnitScans(js: string, p: nat, s: string)
    requires s != "" && StringText(s) && p + |s| < |js|
    requires forall i :: 0 <= i < |s| ==> js[p + i] == s[i]
    ensures ScanString(js, p) == ScanString(js, p + UnitLength(s))
  {
    hide EscapeLetter, HexDigit, IsEscape, IsHex;
    match UnitLength(s)
    case 2 =>
      assert js[p + 1] == s[1];
      CharactersAgree(s[1]);
    case 6 =>
      LetterUEscapesNothing();
      assert js[p + 1] == s[1] && js[p + 2] == s[2] && js[p + 3] == s[3] && js[p + 4] == s[4] && js[p + 5] == s[5];
      HexScans(js, p + 2);
    case _ =>
  }

  lemma {:induction false} StringScans(js: string, p: nat, s: string)
    requires StringText(s) && Ahead(js, p, s) && p + |s| < |js| && js[p + |s|] == '\"'
    ensures ScanString(js, p) == Ends(p + |s|)
    decreases |s|
  {
    hide ScanString, StringText, UnitLength;
    if s == "" {
      QuoteEnds(js, p);
    } else {
      forall i | 0 <= i < |s| ensures js[p + i] == s[i] { assert js[p..p + |s|][i] == s[i]; }
      var n := UnitLength(s);
      assert s == s[..n] + s[n..];
      AheadSplit(js, p, s[..n], s[n..]);
      UnitScans(js, p, s);
      StringScans(js, p + n, s[n..]);
    }
  }

  lemma QuoteEnds(js: string, p: nat)
    requires p < |js| && js[p] == '\"'
    ensures ScanString(js, p) == Ends(p)
  {
  }

  lemma LetterUEscapesNothing()
    ensures !EscapeLetter('u') && !IsEscape('u')
  {
  }

  lemma HexScans(js: string, p: nat)
    requires p + 4 <= |js| && forall i :: p <= i < p + 4 ==> HexDigit(js[i])
    ensures ScanHex(js, p, 4) == Ends(p + 4)
  {
    hide HexDigit, IsHex;
    NoNulDigit();
    forall i | p <= i < p + 4 ensures IsHex(js[i]) && js[i] != '\0' { CharactersAgree(js[i]); }
    assert ScanHex(js, p + 3, 1) == Ends(p + 4);
    assert ScanHex(js, p + 2, 2) == Ends(p + 4);
    assert ScanHex(js, p + 1, 3) == Ends(p + 4);
  }

  lemma NoNulDigit()
    ensures !HexDigit('\0')
  {
  }

  lemma {:induction false} PrimitiveScans(js: string, p: nat, s: string)
    requires (forall c :: c in s ==> PlainCharacter(c)) && Ahead(js, p, s)
    requires AtEnd(js, p + |s|) || IsDelimiter(js[p + |s|])
    ensures ScanPrimitive(js, p) == Ends(p + |s|)
    decreases |s|
  {
    if s != "" {
      assert s[0] in s && js[p] == js[p..p + |s|][0] == s[0];
      CharactersAgree(s[0]);
      AheadSplit(js, p, s[..1], s[1..]);
      assert s == s[..1] + s[1..];
      PrimitiveScans(js, p + 1, s[1..]);
    }
  }

  // ----- The primitives of RFC 8259 -----

  predicate Digits(s: string) {
    forall c :: c in s ==> '0' <= c <= '9'
  }

  // Section 6: sign, integer part, fraction and exponent, the last two with their marks.
  predicate NumberText(sign: string, whole: string, fraction: string, exponent: string) {
    && (sign == "" || sign == "-")
    && Digits(whole) && whole != "" && (whole[0] == '0' ==> |whole| == 1)
    && (fraction == "" || (|fraction| > 1 && fraction[0] == '.' && Digits(fraction[1..])))
    && (exponent == "" || ExponentText(exponent))
  }

  predicate ExponentText(s: string) {
    |s| > 1 && (s[0] == 'e' || s[0] == 'E') &&
    var digits := if s[1] == '+' || s[1] == '-' then s[2..] else s[1..];
    digits != "" && Digits(digits)
  }

  predicate InNumber(s: string) {
    forall c :: c in s ==> c in "0123456789+-.eE"
  }

  lemma NumberParts(s: string, t: string)
    requires InNumber(s) && InNumber(t)
    ensures InNumber(s + t)
  {
  }

  lemma DigitsInNumber(s: string)
    requires Digits(s)
    ensures InNumber(s)
  {
  }

  lemma ExponentInNumber(s: string)
    requires ExponentText(s)
    ensures InNumber(s)
  {
    var n := if s[1] == '+' || s[1] == '-' then 2 else 1;
    DigitsInNumber(s[n..]);
    assert s == s[..n] + s[n..];
    assert InNumber(s[..n]);
  }

  /** Every number of RFC 8259 is a primitive of the grammar, and so are its three names. */
  lemma NumbersArePrimitive(sign: string, whole: string, fraction: string, exponent: string)
    requires NumberText(sign, whole, fraction, exponent)
    ensures PrimitiveText(sign + whole + fraction + exponent)
  {
    var s := sign + whole + fraction + exponent;
    DigitsInNumber(whole);
    if fraction != "" {
      DigitsInNumber(fraction[1..]);
      assert fraction == "." + fraction[1..];
    }
    if exponent != "" { ExponentInNumber(exponent); }
    NumberParts(sign, whole);
    NumberParts(sign + whole, fraction);
    NumberParts(sign + whole + fraction, exponent);
    assert s[0] in s;
    forall c | c in s ensures PlainCharacter(c) { NumberCharacter(c); }
    NumberCharacter(s[0]);
  }

  lemma NumberCharacter(c: char)
    requires c in "0123456789+-.eE"
    ensures PlainCharacter(c) && c !in "{[\""
  {
  }

  lemma NamesArePrimitive()
    ensures PrimitiveText("true") && PrimitiveText("false") && PrimitiveText("null")
  {
  }

  // ----- Nothing else is scanned -----

  lemma {:induction false} ScannedHex(js: string, p: nat)
    requires ScanHex(js, p, 4).Ends? && !AtEnd(js, ScanHex(js, p, 4).at)
    ensures p + 4 < |js| && ScanHex(js, p, 4).at == p + 4 && forall i :: p <= i < p + 4 ==> HexDigit(js[i])
  {
    hide HexDigit, IsHex;
    assert ScanHex(js, p + 1, 3) == ScanHex(js, p, 4);
    assert ScanHex(js, p + 2, 2) == ScanHex(js, p, 4);
    assert ScanHex(js, p + 3, 1) == ScanHex(js, p, 4);
    forall i | p <= i < p + 4 ensures HexDigit(js[i]) { CharactersAgree(js[i]); }
  }

  /** What is scanned up to a closing quote is a string of the grammar. */
  lemma {:induction false} ScannedString(js: string, p: nat)
    requires p <= |js| && ScanString(js, p).Ends?
    ensures StringText(js[p..ScanString(js, p).at])
    decreases |js| - p
  {
    hide EscapeLetter, HexDigit, IsEscape, IsHex;
    var e := ScanString(js, p).at;
    if js[p] != '\"' {
      var n := if js[p] != '\\' || p + 1 >= |js| then 1 else if IsEscape(js[p + 1]) then 2 else 6;
      if n == 2 { CharactersAgree(js[p + 1]); }
      if n == 6 {
        ScannedHex(js, p + 2);
        CharactersAgree('u');
      }
      ScannedString(js, p + n);
      assert js[p..e][n..] == js[p + n..e];
    }
  }

  /** And what is scanned up to a delimiter consists of the characters of the grammar. */
  lemma {:induction false} ScannedPrimitive(js: string, p: nat)
    requires p <= |js| && ScanPrimitive(js, p).Ends?
    ensures var e := ScanPrimitive(js, p).at;
      (forall c :: c in js[p..e] ==> PlainCharacter(c)) && (AtEnd(js, e) || IsDelimiter(js[e]))
    decreases |js| - p
  {
    if !(AtEnd(js, p) || IsDelimiter(js[p])) {
      CharactersAgree(js[p]);
      ScannedPrimitive(js, p + 1);
      var e := ScanPrimitive(js, p).at;
      assert js[p..e] == [js[p]] + js[p + 1..e];
    }
  }
}
