/**
 * Texts made fit for the screen: control characters and everything beyond ASCII are escaped,
 * and a final blank or at sign gets a marker. The result determines the source.
 */
module TextEscape {
  import opened Bytes
  import opened ParserErrors

  // ----- UTF-8, RFC 3629 section 3 -----

  // A code point's size by its first byte, and its value; nothing is checked about the others.
  function SizeAt(b: byte): (n: nat)
    ensures 1 <= n <= 4
  {
    if b / 8 == 0x1e then 4 else if b / 16 == 0xe then 3 else if b / 32 == 6 then 2 else 1
  }

  function CodePointAt(s: seq<byte>): (cp: nat)
    requires s != [] && SizeAt(s[0]) <= |s|
    ensures cp < 0x20_0000
  {
    match SizeAt(s[0])
    case 4 => ((Low(s[0], 8) * 64 + Low(s[1], 64)) * 64 + Low(s[2], 64)) * 64 + Low(s[3], 64)
    case 3 => (Low(s[0], 16) * 64 + Low(s[1], 64)) * 64 + Low(s[2], 64)
    case 2 => Low(s[0], 32) * 64 + Low(s[1], 64)
    case _ => s[0]
  }

  // The bits of a byte below m.
  function Low(b: byte, m: nat): (r: nat)
    requires m > 0
    ensures r < m
  {
    b % m
  }

  // The code points of a text, unless its last one is cut short.
  function CodePoints(s: seq<byte>): Option<seq<nat>> {
    if s == [] then Some([])
    else if SizeAt(s[0]) > |s| then None
    else
      var rest := CodePoints(s[SizeAt(s[0])..]);
      if rest.None? then None else Some([CodePointAt(s)] + rest.value)
  }

  type CodePoint = cp: nat | cp < 0x11_0000

  function Utf8(cp: CodePoint): (s: seq<byte>)
    ensures s != []
  {
    var q1, q2, q3 := cp / 64, cp / 64 / 64, cp / 64 / 64 / 64;
    if cp < 0x80 then [cp]
    else if cp < 0x800 then [0xc0 + q1, 0x80 + cp % 64]
    else if cp < 0x1_0000 then [0xe0 + q2, 0x80 + q1 % 64, 0x80 + cp % 64]
    else [0xf0 + q3, 0x80 + q2 % 64, 0x80 + q1 % 64, 0x80 + cp % 64]
  }

  function Utf8All(cps: seq<CodePoint>): seq<byte> {
    if cps == [] then [] else Utf8(cps[0]) + Utf8All(cps[1..])
  }

  lemma Utf8Read(cp: CodePoint, rest: seq<byte>)
    ensures var s := Utf8(cp) + rest;
      SizeAt(s[0]) == |Utf8(cp)| && CodePointAt(s) == cp && s[SizeAt(s[0])..] == rest
  {
    hide CodePointAt;
    var s := Utf8(cp) + rest;
    LeadByte(cp);
    assert s[..|Utf8(cp)|] == Utf8(cp) && s[|Utf8(cp)|..] == rest;
    SameCodePoint(Utf8(cp), s);
    OneCodePoint(cp);
  }

  lemma LeadByte(cp: CodePoint)
    ensures SizeAt(Utf8(cp)[0]) == |Utf8(cp)|
  {
  }

  lemma SameCodePoint(s: seq<byte>, t: seq<byte>)
    requires s != [] && s <= t && SizeAt(s[0]) == |s|
    ensures CodePointAt(s) == CodePointAt(t)
  {
    hide SizeAt, Low;
  }

  lemma OneCodePoint(cp: CodePoint)
    ensures SizeAt(Utf8(cp)[0]) == |Utf8(cp)| && CodePointAt(Utf8(cp)) == cp
  {
    LeadByte(cp);
    var q1, q2, q3 := cp / 64, cp / 64 / 64, cp / 64 / 64 / 64;
    LowBits(0x80, 64, cp % 64);
    LowBits(0x80, 64, q1 % 64);
    LowBits(0x80, 64, q2 % 64);
    if 0x80 <= cp < 0x800 { LowBits(0xc0, 32, q1); }
    if 0x800 <= cp < 0x1_0000 { LowBits(0xe0, 16, q2); }
    if 0x1_0000 <= cp { LowBits(0xf0, 8, q3); }
  }

  lemma LowBits(high: nat, m: nat, r: nat)
    requires m in {8, 16, 32, 64} && high in {0x80, 0xc0, 0xe0, 0xf0} && high % m == 0 && r < m && high + r < 0x100
    ensures Low(high + r, m) == r
  {
  }

  lemma {:induction false} CodePointsInvertsUtf8(cps: seq<CodePoint>)
    ensures CodePoints(Utf8All(cps)) == Some(cps)
    decreases cps
  {
    hide Utf8, SizeAt, CodePointAt;
    if cps != [] {
      var s := Utf8(cps[0]) + Utf8All(cps[1..]);
      Utf8Read(cps[0], Utf8All(cps[1..]));
      CodePointsInvertsUtf8(cps[1..]);
      assert CodePoints(s) == Some([CodePointAt(s)] + cps[1..]);
      assert [CodePointAt(s)] + cps[1..] == cps;
    }
  }

  // ----- Escapes -----

  function Digit(v: nat): (c: char)
    requires v < 16
  {
    if v < 10 then '0' + v as char else 'A' + (v - 10) as char
  }

  // The n low-order hexadecimal digits of v, in upper case.
  function Hex(v: nat, n: nat): (s: string)
    ensures |s| == n
  {
    if n == 0 then "" else Hex(v / 16, n - 1) + [Digit(v % 16)]
  }

  // The letter that stands for a character after a backslash, if there is one.
  function Letter(cp: nat): Option<char> {
    match cp
    case 0x07 => Some('a')
    case 0x08 => Some('b')
    case 0x0c => Some('f')
    case 0x0a => Some('n')
    case 0x0d => Some('r')
    case 0x09 => Some('t')
    case 0x0b => Some('v')
    case 0x5c => Some('\\')
    case _ => None
  }

  function Escape(cp: nat): (s: string)
    ensures s != ""
  {
    if cp < 0x0f || cp == 0x5c then
      if Letter(cp).Some? then ['\\', Letter(cp).value] else "\\x" + Hex(cp, 2)
    else if 32 <= cp <= 0x7f then [cp as char]
    else if cp > 0xffff then "\\U" + Hex(cp, 8)
    else "\\u" + Hex(cp, 4)
  }

  function EscapeAll(cps: seq<nat>): string {
    if cps == [] then "" else Escape(cps[0]) + EscapeAll(cps[1..])
  }

  // The marker behind a final blank or at sign.
  function Marker(s: seq<byte>): string {
    if s != [] && (s[|s| - 1] == ' ' as int || s[|s| - 1] == '@' as int) then "@" else ""
  }

  // The text on the screen.
  function Translated(s: seq<byte>): Option<string> {
    var cps := CodePoints(s);
    if cps.None? then None else Some(EscapeAll(cps.value) + Marker(s))
  }

  // ----- Reading escapes back -----

  function HexValue(c: char): (v: nat)
    ensures v < 16
  {
    if '0' <= c <= '9' then (c - '0') as int else if 'A' <= c <= 'F' then (c - 'A') as int + 10 else 0
  }

  function FromHex(s: string): nat {
    if s == "" then 0 else FromHex(s[..|s| - 1]) * 16 + HexValue(s[|s| - 1])
  }

  function FromLetter(c: char): nat {
    match c
    case 'a' => 0x07
    case 'b' => 0x08
    case 'f' => 0x0c
    case 'n' => 0x0a
    case 'r' => 0x0d
    case 't' => 0x09
    case 'v' => 0x0b
    case _ => 0x5c
  }

  // How long the escape or character at the start of a text is, and what it stands for.
  function EscapeSize(t: string): (n: nat)
    requires t != ""
    ensures n > 0
  {
    if t[0] != '\\' || |t| == 1 then 1
    else if t[1] == 'x' then 4
    else if t[1] == 'u' then 6
    else if t[1] == 'U' then 10
    else 2
  }

  function EscapeValue(t: string): nat
    requires t != "" && EscapeSize(t) <= |t|
  {
    match EscapeSize(t)
    case 1 => t[0] as int
    case 2 => FromLetter(t[1])
    case n => FromHex(t[2..n])
  }

  function Unescape(t: string): seq<nat> {
    if t == "" || EscapeSize(t) > |t| then [] else [EscapeValue(t)] + Unescape(t[EscapeSize(t)..])
  }

  // The decoder of the screen's text drops one final at sign, the marker.
  function Decoded(t: string): seq<nat> {
    Unescape(if t != "" && t[|t| - 1] == '@' then t[..|t| - 1] else t)
  }

  function Pow16(n: nat): nat {
    if n == 0 then 1 else 16 * Pow16(n - 1)
  }

  lemma {:induction false} FromHexInverts(v: nat, n: nat)
    requires v < Pow16(n)
    ensures FromHex(Hex(v, n)) == v
    decreases n
  {
    if n > 0 {
      assert Hex(v, n)[..n - 1] == Hex(v / 16, n - 1);
      DigitValue(v % 16);
      FromHexInverts(v / 16, n - 1);
    }
  }

  lemma DigitValue(v: nat)
    requires v < 16
    ensures HexValue(Digit(v)) == v
  {
  }

  lemma Pow16s()
    ensures Pow16(2) == 0x100 && Pow16(4) == 0x1_0000 && Pow16(8) == 0x1_0000_0000
  {
    assert Pow16(3) == 0x1000 && Pow16(5) == 0x10_0000 && Pow16(6) == 0x100_0000 && Pow16(7) == 0x1000_0000;
  }

  lemma {:induction false} EscapeRead(cp: CodePoint, rest: string)
    ensures var t := Escape(cp) + rest;
      EscapeSize(t) == |Escape(cp)| && EscapeValue(t) == cp && t[EscapeSize(t)..] == rest
  {
    hide Hex, FromHex, Pow16;
    var e, t := Escape(cp), Escape(cp) + rest;
    Pow16s();
    if |e| > 2 {
      var n := |e| - 2;
      FromHexInverts(cp, n);
      assert t[2..|e|] == Hex(cp, n);
    }
  }

  lemma {:induction false} UnescapeInverts(cps: seq<CodePoint>)
    ensures Unescape(EscapeAll(cps)) == cps
    decreases cps
  {
    hide Escape, EscapeSize, EscapeValue;
    if cps != [] {
      var t := Escape(cps[0]) + EscapeAll(cps[1..]);
      EscapeRead(cps[0], EscapeAll(cps[1..]));
      UnescapeInverts(cps[1..]);
      assert Unescape(t) == [EscapeValue(t)] + cps[1..];
      assert [EscapeValue(t)] + cps[1..] == cps;
    }
  }

  // The last byte of a code point's bytes is a blank or at sign only for these themselves.
  lemma {:induction false} LastOfUtf8(cps: seq<CodePoint>)
    requires cps != []
    ensures var s, cp := Utf8All(cps), cps[|cps| - 1];
      s != [] && s[|s| - 1] == if cp < 0x80 then cp else 0x80 + cp % 64
    decreases cps
  {
    if |cps| > 1 {
      LastOfUtf8(cps[1..]);
    } else {
      assert Utf8All(cps) == Utf8(cps[0]);
    }
  }

  lemma {:induction false} LastOfEscape(cps: seq<CodePoint>)
    requires cps != []
    ensures var t, cp := EscapeAll(cps), cps[|cps| - 1];
      t != "" && (t[|t| - 1] == '@' <==> cp == '@' as int)
    decreases cps
  {
    hide Escape;
    if |cps| > 1 {
      LastOfEscape(cps[1..]);
    } else {
      assert EscapeAll(cps) == Escape(cps[0]);
      EscapeEnds(cps[0]);
    }
  }

  lemma EscapeEnds(cp: CodePoint)
    ensures Escape(cp)[|Escape(cp)| - 1] == '@' <==> cp == '@' as int
  {
  }

  /** For every valid UTF-8 text the screen's text determines its code points, and so its bytes. */
  lemma {:induction false} TranslationInvertible(cps: seq<CodePoint>)
    ensures var t := Translated(Utf8All(cps));
      t.Some? && Decoded(t.value) == cps
  {
    hide Escape, Utf8;
    var s, e := Utf8All(cps), EscapeAll(cps);
    CodePointsInvertsUtf8(cps);
    UnescapeInverts(cps);
    if cps != [] {
      LastOfUtf8(cps);
      LastOfEscape(cps);
      assert (e + "@")[..|e|] == e;
    }
    assert e + "" == e;
  }

  // ----- What is on the screen -----

  predicate Printable(s: string) {
    forall c :: c in s ==> ' ' <= c <= 0x7f as char
  }

  lemma {:induction false} HexPrintable(v: nat, n: nat)
    ensures forall c :: c in Hex(v, n) ==> '0' <= c <= '9' || 'A' <= c <= 'F'
    decreases n
  {
    if n > 0 { HexPrintable(v / 16, n - 1); }
  }

  lemma {:induction false} EscapePrintable(cp: nat)
    ensures Printable(Escape(cp))
  {
    hide Hex;
    HexPrintable(cp, 2);
    HexPrintable(cp, 4);
    HexPrintable(cp, 8);
  }

  lemma {:induction false} EscapesPrintable(cps: seq<nat>)
    ensures Printable(EscapeAll(cps))
    decreases cps
  {
    hide Escape;
    if cps != [] {
      EscapePrintable(cps[0]);
      EscapesPrintable(cps[1..]);
    }
  }

  /** Whatever the bytes, only characters of ASCII are written, and no control characters below 0x7f. */
  lemma TranslationPrintable(s: seq<byte>)
    ensures Translated(s).Some? ==> Printable(Translated(s).value)
  {
    hide Escape;
    if CodePoints(s).Some? { EscapesPrintable(CodePoints(s).value); }
  }

  lemma {:induction false} LastCharacter(cps: seq<nat>)
    requires cps != []
    ensures EscapeAll(cps) != "" && (EscapeAll(cps)[|EscapeAll(cps)| - 1] == ' ' <==> cps[|cps| - 1] == 0x20)
    decreases cps
  {
    hide Escape;
    if |cps| > 1 {
      LastCharacter(cps[1..]);
    } else {
      assert EscapeAll(cps) == Escape(cps[0]);
      EndsInBlank(cps[0]);
    }
  }

  lemma {:induction false} EndsInBlank(cp: nat)
    ensures Escape(cp)[|Escape(cp)| - 1] == ' ' <==> cp == 0x20
  {
    hide Hex;
    HexPrintable(cp, 2);
    HexPrintable(cp, 4);
    HexPrintable(cp, 8);
    if |Escape(cp)| > 2 { assert Escape(cp)[|Escape(cp)| - 1] in Escape(cp)[2..]; }
  }

  /** A translation ends in a blank exactly if the last code point is a blank and the last byte is
      neither that nor an at sign; so the blank is written in more than one byte. */
  lemma FinalBlank(s: seq<byte>)
    requires s != [] && Translated(s).Some?
    ensures var t, cps := Translated(s).value, CodePoints(s).value;
      && t != "" && cps != []
      && (t[|t| - 1] == ' ' <==> cps[|cps| - 1] == 0x20 && s[|s| - 1] != 0x20 && s[|s| - 1] != 0x40)
  {
    hide Escape, EscapeAll, SizeAt, CodePointAt;
    LastCharacter(CodePoints(s).value);
  }

  /** Valid UTF-8 does not write it so: its translation never ends in a blank. */
  lemma ValidNeverEndsInBlank(cps: seq<CodePoint>)
    requires cps != []
    ensures var t := Translated(Utf8All(cps)); t.Some? && t.value != "" && t.value[|t.value| - 1] != ' '
  {
    hide Escape, Utf8;
    CodePointsInvertsUtf8(cps);
    LastOfUtf8(cps);
    LastCharacter(cps);
  }

  /** A blank in two bytes. */
  lemma OverlongBlank()
    ensures Translated([0xc0, 0xa0]) == Some(" ")
  {
    var s: seq<byte> := [0xc0, 0xa0];
    assert SizeAt(0xc0) == 2 && CodePointAt(s) == 0x20 && s[2..] == [];
    var cps: seq<nat> := [0x20];
    assert CodePoints([]) == Some([]);
    assert [CodePointAt(s)] + [] == cps && CodePoints(s) == Some(cps);
    assert cps[1..] == [] && Escape(0x20) == " ";
    assert EscapeAll(cps) == Escape(0x20) + EscapeAll([]) == " ";
    assert Marker(s) == "" && " " + "" == " ";
  }

  /** The escapes with a letter, and one of each of the other forms. */
  lemma KnownLetters()
    ensures Escape(0x07) == "\\a" && Escape(0x08) == "\\b" && Escape(0x09) == "\\t" && Escape(0x0a) == "\\n"
    ensures Escape(0x0b) == "\\v" && Escape(0x0c) == "\\f" && Escape(0x0d) == "\\r" && Escape(0x5c) == "\\\\"
    ensures Escape(0x41) == "A"
  {
    hide Hex;
  }

  lemma HexUnfolds(v: nat, n: nat)
    requires n > 0
    ensures Hex(v, n) == Hex(v / 16, n - 1) + [Digit(v % 16)]
    ensures Hex(v, 0) == ""
  {
    hide Digit;
  }

  lemma KnownHex()
    ensures Hex(0x01, 2) == "01" && Hex(0x1f, 4) == "001F" && Hex(0xe9, 4) == "00E9"
  {
    hide Hex;
    HexUnfolds(0x01, 2);
    HexUnfolds(0, 1);
    HexUnfolds(0x1f, 4);
    HexUnfolds(1, 3);
    HexUnfolds(0, 2);
    HexUnfolds(0xe9, 4);
    HexUnfolds(0xe, 3);
  }

  lemma KnownLongHex()
    ensures Hex(0x1_f600, 8) == "0001F600"
  {
    hide Hex;
    HexUnfolds(0x1_f600, 8);
    HexUnfolds(0x1f60, 7);
    HexUnfolds(0x1f6, 6);
    HexUnfolds(0x1f, 5);
    HexUnfolds(1, 4);
    HexUnfolds(0, 3);
    HexUnfolds(0, 2);
    HexUnfolds(0, 1);
  }

  /** Which code points are written raw, with a letter, and with two, four and eight digits. */
  lemma EscapeSizes(cp: nat)
    ensures |Escape(cp)| ==
      if 0x20 <= cp <= 0x7f && cp != 0x5c then 1 else if cp == 0x5c || 7 <= cp <= 13 then 2 else if cp < 15 then 4
      else if cp < 0x1_0000 then 6 else 10
    ensures |Escape(cp)| == 1 ==> Escape(cp)[0] as int == cp
  {
    hide Hex;
  }

  lemma KnownEscapes()
    ensures Escape(0x01) == "\\x01" && Escape(0x1f) == "\\u001F" && Escape(0xe9) == "\\u00E9"
    ensures Escape(0x1_f600) == "\\U0001F600"
  {
    hide Hex;
    KnownHex();
    KnownLongHex();
  }

  // ----- Writing the screen's text -----

  // One more character, if there is room for it.
  method Put(dst: array<char>, count: nat, c: char) returns (ok: bool)
    requires count <= dst.Length
    modifies dst
    ensures ok == (count < dst.Length)
    ensures ok ==> dst[..count + 1] == old(dst[..count]) + [c]
  {
    if count + 1 > dst.Length { return false; }
    dst[count] := c;
    return true;
  }

  method PutAll(dst: array<char>, count: nat, s: string) returns (ok: bool)
    requires count <= dst.Length
    modifies dst
    ensures ok == (count + |s| <= dst.Length)
    ensures ok ==> dst[..count + |s|] == old(dst[..count]) + s
  {
    for i := 0 to |s|
      invariant count + i <= dst.Length && dst[..count + i] == old(dst[..count]) + s[..i]
    {
      ok := Put(dst, count + i, s[i]);
      if !ok { return; }
      assert s[..i] + [s[i]] == s[..i + 1];
    }
    ok := true;
  }

  // The first control characters and the backslash.
  method WriteControl(dst: array<char>, count: nat, cp: nat) returns (err: ParserError, count': nat)
    requires count <= dst.Length && (cp < 0x0f || cp == 0x5c)
    modifies dst
    ensures err == Ok ==>
      count' == count + |Escape(cp)| <= dst.Length && dst[..count'] == old(dst[..count]) + Escape(cp)
    ensures err != Ok ==> count + |Escape(cp)| >= dst.Length && err == TransactionTooBig
  {
    hide Hex, Letter;
    var ok;
    if Letter(cp).Some? {
      ok := PutAll(dst, count, ['\\', Letter(cp).value]);
      if !ok { return TransactionTooBig, count; }
      return Ok, count + 2;
    }
    if count + 5 > dst.Length { return TransactionTooBig, count; }
    ok := PutAll(dst, count, "\\x" + Hex(cp, 2));
    ghost var written := dst[..count + 4];
    dst[count + 4] := '\0';
    assert dst[..count + 4] == written;
    return Ok, count + 4;
  }

  // Writes one code point. The hexadecimal form of a control character also needs room for the
  // NUL that snprintf writes behind it.
  method WriteEscape(dst: array<char>, count: nat, cp: nat) returns (err: ParserError, count': nat)
    requires count <= dst.Length
    modifies dst
    ensures err == Ok ==>
      count' == count + |Escape(cp)| <= dst.Length && dst[..count'] == old(dst[..count]) + Escape(cp)
    ensures err != Ok ==> count + |Escape(cp)| >= dst.Length && (err == TransactionTooBig || err == UnexpectedValue)
  {
    hide Hex, Letter;
    count' := count;
    var ok;
    if cp < 0x0f || cp == 0x5c {
      err, count' := WriteControl(dst, count, cp);
    } else if 32 <= cp <= 0x7f {
      ok := Put(dst, count, cp as char);
      if !ok { return TransactionTooBig, count; }
      return Ok, count + 1;
    } else {
      var n := if cp > 0xffff then 8 else 4;
      ok := PutAll(dst, count, ['\\', if cp > 0xffff then 'U' else 'u']);
      if !ok { return TransactionTooBig, count; }
      if dst.Length < n + count + 2 { return UnexpectedValue, count; }
      ok := PutAll(dst, count + 2, Hex(cp, n));
      assert Escape(cp) == ['\\', if cp > 0xffff then 'U' else 'u'] + Hex(cp, n);
      return Ok, count + 2 + n;
    }
  }

  lemma {:induction false} EscapeAllAppend(cps: seq<nat>, more: seq<nat>)
    ensures EscapeAll(cps + more) == EscapeAll(cps) + EscapeAll(more)
    decreases cps
  {
    hide Escape;
    if cps == [] {
      assert cps + more == more;
    } else {
      assert (cps + more)[1..] == cps[1..] + more;
      EscapeAllAppend(cps[1..], more);
    }
  }

  lemma {:induction false} EscapeAllNext(cps: seq<nat>, cp: nat, more: seq<nat>)
    ensures EscapeAll(cps + [cp]) == EscapeAll(cps) + Escape(cp)
    ensures |EscapeAll(cps + ([cp] + more))| >= |EscapeAll(cps)| + |Escape(cp)|
  {
    EscapeAllAppend(cps, [cp]);
    EscapeAllAppend(cps, [cp] + more);
    assert ([cp] + more)[1..] == more;
    assert EscapeAll([cp]) == Escape(cp) + EscapeAll([]);
  }

  /** tx_display_translation succeeds exactly when the source is not cut short within its last code
      point and its translation fits with a NUL behind it. The length argument is 16 bits wide, and
      its greatest value is not used. */
  method Translate(dst: array<char>, src: seq<byte>) returns (err: ParserError)
    requires dst.Length < UINT16_MAX
    modifies dst
    ensures err == Ok <==> src == [] || (Translated(src).Some? && |Translated(src).value| < dst.Length)
    ensures err == Ok && src == [] ==> forall k :: 0 <= k < dst.Length ==> dst[k] == '\0'
    ensures err == Ok && src != [] ==>
      var t := Translated(src).value;
      dst[..|t|] == t && dst[|t|] == '\0' && '\0' !in t
  {
    hide Escape, SizeAt, CodePointAt, EscapeAll;
    forall k | 0 <= k < dst.Length { dst[k] := '\0'; }
    if src == [] { return Ok; }
    var i: nat, count: nat := 0, 0;
    ghost var done: seq<nat> := [];
    NothingEscaped();
    assert src[0..] == src && (CodePoints(src).Some? ==> done + CodePoints(src).value == CodePoints(src).value);
    while i < |src|
      invariant i <= |src| && count <= dst.Length && dst[..count] == EscapeAll(done)
      invariant CodePoints(src) == if CodePoints(src[i..]).None? then None else Some(done + CodePoints(src[i..]).value)
      decreases |src| - i
    {
      ghost var rest := CodePoints(src[i..]);
      var size := SizeAt(src[i]);
      if size > |src| - i { return UnexpectedCharacters; }
      var cp := CodePointAt(src[i..]);
      assert src[i..][size..] == src[i + size..];
      ghost var more := CodePoints(src[i + size..]);
      if more.Some? {
        EscapeAllNext(done, cp, more.value);
        assert done + ([cp] + more.value) == done + [cp] + more.value;
      } else {
        EscapeAllNext(done, cp, []);
      }
      err, count := WriteEscape(dst, count, cp);
      if err != Ok { return; }
      done := done + [cp];
      i := i + size;
    }
    assert src[i..] == [] && done + [] == done;
    err := WriteMarker(dst, count, src);
    NoNulEscaped(done);
  }

  lemma NothingEscaped()
    ensures EscapeAll([]) == "" && CodePoints([]) == Some([])
  {
  }

  method WriteMarker(dst: array<char>, count: nat, src: seq<byte>) returns (err: ParserError)
    requires src != [] && count <= dst.Length
    modifies dst
    ensures err == Ok <==> count + |Marker(src)| < dst.Length
    ensures err == Ok ==>
      dst[..count + |Marker(src)|] == old(dst[..count]) + Marker(src) && dst[count + |Marker(src)|] == '\0'
  {
    var at, ok := count, true;
    if src[|src| - 1] == ' ' as int || src[|src| - 1] == '@' as int {
      if count >= dst.Length { return UnexpectedValue; }
      ok := Put(dst, at, '@');
      at := at + 1;
    }
    ghost var written := dst[..at];
    if at + 1 > dst.Length { return TransactionTooBig; }
    dst[at] := '\0';
    assert dst[..at] == written;
    return Ok;
  }

  lemma {:induction false} NoNulEscaped(cps: seq<nat>)
    ensures '\0' !in EscapeAll(cps)
    decreases cps
  {
    hide Escape;
    if cps != [] {
      NoNulInEscape(cps[0]);
      NoNulEscaped(cps[1..]);
    }
  }

  lemma {:induction false} NoNulInEscape(cp: nat)
    ensures '\0' !in Escape(cp)
  {
    hide Hex;
    HexHasNoNul(cp, 2);
    HexHasNoNul(cp, 4);
    HexHasNoNul(cp, 8);
  }

  lemma {:induction false} HexHasNoNul(v: nat, n: nat)
    ensures '\0' !in Hex(v, n)
    decreases n
  {
    if n > 0 { HexHasNoNul(v / 16, n - 1); }
  }
}
