/**
 * Hexadecimal and base64 written over the bytes they are made from: the input sits at the tail
 * end of the output buffer. The results are those of sections 4, 5 and 8 of RFC 4648.
 */
module ByteDumps {
  import opened Bytes
  import opened CborFormat
  import opened CborParser
  import opened CborTraversal

  // ----- Base 16 -----

  const HEX: seq<byte> := [48, 49, 50, 51, 52, 53, 54, 55, 56, 57, 97, 98, 99, 100, 101, 102]

  function Hex(s: seq<byte>): (t: seq<byte>)
    ensures |t| == 2 * |s|
  {
    if s == [] then [] else [HEX[s[0] / 16], HEX[s[0] % 16]] + Hex(s[1..])
  }

  function HexValue(c: byte): (v: nat)
    ensures v < 16
  {
    if 48 <= c <= 57 then c - 48 else if 97 <= c <= 102 then c - 87 else 0
  }

  function FromHex(t: seq<byte>): seq<byte> {
    if |t| < 2 then [] else [HexValue(t[0]) * 16 + HexValue(t[1])] + FromHex(t[2..])
  }

  /** Reading the digits back gives the bytes. */
  lemma {:induction false} FromHexInverts(s: seq<byte>)
    ensures FromHex(Hex(s)) == s && 0 !in Hex(s)
    decreases s
  {
    if s != [] {
      HexDigit(s[0] / 16);
      HexDigit(s[0] % 16);
      var t := Hex(s);
      assert t[2..] == Hex(s[1..]);
      FromHexInverts(s[1..]);
    }
  }

  lemma HexDigit(v: nat)
    requires v < 16
    ensures HexValue(HEX[v]) == v && HEX[v] != 0
  {
  }

  /** The digits of each byte are the two of its value, in lower case, the higher one first. */
  lemma {:induction false} HexAt(s: seq<byte>, k: nat)
    requires k < |s|
    ensures Hex(s)[2 * k] == LowerDigit(s[k] / 16) && Hex(s)[2 * k + 1] == LowerDigit(s[k] % 16)
    decreases k
  {
    hide HEX;
    DigitIs(s[0] / 16);
    DigitIs(s[0] % 16);
    if k > 0 { HexAt(s[1..], k - 1); }
  }

  function LowerDigit(v: nat): byte
    requires v < 16
  {
    if v < 10 then '0' as int + v else 'a' as int + v - 10
  }

  lemma DigitIs(v: nat)
    requires v < 16
    ensures |HEX| == 16 && HEX[v] == LowerDigit(v)
  {
  }

  lemma {:induction false} HexAppend(s: seq<byte>, b: byte)
    ensures Hex(s + [b]) == Hex(s) + [HEX[b / 16], HEX[b % 16]]
    decreases s
  {
    if s == [] {
      assert s + [b] == [b];
    } else {
      HexFirst(s[0], s[1..]);
      HexFirst(s[0], s[1..] + [b]);
      assert s == [s[0]] + s[1..] && s + [b] == [s[0]] + (s[1..] + [b]);
      hide Hex;
      HexAppend(s[1..], b);
    }
  }

  lemma HexFirst(b: byte, s: seq<byte>)
    ensures Hex([b] + s) == [HEX[b / 16], HEX[b % 16]] + Hex(s)
  {
    assert ([b] + s)[1..] == s;
  }

  // The n bytes of s wait at the second half of the buffer, a NUL behind them.
  method WriteHex(buffer: array<byte>, n: nat, ghost s: seq<byte>)
    requires buffer.Length == 2 * n + 1 && |s| == n && buffer[n..2 * n] == s && buffer[2 * n] == 0
    modifies buffer
    ensures buffer[..2 * n] == Hex(s) && buffer[2 * n] == 0
  {
    hide Hex;
    HexOfNothing();
    for i := 0 to n
      invariant buffer[..2 * i] == Hex(s[..i]) && buffer[2 * n] == 0
      invariant forall k :: i <= k < n ==> buffer[n + k] == s[k]
    {
      var b := buffer[n + i];
      ghost var done := buffer[..2 * i];
      buffer[2 * i] := HEX[b / 16];
      buffer[2 * i + 1] := HEX[b % 16];
      HexAppend(s[..i], b);
      assert s[..i] + [b] == s[..i + 1];
      assert buffer[..2 * i + 2] == done + [HEX[b / 16], HEX[b % 16]];
    }
    assert s[..n] == s;
  }

  lemma HexOfNothing()
    ensures Hex([]) == []
  {
  }

  // ----- Base 64 -----

  // The 6-bit groups of the bytes, the last one filled up with zero bits.
  function Sextets(s: seq<byte>): (d: seq<nat>)
    ensures forall k :: 0 <= k < |d| ==> d[k] < 64
  {
    if s == [] then []
    else if |s| == 1 then [s[0] / 4, s[0] % 4 * 16]
    else if |s| == 2 then [s[0] / 4, s[0] % 4 * 16 + s[1] / 16, s[1] % 16 * 4]
    else
      [s[0] / 4, s[0] % 4 * 16 + s[1] / 16, s[1] % 16 * 4 + s[2] / 64, s[2] % 64] + Sextets(s[3..])
  }

  function FromSextets(d: seq<nat>): (s: seq<byte>)
    requires forall k :: 0 <= k < |d| ==> d[k] < 64
  {
    if |d| < 2 then []
    else if |d| == 2 then [d[0] * 4 + d[1] / 16]
    else if |d| == 3 then [d[0] * 4 + d[1] / 16, d[1] % 16 * 16 + d[2] / 4]
    else [d[0] * 4 + d[1] / 16, d[1] % 16 * 16 + d[2] / 4, d[2] % 4 * 64 + d[3]] + FromSextets(d[4..])
  }

  /** The groups determine the bytes. */
  lemma {:induction false} FromSextetsInverts(s: seq<byte>)
    ensures FromSextets(Sextets(s)) == s
    decreases s
  {
    if |s| >= 3 {
      assert Sextets(s)[4..] == Sextets(s[3..]);
      FromSextetsInverts(s[3..]);
    }
  }

  // Sixty-four digits and the filler; a NUL as filler means no padding.
  predicate Alphabet(a: seq<byte>) {
    |a| == 65 && (forall k :: 0 <= k < 64 ==> a[k] != 0) && forall k, l :: 0 <= k < l < 64 ==> a[k] != a[l]
  }

  function Digits(a: seq<byte>, d: seq<nat>): seq<byte>
    requires |a| == 65 && forall k :: 0 <= k < |d| ==> d[k] < 64
  {
    seq(|d|, k requires 0 <= k < |d| => a[d[k]])
  }

  function Filler(a: seq<byte>, n: nat): seq<byte>
    requires |a| == 65
  {
    if a[64] == 0 || n % 3 == 0 then [] else if n % 3 == 1 then [a[64], a[64]] else [a[64]]
  }

  function Base64(a: seq<byte>, s: seq<byte>): seq<byte>
    requires |a| == 65
  {
    Digits(a, Sextets(s)) + Filler(a, |s|)
  }

  /** In any alphabet the digits determine the bytes. */
  lemma Base64Injective(a: seq<byte>, s: seq<byte>, t: seq<byte>)
    requires Alphabet(a) && Digits(a, Sextets(s)) == Digits(a, Sextets(t))
    ensures s == t
  {
    var d, e := Sextets(s), Sextets(t);
    assert |d| == |Digits(a, d)| == |Digits(a, e)| == |e|;
    forall k | 0 <= k < |d| ensures d[k] == e[k] {
      assert Digits(a, d)[k] == a[d[k]] && Digits(a, e)[k] == a[e[k]];
    }
    assert d == e;
    FromSextetsInverts(s);
    FromSextetsInverts(t);
  }

  const DIGITS_AND_LETTERS: seq<byte> := seq(26, k => 65 + k) + seq(26, k => 97 + k) + seq(10, k => 48 + k)
  const STANDARD := DIGITS_AND_LETTERS + [43, 47, 61]
  const URL_SAFE := DIGITS_AND_LETTERS + [45, 95, 0]

  lemma AlphabetsAre()
    ensures Alphabet(STANDARD) && Alphabet(URL_SAFE)
  {
  }

  /** The digits stand in the order of section 4 of RFC 4648, and of its section 5 in the other one. */
  lemma DigitsInOrder(v: nat)
    requires v < 64
    ensures |STANDARD| == |URL_SAFE| == 65
    ensures v < 26 ==> STANDARD[v] as char == URL_SAFE[v] as char == 'A' + v as char
    ensures 26 <= v < 52 ==> STANDARD[v] as char == URL_SAFE[v] as char == 'a' + (v - 26) as char
    ensures 52 <= v < 62 ==> STANDARD[v] as char == URL_SAFE[v] as char == '0' + (v - 52) as char
    ensures STANDARD[62] as char == '+' && STANDARD[63] as char == '/' && STANDARD[64] as char == '='
    ensures URL_SAFE[62] as char == '-' && URL_SAFE[63] as char == '_' && URL_SAFE[64] == 0
  {
  }

  /** Of each three bytes the four groups, put together, are their 24 bits. */
  lemma {:induction false} GroupsHoldBytes(s: seq<byte>, k: nat)
    requires 3 * k + 3 <= |s|
    ensures 4 * k + 4 <= |Sextets(s)|
    ensures var d := Sextets(s);
      (d[4 * k] * 0x4_0000 + d[4 * k + 1] * 0x1000 + d[4 * k + 2] * 64 + d[4 * k + 3] as nat)
        == s[3 * k] as nat * 0x1_0000 + s[3 * k + 1] as nat * 0x100 + s[3 * k + 2] as nat
    decreases k
  {
    if k > 0 {
      GroupsHoldBytes(s[3..], k - 1);
      assert Sextets(s)[4..] == Sextets(s[3..]);
    }
  }

  function Ascii(t: string): (s: seq<byte>)
    requires forall i :: 0 <= i < |t| ==> t[i] as int < 128
    ensures |s| == |t|
  {
    seq(|t|, i requires 0 <= i < |t| => (t[i] as int) as byte)
  }

  // The test vectors of section 10 of RFC 4648 that end in each of the three ways.
  lemma KnownGroups()
    ensures Sextets([0x66, 0x6f, 0x6f]) == [25, 38, 61, 47]
    ensures Sextets([0x66, 0x6f, 0x6f, 0x62]) == [25, 38, 61, 47, 24, 32]
    ensures Sextets([0x66, 0x6f, 0x6f, 0x62, 0x61]) == [25, 38, 61, 47, 24, 38, 4]
  {
    assert [0x66 as byte, 0x6f, 0x6f][3..] == [] && [0x66 as byte, 0x6f, 0x6f, 0x62][3..] == [0x62];
    assert [0x66 as byte, 0x6f, 0x6f, 0x62, 0x61][3..] == [0x62, 0x61];
  }

  lemma KnownBase64()
    ensures Base64(STANDARD, [0x66, 0x6f, 0x6f]) == Ascii("Zm9v")
    ensures Base64(STANDARD, [0x66, 0x6f, 0x6f, 0x62]) == Ascii("Zm9vYg==")
    ensures Base64(STANDARD, [0x66, 0x6f, 0x6f, 0x62, 0x61]) == Ascii("Zm9vYmE=")
    ensures Base64(URL_SAFE, [0x66, 0x6f, 0x6f, 0x62]) == Ascii("Zm9vYg")
    ensures Base64(URL_SAFE, [0x66, 0x6f, 0x6f, 0x62, 0x61]) == Ascii("Zm9vYmE")
  {
    hide Sextets;
    KnownGroups();
  }

  // Three bytes in a 32-bit word, below whatever else is in it.
  function Word(top: byte, x: byte, y: byte, z: byte): nat {
    (top as int) * 0x100_0000 + (x as int) * 0x1_0000 + (y as int) * 0x100 + z as int
  }

  // The four groups of the low 24 bits; the top byte does not matter.
  lemma GroupsOf(top: byte, x: byte, y: byte, z: byte)
    ensures var v := Word(top, x, y, z);
      && v / 0x4_0000 % 64 == x / 4 && v / 0x1000 % 64 == x % 4 * 16 + y / 16
      && v / 64 % 64 == y % 16 * 4 + z / 64 && v % 64 == z % 64
  {
    hide Word;
    FirstGroup(top, x, y, z);
    SecondGroup(top, x, y, z);
    ThirdGroup(top, x, y, z);
    LastGroup(top, x, y, z);
  }

  lemma DivMod64(p: nat, g: nat)
    requires g < 64
    ensures (p * 64 + g) / 64 == p && (p * 64 + g) % 64 == g
  {
  }

  lemma FirstGroup(top: byte, x: byte, y: byte, z: byte)
    ensures Word(top, x, y, z) / 0x4_0000 % 64 == x / 4
  {
    var q := top * 64 + x / 4;
    assert Word(top, x, y, z) == q * 0x4_0000 + (x % 4 * 0x1_0000 + y * 0x100 + z);
    DivMod64(top, x / 4);
  }

  lemma SecondGroup(top: byte, x: byte, y: byte, z: byte)
    ensures Word(top, x, y, z) / 0x1000 % 64 == x % 4 * 16 + y / 16
  {
    var p, g := top * 64 + x / 4, x % 4 * 16 + y / 16;
    assert Word(top, x, y, z) == (p * 64 + g) * 0x1000 + (y % 16 * 0x100 + z);
    DivMod64(p, g);
  }

  lemma ThirdGroup(top: byte, x: byte, y: byte, z: byte)
    ensures Word(top, x, y, z) / 64 % 64 == y % 16 * 4 + z / 64
  {
    var p, g := top * 0x1000 + x * 16 + y / 16, y % 16 * 4 + z / 64;
    assert Word(top, x, y, z) == (p * 64 + g) * 64 + z % 64;
    DivMod64(p * 64 + g, z % 64);
    DivMod64(p, g);
  }

  lemma LastGroup(top: byte, x: byte, y: byte, z: byte)
    ensures Word(top, x, y, z) % 64 == z % 64
  {
    var p := top * 0x4_0000 + x * 0x400 + y * 4 + z / 64;
    assert Word(top, x, y, z) == p * 64 + z % 64;
    DivMod64(p, z % 64);
  }

  lemma {:induction false} SextetsAppend(s: seq<byte>, t: seq<byte>, m: nat)
    requires |s| == 3 * m
    ensures Sextets(s + t) == Sextets(s) + Sextets(t)
    decreases s
  {
    if s == [] {
      assert s + t == t;
    } else {
      assert (s + t)[3..] == s[3..] + t;
      SextetsAppend(s[3..], t, m - 1);
    }
  }

  lemma DigitsAppend(a: seq<byte>, d: seq<nat>, e: seq<nat>)
    requires |a| == 65 && (forall k :: 0 <= k < |d| ==> d[k] < 64) && forall k :: 0 <= k < |e| ==> e[k] < 64
    ensures Digits(a, d + e) == Digits(a, d) + Digits(a, e)
  {
  }

  // The digits after three more bytes.
  lemma DigitsOfGroup(a: seq<byte>, s: seq<byte>, x: byte, y: byte, z: byte, m: nat)
    requires |a| == 65 && |s| == 3 * m
    ensures Digits(a, Sextets(s + [x, y, z]))
      == Digits(a, Sextets(s)) + [a[x / 4], a[x % 4 * 16 + y / 16], a[y % 16 * 4 + z / 64], a[z % 64]]
  {
    hide Sextets;
    SextetsAppend(s, [x, y, z], m);
    SextetsOfThree(x, y, z);
    DigitsAppend(a, Sextets(s), Sextets([x, y, z]));
  }

  lemma SextetsOfThree(x: byte, y: byte, z: byte)
    ensures Sextets([x, y, z]) == [x / 4, x % 4 * 16 + y / 16, y % 16 * 4 + z / 64, z % 64]
  {
  }

  // What the last byte or two and the filler become.
  function RestChars(a: seq<byte>, t: seq<byte>): seq<byte>
    requires |a| == 65 && |t| < 3
  {
    (if |t| == 0 then []
     else if |t| == 1 then [a[t[0] / 4], a[t[0] % 4 * 16]]
     else [a[t[0] / 4], a[t[0] % 4 * 16 + t[1] / 16], a[t[1] % 16 * 4]])
    + Filler(a, |t|)
  }

  lemma Base64OfRest(a: seq<byte>, s: seq<byte>, t: seq<byte>, m: nat)
    requires |a| == 65 && |s| == 3 * m && |t| < 3
    ensures Base64(a, s + t) == Digits(a, Sextets(s)) + RestChars(a, t)
  {
    hide Digits, Sextets, RestChars, Filler;
    SextetsAppend(s, t, m);
    DigitsAppend(a, Sextets(s), Sextets(t));
    DigitsOfFew(a, t);
    FillerOfRest(a, m, |t|);
  }

  lemma FillerOfRest(a: seq<byte>, m: nat, k: nat)
    requires |a| == 65 && k < 3
    ensures Filler(a, 3 * m + k) == Filler(a, k)
  {
  }

  lemma DigitsOfFew(a: seq<byte>, t: seq<byte>)
    requires |a| == 65 && |t| < 3
    ensures Digits(a, Sextets(t)) + Filler(a, |t|) == RestChars(a, t)
  {
    hide Digits, Filler;
    if |t| == 1 {
      DigitsOfTwo(a, t[0] / 4, t[0] % 4 * 16);
    } else if |t| == 2 {
      DigitsOfThree(a, t[0] / 4, t[0] % 4 * 16 + t[1] / 16, t[1] % 16 * 4);
    } else {
      DigitsOfNothing(a);
    }
  }

  lemma DigitsOfThree(a: seq<byte>, p: nat, q: nat, r: nat)
    requires |a| == 65 && p < 64 && q < 64 && r < 64
    ensures Digits(a, [p, q, r]) == [a[p], a[q], a[r]]
  {
  }

  lemma DigitsOfTwo(a: seq<byte>, p: nat, q: nat)
    requires |a| == 65 && p < 64 && q < 64
    ensures Digits(a, [p, q]) == [a[p], a[q]]
  {
  }

  // Four characters for the low 24 bits of the word.
  method WriteGroup(buffer: array<byte>, out: nat, val: nat, a: seq<byte>)
    requires |a| == 65 && out + 4 <= buffer.Length
    modifies buffer
    ensures buffer[..out + 4] == old(buffer[..out])
      + [a[val / 0x4_0000 % 64], a[val / 0x1000 % 64], a[val / 64 % 64], a[val % 64]]
    ensures forall k :: out + 4 <= k < buffer.Length ==> buffer[k] == old(buffer[k])
  {
    buffer[out] := a[val / 0x4_0000 % 64];
    buffer[out + 1] := a[val / 0x1000 % 64];
    buffer[out + 2] := a[val / 64 % 64];
    buffer[out + 3] := a[val % 64];
  }

  // Three bytes at a time: the word is read from one byte further back after the first group,
  // and by then that byte may have been written over.
  method WriteBase64(buffer: array<byte>, n: nat, a: seq<byte>, ghost s: seq<byte>)
    requires |a| == 65 && |s| == n && buffer.Length == (n + 5) / 3 * 4 + 1
    requires buffer[buffer.Length - 1 - n..buffer.Length - 1] == s && buffer[buffer.Length - 1] == 0
    modifies buffer
    ensures |Base64(a, s)| < buffer.Length
    ensures buffer[..|Base64(a, s)|] == Base64(a, s) && buffer[|Base64(a, s)|] == 0
  {
    hide Sextets, Digits, Word, Base64;
    var len := (n + 5) / 3 * 4;
    var base := len - n;
    var i, out := 0, 0;
    ghost var m := 0;
    DigitsOfNothing(a);
    while n - i >= 3
      invariant i == 3 * m <= n && out == 4 * m && buffer[len] == 0
      invariant buffer[..out] == Digits(a, Sextets(s[..i]))
      invariant forall k :: i <= k < n ==> buffer[base + k] == s[k]
      decreases n - i
    {
      var x, y, z := buffer[base + i], buffer[base + i + 1], buffer[base + i + 2];
      var top: byte := if i > 0 then buffer[base + i - 1] else 0;
      var val := Word(top, x, y, z);
      GroupsOf(top, x, y, z);
      DigitsOfGroup(a, s[..i], x, y, z, m);
      assert s[..i] + [x, y, z] == s[..i + 3];
      WriteGroup(buffer, out, val, a);
      assert out + 4 <= base + i + 3;
      i, out, m := i + 3, out + 4, m + 1;
    }
    WriteRest(buffer, n, i, out, a, s, m);
  }

  lemma DigitsOfNothing(a: seq<byte>)
    requires |a| == 65
    ensures Digits(a, Sextets([])) == []
  {
  }

  // The last byte or two, the filler, and the NUL.
  method WriteRest(buffer: array<byte>, n: nat, i: nat, out: nat, a: seq<byte>, ghost s: seq<byte>, ghost m: nat)
    requires |a| == 65 && |s| == n && buffer.Length == (n + 5) / 3 * 4 + 1 && buffer[buffer.Length - 1] == 0
    requires i <= n < i + 3 && i == 3 * m && out == 4 * m && buffer[..out] == Digits(a, Sextets(s[..i]))
    requires forall k :: i <= k < n ==> buffer[buffer.Length - 1 - n + k] == s[k]
    modifies buffer
    ensures |Base64(a, s)| < buffer.Length
    ensures buffer[..|Base64(a, s)|] == Base64(a, s) && buffer[|Base64(a, s)|] == 0
  {
    hide Sextets, Digits, Base64;
    var base := buffer.Length - 1 - n;
    ghost var done, t := buffer[..out], s[i..];
    assert s == s[..i] + t;
    Base64OfRest(a, s[..i], t, m);
    if n - i > 0 {
      var x, y := buffer[base + i], buffer[base + i + 1];
      WriteLast(buffer, out, x, y, n - i, a, t);
      assert buffer[..out + |RestChars(a, t)|] == done + RestChars(a, t);
    } else {
      buffer[out] := 0;
      assert buffer[..out] == done;
    }
  }

  // The first groups of the word of the bytes t, filled up with zeros, are their characters.
  lemma LastGroups(a: seq<byte>, x: byte, y: byte, t: seq<byte>)
    requires |a| == 65 && 1 <= |t| <= 2 && t[0] == x && if |t| == 2 then t[1] == y else y == 0
    ensures var v, filler := Word(0, x, y, 0), if a[64] == 0 then [] else [a[64]];
      RestChars(a, t) == [a[v / 0x4_0000 % 64], a[v / 0x1000 % 64]]
        + if |t| == 2 then [a[v / 64 % 64]] + filler else filler + filler
  {
    hide Word;
    GroupsOf(0, x, y, 0);
  }

  // The characters of the one or two bytes t in the word of x and y.
  method WriteLast(buffer: array<byte>, out: nat, x: byte, y: byte, k: nat, a: seq<byte>, ghost t: seq<byte>)
    requires |a| == 65 && out + 4 < buffer.Length && k == |t| && 1 <= k <= 2 && t[0] == x
    requires if k == 2 then t[1] == y else y == 0
    modifies buffer
    ensures |RestChars(a, t)| <= 4 && buffer[..out] == old(buffer[..out])
    ensures forall k :: 0 <= k < |RestChars(a, t)| ==> buffer[out + k] == RestChars(a, t)[k]
    ensures buffer[out + |RestChars(a, t)|] == 0
  {
    hide Word, RestChars, Filler;
    var val := Word(0, x, y, 0);
    LastGroups(a, x, y, t);
    buffer[out + 4] := 0;
    buffer[out + 3] := a[64];
    if k == 2 {
      buffer[out + 2] := a[val / 64 % 64];
    } else {
      buffer[out + 2] := a[64];
    }
    buffer[out + 1] := a[val / 0x1000 % 64];
    buffer[out] := a[val / 0x4_0000 % 64];
  }

  // ----- From an iterator -----

  /** dump_bytestring_base16: the byte string at the iterator, whole or in chunks, becomes its
      lower-case hexadecimal digits, and the iterator moves past it. */
  method DumpBase16(it: Value, ghost d: nat) returns (err: CborError, text: seq<byte>, ghost s: seq<byte>)
    requires it.Valid() && it.remaining > 0 && it.typ == BYTE_STRING_TYPE && 2 * |it.buf| < SIZE_MAX
    modifies it
    ensures err == NoError ==>
      && old(Decode(it.buf, it.ptr, LENIENT, d)) == Some((StringItem(old(it.typ), s), it.ptr))
      && text == Hex(s) + [0]
    ensures err != NoError ==> old(it.Tail(LENIENT, d)) == None
  {
    hide Decode, Hex;
    text := [];
    var buffer, n;
    err, buffer, n, s := CopyToTail(it, false, d);
    if err != NoError { return; }
    WriteHex(buffer, n, s);
    assert buffer[..] == buffer[..2 * n] + [buffer[2 * n]];
    text := buffer[..];
  }

  /** generic_dump_base64, of which the text is what comes before the first NUL: base64 with the
      alphabet's filler, or without padding if the filler is NUL. */
  method DumpBase64(it: Value, a: seq<byte>, ghost d: nat) returns (err: CborError, text: seq<byte>, ghost s: seq<byte>)
    requires it.Valid() && it.remaining > 0 && it.typ == BYTE_STRING_TYPE && 2 * |it.buf| + 8 < SIZE_MAX && |a| == 65
    modifies it
    ensures err == NoError ==>
      && old(Decode(it.buf, it.ptr, LENIENT, d)) == Some((StringItem(old(it.typ), s), it.ptr))
      && Base64(a, s) + [0] <= text
    ensures err != NoError ==> old(it.Tail(LENIENT, d)) == None
  {
    hide Decode, Base64;
    text := [];
    var buffer, n;
    err, buffer, n, s := CopyToTail(it, true, d);
    if err != NoError { return; }
    WriteBase64(buffer, n, a, s);
    text := buffer[..];
    assert buffer[..|Base64(a, s)|] + [buffer[|Base64(a, s)|]] == text[..|Base64(a, s)| + 1];
  }

  lemma SamePlaceSameTail(it: Value, copy: Value, d: nat)
    requires it.Valid() && copy.buf == it.buf && copy.ptr == it.ptr && copy.remaining == it.remaining
    requires copy.extra == it.extra && copy.typ == it.typ && copy.is64Bit == it.is64Bit && copy.tooLarge == it.tooLarge
    requires copy.flag04 == it.flag04 && copy.iteratingChunks == it.iteratingChunks
      && copy.unknownLength == it.unknownLength
    requires copy.containerIsMap == it.containerIsMap && copy.nextIsMapKey == it.nextIsMapKey
    ensures copy.Valid() && copy.Tail(LENIENT, d) == it.Tail(LENIENT, d)
  {
    hide Decode;
  }

  // The string is measured with a copy of the iterator, and copied to the end of a buffer big
  // enough for the result. The second walk is over the same bytes and fails no more than the first.
  method CopyToTail(it: Value, wide: bool, ghost d: nat)
    returns (err: CborError, buffer: array<byte>, n: nat, ghost s: seq<byte>)
    requires it.Valid() && it.remaining > 0 && it.typ == BYTE_STRING_TYPE && |it.buf| < SIZE_MAX
    modifies it
    ensures fresh(buffer)
    ensures err == NoError ==>
      && old(Decode(it.buf, it.ptr, LENIENT, d)) == Some((StringItem(old(it.typ), s), it.ptr))
      && |s| == n && buffer.Length == (if wide then (n + 5) / 3 * 4 else 2 * n) + 1
      && buffer[buffer.Length - 1 - n..buffer.Length - 1] == s && buffer[buffer.Length - 1] == 0
    ensures err != NoError ==> old(it.Tail(LENIENT, d)) == None
  {
    hide Decode, Value.Tail, Value.AfterItem;
    buffer := new byte[1];
    var probe := new Value.Copy(it);
    SamePlaceSameTail(it, probe, d);
    err, n, s := CopyString(probe, null, 0, SIZE_MAX, d);
    if err != NoError { return; }
    var len := if wide then (n + 5) / 3 * 4 else 2 * n;
    buffer := new byte[len + 1];
    var total;
    ghost var s';
    err, total, s' := CopyString(it, buffer, len - n, n + 1, d);
    if err == NoError || err == OutOfMemory {
      assert StringItem(BYTE_STRING_TYPE, s) == StringItem(BYTE_STRING_TYPE, s');
    }
  }
}
