/**
 * The JSON tokenizer, in its non-strict form without parent links. Run is the whole of
 * jsmn_parse as a function of the parser's state; the class Parser is the loop over a token
 * array that computes it. Characters stand for bytes.
 */
module Jsmn {
  import opened Bytes

  datatype TokenType = Undefined | Object | Array | String | Primitive

  // Both ends are positions in the text; an open container has end -1.
  datatype Token = Token(typ: TokenType, start: int, end: int, size: int)

  datatype Error = NoMemory | Invalid | Partial

  predicate IsContainer(t: TokenType) {
    t == Object || t == Array
  }

  predicate IsOpen(t: Token) {
    t.start != -1 && t.end == -1
  }

  // ----- Scanning -----

  datatype Scan = Ends(at: nat) | Fails(error: Error)

  predicate AtEnd(js: string, i: nat) {
    i >= |js| || js[i] == '\0'
  }

  predicate IsDelimiter(c: char) {
    c == ':' || c == '\t' || c == '\r' || c == '\n' || c == ' ' || c == ',' || c == ']' || c == '}'
  }

  predicate IsPrintable(c: char) {
    32 <= c as int < 127
  }

  predicate IsHex(c: char) {
    '0' <= c <= '9' || 'A' <= c <= 'F' || 'a' <= c <= 'f'
  }

  predicate IsEscape(c: char) {
    c == '\"' || c == '/' || c == '\\' || c == 'b' || c == 'f' || c == 'r' || c == 'n' || c == 't'
  }

  // Where the primitive ends whose characters from i on are still to be read.
  function ScanPrimitive(js: string, i: nat): (r: Scan)
    ensures r.Ends? && i <= |js| ==> i <= r.at <= |js|
    decreases |js| - i
  {
    if AtEnd(js, i) || IsDelimiter(js[i]) then Ends(i)
    else if !IsPrintable(js[i]) then Fails(Invalid)
    else ScanPrimitive(js, i + 1)
  }

  // Where the closing quote is of the string whose contents from i on are still to be read.
  function ScanString(js: string, i: nat): (r: Scan)
    ensures r.Ends? ==> i <= r.at < |js| && js[r.at] == '\"'
    ensures r.Fails? ==> r.error != NoMemory
    decreases |js| - i
  {
    if AtEnd(js, i) then Fails(Partial)
    else if js[i] == '\"' then Ends(i)
    else if js[i] == '\\' && i + 1 < |js| then
      if IsEscape(js[i + 1]) then ScanString(js, i + 2)
      else if js[i + 1] == 'u' then
        var h := ScanHex(js, i + 2, 4);
        if h.Fails? then h else ScanString(js, h.at)
      else Fails(Invalid)
    else ScanString(js, i + 1)
  }

  // Up to n hexadecimal digits; running into the end of the text is no error here.
  function ScanHex(js: string, i: nat, n: nat): (r: Scan)
    ensures r.Ends? ==> i <= r.at
    ensures r.Fails? ==> r.error == Invalid
    decreases n
  {
    if n == 0 || AtEnd(js, i) then Ends(i)
    else if !IsHex(js[i]) then Fails(Invalid)
    else ScanHex(js, i + 1, n - 1)
  }

  // ----- One character of the main loop -----

  // toks are the tokens allocated so far; their number is the parser's toknext.
  datatype State = State(pos: nat, super: int, toks: seq<Token>)

  datatype Step = Next(st: State) | Stop(error: Error, st: State)

  function LastOpen(toks: seq<Token>): (i: int)
    ensures -1 <= i < |toks|
    ensures i >= 0 ==> IsOpen(toks[i])
    ensures forall j :: i < j < |toks| ==> !IsOpen(toks[j])
  {
    if toks == [] then -1
    else if IsOpen(toks[|toks| - 1]) then |toks| - 1
    else LastOpen(toks[..|toks| - 1])
  }

  // The innermost open container, as the comma rule looks for it.
  function LastOpenContainer(toks: seq<Token>): (i: int)
    ensures -1 <= i < |toks|
    ensures i >= 0 ==> IsOpen(toks[i]) && IsContainer(toks[i].typ)
    ensures forall j :: i < j < |toks| ==> !(IsOpen(toks[j]) && IsContainer(toks[j].typ))
  {
    if toks == [] then -1
    else if IsOpen(toks[|toks| - 1]) && IsContainer(toks[|toks| - 1].typ) then |toks| - 1
    else LastOpenContainer(toks[..|toks| - 1])
  }

  // The superior token, if any, gains a child.
  function Bump(toks: seq<Token>, super: int): (r: seq<Token>)
    requires -1 <= super < |toks|
    ensures |r| == |toks|
  {
    if super == -1 then toks else toks[super := toks[super].(size := toks[super].size + 1)]
  }

  function OpenContainer(st: State, typ: TokenType, cap: nat): Step
    requires -1 <= st.super < |st.toks|
  {
    if |st.toks| >= cap then Stop(NoMemory, st)
    else Next(State(st.pos + 1, |st.toks|, Bump(st.toks, st.super) + [Token(typ, st.pos, -1, 0)]))
  }

  function CloseContainer(st: State, typ: TokenType): Step {
    var i := LastOpen(st.toks);
    if i == -1 || st.toks[i].typ != typ then Stop(Invalid, st)
    else
      var toks := st.toks[i := st.toks[i].(end := st.pos + 1)];
      Next(State(st.pos + 1, LastOpen(toks[..i]), toks))
  }

  function AddLeaf(st: State, t: Token, pos: nat, cap: nat): Step
    requires -1 <= st.super < |st.toks|
  {
    if |st.toks| >= cap then Stop(NoMemory, st)
    else Next(State(pos, st.super, Bump(st.toks + [t], st.super)))
  }

  function ReadString(js: string, st: State, cap: nat): Step
    requires -1 <= st.super < |st.toks|
  {
    var r := ScanString(js, st.pos + 1);
    if r.Fails? then Stop(r.error, st)
    else AddLeaf(st, Token(String, st.pos + 1, r.at, 0), r.at + 1, cap)
  }

  function ReadPrimitive(js: string, st: State, cap: nat): Step
    requires -1 <= st.super < |st.toks|
  {
    var r := ScanPrimitive(js, st.pos);
    if r.Fails? then Stop(r.error, st)
    else AddLeaf(st, Token(Primitive, st.pos, r.at, 0), r.at, cap)
  }

  // After a comma the next child belongs to the innermost open container again.
  function AfterComma(toks: seq<Token>, super: int): (r: int)
    requires -1 <= super < |toks|
    ensures -1 <= r < |toks|
  {
    if super != -1 && !IsContainer(toks[super].typ) && LastOpenContainer(toks) != -1
    then LastOpenContainer(toks) else super
  }

  function StepAt(js: string, st: State, cap: nat): (s: Step)
    requires -1 <= st.super < |st.toks| && !AtEnd(js, st.pos)
    ensures -1 <= s.st.super < |s.st.toks|
  {
    var c := js[st.pos];
    if c == '{' then OpenContainer(st, Object, cap)
    else if c == '[' then OpenContainer(st, Array, cap)
    else if c == '}' then CloseContainer(st, Object)
    else if c == ']' then CloseContainer(st, Array)
    else if c == '\"' then ReadString(js, st, cap)
    else if c == '\t' || c == '\r' || c == '\n' || c == ' ' then Next(st.(pos := st.pos + 1))
    else if c == ':' then Next(State(st.pos + 1, |st.toks| - 1, st.toks))
    else if c == ',' then Next(State(st.pos + 1, AfterComma(st.toks, st.super), st.toks))
    else ReadPrimitive(js, st, cap)
  }

  lemma StepAdvances(js: string, st: State, cap: nat)
    requires -1 <= st.super < |st.toks| && !AtEnd(js, st.pos)
    ensures StepAt(js, st, cap).Next? ==> st.pos < StepAt(js, st, cap).st.pos <= |js|
  {
    var c := js[st.pos];
    if !IsDelimiter(c) && IsPrintable(c) {
      assert ScanPrimitive(js, st.pos) == ScanPrimitive(js, st.pos + 1);
    }
  }

  // ----- The whole run -----

  // Done holds the final state; its number of tokens is what jsmn_parse returns.
  datatype Outcome = Done(st: State) | Failed(error: Error, st: State)

  function Run(js: string, st: State, cap: nat): Outcome
    requires -1 <= st.super < |st.toks|
    decreases |js| - st.pos
  {
    if AtEnd(js, st.pos) then
      if LastOpen(st.toks) != -1 then Failed(Partial, st) else Done(st)
    else
      var s := StepAt(js, st, cap);
      StepAdvances(js, st, cap);
      if s.Stop? then Failed(s.error, s.st) else Run(js, s.st, cap)
  }

  const START := State(0, -1, [])

  // ----- The parser over a token array -----

  class Parser {
    const tokens: array<Token>
    var pos: nat
    var toknext: nat
    var toksuper: int

    constructor Init(tokens: array<Token>)
      ensures this.tokens == tokens && Valid() && Abstract() == START
    {
      this.tokens := tokens;
      pos, toknext, toksuper := 0, 0, -1;
    }

    // The same parser state over another array that holds the tokens allocated so far.
    constructor Resume(parser: Parser, tokens: array<Token>)
      requires parser.Valid() && parser.toknext <= tokens.Length
      requires tokens[..parser.toknext] == parser.tokens[..parser.toknext]
      ensures this.tokens == tokens && Valid() && Abstract() == parser.Abstract()
    {
      this.tokens := tokens;
      pos, toknext, toksuper := parser.pos, parser.toknext, parser.toksuper;
    }

    ghost predicate Valid()
      reads this
    {
      toknext <= tokens.Length && -1 <= toksuper < toknext
    }

    ghost function Abstract(): State
      requires Valid()
      reads this, tokens
    {
      State(pos, toksuper, tokens[..toknext])
    }

    method AllocToken() returns (ok: bool)
      requires Valid()
      modifies this`toknext, tokens
      ensures ok == (old(toknext) < tokens.Length) && Valid()
      ensures if ok then toknext == old(toknext) + 1
        && tokens[toknext - 1] == old(tokens[toknext]).(start := -1, end := -1, size := 0)
              else toknext == old(toknext)
      ensures tokens[..old(toknext)] == old(tokens[..toknext])
    {
      if toknext >= tokens.Length { return false; }
      tokens[toknext] := tokens[toknext].(start := -1, end := -1, size := 0);
      toknext := toknext + 1;
      return true;
    }

    method CountChild()
      requires Valid()
      modifies tokens
      ensures tokens[..toknext] == Bump(old(tokens[..toknext]), toksuper)
    {
      if toksuper != -1 {
        tokens[toksuper] := tokens[toksuper].(size := tokens[toksuper].size + 1);
      }
    }

    // What parsing one string or primitive, scanned as r, does to the parser.
    twostate predicate LeafParsed(r: Scan, typ: TokenType, start: nat, new err: Option<Error>)
      requires old(Valid())
      reads this, tokens
    {
      && Valid() && toksuper == old(toksuper)
      && if r.Fails? then err == Some(r.error) && Abstract() == old(Abstract())
         else if old(toknext) >= tokens.Length then err == Some(NoMemory) && Abstract() == old(Abstract())
         else
           && err == None && toknext == old(toknext) + 1
           && tokens[..toknext] == old(tokens[..toknext]) + [Token(typ, start, r.at, 0)]
    }

    method ParsePrimitive(js: string) returns (err: Option<Error>)
      requires Valid() && !AtEnd(js, pos) && !IsDelimiter(js[pos])
      modifies this`pos, this`toknext, tokens
      ensures LeafParsed(old(ScanPrimitive(js, pos)), Primitive, old(pos), err)
      ensures err == None ==> pos + 1 == old(ScanPrimitive(js, pos)).at
    {
      var start := pos;
      while !AtEnd(js, pos) && !IsDelimiter(js[pos])
        invariant start <= pos <= |js| && ScanPrimitive(js, pos) == ScanPrimitive(js, start)
        modifies this`pos
        decreases |js| - pos
      {
        if !IsPrintable(js[pos]) {
          pos := start;
          return Some(Invalid);
        }
        pos := pos + 1;
      }
      var ok := AllocToken();
      if !ok {
        pos := start;
        return Some(NoMemory);
      }
      tokens[toknext - 1] := Token(Primitive, start, pos, 0);
      pos := pos - 1;
      return None;
    }

    // The four digits of a \\u escape, or fewer at the end of the text.
    method SkipHex(js: string) returns (ok: bool)
      modifies this`pos
      ensures ok == old(ScanHex(js, pos, 4)).Ends?
      ensures ok ==> pos == old(ScanHex(js, pos, 4)).at
    {
      var i := 0;
      while i < 4 && !AtEnd(js, pos)
        invariant 0 <= i <= 4 && ScanHex(js, pos, 4 - i) == old(ScanHex(js, pos, 4))
        decreases 4 - i
      {
        if !IsHex(js[pos]) { return false; }
        pos := pos + 1;
        i := i + 1;
      }
      return true;
    }

    method ParseString(js: string) returns (err: Option<Error>)
      requires Valid() && pos < |js|
      modifies this`pos, this`toknext, tokens
      ensures LeafParsed(old(ScanString(js, pos + 1)), String, old(pos) + 1, err)
      ensures err == None ==> pos == old(ScanString(js, pos + 1)).at
    {
      var start := pos;
      pos := pos + 1;
      while !AtEnd(js, pos)
        invariant start < pos && ScanString(js, pos) == ScanString(js, start + 1)
        invariant toknext == old(toknext) && tokens[..] == old(tokens[..])
        decreases |js| - pos
      {
        var c := js[pos];
        if c == '\"' {
          var ok := AllocToken();
          if !ok {
            pos := start;
            return Some(NoMemory);
          }
          tokens[toknext - 1] := Token(String, start + 1, pos, 0);
          return None;
        }
        if c == '\\' && pos + 1 < |js| {
          pos := pos + 1;
          if js[pos] == 'u' {
            pos := pos + 1;
            var ok := SkipHex(js);
            if !ok {
              pos := start;
              return Some(Invalid);
            }
            pos := pos - 1;
          } else if !IsEscape(js[pos]) {
            pos := start;
            return Some(Invalid);
          }
        }
        pos := pos + 1;
      }
      pos := start;
      return Some(Partial);
    }

    // Index of the innermost open token among the first n, or -1.
    method FindOpen(n: nat) returns (i: int)
      requires n <= tokens.Length
      ensures i == LastOpen(tokens[..n])
    {
      i := n - 1;
      while i >= 0
        invariant -1 <= i < n && LastOpen(tokens[..n]) == LastOpen(tokens[..i + 1])
      {
        assert tokens[..i + 1][..i] == tokens[..i];
        if tokens[i].start != -1 && tokens[i].end == -1 { return; }
        i := i - 1;
      }
    }

    method OpenBracket(c: char) returns (err: Option<Error>)
      requires Valid()
      modifies this`toknext, this`toksuper, tokens
      ensures Stepped(OpenContainer(old(Abstract()), if c == '{' then Object else Array, tokens.Length), err)
    {
      var ok := AllocToken();
      if !ok { return Some(NoMemory); }
      ghost var before := old(tokens[..toknext]);
      assert tokens[..toknext] == before + [tokens[toknext - 1]];
      CountChild();
      assert tokens[..toknext - 1] == Bump(before, toksuper);
      tokens[toknext - 1] := tokens[toknext - 1].(typ := if c == '{' then Object else Array, start := pos);
      toksuper := toknext - 1;
      return None;
    }

    method CloseBracket(c: char) returns (err: Option<Error>)
      requires Valid()
      modifies this`toksuper, tokens
      ensures Stepped(CloseContainer(old(Abstract()), if c == '}' then Object else Array), err)
    {
      var typ := if c == '}' then Object else Array;
      var i := FindOpen(toknext);
      if i >= 0 {
        if tokens[i].typ != typ { return Some(Invalid); }
        toksuper := -1;
        tokens[i] := tokens[i].(end := pos + 1);
      }
      if i == -1 { return Some(Invalid); }
      toksuper := FindOpen(i);
      return None;
    }

    method Comma()
      requires Valid()
      modifies this`toksuper
      ensures toksuper == AfterComma(tokens[..toknext], old(toksuper))
    {
      if toksuper != -1 && tokens[toksuper].typ != Array && tokens[toksuper].typ != Object {
        var i: int := toknext - 1;
        while i >= 0
          invariant -1 <= i < toknext && toksuper == old(toksuper)
          invariant LastOpenContainer(tokens[..toknext]) == LastOpenContainer(tokens[..i + 1])
        {
          assert tokens[..i + 1][..i] == tokens[..i];
          if tokens[i].typ == Array || tokens[i].typ == Object {
            if tokens[i].start != -1 && tokens[i].end == -1 {
              toksuper := i;
              break;
            }
          }
          i := i - 1;
        }
      }
    }

    // One character has been dealt with as s says, up to the loop's own step of pos.
    twostate predicate Stepped(s: Step, new err: Option<Error>)
      reads this, tokens
    {
      && Valid()
      && match s
         case Next(st) => err == None && pos + 1 == st.pos && toksuper == st.super && tokens[..toknext] == st.toks
         case Stop(e, st) => err == Some(e) && Abstract() == st
    }

    // found is how many tokens the character adds to the count jsmn_parse returns.
    method ParseChar(js: string) returns (err: Option<Error>, found: nat)
      requires Valid() && !AtEnd(js, pos)
      modifies this, tokens
      ensures Stepped(StepAt(js, old(Abstract()), tokens.Length), err)
      ensures err == None ==> toknext == old(toknext) + found
    {
      err, found := None, 0;
      match js[pos]
      case '{' | '[' =>
        found := 1;
        err := OpenBracket(js[pos]);
      case '}' | ']' =>
        err := CloseBracket(js[pos]);
      case '\"' =>
        err := ParseString(js);
        if err.Some? { return; }
        found := 1;
        CountChild();
      case '\t' | '\r' | '\n' | ' ' =>
      case ':' =>
        toksuper := toknext - 1;
      case ',' =>
        Comma();
      case _ =>
        err := ParsePrimitive(js);
        if err.Some? { return; }
        found := 1;
        CountChild();
    }

    /** jsmn_parse computes Run from the parser's state, on the tokens it has room for; the
        count it returns is the number of tokens. */
    method Parse(js: string) returns (err: Option<Error>, count: nat)
      requires Valid()
      modifies this, tokens
      ensures Valid()
      ensures match Run(js, old(Abstract()), tokens.Length)
        case Done(st) => err == None && count == |st.toks| && Abstract() == st
        case Failed(e, st) => err == Some(e) && Abstract() == st
    {
      hide StepAt;
      count := toknext;
      while !AtEnd(js, pos)
        invariant Valid() && count == toknext
        invariant Run(js, Abstract(), tokens.Length) == Run(js, old(Abstract()), tokens.Length)
        decreases |js| - pos
      {
        StepAdvances(js, Abstract(), tokens.Length);
        var found;
        err, found := ParseChar(js);
        if err.Some? { return; }
        count := count + found;
        pos := pos + 1;
      }
      var i := FindOpen(toknext);
      err := if i != -1 then Some(Partial) else None;
    }
  }
}
