/**
 * Which texts the tokenizer accepts, malformed JSON included: those whose strings and primitives
 * are of the grammar and whose brackets match. Colons and commas may stand anywhere.
 */
module JsmnAcceptance {
  import opened Jsmn
  import opened JsmnProperties
  import opened JsonText

  // ----- Matching brackets -----

  predicate EndOfText(js: string, p: nat) {
    p >= |js| || js[p] == '\0'
  }

  // A primitive's characters up to the next delimiter.
  predicate PrimitiveAt(js: string, p: nat, e: nat) {
    && p < e <= |js| && (EndOfText(js, e) || js[e] in ":\t\r\n ,]}")
    && forall i :: p <= i < e ==> PlainCharacter(js[i])
  }

  // A quoted text and its quotes.
  predicate StringAt(js: string, p: nat, e: nat) {
    p + 1 < e <= |js| && js[p] == '\"' && js[e - 1] == '\"' && StringText(js[p + 1..e - 1])
  }

  // The text from p on closes the brackets in closers, the last one first.
  ghost predicate Matches(js: string, p: nat, closers: string)
    decreases |js| - p
  {
    if EndOfText(js, p) then closers == ""
    else if js[p] in "{[" then Matches(js, p + 1, closers + if js[p] == '{' then "}" else "]")
    else if js[p] in "}]" then
      closers != "" && closers[|closers| - 1] == js[p] && Matches(js, p + 1, closers[..|closers| - 1])
    else if js[p] in " \t\r\n:," then Matches(js, p + 1, closers)
    else if js[p] == '\"' then exists e :: p < e <= |js| && StringAt(js, p, e) && Matches(js, e, closers)
    else exists e :: p < e <= |js| && PrimitiveAt(js, p, e) && Matches(js, e, closers)
  }

  // ----- Open tokens are the brackets still to be closed -----

  function Closers(toks: seq<Token>): string {
    if toks == [] then ""
    else
      var t := toks[|toks| - 1];
      Closers(toks[..|toks| - 1]) + if !IsOpen(t) then "" else if t.typ == Object then "}" else "]"
  }

  predicate OpenAreContainers(toks: seq<Token>) {
    forall i :: 0 <= i < |toks| && IsOpen(toks[i]) ==> IsContainer(toks[i].typ)
  }

  lemma {:induction false} ClosersAppend(toks: seq<Token>, more: seq<Token>)
    ensures Closers(toks + more) == Closers(toks) + Closers(more)
    decreases more
  {
    if more == [] {
      assert toks + more == toks;
    } else {
      assert (toks + more)[..|toks + more| - 1] == toks + more[..|more| - 1];
      ClosersAppend(toks, more[..|more| - 1]);
    }
  }

  lemma {:induction false} ClosersBump(toks: seq<Token>, super: int)
    requires -1 <= super < |toks|
    ensures Closers(Bump(toks, super)) == Closers(toks)
    decreases toks
  {
    if toks != [] && super != -1 {
      var n := |toks| - 1;
      assert Bump(toks, super)[..n] == if super < n then Bump(toks[..n], super) else toks[..n];
      if super < n { ClosersBump(toks[..n], super); }
    }
  }

  lemma {:induction false} NoneOpen(toks: seq<Token>)
    requires LastOpen(toks) == -1
    ensures Closers(toks) == ""
    decreases toks
  {
    if toks != [] { NoneOpen(toks[..|toks| - 1]); }
  }

  // The innermost open token is the last bracket, and closing it takes that one away.
  lemma {:induction false} ClosersClose(toks: seq<Token>, end: nat)
    requires LastOpen(toks) >= 0
    ensures var i := LastOpen(toks);
      && Closers(toks) == Closers(toks[..i]) + (if toks[i].typ == Object then "}" else "]")
      && Closers(toks[i := toks[i].(end := end)]) == Closers(toks[..i])
    decreases toks
  {
    var i, n := LastOpen(toks), |toks| - 1;
    if i < n {
      assert toks[..n][..i] == toks[..i];
      ClosersClose(toks[..n], end);
      assert toks[i := toks[i].(end := end)][..n] == toks[..n][i := toks[i].(end := end)];
    } else {
      assert toks[i := toks[i].(end := end)][..n] == toks[..n];
    }
  }

  // ----- One step -----

  // The state has room for a token for each character that is left.
  predicate Roomy(js: string, st: State, cap: nat) {
    && -1 <= st.super < |st.toks| && st.pos <= |js| && OpenAreContainers(st.toks)
    && |st.toks| + |js| - st.pos <= cap
  }

  // A step that succeeds goes on with these brackets.
  predicate GoesOn(js: string, st: State, cap: nat, closers: string) {
    Roomy(js, st, cap) && Closers(st.toks) == closers
  }

  lemma OpenStep(js: string, st: State, cap: nat)
    requires Roomy(js, st, cap) && !EndOfText(js, st.pos) && js[st.pos] in "{["
    ensures var s := StepAt(js, st, cap);
      s.Next? && s.st.pos == st.pos + 1
      && GoesOn(js, s.st, cap, Closers(st.toks) + if js[st.pos] == '{' then "}" else "]")
  {
    hide Closers;
    var t := Token(if js[st.pos] == '{' then Object else Array, st.pos, -1, 0);
    ClosersBump(st.toks, st.super);
    ClosersAppend(Bump(st.toks, st.super), [t]);
    OneCloser(t);
  }

  lemma OneCloser(t: Token)
    ensures Closers([t]) == if !IsOpen(t) then "" else if t.typ == Object then "}" else "]"
  {
    assert [t][..0] == [];
  }

  lemma CloseStep(js: string, st: State, cap: nat)
    requires Roomy(js, st, cap) && !EndOfText(js, st.pos) && js[st.pos] in "}]"
    ensures var s, closers := StepAt(js, st, cap), Closers(st.toks);
      && (s.Next? <==> closers != "" && closers[|closers| - 1] == js[st.pos])
      && (s.Next? ==> s.st.pos == st.pos + 1 && GoesOn(js, s.st, cap, closers[..|closers| - 1]))
  {
    hide Closers;
    var i := LastOpen(st.toks);
    if i == -1 { NoneOpen(st.toks); } else { ClosersClose(st.toks, st.pos + 1); }
  }

  lemma BlankStep(js: string, st: State, cap: nat)
    requires Roomy(js, st, cap) && !EndOfText(js, st.pos) && js[st.pos] in " \t\r\n:,"
    ensures var s := StepAt(js, st, cap); s.Next? && s.st.pos == st.pos + 1 && GoesOn(js, s.st, cap, Closers(st.toks))
  {
    hide Closers, AfterComma;
  }

  lemma LeafStep(st: State, t: Token, pos: nat, js: string, cap: nat)
    requires Roomy(js, st, cap) && t.end != -1 && st.pos < pos <= |js|
    ensures var s := AddLeaf(st, t, pos, cap); s.Next? && s.st.pos == pos && GoesOn(js, s.st, cap, Closers(st.toks))
  {
    hide Closers;
    ClosersAppend(st.toks, [t]);
    OneCloser(t);
    ClosersBump(st.toks + [t], st.super);
  }

  lemma StringStep(js: string, st: State, cap: nat)
    requires Roomy(js, st, cap) && !EndOfText(js, st.pos) && js[st.pos] == '\"'
    ensures var s := StepAt(js, st, cap);
      && (s.Next? ==> StringAt(js, st.pos, s.st.pos) && GoesOn(js, s.st, cap, Closers(st.toks)))
      && forall e: nat :: StringAt(js, st.pos, e) ==> s.Next? && s.st.pos == e
  {
    hide Closers, StringText, ScanString, AddLeaf, GoesOn;
    var r := ScanString(js, st.pos + 1);
    if r.Ends? {
      ScannedString(js, st.pos + 1);
      LeafStep(st, Token(String, st.pos + 1, r.at, 0), r.at + 1, js, cap);
    }
    forall e: nat | StringAt(js, st.pos, e) ensures r
      == Ends(e - 1) { StringScans(js, st.pos + 1, js[st.pos + 1..e - 1]); }
  }

  lemma PrimitiveStep(js: string, st: State, cap: nat)
    requires Roomy(js, st, cap) && !EndOfText(js, st.pos) && js[st.pos] !in "{}[]\" \t\r\n:,"
    ensures var s := StepAt(js, st, cap);
      && (s.Next? ==> PrimitiveAt(js, st.pos, s.st.pos) && GoesOn(js, s.st, cap, Closers(st.toks)))
      && forall e: nat :: PrimitiveAt(js, st.pos, e) ==> s.Next? && s.st.pos == e
  {
    hide Closers, AddLeaf, PlainCharacter, GoesOn;
    var p, r := st.pos, ScanPrimitive(js, st.pos);
    if r.Ends? {
      ScannedPrimitive(js, p);
      forall i | p <= i < r.at ensures PlainCharacter(js[i]) { assert js[i] in js[p..r.at]; }
      assert r.at > p;
      LeafStep(st, Token(Primitive, p, r.at, 0), r.at, js, cap);
    }
    forall e: nat | PrimitiveAt(js, p, e) ensures r == Ends(e) {
      forall c | c in js[p..e] ensures PlainCharacter(c) {
        var k :| 0 <= k < e - p && js[p..e][k] == c;
        assert js[p + k] == c;
      }
      PrimitiveScans(js, p, js[p..e]);
    }
  }

  // ----- All steps -----

  lemma {:induction false} RunMatches(js: string, st: State, cap: nat)
    requires Roomy(js, st, cap)
    ensures Run(js, st, cap).Done? <==> Matches(js, st.pos, Closers(st.toks))
    decreases |js| - st.pos
  {
    hide Closers, StepAt, StringAt, PrimitiveAt, OpenAreContainers;
    var closers := Closers(st.toks);
    if EndOfText(js, st.pos) {
      if LastOpen(st.toks) == -1 { NoneOpen(st.toks); } else { ClosersClose(st.toks, 0); }
    } else {
      var c, s := js[st.pos], StepAt(js, st, cap);
      StepAdvances(js, st, cap);
      if c in "{[" { OpenStep(js, st, cap); }
      else if c in "}]" { CloseStep(js, st, cap); }
      else if c in " \t\r\n:," { BlankStep(js, st, cap); }
      else if c == '\"' { StringStep(js, st, cap); }
      else { PrimitiveStep(js, st, cap); }
      if s.Next? { RunMatches(js, s.st, cap); }
    }
  }

  /** A text is accepted exactly if its brackets match around strings and primitives of the grammar,
      unless there are not enough tokens for it. */
  lemma AcceptsMatching(js: string, cap: nat)
    ensures var r := Run(js, START, cap);
      && (r.Done? ==> Matches(js, 0, ""))
      && (Matches(js, 0, "") && !r.Done? ==> r.error == NoMemory)
    ensures |js| <= cap ==> (Run(js, START, cap).Done? <==> Matches(js, 0, ""))
  {
    hide Run, Matches;
    var more := if cap > |js| then cap else |js|;
    ResumedRun(js, START, cap, more);
    RunMatches(js, START, more);
    assert Closers([]) == "";
  }
}
