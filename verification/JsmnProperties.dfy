/** What the tokenizer guarantees on every input, malformed JSON included. */
module JsmnProperties {
  import opened Bytes
  import opened Jsmn

  // ----- Spans -----

  // A token lies in the text before pos, between the delimiters its type calls for.
  predicate TokenInPlace(js: string, t: Token, pos: nat) {
    && 0 <= t.start < pos <= |js| && (t.end == -1 || t.start <= t.end <= pos)
    && match t.typ
       case Object => js[t.start] == '{' && (t.end != -1 ==> t.start < t.end && js[t.end - 1] == '}')
       case Array => js[t.start] == '[' && (t.end != -1 ==> t.start < t.end && js[t.end - 1] == ']')
       case String => t.end < |js| && t.start > 0 && t.end != -1 && js[t.start - 1] == '\"' && js[t.end] == '\"'
       case Primitive => t.start < t.end
       case Undefined => false
  }

  // Of two tokens the later one starts later, and lies past the earlier one or within it.
  predicate InOrder(t: Token, u: Token) {
    t.start < u.start && (t.end != -1 ==> t.end <= u.start || (u.end != -1 && u.end <= t.end))
  }

  predicate WellSpanned(js: string, st: State) {
    && -1 <= st.super < |st.toks|
    && (forall i :: 0 <= i < |st.toks| ==> TokenInPlace(js, st.toks[i], st.pos))
    && (forall i, j :: 0 <= i < j < |st.toks| ==> InOrder(st.toks[i], st.toks[j]))
  }

  // Child counts do not matter to spans.
  predicate SameSpans(toks: seq<Token>, toks': seq<Token>) {
    |toks| == |toks'| &&
    forall i :: 0 <= i < |toks| ==> toks'[i] == toks[i].(size := toks'[i].size)
  }

  lemma AddedTokenInOrder(js: string, st: State, t: Token, st': State)
    requires WellSpanned(js, st) && st.pos <= t.start
    requires TokenInPlace(js, t, st'.pos) && st.pos <= st'.pos && -1 <= st'.super < |st'.toks|
    requires SameSpans(st.toks + [t], st'.toks)
    ensures WellSpanned(js, st')
  {
    var toks := st.toks + [t];
    forall i | 0 <= i < |toks| ensures TokenInPlace(js, st'.toks[i], st'.pos) {
      assert i < |st.toks| ==> TokenInPlace(js, st.toks[i], st.pos);
    }
    forall i, j | 0 <= i < j < |toks| ensures InOrder(st'.toks[i], st'.toks[j]) {
      assert TokenInPlace(js, st.toks[i], st.pos);
    }
  }

  lemma ClosedTokenInOrder(js: string, st: State, i: nat, st': State)
    requires WellSpanned(js, st) && i == LastOpen(st.toks) && IsContainer(st.toks[i].typ)
    requires st.pos < |js| && js[st.pos] == if st.toks[i].typ == Object then '}' else ']'
    requires st'.pos == st.pos + 1 && -1 <= st'.super < |st'.toks|
    requires st'.toks == st.toks[i := st.toks[i].(end := st.pos + 1)]
    ensures WellSpanned(js, st')
  {
    forall k | 0 <= k < |st'.toks| ensures TokenInPlace(js, st'.toks[k], st'.pos) {
      assert TokenInPlace(js, st.toks[k], st.pos);
    }
    forall k, l | 0 <= k < l < |st'.toks| ensures InOrder(st'.toks[k], st'.toks[l]) {
      assert InOrder(st.toks[k], st.toks[l]);
      assert TokenInPlace(js, st.toks[l], st.pos) && !(l > i && IsOpen(st.toks[l]));
    }
  }

  lemma MovedOn(js: string, st: State, st': State)
    requires WellSpanned(js, st) && st.pos <= st'.pos <= |js| && st'.toks == st.toks && -1 <= st'.super < |st'.toks|
    ensures WellSpanned(js, st')
  {
    forall i | 0 <= i < |st.toks| ensures TokenInPlace(js, st'.toks[i], st'.pos) {
      assert TokenInPlace(js, st.toks[i], st.pos);
    }
  }

  lemma StepKeepsSpans(js: string, st: State, cap: nat)
    requires WellSpanned(js, st) && !AtEnd(js, st.pos) && StepAt(js, st, cap).Next?
    ensures WellSpanned(js, StepAt(js, st, cap).st)
  {
    var st' := StepAt(js, st, cap).st;
    StepAdvances(js, st, cap);
    hide WellSpanned, LastOpen;
    match js[st.pos]
    case '{' => AddedTokenInOrder(js, st, Token(Object, st.pos, -1, 0), st');
    case '[' => AddedTokenInOrder(js, st, Token(Array, st.pos, -1, 0), st');
    case '}' => ClosedTokenInOrder(js, st, LastOpen(st.toks), st');
    case ']' => ClosedTokenInOrder(js, st, LastOpen(st.toks), st');
    case '\"' => AddedTokenInOrder(js, st, Token(String, st.pos + 1, st'.pos - 1, 0), st');
    case '\t' | '\r' | '\n' | ' ' | ':' | ',' => MovedOn(js, st, st');
    case _ => AddedTokenInOrder(js, st, Token(Primitive, st.pos, st'.pos, 0), st');
  }

  /** Whenever jsmn_parse accepts, every token is closed inside the text between its own
      delimiters, starts strictly increase, and any two spans are nested or disjoint. */
  lemma {:induction false} AcceptedSpans(js: string, st: State, cap: nat)
    requires WellSpanned(js, st)
    ensures match Run(js, st, cap)
      case Done(end) => WellSpanned(js, end) && forall i :: 0 <= i < |end.toks| ==> end.toks[i].end != -1
      case Failed(_, _) => true
    decreases |js| - st.pos
  {
    if AtEnd(js, st.pos) {
      forall i | 0 <= i < |st.toks| && LastOpen(st.toks) == -1 ensures st.toks[i].end != -1 {
        assert TokenInPlace(js, st.toks[i], st.pos);
        assert !IsOpen(st.toks[i]);
      }
    } else if StepAt(js, st, cap).Next? {
      StepAdvances(js, st, cap);
      StepKeepsSpans(js, st, cap);
      AcceptedSpans(js, StepAt(js, st, cap).st, cap);
    }
  }

  // ----- Resumption after running out of tokens -----

  lemma StepWithMoreRoom(js: string, st: State, cap: nat, more: nat)
    requires -1 <= st.super < |st.toks| && !AtEnd(js, st.pos) && cap <= more
    ensures StepAt(js, st, cap) == StepAt(js, st, more) || StepAt(js, st, cap) == Stop(NoMemory, st)
  {
  }

  /** A run that stops for want of tokens can be taken up again with more of them, and then
      goes on exactly as one run with the larger array would have; other runs do not depend
      on the room at all. */
  lemma {:induction false} ResumedRun(js: string, st: State, cap: nat, more: nat)
    requires -1 <= st.super < |st.toks| && cap <= more
    ensures var r := Run(js, st, cap);
      if r.Failed? && r.error == NoMemory
      then -1 <= r.st.super < |r.st.toks| && Run(js, r.st, more) == Run(js, st, more)
      else Run(js, st, more) == r
    decreases |js| - st.pos
  {
    if !AtEnd(js, st.pos) {
      StepAdvances(js, st, cap);
      StepWithMoreRoom(js, st, cap, more);
      if StepAt(js, st, cap).Next? {
        ResumedRun(js, StepAt(js, st, cap).st, cap, more);
      }
    }
  }

  lemma {:induction false} TokensWithinRoom(js: string, st: State, cap: nat)
    requires -1 <= st.super < |st.toks| <= cap
    ensures |Run(js, st, cap).st.toks| <= cap
    decreases |js| - st.pos
  {
    if !AtEnd(js, st.pos) {
      StepAdvances(js, st, cap);
      if StepAt(js, st, cap).Next? {
        TokensWithinRoom(js, StepAt(js, st, cap).st, cap);
      }
    }
  }

  // Tries one capacity after the other until the tokens suffice, keeping the parser's state.
  function RunGrowing(js: string, st: State, caps: seq<nat>): Outcome
    requires -1 <= st.super < |st.toks| && caps != []
    requires forall i, j :: 0 <= i < j < |caps| ==> caps[i] <= caps[j]
    decreases |caps|
  {
    var r := Run(js, st, caps[0]);
    if r.Failed? && r.error == NoMemory && |caps| > 1 then
      ResumedRun(js, st, caps[0], caps[0]);
      RunGrowing(js, r.st, caps[1..])
    else r
  }

  /** However the array is grown, the outcome is that of one run with the final capacity. */
  lemma {:induction false} GrowingIsOneRun(js: string, st: State, caps: seq<nat>)
    requires -1 <= st.super < |st.toks| && caps != []
    requires forall i, j :: 0 <= i < j < |caps| ==> caps[i] <= caps[j]
    ensures RunGrowing(js, st, caps) == Run(js, st, caps[|caps| - 1])
    decreases |caps|
  {
    var last := caps[|caps| - 1];
    ResumedRun(js, st, caps[0], last);
    var r := Run(js, st, caps[0]);
    if r.Failed? && r.error == NoMemory && |caps| > 1 {
      GrowingIsOneRun(js, r.st, caps[1..]);
    }
  }

  /** The caller's loop: after each failure for want of tokens the old ones are copied to a larger
      array and parsing goes on. The result is that of one run with the last capacity. */
  method ParseGrowing(js: string, caps: seq<nat>) returns (err: Option<Error>, count: nat, toks: seq<Token>)
    requires caps != [] && forall i, j :: 0 <= i < j < |caps| ==> caps[i] <= caps[j]
    ensures match Run(js, START, caps[|caps| - 1])
      case Done(st) => err == None && count == |st.toks| && toks == st.toks
      case Failed(e, st) => err == Some(e) && toks == st.toks
  {
    hide Run, StepAt;
    ghost var last := caps[|caps| - 1];
    err, count := None, 0;
    var tokens := new Token[caps[0]](_ => Token(Undefined, 0, 0, 0));
    var parser := new Parser.Init(tokens);
    for i := 0 to |caps|
      invariant fresh(parser) && fresh(parser.tokens) && parser.Valid()
      invariant i < |caps| ==> parser.tokens.Length == caps[i]
      invariant i < |caps| ==> Run(js, parser.Abstract(), last) == Run(js, START, last)
      invariant i == |caps| ==> match Run(js, START, last)
        case Done(st) => err == None && count == |st.toks| && parser.Abstract() == st
        case Failed(e, st) => err == Some(e) && parser.Abstract() == st
    {
      ResumedRun(js, parser.Abstract(), caps[i], last);
      err, count := parser.Parse(js);
      if err != Some(NoMemory) || i + 1 == |caps| { break; }
      var larger := new Token[caps[i + 1]](_ => Token(Undefined, 0, 0, 0));
      forall k | 0 <= k < parser.toknext { larger[k] := parser.tokens[k]; }
      parser := new Parser.Resume(parser, larger);
    }
    toks := parser.tokens[..parser.toknext];
  }
}
