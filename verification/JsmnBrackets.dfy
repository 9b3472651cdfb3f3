/**
 * Which texts the tokenizer accepts. It keeps no stack of open brackets and looks for the
 * last open token among all it made; here a stack decides the same, error by error.
 */
module JsmnBrackets {
  import opened Jsmn

  datatype Verdict = Fine(tokens: nat) | Wrong(error: Error)

  /** The verdict on the rest of a text, with these brackets open and n tokens made. */
  function Check(s: string, stack: seq<Kind>, n: nat, max: nat): Verdict
    decreases |s|
  {
    if AtEnd(s) then
      if stack == [] then Fine(n) else Wrong(Partial)
    else
      match s[0]
      case '{' => if n >= max then Wrong(NoMem) else Check(s[1..], stack + [Object], n + 1, max)
      case '[' => if n >= max then Wrong(NoMem) else Check(s[1..], stack + [Array], n + 1, max)
      case '}' => if Top(stack, Object) then Check(s[1..], Popped(stack), n, max) else Wrong(Invalid)
      case ']' => if Top(stack, Array) then Check(s[1..], Popped(stack), n, max) else Wrong(Invalid)
      case '\"' =>
        var r := StringLength(s[1..]);
        if r.Bad? then Wrong(Invalid)
        else if r.Short? then Wrong(Partial)
        else if n >= max then Wrong(NoMem)
        else Check(s[r.n + 2..], stack, n + 1, max)
      case c =>
        if c == '\t' || c == '\r' || c == '\n' || c == ' ' || c == ':' || c == ',' then Check(s[1..], stack, n, max)
        else
          var r := PrimitiveLength(s);
          if !r.At? then Wrong(Invalid)
          else if n >= max then Wrong(NoMem)
          else Check(s[r.n..], stack, n + 1, max)
  }

  predicate Top(stack: seq<Kind>, kind: Kind) {
    stack != [] && stack[|stack| - 1] == kind
  }

  function Popped(stack: seq<Kind>): seq<Kind> {
    if stack == [] then [] else stack[..|stack| - 1]
  }

  // ---------------------------------------------------------------- the open tokens

  /** The kinds of the open tokens, in order. */
  function Opens(toks: seq<Token>): seq<Kind> {
    if toks == [] then []
    else Opens(toks[..|toks| - 1]) + if Open(toks[|toks| - 1]) then [toks[|toks| - 1].kind] else []
  }

  /** Only brackets are ever open. */
  predicate OnlyBrackets(toks: seq<Token>) {
    forall i | 0 <= i < |toks| :: Open(toks[i]) ==> IsBracketed(toks[i])
  }

  lemma OpensAppend(toks: seq<Token>, t: Token)
    ensures Opens(toks + [t]) == Opens(toks) + if Open(t) then [t.kind] else []
  {
    assert (toks + [t])[..|toks|] == toks;
  }

  lemma {:induction false} OpensSame(a: seq<Token>, b: seq<Token>)
    requires |a| == |b| && forall i | 0 <= i < |a| :: a[i].kind == b[i].kind && Open(a[i]) == Open(b[i])
    ensures Opens(a) == Opens(b)
  {
    if a != [] { OpensSame(a[..|a| - 1], b[..|b| - 1]); }
  }

  lemma BumpOpens(toks: seq<Token>, super: int)
    requires -1 <= super < |toks|
    ensures Opens(Bump(toks, super)) == Opens(toks)
    ensures OnlyBrackets(toks) ==> OnlyBrackets(Bump(toks, super))
  {
    OpensSame(Bump(toks, super), toks);
  }

  /** The last open token is the top of the stack, and closing it pops. */
  lemma {:induction false} LastIsTop(toks: seq<Token>, end: nat)
    ensures var i := LastOpen(toks, |toks|);
      if i == -1 then Opens(toks) == []
      else
        && Top(Opens(toks), toks[i].kind)
        && Opens(toks[i := toks[i].(end := end)]) == Popped(Opens(toks))
  {
    if toks != [] {
      var front, last := toks[..|toks| - 1], toks[|toks| - 1];
      assert toks == front + [last];
      LastOfFront(front, last);
      var i := LastOpen(toks, |toks|);
      if Open(last) {
        assert toks[i := last.(end := end)][..|toks| - 1] == front;
      } else {
        LastIsTop(front, end);
        if i != -1 {
          var closed := toks[i].(end := end);
          assert toks[i := closed][..|toks| - 1] == front[i := closed];
        }
      }
    }
  }

  lemma LastOfFront(front: seq<Token>, last: Token)
    ensures !Open(last) ==> LastOpen(front + [last], |front| + 1) == LastOpen(front, |front|)
  {
    if !Open(last) { LastOfPrefix(front, [last], |front|); }
  }

  lemma {:induction false} LastOfPrefix(a: seq<Token>, b: seq<Token>, n: nat)
    requires n <= |a|
    ensures LastOpen(a + b, n) == LastOpen(a, n)
  {
    if n > 0 { LastOfPrefix(a, b, n - 1); }
  }

  // ---------------------------------------------------------------- the refinement

  ghost predicate Agrees(r: Parsed, v: Verdict) {
    match r
    case Failed(e) => v == Wrong(e)
    case Tokens(toks) => v == Fine(|toks|)
  }

  /** One turn is one step of the check. */
  lemma TurnChecks(s: string, pos: nat, toks: seq<Token>, super: int, max: nat)
    requires !AtEnd(s) && -1 <= super < |toks| && OnlyBrackets(toks)
    ensures var r := Next(s, pos, toks, super, max);
      if r.Stop? then Check(s, Opens(toks), |toks|, max) == Wrong(r.error)
      else
        && OnlyBrackets(r.toks)
        && Check(s, Opens(toks), |toks|, max) == Check(s[r.used..], Opens(r.toks), |r.toks|, max)
  {
    hide StringLength, PrimitiveLength, LastOpenBracketed, LastOpen, Opens, Bump;
    var c := s[0];
    BumpOpens(toks, super);
    if c == '{' || c == '[' {
      OpensAppend(Bump(toks, super), Token(if c == '{' then Object else Array, pos, -1, 0));
    } else if c == '}' || c == ']' {
      LastIsTop(toks, pos + 1);
    } else {
      var r := Next(s, pos, toks, super, max);
      if r.Go? && |r.toks| > |toks| {
        var t := r.toks[|toks|];
        assert r.toks == Bump(toks, super) + [t] && !Open(t);
        OpensAppend(Bump(toks, super), t);
        assert Opens(toks) + [] == Opens(toks);
      }
    }
  }

  lemma {:induction false} RunChecks(s: string, pos: nat, toks: seq<Token>, super: int, max: nat)
    requires -1 <= super < |toks| && OnlyBrackets(toks)
    ensures Agrees(Run(s, pos, toks, super, max), Check(s, Opens(toks), |toks|, max))
    decreases |s|
  {
    hide Run, Next, Opens, OnlyBrackets;
    if AtEnd(s) {
      RunEnd(s, pos, toks, super, max);
      LastIsTop(toks, 0);
    } else {
      RunTurn(s, pos, toks, super, max);
      TurnChecks(s, pos, toks, super, max);
      var r := Next(s, pos, toks, super, max);
      if r.Go? {
        hide Check;
        RunChecks(s[r.used..], pos + r.used, r.toks, r.super, max);
      }
    }
  }

  /** A text is tokenized exactly if its brackets match on a stack, its strings end, its
      primitives are printable and its tokens fit; and otherwise the error is the first
      thing wrong with it. */
  lemma ParseIsChecked(s: string, max: nat)
    ensures var r := Parse(s, max);
      Check(s, [], 0, max) == if r.Failed? then Wrong(r.error) else Fine(|r.toks|)
  {
    hide Run, Check;
    RunChecks(s, 0, [], -1, max);
  }
}
