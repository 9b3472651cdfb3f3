/** What a successful parse produces, for every text. */
module JsmnStructure {
  import opened Jsmn

  /** A token spans what its kind says, all of it before pos. */
  predicate Spans(text: string, t: Token, pos: nat) {
    match t.kind
    case Undefined => false
    case Str =>
      && 1 <= t.start <= t.end < pos <= |text|
      && text[t.start - 1] == '\"' && text[t.end] == '\"'
      && StringBody(text[t.start..t.end]) && NUL !in text[t.start..t.end]
    case Primitive =>
      && 0 <= t.start < t.end <= pos <= |text|
      && NUL !in text[t.start..t.end]
    case Object =>
      && 0 <= t.start < pos <= |text| && text[t.start] == '{'
      && (t.end == -1 || (t.start + 2 <= t.end <= pos && text[t.end - 1] == '}'))
    case Array =>
      && 0 <= t.start < pos <= |text| && text[t.start] == '['
      && (t.end == -1 || (t.start + 2 <= t.end <= pos && text[t.end - 1] == ']'))
  }

  /** The first offset after a token: past the closing quote for a string. */
  function Beyond(t: Token): int {
    if t.kind == Str then t.end + 1 else t.end
  }

  /** An earlier token ends before a later one starts, or encloses it. */
  predicate Apart(a: Token, b: Token) {
    && a.start < b.start
    && (|| (a.end != -1 && Beyond(a) <= b.start)
        || (IsBracketed(a) && (a.end == -1 || (b.end != -1 && Beyond(b) < a.end))))
  }

  ghost predicate AllApart(toks: seq<Token>) {
    forall i, j | 0 <= i < j < |toks| :: Apart(toks[i], toks[j])
  }

  ghost predicate AllSpan(text: string, toks: seq<Token>, pos: nat) {
    forall i | 0 <= i < |toks| :: Spans(text, toks[i], pos)
  }

  /** How often i occurs. */
  function Occurrences(ps: seq<int>, i: int): nat {
    if ps == [] then 0
    else Occurrences(ps[..|ps| - 1], i) + (if ps[|ps| - 1] == i then 1 else 0)
  }

  /** Each token has an earlier parent, or none, and sizes count children. */
  ghost predicate SizesCount(toks: seq<Token>, parents: seq<int>) {
    && |parents| == |toks|
    && (forall j | 0 <= j < |parents| :: -1 <= parents[j] < j)
    && (forall i | 0 <= i < |toks| :: toks[i].size == Occurrences(parents, i))
  }

  ghost predicate WellFormed(text: string, toks: seq<Token>, parents: seq<int>, pos: nat) {
    AllSpan(text, toks, pos) && AllApart(toks) && SizesCount(toks, parents)
  }

  // ---------------------------------------------------------------- steps

  lemma {:induction false} NoLaterParent(ps: seq<int>, i: int)
    requires forall j | 0 <= j < |ps| :: ps[j] < i
    ensures Occurrences(ps, i) == 0
    decreases |ps|
  {
    if ps != [] { NoLaterParent(ps[..|ps| - 1], i); }
  }

  lemma AppendCounts(toks: seq<Token>, parents: seq<int>, super: int, t: Token)
    requires SizesCount(toks, parents)
    requires -1 <= super < |toks| && t.size == 0
    ensures SizesCount(Bump(toks, super) + [t], parents + [super])
  {
    var after, ps := Bump(toks, super) + [t], parents + [super];
    assert ps[..|ps| - 1] == parents;
    NoLaterParent(parents, |toks|);
    forall i | 0 <= i < |after| ensures after[i].size == Occurrences(ps, i) {
      if i < |toks| { assert toks[i].size == Occurrences(parents, i); }
    }
  }

  lemma AppendApart(text: string, toks: seq<Token>, super: int, t: Token, pos: nat)
    requires AllSpan(text, toks, pos) && AllApart(toks)
    requires -1 <= super < |toks| && pos <= t.start
    ensures AllApart(Bump(toks, super) + [t])
  {
    var after := Bump(toks, super) + [t];
    forall i, j | 0 <= i < j < |after| ensures Apart(after[i], after[j]) {
      assert Spans(text, toks[i], pos);
      if j < |toks| { assert Apart(toks[i], toks[j]); }
    }
  }

  lemma AppendSpans(text: string, toks: seq<Token>, super: int, t: Token, pos: nat, next: nat)
    requires AllSpan(text, toks, pos)
    requires -1 <= super < |toks| && pos <= next <= |text| && Spans(text, t, next)
    ensures AllSpan(text, Bump(toks, super) + [t], next)
  {
    var after := Bump(toks, super) + [t];
    forall i | 0 <= i < |after| ensures Spans(text, after[i], next) {
      if i < |toks| { assert Spans(text, toks[i], pos); }
    }
  }

  lemma AppendKeeps(text: string, toks: seq<Token>, parents: seq<int>, super: int, t: Token, pos: nat, next: nat)
    requires WellFormed(text, toks, parents, pos)
    requires -1 <= super < |toks| && pos <= t.start && pos <= next <= |text|
    requires Spans(text, t, next) && t.size == 0
    ensures WellFormed(text, Bump(toks, super) + [t], parents + [super], next)
  {
    hide AllApart, AllSpan, SizesCount, Spans, Bump;
    AppendCounts(toks, parents, super, t);
    AppendApart(text, toks, super, t, pos);
    AppendSpans(text, toks, super, t, pos, next);
  }

  lemma CloseKeeps(text: string, toks: seq<Token>, parents: seq<int>, i: nat, pos: nat)
    requires WellFormed(text, toks, parents, pos)
    requires pos < |text| && i < |toks| && IsBracketed(toks[i]) && Open(toks[i])
    requires forall j | i < j < |toks| :: !Open(toks[j])
    requires text[pos] == (if toks[i].kind == Object then '}' else ']')
    ensures WellFormed(text, toks[i := toks[i].(end := pos + 1)], parents, pos + 1)
  {
    var closed := toks[i := toks[i].(end := pos + 1)];
    forall k | 0 <= k < |closed| ensures Spans(text, closed[k], pos + 1) {
      assert Spans(text, toks[k], pos);
    }
    forall k, j | 0 <= k < j < |closed| ensures Apart(closed[k], closed[j]) {
      assert Apart(toks[k], toks[j]);
      assert Spans(text, toks[j], pos);
    }
  }

  lemma MoveKeeps(text: string, toks: seq<Token>, parents: seq<int>, pos: nat, next: nat)
    requires WellFormed(text, toks, parents, pos) && pos <= next <= |text|
    ensures WellFormed(text, toks, parents, next)
  {
    forall k | 0 <= k < |toks| ensures Spans(text, toks[k], next) {
      assert Spans(text, toks[k], pos);
    }
  }

  /** One turn of the parser keeps the tokens well formed; a token that it adds belongs to
      the owner. */
  lemma StepKeeps(text: string, s: string, pos: nat, toks: seq<Token>, super: int, max: nat, parents: seq<int>)
    requires pos <= |text| && s == text[pos..] && !AtEnd(s)
    requires -1 <= super < |toks|
    requires WellFormed(text, toks, parents, pos)
    ensures var r := Next(s, pos, toks, super, max);
      r.Go? ==> WellFormed(text, r.toks, parents + (if |r.toks| > |toks| then [super] else []), pos + r.used)
  {
    hide WellFormed, StringLength, PrimitiveLength, LastOpenBracketed, LastOpen, Bump;
    var c := s[0];
    assert c == text[pos];
    assert parents + [] == parents;
    var r := Next(s, pos, toks, super, max);
    if r.Go? {
      if c == '{' || c == '[' {
        AppendKeeps(text, toks, parents, super, r.toks[|toks|], pos, pos + 1);
      } else if c == '\"' {
        StringSpans(text, s, pos);
        AppendKeeps(text, toks, parents, super, r.toks[|toks|], pos, pos + r.used);
      } else if c == '}' || c == ']' {
        CloseKeeps(text, toks, parents, LastOpen(toks, |toks|), pos);
      } else if c == '\t' || c == '\r' || c == '\n' || c == ' ' || c == ':' || c == ',' {
        MoveKeeps(text, toks, parents, pos, pos + 1);
      } else {
        assert text[pos..pos + r.used] == s[..r.used];
        AppendKeeps(text, toks, parents, super, r.toks[|toks|], pos, pos + r.used);
      }
    }
  }

  lemma StringSpans(text: string, s: string, pos: nat)
    requires pos <= |text| && s == text[pos..] && s != "" && s[0] == '\"'
    requires StringLength(s[1..]).At?
    ensures var n := StringLength(s[1..]).n;
      Spans(text, Token(Str, pos + 1, pos + 1 + n, 0), pos + n + 2)
  {
    hide StringLength, StringBody;
    var n := StringLength(s[1..]).n;
    LexedIsBody(s[1..]);
    assert text[pos + 1..pos + 1 + n] == s[1..][..n];
  }

  /** The structure of every successful parse: spans inside the text that say what their
      kind says, starts that increase, spans nested or apart, and sizes that count how
      many tokens had the token as their owner when they were added. */
  lemma {:induction false} RunStructure(text: string, s: string, pos: nat, toks: seq<Token>, super: int, max: nat,
                                        parents: seq<int>)
    requires pos <= |text| && s == text[pos..]
    requires -1 <= super < |toks|
    requires WellFormed(text, toks, parents, pos)
    ensures var r := Run(s, pos, toks, super, max);
      r.Tokens? ==>
        && WellFormed(text, r.toks, parents + Owners(s, pos, toks, super, max), |text|)
        && (forall i | 0 <= i < |r.toks| :: !Open(r.toks[i]))
    decreases |s|
  {
    hide WellFormed, Next, Bump;
    if AtEnd(s) {
      assert parents + [] == parents;
      MoveKeeps(text, toks, parents, pos, |text|);
    } else {
      var r := Next(s, pos, toks, super, max);
      if r.Go? {
        var owner := if |r.toks| > |toks| then [super] else [];
        var later := Owners(s[r.used..], pos + r.used, r.toks, r.super, max);
        StepKeeps(text, s, pos, toks, super, max, parents);
        assert s[r.used..] == text[pos + r.used..];
        RunStructure(text, s[r.used..], pos + r.used, r.toks, r.super, max, parents + owner);
        assert parents + (owner + later) == (parents + owner) + later;
      }
    }
  }

  lemma ParseStructure(text: string, max: nat)
    ensures Parse(text, max).Tokens? ==>
      var toks := Parse(text, max).toks;
      && AllSpan(text, toks, |text|) && AllApart(toks) && SizesCount(toks, Owners(text, 0, [], -1, max))
      && forall i | 0 <= i < |toks| :: !Open(toks[i])
  {
    hide Run, Spans, Owners;
    assert text[0..] == text;
    RunStructure(text, text, 0, [], -1, max, []);
    var owners := Owners(text, 0, [], -1, max);
    assert [] + owners == owners;
  }
}
