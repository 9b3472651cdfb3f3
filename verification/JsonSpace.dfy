/**
 * White space between the tokens of a text, as section 2 of RFC 8259 has it, changes where
 * tokens are and nothing else.
 */
module JsonSpace {
  import opened Jsmn
  import opened Json
  import JsonRoundTrip

  predicate AllSpace(w: string) {
    w == "" || ((w[0] == ' ' || w[0] == '\t' || w[0] == '\n' || w[0] == '\r') && AllSpace(w[1..]))
  }

  predicate Stands(c: char) {
    || c == '{' || c == '}' || c == '[' || c == ']' || c == ':' || c == ','
    || c == '\t' || c == '\r' || c == '\n' || c == ' '
  }

  /** How long the string, primitive or single character at the front of a text is. */
  function LexemeLength(s: string): Scan
    requires !AtEnd(s)
  {
    if Stands(s[0]) then At(1)
    else if s[0] == '\"' then
      match StringLength(s[1..]) case At(n) => At(n + 2) case r => r
    else PrimitiveLength(s)
  }

  /** Whole lexemes make up the first n characters. */
  predicate Boundary(s: string, n: nat)
    decreases |s|
  {
    || n == 0
    || (&& !AtEnd(s) && LexemeLength(s).At?
        && var k := LexemeLength(s).n;
           0 < k <= n && k <= |s| && Boundary(s[k..], n - k))
  }

  lemma {:induction false} BoundaryOn(s: string, n: nat, k: nat)
    requires Boundary(s, n) && n <= |s| && Boundary(s[n..], k)
    ensures Boundary(s, n + k)
    decreases |s|
  {
    hide LexemeLength;
    if n > 0 {
      var m := LexemeLength(s).n;
      assert s[m..][n - m..] == s[n..];
      BoundaryOn(s[m..], n - m, k);
    } else {
      assert s[0..] == s;
    }
  }

  // ---------------------------------------------------------------- lexemes

  lemma {:induction false} HexRunLocal(s: string, t: string, k: nat)
    requires HexRun(s, k) == At(k) && |t| >= k && t[..k] == s[..k]
    ensures HexRun(t, k) == At(k)
    decreases k
  {
    if k > 0 {
      assert t[0] == t[..k][0] && s[0] == s[..k][0];
      assert t[1..][..k - 1] == t[..k][1..] && s[1..][..k - 1] == s[..k][1..];
      HexRunLocal(s[1..], t[1..], k - 1);
    }
  }

  /** A string that ends says nothing about what comes after it. */
  lemma {:induction false} StringLengthLocal(s: string, t: string, n: nat)
    requires StringLength(s) == At(n) && |t| > n && t[..n + 1] == s[..n + 1]
    ensures StringLength(t) == At(n)
    decreases |s|
  {
    hide HexRun;
    assert t[0] == t[..n + 1][0] && s[0] == s[..n + 1][0];
    if s[0] == '\"' {
    } else if s[0] == '\\' && |s| > 1 {
      assert n >= 1;
      assert t[1] == t[..n + 1][1] && s[1] == s[..n + 1][1];
      if SimpleEscape(s[1]) {
        LocalTail(s, t, n, 2);
        StringLengthLocal(s[2..], t[2..], n - 2);
      } else {
        UnitLocal(s, t, n);
        LocalTail(s, t, n, 6);
        StringLengthLocal(s[6..], t[6..], n - 6);
      }
    } else {
      LocalTail(s, t, n, 1);
      StringLengthLocal(s[1..], t[1..], n - 1);
    }
  }

  /** An escape of a string that ends has all its digits. */
  lemma UnitWhole(s: string, n: nat)
    requires StringLength(s) == At(n) && s != "" && s[0] == '\\' && |s| > 1 && !SimpleEscape(s[1])
    ensures n >= 6 && n < |s| && s[1] == 'u' && HexRun(s[2..], 4) == At(4) && StringLength(s[6..]) == At(n - 6)
  {
    var h := HexRun(s[2..], 4).n;
    HexRunIsHex(s[2..], 4);
    assert s[2..][h..] == s[2 + h..];
  }

  lemma UnitLocal(s: string, t: string, n: nat)
    requires StringLength(s) == At(n) && s != "" && s[0] == '\\' && |s| > 1 && !SimpleEscape(s[1])
    requires n < |t| && t[..n + 1] == s[..n + 1]
    ensures n >= 6 && s[1] == 'u' && HexRun(s[2..], 4) == At(4) && HexRun(t[2..], 4) == At(4)
    ensures StringLength(s[6..]) == At(n - 6)
  {
    hide StringLength, HexRun;
    UnitWhole(s, n);
    LocalTail(s, t, n, 2);
    assert t[2..][..4] == t[2..][..n - 1][..4] && s[2..][..4] == s[2..][..n - 1][..4];
    HexRunLocal(s[2..], t[2..], 4);
  }

  lemma LocalTail(s: string, t: string, n: nat, k: nat)
    requires k <= n && n < |s| && n < |t| && t[..n + 1] == s[..n + 1]
    ensures t[k..][..n - k + 1] == s[k..][..n - k + 1]
  {
    assert t[k..][..n - k + 1] == t[..n + 1][k..] && s[k..][..n - k + 1] == s[..n + 1][k..];
  }

  lemma {:induction false} PrimitiveLocal(s: string, t: string, n: nat)
    requires PrimitiveLength(s) == At(n) && |t| > n && t[..n] == s[..n]
    requires EndsPrimitive(t[n]) || t[n] == NUL
    ensures PrimitiveLength(t) == At(n)
    decreases n
  {
    if n > 0 {
      assert t[0] == t[..n][0] && s[0] == s[..n][0];
      assert t[1..][..n - 1] == t[..n][1..] && s[1..][..n - 1] == s[..n][1..];
      PrimitiveLocal(s[1..], t[1..], n - 1);
    }
  }

  lemma {:induction false} PrimitiveStops(s: string, n: nat)
    requires PrimitiveLength(s) == At(n)
    ensures n < |s| ==> EndsPrimitive(s[n]) || s[n] == NUL
  {
    if n > 0 { PrimitiveStops(s[1..], n - 1); }
  }

  // ---------------------------------------------------------------- tokens alike

  /** The same kinds, sizes and spellings; and what is open in one is open in the other. */
  ghost predicate Twins(text: string, a: seq<Token>, other: string, b: seq<Token>) {
    && |a| == |b|
    && forall i | 0 <= i < |a| ::
         && a[i].kind == b[i].kind && a[i].size == b[i].size && Open(a[i]) == Open(b[i])
         && (a[i].kind == Str || a[i].kind == Primitive ==> Spelled(a[i], text) == Spelled(b[i], other))
  }

  ghost predicate TwinRuns(text: string, p: Parsed, other: string, q: Parsed) {
    match p
    case Failed(e) => q == Failed(e)
    case Tokens(a) => q.Tokens? && Twins(text, a, other, q.toks)
  }

  lemma {:induction false} TwinsLastOpen(text: string, a: seq<Token>, other: string, b: seq<Token>, n: nat)
    requires Twins(text, a, other, b) && n <= |a|
    ensures LastOpen(a, n) == LastOpen(b, n) && LastOpenBracketed(a, n) == LastOpenBracketed(b, n)
  {
    if n > 0 { TwinsLastOpen(text, a, other, b, n - 1); }
  }

  lemma TwinsAppend(text: string, a: seq<Token>, other: string, b: seq<Token>, super: int, t: Token, u: Token)
    requires Twins(text, a, other, b) && -1 <= super < |a|
    requires Twins(text, [t], other, [u])
    ensures Twins(text, Bump(a, super) + [t], other, Bump(b, super) + [u])
  {
    assert [t][0] == t && [u][0] == u;
  }

  lemma TwinsClose(text: string, a: seq<Token>, other: string, b: seq<Token>, i: nat, pos: nat, at: nat)
    requires Twins(text, a, other, b) && i < |a| && IsBracketed(a[i])
    ensures Twins(text, a[i := a[i].(end := pos)], other, b[i := b[i].(end := at)])
  {
  }

  /** The same turn, over twins and at two places. */
  ghost predicate TwinSteps(text: string, p: Step, other: string, q: Step) {
    match p
    case Stop(e) => q == Stop(e)
    case Go(used, a, super) => q.Go? && q.used == used && q.super == super && Twins(text, a, other, q.toks)
  }

  /** The same characters at two places. */
  lemma SpelledAlike(text: string, s: string, pos: nat, other: string, t: string, at: nat, kind: Kind,
                     from: nat, to: nat)
    requires pos <= |text| && text[pos..] == s && at <= |other| && other[at..] == t
    requires from <= to <= |s| && to <= |t| && s[from..to] == t[from..to]
    ensures Twins(text, [Token(kind, pos + from, pos + to, 0)], other, [Token(kind, at + from, at + to, 0)])
  {
    assert text[pos..][from..to] == text[pos + from..pos + to];
    assert other[at..][from..to] == other[at + from..at + to];
  }

  /** A token for the lexeme at the front of two texts. */
  lemma NextToken(s: string, pos: nat, text: string, a: seq<Token>,
                  t: string, at: nat, other: string, b: seq<Token>, super: int, max: nat)
    requires !AtEnd(s) && !AtEnd(t) && pos <= |text| && text[pos..] == s && at <= |other| && other[at..] == t
    requires Twins(text, a, other, b) && -1 <= super < |a|
    requires LexemeLength(s) == LexemeLength(t) && s[0] == t[0] && !Stands(s[0])
    requires LexemeLength(s).At? ==>
      var k := LexemeLength(s).n; k <= |s| && k <= |t| && s[..k] == t[..k]
    ensures TwinSteps(text, Next(s, pos, a, super, max), other, Next(t, at, b, super, max))
  {
    hide Bump, Twins, StringLength, PrimitiveLength;
    TwinsLength(text, a, other, b);
    var r := Next(s, pos, a, super, max);
    if r.Go? {
      NextUses(s, pos, a, super, max);
      var k := r.used;
      var quote := s[0] == '\"';
      var from, to := if quote then 1 else 0, if quote then r.used - 1 else r.used;
      assert s[from..to] == s[..k][from..to] && t[from..to] == t[..k][from..to];
      var kind := if quote then Str else Primitive;
      SpelledAlike(text, s, pos, other, t, at, kind, from, to);
      TwinsAppend(text, a, other, b, super, Token(kind, pos + from, pos + to, 0), Token(kind, at + from, at + to, 0));
    }
  }

  lemma TwinsLength(text: string, a: seq<Token>, other: string, b: seq<Token>)
    requires Twins(text, a, other, b)
    ensures |a| == |b|
  {
  }

  lemma NextBracket(s: string, pos: nat, text: string, a: seq<Token>,
                    t: string, at: nat, other: string, b: seq<Token>, super: int, max: nat)
    requires !AtEnd(s) && !AtEnd(t) && s[0] == t[0] && (s[0] == '}' || s[0] == ']')
    requires Twins(text, a, other, b) && -1 <= super < |a|
    ensures TwinSteps(text, Next(s, pos, a, super, max), other, Next(t, at, b, super, max))
  {
    hide LastOpenBracketed;
    TwinsLastOpen(text, a, other, b, |a|);
    var i := LastOpen(a, |a|);
    if i != -1 && a[i].kind == (if s[0] == '}' then Object else Array) {
      TwinsClose(text, a, other, b, i, pos + 1, at + 1);
      var c, d := a[i := a[i].(end := pos + 1)], b[i := b[i].(end := at + 1)];
      TwinsLastOpen(text, c, other, d, i + 1);
    }
  }

  /** One lexeme, found at the front of two texts. */
  lemma NextTwins(s: string, pos: nat, text: string, a: seq<Token>,
                  t: string, at: nat, other: string, b: seq<Token>, super: int, max: nat)
    requires !AtEnd(s) && !AtEnd(t) && pos <= |text| && text[pos..] == s && at <= |other| && other[at..] == t
    requires Twins(text, a, other, b) && -1 <= super < |a|
    requires LexemeLength(s) == LexemeLength(t) && s[0] == t[0]
    requires LexemeLength(s).At? ==>
      var k := LexemeLength(s).n; k <= |s| && k <= |t| && s[..k] == t[..k]
    ensures TwinSteps(text, Next(s, pos, a, super, max), other, Next(t, at, b, super, max))
  {
    hide StringLength, PrimitiveLength, LastOpen, LastOpenBracketed;
    var c := s[0];
    if c == '}' || c == ']' {
      hide Next;
      NextBracket(s, pos, text, a, t, at, other, b, super, max);
    } else if !Stands(c) {
      hide Next;
      NextToken(s, pos, text, a, t, at, other, b, super, max);
    } else if c == '{' || c == '[' {
      var kind := if c == '{' then Object else Array;
      TwinsAppend(text, a, other, b, super, Token(kind, pos, -1, 0), Token(kind, at, -1, 0));
    } else {
      TwinsLastOpen(text, a, other, b, |a|);
    }
  }

  // ---------------------------------------------------------------- the rest of a parse

  lemma LexemeFits(s: string)
    requires !AtEnd(s) && LexemeLength(s).At?
    ensures LexemeLength(s).n <= |s|
  {
  }

  lemma NextUses(s: string, pos: nat, a: seq<Token>, super: int, max: nat)
    requires !AtEnd(s) && -1 <= super < |a|
    ensures var r := Next(s, pos, a, super, max); r.Go? ==> LexemeLength(s) == At(r.used)
  {
    hide StringLength, PrimitiveLength, LastOpen, LastOpenBracketed, Bump;
  }

  /** The same text from two places on, over twins. */
  lemma {:induction false} RunTwins(s: string, pos: nat, text: string, a: seq<Token>,
                                    at: nat, other: string, b: seq<Token>, super: int, max: nat)
    requires pos <= |text| && text[pos..] == s && at <= |other| && other[at..] == s
    requires Twins(text, a, other, b) && -1 <= super < |a|
    ensures TwinRuns(text, Run(s, pos, a, super, max), other, Run(s, at, b, super, max))
    decreases |s|
  {
    hide Next, LexemeLength, Twins, LastOpen;
    TwinsLength(text, a, other, b);
    if AtEnd(s) {
      TwinsLastOpen(text, a, other, b, |a|);
    } else {
      if LexemeLength(s).At? { LexemeFits(s); }
      NextTwins(s, pos, text, a, s, at, other, b, super, max);
      var r, q := Next(s, pos, a, super, max), Next(s, at, b, super, max);
      if r.Go? {
        assert text[pos + r.used..] == s[r.used..] && other[at + r.used..] == s[r.used..];
        RunTwins(s[r.used..], pos + r.used, text, r.toks, at + r.used, other, q.toks, r.super, max);
      }
    }
  }

  lemma SpaceTurn(s: string, pos: nat, a: seq<Token>, super: int, max: nat)
    requires -1 <= super < |a| && s != "" && AllSpace(s[..1])
    ensures !AtEnd(s) && Next(s, pos, a, super, max) == Go(1, a, super)
  {
    assert s[..1][0] == s[0];
  }

  lemma {:induction false} RunSpace(w: string, s: string, pos: nat, a: seq<Token>, super: int, max: nat)
    requires AllSpace(w) && -1 <= super < |a|
    ensures Run(w + s, pos, a, super, max) == Run(s, pos + |w|, a, super, max)
    decreases |w|
  {
    hide Run, Next, AtEnd;
    if w == "" {
      assert w + s == s;
    } else {
      assert (w + s)[1..] == w[1..] + s;
      assert (w + s)[..1] == [w[0]] && [w[0]][1..] == "";
      SpaceTurn(w + s, pos, a, super, max);
      RunTurn(w + s, pos, a, super, max);
      RunSpace(w[1..], s, pos + 1, a, super, max);
    }
  }

  /** A lexeme that ends where white space is put in, or before, is still there. */
  lemma LexemeStays(a: string, w: string, b: string)
    requires a != "" && w != "" && AllSpace(w) && !AtEnd(a + b) && LexemeLength(a + b).At?
    requires LexemeLength(a + b).n <= |a|
    ensures !AtEnd(a + (w + b)) && LexemeLength(a + (w + b)) == LexemeLength(a + b)
  {
    var s, t, k := a + b, a + (w + b), LexemeLength(a + b).n;
    assert s[0] == a[0] && t[0] == a[0];
    if Stands(s[0]) {
    } else if s[0] == '\"' {
      assert t[1..][..k - 1] == a[1..k] && s[1..][..k - 1] == a[1..k];
      StringLengthLocal(s[1..], t[1..], k - 2);
    } else {
      assert t[..k] == a[..k] && s[..k] == a[..k];
      PrimitiveStops(s, k);
      if k < |a| { assert t[k] == a[k] && s[k] == a[k]; } else { assert t[k] == w[0]; }
      PrimitiveLocal(s, t, k);
    }
  }

  /** Where the white space comes. */
  lemma InsertHere(w: string, b: string, pos: nat, text: string, toks: seq<Token>,
                   other: string, same: seq<Token>, super: int, max: nat)
    requires AllSpace(w)
    requires pos <= |text| && text[pos..] == b && pos <= |other| && other[pos..] == w + b
    requires Twins(text, toks, other, same) && -1 <= super < |toks| == |same|
    ensures TwinRuns(text, Run(b, pos, toks, super, max), other, Run(w + b, pos, same, super, max))
  {
    hide Run, Twins, AllSpace, TwinRuns;
    RunSpace(w, b, pos, same, super, max);
    assert other[pos + |w|..] == other[pos..][|w|..];
    RunTwins(b, pos, text, toks, pos + |w|, other, same, super, max);
  }

  /** A lexeme before it. */
  lemma InsertTurn(a: string, w: string, b: string, pos: nat, text: string, toks: seq<Token>,
                   other: string, same: seq<Token>, super: int, max: nat)
    requires AllSpace(w) && w != "" && a != "" && Boundary(a + b, |a|)
    requires pos <= |text| && text[pos..] == a + b && pos <= |other| && other[pos..] == a + (w + b)
    requires Twins(text, toks, other, same) && -1 <= super < |toks| == |same|
    ensures !AtEnd(a + b) && !AtEnd(a + (w + b))
    ensures var r, q := Next(a + b, pos, toks, super, max), Next(a + (w + b), pos, same, super, max);
      && TwinSteps(text, r, other, q)
      && (r.Go? ==>
            var k := r.used;
            && k <= |a| && (a + b)[k..] == a[k..] + b && (a + (w + b))[k..] == a[k..] + (w + b)
            && Boundary(a[k..] + b, |a[k..]|)
            && text[pos + k..] == a[k..] + b && other[pos + k..] == a[k..] + (w + b))
  {
    hide Next, LexemeLength, Twins, TwinSteps, AtEnd, AllSpace, Boundary;
    var s, t := a + b, a + (w + b);
    BoundaryLexeme(s, |a|);
    LexemeStays(a, w, b);
    var k := LexemeLength(s).n;
    CutTexts(a, w, b, pos, text, other, k);
    NextTwins(s, pos, text, toks, t, pos, other, same, super, max);
    NextUses(s, pos, toks, super, max);
  }

  lemma BoundaryLexeme(s: string, n: nat)
    requires Boundary(s, n) && n > 0
    ensures !AtEnd(s) && LexemeLength(s).At?
    ensures var k := LexemeLength(s).n; 0 < k <= n && k <= |s| && Boundary(s[k..], n - k)
  {
    hide LexemeLength;
  }

  lemma CutTexts(a: string, w: string, b: string, pos: nat, text: string, other: string, k: nat)
    requires pos <= |text| && text[pos..] == a + b && pos <= |other| && other[pos..] == a + (w + b)
    requires 0 < k <= |a|
    ensures (a + b)[..k] == a[..k] == (a + (w + b))[..k] && (a + b)[0] == (a + (w + b))[0]
    ensures (a + b)[k..] == a[k..] + b && (a + (w + b))[k..] == a[k..] + (w + b)
    ensures text[pos + k..] == a[k..] + b && other[pos + k..] == a[k..] + (w + b)
  {
    assert text[pos..][k..] == text[pos + k..] && other[pos..][k..] == other[pos + k..];
  }

  /** A parse of what is left, with and without the white space. */
  lemma {:induction false} InsertRun(a: string, w: string, b: string, pos: nat, text: string, toks: seq<Token>,
                                     other: string, same: seq<Token>, super: int, max: nat)
    requires AllSpace(w) && w != "" && Boundary(a + b, |a|)
    requires pos <= |text| && text[pos..] == a + b && pos <= |other| && other[pos..] == a + (w + b)
    requires Twins(text, toks, other, same) && -1 <= super < |toks| == |same|
    ensures TwinRuns(text, Run(a + b, pos, toks, super, max), other, Run(a + (w + b), pos, same, super, max))
    decreases |a|
  {
    hide Run, Next, Boundary, Twins, AtEnd, AllSpace;
    if a == "" {
      assert a + b == b && a + (w + b) == w + b;
      InsertHere(w, b, pos, text, toks, other, same, super, max);
    } else {
      InsertTurn(a, w, b, pos, text, toks, other, same, super, max);
      RunTurn(a + b, pos, toks, super, max);
      RunTurn(a + (w + b), pos, same, super, max);
      var r, q := Next(a + b, pos, toks, super, max), Next(a + (w + b), pos, same, super, max);
      if r.Go? {
        TwinsLength(text, r.toks, other, q.toks);
        InsertRun(a[r.used..], w, b, pos + r.used, text, r.toks, other, q.toks, r.super, max);
      }
    }
  }

  /** White space put between two lexemes of any text changes nothing of what the tokens
      say, nor the error if there is one: only where they are. */
  lemma SpaceChangesPlacesOnly(a: string, w: string, b: string, max: nat)
    requires AllSpace(w) && Boundary(a + b, |a|)
    ensures TwinRuns(a + b, Parse(a + b, max), a + (w + b), Parse(a + (w + b), max))
  {
    var s, t := a + b, a + (w + b);
    if w == "" {
      assert t == s;
    } else {
      assert s[0..] == s && t[0..] == t;
      hide Run;
      InsertRun(a, w, b, 0, s, [], t, [], -1, max);
    }
  }

  // ---------------------------------------------------------------- what is rebuilt

  lemma TwinsAfter(text: string, a: seq<Token>, other: string, b: seq<Token>, k: nat)
    requires Twins(text, a, other, b) && k <= |a|
    ensures Twins(text, a[k..], other, b[k..])
  {
  }

  lemma {:induction false} TwinsBuild(text: string, a: seq<Token>, other: string, b: seq<Token>)
    requires Twins(text, a, other, b)
    ensures Build(text, a) == Build(other, b)
    decreases |a|, 0
  {
    hide BuildItems, BuildMembers, Spelled;
    if a != [] {
      TwinsAfter(text, a, other, b, 1);
      match a[0].kind
      case Array => TwinsBuildItems(text, a[1..], other, b[1..], a[0].size);
      case Object => TwinsBuildMembers(text, a[1..], other, b[1..], a[0].size);
      case _ =>
    }
  }

  lemma {:induction false} TwinsBuildItems(text: string, a: seq<Token>, other: string, b: seq<Token>, n: nat)
    requires Twins(text, a, other, b)
    ensures BuildItems(text, a, n) == BuildItems(other, b, n)
    decreases |a|, n + 1
  {
    hide Build, Twins;
    TwinsLength(text, a, other, b);
    if n > 0 {
      TwinsBuild(text, a, other, b);
      var first := Build(text, a);
      if first.Built? {
        TwinsAfter(text, a, other, b, first.used);
        TwinsBuildItems(text, a[first.used..], other, b[first.used..], n - 1);
      }
    }
  }

  lemma {:induction false} TwinsBuildMembers(text: string, a: seq<Token>, other: string, b: seq<Token>, n: nat)
    requires Twins(text, a, other, b)
    ensures BuildMembers(text, a, n) == BuildMembers(other, b, n)
    decreases |a|, n + 1
  {
    hide Build, Twins;
    TwinsLength(text, a, other, b);
    if n > 0 {
      TwinsBuild(text, a, other, b);
      var key := Build(text, a);
      if key.Built? && key.value.JString? {
        TwinsAfter(text, a, other, b, key.used);
        TwinsBuild(text, a[key.used..], other, b[key.used..]);
        var value := Build(text, a[key.used..]);
        if value.Built? {
          TwinsAfter(text, a, other, b, key.used + value.used);
          TwinsBuildMembers(text, a[key.used + value.used..], other, b[key.used + value.used..], n - 1);
        }
      }
    }
  }

  /** Nor does it change the value decoded. */
  lemma SpaceIsNoMatter(a: string, w: string, b: string)
    requires AllSpace(w) && Boundary(a + b, |a|)
    ensures Decode(a + (w + b)) == Decode(a + b)
  {
    hide Parse, Build, Twins, Boundary;
    SpaceChangesPlacesOnly(a, w, b, TOKENLIST_SIZE);
    var p, q := Parse(a + b, TOKENLIST_SIZE), Parse(a + (w + b), TOKENLIST_SIZE);
    if p.Tokens? {
      TwinsLength(a + b, p.toks, a + (w + b), q.toks);
      TwinsBuild(a + b, p.toks, a + (w + b), q.toks);
    }
  }

  // ---------------------------------------------------------------- any number of times

  /** White space to be put in at a place. */
  datatype Gap = Gap(at: nat, space: string)

  function Spread(s: string, gaps: seq<Gap>): string
    decreases |gaps|
  {
    if gaps == [] then s
    else if gaps[0].at > |s| then Spread(s, gaps[1..])
    else Spread(s[..gaps[0].at] + (gaps[0].space + s[gaps[0].at..]), gaps[1..])
  }

  /** Each is put between two lexemes of the text as it is by then. */
  predicate Between(s: string, gaps: seq<Gap>)
    decreases |gaps|
  {
    || gaps == []
    || (&& AllSpace(gaps[0].space) && gaps[0].at <= |s| && Boundary(s, gaps[0].at)
        && Between(s[..gaps[0].at] + (gaps[0].space + s[gaps[0].at..]), gaps[1..]))
  }

  lemma {:induction false} SpreadIsNoMatter(s: string, gaps: seq<Gap>)
    requires Between(s, gaps)
    ensures Decode(Spread(s, gaps)) == Decode(s)
    decreases |gaps|
  {
    hide Decode, Boundary;
    if gaps != [] {
      var g := gaps[0];
      assert s[..g.at] + s[g.at..] == s;
      SpaceIsNoMatter(s[..g.at], g.space, s[g.at..]);
      SpreadIsNoMatter(s[..g.at] + (g.space + s[g.at..]), gaps[1..]);
    }
  }

  /** A printed value with any white space between its tokens is decoded as without. */
  lemma SpacedPrintDecodes(v: Json, gaps: seq<Gap>)
    requires Proper(v) && KeysAreBodies(v) && Between(Print(v), gaps)
    ensures Decode(Spread(Print(v), gaps)) == if TokenCount(v) <= TOKENLIST_SIZE then Value(AsRead(v)) else BadMessage
  {
    hide Decode, Print, Between, Spread;
    SpreadIsNoMatter(Print(v), gaps);
    JsonRoundTrip.DecodePrinted(v);
  }

  // ---------------------------------------------------------------- two texts

  /** An array with white space before its item. */
  lemma SpacedItem()
    ensures Decode("[ 5]") == Value(JArray([JNumber("5")]))
  {
    hide Decode;
    var v := JArray([JNumber("5")]);
    assert Print(v) == "[5]" by { assert v.items[1..] == []; }
    assert "[5]"[1..] == "5]" && "[" + "5]" == "[5]" && "[" + (" " + "5]") == "[ 5]";
    assert Boundary("[5]", 1);
    SpaceIsNoMatter("[", " ", "5]");
    assert v.items[1..] == [] && AsRead(v) == v && TokenCount(v) == 2;
    assert NumberText("5") by { assert "5"[1..] == ""; }
    JsonRoundTrip.DecodePrinted(v);
  }

  lemma MemberText()
    ensures var v := JObject(["a", "b"], [JNumber("1"), JNumber("2")]);
      && Print(v) == "{\"a\":1," + "\"b\":2}"
      && Proper(v) && KeysAreBodies(v) && TokenCount(v) == 5 && AsRead(v) == v
  {
    var v := JObject(["a", "b"], [JNumber("1"), JNumber("2")]);
    assert v.keys[1..] == ["b"] && v.values[1..] == [JNumber("2")] && ["b"][1..] == [] && [JNumber("2")][1..] == [];
    assert "1"[1..] == "" && "2"[1..] == "" && "a"[1..] == "" && "b"[1..] == "";
    assert NumberText("1") && NumberText("2") && StringBody("a") && StringBody("b");
    assert PrintMembers(["b"], [JNumber("2")]) == "\"b\":2";
    assert AllAsRead(v.values) == v.values;
    assert TokenCounts(v.values) == 2;
    assert AllProper(v.values) && AllKeysProper(v.keys) && AllBodies(v.keys) && AllKeysAreBodies(v.values);
  }

  /** A lexeme, and what comes after it. */
  lemma BoundaryAfter(lexeme: string, rest: string, n: nat)
    requires lexeme != "" && !AtEnd(lexeme + rest) && LexemeLength(lexeme + rest) == At(|lexeme|) && Boundary(rest, n)
    ensures Boundary(lexeme + rest, |lexeme| + n)
  {
    hide LexemeLength;
    assert (lexeme + rest)[|lexeme|..] == rest;
  }

  lemma NameLexeme(rest: string)
    ensures LexemeLength("\"a\"" + rest) == At(3)
  {
    var s := "\"a\"" + rest;
    assert s[1..] == "a\"" + rest && s[1..][1..] == "\"" + rest;
    assert StringLength("\"" + rest) == At(0);
    assert StringLength(s[1..]) == At(1);
  }

  lemma DigitLexeme(rest: string)
    requires rest != "" && rest[0] == ','
    ensures LexemeLength("1" + rest) == At(1)
  {
    assert ("1" + rest)[1..] == rest;
    assert PrimitiveLength(rest) == At(0);
  }

  lemma MemberBoundary()
    ensures Boundary("{\"a\":1," + "\"b\":2}", 7)
  {
    hide Boundary;
    var rest := "\"b\":2}";
    assert Boundary(rest, 0) by { NoBoundary(rest); }
    BoundaryAfter(",", rest, 0);
    DigitLexeme("," + rest);
    BoundaryAfter("1", "," + rest, 1);
    BoundaryAfter(":", "1" + ("," + rest), 2);
    NameLexeme(":" + ("1" + ("," + rest)));
    BoundaryAfter("\"a\"", ":" + ("1" + ("," + rest)), 3);
    BoundaryAfter("{", "\"a\"" + (":" + ("1" + ("," + rest))), 6);
    assert "{" + ("\"a\"" + (":" + ("1" + ("," + rest)))) == "{\"a\":1," + rest;
  }

  lemma NoBoundary(s: string)
    ensures Boundary(s, 0)
  {
  }

  /** An object with a line break before its second member. */
  lemma SpacedMember()
    ensures Decode("{\"a\":1,\n\"b\":2}") == Value(JObject(["a", "b"], [JNumber("1"), JNumber("2")]))
  {
    hide Decode;
    var v := JObject(["a", "b"], [JNumber("1"), JNumber("2")]);
    MemberText();
    MemberBoundary();
    hide Print, Boundary, Proper, KeysAreBodies, TokenCount, AsRead;
    SpaceIsNoMatter("{\"a\":1,", "\n", "\"b\":2}");
    assert "{\"a\":1," + ("\n" + "\"b\":2}") == "{\"a\":1,\n\"b\":2}";
    JsonRoundTrip.DecodePrinted(v);
  }
}
