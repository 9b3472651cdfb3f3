/**
 * The JSON tokenizer: a flat array of tokens, the index of the token that the next
 * one belongs to instead of a stack, and child counts. Non-strict, without parent
 * links. Texts are byte strings; a NUL ends them.
 */
module Jsmn {

  datatype Kind = Undefined | Object | Array | Str | Primitive

  /** A token: its span, -1 where not set yet, and how many tokens belong to it. */
  datatype Token = Token(kind: Kind, start: int, end: int, size: nat)

  datatype Error = NoMem | Invalid | Partial

  datatype Parsed = Tokens(toks: seq<Token>) | Failed(error: Error)

  const NUL: char := '\0'

  predicate Open(t: Token) { t.start != -1 && t.end == -1 }

  predicate Closed(ts: seq<Token>) {
    ts == [] || (!Open(ts[0]) && Closed(ts[1..]))
  }

  /** The last open token among the first n, or -1. */
  function LastOpen(ts: seq<Token>, n: nat): (i: int)
    requires n <= |ts|
    ensures -1 <= i < n
    ensures i >= 0 ==> Open(ts[i])
    ensures forall j | i < j < n :: !Open(ts[j])
  {
    if n == 0 then -1 else if Open(ts[n - 1]) then n - 1 else LastOpen(ts, n - 1)
  }

  predicate IsBracketed(t: Token) { t.kind == Array || t.kind == Object }

  /** The last open array or object among the first n, or -1. */
  function LastOpenBracketed(ts: seq<Token>, n: nat): (i: int)
    requires n <= |ts|
    ensures -1 <= i < n
  {
    if n == 0 then -1
    else if IsBracketed(ts[n - 1]) && Open(ts[n - 1]) then n - 1
    else LastOpenBracketed(ts, n - 1)
  }

  /** The token at index super gains a child. */
  function Bump(ts: seq<Token>, super: int): (r: seq<Token>)
    requires -1 <= super < |ts|
    ensures |r| == |ts|
  {
    if super == -1 then ts else ts[super := ts[super].(size := ts[super].size + 1)]
  }

  predicate AtEnd(s: string) { s == "" || s[0] == NUL }

  // ---------------------------------------------------------------- lexing

  predicate EndsPrimitive(c: char) {
    c == ':' || c == '\t' || c == '\r' || c == '\n' || c == ' ' || c == ',' || c == ']' || c == '}'
  }

  predicate Unprintable(c: char) { c < ' ' || c >= 127 as char }

  datatype Scan = At(n: nat) | Bad | Short

  /** How long the primitive at the front of s is. */
  function PrimitiveLength(s: string): (r: Scan)
    ensures r.At? ==> r.n <= |s| && NUL !in s[..r.n]
    ensures r.At? && !AtEnd(s) && !EndsPrimitive(s[0]) ==> r.n > 0
  {
    if AtEnd(s) || EndsPrimitive(s[0]) then At(0)
    else if Unprintable(s[0]) then Bad
    else
      var r := PrimitiveLength(s[1..]);
      if r.At? then At(r.n + 1) else r
  }

  predicate SimpleEscape(c: char) {
    c == '\"' || c == '/' || c == '\\' || c == 'b' || c == 'f' || c == 'r' || c == 'n' || c == 't'
  }

  predicate Hex(c: char) {
    '0' <= c <= '9' || 'A' <= c <= 'F' || 'a' <= c <= 'f'
  }

  /** How many of up to n characters at the front are hex digits, when the text ends
      before another character turns up. */
  function HexRun(s: string, n: nat): (r: Scan)
    ensures r.At? ==> r.n <= |s| && r.n <= n && NUL !in s[..r.n]
    ensures !r.Short?
  {
    if n == 0 || AtEnd(s) then At(0)
    else if !Hex(s[0]) then Bad
    else
      var r := HexRun(s[1..], n - 1);
      if r.At? then At(r.n + 1) else r
  }

  /** How far the closing quote is from the front of s, which follows the opening one. */
  function StringLength(s: string): (r: Scan)
    ensures r.At? ==> r.n < |s| && s[r.n] == '\"' && NUL !in s[..r.n]
    decreases |s|
  {
    if AtEnd(s) then Short
    else if s[0] == '\"' then At(0)
    else if s[0] == '\\' && |s| > 1 then
      if SimpleEscape(s[1]) then Shift(StringLength(s[2..]), s, 2)
      else if s[1] == 'u' then
        var h := HexRun(s[2..], 4);
        if h.At? then
          assert NUL !in s[..2 + h.n] by { assert s[..2 + h.n] == s[..2] + s[2..][..h.n]; }
          Shift(StringLength(s[2 + h.n..]), s, 2 + h.n)
        else Bad
      else Bad
    else Shift(StringLength(s[1..]), s, 1)
  }

  function Shift(r: Scan, s: string, k: nat): (t: Scan)
    requires k <= |s| && NUL !in s[..k]
    requires r.At? ==> r.n < |s| - k && s[k..][r.n] == '\"' && NUL !in s[k..][..r.n]
    ensures t.At? == r.At? && t.Bad? == r.Bad?
    ensures r.At? ==> t.n == r.n + k && s[t.n] == '\"' && NUL !in s[..t.n]
  {
    if r.At? then
      assert s[..r.n + k] == s[..k] + s[k..][..r.n];
      At(r.n + k)
    else r
  }

  /** The body of a JSON string: plain characters and escapes, up to its quote. */
  predicate StringBody(s: string)
    decreases |s|
  {
    if s == "" then true
    else if s[0] == '\\' then
      && |s| > 1
      && (if SimpleEscape(s[1]) then StringBody(s[2..])
          else s[1] == 'u' && |s| >= 6 && Hex(s[2]) && Hex(s[3]) && Hex(s[4]) && Hex(s[5]) && StringBody(s[6..]))
    else s[0] != '\"' && s[0] != NUL && StringBody(s[1..])
  }

  /** Whatever the tokenizer takes for a string is the body of one. */
  lemma {:induction false} LexedIsBody(s: string)
    requires StringLength(s).At?
    ensures StringBody(s[..StringLength(s).n])
    decreases |s|
  {
    var n := StringLength(s).n;
    if s[0] == '\"' {
    } else if s[0] == '\\' && |s| > 1 {
      if SimpleEscape(s[1]) {
        LexedIsBody(s[2..]);
        assert s[..n][2..] == s[2..][..n - 2];
      } else {
        var h := HexRun(s[2..], 4).n;
        LexedIsBody(s[2 + h..]);
        HexRunIsHex(s[2..], 4);
        assert s[2..][h..] == s[2 + h..];
        assert s[..n][6..] == s[6..][..n - 6];
        assert s[2] == s[2..][0] && s[3] == s[2..][1] && s[4] == s[2..][2] && s[5] == s[2..][3];
      }
    } else {
      LexedIsBody(s[1..]);
      assert s[..n][1..] == s[1..][..n - 1];
    }
  }

  /** A run of hex digits is shorter than asked for only at the end of the text. */
  lemma {:induction false} HexRunIsHex(s: string, n: nat)
    requires HexRun(s, n).At?
    ensures var k := HexRun(s, n).n;
      (forall i | 0 <= i < k :: Hex(s[i])) && (k == n || AtEnd(s[k..]))
    decreases n
  {
    if n != 0 && !AtEnd(s) {
      HexRunIsHex(s[1..], n - 1);
      var k := HexRun(s, n).n;
      assert s[1..][k - 1..] == s[k..];
      forall i | 0 <= i < k ensures Hex(s[i]) {
        if i > 0 { assert s[i] == s[1..][i - 1]; }
      }
    }
  }

  // ---------------------------------------------------------------- parsing

  datatype Step = Go(used: nat, toks: seq<Token>, super: int) | Stop(error: Error)

  /** One turn of the loop, at a text that has not ended and starts at offset pos. */
  function Next(s: string, pos: nat, toks: seq<Token>, super: int, max: nat): (r: Step)
    requires !AtEnd(s)
    requires -1 <= super < |toks|
    ensures r.Go? ==> 0 < r.used <= |s| && -1 <= r.super < |r.toks|
  {
    var c := s[0];
    if c == '{' || c == '[' then
      if |toks| >= max then Stop(NoMem)
      else
        Go(1, Bump(toks, super) + [Token(if c == '{' then Object else Array, pos, -1, 0)], |toks|)
    else if c == '}' || c == ']' then
      var i := LastOpen(toks, |toks|);
      if i == -1 || toks[i].kind != (if c == '}' then Object else Array) then Stop(Invalid)
      else
        var closed := toks[i := toks[i].(end := pos + 1)];
        Go(1, closed, LastOpen(closed, i + 1))
    else if c == '\"' then
      var r := StringLength(s[1..]);
      if r.Bad? then Stop(Invalid)
      else if r.Short? then Stop(Partial)
      else if |toks| >= max then Stop(NoMem)
      else Go(r.n + 2, Bump(toks, super) + [Token(Str, pos + 1, pos + 1 + r.n, 0)], super)
    else if c == '\t' || c == '\r' || c == '\n' || c == ' ' then Go(1, toks, super)
    else if c == ':' then Go(1, toks, |toks| - 1)
    else if c == ',' then
      if super != -1 && !IsBracketed(toks[super]) then
        var i := LastOpenBracketed(toks, |toks|);
        Go(1, toks, if i != -1 then i else super)
      else Go(1, toks, super)
    else
      var r := PrimitiveLength(s);
      if !r.At? then Stop(Invalid)
      else if |toks| >= max then Stop(NoMem)
      else Go(r.n, Bump(toks, super) + [Token(Primitive, pos, pos + r.n, 0)], super)
  }

  /** The rest of the parse, from any point of it. */
  function Run(s: string, pos: nat, toks: seq<Token>, super: int, max: nat): (r: Parsed)
    requires -1 <= super < |toks|
    decreases |s|
  {
    if AtEnd(s) then
      if LastOpen(toks, |toks|) != -1 then Failed(Partial) else Tokens(toks)
    else
      var r := Next(s, pos, toks, super, max);
      if r.Stop? then Failed(r.error) else Run(s[r.used..], pos + r.used, r.toks, r.super, max)
  }

  /** One turn, or the end. */
  lemma RunTurn(s: string, pos: nat, toks: seq<Token>, super: int, max: nat)
    requires -1 <= super < |toks| && !AtEnd(s)
    ensures Run(s, pos, toks, super, max) ==
      match Next(s, pos, toks, super, max)
      case Stop(e) => Failed(e)
      case Go(used, ts, sup) => Run(s[used..], pos + used, ts, sup, max)
  {
    hide Next;
  }

  lemma RunEnd(s: string, pos: nat, toks: seq<Token>, super: int, max: nat)
    requires -1 <= super < |toks| && AtEnd(s)
    ensures Run(s, pos, toks, super, max) ==
      if LastOpen(toks, |toks|) != -1 then Failed(Partial) else Tokens(toks)
  {
    hide LastOpen;
  }

  /** A parse from a fresh parser. */
  function Parse(s: string, max: nat): Parsed {
    Run(s, 0, [], -1, max)
  }

  /** Whom each token that is still to come belongs to: the owner at the time it is added. */
  function Owners(s: string, pos: nat, toks: seq<Token>, super: int, max: nat): seq<int>
    requires -1 <= super < |toks|
    decreases |s|
  {
    if AtEnd(s) then []
    else
      var r := Next(s, pos, toks, super, max);
      if r.Stop? then []
      else (if |r.toks| > |toks| then [super] else []) + Owners(s[r.used..], pos + r.used, r.toks, r.super, max)
  }

  /** No more tokens are produced than there are slots for. */
  lemma {:induction false} RunFits(s: string, pos: nat, toks: seq<Token>, super: int, max: nat)
    requires -1 <= super < |toks| <= max
    ensures var r := Run(s, pos, toks, super, max); r.Tokens? ==> |r.toks| <= max
    decreases |s|
  {
    hide StringLength, LastOpen, LastOpenBracketed, Bump, PrimitiveLength;
    if !AtEnd(s) {
      var r := Next(s, pos, toks, super, max);
      if r.Go? { RunFits(s[r.used..], pos + r.used, r.toks, r.super, max); }
    }
  }

  /** A parse without a token array only counts. */
  datatype Counted = Count(n: nat) | CountFailed(error: Error)

  function CountRun(s: string, n: nat): Counted
    decreases |s|
  {
    if AtEnd(s) then Count(n)
    else
      var c := s[0];
      if c == '{' || c == '[' then CountRun(s[1..], n + 1)
      else if c == '\"' then
        var r := StringLength(s[1..]);
        if r.Bad? then CountFailed(Invalid)
        else if r.Short? then CountFailed(Partial)
        else CountRun(s[r.n + 2..], n + 1)
      else if c == '}' || c == ']' || c == '\t' || c == '\r' || c == '\n' || c == ' ' || c == ':' || c == ',' then
        CountRun(s[1..], n)
      else
        var r := PrimitiveLength(s);
        if !r.At? then CountFailed(Invalid)
        else CountRun(s[r.n..], n + 1)
  }

  /** Whenever tokens are produced, the counting pass counts them. */
  lemma {:induction false} CountRunCounts(s: string, pos: nat, toks: seq<Token>, super: int, max: nat)
    requires -1 <= super < |toks|
    requires Run(s, pos, toks, super, max).Tokens?
    ensures CountRun(s, |toks|) == Count(|Run(s, pos, toks, super, max).toks|)
    decreases |s|
  {
    hide Run, Next, CountRun;
    if AtEnd(s) {
      RunEnd(s, pos, toks, super, max);
      CountEnd(s, |toks|);
    } else {
      var r := Next(s, pos, toks, super, max);
      RunTurn(s, pos, toks, super, max);
      CountTurn(s, pos, toks, super, max);
      CountRunCounts(s[r.used..], pos + r.used, r.toks, r.super, max);
    }
  }

  lemma CountEnd(s: string, n: nat)
    requires AtEnd(s)
    ensures CountRun(s, n) == Count(n)
  {
  }

  /** One turn counts the token it adds. */
  lemma CountTurn(s: string, pos: nat, toks: seq<Token>, super: int, max: nat)
    requires -1 <= super < |toks| && !AtEnd(s)
    ensures var r := Next(s, pos, toks, super, max);
      r.Go? ==> CountRun(s, |toks|) == CountRun(s[r.used..], |r.toks|)
  {
    hide StringLength, LastOpen, LastOpenBracketed, Bump, PrimitiveLength;
  }
}
