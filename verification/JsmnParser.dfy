/** The tokenizer as it runs: position, next free token and current owner updated in
    place, tokens filled in place. */
module JsmnParser {
  import opened Jsmn

  function Code(e: Error): int {
    match e case NoMem => -1 case Invalid => -2 case Partial => -3
  }

  class Parser {
    var pos: nat
    var toknext: nat
    var toksuper: int

    constructor ()
      ensures pos == 0 && toknext == 0 && toksuper == -1
    {
      pos, toknext, toksuper := 0, 0, -1;
    }

    ghost predicate Valid(tokens: array<Token>)
      reads this
    {
      toknext <= tokens.Length && -1 <= toksuper < toknext
    }

    /** Slots that are not used yet are as they were. */
    twostate predicate SpareSame(tokens: array<Token>)
      reads this, tokens
    {
      forall i | toknext <= i < tokens.Length :: tokens[i] == old(tokens[i])
    }

    method Alloc(tokens: array<Token>) returns (ok: bool)
      requires Valid(tokens)
      modifies this`toknext, tokens
      ensures ok == (old(toknext) < tokens.Length)
      ensures toknext == old(toknext) + (if ok then 1 else 0)
      ensures tokens[..old(toknext)] == old(tokens[..toknext]) && SpareSame(tokens)
    {
      if toknext >= tokens.Length {
        return false;
      }
      tokens[toknext] := tokens[toknext].(start := -1, end := -1, size := 0);
      toknext := toknext + 1;
      ok := true;
    }

    /** Takes the next slot for a token. */
    method Emit(tokens: array<Token>, t: Token) returns (ok: bool)
      requires Valid(tokens)
      modifies this`toknext, tokens
      ensures ok == (old(toknext) < tokens.Length)
      ensures ok ==>
        && toknext == old(toknext) + 1 && tokens[..toknext] == old(tokens[..toknext]) + [t]
        && SpareSame(tokens)
    {
      ok := Alloc(tokens);
      if ok { tokens[toknext - 1] := t; }
    }

    /** The owner, if there is one, gains a child. */
    method AddToSuper(tokens: array<Token>, n: nat)
      requires Valid(tokens) && toksuper < n <= toknext
      modifies tokens
      ensures tokens[..n] == Bump(old(tokens[..n]), toksuper)
      ensures tokens[n..toknext] == old(tokens[n..toknext]) && SpareSame(tokens)
    {
      if toksuper != -1 {
        tokens[toksuper] := tokens[toksuper].(size := tokens[toksuper].size + 1);
      }
    }

    method ParsePrimitive(js: string, tokens: array<Token>) returns (r: int)
      requires Valid(tokens) && pos < |js| && !AtEnd(js[pos..])
      modifies this`pos, this`toknext, tokens
      ensures var scan := PrimitiveLength(js[old(pos)..]);
        if !scan.At? then r == Code(Invalid)
        else if old(toknext) >= tokens.Length then r == Code(NoMem)
        else
          && r == 0 && pos == old(pos) + scan.n && toknext == old(toknext) + 1
          && tokens[..toknext] == old(tokens[..toknext]) + [Token(Primitive, old(pos), pos, 0)]
      ensures r == 0 ==> SpareSame(tokens)
    {
      var start := pos;
      ghost var total := PrimitiveLength(js[start..]);
      while pos < |js| && js[pos] != NUL && !EndsPrimitive(js[pos])
        invariant start <= pos <= |js| && toknext == old(toknext) && tokens[..] == old(tokens[..])
        invariant var here := PrimitiveLength(js[pos..]);
          total.At? == here.At? && (total.At? ==> total.n == pos - start + here.n)
        decreases |js| - pos
      {
        assert js[pos..][1..] == js[pos + 1..];
        if Unprintable(js[pos]) {
          pos := start;
          return -2;
        }
        pos := pos + 1;
      }
      var ok := Emit(tokens, Token(Primitive, start, pos, 0));
      if !ok {
        pos := start;
        return -1;
      }
      r := 0;
    }

    method ParseString(js: string, tokens: array<Token>) returns (r: int)
      requires Valid(tokens) && pos < |js|
      modifies this`pos, this`toknext, tokens
      ensures var scan := StringLength(js[old(pos) + 1..]);
        if scan.Bad? then r == Code(Invalid)
        else if scan.Short? then r == Code(Partial)
        else if old(toknext) >= tokens.Length then r == Code(NoMem)
        else
          && r == 0 && pos == old(pos) + 1 + scan.n && toknext == old(toknext) + 1
          && tokens[..toknext] == old(tokens[..toknext]) + [Token(Str, old(pos) + 1, pos, 0)]
      ensures r == 0 ==> SpareSame(tokens)
    {
      hide StringLength, HexRun, SimpleEscape;
      var start := pos;
      pos := pos + 1;
      ghost var total := StringLength(js[pos..]);
      while pos < |js| && js[pos] != NUL
        invariant start < pos <= |js| && toknext == old(toknext) && tokens[..] == old(tokens[..])
        invariant SameScan(total, StringLength(js[pos..]), pos - (start + 1))
        decreases |js| - pos
      {
        var c := js[pos];
        StringScanStep(js[pos..]);
        if c == '\"' {
          var ok := Emit(tokens, Token(Str, start + 1, pos, 0));
          if !ok {
            pos := start;
            return -1;
          }
          return 0;
        }
        if c == '\\' && pos + 1 < |js| {
          var ok := SkipEscape(js);
          if !ok {
            pos := start;
            return -2;
          }
        } else {
          assert js[pos..][1..] == js[pos + 1..];
        }
        pos := pos + 1;
      }
      StringScanStep(js[pos..]);
      pos := start;
      r := -3;
    }

    /** From a backslash to the last character of its escape. */
    method SkipEscape(js: string) returns (ok: bool)
      requires pos + 1 < |js| && js[pos] == '\\'
      modifies this`pos
      ensures !ok ==> StringLength(js[old(pos)..]).Bad?
      ensures ok ==> old(pos) < pos < |js|
      ensures ok ==> SameScan(StringLength(js[old(pos)..]), StringLength(js[pos + 1..]), pos + 1 - old(pos))
    {
      hide StringLength, HexRun, SimpleEscape;
      ghost var s, here := js[pos..], pos;
      StringScanStep(s);
      pos := pos + 1;
      if js[pos] == 'u' {
        pos := pos + 1;
        assert s[2..] == js[pos..];
        ok := SkipHex(js);
        if !ok { return; }
        pos := pos - 1;
      } else if !SimpleEscape(js[pos]) {
        return false;
      }
      assert s[pos + 1 - here..] == js[pos + 1..];
      ok := true;
    }

    /** Up to four hex digits. */
    method SkipHex(js: string) returns (ok: bool)
      requires pos <= |js|
      modifies this`pos
      ensures var h := HexRun(js[old(pos)..], 4);
        ok == h.At? && (ok ==> pos == old(pos) + h.n)
    {
      ghost var total := HexRun(js[pos..], 4);
      var i := 0;
      while i < 4 && pos < |js| && js[pos] != NUL
        invariant i <= 4 && pos == old(pos) + i <= |js|
        invariant var here := HexRun(js[pos..], 4 - i);
          total.At? == here.At? && (total.At? ==> total.n == i + here.n)
      {
        assert js[pos..][1..] == js[pos + 1..];
        if !Hex(js[pos]) { return false; }
        pos := pos + 1;
        i := i + 1;
      }
      ok := true;
    }

    /** The backward search for an open token, in the first n. */
    method FindOpen(tokens: array<Token>, n: nat) returns (i: int)
      requires n <= tokens.Length
      ensures i == LastOpen(tokens[..n], n)
    {
      i := n - 1;
      assert tokens[..n] == tokens[..i + 1];
      while i >= 0
        invariant -1 <= i < n
        invariant LastOpen(tokens[..n], n) == LastOpen(tokens[..n], i + 1)
      {
        if tokens[i].start != -1 && tokens[i].end == -1 { return; }
        i := i - 1;
      }
    }

    method FindOpenBracketed(tokens: array<Token>, n: nat) returns (i: int)
      requires n <= tokens.Length
      ensures i == LastOpenBracketed(tokens[..n], n)
    {
      i := n - 1;
      while i >= 0
        invariant -1 <= i < n
        invariant LastOpenBracketed(tokens[..n], n) == LastOpenBracketed(tokens[..n], i + 1)
      {
        if IsBracketed(tokens[i]) && tokens[i].start != -1 && tokens[i].end == -1 { return; }
        i := i - 1;
      }
    }

    method OpenContainer(c: char, tokens: array<Token>) returns (r: int)
      requires Valid(tokens) && (c == '{' || c == '[')
      modifies this`toknext, this`toksuper, tokens
      ensures if old(toknext) >= tokens.Length then r == Code(NoMem)
        else
          && r == 0 && toknext == old(toknext) + 1 && toksuper == old(toknext)
          && tokens[..toknext] == Bump(old(tokens[..toknext]), old(toksuper))
            + [Token(if c == '{' then Object else Array, pos, -1, 0)]
      ensures r == 0 ==> SpareSame(tokens)
    {
      var n := toknext;
      var ok := Alloc(tokens);
      if !ok { return -1; }
      tokens[n] := Token(if c == '{' then Object else Array, pos, -1, 0);
      AddToSuper(tokens, n);
      assert tokens[..toknext] == tokens[..n] + tokens[n..toknext];
      toksuper := toknext - 1;
      r := 0;
    }

    method CloseContainer(c: char, tokens: array<Token>) returns (r: int)
      requires Valid(tokens) && (c == '}' || c == ']')
      modifies this`toksuper, tokens
      ensures var toks := old(tokens[..toknext]);
        var i := LastOpen(toks, |toks|);
        if i == -1 || toks[i].kind != (if c == '}' then Object else Array) then r == Code(Invalid)
        else
          var closed := toks[i := toks[i].(end := pos + 1)];
          r == 0 && tokens[..toknext] == closed && toksuper == LastOpen(closed, i + 1)
      ensures r == 0 ==> SpareSame(tokens)
    {
      var kind := if c == '}' then Object else Array;
      var i := FindOpen(tokens, toknext);
      if i == -1 || tokens[i].kind != kind { return -2; }
      tokens[i] := tokens[i].(end := pos + 1);
      ghost var closed := tokens[..toknext];
      var j := FindOpen(tokens, i + 1);
      LastOpenOfPrefix(closed, i + 1);
      assert tokens[..i + 1] == closed[..i + 1];
      toksuper := j;
      r := 0;
    }

    /** One turn of the loop was made; counted says whether a token was added. */
    twostate predicate Turned(js: string, tokens: array<Token>, r: int, counted: bool)
      requires old(Valid(tokens)) && old(pos) < |js| && !AtEnd(js[old(pos)..])
      reads this, tokens
    {
      && (match Next(js[old(pos)..], old(pos), old(tokens[..toknext]), old(toksuper), tokens.Length)
        case Stop(e) => r == Code(e) < 0
        case Go(used, toks, super) =>
          && r == 0 && pos == old(pos) + used && toknext == |toks| <= tokens.Length
          && tokens[..toknext] == toks && toksuper == super
          && toknext == old(toknext) + (if counted then 1 else 0))
      && (r == 0 ==> SpareSame(tokens))
    }

    method Turn(js: string, tokens: array<Token>) returns (r: int, counted: bool)
      requires Valid(tokens) && pos < |js| && !AtEnd(js[pos..])
      modifies this, tokens
      ensures Turned(js, tokens, r, counted)
    {
      hide LastOpen, LastOpenBracketed, StringLength, PrimitiveLength, Bump;
      var c := js[pos];
      r, counted := 0, false;
      if c == '{' || c == '[' {
        counted := true;
        r := OpenContainer(c, tokens);
        if r < 0 { return; }
        pos := pos + 1;
      } else if c == '}' || c == ']' {
        r := CloseContainer(c, tokens);
        if r < 0 { return; }
        pos := pos + 1;
      } else if c == '\"' {
        r, counted := StringTurn(js, tokens);
      } else if c == '\t' || c == '\r' || c == '\n' || c == ' ' {
        pos := pos + 1;
      } else if c == ':' {
        toksuper := toknext - 1;
        pos := pos + 1;
      } else if c == ',' {
        if toksuper != -1 && !IsBracketed(tokens[toksuper]) {
          var i := FindOpenBracketed(tokens, toknext);
          if i != -1 { toksuper := i; }
        }
        pos := pos + 1;
      } else {
        r, counted := PrimitiveTurn(js, tokens);
      }
    }

    method StringTurn(js: string, tokens: array<Token>) returns (r: int, counted: bool)
      requires Valid(tokens) && pos < |js| && js[pos] == '\"'
      modifies this, tokens
      ensures Turned(js, tokens, r, counted)
    {
      hide StringLength, Bump;
      ghost var toks := tokens[..toknext];
      counted := false;
      assert js[pos..][1..] == js[pos + 1..];
      r := ParseString(js, tokens);
      if r < 0 { return; }
      counted := true;
      Child(tokens, toks);
      pos := pos + 1;
    }

    /** The position goes back to the last character of the primitive and on again. */
    method PrimitiveTurn(js: string, tokens: array<Token>) returns (r: int, counted: bool)
      requires Valid(tokens) && pos < |js| && !AtEnd(js[pos..])
      requires !EndsPrimitive(js[pos]) && js[pos] != '{' && js[pos] != '[' && js[pos] != '\"'
      modifies this, tokens
      ensures Turned(js, tokens, r, counted)
    {
      hide PrimitiveLength, Bump;
      ghost var toks := tokens[..toknext];
      counted := false;
      r := ParsePrimitive(js, tokens);
      if r < 0 { return; }
      counted := true;
      Child(tokens, toks);
      pos := pos - 1;
      pos := pos + 1;
    }

    /** Tokenizes js from where the parser stands. */
    method Parse(js: string, tokens: array<Token>) returns (r: int)
      requires Valid(tokens) && pos <= |js|
      modifies this, tokens
      ensures match Run(js[old(pos)..], old(pos), old(tokens[..toknext]), old(toksuper), tokens.Length)
        case Failed(e) => r == Code(e)
        case Tokens(toks) => r == |toks| == toknext <= tokens.Length && tokens[..toknext] == toks
      ensures r >= 0 ==> SpareSame(tokens)
    {
      hide Run, LastOpen, Next, Bump;
      ghost var result := Run(js[pos..], pos, tokens[..toknext], toksuper, tokens.Length);
      var count := toknext;
      while pos < |js| && js[pos] != NUL
        invariant Valid(tokens) && pos <= |js| && count == toknext && SpareSame(tokens)
        invariant Run(js[pos..], pos, tokens[..toknext], toksuper, tokens.Length) == result
        decreases |js| - pos
      {
        ghost var s, p := js[pos..], pos;
        RunTurn(s, pos, tokens[..toknext], toksuper, tokens.Length);
        var counted;
        r, counted := Turn(js, tokens);
        if r < 0 { return; }
        if counted { count := count + 1; }
        assert s[pos - p..] == js[pos..];
      }
      RunEnd(js[pos..], pos, tokens[..toknext], toksuper, tokens.Length);
      var i := FindOpen(tokens, toknext);
      if i != -1 { return -3; }
      r := count;
    }

    /** After a leaf token was appended its owner gains a child. */
    method Child(tokens: array<Token>, ghost toks: seq<Token>)
      requires Valid(tokens) && toknext == |toks| + 1 && toksuper < |toks|
      requires tokens[..|toks|] == toks
      modifies tokens
      ensures tokens[..toknext] == Bump(toks, toksuper) + [old(tokens[toknext - 1])]
      ensures SpareSame(tokens)
    {
      AddToSuper(tokens, toknext - 1);
    }
  }

  /** A scan that goes on after k characters. */
  predicate SameScan(total: Scan, rest: Scan, k: nat) {
    && total.At? == rest.At? && total.Bad? == rest.Bad?
    && (total.At? ==> total.n == k + rest.n)
  }

  /** How far one turn of the string loop takes the scan. */
  lemma StringScanStep(s: string)
    ensures AtEnd(s) ==> StringLength(s).Short?
    ensures !AtEnd(s) && s[0] == '\"' ==> StringLength(s) == At(0)
    ensures !AtEnd(s) && s[0] != '\"' ==>
      if s[0] == '\\' && |s| > 1 then
        if s[1] == 'u' then
          var h := HexRun(s[2..], 4);
          if h.At? then SameScan(StringLength(s), StringLength(s[2 + h.n..]), 2 + h.n) else StringLength(s).Bad?
        else if SimpleEscape(s[1]) then SameScan(StringLength(s), StringLength(s[2..]), 2)
        else StringLength(s).Bad?
      else SameScan(StringLength(s), StringLength(s[1..]), 1)
  {
    hide HexRun;
  }

  lemma {:induction false} LastOpenOfPrefix(toks: seq<Token>, n: nat)
    requires n <= |toks|
    ensures LastOpen(toks[..n], n) == LastOpen(toks, n)
    decreases n
  {
    if n > 0 {
      LastOpenOfPrefix(toks, n - 1);
      LastOpenOfPrefix(toks[..n], n - 1);
      assert toks[..n][..n - 1] == toks[..n - 1];
    }
  }
}
