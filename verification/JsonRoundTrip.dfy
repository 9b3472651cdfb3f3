/** Tokenizing what was printed, and rebuilding it: the JSON round trip. */
module JsonRoundTrip {
  import opened Jsmn
  import opened Json
  import opened JsonText
  import opened JsmnStructure

  predicate IsContainer(v: Json) { v.JArray? || v.JObject? }

  /** The tokens of v when its text starts at pos. */
  function Toks(v: Json, pos: nat): seq<Token> {
    match v
    case JString(chars) => [Token(Str, pos + 1, pos + 1 + |Escape(chars)|, 0)]
    case JArray(items) =>
      [Token(Array, pos, pos + |Print(v)|, |items|)] + ItemsToks(items, pos + 1)
    case JObject(keys, values) =>
      [Token(Object, pos, pos + |Print(v)|, |values|)] + MembersToks(keys, values, pos + 1)
    case _ => [Token(Primitive, pos, pos + |Print(v)|, 0)]
  }

  function ItemsToks(items: seq<Json>, pos: nat): seq<Token> {
    if items == [] then []
    else Toks(items[0], pos) + ItemsToks(items[1..], pos + |Print(items[0])| + |Comma(|items|)|)
  }

  /** A key's token counts its value as its child. */
  function MembersToks(keys: seq<string>, values: seq<Json>, pos: nat): seq<Token>
    decreases values
  {
    if keys == [] || values == [] then []
    else
      var at := pos + |keys[0]| + 3;
      [Token(Str, pos + 1, pos + 1 + |keys[0]|, 1)]
      + (Toks(values[0], at)
         + MembersToks(keys[1..], values[1..], at + |Print(values[0])| + |Comma(|values|)|))
  }

  lemma {:induction false} ToksClosed(v: Json, pos: nat)
    ensures Closed(Toks(v, pos))
    ensures Proper(v) ==> |Toks(v, pos)| == TokenCount(v)
    decreases v, 0
  {
    match v
    case JArray(items) => ItemsToksClosed(items, pos + 1);
    case JObject(keys, values) => MembersToksClosed(keys, values, pos + 1);
    case _ =>
  }

  lemma {:induction false} ItemsToksClosed(items: seq<Json>, pos: nat)
    ensures Closed(ItemsToks(items, pos))
    ensures AllProper(items) ==> |ItemsToks(items, pos)| == TokenCounts(items)
    decreases items, 0
  {
    if items != [] {
      var next := pos + |Print(items[0])| + |Comma(|items|)|;
      ToksClosed(items[0], pos);
      ItemsToksClosed(items[1..], next);
      ClosedConcat(Toks(items[0], pos), ItemsToks(items[1..], next));
    }
  }

  lemma {:induction false} MembersToksClosed(keys: seq<string>, values: seq<Json>, pos: nat)
    ensures Closed(MembersToks(keys, values, pos))
    ensures |keys| == |values| && AllProper(values) ==>
      |MembersToks(keys, values, pos)| == |values| + TokenCounts(values)
    decreases values, 0
  {
    if keys != [] && values != [] {
      var at := pos + |keys[0]| + 3;
      var next := at + |Print(values[0])| + |Comma(|values|)|;
      ToksClosed(values[0], at);
      MembersToksClosed(keys[1..], values[1..], next);
      ClosedConcat(Toks(values[0], at), MembersToks(keys[1..], values[1..], next));
    }
  }

  lemma {:induction false} ClosedConcat(a: seq<Token>, b: seq<Token>)
    ensures Closed(a + b) <==> Closed(a) && Closed(b)
    decreases |a|
  {
    if a == [] {
      assert a + b == b;
    } else {
      assert (a + b)[1..] == a[1..] + b;
      ClosedConcat(a[1..], b);
    }
  }

  // ---------------------------------------------------------------- the parser's searches

  lemma {:induction false} LastOpenPrefix(a: seq<Token>, b: seq<Token>, n: nat)
    requires n <= |a|
    ensures LastOpen(a + b, n) == LastOpen(a, n)
    ensures LastOpenBracketed(a + b, n) == LastOpenBracketed(a, n)
    decreases n
  {
    if n > 0 { LastOpenPrefix(a, b, n - 1); }
  }

  lemma {:induction false} LastOpenSkipsClosed(a: seq<Token>, b: seq<Token>)
    requires Closed(b)
    ensures LastOpen(a + b, |a + b|) == LastOpen(a, |a|)
    ensures LastOpenBracketed(a + b, |a + b|) == LastOpenBracketed(a, |a|)
    decreases |b|
  {
    if b == [] {
      assert a + b == a;
    } else {
      var front, last := b[..|b| - 1], [b[|b| - 1]];
      assert b == front + last;
      ClosedConcat(front, last);
      assert !Open(last[0]);
      LastOpenSkipsClosed(a, front);
      assert a + b == (a + front) + last;
      LastOpenPrefix(a + front, last, |a + front|);
    }
  }

  lemma LastOpenFindsContainer(base: seq<Token>, tok: Token, inner: seq<Token>)
    requires Open(tok) && Closed(inner)
    ensures var toks := base + ([tok] + inner);
      && LastOpen(toks, |toks|) == |base|
      && (IsBracketed(tok) ==> LastOpenBracketed(toks, |toks|) == |base|)
  {
    var toks := base + ([tok] + inner);
    assert toks == (base + [tok]) + inner;
    LastOpenSkipsClosed(base + [tok], inner);
  }

  /** Which token the next one belongs to after v: a container hands over to the last
      open token, anything else changes nothing. */
  function SuperAfter(v: Json, toks: seq<Token>, super: int): (s: int)
    requires -1 <= super < |toks|
    ensures -1 <= s < |toks|
  {
    if IsContainer(v) then LastOpen(toks, |toks|) else super
  }

  lemma {:induction false} BumpKeepsOpen(toks: seq<Token>, super: int, n: nat)
    requires -1 <= super < |toks| && n <= |toks|
    ensures LastOpen(Bump(toks, super), n) == LastOpen(toks, n)
    decreases n
  {
    if n > 0 { BumpKeepsOpen(toks, super, n - 1); }
  }

  // ---------------------------------------------------------------- tokenizing

  /** The parser reaches `after` with these tokens, or has run out of room. */
  function Reaches(after: string, pos: nat, toks: seq<Token>, super: int, max: nat): Parsed
    requires -1 <= super < |toks|
  {
    if |toks| <= max then Run(after, pos, toks, super, max) else Failed(NoMem)
  }

  lemma {:induction false} RunValue(v: Json, after: string, pos: nat, toks: seq<Token>, super: int, max: nat)
    requires Proper(v) && KeysAreBodies(v) && Follows(after)
    requires -1 <= super < |toks| <= max
    ensures Run(Text(v, after), pos, toks, super, max)
      == Reaches(after, pos + |Print(v)|, Bump(toks, super) + Toks(v, pos), SuperAfter(v, toks, super), max)
    decreases v, 1
  {
    match v
    case JString(chars) => RunString(chars, after, pos, toks, super, max);
    case JArray(items) => RunArray(v, after, pos, toks, super, max);
    case JObject(keys, values) => RunObject(v, after, pos, toks, super, max);
    case _ => RunPrimitive(v, after, pos, toks, super, max);
  }

  lemma RunPrimitive(v: Json, after: string, pos: nat, toks: seq<Token>, super: int, max: nat)
    requires Proper(v) && !v.JString? && !IsContainer(v) && Follows(after)
    requires -1 <= super < |toks| <= max
    ensures Run(Text(v, after), pos, toks, super, max)
      == Reaches(after, pos + |Print(v)|, Bump(toks, super) + Toks(v, pos), super, max)
  {
    var t := Print(v);
    PrimitiveStart(t);
    PrimitiveLexes(t, after);
    assert t != "" && Text(v, after) == t + after;
    RunPrimitiveText(t, after, pos, toks, super, max);
  }

  /** The first character of a primitive is nothing the parser treats apart. */
  predicate StartsPrimitive(c: char) {
    c != NUL && !EndsPrimitive(c) && c != '{' && c != '[' && c != '\"'
  }

  lemma PrimitiveStart(t: string)
    requires NumberText(t) || t == "null" || t == "true" || t == "false"
    ensures t != "" && StartsPrimitive(t[0])
  {
  }

  lemma RunPrimitiveText(t: string, after: string, pos: nat, toks: seq<Token>, super: int, max: nat)
    requires t != "" && StartsPrimitive(t[0])
    requires PrimitiveLength(t + after) == At(|t|)
    requires -1 <= super < |toks| <= max
    ensures Run(t + after, pos, toks, super, max)
      == Reaches(after, pos + |t|, Bump(toks, super) + [Token(Primitive, pos, pos + |t|, 0)], super, max)
  {
    hide LastOpen, LastOpenBracketed, StringLength, PrimitiveLength;
    assert (t + after)[|t|..] == after;
  }

  lemma RunString(chars: string, after: string, pos: nat, toks: seq<Token>, super: int, max: nat)
    requires NUL !in chars
    requires -1 <= super < |toks| <= max
    ensures Run(Text(JString(chars), after), pos, toks, super, max)
      == Reaches(after, pos + |Print(JString(chars))|, Bump(toks, super) + Toks(JString(chars), pos), super, max)
  {
    hide Run, Escape, StringBody, Reaches, Bump;
    EscapeIsBody(chars);
    RunBody(Escape(chars), after, pos, toks, super, max);
  }

  lemma RunBody(body: string, after: string, pos: nat, toks: seq<Token>, super: int, max: nat)
    requires StringBody(body)
    requires -1 <= super < |toks| <= max
    ensures Run("\"" + (body + ("\"" + after)), pos, toks, super, max)
      == Reaches(after, pos + |body| + 2,
                 Bump(toks, super) + [Token(Str, pos + 1, pos + 1 + |body|, 0)], super, max)
  {
    hide Run, LastOpen, LastOpenBracketed, StringLength, PrimitiveLength, StringBody, Bump;
    var s := "\"" + (body + ("\"" + after));
    assert s[1..] == body + ("\"" + after);
    BodyLexes(body, after);
    RunTurn(s, pos, toks, super, max);
    assert s[|body| + 2..] == after;
  }

  /** Opening a container: its token is appended, open, and the next ones belong to it. */
  lemma RunOpen(c: char, s: string, pos: nat, toks: seq<Token>, super: int, max: nat)
    requires c == '[' || c == '{'
    requires -1 <= super < |toks| <= max
    ensures var tok := Token(if c == '{' then Object else Array, pos, -1, 0);
      Run([c] + s, pos, toks, super, max)
        == Reaches(s, pos + 1, Bump(toks, super) + [tok], |toks|, max)
  {
    hide LastOpen, LastOpenBracketed, StringLength, PrimitiveLength;
    assert ([c] + s)[1..] == s;
  }

  /** Closing it: whatever was the current owner, the last open token is closed, and
      the one before it takes over. */
  lemma RunClose(c: char, s: string, pos: nat, base: seq<Token>, tok: Token, inner: seq<Token>, super: int, max: nat)
    requires c == ']' || c == '}'
    requires Open(tok) && tok.kind == (if c == '}' then Object else Array) && Closed(inner)
    requires -1 <= super < |base + ([tok] + inner)|
    ensures Run([c] + s, pos, base + ([tok] + inner), super, max)
      == Run(s, pos + 1, base + ([tok.(end := pos + 1)] + inner), LastOpen(base, |base|), max)
  {
    hide LastOpenBracketed, StringLength, PrimitiveLength;
    var toks := base + ([tok] + inner);
    var done := base + ([tok.(end := pos + 1)] + inner);
    LastOpenFindsContainer(base, tok, inner);
    assert toks[|base|] == tok;
    assert toks[|base| := tok.(end := pos + 1)] == done;
    LastOpenPrefix(base, [tok.(end := pos + 1)] + inner, |base|);
    assert LastOpen(done, |base| + 1) == LastOpen(base, |base|);
    assert ([c] + s)[1..] == s;
  }

  lemma {:induction false} RunArray(v: Json, after: string, pos: nat, toks: seq<Token>, super: int, max: nat)
    requires v.JArray? && Proper(v) && KeysAreBodies(v)
    requires -1 <= super < |toks| <= max
    ensures Run(Text(v, after), pos, toks, super, max)
      == Reaches(after, pos + |Print(v)|, Bump(toks, super) + Toks(v, pos), LastOpen(toks, |toks|), max)
    decreases v, 0
  {
    hide Run, LastOpen, ItemsToks, ItemsText, PrintItems;
    var base := Bump(toks, super);
    var tok := Token(Array, pos, -1, 0);
    var items := v.items;
    RunOpen('[', ItemsText(items, "]" + after), pos, toks, super, max);
    if |base| < max {
      assert base + [tok] == base + ([tok] + []);
      RunItems(items, "]" + after, pos + 1, base, tok, [], max);
      var inner := ItemsToks(items, pos + 1);
      assert [] + inner == inner;
      ItemsToksClosed(items, pos + 1);
      RunClose(']', after, pos + 1 + |PrintItems(items)|, base, tok.(size := |items|), inner, |base|, max);
      BumpKeepsOpen(toks, super, |toks|);
    }
  }

  predicate ClosesNext(after: string) { after != "" && (after[0] == ']' || after[0] == '}') }

  lemma {:induction false} RunItems(items: seq<Json>, after: string, pos: nat,
                                    base: seq<Token>, tok: Token, inner: seq<Token>, max: nat)
    requires AllProper(items) && AllKeysAreBodies(items)
    requires ClosesNext(after)
    requires Open(tok) && tok.kind == Array && Closed(inner)
    requires |base| + 1 + |inner| <= max
    ensures Run(ItemsText(items, after), pos, base + ([tok] + inner), |base|, max)
      == Reaches(after, pos + |PrintItems(items)|,
                 base + ([tok.(size := tok.size + |items|)] + (inner + ItemsToks(items, pos))), |base|, max)
    decreases items, 0
  {
    hide Run, LastOpen, Toks, Text, Print, Proper, KeysAreBodies, Reaches, Comma, TokenCount, Open, Closed;
    if items == [] {
      assert inner + [] == inner;
      ReachesOnly(after, pos, base + ([tok] + inner), |base|, max);
    } else {
      hide ItemsToks, ItemsText, PrintItems;
      var bumped := tok.(size := tok.size + 1);
      var first := Toks(items[0], pos);
      var q := pos + |Print(items[0])| + |Comma(|items|)|;
      var state := base + ([bumped] + (inner + first));
      var more := ItemsToks(items[1..], q);
      ItemsUnfold(items, after, pos);
      RunFirstItem(items, after, pos, base, tok, inner, max);
      OpenBumped(tok);
      assert (inner + first) + more == inner + (first + more);
      ReachesOnly(after, pos + |PrintItems(items)|,
                  base + ([tok.(size := tok.size + |items|)] + (inner + (first + more))), |base|, max);
      ReachesOnly(ItemsText(items[1..], after), q, state, |base|, max);
      if |state| <= max {
        RunItems(items[1..], after, q, base, bumped, inner + first, max);
        assert bumped.(size := bumped.size + |items[1..]|) == tok.(size := tok.size + |items|);
      }
    }
  }

  lemma ItemsUnfold(items: seq<Json>, after: string, pos: nat)
    requires items != []
    ensures var q := pos + |Print(items[0])| + |Comma(|items|)|;
      && ItemsToks(items, pos) == Toks(items[0], pos) + ItemsToks(items[1..], q)
      && pos + |PrintItems(items)| == q + |PrintItems(items[1..])|
    ensures ItemsText(items, after) == Text(items[0], Comma(|items|) + ItemsText(items[1..], after))
  {
    hide Toks, Text, Print, Comma;
  }

  /** The first item of an array, and the comma or the end after it. */
  lemma {:induction false} RunFirstItem(items: seq<Json>, after: string, pos: nat,
                                        base: seq<Token>, tok: Token, inner: seq<Token>, max: nat)
    requires items != [] && AllProper(items) && AllKeysAreBodies(items)
    requires ClosesNext(after)
    requires Open(tok) && tok.kind == Array && Closed(inner)
    requires |base| + 1 + |inner| <= max
    ensures var first := Toks(items[0], pos);
      && Closed(inner + first)
      && Run(ItemsText(items, after), pos, base + ([tok] + inner), |base|, max)
           == Reaches(ItemsText(items[1..], after), pos + |Print(items[0])| + |Comma(|items|)|,
                      base + ([tok.(size := tok.size + 1)] + (inner + first)), |base|, max)
    decreases items, 0, 0
  {
    hide Run, LastOpen, Toks, Text, Print, Proper, KeysAreBodies, Reaches, Comma, TokenCount, ItemsToks;
    var rest := ItemsText(items[1..], after);
    var bumped := tok.(size := tok.size + 1);
    var first := Toks(items[0], pos);
    ItemsUnfold(items, after, pos);
    assert |items| == 1 ==> rest == after;
    CommaFollows(|items|, rest);
    RunValue(items[0], Comma(|items|) + rest, pos, base + ([tok] + inner), |base|, max);
    LastOpenFindsContainer(base, tok, inner);
    assert Bump(base + ([tok] + inner), |base|) + first == base + ([bumped] + (inner + first));
    ToksClosed(items[0], pos);
    ClosedConcat(inner, first);
    AfterMember(|items|, rest, pos + |Print(items[0])|, base, bumped, inner + first, |base|, max);
  }

  /** A comma returns ownership to the enclosing container, from a key or from itself. */
  lemma RunComma(s: string, pos: nat, base: seq<Token>, tok: Token, inner: seq<Token>, super: int, max: nat)
    requires Open(tok) && IsBracketed(tok) && Closed(inner)
    requires |base| <= super < |base| + 1 + |inner|
    requires super == |base| || inner[super - |base| - 1].kind == Str
    ensures Run("," + s, pos, base + ([tok] + inner), super, max)
      == Run(s, pos + 1, base + ([tok] + inner), |base|, max)
  {
    hide LastOpen, LastOpenBracketed, StringLength, PrimitiveLength;
    LastOpenFindsContainer(base, tok, inner);
    assert ("," + s)[1..] == s;
  }

  lemma {:induction false} RunObject(v: Json, after: string, pos: nat, toks: seq<Token>, super: int, max: nat)
    requires v.JObject? && Proper(v) && KeysAreBodies(v)
    requires -1 <= super < |toks| <= max
    ensures Run(Text(v, after), pos, toks, super, max)
      == Reaches(after, pos + |Print(v)|, Bump(toks, super) + Toks(v, pos), LastOpen(toks, |toks|), max)
    decreases v, 0
  {
    hide Run, LastOpen, MembersToks, MembersText, PrintMembers;
    var base := Bump(toks, super);
    var tok := Token(Object, pos, -1, 0);
    var keys, values := v.keys, v.values;
    RunOpen('{', MembersText(keys, values, "}" + after), pos, toks, super, max);
    if |base| < max {
      assert base + [tok] == base + ([tok] + []);
      RunMembers(keys, values, "}" + after, pos + 1, base, tok, [], max);
      var inner := MembersToks(keys, values, pos + 1);
      assert [] + inner == inner;
      MembersToksClosed(keys, values, pos + 1);
      RunClose('}', after, pos + 1 + |PrintMembers(keys, values)|, base, tok.(size := |values|), inner, |base|, max);
      BumpKeepsOpen(toks, super, |toks|);
    }
  }

  lemma {:induction false} RunMembers(keys: seq<string>, values: seq<Json>, after: string, pos: nat,
                                      base: seq<Token>, tok: Token, inner: seq<Token>, max: nat)
    requires |keys| == |values| && AllProper(values) && AllBodies(keys) && AllKeysAreBodies(values)
    requires ClosesNext(after)
    requires Open(tok) && tok.kind == Object && Closed(inner)
    requires |base| + 1 + |inner| <= max
    ensures Run(MembersText(keys, values, after), pos, base + ([tok] + inner), |base|, max)
      == Reaches(after, pos + |PrintMembers(keys, values)|,
                 base + ([tok.(size := tok.size + |values|)] + (inner + MembersToks(keys, values, pos))), |base|, max)
    decreases values, 1
  {
    hide Run, LastOpen, Toks, Text, Print, Proper, KeysAreBodies, StringBody, Reaches, Comma, TokenCount,
      IsBracketed, Open, Closed;
    var toks := base + ([tok] + inner);
    if values == [] {
      assert inner + [] == inner;
      ReachesOnly(after, pos, toks, |base|, max);
    } else {
      hide MembersToks, MembersText, PrintMembers;
      var bumped := tok.(size := tok.size + 1);
      var first := MemberToks(keys[0], values[0], pos);
      var q := pos + |keys[0]| + 3 + |Print(values[0])| + |Comma(|values|)|;
      var state := base + ([bumped] + (inner + first));
      var more := MembersToks(keys[1..], values[1..], q);
      MembersUnfold(keys, values, after, pos);
      RunFirstMember(keys, values, after, pos, base, tok, inner, max);
      OpenBumped(tok);
      assert (inner + first) + more == inner + (first + more);
      ReachesOnly(after, pos + |PrintMembers(keys, values)|,
                  base + ([tok.(size := tok.size + |values|)] + (inner + (first + more))), |base|, max);
      ReachesOnly(MembersText(keys[1..], values[1..], after), q, state, |base|, max);
      if |state| <= max {
        RunMembers(keys[1..], values[1..], after, q, base, bumped, inner + first, max);
        assert bumped.(size := bumped.size + |values[1..]|) == tok.(size := tok.size + |values|);
      }
    }
  }

  lemma OpenBumped(tok: Token)
    requires Open(tok)
    ensures Open(tok.(size := tok.size + 1))
  {
  }

  /** The tokens of one member of an object. */
  function MemberToks(key: string, value: Json, pos: nat): seq<Token> {
    [Token(Str, pos + 1, pos + 1 + |key|, 1)] + Toks(value, pos + |key| + 3)
  }

  lemma MembersUnfold(keys: seq<string>, values: seq<Json>, after: string, pos: nat)
    requires |keys| == |values| > 0
    ensures var q := pos + |keys[0]| + 3 + |Print(values[0])| + |Comma(|values|)|;
      && MembersToks(keys, values, pos) == MemberToks(keys[0], values[0], pos) + MembersToks(keys[1..], values[1..], q)
      && pos + |PrintMembers(keys, values)| == q + |PrintMembers(keys[1..], values[1..])|
    ensures MembersText(keys, values, after) == "\"" + (keys[0] + ("\":" +
      Text(values[0], Comma(|values|) + MembersText(keys[1..], values[1..], after))))
  {
    hide Toks, Text, Print, Comma;
  }

  /** The first member of an object, and the comma or the end after it. */
  lemma {:induction false} RunFirstMember(keys: seq<string>, values: seq<Json>, after: string, pos: nat,
                                          base: seq<Token>, tok: Token, inner: seq<Token>, max: nat)
    requires |keys| == |values| > 0 && AllProper(values) && AllBodies(keys) && AllKeysAreBodies(values)
    requires ClosesNext(after)
    requires Open(tok) && tok.kind == Object && Closed(inner)
    requires |base| + 1 + |inner| <= max
    ensures var first := MemberToks(keys[0], values[0], pos);
      && Closed(inner + first)
      && Run(MembersText(keys, values, after), pos, base + ([tok] + inner), |base|, max)
           == Reaches(MembersText(keys[1..], values[1..], after),
                      pos + |keys[0]| + 3 + |Print(values[0])| + |Comma(|values|)|,
                      base + ([tok.(size := tok.size + 1)] + (inner + first)), |base|, max)
    decreases values, 0
  {
    hide Run, LastOpen, Toks, Text, Print, Proper, KeysAreBodies, StringBody, Reaches, Comma, TokenCount, MembersToks;
    var rest := MembersText(keys[1..], values[1..], after);
    var bumped := tok.(size := tok.size + 1);
    var at := pos + |keys[0]| + 3;
    var first := MemberToks(keys[0], values[0], pos);
    MembersUnfold(keys, values, after, pos);
    RestCloses(keys, values, after);
    CommaFollows(|values|, rest);
    RunMember(keys[0], values[0], Comma(|values|) + rest, pos, base, tok, inner, max);
    ToksClosed(values[0], at);
    ClosedConcat(inner, first);
    AfterMember(|values|, rest, at + |Print(values[0])|, base, bumped, inner + first,
                if IsContainer(values[0]) then |base| else |base| + 1 + |inner|, max);
  }

  lemma RestCloses(keys: seq<string>, values: seq<Json>, after: string)
    requires |keys| == |values| > 0 && ClosesNext(after)
    ensures |values| == 1 ==> ClosesNext(MembersText(keys[1..], values[1..], after))
  {
  }

  lemma CommaFollows(left: nat, rest: string)
    requires left > 0 && (left == 1 ==> ClosesNext(rest))
    ensures Follows(Comma(left) + rest)
  {
    if left == 1 { assert Comma(left) + rest == rest; }
  }

  /** Between one member and the next, or the end of the object. */
  lemma AfterMember(left: nat, rest: string, pos: nat, base: seq<Token>, tok: Token, inner: seq<Token>, owner: int,
                    max: nat)
    requires left > 0 && (left == 1 ==> ClosesNext(rest))
    requires Open(tok) && IsBracketed(tok) && Closed(inner)
    requires |base| <= owner < |base| + 1 + |inner|
    requires owner == |base| || inner[owner - |base| - 1].kind == Str
    ensures Reaches(Comma(left) + rest, pos, base + ([tok] + inner), owner, max)
      == Reaches(rest, pos + |Comma(left)|, base + ([tok] + inner), |base|, max)
  {
    hide Run, LastOpen;
    var toks := base + ([tok] + inner);
    if left == 1 {
      assert Comma(left) + rest == rest;
      CloseIgnoresSuper(rest, pos, toks, owner, |base|, max);
    } else {
      RunComma(rest, pos, base, tok, inner, owner, max);
    }
  }

  lemma ReachesOnly(after: string, pos: nat, toks: seq<Token>, super: int, max: nat)
    requires -1 <= super < |toks|
    ensures |toks| <= max ==> Reaches(after, pos, toks, super, max) == Run(after, pos, toks, super, max)
    ensures |toks| > max ==> Reaches(after, pos, toks, super, max) == Failed(NoMem)
  {
  }

  lemma CloseIgnoresSuper(after: string, pos: nat, toks: seq<Token>, a: int, b: int, max: nat)
    requires ClosesNext(after)
    requires -1 <= a < |toks| && -1 <= b < |toks|
    ensures Run(after, pos, toks, a, max) == Run(after, pos, toks, b, max)
  {
    hide LastOpen, LastOpenBracketed, StringLength, PrimitiveLength;
  }

  /** A key, its colon and its value: the key belongs to the object, the value to the key. */
  lemma {:induction false} RunMember(key: string, value: Json, text: string, pos: nat,
                                     base: seq<Token>, tok: Token, inner: seq<Token>, max: nat)
    requires StringBody(key) && Proper(value) && KeysAreBodies(value) && Follows(text)
    requires Open(tok) && tok.kind == Object && Closed(inner)
    requires |base| + 1 + |inner| <= max
    ensures var toks := base + ([tok] + inner);
      var at := pos + |key| + 3;
      var first := [Token(Str, pos + 1, pos + 1 + |key|, 1)] + Toks(value, at);
      Run("\"" + (key + ("\":" + Text(value, text))), pos, toks, |base|, max)
        == Reaches(text, at + |Print(value)|,
                   base + ([tok.(size := tok.size + 1)] + (inner + first)),
                   if IsContainer(value) then |base| else |toks|, max)
    decreases value, 2
  {
    hide Run, LastOpen, Toks, Text, Print, Proper, KeysAreBodies, StringBody;
    var toks := base + ([tok] + inner);
    var at := pos + |key| + 3;
    var name := Token(Str, pos + 1, pos + 1 + |key|, 0);
    var bumped := tok.(size := tok.size + 1);
    assert "\":" + Text(value, text) == "\"" + (":" + Text(value, text));
    RunBody(key, ":" + Text(value, text), pos, toks, |base|, max);
    var keyed := base + ([bumped] + (inner + [name]));
    assert Bump(toks, |base|) + [name] == keyed;
    if |keyed| <= max {
      RunColon(Text(value, text), pos + |key| + 2, keyed, |base|, max);
      RunValue(value, text, at, keyed, |toks|, max);
      ClosedConcat(inner, [name]);
      LastOpenFindsContainer(base, bumped, inner + [name]);
      assert Bump(keyed, |toks|) == base + ([bumped] + (inner + [name.(size := 1)]));
      assert Bump(keyed, |toks|) + Toks(value, at)
          == base + ([bumped] + (inner + ([name.(size := 1)] + Toks(value, at))));
    }
  }

  lemma RunColon(s: string, pos: nat, toks: seq<Token>, super: int, max: nat)
    requires -1 <= super < |toks|
    ensures Run(":" + s, pos, toks, super, max) == Run(s, pos + 1, toks, |toks| - 1, max)
  {
    hide LastOpen, LastOpenBracketed, StringLength, PrimitiveLength;
    assert (":" + s)[1..] == s;
  }

  /** The tokenizer turns a printed value into exactly its tokens, or runs out of them. */
  lemma ParsePrinted(v: Json, max: nat)
    requires Proper(v) && KeysAreBodies(v)
    ensures Parse(Print(v), max) == if TokenCount(v) <= max then Tokens(Toks(v, 0)) else Failed(NoMem)
  {
    hide Toks, Text, Print, Proper, KeysAreBodies, TokenCount;
    TextIsPrint(v, "");
    assert Print(v) + "" == Print(v);
    RunValue(v, "", 0, [], -1, max);
    ToksClosed(v, 0);
    assert [] + Toks(v, 0) == Toks(v, 0);
    LastOpenSkipsClosed([], Toks(v, 0));
  }

  // ---------------------------------------------------------------- rebuilding

  lemma {:induction false} RebuildValue(text: string, v: Json, after: string, pos: nat, more: seq<Token>)
    requires Proper(v)
    requires pos <= |text| && text[pos..] == Text(v, after)
    ensures Build(text, Toks(v, pos) + more) == Built(AsRead(v), |Toks(v, pos)|)
    decreases v, 1
  {
    hide Text, Print, Literal, Escape;
    var toks := Toks(v, pos) + more;
    assert toks[0] == Toks(v, pos)[0];
    match v
    case JString(chars) => SpelledString(text, Escape(chars), after, pos, chars);
    case JArray(_) => RebuildArray(text, v, after, pos, more);
    case JObject(_, _) => RebuildObject(text, v, after, pos, more);
    case _ => SpelledPrimitive(text, v, after, pos);
  }

  lemma {:induction false} RebuildArray(text: string, v: Json, after: string, pos: nat, more: seq<Token>)
    requires Proper(v) && v.JArray?
    requires pos <= |text| && text[pos..] == Text(v, after)
    ensures Build(text, Toks(v, pos) + more) == Built(AsRead(v), |Toks(v, pos)|)
    decreases v, 0
  {
    hide Text, Print, ItemsToks, BuildItems;
    var toks := Toks(v, pos) + more;
    ArrayText(v, after);
    assert text[pos + 1..] == text[pos..][1..];
    RebuildItems(text, v.items, "]" + after, pos + 1, more);
    assert toks[1..] == ItemsToks(v.items, pos + 1) + more;
  }

  lemma {:induction false} RebuildObject(text: string, v: Json, after: string, pos: nat, more: seq<Token>)
    requires Proper(v) && v.JObject?
    requires pos <= |text| && text[pos..] == Text(v, after)
    ensures Build(text, Toks(v, pos) + more) == Built(AsRead(v), |Toks(v, pos)|)
    decreases v, 0
  {
    hide Text, Print, MembersToks, BuildMembers;
    var toks := Toks(v, pos) + more;
    ObjectText(v, after);
    assert text[pos + 1..] == text[pos..][1..];
    RebuildMembers(text, v.keys, v.values, "}" + after, pos + 1, more);
    assert toks[1..] == MembersToks(v.keys, v.values, pos + 1) + more;
  }

  lemma ArrayText(v: Json, after: string)
    requires v.JArray?
    ensures Text(v, after)[1..] == ItemsText(v.items, "]" + after) && Text(v, after) != ""
  {
    hide ItemsText;
  }

  lemma ObjectText(v: Json, after: string)
    requires v.JObject?
    ensures Text(v, after)[1..] == MembersText(v.keys, v.values, "}" + after) && Text(v, after) != ""
  {
    hide MembersText;
  }

  lemma SpelledString(text: string, body: string, after: string, pos: nat, chars: string)
    requires pos <= |text| && text[pos..] == Text(JString(chars), after) && body == Escape(chars)
    ensures Spelled(Token(Str, pos + 1, pos + 1 + |body|, 0), text) == body
  {
    SpelledBody(text, body, after, pos, 0);
  }

  lemma SpelledBody(text: string, body: string, after: string, pos: nat, size: nat)
    requires pos <= |text| && text[pos..] == "\"" + (body + ("\"" + after))
    ensures Spelled(Token(Str, pos + 1, pos + 1 + |body|, size), text) == body
  {
    assert text[pos + 1..pos + 1 + |body|] == text[pos..][1..1 + |body|];
  }

  lemma SpelledPrimitive(text: string, v: Json, after: string, pos: nat)
    requires Proper(v) && !v.JString? && !IsContainer(v)
    requires pos <= |text| && text[pos..] == Text(v, after)
    ensures Literal(Token(Primitive, pos, pos + |Print(v)|, 0), text) == v
  {
    var t := Print(v);
    assert Text(v, after) == t + after;
    assert text[pos..pos + |t|] == text[pos..][..|t|] == t;
    PrimitiveStart(t);
  }

  lemma {:induction false} RebuildItems(text: string, items: seq<Json>, after: string, pos: nat, more: seq<Token>)
    requires AllProper(items)
    requires pos <= |text| && text[pos..] == ItemsText(items, after)
    ensures BuildItems(text, ItemsToks(items, pos) + more, |items|) == Built(AllAsRead(items), |ItemsToks(items, pos)|)
    decreases items, 0
  {
    hide Text, Print, Proper, Toks, Build, AsRead;
    if items == [] {
      assert ItemsToks(items, pos) + more == more;
    } else {
      var rest := Comma(|items|) + ItemsText(items[1..], after);
      var first := Toks(items[0], pos);
      var q := pos + |Print(items[0])| + |Comma(|items|)|;
      var tail := ItemsToks(items[1..], q) + more;
      assert ItemsToks(items, pos) + more == first + tail;
      TextIsPrint(items[0], rest);
      assert text[q..] == text[pos..][q - pos..] == ItemsText(items[1..], after);
      RebuildValue(text, items[0], rest, pos, tail);
      RebuildItems(text, items[1..], after, q, more);
      assert (first + tail)[|first|..] == tail;
    }
  }

  lemma {:induction false} RebuildMembers(text: string, keys: seq<string>, values: seq<Json>, after: string,
                                          pos: nat, more: seq<Token>)
    requires |keys| == |values| && AllProper(values)
    requires pos <= |text| && text[pos..] == MembersText(keys, values, after)
    ensures BuildMembers(text, MembersToks(keys, values, pos) + more, |values|)
      == Built((keys, AllAsRead(values)), |MembersToks(keys, values, pos)|)
    decreases values, 1
  {
    hide *;
    if values == [] {
      NoMembersLeft(text, keys, values, pos, more);
    } else {
      RestProper(values);
      var q := pos + |keys[0]| + 3 + |Print(values[0])| + |Comma(|values|)|;
      var used := |Toks(values[0], pos + |keys[0]| + 3)|;
      var rest := MembersToks(keys[1..], values[1..], q);
      MembersApart(text, keys, values, after, pos, more);
      RebuildMembers(text, keys[1..], values[1..], after, q, more);
      BuildMembersStep(text, MembersToks(keys, values, pos) + more, keys, values, used, |rest|);
    }
  }

  lemma NoMembersLeft(text: string, keys: seq<string>, values: seq<Json>, pos: nat, more: seq<Token>)
    requires keys == [] && values == []
    ensures BuildMembers(text, MembersToks(keys, values, pos) + more, |values|)
      == Built((keys, AllAsRead(values)), |MembersToks(keys, values, pos)|)
  {
    assert MembersToks(keys, values, pos) + more == more;
  }

  lemma RestProper(values: seq<Json>)
    requires AllProper(values) && values != []
    ensures AllProper(values[1..])
  {
  }

  /** The first member of what is to be rebuilt, and the rest of it. */
  lemma {:induction false} MembersApart(text: string, keys: seq<string>, values: seq<Json>, after: string, pos: nat,
                                        more: seq<Token>)
    requires |keys| == |values| > 0 && AllProper(values)
    requires pos <= |text| && text[pos..] == MembersText(keys, values, after)
    ensures var q := pos + |keys[0]| + 3 + |Print(values[0])| + |Comma(|values|)|;
      var used := |Toks(values[0], pos + |keys[0]| + 3)|;
      var rest := MembersToks(keys[1..], values[1..], q);
      var toks := MembersToks(keys, values, pos) + more;
      && q <= |text| && text[q..] == MembersText(keys[1..], values[1..], after)
      && |MembersToks(keys, values, pos)| == 1 + used + |rest| && |toks| > used && toks[1 + used..] == rest + more
      && Build(text, toks) == Built(JString(keys[0]), 1)
      && Build(text, toks[1..]) == Built(AsRead(values[0]), used)
    decreases values, 0, 1
  {
    hide Text, Print, Proper, Toks, AsRead, Build, MembersText, MembersToks, PrintMembers, Comma, Escape;
    var q := pos + |keys[0]| + 3 + |Print(values[0])| + |Comma(|values|)|;
    MembersToksShape(keys, values, pos, more);
    RebuildFirstMember(text, keys, values, after, pos, MembersToks(keys[1..], values[1..], q) + more);
  }

  lemma MembersToksShape(keys: seq<string>, values: seq<Json>, pos: nat, more: seq<Token>)
    requires |keys| == |values| > 0
    ensures var name := Token(Str, pos + 1, pos + 1 + |keys[0]|, 1);
      var first := Toks(values[0], pos + |keys[0]| + 3);
      var rest := MembersToks(keys[1..], values[1..], pos + |keys[0]| + 3 + |Print(values[0])| + |Comma(|values|)|);
      && MembersToks(keys, values, pos) + more == [name] + (first + (rest + more))
      && |MembersToks(keys, values, pos)| == 1 + |first| + |rest|
  {
    hide Toks, Text, Print, MembersToks, MembersText, PrintMembers, Comma;
    var name := Token(Str, pos + 1, pos + 1 + |keys[0]|, 1);
    var first := Toks(values[0], pos + |keys[0]| + 3);
    var rest := MembersToks(keys[1..], values[1..], pos + |keys[0]| + 3 + |Print(values[0])| + |Comma(|values|)|);
    MembersUnfold(keys, values, "", pos);
    Reassociate([name], first, rest, more);
  }

  lemma Reassociate<T>(a: seq<T>, b: seq<T>, c: seq<T>, d: seq<T>)
    ensures ((a + b) + c) + d == a + (b + (c + d))
  {
  }

  lemma BuildMembersStep(text: string, toks: seq<Token>, keys: seq<string>, values: seq<Json>, used: nat, more: nat)
    requires |keys| == |values| > 0 && |toks| > used
    requires Build(text, toks) == Built(JString(keys[0]), 1)
    requires Build(text, toks[1..]) == Built(AsRead(values[0]), used)
    requires BuildMembers(text, toks[1 + used..], |values[1..]|) == Built((keys[1..], AllAsRead(values[1..])), more)
    ensures BuildMembers(text, toks, |values|) == Built((keys, AllAsRead(values)), 1 + used + more)
  {
    hide Build, AsRead;
    assert keys == [keys[0]] + keys[1..];
    assert AllAsRead(values) == [AsRead(values[0])] + AllAsRead(values[1..]);
  }

  /** The first member: its key, its value, and what is left of text and tokens. */
  lemma {:induction false} RebuildFirstMember(text: string, keys: seq<string>, values: seq<Json>, after: string,
                                              pos: nat, tail: seq<Token>)
    requires |keys| == |values| > 0 && AllProper(values)
    requires pos <= |text| && text[pos..] == MembersText(keys, values, after)
    ensures var first := Toks(values[0], pos + |keys[0]| + 3);
      var toks := [Token(Str, pos + 1, pos + 1 + |keys[0]|, 1)] + (first + tail);
      && Build(text, toks) == Built(JString(keys[0]), 1)
      && Build(text, toks[1..]) == Built(AsRead(values[0]), |first|)
      && toks[1..][|first|..] == tail && toks[1 + |first|..] == tail
    ensures var q := pos + |keys[0]| + 3 + |Print(values[0])| + |Comma(|values|)|;
      q <= |text| && text[q..] == MembersText(keys[1..], values[1..], after)
    decreases values, 0, 0
  {
    hide Text, Print, Proper, Toks, AsRead, Literal, MembersText, MembersToks, PrintMembers, BuildItems, BuildMembers;
    var key := keys[0];
    var at := pos + |key| + 3;
    var rest := Comma(|values|) + MembersText(keys[1..], values[1..], after);
    var name := Token(Str, pos + 1, pos + 1 + |key|, 1);
    var first := Toks(values[0], at);
    var q := at + |Print(values[0])| + |Comma(|values|)|;
    MembersUnfold(keys, values, after, pos);
    var body := Text(values[0], rest);
    assert "\":" + body == "\"" + (":" + body);
    SpelledBody(text, key, ":" + body, pos, 1);
    Peel(text, pos, "\"" + (key + "\":"), body);
    assert "\"" + (key + ("\":" + body)) == ("\"" + (key + "\":")) + body;
    TextIsPrint(values[0], rest);
    Peel(text, at, Print(values[0]) + Comma(|values|), MembersText(keys[1..], values[1..], after));
    assert Print(values[0]) + rest == (Print(values[0]) + Comma(|values|)) + MembersText(keys[1..], values[1..], after);
    RebuildValue(text, values[0], rest, at, tail);
    var toks := [name] + (first + tail);
    assert toks[1..] == first + tail;
  }

  /** What follows a piece of the text. */
  lemma Peel(text: string, pos: nat, piece: string, rest: string)
    requires pos <= |text|
    ensures text[pos..] == piece + rest ==> pos + |piece| <= |text| && text[pos + |piece|..] == rest
  {
    if text[pos..] == piece + rest { assert text[pos + |piece|..] == text[pos..][|piece|..]; }
  }

  // ---------------------------------------------------------------- the round trip

  /** A printed value decodes to itself with its string values as printed, as long as
      its tokens fit the token list; otherwise it is refused. */
  lemma DecodePrinted(v: Json)
    requires Proper(v) && KeysAreBodies(v)
    ensures Decode(Print(v)) == if TokenCount(v) <= TOKENLIST_SIZE then Value(AsRead(v)) else BadMessage
  {
    hide Toks, Text, Print, Proper, KeysAreBodies, TokenCount, Parse, AsRead, Build;
    ParsePrinted(v, TOKENLIST_SIZE);
    TextIsPrint(v, "");
    assert Print(v)[0..] == Print(v) + "";
    RebuildValue(Print(v), v, "", 0, []);
    assert Toks(v, 0) + [] == Toks(v, 0);
  }

  /** No string value needs an escape. */
  predicate Unescaped(v: Json) {
    match v
    case JString(chars) => NoEscapes(chars)
    case JArray(items) => AllUnescaped(items)
    case JObject(_, values) => AllUnescaped(values)
    case _ => true
  }

  predicate AllUnescaped(items: seq<Json>) {
    items == [] || (Unescaped(items[0]) && AllUnescaped(items[1..]))
  }

  lemma {:induction false} AsReadIsIdentityIffUnescaped(v: Json)
    ensures AsRead(v) == v <==> Unescaped(v)
    decreases v, 0
  {
    match v
    case JString(chars) => EscapeLength(chars);
    case JArray(items) => AllAsReadIsIdentityIff(items);
    case JObject(_, values) => AllAsReadIsIdentityIff(values);
    case _ =>
  }

  lemma {:induction false} AllAsReadIsIdentityIff(items: seq<Json>)
    ensures AllAsRead(items) == items <==> AllUnescaped(items)
    decreases items, 0
  {
    if items != [] {
      AsReadIsIdentityIffUnescaped(items[0]);
      AllAsReadIsIdentityIff(items[1..]);
      assert items == [items[0]] + items[1..];
      assert AllAsRead(items)[0] == AsRead(items[0]) && AllAsRead(items)[1..] == AllAsRead(items[1..]);
    }
  }

  /** Every string of a value, keys included, is the body of a JSON string. */
  predicate AllStringsAreBodies(v: Json) {
    match v
    case JString(chars) => StringBody(chars)
    case JArray(items) => AllOfThemAreBodies(items)
    case JObject(keys, values) => AllBodies(keys) && AllOfThemAreBodies(values)
    case _ => true
  }

  predicate AllOfThemAreBodies(items: seq<Json>) {
    items == [] || (AllStringsAreBodies(items[0]) && AllOfThemAreBodies(items[1..]))
  }

  lemma {:induction false} BuiltStringsAreBodies(text: string, toks: seq<Token>)
    requires AllSpan(text, toks, |text|)
    ensures Build(text, toks).Built? ==> AllStringsAreBodies(Build(text, toks).value)
    decreases |toks|, 0
  {
    hide StringBody, Literal;
    if toks != [] {
      var t := toks[0];
      assert Spans(text, t, |text|);
      match t.kind
      case Array => BuiltItemsAreBodies(text, toks[1..], t.size);
      case Object => BuiltMembersAreBodies(text, toks[1..], t.size);
      case Primitive => LiteralIsNoString(t, text);
      case _ =>
    }
  }

  lemma LiteralIsNoString(t: Token, text: string)
    ensures var v := Literal(t, text); !v.JString? && !IsContainer(v)
  {
  }

  lemma {:induction false} BuiltItemsAreBodies(text: string, toks: seq<Token>, n: nat)
    requires AllSpan(text, toks, |text|)
    ensures BuildItems(text, toks, n).Built? ==> AllOfThemAreBodies(BuildItems(text, toks, n).value)
    decreases |toks|, n + 1
  {
    hide Build, StringBody, Spans;
    if n > 0 {
      var first := Build(text, toks);
      BuiltStringsAreBodies(text, toks);
      if first.Built? { BuiltItemsAreBodies(text, toks[first.used..], n - 1); }
    }
  }

  lemma {:induction false} BuiltMembersAreBodies(text: string, toks: seq<Token>, n: nat)
    requires AllSpan(text, toks, |text|)
    ensures var r := BuildMembers(text, toks, n);
      r.Built? ==> AllBodies(r.value.0) && AllOfThemAreBodies(r.value.1)
    decreases |toks|, n + 1
  {
    hide Build, StringBody, Spans;
    if n > 0 {
      var key := Build(text, toks);
      BuiltStringsAreBodies(text, toks);
      if key.Built? {
        var value := Build(text, toks[key.used..]);
        BuiltStringsAreBodies(text, toks[key.used..]);
        if value.Built? { BuiltMembersAreBodies(text, toks[key.used + value.used..], n - 1); }
      }
    }
  }

  lemma {:induction false} BodiesIncludeKeys(v: Json)
    requires AllStringsAreBodies(v)
    ensures KeysAreBodies(v)
    decreases v, 0
  {
    match v
    case JArray(items) => AllBodiesIncludeKeys(items);
    case JObject(_, values) => AllBodiesIncludeKeys(values);
    case _ =>
  }

  lemma {:induction false} AllBodiesIncludeKeys(items: seq<Json>)
    requires AllOfThemAreBodies(items)
    ensures AllKeysAreBodies(items)
    decreases items, 0
  {
    if items != [] {
      BodiesIncludeKeys(items[0]);
      AllBodiesIncludeKeys(items[1..]);
    }
  }

  /** Print then decode is the identity exactly on the values whose keys are bodies of
      JSON strings, whose strings need no escape, and whose tokens fit the list. */
  lemma RoundTripIff(v: Json)
    requires Proper(v)
    ensures Decode(Print(v)) == Value(v)
      <==> KeysAreBodies(v) && Unescaped(v) && TokenCount(v) <= TOKENLIST_SIZE
  {
    hide Print, Proper, KeysAreBodies, Unescaped, TokenCount, AsRead, Parse, Build, AllStringsAreBodies, Spans;
    AsReadIsIdentityIffUnescaped(v);
    if KeysAreBodies(v) {
      DecodePrinted(v);
    } else if Decode(Print(v)) == Value(v) {
      ParseStructure(Print(v), TOKENLIST_SIZE);
      BuiltStringsAreBodies(Print(v), Parse(Print(v), TOKENLIST_SIZE).toks);
      BodiesIncludeKeys(v);
    }
  }

  /** A quote and a tab print alike, and are read back as neither. */
  lemma QuoteAndTabPrintAlike()
    ensures Print(JString("\"")) == Print(JString("\t")) == "\"\\t\""
    ensures Decode(Print(JString("\""))) == Value(JString("\\t"))
  {
    assert Escape("\"") == EscapeChar('\"') + Escape("") && Escape("\t") == EscapeChar('\t') + Escape("");
    assert AsRead(JString("\"")) == JString("\\t") && TokenCount(JString("\"")) == 1;
    assert Proper(JString("\"")) && KeysAreBodies(JString("\""));
    hide Decode, Print, AsRead;
    DecodePrinted(JString("\""));
  }

  // ---------------------------------------------------------------- method calls

  datatype Call = Call(name: Json, args: Json) | NoCall | CallPastList

  /** A method call as encoded: an object of a method name and its arguments. */
  function CallObject(name: string, args: Json): Json {
    JObject(["method", "args"], [JString(name), args])
  }

  /** The decoder walks the keys; any it does not know refuses the message. */
  function CallOf(keys: seq<string>, values: seq<Json>, sofar: Call): Call
    requires |keys| == |values| && sofar.Call?
    decreases |keys|
  {
    if keys == [] then sofar
    else if keys[0] == "method" && values[0].JString? then CallOf(keys[1..], values[1..], sofar.(name := values[0]))
    else if keys[0] == "args" then CallOf(keys[1..], values[1..], sofar.(args := values[0]))
    else NoCall
  }

  predicate IsLast(keys: seq<string>, key: string, i: nat) {
    i < |keys| && keys[i] == key && key !in keys[i + 1..]
  }

  /** The keys of a call are "method", each with a string, and "args", in any order and any
      number; the last of each counts, and what does not occur stays as it was. */
  lemma {:induction false} CallOfIff(keys: seq<string>, values: seq<Json>, sofar: Call)
    requires |keys| == |values| && sofar.Call?
    ensures var r := CallOf(keys, values, sofar);
      && (r.Call? <==> forall i | 0 <= i < |keys| :: keys[i] == "args" || (keys[i] == "method" && values[i].JString?))
      && (r.Call? ==>
            && (forall i: nat | IsLast(keys, "method", i) :: r.name == values[i])
            && (forall i: nat | IsLast(keys, "args", i) :: r.args == values[i])
            && ("method" !in keys ==> r.name == sofar.name) && ("args" !in keys ==> r.args == sofar.args))
      && !r.CallPastList?
    decreases |keys|
  {
    if keys != [] {
      assert "args" != "method" by { assert |"args"| != |"method"|; }
      var next := if keys[0] == "method" then sofar.(name := values[0]) else sofar.(args := values[0]);
      assert keys == [keys[0]] + keys[1..];
      CallOfIff(keys[1..], values[1..], next);
      assert forall i | 0 < i < |keys| :: keys[i] == keys[1..][i - 1] && values[i] == values[1..][i - 1];
      forall i: nat, key | i > 0 && IsLast(keys, key, i) ensures IsLast(keys[1..], key, i - 1) {
        assert keys[i + 1..] == keys[1..][i..];
      }
      assert forall key | IsLast(keys, key, 0) :: key !in keys[1..];
    }
  }

  /** What the caller's structure holds before decoding is what it keeps for a key that
      does not occur. */
  function DecodeCall(text: string, before: Call): Call
    requires before.Call?
  {
    match Decode(text)
    case BadMessage => NoCall
    case PastList => CallPastList
    case Value(v) =>
      if v.JObject? && |v.keys| == |v.values| then CallOf(v.keys, v.values, before) else NoCall
  }

  lemma CallRoundTrip(name: string, args: Json, before: Call)
    requires before.Call? && NUL !in name && Proper(args) && KeysAreBodies(args)
    ensures DecodeCall(Print(CallObject(name, args)), before) ==
      if TokenCount(args) + 4 <= TOKENLIST_SIZE then Call(JString(Escape(name)), AsRead(args)) else NoCall
  {
    hide Print, Escape, Decode, StringBody;
    var v := CallObject(name, args);
    assert v.values[1..] == [args] && v.values[1..][1..] == [];
    assert v.keys[1..] == ["args"] && v.keys[1..][1..] == [];
    BodyOfWord("method");
    BodyOfWord("args");
    PairOfValues(v.values, JString(name), args);
    assert AllBodies(["args"]) && AllKeysProper(["args"]);
    assert AllBodies(v.keys) && AllKeysProper(v.keys);
    DecodePrinted(v);
    var r := [JString(Escape(name)), AsRead(args)];
    assert r[1..] == [AsRead(args)];
    assert "args" != "method";
  }

  lemma PairOfValues(items: seq<Json>, a: Json, b: Json)
    requires items == [a, b]
    ensures AllProper(items) == (Proper(a) && Proper(b))
    ensures AllKeysAreBodies(items) == (KeysAreBodies(a) && KeysAreBodies(b))
    ensures TokenCounts(items) == TokenCount(a) + TokenCount(b)
    ensures AllAsRead(items) == [AsRead(a), AsRead(b)]
  {
    hide Proper, KeysAreBodies, TokenCount, AsRead;
    var tail, none := items[1..], items[2..];
    assert none == [] && tail[1..] == none && tail[0] == b;
    assert AllProper(tail) == Proper(b) && AllKeysAreBodies(tail) == KeysAreBodies(b);
    assert TokenCounts(none) == 0;
    assert TokenCounts(tail) == TokenCount(b);
    assert AllAsRead(tail) == [AsRead(b)];
  }

  lemma {:induction false} BodyOfWord(s: string)
    requires forall i | 0 <= i < |s| :: 'a' <= s[i] <= 'z'
    ensures StringBody(s) && NUL !in s
    decreases |s|
  {
    if s != "" { BodyOfWord(s[1..]); }
  }
}
