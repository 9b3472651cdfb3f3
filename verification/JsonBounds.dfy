/**
 * When decoding writes behind the message. The reader puts a terminator at the end of a
 * number while it converts it; in a buffer of exactly the message's size there is no such
 * place for a number that ends the message.
 */
module JsonBounds {
  import opened Jsmn
  import opened Json
  import JsonTokens
  import JsonRoundTrip

  /** A token that is read as a number and ends with the text. */
  predicate NumberAtEnd(text: string, t: Token) {
    t.kind == Primitive && t.end == |text| && Literal(t, text).JNumber?
  }

  predicate EndsInNumber(text: string, toks: seq<Token>) {
    toks != [] && NumberAtEnd(text, toks[|toks| - 1])
  }

  function Front(toks: seq<Token>): seq<Token>
    requires toks != []
  {
    toks[..|toks| - 1]
  }

  /** The last token is such a number, and rebuilding comes to it: it runs out of tokens
      without it. */
  predicate Hits(text: string, toks: seq<Token>) {
    EndsInNumber(text, toks) && Build(text, Front(toks)).Wanting?
  }

  predicate HitsItems(text: string, toks: seq<Token>, n: nat) {
    EndsInNumber(text, toks) && BuildItems(text, Front(toks), n).Wanting?
  }

  predicate HitsMembers(text: string, toks: seq<Token>, n: nat) {
    EndsInNumber(text, toks) && BuildMembers(text, Front(toks), n).Wanting?
  }

  /** Decoding this text in a buffer of its own size writes behind it. */
  predicate WritesOutside(text: string) {
    match Parse(text, TOKENLIST_SIZE)
    case Failed(_) => false
    case Tokens(toks) => Hits(text, toks)
  }

  // ---------------------------------------------------------------- along the recursion

  /** Unless rebuilding ran out of tokens, one more changes nothing. */
  lemma {:induction false} BuildIgnoresLater(text: string, toks: seq<Token>, t: Token)
    requires !Build(text, toks).Wanting?
    ensures Build(text, toks + [t]) == Build(text, toks)
    decreases |toks|, 0
  {
    hide BuildItems, BuildMembers, Literal, Spelled;
    var head := toks[0];
    assert (toks + [t])[1..] == toks[1..] + [t];
    if head.kind == Array {
      ItemsIgnoreLater(text, toks[1..], head.size, t);
    } else if head.kind == Object {
      MembersIgnoreLater(text, toks[1..], head.size, t);
    }
  }

  lemma {:induction false} ItemsIgnoreLater(text: string, toks: seq<Token>, n: nat, t: Token)
    requires !BuildItems(text, toks, n).Wanting?
    ensures BuildItems(text, toks + [t], n) == BuildItems(text, toks, n)
    decreases |toks|, n + 1
  {
    hide Build;
    if n > 0 {
      BuildIgnoresLater(text, toks, t);
      var first := Build(text, toks);
      if first.Built? {
        assert (toks + [t])[first.used..] == toks[first.used..] + [t];
        ItemsIgnoreLater(text, toks[first.used..], n - 1, t);
      }
    }
  }

  lemma {:induction false} MembersIgnoreLater(text: string, toks: seq<Token>, n: nat, t: Token)
    requires !BuildMembers(text, toks, n).Wanting?
    ensures BuildMembers(text, toks + [t], n) == BuildMembers(text, toks, n)
    decreases |toks|, n + 1
  {
    hide Build;
    if n > 0 {
      BuildIgnoresLater(text, toks, t);
      var key := Build(text, toks);
      if key.Built? && key.value.JString? {
        var rest := toks[key.used..];
        assert (toks + [t])[key.used..] == rest + [t];
        BuildIgnoresLater(text, rest, t);
        var value := Build(text, rest);
        if value.Built? {
          assert (toks + [t])[key.used + value.used..] == toks[key.used + value.used..] + [t];
          MembersIgnoreLater(text, toks[key.used + value.used..], n - 1, t);
        }
      }
    }
  }

  lemma HitsToken(text: string, toks: seq<Token>)
    requires toks != []
    ensures var t, rest := toks[0], toks[1..];
      Hits(text, toks) ==
        match t.kind
        case Primitive => rest == [] && NumberAtEnd(text, t)
        case Array => HitsItems(text, rest, t.size)
        case Object => HitsMembers(text, rest, t.size)
        case _ => false
  {
    hide BuildItems, BuildMembers, NumberAtEnd, Literal, Spelled;
    NumberIsPrimitive(text, toks[0]);
    if |toks| > 1 {
      assert Front(toks)[0] == toks[0] && Front(toks)[1..] == Front(toks[1..]);
      assert toks[1..][|toks| - 2] == toks[|toks| - 1];
    } else {
      assert Front(toks) == [];
    }
  }

  lemma NothingHits(text: string)
    ensures !Hits(text, [])
  {
  }

  /** A string is not what a text ends in with a number. */
  lemma StringNeverHits(text: string, toks: seq<Token>)
    requires Build(text, toks).Built? && Build(text, toks).value.JString?
    ensures !Hits(text, toks)
  {
    hide NumberAtEnd, HitsItems, HitsMembers, Hits, Spelled;
    HitsToken(text, toks);
  }

  lemma NumberIsPrimitive(text: string, t: Token)
    ensures NumberAtEnd(text, t) ==> t.kind == Primitive
  {
  }

  /** What is left of the tokens ends as they do. */
  lemma SameEnd(text: string, toks: seq<Token>, used: nat)
    requires used <= |toks|
    ensures used == |toks| ==> !EndsInNumber(text, toks[used..])
    ensures used < |toks| ==> EndsInNumber(text, toks[used..]) == EndsInNumber(text, toks)
    ensures used < |toks| ==> Front(toks[used..]) == Front(toks)[used..]
  {
    hide NumberAtEnd;
  }

  /** After a value that the last token was not wanted for. */
  lemma HitsOrBuilt(text: string, toks: seq<Token>)
    requires EndsInNumber(text, toks) && !Hits(text, toks)
    ensures Build(text, Front(toks)) == Build(text, toks)
    ensures Build(text, toks).Built? ==> Build(text, toks).used < |toks|
  {
    hide Build, NumberAtEnd;
    assert toks == Front(toks) + [toks[|toks| - 1]];
    BuildIgnoresLater(text, Front(toks), toks[|toks| - 1]);
  }

  lemma HitsItem(text: string, toks: seq<Token>, n: nat)
    ensures !HitsItems(text, toks, 0)
    ensures n > 0 ==>
      HitsItems(text, toks, n) ==
        (|| Hits(text, toks)
         || (Build(text, toks).Built? && HitsItems(text, toks[Build(text, toks).used..], n - 1)))
  {
    hide Build, NumberAtEnd;
    var first := Build(text, toks);
    if n > 0 && EndsInNumber(text, toks) {
      if Hits(text, toks) {
      } else {
        HitsOrBuilt(text, toks);
        if first.Built? { SameEnd(text, toks, first.used); }
      }
    } else if n > 0 && first.Built? {
      SameEnd(text, toks, first.used);
    }
  }

  /** After a key that the last token was not wanted for. */
  lemma HitsValue(text: string, toks: seq<Token>, n: nat)
    requires n > 0 && EndsInNumber(text, toks) && !Hits(text, toks)
    requires var key := Build(text, toks); key.Built? && key.value.JString?
    ensures var rest := toks[Build(text, toks).used..];
      var value := Build(text, rest);
      HitsMembers(text, toks, n) ==
        (Hits(text, rest) || (value.Built? && HitsMembers(text, rest[value.used..], n - 1)))
  {
    hide Build, NumberAtEnd, EndsInNumber;
    var used := Build(text, toks).used;
    var rest := toks[used..];
    var value := Build(text, rest);
    HitsOrBuilt(text, toks);
    SameEnd(text, toks, used);
    if !Hits(text, rest) {
      HitsOrBuilt(text, rest);
      if value.Built? {
        SameEnd(text, rest, value.used);
        assert Front(toks)[used..][value.used..] == Front(toks)[used + value.used..];
      }
    }
  }

  lemma HitsMember(text: string, toks: seq<Token>, n: nat)
    ensures !HitsMembers(text, toks, 0)
    ensures n > 0 ==>
      HitsMembers(text, toks, n) ==
        var key := Build(text, toks);
        || Hits(text, toks)
        || (&& key.Built? && key.value.JString?
            && var rest := toks[key.used..];
               var value := Build(text, rest);
               Hits(text, rest) || (value.Built? && HitsMembers(text, rest[value.used..], n - 1)))
  {
    hide Build, NumberAtEnd, EndsInNumber;
    var key := Build(text, toks);
    if n > 0 && !Hits(text, toks) {
      if !EndsInNumber(text, toks) {
        if key.Built? {
          var rest := toks[key.used..];
          SameEnd(text, toks, key.used);
          if Build(text, rest).Built? { SameEnd(text, rest, Build(text, rest).used); }
        }
      } else if key.Built? && key.value.JString? {
        HitsValue(text, toks, n);
      } else {
        HitsOrBuilt(text, toks);
      }
    }
  }

  // ---------------------------------------------------------------- texts

  /** A caller can tell beforehand, in one pass over the tokens: the last one is a number
      that ends the text, and the pass over the others wants one more. */
  lemma WritesOutsideIff(text: string)
    ensures WritesOutside(text) <==>
      && Parse(text, TOKENLIST_SIZE).Tokens?
      && var toks := Parse(text, TOKENLIST_SIZE).toks;
         EndsInNumber(text, toks) && JsonTokens.Scan(Front(toks), [JsonTokens.AValue]).RunsOut?
  {
    hide Parse, Build, JsonTokens.Scan, NumberAtEnd;
    if Parse(text, TOKENLIST_SIZE).Tokens? && EndsInNumber(text, Parse(text, TOKENLIST_SIZE).toks) {
      var front := Front(Parse(text, TOKENLIST_SIZE).toks);
      JsonTokens.ScanIsBuild(text, front, []);
      assert [JsonTokens.AValue] + [] == [JsonTokens.AValue];
      JsonTokens.NothingWanted(text, front);
    }
  }

  lemma {:induction false} NoDelimiters(s: string, i: nat)
    requires PrimitiveLength(s).At? && i < PrimitiveLength(s).n
    ensures !EndsPrimitive(s[i])
  {
    if i > 0 { NoDelimiters(s[1..], i - 1); }
  }

  /** No primitive ends with a character that ends one. */
  ghost predicate CleanEnds(text: string, toks: seq<Token>) {
    forall i | 0 <= i < |toks| ::
      toks[i].kind == Primitive ==> 0 < toks[i].end <= |text| && !EndsPrimitive(text[toks[i].end - 1])
  }

  lemma StepKeepsEnds(text: string, s: string, pos: nat, toks: seq<Token>, super: int, max: nat)
    requires pos <= |text| && s == text[pos..] && !AtEnd(s)
    requires -1 <= super < |toks| && CleanEnds(text, toks)
    ensures var r := Next(s, pos, toks, super, max); r.Go? ==> CleanEnds(text, r.toks)
  {
    hide StringLength, PrimitiveLength, LastOpenBracketed, LastOpen;
    var c := s[0];
    var r := Next(s, pos, toks, super, max);
    if r.Go? {
      if c == '}' || c == ']' {
        var i := LastOpen(toks, |toks|);
        assert forall k | 0 <= k < |toks| && k != i :: r.toks[k] == toks[k];
      } else if c != '{' && c != '[' && c != '\"' && !EndsPrimitive(c) {
        NoDelimiters(s, r.used - 1);
        assert text[pos + r.used - 1] == s[r.used - 1];
      }
    }
  }

  lemma {:induction false} RunKeepsEnds(text: string, s: string, pos: nat, toks: seq<Token>, super: int, max: nat)
    requires pos <= |text| && s == text[pos..]
    requires -1 <= super < |toks| && CleanEnds(text, toks)
    ensures var r := Run(s, pos, toks, super, max); r.Tokens? ==> CleanEnds(text, r.toks)
    decreases |s|
  {
    hide CleanEnds, Next, LastOpen;
    if !AtEnd(s) {
      var r := Next(s, pos, toks, super, max);
      StepKeepsEnds(text, s, pos, toks, super, max);
      if r.Go? {
        assert s[r.used..] == text[pos + r.used..];
        RunKeepsEnds(text, s[r.used..], pos + r.used, r.toks, r.super, max);
      }
    }
  }

  /** A text that ends in a bracket, a comma, a colon or white space never does. */
  lemma LastCharacterRulesOut(text: string)
    requires text != "" && EndsPrimitive(text[|text| - 1])
    ensures !WritesOutside(text)
  {
    hide Run, Build, EndsPrimitive;
    assert text[0..] == text;
    RunKeepsEnds(text, text, 0, [], -1, TOKENLIST_SIZE);
  }

  /** Of what is printed, exactly a number by itself does. */
  lemma PrintedWritesOutsideIff(v: Json)
    requires Proper(v)
    ensures WritesOutside(Print(v)) <==> v.JNumber?
  {
    if v.JArray? || v.JObject? {
      hide WritesOutside, PrintItems, PrintMembers;
      LastCharacterRulesOut(Print(v));
    } else {
      hide Run;
      JsonRoundTrip.ParsePrinted(v, TOKENLIST_SIZE);
      var text := Print(v);
      var toks := JsonRoundTrip.Toks(v, 0);
      assert |toks| == 1 && Front(toks) == [];
      if toks[0].kind == Primitive { assert Spelled(toks[0], text) == text; }
    }
  }

  // ---------------------------------------------------------------- three texts

  lemma OneDigit()
    ensures PrimitiveLength("5") == At(1)
  {
    assert "5"[1..] == "";
  }

  /** A digit by itself. */
  lemma NumberWritesOutside()
    ensures WritesOutside("5") && Decode("5") == Value(JNumber("5"))
  {
    hide WritesOutside, Decode;
    assert "5"[1..] == "";
    PrintedWritesOutsideIff(JNumber("5"));
    JsonRoundTrip.DecodePrinted(JNumber("5"));
  }

  /** A text that ends in a number which its array has for an item, behind it. */
  lemma LateItemWritesOutside()
    ensures WritesOutside("[]:5") && Decode("[]:5") == Value(JArray([JNumber("5")]))
  {
    hide Run, Next;
    var text := "[]:5";
    var open, shut := Token(Array, 0, -1, 0), Token(Array, 0, 2, 0);
    var five := Token(Primitive, 3, 4, 0);
    assert text[1..] == "]:5" && "]:5"[1..] == ":5" && ":5"[1..] == "5" && "5"[1..] == "";
    LateItemTurns();
    RunTurn(text, 0, [], -1, TOKENLIST_SIZE);
    RunTurn("]:5", 1, [open], 0, TOKENLIST_SIZE);
    RunTurn(":5", 2, [shut], -1, TOKENLIST_SIZE);
    RunTurn("5", 3, [shut], 0, TOKENLIST_SIZE);
    var toks := [shut.(size := 1), five];
    RunEnd("", 4, toks, 0, TOKENLIST_SIZE);
    assert LastOpen(toks, 2) == -1 by { assert LastOpen(toks, 1) == -1; }
    assert Parse(text, TOKENLIST_SIZE) == Tokens(toks);
    assert Spelled(five, text) == "5";
    assert Front(toks) == [toks[0]] && [toks[0]][1..] == [] && toks[1..] == [five] && [five][1..] == [];
    assert Build(text, [five]) == Built(JNumber("5"), 1);
    assert BuildItems(text, [], 0) == Built([], 0);
    assert [JNumber("5")] + [] == [JNumber("5")];
    assert BuildItems(text, [five], 1) == Built([JNumber("5")], 1);
    assert Build(text, toks) == Built(JArray([JNumber("5")]), 2);
    assert BuildItems(text, [], 1) == Wanting;
  }

  lemma LateItemTurns()
    ensures var open, shut := Token(Array, 0, -1, 0), Token(Array, 0, 2, 0);
      && Next("[]:5", 0, [], -1, TOKENLIST_SIZE) == Go(1, [open], 0)
      && Next("]:5", 1, [open], 0, TOKENLIST_SIZE) == Go(1, [shut], -1)
      && Next(":5", 2, [shut], -1, TOKENLIST_SIZE) == Go(1, [shut], 0)
      && Next("5", 3, [shut], 0, TOKENLIST_SIZE) == Go(1, [shut.(size := 1), Token(Primitive, 3, 4, 0)], 0)
  {
    var open, shut := Token(Array, 0, -1, 0), Token(Array, 0, 2, 0);
    OneDigit();
    assert LastOpen([open], 1) == 0;
    assert [open][0 := shut] == [shut];
    assert LastOpen([shut], 1) == -1;
  }

  /** A text that ends in a number which is not rebuilt. */
  lemma UnreadNumberStaysInside()
    ensures !WritesOutside("\"a\" 5") && Decode("\"a\" 5") == Value(JString("a"))
  {
    hide Run, Next;
    var text := "\"a\" 5";
    var name, five := Token(Str, 1, 2, 0), Token(Primitive, 4, 5, 0);
    assert text[3..] == " 5" && " 5"[1..] == "5" && "5"[1..] == "";
    UnreadTurns();
    RunTurn(text, 0, [], -1, TOKENLIST_SIZE);
    RunTurn(" 5", 3, [name], -1, TOKENLIST_SIZE);
    RunTurn("5", 4, [name], -1, TOKENLIST_SIZE);
    var toks := [name, five];
    RunEnd("", 5, toks, -1, TOKENLIST_SIZE);
    assert LastOpen(toks, 2) == -1 by { assert LastOpen(toks, 1) == -1; }
    assert Parse(text, TOKENLIST_SIZE) == Tokens(toks);
    assert Spelled(name, text) == "a";
    assert Front(toks) == [name];
  }

  lemma UnreadTurns()
    ensures var name := Token(Str, 1, 2, 0);
      && Next("\"a\" 5", 0, [], -1, TOKENLIST_SIZE) == Go(3, [name], -1)
      && Next(" 5", 3, [name], -1, TOKENLIST_SIZE) == Go(1, [name], -1)
      && Next("5", 4, [name], -1, TOKENLIST_SIZE) == Go(1, [name, Token(Primitive, 4, 5, 0)], -1)
  {
    OneDigit();
    var text := "\"a\" 5";
    assert text[1..] == "a\" 5" && "a\" 5"[1..] == "\" 5";
    assert StringLength("\" 5") == At(0);
    assert StringLength("a\" 5") == At(1);
  }
}
