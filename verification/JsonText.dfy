/** Printed text as the tokenizer meets it: each value followed by what comes after. */
module JsonText {
  import opened Jsmn
  import opened Json

  function Text(v: Json, after: string): string {
    match v
    case JNull => "null" + after
    case JTrue => "true" + after
    case JFalse => "false" + after
    case JNumber(text) => text + after
    case JString(chars) => "\"" + (Escape(chars) + ("\"" + after))
    case JArray(items) => "[" + ItemsText(items, "]" + after)
    case JObject(keys, values) => "{" + MembersText(keys, values, "}" + after)
  }

  function ItemsText(items: seq<Json>, after: string): string {
    if items == [] then after
    else Text(items[0], Comma(|items|) + ItemsText(items[1..], after))
  }

  function MembersText(keys: seq<string>, values: seq<Json>, after: string): string
    decreases values
  {
    if keys == [] || values == [] then after
    else
      "\"" + (keys[0] + ("\":" + Text(values[0], Comma(|values|) + MembersText(keys[1..], values[1..], after))))
  }

  lemma {:induction false} TextIsPrint(v: Json, after: string)
    ensures Text(v, after) == Print(v) + after
    decreases v, 0
  {
    match v
    case JArray(items) => ItemsTextIsPrint(items, "]" + after);
    case JObject(keys, values) => MembersTextIsPrint(keys, values, "}" + after);
    case _ =>
  }

  lemma {:induction false} ItemsTextIsPrint(items: seq<Json>, after: string)
    ensures ItemsText(items, after) == PrintItems(items) + after
    decreases items, 0
  {
    if items != [] {
      TextIsPrint(items[0], Comma(|items|) + ItemsText(items[1..], after));
      ItemsTextIsPrint(items[1..], after);
    }
  }

  lemma {:induction false} MembersTextIsPrint(keys: seq<string>, values: seq<Json>, after: string)
    ensures MembersText(keys, values, after) == PrintMembers(keys, values) + after
    decreases values, 0
  {
    if keys != [] && values != [] {
      TextIsPrint(values[0], Comma(|values|) + MembersText(keys[1..], values[1..], after));
      MembersTextIsPrint(keys[1..], values[1..], after);
    }
  }

  // ---------------------------------------------------------------- lexing what was printed

  predicate Follows(after: string) { AtEnd(after) || EndsPrimitive(after[0]) }

  lemma {:induction false} PrimitiveLexes(t: string, after: string)
    requires NumberChars(t) || t == "null" || t == "true" || t == "false"
    requires Follows(after)
    ensures PrimitiveLength(t + after) == At(|t|)
    decreases |t|
  {
    if NumberChars(t) {
      NumberLexes(t, after);
    } else {
      WordLexes(t, after);
    }
  }

  lemma {:induction false} NumberLexes(t: string, after: string)
    requires NumberChars(t) && Follows(after)
    ensures PrimitiveLength(t + after) == At(|t|)
    decreases |t|
  {
    if t == "" {
      assert t + after == after;
    } else {
      assert (t + after)[1..] == t[1..] + after;
      NumberLexes(t[1..], after);
      assert (t + after)[0] == t[0] && !AtEnd(t + after) && !EndsPrimitive(t[0]) && !Unprintable(t[0]);
    }
  }

  lemma {:induction false} WordLexes(t: string, after: string)
    requires forall i | 0 <= i < |t| :: 'a' <= t[i] <= 'z'
    requires Follows(after)
    ensures PrimitiveLength(t + after) == At(|t|)
    decreases |t|
  {
    if t == "" {
      assert t + after == after;
    } else {
      WordLexes(t[1..], after);
      assert (t + after)[1..] == t[1..] + after;
    }
  }

  lemma {:induction false} BodyLexes(s: string, after: string)
    requires StringBody(s)
    ensures StringLength(s + ("\"" + after)) == At(|s|)
    decreases |s|
  {
    var t := s + ("\"" + after);
    if s == "" {
    } else if s[0] == '\\' {
      if SimpleEscape(s[1]) {
        assert t[2..] == s[2..] + ("\"" + after);
        BodyLexes(s[2..], after);
      } else {
        assert HexRun(t[6..], 0) == At(0);
        assert t[5..][1..] == t[6..] && t[4..][1..] == t[5..] && t[3..][1..] == t[4..] && t[2..][1..] == t[3..];
        assert HexRun(t[5..], 1) == At(1);
        assert HexRun(t[4..], 2) == At(2);
        assert HexRun(t[3..], 3) == At(3);
        assert HexRun(t[2..], 4) == At(4);
        assert t[6..] == s[6..] + ("\"" + after);
        BodyLexes(s[6..], after);
      }
    } else {
      assert t[1..] == s[1..] + ("\"" + after);
      BodyLexes(s[1..], after);
    }
  }

  /** A printed string value is a string body, whatever its characters. */
  lemma {:induction false} EscapeIsBody(s: string)
    requires NUL !in s
    ensures StringBody(Escape(s))
    decreases |s|
  {
    if s != "" {
      EscapeIsBody(s[1..]);
      var e := EscapeChar(s[0]);
      assert Escape(s)[|e|..] == Escape(s[1..]);
    }
  }

  predicate Escaped(c: char) {
    c == BACKSPACE || c == FORM_FEED || c == '\n' || c == '\r' || c == '\t' || c == '\"' || c == '\\'
  }

  predicate NoEscapes(s: string) {
    s == "" || (!Escaped(s[0]) && NoEscapes(s[1..]))
  }

  lemma {:induction false} EscapeLength(s: string)
    ensures |Escape(s)| >= |s|
    ensures |Escape(s)| == |s| <==> NoEscapes(s)
    ensures Escape(s) == s <==> NoEscapes(s)
    decreases |s|
  {
    if s != "" { EscapeLength(s[1..]); }
  }
}
