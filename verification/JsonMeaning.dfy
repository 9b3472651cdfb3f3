/**
 * What a printed string says to a reader that takes escapes for what they stand for, as
 * section 7 of RFC 8259 has them.
 */
module JsonMeaning {
  import opened Jsmn
  import opened Json
  import opened JsmnStructure
  import JsonRoundTrip

  datatype Meaning = Says(text: string) | NoString {
    function After(s: string): Meaning {
      if Says? then Says(s + text) else NoString
    }
  }

  /** The character that a two-character escape stands for. */
  function Escaped(letter: char): string {
    match letter
    case '\"' => "\""
    case '\\' => "\\"
    case '/' => "/"
    case 'b' => "\U{8}"
    case 'f' => "\U{C}"
    case 'n' => "\U{A}"
    case 'r' => "\U{D}"
    case 't' => "\U{9}"
    case _ => ""
  }

  function HexDigit(c: char): nat {
    if '0' <= c <= '9' then c as nat - '0' as nat
    else if 'A' <= c <= 'F' then c as nat - 'A' as nat + 10
    else if 'a' <= c <= 'f' then c as nat - 'a' as nat + 10
    else 0
  }

  /** The 16-bit unit at the front of s, or nothing. */
  predicate IsUnit(s: string) {
    |s| >= 4 && Hex(s[0]) && Hex(s[1]) && Hex(s[2]) && Hex(s[3])
  }

  function Unit(s: string): (n: nat)
    requires IsUnit(s)
    ensures n < 0x1_0000
  {
    0x1000 * HexDigit(s[0]) + 0x100 * HexDigit(s[1]) + 0x10 * HexDigit(s[2]) + HexDigit(s[3])
  }

  /** A code point as bytes of UTF-8. */
  function Utf8(n: nat): string
    requires n < 0x11_0000
  {
    if n < 0x80 then [n as char]
    else if n < 0x800 then [(0xC0 + n / 0x40) as char, (0x80 + n % 0x40) as char]
    else if n < 0x1_0000 then
      [(0xE0 + n / 0x1000) as char, (0x80 + n / 0x40 % 0x40) as char, (0x80 + n % 0x40) as char]
    else
      [(0xF0 + n / 0x4_0000) as char, (0x80 + n / 0x1000 % 0x40) as char,
       (0x80 + n / 0x40 % 0x40) as char, (0x80 + n % 0x40) as char]
  }

  /** The text that the body of a string stands for. A surrogate needs its partner. */
  function Unescape(s: string): Meaning
    decreases |s|
  {
    if s == "" then Says("")
    else if s[0] == '\"' then NoString
    else if s[0] != '\\' then Unescape(s[1..]).After([s[0]])
    else if |s| < 2 then NoString
    else if s[1] == 'u' then
      if !IsUnit(s[2..]) then NoString
      else
        var unit := Unit(s[2..]);
        if unit < 0xD800 || unit > 0xDFFF then Unescape(s[6..]).After(Utf8(unit))
        else if unit < 0xDC00 && |s| >= 12 && s[6] == '\\' && s[7] == 'u' && IsUnit(s[8..])
          && 0xDC00 <= Unit(s[8..]) <= 0xDFFF then
          Unescape(s[12..]).After(Utf8(0x1_0000 + 0x400 * (unit - 0xD800) + (Unit(s[8..]) - 0xDC00)))
        else NoString
    else if Escaped(s[1]) == "" then NoString
    else Unescape(s[2..]).After(Escaped(s[1]))
  }

  /** A string with a tab for each quote. */
  function Tabbed(s: string): string {
    if s == "" then "" else [if s[0] == '\"' then '\t' else s[0]] + Tabbed(s[1..])
  }

  lemma {:induction false} TabbedIsSameIff(s: string)
    ensures Tabbed(s) == s <==> '\"' !in s
  {
    if s != "" {
      TabbedIsSameIff(s[1..]);
      assert s == [s[0]] + s[1..];
      assert Tabbed(s)[0] == (if s[0] == '\"' then '\t' else s[0]) && Tabbed(s)[1..] == Tabbed(s[1..]);
    }
  }

  lemma UnescapeOne(c: char, rest: string)
    ensures Unescape(EscapeChar(c) + rest) == Unescape(rest).After([if c == '\"' then '\t' else c])
  {
    hide Utf8, Unit, IsUnit;
    var s := EscapeChar(c) + rest;
    if |EscapeChar(c)| == 1 { assert s[1..] == rest; } else { assert s[2..] == rest; }
  }

  /** What is printed for a string stands for that string, with a tab for each quote. */
  lemma {:induction false} UnescapeInverts(s: string)
    ensures Unescape(Escape(s)) == Says(Tabbed(s))
  {
    hide Unescape, EscapeChar;
    if s == "" {
      UnescapeNothing();
    } else {
      UnescapeInverts(s[1..]);
      UnescapeOne(s[0], Escape(s[1..]));
    }
  }

  lemma UnescapeNothing()
    ensures Unescape("") == Says("")
  {
  }

  /** It stands for the string itself exactly if that has no quote. */
  lemma PrintedStringIsItselfIff(s: string)
    ensures Unescape(Escape(s)) == Says(s) <==> '\"' !in s
  {
    UnescapeInverts(s);
    TabbedIsSameIff(s);
  }

  // ---------------------------------------------------------------- whole values

  /** A value with its strings taken for what they stand for. */
  function Understood(v: Json): Json {
    match v
    case JString(chars) => (match Unescape(chars) case Says(text) => JString(text) case NoString => v)
    case JArray(items) => JArray(AllUnderstood(items))
    case JObject(keys, values) => JObject(keys, AllUnderstood(values))
    case _ => v
  }

  function AllUnderstood(items: seq<Json>): seq<Json> {
    if items == [] then [] else [Understood(items[0])] + AllUnderstood(items[1..])
  }

  predicate Quoteless(v: Json) {
    match v
    case JString(chars) => '\"' !in chars
    case JArray(items) => AllQuoteless(items)
    case JObject(_, values) => AllQuoteless(values)
    case _ => true
  }

  predicate AllQuoteless(items: seq<Json>) {
    items == [] || (Quoteless(items[0]) && AllQuoteless(items[1..]))
  }

  lemma {:induction false} UnderstoodIsSameIff(v: Json)
    ensures Understood(AsRead(v)) == v <==> Quoteless(v)
    decreases v, 0
  {
    match v
    case JString(chars) =>
      UnescapeInverts(chars);
      TabbedIsSameIff(chars);
    case JArray(items) => AllUnderstoodAreSameIff(items);
    case JObject(_, values) => AllUnderstoodAreSameIff(values);
    case _ =>
  }

  lemma {:induction false} AllUnderstoodAreSameIff(items: seq<Json>)
    ensures AllUnderstood(AllAsRead(items)) == items <==> AllQuoteless(items)
    decreases items, 0
  {
    if items != [] {
      UnderstoodIsSameIff(items[0]);
      AllUnderstoodAreSameIff(items[1..]);
      var r := AllAsRead(items);
      assert r[0] == AsRead(items[0]) && r[1..] == AllAsRead(items[1..]);
      assert items == [items[0]] + items[1..];
      assert AllUnderstood(r)[0] == Understood(r[0]) && AllUnderstood(r)[1..] == AllUnderstood(r[1..]);
    }
  }

  lemma {:induction false} UnderstoodKeepsKeys(v: Json)
    ensures KeysAreBodies(Understood(v)) == KeysAreBodies(v)
    decreases v, 0
  {
    match v
    case JArray(items) => AllUnderstoodKeepKeys(items);
    case JObject(_, values) => AllUnderstoodKeepKeys(values);
    case _ =>
  }

  lemma {:induction false} AllUnderstoodKeepKeys(items: seq<Json>)
    ensures AllKeysAreBodies(AllUnderstood(items)) == AllKeysAreBodies(items)
    decreases items, 0
  {
    if items != [] {
      UnderstoodKeepsKeys(items[0]);
      AllUnderstoodKeepKeys(items[1..]);
      assert AllUnderstood(items)[0] == Understood(items[0]) && AllUnderstood(items)[1..] == AllUnderstood(items[1..]);
    }
  }

  /** A value that is printed, decoded and then understood is itself exactly if its keys are
      string bodies, none of its strings has a quote, whatever else they hold, and its
      tokens fit the list. */
  lemma UnderstoodRoundTripIff(v: Json)
    requires Proper(v)
    ensures (Decode(Print(v)).Value? && Understood(Decode(Print(v)).json) == v)
      <==> KeysAreBodies(v) && Quoteless(v) && TokenCount(v) <= TOKENLIST_SIZE
  {
    hide Parse, Build, Print, Understood, AsRead, Proper, KeysAreBodies, Spans, JsonRoundTrip.AllStringsAreBodies;
    if KeysAreBodies(v) {
      JsonRoundTrip.DecodePrinted(v);
      UnderstoodIsSameIff(v);
    } else if Decode(Print(v)).Value? {
      var text := Print(v);
      ParseStructure(text, TOKENLIST_SIZE);
      JsonRoundTrip.BuiltStringsAreBodies(text, Parse(text, TOKENLIST_SIZE).toks);
      JsonRoundTrip.BodiesIncludeKeys(Decode(text).json);
      UnderstoodKeepsKeys(Decode(text).json);
    }
  }

  // ---------------------------------------------------------------- words

  /** A word that is no string and no bracket is a value by its first character alone. */
  lemma WordIsRead(w: string)
    requires !AtEnd(w) && PrimitiveLength(w) == At(|w|) && w[0] != '\"' && w[0] != '{' && w[0] != '['
    requires |w| > 0
    ensures Decode(w) == Value(
      match w[0] case 'n' => JNull case 't' => JTrue case 'f' => JFalse case _ => JNumber(w))
  {
    hide PrimitiveLength, Run;
    FirstOfWord(w);
    var t := Token(Primitive, 0, |w|, 0);
    assert w[|w|..] == "";
    RunTurn(w, 0, [], -1, TOKENLIST_SIZE);
    assert [] + [t] == [t];
    RunEnd("", |w|, [t], -1, TOKENLIST_SIZE);
    assert Spelled(t, w) == w;
  }

  lemma FirstOfWord(w: string)
    requires PrimitiveLength(w) == At(|w|) && |w| > 0
    ensures !EndsPrimitive(w[0])
  {
  }

  /** So "nope" is null, and "yes" a number. */
  lemma WordsAreTaken()
    ensures Decode("nope") == Value(JNull) && Decode("yes") == Value(JNumber("yes"))
  {
    hide Decode;
    assert "nope"[1..] == "ope" && "ope"[1..] == "pe" && "pe"[1..] == "e" && "e"[1..] == "";
    assert "yes"[1..] == "es" && "es"[1..] == "s" && "s"[1..] == "";
    assert PrimitiveLength("e") == At(1) && PrimitiveLength("pe") == At(2) && PrimitiveLength("ope") == At(3);
    assert PrimitiveLength("s") == At(1) && PrimitiveLength("es") == At(2);
    WordIsRead("nope");
    WordIsRead("yes");
  }
}
