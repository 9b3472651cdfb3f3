/**
 * The JSON codec as it writes: a size calculation, and a writer that prints into a
 * buffer and leaves terminators behind.
 */
module JsonCodec {
  import opened Jsmn
  import opened Json

  // ---------------------------------------------------------------- size

  method CalcSize(v: Json) returns (size: nat)
    requires Proper(v)
    ensures size == |Print(v)|
    decreases v, 1
  {
    match v
    case JNull | JTrue => size := 4;
    case JFalse => size := 5;
    case JNumber(text) => size := |text|;
    case JString(chars) => size := CalcStringSize(chars);
    case JArray(items) => size := CalcItemsSize(v);
    case JObject(keys, values) => size := CalcMembersSize(v);
  }

  method CalcStringSize(chars: string) returns (size: nat)
    ensures size == |Print(JString(chars))|
  {
    size := 2;
    var i := 0;
    assert chars[0..] == chars;
    while i < |chars|
      invariant i <= |chars|
      invariant size + |Escape(chars[i..])| == 2 + |Escape(chars)|
    {
      assert chars[i..][1..] == chars[i + 1..];
      size := size + |EscapeChar(chars[i])|;
      i := i + 1;
    }
  }

  method CalcItemsSize(v: Json) returns (size: nat)
    requires v.JArray? && Proper(v)
    ensures size == |Print(v)|
    decreases v, 0
  {
    hide Print;
    assert |Print(v)| == 2 + |PrintItems(v.items)| by { PrintArrayLength(v); }
    size := 2;
    var i, items := 0, v.items;
    assert items[0..] == items;
    while i < |items|
      invariant i <= |items| && AllProper(items[i..])
      invariant size + |PrintItems(items[i..])| == 2 + |PrintItems(items)|
    {
      assert items[i..][1..] == items[i + 1..];
      var s := CalcSize(items[i]);
      size := size + s;
      if i + 1 != |items| { size := size + 1; }
      i := i + 1;
    }
  }

  lemma PrintArrayLength(v: Json)
    requires v.JArray?
    ensures |Print(v)| == 2 + |PrintItems(v.items)|
  {
  }

  method CalcMembersSize(v: Json) returns (size: nat)
    requires v.JObject? && Proper(v)
    ensures size == |Print(v)|
    decreases v, 0
  {
    hide Print;
    assert |Print(v)| == 2 + |PrintMembers(v.keys, v.values)| by { PrintObjectLength(v); }
    size := 2;
    var i, keys, values := 0, v.keys, v.values;
    assert keys[0..] == keys && values[0..] == values;
    while i < |values|
      invariant i <= |values| && AllProper(values[i..])
      invariant size + |PrintMembers(keys[i..], values[i..])| == 2 + |PrintMembers(keys, values)|
    {
      assert values[i..][1..] == values[i + 1..] && keys[i..][1..] == keys[i + 1..];
      var s := CalcSize(values[i]);
      size := size + |keys[i]| + 3 + s;
      if i + 1 != |values| { size := size + 1; }
      i := i + 1;
    }
  }

  lemma PrintObjectLength(v: Json)
    requires v.JObject?
    ensures |Print(v)| == 2 + |PrintMembers(v.keys, v.values)|
  {
  }

  // ---------------------------------------------------------------- writing

  class JsonWriter {
    const buf: array<char>
    var pos: nat

    constructor (buf: array<char>)
      ensures this.buf == buf && pos == 0
    {
      this.buf := buf;
      pos := 0;
    }

    ghost predicate Room(n: nat)
      reads this
    {
      pos + n < buf.Length
    }

    /** What was written so far. */
    ghost function Written(): (s: string)
      requires Room(0)
      reads this, buf
      ensures |s| == pos
    {
      buf[..pos]
    }

    /** This text was added; beyond the byte after it nothing changed. */
    twostate predicate Wrote(text: string)
      requires old(Room(|text|))
      reads this, buf
    {
      && pos == old(pos) + |text|
      && Written() == old(Written()) + text
      && forall k | pos < k < buf.Length :: buf[k] == old(buf[k])
    }

    method PutChar(c: char)
      requires Room(1)
      modifies this`pos, buf
      ensures Wrote([c])
    {
      buf[pos] := c;
      pos := pos + 1;
    }

    /** sprintf leaves a NUL after the text. */
    method Sprintf(text: string)
      requires Room(|text|)
      modifies this`pos, buf
      ensures Wrote(text)
    {
      forall i | 0 <= i <= |text| {
        buf[pos + i] := if i < |text| then text[i] else NUL;
      }
      pos := pos + |text|;
    }

    /** The one or two characters that a character of a string prints as. */
    method PutEscaped(c: char)
      requires Room(|EscapeChar(c)|)
      modifies this`pos, buf
      ensures Wrote(EscapeChar(c))
    {
      hide EscapeChar;
      var e := EscapeChar(c);
      PutChar(e[0]);
      if |e| == 2 { PutChar(e[1]); }
      assert e == if |e| == 2 then [e[0]] + [e[1]] else [e[0]];
    }

    method WriteString(chars: string)
      requires Room(|Print(JString(chars))|)
      modifies this`pos, buf
      ensures Wrote(Print(JString(chars)))
    {
      hide EscapeChar, Escape;
      ghost var target := Written() + Print(JString(chars));
      Regroup(Written(), "\"", Escape(chars), "\"");
      PutChar('\"');
      var i := 0;
      assert chars[0..] == chars;
      while i < |chars|
        invariant i <= |chars| && pos + |Escape(chars[i..])| + 1 == |target| < buf.Length
        invariant Written() + (Escape(chars[i..]) + "\"") == target
        invariant forall k | |target| < k < buf.Length :: buf[k] == old(buf[k])
      {
        EscapeFirst(chars, i);
        Regroup(Written(), EscapeChar(chars[i]), Escape(chars[i + 1..]), "\"");
        PutEscaped(chars[i]);
        i := i + 1;
      }
      EscapeNone(chars);
      assert Written() + ("" + "\"") == Written() + "\"";
      PutChar('\"');
    }

    /** Prints v at the cursor. */
    method WriteValue(v: Json)
      requires Proper(v) && Room(|Print(v)|)
      modifies this`pos, buf
      ensures Wrote(Print(v))
      decreases v, 1
    {
      match v
      case JNull => Sprintf("null");
      case JTrue => Sprintf("true");
      case JFalse => Sprintf("false");
      case JNumber(text) => Sprintf(text);
      case JString(chars) => WriteString(chars);
      case JArray(_) => WriteArray(v);
      case JObject(_, _) => WriteObject(v);
    }

    method WriteArray(v: Json)
      requires v.JArray? && Proper(v) && Room(|Print(v)|)
      modifies this`pos, buf
      ensures Wrote(Print(v))
      decreases v, 0
    {
      hide Print, Comma;
      var items := v.items;
      ghost var target := Written() + Print(v);
      PrintArray(v);
      Regroup(Written(), "[", PrintItems(items), "]");
      Sprintf("[");
      var i := 0;
      assert items[0..] == items;
      while i < |items|
        invariant i <= |items| && AllProper(items[i..])
        invariant pos + |PrintItems(items[i..])| + 1 == |target| < buf.Length
        invariant Written() + (PrintItems(items[i..]) + "]") == target
        invariant forall k | |target| < k < buf.Length :: buf[k] == old(buf[k])
      {
        assert items[i..][1..] == items[i + 1..];
        ghost var t, c, rest := Print(items[i]), Comma(|items| - i), PrintItems(items[i + 1..]);
        CommaOnlyBetween(|items| - i);
        Regroup(Written(), t, c + rest, "]");
        Regroup(Written() + t, c, rest, "]");
        WriteValue(items[i]);
        if i + 1 != |items| { Sprintf(","); }
        i := i + 1;
      }
      assert Written() + ("" + "]") == Written() + "]";
      Sprintf("]");
    }

    /** A key, its value, and a comma unless it is the last one left. */
    method WriteMember(key: string, value: Json, left: nat)
      requires left > 0 && Proper(value) && Room(|MemberText(key, value, left)|)
      modifies this`pos, buf
      ensures Wrote(MemberText(key, value, left))
      decreases value, 2
    {
      hide Print, Comma;
      ghost var name, t, c := "\"" + key + "\":", Print(value), Comma(left);
      CommaOnlyBetween(left);
      Regroup(Written(), name, t, c);
      assert MemberText(key, value, left) == name + (t + c);
      Sprintf("\"" + key + "\":");
      WriteValue(value);
      if left != 1 { Sprintf(","); }
    }

    method WriteObject(v: Json)
      requires v.JObject? && Proper(v) && Room(|Print(v)|)
      modifies this`pos, buf
      ensures Wrote(Print(v))
      decreases v, 0
    {
      hide Print, Comma, MemberText, PrintMembers;
      NoMembers();
      var keys, values := v.keys, v.values;
      ghost var target := Written() + Print(v);
      PrintObject(v);
      Regroup(Written(), "{", PrintMembers(keys, values), "}");
      Sprintf("{");
      var i := 0;
      assert keys[0..] == keys && values[0..] == values;
      while i < |values|
        invariant i <= |values| && AllProper(values[i..])
        invariant pos + |PrintMembers(keys[i..], values[i..])| + 1 == |target| < buf.Length
        invariant Written() + (PrintMembers(keys[i..], values[i..]) + "}") == target
        invariant forall k | |target| < k < buf.Length :: buf[k] == old(buf[k])
      {
        assert values[i..][1..] == values[i + 1..] && keys[i..][1..] == keys[i + 1..];
        ghost var text, rest := MemberText(keys[i], values[i], |values| - i),
          PrintMembers(keys[i + 1..], values[i + 1..]);
        MembersByText(keys[i..], values[i..]);
        Regroup(Written(), text, rest, "}");
        WriteMember(keys[i], values[i], |values| - i);
        i := i + 1;
      }
      assert keys[i..] == [] && values[i..] == [];
      assert Written() + ("" + "}") == Written() + "}";
      Sprintf("}");
    }
  }

  function MemberText(key: string, value: Json, left: nat): string {
    ("\"" + key + "\":") + (Print(value) + Comma(left))
  }

  lemma MembersByText(keys: seq<string>, values: seq<Json>)
    requires |keys| == |values| > 0
    ensures PrintMembers(keys, values) == MemberText(keys[0], values[0], |values|)
      + PrintMembers(keys[1..], values[1..])
  {
    hide Print, Comma;
    RegroupSix("\"", keys[0], "\":", Print(values[0]), Comma(|values|), PrintMembers(keys[1..], values[1..]));
  }

  lemma RegroupSix(a: string, b: string, c: string, d: string, e: string, f: string)
    ensures a + (b + (c + (d + (e + f)))) == (((a + b) + c) + (d + e)) + f
  {
  }

  lemma EscapeFirst(chars: string, i: nat)
    requires i < |chars|
    ensures Escape(chars[i..]) == EscapeChar(chars[i]) + Escape(chars[i + 1..])
  {
    hide EscapeChar;
    assert chars[i..][1..] == chars[i + 1..];
  }

  lemma EscapeNone(chars: string)
    ensures Escape(chars[|chars|..]) == ""
  {
  }

  lemma NoMembers()
    ensures PrintMembers([], []) == ""
  {
  }

  lemma Regroup(s: string, a: string, b: string, c: string)
    ensures s + ((a + b) + c) == (s + a) + (b + c)
    ensures s + (a + (b + c)) == (s + a) + (b + c)
  {
  }

  lemma PrintArray(v: Json)
    requires v.JArray?
    ensures Print(v) == "[" + (PrintItems(v.items) + "]")
  {
    hide PrintItems;
  }

  lemma PrintObject(v: Json)
    requires v.JObject?
    ensures Print(v) == "{" + (PrintMembers(v.keys, v.values) + "}")
  {
    hide PrintMembers;
  }

  lemma CommaOnlyBetween(left: nat)
    requires left > 0
    ensures Comma(left) == if left == 1 then "" else ","
  {
  }

  /** A JSON message: one more byte than the size is allocated, for the terminator of
      the last sprintf, and not sent. */
  method EncodeJson(v: Json) returns (buf: array<char>, size: nat)
    requires Proper(v)
    ensures fresh(buf) && size == |Print(v)| && buf.Length == size + 1
    ensures buf[..size] == Print(v)
  {
    size := CalcSize(v);
    buf := new char[size + 1];
    var w := new JsonWriter(buf);
    w.WriteValue(v);
  }
}
