/**
 * JSON values as the platform channel holds, prints and rebuilds them. A number is
 * the text it prints as.
 */
module Json {
  import opened Jsmn

  datatype Json =
    | JNull
    | JTrue
    | JFalse
    | JNumber(text: string)
    | JString(chars: string)
    | JArray(items: seq<Json>)
    | JObject(keys: seq<string>, values: seq<Json>)

  const TOKENLIST_SIZE: nat := 128
  const BACKSPACE: char := '\U{8}'
  const FORM_FEED: char := '\U{C}'

  // ---------------------------------------------------------------- printing

  /** How one character of a string value prints; a quote prints as a tab escape. */
  function EscapeChar(c: char): (s: string)
    ensures 1 <= |s| <= 2
  {
    if c == BACKSPACE then "\\b"
    else if c == FORM_FEED then "\\f"
    else if c == '\n' then "\\n"
    else if c == '\r' then "\\r"
    else if c == '\t' then "\\t"
    else if c == '\"' then "\\t"
    else if c == '\\' then "\\\\"
    else [c]
  }

  function Escape(s: string): string {
    if s == "" then "" else EscapeChar(s[0]) + Escape(s[1..])
  }

  /** The text of v. Keys are printed as they are. */
  function Print(v: Json): string {
    match v
    case JNull => "null"
    case JTrue => "true"
    case JFalse => "false"
    case JNumber(text) => text
    case JString(chars) => "\"" + (Escape(chars) + "\"")
    case JArray(items) => "[" + (PrintItems(items) + "]")
    case JObject(keys, values) => "{" + (PrintMembers(keys, values) + "}")
  }

  function PrintItems(items: seq<Json>): string {
    if items == [] then ""
    else Print(items[0]) + (Comma(|items|) + PrintItems(items[1..]))
  }

  function Comma(left: nat): string {
    if left == 1 then "" else ","
  }

  function PrintMembers(keys: seq<string>, values: seq<Json>): string
    decreases values
  {
    if keys == [] || values == [] then ""
    else
      "\"" + (keys[0] + ("\":" + (Print(values[0]) + (Comma(|values|) + PrintMembers(keys[1..], values[1..])))))
  }

  // ---------------------------------------------------------------- conditions

  /** A number text: what %g prints for a finite double. */
  predicate NumberText(t: string) {
    t != "" && |t| < 32 && t[0] != 'e' && NumberChars(t)
  }

  predicate NumberChars(t: string) {
    || t == ""
    || (&& (('0' <= t[0] <= '9') || t[0] == '+' || t[0] == '-' || t[0] == '.' || t[0] == 'e')
        && NumberChars(t[1..]))
  }

  /** A value as C holds it: strings end at their first NUL, an object has as many
      keys as values, numbers are finite. */
  predicate Proper(v: Json) {
    match v
    case JNumber(text) => NumberText(text)
    case JString(chars) => NUL !in chars
    case JArray(items) => AllProper(items)
    case JObject(keys, values) => |keys| == |values| && AllKeysProper(keys) && AllProper(values)
    case _ => true
  }

  predicate AllProper(items: seq<Json>) {
    items == [] || (Proper(items[0]) && AllProper(items[1..]))
  }

  predicate AllKeysProper(keys: seq<string>) {
    keys == [] || (NUL !in keys[0] && AllKeysProper(keys[1..]))
  }

  predicate AllBodies(keys: seq<string>) {
    keys == [] || (StringBody(keys[0]) && AllBodies(keys[1..]))
  }

  /** Every key is the body of a JSON string. */
  predicate KeysAreBodies(v: Json) {
    match v
    case JArray(items) => AllKeysAreBodies(items)
    case JObject(keys, values) => AllBodies(keys) && AllKeysAreBodies(values)
    case _ => true
  }

  predicate AllKeysAreBodies(items: seq<Json>) {
    items == [] || (KeysAreBodies(items[0]) && AllKeysAreBodies(items[1..]))
  }

  /** How many tokens v prints to. */
  function TokenCount(v: Json): nat {
    match v
    case JArray(items) => 1 + TokenCounts(items)
    case JObject(keys, values) => 1 + |values| + TokenCounts(values)
    case _ => 1
  }

  function TokenCounts(items: seq<Json>): nat {
    if items == [] then 0 else TokenCount(items[0]) + TokenCounts(items[1..])
  }

  // ---------------------------------------------------------------- rebuilding

  /** A value, and how many tokens it was rebuilt from; or a token that refuses it; or
      one more token wanted than there are. */
  datatype Built<T> = Built(value: T, used: nat) | Refused | Wanting {
    function Unbuilt<U>(): (r: Built<U>)
      requires !Built?
      ensures !r.Built? && (r.Wanting? <==> Wanting?)
    {
      if Wanting? then Wanting else Refused
    }
  }

  predicate InText(t: Token, text: string) { 0 <= t.start <= t.end <= |text| }

  function Spelled(t: Token, text: string): string {
    if InText(t, text) then text[t.start..t.end] else ""
  }

  /** The value of the primitive at a place in the text, by its first character. */
  function Literal(t: Token, text: string): Json {
    var s := Spelled(t, text);
    if s != "" && s[0] == 'n' then JNull
    else if s != "" && s[0] == 't' then JTrue
    else if s != "" && s[0] == 'f' then JFalse
    else JNumber(s)
  }

  /** The value at the front of the tokens. */
  function Build(text: string, toks: seq<Token>): (r: Built<Json>)
    ensures r.Built? ==> 0 < r.used <= |toks|
    decreases |toks|, 0
  {
    if toks == [] then Wanting
    else
      var t := toks[0];
      match t.kind
      case Undefined => Refused
      case Primitive => Built(Literal(t, text), 1)
      case Str => Built(JString(Spelled(t, text)), 1)
      case Array =>
        var r := BuildItems(text, toks[1..], t.size);
        if !r.Built? then r.Unbuilt() else Built(JArray(r.value), 1 + r.used)
      case Object =>
        var r := BuildMembers(text, toks[1..], t.size);
        if !r.Built? then r.Unbuilt() else Built(JObject(r.value.0, r.value.1), 1 + r.used)
  }

  function BuildItems(text: string, toks: seq<Token>, n: nat): (r: Built<seq<Json>>)
    ensures r.Built? ==> r.used <= |toks|
    decreases |toks|, n + 1
  {
    if n == 0 then Built([], 0)
    else
      var first := Build(text, toks);
      if !first.Built? then first.Unbuilt()
      else
        var rest := BuildItems(text, toks[first.used..], n - 1);
        if !rest.Built? then rest else Built([first.value] + rest.value, first.used + rest.used)
  }

  function BuildMembers(text: string, toks: seq<Token>, n: nat): (r: Built<(seq<string>, seq<Json>)>)
    ensures r.Built? ==> r.used <= |toks|
    decreases |toks|, n + 1
  {
    if n == 0 then Built(([], []), 0)
    else
      var key := Build(text, toks);
      if !key.Built? then key.Unbuilt()
      else if !key.value.JString? then Refused
      else
        var value := Build(text, toks[key.used..]);
        if !value.Built? then value.Unbuilt()
        else
          var rest := BuildMembers(text, toks[key.used + value.used..], n - 1);
          if !rest.Built? then rest
          else
            Built(([key.value.chars] + rest.value.0, [value.value] + rest.value.1),
                  key.used + value.used + rest.used)
  }

  /** A decoded text, a refused one, or one whose rebuilding reads behind the token
      list, after which nothing is known. */
  datatype Decoded = Value(json: Json) | BadMessage | PastList

  /** Tokenize into the fixed token list, then rebuild from the first token. Nothing
      counts the tokens that are left: a token wanted behind the last is an unused one of
      the list, which is undefined and refused, or lies behind a list that is full. */
  function Decode(text: string): Decoded {
    match Parse(text, TOKENLIST_SIZE)
    case Failed(_) => BadMessage
    case Tokens(toks) =>
      match Build(text, toks)
      case Built(v, _) => Value(v)
      case Refused => BadMessage
      case Wanting => if |toks| < TOKENLIST_SIZE then BadMessage else PastList
  }

  /** What v reads back as: string values come back as they were printed. */
  function AsRead(v: Json): Json {
    match v
    case JString(chars) => JString(Escape(chars))
    case JArray(items) => JArray(AllAsRead(items))
    case JObject(keys, values) => JObject(keys, AllAsRead(values))
    case _ => v
  }

  function AllAsRead(items: seq<Json>): (r: seq<Json>)
    ensures |r| == |items|
  {
    if items == [] then [] else [AsRead(items[0])] + AllAsRead(items[1..])
  }
}
