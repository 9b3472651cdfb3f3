/**
 * Rebuilding JSON values without copying strings: a string value is a pointer into
 * the message, and its closing quote is overwritten with a terminator. The pointers
 * still show the right strings after the whole message has been decoded.
 */
module JsonReader {
  import opened Jsmn
  import opened Json
  import opened JsmnStructure
  import opened JsmnParser
  import opened JsonBounds

  /** A decoded value: strings and keys are offsets into the message. */
  datatype Ref =
    | RNull
    | RTrue
    | RFalse
    | RNumber(text: string)
    | RString(at: nat)
    | RArray(items: seq<Ref>)
    | RObject(keys: seq<nat>, values: seq<Ref>)

  /** The C string at an offset. */
  function CText(msg: seq<char>, at: nat): string
    decreases |msg| - at
  {
    if at >= |msg| || msg[at] == NUL then "" else [msg[at]] + CText(msg, at + 1)
  }

  /** A pointer shows a string that ends, terminator included, before hi. */
  predicate ShowsString(msg: seq<char>, at: nat, s: string, hi: nat) {
    at + |s| < hi <= |msg| && msg[at + |s|] == NUL && CText(msg, at) == s
  }

  predicate Shows(r: Ref, v: Json, msg: seq<char>, hi: nat) {
    match v
    case JNull => r.RNull?
    case JTrue => r.RTrue?
    case JFalse => r.RFalse?
    case JNumber(text) => r == RNumber(text)
    case JString(chars) => r.RString? && ShowsString(msg, r.at, chars, hi)
    case JArray(items) => r.RArray? && ShowsAll(r.items, items, msg, hi)
    case JObject(keys, values) =>
      r.RObject? && ShowsStrings(r.keys, keys, msg, hi) && ShowsAll(r.values, values, msg, hi)
  }

  predicate ShowsAll(rs: seq<Ref>, vs: seq<Json>, msg: seq<char>, hi: nat) {
    if vs == [] then rs == []
    else rs != [] && Shows(rs[|rs| - 1], vs[|vs| - 1], msg, hi) && ShowsAll(rs[..|rs| - 1], vs[..|vs| - 1], msg, hi)
  }

  predicate ShowsStrings(ats: seq<nat>, ss: seq<string>, msg: seq<char>, hi: nat) {
    if ss == [] then ats == []
    else
      && ats != []
      && ShowsString(msg, ats[|ats| - 1], ss[|ss| - 1], hi)
      && ShowsStrings(ats[..|ats| - 1], ss[..|ss| - 1], msg, hi)
  }

  // ---------------------------------------------------------------- later writes do not show

  /** Two messages agree below hi. */
  ghost predicate SameBelow(a: seq<char>, b: seq<char>, hi: nat) {
    |a| == |b| && hi <= |a| && a[..hi] == b[..hi]
  }

  lemma {:induction false} CTextKept(a: seq<char>, b: seq<char>, hi: nat, at: nat)
    requires SameBelow(a, b, hi)
    requires at + |CText(a, at)| < hi
    ensures CText(b, at) == CText(a, at)
    decreases hi - at
  {
    assert a[at] == a[..hi][at] && b[at] == b[..hi][at];
    if a[at] != NUL { CTextKept(a, b, hi, at + 1); }
  }

  lemma ShowsStringKept(a: seq<char>, b: seq<char>, hi: nat, at: nat, s: string, more: nat)
    requires SameBelow(a, b, hi) && hi <= more <= |b|
    requires ShowsString(a, at, s, hi)
    ensures ShowsString(b, at, s, more)
  {
    CTextKept(a, b, hi, at);
    assert a[at + |s|] == a[..hi][at + |s|] && b[at + |s|] == b[..hi][at + |s|];
  }

  lemma {:induction false} ShowsKept(r: Ref, v: Json, a: seq<char>, b: seq<char>, hi: nat, more: nat)
    requires SameBelow(a, b, hi) && hi <= more <= |b|
    requires Shows(r, v, a, hi)
    ensures Shows(r, v, b, more)
    decreases v, 0
  {
    match v
    case JString(chars) => ShowsStringKept(a, b, hi, r.at, chars, more);
    case JArray(items) => ShowsAllKept(r.items, items, a, b, hi, more);
    case JObject(keys, values) =>
      ShowsStringsKept(r.keys, keys, a, b, hi, more);
      ShowsAllKept(r.values, values, a, b, hi, more);
    case _ =>
  }

  lemma {:induction false} ShowsAllKept(rs: seq<Ref>, vs: seq<Json>, a: seq<char>, b: seq<char>, hi: nat, more: nat)
    requires SameBelow(a, b, hi) && hi <= more <= |b|
    requires ShowsAll(rs, vs, a, hi)
    ensures ShowsAll(rs, vs, b, more)
    decreases vs, 0
  {
    if vs != [] {
      ShowsKept(rs[|rs| - 1], vs[|vs| - 1], a, b, hi, more);
      ShowsAllKept(rs[..|rs| - 1], vs[..|vs| - 1], a, b, hi, more);
    }
  }

  lemma {:induction false} ShowsStringsKept(ats: seq<nat>, ss: seq<string>, a: seq<char>, b: seq<char>, hi: nat,
                                            more: nat)
    requires SameBelow(a, b, hi) && hi <= more <= |b|
    requires ShowsStrings(ats, ss, a, hi)
    ensures ShowsStrings(ats, ss, b, more)
    decreases ss
  {
    if ss != [] {
      ShowsStringKept(a, b, hi, ats[|ats| - 1], ss[|ss| - 1], more);
      ShowsStringsKept(ats[..|ats| - 1], ss[..|ss| - 1], a, b, hi, more);
    }
  }

  /** A terminated span without a NUL is the C string at its start. */
  lemma {:induction false} CTextOfSpan(msg: seq<char>, at: nat, end: nat)
    requires at <= end < |msg| && msg[end] == NUL && NUL !in msg[at..end]
    ensures CText(msg, at) == msg[at..end]
    decreases end - at
  {
    if at < end {
      assert msg[at] == msg[at..end][0];
      assert msg[at..end][1..] == msg[at + 1..end];
      CTextOfSpan(msg, at + 1, end);
    }
  }

  lemma SliceKept(msg: seq<char>, text: string, clean: nat, start: nat, end: nat)
    requires clean <= start <= end <= |text| <= |msg|
    requires msg[clean..|text|] == text[clean..]
    ensures msg[start..end] == text[start..end]
  {
    forall i | start <= i < end ensures msg[i] == text[i] {
      assert msg[i] == msg[clean..|text|][i - clean];
    }
  }

  // ---------------------------------------------------------------- building, continued

  function AfterItems(vs: seq<Json>, used: nat, rest: Built<seq<Json>>): Built<seq<Json>> {
    if !rest.Built? then rest else Built(vs + rest.value, used + rest.used)
  }

  lemma AfterItem(vs: seq<Json>, used: nat, text: string, toks: seq<Token>, n: nat)
    requires n > 0
    ensures var first := Build(text, toks);
      AfterItems(vs, used, BuildItems(text, toks, n)) ==
        if !first.Built? then first.Unbuilt()
        else AfterItems(vs + [first.value], used + first.used, BuildItems(text, toks[first.used..], n - 1))
  {
    hide Build;
    var first := Build(text, toks);
    if first.Built? {
      var rest := BuildItems(text, toks[first.used..], n - 1);
      if rest.Built? { assert vs + ([first.value] + rest.value) == (vs + [first.value]) + rest.value; }
    }
  }

  lemma AfterItemsStartEnd(text: string, toks: seq<Token>, n: nat, vs: seq<Json>, used: nat)
    ensures AfterItems([], 0, BuildItems(text, toks, n)) == BuildItems(text, toks, n)
    ensures AfterItems(vs, used, BuildItems(text, toks, 0)) == Built(vs, used)
  {
    var all := BuildItems(text, toks, n);
    if all.Built? { assert [] + all.value == all.value; }
    assert vs + [] == vs;
  }

  function AfterMembers(ks: seq<string>, vs: seq<Json>, used: nat,
                        rest: Built<(seq<string>, seq<Json>)>): Built<(seq<string>, seq<Json>)> {
    if !rest.Built? then rest else Built((ks + rest.value.0, vs + rest.value.1), used + rest.used)
  }

  lemma AfterMember(ks: seq<string>, vs: seq<Json>, used: nat, text: string, toks: seq<Token>, n: nat)
    requires n > 0
    ensures var key := Build(text, toks);
      AfterMembers(ks, vs, used, BuildMembers(text, toks, n)) ==
        if !key.Built? then key.Unbuilt()
        else if !key.value.JString? then Refused
        else
          var value := Build(text, toks[key.used..]);
          if !value.Built? then value.Unbuilt()
          else AfterMembers(ks + [key.value.chars], vs + [value.value], used + key.used + value.used,
                            BuildMembers(text, toks[key.used + value.used..], n - 1))
  {
    hide Build;
    var key := Build(text, toks);
    if key.Built? && key.value.JString? {
      var value := Build(text, toks[key.used..]);
      if value.Built? {
        var rest := BuildMembers(text, toks[key.used + value.used..], n - 1);
        if rest.Built? {
          assert ks + ([key.value.chars] + rest.value.0) == (ks + [key.value.chars]) + rest.value.0;
          assert vs + ([value.value] + rest.value.1) == (vs + [value.value]) + rest.value.1;
        }
      }
    }
  }

  lemma AfterMembersStartEnd(text: string, toks: seq<Token>, n: nat, ks: seq<string>, vs: seq<Json>, used: nat)
    ensures AfterMembers([], [], 0, BuildMembers(text, toks, n)) == BuildMembers(text, toks, n)
    ensures AfterMembers(ks, vs, used, BuildMembers(text, toks, 0)) == Built((ks, vs), used)
  {
    var all := BuildMembers(text, toks, n);
    if all.Built? { assert [] + all.value.0 == all.value.0 && [] + all.value.1 == all.value.1; }
    assert vs + [] == vs && ks + [] == ks;
  }

  // ---------------------------------------------------------------- the reader

  /** How rebuilding ends: with a value, refused, wanting a token behind the list, or about
      to write behind the message. Nothing is said about what comes after the last two. */
  datatype Ending = Whole | Refuses | Past | Outside

  function EndingOf<T>(b: Built<T>, full: bool, outside: bool): Ending {
    if outside then Outside
    else
      match b
      case Built(_, _) => Whole
      case Refused => Refuses
      case Wanting => if full then Past else Refuses
  }

  /** How rebuilding one member ends: with its key, or with a key that is no string, or
      with its value. */
  function MemberEnding(text: string, toks: seq<Token>, full: bool, exact: bool): Ending {
    var a := Build(text, toks);
    if !a.Built? then EndingOf(a, full, exact && Hits(text, toks))
    else if !a.value.JString? then (if exact && Hits(text, toks) then Outside else Refuses)
    else
      var rest := toks[a.used..];
      EndingOf(Build(text, rest), full, exact && Hits(text, rest))
  }

  /** How rebuilding all members ends and what it makes, when some are rebuilt. */
  function Goal(ks: seq<string>, vs: seq<Json>, used: nat, text: string, toks: seq<Token>, n: nat, full: bool,
                exact: bool)
    : (Ending, Built<(seq<string>, seq<Json>)>)
  {
    var b := AfterMembers(ks, vs, used, BuildMembers(text, toks, n));
    (EndingOf(b, full, exact && HitsMembers(text, toks, n)), b)
  }

  lemma GoalStartEnd(ks: seq<string>, vs: seq<Json>, used: nat, text: string, toks: seq<Token>, n: nat, full: bool,
                     exact: bool)
    ensures var b := BuildMembers(text, toks, n);
      Goal([], [], 0, text, toks, n, full, exact) == (EndingOf(b, full, exact && HitsMembers(text, toks, n)), b)
    ensures Goal(ks, vs, used, text, toks, 0, full, exact) == (Whole, Built((ks, vs), used))
  {
    hide Build, BuildMembers, AfterMembers, HitsMembers;
    AfterMembersStartEnd(text, toks, n, ks, vs, used);
    HitsMember(text, toks, n);
  }

  /** One member, and then the others. */
  lemma GoalTurn(ks: seq<string>, vs: seq<Json>, used: nat, text: string, toks: seq<Token>, n: nat, full: bool,
                 exact: bool)
    requires n > 0
    ensures var end, goal := MemberEnding(text, toks, full, exact), Goal(ks, vs, used, text, toks, n, full, exact);
      if !end.Whole? then goal.0 == end
      else
        var a := Build(text, toks);
        && a.Built? && a.value.JString?
        && var b := Build(text, toks[a.used..]);
           && b.Built?
           && goal == Goal(ks + [a.value.chars], vs + [b.value], used + (a.used + b.used),
                           text, toks[a.used + b.used..], n - 1, full, exact)
  {
    hide Build, BuildMembers, AfterMembers, HitsMembers, Hits;
    AfterMember(ks, vs, used, text, toks, n);
    HitsMember(text, toks, n);
    var a := Build(text, toks);
    if a.Built? && a.value.JString? {
      StringNeverHits(text, toks);
      var b := Build(text, toks[a.used..]);
      if b.Built? { assert toks[a.used..][b.used..] == toks[a.used + b.used..]; }
    }
    NotBuiltAfter(ks, vs, used, text, toks, n);
  }

  lemma NotBuiltAfter(ks: seq<string>, vs: seq<Json>, used: nat, text: string, toks: seq<Token>, n: nat)
    ensures var b, after := BuildMembers(text, toks, n), AfterMembers(ks, vs, used, BuildMembers(text, toks, n));
      b.Built? == after.Built? && b.Wanting? == after.Wanting?
  {
    hide BuildMembers;
  }

  /** A number that ends the text is the last token. */
  lemma NumberIsLast(text: string, tokens: seq<Token>, at: nat)
    requires AllSpan(text, tokens, |text|) && AllApart(tokens) && at < |tokens|
    requires forall i | 0 <= i < |tokens| :: !Open(tokens[i])
    ensures NumberAtEnd(text, tokens[at]) ==> at == |tokens| - 1
  {
    hide Literal;
    if at < |tokens| - 1 {
      assert Apart(tokens[at], tokens[at + 1]);
      assert Spans(text, tokens[at + 1], |text|);
    }
  }

  /** Slots of the token list as they were before tokenizing. */
  ghost predicate Unused(slots: seq<Token>) {
    forall i | 0 <= i < |slots| :: slots[i].kind == Undefined
  }

  class Reader {
    const message: array<char>
    const list: seq<Token>          // the token list, unused slots included
    ghost const tokens: seq<Token>  // the tokens in it
    ghost const text: string  // the message before any terminator was written
    var at: nat               // the next token
    ghost var clean: nat      // the message is as it was from here on

    constructor (message: array<char>, list: seq<Token>, ghost tokens: seq<Token>, ghost text: string)
      requires tokens <= list && Unused(list[|tokens|..])
      requires |text| <= message.Length && message[..|text|] == text
      requires AllSpan(text, tokens, |text|) && AllApart(tokens)
      requires forall i | 0 <= i < |tokens| :: !Open(tokens[i])
      ensures Valid() && at == 0 && clean == 0
      ensures this.message == message && this.list == list && this.tokens == tokens && this.text == text
    {
      this.message, this.list, this.tokens, this.text := message, list, tokens, text;
      at, clean := 0, 0;
      new;
      forall i | 0 <= i < |tokens| ensures tokens[i].start >= 0 { assert Spans(text, tokens[i], |text|); }
    }

    ghost predicate Valid()
      reads this, message
    {
      && clean <= |text| <= message.Length
      && at <= |tokens| && tokens <= list && Unused(list[|tokens|..])
      && message[clean..|text|] == text[clean..]
      && AllSpan(text, tokens, |text|) && AllApart(tokens)
      && (forall i | 0 <= i < |tokens| :: !Open(tokens[i]))
      && (forall i | at <= i < |tokens| :: clean <= tokens[i].start)
    }

    /** The cursor moved over used tokens; nothing before the clean part was touched. */
    twostate predicate Advanced(used: nat)
      reads this, message
    {
      && Valid()
      && at == old(at) + used
      && old(clean) <= clean
      && message[..old(clean)] == old(message[..clean])
    }

    ghost function Ahead(): seq<Token>
      requires at <= |tokens|
      reads this
    {
      tokens[at..]
    }

    /** How rebuilding ends here: it is past if the list is full, and outside if the text is
        all there is of the message. */
    ghost function Ends<T>(b: Built<T>, hits: bool): Ending {
      EndingOf(b, |tokens| == |list|, hits && message.Length == |text|)
    }

    /** Rebuilds the value at the next token. */
    method DecodeValue() returns (end: Ending, r: Ref, ghost v: Json)
      requires Valid()
      modifies this, message
      ensures Valid() && end == Ends(Build(text, old(Ahead())), Hits(text, old(Ahead())))
      ensures end.Whole? ==>
        var b := Build(text, old(Ahead()));
        v == b.value && Advanced(b.used) && Shows(r, v, message[..], clean)
      decreases |tokens| - at, 0
    {
      hide Spans, BuildItems, BuildMembers, Spelled, Literal, NumberAtEnd, Hits, HitsItems, HitsMembers;
      if at == |list| {
        NothingHits(text);
        return Past, RNull, JNull;
      }
      var t := list[at];
      if at == |tokens| {
        assert list[|tokens|..][0] == t;
        NothingHits(text);
      } else {
        assert tokens[at] == t && Ahead()[1..] == tokens[at + 1..];
        HitsToken(text, Ahead());
      }
      end, r, v := Whole, RNull, JNull;
      match t.kind
      case Undefined =>
        end := Refuses;
      case Primitive =>
        NumberIsLast(text, tokens, at);
        var outside;
        outside, r, v := DecodePrimitive();
        if outside { end := Outside; }
      case Str =>
        r, v := DecodeString();
      case Array =>
        ghost var vs;
        var items;
        at := at + 1;
        end, items, vs := DecodeItems(t.size);
        r, v := RArray(items), JArray(vs);
      case Object =>
        ghost var ks, vs;
        var keys, values;
        at := at + 1;
        end, keys, values, ks, vs := DecodeMembers(t.size);
        r, v := RObject(keys, values), JObject(ks, vs);
    }

    method DecodeString() returns (r: Ref, ghost v: Json)
      requires Valid() && at < |tokens| && tokens[at].kind == Str
      modifies this, message
      ensures v == JString(Spelled(tokens[old(at)], text))
      ensures Advanced(1) && Shows(r, v, message[..], clean)
    {
      var t := list[at];
      assert t == tokens[at] && Spans(text, t, |text|);
      ghost var s := text[t.start..t.end];
      SliceKept(message[..], text, clean, t.start, t.end);
      forall i | at < i < |tokens| ensures t.end + 1 <= tokens[i].start { assert Apart(t, tokens[i]); }
      message[t.end] := NUL;
      at := at + 1;
      CTextOfSpan(message[..], t.start, t.end);
      clean := t.end + 1;
      r, v := RString(t.start), JString(s);
    }

    /** A number is converted with a terminator put behind it for as long; outside is set
        where there is no such place. */
    method DecodePrimitive() returns (outside: bool, r: Ref, ghost v: Json)
      requires Valid() && at < |tokens| && tokens[at].kind == Primitive
      modifies this, message
      ensures outside == (message.Length == |text| && NumberAtEnd(text, tokens[old(at)]))
      ensures v == Literal(tokens[old(at)], text) && Valid()
      ensures !outside ==> Advanced(1) && Shows(r, v, message[..], clean)
    {
      var t := list[at];
      assert t == tokens[at] && Spans(text, t, |text|);
      ghost var s := text[t.start..t.end];
      SliceKept(message[..], text, clean, t.start, t.end);
      v := Literal(t, text);
      outside := false;
      if message[t.start] == 'n' {
        r := RNull;
      } else if message[t.start] == 't' {
        r := RTrue;
      } else if message[t.start] == 'f' {
        r := RFalse;
      } else {
        if t.end == message.Length { return true, RNull, v; }
        ghost var was := message[..];
        var kept := message[t.end];
        message[t.end] := NUL;
        CTextOfSpan(message[..], t.start, t.end);
        assert message[..][t.start..t.end] == s;
        r := RNumber(CText(message[..], t.start));
        message[t.end] := kept;
        assert message[..] == was;
      }
      at := at + 1;
    }

    method DecodeItems(n: nat) returns (end: Ending, items: seq<Ref>, ghost vs: seq<Json>)
      requires Valid()
      modifies this, message
      ensures Valid() && end == Ends(BuildItems(text, old(Ahead()), n), HitsItems(text, old(Ahead()), n))
      ensures end.Whole? ==>
        var b := BuildItems(text, old(Ahead()), n);
        vs == b.value && Advanced(b.used) && ShowsAll(items, vs, message[..], clean)
      decreases |tokens| - at, n + 1
    {
      hide Build, BuildItems, AfterItems, AllSpan, AllApart, Shows, ShowsAll, Hits, HitsItems;
      ghost var all, hits := BuildItems(text, Ahead(), n), HitsItems(text, Ahead(), n);
      items, vs := [], [];
      ShowsNothing(message[..], clean);
      var i := 0;
      AfterItemsStartEnd(text, Ahead(), n, [], 0);
      while i < n
        invariant i <= n && at >= old(at) && Advanced(at - old(at))
        invariant i > 0 ==> at > old(at)
        invariant all == AfterItems(vs, at - old(at), BuildItems(text, Ahead(), n - i))
        invariant message.Length == |text| ==> hits == HitsItems(text, Ahead(), n - i)
        invariant ShowsAll(items, vs, message[..], clean)
      {
        AfterItem(vs, at - old(at), text, Ahead(), n - i);
        HitsItem(text, Ahead(), n - i);
        ghost var msg, hi, here := message[..], clean, at;
        var item;
        ghost var v;
        end, item, v := DecodeValue();
        if !end.Whole? { return; }
        assert tokens[here..][at - here..] == tokens[at..];
        ShowsAllKept(items, vs, msg, message[..], hi, clean);
        ShowsAllPush(items, vs, item, v, message[..], clean);
        items, vs := items + [item], vs + [v];
        i := i + 1;
      }
      end := Whole;
      AfterItemsStartEnd(text, Ahead(), 0, vs, at - old(at));
      HitsItem(text, Ahead(), 0);
    }

    /** A key, which has to be a string, and its value. */
    method DecodeMember() returns (end: Ending, key: nat, value: Ref, ghost k: string, ghost v: Json)
      requires Valid()
      modifies this, message
      ensures Valid()
      ensures end == MemberEnding(text, old(Ahead()), |tokens| == |list|, message.Length == |text|)
      ensures end.Whole? ==>
        var a := Build(text, old(Ahead()));
        && a.Built? && a.value.JString?
        && var b := Build(text, old(Ahead())[a.used..]);
           && b.Built? && k == a.value.chars && v == b.value && Advanced(a.used + b.used)
           && ShowsString(message[..], key, k, clean) && Shows(value, v, message[..], clean)
      decreases |tokens| - at, 1
    {
      hide Build, AllSpan, AllApart, ShowsString, Hits;
      ghost var here := at;
      key, value, k, v := 0, RNull, "", JNull;
      var r;
      ghost var j;
      end, r, j := DecodeValue();
      ghost var a := Build(text, tokens[here..]);
      if a.Built? && a.value.JString? { StringNeverHits(text, tokens[here..]); }
      if !end.Whole? { return; }
      if !r.RString? { end := Refuses; return; }
      key, k := r.at, j.chars;
      ghost var msg, hi := message[..], clean;
      assert tokens[here..][at - here..] == tokens[at..];
      end, value, v := DecodeValue();
      if end.Whole? { ShowsStringKept(msg, message[..], hi, key, k, clean); }
    }

    method DecodeMembers(n: nat)
      returns (end: Ending, keys: seq<nat>, values: seq<Ref>, ghost ks: seq<string>, ghost vs: seq<Json>)
      requires Valid()
      modifies this, message
      ensures Valid() && end == Ends(BuildMembers(text, old(Ahead()), n), HitsMembers(text, old(Ahead()), n))
      ensures end.Whole? ==>
        var b := BuildMembers(text, old(Ahead()), n);
        && b.Built? && (ks, vs) == b.value && Advanced(b.used)
        && ShowsStrings(keys, ks, message[..], clean) && ShowsAll(values, vs, message[..], clean)
      decreases |tokens| - at, n + 1
    {
      hide Build, BuildMembers, AllSpan, AllApart, Shows, ShowsString, ShowsAll, ShowsStrings;
      hide HitsMembers, Goal, MemberEnding;
      ghost var full, exact, start := |tokens| == |list|, message.Length == |text|, at;
      ghost var goal := Goal([], [], 0, text, Ahead(), n, full, exact);
      keys, values, ks, vs := [], [], [], [];
      ShowsNothing(message[..], clean);
      var i := 0;
      GoalStartEnd([], [], 0, text, Ahead(), n, full, exact);
      while i < n
        invariant i <= n && at >= start && Advanced(at - start)
        invariant i > 0 ==> at > start
        invariant goal == Goal(ks, vs, at - start, text, Ahead(), n - i, full, exact)
        invariant ShowsStrings(keys, ks, message[..], clean) && ShowsAll(values, vs, message[..], clean)
      {
        GoalTurn(ks, vs, at - start, text, Ahead(), n - i, full, exact);
        ghost var msg, hi, here := message[..], clean, at;
        var key, value;
        ghost var k, v;
        end, key, value, k, v := DecodeMember();
        if !end.Whole? { return; }
        assert tokens[here..][at - here..] == tokens[at..];
        ShowsMember(keys, ks, values, vs, msg, hi, key, k, value, v, message[..], clean);
        keys, ks := keys + [key], ks + [k];
        values, vs := values + [value], vs + [v];
        i := i + 1;
      }
      end := Whole;
      GoalStartEnd(ks, vs, at - start, text, Ahead(), 0, full, exact);
    }
  }

  lemma ShowsNothing(msg: seq<char>, hi: nat)
    ensures ShowsAll([], [], msg, hi) && ShowsStrings([], [], msg, hi)
  {
  }

  lemma ShowsAllPush(rs: seq<Ref>, vs: seq<Json>, r: Ref, v: Json, msg: seq<char>, hi: nat)
    requires ShowsAll(rs, vs, msg, hi) && Shows(r, v, msg, hi)
    ensures ShowsAll(rs + [r], vs + [v], msg, hi)
  {
    hide Shows;
    assert (rs + [r])[..|rs|] == rs && (vs + [v])[..|vs|] == vs;
  }

  lemma ShowsStringsPush(ats: seq<nat>, ss: seq<string>, at: nat, s: string, msg: seq<char>, hi: nat)
    requires ShowsStrings(ats, ss, msg, hi) && ShowsString(msg, at, s, hi)
    ensures ShowsStrings(ats + [at], ss + [s], msg, hi)
  {
    hide ShowsString;
    assert (ats + [at])[..|ats|] == ats && (ss + [s])[..|ss|] == ss;
  }

  /** The members shown so far are still shown when one more is, and that one too. */
  lemma ShowsMember(keys: seq<nat>, ks: seq<string>, values: seq<Ref>, vs: seq<Json>, was: seq<char>, hi: nat,
                    key: nat, k: string, value: Ref, v: Json, now: seq<char>, more: nat)
    requires SameBelow(was, now, hi) && hi <= more <= |now|
    requires ShowsStrings(keys, ks, was, hi) && ShowsAll(values, vs, was, hi)
    requires ShowsString(now, key, k, more) && Shows(value, v, now, more)
    ensures ShowsStrings(keys + [key], ks + [k], now, more) && ShowsAll(values + [value], vs + [v], now, more)
  {
    hide Shows, ShowsString, ShowsAll, ShowsStrings;
    ShowsStringsKept(keys, ks, was, now, hi, more);
    ShowsAllKept(values, vs, was, now, hi, more);
    ShowsAllPush(values, vs, value, v, now, more);
    ShowsStringsPush(keys, ks, key, k, now, more);
  }

  /** Decodes the first size characters of a message. It answers as the value-level
      decoder does, and the strings of the answer are in the message. It is past exactly
      if a token behind the list would be read, and outside exactly if the message is all
      of its buffer and a number that ends it would be converted. */
  method DecodeMessage(message: array<char>, size: nat) returns (end: Ending, r: Ref)
    requires size <= message.Length
    modifies message
    ensures end.Outside? <==> size == message.Length && WritesOutside(old(message[..size]))
    ensures !end.Outside? ==>
      match Decode(old(message[..size]))
      case BadMessage => end == Refuses
      case PastList => end == Past
      case Value(v) => end == Whole && Shows(r, v, message[..], message.Length)
  {
    hide Run, Build, Hits, Shows, Spans, AllSpan, AllApart, SizesCount;
    ghost var text := message[..size];
    var tokens := new Token[TOKENLIST_SIZE](_ => Token(Undefined, 0, 0, 0));
    var parser := new Parser();
    assert text[0..] == text && tokens[..0] == [];
    var n := parser.Parse(message[..size], tokens);
    ParseStructure(text, TOKENLIST_SIZE);
    if n < 0 { return Refuses, RNull; }
    var reader := new Reader(message, tokens[..], tokens[..n], text);
    assert reader.Ahead() == tokens[..n];
    ghost var v;
    end, r, v := reader.DecodeValue();
    if end.Whole? {
      ShowsKept(r, v, message[..], message[..], reader.clean, message.Length);
    }
  }
}
