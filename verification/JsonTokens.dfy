/**
 * When rebuilding wants more tokens than there are. The rebuilder recurses over the
 * token list and does not count what is left of it; here the same is decided in one
 * pass over the tokens, and by counting.
 */
module JsonTokens {
  import opened Jsmn
  import opened Json

  /** What is still to be rebuilt: any value, a key, or nothing because a key was no
      string. */
  datatype Want = AValue | AKey | Refusal

  datatype Verdict = Complete(rest: seq<Token>) | Refuses | RunsOut

  function Values(n: nat): (w: seq<Want>)
    ensures |w| == n && Owed(w) == n
  {
    if n == 0 then [] else [AValue] + Values(n - 1)
  }

  function Members(n: nat): (w: seq<Want>)
    ensures Owed(w) == 2 * n
  {
    if n == 0 then [] else [AKey] + ([AValue] + Members(n - 1))
  }

  /** The tokens that some wants come to, if none of those has children. */
  function Owed(wants: seq<Want>): nat {
    if wants == [] then 0 else (if wants[0] == Refusal then 0 else 1) + Owed(wants[1..])
  }

  /** What a token declares to come after it. */
  function Declares(t: Token): seq<Want> {
    match t.kind
    case Array => Values(t.size)
    case Object => Members(t.size)
    case _ => []
  }

  /** What is wanted after a token that was wanted as a value or as a key. */
  function Follow(t: Token, want: Want, wants: seq<Want>): seq<Want> {
    Declares(t) + ((if want == AKey && t.kind != Str then [Refusal] else []) + wants)
  }

  /** One pass over the tokens. */
  function Scan(toks: seq<Token>, wants: seq<Want>): Verdict
    decreases |toks|
  {
    if wants == [] then Complete(toks)
    else if wants[0] == Refusal then Refuses
    else if toks == [] then RunsOut
    else if toks[0].kind == Undefined then Refuses
    else Scan(toks[1..], Follow(toks[0], wants[0], wants[1..]))
  }

  /** The pass goes on after something was rebuilt. */
  function Continue<T>(b: Built<T>, toks: seq<Token>, wants: seq<Want>): Verdict
    requires b.Built? ==> b.used <= |toks|
  {
    match b
    case Built(_, used) => Scan(toks[used..], wants)
    case Refused => Refuses
    case Wanting => RunsOut
  }

  // ------------------------------------------------------------ the pass is the recursion

  lemma {:induction false} ScanIsBuild(text: string, toks: seq<Token>, wants: seq<Want>)
    ensures Scan(toks, [AValue] + wants) == Continue(Build(text, toks), toks, wants)
    decreases |toks|, 0, 1
  {
    hide Build, Scan;
    ScanAfterToken(text, toks, AValue, wants);
    assert [] + wants == wants;
  }

  /** A key is any value, which is refused afterwards if it is no string. */
  lemma {:induction false} ScanKey(text: string, toks: seq<Token>, wants: seq<Want>)
    ensures var b := Build(text, toks);
      Scan(toks, [AKey] + wants) ==
        if b.Built? && !b.value.JString? then Refuses else Continue(b, toks, wants)
    decreases |toks|, 0, 1
  {
    hide Build, Scan;
    ScanAfterToken(text, toks, AKey, wants);
    assert [] + wants == wants;
    if Build(text, toks).Built? {
      KindOfBuilt(text, toks);
      ScanRefusal(toks[Build(text, toks).used..], wants);
    }
  }

  lemma ScanRefusal(toks: seq<Token>, wants: seq<Want>)
    ensures Scan(toks, [Refusal] + wants).Refuses?
  {
  }

  lemma KindOfBuilt(text: string, toks: seq<Token>)
    requires Build(text, toks).Built?
    ensures Build(text, toks).value.JString? <==> toks[0].kind == Str
  {
    hide BuildItems, BuildMembers, Spelled;
  }

  lemma {:induction false} ScanAfterToken(text: string, toks: seq<Token>, want: Want, wants: seq<Want>)
    requires want != Refusal
    ensures var after := (if want == AKey && toks != [] && toks[0].kind != Str then [Refusal] else []) + wants;
      Scan(toks, [want] + wants) == Continue(Build(text, toks), toks, after)
    decreases |toks|, 0, 0
  {
    hide Literal, Spelled, BuildItems, BuildMembers;
    assert ([want] + wants)[1..] == wants;
    if toks != [] && toks[0].kind != Undefined {
      var t := toks[0];
      var after := (if want == AKey && t.kind != Str then [Refusal] else []) + wants;
      assert Scan(toks, [want] + wants) == Scan(toks[1..], Declares(t) + after);
      if t.kind == Array {
        ScanItems(text, toks[1..], t.size, after);
        var b := BuildItems(text, toks[1..], t.size);
        if b.Built? { assert toks[1..][b.used..] == toks[1 + b.used..]; }
      } else if t.kind == Object {
        ScanMembers(text, toks[1..], t.size, after);
        var b := BuildMembers(text, toks[1..], t.size);
        if b.Built? { assert toks[1..][b.used..] == toks[1 + b.used..]; }
      } else {
        assert Declares(t) + after == after;
      }
    }
  }

  lemma {:induction false} ScanItems(text: string, toks: seq<Token>, n: nat, wants: seq<Want>)
    ensures Scan(toks, Values(n) + wants) == Continue(BuildItems(text, toks, n), toks, wants)
    decreases |toks|, n + 1
  {
    hide Build, BuildItems, Scan, Continue;
    if n == 0 {
      assert Values(0) + wants == wants;
      ContinueNone(text, toks, wants);
    } else {
      var first := Build(text, toks);
      assert Values(n) + wants == [AValue] + (Values(n - 1) + wants);
      ScanIsBuild(text, toks, Values(n - 1) + wants);
      ContinueItems(text, toks, n, wants, Values(n - 1) + wants);
      if first.Built? { ScanItems(text, toks[first.used..], n - 1, wants); }
    }
  }

  lemma ContinueNone(text: string, toks: seq<Token>, wants: seq<Want>)
    ensures Continue(BuildItems(text, toks, 0), toks, wants) == Scan(toks, wants)
    ensures Continue(BuildMembers(text, toks, 0), toks, wants) == Scan(toks, wants)
  {
    hide Scan;
    assert toks[0..] == toks;
  }

  /** The first item, and then the others. */
  lemma ContinueItems(text: string, toks: seq<Token>, n: nat, wants: seq<Want>, more: seq<Want>)
    requires n > 0
    ensures var first := Build(text, toks);
      if first.Built? then
        var rest := toks[first.used..];
        && Continue(BuildItems(text, toks, n), toks, wants) == Continue(BuildItems(text, rest, n - 1), rest, wants)
        && Continue(first, toks, more) == Scan(rest, more)
      else Continue(BuildItems(text, toks, n), toks, wants) == Continue(first, toks, more)
  {
    hide Build, Scan;
    var first := Build(text, toks);
    if first.Built? {
      var b := BuildItems(text, toks[first.used..], n - 1);
      if b.Built? { assert toks[first.used..][b.used..] == toks[first.used + b.used..]; }
    }
  }

  lemma {:induction false} ScanMembers(text: string, toks: seq<Token>, n: nat, wants: seq<Want>)
    ensures Scan(toks, Members(n) + wants) == Continue(BuildMembers(text, toks, n), toks, wants)
    decreases |toks|, n + 1
  {
    hide Build, BuildMembers, Scan, Continue;
    if n == 0 {
      assert Members(0) + wants == wants;
      ContinueNone(text, toks, wants);
    } else {
      var key := Build(text, toks);
      var more := Members(n - 1) + wants;
      assert Members(n) + wants == [AKey] + ([AValue] + more);
      ScanKey(text, toks, [AValue] + more);
      ContinueMembers(text, toks, n, wants, [AValue] + more);
      if key.Built? && key.value.JString? {
        var rest := toks[key.used..];
        var value := Build(text, rest);
        ScanIsBuild(text, rest, more);
        ContinueValue(text, toks, n, wants, more);
        if value.Built? { ScanMembers(text, rest[value.used..], n - 1, wants); }
      }
    }
  }

  /** The first key, and what it is refused for. */
  lemma ContinueMembers(text: string, toks: seq<Token>, n: nat, wants: seq<Want>, more: seq<Want>)
    requires n > 0
    ensures var key := Build(text, toks);
      if !key.Built? then Continue(BuildMembers(text, toks, n), toks, wants) == Continue(key, toks, more)
      else if !key.value.JString? then Continue(BuildMembers(text, toks, n), toks, wants).Refuses?
      else Continue(key, toks, more) == Scan(toks[key.used..], more)
  {
    hide Build, Scan;
  }

  /** The first value, and then the other members. */
  lemma ContinueValue(text: string, toks: seq<Token>, n: nat, wants: seq<Want>, more: seq<Want>)
    requires n > 0
    requires var key := Build(text, toks); key.Built? && key.value.JString?
    ensures var rest := toks[Build(text, toks).used..];
      var value := Build(text, rest);
      if value.Built? then
        var last := rest[value.used..];
        && Continue(BuildMembers(text, toks, n), toks, wants) == Continue(BuildMembers(text, last, n - 1), last, wants)
        && Continue(value, rest, more) == Scan(last, more)
      else Continue(BuildMembers(text, toks, n), toks, wants) == Continue(value, rest, more)
  {
    hide Build, Scan;
    var used := Build(text, toks).used;
    var value := Build(text, toks[used..]);
    if value.Built? {
      assert toks[used..][value.used..] == toks[used + value.used..];
      var b := BuildMembers(text, toks[used + value.used..], n - 1);
      if b.Built? { assert toks[used + value.used..][b.used..] == toks[used + value.used + b.used..]; }
    }
  }

  // ------------------------------------------------------------ counting

  /** At no point have as many tokens come as were declared, the first included. */
  predicate AlwaysOwes(toks: seq<Token>, owed: int) {
    owed > 0 && (toks == [] || AlwaysOwes(toks[1..], owed - 1 + Owed(Declares(toks[0]))))
  }

  lemma {:induction false} OwedConcat(a: seq<Want>, b: seq<Want>)
    ensures Owed(a + b) == Owed(a) + Owed(b)
    decreases |a|
  {
    if a == [] {
      assert a + b == b;
    } else {
      assert (a + b)[1..] == a[1..] + b;
      OwedConcat(a[1..], b);
    }
  }

  /** Unless a token is refused, the pass runs out of tokens exactly if more are always
      declared than have come. */
  lemma {:induction false} RunsOutIffOwes(toks: seq<Token>, wants: seq<Want>)
    ensures Scan(toks, wants).RunsOut? ==> AlwaysOwes(toks, Owed(wants))
    ensures Scan(toks, wants).Complete? ==> !AlwaysOwes(toks, Owed(wants))
    decreases |toks|
  {
    hide Declares;
    if wants != [] && wants[0] != Refusal && toks != [] && toks[0].kind != Undefined {
      var t := toks[0];
      var refusal := if wants[0] == AKey && t.kind != Str then [Refusal] else [];
      OwedConcat(Declares(t), refusal + wants[1..]);
      OwedConcat(refusal, wants[1..]);
      RunsOutIffOwes(toks[1..], Follow(t, wants[0], wants[1..]));
    }
  }

  // ------------------------------------------------------------ texts

  /** The rebuilding of a text reads behind the token list exactly if the text has as many
      tokens as the list has slots and the pass over them runs out; then more are always
      declared than have come. */
  lemma PastListIff(text: string)
    ensures Decode(text).PastList? <==>
      && Parse(text, TOKENLIST_SIZE).Tokens?
      && |Parse(text, TOKENLIST_SIZE).toks| == TOKENLIST_SIZE
      && Scan(Parse(text, TOKENLIST_SIZE).toks, [AValue]).RunsOut?
    ensures Decode(text).PastList? ==> AlwaysOwes(Parse(text, TOKENLIST_SIZE).toks, 1)
  {
    hide Run, Build, Scan, AlwaysOwes;
    RunFits(text, 0, [], -1, TOKENLIST_SIZE);
    if Parse(text, TOKENLIST_SIZE).Tokens? {
      var toks := Parse(text, TOKENLIST_SIZE).toks;
      ScanIsBuild(text, toks, []);
      assert [AValue] + [] == [AValue];
      RunsOutIffOwes(toks, [AValue]);
      assert Owed([AValue]) == 1;
      NothingWanted(text, toks);
    }
  }

  lemma NothingWanted(text: string, toks: seq<Token>)
    ensures Continue(Build(text, toks), toks, []).RunsOut? <==> Build(text, toks).Wanting?
  {
    hide Build;
  }

  /** A caller can rule it out beforehand: the counting pass says how many tokens there
      are, and with fewer than the list has slots nothing behind it is read. */
  lemma CountRulesOutPastList(text: string)
    requires CountRun(text, 0) != Count(TOKENLIST_SIZE)
    ensures !Decode(text).PastList?
  {
    hide Run, CountRun, Build;
    RunFits(text, 0, [], -1, TOKENLIST_SIZE);
    if Parse(text, TOKENLIST_SIZE).Tokens? { CountRunCounts(text, 0, [], -1, TOKENLIST_SIZE); }
  }

  // ------------------------------------------------------------ a text that does

  /** k times a zero and a comma. */
  function Zeros(k: nat): string {
    if k == 0 then "" else "0," + Zeros(k - 1)
  }

  /** The tokens of an array after k more such zeros. */
  function WithZeros(toks: seq<Token>, k: nat, pos: nat): (r: seq<Token>)
    requires toks != []
    ensures |r| == |toks| + k
    ensures r[0] == toks[0].(size := toks[0].size + k)
    ensures forall i | 1 <= i < |toks| :: r[i] == toks[i]
    ensures forall i | |toks| <= i < |r| :: r[i].kind == Primitive && r[i].end != -1
    decreases k
  {
    if k == 0 then toks
    else WithZeros(Bump(toks, 0) + [Token(Primitive, pos, pos + 1, 0)], k - 1, pos + 2)
  }

  lemma {:induction false} RunZeros(k: nat, after: string, pos: nat, toks: seq<Token>, max: nat)
    requires toks != [] && toks[0].kind == Array && |toks| + k <= max
    ensures Run(Zeros(k) + after, pos, toks, 0, max) == Run(after, pos + 2 * k, WithZeros(toks, k, pos), 0, max)
    decreases k
  {
    hide Run, Next;
    if k == 0 {
      assert Zeros(0) + after == after;
    } else {
      var rest := Zeros(k - 1) + after;
      var one := Bump(toks, 0) + [Token(Primitive, pos, pos + 1, 0)];
      assert Zeros(k) + after == "0" + ("," + rest);
      RunZero(rest, pos, toks, max);
      RunZeros(k - 1, after, pos + 2, one, max);
    }
  }

  lemma RunZero(rest: string, pos: nat, toks: seq<Token>, max: nat)
    requires toks != [] && toks[0].kind == Array && |toks| < max
    ensures Run("0" + ("," + rest), pos, toks, 0, max)
      == Run(rest, pos + 2, Bump(toks, 0) + [Token(Primitive, pos, pos + 1, 0)], 0, max)
  {
    hide Run, Next;
    var tail := "," + rest;
    var s := "0" + tail;
    var one := Bump(toks, 0) + [Token(Primitive, pos, pos + 1, 0)];
    assert s[1..] == tail && tail[1..] == rest;
    RunTurn(s, pos, toks, 0, max);
    RunTurn(tail, pos + 1, one, 0, max);
    TurnZero(tail, pos, toks, max);
  }

  lemma TurnZero(tail: string, pos: nat, toks: seq<Token>, max: nat)
    requires toks != [] && toks[0].kind == Array && |toks| < max && tail != "" && tail[0] == ','
    ensures var one := Bump(toks, 0) + [Token(Primitive, pos, pos + 1, 0)];
      Next("0" + tail, pos, toks, 0, max) == Go(1, one, 0) && Next(tail, pos + 1, one, 0, max) == Go(1, one, 0)
  {
    var s := "0" + tail;
    assert s[1..] == tail;
    assert PrimitiveLength(tail) == At(0);
    assert PrimitiveLength(s) == At(1);
  }

  /** An array of k zeros and an object whose only key has no value. */
  function GreedyText(k: nat): string {
    "[" + (Zeros(k) + "{\"a\"}]")
  }

  lemma GreedyStart(k: nat, max: nat)
    requires k + 3 <= max
    ensures Run(GreedyText(k), 0, [], -1, max)
      == Run("{\"a\"}]", 1 + 2 * k, WithZeros([Token(Array, 0, -1, 0)], k, 1), 0, max)
  {
    hide Run, Zeros, WithZeros;
    var first := Token(Array, 0, -1, 0);
    var rest := Zeros(k) + "{\"a\"}]";
    assert GreedyText(k)[1..] == rest;
    RunTurn(GreedyText(k), 0, [], -1, max);
    assert Bump([], -1) + [first] == [first];
    RunZeros(k, "{\"a\"}]", 1, [first], max);
  }

  /** The object and its key. */
  lemma GreedyObject(pos: nat, toks: seq<Token>, max: nat)
    requires toks != [] && |toks| + 2 <= max
    ensures Run("{\"a\"}]", pos, toks, 0, max) ==
      Run("}]", pos + 4, Bump(toks, 0) + [Token(Object, pos, -1, 1), Token(Str, pos + 2, pos + 3, 0)], |toks|, max)
  {
    hide Run;
    var rest := "\"a\"}]";
    var one := Bump(toks, 0) + [Token(Object, pos, -1, 0)];
    assert "{\"a\"}]"[1..] == rest;
    RunTurn("{\"a\"}]", pos, toks, 0, max);
    assert rest[1..] == "a\"}]" && "a\"}]"[1..] == "\"}]";
    assert StringLength("\"}]") == At(0);
    assert StringLength("a\"}]") == At(1);
    RunTurn(rest, pos + 1, one, |toks|, max);
    assert rest[3..] == "}]";
    assert Bump(one, |toks|) + [Token(Str, pos + 2, pos + 3, 0)]
        == Bump(toks, 0) + [Token(Object, pos, -1, 1), Token(Str, pos + 2, pos + 3, 0)];
  }

  /** Both containers are closed. */
  lemma GreedyEnd(pos: nat, toks: seq<Token>, n: nat, max: nat)
    requires 0 < n && |toks| == n + 2 <= max
    requires toks[0].kind == Array && Open(toks[0]) && toks[n].kind == Object && Open(toks[n])
    requires forall i | 1 <= i < |toks| && i != n :: !Open(toks[i])
    ensures Run("}]", pos, toks, n, max) ==
      Tokens(toks[n := toks[n].(end := pos + 1)][0 := toks[0].(end := pos + 2)])
  {
    hide Run, LastOpen;
    var inner := toks[n := toks[n].(end := pos + 1)];
    var outer := inner[0 := toks[0].(end := pos + 2)];
    assert LastOpen(toks, |toks|) == n;
    assert Open(inner[0]) && forall i | 1 <= i < |inner| :: !Open(inner[i]) by {
      forall i | 1 <= i < |inner| ensures !Open(inner[i]) { if i != n { assert inner[i] == toks[i]; } }
    }
    assert forall i | 0 <= i < |outer| :: !Open(outer[i]);
    assert LastOpen(inner, n + 1) == 0;
    assert LastOpen(inner, |inner|) == 0;
    assert LastOpen(outer, 1) == -1;
    assert LastOpen(outer, |outer|) == -1;
    RunTurn("}]", pos, toks, n, max);
    assert "}]"[1..] == "]" && "]"[1..] == "";
    assert Next("}]", pos, toks, n, max) == Go(1, inner, 0);
    RunTurn("]", pos + 1, inner, 0, max);
    assert Next("]", pos + 1, inner, 0, max) == Go(1, outer, -1);
    RunEnd("", pos + 2, outer, -1, max);
  }

  /** Tokens of an array of so many children, all but the last two tokens primitives, the
      last two an object and its only key. */
  ghost predicate Greedy(toks: seq<Token>, k: nat) {
    && |toks| == k + 3
    && toks[0].kind == Array && toks[0].size == k + 1
    && (forall i | 1 <= i <= k :: toks[i].kind == Primitive)
    && toks[k + 1].kind == Object && toks[k + 1].size == 1
    && toks[k + 2].kind == Str
  }

  lemma GreedyParse(k: nat, max: nat)
    requires 0 < k && k + 3 <= max
    ensures var r := Parse(GreedyText(k), max); r.Tokens? && Greedy(r.toks, k)
  {
    hide Run, WithZeros, GreedyText;
    var pos := 1 + 2 * k;
    var zeros := WithZeros([Token(Array, 0, -1, 0)], k, 1);
    GreedyStart(k, max);
    GreedyObject(pos, zeros, max);
    var toks := Bump(zeros, 0) + [Token(Object, pos, -1, 1), Token(Str, pos + 2, pos + 3, 0)];
    GreedyEnd(pos + 4, toks, k + 1, max);
  }

  lemma {:induction false} ScanPrimitives(toks: seq<Token>, k: nat, n: nat)
    requires k <= n && k <= |toks| && forall i | 0 <= i < k :: toks[i].kind == Primitive
    ensures Scan(toks, Values(n)) == Scan(toks[k..], Values(n - k))
    decreases k
  {
    hide Scan;
    if k > 0 {
      ScanStep(toks, Values(n));
      ScanPrimitives(toks[1..], k - 1, n - 1);
      assert toks[1..][k - 1..] == toks[k..];
      assert Values(n)[1..] == Values(n - 1);
      assert Follow(toks[0], AValue, Values(n - 1)) == Values(n - 1);
    }
  }

  lemma GreedyRunsOut(toks: seq<Token>, k: nat)
    requires Greedy(toks, k)
    ensures Scan(toks, [AValue]).RunsOut?
  {
    hide Scan;
    ScanStep(toks, [AValue]);
    assert Follow(toks[0], AValue, [AValue][1..]) == Values(k + 1);
    ScanPrimitives(toks[1..], k, k + 1);
    var last := toks[1..][k..];
    assert last == [toks[k + 1], toks[k + 2]];
    assert Values(1) == [AValue] && Members(1) == [AKey, AValue];
    ScanStep(last, Values(1));
    assert Follow(last[0], AValue, Values(1)[1..]) == [AKey, AValue];
    assert last[1..] == [toks[k + 2]] && last[1..][1..] == [];
    ScanStep(last[1..], [AKey, AValue]);
    assert Follow(toks[k + 2], AKey, [AKey, AValue][1..]) == [AValue];
    ScanStep([], [AValue]);
  }

  lemma ScanStep(toks: seq<Token>, wants: seq<Want>)
    requires wants != [] && wants[0] != Refusal
    ensures Scan(toks, wants) ==
      if toks == [] then RunsOut
      else if toks[0].kind == Undefined then Refuses
      else Scan(toks[1..], Follow(toks[0], wants[0], wants[1..]))
  {
    hide Follow;
  }

  /** 125 zeros fill the list, and the key's value is looked for behind it; one zero fewer,
      and it is looked for in the list's last slot and refused. */
  lemma GreedyReadsPastList()
    ensures Decode(GreedyText(125)).PastList?
    ensures Decode(GreedyText(124)) == BadMessage
  {
    hide Run, Zeros, GreedyText, Build, Scan;
    GreedyParse(125, TOKENLIST_SIZE);
    GreedyRunsOut(Parse(GreedyText(125), TOKENLIST_SIZE).toks, 125);
    PastListIff(GreedyText(125));
    GreedyParse(124, TOKENLIST_SIZE);
    var toks := Parse(GreedyText(124), TOKENLIST_SIZE).toks;
    GreedyRunsOut(toks, 124);
    ScanIsBuild(GreedyText(124), toks, []);
    assert [AValue] + [] == [AValue];
    NothingWanted(GreedyText(124), toks);
  }
}
