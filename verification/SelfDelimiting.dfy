/**
 Compact JSON text of the values a configuration consists of: strings, booleans, arrays and objects
 with their members in a fixed order (section 2 of RFC 8259, without insignificant whitespace).
 Such texts are self-delimiting: whatever follows, the text determines the value.
 */
module SelfDelimiting {

  datatype Doc =
    | Text(s: string)
    | Flag(b: bool)
    | List(items: seq<Doc>)
    | Record(members: seq<Member>)

  datatype Member = Member(name: string, value: Doc)

  function HexDigit(n: nat): char
    requires n < 16
  {
    if n < 10 then '0' + n as char else 'a' + (n - 10) as char
  }

  /** The text of one character inside a string (section 7 of RFC 8259). */
  function Escape(c: char): (e: string)
    ensures |e| >= 1 && e[0] != '"'
  {
    if c == '"' then ['\\', '"']
    else if c == '\\' then ['\\', '\\']
    else if c as int == 8 then ['\\', 'b']
    else if c as int == 12 then ['\\', 'f']
    else if c as int == 10 then ['\\', 'n']
    else if c as int == 13 then ['\\', 'r']
    else if c as int == 9 then ['\\', 't']
    else if (c as int) < 32 then ['\\', 'u', '0', '0', HexDigit(c as int / 16), HexDigit(c as int % 16)]
    else [c]
  }

  function EscapeAll(s: string): string {
    if s == [] then [] else Escape(s[0]) + EscapeAll(s[1..])
  }

  function Quote(s: string): string { ['"'] + (EscapeAll(s) + ['"']) }

  function Print(d: Doc): string
    decreases d, 0
  {
    match d
    case Text(s) => Quote(s)
    case Flag(b) => if b then "true" else "false"
    case List(xs) => ['['] + PrintItems(xs, true)
    case Record(ms) => ['{'] + PrintMembers(ms, true)
  }

  /** The rest of an array after its bracket or after an item. */
  function PrintItems(xs: seq<Doc>, first: bool): string
    decreases xs, 0
  {
    if xs == [] then [']'] else (if first then [] else [',']) + (Print(xs[0]) + PrintItems(xs[1..], false))
  }

  function PrintMembers(ms: seq<Member>, first: bool): string
    decreases ms, 0
  {
    if ms == [] then ['}']
    else (if first then [] else [',']) + (Quote(ms[0].name) + ([':'] + (Print(ms[0].value) + PrintMembers(ms[1..], false))))
  }

  lemma HexDigitsDiffer(m: nat, n: nat)
    requires m < 16 && n < 16 && HexDigit(m) == HexDigit(n)
    ensures m == n
  {
  }

  lemma EscapeIsPrefixFree(c: char, d: char, x: string, y: string)
    requires Escape(c) + x == Escape(d) + y
    ensures c == d && x == y
  {
    var e, f := Escape(c), Escape(d);
    assert (e + x)[0] == e[0] && (f + y)[0] == f[0];
    if |e| >= 2 && |f| >= 2 {
      assert (e + x)[1] == e[1] && (f + y)[1] == f[1];
      if |e| == 6 && |f| == 6 {
        assert (e + x)[4] == e[4] && (f + y)[4] == f[4];
        assert (e + x)[5] == e[5] && (f + y)[5] == f[5];
        HexDigitsDiffer(c as int / 16, d as int / 16);
        HexDigitsDiffer(c as int % 16, d as int % 16);
      }
    }
    assert c == d;
    assert x == (e + x)[|e|..] && y == (f + y)[|f|..];
  }

  /** A quote ends a string body: no character's text starts with one. */
  lemma BodyStart(s: string, x: string)
    ensures s == [] <==> (EscapeAll(s) + (['"'] + x))[0] == '"'
  {
  }

  lemma UnfoldBody(s: string, rest: string)
    requires s != []
    ensures EscapeAll(s) + rest == Escape(s[0]) + (EscapeAll(s[1..]) + rest)
  {
    hide Escape;
    assert Escape(s[0]) + EscapeAll(s[1..]) + rest == Escape(s[0]) + (EscapeAll(s[1..]) + rest);
  }

  lemma {:induction false} QuoteBody(s: string, t: string, x: string, y: string)
    requires EscapeAll(s) + (['"'] + x) == EscapeAll(t) + (['"'] + y)
    ensures s == t && x == y
  {
    BodyStart(s, x);
    BodyStart(t, y);
    hide EscapeAll, Escape;
    if s == [] || t == [] {
      assert EscapeAll([]) == [] by { EmptyBody(); }
      assert x == ([] + (['"'] + x))[1..] && y == ([] + (['"'] + y))[1..];
    } else {
      UnfoldBody(s, ['"'] + x);
      UnfoldBody(t, ['"'] + y);
      EscapeIsPrefixFree(s[0], t[0], EscapeAll(s[1..]) + (['"'] + x), EscapeAll(t[1..]) + (['"'] + y));
      QuoteBody(s[1..], t[1..], x, y);
      assert s == [s[0]] + s[1..] && t == [t[0]] + t[1..];
    }
  }

  lemma EmptyBody()
    ensures EscapeAll([]) == []
  {
  }

  lemma QuoteUnfold(s: string, x: string)
    ensures (Quote(s) + x)[1..] == EscapeAll(s) + (['"'] + x)
  {
    hide EscapeAll;
  }

  lemma QuoteIsPrefixFree(s: string, t: string, x: string, y: string)
    requires Quote(s) + x == Quote(t) + y
    ensures s == t && x == y
  {
    hide *;
    QuoteUnfold(s, x);
    QuoteUnfold(t, y);
    QuoteBody(s, t, x, y);
  }

  /** The first character of a text tells which kind of value it is. */
  lemma FirstCharacter(d: Doc, x: string)
    ensures |Print(d)| >= 1
    ensures var c := (Print(d) + x)[0];
            && (d.Text? <==> c == '"')
            && (d.Flag? && d.b <==> c == 't') && (d.Flag? && !d.b <==> c == 'f')
            && (d.List? <==> c == '[') && (d.Record? <==> c == '{')
            && c != ']' && c != ','
  {
  }

  lemma Drop(a: string, b: string, x: string)
    ensures ((a + b) + x)[|a|..] == b + x && (a + b) + x == a + (b + x)
  {
  }

  /** Texts are self-delimiting: equal texts with anything behind them are texts of equal values. */
  lemma {:induction false} PrintIsPrefixFree(a: Doc, b: Doc, x: string, y: string)
    requires Print(a) + x == Print(b) + y
    ensures a == b && x == y
    decreases a, 1
  {
    FirstCharacter(a, x);
    FirstCharacter(b, y);
    match a
    case Text(s) => QuoteIsPrefixFree(s, b.s, x, y);
    case Flag(_) => assert x == (Print(a) + x)[|Print(a)|..] && y == (Print(b) + y)[|Print(b)|..];
    case List(xs) =>
      Drop(['['], PrintItems(xs, true), x);
      Drop(['['], PrintItems(b.items, true), y);
      ItemsArePrefixFree(xs, b.items, true, x, y);
    case Record(ms) =>
      Drop(['{'], PrintMembers(ms, true), x);
      Drop(['{'], PrintMembers(b.members, true), y);
      MembersArePrefixFree(ms, b.members, true, x, y);
  }

  lemma {:induction false} ItemsArePrefixFree(xs: seq<Doc>, ys: seq<Doc>, first: bool, x: string, y: string)
    requires PrintItems(xs, first) + x == PrintItems(ys, first) + y
    ensures xs == ys && x == y
    decreases xs, 0
  {
    var sep := if first then [] else [','];
    if xs == [] && ys == [] {
      assert x == ([']'] + x)[1..] && y == ([']'] + y)[1..];
    } else if xs == [] || ys == [] {
      var zs, z := if xs == [] then ys else xs, if xs == [] then y else x;
      ItemsStart(zs, first, z);
    } else {
      ItemsUnfold(xs, first, x);
      ItemsUnfold(ys, first, y);
      PrintIsPrefixFree(xs[0], ys[0], PrintItems(xs[1..], false) + x, PrintItems(ys[1..], false) + y);
      ItemsArePrefixFree(xs[1..], ys[1..], false, x, y);
      assert xs == [xs[0]] + xs[1..] && ys == [ys[0]] + ys[1..];
    }
  }

  lemma ItemsStart(zs: seq<Doc>, first: bool, z: string)
    requires zs != []
    ensures |PrintItems(zs, first)| >= 1 && (PrintItems(zs, first) + z)[0] != ']'
  {
    FirstCharacter(zs[0], PrintItems(zs[1..], false) + z);
  }

  lemma ItemsUnfold(xs: seq<Doc>, first: bool, x: string)
    requires xs != []
    ensures (PrintItems(xs, first) + x)[if first then 0 else 1..] == Print(xs[0]) + (PrintItems(xs[1..], false) + x)
  {
    Drop(if first then [] else [','], Print(xs[0]) + PrintItems(xs[1..], false), x);
    Drop(Print(xs[0]), PrintItems(xs[1..], false), x);
  }

  lemma {:induction false} MembersArePrefixFree(ms: seq<Member>, ns: seq<Member>, first: bool, x: string, y: string)
    requires PrintMembers(ms, first) + x == PrintMembers(ns, first) + y
    ensures ms == ns && x == y
    decreases ms, 0
  {
    if ms == [] && ns == [] {
      assert x == (['}'] + x)[1..] && y == (['}'] + y)[1..];
    } else if ms == [] || ns == [] {
      MembersStart(if ms == [] then ns else ms, first, if ms == [] then y else x);
    } else {
      MembersUnfold(ms, first, x);
      MembersUnfold(ns, first, y);
      var restX, restY := PrintMembers(ms[1..], false) + x, PrintMembers(ns[1..], false) + y;
      QuoteIsPrefixFree(ms[0].name, ns[0].name, [':'] + (Print(ms[0].value) + restX), [':'] + (Print(ns[0].value) + restY));
      assert Print(ms[0].value) + restX == ([':'] + (Print(ms[0].value) + restX))[1..];
      assert Print(ns[0].value) + restY == ([':'] + (Print(ns[0].value) + restY))[1..];
      PrintIsPrefixFree(ms[0].value, ns[0].value, restX, restY);
      MembersArePrefixFree(ms[1..], ns[1..], false, x, y);
      assert ms == [ms[0]] + ms[1..] && ns == [ns[0]] + ns[1..];
    }
  }

  lemma MembersStart(ms: seq<Member>, first: bool, z: string)
    requires ms != []
    ensures |PrintMembers(ms, first)| >= 1 && (PrintMembers(ms, first) + z)[0] != '}'
  {
  }

  lemma MembersUnfold(ms: seq<Member>, first: bool, x: string)
    requires ms != []
    ensures (PrintMembers(ms, first) + x)[if first then 0 else 1..] ==
            Quote(ms[0].name) + ([':'] + (Print(ms[0].value) + (PrintMembers(ms[1..], false) + x)))
  {
    var value := Print(ms[0].value) + PrintMembers(ms[1..], false);
    Drop(if first then [] else [','], Quote(ms[0].name) + ([':'] + value), x);
    Drop(Quote(ms[0].name), [':'] + value, x);
    Drop([':'], value, x);
    Drop(Print(ms[0].value), PrintMembers(ms[1..], false), x);
  }
}
