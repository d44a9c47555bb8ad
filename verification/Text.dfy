/** The few string operations of Go that paths and API versions are taken apart with. */
module Text {

  /** strings.Split with a one-character separator; never empty. */
  function Split(s: string, sep: char): (parts: seq<string>)
    ensures |parts| >= 1
  {
    if s == [] then [[]]
    else
      var rest := Split(s[1..], sep);
      if s[0] == sep then [[]] + rest else [[s[0]] + rest[0]] + rest[1..]
  }

  /** strings.Count of a one-character string. */
  function Count(s: string, c: char): nat {
    if s == [] then 0 else (if s[0] == c then 1 else 0) + Count(s[1..], c)
  }

  predicate HasPrefix(s: string, p: string) { p <= s }

  /** strings.TrimPrefix: at most one copy of the prefix is removed. */
  function TrimPrefix(s: string, p: string): string { if p <= s then s[|p|..] else s }

  /** One copy of a prefix counts for nothing, and where there is none nothing is lost. */
  lemma TrimsOne(s: string, p: string)
    ensures TrimPrefix(p + s, p) == s
    ensures !HasPrefix(s, p) ==> TrimPrefix(s, p) == s
  {
    assert (p + s)[|p|..] == s;
  }

  /** Everything before the last separator, or the empty string, as splitLastSegment does it. */
  function BeforeLast(s: string, c: char): string {
    if s == [] then [] else if s[|s| - 1] == c then s[..|s| - 1] else BeforeLast(s[..|s| - 1], c)
  }

  /** The first part of strings.SplitN with two parts. */
  function Before(s: string, sep: char): (r: string)
    ensures r <= s && sep !in r && (sep in s ==> |r| < |s| && s[|r|] == sep) && (sep !in s ==> r == s)
  {
    if s == [] || s[0] == sep then [] else [s[0]] + Before(s[1..], sep)
  }

  lemma {:induction false} SplitWithout(s: string, sep: char)
    requires sep !in s
    ensures Split(s, sep) == [s]
  {
    if s != [] {
      SplitWithout(s[1..], sep);
      assert s == [s[0]] + s[1..];
    }
  }

  lemma SplitStep(s: string, sep: char)
    requires s != []
    ensures Split(s, sep) == if s[0] == sep then [[]] + Split(s[1..], sep)
                             else [[s[0]] + Split(s[1..], sep)[0]] + Split(s[1..], sep)[1..]
  {
  }

  lemma ConsOfJoin(h: string, p: seq<string>, q: seq<string>)
    ensures [h] + (p + q) == [h] + p + q
  {
  }

  /** Changing the first of several parts leaves those that follow them alone. */
  lemma HeadOfJoin(c: char, p: seq<string>, q: seq<string>)
    requires |p| >= 1
    ensures [[c] + (p + q)[0]] + (p + q)[1..] == [[c] + p[0]] + p[1..] + q
  {
    assert (p + q)[1..] == p[1..] + q;
    ConsOfJoin([c] + p[0], p[1..], q);
  }

  lemma {:induction false} SplitAt(a: string, b: string, sep: char)
    ensures Split(a + [sep] + b, sep) == Split(a, sep) + Split(b, sep)
  {
    var s := a + [sep] + b;
    SplitStep(s, sep);
    if a == [] {
      assert s[0] == sep && s[1..] == b && Split(a, sep) == [[]];
    } else {
      SplitStep(a, sep);
      hide Split;
      assert s[1..] == a[1..] + [sep] + b && s[0] == a[0];
      SplitAt(a[1..], b, sep);
      var p, q := Split(a[1..], sep), Split(b, sep);
      if a[0] == sep { ConsOfJoin([], p, q); } else { HeadOfJoin(a[0], p, q); }
    }
  }

  lemma SplitPair(a: string, b: string, sep: char)
    requires sep !in a && sep !in b
    ensures Split(a + [sep] + b, sep) == [a, b]
  {
    SplitAt(a, b, sep);
    SplitWithout(a, sep);
    SplitWithout(b, sep);
  }

  /** One part more than separators. */
  lemma {:induction false} SplitLength(s: string, sep: char)
    ensures |Split(s, sep)| == Count(s, sep) + 1
  {
    if s != [] { SplitLength(s[1..], sep); }
  }

  lemma {:induction false} CountAppend(a: string, b: string, c: char)
    ensures Count(a + b, c) == Count(a, c) + Count(b, c)
  {
    if a == [] {
      assert a + b == b;
    } else {
      assert (a + b)[1..] == a[1..] + b;
      CountAppend(a[1..], b, c);
    }
  }

  lemma {:induction false} CountZero(s: string, c: char)
    ensures Count(s, c) == 0 <==> c !in s
  {
    if s != [] {
      CountZero(s[1..], c);
      assert s == [s[0]] + s[1..];
    }
  }

  /** No part contains the separator. */
  lemma {:induction false} PartsAreFree(s: string, sep: char, i: nat)
    requires i < |Split(s, sep)|
    ensures sep !in Split(s, sep)[i]
  {
    if s != [] {
      if i == 0 {
        if s[0] != sep { PartsAreFree(s[1..], sep, 0); }
      } else {
        PartsAreFree(s[1..], sep, if s[0] == sep then i - 1 else i);
      }
    }
  }

  /** With exactly two parts the string is the first, the separator and the second. */
  lemma {:induction false} TwoParts(s: string, sep: char)
    requires |Split(s, sep)| == 2
    ensures s == Split(s, sep)[0] + [sep] + Split(s, sep)[1]
  {
    var p := Split(s, sep);
    if s[0] == sep {
      OnePart(s[1..], sep);
      assert s == [sep] + s[1..];
    } else {
      TwoParts(s[1..], sep);
      assert s == [s[0]] + s[1..];
    }
  }

  lemma {:induction false} OnePart(s: string, sep: char)
    requires |Split(s, sep)| == 1
    ensures Split(s, sep) == [s] && sep !in s
  {
    SplitLength(s, sep);
    CountZero(s, sep);
    SplitWithout(s, sep);
  }

  lemma {:induction false} BeforeLastOf(a: string, b: string, c: char)
    requires c !in b
    ensures BeforeLast(a + [c] + b, c) == a
  {
    var s := a + [c] + b;
    if b == [] {
      assert s[..|s| - 1] == a;
    } else {
      assert s[..|s| - 1] == a + [c] + b[..|b| - 1];
      BeforeLastOf(a, b[..|b| - 1], c);
    }
  }

  /** The first part of a split is what is before the first separator. */
  lemma {:induction false} FirstPart(s: string, sep: char)
    ensures Split(s, sep)[0] == Before(s, sep)
  {
    if s != [] && s[0] != sep { FirstPart(s[1..], sep); }
  }

  /** Cutting off the last segment cuts off the last part. */
  lemma {:induction false} BeforeLastSplit(s: string, sep: char)
    requires sep in s
    ensures Split(s, sep) == Split(BeforeLast(s, sep), sep) + [Split(s, sep)[|Split(s, sep)| - 1]]
  {
    var k := LastIndex(s, sep);
    var tail := s[k + 1..];
    assert s == s[..k] + [sep] + tail;
    BeforeLastOf(s[..k], tail, sep);
    SplitAt(s[..k], tail, sep);
    SplitWithout(tail, sep);
  }

  ghost function LastIndex(s: string, c: char): (k: nat)
    requires c in s
    ensures k < |s| && s[k] == c && c !in s[k + 1..]
  {
    if s[|s| - 1] == c then |s| - 1
    else
      assert s == s[..|s| - 1] + [s[|s| - 1]];
      var k := LastIndex(s[..|s| - 1], c);
      assert s[k + 1..] == s[..|s| - 1][k + 1..] + [s[|s| - 1]];
      k
  }
}
