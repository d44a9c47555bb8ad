/**
 Values read from the cluster as Jsonnet syntax trees. Evaluating the tree of a value gives that value,
 whatever order the fields of its objects were visited in, except that Jsonnet numbers are doubles.
 */
module JsonnetNode {
  import opened Wrappers

  /** The values the conversion may meet: JSON, ready-made nodes, and anything else. */
  datatype Value =
    | Null
    | Bool(b: bool)
    | Int(i: int)
    | Float(r: real)
    | Str(s: string)
    | List(items: seq<Value>)
    | Dict(entries: map<string, Value>)
    | Ready(node: Node)
    | Unsupported

  /** Number literals keep their text; it is the digits of an integer or the shortest text of a double. */
  datatype Numeral = Digits(i: int) | Shortest(r: real)

  datatype Node =
    | LiteralNull
    | LiteralBoolean(b: bool)
    | LiteralNumber(original: Numeral)
    | LiteralString(s: string)
    | Array(elements: seq<Node>)
    | DesugaredObject(fields: seq<Field>)

  datatype Field = Field(name: Node, body: Node)

  /** What a Jsonnet program sees; all numbers are doubles. */
  datatype Data = DNull | DBool(b: bool) | DNumber(r: real) | DString(s: string) | DArray(items: seq<Data>) | DObject(fields: map<string, Data>)

  datatype Problem = UnsupportedType

  // ---- doubles ----

  function Pow2(n: nat): (r: nat)
    ensures r >= 1
  {
    if n == 0 then 1 else 2 * Pow2(n - 1)
  }

  const EXACT := 0x20_0000_0000_0000

  /** The spacing of doubles at a magnitude: one up to 2^53, then doubling. */
  function Spacing(n: nat): (r: nat)
    ensures r >= 1
    decreases n
  {
    if n < EXACT then 1 else 2 * Spacing(n / 2)
  }

  /** The nearest multiple of the spacing, the even one of two. */
  function Nearest(n: nat): nat {
    var u := Spacing(n);
    var q, rest := n / u, n % u;
    if 2 * rest < u || (2 * rest == u && q % 2 == 0) then q * u else (q + 1) * u
  }

  function ToDouble(i: int): int { if i >= 0 then Nearest(i) else 0 - Nearest(-i) }

  predicate Representable(i: int) { (if i >= 0 then i else -i) % Spacing(if i >= 0 then i else -i) == 0 }

  lemma Multiples(n: nat, u: nat, q: nat, rest: nat)
    requires q * u + rest == n && rest < u
    ensures q * u == n <==> rest == 0
    ensures (q + 1) * u != n
  {
    assert (q + 1) * u == q * u + u;
  }

  lemma NearestIsExact(n: nat)
    ensures Nearest(n) == n <==> n % Spacing(n) == 0
  {
    var u := Spacing(n);
    hide Spacing;
    assert n / u * u + n % u == n;
    Multiples(n, u, n / u, n % u);
    if n % u == 0 { assert 2 * (n % u) < u; }
  }

  /** Rounding keeps exactly the multiples of the spacing, all integers of magnitude up to 2^53 among them. */
  lemma RoundingIsExact(i: int)
    ensures ToDouble(i) == i <==> Representable(i)
    ensures -EXACT <= i <= EXACT ==> Representable(i)
  {
    var n: nat := if i >= 0 then i else -i;
    NearestIsExact(n);
    hide Nearest;
    if n < EXACT {
      assert Spacing(n) == 1;
    } else if n == EXACT {
      assert Spacing(n / 2) == 1;
    }
  }

  /** The first integer that does not survive. */
  lemma FirstLost()
    ensures !Representable(EXACT + 1) && ToDouble(EXACT + 1) == EXACT
  {
    assert Spacing((EXACT + 1) / 2) == 1;
    assert Spacing(EXACT + 1) == 2;
  }

  // ---- evaluation ----

  function Eval(n: Node): Option<Data> {
    match n
    case LiteralNull => Some(DNull)
    case LiteralBoolean(b) => Some(DBool(b))
    case LiteralNumber(Digits(i)) => Some(DNumber(ToDouble(i) as real))
    case LiteralNumber(Shortest(r)) => Some(DNumber(r))
    case LiteralString(s) => Some(DString(s))
    case Array(es) => var items := EvalItems(es); if items.Some? then Some(DArray(items.value)) else None
    case DesugaredObject(fs) => var fields := EvalFields(fs); if fields.Some? then Some(DObject(fields.value)) else None
  }

  function EvalItems(es: seq<Node>): Option<seq<Data>> {
    if es == [] then Some([])
    else
      var rest, last := EvalItems(es[..|es| - 1]), Eval(es[|es| - 1]);
      if rest.Some? && last.Some? then Some(rest.value + [last.value]) else None
  }

  function EvalField(f: Field): Option<(string, Data)> {
    var name, body := Eval(f.name), Eval(f.body);
    if name.Some? && name.value.DString? && body.Some? then Some((name.value.s, body.value)) else None
  }

  /** Field names must be strings and differ. */
  function EvalFields(fs: seq<Field>): Option<map<string, Data>> {
    if fs == [] then Some(map[])
    else
      var rest, last := EvalFields(fs[..|fs| - 1]), EvalField(fs[|fs| - 1]);
      if rest.Some? && last.Some? && last.value.0 !in rest.value then Some(rest.value[last.value.0 := last.value.1]) else None
  }

  // ---- meaning ----

  /** The data a value stands for, with its integers passed through a rounding. */
  ghost function Meaning(v: Value, round: int -> int): Option<Data>
    decreases v, 1
  {
    match v
    case Null => Some(DNull)
    case Bool(b) => Some(DBool(b))
    case Int(i) => Some(DNumber(round(i) as real))
    case Float(r) => Some(DNumber(r))
    case Str(s) => Some(DString(s))
    case List(xs) => var items := MeaningItems(xs, round); if items.Some? then Some(DArray(items.value)) else None
    case Dict(m) => var fields := MeaningEntries(v, m.Keys, round); if fields.Some? then Some(DObject(fields.value)) else None
    case Ready(n) => Eval(n)
    case Unsupported => None
  }

  ghost function MeaningItems(xs: seq<Value>, round: int -> int): Option<seq<Data>> {
    if xs == [] then Some([])
    else
      var rest, last := MeaningItems(xs[..|xs| - 1], round), Meaning(xs[|xs| - 1], round);
      if rest.Some? && last.Some? then Some(rest.value + [last.value]) else None
  }

  /** The fields with some of an object's keys. */
  ghost function MeaningEntries(v: Value, keys: set<string>, round: int -> int): Option<map<string, Data>>
    requires v.Dict? && keys <= v.entries.Keys
    decreases v, 0
  {
    if forall k :: k in keys ==> Meaning(v.entries[k], round).Some?
    then Some(map k | k in keys :: Meaning(v.entries[k], round).value)
    else None
  }

  ghost predicate Supported(v: Value) {
    match v
    case Unsupported => false
    case List(xs) => forall i :: 0 <= i < |xs| ==> Supported(xs[i])
    case Dict(m) => forall k :: k in m ==> Supported(m[k])
    case _ => true
  }

  // ---- the conversion ----

  /** jsonValueToJsonnetNode. The entries of an object are visited in any order. */
  method Convert(v: Value) returns (r: Result<Node, Problem>)
    ensures r.Ok? <==> Supported(v)
    ensures r.Ok? ==> Eval(r.value) == Meaning(v, ToDouble)
    decreases v, 1
  {
    match v
    case Null => return Ok(LiteralNull);
    case Ready(n) => return Ok(n);
    case Bool(b) => return Ok(LiteralBoolean(b));
    case Int(i) => return Ok(LiteralNumber(Digits(i)));
    case Float(x) => return Ok(LiteralNumber(Shortest(x)));
    case Str(s) => return Ok(LiteralString(s));
    case Unsupported => return Err(UnsupportedType);
    case List(xs) =>
      var elements := [];
      for i := 0 to |xs|
        invariant |elements| == i
        invariant forall k :: 0 <= k < i ==> Supported(xs[k]) && Eval(elements[k]) == Meaning(xs[k], ToDouble)
      {
        var n := Convert(xs[i]);
        if n.Err? { return n; }
        elements := elements + [n.value];
      }
      ItemsMean(elements, xs);
      return Ok(Array(elements));
    case Dict(m) =>
      var fields := [];
      var rest := m.Keys;
      while rest != {}
        invariant rest <= m.Keys && forall k :: k in m.Keys - rest ==> Supported(m[k])
        invariant EvalFields(fields) == MeaningEntries(v, m.Keys - rest, ToDouble)
        decreases rest
      {
        var k :| k in rest;
        var n := Convert(m[k]);
        if n.Err? { return n; }
        AddField(fields, v, m.Keys - rest, k, n.value);
        fields := fields + [Field(LiteralString(k), n.value)];
        assert m.Keys - (rest - {k}) == m.Keys - rest + {k};
        rest := rest - {k};
      }
      assert m.Keys - rest == m.Keys;
      return Ok(DesugaredObject(fields));
  }

  lemma {:induction false} ItemsMean(es: seq<Node>, xs: seq<Value>)
    requires |es| == |xs| && forall k :: 0 <= k < |xs| ==> Eval(es[k]) == Meaning(xs[k], ToDouble)
    ensures EvalItems(es) == MeaningItems(xs, ToDouble)
  {
    if es != [] { ItemsMean(es[..|es| - 1], xs[..|xs| - 1]); }
  }

  /** A field for one more key, evaluated and meant. */
  lemma AddField(fs: seq<Field>, v: Value, done: set<string>, k: string, body: Node)
    requires v.Dict? && done <= v.entries.Keys && k in v.entries && k !in done && Eval(body) == Meaning(v.entries[k], ToDouble)
    requires EvalFields(fs) == MeaningEntries(v, done, ToDouble)
    ensures EvalFields(fs + [Field(LiteralString(k), body)]) == MeaningEntries(v, done + {k}, ToDouble)
  {
    var f := Field(LiteralString(k), body);
    assert (fs + [f])[..|fs|] == fs;
    assert EvalField(f) == if Eval(body).Some? then Some((k, Eval(body).value)) else None;
    hide Eval, EvalField, Meaning;
    var d := MeaningEntries(v, done + {k}, ToDouble);
    if d.Some? { assert d.value == EvalFields(fs).value[k := Eval(body).value]; }
  }

  // ---- exactness ----

  /** All integers of a value survive the rounding. */
  ghost predicate AllRepresentable(v: Value) {
    match v
    case Int(i) => Representable(i)
    case List(xs) => forall i :: 0 <= i < |xs| ==> AllRepresentable(xs[i])
    case Dict(m) => forall k :: k in m ==> AllRepresentable(m[k])
    case _ => true
  }

  /** The data the value stands for, all integers kept. */
  ghost function Exactly(v: Value): Option<Data> { Meaning(v, i => i) }

  lemma {:induction false} SameMeaning(v: Value)
    ensures Meaning(v, ToDouble).Some? <==> Exactly(v).Some?
    ensures Exactly(v).Some? ==> (Meaning(v, ToDouble) == Exactly(v) <==> AllRepresentable(v))
    decreases v, 1
  {
    match v
    case List(xs) => SameItems(xs);
    case Dict(m) => SameEntries(v);
    case Int(i) => RoundingIsExact(i);
    case _ =>
  }

  lemma {:induction false} SameItems(xs: seq<Value>)
    ensures MeaningItems(xs, ToDouble).Some? <==> MeaningItems(xs, i => i).Some?
    ensures MeaningItems(xs, i => i).Some? ==>
              (MeaningItems(xs, ToDouble) == MeaningItems(xs, i => i) <==> forall k :: 0 <= k < |xs| ==> AllRepresentable(xs[k]))
  {
    if xs != [] {
      var n := |xs| - 1;
      SameItems(xs[..n]);
      SameMeaning(xs[n]);
      assert xs == xs[..n] + [xs[n]];
      if MeaningItems(xs, i => i).Some? {
        var a, b := MeaningItems(xs[..n], ToDouble).value, MeaningItems(xs[..n], i => i).value;
        var c, d := Meaning(xs[n], ToDouble).value, Exactly(xs[n]).value;
        assert (a + [c])[..|a|] == a && (b + [d])[..|b|] == b && (a + [c])[|a|] == c && (b + [d])[|b|] == d;
      }
    }
  }

  lemma {:induction false} SameEntries(v: Value)
    requires v.Dict?
    ensures MeaningEntries(v, v.entries.Keys, ToDouble).Some? <==> MeaningEntries(v, v.entries.Keys, i => i).Some?
    ensures MeaningEntries(v, v.entries.Keys, i => i).Some? ==>
              (MeaningEntries(v, v.entries.Keys, ToDouble) == MeaningEntries(v, v.entries.Keys, i => i) <==> forall k :: k in v.entries ==> AllRepresentable(v.entries[k]))
    decreases v, 0
  {
    forall k | k in v.entries
      ensures Meaning(v.entries[k], ToDouble).Some? <==> Exactly(v.entries[k]).Some?
      ensures Exactly(v.entries[k]).Some? ==> (Meaning(v.entries[k], ToDouble) == Exactly(v.entries[k]) <==> AllRepresentable(v.entries[k]))
    {
      SameMeaning(v.entries[k]);
    }
    if MeaningEntries(v, v.entries.Keys, i => i).Some? {
      var a, b := MeaningEntries(v, v.entries.Keys, ToDouble).value, MeaningEntries(v, v.entries.Keys, i => i).value;
      if a == b {
        forall k | k in v.entries
          ensures AllRepresentable(v.entries[k])
        {
          assert a[k] == b[k];
        }
      }
    }
  }

  /**
   Converting and evaluating gives the value itself if and only if all its integers are doubles; up to
   a magnitude of 2^53 they all are.
   */
  method ConvertAndEvaluate(v: Value) returns (data: Option<Data>)
    requires Supported(v) && Exactly(v).Some?
    ensures data.Some?
    ensures data == Exactly(v) <==> AllRepresentable(v)
  {
    SameMeaning(v);
    var node := Convert(v);
    return Eval(node.value);
  }
}
