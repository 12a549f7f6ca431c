/** Comparison and filtering of decoded values, shared by filters, sorts and indexes. */
module Query {
  import opened Values

  /** How values print. Numbers print injectively, so a printed number can be read back. */
  datatype Codec = Codec(render: int -> string, parse: string -> int)

  ghost predicate ValidCodec(c: Codec) {
    forall n :: c.parse(c.render(n)) == n
  }

  function Render(v: Value, c: Codec): string {
    match v
    case Null => "<nil>"
    case Bool(b) => if b then "true" else "false"
    case Num(n) => c.render(n)
    case Str(s) => s
    case Composite(t) => t
  }

  // ----- strings in byte order ------------------------------------------------------------------

  function CompareStr(a: string, b: string): (r: int)
    ensures -1 <= r <= 1
  {
    if |a| == 0 then if |b| == 0 then 0 else -1
    else if |b| == 0 then 1
    else if a[0] < b[0] then -1
    else if a[0] > b[0] then 1
    else CompareStr(a[1..], b[1..])
  }

  lemma {:induction false} CompareStrSwap(a: string, b: string)
    ensures CompareStr(a, b) == -CompareStr(b, a)
    ensures CompareStr(a, b) == 0 <==> a == b
  {
    if |a| > 0 && |b| > 0 {
      CompareStrSwap(a[1..], b[1..]);
      if a[0] == b[0] && a[1..] == b[1..] {
        assert a == [a[0]] + a[1..] && b == [b[0]] + b[1..];
      }
    }
  }

  lemma {:induction false} CompareStrTransitive(a: string, b: string, c: string)
    requires CompareStr(a, b) <= 0 && CompareStr(b, c) <= 0
    ensures CompareStr(a, c) <= 0
    ensures CompareStr(a, b) < 0 || CompareStr(b, c) < 0 ==> CompareStr(a, c) < 0
  {
    if |a| > 0 && |b| > 0 && |c| > 0 && a[0] == b[0] == c[0] {
      CompareStrTransitive(a[1..], b[1..], c[1..]);
    }
  }

  /** The strings agree up to `n`, where `a` ends or has the smaller character. */
  ghost predicate DiffersAt(a: string, b: string, n: nat) {
    && n <= |a| && n < |b| && (n == |a| || a[n] < b[n])
    && forall m :: 0 <= m < n ==> a[m] == b[m]
  }

  lemma {:induction false} SplitIsLess(a: string, b: string, n: nat)
    requires DiffersAt(a, b, n)
    ensures CompareStr(a, b) < 0
  {
    if n > 0 {
      assert DiffersAt(a[1..], b[1..], n - 1);
      SplitIsLess(a[1..], b[1..], n - 1);
    }
  }

  lemma {:induction false} LessSplits(a: string, b: string) returns (n: nat)
    requires CompareStr(a, b) < 0
    ensures DiffersAt(a, b, n)
  {
    if |a| == 0 || a[0] < b[0] {
      n := 0;
    } else {
      n := LessSplits(a[1..], b[1..]);
      n := n + 1;
    }
  }

  /** String comparison is the lexicographic order. */
  lemma CompareStrIsLexicographic(a: string, b: string)
    ensures CompareStr(a, b) < 0 <==> exists n :: DiffersAt(a, b, n)
    ensures CompareStr(a, b) > 0 <==> exists n :: DiffersAt(b, a, n)
  {
    CompareStrSwap(a, b);
    if CompareStr(a, b) < 0 {
      var n := LessSplits(a, b);
    }
    if CompareStr(b, a) < 0 {
      var n := LessSplits(b, a);
    }
    forall n: nat | DiffersAt(a, b, n)
      ensures CompareStr(a, b) < 0
    {
      SplitIsLess(a, b, n);
    }
    forall n: nat | DiffersAt(b, a, n)
      ensures CompareStr(b, a) < 0
    {
      SplitIsLess(b, a, n);
    }
  }

  // ----- values --------------------------------------------------------------------------------------

  /** Numbers compare numerically; anything else, or a mix, by how it prints. */
  function Compare(a: Value, b: Value, c: Codec): (r: int)
    ensures -1 <= r <= 1
  {
    if a.Num? && b.Num? then
      if a.rank < b.rank then -1 else if a.rank > b.rank then 1 else 0
    else CompareStr(Render(a, c), Render(b, c))
  }

  predicate Equal(a: Value, b: Value, c: Codec) {
    if a.Num? && b.Num? then a.rank == b.rank else Render(a, c) == Render(b, c)
  }

  /** A value equals the string it prints as: truth values by name, null as the word for nothing, strings as themselves. */
  lemma PrintsAs(b: bool, s: string, c: Codec)
    ensures Equal(Bool(b), Str(s), c) <==> (b && s == "true") || (!b && s == "false")
    ensures Equal(Null, Str(s), c) <==> s == "<nil>"
    ensures forall t :: Equal(Str(t), Str(s), c) <==> t == s
    ensures forall n :: Equal(Num(n), Str(s), c) <==> c.render(n) == s
  {
  }

  /** Equality is equality of what is printed: the bucket key decides an equality filter. */
  lemma EqualIsRendered(a: Value, b: Value, c: Codec)
    requires ValidCodec(c)
    ensures Equal(a, b, c) <==> Render(a, c) == Render(b, c)
    ensures Equal(a, b, c) <==> Compare(a, b, c) == 0
  {
    CompareStrSwap(Render(a, c), Render(b, c));
    if a.Num? && b.Num? {
      assert c.parse(c.render(a.rank)) == a.rank && c.parse(c.render(b.rank)) == b.rank;
    }
  }

  lemma CompareSwap(a: Value, b: Value, c: Codec)
    ensures Compare(a, b, c) == -Compare(b, a, c)
  {
    CompareStrSwap(Render(a, c), Render(b, c));
  }

  /** Both values are numbers, or neither is. */
  predicate SameSort(a: Value, b: Value) {
    a.Num? == b.Num?
  }

  lemma CompareTransitive(x: Value, y: Value, z: Value, c: Codec)
    requires SameSort(x, y) && SameSort(y, z)
    requires Compare(x, y, c) <= 0 && Compare(y, z, c) <= 0
    ensures Compare(x, z, c) <= 0
    ensures Compare(x, y, c) < 0 || Compare(y, z, c) < 0 ==> Compare(x, z, c) < 0
  {
    if !x.Num? {
      CompareStrTransitive(Render(x, c), Render(y, c), Render(z, c));
    }
  }

  /** Mixing numbers and strings breaks the order: with decimal printing, 9 < 10 < "5" < 9 is a cycle. */
  lemma MixedCompareCycles(c: Codec, nine: int, ten: int)
    requires nine < ten && c.render(nine) == "9" && c.render(ten) == "10"
    ensures Compare(Num(nine), Num(ten), c) < 0
    ensures Compare(Num(ten), Str("5"), c) < 0
    ensures Compare(Str("5"), Num(nine), c) < 0
  {
  }

  /** Comparison is transitive among some values. */
  ghost predicate TransitiveOn(vs: set<Value>, c: Codec) {
    forall x, y, z :: x in vs && y in vs && z in vs && Compare(x, y, c) <= 0 && Compare(y, z, c) <= 0 ==> Compare(x, z, c) <= 0
  }

  /** A value that is no number prints between two numbers whose printed order is not their order. */
  predicate Straddles(x: Value, y: Value, s: Value, c: Codec) {
    && x.Num? && y.Num? && !s.Num? && x.rank < y.rank
    && CompareStr(Render(y, c), Render(s, c)) <= 0 && CompareStr(Render(s, c), Render(x, c)) <= 0
  }

  lemma StraddleOrChain(x: Value, y: Value, z: Value, c: Codec)
    requires Compare(x, y, c) <= 0 && Compare(y, z, c) <= 0
    ensures Compare(x, z, c) <= 0 || Straddles(x, y, z, c) || Straddles(z, x, y, c) || Straddles(y, z, x, c)
  {
    var a, b, d := Render(x, c), Render(y, c), Render(z, c);
    CompareStrSwap(a, d);
    CompareStrSwap(a, b);
    CompareStrSwap(b, d);
    hide CompareStr;
    if !(x.Num? && y.Num?) && !(y.Num? && z.Num?) {
      CompareStrTransitive(a, b, d);
    }
  }

  /** Among any values comparison is transitive exactly if none of them straddles two of the numbers. */
  lemma TransitiveExactlyWhen(vs: set<Value>, c: Codec)
    ensures TransitiveOn(vs, c) <==> forall x, y, s :: x in vs && y in vs && s in vs ==> !Straddles(x, y, s, c)
  {
    hide CompareStr, Render;
    if TransitiveOn(vs, c) {
      forall x, y, s | x in vs && y in vs && s in vs
        ensures !Straddles(x, y, s, c)
      {
        assert Compare(y, s, c) <= 0 && Compare(s, x, c) <= 0 ==> Compare(y, x, c) <= 0;
      }
    }
    if forall x, y, s :: x in vs && y in vs && s in vs ==> !Straddles(x, y, s, c) {
      forall x, y, z | x in vs && y in vs && z in vs && Compare(x, y, c) <= 0 && Compare(y, z, c) <= 0
        ensures Compare(x, z, c) <= 0
      {
        StraddleOrChain(x, y, z, c);
      }
    }
  }

  // ----- filters -----------------------------------------------------------------------------------------

  datatype Op = Eq | Neq | Gt | Gte | Lt | Lte

  predicate Holds(op: Op, v: Value, q: Value, c: Codec) {
    match op
    case Eq => Equal(v, q, c)
    case Neq => !Equal(v, q, c)
    case Gt => Compare(v, q, c) > 0
    case Gte => Compare(v, q, c) >= 0
    case Lt => Compare(v, q, c) < 0
    case Lte => Compare(v, q, c) <= 0
  }

  /** `Other` stands for the predicates no index serves: substring and pattern matches. */
  datatype Filter =
    | MatchAll
    | Field(field: string, op: Op, value: Value)
    | Other(test: Data -> bool)
    | And(all: seq<Filter>)
    | Or(any: seq<Filter>)

  predicate Match(f: Filter, d: Data, c: Codec) {
    match f
    case MatchAll => true
    case Field(field, op, q) => field in d && Holds(op, d[field], q, c)
    case Other(test) => test(d)
    case And(fs) => forall i :: 0 <= i < |fs| ==> Match(fs[i], d, c)
    case Or(fs) => exists i :: 0 <= i < |fs| && Match(fs[i], d, c)
  }

  /** Evaluates a filter: conjunctions stop at the first child that fails, disjunctions at the first that matches. */
  method Evaluate(f: Filter, d: Data, c: Codec) returns (yes: bool)
    ensures yes <==> Match(f, d, c)
    decreases f
  {
    match f
    case MatchAll => yes := true;
    case Field(field, op, q) =>
      if field !in d {
        return false;
      }
      var k := Compare(d[field], q, c);
      match op {
        case Eq => yes := Equal(d[field], q, c);
        case Neq => yes := !Equal(d[field], q, c);
        case Gt => yes := k > 0;
        case Gte => yes := k >= 0;
        case Lt => yes := k < 0;
        case Lte => yes := k <= 0;
      }
    case Other(test) => yes := test(d);
    case And(fs) =>
      for i := 0 to |fs|
        invariant forall j :: 0 <= j < i ==> Match(fs[j], d, c)
      {
        var child := Evaluate(fs[i], d, c);
        if !child {
          return false;
        }
      }
      yes := true;
    case Or(fs) =>
      for i := 0 to |fs|
        invariant forall j :: 0 <= j < i ==> !Match(fs[j], d, c)
      {
        var child := Evaluate(fs[i], d, c);
        if child {
          return true;
        }
      }
      yes := false;
  }
}
