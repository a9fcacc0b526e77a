/** JSON labels and the equality a filter uses on them.

    A label is found by a filter value when the two denote the same nested
    structure, with numbers compared as numbers: the integer 3 and the float 3.0
    are one label, `true` and 1 are two. */
module Values {
  import opened Basics

  const TWO_63: int := 0x8000_0000_0000_0000
  const TWO_64: int := 0x1_0000_0000_0000_0000

  type U64 = x: int | 0 <= x < TWO_64
  type NegativeI64 = x: int | -TWO_63 <= x < 0 witness -1

  /** A number the way the JSON library stores it: integers that are not negative
      as u64, negative ones as i64, everything else as a finite double. A double
      is its real value; negative zero is a second double with the value zero. */
  datatype Number = PosInt(u: U64) | NegInt(i: NegativeI64) | Float(value: real) | NegativeZero
  {
    predicate IsF64() { Float? || NegativeZero? }

    function AsF64(): real
      requires IsF64()
    {
      if Float? then value else 0.0
    }

    function AsI64(): Option<int> {
      match this
      case PosInt(u) => if u < TWO_63 then Some(u) else None
      case NegInt(i) => Some(i)
      case _ => None
    }

    function AsU64(): Option<int> {
      if PosInt? then Some(u) else None
    }

    /** The number itself. */
    function Exact(): real {
      match this
      case PosInt(u) => u as real
      case NegInt(i) => i as real
      case Float(r) => r
      case NegativeZero => 0.0
    }
  }

  datatype Value =
    | Null
    | Bool(b: bool)
    | Num(n: Number)
    | Str(s: string)
    | Array(items: seq<Value>)
    | Object(fields: map<string, Value>)

  // ------------------------------------------------------- the code's equality

  /** Truncation toward zero. */
  function Truncate(x: real): int {
    if x < 0.0 then -((-x).Floor) else x.Floor
  }

  /** A float cast saturates at the bounds of the target type. */
  function CastI64(x: real): int { Clamp(Truncate(x), -TWO_63, TWO_63 - 1) }

  function CastU64(x: real): int { Clamp(Truncate(x), 0, TWO_64 - 1) }

  function Fract(x: real): real { x - Truncate(x) as real }

  /** `i64::MIN as f64` is -2^63 exactly; `u64::MAX as f64` rounds up to 2^64. */
  predicate IntegerMatchesFloat(integer: Number, float: real) {
    if Fract(float) != 0.0 then false
    else if float < 0.0 then
      float >= -TWO_63 as real && integer.AsI64() == Some(CastI64(float))
    else
      float < TWO_64 as real && integer.AsU64() == Some(CastU64(float))
  }

  predicate SameNumber(x: Number, y: Number) {
    match (x.IsF64(), y.IsF64())
    case (false, false) => x == y
    case (true, true) => x.AsF64() == y.AsF64()
    case (false, true) => IntegerMatchesFloat(x, y.AsF64())
    case (true, false) => IntegerMatchesFloat(y, x.AsF64())
  }

  predicate SameValue(a: Value, b: Value)
    decreases a
  {
    match (a, b)
    case (Num(x), Num(y)) => SameNumber(x, y)
    case (Array(x), Array(y)) =>
      |x| == |y| && forall i | 0 <= i < |x| :: SameValue(x[i], y[i])
    case (Object(x), Object(y)) =>
      |x| == |y| && forall k | k in x :: k in y && SameValue(x[k], y[k])
    case _ => a == b
  }

  // -------------------------------------------------------------- its meaning

  /** What a value denotes: the same tree with every number an exact real. */
  datatype Meaning =
    | NoValue
    | Truth(b: bool)
    | Quantity(r: real)
    | Text(s: string)
    | Listed(items: seq<Meaning>)
    | Named(fields: map<string, Meaning>)

  function Denote(v: Value): Meaning {
    match v
    case Null => NoValue
    case Bool(b) => Truth(b)
    case Num(n) => Quantity(n.Exact())
    case Str(s) => Text(s)
    case Array(items) => Listed(seq(|items|, i requires 0 <= i < |items| => Denote(items[i])))
    case Object(fields) => Named(map k | k in fields :: Denote(fields[k]))
  }

  /** Inside the range guards the cast is exact, and outside them no integer of
      the type could have been equal: comparing by casting the float down is
      comparing the two as exact numbers. */
  lemma MixedComparisonIsExact(integer: Number, float: real)
    requires !integer.IsF64()
    ensures IntegerMatchesFloat(integer, float) <==> integer.Exact() == float
  {
    if integer.Exact() == float {
      assert Truncate(float) == if integer.PosInt? then integer.u else integer.i;
    }
  }

  lemma SameNumberIsEquality(x: Number, y: Number)
    ensures SameNumber(x, y) <==> x.Exact() == y.Exact()
  {
    if !x.IsF64() { MixedComparisonIsExact(x, y.Exact()); }
    if !y.IsF64() { MixedComparisonIsExact(y, x.Exact()); }
  }

  /** A map into a map of the same size that finds every key has the same keys. */
  lemma SameSizeSameKeys<V, W>(x: map<string, V>, y: map<string, W>)
    requires |x| == |y| && forall k | k in x :: k in y
    ensures x.Keys == y.Keys
  {
    assert x.Keys <= y.Keys;
    assert |x.Keys| == |x| && |y.Keys| == |y|;
    assert |y.Keys - x.Keys| == |y.Keys| - |x.Keys|;
    assert y.Keys - x.Keys == {};
  }

  /** Filter equality is equality of meanings, at every depth. */
  lemma {:induction false} SameValueIsEquality(a: Value, b: Value)
    ensures SameValue(a, b) <==> Denote(a) == Denote(b)
    decreases a
  {
    match (a, b) {
      case (Num(x), Num(y)) => SameNumberIsEquality(x, y);
      case (Array(x), Array(y)) =>
        forall i | 0 <= i < |x| && i < |y| ensures SameValue(x[i], y[i]) <==> Denote(x[i]) == Denote(y[i]) {
          SameValueIsEquality(x[i], y[i]);
        }
        if Denote(a) == Denote(b) {
          assert |Denote(a).items| == |x| && |Denote(b).items| == |y|;
          forall i | 0 <= i < |x| ensures SameValue(x[i], y[i]) {
            assert Denote(a).items[i] == Denote(b).items[i];
          }
        }
      case (Object(x), Object(y)) =>
        forall k | k in x && k in y ensures SameValue(x[k], y[k]) <==> Denote(x[k]) == Denote(y[k]) {
          SameValueIsEquality(x[k], y[k]);
        }
        assert Denote(a).fields.Keys == x.Keys && Denote(b).fields.Keys == y.Keys;
        if SameValue(a, b) {
          SameSizeSameKeys(x, y);
          assert Denote(a).fields == Denote(b).fields;
        }
        if Denote(a) == Denote(b) {
          assert x.Keys == y.Keys && |x| == |x.Keys| && |y| == |y.Keys|;
          forall k | k in x ensures k in y && SameValue(x[k], y[k]) {
            assert Denote(a).fields[k] == Denote(b).fields[k];
          }
        }
      case _ =>
    }
  }

  /** Hence filter equality is an equivalence: reflexive, symmetric, transitive. */
  lemma SameValueIsEquivalence(a: Value, b: Value, c: Value)
    ensures SameValue(a, a)
    ensures SameValue(a, b) ==> SameValue(b, a)
    ensures SameValue(a, b) && SameValue(b, c) ==> SameValue(a, c)
  {
    SameValueIsEquality(a, a);
    SameValueIsEquality(a, b);
    SameValueIsEquality(b, a);
    SameValueIsEquality(b, c);
    SameValueIsEquality(a, c);
  }

  // ------------------------------------------------------------------ matching

  /** A filter that is not an object matches everything; an object matches a
      state that has every one of its fields. */
  predicate Matches(state: Value, filter: Value) {
    filter.Object? ==>
      forall k | k in filter.fields ::
        state.Object? && k in state.fields && SameValue(state.fields[k], filter.fields[k])
  }

  /** Matching asks that the state's meaning extend the filter's, and nothing else:
      how either writes its numbers is invisible. */
  lemma MatchingIsExtension(state: Value, fields: map<string, Value>)
    requires fields != map[]
    ensures Matches(state, Object(fields)) <==>
            state.Object? && fields.Keys <= state.fields.Keys &&
            forall k | k in fields :: Denote(state).fields[k] == Denote(Object(fields)).fields[k]
  {
    if state.Object? {
      forall k | k in fields && k in state.fields
        ensures SameValue(state.fields[k], fields[k]) <==>
                Denote(state).fields[k] == Denote(Object(fields)).fields[k]
      {
        SameValueIsEquality(state.fields[k], fields[k]);
      }
    } else {
      var k :| k in fields;
      assert !Matches(state, Object(fields));
    }
  }
}
