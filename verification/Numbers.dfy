// Numbers on their way through proto values, which hold binary64 only, and back to typed
// JSON (crates/turul-a2a-types/src/message.rs, crates/turul-a2a-types/src/pbjson.rs).
module Numbers {
  import opened ByteText
  import opened JsonValue
  import opened Binary64

  const TWO_63: nat := 0x8000_0000_0000_0000
  const TWO_64: nat := 0x1_0000_0000_0000_0000
  const U64_MAX: nat := TWO_64 - 1

  /** A number as serde_json holds it: u64, negative i64, or a finite float. */
  predicate IsNumber(n: Number) {
    match n
    case PosInt(i) => i <= U64_MAX
    case NegInt(i) => -(TWO_63 as int) <= i < 0
    case Float(_) => true
  }

  function AsF64(n: Number): real {
    match n
    case PosInt(i) => Round(i) as real
    case NegInt(i) => -(Round(if i < 0 then -i else i) as real)
    case Float(r) => r
  }

  /** An integer becomes a double, and none is closer to it; of two that are equally close, it
      is the one with the even mantissa. */
  lemma IntegersBecomeTheNearest(n: Number, k: nat)
    requires IsNumber(n) && !n.Float? && Representable(k)
    ensures exists d: nat ::
              && Representable(d) && AsF64(n) == (if n.PosInt? then d else 0 - d) as real
              && Apart(Magnitude(n), d) <= Apart(Magnitude(n), k)
              && (2 * Apart(Magnitude(n), d) == Unit(Magnitude(n)) ==> d % (2 * Unit(Magnitude(n))) == 0)
  {
    hide Unit, Representable;
    var m := Magnitude(n);
    RoundIsRepresentable(m);
    RoundIsNearest(m, k);
    if 2 * Apart(m, Round(m)) == Unit(m) {
      HalfWay(m);
      TiesToEven(m);
    }
  }

  function Magnitude(n: Number): nat
    requires IsNumber(n) && !n.Float?
  {
    match n case PosInt(i) => i case NegInt(i) => 0 - i
  }

  function Apart(a: nat, b: nat): nat {
    if a <= b then b - a else a - b
  }

  lemma HalfWay(n: nat)
    requires 2 * Apart(n, Round(n)) == Unit(n)
    ensures 2 * (n % Unit(n)) == Unit(n)
  {
    Between(n, Unit(n));
  }

  predicate IsWhole(r: real) {
    r.Floor as real == r
  }

  /** The guards and saturating casts of the source. As a double, u64::MAX is 2^64 and the
      bounds of i64 are -2^63 and 2^63. */
  function NormalizeNumber(n: Number): Number {
    var f := AsF64(n);
    if !IsWhole(f) then n
    else if 0.0 <= f <= TWO_64 as real then PosInt(if f.Floor > U64_MAX then U64_MAX else f.Floor)
    else if -(TWO_63 as real) <= f <= TWO_63 as real then NegInt(f.Floor)
    else n
  }

  // ---- Trees ----

  function ToProto(j: Json): Proto
    decreases j
  {
    match j
    case Null => NullValue
    case Bool(b) => BoolValue(b)
    case Num(n) => NumberValue(AsF64(n))
    case Str(t) => StringValue(t)
    case Arr(items) => ListValue(seq(|items|, i requires 0 <= i < |items| => ToProto(items[i])))
    case Obj(fields) => StructValue(map k | k in fields :: ToProto(fields[k]))
  }

  function FromProto(p: Proto): Json
    decreases p
  {
    match p
    case NoKind => Null
    case NullValue => Null
    case BoolValue(b) => Bool(b)
    case NumberValue(r) => Num(Float(r))
    case StringValue(t) => Str(t)
    case ListValue(items) => Arr(seq(|items|, i requires 0 <= i < |items| => FromProto(items[i])))
    case StructValue(fields) => Obj(map k | k in fields :: FromProto(fields[k]))
  }

  function Normalize(j: Json): Json
    decreases j
  {
    match j
    case Num(n) => Num(NormalizeNumber(n))
    case Arr(items) => Arr(seq(|items|, i requires 0 <= i < |items| => Normalize(items[i])))
    case Obj(fields) => Obj(map k | k in fields :: Normalize(fields[k]))
    case _ => j
  }

  // The object arms fill a map in a loop; it may visit the keys in any order.

  method JsonToValue(j: Json) returns (p: Proto)
    ensures p == ToProto(j)
    decreases j, 1
  {
    match j {
      case Null => return NullValue;
      case Bool(b) => return BoolValue(b);
      case Num(n) => return NumberValue(AsF64(n));
      case Str(t) => return StringValue(t);
      case Arr(items) =>
        var values: seq<Proto> := [];
        for i := 0 to |items|
          invariant |values| == i && forall k | 0 <= k < i :: values[k] == ToProto(items[k])
        {
          var value := JsonToValue(items[i]);
          values := values + [value];
        }
        return ListValue(values);
      case Obj(_) =>
        p := ObjectToStruct(j);
    }
  }

  method ObjectToStruct(j: Json) returns (p: Proto)
    requires j.Obj?
    ensures p == ToProto(j)
    decreases j, 0
  {
    var fields: map<Bytes, Proto> := map[];
    var left := j.fields.Keys;
    while left != {}
      invariant left <= j.fields.Keys && fields.Keys == j.fields.Keys - left
      invariant forall k | k in fields :: fields[k] == ToProto(j.fields[k])
      decreases |left|
    {
      var k :| k in left;
      var value := JsonToValue(j.fields[k]);
      fields, left := fields[k := value], left - {k};
    }
    return StructValue(fields);
  }

  method ValueToJson(p: Proto) returns (j: Json)
    ensures j == FromProto(p)
    decreases p, 1
  {
    match p {
      case NoKind => return Null;
      case NullValue => return Null;
      case BoolValue(b) => return Bool(b);
      case NumberValue(r) => return Num(Float(r));
      case StringValue(t) => return Str(t);
      case ListValue(items) =>
        var values: seq<Json> := [];
        for i := 0 to |items|
          invariant |values| == i && forall k | 0 <= k < i :: values[k] == FromProto(items[k])
        {
          var value := ValueToJson(items[i]);
          values := values + [value];
        }
        return Arr(values);
      case StructValue(_) =>
        j := StructToObject(p);
    }
  }

  method StructToObject(p: Proto) returns (j: Json)
    requires p.StructValue?
    ensures j == FromProto(p)
    decreases p, 0
  {
    var fields: map<Bytes, Json> := map[];
    var left := p.fields.Keys;
    while left != {}
      invariant left <= p.fields.Keys && fields.Keys == p.fields.Keys - left
      invariant forall k | k in fields :: fields[k] == FromProto(p.fields[k])
      decreases |left|
    {
      var k :| k in left;
      var value := ValueToJson(p.fields[k]);
      fields, left := fields[k := value], left - {k};
    }
    return Obj(fields);
  }

  // ---- One number ----

  lemma TopOfU64()
    ensures Representable(TWO_64) && Round(U64_MAX) == TWO_64
  {
    assert Unit(0x1_0000_0000_0000_0000) == 4096;
    assert Unit(0xFFFF_FFFF_FFFF_FFFF) == 2048;
  }

  lemma Bounds()
    ensures Representable(TWO_64) && Representable(TWO_63) && Round(U64_MAX) == TWO_64
  {
    TopOfU64();
    hide Round;
    assert Unit(0x8000_0000_0000_0000) == 2048;
  }

  lemma RoundStaysInRange(n: nat, bound: nat)
    requires n <= bound && Representable(bound)
    ensures Round(n) <= bound && (n > 0 ==> Round(n) > 0)
  {
    RoundIsNearest(n, bound);
    SmallIsExact(1);
    RoundIsNearest(n, 1);
  }

  /** A number comes back through a double as it was exactly if it is an integer that a double
      holds, or u64::MAX, or a float that normalisation does not touch. */
  predicate Survives(n: Number) {
    match n
    case PosInt(i) => Representable(i) || i == U64_MAX
    case NegInt(i) => Representable(if i < 0 then -i else i)
    case Float(r) => !IsWhole(r) || r < -(TWO_63 as real) || r > TWO_64 as real
  }

  lemma PosIntSurvives(i: nat)
    requires i <= U64_MAX
    ensures NormalizeNumber(Float(AsF64(PosInt(i)))) == PosInt(i) <==> Survives(PosInt(i))
  {
    hide Unit, Round, Representable;
    Bounds();
    RoundStaysInRange(i, TWO_64);
    RoundKeepsRepresentable(i);
    assert (Round(i) as real).Floor == Round(i);
  }

  lemma NegIntSurvives(i: int)
    requires i < 0 && -i <= TWO_63
    ensures NormalizeNumber(Float(AsF64(NegInt(i)))) == NegInt(i) <==> Survives(NegInt(i))
  {
    hide Unit, Round, Representable;
    Bounds();
    RoundStaysInRange(-i, TWO_63);
    RoundKeepsRepresentable(-i);
    assert (-(Round(-i) as real)).Floor == 0 - Round(-i);
  }

  lemma NumberSurvives(n: Number)
    requires IsNumber(n)
    ensures NormalizeNumber(Float(AsF64(n))) == n <==> Survives(n)
  {
    hide Unit, Round, Representable;
    match n
    case PosInt(i) => PosIntSurvives(i);
    case NegInt(i) => NegIntSurvives(i);
    case Float(_) =>
  }

  /** The number a JSON number denotes. */
  function Value(n: Number): real {
    match n
    case PosInt(i) => i as real
    case NegInt(i) => i as real
    case Float(r) => r
  }

  /** Of the doubles, normalisation changes the value of one only: 2^64, which the guard lets
      through and the cast saturates. Every whole one from -2^63 up to it becomes an integer;
      fractions and all others stay as they are. */
  lemma NormalizedValue(r: real)
    ensures Value(NormalizeNumber(Float(r))) == r <==> r != TWO_64 as real
    ensures NormalizeNumber(Float(r)) == Float(r) <==> Survives(Float(r))
    ensures !Survives(Float(r)) ==>
              NormalizeNumber(Float(r)) ==
                if r < 0.0 then NegInt(r.Floor) else PosInt(if r == TWO_64 as real then U64_MAX else r.Floor)
  {
  }

  // ---- Trees of numbers ----

  ghost predicate AllNumbers(j: Json, p: Number -> bool)
    decreases j
  {
    match j
    case Num(n) => p(n)
    case Arr(items) => forall i | 0 <= i < |items| :: AllNumbers(items[i], p)
    case Obj(fields) => forall k | k in fields :: AllNumbers(fields[k], p)
    case _ => true
  }

  function Back(j: Json): Json {
    Normalize(FromProto(ToProto(j)))
  }

  /** At any depth: a tree comes back from its proto value as it was exactly if each of its
      numbers does. */
  lemma {:induction false} TreeSurvives(j: Json)
    requires AllNumbers(j, IsNumber)
    ensures Back(j) == j <==> AllNumbers(j, Survives)
    decreases j
  {
    match j
    case Num(n) => NumberSurvives(n);
    case Arr(items) =>
      forall i | 0 <= i < |items| ensures Back(items[i]) == items[i] <==> AllNumbers(items[i], Survives) {
        TreeSurvives(items[i]);
      }
      BackOfArray(items);
    case Obj(fields) =>
      forall k | k in fields ensures Back(fields[k]) == fields[k] <==> AllNumbers(fields[k], Survives) {
        TreeSurvives(fields[k]);
      }
      BackOfObject(fields);
    case _ =>
  }

  lemma BackOfArray(items: seq<Json>)
    ensures Back(Arr(items)) == Arr(items) <==> forall i | 0 <= i < |items| :: Back(items[i]) == items[i]
  {
    var back := Back(Arr(items));
    assert |back.items| == |items|;
    assert forall i | 0 <= i < |items| :: back.items[i] == Back(items[i]);
  }

  lemma BackOfObject(fields: map<Bytes, Json>)
    ensures Back(Obj(fields)) == Obj(fields) <==> forall k | k in fields :: Back(fields[k]) == fields[k]
  {
    var back := Back(Obj(fields));
    assert back.fields.Keys == fields.Keys;
    assert forall k | k in fields :: back.fields[k] == Back(fields[k]);
    if forall k | k in fields :: Back(fields[k]) == fields[k] {
      assert back.fields == fields;
    }
  }

  /** An integer of magnitude at most 2^53. */
  predicate SafeInteger(n: Number) {
    match n
    case PosInt(i) => i <= MANTISSA
    case NegInt(i) => i < 0 && -i <= MANTISSA
    case Float(_) => false
  }

  /** Every JSON integer of magnitude at most 2^53, at any nesting depth, survives. */
  lemma {:induction false} SafeIntegersSurvive(j: Json)
    requires AllNumbers(j, SafeInteger)
    ensures Back(j) == j
    decreases j
  {
    match j
    case Num(n) =>
      SmallIsExact(match n case PosInt(i) => i case NegInt(i) => -i case Float(_) => 0);
      NumberSurvives(n);
    case Arr(items) =>
      forall i | 0 <= i < |items| ensures Back(items[i]) == items[i] {
        SafeIntegersSurvive(items[i]);
      }
      BackOfArray(items);
    case Obj(fields) =>
      forall k | k in fields ensures Back(fields[k]) == fields[k] {
        SafeIntegersSurvive(fields[k]);
      }
      BackOfObject(fields);
    case _ =>
  }

  // ---- Proto values ----

  ghost predicate HasKinds(p: Proto)
    decreases p
  {
    match p
    case NoKind => false
    case ListValue(items) => forall i | 0 <= i < |items| :: HasKinds(items[i])
    case StructValue(fields) => forall k | k in fields :: HasKinds(fields[k])
    case _ => true
  }

  /** The two conversions are inverse on proto values, except that a value with no kind comes
      back as null. */
  lemma {:induction false} ProtoRoundTrip(p: Proto)
    ensures ToProto(FromProto(p)) == p <==> HasKinds(p)
    decreases p
  {
    match p
    case ListValue(items) =>
      forall i | 0 <= i < |items| ensures ToProto(FromProto(items[i])) == items[i] <==> HasKinds(items[i]) {
        ProtoRoundTrip(items[i]);
      }
      ListRoundTrip(items);
    case StructValue(fields) =>
      forall k | k in fields ensures ToProto(FromProto(fields[k])) == fields[k] <==> HasKinds(fields[k]) {
        ProtoRoundTrip(fields[k]);
      }
      StructRoundTrip(fields);
    case _ =>
  }

  lemma ListRoundTrip(items: seq<Proto>)
    ensures ToProto(FromProto(ListValue(items))) == ListValue(items) <==>
              forall i | 0 <= i < |items| :: ToProto(FromProto(items[i])) == items[i]
  {
    var back := ToProto(FromProto(ListValue(items)));
    assert |back.items| == |items|;
    assert forall i | 0 <= i < |items| :: back.items[i] == ToProto(FromProto(items[i]));
  }

  lemma StructRoundTrip(fields: map<Bytes, Proto>)
    ensures ToProto(FromProto(StructValue(fields))) == StructValue(fields) <==>
              forall k | k in fields :: ToProto(FromProto(fields[k])) == fields[k]
  {
    var back := ToProto(FromProto(StructValue(fields)));
    assert back.fields.Keys == fields.Keys;
    assert forall k | k in fields :: back.fields[k] == ToProto(FromProto(fields[k]));
    if forall k | k in fields :: ToProto(FromProto(fields[k])) == fields[k] {
      assert back.fields == fields;
    }
  }
}
