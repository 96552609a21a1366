/**
 * JSON values as jansson holds them, and the jansson accessors the core
 * calls. A `json_t*` that may be NULL is an `Option<Json>`; every
 * accessor below is total over it, the way jansson's own functions
 * tolerate NULL (a type test on NULL is false, the size of a non-array
 * is 0, a lookup that misses yields NULL).
 */
module Json {
  import opened Wrappers

  const INT64_MIN: int := -0x8000_0000_0000_0000
  const INT64_MAX: int := 0x7FFF_FFFF_FFFF_FFFF

  /** json_int_t: a C `long long`. */
  type int64 = x: int | INT64_MIN <= x <= INT64_MAX

  /**
   * A JSON value. A real is kept as the bit pattern of its IEEE double;
   * jansson's documents hold only finite patterns (json_real refuses NaN and
   * infinities), while this type also admits the others.
   */
  datatype Json =
    | Null
    | Bool(b: bool)
    | Int(i: int64)
    | Real(bits: bv64)
    | Str(s: string)
    | Arr(elems: seq<Json>)
    | Obj(members: seq<Member>)

  /** One key/value pair of an object, in iteration order. */
  datatype Member = Member(key: string, value: Json)

  // Type tests (json_is_*); all are false on NULL.

  predicate IsNull(v: Option<Json>) { v.Some? && v.value.Null? }
  predicate IsBoolean(v: Option<Json>) { v.Some? && v.value.Bool? }
  predicate IsTrue(v: Option<Json>) { v == Some(Bool(true)) }
  predicate IsInteger(v: Option<Json>) { v.Some? && v.value.Int? }
  predicate IsReal(v: Option<Json>) { v.Some? && v.value.Real? }
  predicate IsNumber(v: Option<Json>) { IsInteger(v) || IsReal(v) }
  predicate IsString(v: Option<Json>) { v.Some? && v.value.Str? }
  predicate IsArray(v: Option<Json>) { v.Some? && v.value.Arr? }
  predicate IsObject(v: Option<Json>) { v.Some? && v.value.Obj? }

  /** The bit pattern of +0.0. */
  const ZERO_BITS: bv64 := 0

  /** json_integer_value: 0 for anything but an integer. */
  function IntegerValue(v: Option<Json>): int64 {
    if IsInteger(v) then v.value.i else 0
  }

  /** json_real_value: +0.0 for anything but a real. */
  function RealValue(v: Option<Json>): bv64 {
    if IsReal(v) then v.value.bits else ZERO_BITS
  }

  /** json_boolean_value: false for anything but `true`. */
  function BooleanValue(v: Option<Json>): bool {
    IsTrue(v)
  }

  /** json_string_value: NULL for anything but a string. */
  function StringValue(v: Option<Json>): Option<string> {
    if IsString(v) then Some(v.value.s) else None
  }

  /** The elements json_array_foreach visits: none unless `v` is an array. */
  function Elements(v: Option<Json>): seq<Json> {
    if IsArray(v) then v.value.elems else []
  }

  /** json_array_size: 0 for anything but an array. */
  function ArraySize(v: Option<Json>): nat {
    |Elements(v)|
  }

  /** json_array_get: NULL when `v` is not an array or `i` is out of range. */
  function ArrayGet(v: Option<Json>, i: nat): (r: Option<Json>)
    ensures r.Some? <==> i < ArraySize(v)
    ensures r.Some? ==> r.value == Elements(v)[i]
  {
    if i < ArraySize(v) then Some(Elements(v)[i]) else None
  }

  /** json_object_size: 0 for anything but an object. */
  function ObjectSize(v: Option<Json>): nat {
    if IsObject(v) then |v.value.members| else 0
  }

  /** The member values of an object, in iteration order. */
  function MemberValues(ms: seq<Member>): (vs: seq<Json>)
    ensures |vs| == |ms|
    ensures forall k :: 0 <= k < |ms| ==> vs[k] == ms[k].value
  {
    if ms == [] then [] else [ms[0].value] + MemberValues(ms[1..])
  }

  /** json_object_get: NULL when `v` is not an object, the key is NULL or absent. */
  function ObjectGet(v: Option<Json>, key: Option<string>): (r: Option<Json>)
    ensures r.Some? <==> IsObject(v) && key.Some? && exists k :: 0 <= k < |v.value.members| && v.value.members[k].key == key.value
  {
    if IsObject(v) && key.Some? then
      var k := FindFirst(v.value.members, (m: Member) => m.key == key.value);
      if k < |v.value.members| then Some(v.value.members[k].value) else None
    else None
  }

  // Doubles, by their IEEE 754 bit pattern.

  const SIGN_BIT: bv64 := 0x8000_0000_0000_0000
  const MAGNITUDE: bv64 := 0x7FFF_FFFF_FFFF_FFFF
  const EXPONENT: bv64 := 0x7FF0_0000_0000_0000
  const MANTISSA: bv64 := 0x000F_FFFF_FFFF_FFFF

  /** +0.0 or -0.0. */
  predicate IsZeroBits(b: bv64) { b & MAGNITUDE == 0 }

  /** A NaN: all exponent bits set and a non-zero mantissa. */
  predicate IsNaNBits(b: bv64) { b & EXPONENT == EXPONENT && b & MANTISSA != 0 }

  /** Neither infinite nor NaN. */
  predicate IsFiniteBits(b: bv64) { b & EXPONENT != EXPONENT }

  /** json_real: NULL for an infinity or a NaN. */
  function MakeReal(b: bv64): (r: Option<Json>)
    ensures r.Some? <==> IsFiniteBits(b)
    ensures r.Some? ==> r.value == Real(b)
  {
    if IsFiniteBits(b) then Some(Real(b)) else None
  }

  /** `==` on doubles: never for a NaN, and the two zeros are equal. */
  predicate RealsEqual(x: bv64, y: bv64) {
    !IsNaNBits(x) && !IsNaNBits(y) && (x == y || (IsZeroBits(x) && IsZeroBits(y)))
  }

  // Equality (json_equal).

  /** json_equal: false when either side is NULL. */
  predicate JsonEqual(a: Option<Json>, b: Option<Json>) {
    a.Some? && b.Some? && ValueEqual(a.value, b.value)
  }

  /**
   * Structural equality as jansson defines it: reals by `==`, arrays
   * element by element, objects of the same size whose every key maps
   * to equal values in both, whatever the member order.
   */
  predicate ValueEqual(a: Json, b: Json)
    decreases Size(a), 1
  {
    match a
    case Real(x) => b.Real? && RealsEqual(x, b.bits)
    case Arr(xs) => b.Arr? && |xs| == |b.elems| && ElemsEqual(xs, b.elems)
    case Obj(ms) => b.Obj? && |ms| == |b.members| && MembersIn(ms, b.members)
    case _ => a == b
  }

  predicate ElemsEqual(xs: seq<Json>, ys: seq<Json>)
    requires |xs| == |ys|
    decreases ElemsSize(xs), 2
  {
    xs == [] || (ValueEqual(xs[0], ys[0]) && ElemsEqual(xs[1..], ys[1..]))
  }

  /** Every member of `ms` has an equal counterpart under the same key in `others`. */
  predicate MembersIn(ms: seq<Member>, others: seq<Member>)
    decreases MembersSize(ms), 2
  {
    ms == [] ||
    (var k := FindFirst(others, (m: Member) => m.key == ms[0].key);
     k < |others| && ValueEqual(ms[0].value, others[k].value) && MembersIn(ms[1..], others))
  }

  /** The two zeros are equal JSON values, though their bits differ. */
  lemma SignedZerosEqual()
    ensures JsonEqual(Some(Real(0)), Some(Real(SIGN_BIT)))
    ensures Real(0) != Real(SIGN_BIT)
  {
  }

  /** Object equality does not depend on member order. */
  lemma ObjectEqualityIgnoresOrder()
    ensures JsonEqual(
      Some(Obj([Member("a", Int(1)), Member("b", Int(2))])),
      Some(Obj([Member("b", Int(2)), Member("a", Int(1))])))
  {
    var others := [Member("b", Int(2)), Member("a", Int(1))];
    assert FindFirst(others, (m: Member) => m.key == "a") == 1;
    assert FindFirst(others, (m: Member) => m.key == "b") == 0;
  }

  // Size measures used for termination of walks over nested values.

  function Size(v: Json): nat {
    match v
    case Arr(es) => 1 + ElemsSize(es)
    case Obj(ms) => 1 + MembersSize(ms)
    case _ => 1
  }

  function ElemsSize(es: seq<Json>): nat {
    if es == [] then 0 else Size(es[0]) + ElemsSize(es[1..])
  }

  function MembersSize(ms: seq<Member>): nat {
    if ms == [] then 0 else Size(ms[0].value) + MembersSize(ms[1..])
  }

  lemma {:induction false} ElemsSizeAppend(a: seq<Json>, b: seq<Json>)
    ensures ElemsSize(a + b) == ElemsSize(a) + ElemsSize(b)
  {
    if a == [] {
      assert a + b == b;
    } else {
      assert (a + b)[1..] == a[1..] + b;
      ElemsSizeAppend(a[1..], b);
    }
  }

  lemma {:induction false} MemberValuesSize(ms: seq<Member>)
    ensures ElemsSize(MemberValues(ms)) == MembersSize(ms)
  {
    if ms != [] {
      var vs := MemberValues(ms);
      assert vs[1..] == MemberValues(ms[1..]);
      MemberValuesSize(ms[1..]);
    }
  }
}
