/**
 * The scalar operators of the evaluator: json_binary (src/evaluate.c
 * :279-473) and json_not, json_neg and json_bitnot (:552-577). A type
 * mismatch yields JSON null rather than an error.
 *
 * What C leaves to the platform is a parameter: the rounding of double
 * arithmetic, the conversions between doubles and integers, and the
 * value of an integer operation whose result C leaves undefined
 * (overflow, division by zero, shifts out of range). Everything else
 * (integer results that C defines, boolean logic, equality, double
 * comparisons and signs) is computed here.
 */
module Operators {
  import opened Wrappers
  import opened Json
  import opened Errors
  import opened Ast

  /** What the C platform decides. */
  datatype Platform = Platform(
    undefinedInt: (BinaryOp, int64, int64) -> int64,
    floatArith: (BinaryOp, bv64, bv64) -> bv64,
    intToFloat: int64 -> bv64,
    floatToInt: bv64 -> int64)

  /** The regular-expression engine: a compile step that may fail with a code, and a sub-match test. */
  datatype RegexEngine = RegexEngine(
    compileError: string -> Option<nat>,
    matches: (string, string) -> bool)

  /** The value of a scalar operation and the error record after it. */
  datatype Scalar = Scalar(value: Option<Json>, err: Error)

  // ---------------------------------------------------------------
  // Integers (json_int_t).
  // ---------------------------------------------------------------

  const TWO_64: int := 0x1_0000_0000_0000_0000

  predicate Fits(x: int) { INT64_MIN <= x <= INT64_MAX }

  function Pow2(n: nat): (r: nat)
    ensures r > 0
  {
    if n == 0 then 1 else 2 * Pow2(n - 1)
  }

  function Abs(x: int): nat { if x < 0 then -x else x }

  /** C's `/`: the quotient truncated toward zero. */
  function CDiv(x: int, y: int): int
    requires y != 0
  {
    var q := Abs(x) / Abs(y);
    if (x < 0) != (y < 0) then -q else q
  }

  /** C's `%`: what `x / y` leaves over. */
  function CRem(x: int, y: int): int
    requires y != 0
  {
    x - y * CDiv(x, y)
  }

  /**
   * The value C gives an integer operator, where C gives one: `None`
   * for division by zero, for a shift count outside 0..63, for a
   * negative left operand of a shift (undefined for `<<`, left to the
   * implementation for `>>`).
   */
  function ExactInt(op: BinaryOp, x: int64, y: int64): Option<int> {
    match op
    case Add => Some(x + y)
    case Sub => Some(x - y)
    case Mul => Some(x * y)
    case Div => if y == 0 then None else Some(CDiv(x, y))
    case Rem => if y == 0 || !Fits(CDiv(x, y)) then None else Some(CRem(x, y))
    case Shl => if 0 <= y < 64 && 0 <= x then Some(x * Pow2(y as nat)) else None
    case Shr => if 0 <= y < 64 && 0 <= x then Some(x / Pow2(y as nat)) else None
    case _ => None
  }

  /** An integer operator on two json_int_t values: the exact value when C defines it and it fits. */
  function IntArith(p: Platform, op: BinaryOp, x: int64, y: int64): int64 {
    var e := ExactInt(op, x, y);
    if e.Some? && Fits(e.value) then e.value else p.undefinedInt(op, x, y)
  }

  /** A size_t converted to json_int_t: reduced modulo 2^64 into the signed range. */
  function SizeToInt(n: nat): (x: int64)
    ensures n <= INT64_MAX ==> x == n
  {
    var m := n % TWO_64;
    if m > INT64_MAX then m - TWO_64 else m
  }

  /** The two's complement bits of a json_int_t. */
  function ToBits(x: int64): bv64 {
    (if x < 0 then x + TWO_64 else x) as bv64
  }

  function FromBits(b: bv64): int64 {
    if b as int > INT64_MAX then b as int - TWO_64 else b as int
  }

  // ---------------------------------------------------------------
  // Doubles.
  // ---------------------------------------------------------------

  /** A double as a C condition: true unless it is a zero. */
  predicate RealTruth(b: bv64) { !IsZeroBits(b) }

  /** `<` on doubles: false when a NaN takes part; the two zeros are not ordered. */
  predicate RealLess(a: bv64, b: bv64) {
    if IsNaNBits(a) || IsNaNBits(b) then false
    else if IsZeroBits(a) && IsZeroBits(b) then false
    else
      var negA, negB := a & SIGN_BIT != 0, b & SIGN_BIT != 0;
      if negA != negB then negA
      else if negA then a & MAGNITUDE > b & MAGNITUDE
      else a & MAGNITUDE < b & MAGNITUDE
  }

  /** json_number_value: an integer converted to a double, a real as is, +0.0 otherwise. */
  function NumberValue(p: Platform, v: Option<Json>): bv64 {
    if IsInteger(v) then p.intToFloat(IntegerValue(v)) else RealValue(v)
  }

  /** A number as a C condition; `(double)i` is zero only for `i == 0`. */
  predicate NumberTruth(v: Option<Json>) {
    if IsInteger(v) then IntegerValue(v) != 0 else RealTruth(RealValue(v))
  }

  /** `(json_int_t)` of a number, as the slice bounds and numeric indexes read it. */
  function NumberToIndex(p: Platform, v: Option<Json>): int64 {
    if IsInteger(v) then IntegerValue(v) else p.floatToInt(RealValue(v))
  }

  // ---------------------------------------------------------------
  // json_binary, case by case.
  // ---------------------------------------------------------------

  /**
   * `+ - *` (:282-305): null unless both are numbers; a double result
   * when either is a real, read with json_real_value, which gives 0.0
   * for an integer; an integer result otherwise.
   */
  function Arith(p: Platform, op: BinaryOp, l: Option<Json>, r: Option<Json>): (v: Option<Json>)
    ensures !IsNumber(l) || !IsNumber(r) ==> v == Some(Null)
    ensures IsInteger(l) && IsInteger(r) ==> v.Some? && v.value.Int?
    ensures IsNumber(l) && IsNumber(r) && (IsReal(l) || IsReal(r)) ==> v.None? || v.value.Real?
  {
    if !IsNumber(l) || !IsNumber(r) then Some(Null)
    else if IsReal(l) || IsReal(r) then MakeReal(p.floatArith(op, RealValue(l), RealValue(r)))
    else Some(Int(IntArith(p, op, IntegerValue(l), IntegerValue(r))))
  }

  /** `/` (:306-313): as Arith, but a double division converts an integer operand with json_number_value. */
  function Divide(p: Platform, l: Option<Json>, r: Option<Json>): (v: Option<Json>)
    ensures !IsNumber(l) || !IsNumber(r) ==> v == Some(Null)
    ensures IsInteger(l) && IsInteger(r) ==> v.Some? && v.value.Int?
    ensures IsNumber(l) && IsNumber(r) && (IsReal(l) || IsReal(r)) ==> v.None? || v.value.Real?
  {
    if !IsNumber(l) || !IsNumber(r) then Some(Null)
    else if IsReal(l) || IsReal(r) then MakeReal(p.floatArith(Div, NumberValue(p, l), NumberValue(p, r)))
    else Some(Int(IntArith(p, Div, IntegerValue(l), IntegerValue(r))))
  }

  /** `% << >>` (:314-320, :396-410): integers only. */
  function IntegerOnly(p: Platform, op: BinaryOp, l: Option<Json>, r: Option<Json>): (v: Json)
    ensures v.Int? <==> IsInteger(l) && IsInteger(r)
    ensures !v.Int? ==> v == Null
  {
    if IsInteger(l) && IsInteger(r) then Int(IntArith(p, op, IntegerValue(l), IntegerValue(r))) else Null
  }

  /** `& | ^` (:321-353): bitwise on two integers, logical on two booleans, null otherwise. */
  function Bitwise(op: BinaryOp, l: Option<Json>, r: Option<Json>): (v: Json)
    requires op == BitAnd || op == BitOr || op == BitXor
    ensures IsBoolean(l) && IsBoolean(r) ==> v == Bool(
      if op == BitAnd then BooleanValue(l) && BooleanValue(r)
      else if op == BitOr then BooleanValue(l) || BooleanValue(r)
      else BooleanValue(l) != BooleanValue(r))
    ensures IsInteger(l) && IsInteger(r) ==> v.Int?
    ensures !(IsInteger(l) && IsInteger(r)) && !(IsBoolean(l) && IsBoolean(r)) ==> v == Null
  {
    if IsInteger(l) && IsInteger(r) then
      var x, y := ToBits(IntegerValue(l)), ToBits(IntegerValue(r));
      Int(FromBits(if op == BitAnd then x & y else if op == BitOr then x | y else x ^ y))
    else if IsBoolean(l) && IsBoolean(r) then
      var a, b := BooleanValue(l), BooleanValue(r);
      Bool(if op == BitAnd then a && b else if op == BitOr then a || b else (if a then 1 else 0) != (if b then 1 else 0))
    else Null
  }

  /** An operand of `&&` or `||`: a number or a boolean, read as a condition. */
  predicate IsCondition(v: Option<Json>) { IsNumber(v) || IsBoolean(v) }

  function Truth(v: Option<Json>): bool {
    if IsNumber(v) then NumberTruth(v) else BooleanValue(v)
  }

  /** `&& ||` (:354-395): null unless both operands are numbers or booleans. */
  function Logic(op: BinaryOp, l: Option<Json>, r: Option<Json>): (v: Json)
    requires op == And || op == Or
    ensures v.Null? <==> !IsCondition(l) || !IsCondition(r)
    ensures IsCondition(l) && IsCondition(r) ==>
      v == Bool(if op == And then Truth(l) && Truth(r) else Truth(l) || Truth(r))
  {
    if !IsCondition(l) then Null
    else if !IsCondition(r) then Null
    else if op == And then Bool(Truth(l) && Truth(r))
    else Bool(Truth(l) || Truth(r))
  }

  /** `< > <= >=` (:417-452): null unless both are numbers; reals read with json_real_value. */
  function Compare(op: BinaryOp, l: Option<Json>, r: Option<Json>): (v: Json)
    requires op == Lt || op == Gt || op == Le || op == Ge
    ensures v.Null? <==> !IsNumber(l) || !IsNumber(r)
    ensures IsInteger(l) && IsInteger(r) ==> v == Bool(
      var x, y := IntegerValue(l), IntegerValue(r);
      if op == Lt then x < y else if op == Gt then x > y else if op == Le then x <= y else x >= y)
  {
    if !IsNumber(l) || !IsNumber(r) then Null
    else if IsReal(l) || IsReal(r) then
      var x, y := RealValue(l), RealValue(r);
      Bool(if op == Lt then RealLess(x, y)
           else if op == Gt then RealLess(y, x)
           else if op == Le then RealLess(x, y) || RealsEqual(x, y)
           else RealLess(y, x) || RealsEqual(x, y))
    else
      var x, y := IntegerValue(l), IntegerValue(r);
      Bool(if op == Lt then x < y else if op == Gt then x > y else if op == Le then x <= y else x >= y)
  }

  /**
   * `=~` (:459-468): null unless both are strings; a failed compile
   * overwrites the error record with an aborting one; an error record
   * that already aborts also yields null.
   */
  function MatchRegex(rx: RegexEngine, l: Option<Json>, r: Option<Json>, err: Error): (s: Scalar)
    ensures !IsString(l) || !IsString(r) ==> s == Scalar(Some(Null), err)
    ensures s.value.Some? && (s.value.value.Null? || s.value.value.Bool?)
    ensures s.err == err || (s.err.abort && s.value == Some(Null))
    ensures IsString(l) && IsString(r) && rx.compileError(StringValue(r).value).Some? ==>
      s == Scalar(Some(Null), Error(true, rx.compileError(StringValue(r).value).value, NoExtra))
    ensures IsString(l) && IsString(r) && rx.compileError(StringValue(r).value).None? && err.abort ==>
      s == Scalar(Some(Null), err)
    ensures IsString(l) && IsString(r) && rx.compileError(StringValue(r).value).None? && !err.abort ==>
      s == Scalar(Some(Bool(rx.matches(StringValue(l).value, StringValue(r).value))), err)
  {
    if !IsString(l) || !IsString(r) then Scalar(Some(Null), err)
    else
      var pattern := StringValue(r).value;
      var failed := rx.compileError(pattern);
      var err' := if failed.Some? then Error(true, failed.value, NoExtra) else err;
      if err'.abort then Scalar(Some(Null), err')
      else Scalar(Some(Bool(rx.matches(StringValue(l).value, pattern))), err')
  }

  /**
   * json_binary. `++` (:453-458) copies the left array and extends it,
   * but reads json_array_extend's 0 for success as a failure, so it
   * yields null whatever the operands.
   */
  function JsonBinary(p: Platform, rx: RegexEngine, op: BinaryOp, l: Option<Json>, r: Option<Json>, err: Error): (s: Scalar)
    ensures op != RegexMatch ==> s.err == err
    ensures op == Eq || op == Ne ==> s.value.Some? && s.value.value.Bool?
    ensures s.value.None? ==> op in {Add, Sub, Mul, Div}
  {
    match op
    case Add => Scalar(Arith(p, op, l, r), err)
    case Sub => Scalar(Arith(p, op, l, r), err)
    case Mul => Scalar(Arith(p, op, l, r), err)
    case Div => Scalar(Divide(p, l, r), err)
    case Rem => Scalar(Some(IntegerOnly(p, op, l, r)), err)
    case Shl => Scalar(Some(IntegerOnly(p, op, l, r)), err)
    case Shr => Scalar(Some(IntegerOnly(p, op, l, r)), err)
    case BitAnd => Scalar(Some(Bitwise(op, l, r)), err)
    case BitOr => Scalar(Some(Bitwise(op, l, r)), err)
    case BitXor => Scalar(Some(Bitwise(op, l, r)), err)
    case And => Scalar(Some(Logic(op, l, r)), err)
    case Or => Scalar(Some(Logic(op, l, r)), err)
    case Eq => Scalar(Some(Bool(JsonEqual(l, r))), err)
    case Ne => Scalar(Some(Bool(!JsonEqual(l, r))), err)
    case Lt => Scalar(Some(Compare(op, l, r)), err)
    case Gt => Scalar(Some(Compare(op, l, r)), err)
    case Le => Scalar(Some(Compare(op, l, r)), err)
    case Ge => Scalar(Some(Compare(op, l, r)), err)
    case ArrayConcat => Scalar(Some(Null), err)
    case RegexMatch => MatchRegex(rx, l, r, err)
  }

  // ---------------------------------------------------------------
  // Unary operators (:552-577).
  // ---------------------------------------------------------------

  /** json_not: negates a boolean or the truth of a number; null otherwise. */
  function JsonNot(v: Option<Json>): (r: Json)
    ensures IsBoolean(v) ==> r == Bool(!BooleanValue(v))
    ensures IsNumber(v) ==> r == Bool(!NumberTruth(v))
    ensures !IsBoolean(v) && !IsNumber(v) ==> r == Null
  {
    if IsBoolean(v) then Bool(!BooleanValue(v))
    else if IsNumber(v) then Bool(!NumberTruth(v))
    else Null
  }

  /** json_neg: flips a boolean, negates an integer or a real; null otherwise. */
  function JsonNeg(p: Platform, v: Option<Json>): (r: Option<Json>)
    ensures IsBoolean(v) ==> r == Some(Bool(!BooleanValue(v)))
    ensures IsInteger(v) && IntegerValue(v) != INT64_MIN ==> r == Some(Int(-IntegerValue(v)))
    ensures IsReal(v) && IsFiniteBits(RealValue(v)) ==> r == Some(Real(RealValue(v) ^ SIGN_BIT))
    ensures !IsBoolean(v) && !IsNumber(v) ==> r == Some(Null)
  {
    if IsBoolean(v) then Some(Bool(!BooleanValue(v)))
    else if IsInteger(v) then Some(Int(IntArith(p, Sub, 0, IntegerValue(v))))
    else if IsReal(v) then MakeReal(RealValue(v) ^ SIGN_BIT)
    else Some(Null)
  }

  /** json_bitnot: flips a boolean, complements an integer (`~x` is `-x-1`); null otherwise. */
  function JsonBitNot(v: Option<Json>): (r: Json)
    ensures IsBoolean(v) ==> r == Bool(!BooleanValue(v))
    ensures IsInteger(v) ==> r == Int(-1 - IntegerValue(v) as int)
    ensures !IsBoolean(v) && !IsInteger(v) ==> r == Null
  {
    if IsBoolean(v) then Bool(!BooleanValue(v))
    else if IsInteger(v) then Int(-1 - IntegerValue(v) as int)
    else Null
  }

  /** The scalar function of a broadcasting unary operator. */
  function UnaryValue(p: Platform, op: UnaryOp, v: Option<Json>): Option<Json> {
    match op
    case Not => Some(JsonNot(v))
    case Neg => JsonNeg(p, v)
    case BitNot => Some(JsonBitNot(v))
    case _ => v
  }
}
