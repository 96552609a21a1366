/**
 * Properties of the scalar operators of src/evaluate.c (:279-473,
 * :552-577): what the operator tables promise, and where the code
 * as written does something else.
 */
module OperatorProperties {
  import opened Wrappers
  import opened Json
  import opened Errors
  import opened Ast
  import opened Operators

  /** Integer negation undoes itself, except on INT64_MIN, where C's `-` overflows. */
  lemma NegateIntegerTwice(p: Platform, x: int64)
    requires x != INT64_MIN
    ensures JsonNeg(p, Some(Int(x))) == Some(Int(-x))
    ensures JsonNeg(p, JsonNeg(p, Some(Int(x)))) == Some(Int(x))
  {
    assert IntArith(p, Sub, 0, x) == -x;
    assert IntArith(p, Sub, 0, -x) == x;
  }

  /** Negating a finite real flips its sign bit and keeps it finite, so negating twice restores it. */
  lemma NegateRealTwice(p: Platform, b: bv64)
    requires IsFiniteBits(b)
    ensures JsonNeg(p, Some(Real(b))) == Some(Real(b ^ SIGN_BIT))
    ensures JsonNeg(p, JsonNeg(p, Some(Real(b)))) == Some(Real(b))
  {
    FlipKeepsExponent(b);
    FlipTwice(b);
  }

  lemma FlipKeepsExponent(b: bv64)
    ensures (b ^ SIGN_BIT) & EXPONENT == b & EXPONENT
  {
  }

  lemma FlipTwice(b: bv64)
    ensures (b ^ SIGN_BIT) ^ SIGN_BIT == b
  {
  }

  /** `-` and `~` both flip a boolean, so each undoes itself there. */
  lemma FlipBooleanTwice(p: Platform, b: bool)
    ensures JsonNeg(p, JsonNeg(p, Some(Bool(b)))) == Some(Bool(b))
    ensures JsonBitNot(Some(JsonBitNot(Some(Bool(b))))) == Bool(b)
    ensures JsonNot(Some(JsonNot(Some(Bool(b))))) == Bool(b)
  {
  }

  /** `~` undoes itself on every integer: `-1 - (-1 - x) == x`, and `-1 - x` never overflows. */
  lemma ComplementIntegerTwice(x: int64)
    ensures JsonBitNot(Some(JsonBitNot(Some(Int(x))))) == Int(x)
  {
  }

  /** `!` on a number is a boolean that is true exactly for the zeros. */
  lemma NotOfNumber(v: Option<Json>)
    requires IsNumber(v)
    ensures JsonNot(v) == Bool(if IsInteger(v) then IntegerValue(v) == 0 else IsZeroBits(RealValue(v)))
  {
  }

  /** Integer `+` followed by `-` of the same operand gives back the start, when the sum fits. */
  lemma AddThenSubtract(p: Platform, x: int64, y: int64)
    requires Fits(x as int + y as int)
    ensures JsonBinary(p, RegexEngine(_ => None, (_, _) => false), Add, Some(Int(x)), Some(Int(y)), Ok).value
      == Some(Int(x + y))
    ensures IntArith(p, Sub, IntArith(p, Add, x, y), y) == x
  {
    assert IntArith(p, Add, x, y) == x + y;
  }

  /** Euclidean division of naturals, as Dafny defines it. */
  lemma DivMod(a: nat, b: nat)
    requires b > 0
    ensures a == b * (a / b) + a % b && 0 <= a % b < b
  {
  }

  lemma ModBounds(a: nat, b: nat)
    requires b > 0
    ensures 0 <= a % b < b && a % b <= a
  {
    DivMod(a, b);
    assert b * (a / b) >= 0;
  }

  /** C's `%` is the remainder of the magnitudes, with the sign of the dividend. */
  lemma RemainderValue(x: int, y: int)
    requires y != 0
    ensures CRem(x, y) == if x < 0 then -(Abs(x) % Abs(y)) else Abs(x) % Abs(y)
  {
    var ax: int, ay: int := Abs(x), Abs(y);
    var q: int := ax / ay;
    var m := ay * q;
    if x >= 0 && y > 0 {
      assert y * CDiv(x, y) == m;
    } else if x >= 0 {
      assert y * CDiv(x, y) == (-ay) * (-q) == m;
    } else if y > 0 {
      assert y * CDiv(x, y) == ay * (-q) == -m;
    } else {
      assert y * CDiv(x, y) == (-ay) * q == -m;
    }
    DivMod(ax, ay);
  }

  /** C's `%`: smaller than the divisor in magnitude, with the sign of the dividend. */
  lemma RemainderSignAndSize(x: int, y: int)
    requires y != 0
    ensures Abs(CRem(x, y)) < Abs(y)
    ensures CRem(x, y) > 0 ==> x > 0
    ensures CRem(x, y) < 0 ==> x < 0
    ensures x == y * CDiv(x, y) + CRem(x, y)
  {
    RemainderValue(x, y);
    ModBounds(Abs(x), Abs(y));
  }

  lemma MultipleBounds(n: nat, d: int)
    ensures d >= 1 ==> n * d >= n
    ensures d <= -1 ==> n * d <= 0 - n
  {
    if d >= 1 {
      assert n * d == n + n * (d - 1);
    } else if d <= -1 {
      assert n * d == n * (d + 1) - n;
    }
  }

  lemma MultiplyThenDivide(x: nat, n: nat)
    requires n > 0
    ensures (x * n) / n == x
  {
    DivMod(x * n, n);
    var d := (x * n) / n - x;
    assert n * d == -((x * n) % n);
    MultipleBounds(n, d);
  }

  /** A left shift that fits is undone by the right shift by the same count. */
  lemma ShiftLeftThenRight(p: Platform, x: int64, s: int64)
    requires 0 <= x && 0 <= s < 64
    requires Fits(x as int * Pow2(s as nat))
    ensures IntArith(p, Shl, x, s) == x as int * Pow2(s as nat)
    ensures IntArith(p, Shr, IntArith(p, Shl, x, s), s) == x
  {
    var n := Pow2(s as nat);
    assert x as int * n >= 0;
    MultiplyThenDivide(x as nat, n);
  }

  /** `<` on doubles is irreflexive. */
  lemma RealLessIrreflexive(a: bv64)
    ensures !RealLess(a, a)
  {
  }

  /** `<` on doubles is asymmetric and excludes `==`. */
  lemma RealLessAsymmetric(a: bv64, b: bv64)
    ensures RealLess(a, b) ==> !RealLess(b, a) && !RealsEqual(a, b)
  {
  }

  /** A NaN is neither below, above nor equal to any double. */
  lemma NaNUnordered(a: bv64, b: bv64)
    requires IsNaNBits(a)
    ensures !RealLess(a, b) && !RealLess(b, a) && !RealsEqual(a, b)
  {
  }

  /** `!=` is the negation of `==`, and both are always booleans. */
  lemma NotEqualIsComplement(p: Platform, rx: RegexEngine, l: Option<Json>, r: Option<Json>, err: Error)
    ensures JsonBinary(p, rx, Eq, l, r, err).value == Some(Bool(JsonEqual(l, r)))
    ensures JsonBinary(p, rx, Ne, l, r, err).value == Some(Bool(!JsonEqual(l, r)))
  {
  }

  /**
   * A null, an array, an object or NULL as the left operand is a type
   * mismatch for every operator but `==` and `!=`: the result is JSON
   * null and the error record is untouched.
   */
  lemma MismatchIsNull(p: Platform, rx: RegexEngine, op: BinaryOp, l: Option<Json>, r: Option<Json>, err: Error)
    requires !IsNumber(l) && !IsBoolean(l) && !IsString(l)
    requires op != Eq && op != Ne
    ensures JsonBinary(p, rx, op, l, r, err) == Scalar(Some(Null), err)
  {
  }

  /** Two integers under `+ - * /` give the integer C computes, when C defines it and it fits. */
  lemma IntegerArithmeticIsExact(p: Platform, rx: RegexEngine, op: BinaryOp, x: int64, y: int64, err: Error)
    requires op in {Add, Sub, Mul, Div}
    requires op == Div ==> y != 0
    requires Fits(if op == Add then x + y else if op == Sub then x - y else if op == Mul then x * y else CDiv(x, y))
    ensures JsonBinary(p, rx, op, Some(Int(x)), Some(Int(y)), err) ==
      Scalar(Some(Int(if op == Add then x + y else if op == Sub then x - y else if op == Mul then x * y else CDiv(x, y))), err)
  {
  }

  /**
   * `++` copies the left array and extends it with the right one, but
   * json_array_extend returns 0 on success and the code takes 0 for a
   * failure (:453-458), so the result is JSON null whatever the operands.
   */
  lemma ConcatenationIsAlwaysNull(p: Platform, rx: RegexEngine, xs: seq<Json>, ys: seq<Json>, err: Error)
    ensures JsonBinary(p, rx, ArrayConcat, Some(Arr(xs)), Some(Arr(ys)), err) == Scalar(Some(Null), err)
  {
  }

  /**
   * With one real operand, `+ - *` read both operands with
   * json_real_value, which gives 0.0 for an integer (:284-285), while
   * `/` converts the integer (:309).
   */
  lemma MixedArithmeticReadsIntegerAsZero(p: Platform, op: BinaryOp, i: int64, b: bv64)
    ensures Arith(p, op, Some(Int(i)), Some(Real(b))) == MakeReal(p.floatArith(op, ZERO_BITS, b))
    ensures Divide(p, Some(Int(i)), Some(Real(b))) == MakeReal(p.floatArith(Div, p.intToFloat(i), b))
  {
  }

  /**
   * With one real operand, `< <= > >=` read both operands with
   * json_real_value (:417-452), so an integer compares as 0.0 whatever
   * its value: `1 < 0.5` is true and `1 > 0.5` false.
   */
  lemma MixedComparisonReadsIntegerAsZero(op: BinaryOp, i: int64, b: bv64)
    requires op == Lt || op == Gt || op == Le || op == Ge
    ensures Compare(op, Some(Int(i)), Some(Real(b))) == Compare(op, Some(Real(ZERO_BITS)), Some(Real(b)))
    ensures Compare(op, Some(Real(b)), Some(Int(i))) == Compare(op, Some(Real(b)), Some(Real(ZERO_BITS)))
    ensures Compare(Lt, Some(Int(1)), Some(Real(0x3FE0_0000_0000_0000))) == Bool(true)
    ensures Compare(Gt, Some(Int(1)), Some(Real(0x3FE0_0000_0000_0000))) == Bool(false)
  {
  }

  // `& | ^` on integers (src/evaluate.c:321-353), through the two's-complement bits.

  /** `&`, `|` and `^` do not depend on the order of their integer operands. */
  lemma BitwiseCommutes(op: BinaryOp, x: int64, y: int64)
    requires op == BitAnd || op == BitOr || op == BitXor
    ensures Bitwise(op, Some(Int(x)), Some(Int(y))) == Bitwise(op, Some(Int(y)), Some(Int(x)))
  {
  }

  /** `x ^ x` is 0 for every integer. */
  lemma XorWithItselfIsZero(x: int64)
    ensures Bitwise(BitXor, Some(Int(x)), Some(Int(x))) == Int(0)
  {
    assert FromBits(0) == 0;
  }

  /** `x & 0` and `0 & x` are 0 for every integer. */
  lemma AndWithZeroIsZero(x: int64)
    ensures Bitwise(BitAnd, Some(Int(x)), Some(Int(0))) == Int(0)
    ensures Bitwise(BitAnd, Some(Int(0)), Some(Int(x))) == Int(0)
  {
    assert ToBits(0) == 0;
    assert FromBits(0) == 0;
  }

  /** `12 & 10` is 8. */
  lemma BitAndExample()
    ensures Bitwise(BitAnd, Some(Int(12)), Some(Int(10))) == Int(8)
  {
    var x, y := ToBits(12), ToBits(10);
    assert x == 12;
    assert y == 10;
    assert x & y == 8;
    assert FromBits(8) == 8;
    assert Bitwise(BitAnd, Some(Int(12)), Some(Int(10))) == Int(FromBits(x & y));
  }

  /** `12 | 10` is 14. */
  lemma BitOrExample()
    ensures Bitwise(BitOr, Some(Int(12)), Some(Int(10))) == Int(14)
  {
    var x, y := ToBits(12), ToBits(10);
    assert x == 12;
    assert y == 10;
    assert x | y == 14;
    assert FromBits(14) == 14;
    assert Bitwise(BitOr, Some(Int(12)), Some(Int(10))) == Int(FromBits(x | y));
  }

  /** `12 ^ 10` is 6. */
  lemma BitXorExample()
    ensures Bitwise(BitXor, Some(Int(12)), Some(Int(10))) == Int(6)
  {
    var x, y := ToBits(12), ToBits(10);
    assert x == 12;
    assert y == 10;
    assert x ^ y == 6;
    assert FromBits(6) == 6;
    assert Bitwise(BitXor, Some(Int(12)), Some(Int(10))) == Int(FromBits(x ^ y));
  }
}
