/**
 * Byte buffers and string slices (include/private/common.h).
 *
 * A C `const char*` into a NUL-terminated buffer is a position in the
 * buffer `text`; a NULL pointer is `None`.
 */
module Slices {
  import opened Wrappers

  type Byte = b: int | 0 <= b < 256

  const NUL: Byte := 0

  /** A NUL-terminated buffer. */
  predicate IsBuffer(text: seq<Byte>) {
    |text| > 0 && text[|text| - 1] == NUL
  }

  /**
   * A slice of the buffer: `end` is one past the last byte, and an
   * absent `end` means "up to the NUL terminator". An absent `begin` is
   * the empty word.
   */
  datatype Slice = Slice(begin: Option<nat>, end: Option<nat>)

  const EmptyWord := Slice(None, None)

  function Span(b: nat, e: nat): Slice {
    Slice(Some(b), Some(e))
  }

  /** IS_SLICE_EMPTY: only the begin pointer is tested. */
  predicate IsEmpty(s: Slice) {
    s.begin.None?
  }

  /** strlen: the distance from `i` to the first NUL. */
  function StrLen(text: seq<Byte>, i: nat): (n: nat)
    requires IsBuffer(text) && i < |text|
    ensures i + n < |text| && text[i + n] == NUL
    ensures forall k :: i <= k < i + n ==> text[k] != NUL
    decreases |text| - i
  {
    if text[i] == NUL then 0 else 1 + StrLen(text, i + 1)
  }

  predicate WellFormed(text: seq<Byte>, s: Slice) {
    IsBuffer(text) &&
    (s.begin.Some? ==> s.begin.value < |text|) &&
    (s.begin.Some? && s.end.Some? ==> s.begin.value <= s.end.value <= |text|)
  }

  /** SLICE_SIZE: the number of bytes the slice covers. */
  function Size(text: seq<Byte>, s: Slice): (n: nat)
    requires WellFormed(text, s)
    ensures IsEmpty(s) ==> n == 0
    ensures s.begin.Some? && s.end.Some? ==> s.begin.value + n == s.end.value
    ensures s.begin.Some? && s.end.None? ==>
      s.begin.value + n < |text| && text[s.begin.value + n] == NUL &&
      forall k :: s.begin.value <= k < s.begin.value + n ==> text[k] != NUL
  {
    match s.begin
    case None => 0
    case Some(b) =>
      match s.end
      case Some(e) => e - b
      case None => StrLen(text, b)
  }
}
