/**
 * The error record shared by the lexer and the evaluator
 * (include/janssonpath_error.h): an abort flag, a numeric code, a
 * reason text and an extra pointer. The reason text is not modelled;
 * the extra pointer is either absent, a position in the scanned text
 * or the name of a missing function.
 */
module Errors {

  datatype Extra = NoExtra | At(pos: nat) | Name(name: string)

  datatype Error = Error(abort: bool, code: nat, extra: Extra)

  /** The record after a reset: no abort, code 0. */
  const Ok := Error(false, 0, NoExtra)

  // Lexer codes (src/lexeme.c)
  const NULL_CURSOR: nat := 0x11
  const UNKNOWN_CHARACTER: nat := 0x12
  const UNTERMINATED_STRING: nat := 0x21
  const ESCAPE_AT_END: nat := 0x22
  const EMPTY_ESCAPE: nat := 0x23
  const BAD_ENCODING: nat := 0x31

  // Evaluator codes (src/evaluate.c)
  const FUNCTION_NOT_FOUND: nat := 0xa1
  const TO_ARRAY_UNIMPLEMENTED: nat := 0xa3
  const FROM_ARRAY_UNIMPLEMENTED: nat := 0xa4
  const COLLECTION_OPERAND: nat := 0xaa

  /** The aborting error an evaluator step reports for a collection operand. */
  const CollectionOperand := Error(true, COLLECTION_OPERAND, NoExtra)
}
