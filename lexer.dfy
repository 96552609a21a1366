/**
 * The lexer (src/lexeme.c): splits a JSONPath expression into words.
 *
 * The scanned memory is one NUL-terminated buffer `text`; the cursor
 * `*ps_begin` is a position in it (`None` when NULL) and the optional
 * `s_end` bound is `bound`. The C library's `mblen` is a parameter.
 * Each scanning loop of the source is specified by a recursive function
 * below, and the methods further down run the source's loops and are
 * proved to compute exactly what those functions say.
 */
module Lexer {
  import opened Wrappers
  import opened Errors
  import opened Slices

  // <ctype.h> classes in the C locale.

  predicate IsAscii(c: Byte) { c < 128 }
  predicate IsSpace(c: Byte) { c == 32 || 9 <= c <= 13 }
  predicate IsDigit(c: Byte) { 48 <= c <= 57 }
  predicate IsAlpha(c: Byte) { 65 <= c <= 90 || 97 <= c <= 122 }
  predicate IsAlnum(c: Byte) { IsAlpha(c) || IsDigit(c) }
  predicate IsXDigit(c: Byte) { IsDigit(c) || 65 <= c <= 70 || 97 <= c <= 102 }
  predicate IsPunct(c: Byte) { 33 <= c <= 126 && !IsAlnum(c) }

  const UNDERSCORE: Byte := 95
  const DOT: Byte := 46
  const DOUBLE_QUOTE: Byte := 34
  const SINGLE_QUOTE: Byte := 39
  const BACKSLASH: Byte := 92
  const LOWER_X: Byte := 120

  predicate IsSpaceByte(c: Byte) { IsAscii(c) && IsSpace(c) }
  predicate IsDigitByte(c: Byte) { IsAscii(c) && IsDigit(c) }
  predicate IsHexByte(c: Byte) { IsAscii(c) && IsXDigit(c) }
  predicate StartsIdentifier(c: Byte) { !IsAscii(c) || IsAlpha(c) || c == UNDERSCORE }
  predicate ContinuesIdentifier(c: Byte) { !IsAscii(c) || IsAlnum(c) || c == UNDERSCORE }
  predicate IsQuote(c: Byte) { c == DOUBLE_QUOTE || c == SINGLE_QUOTE }

  /**
   * The C library's mblen as mb_next calls it: the buffer, the position
   * of the character and the number of bytes offered; the answer is the
   * byte length of the character, or <= 0.
   */
  type CharLengthFn = (seq<Byte>, nat, nat) -> int

  /** A cursor position and bound inside the buffer. */
  predicate Within(text: seq<Byte>, pos: nat, bound: Option<nat>) {
    IsBuffer(text) && pos < |text| && (bound.Some? ==> bound.value < |text|)
  }

  /** The end test of next_lexeme: the cursor is at the bound or at a NUL. */
  predicate AtEnd(text: seq<Byte>, pos: nat, bound: Option<nat>)
    requires Within(text, pos, bound)
  {
    bound == Some(pos) || text[pos] == NUL
  }

  /**
   * The number of bytes mb_next offers mblen at `pos`: up to the bound
   * when the cursor is not past it, otherwise the rest of the buffer (a
   * negative distance converted to size_t is unbounded).
   */
  function Offered(text: seq<Byte>, pos: nat, bound: Option<nat>): nat
    requires Within(text, pos, bound)
  {
    if bound.Some? && pos <= bound.value then bound.value - pos else |text| - pos
  }

  /**
   * What the lexer takes from mblen at `pos`. mblen never counts more
   * bytes than it is offered, and never counts the terminating NUL into
   * a character; an answer that would is read as a failure, so that the
   * model never steps outside the buffer.
   */
  function CharAt(mblen: CharLengthFn, text: seq<Byte>, pos: nat, bound: Option<nat>): (n: int)
    requires Within(text, pos, bound)
    ensures n > 0 ==> Within(text, pos + n, bound)
  {
    var offered := Offered(text, pos, bound);
    var n := mblen(text, pos, offered);
    if n < offered || (n == offered && (n == 0 || text[pos + n - 1] != NUL)) then n else -1
  }

  /** The end of the run of ASCII whitespace starting at `i` (the loop at :99). */
  function SpaceRunEnd(text: seq<Byte>, i: nat, bound: Option<nat>): (j: nat)
    requires Within(text, i, bound)
    ensures i <= j && Within(text, j, bound)
    ensures forall k :: i <= k < j ==> IsSpaceByte(text[k])
    ensures bound == Some(j) || !IsSpaceByte(text[j])
    ensures bound.Some? && i <= bound.value ==> j <= bound.value
    decreases |text| - i
  {
    if bound == Some(i) || !IsSpaceByte(text[i]) then i else SpaceRunEnd(text, i + 1, bound)
  }

  /** The end of the run of ASCII digits starting at `i` (the loops at :112 and :114). */
  function DigitRunEnd(text: seq<Byte>, i: nat, bound: Option<nat>): (j: nat)
    requires Within(text, i, bound)
    ensures i <= j && Within(text, j, bound)
    ensures forall k :: i <= k < j ==> IsDigitByte(text[k])
    ensures bound == Some(j) || !IsDigitByte(text[j])
    ensures bound.Some? && i <= bound.value ==> j <= bound.value
    decreases |text| - i
  {
    if bound == Some(i) || !IsDigitByte(text[i]) then i else DigitRunEnd(text, i + 1, bound)
  }

  /** Digits with at most one dot among them: `digit* [.]? digit*`. */
  predicate IsNumberText(s: seq<Byte>) {
    (forall k :: 0 <= k < |s| ==> IsDigitByte(s[k]) || s[k] == DOT) &&
    (forall j, k :: 0 <= j < k < |s| && s[j] == DOT ==> s[k] != DOT)
  }

  /** The end of the longest number prefix starting at `i` (:112-114). */
  function NumberEnd(text: seq<Byte>, i: nat, bound: Option<nat>): (j: nat)
    requires Within(text, i, bound)
    ensures i <= j && Within(text, j, bound)
  {
    var a := DigitRunEnd(text, i, bound);
    var b := if bound != Some(a) && text[a] == DOT then a + 1 else a;
    DigitRunEnd(text, b, bound)
  }

  /** A digit run, at most one dot, and another digit run make number text. */
  lemma NumberTextBetween(text: seq<Byte>, i: nat, a: nat, b: nat, j: nat)
    requires i <= a <= b <= j <= |text|
    requires forall k :: i <= k < a ==> IsDigitByte(text[k])
    requires b == a || (b == a + 1 && text[a] == DOT)
    requires forall k :: b <= k < j ==> IsDigitByte(text[k])
    ensures IsNumberText(text[i..j])
  {
    var s := text[i..j];
    forall k | 0 <= k < |s|
      ensures IsDigitByte(s[k]) || s[k] == DOT
      ensures s[k] == DOT ==> k == a - i
    {
      assert s[k] == text[i + k];
    }
  }

  /** The number loops stop at the end of the longest prefix that is number text. */
  lemma NumberEndIsLongest(text: seq<Byte>, i: nat, bound: Option<nat>)
    requires Within(text, i, bound)
    ensures var j := NumberEnd(text, i, bound);
      IsNumberText(text[i..j]) && (bound == Some(j) || !IsNumberText(text[i..j + 1]))
  {
    NumberEndIsNumber(text, i, bound);
    NumberEndStops(text, i, bound);
  }

  /** What the number loops pass over is number text. */
  lemma NumberEndIsNumber(text: seq<Byte>, i: nat, bound: Option<nat>)
    requires Within(text, i, bound)
    ensures IsNumberText(text[i..NumberEnd(text, i, bound)])
  {
    var a := DigitRunEnd(text, i, bound);
    var b := if bound != Some(a) && text[a] == DOT then a + 1 else a;
    NumberTextBetween(text, i, a, b, DigitRunEnd(text, b, bound));
  }

  /** The byte the number loops stop at, unless it is the bound, does not extend the number text. */
  lemma NumberEndStops(text: seq<Byte>, i: nat, bound: Option<nat>)
    requires Within(text, i, bound)
    ensures var j := NumberEnd(text, i, bound);
      bound == Some(j) || !IsNumberText(text[i..j + 1])
  {
    var a := DigitRunEnd(text, i, bound);
    var b := if bound != Some(a) && text[a] == DOT then a + 1 else a;
    var j := DigitRunEnd(text, b, bound);
    if bound != Some(j) {
      if b == a {
        assert DigitRunEnd(text, a, bound) == a;
      }
      NumberTextEndsBefore(text, i, a, j);
    }
  }

  /** A byte that is neither a digit nor a second dot cannot extend number text. */
  lemma NumberTextEndsBefore(text: seq<Byte>, i: nat, a: nat, j: nat)
    requires i <= a <= j < |text|
    requires !IsDigitByte(text[j])
    requires text[j] == DOT ==> a < j && text[a] == DOT
    ensures !IsNumberText(text[i..j + 1])
  {
    var s := text[i..j + 1];
    assert s[j - i] == text[j];
    if text[j] == DOT {
      assert s[a - i] == text[a];
    }
  }

  /** How a scanning loop ends: after position `next`, or with an error recorded at `at`. */
  datatype Scan = Stop(next: nat) | Fail(code: nat, at: nat, next: nat)

  /** The identifier loop at :104-107, from position `i`. */
  function IdentifierEnd(text: seq<Byte>, i: nat, bound: Option<nat>, mblen: CharLengthFn): (r: Scan)
    requires Within(text, i, bound)
    ensures i <= r.next && Within(text, r.next, bound)
    ensures r.Stop? ==> !ContinuesIdentifier(text[r.next])
    ensures r.Fail? ==> r.code == BAD_ENCODING && r.at == r.next && ContinuesIdentifier(text[r.next])
    decreases |text| - i
  {
    if !ContinuesIdentifier(text[i]) then Stop(i)
    else
      var len := CharAt(mblen, text, i, bound);
      if len <= 0 then Fail(BAD_ENCODING, i, i)
      else IdentifierEnd(text, i + len, bound, mblen)
  }

  /** Where the string loop goes on after an escape sequence, or why it stops. */
  datatype Escape = Resume(next: nat) | Reject(code: nat, at: nat, next: nat)

  /** The escape branch of get_string (:44-72) for the backslash at `i`. */
  function EscapeEnd(text: seq<Byte>, i: nat, bound: Option<nat>): (r: Escape)
    requires Within(text, i, bound) && 0 < i && text[i] == BACKSLASH
    ensures i < r.next < |text|
    ensures r.Reject? ==> (r.code == ESCAPE_AT_END || r.code == EMPTY_ESCAPE) && r.at < r.next
  {
    var j := i + 1;
    if text[j] == NUL then Reject(ESCAPE_AT_END, i, j)
    else if text[j] == LOWER_X then
      var k := j + 1;
      if bound == Some(k) || !IsHexByte(text[k]) then Reject(EMPTY_ESCAPE, i, k)
      else Resume(k)
    else if IsDigitByte(text[j]) then
      if bound == Some(j) then Reject(EMPTY_ESCAPE, i - 1, j)
      else Resume(j)
    else Resume(j + 1)
  }

  /** The codes get_string reports. */
  predicate IsStringError(code: nat) {
    code == UNTERMINATED_STRING || code == ESCAPE_AT_END || code == EMPTY_ESCAPE || code == BAD_ENCODING
  }

  /** One turn of the string loop: go on from `next`, or leave the loop with a scan outcome. */
  datatype Turn = Continue(next: nat) | Leave(outcome: Scan)

  /** One turn of the string loop of get_string (:38-79), at position `i`. */
  function StringTurn(text: seq<Byte>, start: nat, i: nat, bound: Option<nat>, mblen: CharLengthFn): (r: Turn)
    requires Within(text, i, bound) && start < i
    ensures r.Continue? ==> i < r.next && Within(text, r.next, bound)
    ensures r.Leave? ==> i <= r.outcome.next && Within(text, r.outcome.next, bound)
    ensures r.Leave? && r.outcome.Stop? ==> r.outcome.next == i + 1 && text[i] == text[start]
    ensures r.Leave? && r.outcome.Fail? ==> IsStringError(r.outcome.code)
    ensures r.Leave? && r.outcome.Fail? && r.outcome.code == UNTERMINATED_STRING ==>
      r.outcome.at == start && r.outcome.next == i && AtEnd(text, i, bound)
  {
    if bound == Some(i) || text[i] == NUL then Leave(Fail(UNTERMINATED_STRING, start, i))
    else if text[i] == BACKSLASH then
      match EscapeEnd(text, i, bound)
      case Resume(next) => Continue(next)
      case Reject(code, at, next) => Leave(Fail(code, at, next))
    else if text[i] == text[start] then Leave(Stop(i + 1))
    else
      var len := CharAt(mblen, text, i, bound);
      if len <= 0 then Leave(Fail(BAD_ENCODING, i, i))
      else Continue(i + len)
  }

  /**
   * The string loop of get_string (:37-80) for the literal opened at
   * `start`, from position `i`.
   */
  function StringEnd(text: seq<Byte>, start: nat, i: nat, bound: Option<nat>, mblen: CharLengthFn): (r: Scan)
    requires Within(text, i, bound) && start < i
    ensures i <= r.next && Within(text, r.next, bound)
    ensures r.Stop? ==> i < r.next && text[r.next - 1] == text[start]
    ensures r.Fail? ==> IsStringError(r.code)
    ensures r.Fail? && r.code == UNTERMINATED_STRING ==> r.at == start && AtEnd(text, r.next, bound)
    decreases |text| - i
  {
    match StringTurn(text, start, i, bound, mblen)
    case Continue(next) => StringEnd(text, start, next, bound, mblen)
    case Leave(outcome) => outcome
  }

  /** What next_lexeme returns: the word, the new cursor and the error record. */
  datatype Lexed = Lexed(word: Slice, cursor: Option<nat>, err: Error)

  /** The outcome of a scan that started at `start`, with the error record `err` before it. */
  function Finish(start: nat, s: Scan, err: Error): Lexed {
    match s
    case Stop(next) => Lexed(Span(start, next), Some(next), err)
    case Fail(code, at, next) => Lexed(EmptyWord, Some(next), err.(code := code, extra := At(at)))
  }

  /** next_lexeme (:85-134): the next word at the cursor. */
  function Lex(text: seq<Byte>, cursor: Option<nat>, bound: Option<nat>, err: Error, mblen: CharLengthFn): (r: Lexed)
    requires cursor.Some? ==> Within(text, cursor.value, bound)
    ensures cursor.None? ==> r == Lexed(EmptyWord, None, err.(code := NULL_CURSOR, extra := NoExtra))
    ensures cursor.Some? ==>
      r.cursor.Some? && cursor.value <= r.cursor.value && Within(text, r.cursor.value, bound) &&
      r.err.abort == false
    ensures cursor.Some? && !IsEmpty(r.word) ==>
      r.word == Span(cursor.value, r.cursor.value) && cursor.value < r.cursor.value
  {
    if cursor.None? then Lexed(EmptyWord, None, err.(code := NULL_CURSOR, extra := NoExtra))
    else
      var p := cursor.value;
      if AtEnd(text, p, bound) then Lexed(EmptyWord, cursor, Ok)
      else if IsSpaceByte(text[p]) then
        var q := SpaceRunEnd(text, p, bound);
        Lexed(Span(p, q), Some(q), Ok)
      else if StartsIdentifier(text[p]) then
        Finish(p, IdentifierEnd(text, p, bound, mblen), Ok)
      else LexOther(text, p, bound, mblen)
  }

  /** next_lexeme past the whitespace and identifier tests (:111-133): a number, a string,
      a punctuation byte or an unknown byte. */
  function LexOther(text: seq<Byte>, p: nat, bound: Option<nat>, mblen: CharLengthFn): (r: Lexed)
    requires Within(text, p, bound) && !AtEnd(text, p, bound)
    ensures r.cursor.Some? && p <= r.cursor.value && Within(text, r.cursor.value, bound)
    ensures r.err.abort == false
    ensures !IsEmpty(r.word) ==> r.word == Span(p, r.cursor.value) && p < r.cursor.value
  {
    var q := NumberEnd(text, p, bound);
    if q != p then Lexed(Span(p, q), Some(q), Ok)
    else if IsQuote(text[p]) then Finish(p, StringEnd(text, p, p + 1, bound, mblen), Ok)
    else if IsAscii(text[p]) && IsPunct(text[p]) then Lexed(Span(p, p + 1), Some(p + 1), Ok)
    else Lexed(Span(p, p + 1), Some(p + 1), Ok.(code := UNKNOWN_CHARACTER, extra := At(p)))
  }

  /** A word whose first byte is ASCII whitespace (the loop test at :142). */
  predicate IsSpaceWord(text: seq<Byte>, w: Slice) {
    w.begin.Some? && w.begin.value < |text| && IsSpaceByte(text[w.begin.value])
  }

  /** next_nonspace_lexeme (:136-144): the next word that is not whitespace. */
  function LexNonspace(text: seq<Byte>, cursor: Option<nat>, bound: Option<nat>, err: Error, mblen: CharLengthFn): (r: Lexed)
    requires cursor.Some? ==> Within(text, cursor.value, bound)
    ensures !IsSpaceWord(text, r.word)
    ensures cursor.Some? ==> r.cursor.Some? && cursor.value <= r.cursor.value && Within(text, r.cursor.value, bound)
    decreases if cursor.Some? then |text| - cursor.value else 0
  {
    var first := Lex(text, cursor, bound, err, mblen);
    if IsSpaceWord(text, first.word) then LexNonspace(text, first.cursor, bound, first.err, mblen)
    else first
  }

  // ---------------------------------------------------------------
  // What a word is.
  // ---------------------------------------------------------------

  /** A NULL cursor is reported with code 0x11; the abort flag is left as it was. */
  lemma LexNullCursor(text: seq<Byte>, bound: Option<nat>, err: Error, mblen: CharLengthFn)
    ensures Lex(text, None, bound, err, mblen).word == EmptyWord
    ensures Lex(text, None, bound, err, mblen).err.code == NULL_CURSOR
    ensures Lex(text, None, bound, err, mblen).err.abort == err.abort
  {
  }

  /** At the bound or at the NUL terminator the word is empty, the cursor stays and the record is reset. */
  lemma LexAtEnd(text: seq<Byte>, p: nat, bound: Option<nat>, err: Error, mblen: CharLengthFn)
    requires Within(text, p, bound) && AtEnd(text, p, bound)
    ensures Lex(text, Some(p), bound, err, mblen) == Lexed(EmptyWord, Some(p), Ok)
  {
  }

  /** A run of whitespace is one word, and the run is maximal. */
  lemma LexWhitespace(text: seq<Byte>, p: nat, bound: Option<nat>, err: Error, mblen: CharLengthFn)
    requires Within(text, p, bound) && !AtEnd(text, p, bound) && IsSpaceByte(text[p])
    ensures var r := Lex(text, Some(p), bound, err, mblen);
      var q := r.cursor.value;
      r.word == Span(p, q) && p < q && r.err == Ok &&
      (forall k :: p <= k < q ==> IsSpaceByte(text[k])) &&
      (bound == Some(q) || !IsSpaceByte(text[q]))
  {
  }

  /**
   * A word that starts with a letter, an underscore or a non-ASCII byte
   * is an identifier running up to the first byte that cannot continue
   * one, or an empty word with the 0x31 encoding error.
   */
  lemma LexIdentifier(text: seq<Byte>, p: nat, bound: Option<nat>, err: Error, mblen: CharLengthFn)
    requires Within(text, p, bound) && !AtEnd(text, p, bound) && StartsIdentifier(text[p])
    ensures var r := Lex(text, Some(p), bound, err, mblen);
      var q := r.cursor.value;
      if IsEmpty(r.word) then r.err == Error(false, BAD_ENCODING, At(q))
      else r.word == Span(p, q) && p < q && r.err == Ok && !ContinuesIdentifier(text[q])
  {
  }

  /**
   * A word that starts with a digit or a dot is the longest prefix of
   * the form digit* [.]? digit*: "12.5" is one word, ".." two.
   */
  lemma LexNumber(text: seq<Byte>, p: nat, bound: Option<nat>, err: Error, mblen: CharLengthFn)
    requires Within(text, p, bound) && !AtEnd(text, p, bound)
    requires IsDigitByte(text[p]) || text[p] == DOT
    ensures var r := Lex(text, Some(p), bound, err, mblen);
      var q := r.cursor.value;
      r.word == Span(p, q) && p < q && r.err == Ok &&
      IsNumberText(text[p..q]) && (bound == Some(q) || !IsNumberText(text[p..q + 1]))
  {
    NumberEndIsLongest(text, p, bound);
    assert IsNumberText(text[p..p + 1]);
  }

  /**
   * A word that starts with a quote is a string literal closed by the
   * same quote, or an empty word with one of the string errors.
   */
  lemma LexString(text: seq<Byte>, p: nat, bound: Option<nat>, err: Error, mblen: CharLengthFn)
    requires Within(text, p, bound) && !AtEnd(text, p, bound) && IsQuote(text[p])
    ensures var r := Lex(text, Some(p), bound, err, mblen);
      var q := r.cursor.value;
      if IsEmpty(r.word) then !r.err.abort && IsStringError(r.err.code)
      else r.word == Span(p, q) && p + 2 <= q && text[q - 1] == text[p] && r.err == Ok
  {
  }

  /**
   * Position `j` is one the string loop opened at `start` examines when
   * it goes on from `i`: every turn from `i` up to `j` continues.
   * Escaped bytes and the tails of multibyte characters are never examined.
   */
  predicate StringReaches(text: seq<Byte>, start: nat, i: nat, j: nat, bound: Option<nat>, mblen: CharLengthFn)
    requires Within(text, i, bound) && start < i
    decreases j - i
  {
    i == j ||
    (i < j &&
     match StringTurn(text, start, i, bound, mblen)
     case Continue(next) => next <= j && StringReaches(text, start, next, j, bound, mblen)
     case Leave(_) => false)
  }

  /** The loop leaves at the first examined position whose turn does not continue. */
  lemma {:induction false} StringStop(text: seq<Byte>, start: nat, i: nat, bound: Option<nat>, mblen: CharLengthFn)
    returns (j: nat)
    requires Within(text, i, bound) && start < i
    ensures i <= j && Within(text, j, bound) && StringReaches(text, start, i, j, bound, mblen)
    ensures StringTurn(text, start, j, bound, mblen).Leave?
    ensures StringEnd(text, start, i, bound, mblen) == StringTurn(text, start, j, bound, mblen).outcome
    ensures forall k :: i <= k < j && StringReaches(text, start, i, k, bound, mblen) ==>
      StringTurn(text, start, k, bound, mblen).Continue?
    decreases |text| - i
  {
    match StringTurn(text, start, i, bound, mblen)
    case Leave(_) =>
      j := i;
    case Continue(next) =>
      j := StringStop(text, start, next, bound, mblen);
      forall k | i <= k < j && StringReaches(text, start, i, k, bound, mblen)
        ensures StringTurn(text, start, k, bound, mblen).Continue?
      {
        if k != i {
          assert StringReaches(text, start, next, k, bound, mblen);
        }
      }
  }

  /** A backslash whose escape runs into the terminating NUL (:46-51). */
  predicate EscapeHitsNul(text: seq<Byte>, j: nat)
    requires j + 1 < |text|
  {
    text[j] == BACKSLASH && text[j + 1] == NUL
  }

  /** `\x` without a hexadecimal digit (:52-61). */
  predicate EmptyHexEscape(text: seq<Byte>, j: nat, bound: Option<nat>)
    requires j + 2 < |text|
  {
    text[j] == BACKSLASH && text[j + 1] == LOWER_X && (bound == Some(j + 2) || !IsHexByte(text[j + 2]))
  }

  /** A backslash and a digit with the bound on the digit (:62-69). */
  predicate EmptyDigitEscape(text: seq<Byte>, j: nat, bound: Option<nat>)
    requires j + 1 < |text|
  {
    text[j] == BACKSLASH && IsDigitByte(text[j + 1]) && bound == Some(j + 1)
  }

  /**
   * What lexing a string literal opened at `p` yields, decided by the
   * position `j` where the loop stops. Before `j` no examined byte is the
   * end or the opening quote, so a closing quote at `j` is the first
   * unescaped one. The outcome is, exactly:
   * - at the bound or NUL, 0x21 pointing at the opening quote, cursor at `j`;
   * - the closing quote, the word up to and including it, record ok;
   * - a backslash before NUL, 0x22 pointing at the backslash, cursor on the NUL;
   * - an empty `\x` escape, 0x23 pointing at the backslash, cursor after the `x`;
   * - a digit escape on the bound, 0x23 pointing at the byte before the backslash;
   * - any other byte that mblen rejects, 0x31 pointing at it, cursor on it.
   */
  lemma LexStringOutcome(text: seq<Byte>, p: nat, bound: Option<nat>, err: Error, mblen: CharLengthFn)
    returns (j: nat)
    requires Within(text, p, bound) && !AtEnd(text, p, bound) && IsQuote(text[p])
    ensures p < j && Within(text, j, bound) && StringReaches(text, p, p + 1, j, bound, mblen)
    ensures forall k :: p < k < j && StringReaches(text, p, p + 1, k, bound, mblen) ==>
      !AtEnd(text, k, bound) && text[k] != text[p]
    ensures var r := Lex(text, Some(p), bound, err, mblen);
      (AtEnd(text, j, bound) <==>
        r == Lexed(EmptyWord, Some(j), Error(false, UNTERMINATED_STRING, At(p)))) &&
      (!AtEnd(text, j, bound) && text[j] == text[p] <==>
        r == Lexed(Span(p, j + 1), Some(j + 1), Ok)) &&
      (!AtEnd(text, j, bound) && j + 1 < |text| && EscapeHitsNul(text, j) <==>
        r == Lexed(EmptyWord, Some(j + 1), Error(false, ESCAPE_AT_END, At(j)))) &&
      (!AtEnd(text, j, bound) && j + 2 < |text| && EmptyHexEscape(text, j, bound) <==>
        r == Lexed(EmptyWord, Some(j + 2), Error(false, EMPTY_ESCAPE, At(j)))) &&
      (!AtEnd(text, j, bound) && j + 1 < |text| && EmptyDigitEscape(text, j, bound) <==>
        r == Lexed(EmptyWord, Some(j + 1), Error(false, EMPTY_ESCAPE, At(j - 1)))) &&
      (!AtEnd(text, j, bound) && text[j] != BACKSLASH && text[j] != text[p] <==>
        CharAt(mblen, text, j, bound) <= 0 &&
        r == Lexed(EmptyWord, Some(j), Error(false, BAD_ENCODING, At(j))))
  {
    j := StringStop(text, p, p + 1, bound, mblen);
    StringPassesOver(text, p, j, bound, mblen);
    LexQuote(text, p, bound, err, mblen);
    StringLeaveLexed(text, p, j, bound, mblen, Lex(text, Some(p), bound, err, mblen));
  }

  /** A quote at the cursor starts the string loop (:117-120). */
  lemma LexQuote(text: seq<Byte>, p: nat, bound: Option<nat>, err: Error, mblen: CharLengthFn)
    requires Within(text, p, bound) && !AtEnd(text, p, bound) && IsQuote(text[p])
    ensures Lex(text, Some(p), bound, err, mblen) == Finish(p, StringEnd(text, p, p + 1, bound, mblen), Ok)
  {
  }

  /** The bytes the string loop examines before it leaves are neither the end nor the opening quote. */
  lemma StringPassesOver(text: seq<Byte>, p: nat, j: nat, bound: Option<nat>, mblen: CharLengthFn)
    requires Within(text, p, bound) && Within(text, j, bound) && p < j && IsQuote(text[p])
    requires forall k :: p + 1 <= k < j && StringReaches(text, p, p + 1, k, bound, mblen) ==>
      StringTurn(text, p, k, bound, mblen).Continue?
    ensures forall k :: p < k < j && StringReaches(text, p, p + 1, k, bound, mblen) ==>
      !AtEnd(text, k, bound) && text[k] != text[p]
  {
    forall k | p < k < j && StringReaches(text, p, p + 1, k, bound, mblen)
      ensures !AtEnd(text, k, bound) && text[k] != text[p]
    {
      assert StringTurn(text, p, k, bound, mblen).Continue?;
    }
  }

  /** The word, cursor and record each exit of the string loop at `j` produces. */
  lemma StringLeaveLexed(text: seq<Byte>, p: nat, j: nat, bound: Option<nat>, mblen: CharLengthFn, r: Lexed)
    requires Within(text, j, bound) && p < j && IsQuote(text[p])
    requires StringTurn(text, p, j, bound, mblen).Leave?
    requires r == Finish(p, StringTurn(text, p, j, bound, mblen).outcome, Ok)
    ensures (AtEnd(text, j, bound) <==>
        r == Lexed(EmptyWord, Some(j), Error(false, UNTERMINATED_STRING, At(p)))) &&
      (!AtEnd(text, j, bound) && text[j] == text[p] <==>
        r == Lexed(Span(p, j + 1), Some(j + 1), Ok)) &&
      (!AtEnd(text, j, bound) && j + 1 < |text| && EscapeHitsNul(text, j) <==>
        r == Lexed(EmptyWord, Some(j + 1), Error(false, ESCAPE_AT_END, At(j)))) &&
      (!AtEnd(text, j, bound) && j + 2 < |text| && EmptyHexEscape(text, j, bound) <==>
        r == Lexed(EmptyWord, Some(j + 2), Error(false, EMPTY_ESCAPE, At(j)))) &&
      (!AtEnd(text, j, bound) && j + 1 < |text| && EmptyDigitEscape(text, j, bound) <==>
        r == Lexed(EmptyWord, Some(j + 1), Error(false, EMPTY_ESCAPE, At(j - 1)))) &&
      (!AtEnd(text, j, bound) && text[j] != BACKSLASH && text[j] != text[p] <==>
        CharAt(mblen, text, j, bound) <= 0 &&
        r == Lexed(EmptyWord, Some(j), Error(false, BAD_ENCODING, At(j))))
  {
    StringLeaveOutcome(text, p, j, bound, mblen);
  }

  /** Why the string loop leaves at `j`: exactly one of the exits of get_string. */
  lemma StringLeaveOutcome(text: seq<Byte>, start: nat, j: nat, bound: Option<nat>, mblen: CharLengthFn)
    requires Within(text, j, bound) && start < j && IsQuote(text[start])
    requires StringTurn(text, start, j, bound, mblen).Leave?
    ensures var o := StringTurn(text, start, j, bound, mblen).outcome;
      (AtEnd(text, j, bound) ==> o == Fail(UNTERMINATED_STRING, start, j)) &&
      (!AtEnd(text, j, bound) && text[j] == text[start] ==> o == Stop(j + 1)) &&
      (!AtEnd(text, j, bound) && text[j] == BACKSLASH ==>
        (j + 1 < |text| && (EscapeHitsNul(text, j) || EmptyDigitEscape(text, j, bound) ||
                            (j + 2 < |text| && EmptyHexEscape(text, j, bound))))) &&
      (!AtEnd(text, j, bound) && j + 1 < |text| && EscapeHitsNul(text, j) ==> o == Fail(ESCAPE_AT_END, j, j + 1)) &&
      (!AtEnd(text, j, bound) && j + 2 < |text| && EmptyHexEscape(text, j, bound) ==> o == Fail(EMPTY_ESCAPE, j, j + 2)) &&
      (!AtEnd(text, j, bound) && j + 1 < |text| && EmptyDigitEscape(text, j, bound) ==> o == Fail(EMPTY_ESCAPE, j - 1, j + 1)) &&
      (!AtEnd(text, j, bound) && text[j] != BACKSLASH && text[j] != text[start] ==>
        CharAt(mblen, text, j, bound) <= 0 && o == Fail(BAD_ENCODING, j, j))
  {
    if !AtEnd(text, j, bound) && text[j] == BACKSLASH {
      assert j + 1 < |text|;
      if text[j + 1] != NUL {
        assert j + 2 < |text|;
      }
    }
  }

  /** Any other ASCII punctuation byte is a word of its own. */
  lemma LexPunctuation(text: seq<Byte>, p: nat, bound: Option<nat>, err: Error, mblen: CharLengthFn)
    requires Within(text, p, bound) && !AtEnd(text, p, bound)
    requires IsAscii(text[p]) && IsPunct(text[p]) && !IsQuote(text[p]) && text[p] != DOT && text[p] != UNDERSCORE
    ensures Lex(text, Some(p), bound, err, mblen) == Lexed(Span(p, p + 1), Some(p + 1), Ok)
  {
  }

  /** An ASCII control byte is a one-byte word reported with code 0x12, without abort. */
  lemma LexUnknown(text: seq<Byte>, p: nat, bound: Option<nat>, err: Error, mblen: CharLengthFn)
    requires Within(text, p, bound) && !AtEnd(text, p, bound)
    requires IsAscii(text[p]) && !IsSpace(text[p]) && !IsAlnum(text[p]) && !IsPunct(text[p])
    ensures Lex(text, Some(p), bound, err, mblen) ==
      Lexed(Span(p, p + 1), Some(p + 1), Error(false, UNKNOWN_CHARACTER, At(p)))
  {
  }

  /**
   * next_nonspace_lexeme loops at most twice: after a whitespace word
   * the next word starts where the (maximal) run ends.
   */
  lemma {:induction false} LexNonspaceSkipsOneRun(text: seq<Byte>, p: nat, bound: Option<nat>, err: Error, mblen: CharLengthFn)
    requires Within(text, p, bound) && !AtEnd(text, p, bound) && IsSpaceByte(text[p])
    ensures LexNonspace(text, Some(p), bound, err, mblen) ==
      Lex(text, Some(SpaceRunEnd(text, p, bound)), bound, Ok, mblen)
  {
    var q := SpaceRunEnd(text, p, bound);
    var second := Lex(text, Some(q), bound, Ok, mblen);
    assert !IsSpaceWord(text, second.word);
  }

  /** A model of mblen for a single-byte character set. */
  function SingleByte(text: seq<Byte>, pos: nat, offered: nat): int {
    if offered == 0 || |text| <= pos then -1 else if text[pos] == NUL then 0 else 1
  }

  /**
   * The identifier loop does not test the bound: with the bound right
   * after "a" in "ab", the loop offers mblen no bytes and the word fails
   * with 0x31 instead of ending at the bound.
   */
  lemma IdentifierIgnoresBound()
    ensures Lex([97, 98, 0], Some(0), Some(1), Ok, SingleByte) ==
      Lexed(EmptyWord, Some(1), Error(false, BAD_ENCODING, At(1)))
  {
  }

  /**
   * An escape just before the bound steps over it, and the equality test
   * of the string loop then never sees the bound: in '\n' with the bound
   * on the n, the word runs on to the closing quote beyond the bound.
   */
  lemma EscapeOverrunsBound()
    ensures Lex([39, 92, 110, 39, 0], Some(0), Some(2), Ok, SingleByte) ==
      Lexed(Span(0, 4), Some(4), Ok)
  {
  }

  // ---------------------------------------------------------------
  // The source's loops.
  // ---------------------------------------------------------------

  /** mb_next (:16-25): step over one character, or record 0x31 and stay. */
  method MbNext(text: seq<Byte>, pos: nat, bound: Option<nat>, err: Error, mblen: CharLengthFn)
    returns (pos': nat, err': Error)
    requires Within(text, pos, bound)
    ensures Within(text, pos', bound)
    ensures var n := CharAt(mblen, text, pos, bound);
      if n <= 0 then pos' == pos && err' == err.(code := BAD_ENCODING, extra := At(pos))
      else pos' == pos + n && err' == err
  {
    var n := CharAt(mblen, text, pos, bound);
    if n <= 0 {
      return pos, err.(code := BAD_ENCODING, extra := At(pos));
    }
    return pos + n, err;
  }

  /** The escape branch of get_string (:44-72), with its digit-counting loops. */
  method SkipEscape(text: seq<Byte>, backslash: nat, bound: Option<nat>) returns (r: Escape)
    requires Within(text, backslash, bound) && 0 < backslash && text[backslash] == BACKSLASH
    ensures r == EscapeEnd(text, backslash, bound)
  {
    var pos := backslash + 1;
    if text[pos] == NUL {
      return Reject(ESCAPE_AT_END, pos - 1, pos);
    } else if text[pos] == LOWER_X {
      pos := pos + 1;
      var n := 0;
      while n < 2 && bound != Some(pos) && text[pos] != NUL && IsHexByte(text[pos])
        invariant 0 <= n <= 2
        invariant n > 0 ==> bound != Some(pos) && IsHexByte(text[pos])
      {
        n := n + 1;
      }
      if n == 0 {
        return Reject(EMPTY_ESCAPE, pos - 2, pos);
      }
      return Resume(pos);
    } else if IsDigitByte(text[pos]) {
      var n := 0;
      while n < 3 && bound != Some(pos) && text[pos] != NUL && IsHexByte(text[pos])
        invariant 0 <= n <= 3
        invariant n > 0 ==> bound != Some(pos)
      {
        n := n + 1;
      }
      if n == 0 {
        return Reject(EMPTY_ESCAPE, pos - 2, pos);
      }
      return Resume(pos);
    } else {
      return Resume(pos + 1);
    }
  }

  /** The body of the string loop of get_string (:38-79). */
  method GetStringTurn(text: seq<Byte>, start: nat, pos: nat, bound: Option<nat>, mblen: CharLengthFn)
    returns (r: Turn)
    requires Within(text, pos, bound) && start < pos
    ensures r == StringTurn(text, start, pos, bound, mblen)
  {
    if bound == Some(pos) || text[pos] == NUL {
      return Leave(Fail(UNTERMINATED_STRING, start, pos));
    } else if text[pos] == BACKSLASH {
      var escape := SkipEscape(text, pos, bound);
      match escape
      case Reject(code, at, next) =>
        return Leave(Fail(code, at, next));
      case Resume(next) =>
        return Continue(next);
    } else if text[pos] == text[start] {
      return Leave(Stop(pos + 1));
    } else {
      var next, e := MbNext(text, pos, bound, Ok, mblen);
      if e.code != 0 {
        return Leave(Fail(e.code, pos, next));
      }
      return Continue(next);
    }
  }

  /**
   * get_string (:27-81) for the literal whose opening quote is at
   * `start`; the error record it is handed is the reset one.
   */
  method GetString(text: seq<Byte>, start: nat, bound: Option<nat>, mblen: CharLengthFn)
    returns (word: Slice, pos: nat, err: Error)
    requires Within(text, start, bound) && text[start] != NUL
    ensures Lexed(word, Some(pos), err) == Finish(start, StringEnd(text, start, start + 1, bound, mblen), Ok)
  {
    pos := start + 1;
    while true
      invariant Within(text, pos, bound) && start < pos
      invariant StringEnd(text, start, pos, bound, mblen) == StringEnd(text, start, start + 1, bound, mblen)
      decreases |text| - pos
    {
      var turn := GetStringTurn(text, start, pos, bound, mblen);
      match turn
      case Continue(next) =>
        pos := next;
      case Leave(Stop(next)) =>
        return Span(start, next), next, Ok;
      case Leave(Fail(code, at, next)) =>
        return EmptyWord, next, Ok.(code := code, extra := At(at));
    }
  }

  /** The whitespace loop of next_lexeme (:99). */
  method SkipSpaces(text: seq<Byte>, start: nat, bound: Option<nat>) returns (pos: nat)
    requires Within(text, start, bound)
    ensures pos == SpaceRunEnd(text, start, bound)
  {
    pos := start;
    while bound != Some(pos) && IsSpaceByte(text[pos])
      invariant Within(text, pos, bound) && start <= pos
      invariant SpaceRunEnd(text, pos, bound) == SpaceRunEnd(text, start, bound)
      decreases |text| - pos
    {
      pos := pos + 1;
    }
  }

  /** A digit loop of next_lexeme (:112 and :114). */
  method SkipDigits(text: seq<Byte>, start: nat, bound: Option<nat>) returns (pos: nat)
    requires Within(text, start, bound)
    ensures pos == DigitRunEnd(text, start, bound)
  {
    pos := start;
    while bound != Some(pos) && IsDigitByte(text[pos])
      invariant Within(text, pos, bound) && start <= pos
      invariant DigitRunEnd(text, pos, bound) == DigitRunEnd(text, start, bound)
      decreases |text| - pos
    {
      pos := pos + 1;
    }
  }

  /** The identifier loop of next_lexeme (:104-108), with the reset error record. */
  method SkipIdentifier(text: seq<Byte>, start: nat, bound: Option<nat>, mblen: CharLengthFn)
    returns (word: Slice, pos: nat, err: Error)
    requires Within(text, start, bound)
    ensures Lexed(word, Some(pos), err) == Finish(start, IdentifierEnd(text, start, bound, mblen), Ok)
  {
    pos := start;
    err := Ok;
    while ContinuesIdentifier(text[pos])
      invariant Within(text, pos, bound) && start <= pos
      invariant IdentifierEnd(text, pos, bound, mblen) == IdentifierEnd(text, start, bound, mblen)
      invariant err == Ok
      decreases |text| - pos
    {
      var next, e := MbNext(text, pos, bound, err, mblen);
      IdentifierStep(text, pos, bound, mblen);
      if e.code != 0 {
        assert IdentifierEnd(text, pos, bound, mblen) == Fail(BAD_ENCODING, pos, pos);
        return EmptyWord, next, e;
      }
      pos := next;
    }
    assert IdentifierEnd(text, pos, bound, mblen) == Stop(pos);
    return Span(start, pos), pos, err;
  }

  /** One turn of the identifier loop: fail where mblen fails, otherwise go on after the character. */
  lemma IdentifierStep(text: seq<Byte>, i: nat, bound: Option<nat>, mblen: CharLengthFn)
    requires Within(text, i, bound) && ContinuesIdentifier(text[i])
    ensures var len := CharAt(mblen, text, i, bound);
      if len <= 0 then IdentifierEnd(text, i, bound, mblen) == Fail(BAD_ENCODING, i, i)
      else Within(text, i + len, bound) && IdentifierEnd(text, i, bound, mblen) == IdentifierEnd(text, i + len, bound, mblen)
  {
  }

  /** next_lexeme (:85-134). */
  method NextLexeme(text: seq<Byte>, cursor: Option<nat>, bound: Option<nat>, err: Error, mblen: CharLengthFn)
    returns (word: Slice, cursor': Option<nat>, err': Error)
    requires cursor.Some? ==> Within(text, cursor.value, bound)
    ensures Lexed(word, cursor', err') == Lex(text, cursor, bound, err, mblen)
  {
    if cursor.None? {
      return EmptyWord, None, err.(code := NULL_CURSOR, extra := NoExtra);
    }
    var start := cursor.value;
    err' := Ok;
    if bound == Some(start) || text[start] == NUL {
      return EmptyWord, cursor, err';
    }

    var pos := SkipSpaces(text, start, bound);
    if pos != start {
      return Span(start, pos), Some(pos), err';
    }

    if StartsIdentifier(text[pos]) {
      var next;
      word, next, err' := SkipIdentifier(text, start, bound, mblen);
      return word, Some(next), err';
    }

    assert Lex(text, cursor, bound, err, mblen) == LexOther(text, start, bound, mblen);
    var next;
    word, next, err' := ScanOther(text, start, bound, mblen);
    cursor' := Some(next);
  }

  /** The number loops of next_lexeme (:112-114): digits, at most one dot, digits. */
  method SkipNumber(text: seq<Byte>, start: nat, bound: Option<nat>) returns (pos: nat)
    requires Within(text, start, bound)
    ensures pos == NumberEnd(text, start, bound)
  {
    pos := SkipDigits(text, start, bound);
    if bound != Some(pos) && text[pos] == DOT {
      pos := pos + 1;
    }
    pos := SkipDigits(text, pos, bound);
  }

  /** The tail of next_lexeme (:111-133): a number, a string, a punctuation byte or an unknown byte. */
  method ScanOther(text: seq<Byte>, start: nat, bound: Option<nat>, mblen: CharLengthFn)
    returns (word: Slice, next: nat, err: Error)
    requires Within(text, start, bound) && !AtEnd(text, start, bound)
    ensures Lexed(word, Some(next), err) == LexOther(text, start, bound, mblen)
  {
    err := Ok;
    var pos := SkipNumber(text, start, bound);
    if pos != start {
      return Span(start, pos), pos, err;
    }

    if IsQuote(text[pos]) {
      word, next, err := GetString(text, pos, bound, mblen);
      return;
    }

    if IsAscii(text[pos]) && IsPunct(text[pos]) {
      return Span(start, pos + 1), pos + 1, err;
    }

    err := err.(code := UNKNOWN_CHARACTER, extra := At(start));
    return Span(start, pos + 1), pos + 1, err;
  }

  /** next_nonspace_lexeme (:136-144): lex again while the word is whitespace. */
  method NextNonspaceLexeme(text: seq<Byte>, cursor: Option<nat>, bound: Option<nat>, err: Error, mblen: CharLengthFn)
    returns (word: Slice, cursor': Option<nat>, err': Error)
    requires cursor.Some? ==> Within(text, cursor.value, bound)
    ensures Lexed(word, cursor', err') == LexNonspace(text, cursor, bound, err, mblen)
  {
    ghost var c, e := cursor, err;
    word, cursor', err' := NextLexeme(text, cursor, bound, err, mblen);
    while IsSpaceWord(text, word)
      invariant c.Some? ==> Within(text, c.value, bound)
      invariant Lexed(word, cursor', err') == Lex(text, c, bound, e, mblen)
      invariant LexNonspace(text, c, bound, e, mblen) == LexNonspace(text, cursor, bound, err, mblen)
      decreases if cursor'.Some? then |text| - cursor'.value else 0, if IsSpaceWord(text, word) then 1 else 0
    {
      c, e := cursor', err';
      word, cursor', err' := NextLexeme(text, cursor', bound, err', mblen);
    }
  }
}
