# Janssonpath2 core in Dafny

Janssonpath2 is a C library that evaluates JSONPath-like expressions
against documents held as jansson `json_t` values. This project models
three parts of the library and proves properties about each:

- **The lexer** (`src/lexeme.c`, `include/private/common.h`). It cuts a
  NUL-terminated, optionally bounded byte buffer into words, which are
  string slices. The words are whitespace runs, identifiers, numbers,
  quoted strings and single punctuation bytes. Each decision is recorded
  in an error record.
- **The expression tree and its construction** (`include/private/jsonpath_ast.h`,
  `src/compile.c`).
  - Nodes are single (`$`, `@`, constant), index chains, unary, binary and
    function-call nodes.
  - The step builders are modelled, as are the two growable buffers:
    index steps of a chain and arguments of a call.
  - So is the recursive teardown, `jsonpath_release`.
- **The evaluator** (`src/evaluate.c`, `include/janssonpath_evaluate.h`).
  - It turns a tree, a root document and a function table into a
    `jsonpath_result_t`: a value plus the flags collection, right-value
    and constant.
  - It also leaves an error record behind.
  - Collections are broadcast through steps and operators. A collection
    as a right operand or a call argument aborts.
  - The constant-folding wrapper caches constant results in the node.

## Structure

| file | module | contents |
|---|---|---|
| `wrappers.dfy` | `Wrappers` | `Option`, the associativity of concatenation, and a first-match search shared by object lookup and the function table |
| `errors.dfy` | `Errors` | the error record `jsonpath_error_t`, its codes and the ok record |
| `json.dfy` | `Json` | jansson values; NULL-safe accessors (`json_is_*`, `json_array_get`, `json_object_get`); `json_real`; `json_equal` |
| `slices.dfy` | `Slices` | `string_slice` over a byte buffer, `IS_SLICE_EMPTY`, `SLICE_SIZE` |
| `lexer.dfy` | `Lexer` | `Lex` / `LexNonspace` as functions; loop methods mirroring `lexeme.c`, each proved equal to its function |
| `ast.dfy` | `Ast` | the tree datatypes, the C tag numbering, size measures |
| `compile.dfy` | `Compile` | builders; `IndexesBuilder` and `CallBuilder` classes over arrays; teardown as a list of events |
| `results.dfy` | `Results` | `jsonpath_result_t`, the function table, `get_function` |
| `operators.dfy` | `Operators` | `json_binary`, `json_not`, `json_neg`, `json_bitnot` over 64-bit integers and IEEE-754 bit patterns |
| `semantics.dfy` | `Semantics` | the whole evaluator as recursive functions |
| `evaluator.dfy` | `Evaluator` | the evaluator's loops and dispatch as methods, each proved equal to its function; the constant-folding node as a class |
| `operator_properties.dfy` | `OperatorProperties` | lemmas about the scalar operators |
| `evaluation_properties.dfy` | `EvaluationProperties` | lemmas about evaluation |

### Modelling choices

- **jansson calls.** They are total functions over `Option<Json>`, where
  `None` is a NULL `json_t*`. `json_is_*(NULL)` is false, and
  `json_array_size(NULL)` is 0.
- **Ownership.** Reference counts do not change values, so `json_incref`
  and `json_decref` are identities in the evaluator. Teardown is modelled
  separately, as the sequence of decrefs and frees that `jsonpath_release`
  performs.
- **Machine-dependent results.** These are parameters of the model, held
  in an `Operators.Platform` record:
  - floating-point arithmetic;
  - integer/real conversions;
  - the results C leaves undefined: signed overflow, `INT64_MIN / -1`,
    division by zero, out-of-range shifts.

  Regular-expression compilation and matching are an
  `Operators.RegexEngine` record.
- **`mblen`.** It is a function parameter of the lexer (`Lexer.CharLengthFn`).
  It is called as `mb_next` calls it: on the buffer, at the cursor, with the
  number of bytes offered (`Lexer.Offered`). With a bound, that is the
  distance to the bound; without one, it is the rest of the buffer instead
  of `INT_MAX`. `Lexer.CharAt` reads an answer that claims more bytes than
  offered, or a character that swallows the terminating NUL, as a failure.
- **Evaluator errors.** `jsonpath_evaluate` resets the error record to ok
  (`src/evaluate.c:659`). Every write the evaluator makes sets `abort`. So
  the evaluator functions return the record they leave instead of taking
  one in. The exception is `=~`: a failed pattern compilation keeps its
  error for the rest of a broadcast.

### Behaviour modelled as written

The evaluator follows `src/evaluate.c` as written, with the exceptions
listed under "Left out" (chiefly the in-place growth of an array by `..`,
and the assertions of a debug build). Where the code does something the comments or design evidently did not intend, the
model follows the code and a lemma exhibits the outcome.

- **Simple index.** `simple_index` tests the index pointer for NULL the
  wrong way round (`:85`). Any present index (`.a`, `[0]`, `["k"]`) acts
  as the wildcard `*`. `NamedIndexIsWildcard` shows this.
- **Unreachable index branches.** Two of them:
  - The numeric-index branch returns the error result on arrays (`:92`).
  - The length branch tests `json_is_array` twice (`:102`), so an object's
    length is 0.
  
  Both are unreachable through `:85`. `UnreachableBranchesAsWritten`
  exhibits them.
- **Recursive descent** (`:119-142`). It collects the node's properties
  first, then every layer below. `RecursiveDescentVisitsEveryDescendant`
  proves that every descendant is visited exactly once. The node itself is
  not included.
- **Slice end.** `json_array_index_translate` clamps an index past the end
  to the last element (`:79`). An open slice `[b:]` therefore stops one
  short of the end. `OpenSliceDropsLast` shows this.
- **Filter test.** The filter tests the element it visits rather than the
  condition it evaluated (`:208`). An object member is kept when it is
  itself `true`, whatever the predicate yields.
- **Filter over arrays.** The array branch tests `json_is_object` again
  (`:217`), so a filter over an array yields an empty collection.
- **Constant flag.** A constant element result clears the collection's
  constant flag (`:250`), but a non-constant one leaves it set. So a
  result flagged constant can depend on the document, although the flag
  is meant to say the value is safe to cache
  (`include/janssonpath_evaluate.h:26-28`). `[[1,2]][null][$:]` is a
  constant `[1]` on the document 0 and a constant `[]` on the document 5,
  and `Evaluator.FoldingNode` caches whichever ran first
  (`ConstantResultCanDependOnRoot`).
- **`@` in a chain.** Each step of a chain receives the running result as
  `@` (`:270`), not the current element.
- **`&` and `*`** (`:605-618`). They set the abort flag unconditionally,
  so both always abort with 0xa3 / 0xa4.
- **`++`.** It copies the left array and extends the copy with the right
  one, but `json_array_extend` returns 0 on success and the code returns
  null on 0 (`:455-457`). So `++` is null for every operand pair: for
  non-arrays by the type test, for arrays because the extension succeeds.
- **Mixed integer/real arithmetic.** `+`, `-` and `*` read the integer
  operand with `json_real_value`, which gives 0.0 (`:285-301`). `/` uses
  `json_number_value`, which converts it. The orderings `< <= > >=` also
  read both operands with `json_real_value` once one is a real
  (`:417-452`), so `1 < 0.5` is true (`MixedComparisonReadsIntegerAsZero`).
- **Lexer bound.** Two places ignore it:
  - The identifier loop (`src/lexeme.c:103-109`) does not test the bound
    (`IdentifierIgnoresBound`).
  - An escape just before the bound makes the string loop step over the
    bound (`EscapeOverrunsBound`).
- **Teardown.** `jsonpath_release` dereferences an omitted slice bound
  (`src/compile.c:55-56` reaching `:175`). A tree with `[b:]`, `[:e]` or
  `[:]` cannot be released (`ReleaseFailsExactlyOnOpenRange`).

## Model

| member | source | states |
|---|---|---|
| Slices.Size | include/private/common.h:21-26 | an empty slice has size 0; a bounded slice has size end - begin; an unbounded one measures up to the first NUL |
| Lexer.LexNonspace | src/lexeme.c:136-144 | the word returned is never a whitespace word, and the cursor only moves forward and stays within the buffer |
| Lexer.LexNullCursor | src/lexeme.c:88-93 | a NULL cursor yields the empty word and code 0x11, leaving the abort flag as it was |
| Lexer.LexAtEnd | src/lexeme.c:94-95 | at the bound or at the NUL byte the word is empty, the cursor stays and the record is reset to ok |
| Lexer.LexWhitespace | src/lexeme.c:98-100 | a whitespace byte starts a word that is the maximal run of whitespace |
| Lexer.LexIdentifier | src/lexeme.c:102-109 | a letter, underscore or non-ASCII byte starts an identifier, which ends at the first byte that cannot continue it, or fails with 0x31 |
| Lexer.LexNumber | src/lexeme.c:111-115 | a digit or dot starts the longest prefix of the form digit* [.] digit* |
| Lexer.LexString | src/lexeme.c:117-120 | a quote starts a string literal closed by the same quote, or the empty word with a string error |
| Lexer.LexStringOutcome | src/lexeme.c:27-81 | from a quote, the scan stops at the first position it cannot pass; the word is the literal up to a matching quote there, and otherwise empty with, exactly: 0x21 at the opening quote when the bound or NUL comes first; 0x22 for a backslash before NUL; 0x23 for `\x` without a hex digit or a digit escape cut by the bound; 0x31 for a byte that is not a character; each with the cursor where the scan left it |
| Lexer.LexQuote | src/lexeme.c:117-120 | a quote hands the rest of the word to the string scan, starting after the quote with the record reset |
| Lexer.StringStop | src/lexeme.c:31-79 | the string scan from any position reaches a first position where it stops, passing only positions where it continues |
| Lexer.StringLeaveOutcome | src/lexeme.c:31-78 | the position where the scan stops decides the outcome: end of input, matching quote, which escape error, or a bad character |
| Lexer.StringLeaveLexed | src/lexeme.c:27-81 | the word, cursor and record for each way the scan stops, in both directions |
| Lexer.LexPunctuation | src/lexeme.c:124-127 | any other punctuation byte is a one-byte word, with the record reset to ok |
| Lexer.LexUnknown | src/lexeme.c:129-133 | a control byte is a one-byte word with code 0x12 and no abort |
| Lexer.LexNonspaceSkipsOneRun | src/lexeme.c:136-144 | after a whitespace run, the next nonspace word is the word lexed where the run ends |
| Lexer.IdentifierIgnoresBound | src/lexeme.c:103-109 | with the bound inside an identifier, the word fails with 0x31 instead of ending at the bound |
| Lexer.EscapeOverrunsBound | src/lexeme.c:44-78 | an escape just before the bound carries the string past the bound to the closing quote |
| Lexer.MbNext | src/lexeme.c:16-25 | steps the cursor over one character, or records 0x31 at the cursor, leaving abort untouched, and stays, as the lexing functions specify |
| Lexer.SkipEscape | src/lexeme.c:44-72 | the cursor after an escape equals the one the string function specifies |
| Lexer.GetStringTurn | src/lexeme.c:31-79 | one turn of the string loop equals the specified turn |
| Lexer.GetString | src/lexeme.c:27-81 | the string scan equals the specified end of the string, including each error |
| Lexer.SkipSpaces | src/lexeme.c:99-100 | the loop stops where the specified whitespace run ends |
| Lexer.SkipDigits | src/lexeme.c:112-115 | the loop stops where the specified run of digits ends |
| Lexer.SkipNumber | src/lexeme.c:112-114 | digits, at most one dot and digits again stop where the specified number ends |
| Lexer.NumberEndIsNumber | src/lexeme.c:111-114 | everything the number loops pass over is number text: digits with at most one dot |
| Lexer.NumberEndStops | src/lexeme.c:111-114 | unless the loops stop at the bound, the byte they stop at cannot extend the number text |
| Lexer.NumberEndIsLongest | src/lexeme.c:111-115 | the number word is the longest prefix that is number text |
| Lexer.LexOther | src/lexeme.c:111-133 | past the whitespace and identifier tests the cursor moves forward within the buffer, nothing aborts, and a non-empty word spans exactly what was consumed |
| Lexer.ScanOther | src/lexeme.c:111-133 | the number, string, punctuation and unknown-byte branches yield the word, cursor and record `LexOther` specifies |
| Lexer.SkipIdentifier | src/lexeme.c:103-109 | the loop stops where the specified identifier ends, or fails as specified |
| Lexer.NextLexeme | src/lexeme.c:85-134 | the word, the new cursor and the record equal `Lex` |
| Lexer.NextNonspaceLexeme | src/lexeme.c:136-144 | the word, the new cursor and the record equal `LexNonspace` |
| Ast.StepTagDecidesKind | include/private/jsonpath_ast.h:16-19 | two steps have the same tag exactly when they are the same kind of step |
| Compile.BuildSimpleIndex | src/compile.c:19-22 | the step has tag INDEX_SUB_SIMPLE and holds the given index |
| Compile.BuildRecursiveIndex | src/compile.c:24-27 | the step has tag INDEX_DOT_RECURSIVE and holds the given index |
| Compile.BuildSubexpIndex | src/compile.c:29-32 | the step has tag INDEX_SUB_EXP and holds the given expression |
| Compile.BuildFilterIndex | src/compile.c:34-37 | the step has tag INDEX_FILTER and holds the given filter |
| Compile.BuildRangeIndex | src/compile.c:39-42 | the step has tag INDEX_SUB_RANGE and holds both bounds, either of which may be absent |
| Compile.BuildUnary | src/compile.c:97-103 | the node has tag JSON_UNARY with the given operator and operand |
| Compile.BuildBinary | src/compile.c:109-115 | the node has tag JSON_BINARY with the given operator and operands |
| Compile.MakeRoot | src/compile.c:153-159 | a single node tagged root, with no constant |
| Compile.MakeCurr | src/compile.c:161-167 | a single node tagged current, with no constant |
| Compile.IndexesBuilder.constructor | src/compile.c:65-73 | an index chain over the given root with no steps and a buffer of capacity 4 |
| Compile.IndexesBuilder.AddIndex | src/compile.c:75-86 | the chain's steps become the old steps plus the new one; the buffer doubles exactly when it was full, keeping every step |
| Compile.CallBuilder.constructor | src/compile.c:122-130 | a call of the given name with no arguments and a buffer of capacity 4 |
| Compile.CallBuilder.AddOperand | src/compile.c:132-143 | the arguments become the old ones plus the new operand; the buffer doubles exactly when it was full |
| Compile.ReleaseFailsExactlyOnOpenRange | src/compile.c:174-195 | teardown dereferences NULL exactly when some slice step in the tree has an omitted bound |
| Compile.ReleaseExactlyOnce | src/compile.c:44-195 | a tree that can be torn down drops each JSON reference it owns once and frees each node once, freeing the root last |
| Compile.SingleReleaseExactlyOnce | src/compile.c:169-172 | tearing down a leaf drops its literal, if it is a constant, and then frees the leaf |
| Compile.IndexesReleaseExactlyOnce | src/compile.c:88-95 | tearing down a chain drops each reference its root and steps own once, frees each node once, and frees the chain node last |
| Compile.StepsReleaseExactlyOnce | src/compile.c:90-93 | the steps of a chain together drop their indexes and what their sub-trees own, each once |
| Compile.BinaryReleaseExactlyOnce | src/compile.c:117-120 | tearing down a binary node drops what both operands own once, frees each node once, and frees the binary node last |
| Compile.ArgsReleaseExactlyOnce | src/compile.c:145-150 | releasing the argument trees of a call drops what they own once and frees each of their nodes once |
| Compile.UnaryReleaseExactlyOnce | src/compile.c:105-107 | tearing down a unary node drops what its operand owns and frees each node once, the unary node last |
| Compile.CallReleaseExactlyOnce | src/compile.c:145-151 | tearing down a call drops what its arguments own once, frees each node once, and frees the call node last |
| Compile.StepReleaseExactlyOnce | src/compile.c:44-63 | tearing down a step drops its own index once and everything its sub-trees own |
| Compile.IndexReleaseExactlyOnce | src/compile.c:46-49 | a simple or recursive step drops its index reference, if any, and frees no node |
| Compile.NestedReleaseExactlyOnce | src/compile.c:50-53 | a sub-expression or filter step releases its expression tree exactly once |
| Compile.RangeReleaseExactlyOnce | src/compile.c:54-57 | a slice with both bounds releases both bound trees exactly once |
| Compile.OpenSliceReleaseFails | src/compile.c:54-57 | `$[1:]` cannot be torn down |
| Results.GetFunction | src/evaluate.c:16-21 | finds a function exactly when the table is present and has an entry with that name, and returns the first such entry |
| Json.MakeReal | src/evaluate.c:285 | `json_real` yields a value exactly for finite doubles |
| Json.SignedZerosEqual | src/evaluate.c:411-413 | `json_equal` treats 0.0 and -0.0 as equal although their bits differ |
| Json.ObjectEqualityIgnoresOrder | src/evaluate.c:411-413 | `json_equal` on objects does not depend on member order |
| Operators.SizeToInt | src/evaluate.c:108 | a size within the int64 range converts to itself |
| Operators.Arith | src/evaluate.c:282-305 | `+ - *`: null unless both operands are numbers; an integer when both are integers; otherwise a real or no value |
| Operators.Divide | src/evaluate.c:306-313 | `/`: null unless both operands are numbers; an integer when both are integers; otherwise a real or no value |
| Operators.IntegerOnly | src/evaluate.c:314-320 | `%`, `<<` and `>>` give an integer exactly for two integers, otherwise null |
| Operators.Bitwise | src/evaluate.c:321-353 | `& | ^` combine booleans logically; on two integers the result is an integer (its value is stated by the OperatorProperties bitwise lemmas); null for anything else |
| Operators.Logic | src/evaluate.c:354-395 | `&& ||` are null exactly when an operand is neither a number nor a boolean; otherwise they combine truth values |
| Operators.Compare | src/evaluate.c:417-452 | orderings are null exactly when an operand is not a number; two integers are compared exactly |
| Operators.MatchRegex | src/evaluate.c:460-467 | `=~` is null for non-strings; on two strings, a pattern that fails to compile gives null and the aborting compile error, an already aborted record gives null, and otherwise the result is the engine's match as a boolean with the record unchanged |
| Operators.JsonBinary | src/evaluate.c:279-473 | only `=~` touches the error record; `==` and `!=` always give a boolean; only arithmetic can yield no value |
| Operators.JsonNot | src/evaluate.c:552-556 | `!` negates a boolean, tests a number for zero, and is null otherwise |
| Operators.JsonNeg | src/evaluate.c:558-568 | `-` negates booleans, integers and finite reals, and is null for non-numbers |
| Operators.JsonBitNot | src/evaluate.c:570-577 | `~` negates booleans, complements integers (-1 - x), and is null otherwise |
| Semantics.Translate | src/evaluate.c:76-81 | a non-negative index in range is kept, a negative one counts back, and out-of-range indexes clamp to the first or last element; an empty array gives SIZE_MAX |
| Semantics.AllProperties | src/evaluate.c:55-74 | an array gives its elements, an object its member values in order, and anything else nothing |
| Semantics.Window | src/evaluate.c:186-189 | the copied window is `es[b..e]`, or empty when `e <= b` |
| Semantics.IndexByName | src/evaluate.c:88-90 | looks up the member named by the index, giving a right value that keeps the node's constant flag |
| Semantics.IndexByNumber | src/evaluate.c:91-96 | arrays give the error result; anything else gives a NULL right value |
| Semantics.IndexLength | src/evaluate.c:97-109 | an array's length; 0 for objects and anything else |
| Semantics.SimpleIndex | src/evaluate.c:83-112 | any present index gives all properties as a collection; an absent one gives the error result |
| Evaluator.FindFunction | src/evaluate.c:16-21 | the table scan returns `GetFunction` |
| Evaluator.ObjectToArray | src/evaluate.c:55-63 | the array holds the object's member values in order |
| Evaluator.GetAllProperty | src/evaluate.c:70-74 | returns `AllProperties` |
| Evaluator.NextLayerOf | src/evaluate.c:123-129 | the next layer is the concatenation of the properties of every value in the layer |
| Evaluator.DescendLayers | src/evaluate.c:120-134 | the gathered nodes are every layer below the node, in layer order |
| Evaluator.SliceArray | src/evaluate.c:183-189 | the appended elements are the translated window of the array |
| Evaluator.UnaryDealWithCollection | src/evaluate.c:579-593 | a scalar is mapped once; a collection is mapped element by element, keeping its constant flag |
| Evaluator.EvaluateUnaryOp | src/evaluate.c:595-624 | the result and record equal `EvaluateUnary`; `&` and `*` always abort |
| Evaluator.BinaryDealWithCollection | src/evaluate.c:476-491 | a scalar left operand is combined once; a collection one element by element, threading the record |
| Evaluator.EvaluateBasic | src/evaluate.c:626-656 | the result and record equal `Eval` for every node kind |
| Evaluator.EvaluatePath | src/evaluate.c:263-277 | folds the steps left to right over the root's result, stopping at the first abort |
| Evaluator.EvaluateBinary | src/evaluate.c:495-515 | evaluates lhs then rhs, aborts on a collection rhs, and otherwise broadcasts the operator |
| Evaluator.EvaluateCall | src/evaluate.c:519-550 | looks up the function (0xa1 when missing), evaluates the arguments in order, aborts on a collection argument, and calls the function on the values |
| Evaluator.PathDealWithCollection | src/evaluate.c:234-260 | a scalar takes one step; a collection maps the step over each element and gathers the results, or aborts |
| Evaluator.PathSimpleStep | src/evaluate.c:114-232 | a single step on a scalar equals `PathSimple` for every step kind |
| Evaluator.RangeStepOf | src/evaluate.c:150-196 | a slice step equals `RangeStep`, including its error paths |
| Evaluator.FilterStep | src/evaluate.c:197-228 | a filter step equals `PathSimple` on the filter |
| Evaluator.EvaluateDocument | src/evaluate.c:658-665 | evaluation starts from an ok record with the document as a non-constant `@` |
| Evaluator.FoldingNode.constructor | src/evaluate.c:35-44 | a new node is live and holds its tree |
| Evaluator.FoldingNode.Evaluate | src/evaluate.c:26-44 | a folded node returns its cached result unchanged; a live one returns `Eval` and folds exactly when that result does not abort and is constant |
| OperatorProperties.NegateIntegerTwice | src/evaluate.c:561-562 | negating an integer other than INT64_MIN twice gives it back |
| OperatorProperties.NegateRealTwice | src/evaluate.c:563-564 | negating a finite real flips its sign bit, and twice gives it back |
| OperatorProperties.FlipBooleanTwice | src/evaluate.c:552-577 | `!`, `-` and `~` each negate a boolean, and applied twice give it back |
| OperatorProperties.ComplementIntegerTwice | src/evaluate.c:570-577 | `~~x == x` on integers |
| OperatorProperties.NotOfNumber | src/evaluate.c:554 | `!` on a number is true exactly for zeros |
| OperatorProperties.AddThenSubtract | src/evaluate.c:282-297 | when x + y fits in int64, `+` gives x + y and `-` of y gives x back |
| OperatorProperties.RemainderSignAndSize | src/evaluate.c:314-320 | C `%` is smaller than the divisor in magnitude, takes the sign of the dividend, and x == y * (x / y) + x % y |
| OperatorProperties.ShiftLeftThenRight | src/evaluate.c:396-410 | shifting a non-negative x left by s < 64 gives x * 2^s when that fits in int64, and shifting back by s gives x |
| OperatorProperties.RealLessIrreflexive | src/evaluate.c:417-425 | no real is less than itself |
| OperatorProperties.RealLessAsymmetric | src/evaluate.c:417-434 | a < b excludes b < a and a == b |
| OperatorProperties.NaNUnordered | src/evaluate.c:417-452 | NaN is neither less than nor greater than any real |
| OperatorProperties.NotEqualIsComplement | src/evaluate.c:411-416 | `!=` is the negation of `==` for all operands |
| OperatorProperties.MismatchIsNull | src/evaluate.c:279-473 | operands that are not numbers, booleans or strings give null for every operator but `==` and `!=`, without touching the record |
| OperatorProperties.IntegerArithmeticIsExact | src/evaluate.c:282-313 | `+ - * /` on integers are exact, truncating toward zero, when the result fits |
| OperatorProperties.ConcatenationIsAlwaysNull | src/evaluate.c:453-458 | `++` gives null for every operand pair |
| OperatorProperties.MixedArithmeticReadsIntegerAsZero | src/evaluate.c:282-313 | `+ - *` read an integer operand beside a real as 0.0, while `/` converts it |
| OperatorProperties.MixedComparisonReadsIntegerAsZero | src/evaluate.c:417-452 | `< <= > >=` compare an integer beside a real as 0.0, on either side, so `1 < 0.5` is true and `1 > 0.5` false |
| OperatorProperties.BitwiseCommutes | src/evaluate.c:321-353 | `& | ^` on integers do not depend on operand order |
| OperatorProperties.XorWithItselfIsZero | src/evaluate.c:330-332 | `x ^ x` is 0 for every integer |
| OperatorProperties.AndWithZeroIsZero | src/evaluate.c:321-323 | `x & 0` and `0 & x` are 0 for every integer |
| OperatorProperties.BitAndExample | src/evaluate.c:321-323 | `12 & 10` is 8 |
| OperatorProperties.BitOrExample | src/evaluate.c:343-345 | `12 | 10` is 14 |
| OperatorProperties.BitXorExample | src/evaluate.c:330-332 | `12 ^ 10` is 6 |
| EvaluationProperties.RecursiveDescentVisitsEveryDescendant | src/evaluate.c:119-134 | `..` gathers every descendant of the node exactly once (as a multiset, against a preorder walk) |
| EvaluationProperties.DescentStartsBelowTheNode | src/evaluate.c:119-134 | for every node, each gathered value is strictly smaller than the node, so the node itself is never gathered |
| EvaluationProperties.PreorderIsBelow | src/evaluate.c:123-129 | every value reached below a layer is no larger than the layer |
| EvaluationProperties.DescentOfSingleton | src/evaluate.c:119-134 | `..` on `[1]` gathers `[1]`: the element, not the array |
| EvaluationProperties.NamedIndexIsWildcard | src/evaluate.c:85-86 | `.a` on `{a:1, b:2}` gives the collection `[1, 2]` |
| EvaluationProperties.UnreachableBranchesAsWritten | src/evaluate.c:91-104 | the numeric branch fails on arrays; the length branch gives 0 for objects |
| EvaluationProperties.StepOverCollection | src/evaluate.c:241-258 | a step over a collection gathers each element's result (splicing collections) when none aborts; otherwise it gives the error result with abort |
| EvaluationProperties.WildcardOverCollection | src/evaluate.c:243-257 | `*` over a collection gives the next layer of values, constant only when the collection was constant and empty |
| EvaluationProperties.StepsComposeLeftToRight | src/evaluate.c:268-274 | evaluating steps s + t equals evaluating t on the result of s |
| EvaluationProperties.PathComposesLeftToRight | src/evaluate.c:263-277 | a chain evaluates its root, then folds its steps left to right |
| EvaluationProperties.ConstantResultCanDependOnRoot | src/evaluate.c:244-257 | `[[1,2]][null][$:]` is flagged constant both on the document 0, giving `[1]`, and on the document 5, giving `[]` |
| EvaluationProperties.StepSeesRunningResult | src/evaluate.c:270 | in `[7][@:]`, `@` is the running result, so the slice fails where the document would give an empty slice |
| EvaluationProperties.SliceBetween | src/evaluate.c:172-189 | `[b:e]` with 0 <= b < e < size gives `es[b..e]`, constant exactly when the array and both bounds are |
| EvaluationProperties.SliceBackwardsIsEmpty | src/evaluate.c:183-189 | a slice whose translated end is not after its begin is empty |
| EvaluationProperties.OpenSliceDropsLast | src/evaluate.c:172-189 | `[:]` gives every element but the last, and nothing for an empty array |
| EvaluationProperties.RangeErrors | src/evaluate.c:150-181 | a non-array gives the error result without abort; an aborting begin bound passes its error on, a collection one aborts with the collection-operand error, and only then is the end bound evaluated, with the same two outcomes; with both bounds plain, a present bound that is not a number gives the error result without abort; a missing bound is an absent plain value |
| EvaluationProperties.FilterOnObject | src/evaluate.c:208-216 | a filter over an object keeps exactly the members that are `true` when every predicate is plain, and aborts otherwise |
| EvaluationProperties.FilterAbortsAtFirstFailure | src/evaluate.c:199-216 | over an object, the first member whose predicate is not plain decides the error: an aborting predicate passes its own error on, a collection aborts with 0xaa |
| EvaluationProperties.FilterStopsAtFirstFailure | src/evaluate.c:199-206 | the filter loop stops at the first value whose predicate is not plain, with that predicate's error or 0xaa |
| EvaluationProperties.FilterOnNonObjectIsEmpty | src/evaluate.c:217-223 | a filter over an array or scalar gives an empty collection |
| EvaluationProperties.MemberPredicateAborts | src/evaluate.c:203-206 | `?(@.key)` over a non-empty object aborts with the collection-operand error |
| EvaluationProperties.BinaryMapsElementwise | src/evaluate.c:476-491 | every operator but `=~` on a collection applies to each element with the right operand, in order, dropping NULL results, leaving the record ok; the result is a right-valued collection, constant iff both operands are; without NULL results there is one output per element at its place |
| EvaluationProperties.MapBinaryPresent | src/evaluate.c:484-488 | the broadcast loop builds the element results in order, minus the NULLs, and keeps the record |
| EvaluationProperties.PresentKeepsOrder | src/evaluate.c:487 | appending results with `json_array_append_new` keeps them in order; all are kept exactly when none is NULL |
| EvaluationProperties.FailedPatternMapsToNull | src/evaluate.c:460-467 | once the pattern fails to compile, every remaining element maps to null |
| EvaluationProperties.CollectionOnTheRightAborts | src/evaluate.c:495-515 | once both operands evaluate without aborting, a collection right operand aborts with the collection-operand error whatever the operator, and a plain one goes to the broadcast |
| EvaluationProperties.KeyOnTheRightAborts | src/evaluate.c:85-86 | `$.k` on the right of any operator aborts, because it is always a collection |
| EvaluationProperties.UnaryMapsElementwise | src/evaluate.c:579-593 | `!`, `-` and `~` on a collection apply to each element in order, dropping NULL results, keeping the constant flag; `!` and `~` keep one output per element at its place |
| EvaluationProperties.MapUnaryPresent | src/evaluate.c:586-589 | the unary broadcast loop builds the element results in order, minus the NULLs |
| EvaluationProperties.ArrayOperatorsAbort | src/evaluate.c:604-618 | `&` and `*` abort with 0xa3 and 0xa4 whatever their operand |
| EvaluationProperties.Leaves | src/evaluate.c:629-638 | `$` is the non-constant document as a left value, `@` the current element, a literal a constant right value; at the top `@` is the document as a non-constant right value |
| EvaluationProperties.MissingFunctionAborts | src/evaluate.c:521-528 | a call to a name missing from the table aborts with 0xa1, naming the function |
| EvaluationProperties.CallIsNeverConstant | src/evaluate.c:534-544 | a call's result is never constant |
| EvaluationProperties.CallPassesArguments | src/evaluate.c:535-544 | a call passes the values of its arguments in order |
| EvaluationProperties.CollectionArgumentAborts | src/evaluate.c:534-542 | the first collection argument after plain ones aborts the call with the collection-operand error, whatever follows it |
| EvaluationProperties.ArgumentsStopAtCollection | src/evaluate.c:535-542 | argument evaluation stops at the first collection argument after plain ones |
| EvaluationProperties.KeyArgumentAborts | src/evaluate.c:85-86 | `$.k` as an argument aborts the call, because it is always a collection |
| EvaluationProperties.EvaluationErrorsAbort | src/evaluate.c:626-656 | whatever the tree, the evaluator leaves either the ok record or one with abort set |

## Left out

- Reference counting: `json_incref` / `json_decref` on results and the sharing of documents between results are not modelled; values are immutable in the model, so the places where sharing changes the outcome are not captured: the in-place growth below, and the filter's release of a borrowed member. The filter wraps each member value as `@` without `json_incref` and then calls `jsonpath_decref` on it (`src/evaluate.c:200, 204, 209`), so with a predicate that keeps no reference to `@`, such as `?(1)`, a member value held only by its object is freed while the object still points at it; the model keeps the document intact.
- `Evaluator.DescendLayers` / `Semantics.PathSimple`: on an array node, `json_get_all_property` returns the node itself (`src/evaluate.c:70-71`), so `all_node` is the caller's array and `json_array_extend(all_node, layer)` grows it in place (`:120-132`); the model builds a new sequence and leaves the document unchanged. For example `$[$..a]` on `[[1]]` gives `[[1],1]` in C, because the document grew, and `[[1]]` in the model; a second `$..a` on the same document also differs.
- Constant folding is modelled for one node (`Evaluator.FoldingNode`); children nested in a folded tree are evaluated without their own caches, and `jsonpath_release_no_free` on the folded node is not modelled.
- `JSON_CONSTANT` is not a member of the tag enum in `include/private/jsonpath_ast.h:89-92`; the fold state is a separate datatype.
- `get_function` returns `jsonpath_function`, a type not declared in the headers beside the function table; the model returns the table entry. The `func_name` field is a `char*` in the header but read as a `json_t*` at `src/evaluate.c:520-521`; the model holds a string.
- The operator enums in `include/private/jsonpath_ast.h:38-61` have no `!=` and name `++`, `&` and `*` differently from `src/evaluate.c`; the model uses one operator per case of `src/evaluate.c`.
- `add_index` and `add_oprand_arbitrary` allocate a new buffer only when full, copy `size` bytes instead of `size` elements, and never update the capacity; the model has the append they evidently intend (double when full, copy every element).
- `Compile.IndexesBuilder.AddIndex`: does not model the under-sized copy and stale capacity of `src/compile.c:79-80`, because the classes model the intended growable buffer.
- `Compile.CallBuilder.AddOperand`: does not model the under-sized copy and stale capacity of `src/compile.c:136-137`, for the same reason.
- Results that C leaves undefined (signed overflow, `INT64_MIN / -1`, division by zero, out-of-range shifts) and all floating-point arithmetic and conversions are parameters of the model (`Operators.Platform`).
- Regular expressions: compilation and matching are parameters (`Operators.RegexEngine`); a compilation failure is assumed to set the abort flag; `src/regex_impl.c` is not part of this model.
- `mblen` and the locale are a parameter of the lexer; `errno` and the `strerror` text recorded with code 0x31 are not modelled.
- The parser is not among the files modelled; trees are built with the `Compile` builders (`src/janssonpath.c` holds an older copy of the builders, which is not part of this model either).
- `src/error.c` initialises the ok record with the fields in the wrong order; the model uses the ok record the code evidently intends (no abort, code 0, no extra).
- An unknown node or step tag, and the fall-through from `JSON_SINGLE` with an unknown single tag into `JSON_INDEX`, cannot occur in the datatypes.
- The model follows a build with `NDEBUG` defined: the `assert`s of `src/evaluate.c` are not checked. `@` can be a collection, because the step loop passes the running result as `@` (`:270`): `$.a[@]` on `{"a":[1,2,3]}` evaluates to the collection `[1,2,3]` in the model, where a debug build stops at `assert(!curr_element.is_collection)` (`:627`); `$.a[1:2]` does the same when an element is an array.
- `OperatorProperties.RealLessAsymmetric`: transitivity and totality of the real ordering on non-NaN values are not proved, because reasoning about orderings of 64-bit patterns exceeds the solver budget.
- `Operators.Bitwise`: the integer value of `& | ^` is stated only through commutativity, `x ^ x == 0`, `x & 0 == 0` and concrete cases (`OperatorProperties`), not as a general formula over two's-complement bits, because converting between int64 and bv64 in general exceeds the solver budget; `x | -1 == -1` is not proved for the same reason.
- `Json.Real`: the type admits NaN and infinite bit patterns, which jansson never stores in a document; properties stated for all documents therefore also cover these patterns.
- Memory exhaustion in `do_malloc` is not modelled.
