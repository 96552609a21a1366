/**
 * What evaluating a path yields (src/evaluate.c), as functions of the
 * document, the function table and the tree. The imperative evaluator
 * in module Evaluator is proved to compute exactly these.
 *
 * The error record: jsonpath_evaluate resets it to ok, and every write
 * the evaluator makes to it sets `abort`, after which every caller
 * returns at once. So a sub-evaluation always starts from ok and
 * either aborts or leaves it ok; each function here returns the record
 * it leaves behind instead of taking the one it starts from. The one
 * place where the record carries information from one element to the
 * next, the element-wise `=~`, threads it.
 */
module Semantics {
  import opened Wrappers
  import opened Json
  import opened Errors
  import opened Ast
  import opened Results
  import opened Operators

  /** What evaluation reads besides the tree: the document, the functions and the platform. */
  datatype Env = Env(root: Option<Json>, table: Option<FunctionTable>, platform: Platform, regex: RegexEngine)

  /** A result and the error record after computing it. */
  datatype Outcome = Outcome(result: Result, err: Error)

  /** error_result with the record as a failing step leaves it. */
  function Fail(err: Error): Outcome { Outcome(ErrorResult, err) }

  /** A result with the record untouched. */
  function Done(r: Result): Outcome { Outcome(r, Ok) }

  /** The element a value adds to an array through json_array_append_new: none for NULL. */
  function Appended(v: Option<Json>): seq<Json> {
    if v.Some? then [v.value] else []
  }

  // ---------------------------------------------------------------
  // Index helpers (:55-81).
  // ---------------------------------------------------------------

  /** SIZE_MAX, what `array_size - 1` wraps to when the size is 0. */
  const SIZE_MAX: nat := 0xFFFF_FFFF_FFFF_FFFF

  /**
   * json_array_index_translate: a negative index counts from the end;
   * the result is clamped into the array. For an empty array `size - 1`
   * wraps around to SIZE_MAX.
   */
  function Translate(index: int, size: nat): (r: nat)
    ensures size > 0 ==> r < size
    ensures size > 0 && 0 <= index < size ==> r == index
    ensures size > 0 && 0 <= size + index && index < 0 ==> r == size + index
    ensures size > 0 && index >= size ==> r == size - 1
    ensures size > 0 && size + index < 0 ==> r == 0
    ensures size == 0 ==> r == SIZE_MAX
  {
    var i := if index < 0 then size + index else index;
    var k: nat := if i < 0 then 0 else i;
    if k >= size then (if size == 0 then SIZE_MAX else size - 1) else k
  }

  /**
   * json_get_all_property, by value: an array's elements, an object's
   * member values in order, and nothing for any other value.
   */
  function AllProperties(v: Option<Json>): (r: seq<Json>)
    ensures v.Some? ==> ElemsSize(r) < Size(v.value)
    ensures IsArray(v) ==> r == v.value.elems
    ensures IsObject(v) ==>
      |r| == |v.value.members| && forall k :: 0 <= k < |r| ==> r[k] == v.value.members[k].value
    ensures !IsArray(v) && !IsObject(v) ==> r == []
  {
    if IsArray(v) then Elements(v)
    else if IsObject(v) then
      MemberValuesSize(v.value.members);
      MemberValues(v.value.members)
    else []
  }

  /** The properties of every node of a layer, in order. */
  function NextLayer(layer: seq<Json>): (r: seq<Json>)
    ensures ElemsSize(r) <= ElemsSize(layer)
    ensures layer != [] ==> ElemsSize(r) < ElemsSize(layer)
  {
    if layer == [] then []
    else
      var here, rest := AllProperties(Some(layer[0])), NextLayer(layer[1..]);
      ElemsSizeAppend(here, rest);
      here + rest
  }

  /**
   * The recursive-descent loop (:120-134): starting from the node's
   * properties, append each next layer to what was gathered until a
   * layer comes out empty.
   */
  function Descend(layer: seq<Json>, gathered: seq<Json>): seq<Json>
    decreases ElemsSize(layer)
  {
    if layer == [] then gathered
    else
      var next := NextLayer(layer);
      Descend(next, gathered + next)
  }

  /** The elements with positions in [b, e), as the slice loop appends them. */
  function Window(es: seq<Json>, b: nat, e: nat): (r: seq<Json>)
    ensures b < e <= |es| ==> r == es[b..e]
    ensures e <= b ==> r == []
  {
    if b < e && b < |es| then es[b..if e < |es| then e else |es|] else []
  }

  // ---------------------------------------------------------------
  // A simple index (:83-112), branch by branch.
  // ---------------------------------------------------------------

  /** A string index: the member of that name, NULL when there is none. */
  function IndexByName(node: Result, index: Option<Json>): (r: Result)
    ensures r.value == ObjectGet(node.value, StringValue(index))
    ensures !r.isCollection && r.isRightValue && r.isConstant == node.isConstant
  {
    Result(ObjectGet(node.value, StringValue(index)), false, true, node.isConstant)
  }

  /** A numeric index: error_result for an array, which the test at :92 rejects; otherwise the translated element. */
  function IndexByNumber(p: Platform, node: Result, index: Option<Json>): (r: Result)
    ensures IsArray(node.value) ==> r == ErrorResult
    ensures !IsArray(node.value) ==> r == Result(None, false, true, node.isConstant)
  {
    if IsArray(node.value) then ErrorResult
    else
      var size := ArraySize(node.value);
      Result(ArrayGet(node.value, Translate(NumberToIndex(p, index), size)), false, true, node.isConstant)
  }

  /** A null index, `#`: an array's size; the test at :102 repeats the array test, so an object counts 0. */
  function IndexLength(node: Result): (r: Result)
    ensures r.value == Some(Int(if IsArray(node.value) then SizeToInt(ArraySize(node.value)) else 0))
    ensures !r.isCollection && r.isRightValue && r.isConstant == node.isConstant
  {
    var size: nat :=
      if IsArray(node.value) then ArraySize(node.value)
      else if IsArray(node.value) then ObjectSize(node.value)
      else 0;
    Result(Some(Int(SizeToInt(size))), false, true, node.isConstant)
  }

  /**
   * jsonpath_evaluate_impl_simple_index. The first test (:85) asks
   * whether the index is non-NULL, so every index takes the wildcard
   * branch and a NULL index, for which the later tests are all false,
   * gives error_result.
   */
  function SimpleIndex(p: Platform, node: Result, index: Option<Json>): (r: Result)
    ensures index.Some? ==> r == Result(Some(Arr(AllProperties(node.value))), true, true, node.isConstant)
    ensures index.None? ==> r == ErrorResult
  {
    if index.Some? then Result(Some(Arr(AllProperties(node.value))), true, true, node.isConstant)
    else if IsString(index) then IndexByName(node, index)
    else if IsNumber(index) then IndexByNumber(p, node, index)
    else if IsNull(index) then IndexLength(node)
    else ErrorResult
  }

  // ---------------------------------------------------------------
  // Unary operators (:579-624).
  // ---------------------------------------------------------------

  /** The mapped elements of a broadcast unary operator; NULL results add nothing. */
  function MapUnary(p: Platform, op: UnaryOp, rest: seq<Json>, acc: seq<Json>): seq<Json>
    decreases |rest|
  {
    if rest == [] then acc
    else MapUnary(p, op, rest[1..], acc + Appended(UnaryValue(p, op, Some(rest[0]))))
  }

  /** unary_deal_with_collection. */
  function UnaryBroadcast(p: Platform, op: UnaryOp, o: Result): Result {
    if !o.isCollection then Result(UnaryValue(p, op, o.value), false, true, o.isConstant)
    else Result(Some(Arr(MapUnary(p, op, Elements(o.value), []))), true, true, o.isConstant)
  }

  /**
   * evaluate_unary. `&` and `*` build their result but then abort
   * whatever the operand (:605-618).
   */
  function EvaluateUnary(p: Platform, op: UnaryOp, o: Result): Outcome {
    match op
    case Not => Done(UnaryBroadcast(p, op, o))
    case Pos => Done(o)
    case Neg => Done(UnaryBroadcast(p, op, o))
    case ToArray =>
      Outcome(if o.isCollection then Result(o.value, false, true, o.isConstant) else ErrorResult,
              Error(true, TO_ARRAY_UNIMPLEMENTED, NoExtra))
    case FromArray =>
      Outcome(if !o.isCollection && IsArray(o.value) then Result(o.value, true, o.isRightValue, o.isConstant) else ErrorResult,
              Error(true, FROM_ARRAY_UNIMPLEMENTED, NoExtra))
    case BitNot => Done(UnaryBroadcast(p, op, o))
  }

  // ---------------------------------------------------------------
  // Binary operators (:476-515).
  // ---------------------------------------------------------------

  /** The mapped elements of a broadcast binary operator and the error record threaded through them. */
  datatype Mapped = Mapped(values: seq<Json>, err: Error)

  function MapBinary(env: Env, op: BinaryOp, rest: seq<Json>, rhs: Option<Json>, acc: seq<Json>, err: Error): Mapped
    decreases |rest|
  {
    if rest == [] then Mapped(acc, err)
    else
      var s := JsonBinary(env.platform, env.regex, op, Some(rest[0]), rhs, err);
      MapBinary(env, op, rest[1..], rhs, acc + Appended(s.value), s.err)
  }

  /** binary_deal_with_collection, from an ok record. */
  function BinaryBroadcast(env: Env, op: BinaryOp, lhs: Result, rhs: Result): Outcome {
    if !lhs.isCollection then
      var s := JsonBinary(env.platform, env.regex, op, lhs.value, rhs.value, Ok);
      Outcome(Result(s.value, false, true, lhs.isConstant && rhs.isConstant), s.err)
    else
      var m := MapBinary(env, op, Elements(lhs.value), rhs.value, [], Ok);
      Outcome(Result(Some(Arr(m.values)), true, true, lhs.isConstant && rhs.isConstant), m.err)
  }

  // ---------------------------------------------------------------
  // The tree walk (:114-277, :495-550, :626-665).
  // ---------------------------------------------------------------

  /** The argument values of a call, or the error that stopped their evaluation. */
  datatype Arguments = Evaluated(values: seq<Option<Json>>) | Stopped(err: Error)

  /** jsonpath_evaluate_impl_basic: evaluate `p` with `curr` as `@`. */
  function Eval(env: Env, curr: Result, p: Path): Outcome
    decreases PathSize(p), 0, 0
  {
    match p
    case Single(tag, constant) =>
      (match tag
       case Root => Done(Result(env.root, false, false, false))
       case Curr => Done(curr)
       case Const => Done(Result(constant, false, true, true)))
    case Indexes(root, steps) =>
      var o := Eval(env, curr, root);
      if o.err.abort then Fail(o.err) else FoldSteps(env, o.result, steps)
    case Unary(op, node) =>
      var o := Eval(env, curr, node);
      if o.err.abort then o else EvaluateUnary(env.platform, op, o.result)
    case Binary(op, lhs, rhs) =>
      var l := Eval(env, curr, lhs);
      if l.err.abort then Fail(l.err)
      else
        var r := Eval(env, curr, rhs);
        if r.err.abort then Fail(r.err)
        else if r.result.isCollection then Fail(CollectionOperand)
        else BinaryBroadcast(env, op, l.result, r.result)
    case Call(name, args) =>
      var f := GetFunction(env.table, name);
      if f.None? then Fail(Error(true, FUNCTION_NOT_FOUND, Name(name)))
      else
        match EvalArgs(env, curr, args, [])
        case Stopped(err) => Fail(err)
        case Evaluated(values) => Done(Result(f.value(values), false, true, false))
  }

  /**
   * The step loop of jsonpath_evaluate_impl_path (:269-274): each step
   * is applied to the running result, which is also passed as `@`.
   */
  function FoldSteps(env: Env, ret: Result, steps: seq<IndexStep>): Outcome
    decreases StepsSize(steps), 4, 0
  {
    if steps == [] then Done(ret)
    else
      var o := DealWithCollection(env, ret, steps[0], ret);
      if o.err.abort then Fail(o.err) else FoldSteps(env, o.result, steps[1..])
  }

  /** path_deal_with_collection: one step, applied to each element of a collection. */
  function DealWithCollection(env: Env, curr: Result, step: IndexStep, node: Result): Outcome
    decreases StepSize(step), 3, 0
  {
    if !node.isCollection then PathSimple(env, curr, node, step)
    else MapStep(env, curr, step, node, Elements(node.value), [], node.isConstant)
  }

  /**
   * The loop of path_deal_with_collection (:244-257): a plain result is
   * appended, a collection spliced in; a constant element clears the
   * constant flag (:250).
   */
  function MapStep(env: Env, curr: Result, step: IndexStep, node: Result, rest: seq<Json>, acc: seq<Json>, constant: bool): Outcome
    decreases StepSize(step), 2, |rest|
  {
    if rest == [] then Done(Result(Some(Arr(acc)), true, true, constant))
    else
      var m := PathSimple(env, curr, Result(Some(rest[0]), false, node.isRightValue, node.isConstant), step);
      if m.err.abort then Fail(m.err)
      else
        var acc' := if !m.result.isCollection then acc + Appended(m.result.value) else acc + Elements(m.result.value);
        MapStep(env, curr, step, node, rest[1..], acc', if m.result.isConstant then false else constant)
  }

  /** jsonpath_evaluate_impl_path_simple: one step applied to one node. */
  function PathSimple(env: Env, curr: Result, node: Result, step: IndexStep): Outcome
    decreases StepSize(step), 1, 0
  {
    match step
    case Simple(index) => Done(SimpleIndex(env.platform, node, index))
    case Recursive(index) =>
      var layer := AllProperties(node.value);
      var all := Result(Some(Arr(Descend(layer, layer))), true, true, node.isConstant);
      DealWithCollection(env, curr, Simple(index), all)
    case SubExp(e) =>
      var o := Eval(env, curr, e);
      if o.err.abort then Fail(o.err) else Done(SimpleIndex(env.platform, node, o.result.value))
    case SubRange(b, e) => RangeStep(env, curr, node, b, e)
    case Filter(e) =>
      if IsObject(node.value) then
        FilterValues(env, e, AllProperties(node.value), [], node.isConstant)
      else if IsObject(node.value) then
        // The array branch (:217-220) repeats the object test, so it is never taken.
        assert false;
        Done(ErrorResult)
      else Done(Result(Some(Arr([])), true, true, node.isConstant))
  }

  /** A slice bound: absent, a constant NULL; present, its value. */
  function EvalBound(env: Env, curr: Result, b: Option<Path>): Outcome
    decreases BoundSize(b), 1, 0
  {
    if b.None? then Done(Result(None, false, true, true)) else Eval(env, curr, b.value)
  }

  /** The INDEX_SUB_RANGE case (:150-196). */
  function RangeStep(env: Env, curr: Result, node: Result, b: Option<Path>, e: Option<Path>): Outcome
    decreases StepSize(SubRange(b, e)), 0, 0
  {
    if !IsArray(node.value) then Fail(Ok)
    else
      var lo := EvalBound(env, curr, b);
      if lo.err.abort then Fail(lo.err)
      else if lo.result.isCollection then Fail(CollectionOperand)
      else
        var hi := EvalBound(env, curr, e);
        if hi.err.abort then Fail(hi.err)
        else if hi.result.isCollection then Fail(CollectionOperand)
        else Done(Slice(env.platform, node, lo.result, hi.result))
  }

  /**
   * The slice itself (:172-189): a bound that is not a number gives
   * error_result; missing bounds are 0 and the array size; the elements
   * from the first translated bound up to, not including, the second.
   */
  function Slice(p: Platform, node: Result, lo: Result, hi: Result): Result {
    var size := ArraySize(node.value);
    if lo.value.Some? && !IsNumber(lo.value) then ErrorResult
    else if hi.value.Some? && !IsNumber(hi.value) then ErrorResult
    else
      var b: int := if lo.value.Some? then NumberToIndex(p, lo.value) else 0;
      var e: int := if hi.value.Some? then NumberToIndex(p, hi.value) else size;
      Result(Some(Arr(Window(Elements(node.value), Translate(b, size), Translate(e, size)))), true, true,
             node.isConstant && lo.isConstant && hi.isConstant)
  }

  /**
   * The filter loop (:199-210): the predicate is evaluated with each
   * value as `@`; the value is kept when the value itself is `true`.
   */
  function FilterValues(env: Env, e: Path, rest: seq<Json>, kept: seq<Json>, constant: bool): Outcome
    decreases StepSize(Filter(e)), 0, |rest|
  {
    if rest == [] then Done(Result(Some(Arr(kept)), true, true, constant))
    else
      var cond := Eval(env, Result(Some(rest[0]), false, false, false), e);
      if cond.err.abort then Fail(cond.err)
      else if cond.result.isCollection then Fail(CollectionOperand)
      else FilterValues(env, e, rest[1..], if rest[0] == Bool(true) then kept + [rest[0]] else kept, constant)
  }

  /** The argument loop of jsonpath_evaluate_impl_arbitrary (:535-543). */
  function EvalArgs(env: Env, curr: Result, args: seq<Path>, acc: seq<Option<Json>>): Arguments
    decreases ArgsSize(args), 1, 0
  {
    if args == [] then Evaluated(acc)
    else
      var o := Eval(env, curr, args[0]);
      var err := if !o.err.abort && o.result.isCollection then CollectionOperand else o.err;
      if err.abort then Stopped(err) else EvalArgs(env, curr, args[1..], acc + [o.result.value])
  }

  /** jsonpath_evaluate: the document root is also the first `@`. */
  function Evaluate(env: Env, p: Path): Outcome {
    Eval(env, Result(env.root, false, true, false), p)
  }
}
