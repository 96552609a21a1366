/**
 * The evaluator as src/evaluate.c runs it: a recursive walk whose loops
 * build fresh arrays element by element. Every method is proved to
 * compute the function of module Semantics that specifies it.
 */
module Evaluator {
  import opened Wrappers
  import opened Json
  import opened Errors
  import opened Ast
  import opened Results
  import opened Operators
  import opened Semantics

  /** get_function: scan the table for the first entry with the name. */
  method FindFunction(table: Option<FunctionTable>, name: string) returns (f: Option<Callable>)
    ensures f == GetFunction(table, name)
  {
    if table.None? {
      return None;
    }
    var entries := table.value;
    var i := 0;
    while i < |entries|
      invariant 0 <= i <= |entries|
      invariant forall j :: 0 <= j < i ==> entries[j].name != name
    {
      if entries[i].name == name {
        return Some(entries[i].callable);
      }
      i := i + 1;
    }
    return None;
  }

  /** json_object_to_array: the member values of an object, in order. */
  method ObjectToArray(obj: Json) returns (values: seq<Json>)
    requires obj.Obj?
    ensures values == MemberValues(obj.members)
  {
    var members := obj.members;
    values := [];
    var i := 0;
    while i < |members|
      invariant 0 <= i <= |members|
      invariant |values| == i
      invariant forall k :: 0 <= k < i ==> values[k] == members[k].value
    {
      values := values + [members[i].value];
      i := i + 1;
    }
  }

  /** json_get_all_property. */
  method GetAllProperty(node: Option<Json>) returns (values: seq<Json>)
    ensures values == AllProperties(node)
  {
    if IsArray(node) {
      values := node.value.elems;
    } else if IsObject(node) {
      values := ObjectToArray(node.value);
    } else {
      values := [];
    }
  }

  /** The layer from position `i` on is the properties of node `i`, then the rest. */
  lemma NextLayerStep(layer: seq<Json>, i: nat)
    requires i < |layer|
    ensures NextLayer(layer[i..]) == AllProperties(Some(layer[i])) + NextLayer(layer[i + 1..])
  {
    assert layer[i..][1..] == layer[i + 1..];
  }

  /** One layer of the descent: the properties of every node of the layer, in order. */
  method NextLayerOf(layer: seq<Json>) returns (next: seq<Json>)
    ensures next == NextLayer(layer)
  {
    next := [];
    var i := 0;
    while i < |layer|
      invariant 0 <= i <= |layer|
      invariant next + NextLayer(layer[i..]) == NextLayer(layer)
    {
      var get := GetAllProperty(Some(layer[i]));
      NextLayerStep(layer, i);
      AppendAssociates(next, get, NextLayer(layer[i + 1..]));
      next := next + get;
      i := i + 1;
    }
    assert layer[i..] == [];
    assert next + [] == next;
  }

  /** The layer loop of INDEX_DOT_RECURSIVE (:120-134). */
  method DescendLayers(node: Option<Json>) returns (all: seq<Json>)
    ensures all == Descend(AllProperties(node), AllProperties(node))
  {
    var layer := GetAllProperty(node);
    all := layer;
    while |layer| > 0
      invariant Descend(layer, all) == Descend(AllProperties(node), AllProperties(node))
      decreases ElemsSize(layer)
    {
      layer := NextLayerOf(layer);
      all := all + layer;
    }
  }

  /** Appending element `i` extends the window by that element, if there is one. */
  lemma WindowStep(es: seq<Json>, b: nat, i: nat)
    requires b <= i
    ensures Window(es, b, i + 1) == Window(es, b, i) + (if i < |es| then [es[i]] else [])
  {
    if i < |es| {
      assert es[b..i + 1] == es[b..i] + [es[i]];
    }
  }

  /** The slice loop (:172-189). */
  method SliceArray(p: Platform, node: Result, lo: Result, hi: Result) returns (r: Result)
    ensures r == Slice(p, node, lo, hi)
  {
    var size := ArraySize(node.value);
    if lo.value.Some? && !IsNumber(lo.value) {
      return ErrorResult;
    }
    if hi.value.Some? && !IsNumber(hi.value) {
      return ErrorResult;
    }
    var first: int := if lo.value.Some? then NumberToIndex(p, lo.value) else 0;
    var last: int := if hi.value.Some? then NumberToIndex(p, hi.value) else size;
    var begin, end := Translate(first, size), Translate(last, size);
    var picked: seq<Json> := [];
    var i := begin;
    while i < end
      invariant begin <= i
      invariant i <= end || i == begin
      invariant picked == Window(Elements(node.value), begin, i)
    {
      WindowStep(Elements(node.value), begin, i);
      picked := picked + Appended(ArrayGet(node.value, i));
      i := i + 1;
    }
    r := Result(Some(Arr(picked)), true, true, node.isConstant && lo.isConstant && hi.isConstant);
  }

  /** unary_deal_with_collection. */
  method UnaryDealWithCollection(p: Platform, op: UnaryOp, origin: Result) returns (r: Result)
    ensures r == UnaryBroadcast(p, op, origin)
  {
    if !origin.isCollection {
      return Result(UnaryValue(p, op, origin.value), false, true, origin.isConstant);
    }
    var values := Elements(origin.value);
    var mapped: seq<Json> := [];
    var i := 0;
    while i < |values|
      invariant 0 <= i <= |values|
      invariant MapUnary(p, op, values[i..], mapped) == MapUnary(p, op, values, [])
    {
      assert values[i..][1..] == values[i + 1..];
      mapped := mapped + Appended(UnaryValue(p, op, Some(values[i])));
      i := i + 1;
    }
    assert values[i..] == [];
    r := Result(Some(Arr(mapped)), true, true, origin.isConstant);
  }

  /** evaluate_unary. */
  method EvaluateUnaryOp(p: Platform, op: UnaryOp, operand: Result) returns (o: Outcome)
    ensures o == EvaluateUnary(p, op, operand)
  {
    match op
    case Not =>
      var r := UnaryDealWithCollection(p, op, operand);
      o := Done(r);
    case Pos =>
      o := Done(operand);
    case Neg =>
      var r := UnaryDealWithCollection(p, op, operand);
      o := Done(r);
    case ToArray =>
      var r := ErrorResult;
      if operand.isCollection {
        r := Result(operand.value, false, true, operand.isConstant);
      }
      o := Outcome(r, Error(true, TO_ARRAY_UNIMPLEMENTED, NoExtra));
    case FromArray =>
      var r := ErrorResult;
      if !operand.isCollection && IsArray(operand.value) {
        r := Result(operand.value, true, operand.isRightValue, operand.isConstant);
      }
      o := Outcome(r, Error(true, FROM_ARRAY_UNIMPLEMENTED, NoExtra));
    case BitNot =>
      var r := UnaryDealWithCollection(p, op, operand);
      o := Done(r);
  }

  /** binary_deal_with_collection, from an ok record. */
  method BinaryDealWithCollection(env: Env, op: BinaryOp, lhs: Result, rhs: Result) returns (o: Outcome)
    ensures o == BinaryBroadcast(env, op, lhs, rhs)
  {
    if !lhs.isCollection {
      var s := JsonBinary(env.platform, env.regex, op, lhs.value, rhs.value, Ok);
      return Outcome(Result(s.value, false, true, lhs.isConstant && rhs.isConstant), s.err);
    }
    var values := Elements(lhs.value);
    var mapped: seq<Json> := [];
    var err := Ok;
    var i := 0;
    while i < |values|
      invariant 0 <= i <= |values|
      invariant MapBinary(env, op, values[i..], rhs.value, mapped, err) == MapBinary(env, op, values, rhs.value, [], Ok)
    {
      assert values[i..][1..] == values[i + 1..];
      var s := JsonBinary(env.platform, env.regex, op, Some(values[i]), rhs.value, err);
      mapped := mapped + Appended(s.value);
      err := s.err;
      i := i + 1;
    }
    assert values[i..] == [];
    o := Outcome(Result(Some(Arr(mapped)), true, true, lhs.isConstant && rhs.isConstant), err);
  }

  /** jsonpath_evaluate_impl_basic. */
  method EvaluateBasic(env: Env, curr: Result, p: Path) returns (o: Outcome)
    ensures o == Eval(env, curr, p)
    decreases PathSize(p), 2
  {
    match p
    case Single(tag, constant) =>
      match tag {
        case Root => o := Done(Result(env.root, false, false, false));
        case Curr => o := Done(curr);
        case Const => o := Done(Result(constant, false, true, true));
      }
    case Indexes(root, steps) =>
      o := EvaluatePath(env, curr, root, steps);
    case Unary(op, node) =>
      o := EvaluateBasic(env, curr, node);
      if !o.err.abort {
        o := EvaluateUnaryOp(env.platform, op, o.result);
      }
    case Binary(op, lhs, rhs) =>
      o := EvaluateBinary(env, curr, op, lhs, rhs);
    case Call(name, args) =>
      o := EvaluateCall(env, curr, name, args);
  }

  /** jsonpath_evaluate_impl_path: evaluate the root node, then fold the steps over it. */
  method EvaluatePath(env: Env, curr: Result, root: Path, steps: seq<IndexStep>) returns (o: Outcome)
    ensures o == Eval(env, curr, Indexes(root, steps))
    decreases PathSize(Indexes(root, steps)), 1
  {
    var first := EvaluateBasic(env, curr, root);
    if first.err.abort {
      return Fail(first.err);
    }
    var ret := first.result;
    var i := 0;
    while i < |steps|
      invariant 0 <= i <= |steps|
      invariant FoldSteps(env, ret, steps[i..]) == FoldSteps(env, first.result, steps)
    {
      assert steps[i..][1..] == steps[i + 1..];
      StepSizeWithin(steps, i);
      var next := PathDealWithCollection(env, ret, steps[i], ret);
      if next.err.abort {
        return Fail(next.err);
      }
      ret := next.result;
      i := i + 1;
    }
    assert steps[i..] == [];
    o := Done(ret);
  }

  /** jsonpath_evaluate_impl_binary: a collection on the right aborts with 0xaa. */
  method EvaluateBinary(env: Env, curr: Result, op: BinaryOp, lhs: Path, rhs: Path) returns (o: Outcome)
    ensures o == Eval(env, curr, Binary(op, lhs, rhs))
    decreases PathSize(Binary(op, lhs, rhs)), 1
  {
    var l := EvaluateBasic(env, curr, lhs);
    if l.err.abort {
      return Fail(l.err);
    }
    var r := EvaluateBasic(env, curr, rhs);
    if r.err.abort {
      return Fail(r.err);
    }
    if r.result.isCollection {
      return Fail(CollectionOperand);
    }
    o := BinaryDealWithCollection(env, op, l.result, r.result);
  }

  /** jsonpath_evaluate_impl_arbitrary: look the function up, evaluate the arguments, call it. */
  method EvaluateCall(env: Env, curr: Result, name: string, args: seq<Path>) returns (o: Outcome)
    ensures o == Eval(env, curr, Call(name, args))
    decreases PathSize(Call(name, args)), 1
  {
    var f := FindFunction(env.table, name);
    if f.None? {
      return Fail(Error(true, FUNCTION_NOT_FOUND, Name(name)));
    }
    var values: seq<Option<Json>> := [];
    var i := 0;
    while i < |args|
      invariant 0 <= i <= |args|
      invariant EvalArgs(env, curr, args[i..], values) == EvalArgs(env, curr, args, [])
    {
      assert args[i..][1..] == args[i + 1..];
      ArgSizeWithin(args, i);
      var arg := EvaluateBasic(env, curr, args[i]);
      var err := arg.err;
      if !err.abort && arg.result.isCollection {
        err := CollectionOperand;
      }
      if err.abort {
        return Fail(err);
      }
      values := values + [arg.result.value];
      i := i + 1;
    }
    assert args[i..] == [];
    o := Done(Result(f.value(values), false, true, false));
  }

  /** path_deal_with_collection. */
  method PathDealWithCollection(env: Env, curr: Result, step: IndexStep, node: Result) returns (o: Outcome)
    ensures o == DealWithCollection(env, curr, step, node)
    decreases StepSize(step), 3
  {
    if !node.isCollection {
      o := PathSimpleStep(env, curr, node, step);
      return;
    }
    var values := Elements(node.value);
    var gathered: seq<Json> := [];
    var constant := node.isConstant;
    var i := 0;
    while i < |values|
      invariant 0 <= i <= |values|
      invariant MapStep(env, curr, step, node, values[i..], gathered, constant) ==
        MapStep(env, curr, step, node, values, [], node.isConstant)
    {
      assert values[i..][1..] == values[i + 1..];
      var mapped := PathSimpleStep(env, curr, Result(Some(values[i]), false, node.isRightValue, node.isConstant), step);
      if mapped.err.abort {
        return Fail(mapped.err);
      }
      if mapped.result.isConstant {
        constant := false;
      }
      if !mapped.result.isCollection {
        gathered := gathered + Appended(mapped.result.value);
      } else {
        gathered := gathered + Elements(mapped.result.value);
      }
      i := i + 1;
    }
    assert values[i..] == [];
    o := Done(Result(Some(Arr(gathered)), true, true, constant));
  }

  /** jsonpath_evaluate_impl_path_simple. */
  method PathSimpleStep(env: Env, curr: Result, node: Result, step: IndexStep) returns (o: Outcome)
    ensures o == PathSimple(env, curr, node, step)
    decreases StepSize(step), 1
  {
    match step
    case Simple(index) =>
      o := Done(SimpleIndex(env.platform, node, index));
    case Recursive(index) =>
      var all := DescendLayers(node.value);
      o := PathDealWithCollection(env, curr, Simple(index), Result(Some(Arr(all)), true, true, node.isConstant));
    case SubExp(e) =>
      var sub := EvaluateBasic(env, curr, e);
      if sub.err.abort {
        o := Fail(sub.err);
      } else {
        o := Done(SimpleIndex(env.platform, node, sub.result.value));
      }
    case SubRange(b, e) =>
      o := RangeStepOf(env, curr, node, b, e);
    case Filter(e) =>
      o := FilterStep(env, curr, node, e);
  }

  /** The INDEX_SUB_RANGE case: evaluate the bounds, then slice. */
  method RangeStepOf(env: Env, curr: Result, node: Result, b: Option<Path>, e: Option<Path>) returns (o: Outcome)
    ensures o == RangeStep(env, curr, node, b, e)
    decreases StepSize(SubRange(b, e)), 0
  {
    if !IsArray(node.value) {
      return Fail(Ok);
    }
    var lo := Done(Result(None, false, true, true));
    if b.Some? {
      assert PathSize(b.value) < StepSize(SubRange(b, e));
      lo := EvaluateBasic(env, curr, b.value);
      if lo.err.abort {
        return Fail(lo.err);
      }
      if lo.result.isCollection {
        return Fail(CollectionOperand);
      }
    }
    var hi := Done(Result(None, false, true, true));
    if e.Some? {
      assert PathSize(e.value) < StepSize(SubRange(b, e));
      hi := EvaluateBasic(env, curr, e.value);
      if hi.err.abort {
        return Fail(hi.err);
      }
      if hi.result.isCollection {
        return Fail(CollectionOperand);
      }
    }
    var r := SliceArray(env.platform, node, lo.result, hi.result);
    o := Done(r);
  }

  /** The INDEX_FILTER case: only an object's members are visited. */
  method FilterStep(env: Env, curr: Result, node: Result, e: Path) returns (o: Outcome)
    ensures o == PathSimple(env, curr, node, Filter(e))
    decreases StepSize(Filter(e)), 0
  {
    if !IsObject(node.value) {
      return Done(Result(Some(Arr([])), true, true, node.isConstant));
    }
    var members := node.value.value.members;
    ghost var values := MemberValues(members);
    assert values == AllProperties(node.value);
    var kept: seq<Json> := [];
    var i := 0;
    while i < |members|
      invariant 0 <= i <= |members|
      invariant FilterValues(env, e, values[i..], kept, node.isConstant) ==
        FilterValues(env, e, values, [], node.isConstant)
    {
      assert values[i..][1..] == values[i + 1..];
      var value := members[i].value;
      assert values[i..][0] == value;
      var cond := EvaluateBasic(env, Result(Some(value), false, false, false), e);
      if cond.err.abort {
        return Fail(cond.err);
      }
      if cond.result.isCollection {
        return Fail(CollectionOperand);
      }
      if value == Bool(true) {
        kept := kept + [value];
      }
      i := i + 1;
    }
    assert values[i..] == [];
    o := Done(Result(Some(Arr(kept)), true, true, node.isConstant));
  }

  /** jsonpath_evaluate: reset the error record and start with the root as `@`. */
  method EvaluateDocument(env: Env, p: Path) returns (o: Outcome)
    ensures o == Evaluate(env, p)
  {
    o := EvaluateBasic(env, Result(env.root, false, true, false), p);
  }

  /** A node of the tree as the constant fold sees it: still a tree, or replaced by its cached value. */
  datatype NodeState = Live(tree: Path) | Folded(cached: Result)

  /**
   * A node under jsonpath_evaluate_impl_constant_fold (:26-48): the
   * first evaluation that succeeds with a constant result replaces the
   * node by that result, and later evaluations return it unchanged.
   */
  class FoldingNode {
    var state: NodeState

    constructor (tree: Path)
      ensures state == Live(tree)
    {
      state := Live(tree);
    }

    method Evaluate(env: Env, curr: Result) returns (o: Outcome)
      modifies this
      ensures old(state).Folded? ==> o == Done(old(state).cached) && state == old(state)
      ensures old(state).Live? ==> o == Eval(env, curr, old(state).tree)
      ensures old(state).Live? && !o.err.abort && o.result.isConstant ==> state == Folded(o.result)
      ensures old(state).Live? && (o.err.abort || !o.result.isConstant) ==> state == old(state)
    {
      match state
      case Folded(cached) =>
        o := Done(cached);
      case Live(tree) =>
        o := EvaluateBasic(env, curr, tree);
        if !o.err.abort && o.result.isConstant {
          state := Folded(o.result);
        }
    }
  }
}
