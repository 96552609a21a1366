/**
 * Properties of path evaluation (src/evaluate.c), stated about the
 * functions of module Semantics: what the evaluator promises, and the
 * outcomes the code as written gives where it does something else.
 */
module EvaluationProperties {
  import opened Wrappers
  import opened Json
  import opened Errors
  import opened Ast
  import opened Results
  import opened Operators
  import opened Semantics

  // ---------------------------------------------------------------
  // Recursive descent (:119-141).
  // ---------------------------------------------------------------

  /** Every value below the nodes of `layer`, in depth-first preorder: each node, then what is below it. */
  function Preorder(layer: seq<Json>): seq<Json>
    decreases ElemsSize(layer)
  {
    if layer == [] then []
    else [layer[0]] + (Preorder(AllProperties(Some(layer[0]))) + Preorder(layer[1..]))
  }

  lemma {:induction false} PreorderAppend(a: seq<Json>, b: seq<Json>)
    ensures Preorder(a + b) == Preorder(a) + Preorder(b)
    decreases ElemsSize(a)
  {
    if a == [] {
      assert a + b == b;
    } else {
      var x, below, pb := a[0], Preorder(AllProperties(Some(a[0]))), Preorder(b);
      assert (a + b)[0] == x;
      assert (a + b)[1..] == a[1..] + b;
      assert ElemsSize(a) == Size(x) + ElemsSize(a[1..]);
      PreorderAppend(a[1..], b);
      assert Preorder(a + b) == [x] + (below + (Preorder(a[1..]) + pb));
      AppendAssociates(below, Preorder(a[1..]), pb);
      AppendAssociates([x], below + Preorder(a[1..]), pb);
    }
  }

  /** The preorder of a layer holds the layer itself and the preorder of the next layer. */
  lemma {:induction false} PreorderByLayer(layer: seq<Json>)
    ensures multiset(Preorder(layer)) == multiset(layer) + multiset(Preorder(NextLayer(layer)))
    decreases ElemsSize(layer)
  {
    if layer != [] {
      var x, below, rest := layer[0], AllProperties(Some(layer[0])), layer[1..];
      assert layer == [x] + rest;
      PreorderAppend(below, NextLayer(rest));
      PreorderByLayer(rest);
    }
  }

  lemma {:induction false} DescendGathersPreorder(layer: seq<Json>, gathered: seq<Json>)
    ensures multiset(Descend(layer, gathered)) == multiset(gathered) + multiset(Preorder(NextLayer(layer)))
    decreases ElemsSize(layer)
  {
    if layer != [] {
      var next := NextLayer(layer);
      DescendGathersPreorder(next, gathered + next);
      PreorderByLayer(next);
    }
  }

  /**
   * The layer loop gathers every value strictly below the node, each as
   * often as the depth-first walk meets it. The node itself is not
   * among them: the loop starts from its properties (:120).
   */
  lemma RecursiveDescentVisitsEveryDescendant(v: Option<Json>)
    ensures multiset(Descend(AllProperties(v), AllProperties(v))) == multiset(Preorder(AllProperties(v)))
  {
    DescendGathersPreorder(AllProperties(v), AllProperties(v));
    PreorderByLayer(AllProperties(v));
  }

  /** Every value in the preorder of a layer is no larger than the whole layer. */
  lemma {:induction false} PreorderIsBelow(layer: seq<Json>)
    ensures forall x :: x in Preorder(layer) ==> Size(x) <= ElemsSize(layer)
    decreases ElemsSize(layer)
  {
    if layer != [] {
      var below, rest := AllProperties(Some(layer[0])), layer[1..];
      PreorderIsBelow(below);
      PreorderIsBelow(rest);
      assert Preorder(layer) == [layer[0]] + (Preorder(below) + Preorder(rest));
    }
  }

  /**
   * `..` gathers only values strictly smaller than the node, so never
   * the node itself: the loop starts from its properties (:120).
   */
  lemma DescentStartsBelowTheNode(v: Json)
    ensures forall x :: x in Descend(AllProperties(Some(v)), AllProperties(Some(v))) ==> Size(x) < Size(v)
    ensures v !in Descend(AllProperties(Some(v)), AllProperties(Some(v)))
  {
    var layer := AllProperties(Some(v));
    RecursiveDescentVisitsEveryDescendant(Some(v));
    PreorderIsBelow(layer);
    forall x | x in Descend(layer, layer)
      ensures Size(x) < Size(v)
    {
      assert x in multiset(Descend(layer, layer));
      assert x in multiset(Preorder(layer));
    }
  }

  /** `..` on a one-element array gathers the element and not the array. */
  lemma DescentOfSingleton()
    ensures Descend(AllProperties(Some(Arr([Int(1)]))), AllProperties(Some(Arr([Int(1)])))) == [Int(1)]
  {
    var one := [Int(1)];
    assert AllProperties(Some(Arr(one))) == one;
    assert AllProperties(Some(Int(1))) == [];
    assert one[1..] == [];
    assert NextLayer(one) == AllProperties(Some(Int(1))) + NextLayer([]) == [];
    assert one + [] == one;
    assert Descend(one, one) == Descend([], one);
    assert Descend([], one) == one;
  }

  // ---------------------------------------------------------------
  // Simple indexes (:83-112), as written.
  // ---------------------------------------------------------------

  /** `.a` on an object yields every member value as a collection, not the member `a` (:85). */
  lemma NamedIndexIsWildcard(p: Platform)
    ensures SimpleIndex(p, Result(Some(Obj([Member("a", Int(1)), Member("b", Int(2))])), false, true, false), Some(Str("a")))
      == Result(Some(Arr([Int(1), Int(2)])), true, true, false)
  {
    var r := AllProperties(Some(Obj([Member("a", Int(1)), Member("b", Int(2))])));
    assert r[0] == Int(1) && r[1] == Int(2);
    assert r == [Int(1), Int(2)];
  }

  /** The numeric branch refuses an array (:92) and the length branch counts an object as 0 (:102). */
  lemma UnreachableBranchesAsWritten(p: Platform, es: seq<Json>, ms: seq<Member>, i: int64)
    ensures IndexByNumber(p, Result(Some(Arr(es)), false, true, true), Some(Int(i))) == ErrorResult
    ensures IndexLength(Result(Some(Obj(ms)), false, true, true)).value == Some(Int(0))
  {
  }

  // ---------------------------------------------------------------
  // path_deal_with_collection (:234-260).
  // ---------------------------------------------------------------

  /** An element of a collection as the loop hands it to the step. */
  function Element(node: Result, v: Json): Result {
    Result(Some(v), false, node.isRightValue, node.isConstant)
  }

  /** What one mapped element adds: its value, or its elements when it is a collection. */
  function Piece(m: Result): seq<Json> {
    if m.isCollection then Elements(m.value) else Appended(m.value)
  }

  /** The step applied to each element, the pieces concatenated in order. */
  function Gathered(env: Env, curr: Result, step: IndexStep, node: Result, rest: seq<Json>): seq<Json> {
    if rest == [] then []
    else Piece(PathSimple(env, curr, Element(node, rest[0]), step).result) + Gathered(env, curr, step, node, rest[1..])
  }

  /** The step on element `v` aborts. */
  predicate StepAborts(env: Env, curr: Result, step: IndexStep, node: Result, v: Json) {
    PathSimple(env, curr, Element(node, v), step).err.abort
  }

  predicate NoneAborts(env: Env, curr: Result, step: IndexStep, node: Result, rest: seq<Json>) {
    forall k :: 0 <= k < |rest| ==> !StepAborts(env, curr, step, node, rest[k])
  }

  /** Whether no element aborts: the first element, then the rest. */
  lemma NoneAbortsCons(env: Env, curr: Result, step: IndexStep, node: Result, rest: seq<Json>)
    requires rest != []
    ensures NoneAborts(env, curr, step, node, rest) <==>
      !PathSimple(env, curr, Element(node, rest[0]), step).err.abort && NoneAborts(env, curr, step, node, rest[1..])
  {
    assert StepAborts(env, curr, step, node, rest[0]) == PathSimple(env, curr, Element(node, rest[0]), step).err.abort;
    if !StepAborts(env, curr, step, node, rest[0]) && NoneAborts(env, curr, step, node, rest[1..]) {
      forall k | 0 <= k < |rest|
        ensures !StepAborts(env, curr, step, node, rest[k])
      {
        if k > 0 {
          assert rest[k] == rest[1..][k - 1];
        }
      }
    }
    if NoneAborts(env, curr, step, node, rest) {
      forall k | 0 <= k < |rest[1..]|
        ensures !StepAborts(env, curr, step, node, rest[1..][k])
      {
        assert rest[1..][k] == rest[k + 1];
      }
    }
  }

  /** One turn of the loop: the first element's outcome decides whether the loop goes on. */
  lemma MapStepUnfold(env: Env, curr: Result, step: IndexStep, node: Result, rest: seq<Json>, acc: seq<Json>, constant: bool)
    requires rest != []
    ensures var m := PathSimple(env, curr, Element(node, rest[0]), step);
      MapStep(env, curr, step, node, rest, acc, constant) ==
        if m.err.abort then Fail(m.err)
        else MapStep(env, curr, step, node, rest[1..], acc + Piece(m.result), if m.result.isConstant then false else constant)
  {
  }

  lemma {:induction false} MapStepSucceeds(env: Env, curr: Result, step: IndexStep, node: Result, rest: seq<Json>, acc: seq<Json>, constant: bool)
    requires NoneAborts(env, curr, step, node, rest)
    ensures MapStep(env, curr, step, node, rest, acc, constant).err == Ok
    decreases |rest|
  {
    if rest != [] {
      var m := PathSimple(env, curr, Element(node, rest[0]), step);
      NoneAbortsCons(env, curr, step, node, rest);
      MapStepUnfold(env, curr, step, node, rest, acc, constant);
      MapStepSucceeds(env, curr, step, node, rest[1..], acc + Piece(m.result), if m.result.isConstant then false else constant);
    }
  }

  /** Gathering the first element's piece into the accumulator, then the rest, gathers everything. */
  lemma GatheredCons(env: Env, curr: Result, step: IndexStep, node: Result, rest: seq<Json>, acc: seq<Json>)
    requires rest != []
    ensures acc + Gathered(env, curr, step, node, rest) ==
      (acc + Piece(PathSimple(env, curr, Element(node, rest[0]), step).result)) + Gathered(env, curr, step, node, rest[1..])
  {
  }

  lemma {:induction false} MapStepGathers(env: Env, curr: Result, step: IndexStep, node: Result, rest: seq<Json>, acc: seq<Json>, constant: bool)
    requires NoneAborts(env, curr, step, node, rest)
    ensures MapStep(env, curr, step, node, rest, acc, constant).result.value == Some(Arr(acc + Gathered(env, curr, step, node, rest)))
    decreases |rest|
  {
    if rest != [] {
      var m := PathSimple(env, curr, Element(node, rest[0]), step);
      NoneAbortsCons(env, curr, step, node, rest);
      MapStepUnfold(env, curr, step, node, rest, acc, constant);
      MapStepGathers(env, curr, step, node, rest[1..], acc + Piece(m.result), if m.result.isConstant then false else constant);
      GatheredCons(env, curr, step, node, rest, acc);
    } else {
      assert acc + [] == acc;
    }
  }

  lemma {:induction false} MapStepAborts(env: Env, curr: Result, step: IndexStep, node: Result, rest: seq<Json>, acc: seq<Json>, constant: bool)
    requires !NoneAborts(env, curr, step, node, rest)
    ensures MapStep(env, curr, step, node, rest, acc, constant).result == ErrorResult
    ensures MapStep(env, curr, step, node, rest, acc, constant).err.abort
    decreases |rest|
  {
    var m := PathSimple(env, curr, Element(node, rest[0]), step);
    NoneAbortsCons(env, curr, step, node, rest);
    MapStepUnfold(env, curr, step, node, rest, acc, constant);
    if !m.err.abort {
      MapStepAborts(env, curr, step, node, rest[1..], acc + Piece(m.result), if m.result.isConstant then false else constant);
    }
  }

  /**
   * A step over a collection applies the step to every element in
   * order, appending plain results and splicing collections; the
   * result is a collection and a right value. Any element that aborts
   * makes the whole step error_result.
   */
  lemma StepOverCollection(env: Env, curr: Result, step: IndexStep, node: Result)
    requires node.isCollection
    ensures var o := DealWithCollection(env, curr, step, node);
      NoneAborts(env, curr, step, node, Elements(node.value)) ==>
        o.err == Ok && o.result.isCollection && o.result.isRightValue &&
        o.result.value == Some(Arr(Gathered(env, curr, step, node, Elements(node.value))))
    ensures var o := DealWithCollection(env, curr, step, node);
      !NoneAborts(env, curr, step, node, Elements(node.value)) ==> o.result == ErrorResult && o.err.abort
  {
    var es := Elements(node.value);
    if NoneAborts(env, curr, step, node, es) {
      MapStepSucceeds(env, curr, step, node, es, [], node.isConstant);
      MapStepGathers(env, curr, step, node, es, [], node.isConstant);
      MapStepShape(env, curr, step, node, es, [], node.isConstant);
      assert [] + Gathered(env, curr, step, node, es) == Gathered(env, curr, step, node, es);
    } else {
      MapStepAborts(env, curr, step, node, es, [], node.isConstant);
    }
  }

  lemma {:induction false} MapStepShape(env: Env, curr: Result, step: IndexStep, node: Result, rest: seq<Json>, acc: seq<Json>, constant: bool)
    ensures var o := MapStep(env, curr, step, node, rest, acc, constant);
      !o.err.abort ==> o.result.isCollection && o.result.isRightValue
    decreases |rest|
  {
    if rest != [] {
      var m := PathSimple(env, curr, Element(node, rest[0]), step);
      MapStepUnfold(env, curr, step, node, rest, acc, constant);
      if !m.err.abort {
        MapStepShape(env, curr, step, node, rest[1..], acc + Piece(m.result), if m.result.isConstant then false else constant);
      }
    }
  }

  /** A wildcard applied to one element: the element's properties, as a collection. */
  lemma WildcardElement(env: Env, curr: Result, index: Json, node: Result, v: Json)
    ensures var m := PathSimple(env, curr, Element(node, v), Simple(Some(index)));
      m == Done(Result(Some(Arr(AllProperties(Some(v)))), true, true, node.isConstant)) &&
      Piece(m.result) == AllProperties(Some(v))
  {
  }

  lemma NextLayerCons(layer: seq<Json>)
    requires layer != []
    ensures NextLayer(layer) == AllProperties(Some(layer[0])) + NextLayer(layer[1..])
  {
  }

  lemma {:induction false} WildcardMapStep(env: Env, curr: Result, index: Json, node: Result, rest: seq<Json>, acc: seq<Json>, constant: bool)
    ensures MapStep(env, curr, Simple(Some(index)), node, rest, acc, constant) ==
      Done(Result(Some(Arr(acc + NextLayer(rest))), true, true, if rest != [] && node.isConstant then false else constant))
    decreases |rest|
  {
    if rest != [] {
      var here := AllProperties(Some(rest[0]));
      MapStepUnfold(env, curr, Simple(Some(index)), node, rest, acc, constant);
      WildcardElement(env, curr, index, node, rest[0]);
      NextLayerCons(rest);
      WildcardMapStep(env, curr, index, node, rest[1..], acc + here, if node.isConstant then false else constant);
      AppendAssociates(acc, here, NextLayer(rest[1..]));
    } else {
      assert acc + [] == acc;
    }
  }

  /**
   * A wildcard over a collection flattens one level. The test at :250
   * clears the constant flag when an element's result IS constant, so
   * a constant collection stays constant only while it is empty.
   */
  lemma WildcardOverCollection(env: Env, curr: Result, index: Json, node: Result)
    requires node.isCollection
    ensures DealWithCollection(env, curr, Simple(Some(index)), node) ==
      Done(Result(Some(Arr(NextLayer(Elements(node.value)))), true, true, node.isConstant && Elements(node.value) == []))
  {
    WildcardMapStep(env, curr, index, node, Elements(node.value), [], node.isConstant);
    assert [] + NextLayer(Elements(node.value)) == NextLayer(Elements(node.value));
  }

  // ---------------------------------------------------------------
  // The step fold (:263-277).
  // ---------------------------------------------------------------

  /** Steps apply left to right: a chain of steps is its first part, then the rest from that result. */
  lemma {:induction false} StepsComposeLeftToRight(env: Env, ret: Result, first: seq<IndexStep>, second: seq<IndexStep>)
    ensures FoldSteps(env, ret, first + second) ==
      var o := FoldSteps(env, ret, first);
      if o.err.abort then o else FoldSteps(env, o.result, second)
    decreases |first|
  {
    if first == [] {
      assert first + second == second;
    } else {
      assert (first + second)[0] == first[0];
      assert (first + second)[1..] == first[1..] + second;
      var o := DealWithCollection(env, ret, first[0], ret);
      if !o.err.abort {
        StepsComposeLeftToRight(env, o.result, first[1..], second);
      }
    }
  }

  /** A path evaluates its root node, then its steps from left to right. */
  lemma PathComposesLeftToRight(env: Env, curr: Result, root: Path, first: seq<IndexStep>, second: seq<IndexStep>)
    ensures Eval(env, curr, Indexes(root, first + second)) ==
      var o := Eval(env, curr, Indexes(root, first));
      if o.err.abort then o else FoldSteps(env, o.result, second)
  {
    var r := Eval(env, curr, root);
    if !r.err.abort {
      StepsComposeLeftToRight(env, r.result, first, second);
    }
  }

  /**
   * The steps of a path see the running result as `@` (:270), not the
   * current element: `[7][@:]` evaluated on the document 0 slices by
   * the array itself, which is not a number, and yields error_result,
   * where the document as `@` would have given `[]`.
   */
  lemma StepSeesRunningResult(env: Env)
    requires env.root == Some(Int(0))
    ensures Evaluate(env, Indexes(Single(Const, Some(Arr([Int(7)]))), [SubRange(Some(Single(Curr, None)), None)]))
      == Done(ErrorResult)
    ensures RangeStep(env, Result(env.root, false, true, false), Result(Some(Arr([Int(7)])), false, true, true),
                      Some(Single(Curr, None)), None)
      == Done(Result(Some(Arr([])), true, true, false))
  {
    var node := Result(Some(Arr([Int(7)])), false, true, true);
    assert FoldSteps(env, node, [SubRange(Some(Single(Curr, None)), None)]) == Done(ErrorResult);
  }

  /** `[[1,2]][null][$:]` on a document that is the integer `n`. */
  lemma {:induction false} PairSlicedByRoot(env: Env, n: int64)
    requires env.root == Some(Int(n))
    ensures Evaluate(env, Indexes(Single(Const, Some(Arr([Arr([Int(1), Int(2)])]))),
                                  [Simple(Some(Null)), SubRange(Some(Single(Root, None)), None)]))
      == Done(Result(Some(Arr(Window([Int(1), Int(2)], Translate(n as int, 2), 1))), true, true, true))
  {
    var es := [Int(1), Int(2)];
    var lit := Result(Some(Arr([Arr(es)])), false, true, true);
    var coll := Result(Some(Arr([Arr(es)])), true, true, true);
    var range := SubRange(Some(Single(Root, None)), None);
    var steps := [Simple(Some(Null)), range];
    var elem := Element(coll, Arr(es));
    var w := Window(es, Translate(n as int, 2), 1);
    var start := Result(env.root, false, true, false);
    assert Eval(env, start, Single(Const, Some(Arr([Arr(es)])))) == Done(lit);
    assert AllProperties(lit.value) == [Arr(es)];
    assert DealWithCollection(env, lit, steps[0], lit) == Done(coll);
    assert steps[1..] == [range];
    assert Eval(env, start, Indexes(Single(Const, Some(Arr([Arr(es)]))), steps)) == FoldSteps(env, coll, [range]);
    assert RangeStep(env, coll, elem, Some(Single(Root, None)), None) == Done(Result(Some(Arr(w)), true, true, false));
    assert PathSimple(env, coll, elem, range) == RangeStep(env, coll, elem, Some(Single(Root, None)), None);
    assert [Arr(es)][1..] == [];
    assert [] + Elements(Some(Arr(w))) == w;
    assert MapStep(env, coll, range, coll, [Arr(es)], [], true) == MapStep(env, coll, range, coll, [], w, true);
    assert [range][1..] == [];
  }

  /**
   * A result flagged constant can depend on the document (:250): the
   * slices below are not constant, because their `$` bound is not, so
   * the flag of the constant collection they are taken from is never
   * cleared. `[[1,2]][null][$:]` is a constant `[1]` on the document 0
   * and a constant `[]` on the document 5.
   */
  lemma ConstantResultCanDependOnRoot(env0: Env, env5: Env)
    requires env0.root == Some(Int(0)) && env5.root == Some(Int(5))
    ensures Evaluate(env0, Indexes(Single(Const, Some(Arr([Arr([Int(1), Int(2)])]))),
                                   [Simple(Some(Null)), SubRange(Some(Single(Root, None)), None)]))
      == Done(Result(Some(Arr([Int(1)])), true, true, true))
    ensures Evaluate(env5, Indexes(Single(Const, Some(Arr([Arr([Int(1), Int(2)])]))),
                                   [Simple(Some(Null)), SubRange(Some(Single(Root, None)), None)]))
      == Done(Result(Some(Arr([])), true, true, true))
  {
    PairSlicedByRoot(env0, 0);
    PairSlicedByRoot(env5, 5);
    assert Window([Int(1), Int(2)], 0, 1) == [Int(1)];
  }

  // ---------------------------------------------------------------
  // Slices (:150-196).
  // ---------------------------------------------------------------

  /** A slice between two in-range integer bounds is that part of the array; it is constant iff all three parts are. */
  lemma SliceBetween(p: Platform, es: seq<Json>, b: int64, e: int64, nc: bool, bc: bool, ec: bool)
    requires 0 <= b < e < |es|
    ensures Slice(p, Result(Some(Arr(es)), false, true, nc), Result(Some(Int(b)), false, true, bc), Result(Some(Int(e)), false, true, ec))
      == Result(Some(Arr(es[b..e])), true, true, nc && bc && ec)
  {
  }

  /** A slice with its bounds the wrong way round is empty. */
  lemma SliceBackwardsIsEmpty(p: Platform, es: seq<Json>, b: int64, e: int64)
    requires Translate(e, |es|) <= Translate(b, |es|)
    ensures Slice(p, Result(Some(Arr(es)), false, true, true), Result(Some(Int(b)), false, true, true), Result(Some(Int(e)), false, true, true)).value
      == Some(Arr([]))
  {
  }

  /**
   * Without an end bound the slice ends at `array_size`, which the
   * translation clamps to `array_size - 1` (:183), so `[:]` drops the
   * last element; on an empty array both bounds wrap to SIZE_MAX.
   */
  lemma OpenSliceDropsLast(p: Platform, es: seq<Json>)
    ensures var open := Result(None, false, true, true);
      Slice(p, Result(Some(Arr(es)), false, true, true), open, open).value ==
        Some(Arr(if es == [] then [] else es[..|es| - 1]))
  {
    var n := |es|;
    if n > 0 {
      assert Translate(0, n) == 0;
      assert Translate(n, n) == n - 1;
      if n == 1 {
        assert Window(es, 0, 0) == [] == es[..0];
      } else {
        assert Window(es, 0, n - 1) == es[0..n - 1];
      }
    }
  }

  /**
   * The error paths of a range step (:150-181). A node that is not an
   * array gives error_result. A bound that aborts passes its error on; a
   * bound that is a collection aborts with 0xaa; the begin bound is
   * checked before the end bound is evaluated. Two plain bounds of which
   * one is present but not a number give error_result without aborting.
   * A missing bound is a plain absent value.
   */
  lemma RangeErrors(env: Env, curr: Result, node: Result, b: Option<Path>, e: Option<Path>)
    ensures !IsArray(node.value) ==> PathSimple(env, curr, node, SubRange(b, e)) == Outcome(ErrorResult, Ok)
    ensures var lo := EvalBound(env, curr, b);
      var hi := EvalBound(env, curr, e);
      var r := PathSimple(env, curr, node, SubRange(b, e));
      IsArray(node.value) ==>
        (lo.err.abort ==> r == Fail(lo.err)) &&
        (!lo.err.abort && lo.result.isCollection ==> r == Fail(CollectionOperand)) &&
        (!lo.err.abort && !lo.result.isCollection && hi.err.abort ==> r == Fail(hi.err)) &&
        (!lo.err.abort && !lo.result.isCollection && !hi.err.abort && hi.result.isCollection ==>
           r == Fail(CollectionOperand)) &&
        (!lo.err.abort && !lo.result.isCollection && !hi.err.abort && !hi.result.isCollection &&
         ((lo.result.value.Some? && !IsNumber(lo.result.value)) || (hi.result.value.Some? && !IsNumber(hi.result.value))) ==>
           r == Outcome(ErrorResult, Ok))
    ensures b.None? ==> EvalBound(env, curr, b) == Done(Result(None, false, true, true))
    ensures b.Some? ==> EvalBound(env, curr, b) == Eval(env, curr, b.value)
  {
    assert PathSimple(env, curr, node, SubRange(b, e)) == RangeStep(env, curr, node, b, e);
  }

  // ---------------------------------------------------------------
  // Filters (:197-228).
  // ---------------------------------------------------------------

  /** The values that are `true` themselves, in order. */
  function TrueValues(vs: seq<Json>): seq<Json> {
    if vs == [] then [] else (if vs[0] == Bool(true) then [vs[0]] else []) + TrueValues(vs[1..])
  }

  /** The predicate evaluated on `v` as `@` neither aborts nor yields a collection. */
  predicate PlainCondition(env: Env, e: Path, v: Json) {
    var cond := Eval(env, Result(Some(v), false, false, false), e);
    !cond.err.abort && !cond.result.isCollection
  }

  /** One turn of the filter loop. */
  lemma FilterUnfold(env: Env, e: Path, rest: seq<Json>, kept: seq<Json>, constant: bool)
    requires rest != []
    ensures var cond := Eval(env, Result(Some(rest[0]), false, false, false), e);
      FilterValues(env, e, rest, kept, constant) ==
        if cond.err.abort then Fail(cond.err)
        else if cond.result.isCollection then Fail(CollectionOperand)
        else FilterValues(env, e, rest[1..], if rest[0] == Bool(true) then kept + [rest[0]] else kept, constant)
  {
  }

  /** Keeping the head, if it is `true`, and then the true values of the tail keeps the true values of all. */
  lemma TrueValuesCons(rest: seq<Json>, kept: seq<Json>)
    requires rest != []
    ensures (if rest[0] == Bool(true) then kept + [rest[0]] else kept) + TrueValues(rest[1..]) == kept + TrueValues(rest)
  {
    if rest[0] == Bool(true) {
      AppendAssociates(kept, [rest[0]], TrueValues(rest[1..]));
    } else {
      assert TrueValues(rest) == [] + TrueValues(rest[1..]);
    }
  }

  lemma {:induction false} FilterKeepsTrueValues(env: Env, e: Path, rest: seq<Json>, kept: seq<Json>, constant: bool)
    ensures (forall k :: 0 <= k < |rest| ==> PlainCondition(env, e, rest[k])) ==>
      FilterValues(env, e, rest, kept, constant) == Done(Result(Some(Arr(kept + TrueValues(rest))), true, true, constant))
    ensures !(forall k :: 0 <= k < |rest| ==> PlainCondition(env, e, rest[k])) ==>
      FilterValues(env, e, rest, kept, constant).result == ErrorResult &&
      FilterValues(env, e, rest, kept, constant).err.abort
    decreases |rest|
  {
    if rest != [] {
      FilterUnfold(env, e, rest, kept, constant);
      if PlainCondition(env, e, rest[0]) {
        var kept' := if rest[0] == Bool(true) then kept + [rest[0]] else kept;
        FilterKeepsTrueValues(env, e, rest[1..], kept', constant);
        TrueValuesCons(rest, kept);
        if forall k :: 0 <= k < |rest| ==> PlainCondition(env, e, rest[k]) {
          forall k | 0 <= k < |rest[1..]|
            ensures PlainCondition(env, e, rest[1..][k])
          {
            assert rest[1..][k] == rest[k + 1];
          }
        } else {
          var k :| 0 <= k < |rest| && !PlainCondition(env, e, rest[k]);
          assert rest[k] == rest[1..][k - 1];
        }
      } else {
        assert !PlainCondition(env, e, rest[0]);
      }
    } else {
      assert kept + [] == kept;
    }
  }

  /**
   * A filter keeps the member values that are themselves `true`,
   * whatever the predicate yields (:208); a predicate that aborts or
   * yields a collection makes the filter abort.
   */
  lemma FilterOnObject(env: Env, curr: Result, node: Result, e: Path)
    requires IsObject(node.value)
    ensures var vs := AllProperties(node.value);
      (forall k :: 0 <= k < |vs| ==> PlainCondition(env, e, vs[k])) ==>
        PathSimple(env, curr, node, Filter(e)) == Done(Result(Some(Arr(TrueValues(vs))), true, true, node.isConstant))
    ensures var vs := AllProperties(node.value);
      !(forall k :: 0 <= k < |vs| ==> PlainCondition(env, e, vs[k])) ==>
        PathSimple(env, curr, node, Filter(e)).err.abort
  {
    var vs := AllProperties(node.value);
    assert PathSimple(env, curr, node, Filter(e)) == FilterValues(env, e, vs, [], node.isConstant);
    FilterKeepsTrueValues(env, e, vs, [], node.isConstant);
    assert [] + TrueValues(vs) == TrueValues(vs);
  }

  lemma {:induction false} FilterStopsAtFirstFailure(env: Env, e: Path, pre: seq<Json>, v: Json, post: seq<Json>, kept: seq<Json>, constant: bool)
    requires forall k :: 0 <= k < |pre| ==> PlainCondition(env, e, pre[k])
    requires !PlainCondition(env, e, v)
    ensures var cond := Eval(env, Result(Some(v), false, false, false), e);
      FilterValues(env, e, pre + [v] + post, kept, constant) ==
        if cond.err.abort then Fail(cond.err) else Fail(CollectionOperand)
    decreases |pre|
  {
    var vs := pre + [v] + post;
    FilterUnfold(env, e, vs, kept, constant);
    if pre == [] {
      assert vs[0] == v;
    } else {
      assert vs[0] == pre[0] && PlainCondition(env, e, pre[0]);
      assert vs[1..] == pre[1..] + [v] + post;
      forall k | 0 <= k < |pre[1..]|
        ensures PlainCondition(env, e, pre[1..][k])
      {
        assert pre[1..][k] == pre[k + 1];
      }
      FilterStopsAtFirstFailure(env, e, pre[1..], v, post, if vs[0] == Bool(true) then kept + [vs[0]] else kept, constant);
    }
  }

  /**
   * Over an object, the first member value whose predicate is not plain
   * decides the filter's error (:201-206): a predicate that aborts
   * passes its own error on, one that yields a collection aborts with
   * 0xaa. Later members are not visited.
   */
  lemma FilterAbortsAtFirstFailure(env: Env, curr: Result, node: Result, e: Path, pre: seq<Json>, v: Json, post: seq<Json>)
    requires IsObject(node.value) && AllProperties(node.value) == pre + [v] + post
    requires forall k :: 0 <= k < |pre| ==> PlainCondition(env, e, pre[k])
    requires !PlainCondition(env, e, v)
    ensures var cond := Eval(env, Result(Some(v), false, false, false), e);
      PathSimple(env, curr, node, Filter(e)) ==
        if cond.err.abort then Fail(cond.err) else Fail(CollectionOperand)
  {
    var vs := AllProperties(node.value);
    assert PathSimple(env, curr, node, Filter(e)) == FilterValues(env, e, vs, [], node.isConstant);
    FilterStopsAtFirstFailure(env, e, pre, v, post, [], node.isConstant);
  }

  /** Anything but an object filters to an empty collection, an array included (:217). */
  lemma FilterOnNonObjectIsEmpty(env: Env, curr: Result, node: Result, e: Path)
    requires !IsObject(node.value)
    ensures PathSimple(env, curr, node, Filter(e)) == Done(Result(Some(Arr([])), true, true, node.isConstant))
  {
  }

  /** A single wildcard step from a plain result yields a collection. */
  lemma WildcardStepIsCollection(env: Env, ret: Result, step: IndexStep, key: Json)
    requires step == Simple(Some(key)) && !ret.isCollection
    ensures FoldSteps(env, ret, [step]) == Done(Result(Some(Arr(AllProperties(ret.value))), true, true, ret.isConstant))
  {
    assert [step][1..] == [];
    assert DealWithCollection(env, ret, step, ret) == Done(Result(Some(Arr(AllProperties(ret.value))), true, true, ret.isConstant));
  }

  /**
   * `?(@.a)` on a non-empty object aborts with 0xaa: `@.a` is a
   * wildcard (:85), so the predicate is a collection.
   */
  lemma MemberPredicateAborts(env: Env, curr: Result, node: Result, key: string)
    requires IsObject(node.value) && node.value.value.members != []
    ensures PathSimple(env, curr, node, Filter(Indexes(Single(Curr, None), [Simple(Some(Str(key)))]))) == Fail(CollectionOperand)
  {
    var vs := AllProperties(node.value);
    var v := vs[0];
    var step := Simple(Some(Str(key)));
    var e := Indexes(Single(Curr, None), [step]);
    var at := Result(Some(v), false, false, false);
    WildcardStepIsCollection(env, at, step, Str(key));
    assert Eval(env, at, e).result.isCollection && !Eval(env, at, e).err.abort;
    assert PathSimple(env, curr, node, Filter(e)) == FilterValues(env, e, vs, [], node.isConstant);
  }

  // ---------------------------------------------------------------
  // Operators over results (:476-515, :579-624).
  // ---------------------------------------------------------------

  /** The values a sequence of scalar results leaves in an array: the NULLs are dropped (:487). */
  function Present(vs: seq<Option<Json>>): seq<Json> {
    if vs == [] then [] else Appended(vs[0]) + Present(vs[1..])
  }

  /**
   * Dropping keeps the order: every result is kept exactly when none is
   * NULL, and then each value stays at its place.
   */
  lemma {:induction false} PresentKeepsOrder(vs: seq<Option<Json>>)
    ensures |Present(vs)| <= |vs|
    ensures |Present(vs)| == |vs| <==> forall k :: 0 <= k < |vs| ==> vs[k].Some?
    ensures (forall k :: 0 <= k < |vs| ==> vs[k].Some?) ==> forall k :: 0 <= k < |vs| ==> Present(vs)[k] == vs[k].value
    decreases |vs|
  {
    if vs != [] {
      PresentKeepsOrder(vs[1..]);
      if forall k :: 0 <= k < |vs| ==> vs[k].Some? {
        forall k | 0 <= k < |vs[1..]|
          ensures vs[1..][k].Some?
        {
          assert vs[1..][k] == vs[k + 1];
        }
        forall k | 0 <= k < |vs|
          ensures Present(vs)[k] == vs[k].value
        {
          if k > 0 {
            assert vs[k] == vs[1..][k - 1];
          }
        }
      } else if vs[0].Some? {
        var k :| 0 <= k < |vs| && vs[k].None?;
        assert vs[1..][k - 1] == vs[k];
      }
    }
  }

  /** The scalar operator applied to each element and the right operand, from an ok record. */
  function BinaryScalars(env: Env, op: BinaryOp, es: seq<Json>, rhs: Option<Json>): seq<Option<Json>> {
    seq(|es|, k requires 0 <= k < |es| => JsonBinary(env.platform, env.regex, op, Some(es[k]), rhs, Ok).value)
  }

  lemma {:induction false} MapBinaryPresent(env: Env, op: BinaryOp, rest: seq<Json>, rhs: Option<Json>, acc: seq<Json>)
    requires op != RegexMatch
    ensures MapBinary(env, op, rest, rhs, acc, Ok) == Mapped(acc + Present(BinaryScalars(env, op, rest, rhs)), Ok)
    decreases |rest|
  {
    var vs := BinaryScalars(env, op, rest, rhs);
    if rest == [] {
      assert vs == [];
      assert acc + Present(vs) == acc;
    } else {
      var s := JsonBinary(env.platform, env.regex, op, Some(rest[0]), rhs, Ok);
      MapBinaryPresent(env, op, rest[1..], rhs, acc + Appended(s.value));
      assert vs[1..] == BinaryScalars(env, op, rest[1..], rhs);
      assert Present(vs) == Appended(s.value) + Present(vs[1..]);
      AppendAssociates(acc, Appended(s.value), Present(vs[1..]));
    }
  }

  /**
   * A binary operator other than `=~` with a collection on the left maps
   * over it (:480-489): the scalar operator is applied to each element
   * and the right operand, in order, and the results that are NULL (an
   * arithmetic result that is not a finite double) are dropped by
   * json_array_append_new; the record stays untouched; the result is a
   * right-valued collection, constant iff both operands are. When no
   * result is NULL there is one output per element, at its place.
   */
  lemma BinaryMapsElementwise(env: Env, op: BinaryOp, lhs: Result, rhs: Result)
    requires op != RegexMatch
    requires lhs.isCollection
    ensures var vs := BinaryScalars(env, op, Elements(lhs.value), rhs.value);
      BinaryBroadcast(env, op, lhs, rhs) ==
        Outcome(Result(Some(Arr(Present(vs))), true, true, lhs.isConstant && rhs.isConstant), Ok)
    ensures var es := Elements(lhs.value);
      var vs := BinaryScalars(env, op, es, rhs.value);
      var o := BinaryBroadcast(env, op, lhs, rhs);
      (forall k :: 0 <= k < |vs| ==> vs[k].Some?) ==>
        |o.result.value.value.elems| == |es| &&
        forall k :: 0 <= k < |es| ==>
          Some(o.result.value.value.elems[k]) == JsonBinary(env.platform, env.regex, op, Some(es[k]), rhs.value, Ok).value
  {
    var none: seq<Json> := [];
    var es := Elements(lhs.value);
    var vs := BinaryScalars(env, op, es, rhs.value);
    MapBinaryPresent(env, op, es, rhs.value, none);
    assert none + Present(vs) == Present(vs);
    var o := BinaryBroadcast(env, op, lhs, rhs);
    assert o == Outcome(Result(Some(Arr(Present(vs))), true, true, lhs.isConstant && rhs.isConstant), Ok);
    PresentKeepsOrder(vs);
    if forall k :: 0 <= k < |vs| ==> vs[k].Some? {
      forall k | 0 <= k < |es|
        ensures Some(o.result.value.value.elems[k]) == JsonBinary(env.platform, env.regex, op, Some(es[k]), rhs.value, Ok).value
      {
        assert o.result.value.value.elems[k] == Present(vs)[k] == vs[k].value;
      }
    }
  }

  lemma {:induction false} FailedPatternMapsToNull(env: Env, rest: seq<Json>, pattern: string, acc: seq<Json>, err: Error)
    requires env.regex.compileError(pattern).Some?
    ensures MapBinary(env, RegexMatch, rest, Some(Str(pattern)), acc, err).values == acc + seq(|rest|, _ => Null)
    decreases |rest|
  {
    if rest != [] {
      var s := JsonBinary(env.platform, env.regex, RegexMatch, Some(rest[0]), Some(Str(pattern)), err);
      assert s.value == Some(Null);
      FailedPatternMapsToNull(env, rest[1..], pattern, acc + [Null], s.err);
      assert [Null] + seq(|rest| - 1, _ => Null) == seq(|rest|, _ => Null);
      AppendAssociates(acc, [Null], seq(|rest| - 1, _ => Null));
    }
  }

  /**
   * Once both operands evaluate without aborting, a right operand that is
   * a collection aborts with 0xaa whatever the operator (:502-505); a
   * plain right operand goes to binary_deal_with_collection.
   */
  lemma CollectionOnTheRightAborts(env: Env, curr: Result, op: BinaryOp, lhs: Path, rhs: Path)
    requires !Eval(env, curr, lhs).err.abort && !Eval(env, curr, rhs).err.abort
    ensures Eval(env, curr, rhs).result.isCollection ==> Eval(env, curr, Binary(op, lhs, rhs)) == Fail(CollectionOperand)
    ensures !Eval(env, curr, rhs).result.isCollection ==>
      Eval(env, curr, Binary(op, lhs, rhs)) == BinaryBroadcast(env, op, Eval(env, curr, lhs).result, Eval(env, curr, rhs).result)
  {
  }

  /** As written, `$.k` is always a collection (:85), so any operator with `$.k` on its right aborts. */
  lemma KeyOnTheRightAborts(env: Env, curr: Result, op: BinaryOp, lhs: Path, key: Json)
    requires !Eval(env, curr, lhs).err.abort
    ensures Eval(env, curr, Binary(op, lhs, Indexes(Single(Root, None), [Simple(Some(key))]))) == Fail(CollectionOperand)
  {
    var root := Result(env.root, false, false, false);
    WildcardStepIsCollection(env, root, Simple(Some(key)), key);
    var rhs := Indexes(Single(Root, None), [Simple(Some(key))]);
    assert Eval(env, curr, rhs) == Done(Result(Some(Arr(AllProperties(env.root))), true, true, false));
    CollectionOnTheRightAborts(env, curr, op, lhs, rhs);
  }

  /** The unary operator applied to each element. */
  function UnaryScalars(p: Platform, op: UnaryOp, es: seq<Json>): seq<Option<Json>> {
    seq(|es|, k requires 0 <= k < |es| => UnaryValue(p, op, Some(es[k])))
  }

  lemma {:induction false} MapUnaryPresent(p: Platform, op: UnaryOp, rest: seq<Json>, acc: seq<Json>)
    ensures MapUnary(p, op, rest, acc) == acc + Present(UnaryScalars(p, op, rest))
    decreases |rest|
  {
    var vs := UnaryScalars(p, op, rest);
    if rest == [] {
      assert vs == [];
      assert acc + Present(vs) == acc;
    } else {
      var v := UnaryValue(p, op, Some(rest[0]));
      MapUnaryPresent(p, op, rest[1..], acc + Appended(v));
      assert vs[1..] == UnaryScalars(p, op, rest[1..]);
      assert Present(vs) == Appended(v) + Present(vs[1..]);
      AppendAssociates(acc, Appended(v), Present(vs[1..]));
    }
  }

  /**
   * `!`, `-` and `~` on a collection map over it (:583-590): the scalar
   * operator is applied to each element, in order, and NULL results
   * (`-` of a double whose negation is not finite) are dropped; the
   * result is a right-valued collection, constant iff the operand is.
   * `!` and `~` never give NULL, so they keep one output per element.
   */
  lemma UnaryMapsElementwise(p: Platform, op: UnaryOp, o: Result)
    requires op == Not || op == Neg || op == BitNot
    requires o.isCollection
    ensures var vs := UnaryScalars(p, op, Elements(o.value));
      EvaluateUnary(p, op, o) == Done(Result(Some(Arr(Present(vs))), true, true, o.isConstant))
    ensures var es := Elements(o.value);
      var r := EvaluateUnary(p, op, o).result;
      op != Neg ==>
        |r.value.value.elems| == |es| &&
        forall k :: 0 <= k < |es| ==> Some(r.value.value.elems[k]) == UnaryValue(p, op, Some(es[k]))
  {
    var none: seq<Json> := [];
    var es := Elements(o.value);
    var vs := UnaryScalars(p, op, es);
    MapUnaryPresent(p, op, es, none);
    assert none + Present(vs) == Present(vs);
    var r := EvaluateUnary(p, op, o).result;
    assert r == Result(Some(Arr(Present(vs))), true, true, o.isConstant);
    PresentKeepsOrder(vs);
    if op != Neg {
      forall k | 0 <= k < |vs|
        ensures vs[k].Some?
      {
        assert vs[k] == UnaryValue(p, op, Some(es[k]));
      }
      forall k | 0 <= k < |es|
        ensures Some(r.value.value.elems[k]) == UnaryValue(p, op, Some(es[k]))
      {
        assert r.value.value.elems[k] == Present(vs)[k] == vs[k].value;
      }
    }
  }

  /** `&` and `*` abort with 0xa3 and 0xa4 whatever the operand (:605-618). */
  lemma ArrayOperatorsAbort(p: Platform, o: Result)
    ensures EvaluateUnary(p, ToArray, o).err == Error(true, TO_ARRAY_UNIMPLEMENTED, NoExtra)
    ensures EvaluateUnary(p, FromArray, o).err == Error(true, FROM_ARRAY_UNIMPLEMENTED, NoExtra)
  {
  }

  // ---------------------------------------------------------------
  // Leaves, calls and the entry point (:519-550, :626-665).
  // ---------------------------------------------------------------

  /**
   * `$` is the document, neither collection, right value nor constant;
   * `@` is the current element unchanged; a literal is a constant right
   * value; at the entry point `@` is the document as a right value.
   */
  lemma Leaves(env: Env, curr: Result, c: Option<Json>)
    ensures Eval(env, curr, Single(Root, c)) == Done(Result(env.root, false, false, false))
    ensures Eval(env, curr, Single(Curr, c)) == Done(curr)
    ensures Eval(env, curr, Single(Const, c)) == Done(Result(c, false, true, true))
    ensures Evaluate(env, Single(Curr, c)) == Done(Result(env.root, false, true, false))
  {
  }

  /** A call to a name the table does not hold aborts with 0xa1 and the name. */
  lemma MissingFunctionAborts(env: Env, curr: Result, name: string, args: seq<Path>)
    requires env.table.Some? ==> forall k :: 0 <= k < |env.table.value| ==> env.table.value[k].name != name
    ensures Eval(env, curr, Call(name, args)) == Fail(Error(true, FUNCTION_NOT_FOUND, Name(name)))
  {
  }

  /** A call result is never constant, whatever happens. */
  lemma CallIsNeverConstant(env: Env, curr: Result, name: string, args: seq<Path>)
    ensures !Eval(env, curr, Call(name, args)).result.isConstant
  {
    if GetFunction(env.table, name).Some? {
      match EvalArgs(env, curr, args, [])
      case Stopped(_) =>
      case Evaluated(_) =>
    }
  }

  /** The argument evaluates without aborting and is not a collection. */
  predicate PlainArgument(env: Env, curr: Result, arg: Path) {
    var o := Eval(env, curr, arg);
    !o.err.abort && !o.result.isCollection
  }

  lemma {:induction false} ArgumentsInOrder(env: Env, curr: Result, args: seq<Path>, acc: seq<Option<Json>>)
    requires forall k :: 0 <= k < |args| ==> PlainArgument(env, curr, args[k])
    ensures EvalArgs(env, curr, args, acc) == Evaluated(acc + seq(|args|, k requires 0 <= k < |args| => Eval(env, curr, args[k]).result.value))
    decreases |args|
  {
    if args != [] {
      assert PlainArgument(env, curr, args[0]);
      forall k | 0 <= k < |args[1..]|
        ensures PlainArgument(env, curr, args[1..][k])
      {
        assert args[1..][k] == args[k + 1];
      }
      var first := Eval(env, curr, args[0]);
      assert EvalArgs(env, curr, args, acc) == EvalArgs(env, curr, args[1..], acc + [first.result.value]);
      ArgumentsInOrder(env, curr, args[1..], acc + [first.result.value]);
      var all := seq(|args|, k requires 0 <= k < |args| => Eval(env, curr, args[k]).result.value);
      var tail := seq(|args[1..]|, k requires 0 <= k < |args[1..]| => Eval(env, curr, args[1..][k]).result.value);
      forall k | 0 <= k < |all|
        ensures all[k] == ([first.result.value] + tail)[k]
      {
        if k > 0 {
          assert args[1..][k - 1] == args[k];
        }
      }
      assert all == [first.result.value] + tail;
      AppendAssociates(acc, [first.result.value], tail);
    }
  }

  /**
   * A call whose arguments all evaluate to plain values passes those
   * values, in order, to the first function of that name.
   */
  lemma CallPassesArguments(env: Env, curr: Result, name: string, args: seq<Path>)
    requires GetFunction(env.table, name).Some?
    requires forall k :: 0 <= k < |args| ==> PlainArgument(env, curr, args[k])
    ensures Eval(env, curr, Call(name, args)) ==
      Done(Result(GetFunction(env.table, name).value(seq(|args|, k requires 0 <= k < |args| => Eval(env, curr, args[k]).result.value)),
                  false, true, false))
  {
    ArgumentsInOrder(env, curr, args, []);
    assert [] + seq(|args|, k requires 0 <= k < |args| => Eval(env, curr, args[k]).result.value)
      == seq(|args|, k requires 0 <= k < |args| => Eval(env, curr, args[k]).result.value);
  }

  lemma {:induction false} ArgumentsStopAtCollection(env: Env, curr: Result, pre: seq<Path>, a: Path, post: seq<Path>, acc: seq<Option<Json>>)
    requires forall k :: 0 <= k < |pre| ==> PlainArgument(env, curr, pre[k])
    requires !Eval(env, curr, a).err.abort && Eval(env, curr, a).result.isCollection
    ensures EvalArgs(env, curr, pre + [a] + post, acc) == Stopped(CollectionOperand)
    decreases |pre|
  {
    var args := pre + [a] + post;
    if pre == [] {
      assert args[0] == a;
    } else {
      assert PlainArgument(env, curr, args[0]);
      assert args[1..] == pre[1..] + [a] + post;
      forall k | 0 <= k < |pre[1..]|
        ensures PlainArgument(env, curr, pre[1..][k])
      {
        assert pre[1..][k] == pre[k + 1];
      }
      ArgumentsStopAtCollection(env, curr, pre[1..], a, post, acc + [Eval(env, curr, args[0]).result.value]);
    }
  }

  /**
   * Arguments are evaluated left to right (:535-542): the first one that
   * is a collection, after plain ones, aborts the call with 0xaa and the
   * function is not called.
   */
  lemma CollectionArgumentAborts(env: Env, curr: Result, name: string, pre: seq<Path>, a: Path, post: seq<Path>)
    requires GetFunction(env.table, name).Some?
    requires forall k :: 0 <= k < |pre| ==> PlainArgument(env, curr, pre[k])
    requires !Eval(env, curr, a).err.abort && Eval(env, curr, a).result.isCollection
    ensures Eval(env, curr, Call(name, pre + [a] + post)) == Fail(CollectionOperand)
  {
    ArgumentsStopAtCollection(env, curr, pre, a, post, []);
  }

  /** As written, `$.k` is always a collection (:85), so it aborts as an argument. */
  lemma KeyArgumentAborts(env: Env, curr: Result, name: string, key: Json)
    requires GetFunction(env.table, name).Some?
    ensures Eval(env, curr, Call(name, [Indexes(Single(Root, None), [Simple(Some(key))])])) == Fail(CollectionOperand)
  {
    var root := Result(env.root, false, false, false);
    WildcardStepIsCollection(env, root, Simple(Some(key)), key);
    var a := Indexes(Single(Root, None), [Simple(Some(key))]);
    var none: seq<Path> := [];
    assert Eval(env, curr, a) == Done(Result(Some(Arr(AllProperties(env.root))), true, true, false));
    assert none + [a] + none == [a];
    CollectionArgumentAborts(env, curr, name, none, a, none);
  }

  // ---------------------------------------------------------------
  // The error record.
  // ---------------------------------------------------------------

  /** The record as the evaluator leaves it: aborting, or untouched. */
  predicate Settled(err: Error) { err.abort || err == Ok }

  lemma {:induction false} StepsSettle(env: Env, ret: Result, steps: seq<IndexStep>)
    ensures Settled(FoldSteps(env, ret, steps).err)
    decreases |steps|
  {
    if steps != [] {
      var o := DealWithCollection(env, ret, steps[0], ret);
      if !o.err.abort {
        StepsSettle(env, o.result, steps[1..]);
      }
    }
  }

  lemma {:induction false} MapBinarySettles(env: Env, op: BinaryOp, rest: seq<Json>, rhs: Option<Json>, acc: seq<Json>, err: Error)
    requires Settled(err)
    ensures Settled(MapBinary(env, op, rest, rhs, acc, err).err)
    decreases |rest|
  {
    if rest != [] {
      var s := JsonBinary(env.platform, env.regex, op, Some(rest[0]), rhs, err);
      MapBinarySettles(env, op, rest[1..], rhs, acc + Appended(s.value), s.err);
    }
  }

  lemma {:induction false} StoppedArgumentsAbort(env: Env, curr: Result, args: seq<Path>, acc: seq<Option<Json>>)
    ensures EvalArgs(env, curr, args, acc).Stopped? ==> EvalArgs(env, curr, args, acc).err.abort
    decreases |args|
  {
    if args != [] {
      var o := Eval(env, curr, args[0]);
      StoppedArgumentsAbort(env, curr, args[1..], acc + [o.result.value]);
    }
  }

  /**
   * Every error the evaluator records aborts: after an evaluation the
   * record is either aborting or the ok it was reset to.
   */
  lemma EvaluationErrorsAbort(env: Env, curr: Result, p: Path)
    ensures Settled(Eval(env, curr, p).err)
  {
    match p
    case Single(_, _) =>
    case Indexes(root, steps) =>
      var o := Eval(env, curr, root);
      if !o.err.abort {
        StepsSettle(env, o.result, steps);
      }
    case Unary(_, _) =>
    case Binary(op, lhs, rhs) =>
      var l, r := Eval(env, curr, lhs), Eval(env, curr, rhs);
      if !l.err.abort && !r.err.abort && !r.result.isCollection && l.result.isCollection {
        MapBinarySettles(env, op, Elements(l.result.value), r.result.value, [], Ok);
      }
    case Call(name, args) =>
      StoppedArgumentsAbort(env, curr, args, []);
  }
}
