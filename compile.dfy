/**
 * Building and tearing down the tree (src/compile.c).
 *
 * The step array of a path chain and the argument array of a call grow
 * in place, so their builders are classes over an `array`; everything
 * else is built as a value. Teardown is a recursive function that lists
 * what `jsonpath_release` does, in order: the JSON references it drops,
 * the buffers and the nodes it frees.
 */
module Compile {
  import opened Wrappers
  import opened Json
  import opened Ast

  // ---------------------------------------------------------------
  // Step and node constructors (:19-42, :97-115, :153-167).
  // ---------------------------------------------------------------

  function BuildSimpleIndex(index: Option<Json>): (s: IndexStep)
    ensures StepTag(s) == INDEX_SUB_SIMPLE && s.index == index
  {
    Simple(index)
  }

  function BuildRecursiveIndex(index: Option<Json>): (s: IndexStep)
    ensures StepTag(s) == INDEX_DOT_RECURSIVE && s.index == index
  {
    Recursive(index)
  }

  function BuildSubexpIndex(expression: Path): (s: IndexStep)
    ensures StepTag(s) == INDEX_SUB_EXP && s.expression == expression
  {
    SubExp(expression)
  }

  function BuildFilterIndex(filter: Path): (s: IndexStep)
    ensures StepTag(s) == INDEX_FILTER && s.expression == filter
  {
    Filter(filter)
  }

  function BuildRangeIndex(begin: Option<Path>, end: Option<Path>): (s: IndexStep)
    ensures StepTag(s) == INDEX_SUB_RANGE && s.begin == begin && s.end == end
  {
    SubRange(begin, end)
  }

  function BuildUnary(op: UnaryOp, operand: Path): (p: Path)
    ensures NodeTag(p) == JSON_UNARY && p.uop == op && p.node == operand
  {
    Unary(op, operand)
  }

  function BuildBinary(op: BinaryOp, lhs: Path, rhs: Path): (p: Path)
    ensures NodeTag(p) == JSON_BINARY && p.bop == op && p.lhs == lhs && p.rhs == rhs
  {
    Binary(op, lhs, rhs)
  }

  function MakeRoot(): (p: Path)
    ensures NodeTag(p) == JSON_SINGLE && p.tag == Root && p.constant == None
  {
    Single(Root, None)
  }

  function MakeCurr(): (p: Path)
    ensures NodeTag(p) == JSON_SINGLE && p.tag == Curr && p.constant == None
  {
    Single(Curr, None)
  }

  // ---------------------------------------------------------------
  // Growable arrays (:65-86, :122-143).
  // ---------------------------------------------------------------

  /** The initial capacity of a step array and of an argument array. */
  const DEFAULT_CAPACITY: nat := 4

  /** A path chain under construction: root node, step buffer and fill count. */
  class IndexesBuilder {
    var root: Path
    var indexes: array<IndexStep>
    var size: nat

    ghost predicate Valid()
      reads this
    {
      0 < indexes.Length && size <= indexes.Length
    }

    /** The steps added so far. */
    function Steps(): seq<IndexStep>
      reads this, indexes
      requires Valid()
    {
      indexes[..size]
    }

    /** The node this builder stands for. */
    function Node(): Path
      reads this, indexes
      requires Valid()
    {
      Indexes(root, Steps())
    }

    /** build_indexes: an empty chain over `root`, with room for four steps. */
    constructor (root: Path)
      ensures Valid() && fresh(indexes)
      ensures this.root == root && size == 0 && indexes.Length == DEFAULT_CAPACITY
      ensures Node() == Indexes(root, []) && NodeTag(Node()) == JSON_INDEX
    {
      this.root := root;
      indexes := new IndexStep[DEFAULT_CAPACITY](_ => Simple(None));
      size := 0;
    }

    /**
     * add_index: store `step` at position `size` and count it, doubling
     * the buffer first when it is full; earlier steps are kept.
     */
    method AddIndex(step: IndexStep)
      requires Valid()
      modifies this, indexes
      ensures Valid()
      ensures root == old(root) && size == old(size) + 1
      ensures Steps() == old(Steps()) + [step]
      ensures Node() == Indexes(old(root), old(Steps()) + [step])
      ensures indexes.Length == if old(size) < old(indexes.Length) then old(indexes.Length) else 2 * old(indexes.Length)
      ensures old(size) < old(indexes.Length) ==> indexes == old(indexes)
      ensures old(size) == old(indexes.Length) ==> fresh(indexes)
    {
      if size + 1 > indexes.Length {
        var grown := new IndexStep[2 * indexes.Length](_ => Simple(None));
        var i := 0;
        while i < size
          invariant 0 <= i <= size
          invariant grown[..i] == indexes[..i]
          modifies grown
        {
          grown[i] := indexes[i];
          i := i + 1;
        }
        indexes := grown;
      }
      indexes[size] := step;
      size := size + 1;
    }
  }

  /** A function call under construction: name, argument buffer and fill count. */
  class CallBuilder {
    var name: string
    var nodes: array<Path>
    var size: nat

    ghost predicate Valid()
      reads this
    {
      0 < nodes.Length && size <= nodes.Length
    }

    /** The arguments added so far. */
    function Args(): seq<Path>
      reads this, nodes
      requires Valid()
    {
      nodes[..size]
    }

    /** The node this builder stands for. */
    function Node(): Path
      reads this, nodes
      requires Valid()
    {
      Call(name, Args())
    }

    /** build_func_call: a call of `name` with no arguments yet, with room for four. */
    constructor (name: string)
      ensures Valid() && fresh(nodes)
      ensures this.name == name && size == 0 && nodes.Length == DEFAULT_CAPACITY
      ensures Node() == Call(name, []) && NodeTag(Node()) == JSON_ARBITRAY
    {
      this.name := name;
      nodes := new Path[DEFAULT_CAPACITY](_ => Single(Root, None));
      size := 0;
    }

    /**
     * add_oprand_arbitrary: store `operand` at position `size` and count
     * it, doubling the buffer first when it is full; earlier arguments
     * are kept.
     */
    method AddOperand(operand: Path)
      requires Valid()
      modifies this, nodes
      ensures Valid()
      ensures name == old(name) && size == old(size) + 1
      ensures Args() == old(Args()) + [operand]
      ensures Node() == Call(old(name), old(Args()) + [operand])
      ensures nodes.Length == if old(size) < old(nodes.Length) then old(nodes.Length) else 2 * old(nodes.Length)
      ensures old(size) < old(nodes.Length) ==> nodes == old(nodes)
      ensures old(size) == old(nodes.Length) ==> fresh(nodes)
    {
      if size + 1 > nodes.Length {
        var grown := new Path[2 * nodes.Length](_ => Single(Root, None));
        var i := 0;
        while i < size
          invariant 0 <= i <= size
          invariant grown[..i] == nodes[..i]
          modifies grown
        {
          grown[i] := nodes[i];
          i := i + 1;
        }
        nodes := grown;
      }
      nodes[size] := operand;
      size := size + 1;
    }
  }

  // ---------------------------------------------------------------
  // Teardown (:44-63, :88-95, :105-120, :145-151, :169-195).
  // ---------------------------------------------------------------

  /** One effect of teardown: a dropped JSON reference, a freed buffer or a freed node. */
  datatype Event = DropRef(value: Json) | FreeBuffer | FreeNode(node: Path)

  /** json_decref: nothing happens for NULL. */
  function Decref(v: Option<Json>): seq<Event> {
    if v.Some? then [DropRef(v.value)] else []
  }

  /**
   * jsonpath_release: the effects of releasing `p`, in order, or `None`
   * when it dereferences a NULL node, which it does for an omitted
   * slice bound.
   */
  function Release(p: Path): Option<seq<Event>>
    decreases PathSize(p), 2
  {
    match p
    case Single(tag, constant) =>
      Some((if tag == Const then Decref(constant) else []) + [FreeNode(p)])
    case Indexes(root, steps) =>
      var r :- Release(root);
      var s :- ReleaseSteps(steps);
      Some(r + s + [FreeBuffer, FreeNode(p)])
    case Unary(_, node) =>
      var r :- Release(node);
      Some(r + [FreeNode(p)])
    case Binary(_, lhs, rhs) =>
      var l :- Release(lhs);
      var r :- Release(rhs);
      Some(l + r + [FreeNode(p)])
    case Call(_, args) =>
      var a :- ReleaseArgs(args);
      Some(a + [FreeBuffer, FreeNode(p)])
  }

  /** jsonpath_release on a slice bound, which may be NULL. */
  function ReleaseBound(b: Option<Path>): Option<seq<Event>>
    decreases BoundSize(b), 3
  {
    if b.None? then None else Release(b.value)
  }

  /** index_release (:44-63). */
  function ReleaseIndex(s: IndexStep): Option<seq<Event>>
    decreases StepSize(s), 0
  {
    match s
    case Simple(index) => Some(Decref(index))
    case Recursive(index) => Some(Decref(index))
    case SubExp(e) => Release(e)
    case Filter(e) => Release(e)
    case SubRange(b, e) =>
      var x :- ReleaseBound(b);
      var y :- ReleaseBound(e);
      Some(x + y)
  }

  /** The step loop of indexes_release (:91-93). */
  function ReleaseSteps(steps: seq<IndexStep>): Option<seq<Event>>
    decreases StepsSize(steps), 1
  {
    if steps == [] then Some([])
    else
      var a :- ReleaseIndex(steps[0]);
      var b :- ReleaseSteps(steps[1..]);
      Some(a + b)
  }

  /** The argument loop of arbitray_release (:147-149). */
  function ReleaseArgs(args: seq<Path>): Option<seq<Event>>
    decreases ArgsSize(args), 3
  {
    if args == [] then Some([])
    else
      var a :- Release(args[0]);
      var b :- ReleaseArgs(args[1..]);
      Some(a + b)
  }

  // ---------------------------------------------------------------
  // What a tree owns.
  // ---------------------------------------------------------------

  /** The nodes of a tree, in preorder. */
  function Nodes(p: Path): seq<Path>
    decreases PathSize(p), 2
  {
    match p
    case Single(_, _) => [p]
    case Indexes(root, steps) => [p] + (Nodes(root) + StepsNodes(steps))
    case Unary(_, node) => [p] + Nodes(node)
    case Binary(_, lhs, rhs) => [p] + (Nodes(lhs) + Nodes(rhs))
    case Call(_, args) => [p] + ArgsNodes(args)
  }

  function BoundNodes(b: Option<Path>): seq<Path>
    decreases BoundSize(b), 3
  {
    if b.None? then [] else Nodes(b.value)
  }

  function StepNodes(s: IndexStep): seq<Path>
    decreases StepSize(s), 0
  {
    match s
    case Simple(_) => []
    case Recursive(_) => []
    case SubExp(e) => Nodes(e)
    case Filter(e) => Nodes(e)
    case SubRange(b, e) => BoundNodes(b) + BoundNodes(e)
  }

  function StepsNodes(steps: seq<IndexStep>): seq<Path>
    decreases StepsSize(steps), 1
  {
    if steps == [] then [] else StepNodes(steps[0]) + StepsNodes(steps[1..])
  }

  function ArgsNodes(args: seq<Path>): seq<Path>
    decreases ArgsSize(args), 3
  {
    if args == [] then [] else Nodes(args[0]) + ArgsNodes(args[1..])
  }

  /** The JSON references the steps of a chain hold: their simple indexes. */
  function StepIndexes(steps: seq<IndexStep>): multiset<Json> {
    if steps == [] then multiset{}
    else
      (match steps[0]
       case Simple(Some(j)) => multiset{j}
       case Recursive(Some(j)) => multiset{j}
       case _ => multiset{}) + StepIndexes(steps[1..])
  }

  /** The JSON references a node holds itself: its literal, or its steps' indexes. */
  function OwnedHere(p: Path): multiset<Json> {
    match p
    case Single(Const, Some(c)) => multiset{c}
    case Indexes(_, steps) => StepIndexes(steps)
    case _ => multiset{}
  }

  /** The JSON references a list of nodes holds. */
  function Owned(nodes: seq<Path>): multiset<Json> {
    if nodes == [] then multiset{} else OwnedHere(nodes[0]) + Owned(nodes[1..])
  }

  /** A slice step with a bound left out. */
  predicate IsOpenRange(s: IndexStep) {
    s.SubRange? && (s.begin.None? || s.end.None?)
  }

  /** A chain node with a slice step that leaves a bound out. */
  predicate HasOpenRange(n: Path) {
    n.Indexes? && exists s :: s in n.steps && IsOpenRange(s)
  }

  /** Some node of the list has a slice step that leaves a bound out. */
  predicate AnyOpenRange(ns: seq<Path>) {
    exists n :: n in ns && HasOpenRange(n)
  }

  /** The JSON references a list of events drops. */
  function Dropped(es: seq<Event>): multiset<Json> {
    if es == [] then multiset{}
    else (if es[0].DropRef? then multiset{es[0].value} else multiset{}) + Dropped(es[1..])
  }

  /** The nodes a list of events frees. */
  function Freed(es: seq<Event>): multiset<Path> {
    if es == [] then multiset{}
    else (if es[0].FreeNode? then multiset{es[0].node} else multiset{}) + Freed(es[1..])
  }

  lemma {:induction false} OwnedAppend(a: seq<Path>, b: seq<Path>)
    ensures Owned(a + b) == Owned(a) + Owned(b)
  {
    if a == [] {
      assert a + b == b;
    } else {
      assert (a + b)[1..] == a[1..] + b;
      OwnedAppend(a[1..], b);
    }
  }

  lemma {:induction false} EventsAppend(a: seq<Event>, b: seq<Event>)
    ensures Dropped(a + b) == Dropped(a) + Dropped(b)
    ensures Freed(a + b) == Freed(a) + Freed(b)
  {
    if a == [] {
      assert a + b == b;
    } else {
      assert (a + b)[1..] == a[1..] + b;
      EventsAppend(a[1..], b);
    }
  }

  // ---------------------------------------------------------------
  // Teardown fails exactly on an omitted slice bound.
  // ---------------------------------------------------------------

  /**
   * Releasing a tree dereferences a NULL node exactly when some chain
   * in it has a slice step with an omitted bound.
   */
  lemma {:induction false} ReleaseFailsExactlyOnOpenRange(p: Path)
    ensures Release(p).None? <==> AnyOpenRange(Nodes(p))
    decreases PathSize(p), 2
  {
    match p
    case Single(_, _) =>
      NodesOpenRange(p, []);
    case Indexes(root, steps) =>
      ReleaseFailsExactlyOnOpenRange(root);
      StepsFailExactlyOnOpenRange(steps);
      NodesOpenRange(p, Nodes(root) + StepsNodes(steps));
      OpenRangeSplit(Nodes(root), StepsNodes(steps));
    case Unary(_, node) =>
      ReleaseFailsExactlyOnOpenRange(node);
      NodesOpenRange(p, Nodes(node));
    case Binary(_, lhs, rhs) =>
      ReleaseFailsExactlyOnOpenRange(lhs);
      ReleaseFailsExactlyOnOpenRange(rhs);
      NodesOpenRange(p, Nodes(lhs) + Nodes(rhs));
      OpenRangeSplit(Nodes(lhs), Nodes(rhs));
    case Call(_, args) =>
      ArgsFailExactlyOnOpenRange(args);
      NodesOpenRange(p, ArgsNodes(args));
  }

  /** The preorder list of a node is the node followed by the rest. */
  lemma NodesOpenRange(p: Path, rest: seq<Path>)
    requires Nodes(p) == [p] + rest
    ensures AnyOpenRange(Nodes(p)) <==> HasOpenRange(p) || AnyOpenRange(rest)
  {
    if AnyOpenRange(Nodes(p)) {
      var n :| n in Nodes(p) && HasOpenRange(n);
      assert n == p || n in rest;
    }
    if HasOpenRange(p) {
      assert p in Nodes(p);
    }
    if AnyOpenRange(rest) {
      var n :| n in rest && HasOpenRange(n);
      assert n in Nodes(p);
    }
  }

  lemma OpenRangeSplit(a: seq<Path>, b: seq<Path>)
    ensures AnyOpenRange(a + b) <==> AnyOpenRange(a) || AnyOpenRange(b)
  {
    if AnyOpenRange(a + b) {
      var n :| n in a + b && HasOpenRange(n);
      assert n in a || n in b;
    }
    if AnyOpenRange(a) {
      var n :| n in a && HasOpenRange(n);
      assert n in a + b;
    }
    if AnyOpenRange(b) {
      var n :| n in b && HasOpenRange(n);
      assert n in a + b;
    }
  }

  lemma {:induction false} BoundFailsExactlyOnOpenRange(b: Option<Path>)
    ensures ReleaseBound(b).None? <==> b.None? || AnyOpenRange(BoundNodes(b))
    decreases BoundSize(b), 3
  {
    if b.Some? {
      ReleaseFailsExactlyOnOpenRange(b.value);
    }
  }

  lemma {:induction false} StepFailsExactlyOnOpenRange(s: IndexStep)
    ensures ReleaseIndex(s).None? <==> IsOpenRange(s) || AnyOpenRange(StepNodes(s))
    decreases StepSize(s), 0
  {
    match s
    case Simple(_) =>
    case Recursive(_) =>
    case SubExp(e) =>
      ReleaseFailsExactlyOnOpenRange(e);
    case Filter(e) =>
      ReleaseFailsExactlyOnOpenRange(e);
    case SubRange(b, e) =>
      BoundFailsExactlyOnOpenRange(b);
      BoundFailsExactlyOnOpenRange(e);
      OpenRangeSplit(BoundNodes(b), BoundNodes(e));
  }

  lemma {:induction false} StepsFailExactlyOnOpenRange(steps: seq<IndexStep>)
    ensures ReleaseSteps(steps).None? <==>
      (exists s :: s in steps && IsOpenRange(s)) || AnyOpenRange(StepsNodes(steps))
    decreases StepsSize(steps), 1
  {
    if steps != [] {
      var s, rest := steps[0], steps[1..];
      StepFailsExactlyOnOpenRange(s);
      StepsFailExactlyOnOpenRange(rest);
      OpenRangeSplit(StepNodes(s), StepsNodes(rest));
      if exists t :: t in steps && IsOpenRange(t) {
        var t :| t in steps && IsOpenRange(t);
        assert t == s || t in rest;
      }
      if exists t :: t in rest && IsOpenRange(t) {
        var t :| t in rest && IsOpenRange(t);
        assert t in steps;
      }
    }
  }

  lemma {:induction false} ArgsFailExactlyOnOpenRange(args: seq<Path>)
    ensures ReleaseArgs(args).None? <==> AnyOpenRange(ArgsNodes(args))
    decreases ArgsSize(args), 3
  {
    if args != [] {
      ReleaseFailsExactlyOnOpenRange(args[0]);
      ArgsFailExactlyOnOpenRange(args[1..]);
      OpenRangeSplit(Nodes(args[0]), ArgsNodes(args[1..]));
    }
  }

  // ---------------------------------------------------------------
  // Otherwise teardown releases everything exactly once.
  // ---------------------------------------------------------------

  /**
   * A tree that can be released drops every JSON reference it owns
   * once, frees each of its nodes once, and frees its root node last,
   * after all of its children.
   */
  lemma {:induction false} ReleaseExactlyOnce(p: Path)
    requires Release(p).Some?
    ensures Dropped(Release(p).value) == Owned(Nodes(p))
    ensures Freed(Release(p).value) == multiset(Nodes(p))
    ensures Release(p).value[|Release(p).value| - 1] == FreeNode(p)
    decreases PathSize(p), 2
  {
    match p
    case Single(_, _) => SingleReleaseExactlyOnce(p);
    case Indexes(_, _) => IndexesReleaseExactlyOnce(p);
    case Unary(_, _) => UnaryReleaseExactlyOnce(p);
    case Binary(_, _, _) => BinaryReleaseExactlyOnce(p);
    case Call(_, _) => CallReleaseExactlyOnce(p);
  }

  lemma {:induction false} UnaryReleaseExactlyOnce(p: Path)
    requires p.Unary? && Release(p).Some?
    ensures Dropped(Release(p).value) == Owned(Nodes(p))
    ensures Freed(Release(p).value) == multiset(Nodes(p))
    ensures Release(p).value[|Release(p).value| - 1] == FreeNode(p)
    decreases PathSize(p), 1
  {
    ReleaseExactlyOnce(p.node);
    Assemble(p, Release(p.node).value, [FreeNode(p)], Nodes(p.node), Nodes(p));
  }

  lemma {:induction false} CallReleaseExactlyOnce(p: Path)
    requires p.Call? && Release(p).Some?
    ensures Dropped(Release(p).value) == Owned(Nodes(p))
    ensures Freed(Release(p).value) == multiset(Nodes(p))
    ensures Release(p).value[|Release(p).value| - 1] == FreeNode(p)
    decreases PathSize(p), 1
  {
    ArgsReleaseExactlyOnce(p.args);
    Assemble(p, ReleaseArgs(p.args).value, [FreeBuffer, FreeNode(p)], ArgsNodes(p.args), Nodes(p));
  }

  lemma SingleReleaseExactlyOnce(p: Path)
    requires p.Single?
    ensures Dropped(Release(p).value) == Owned(Nodes(p))
    ensures Freed(Release(p).value) == multiset(Nodes(p))
    ensures Release(p).value[|Release(p).value| - 1] == FreeNode(p)
  {
    var body := if p.tag == Const then Decref(p.constant) else [];
    assert body == [] || body[1..] == [];
    Assemble(p, body, [FreeNode(p)], [], Nodes(p));
  }

  lemma {:induction false} IndexesReleaseExactlyOnce(p: Path)
    requires p.Indexes? && Release(p).Some?
    ensures Dropped(Release(p).value) == Owned(Nodes(p))
    ensures Freed(Release(p).value) == multiset(Nodes(p))
    ensures Release(p).value[|Release(p).value| - 1] == FreeNode(p)
    decreases PathSize(p), 1
  {
    var root, steps := p.root, p.steps;
    ReleaseExactlyOnce(root);
    StepsReleaseExactlyOnce(steps);
    var r, s := Release(root).value, ReleaseSteps(steps).value;
    var rn, sn := Nodes(root), StepsNodes(steps);
    EventsAppend(r, s);
    OwnedAppend(rn, sn);
    assert Dropped(r + s) == OwnedHere(p) + Owned(rn + sn);
    assert Freed(r + s) == multiset(rn + sn);
    assert Release(p).value == (r + s) + [FreeBuffer, FreeNode(p)];
    Assemble(p, r + s, [FreeBuffer, FreeNode(p)], rn + sn, Nodes(p));
  }

  lemma {:induction false} BinaryReleaseExactlyOnce(p: Path)
    requires p.Binary? && Release(p).Some?
    ensures Dropped(Release(p).value) == Owned(Nodes(p))
    ensures Freed(Release(p).value) == multiset(Nodes(p))
    ensures Release(p).value[|Release(p).value| - 1] == FreeNode(p)
    decreases PathSize(p), 1
  {
    var lhs, rhs := p.lhs, p.rhs;
    ReleaseExactlyOnce(lhs);
    ReleaseExactlyOnce(rhs);
    var l, r := Release(lhs).value, Release(rhs).value;
    var ln, rn := Nodes(lhs), Nodes(rhs);
    EventsAppend(l, r);
    OwnedAppend(ln, rn);
    assert Dropped(l + r) == OwnedHere(p) + Owned(ln + rn);
    assert Freed(l + r) == multiset(ln + rn);
    assert Release(p).value == (l + r) + [FreeNode(p)];
    assert Nodes(p) == [p] + (ln + rn);
    Assemble(p, l + r, [FreeNode(p)], ln + rn, Nodes(p));
  }

  /** A node's own events close the events of its children. */
  lemma Assemble(p: Path, body: seq<Event>, tail: seq<Event>, rest: seq<Path>, all: seq<Path>)
    requires all == [p] + rest
    requires tail == [FreeNode(p)] || tail == [FreeBuffer, FreeNode(p)]
    requires Dropped(body) == OwnedHere(p) + Owned(rest)
    requires Freed(body) == multiset(rest)
    ensures Dropped(body + tail) == Owned(all)
    ensures Freed(body + tail) == multiset(all)
    ensures (body + tail)[|body + tail| - 1] == FreeNode(p)
  {
    EventsAppend(body, tail);
    OwnedCons(p, rest, all);
    TailEvents(p, tail);
    assert multiset(all) == multiset{p} + multiset(rest);
  }

  lemma OwnedCons(p: Path, rest: seq<Path>, all: seq<Path>)
    requires all == [p] + rest
    ensures Owned(all) == OwnedHere(p) + Owned(rest)
  {
    assert all[1..] == rest;
  }

  /** The closing events of a node free it and drop nothing. */
  lemma TailEvents(p: Path, tail: seq<Event>)
    requires tail == [FreeNode(p)] || tail == [FreeBuffer, FreeNode(p)]
    ensures Dropped(tail) == multiset{} && Freed(tail) == multiset{p}
  {
    if tail != [FreeNode(p)] {
      assert tail[1..] == [FreeNode(p)];
    }
  }

  lemma {:induction false} BoundReleaseExactlyOnce(b: Option<Path>)
    requires ReleaseBound(b).Some?
    ensures Dropped(ReleaseBound(b).value) == Owned(BoundNodes(b))
    ensures Freed(ReleaseBound(b).value) == multiset(BoundNodes(b))
    decreases BoundSize(b), 3
  {
    ReleaseExactlyOnce(b.value);
  }

  lemma {:induction false} StepReleaseExactlyOnce(s: IndexStep)
    requires ReleaseIndex(s).Some?
    ensures Dropped(ReleaseIndex(s).value) == StepIndexes([s]) + Owned(StepNodes(s))
    ensures Freed(ReleaseIndex(s).value) == multiset(StepNodes(s))
    decreases StepSize(s), 1
  {
    if s.Simple? || s.Recursive? {
      IndexReleaseExactlyOnce(s);
    } else if s.SubRange? {
      RangeReleaseExactlyOnce(s);
    } else {
      NestedReleaseExactlyOnce(s);
    }
  }

  lemma IndexReleaseExactlyOnce(s: IndexStep)
    requires s.Simple? || s.Recursive?
    ensures Dropped(ReleaseIndex(s).value) == StepIndexes([s]) + Owned(StepNodes(s))
    ensures Freed(ReleaseIndex(s).value) == multiset(StepNodes(s))
  {
    assert [s][1..] == [];
    assert Decref(s.index) == [] || Decref(s.index)[1..] == [];
  }

  lemma {:induction false} NestedReleaseExactlyOnce(s: IndexStep)
    requires (s.SubExp? || s.Filter?) && ReleaseIndex(s).Some?
    ensures Dropped(ReleaseIndex(s).value) == StepIndexes([s]) + Owned(StepNodes(s))
    ensures Freed(ReleaseIndex(s).value) == multiset(StepNodes(s))
    decreases StepSize(s), 0
  {
    assert [s][1..] == [];
    ReleaseExactlyOnce(s.expression);
  }

  lemma {:induction false} RangeReleaseExactlyOnce(s: IndexStep)
    requires s.SubRange? && ReleaseIndex(s).Some?
    ensures Dropped(ReleaseIndex(s).value) == StepIndexes([s]) + Owned(StepNodes(s))
    ensures Freed(ReleaseIndex(s).value) == multiset(StepNodes(s))
    decreases StepSize(s), 0
  {
    var b, e := s.begin, s.end;
    assert [s][1..] == [];
    BoundReleaseExactlyOnce(b);
    BoundReleaseExactlyOnce(e);
    EventsAppend(ReleaseBound(b).value, ReleaseBound(e).value);
    OwnedAppend(BoundNodes(b), BoundNodes(e));
  }

  lemma {:induction false} StepsReleaseExactlyOnce(steps: seq<IndexStep>)
    requires ReleaseSteps(steps).Some?
    ensures Dropped(ReleaseSteps(steps).value) == StepIndexes(steps) + Owned(StepsNodes(steps))
    ensures Freed(ReleaseSteps(steps).value) == multiset(StepsNodes(steps))
    decreases StepsSize(steps), 2
  {
    if steps != [] {
      var s, rest := steps[0], steps[1..];
      StepReleaseExactlyOnce(s);
      StepsReleaseExactlyOnce(rest);
      var a, b := ReleaseIndex(s).value, ReleaseSteps(rest).value;
      var an, bn := StepNodes(s), StepsNodes(rest);
      EventsAppend(a, b);
      OwnedAppend(an, bn);
      StepIndexesCons(steps);
      assert Freed(a + b) == multiset(an + bn);
      assert Dropped(a + b) == StepIndexes([s]) + StepIndexes(rest) + Owned(an + bn);
    }
  }

  lemma StepIndexesCons(steps: seq<IndexStep>)
    requires steps != []
    ensures StepIndexes(steps) == StepIndexes([steps[0]]) + StepIndexes(steps[1..])
  {
    assert [steps[0]][1..] == [];
  }

  lemma {:induction false} ArgsReleaseExactlyOnce(args: seq<Path>)
    requires ReleaseArgs(args).Some?
    ensures Dropped(ReleaseArgs(args).value) == Owned(ArgsNodes(args))
    ensures Freed(ReleaseArgs(args).value) == multiset(ArgsNodes(args))
    decreases ArgsSize(args), 3
  {
    if args != [] {
      ReleaseExactlyOnce(args[0]);
      ArgsReleaseExactlyOnce(args[1..]);
      EventsAppend(Release(args[0]).value, ReleaseArgs(args[1..]).value);
      OwnedAppend(Nodes(args[0]), ArgsNodes(args[1..]));
    }
  }

  /** `$[1:]` cannot be released: its omitted end bound is dereferenced. */
  lemma OpenSliceReleaseFails()
    ensures Release(Indexes(Single(Root, None), [SubRange(Some(Single(Const, Some(Int(1)))), None)])) == None
  {
  }
}
