/**
 * The compiled JSONPath tree (include/private/jsonpath_ast.h).
 *
 * A node is one of five kinds. A path chain keeps its root node and a
 * flat sequence of index steps rather than a linked list of nodes. The
 * operator sets are the ones src/evaluate.c switches on.
 */
module Ast {
  import opened Wrappers
  import opened Json

  /** What a Single node stands for: `$`, `@` or a literal. */
  datatype SingleTag = Root | Curr | Const

  datatype UnaryOp = Not | Pos | Neg | ToArray | FromArray | BitNot

  datatype BinaryOp =
    | Add | Sub | Mul | Div | Rem
    | BitAnd | BitOr | BitXor | And | Or
    | Shl | Shr
    | Lt | Eq | Ne | Gt | Le | Ge
    | ArrayConcat
    | RegexMatch

  /**
   * One step of a path chain, each with exactly one payload: the
   * simple index of a `.x` / `[x]` step and of a recursive `..x` step
   * (absent for `*`), the two optional bounds of a slice, or the
   * expression of a sub-expression or filter step.
   */
  datatype IndexStep =
    | Simple(index: Option<Json>)
    | Recursive(index: Option<Json>)
    | SubExp(expression: Path)
    | SubRange(begin: Option<Path>, end: Option<Path>)
    | Filter(expression: Path)

  datatype Path =
    | Single(tag: SingleTag, constant: Option<Json>)
    | Indexes(root: Path, steps: seq<IndexStep>)
    | Unary(uop: UnaryOp, node: Path)
    | Binary(bop: BinaryOp, lhs: Path, rhs: Path)
    | Call(name: string, args: seq<Path>)

  // Step tags (path_index_tag_t): the dot step and the simple subscript share one tag.
  const INDEX_DOT: nat := 0
  const INDEX_SUB_SIMPLE: nat := INDEX_DOT
  const INDEX_DOT_RECURSIVE: nat := 1
  const INDEX_SUB_EXP: nat := 2
  const INDEX_SUB_RANGE: nat := 3
  const INDEX_FILTER: nat := 4
  const INDEX_MAX: nat := 5

  // Node tags (jsonpath_tag_t).
  const JSON_SINGLE: nat := 0
  const JSON_INDEX: nat := 1
  const JSON_UNARY: nat := 2
  const JSON_BINARY: nat := 3
  const JSON_ARBITRAY: nat := 4

  /** The tag a step carries. */
  function StepTag(s: IndexStep): (t: nat)
    ensures t < INDEX_MAX
  {
    match s
    case Simple(_) => INDEX_SUB_SIMPLE
    case Recursive(_) => INDEX_DOT_RECURSIVE
    case SubExp(_) => INDEX_SUB_EXP
    case SubRange(_, _) => INDEX_SUB_RANGE
    case Filter(_) => INDEX_FILTER
  }

  /** The tag a node carries. */
  function NodeTag(p: Path): (t: nat)
    ensures t <= JSON_ARBITRAY
  {
    match p
    case Single(_, _) => JSON_SINGLE
    case Indexes(_, _) => JSON_INDEX
    case Unary(_, _) => JSON_UNARY
    case Binary(_, _, _) => JSON_BINARY
    case Call(_, _) => JSON_ARBITRAY
  }

  /** Distinct step kinds carry distinct tags, and the tag decides the kind. */
  lemma StepTagDecidesKind(s: IndexStep, t: IndexStep)
    ensures StepTag(s) == StepTag(t) <==>
      (s.Simple? && t.Simple?) || (s.Recursive? && t.Recursive?) || (s.SubExp? && t.SubExp?) ||
      (s.SubRange? && t.SubRange?) || (s.Filter? && t.Filter?)
  {
  }

  // Size measures used for termination of walks over the tree.

  function PathSize(p: Path): nat {
    match p
    case Single(_, _) => 1
    case Indexes(root, steps) => 1 + PathSize(root) + StepsSize(steps)
    case Unary(_, node) => 1 + PathSize(node)
    case Binary(_, lhs, rhs) => 1 + PathSize(lhs) + PathSize(rhs)
    case Call(_, args) => 1 + ArgsSize(args)
  }

  function StepsSize(steps: seq<IndexStep>): nat {
    if steps == [] then 0 else StepSize(steps[0]) + StepsSize(steps[1..])
  }

  function ArgsSize(args: seq<Path>): nat {
    if args == [] then 0 else PathSize(args[0]) + ArgsSize(args[1..])
  }

  function BoundSize(b: Option<Path>): nat {
    if b.Some? then PathSize(b.value) else 0
  }

  /** A recursive step weighs more than a simple one: its evaluation runs a simple step. */
  function StepSize(s: IndexStep): nat {
    match s
    case Simple(_) => 1
    case Recursive(_) => 2
    case SubExp(e) => 1 + PathSize(e)
    case SubRange(b, e) => 1 + BoundSize(b) + BoundSize(e)
    case Filter(e) => 1 + PathSize(e)
  }

  /** A step weighs no more than the chain it belongs to. */
  lemma {:induction false} StepSizeWithin(steps: seq<IndexStep>, i: nat)
    requires i < |steps|
    ensures StepSize(steps[i]) <= StepsSize(steps)
  {
    if i > 0 {
      StepSizeWithin(steps[1..], i - 1);
    }
  }

  /** An argument weighs no more than the argument list. */
  lemma {:induction false} ArgSizeWithin(args: seq<Path>, i: nat)
    requires i < |args|
    ensures PathSize(args[i]) <= ArgsSize(args)
  {
    if i > 0 {
      ArgSizeWithin(args[1..], i - 1);
    }
  }
}
