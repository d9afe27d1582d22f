/**
 * The dataflow-pattern language the rewrite rules are written in, as plain
 * data, and the three rule shapes built from it. Matching is done by a
 * matcher that is not part of this model; a rule callback receives what the
 * matcher bound as an explicit record (see SimplifyExpr).
 */
module Patterns {

  datatype Pattern =
    | Wildcard
    | ExprPattern(expr: string)
    | CallPattern(op: Pattern, args: seq<Pattern>)
    | AltPattern(left: Pattern, right: Pattern)
    | AttrPattern(base: Pattern, attrs: map<string, int>)
    | ConstantPattern

  // Combinators: `IsOp("f")`, `a || b`, `p({args})`, `p.HasAttr(attrs)`.

  function IsOp(name: string): Pattern { ExprPattern(name) }

  function Or(left: Pattern, right: Pattern): Pattern { AltPattern(left, right) }

  function Apply(op: Pattern, args: seq<Pattern>): Pattern { CallPattern(op, args) }

  function HasAttr(base: Pattern, attrs: map<string, int>): Pattern { AttrPattern(base, attrs) }

  /** Operator pattern kind `kBroadcast` of the operator registry. */
  const BroadcastPattern: int := 1

  /** `reshape1(reshape2(x))`, each reshape either forward or reverse. */
  function ReshapePattern(): (p: Pattern)
    ensures && p.CallPattern? && |p.args| == 1 && p.args[0].CallPattern? && p.args[0].args == [Wildcard]
            && OpNames(p.op) == {"reshape", "contrib_reverse_reshape"}
            && OpNames(p.args[0].op) == {"reshape", "contrib_reverse_reshape"}
  {
    var reshape1 := Or(IsOp("reshape"), IsOp("contrib_reverse_reshape"));
    var reshape2 := Or(IsOp("reshape"), IsOp("contrib_reverse_reshape"));
    Apply(reshape1, [Apply(reshape2, [Wildcard])])
  }

  /** `(conv1d || conv2d || conv3d)(nn.pad(x), w)`: a 1-, 2- or 3-d
      convolution whose data is a pad. */
  function ConvPadPattern(): (p: Pattern)
    ensures && p.CallPattern? && |p.args| == 2 && p.args[1] == Wildcard
            && OpNames(p.op) == {"nn.conv1d", "nn.conv2d", "nn.conv3d"}
            && p.args[0].CallPattern? && p.args[0].args == [Wildcard] && OpNames(p.args[0].op) == {"nn.pad"}
  {
    var pad := Apply(IsOp("nn.pad"), [Wildcard]);
    var conv := Or(Or(IsOp("nn.conv1d"), IsOp("nn.conv2d")), IsOp("nn.conv3d"));
    Apply(conv, [pad, Wildcard])
  }

  /** `op(full, x) || op(x, full)` for any broadcast operator `op`, where
      `full` is a full, full_like, ones, ones_like, zeros or zeros_like call. */
  function FullElementwisePattern(): (p: Pattern)
    ensures && p.AltPattern? && p.left.CallPattern? && p.right.CallPattern?
            && p.left.op == p.right.op
            && p.left.op == AttrPattern(Wildcard, map["TOpPattern" := BroadcastPattern])
            && |p.left.args| == 2 && |p.right.args| == 2
            && p.left.args[1] == Wildcard && p.right.args[0] == Wildcard
            && p.left.args[0] == p.right.args[1]
            && CalleeNames(p.left.args[0]) == {"full", "full_like", "ones", "ones_like", "zeros", "zeros_like"}
  {
    var full := Or(Apply(IsOp("full"), [ConstantPattern]),
                   Apply(IsOp("full_like"), [Wildcard, ConstantPattern]));
    var ones := Or(Apply(IsOp("ones"), []), Apply(IsOp("ones_like"), [Wildcard]));
    var zeros := Or(Apply(IsOp("zeros"), []), Apply(IsOp("zeros_like"), [Wildcard]));
    var op := HasAttr(Wildcard, map["TOpPattern" := BroadcastPattern]);
    var filled := Or(Or(full, ones), zeros);
    Or(Apply(op, [filled, Wildcard]), Apply(op, [Wildcard, filled]))
  }

  /** The operator names an operator pattern can stand for. */
  function OpNames(p: Pattern): (r: set<string>)
    ensures p.ExprPattern? ==> r == {p.expr}
    ensures p.Wildcard? || p.ConstantPattern? ==> r == {}
  {
    match p
    case ExprPattern(op) => {op}
    case AltPattern(l, r) => OpNames(l) + OpNames(r)
    case AttrPattern(b, _) => OpNames(b)
    case _ => {}
  }

  /** The operators of the calls a pattern or its alternatives stand for. */
  function CalleeNames(p: Pattern): (r: set<string>)
    ensures p.CallPattern? ==> r == OpNames(p.op)
  {
    match p
    case CallPattern(op, _) => OpNames(op)
    case AltPattern(l, r) => CalleeNames(l) + CalleeNames(r)
    case _ => {}
  }
}
