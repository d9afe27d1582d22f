/**
 * The table of quantize rewrites: for each operator through which a
 * quantize may be pushed, how the operator's call is rebuilt once its input
 * is quantized. Shape and selection operators are rebuilt unchanged; relu
 * becomes a maximum against the zero point.
 */
module QuantizeRewrite {
  import opened IR

  datatype RewriteKind = IdentityRewrite | ReluRewrite

  /** The operators registered with the identity rewrite, in registration order. */
  const IdentityOps: seq<string> := [
    "argmax", "argmin", "argsort", "broadcast_to", "copy", "expand_dims",
    "layout_transform", "max", "min", "nn.adaptive_max_pool2d",
    "nn.adaptive_max_pool3d", "nn.batch_flatten", "nn.batch_to_space_nd",
    "nn.depth_to_space", "nn.max_pool1d", "nn.max_pool2d", "nn.max_pool3d",
    "nn.space_to_depth", "repeat", "reshape", "reverse", "shape_of", "sort",
    "squeeze", "strided_slice", "tile", "transpose"]

  const ReluOp: string := "nn.relu"

  /** The registry: operator name to its rewrite. */
  function Registry(): map<string, RewriteKind>
  {
    (map op | op in IdentityOps :: IdentityRewrite)[ReluOp := ReluRewrite]
  }

  predicate IsRegistered(op: string)
  {
    op in Registry()
  }

  /** The identity rewrite: the call stays as it is, whatever the scale and zero point. */
  function Identity(post: Expr, scale: Expr, zeroPoint: Expr): (r: Expr)
    ensures r == post
  {
    post
  }

  /** The relu rewrite: relu(i) on quantized data becomes
      maximum(i, cast_like(zero point, i)); the scale is not used. Reading
      the first argument fails on anything but a call with an argument. */
  function ReluQuantizeRewrite(post: Expr, scale: Expr, zeroPoint: Expr): (r: Outcome<Expr>)
    ensures r.Ok? <==> post.Call? && |post.args| >= 1
    ensures r.Ok? ==> r.value.Call? && r.value.op == "maximum" &&
                      r.value.args == [post.args[0], CastLike(zeroPoint, post.args[0])]
  {
    match post
    case Call(_, args, _, _, _) =>
      if |args| == 0 then Fatal("relu call without arguments")
      else
        var i := args[0];
        Ok(Maximum(i, CastLike(zeroPoint, i)))
    case _ => Fatal("relu rewrite applied to a non-call")
  }

  /** Looks up the registered rewrite of `op` and applies it. */
  function ApplyRewrite(op: string, post: Expr, scale: Expr, zeroPoint: Expr): (r: Outcome<Expr>)
    requires IsRegistered(op)
    ensures Registry()[op] == IdentityRewrite ==> r == Ok(post)
    ensures Registry()[op] == ReluRewrite ==> r == ReluQuantizeRewrite(post, scale, zeroPoint)
  {
    match Registry()[op]
    case IdentityRewrite => Ok(Identity(post, scale, zeroPoint))
    case ReluRewrite => ReluQuantizeRewrite(post, scale, zeroPoint)
  }

  /** No operator is registered twice (a second registration is an error). */
  lemma IdentityOpsDistinct()
    ensures |IdentityOps| == 27
    ensures forall i, j :: 0 <= i < j < |IdentityOps| ==> IdentityOps[i] != IdentityOps[j]
    ensures ReluOp !in IdentityOps
  {
  }

  /** The registered operators are exactly the identity ones and relu, and
      relu is the only one whose rewrite is not the identity. */
  lemma RegistryContents(op: string)
    ensures IsRegistered(op) <==> op in IdentityOps || op == ReluOp
    ensures IsRegistered(op) ==> (Registry()[op] == ReluRewrite <==> op == ReluOp)
  {
    IdentityOpsDistinct();
  }

  /** Every registered rewrite ignores the scale. */
  lemma RewriteIgnoresScale(op: string, post: Expr, scale1: Expr, scale2: Expr, zeroPoint: Expr)
    requires IsRegistered(op)
    ensures ApplyRewrite(op, post, scale1, zeroPoint) == ApplyRewrite(op, post, scale2, zeroPoint)
  {
  }
}
