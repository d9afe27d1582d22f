/**
 * The slice of the Relay tensor IR that the rewrite rules read and build:
 * expressions, their inferred types, the attribute records of the operators
 * the rules touch, and the IR constructors the rules call.
 */
module IR {

  type DType = string

  /** One dimension of an inferred tensor shape: a constant integer (an IntImm)
      or anything else (a symbolic or unknown extent). */
  datatype Dim = Known(value: int) | Symbolic(name: string)

  /** An inferred (checked) type. */
  datatype Type =
    | TensorType(dtype: DType, shape: seq<Dim>)
    | TupleType(fields: seq<Type>)
    | FuncType

  datatype Span = NoSpan | SourceSpan(line: nat, column: nat)

  /** A constant tensor literal; `data` is opaque payload, `shape == []` is a scalar. */
  datatype Literal = Literal(dtype: DType, shape: seq<nat>, data: seq<int>)

  /** Which convolution attribute class a record is (Conv1DAttrs, Conv2DAttrs, Conv3DAttrs). */
  datatype ConvKind = Conv1D | Conv2D | Conv3D

  /** The fields shared by the three convolution attribute classes. */
  datatype ConvAttrs = ConvAttrs(
    kind: ConvKind,
    strides: seq<int>,
    padding: seq<int>,
    dilation: seq<int>,
    groups: int,
    channels: int,
    kernelSize: seq<int>,
    dataLayout: string,
    kernelLayout: string,
    outLayout: string,
    outDtype: DType)

  /** Attributes of nn.pad: one row of widths per axis (normally [before, after]). */
  datatype PadAttrs = PadAttrs(padWidth: seq<seq<int>>, padMode: string, padValue: real)

  datatype Attrs =
    | NoAttrs
    | Conv(conv: ConvAttrs)
    | Pad(pad: PadAttrs)
    | ReshapeAttrs(newshape: seq<int>)
    | QuantizeAttrs(axis: int, outDtype: DType)
    | OtherAttrs(name: string)

  datatype Expr =
    | Var(name: string)
    | Constant(lit: Literal)
    | Call(op: string, args: seq<Expr>, attrs: Attrs, typeArgs: seq<Type>, span: Span)
    | Tuple(fields: seq<Expr>)
    | TupleGetItem(tuple: Expr, index: nat)

  /** The result of a callback: a value, or a fatal internal check failure
      (ICHECK, a failed downcast, an out-of-range array index). */
  datatype Outcome<T> = Ok(value: T) | Fatal(reason: string)

  /** Returns the conv attributes if `a` is a conv record of class `kind`
      (the `attrs.as<ConvNDAttrs>()` downcast), None otherwise. */
  function AsConvAttrs(a: Attrs, kind: ConvKind): (r: Option<ConvAttrs>)
    ensures r.Some? <==> a.Conv? && a.conv.kind == kind
    ensures r.Some? ==> r.value == a.conv
  {
    if a.Conv? && a.conv.kind == kind then Some(a.conv) else None
  }

  datatype Option<T> = None | Some(value: T)

  // Operator constructors. They are opaque builders in the IR; here each
  // builds the call node it stands for.

  function MakeReshape(data: Expr, newshape: seq<int>): Expr
  {
    Call("reshape", [data], ReshapeAttrs(newshape), [], NoSpan)
  }

  function MakeConstantScalar(dtype: DType, value: int): Expr
  {
    Constant(Literal(dtype, [], [value]))
  }

  function MakeQuantize(data: Expr, scale: Expr, zeroPoint: Expr, axis: int, outDtype: DType): Expr
  {
    Call("qnn.quantize", [data, scale, zeroPoint], QuantizeAttrs(axis, outDtype), [], NoSpan)
  }

  function Maximum(lhs: Expr, rhs: Expr): Expr
  {
    Call("maximum", [lhs, rhs], NoAttrs, [], NoSpan)
  }

  function CastLike(data: Expr, dtypeLike: Expr): Expr
  {
    Call("cast_like", [data, dtypeLike], NoAttrs, [], NoSpan)
  }

  /** A constant node holding a rank-0 tensor. */
  predicate IsConstScalar(e: Expr)
  {
    e.Constant? && e.lit.shape == []
  }
}
