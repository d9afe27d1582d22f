# Relay expression simplification and quantize pushing, in Dafny

This project models two Relay graph-rewriting passes. It also models the
table of quantize rewrites that the second pass consults.

**Expression simplifier** (`simplify_expr.dfy`, `patterns.dfy`, `ir.dfy`).
The simplifier registers three pattern rules, in this order:

1. Reshape fusion: `reshape(reshape(x))` becomes a single reshape of `x` to
   the outer node's inferred shape. It fires only when every extent of that
   shape is a constant.
2. Full-elementwise: `op(full, x)` becomes `op(scalar, x)` when `op` is a
   broadcast operator, `full` is a `full`, `ones` or `zeros` producer
   (or a `_like` variant), and `x` already has the result type.
3. Pad-conv fusion: `conv(nn.pad(x), w)` becomes `conv(x, w)` with the pad
   widths of the image axes added to the convolution's padding.

Each rule's pattern is plain data. Each callback is a function or a method
of what the matcher bound. It returns a replacement, returns `post` to
decline, or returns `Fatal` when the code would hit an internal check
(`ICHECK`), a failed downcast or an out-of-range array index. The loops of
the C++ callbacks are Dafny methods. Each method is proved equal to a
specification function (`MergeConvAttrs`, `FoldPadding`, `KnownValues`).
Lemmas about those functions then say where each pad width lands in the
folded padding.

**Quantize pushing** (`requantize.dfy`, `quantize_rewrite.dfy`).
`Requantizer` first visits an indexed graph in reverse topological order.
It looks for each `qnn.dequantize` each of whose users finds some
`qnn.quantize` through operators that have a quantize rewrite. For such a
dequantize it pairs each user with the quantize that user finds, and it
marks each of those quantizes as removable.
`RequantizeMutator` then visits the graph inputs first:

- Each paired call gets its first argument wrapped in the quantize.
- Each removable quantize is replaced by its input.
- The operators in between are passed to their registered rewrite. The
  identity rewrite keeps them unchanged. The relu rewrite turns them into
  `maximum(i, cast_like(zero_point, i))`.

The graph is an arena indexed by topological position, so a node's
identity is its index. Both classes keep the source's mutable state as
fields: the pairs, the removable set and the current parent quantize. Each
method is proved against the functions `PairsFrom`, `RemovableFrom`,
`RewriteStep` and `MutateUpTo`.

Behaviour of the code that an informal reading of these rules might not
expect:

- **Two padding entries cannot be merged.** The merge demands as many
  pad-derived entries as the convolution already has padding entries. The
  entries are the before-pads then the after-pads of the image axes. So an
  NCHW pad of `[[0,0],[0,0],[1,1],[1,1]]` cannot be merged into a conv2d
  whose padding has two entries: the extent check fails
  (`FoldPaddingExtentFails`). It merges into four entries
  (`FoldPaddingNchw`).
- **Full-elementwise compares only `x`'s type.** The rule compares the type
  of `x` alone with the result type. `multiply(full(5, [1,1]), x)` with `x`
  of type `[4,4]` is therefore rewritten to `multiply(5, x)`
  (`FullElementwiseSmallFullFires`). It declines only when `x` itself is
  broadcast (`FullElementwiseBroadcastDeclines`).
- **Stale doc comment.** The comment on the full-elementwise class
  (`src/relay/transforms/simplify_expr.cc:198-200`) describes a
  full/argwhere rule. It does not describe the class under it.
- **Direct dequantize→quantize wraps twice.** When a dequantize feeds a
  quantize directly, that quantize is both the paired user and the
  terminating quantize. The pairing wins, so the result quantizes the
  quantize's input a second time with the same parameters
  (`DirectQuantizeWrapsTwice`).

## Model

| member | source | states |
|---|---|---|
| IR.AsConvAttrs | src/relay/transforms/simplify_expr.cc:165-170 | the `as<ConvNDAttrs>()` downcast yields the record exactly when it is a conv record of the requested class |
| Patterns.ReshapePattern | src/relay/transforms/simplify_expr.cc:55-60 | the reshape rule matches a reshape or reverse reshape applied to another reshape or reverse reshape of a wildcard |
| Patterns.ConvPadPattern | src/relay/transforms/simplify_expr.cc:91-100 | the conv-pad rule matches a conv1d/2d/3d whose data operand is an nn.pad of a wildcard and whose weight is a wildcard |
| Patterns.FullElementwisePattern | src/relay/transforms/simplify_expr.cc:203-217 | the full-elementwise rule matches a broadcast-kind operator with a full/full_like/ones/ones_like/zeros/zeros_like producer on either side and a wildcard on the other |
| SimplifyExpr.KnownValues | src/relay/transforms/simplify_expr.cc:66-73 | the new shape lists the constant extents of the inferred shape, one per axis, in order |
| SimplifyExpr.SimplifyReshapeCallback | src/relay/transforms/simplify_expr.cc:62-78 | fatal exactly when the outer node's type is not a tensor type; with every extent constant the result is a single reshape of x to that shape; with a symbolic extent the rule declines |
| SimplifyExpr.MergeConvAttrs | src/relay/transforms/simplify_expr.cc:102-124 | succeeds exactly when the padding lengths agree; the new attributes equal the old ones except the padding, which is the element-wise sum |
| SimplifyExpr.MakeConvAttrs | src/relay/transforms/simplify_expr.cc:102-124 | the loop builds exactly MergeConvAttrs: same length check, element-wise sum, every other field copied |
| SimplifyExpr.FoldPadding | src/relay/transforms/simplify_expr.cc:126-153 | declines exactly when the layout matches the pad widths in length and some non-image axis is padded; a folded result differs from the conv attributes only in padding |
| SimplifyExpr.CheckNonImageUnpadded | src/relay/transforms/simplify_expr.cc:135-143 | the first loop nest answers true exactly when every pad width of every non-image axis is zero |
| SimplifyExpr.CollectColumn | src/relay/transforms/simplify_expr.cc:145-149 | one pass of the inner loop succeeds exactly when every image axis has an entry j, and then lists entry j of each image axis in layout order |
| SimplifyExpr.CollectImagePadding | src/relay/transforms/simplify_expr.cc:144-150 | the second loop nest succeeds exactly when there is a first row and no image axis has a shorter row; the result is the columns of the image pad widths one after another |
| SimplifyExpr.GetAttrs | src/relay/transforms/simplify_expr.cc:126-153 | fatal on a conv record of another class; otherwise the nested loops compute exactly FoldPadding, including its fatal index and extent checks |
| SimplifyExpr.ImageColumnAt | src/relay/transforms/simplify_expr.cc:144-150 | one column of the collected padding lists column j of each image axis, in layout order |
| SimplifyExpr.ImagePaddingLength | src/relay/transforms/simplify_expr.cc:144-150 | the collected padding has (number of columns) × (number of image axes) entries |
| SimplifyExpr.ImagePaddingAt | src/relay/transforms/simplify_expr.cc:144-150 | entry j·k+t of the collected padding is column j of the t-th image axis, where k is the number of image axes |
| SimplifyExpr.FoldPaddingPairs | src/relay/transforms/simplify_expr.cc:126-153 | for [before, after] pad widths the fold succeeds exactly when the non-image axes are unpadded and the conv has 2k padding entries; entry t adds the t-th image axis's before-pad and entry k+t its after-pad |
| SimplifyExpr.FoldPaddingNchw | src/relay/transforms/simplify_expr.cc:126-153 | NCHW with pad widths [[0,0],[0,0],[top,bottom],[left,right]] on a four-entry conv padding adds [top, left, bottom, right] to it and nothing else changes |
| SimplifyExpr.FoldPaddingExtentFails | src/relay/transforms/simplify_expr.cc:104-106 | NCHW pad widths on H and W give four padding entries, so merging them into a conv whose padding has any other number of entries fails the extent check |
| SimplifyExpr.FoldPaddingChannelDeclines | src/relay/transforms/simplify_expr.cc:135-143 | padding the channel axis of NCHW makes the rule decline |
| SimplifyExpr.BoundConv | src/relay/transforms/simplify_expr.cc:165-173 | no convolution alternative is selected exactly when none was bound |
| SimplifyExpr.SimplifyConvPadCallback | src/relay/transforms/simplify_expr.cc:154-182 | fatal on a non-call conv or pad node or missing pad attributes; declines unless the pad is constant with value zero and a conv alternative is bound; otherwise fatal on a conv record of the wrong class, declines when a non-image axis is padded, and else applies the same conv to (x, w) with the folded attributes, keeping its type arguments and span |
| SimplifyExpr.FillScalar | src/relay/transforms/simplify_expr.cc:236-246 | the replacement operand is always a constant scalar: the bound fill value for full (fatal if it is not a constant scalar), 1 for ones, 0 for zeros, fatal when no producer was bound |
| SimplifyExpr.FullElementwiseCallback | src/relay/transforms/simplify_expr.cc:219-254 | fatal on a non-call or non-tensor node or too few operands; declines when x's type differs from the result type; otherwise the same operator, attributes, type arguments and span applied to x on its own side and the constant scalar on the other |
| SimplifyExpr.FullElementwiseOnesFires | src/relay/transforms/simplify_expr.cc:219-254 | add(ones_like(x), x) with x of the result type becomes add(1, x) with 1 in the result dtype |
| SimplifyExpr.FullElementwiseBroadcastDeclines | src/relay/transforms/simplify_expr.cc:227-235 | add(zeros(), x) with x of shape [1,4] and result [4,4] is left unchanged |
| SimplifyExpr.FullElementwiseSmallFullFires | src/relay/transforms/simplify_expr.cc:235-252 | multiply(full(5), x) with x of the result type becomes multiply(5, x) whatever shape the full operand has |
| SimplifyExpr.ExprSimplifier.constructor | src/relay/transforms/simplify_expr.cc:276-280 | the callbacks are the reshape, full-elementwise and conv-pad rules, in that order, each requiring inferred types |
| SimplifyExpr.ExprSimplifier.CreateCallback | src/relay/transforms/simplify_expr.cc:281-290 | appends one callback for the rule's pattern and leaves the earlier ones in place |
| QuantizeRewrite.Identity | python/tvm/relay/transform/quantize/_quantize_rewrite.py:22-23 | the identity rewrite returns the call it is given, whatever the scale and zero point |
| QuantizeRewrite.ReluQuantizeRewrite | python/tvm/relay/transform/quantize/_quantize_rewrite.py:55-58 | relu(i) becomes maximum(i, cast_like(zero point, i)); fails exactly when the node has no first argument |
| QuantizeRewrite.ApplyRewrite | python/tvm/relay/transform/quantize/_quantize_rewrite.py:22-58 | an operator registered with identity comes back unchanged; relu goes through the relu rewrite |
| QuantizeRewrite.IdentityOpsDistinct | python/tvm/relay/transform/quantize/_quantize_rewrite.py:26-52 | the 27 identity registrations name 27 distinct operators, none of them relu |
| QuantizeRewrite.RegistryContents | python/tvm/relay/transform/quantize/_quantize_rewrite.py:26-58 | an operator has a rewrite exactly when it is one of the identity operators or nn.relu, and only nn.relu has a rewrite other than the identity |
| QuantizeRewrite.RewriteIgnoresScale | python/tvm/relay/transform/quantize/_quantize_rewrite.py:22-58 | no registered rewrite depends on the scale |
| Requantize.IsOp | src/relay/transforms/requantize.cc:39-46 | true exactly for a call of the given operator |
| Requantize.CallsOpIsOp | src/relay/transforms/requantize.cc:39-46 | testing a graph node's operator is the same as applying is_op to the expression the node stands for |
| Requantize.FindQuantizeUser | src/relay/transforms/requantize.cc:81-97 | a found node is a quantize at or after the start node; a quantize finds itself |
| Requantize.FindQuantizeUserComplete | src/relay/transforms/requantize.cc:81-97 | when every walk along users from a node stops only at quantize q and passes only through calls with a quantize rewrite and at least one user, the search from that node finds q |
| Requantize.FindQuantizeUserExactly | src/relay/transforms/requantize.cc:81-97 | the search from a node finds q if and only if q is a quantize and every walk along users from the node stops only at q and passes only through calls with a quantize rewrite and a user |
| Requantize.FindsSomeQuantize | src/relay/transforms/requantize.cc:81-97 | the search succeeds exactly when some quantize is the only one the walks from the node can reach that way |
| Requantize.RemovableDequantizeWalks | src/relay/transforms/requantize.cc:55-68 | a dequantize is removable if and only if, from each of its users, the walks along users all reach one quantize through calls with a quantize rewrite |
| Requantize.FoundOnEveryPath | src/relay/transforms/requantize.cc:81-97 | the found quantize lies on every walk along users that does not pass through a quantize: each node on the walk finds it, and the only quantize such a walk can stop at is that one |
| Requantize.FirstUserPathReaches | src/relay/transforms/requantize.cc:81-97 | the found quantize is reached by following first users |
| Requantize.FoundByEveryUser | src/relay/transforms/requantize.cc:89-96 | when a node that is not a quantize finds a quantize, each of its users finds that same quantize |
| Requantize.Terminations | src/relay/transforms/requantize.cc:56-67 | one terminating quantize per user: the one that user finds |
| Requantize.TerminationsFound | src/relay/transforms/requantize.cc:68-73 | a quantize is marked by a removable dequantize exactly when one of its users finds it |
| Requantize.PairsFrom | src/relay/transforms/requantize.cc:53-75 | the pairs recorded from node lo on hold only nodes after lo, each paired with argument 0 |
| Requantize.RemovableFrom | src/relay/transforms/requantize.cc:53-75 | the quantizes marked removable from node lo on are quantize calls after lo |
| Requantize.PairsFromStep | src/relay/transforms/requantize.cc:53-75 | visiting a removable dequantize adds its users' pairs and its terminating quantizes to what the later nodes recorded; any other node adds nothing |
| Requantize.UserPairs | src/relay/transforms/requantize.cc:68-73 | the pairs of a removable dequantize have exactly its users as keys, each with argument 0 and one of the terminating quantizes |
| Requantize.UserPairsAt | src/relay/transforms/requantize.cc:69-70 | a user's pair holds the terminating quantize recorded for one of its occurrences among the users |
| Requantize.UserQuantizes | src/relay/transforms/requantize.cc:69-71 | a removable dequantize marks exactly the terminating quantizes |
| Requantize.PairsFromKeys | src/relay/transforms/requantize.cc:53-75 | a node is paired exactly when it is a user of some removable dequantize |
| Requantize.PairsFromValues | src/relay/transforms/requantize.cc:68-73 | a paired node is paired with argument 0 and with the quantize it finds |
| Requantize.RemovableFromContents | src/relay/transforms/requantize.cc:53-75 | a quantize is removable exactly when some user of a removable dequantize finds it |
| Requantize.NothingRemovableNoPairs | src/relay/transforms/requantize.cc:53-75 | without a removable dequantize nothing is paired or removable |
| Requantize.PairsFromWellFormed | src/relay/transforms/requantize.cc:68-73 | every paired node and every quantize it is paired with lies in the graph, and every recorded quantize is a quantize call |
| Requantize.ParamsOf | src/relay/transforms/requantize.cc:119-125 | the scale and zero point are the quantize's second and third arguments, the axis and dtype its attributes |
| Requantize.QuantizeArg | src/relay/transforms/requantize.cc:121-129 | only the paired argument is wrapped in the quantize; the others and the argument count are unchanged |
| Requantize.RewriteStep | src/relay/transforms/requantize.cc:111-145 | the parent stays a quantize node; a paired call makes its quantize the parent; otherwise the parent changes only when a dequantize clears it; an unpaired removable quantize becomes its data input; an unpaired, unremovable call outside a quantized region or without a rewrite is kept as rebuilt; only a relu call without arguments fails |
| Requantize.RewriteStepPairedIdentity | src/relay/transforms/requantize.cc:114-135 | a paired call is rebuilt with only argument pair.first wrapped in a quantize carrying the terminating quantize's scale, zero point, axis and output dtype; an identity operator, or one without a rewrite, returns that call |
| Requantize.RewriteStepPairedRelu | src/relay/transforms/requantize.cc:114-135 | a paired relu call with a quantized first argument w becomes maximum(w, cast_like(zero point, w)) with the terminating quantize's parameters |
| Requantize.RewriteStepInRegion | src/relay/transforms/requantize.cc:138-140 | inside a quantized region an unpaired, unremovable call with a quantize rewrite goes through that rewrite with the parent quantize's scale and zero point |
| Requantize.RewriteStepDequantizeClears | src/relay/transforms/requantize.cc:136-144 | an unpaired dequantize that is not removable is kept as rebuilt and clears the parent quantize, whatever the parent was |
| Requantize.MutateUpTo | src/relay/transforms/requantize.cc:111-145 | after a successful visit of nodes 0 .. i-1 there is one rewritten expression per node and the current parent, if any, is a quantize node; a failure comes from a relu call without arguments among those nodes |
| Requantize.MutateUpToLeaves | src/relay/transforms/requantize.cc:107-111 | only calls are rewritten: a run of non-call nodes is appended as it is and leaves the parent quantize unchanged |
| Requantize.MutateUpToRemoved | src/relay/transforms/requantize.cc:136-137 | an unpaired removable quantize is replaced by its rewritten data input and leaves the parent quantize unchanged |
| Requantize.MutateUpToDequantize | src/relay/transforms/requantize.cc:141-144 | visiting an unpaired, non-removable dequantize appends it as rebuilt and leaves no parent quantize |
| Requantize.MutateUpToOutsideRegion | src/relay/transforms/requantize.cc:136-144 | with no parent quantize, an unpaired, non-removable call is only rebuilt, so after such a dequantize a registered operator is no longer rewritten until the next paired call |
| Requantize.MutateUpToFatal | src/relay/transforms/requantize.cc:77 | a failed rewrite ends the pass: every longer prefix fails with the same reason |
| Requantize.MutateUpToUnchanged | src/relay/transforms/requantize.cc:111-145 | with nothing paired or removable every node is rebuilt as the expression it stands for and no quantize becomes current |
| Requantize.RequantizeGraph | src/relay/transforms/requantize.cc:50-78 | the whole pass, analysis then rewrite of the root, fails only when the graph holds a relu call without arguments |
| Requantize.NothingRemovableUnchanged | src/relay/transforms/requantize.cc:50-78 | a graph without a removable dequantize comes out unchanged |
| Requantize.ChainAnalysis | src/relay/transforms/requantize.cc:53-75 | on dequantize → op → quantize with op registered, op is paired with the quantize and the quantize is removable |
| Requantize.ChainMutation | src/relay/transforms/requantize.cc:111-145 | on that chain the result is op's rewrite applied to op over the quantized dequantize, with the quantize's scale and zero point |
| Requantize.ReluChain | tests/python/relay/quantize/test_quantize_rewrite.py:52-61 | dequantize → relu → quantize becomes maximum(q, cast_like(zero point, q)), with q the dequantize quantized by the final parameters |
| Requantize.IdentityChain | tests/python/relay/quantize/test_quantize_rewrite.py:97-104 | dequantize → op → quantize with op an identity operator becomes op applied to the quantized dequantize |
| Requantize.DirectQuantizeWrapsTwice | src/relay/transforms/requantize.cc:114-135 | when a dequantize feeds a quantize directly, the quantize is paired with itself and the result quantizes its input twice |
| Requantize.QuantizeNotRegistered | python/tvm/relay/transform/quantize/_quantize_rewrite.py:26-58 | neither qnn.quantize nor qnn.dequantize has a quantize rewrite |
| Requantize.Requantizer.constructor | src/relay/transforms/requantize.cc:98-105 | starts with no pairs and no removable quantizes |
| Requantize.Requantizer.FindTerminations | src/relay/transforms/requantize.cc:56-67 | removable exactly when every user finds a quantize, and then the i-th terminating quantize is the one the i-th user finds |
| Requantize.Requantizer.RecordPairs | src/relay/transforms/requantize.cc:68-73 | adds exactly the dequantize's user pairs and found quantizes to the recorded state |
| Requantize.Requantizer.Visit | src/relay/transforms/requantize.cc:54-74 | visiting node i turns the state recorded for the nodes after i into the state recorded for the nodes from i on |
| Requantize.Requantizer.Analyze | src/relay/transforms/requantize.cc:53-75 | the reverse topological loop leaves exactly the pairs and removable quantizes of the whole graph |
| Requantize.Requantizer.Requantize | src/relay/transforms/requantize.cc:50-78 | the recorded state is PairsFrom/RemovableFrom of the whole graph, and the result is the mutator's rewrite of the root |
| Requantize.RequantizeMutator.constructor | src/relay/transforms/requantize.cc:109 | starts without a current parent quantize |
| Requantize.RequantizeMutator.Rewrite | src/relay/transforms/requantize.cc:111-145 | the rewritten call and the new parent quantize are those of RewriteStep (so the paired, removable, in-region and unchanged outputs of RewriteStepPairedIdentity, RewriteStepPairedRelu, RewriteStepInRegion and RewriteStep hold for it), and the parent stays a quantize node |
| Requantize.RequantizeMutator.Visit | src/relay/transforms/requantize.cc:111-145 | visiting node i extends the rewritten nodes and the parent quantize exactly as MutateUpTo does, or fails as it does |
| Requantize.RequantizeMutator.Mutate | src/relay/transforms/requantize.cc:77 | visiting every node inputs first yields MutateUpTo's rewrite of the root, or its failure |

## Left out

- The dataflow-pattern matcher and the `RewritePatterns` driver are not part of this model. A callback receives an explicit record of what the matcher bound: `ReshapeMatch`, `ConvPadMatch` or `FullElementwiseMatch`. The simplifier's `Simplify` and the pass registration are left out with them.
- Type inference is not modelled. Inferred types come in as a `typeOf` function, and `StructuralEqual` on types is Dafny equality.
- SimplifyExpr.FullElementwiseCallback: decides which side `x` is on by structural equality. The source compares object identity. The two differ only when a distinct node equal to `x` sits in the other operand position.
- IR constructors (`MakeReshape`, `MakeQuantize`, `maximum`, `cast_like`, `MakeConstantScalar`) build the call node they stand for. The types of the nodes they build are not inferred.
- Pad and convolution paddings are integers, not symbolic `PrimExpr`s. The pad value is a real number compared with 0.0; floating-point semantics are not modelled.
- The registration mechanism (`register_quantize_rewrite`, the operator attribute map, the FFI call into Python) is a Dafny map. Only the fact that no operator is registered twice is kept.
- The Python wrapper's skip list is not part of the core C++ entry point and is not modelled.
- Building the indexed graph from an expression is not modelled. The graph comes in as a topologically ordered arena, and the expression is its last node. The mutator's visit order is the topological order, and memoisation is implicit in the arena.
- Nodes other than calls are leaves of the requantize graph. Tuples, functions and their inputs are not rewritten through.
- A call whose callee is not an operator would fail the `Downcast<Op>` in the source. Here a callee is always an operator name, so that failure is not modelled.
- Requantize.Valid: requires every quantize call to have three arguments and quantize attributes, as type-checked IR does. The source reads them unchecked.
- Requantize.Requantizer.Requantize: requires a non-empty graph. Every expression has at least one node.

The example graphs `ChainGraph` and `DirectGraph` take their data, scales and zero points as parameters. Any non-call expressions may stand there, so each example lemma covers every such graph.
