/**
 * Pushing quantization through the graph. An analysis over an indexed DAG
 * pairs each qnn.dequantize with the qnn.quantize its outputs reach through
 * operators that have a quantize rewrite; a mutator then quantizes the input
 * of each paired call, drops the terminating quantizes and rewrites the
 * operators in between to work on quantized data.
 */
module Requantize {
  import opened IR
  import QR = QuantizeRewrite

  const QuantizeOp: string := "qnn.quantize"
  const DequantizeOp: string := "qnn.dequantize"

  /** `node` is a call of operator `op`. */
  function IsOp(node: Expr, op: string): (r: bool)
    ensures r <==> node.Call? && node.op == op
  {
    match node
    case Call(callee, _, _, _, _) => callee == op
    case _ => false
  }

  // ---------------------------------------------------------------------
  // The indexed graph

  /** What a graph node refers to: a call, whose arguments are other nodes
      given by their position, or a node without graph inputs. */
  datatype NodeRef =
    | LeafRef(expr: Expr)
    | CallRef(op: string, args: seq<nat>, attrs: Attrs, typeArgs: seq<Type>, span: Span)

  /** A graph node: what it refers to and the positions of the nodes that use it. */
  datatype Node = Node(ref: NodeRef, outputs: seq<nat>)

  /** The nodes in topological order: every node comes after its inputs. */
  datatype IndexedGraph = IndexedGraph(nodes: seq<Node>)

  /** A well-formed, type-checked graph: inputs come earlier, users come later,
      leaves are not calls, and every quantize call has its three inputs and
      quantize attributes. */
  predicate Valid(g: IndexedGraph)
  {
    && (forall i, k :: 0 <= i < |g.nodes| && g.nodes[i].ref.CallRef? && 0 <= k < |g.nodes[i].ref.args| ==>
          g.nodes[i].ref.args[k] < i)
    && (forall i, k :: 0 <= i < |g.nodes| && 0 <= k < |g.nodes[i].outputs| ==>
          i < g.nodes[i].outputs[k] < |g.nodes|)
    && (forall i :: 0 <= i < |g.nodes| && g.nodes[i].ref.LeafRef? ==> !g.nodes[i].ref.expr.Call?)
    && (forall i :: 0 <= i < |g.nodes| && g.nodes[i].ref.CallRef? && g.nodes[i].ref.op == QuantizeOp ==>
          |g.nodes[i].ref.args| == 3 && g.nodes[i].ref.attrs.QuantizeAttrs?)
  }

  /** Node i is a call of operator `op` (the `is_op` test applied to the
      node's expression; see CallsOpIsOp). */
  predicate CallsOp(g: IndexedGraph, i: nat, op: string)
    requires i < |g.nodes|
  {
    g.nodes[i].ref.CallRef? && g.nodes[i].ref.op == op
  }

  /** The expression node i stands for. */
  function Ref(g: IndexedGraph, i: nat): (r: Expr)
    requires Valid(g) && i < |g.nodes|
    ensures g.nodes[i].ref.LeafRef? ==> r == g.nodes[i].ref.expr
    ensures g.nodes[i].ref.CallRef? ==>
              r.Call? && r.op == g.nodes[i].ref.op && |r.args| == |g.nodes[i].ref.args| &&
              r.attrs == g.nodes[i].ref.attrs
    decreases i
  {
    match g.nodes[i].ref
    case LeafRef(e) => e
    case CallRef(op, args, attrs, typeArgs, span) =>
      Call(op, seq(|args|, k requires 0 <= k < |args| => Ref(g, args[k])), attrs, typeArgs, span)
  }

  /** Testing a node's operator is testing the expression it stands for. */
  lemma CallsOpIsOp(g: IndexedGraph, i: nat, op: string)
    requires Valid(g) && i < |g.nodes|
    ensures CallsOp(g, i, op) <==> IsOp(Ref(g, i), op)
  {
  }

  // ---------------------------------------------------------------------
  // Analysis

  /** The quantize that every path from node i reaches through operators
      with a quantize rewrite: node i itself if it is a quantize; nothing for
      a non-call, an operator without a rewrite or a node without users;
      otherwise what its first user reaches, provided every other user
      reaches the very same node. */
  function FindQuantizeUser(g: IndexedGraph, i: nat): (r: Option<nat>)
    requires Valid(g) && i < |g.nodes|
    ensures r.Some? ==> i <= r.value < |g.nodes| && CallsOp(g, r.value, QuantizeOp)
    ensures CallsOp(g, i, QuantizeOp) ==> r == Some(i)
    decreases |g.nodes| - i
  {
    var node := g.nodes[i].ref;
    var outputs := g.nodes[i].outputs;
    if CallsOp(g, i, QuantizeOp) then Some(i)
    else if !node.CallRef? || !QR.IsRegistered(node.op) || |outputs| == 0 then None
    else
      var out := FindQuantizeUser(g, outputs[0]);
      if forall k :: 1 <= k < |outputs| ==> FindQuantizeUser(g, outputs[k]) == out then out
      else None
  }

  /** A walk from path[0] along users, never passing through a quantize. */
  predicate IsUserPath(g: IndexedGraph, path: seq<nat>)
  {
    && |path| >= 1
    && (forall k :: 0 <= k < |path| ==> path[k] < |g.nodes|)
    && (forall k :: 0 <= k < |path| - 1 ==>
          path[k + 1] in g.nodes[path[k]].outputs && !CallsOp(g, path[k], QuantizeOp))
  }

  /** The quantize found from node i lies on every walk along users: each
      walk from i keeps finding it, and the only quantize a walk can stop
      at is that one. */
  lemma {:induction false} FoundOnEveryPath(g: IndexedGraph, path: seq<nat>, q: nat)
    requires Valid(g) && IsUserPath(g, path)
    requires FindQuantizeUser(g, path[0]) == Some(q)
    ensures FindQuantizeUser(g, path[|path| - 1]) == Some(q)
    ensures CallsOp(g, path[|path| - 1], QuantizeOp) ==> path[|path| - 1] == q
    decreases |path|
  {
    if |path| > 1 {
      var outputs := g.nodes[path[0]].outputs;
      var k :| 0 <= k < |outputs| && outputs[k] == path[1];
      FoundByEveryUser(g, path[0], k);
      var rest := path[1..];
      assert forall t :: 0 <= t < |rest| ==> rest[t] == path[t + 1];
      assert IsUserPath(g, rest);
      FoundOnEveryPath(g, rest, q);
    }
  }

  /** When a node that is not itself a quantize finds a quantize, each of
      its users finds that same quantize. */
  lemma FoundByEveryUser(g: IndexedGraph, i: nat, k: nat)
    requires Valid(g) && i < |g.nodes| && !CallsOp(g, i, QuantizeOp)
    requires FindQuantizeUser(g, i).Some? && k < |g.nodes[i].outputs|
    ensures FindQuantizeUser(g, g.nodes[i].outputs[k]) == FindQuantizeUser(g, i)
  {
    var outputs := g.nodes[i].outputs;
    var out := FindQuantizeUser(g, outputs[0]);
    assert FindQuantizeUser(g, i) == out;
    if k > 0 {
      assert 1 <= k < |outputs|;
    }
  }

  /** The walk that follows each node's first user until it meets a
      quantize, an operator without a rewrite or a node without users. */
  function FirstUserPath(g: IndexedGraph, i: nat): (path: seq<nat>)
    requires Valid(g) && i < |g.nodes|
    ensures |path| >= 1 && path[0] == i
    ensures IsUserPath(g, path)
    decreases |g.nodes| - i
  {
    var node := g.nodes[i].ref;
    if CallsOp(g, i, QuantizeOp) || !node.CallRef? || !QR.IsRegistered(node.op) || |g.nodes[i].outputs| == 0 then [i]
    else
      var rest := FirstUserPath(g, g.nodes[i].outputs[0]);
      assert forall t :: 0 <= t < |rest| - 1 ==> ([i] + rest)[t + 1] == rest[t];
      [i] + rest
  }

  /** The quantize found from node i is reached: the first-user walk ends at it. */
  lemma {:induction false} FirstUserPathReaches(g: IndexedGraph, i: nat, q: nat)
    requires Valid(g) && i < |g.nodes|
    requires FindQuantizeUser(g, i) == Some(q)
    ensures var path := FirstUserPath(g, i); path[|path| - 1] == q
    decreases |g.nodes| - i
  {
    if !CallsOp(g, i, QuantizeOp) {
      FirstUserPathReaches(g, g.nodes[i].outputs[0], q);
    }
  }

  /** Node j can end or extend a walk that finds q: it is the quantize q
      itself, or a call with a quantize rewrite and at least one user. */
  predicate Continues(g: IndexedGraph, j: nat, q: nat)
    requires j < |g.nodes|
  {
    if CallsOp(g, j, QuantizeOp) then j == q
    else g.nodes[j].ref.CallRef? && QR.IsRegistered(g.nodes[j].ref.op) && |g.nodes[j].outputs| > 0
  }

  /** Every walk along users from i that does not pass through a quantize
      ends at a node of `ends`. */
  ghost predicate WalksEndIn(g: IndexedGraph, i: nat, ends: set<nat>)
  {
    forall path :: IsUserPath(g, path) && path[0] == i ==> path[|path| - 1] in ends
  }

  /** The nodes that can end or extend a walk that finds q. */
  function ContinuingNodes(g: IndexedGraph, q: nat): (r: set<nat>)
    ensures forall j: nat :: j in r <==> j < |g.nodes| && Continues(g, j, q)
  {
    set j: nat | j < |g.nodes| && Continues(g, j, q)
  }

  /** Every walk from i ends at a node that can end or extend it towards q. */
  ghost predicate WalksReachOnly(g: IndexedGraph, i: nat, q: nat)
  {
    WalksEndIn(g, i, ContinuingNodes(g, q))
  }

  /** A node that finds a quantize is that quantize or a call that passes the search on. */
  lemma FoundContinues(g: IndexedGraph, j: nat, q: nat)
    requires Valid(g) && j < |g.nodes| && FindQuantizeUser(g, j) == Some(q)
    ensures Continues(g, j, q)
  {
    if !CallsOp(g, j, QuantizeOp) {
      var node := g.nodes[j].ref;
      assert node.CallRef? && QR.IsRegistered(node.op) && |g.nodes[j].outputs| > 0;
    }
  }

  /** The walks from a user of a node that is not a quantize are the walks
      from that node, with the node taken off their front. */
  lemma WalksEndInUser(g: IndexedGraph, i: nat, k: nat, ends: set<nat>)
    requires Valid(g) && i < |g.nodes| && !CallsOp(g, i, QuantizeOp) && k < |g.nodes[i].outputs|
    requires WalksEndIn(g, i, ends)
    ensures WalksEndIn(g, g.nodes[i].outputs[k], ends)
  {
    var o := g.nodes[i].outputs[k];
    forall path | IsUserPath(g, path) && path[0] == o
      ensures path[|path| - 1] in ends
    {
      PrependUser(g, i, path);
    }
  }

  /** A node that is not a quantize extends a walk from one of its users. */
  lemma PrependUser(g: IndexedGraph, i: nat, path: seq<nat>)
    requires Valid(g) && i < |g.nodes| && !CallsOp(g, i, QuantizeOp)
    requires IsUserPath(g, path) && path[0] in g.nodes[i].outputs
    ensures IsUserPath(g, [i] + path) && ([i] + path)[0] == i
    ensures ([i] + path)[|path|] == path[|path| - 1]
  {
    var longer := [i] + path;
    assert forall t :: 0 <= t < |path| ==> longer[t + 1] == path[t];
  }

  /** The search is complete: when every walk from i stops only at the
      quantize q and passes only through calls with a quantize rewrite and
      a user, node i finds q. */
  lemma {:induction false} FindQuantizeUserComplete(g: IndexedGraph, i: nat, q: nat)
    requires Valid(g) && i < |g.nodes| && q < |g.nodes| && CallsOp(g, q, QuantizeOp)
    requires WalksReachOnly(g, i, q)
    ensures FindQuantizeUser(g, i) == Some(q)
    decreases |g.nodes| - i
  {
    assert IsUserPath(g, [i]);
    if !CallsOp(g, i, QuantizeOp) {
      var outputs := g.nodes[i].outputs;
      forall k | 0 <= k < |outputs|
        ensures FindQuantizeUser(g, outputs[k]) == Some(q)
      {
        WalksEndInUser(g, i, k, ContinuingNodes(g, q));
        FindQuantizeUserComplete(g, outputs[k], q);
      }
      assert FindQuantizeUser(g, outputs[0]) == Some(q);
    }
  }

  /** Node i finds q exactly when q is a quantize and every walk along
      users from i stops only at q and passes only through calls with a
      quantize rewrite and a user. */
  lemma FindQuantizeUserExactly(g: IndexedGraph, i: nat, q: nat)
    requires Valid(g) && i < |g.nodes|
    ensures FindQuantizeUser(g, i) == Some(q) <==>
              q < |g.nodes| && CallsOp(g, q, QuantizeOp) && WalksReachOnly(g, i, q)
  {
    if FindQuantizeUser(g, i) == Some(q) {
      forall path | IsUserPath(g, path) && path[0] == i
        ensures path[|path| - 1] in ContinuingNodes(g, q)
      {
        FoundOnEveryPath(g, path, q);
        FoundContinues(g, path[|path| - 1], q);
      }
    } else if q < |g.nodes| && CallsOp(g, q, QuantizeOp) && WalksReachOnly(g, i, q) {
      FindQuantizeUserComplete(g, i, q);
    }
  }

  /** Node d is a dequantize whose every user finds a quantize. */
  predicate RemovableDequantize(g: IndexedGraph, d: nat)
    requires Valid(g) && d < |g.nodes|
  {
    CallsOp(g, d, DequantizeOp) &&
    forall k :: 0 <= k < |g.nodes[d].outputs| ==> FindQuantizeUser(g, g.nodes[d].outputs[k]).Some?
  }

  /** Some quantize q is such that every walk from i stops only at q and
      passes only through calls with a quantize rewrite and a user. */
  ghost predicate WalksReachSome(g: IndexedGraph, i: nat)
  {
    exists q: nat :: q < |g.nodes| && CallsOp(g, q, QuantizeOp) && WalksReachOnly(g, i, q)
  }

  /** The search from i succeeds exactly when the walks from i all reach one quantize. */
  lemma FindsSomeQuantize(g: IndexedGraph, i: nat)
    requires Valid(g) && i < |g.nodes|
    ensures FindQuantizeUser(g, i).Some? <==> WalksReachSome(g, i)
  {
    if FindQuantizeUser(g, i).Some? {
      FindQuantizeUserExactly(g, i, FindQuantizeUser(g, i).value);
    } else if WalksReachSome(g, i) {
      var q: nat :| q < |g.nodes| && CallsOp(g, q, QuantizeOp) && WalksReachOnly(g, i, q);
      FindQuantizeUserExactly(g, i, q);
    }
  }

  /** A dequantize is removable exactly when, from each of its users, every
      walk that avoids quantizes stops at one and the same quantize and
      passes only through calls with a quantize rewrite and a user. */
  lemma RemovableDequantizeWalks(g: IndexedGraph, d: nat)
    requires Valid(g) && d < |g.nodes|
    ensures RemovableDequantize(g, d) <==>
              CallsOp(g, d, DequantizeOp) &&
              forall k :: 0 <= k < |g.nodes[d].outputs| ==> WalksReachSome(g, g.nodes[d].outputs[k])
  {
    var outputs := g.nodes[d].outputs;
    forall k | 0 <= k < |outputs|
      ensures FindQuantizeUser(g, outputs[k]).Some? <==> WalksReachSome(g, outputs[k])
    {
      FindsSomeQuantize(g, outputs[k]);
    }
  }

  /** The quantizes the users of a removable dequantize find, in user order. */
  function Terminations(g: IndexedGraph, users: seq<nat>): (r: seq<nat>)
    requires Valid(g)
    requires forall k :: 0 <= k < |users| ==> users[k] < |g.nodes| && FindQuantizeUser(g, users[k]).Some?
    ensures |r| == |users|
    ensures forall k :: 0 <= k < |users| ==> FindQuantizeUser(g, users[k]) == Some(r[k])
  {
    seq(|users|, k requires 0 <= k < |users| => FindQuantizeUser(g, users[k]).value)
  }

  /** The pairs a removable dequantize records: each user, to argument 0 and
      its terminating quantize (for a user listed twice, the later entry). */
  function UserPairs(users: seq<nat>, terminating: seq<nat>): (r: map<nat, (nat, nat)>)
    requires |users| == |terminating|
    ensures forall o :: o in r <==> o in users
    ensures forall o :: o in r ==> r[o].0 == 0 && r[o].1 in terminating
  {
    if users == [] then map[]
    else
      var n := |users| - 1;
      UserPairs(users[..n], terminating[..n])[users[n] := (0, terminating[n])]
  }

  /** A recorded pair holds the terminating quantize of one occurrence of its user. */
  lemma {:induction false} UserPairsAt(users: seq<nat>, terminating: seq<nat>, o: nat)
    requires |users| == |terminating| && o in UserPairs(users, terminating)
    ensures exists k :: 0 <= k < |users| && users[k] == o && UserPairs(users, terminating)[o].1 == terminating[k]
  {
    var n := |users| - 1;
    if users[n] != o {
      UserPairsAt(users[..n], terminating[..n], o);
      var k :| 0 <= k < n && users[..n][k] == o && UserPairs(users[..n], terminating[..n])[o].1 == terminating[..n][k];
      assert users[k] == o && UserPairs(users, terminating)[o].1 == terminating[k];
    }
  }

  /** The quantizes a removable dequantize marks removable. */
  function UserQuantizes(terminating: seq<nat>): (r: set<nat>)
    ensures forall q :: q in r <==> q in terminating
  {
    if terminating == [] then {}
    else
      var n := |terminating| - 1;
      UserQuantizes(terminating[..n]) + {terminating[n]}
  }

  /** Recording one more user extends the recorded pairs and quantizes by that user's. */
  lemma UserPairsSnoc(users: seq<nat>, terminating: seq<nat>, k: nat)
    requires |users| == |terminating| && k < |users|
    ensures forall m: map<nat, (nat, nat)> ::
              m + UserPairs(users[..k + 1], terminating[..k + 1]) ==
              (m + UserPairs(users[..k], terminating[..k]))[users[k] := (0, terminating[k])]
    ensures UserQuantizes(terminating[..k + 1]) == UserQuantizes(terminating[..k]) + {terminating[k]}
  {
    assert users[..k + 1][..k] == users[..k];
    assert terminating[..k + 1][..k] == terminating[..k];
    var entry := (0, terminating[k]);
    var a := UserPairs(users[..k], terminating[..k]);
    assert UserPairs(users[..k + 1], terminating[..k + 1]) == a[users[k] := entry];
    forall m: map<nat, (nat, nat)>
      ensures m + a[users[k] := entry] == (m + a)[users[k] := entry]
    {
      assert (m + a[users[k] := entry]).Keys == (m + a)[users[k] := entry].Keys;
    }
  }

  /** The pairs recorded after visiting nodes |g.nodes|-1 down to lo. */
  function PairsFrom(g: IndexedGraph, lo: nat): (r: map<nat, (nat, nat)>)
    requires Valid(g) && lo <= |g.nodes|
    ensures forall o :: o in r ==> lo < o < |g.nodes| && r[o].0 == 0
    decreases |g.nodes| - lo
  {
    if lo == |g.nodes| then map[]
    else if RemovableDequantize(g, lo) then PairsFrom(g, lo + 1) + UserPairs(g.nodes[lo].outputs, Terminations(g, g.nodes[lo].outputs))
    else PairsFrom(g, lo + 1)
  }

  /** The removable quantizes recorded after visiting nodes |g.nodes|-1 down to lo. */
  function RemovableFrom(g: IndexedGraph, lo: nat): (r: set<nat>)
    requires Valid(g) && lo <= |g.nodes|
    ensures forall q :: q in r ==> lo < q < |g.nodes| && CallsOp(g, q, QuantizeOp)
    decreases |g.nodes| - lo
  {
    if lo == |g.nodes| then {}
    else if RemovableDequantize(g, lo) then RemovableFrom(g, lo + 1) + UserQuantizes(Terminations(g, g.nodes[lo].outputs))
    else RemovableFrom(g, lo + 1)
  }

  /** Visiting node lo adds its pairs and quantizes when it is a removable dequantize. */
  lemma PairsFromStep(g: IndexedGraph, lo: nat)
    requires Valid(g) && lo < |g.nodes|
    ensures var users := g.nodes[lo].outputs;
            RemovableDequantize(g, lo) ==>
              PairsFrom(g, lo) == PairsFrom(g, lo + 1) + UserPairs(users, Terminations(g, users)) &&
              RemovableFrom(g, lo) == RemovableFrom(g, lo + 1) + UserQuantizes(Terminations(g, users))
    ensures !RemovableDequantize(g, lo) ==>
              PairsFrom(g, lo) == PairsFrom(g, lo + 1) && RemovableFrom(g, lo) == RemovableFrom(g, lo + 1)
  {
  }

  /** What the analysis records: a node is paired exactly when it uses a
      removable dequantize at or after lo. */
  lemma {:induction false} PairsFromKeys(g: IndexedGraph, lo: nat, o: nat)
    requires Valid(g) && lo <= |g.nodes|
    ensures o in PairsFrom(g, lo) <==>
              exists d :: lo <= d < |g.nodes| && RemovableDequantize(g, d) && o in g.nodes[d].outputs
    decreases |g.nodes| - lo
  {
    if lo < |g.nodes| {
      PairsFromKeys(g, lo + 1, o);
    }
  }

  /** A paired node is paired with argument 0 and the quantize it finds. */
  lemma {:induction false} PairsFromValues(g: IndexedGraph, lo: nat, o: nat)
    requires Valid(g) && lo <= |g.nodes|
    requires o in PairsFrom(g, lo)
    ensures o < |g.nodes| && PairsFrom(g, lo)[o].0 == 0
    ensures FindQuantizeUser(g, o) == Some(PairsFrom(g, lo)[o].1)
    decreases |g.nodes| - lo
  {
    var later := PairsFrom(g, lo + 1);
    var users := g.nodes[lo].outputs;
    if RemovableDequantize(g, lo) && o in UserPairs(users, Terminations(g, users)) {
      var own := UserPairs(users, Terminations(g, users));
      assert PairsFrom(g, lo)[o] == own[o];
      UserPairsAt(users, Terminations(g, users), o);
    } else {
      assert PairsFrom(g, lo)[o] == later[o];
      PairsFromValues(g, lo + 1, o);
    }
  }

  /** The quantizes one removable dequantize marks are those its users find. */
  lemma {:induction false} TerminationsFound(g: IndexedGraph, users: seq<nat>, q: nat)
    requires Valid(g)
    requires forall k :: 0 <= k < |users| ==> users[k] < |g.nodes| && FindQuantizeUser(g, users[k]).Some?
    ensures q in UserQuantizes(Terminations(g, users)) <==>
              exists k :: 0 <= k < |users| && FindQuantizeUser(g, users[k]) == Some(q)
  {
    var terminating := Terminations(g, users);
    if q in terminating {
      var k :| 0 <= k < |terminating| && terminating[k] == q;
      assert FindQuantizeUser(g, users[k]) == Some(q);
    }
  }

  /** Some user of a removable dequantize at or after lo finds quantize q. */
  predicate FoundFrom(g: IndexedGraph, lo: nat, q: nat)
    requires Valid(g) && lo <= |g.nodes|
  {
    exists d, k :: lo <= d < |g.nodes| && RemovableDequantize(g, d) && 0 <= k < |g.nodes[d].outputs| &&
                   FindQuantizeUser(g, g.nodes[d].outputs[k]) == Some(q)
  }

  /** A quantize is marked removable exactly when a user of a removable
      dequantize at or after lo finds it. */
  lemma {:induction false} RemovableFromContents(g: IndexedGraph, lo: nat, q: nat)
    requires Valid(g) && lo <= |g.nodes|
    ensures q in RemovableFrom(g, lo) <==> FoundFrom(g, lo, q)
    decreases |g.nodes| - lo
  {
    if lo < |g.nodes| {
      RemovableFromContents(g, lo + 1, q);
      RemovableFromContentsStep(g, lo, q);
    }
  }

  lemma RemovableFromContentsStep(g: IndexedGraph, lo: nat, q: nat)
    requires Valid(g) && lo < |g.nodes|
    requires q in RemovableFrom(g, lo + 1) <==> FoundFrom(g, lo + 1, q)
    ensures q in RemovableFrom(g, lo) <==> FoundFrom(g, lo, q)
  {
    PairsFromStep(g, lo);
    var users := g.nodes[lo].outputs;
    var own := RemovableDequantize(g, lo) && exists k :: 0 <= k < |users| && FindQuantizeUser(g, users[k]) == Some(q);
    if RemovableDequantize(g, lo) {
      TerminationsFound(g, users, q);
    }
    if FoundFrom(g, lo, q) {
      var d, k :| lo <= d < |g.nodes| && RemovableDequantize(g, d) && 0 <= k < |g.nodes[d].outputs| &&
                  FindQuantizeUser(g, g.nodes[d].outputs[k]) == Some(q);
      assert d == lo ==> own;
      assert d > lo ==> FoundFrom(g, lo + 1, q);
    }
    if own {
      var k :| 0 <= k < |users| && FindQuantizeUser(g, users[k]) == Some(q);
      assert lo <= lo < |g.nodes| && RemovableDequantize(g, lo) && 0 <= k < |g.nodes[lo].outputs| &&
             FindQuantizeUser(g, g.nodes[lo].outputs[k]) == Some(q);
    }
  }

  /** Every recorded pair names a quantize node of the graph. */
  predicate PairsWellFormed(g: IndexedGraph, pairs: map<nat, (nat, nat)>, removable: set<nat>)
    requires Valid(g)
  {
    && (forall o :: o in pairs ==> o < |g.nodes| && pairs[o].1 < |g.nodes| && CallsOp(g, pairs[o].1, QuantizeOp))
    && (forall q :: q in removable ==> q < |g.nodes| && CallsOp(g, q, QuantizeOp))
  }

  // ---------------------------------------------------------------------
  // Rewriting one call

  /** The scale, zero point, axis and output dtype of a quantize node. */
  datatype QuantizeParams = QuantizeParams(scale: Expr, zeroPoint: Expr, axis: int, outDtype: DType)

  function ParamsOf(g: IndexedGraph, q: nat): (p: QuantizeParams)
    requires Valid(g) && q < |g.nodes| && CallsOp(g, q, QuantizeOp)
    ensures p.scale == Ref(g, q).args[1] && p.zeroPoint == Ref(g, q).args[2]
    ensures Ref(g, q).attrs == QuantizeAttrs(p.axis, p.outDtype)
  {
    var quantize := Ref(g, q);
    QuantizeParams(quantize.args[1], quantize.args[2], quantize.attrs.axis, quantize.attrs.outDtype)
  }

  /** `args` with the argument at `index` wrapped in a quantize with the given parameters. */
  function QuantizeArg(args: seq<Expr>, index: nat, p: QuantizeParams): (r: seq<Expr>)
    ensures |r| == |args|
    ensures index < |args| ==> r[index] == MakeQuantize(args[index], p.scale, p.zeroPoint, p.axis, p.outDtype)
    ensures forall k :: 0 <= k < |args| && k != index ==> r[k] == args[k]
  {
    seq(|args|, k requires 0 <= k < |args| =>
      if k == index then MakeQuantize(args[k], p.scale, p.zeroPoint, p.axis, p.outDtype) else args[k])
  }

  /** The result of rewriting one call, and the parent quantize afterwards. */
  datatype Step = Step(out: Outcome<Expr>, parentQuantize: Option<nat>)

  /** What the mutator does with call node i, rebuilt as `post` from its
      rewritten arguments, when `parentQuantize` is the quantize last recorded. */
  function RewriteStep(g: IndexedGraph, pairs: map<nat, (nat, nat)>, removable: set<nat>,
                       parentQuantize: Option<nat>, i: nat, post: Expr): (r: Step)
    requires Valid(g) && PairsWellFormed(g, pairs, removable)
    requires i < |g.nodes| && g.nodes[i].ref.CallRef?
    requires post.Call? && |post.args| == |g.nodes[i].ref.args|
    requires parentQuantize.Some? ==> parentQuantize.value < |g.nodes| && CallsOp(g, parentQuantize.value, QuantizeOp)
    ensures ParentWellFormed(g, r.parentQuantize)
    ensures i in pairs ==> r.parentQuantize == Some(pairs[i].1)
    ensures i !in pairs && r.parentQuantize != parentQuantize ==>
              r.parentQuantize.None? && CallsOp(g, i, DequantizeOp)
    ensures i !in pairs && i in removable ==> |post.args| == 3 && r.out == Ok(post.args[0])
    ensures i !in pairs && i !in removable && (parentQuantize.None? || !QR.IsRegistered(post.op)) ==>
              r.out == Ok(post)
    ensures r.out.Fatal? ==> post.op == QR.ReluOp && |post.args| == 0
  {
    QR.RegistryContents(post.op);
    var node := g.nodes[i].ref;
    if i in pairs then
      var (first, q) := pairs[i];
      var p := ParamsOf(g, q);
      var newPost := Call(node.op, QuantizeArg(post.args, first, p), node.attrs, [], NoSpan);
      if QR.IsRegistered(post.op) then Step(QR.ApplyRewrite(post.op, newPost, p.scale, p.zeroPoint), Some(q))
      else Step(Ok(newPost), Some(q))
    else if i in removable then
      Step(Ok(post.args[0]), parentQuantize)
    else if parentQuantize.Some? && QR.IsRegistered(post.op) then
      var p := ParamsOf(g, parentQuantize.value);
      Step(QR.ApplyRewrite(post.op, post, p.scale, p.zeroPoint), parentQuantize)
    else if node.op == DequantizeOp then
      Step(Ok(post), None)
    else
      Step(Ok(post), parentQuantize)
  }

  /** A paired call has argument `pairs[i].0` wrapped in its terminating
      quantize, with that quantize's scale, zero point, axis and output
      dtype; an identity operator, or one without a rewrite, then keeps the
      rebuilt call. */
  lemma RewriteStepPairedIdentity(g: IndexedGraph, pairs: map<nat, (nat, nat)>, removable: set<nat>,
                                  parentQuantize: Option<nat>, i: nat, post: Expr)
    requires Valid(g) && PairsWellFormed(g, pairs, removable)
    requires i < |g.nodes| && g.nodes[i].ref.CallRef?
    requires post.Call? && |post.args| == |g.nodes[i].ref.args|
    requires parentQuantize.Some? ==> parentQuantize.value < |g.nodes| && CallsOp(g, parentQuantize.value, QuantizeOp)
    requires i in pairs && (post.op in QR.IdentityOps || !QR.IsRegistered(post.op))
    ensures var p := ParamsOf(g, pairs[i].1);
            RewriteStep(g, pairs, removable, parentQuantize, i, post).out ==
              Ok(Call(g.nodes[i].ref.op, QuantizeArg(post.args, pairs[i].0, p), g.nodes[i].ref.attrs, [], NoSpan))
  {
    QR.RegistryContents(post.op);
  }

  /** A paired relu call with its quantized first argument w becomes
      maximum(w, cast_like(zero point, w)), with the terminating quantize's
      parameters. */
  lemma RewriteStepPairedRelu(g: IndexedGraph, pairs: map<nat, (nat, nat)>, removable: set<nat>,
                              parentQuantize: Option<nat>, i: nat, post: Expr)
    requires Valid(g) && PairsWellFormed(g, pairs, removable)
    requires i < |g.nodes| && g.nodes[i].ref.CallRef?
    requires post.Call? && |post.args| == |g.nodes[i].ref.args|
    requires parentQuantize.Some? ==> parentQuantize.value < |g.nodes| && CallsOp(g, parentQuantize.value, QuantizeOp)
    requires i in pairs && pairs[i].0 == 0 && post.op == QR.ReluOp && |post.args| > 0
    ensures var p := ParamsOf(g, pairs[i].1);
            var w := MakeQuantize(post.args[0], p.scale, p.zeroPoint, p.axis, p.outDtype);
            RewriteStep(g, pairs, removable, parentQuantize, i, post).out == Ok(Maximum(w, CastLike(p.zeroPoint, w)))
  {
    QR.RegistryContents(post.op);
  }

  /** Inside a quantized region, an unpaired, unremovable call with a
      quantize rewrite goes through that rewrite with the parent quantize's
      scale and zero point. */
  lemma RewriteStepInRegion(g: IndexedGraph, pairs: map<nat, (nat, nat)>, removable: set<nat>,
                            parentQuantize: Option<nat>, i: nat, post: Expr)
    requires Valid(g) && PairsWellFormed(g, pairs, removable)
    requires i < |g.nodes| && g.nodes[i].ref.CallRef?
    requires post.Call? && |post.args| == |g.nodes[i].ref.args|
    requires parentQuantize.Some? ==> parentQuantize.value < |g.nodes| && CallsOp(g, parentQuantize.value, QuantizeOp)
    requires i !in pairs && i !in removable && parentQuantize.Some? && QR.IsRegistered(post.op)
    ensures var p := ParamsOf(g, parentQuantize.value);
            RewriteStep(g, pairs, removable, parentQuantize, i, post).out == QR.ApplyRewrite(post.op, post, p.scale, p.zeroPoint)
  {
  }

  /** An unpaired dequantize that is not removable ends the quantized
      region: it is kept as rebuilt and clears the parent quantize. */
  lemma RewriteStepDequantizeClears(g: IndexedGraph, pairs: map<nat, (nat, nat)>, removable: set<nat>,
                                    parentQuantize: Option<nat>, i: nat, post: Expr)
    requires Valid(g) && PairsWellFormed(g, pairs, removable)
    requires i < |g.nodes| && g.nodes[i].ref.CallRef?
    requires post.Call? && |post.args| == |g.nodes[i].ref.args|
    requires parentQuantize.Some? ==> parentQuantize.value < |g.nodes| && CallsOp(g, parentQuantize.value, QuantizeOp)
    requires i !in pairs && i !in removable && CallsOp(g, i, DequantizeOp) && post.op == DequantizeOp
    ensures var r := RewriteStep(g, pairs, removable, parentQuantize, i, post);
            r.parentQuantize.None? && r.out == Ok(post)
  {
    QuantizeNotRegistered();
  }

  /** Node i rebuilt on the rewritten forms of its inputs. */
  function Rebuild(node: NodeRef, posts: seq<Expr>): (r: Expr)
    requires node.CallRef?
    requires forall k :: 0 <= k < |node.args| ==> node.args[k] < |posts|
    ensures r.Call? && r.op == node.op && |r.args| == |node.args|
  {
    Call(node.op, seq(|node.args|, k requires 0 <= k < |node.args| => posts[node.args[k]]),
         node.attrs, node.typeArgs, node.span)
  }

  /** The mutator's state after visiting nodes 0 .. i-1. */
  datatype MutatorState = MutatorState(posts: seq<Expr>, parentQuantize: Option<nat>)

  predicate ParentWellFormed(g: IndexedGraph, parentQuantize: Option<nat>)
    requires Valid(g)
  {
    parentQuantize.Some? ==> parentQuantize.value < |g.nodes| && CallsOp(g, parentQuantize.value, QuantizeOp)
  }

  /** Node j is a relu call without arguments, the one call the relu rewrite rejects. */
  predicate ArgumentlessRelu(g: IndexedGraph, j: nat)
    requires j < |g.nodes|
  {
    CallsOp(g, j, QR.ReluOp) && |g.nodes[j].ref.args| == 0
  }

  function MutateUpTo(g: IndexedGraph, pairs: map<nat, (nat, nat)>, removable: set<nat>, i: nat)
    : (r: Outcome<MutatorState>)
    requires Valid(g) && PairsWellFormed(g, pairs, removable) && i <= |g.nodes|
    ensures r.Ok? ==> |r.value.posts| == i && ParentWellFormed(g, r.value.parentQuantize)
    ensures r.Fatal? ==> exists j: nat :: j < i && ArgumentlessRelu(g, j)
  {
    if i == 0 then Ok(MutatorState([], None))
    else
      match MutateUpTo(g, pairs, removable, i - 1)
      case Fatal(reason) => Fatal(reason)
      case Ok(state) =>
        match g.nodes[i - 1].ref
        case LeafRef(e) => Ok(MutatorState(state.posts + [e], state.parentQuantize))
        case CallRef(_, _, _, _, _) =>
          var step := RewriteStep(g, pairs, removable, state.parentQuantize, i - 1,
                                  Rebuild(g.nodes[i - 1].ref, state.posts));
          match step.out
          case Fatal(reason) =>
            assert ArgumentlessRelu(g, i - 1);
            Fatal(reason)
          case Ok(e) => Ok(MutatorState(state.posts + [e], step.parentQuantize))
  }

  /** One more leaf is kept as it is. */
  lemma MutateUpToLeaf(g: IndexedGraph, pairs: map<nat, (nat, nat)>, removable: set<nat>, i: nat, state: MutatorState)
    requires Valid(g) && PairsWellFormed(g, pairs, removable) && i < |g.nodes| && g.nodes[i].ref.LeafRef?
    requires MutateUpTo(g, pairs, removable, i) == Ok(state)
    ensures MutateUpTo(g, pairs, removable, i + 1) == Ok(MutatorState(state.posts + [g.nodes[i].ref.expr], state.parentQuantize))
  {
  }

  /** One more call: it is rebuilt on the rewritten inputs and rewritten. */
  lemma MutateUpToCall(g: IndexedGraph, pairs: map<nat, (nat, nat)>, removable: set<nat>, i: nat, state: MutatorState)
    requires Valid(g) && PairsWellFormed(g, pairs, removable) && i < |g.nodes| && g.nodes[i].ref.CallRef?
    requires MutateUpTo(g, pairs, removable, i) == Ok(state)
    ensures var step := RewriteStep(g, pairs, removable, state.parentQuantize, i, Rebuild(g.nodes[i].ref, state.posts));
            MutateUpTo(g, pairs, removable, i + 1) ==
              if step.out.Fatal? then Fatal(step.out.reason)
              else Ok(MutatorState(state.posts + [step.out.value], step.parentQuantize))
  {
  }

  /** A removable quantize that is not paired is replaced by its rewritten
      data input. */
  lemma MutateUpToRemoved(g: IndexedGraph, pairs: map<nat, (nat, nat)>, removable: set<nat>, i: nat, state: MutatorState)
    requires Valid(g) && PairsWellFormed(g, pairs, removable) && i < |g.nodes|
    requires i in removable && i !in pairs
    requires MutateUpTo(g, pairs, removable, i) == Ok(state)
    ensures g.nodes[i].ref.CallRef? && |g.nodes[i].ref.args| == 3 && g.nodes[i].ref.args[0] < |state.posts|
    ensures MutateUpTo(g, pairs, removable, i + 1) ==
            Ok(MutatorState(state.posts + [state.posts[g.nodes[i].ref.args[0]]], state.parentQuantize))
  {
    MutateUpToCall(g, pairs, removable, i, state);
  }

  /** Visiting an unpaired dequantize that is not removable appends it as
      rebuilt and leaves no parent quantize. */
  lemma MutateUpToDequantize(g: IndexedGraph, pairs: map<nat, (nat, nat)>, removable: set<nat>, i: nat, state: MutatorState)
    requires Valid(g) && PairsWellFormed(g, pairs, removable) && i < |g.nodes|
    requires CallsOp(g, i, DequantizeOp) && i !in pairs && i !in removable
    requires MutateUpTo(g, pairs, removable, i) == Ok(state)
    ensures MutateUpTo(g, pairs, removable, i + 1) ==
            Ok(MutatorState(state.posts + [Rebuild(g.nodes[i].ref, state.posts)], None))
  {
    MutateUpToCall(g, pairs, removable, i, state);
    RewriteStepDequantizeClears(g, pairs, removable, state.parentQuantize, i, Rebuild(g.nodes[i].ref, state.posts));
  }

  /** Outside a quantized region an unpaired call that is not removable is
      only rebuilt: no registered rewrite is applied to it, and there is
      still no parent quantize. */
  lemma MutateUpToOutsideRegion(g: IndexedGraph, pairs: map<nat, (nat, nat)>, removable: set<nat>, i: nat, state: MutatorState)
    requires Valid(g) && PairsWellFormed(g, pairs, removable) && i < |g.nodes| && g.nodes[i].ref.CallRef?
    requires i !in pairs && i !in removable
    requires MutateUpTo(g, pairs, removable, i) == Ok(state) && state.parentQuantize.None?
    ensures MutateUpTo(g, pairs, removable, i + 1) ==
            Ok(MutatorState(state.posts + [Rebuild(g.nodes[i].ref, state.posts)], None))
  {
    MutateUpToCall(g, pairs, removable, i, state);
  }

  /** A failure stops the pass: it is the outcome of every longer prefix. */
  lemma {:induction false} MutateUpToFatal(g: IndexedGraph, pairs: map<nat, (nat, nat)>, removable: set<nat>, i: nat, j: nat)
    requires Valid(g) && PairsWellFormed(g, pairs, removable) && i <= j <= |g.nodes|
    requires MutateUpTo(g, pairs, removable, i).Fatal?
    ensures MutateUpTo(g, pairs, removable, j) == MutateUpTo(g, pairs, removable, i)
    decreases j - i
  {
    if i < j {
      MutateUpToFatal(g, pairs, removable, i, j - 1);
    }
  }

  /** `posts` is `prefix` followed by the expressions of leaves i .. j-1. */
  predicate LeavesKept(g: IndexedGraph, posts: seq<Expr>, prefix: seq<Expr>, i: nat, j: nat)
    requires i <= j <= |g.nodes|
  {
    && |posts| == j && posts[..i] == prefix
    && forall k :: i <= k < j ==> g.nodes[k].ref.LeafRef? && posts[k] == g.nodes[k].ref.expr
  }

  lemma LeavesKeptSnoc(g: IndexedGraph, posts: seq<Expr>, prefix: seq<Expr>, i: nat, j: nat)
    requires i < j <= |g.nodes| && g.nodes[j - 1].ref.LeafRef?
    requires LeavesKept(g, posts, prefix, i, j - 1)
    ensures LeavesKept(g, posts + [g.nodes[j - 1].ref.expr], prefix, i, j)
  {
    var longer := posts + [g.nodes[j - 1].ref.expr];
    assert longer[..i] == posts[..i];
  }

  /** A run of leaves i .. j-1 is appended to the rewritten nodes as it is. */
  lemma {:induction false} MutateUpToLeaves(g: IndexedGraph, pairs: map<nat, (nat, nat)>, removable: set<nat>,
                                            i: nat, j: nat, state: MutatorState)
    requires Valid(g) && PairsWellFormed(g, pairs, removable) && i <= j <= |g.nodes|
    requires forall k :: i <= k < j ==> g.nodes[k].ref.LeafRef?
    requires MutateUpTo(g, pairs, removable, i) == Ok(state)
    ensures var r := MutateUpTo(g, pairs, removable, j);
            r.Ok? && r.value.parentQuantize == state.parentQuantize && LeavesKept(g, r.value.posts, state.posts, i, j)
    decreases j - i
  {
    if i < j {
      MutateUpToLeaves(g, pairs, removable, i, j - 1, state);
      var before := MutateUpTo(g, pairs, removable, j - 1).value;
      MutateUpToLeaf(g, pairs, removable, j - 1, before);
      var after := MutatorState(before.posts + [g.nodes[j - 1].ref.expr], before.parentQuantize);
      assert MutateUpTo(g, pairs, removable, j) == Ok(after);
      LeavesKeptSnoc(g, before.posts, state.posts, i, j);
    } else {
      assert state.posts[..i] == state.posts;
    }
  }

  /** The whole pass on a non-empty graph: analysis, then the rewritten root. */
  function RequantizeGraph(g: IndexedGraph): (r: Outcome<Expr>)
    requires Valid(g) && |g.nodes| > 0
    ensures r.Fatal? ==> exists j: nat :: j < |g.nodes| && ArgumentlessRelu(g, j)
  {
    PairsFromWellFormed(g, 0);
    match MutateUpTo(g, PairsFrom(g, 0), RemovableFrom(g, 0), |g.nodes|)
    case Fatal(reason) => Fatal(reason)
    case Ok(state) => Ok(state.posts[|g.nodes| - 1])
  }

  lemma {:induction false} PairsFromWellFormed(g: IndexedGraph, lo: nat)
    requires Valid(g) && lo <= |g.nodes|
    ensures PairsWellFormed(g, PairsFrom(g, lo), RemovableFrom(g, lo))
    decreases |g.nodes| - lo
  {
    if lo < |g.nodes| {
      PairsFromWellFormed(g, lo + 1);
      PairsFromWellFormedStep(g, lo);
    }
  }

  /** Visiting one more node keeps the records well formed. */
  lemma PairsFromWellFormedStep(g: IndexedGraph, lo: nat)
    requires Valid(g) && lo < |g.nodes|
    requires PairsWellFormed(g, PairsFrom(g, lo + 1), RemovableFrom(g, lo + 1))
    ensures PairsWellFormed(g, PairsFrom(g, lo), RemovableFrom(g, lo))
  {
    PairsFromStep(g, lo);
    if RemovableDequantize(g, lo) {
      var users := g.nodes[lo].outputs;
      var terminating := Terminations(g, users);
      UserPairsWellFormed(g, users, terminating);
      UnionWellFormed(g, PairsFrom(g, lo + 1), RemovableFrom(g, lo + 1),
                      UserPairs(users, terminating), UserQuantizes(terminating));
    }
  }

  /** The pairs and quantizes one removable dequantize records are well formed. */
  lemma UserPairsWellFormed(g: IndexedGraph, users: seq<nat>, terminating: seq<nat>)
    requires Valid(g)
    requires forall k :: 0 <= k < |users| ==> users[k] < |g.nodes| && FindQuantizeUser(g, users[k]).Some?
    requires terminating == Terminations(g, users)
    ensures PairsWellFormed(g, UserPairs(users, terminating), UserQuantizes(terminating))
  {
    assert forall q :: q in terminating ==> q < |g.nodes| && CallsOp(g, q, QuantizeOp);
  }

  /** Joining well-formed records keeps them well formed. */
  lemma UnionWellFormed(g: IndexedGraph, pairs1: map<nat, (nat, nat)>, removable1: set<nat>,
                        pairs2: map<nat, (nat, nat)>, removable2: set<nat>)
    requires Valid(g) && PairsWellFormed(g, pairs1, removable1) && PairsWellFormed(g, pairs2, removable2)
    ensures PairsWellFormed(g, pairs1 + pairs2, removable1 + removable2)
  {
  }

  /** With no removable dequantize the analysis records nothing. */
  lemma {:induction false} NothingRemovableNoPairs(g: IndexedGraph, lo: nat)
    requires Valid(g) && lo <= |g.nodes|
    requires forall d :: lo <= d < |g.nodes| ==> !RemovableDequantize(g, d)
    ensures PairsFrom(g, lo) == map[] && RemovableFrom(g, lo) == {}
    decreases |g.nodes| - lo
  {
    if lo < |g.nodes| {
      NothingRemovableNoPairs(g, lo + 1);
    }
  }

  /** With nothing recorded, every node is rebuilt as the expression it
      stands for and no quantize is ever current. */
  lemma {:induction false} MutateUpToUnchanged(g: IndexedGraph, i: nat)
    requires Valid(g) && i <= |g.nodes|
    ensures PairsWellFormed(g, map[], {})
    ensures var r := MutateUpTo(g, map[], {}, i);
            r.Ok? && r.value.parentQuantize == None &&
            forall k :: 0 <= k < i ==> r.value.posts[k] == Ref(g, k)
  {
    if i > 0 {
      MutateUpToUnchanged(g, i - 1);
      var state := MutateUpTo(g, map[], {}, i - 1).value;
      var node := g.nodes[i - 1].ref;
      if node.LeafRef? {
        MutateUpToLeaf(g, map[], {}, i - 1, state);
      } else {
        MutateUpToCall(g, map[], {}, i - 1, state);
        var post := Rebuild(node, state.posts);
        assert post.args == seq(|node.args|, k requires 0 <= k < |node.args| => Ref(g, node.args[k]));
        assert post == Ref(g, i - 1);
      }
    }
  }

  /** A graph in which no dequantize is removable comes out unchanged. */
  lemma NothingRemovableUnchanged(g: IndexedGraph)
    requires Valid(g) && |g.nodes| > 0
    requires forall d :: 0 <= d < |g.nodes| ==> !RemovableDequantize(g, d)
    ensures RequantizeGraph(g) == Ok(Ref(g, |g.nodes| - 1))
  {
    NothingRemovableNoPairs(g, 0);
    MutateUpToUnchanged(g, |g.nodes|);
  }

  // ---------------------------------------------------------------------
  // The chain dequantize -> op -> quantize

  const DequantizeAttrs: Attrs := OtherAttrs("DequantizeAttrs")

  /** The inputs of the example graphs: the quantized data, the
      dequantize's scale and zero point, and the final quantize's scale,
      zero point, axis and output dtype. */
  datatype ChainInputs = ChainInputs(data: Expr, inScale: Expr, inZeroPoint: Expr,
                                     outScale: Expr, outZeroPoint: Expr, axis: int, outDtype: DType)

  /** The inputs are graph leaves (variables or constants), not calls. */
  predicate LeafInputs(c: ChainInputs)
  {
    !c.data.Call? && !c.inScale.Call? && !c.inZeroPoint.Call? && !c.outScale.Call? && !c.outZeroPoint.Call?
  }

  /** The data, dequantized, passed through `op`, and quantized. */
  function ChainGraph(op: string, opAttrs: Attrs, c: ChainInputs): IndexedGraph
  {
    IndexedGraph([
      Node(LeafRef(c.data), [3]),
      Node(LeafRef(c.inScale), [3]),
      Node(LeafRef(c.inZeroPoint), [3]),
      Node(CallRef(DequantizeOp, [0, 1, 2], DequantizeAttrs, [], NoSpan), [4]),
      Node(CallRef(op, [3], opAttrs, [], NoSpan), [7]),
      Node(LeafRef(c.outScale), [7]),
      Node(LeafRef(c.outZeroPoint), [7]),
      Node(CallRef(QuantizeOp, [4, 5, 6], QuantizeAttrs(c.axis, c.outDtype), [], NoSpan), [])])
  }

  /** The dequantize of the example graphs, as the expression node 3 stands for. */
  function ChainDequantize(c: ChainInputs): Expr
  {
    Call(DequantizeOp, [c.data, c.inScale, c.inZeroPoint], DequantizeAttrs, [], NoSpan)
  }

  /** The dequantized data, quantized with the final quantize's parameters. */
  function ChainQuantizedInput(c: ChainInputs): Expr
  {
    MakeQuantize(ChainDequantize(c), c.outScale, c.outZeroPoint, c.axis, c.outDtype)
  }

  /** The leaves, then the dequantize, as the mutator rebuilds them. */
  function ChainPosts(c: ChainInputs): seq<Expr>
  {
    [c.data, c.inScale, c.inZeroPoint, ChainDequantize(c)]
  }

  lemma ChainValid(op: string, opAttrs: Attrs, c: ChainInputs)
    requires op != QuantizeOp && LeafInputs(c)
    ensures Valid(ChainGraph(op, opAttrs, c))
  {
  }

  lemma ChainFinds(op: string, opAttrs: Attrs, c: ChainInputs)
    requires QR.IsRegistered(op) && op != QuantizeOp && LeafInputs(c)
    ensures Valid(ChainGraph(op, opAttrs, c))
    ensures FindQuantizeUser(ChainGraph(op, opAttrs, c), 4) == Some(7)
    ensures RemovableDequantize(ChainGraph(op, opAttrs, c), 3)
    ensures Terminations(ChainGraph(op, opAttrs, c), [4]) == [7]
  {
    var g := ChainGraph(op, opAttrs, c);
    ChainValid(op, opAttrs, c);
    assert FindQuantizeUser(g, 7) == Some(7);
    assert FindQuantizeUser(g, 4) == Some(7);
  }

  /** Nothing after the dequantize of a chain is a dequantize. */
  lemma ChainTail(op: string, opAttrs: Attrs, c: ChainInputs)
    requires QR.IsRegistered(op) && op != QuantizeOp && LeafInputs(c)
    ensures Valid(ChainGraph(op, opAttrs, c))
    ensures PairsFrom(ChainGraph(op, opAttrs, c), 4) == map[] && RemovableFrom(ChainGraph(op, opAttrs, c), 4) == {}
  {
    var g := ChainGraph(op, opAttrs, c);
    ChainValid(op, opAttrs, c);
    QuantizeNotRegistered();
    assert !RemovableDequantize(g, 7) && !RemovableDequantize(g, 6);
    assert !RemovableDequantize(g, 5) && !RemovableDequantize(g, 4);
    NothingRemovableNoPairs(g, 4);
  }

  /** Visiting the dequantize of a chain records its one pair. */
  lemma ChainHead(op: string, opAttrs: Attrs, c: ChainInputs)
    requires QR.IsRegistered(op) && op != QuantizeOp && LeafInputs(c)
    ensures Valid(ChainGraph(op, opAttrs, c))
    ensures PairsFrom(ChainGraph(op, opAttrs, c), 3) == map[4 := (0, 7)]
    ensures RemovableFrom(ChainGraph(op, opAttrs, c), 3) == {7}
  {
    var g := ChainGraph(op, opAttrs, c);
    ChainFinds(op, opAttrs, c);
    ChainTail(op, opAttrs, c);
    assert UserPairs([4], [7]) == map[4 := (0, 7)];
    assert UserQuantizes([7]) == {7};
    PairsFromStep(g, 3);
  }

  /** The analysis of a chain through a registered operator pairs the
      operator with the final quantize and marks that quantize removable. */
  lemma ChainAnalysis(op: string, opAttrs: Attrs, c: ChainInputs)
    requires QR.IsRegistered(op) && op != QuantizeOp && LeafInputs(c)
    ensures Valid(ChainGraph(op, opAttrs, c))
    ensures PairsFrom(ChainGraph(op, opAttrs, c), 0) == map[4 := (0, 7)]
    ensures RemovableFrom(ChainGraph(op, opAttrs, c), 0) == {7}
  {
    var g := ChainGraph(op, opAttrs, c);
    ChainHead(op, opAttrs, c);
    assert !RemovableDequantize(g, 2) && !RemovableDequantize(g, 1) && !RemovableDequantize(g, 0);
    PairsFromStep(g, 2);
    PairsFromStep(g, 1);
    PairsFromStep(g, 0);
  }

  /** relu between a dequantize and a quantize: the data is quantized
      before the relu, which becomes a maximum against the zero point, and
      the final quantize is dropped. */
  lemma ReluChain(c: ChainInputs)
    requires LeafInputs(c)
    ensures Valid(ChainGraph(QR.ReluOp, NoAttrs, c))
    ensures RequantizeGraph(ChainGraph(QR.ReluOp, NoAttrs, c)) ==
            Ok(Maximum(ChainQuantizedInput(c), CastLike(c.outZeroPoint, ChainQuantizedInput(c))))
  {
    ChainAnalysis(QR.ReluOp, NoAttrs, c);
    ChainMutation(QR.ReluOp, NoAttrs, c);
  }

  /** An operator with the identity rewrite between a dequantize and a
      quantize: the data is quantized before the operator, which is kept,
      and the final quantize is dropped. */
  lemma IdentityChain(op: string, opAttrs: Attrs, c: ChainInputs)
    requires op in QR.IdentityOps && LeafInputs(c)
    ensures Valid(ChainGraph(op, opAttrs, c))
    ensures RequantizeGraph(ChainGraph(op, opAttrs, c)) == Ok(Call(op, [ChainQuantizedInput(c)], opAttrs, [], NoSpan))
  {
    QR.RegistryContents(op);
    QR.IdentityOpsDistinct();
    ChainAnalysis(op, opAttrs, c);
    ChainMutation(op, opAttrs, c);
  }

  /** The mutator leaves the leaves and the dequantize of a chain as they are. */
  lemma ChainPrefix(op: string, opAttrs: Attrs, c: ChainInputs)
    requires op != QuantizeOp && LeafInputs(c)
    ensures Valid(ChainGraph(op, opAttrs, c)) && PairsWellFormed(ChainGraph(op, opAttrs, c), map[4 := (0, 7)], {7})
    ensures MutateUpTo(ChainGraph(op, opAttrs, c), map[4 := (0, 7)], {7}, 4) == Ok(MutatorState(ChainPosts(c), None))
  {
    var g := ChainGraph(op, opAttrs, c);
    ChainValid(op, opAttrs, c);
    var pairs: map<nat, (nat, nat)>, removable: set<nat> := map[4 := (0, 7)], {7};
    assert PairsWellFormed(g, pairs, removable);
    MutateUpToLeaves(g, pairs, removable, 0, 3, MutatorState([], None));
    var s3 := MutatorState([c.data, c.inScale, c.inZeroPoint], None);
    assert MutateUpTo(g, pairs, removable, 3).value.posts == s3.posts;
    MutateUpToCall(g, pairs, removable, 3, s3);
    assert Rebuild(g.nodes[3].ref, s3.posts) == ChainDequantize(c);
    assert s3.posts + [ChainDequantize(c)] == ChainPosts(c);
  }

  /** The operator of a chain is rebuilt on the quantized input and rewritten. */
  lemma ChainOperatorStep(op: string, opAttrs: Attrs, c: ChainInputs)
    requires QR.IsRegistered(op) && op != QuantizeOp && LeafInputs(c)
    ensures Valid(ChainGraph(op, opAttrs, c)) && PairsWellFormed(ChainGraph(op, opAttrs, c), map[4 := (0, 7)], {7})
    ensures var post := Call(op, [ChainQuantizedInput(c)], opAttrs, [], NoSpan);
            var rewritten := QR.ApplyRewrite(op, post, c.outScale, c.outZeroPoint);
            MutateUpTo(ChainGraph(op, opAttrs, c), map[4 := (0, 7)], {7}, 5) ==
              if rewritten.Fatal? then Fatal(rewritten.reason)
              else Ok(MutatorState(ChainPosts(c) + [rewritten.value], Some(7)))
  {
    var g := ChainGraph(op, opAttrs, c);
    ChainPrefix(op, opAttrs, c);
    var pairs: map<nat, (nat, nat)>, removable: set<nat> := map[4 := (0, 7)], {7};
    var s4 := MutatorState(ChainPosts(c), None);
    MutateUpToCall(g, pairs, removable, 4, s4);
    var post := Call(op, [ChainQuantizedInput(c)], opAttrs, [], NoSpan);
    var rewritten := QR.ApplyRewrite(op, post, c.outScale, c.outZeroPoint);
    var p := ParamsOf(g, 7);
    assert p == QuantizeParams(c.outScale, c.outZeroPoint, c.axis, c.outDtype);
    var rebuilt := Rebuild(g.nodes[4].ref, s4.posts);
    assert rebuilt.args == [ChainDequantize(c)];
    assert QuantizeArg(rebuilt.args, 0, p) == [ChainQuantizedInput(c)];
    assert RewriteStep(g, pairs, removable, None, 4, rebuilt) == Step(rewritten, Some(7));
  }

  /** The final quantize of a chain is removable, so it yields the rewritten operator. */
  lemma ChainQuantizeStep(op: string, opAttrs: Attrs, c: ChainInputs)
    requires QR.IsRegistered(op) && op != QuantizeOp && LeafInputs(c)
    ensures Valid(ChainGraph(op, opAttrs, c)) && PairsWellFormed(ChainGraph(op, opAttrs, c), map[4 := (0, 7)], {7})
    ensures var post := Call(op, [ChainQuantizedInput(c)], opAttrs, [], NoSpan);
            var rewritten := QR.ApplyRewrite(op, post, c.outScale, c.outZeroPoint);
            var r := MutateUpTo(ChainGraph(op, opAttrs, c), map[4 := (0, 7)], {7}, 8);
            (rewritten.Fatal? ==> r == Fatal(rewritten.reason)) &&
            (rewritten.Ok? ==> r.Ok? && r.value.posts[7] == rewritten.value)
  {
    var g := ChainGraph(op, opAttrs, c);
    ChainOperatorStep(op, opAttrs, c);
    var pairs: map<nat, (nat, nat)>, removable: set<nat> := map[4 := (0, 7)], {7};
    var post := Call(op, [ChainQuantizedInput(c)], opAttrs, [], NoSpan);
    var rewritten := QR.ApplyRewrite(op, post, c.outScale, c.outZeroPoint);
    if rewritten.Ok? {
      var s5 := MutatorState(ChainPosts(c) + [rewritten.value], Some(7));
      assert g.nodes[5].ref.LeafRef? && g.nodes[6].ref.LeafRef?;
      MutateUpToLeaves(g, pairs, removable, 5, 7, s5);
      var s7 := MutateUpTo(g, pairs, removable, 7).value;
      assert s7.posts[4] == s7.posts[..5][4] == rewritten.value;
      MutateUpToRemoved(g, pairs, removable, 7, s7);
    } else {
      MutateUpToFatal(g, pairs, removable, 5, 8);
    }
  }

  /** The mutator on a chain: the operator is rebuilt on the quantized
      input and rewritten, and the final quantize yields the operator. */
  lemma ChainMutation(op: string, opAttrs: Attrs, c: ChainInputs)
    requires QR.IsRegistered(op) && op != QuantizeOp && LeafInputs(c)
    ensures Valid(ChainGraph(op, opAttrs, c))
    ensures var post := Call(op, [ChainQuantizedInput(c)], opAttrs, [], NoSpan);
            RequantizeGraph(ChainGraph(op, opAttrs, c)) == QR.ApplyRewrite(op, post, c.outScale, c.outZeroPoint)
  {
    ChainAnalysis(op, opAttrs, c);
    ChainQuantizeStep(op, opAttrs, c);
  }

  /** A dequantize used directly by a quantize, with no operator between. */
  function DirectGraph(c: ChainInputs): IndexedGraph
  {
    IndexedGraph([
      Node(LeafRef(c.data), [3]),
      Node(LeafRef(c.inScale), [3]),
      Node(LeafRef(c.inZeroPoint), [3]),
      Node(CallRef(DequantizeOp, [0, 1, 2], DequantizeAttrs, [], NoSpan), [6]),
      Node(LeafRef(c.outScale), [6]),
      Node(LeafRef(c.outZeroPoint), [6]),
      Node(CallRef(QuantizeOp, [3, 4, 5], QuantizeAttrs(c.axis, c.outDtype), [], NoSpan), [])])
  }

  lemma DirectValid(c: ChainInputs)
    requires LeafInputs(c)
    ensures Valid(DirectGraph(c))
  {
  }

  lemma DirectFinds(c: ChainInputs)
    requires LeafInputs(c)
    ensures Valid(DirectGraph(c))
    ensures FindQuantizeUser(DirectGraph(c), 6) == Some(6)
    ensures RemovableDequantize(DirectGraph(c), 3)
    ensures Terminations(DirectGraph(c), [6]) == [6]
  {
    var g := DirectGraph(c);
    DirectValid(c);
    assert FindQuantizeUser(g, 6) == Some(6);
  }

  /** Nothing after the dequantize of the direct graph is a dequantize. */
  lemma DirectTail(c: ChainInputs)
    requires LeafInputs(c)
    ensures Valid(DirectGraph(c))
    ensures PairsFrom(DirectGraph(c), 4) == map[] && RemovableFrom(DirectGraph(c), 4) == {}
  {
    var g := DirectGraph(c);
    DirectValid(c);
    assert !RemovableDequantize(g, 6) && !RemovableDequantize(g, 5) && !RemovableDequantize(g, 4);
    NothingRemovableNoPairs(g, 4);
  }

  lemma DirectHead(c: ChainInputs)
    requires LeafInputs(c)
    ensures Valid(DirectGraph(c))
    ensures PairsFrom(DirectGraph(c), 3) == map[6 := (0, 6)] && RemovableFrom(DirectGraph(c), 3) == {6}
  {
    var g := DirectGraph(c);
    DirectFinds(c);
    DirectTail(c);
    assert UserPairs([6], [6]) == map[6 := (0, 6)];
    assert UserQuantizes([6]) == {6};
    PairsFromStep(g, 3);
  }

  lemma DirectAnalysis(c: ChainInputs)
    requires LeafInputs(c)
    ensures Valid(DirectGraph(c))
    ensures PairsFrom(DirectGraph(c), 0) == map[6 := (0, 6)] && RemovableFrom(DirectGraph(c), 0) == {6}
  {
    var g := DirectGraph(c);
    DirectHead(c);
    assert !RemovableDequantize(g, 2) && !RemovableDequantize(g, 1) && !RemovableDequantize(g, 0);
    PairsFromStep(g, 2);
    PairsFromStep(g, 1);
    PairsFromStep(g, 0);
  }

  lemma DirectPrefix(c: ChainInputs)
    requires LeafInputs(c)
    ensures Valid(DirectGraph(c)) && PairsWellFormed(DirectGraph(c), map[6 := (0, 6)], {6})
    ensures MutateUpTo(DirectGraph(c), map[6 := (0, 6)], {6}, 4) == Ok(MutatorState(ChainPosts(c), None))
  {
    var g := DirectGraph(c);
    DirectValid(c);
    var pairs: map<nat, (nat, nat)>, removable: set<nat> := map[6 := (0, 6)], {6};
    assert PairsWellFormed(g, pairs, removable);
    MutateUpToLeaves(g, pairs, removable, 0, 3, MutatorState([], None));
    var s3 := MutatorState([c.data, c.inScale, c.inZeroPoint], None);
    assert MutateUpTo(g, pairs, removable, 3).value.posts == s3.posts;
    MutateUpToCall(g, pairs, removable, 3, s3);
    assert Rebuild(g.nodes[3].ref, s3.posts) == ChainDequantize(c);
    assert s3.posts + [ChainDequantize(c)] == ChainPosts(c);
  }

  /** The leaves of the direct graph's quantize are kept as they are. */
  lemma DirectLeaves(c: ChainInputs)
    requires LeafInputs(c)
    ensures Valid(DirectGraph(c)) && PairsWellFormed(DirectGraph(c), map[6 := (0, 6)], {6})
    ensures MutateUpTo(DirectGraph(c), map[6 := (0, 6)], {6}, 6) ==
            Ok(MutatorState(ChainPosts(c) + [c.outScale, c.outZeroPoint], None))
  {
    var g := DirectGraph(c);
    DirectPrefix(c);
    var pairs: map<nat, (nat, nat)>, removable: set<nat> := map[6 := (0, 6)], {6};
    MutateUpToLeaves(g, pairs, removable, 4, 6, MutatorState(ChainPosts(c), None));
    var s6 := MutateUpTo(g, pairs, removable, 6).value;
    assert s6.posts == s6.posts[..4] + [s6.posts[4], s6.posts[5]];
  }

  /** With no operator between them, the quantize is both the paired user of
      the dequantize and the quantize it terminates at. The pairing is
      applied, so the quantize's input is wrapped in a second quantize with
      the same parameters. */
  lemma DirectQuantizeWrapsTwice(c: ChainInputs)
    requires LeafInputs(c)
    ensures Valid(DirectGraph(c))
    ensures PairsFrom(DirectGraph(c), 0) == map[6 := (0, 6)] && RemovableFrom(DirectGraph(c), 0) == {6}
    ensures RequantizeGraph(DirectGraph(c)) ==
            Ok(MakeQuantize(ChainQuantizedInput(c), c.outScale, c.outZeroPoint, c.axis, c.outDtype))
  {
    var g := DirectGraph(c);
    DirectAnalysis(c);
    DirectLeaves(c);
    var pairs: map<nat, (nat, nat)>, removable: set<nat> := map[6 := (0, 6)], {6};
    var s6 := MutatorState(ChainPosts(c) + [c.outScale, c.outZeroPoint], None);
    MutateUpToCall(g, pairs, removable, 6, s6);
    var p := ParamsOf(g, 6);
    assert p == QuantizeParams(c.outScale, c.outZeroPoint, c.axis, c.outDtype);
    var rebuilt := Rebuild(g.nodes[6].ref, s6.posts);
    assert rebuilt.args == [ChainDequantize(c), c.outScale, c.outZeroPoint];
    assert QuantizeArg(rebuilt.args, 0, p) == [ChainQuantizedInput(c), c.outScale, c.outZeroPoint];
    QuantizeNotRegistered();
    var out := MakeQuantize(ChainQuantizedInput(c), c.outScale, c.outZeroPoint, c.axis, c.outDtype);
    assert RewriteStep(g, pairs, removable, None, 6, rebuilt) == Step(Ok(out), Some(6));
  }

  lemma QuantizeNotRegistered()
    ensures !QR.IsRegistered(QuantizeOp) && !QR.IsRegistered(DequantizeOp)
  {
    QR.RegistryContents(QuantizeOp);
    QR.RegistryContents(DequantizeOp);
  }

  // ---------------------------------------------------------------------
  // The pass, as the source runs it

  class Requantizer {
    const graph: IndexedGraph
    var quantizePairs: map<nat, (nat, nat)>
    var removableQuantizes: set<nat>

    constructor (g: IndexedGraph)
      ensures graph == g && quantizePairs == map[] && removableQuantizes == {}
    {
      graph := g;
      quantizePairs := map[];
      removableQuantizes := {};
    }

    /** Queries the users of a dequantize in order, stopping at the first
        one that finds no quantize. */
    method FindTerminations(users: seq<nat>) returns (removeable: bool, terminating: seq<nat>)
      requires Valid(graph)
      requires forall k :: 0 <= k < |users| ==> users[k] < |graph.nodes|
      ensures removeable <==> forall k :: 0 <= k < |users| ==> FindQuantizeUser(graph, users[k]).Some?
      ensures removeable ==> |terminating| == |users|
      ensures removeable ==> forall k :: 0 <= k < |users| ==> FindQuantizeUser(graph, users[k]) == Some(terminating[k])
      ensures removeable ==> terminating == Terminations(graph, users)
    {
      terminating := [];
      removeable := true;
      for k := 0 to |users|
        invariant removeable ==> |terminating| == k
        invariant removeable ==> forall t :: 0 <= t < k ==> FindQuantizeUser(graph, users[t]) == Some(terminating[t])
        invariant !removeable ==> exists t :: 0 <= t < k && FindQuantizeUser(graph, users[t]).None?
      {
        if removeable {
          var termination := FindQuantizeUser(graph, users[k]);
          if termination.Some? {
            terminating := terminating + [termination.value];
          } else {
            removeable := false;
          }
        }
      }
      if removeable {
        assert forall k :: 0 <= k < |users| ==> terminating[k] == Terminations(graph, users)[k];
      }
    }

    /** Maps each user to (0, its quantize) and marks that quantize removable. */
    method RecordPairs(users: seq<nat>, terminating: seq<nat>)
      requires |terminating| == |users|
      modifies this
      ensures quantizePairs == old(quantizePairs) + UserPairs(users, terminating)
      ensures removableQuantizes == old(removableQuantizes) + UserQuantizes(terminating)
    {
      for k := 0 to |users|
        invariant quantizePairs == old(quantizePairs) + UserPairs(users[..k], terminating[..k])
        invariant removableQuantizes == old(removableQuantizes) + UserQuantizes(terminating[..k])
      {
        UserPairsSnoc(users, terminating, k);
        quantizePairs := quantizePairs[users[k] := (0, terminating[k])];
        removableQuantizes := removableQuantizes + {terminating[k]};
      }
      assert users[..|users|] == users && terminating[..|users|] == terminating;
    }

    /** The analysis loop: pairs each removable dequantize's users with
        their quantize, visiting the nodes in reverse topological order. */
    method Analyze()
      requires Valid(graph)
      requires quantizePairs == map[] && removableQuantizes == {}
      modifies this
      ensures quantizePairs == PairsFrom(graph, 0) && removableQuantizes == RemovableFrom(graph, 0)
    {
      var i := |graph.nodes|;
      while i != 0
        invariant 0 <= i <= |graph.nodes|
        invariant quantizePairs == PairsFrom(graph, i) && removableQuantizes == RemovableFrom(graph, i)
      {
        i := i - 1;
        Visit(i);
      }
    }

    /** One iteration of the analysis loop: node i, if it is a dequantize
        whose every user finds a quantize, records its users' pairs. */
    method Visit(i: nat)
      requires Valid(graph) && i < |graph.nodes|
      requires quantizePairs == PairsFrom(graph, i + 1) && removableQuantizes == RemovableFrom(graph, i + 1)
      modifies this
      ensures quantizePairs == PairsFrom(graph, i) && removableQuantizes == RemovableFrom(graph, i)
    {
      PairsFromStep(graph, i);
      if CallsOp(graph, i, DequantizeOp) {
        var users := graph.nodes[i].outputs;
        var removeable, terminating := FindTerminations(users);
        if removeable {
          assert RemovableDequantize(graph, i);
          RecordPairs(users, terminating);
        } else {
          assert !RemovableDequantize(graph, i);
        }
      } else {
        assert !RemovableDequantize(graph, i);
      }
    }

    /** Runs the analysis, then rewrites the graph. */
    method Requantize() returns (r: Outcome<Expr>)
      requires Valid(graph) && |graph.nodes| > 0
      requires quantizePairs == map[] && removableQuantizes == {}
      modifies this
      ensures quantizePairs == PairsFrom(graph, 0) && removableQuantizes == RemovableFrom(graph, 0)
      ensures r == RequantizeGraph(graph)
    {
      Analyze();
      PairsFromWellFormed(graph, 0);
      var mutator := new RequantizeMutator(this);
      r := mutator.Mutate();
    }
  }

  class RequantizeMutator {
    const parent: Requantizer
    var parentQuantize: Option<nat>

    constructor (parent: Requantizer)
      ensures this.parent == parent && parentQuantize == None
    {
      this.parent := parent;
      parentQuantize := None;
    }

    /** Rewrites call node i, given as `post` on its rewritten arguments. */
    method Rewrite(i: nat, post: Expr) returns (r: Outcome<Expr>)
      requires Valid(parent.graph)
      requires PairsWellFormed(parent.graph, parent.quantizePairs, parent.removableQuantizes)
      requires i < |parent.graph.nodes| && parent.graph.nodes[i].ref.CallRef?
      requires post.Call? && |post.args| == |parent.graph.nodes[i].ref.args|
      requires ParentWellFormed(parent.graph, parentQuantize)
      modifies this
      ensures Step(r, parentQuantize) ==
              RewriteStep(parent.graph, parent.quantizePairs, parent.removableQuantizes, old(parentQuantize), i, post)
      ensures ParentWellFormed(parent.graph, parentQuantize)
    {
      var g := parent.graph;
      var node := g.nodes[i].ref;
      if i in parent.quantizePairs {
        var pair := parent.quantizePairs[i];
        // Record the current quantize for the operators further down the chain.
        parentQuantize := Some(pair.1);
        var p := ParamsOf(g, pair.1);
        var newArgs: seq<Expr> := [];
        for k := 0 to |post.args|
          invariant |newArgs| == k
          invariant forall t :: 0 <= t < k ==> newArgs[t] == QuantizeArg(post.args, pair.0, p)[t]
        {
          if k == pair.0 {
            newArgs := newArgs + [MakeQuantize(post.args[k], p.scale, p.zeroPoint, p.axis, p.outDtype)];
          } else {
            newArgs := newArgs + [post.args[k]];
          }
        }
        assert newArgs == QuantizeArg(post.args, pair.0, p);
        var newPost := Call(node.op, newArgs, node.attrs, [], NoSpan);
        if QR.IsRegistered(post.op) {
          return QR.ApplyRewrite(post.op, newPost, p.scale, p.zeroPoint);
        }
        return Ok(newPost);
      } else if i in parent.removableQuantizes {
        return Ok(post.args[0]);
      } else if parentQuantize.Some? && QR.IsRegistered(post.op) {
        var p := ParamsOf(g, parentQuantize.value);
        return QR.ApplyRewrite(post.op, post, p.scale, p.zeroPoint);
      } else if node.op == DequantizeOp {
        parentQuantize := None;
      }
      return Ok(post);
    }

    /** Visits node i, whose inputs are rewritten as `posts`, and returns
        the rewritten nodes 0 .. i. */
    method Visit(i: nat, posts: seq<Expr>) returns (r: Outcome<seq<Expr>>)
      requires Valid(parent.graph) && i < |parent.graph.nodes|
      requires PairsWellFormed(parent.graph, parent.quantizePairs, parent.removableQuantizes)
      requires MutateUpTo(parent.graph, parent.quantizePairs, parent.removableQuantizes, i) ==
               Ok(MutatorState(posts, parentQuantize))
      modifies this
      ensures MutateUpTo(parent.graph, parent.quantizePairs, parent.removableQuantizes, i + 1) ==
              match r
              case Fatal(reason) => Fatal(reason)
              case Ok(next) => Ok(MutatorState(next, parentQuantize))
    {
      var g := parent.graph;
      ghost var pairs, removable := parent.quantizePairs, parent.removableQuantizes;
      var node := g.nodes[i].ref;
      if node.LeafRef? {
        MutateUpToLeaf(g, pairs, removable, i, MutatorState(posts, parentQuantize));
        return Ok(posts + [node.expr]);
      }
      MutateUpToCall(g, pairs, removable, i, MutatorState(posts, parentQuantize));
      var post := Rebuild(node, posts);
      var out := Rewrite(i, post);
      if out.Fatal? {
        return Fatal(out.reason);
      }
      return Ok(posts + [out.value]);
    }

    /** Visits every node once, inputs first, and returns the rewritten root. */
    method Mutate() returns (r: Outcome<Expr>)
      requires Valid(parent.graph) && |parent.graph.nodes| > 0
      requires PairsWellFormed(parent.graph, parent.quantizePairs, parent.removableQuantizes)
      requires parentQuantize == None
      modifies this
      ensures r == match MutateUpTo(parent.graph, parent.quantizePairs, parent.removableQuantizes, |parent.graph.nodes|)
                   case Fatal(reason) => Fatal(reason)
                   case Ok(state) => Ok(state.posts[|parent.graph.nodes| - 1])
    {
      var g := parent.graph;
      ghost var pairs, removable := parent.quantizePairs, parent.removableQuantizes;
      var posts: seq<Expr> := [];
      var i := 0;
      while i < |g.nodes|
        invariant 0 <= i <= |g.nodes|
        invariant parent.quantizePairs == pairs && parent.removableQuantizes == removable
        invariant MutateUpTo(g, pairs, removable, i) == Ok(MutatorState(posts, parentQuantize))
      {
        var next := Visit(i, posts);
        if next.Fatal? {
          MutateUpToFatal(g, pairs, removable, i + 1, |g.nodes|);
          return Fatal(next.reason);
        }
        posts := next.value;
        i := i + 1;
      }
      return Ok(posts[|g.nodes| - 1]);
    }
  }
}
