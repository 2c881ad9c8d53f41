/**
 The expression algebra: one function per public operation of the front end.

 Each function is the pure counterpart of a C++ call that mutates the graph
 its operand points to. `g` is the state of that graph before the call, so
 every operand handle must be bound to `g.id`; the result carries the graph
 after the call and the handle of the node the call recorded. Handles from
 two different graphs are never combined: that is a precondition, because
 the source does not check it.
 */
module Expr {
  import CG = ComputationGraph

  /** A handle: the graph it belongs to and the identity of its node there. */
  datatype Expression = Expression(pg: CG.GraphRef, i: CG.VariableIndex)

  /** The graph after a call, and the handle the call returns. */
  datatype Built = Built(graph: CG.Graph, expr: Expression)

  /** `r` is `g` with exactly the node `n` appended, and `r.expr` names that
      node and is bound to the graph `pg`. */
  predicate Records(g: CG.Graph, r: Built, n: CG.Node, pg: CG.GraphRef) {
    r == Built(CG.Graph(g.id, g.nodes + [n]), Expression(pg, |g.nodes|))
  }

  /** All handles belong to the graph `pg`. */
  predicate AllOn(xs: seq<Expression>, pg: CG.GraphRef) {
    forall e :: e in xs ==> e.pg == pg
  }

  /** Pairs a graph and the identity its registration call returned into a handle. */
  function Wrap(pg: CG.GraphRef, added: (CG.Graph, CG.VariableIndex)): Built {
    Built(added.0, Expression(pg, added.1))
  }

  // ---------------------------------------------------------------- leaves

  function Input(g: CG.Graph, s: CG.Real): (r: Built)
    ensures Records(g, r, CG.Node(CG.ScalarInput(CG.ScalarValue(s)), []), g.id)
  {
    Wrap(g.id, CG.AddInput(g, CG.ScalarValue(s)))
  }

  function InputRef(g: CG.Graph, ps: CG.Slot): (r: Built)
    ensures Records(g, r, CG.Node(CG.ScalarInput(CG.ScalarCell(ps)), []), g.id)
  {
    Wrap(g.id, CG.AddInput(g, CG.ScalarCell(ps)))
  }

  function InputData(g: CG.Graph, d: CG.Dim, pdata: CG.Slot): (r: Built)
    ensures Records(g, r, CG.Node(CG.VectorInput(d, pdata), []), g.id)
  {
    Wrap(g.id, CG.AddVectorInput(g, d, pdata))
  }

  function Parameter(g: CG.Graph, p: CG.ParametersRef): (r: Built)
    ensures Records(g, r, CG.Node(CG.ParameterLeaf(p), []), g.id)
  {
    Wrap(g.id, CG.AddParameters(g, p))
  }

  function Lookup(g: CG.Graph, p: CG.LookupParametersRef, index: CG.u32): (r: Built)
    ensures Records(g, r, CG.Node(CG.LookupLeaf(p, CG.IndexValue(index)), []), g.id)
  {
    Wrap(g.id, CG.AddLookup(g, p, CG.IndexValue(index)))
  }

  function LookupRef(g: CG.Graph, p: CG.LookupParametersRef, pindex: CG.Slot): (r: Built)
    ensures Records(g, r, CG.Node(CG.LookupLeaf(p, CG.IndexCell(pindex)), []), g.id)
  {
    Wrap(g.id, CG.AddLookup(g, p, CG.IndexCell(pindex)))
  }

  function ConstLookup(g: CG.Graph, p: CG.LookupParametersRef, index: CG.u32): (r: Built)
    ensures Records(g, r, CG.Node(CG.ConstLookupLeaf(p, CG.IndexValue(index)), []), g.id)
  {
    Wrap(g.id, CG.AddConstLookup(g, p, CG.IndexValue(index)))
  }

  function ConstLookupRef(g: CG.Graph, p: CG.LookupParametersRef, pindex: CG.Slot): (r: Built)
    ensures Records(g, r, CG.Node(CG.ConstLookupLeaf(p, CG.IndexCell(pindex)), []), g.id)
  {
    Wrap(g.id, CG.AddConstLookup(g, p, CG.IndexCell(pindex)))
  }

  // ------------------------------------------------------------ arithmetic

  /** Unary minus `-x`. */
  function Negate(g: CG.Graph, x: Expression): (r: Built)
    requires x.pg == g.id
    ensures Records(g, r, CG.Node(CG.Negate, [x.i]), x.pg)
  {
    Wrap(x.pg, CG.AddFunction(g, CG.Negate, [x.i]))
  }

  /** `x + y`. */
  function Plus(g: CG.Graph, x: Expression, y: Expression): (r: Built)
    requires x.pg == g.id && y.pg == x.pg
    ensures Records(g, r, CG.Node(CG.Sum, [x.i, y.i]), x.pg)
  {
    Wrap(x.pg, CG.AddFunction(g, CG.Sum, [x.i, y.i]))
  }

  /** `x - y`, built as `x + (-y)`: a Negate node on `y`, then a Sum node whose
      second operand is that Negate node. */
  function Minus(g: CG.Graph, x: Expression, y: Expression): (r: Built)
    requires x.pg == g.id && y.pg == x.pg
    ensures r.graph.id == g.id
    ensures |r.graph.nodes| == |g.nodes| + 2 && r.graph.nodes[..|g.nodes|] == g.nodes
    ensures r.graph.nodes[|g.nodes|] == CG.Node(CG.Negate, [y.i])
    ensures r.graph.nodes[|g.nodes| + 1] == CG.Node(CG.Sum, [x.i, |g.nodes|])
    ensures r.expr == Expression(x.pg, |g.nodes| + 1)
  {
    var neg := Negate(g, y);
    Plus(neg.graph, x, neg.expr)
  }

  /** `c - y` for a scalar `c`: one node that stores `c`. */
  function ConstMinus(g: CG.Graph, c: CG.Real, y: Expression): (r: Built)
    requires y.pg == g.id
    ensures Records(g, r, CG.Node(CG.ConstantMinusX(c), [y.i]), y.pg)
  {
    Wrap(y.pg, CG.AddFunction(g, CG.ConstantMinusX(c), [y.i]))
  }

  /** `x * y`, the matrix product; operand order matters. */
  function Times(g: CG.Graph, x: Expression, y: Expression): (r: Built)
    requires x.pg == g.id && y.pg == x.pg
    ensures Records(g, r, CG.Node(CG.MatrixMultiply, [x.i, y.i]), x.pg)
  {
    Wrap(x.pg, CG.AddFunction(g, CG.MatrixMultiply, [x.i, y.i]))
  }

  /** Componentwise quotient `x / y`; operand order matters. */
  function Cdiv(g: CG.Graph, x: Expression, y: Expression): (r: Built)
    requires x.pg == g.id && y.pg == x.pg
    ensures Records(g, r, CG.Node(CG.CwiseQuotient, [x.i, y.i]), x.pg)
  {
    Wrap(x.pg, CG.AddFunction(g, CG.CwiseQuotient, [x.i, y.i]))
  }

  // ----------------------------------------------------------- activations

  function Tanh(g: CG.Graph, x: Expression): (r: Built)
    requires x.pg == g.id
    ensures Records(g, r, CG.Node(CG.Tanh, [x.i]), x.pg)
  {
    Wrap(x.pg, CG.AddFunction(g, CG.Tanh, [x.i]))
  }

  function Log(g: CG.Graph, x: Expression): (r: Built)
    requires x.pg == g.id
    ensures Records(g, r, CG.Node(CG.Log, [x.i]), x.pg)
  {
    Wrap(x.pg, CG.AddFunction(g, CG.Log, [x.i]))
  }

  function Exp(g: CG.Graph, x: Expression): (r: Built)
    requires x.pg == g.id
    ensures Records(g, r, CG.Node(CG.Exp, [x.i]), x.pg)
  {
    Wrap(x.pg, CG.AddFunction(g, CG.Exp, [x.i]))
  }

  function Logistic(g: CG.Graph, x: Expression): (r: Built)
    requires x.pg == g.id
    ensures Records(g, r, CG.Node(CG.LogisticSigmoid, [x.i]), x.pg)
  {
    Wrap(x.pg, CG.AddFunction(g, CG.LogisticSigmoid, [x.i]))
  }

  function Rectify(g: CG.Graph, x: Expression): (r: Built)
    requires x.pg == g.id
    ensures Records(g, r, CG.Node(CG.Rectify, [x.i]), x.pg)
  {
    Wrap(x.pg, CG.AddFunction(g, CG.Rectify, [x.i]))
  }

  function LogSoftmax(g: CG.Graph, x: Expression): (r: Built)
    requires x.pg == g.id
    ensures Records(g, r, CG.Node(CG.LogSoftmax, [x.i]), x.pg)
  {
    Wrap(x.pg, CG.AddFunction(g, CG.LogSoftmax, [x.i]))
  }

  /** `log_softmax(x, d)`: the allowed indices `d` are stored in the node. */
  function LogSoftmaxRestricted(g: CG.Graph, x: Expression, d: seq<CG.u32>): (r: Built)
    requires x.pg == g.id
    ensures Records(g, r, CG.Node(CG.RestrictedLogSoftmax(d), [x.i]), x.pg)
  {
    Wrap(x.pg, CG.AddFunction(g, CG.RestrictedLogSoftmax(d), [x.i]))
  }

  function Softmax(g: CG.Graph, x: Expression): (r: Built)
    requires x.pg == g.id
    ensures Records(g, r, CG.Node(CG.Softmax, [x.i]), x.pg)
  {
    Wrap(x.pg, CG.AddFunction(g, CG.Softmax, [x.i]))
  }

  function Softsign(g: CG.Graph, x: Expression): (r: Built)
    requires x.pg == g.id
    ensures Records(g, r, CG.Node(CG.SoftSign, [x.i]), x.pg)
  {
    Wrap(x.pg, CG.AddFunction(g, CG.SoftSign, [x.i]))
  }

  function Noise(g: CG.Graph, x: Expression, stddev: CG.Real): (r: Built)
    requires x.pg == g.id
    ensures Records(g, r, CG.Node(CG.GaussianNoise(stddev), [x.i]), x.pg)
  {
    Wrap(x.pg, CG.AddFunction(g, CG.GaussianNoise(stddev), [x.i]))
  }

  function Dropout(g: CG.Graph, x: Expression, p: CG.Real): (r: Built)
    requires x.pg == g.id
    ensures Records(g, r, CG.Node(CG.Dropout(p), [x.i]), x.pg)
  {
    Wrap(x.pg, CG.AddFunction(g, CG.Dropout(p), [x.i]))
  }

  // ------------------------------------------------------------ structural

  function Reshape(g: CG.Graph, x: Expression, d: CG.Dim): (r: Built)
    requires x.pg == g.id
    ensures Records(g, r, CG.Node(CG.Reshape(d), [x.i]), x.pg)
  {
    Wrap(x.pg, CG.AddFunction(g, CG.Reshape(d), [x.i]))
  }

  function Transpose(g: CG.Graph, x: Expression): (r: Built)
    requires x.pg == g.id
    ensures Records(g, r, CG.Node(CG.Transpose, [x.i]), x.pg)
  {
    Wrap(x.pg, CG.AddFunction(g, CG.Transpose, [x.i]))
  }

  /** The identities of `xs`, collected in iteration order. */
  function Indices(xs: seq<Expression>): (r: seq<CG.VariableIndex>)
    ensures |r| == |xs|
    ensures forall k :: 0 <= k < |xs| ==> r[k] == xs[k].i
  {
    if |xs| == 0 then [] else Indices(xs[..|xs| - 1]) + [xs[|xs| - 1].i]
  }

  /** `affine_transform(xs)`: one node over all of `xs`, in order, bound to the
      first handle's graph. The list must not be empty. */
  function AffineTransform(g: CG.Graph, xs: seq<Expression>): (r: Built)
    requires |xs| > 0 && AllOn(xs, g.id)
    ensures r.graph.id == g.id
    ensures |r.graph.nodes| == |g.nodes| + 1 && r.graph.nodes[..|g.nodes|] == g.nodes
    ensures r.expr == Expression(xs[0].pg, |g.nodes|)
    ensures r.graph.nodes[|g.nodes|].op == CG.AffineTransform
    ensures |r.graph.nodes[|g.nodes|].args| == |xs|
    ensures forall k :: 0 <= k < |xs| ==> r.graph.nodes[|g.nodes|].args[k] == xs[k].i
  {
    var pg := xs[0].pg;
    Wrap(pg, CG.AddFunction(g, CG.AffineTransform, Indices(xs)))
  }

  function CwiseMultiply(g: CG.Graph, x: Expression, y: Expression): (r: Built)
    requires x.pg == g.id && y.pg == x.pg
    ensures Records(g, r, CG.Node(CG.CwiseMultiply, [x.i, y.i]), x.pg)
  {
    Wrap(x.pg, CG.AddFunction(g, CG.CwiseMultiply, [x.i, y.i]))
  }

  // ------------------------------------------------------ distances, losses

  function DotProduct(g: CG.Graph, x: Expression, y: Expression): (r: Built)
    requires x.pg == g.id && y.pg == x.pg
    ensures Records(g, r, CG.Node(CG.DotProduct, [x.i, y.i]), x.pg)
  {
    Wrap(x.pg, CG.AddFunction(g, CG.DotProduct, [x.i, y.i]))
  }

  function SquaredDistance(g: CG.Graph, x: Expression, y: Expression): (r: Built)
    requires x.pg == g.id && y.pg == x.pg
    ensures Records(g, r, CG.Node(CG.SquaredEuclideanDistance, [x.i, y.i]), x.pg)
  {
    Wrap(x.pg, CG.AddFunction(g, CG.SquaredEuclideanDistance, [x.i, y.i]))
  }

  function HuberDistance(g: CG.Graph, x: Expression, y: Expression, c: CG.Real): (r: Built)
    requires x.pg == g.id && y.pg == x.pg
    ensures Records(g, r, CG.Node(CG.HuberDistance(c), [x.i, y.i]), x.pg)
  {
    Wrap(x.pg, CG.AddFunction(g, CG.HuberDistance(c), [x.i, y.i]))
  }

  function L1Distance(g: CG.Graph, x: Expression, y: Expression): (r: Built)
    requires x.pg == g.id && y.pg == x.pg
    ensures Records(g, r, CG.Node(CG.L1Distance, [x.i, y.i]), x.pg)
  {
    Wrap(x.pg, CG.AddFunction(g, CG.L1Distance, [x.i, y.i]))
  }

  function BinaryLogLoss(g: CG.Graph, x: Expression, y: Expression): (r: Built)
    requires x.pg == g.id && y.pg == x.pg
    ensures Records(g, r, CG.Node(CG.BinaryLogLoss, [x.i, y.i]), x.pg)
  {
    Wrap(x.pg, CG.AddFunction(g, CG.BinaryLogLoss, [x.i, y.i]))
  }

  function PairwiseRankLoss(g: CG.Graph, x: Expression, y: Expression, m: CG.Real): (r: Built)
    requires x.pg == g.id && y.pg == x.pg
    ensures Records(g, r, CG.Node(CG.PairwiseRankLoss(m), [x.i, y.i]), x.pg)
  {
    Wrap(x.pg, CG.AddFunction(g, CG.PairwiseRankLoss(m), [x.i, y.i]))
  }

  // ------------------------------------------------- convolution, selection

  /** Narrow 1-D convolution of the signal `x` with the filter `f`. */
  function Conv1dNarrow(g: CG.Graph, x: Expression, f: Expression): (r: Built)
    requires x.pg == g.id && f.pg == x.pg
    ensures Records(g, r, CG.Node(CG.Conv1DNarrow, [x.i, f.i]), x.pg)
  {
    Wrap(x.pg, CG.AddFunction(g, CG.Conv1DNarrow, [x.i, f.i]))
  }

  function KmaxPooling(g: CG.Graph, x: Expression, k: CG.u32): (r: Built)
    requires x.pg == g.id
    ensures Records(g, r, CG.Node(CG.KMaxPooling(k), [x.i]), x.pg)
  {
    Wrap(x.pg, CG.AddFunction(g, CG.KMaxPooling(k), [x.i]))
  }

  /** `pick(x, v)`: the index is the value `v`, fixed at call time. */
  function Pick(g: CG.Graph, x: Expression, v: CG.u32): (r: Built)
    requires x.pg == g.id
    ensures Records(g, r, CG.Node(CG.PickElement(CG.IndexValue(v)), [x.i]), x.pg)
  {
    Wrap(x.pg, CG.AddFunction(g, CG.PickElement(CG.IndexValue(v)), [x.i]))
  }

  /** `pick(x, pv)`: the node keeps the cell `pv`, not what it holds now. */
  function PickRef(g: CG.Graph, x: Expression, pv: CG.Slot): (r: Built)
    requires x.pg == g.id
    ensures Records(g, r, CG.Node(CG.PickElement(CG.IndexCell(pv)), [x.i]), x.pg)
  {
    Wrap(x.pg, CG.AddFunction(g, CG.PickElement(CG.IndexCell(pv)), [x.i]))
  }

  /** `pickrange(x, v, u)`: the bounds are stored in call order. */
  function PickRange(g: CG.Graph, x: Expression, v: CG.u32, u: CG.u32): (r: Built)
    requires x.pg == g.id
    ensures Records(g, r, CG.Node(CG.PickRange(v, u), [x.i]), x.pg)
  {
    Wrap(x.pg, CG.AddFunction(g, CG.PickRange(v, u), [x.i]))
  }

  function PickNegLogSoftmax(g: CG.Graph, x: Expression, v: CG.u32): (r: Built)
    requires x.pg == g.id
    ensures Records(g, r, CG.Node(CG.PickNegLogSoftmax(v), [x.i]), x.pg)
  {
    Wrap(x.pg, CG.AddFunction(g, CG.PickNegLogSoftmax(v), [x.i]))
  }

  function SumCols(g: CG.Graph, x: Expression): (r: Built)
    requires x.pg == g.id
    ensures Records(g, r, CG.Node(CG.SumColumns, [x.i]), x.pg)
  {
    Wrap(x.pg, CG.AddFunction(g, CG.SumColumns, [x.i]))
  }

  function KmhNgram(g: CG.Graph, x: Expression, n: CG.u32): (r: Built)
    requires x.pg == g.id
    ensures Records(g, r, CG.Node(CG.KMHNGram(n), [x.i]), x.pg)
  {
    Wrap(x.pg, CG.AddFunction(g, CG.KMHNGram(n), [x.i]))
  }
}
