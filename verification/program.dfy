/**
 Every call of the expression algebra as one closed datatype, so that
 properties that hold for every call can be stated once and carried over a
 whole sequence of calls: the frame (existing nodes never change, the graph
 only grows), well-formedness (every operand names an earlier node),
 operand counts, and the sequential assignment of identities.

 Calls are grouped by the handles they take: leaves take none, unary calls
 one, binary calls two (in call order), `x - y` two, and `affine_transform`
 a non-empty list.
 */
module Program {
  import CG = ComputationGraph
  import E = Expr

  /** The calls that create a leaf node. */
  datatype LeafCall =
    | Input(s: CG.Real)
    | InputRef(ps: CG.Slot)
    | InputData(d: CG.Dim, pdata: CG.Slot)
    | Parameter(p: CG.ParametersRef)
    | Lookup(lp: CG.LookupParametersRef, index: CG.u32)
    | LookupRef(lp: CG.LookupParametersRef, pindex: CG.Slot)
    | ConstLookup(lp: CG.LookupParametersRef, index: CG.u32)
    | ConstLookupRef(lp: CG.LookupParametersRef, pindex: CG.Slot)
  {
    /** The kind of leaf the call creates. */
    function Kind(): (op: CG.Op)
      ensures op.IsLeaf()
    {
      match this
      case Input(s) => CG.ScalarInput(CG.ScalarValue(s))
      case InputRef(ps) => CG.ScalarInput(CG.ScalarCell(ps))
      case InputData(d, pdata) => CG.VectorInput(d, pdata)
      case Parameter(p) => CG.ParameterLeaf(p)
      case Lookup(lp, index) => CG.LookupLeaf(lp, CG.IndexValue(index))
      case LookupRef(lp, pindex) => CG.LookupLeaf(lp, CG.IndexCell(pindex))
      case ConstLookup(lp, index) => CG.ConstLookupLeaf(lp, CG.IndexValue(index))
      case ConstLookupRef(lp, pindex) => CG.ConstLookupLeaf(lp, CG.IndexCell(pindex))
    }
  }

  /** The calls that take one handle (for `c - y`, the handle `y`). */
  datatype UnaryCall =
    | Negate
    | ConstMinus(c: CG.Real)
    | Tanh
    | Log
    | Exp
    | Logistic
    | Rectify
    | LogSoftmax
    | LogSoftmaxRestricted(allowed: seq<CG.u32>)
    | Softmax
    | Softsign
    | Noise(stddev: CG.Real)
    | Dropout(rate: CG.Real)
    | Reshape(to: CG.Dim)
    | Transpose
    | KmaxPooling(k: CG.u32)
    | Pick(v: CG.u32)
    | PickRef(pv: CG.Slot)
    | PickRange(v: CG.u32, u: CG.u32)
    | PickNegLogSoftmax(v: CG.u32)
    | SumCols
    | KmhNgram(n: CG.u32)
  {
    /** The kind of node the call creates, never a leaf. */
    function Kind(): (op: CG.Op)
      ensures !op.IsLeaf()
    {
      match this
      case Negate => CG.Negate
      case ConstMinus(c) => CG.ConstantMinusX(c)
      case Tanh => CG.Tanh
      case Log => CG.Log
      case Exp => CG.Exp
      case Logistic => CG.LogisticSigmoid
      case Rectify => CG.Rectify
      case LogSoftmax => CG.LogSoftmax
      case LogSoftmaxRestricted(allowed) => CG.RestrictedLogSoftmax(allowed)
      case Softmax => CG.Softmax
      case Softsign => CG.SoftSign
      case Noise(stddev) => CG.GaussianNoise(stddev)
      case Dropout(rate) => CG.Dropout(rate)
      case Reshape(to) => CG.Reshape(to)
      case Transpose => CG.Transpose
      case KmaxPooling(k) => CG.KMaxPooling(k)
      case Pick(v) => CG.PickElement(CG.IndexValue(v))
      case PickRef(pv) => CG.PickElement(CG.IndexCell(pv))
      case PickRange(v, u) => CG.PickRange(v, u)
      case PickNegLogSoftmax(v) => CG.PickNegLogSoftmax(v)
      case SumCols => CG.SumColumns
      case KmhNgram(n) => CG.KMHNGram(n)
    }
  }

  /** The calls that take two handles and record one node over both. */
  datatype BinaryCall =
    | Plus
    | Times
    | Cdiv
    | CwiseMultiply
    | DotProduct
    | SquaredDistance
    | HuberDistance(c: CG.Real)
    | L1Distance
    | BinaryLogLoss
    | PairwiseRankLoss(m: CG.Real)
    | Conv1dNarrow
  {
    /** The kind of node the call creates, never a leaf. */
    function Kind(): (op: CG.Op)
      ensures !op.IsLeaf()
    {
      match this
      case Plus => CG.Sum
      case Times => CG.MatrixMultiply
      case Cdiv => CG.CwiseQuotient
      case CwiseMultiply => CG.CwiseMultiply
      case DotProduct => CG.DotProduct
      case SquaredDistance => CG.SquaredEuclideanDistance
      case HuberDistance(c) => CG.HuberDistance(c)
      case L1Distance => CG.L1Distance
      case BinaryLogLoss => CG.BinaryLogLoss
      case PairwiseRankLoss(m) => CG.PairwiseRankLoss(m)
      case Conv1dNarrow => CG.Conv1DNarrow
    }
  }

  /** One call of the algebra with its arguments. */
  datatype Call =
    | Leaf(leaf: LeafCall)
    | Unary(u: UnaryCall, x: E.Expression)
    | Binary(b: BinaryCall, x: E.Expression, y: E.Expression)
    | Minus(x: E.Expression, y: E.Expression)
    | AffineTransform(xs: seq<E.Expression>)
  {
    /** The handles the call takes, in argument order. */
    function Handles(): seq<E.Expression> {
      match this
      case Leaf(_) => []
      case Unary(_, x) => [x]
      case Binary(_, x, y) => [x, y]
      case Minus(x, y) => [x, y]
      case AffineTransform(xs) => xs
    }

    /** The kind of the node whose handle the call returns. */
    function Kind(): CG.Op {
      match this
      case Leaf(l) => l.Kind()
      case Unary(u, _) => u.Kind()
      case Binary(b, _, _) => b.Kind()
      case Minus(_, _) => CG.Sum
      case AffineTransform(_) => CG.AffineTransform
    }
  }

  /** The caller's side of a call on the graph `g`: every handle belongs to `g`,
      and `affine_transform` gets at least one handle. */
  predicate Callable(g: CG.Graph, c: Call) {
    E.AllOn(c.Handles(), g.id) && (c.AffineTransform? ==> |c.xs| > 0)
  }

  /** A callable call whose handles all name nodes already present in `g`. */
  predicate Valid(g: CG.Graph, c: Call) {
    Callable(g, c) && forall e :: e in c.Handles() ==> e.i < |g.nodes|
  }

  /** The handle `e` names a node of `g`. */
  predicate Names(g: CG.Graph, e: E.Expression) {
    e.pg == g.id && e.i < |g.nodes|
  }

  /** Reference definition of what a call records on a graph with `base` nodes:
      `x - y` records Negate over `y` and then Sum over `x` and that Negate
      node; every other call records one node of its kind over its handles. */
  function Recorded(base: nat, c: Call): seq<CG.Node> {
    if c.Minus? then [CG.Node(CG.Negate, [c.y.i]), CG.Node(CG.Sum, [c.x.i, base])]
    else [CG.Node(c.Kind(), E.Indices(c.Handles()))]
  }

  /** Performs a leaf call on `g`: it records one leaf of the call's kind. */
  function ApplyLeaf(g: CG.Graph, l: LeafCall): (r: E.Built)
    ensures E.Records(g, r, CG.Node(l.Kind(), []), g.id)
  {
    match l
    case Input(s) => E.Input(g, s)
    case InputRef(ps) => E.InputRef(g, ps)
    case InputData(d, pdata) => E.InputData(g, d, pdata)
    case Parameter(p) => E.Parameter(g, p)
    case Lookup(lp, index) => E.Lookup(g, lp, index)
    case LookupRef(lp, pindex) => E.LookupRef(g, lp, pindex)
    case ConstLookup(lp, index) => E.ConstLookup(g, lp, index)
    case ConstLookupRef(lp, pindex) => E.ConstLookupRef(g, lp, pindex)
  }

  /** Performs a unary call on `g`: it records one node of the call's kind over `[x.i]`. */
  function ApplyUnary(g: CG.Graph, u: UnaryCall, x: E.Expression): (r: E.Built)
    requires x.pg == g.id
    ensures E.Records(g, r, CG.Node(u.Kind(), [x.i]), x.pg)
  {
    match u
    case Negate => E.Negate(g, x)
    case ConstMinus(c) => E.ConstMinus(g, c, x)
    case Tanh => E.Tanh(g, x)
    case Log => E.Log(g, x)
    case Exp => E.Exp(g, x)
    case Logistic => E.Logistic(g, x)
    case Rectify => E.Rectify(g, x)
    case LogSoftmax => E.LogSoftmax(g, x)
    case LogSoftmaxRestricted(allowed) => E.LogSoftmaxRestricted(g, x, allowed)
    case Softmax => E.Softmax(g, x)
    case Softsign => E.Softsign(g, x)
    case Noise(stddev) => E.Noise(g, x, stddev)
    case Dropout(rate) => E.Dropout(g, x, rate)
    case Reshape(to) => E.Reshape(g, x, to)
    case Transpose => E.Transpose(g, x)
    case KmaxPooling(k) => E.KmaxPooling(g, x, k)
    case Pick(v) => E.Pick(g, x, v)
    case PickRef(pv) => E.PickRef(g, x, pv)
    case PickRange(v, u) => E.PickRange(g, x, v, u)
    case PickNegLogSoftmax(v) => E.PickNegLogSoftmax(g, x, v)
    case SumCols => E.SumCols(g, x)
    case KmhNgram(n) => E.KmhNgram(g, x, n)
  }

  /** Performs a binary call on `g`: it records one node of the call's kind
      over `[x.i, y.i]`, bound to `x`'s graph. */
  function ApplyBinary(g: CG.Graph, b: BinaryCall, x: E.Expression, y: E.Expression): (r: E.Built)
    requires x.pg == g.id && y.pg == x.pg
    ensures E.Records(g, r, CG.Node(b.Kind(), [x.i, y.i]), x.pg)
  {
    match b
    case Plus => E.Plus(g, x, y)
    case Times => E.Times(g, x, y)
    case Cdiv => E.Cdiv(g, x, y)
    case CwiseMultiply => E.CwiseMultiply(g, x, y)
    case DotProduct => E.DotProduct(g, x, y)
    case SquaredDistance => E.SquaredDistance(g, x, y)
    case HuberDistance(c) => E.HuberDistance(g, x, y, c)
    case L1Distance => E.L1Distance(g, x, y)
    case BinaryLogLoss => E.BinaryLogLoss(g, x, y)
    case PairwiseRankLoss(m) => E.PairwiseRankLoss(g, x, y, m)
    case Conv1dNarrow => E.Conv1dNarrow(g, x, y)
  }

  /** Performs the call on `g`. */
  function Apply(g: CG.Graph, c: Call): (r: E.Built)
    requires Callable(g, c)
  {
    match c
    case Leaf(l) => ApplyLeaf(g, l)
    case Unary(u, x) => ApplyUnary(g, u, x)
    case Binary(b, x, y) => ApplyBinary(g, b, x, y)
    case Minus(x, y) => E.Minus(g, x, y)
    case AffineTransform(xs) => E.AffineTransform(g, xs)
  }

  /** The identities of zero, one or two handles, spelled out. */
  lemma IndicesOfFew(hs: seq<E.Expression>)
    ensures |hs| == 0 ==> E.Indices(hs) == []
    ensures |hs| == 1 ==> E.Indices(hs) == [hs[0].i]
    ensures |hs| == 2 ==> E.Indices(hs) == [hs[0].i, hs[1].i]
  {
  }

  /** Every call appends exactly the nodes of the reference definition, on the
      graph it is given, and returns a handle on that graph naming the last one. */
  lemma ApplyRecorded(g: CG.Graph, c: Call)
    requires Callable(g, c)
    ensures Apply(g, c).graph == CG.Graph(g.id, g.nodes + Recorded(|g.nodes|, c))
    ensures Apply(g, c).expr == E.Expression(g.id, |g.nodes| + |Recorded(|g.nodes|, c)| - 1)
  {
    var r := Apply(g, c);
    IndicesOfFew(c.Handles());
    match c
    case Leaf(_) =>
    case Unary(_, x) =>
      assert x in c.Handles();
    case Binary(_, x, _) =>
      assert x in c.Handles();
    case Minus(x, y) =>
      assert x in c.Handles();
      assert r.graph.nodes == r.graph.nodes[..|g.nodes|] + [r.graph.nodes[|g.nodes|], r.graph.nodes[|g.nodes| + 1]];
    case AffineTransform(xs) =>
      assert xs[0] in xs;
      assert r.graph.nodes[|g.nodes|].args == E.Indices(xs);
      assert r.graph.nodes == r.graph.nodes[..|g.nodes|] + [r.graph.nodes[|g.nodes|]];
  }

  /** Frame: a call only appends nodes to the graph it is given (one node, or
      two for `x - y`), and returns a handle on that graph naming the last node
      appended. Handles into the old graph stay valid. */
  lemma ApplyFrame(g: CG.Graph, c: Call)
    requires Callable(g, c)
    ensures CG.Extends(g, Apply(g, c).graph)
    ensures |Apply(g, c).graph.nodes| == |g.nodes| + (if c.Minus? then 2 else 1)
    ensures Apply(g, c).expr == E.Expression(g.id, |Apply(g, c).graph.nodes| - 1)
    ensures forall e :: Names(g, e) ==> Names(Apply(g, c).graph, e)
  {
    ApplyRecorded(g, c);
    assert (g.nodes + Recorded(|g.nodes|, c))[..|g.nodes|] == g.nodes;
  }

  /** Each node a call records on a graph of `|g.nodes|` nodes has operands
      below its own identity, provided the call's handles name present nodes. */
  lemma RecordedEarlier(g: CG.Graph, c: Call)
    requires Valid(g, c)
    ensures forall m, j :: 0 <= m < |Recorded(|g.nodes|, c)| && 0 <= j < |Recorded(|g.nodes|, c)[m].args|
                           ==> Recorded(|g.nodes|, c)[m].args[j] < |g.nodes| + m
  {
    var added := Recorded(|g.nodes|, c);
    if c.Minus? {
      assert c.x in c.Handles() && c.y in c.Handles();
    } else {
      forall j | 0 <= j < |added[0].args| ensures added[0].args[j] < |g.nodes| {
        assert c.Handles()[j] in c.Handles();
      }
    }
  }

  /** Well-formedness is preserved by every call whose handles name present nodes. */
  lemma ApplyWellFormed(g: CG.Graph, c: Call)
    requires Valid(g, c) && CG.WellFormed(g.nodes)
    ensures CG.WellFormed(Apply(g, c).graph.nodes)
  {
    ApplyRecorded(g, c);
    RecordedEarlier(g, c);
    CG.ConcatWellFormed(g.nodes, Recorded(|g.nodes|, c));
  }

  /** A call hands the kind of the node it returns as many operands as that
      kind takes. */
  lemma KindTakesHandles(c: Call)
    requires c.AffineTransform? ==> |c.xs| > 0
    ensures c.Kind().OperandCount().Admits(|c.Handles()|)
  {
    match c
    case Unary(u, _) => UnaryKindTakesOne(u);
    case Binary(b, _, _) => BinaryKindTakesTwo(b);
    case _ =>
  }

  /** Every unary call creates a kind that takes exactly one operand. */
  lemma UnaryKindTakesOne(u: UnaryCall)
    ensures u.Kind().OperandCount() == CG.Exactly(1)
  {
  }

  /** Every binary call creates a kind that takes exactly two operands. */
  lemma BinaryKindTakesTwo(b: BinaryCall)
    ensures b.Kind().OperandCount() == CG.Exactly(2)
  {
  }

  /** Every call appends nodes with the operand count their kind takes, so a
      graph whose nodes all have the right count keeps that property. */
  lemma ApplyShaped(g: CG.Graph, c: Call)
    requires Callable(g, c) && CG.Shaped(g.nodes)
    ensures CG.Shaped(Apply(g, c).graph.nodes)
  {
    ApplyRecorded(g, c);
    if c.Minus? {
      var neg := CG.Node(CG.Negate, [c.y.i]);
      var g1 := CG.Append(g, neg).0;
      CG.AppendShaped(g, neg);
      CG.AppendShaped(g1, CG.Node(CG.Sum, [c.x.i, |g.nodes|]));
      assert g1.nodes + [CG.Node(CG.Sum, [c.x.i, |g.nodes|])] == g.nodes + Recorded(|g.nodes|, c);
    } else {
      KindTakesHandles(c);
      CG.AppendShaped(g, Recorded(|g.nodes|, c)[0]);
    }
  }

  /** The calls can be made one after the other starting from `g`, each on the
      graph the previous ones left, with its handles on that graph. */
  predicate Feasible(g: CG.Graph, calls: seq<Call>)
    decreases |calls|
  {
    |calls| == 0 || (Callable(g, calls[0]) && Feasible(Apply(g, calls[0]).graph, calls[1..]))
  }

  /** In a feasible sequence, every call's handles name nodes present when it is made. */
  predicate HandlesPresent(g: CG.Graph, calls: seq<Call>)
    requires Feasible(g, calls)
    decreases |calls|
  {
    |calls| == 0
    || ((forall e :: e in calls[0].Handles() ==> e.i < |g.nodes|)
        && HandlesPresent(Apply(g, calls[0]).graph, calls[1..]))
  }

  /** A feasible sequence whose every call is `Valid` when it is made. */
  predicate Admissible(g: CG.Graph, calls: seq<Call>) {
    Feasible(g, calls) && HandlesPresent(g, calls)
  }

  /** Makes the calls in order; returns the final graph and the handle each call returned. */
  function Run(g: CG.Graph, calls: seq<Call>): (r: (CG.Graph, seq<E.Expression>))
    requires Feasible(g, calls)
    decreases |calls|
    ensures CG.Extends(g, r.0)
    ensures |r.1| == |calls|
    ensures forall k :: 0 <= k < |calls| ==> Names(r.0, r.1[k]) && r.1[k].i >= |g.nodes|
    ensures forall a, b :: 0 <= a < b < |calls| ==> r.1[a].i < r.1[b].i
  {
    if |calls| == 0 then (g, [])
    else
      var first := Apply(g, calls[0]);
      ApplyFrame(g, calls[0]);
      var rest := Run(first.graph, calls[1..]);
      CG.ExtendsTransitive(g, first.graph, rest.0);
      (rest.0, [first.expr] + rest.1)
  }

  /** A sequence of calls keeps the graph well formed and every node shaped. */
  lemma {:induction false} RunPreserves(g: CG.Graph, calls: seq<Call>)
    requires Admissible(g, calls)
    requires CG.WellFormed(g.nodes) && CG.Shaped(g.nodes)
    ensures CG.WellFormed(Run(g, calls).0.nodes) && CG.Shaped(Run(g, calls).0.nodes)
    decreases |calls|
  {
    if |calls| > 0 {
      ApplyWellFormed(g, calls[0]);
      ApplyShaped(g, calls[0]);
      RunPreserves(Apply(g, calls[0]).graph, calls[1..]);
    }
  }

  /** How many nodes a call registers: two for `x - y`, one for every other call. */
  function Registrations(c: Call): (n: nat)
    ensures n == 1 || n == 2
  {
    if c.Minus? then 2 else 1
  }

  /** How many nodes a sequence of calls registers in total. */
  function TotalRegistrations(calls: seq<Call>): (n: nat)
    decreases |calls|
  {
    if |calls| == 0 then 0 else Registrations(calls[0]) + TotalRegistrations(calls[1..])
  }

  /** Identities are handed out one by one, in call order: the graph grows by
      the total number of registrations, and the k-th call's handle names the
      last node registered by calls 0..k. */
  lemma {:induction false} RunIdentities(g: CG.Graph, calls: seq<Call>)
    requires Feasible(g, calls)
    ensures |Run(g, calls).0.nodes| == |g.nodes| + TotalRegistrations(calls)
    ensures forall k :: 0 <= k < |calls| ==>
              Run(g, calls).1[k].i == |g.nodes| + TotalRegistrations(calls[..k + 1]) - 1
    decreases |calls|
  {
    if |calls| > 0 {
      var first := Apply(g, calls[0]);
      ApplyFrame(g, calls[0]);
      RunIdentities(first.graph, calls[1..]);
      forall k | 0 <= k < |calls|
        ensures Run(g, calls).1[k].i == |g.nodes| + TotalRegistrations(calls[..k + 1]) - 1
      {
        assert calls[..k + 1][0] == calls[0];
        assert calls[..k + 1][1..] == calls[1..][..k];
        if k == 0 {
          assert calls[1..][..0] == [];
        }
      }
    }
  }

  /** Without subtraction every call registers exactly one node. */
  lemma {:induction false} TotalWithoutMinus(calls: seq<Call>)
    requires forall k :: 0 <= k < |calls| ==> !calls[k].Minus?
    ensures TotalRegistrations(calls) == |calls|
    decreases |calls|
  {
    if |calls| > 0 {
      TotalWithoutMinus(calls[1..]);
    }
  }

  /** From an empty graph, the k-th of N calls without subtraction receives identity k. */
  lemma RunFromEmpty(id: CG.GraphRef, calls: seq<Call>)
    requires Feasible(CG.Graph(id, []), calls)
    requires forall k :: 0 <= k < |calls| ==> !calls[k].Minus?
    ensures |Run(CG.Graph(id, []), calls).0.nodes| == |calls|
    ensures forall k :: 0 <= k < |calls| ==> Run(CG.Graph(id, []), calls).1[k] == E.Expression(id, k)
  {
    RunIdentities(CG.Graph(id, []), calls);
    TotalWithoutMinus(calls);
    forall k | 0 <= k < |calls|
      ensures Run(CG.Graph(id, []), calls).1[k] == E.Expression(id, k)
    {
      TotalWithoutMinus(calls[..k + 1]);
    }
  }
}
