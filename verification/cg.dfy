/**
 The computation graph as seen by the expression front end.

 MODELLING ASSUMPTION. The graph's own implementation (its node storage and
 its `add_input`, `add_parameters`, `add_lookup`, `add_const_lookup` and
 `add_function` entry points) is not part of this model. It is abstracted
 here as an append-only sequence of nodes tagged with the identity of the
 graph instance: every registration call appends exactly one node and
 returns the length the sequence had before the call, which is the new
 node's identity (its `VariableIndex`). Registration performs no check on
 its operands; whether a graph is well formed is a property proved about
 the calls, not an error path.

 Floating-point values, dimensions, parameter tables and the memory cells
 behind `const real*` / `const unsigned*` / `unsigned*` pointers are opaque
 tokens: the model stores them and compares them, and never computes with
 them.
 */
module ComputationGraph {

  /** C++ `unsigned`: a 32-bit machine word, stored as given. */
  newtype u32 = x: int | 0 <= x < 0x1_0000_0000

  /** A node identity inside one graph. */
  type VariableIndex = nat

  /** Opaque payloads. */
  datatype Real = Real(token: int)                 // a `real` passed by value
  datatype Dim = Dim(token: nat)                   // a `Dim` (shape) passed by value
  datatype Slot = Slot(address: nat)               // an externally owned, mutable cell behind a pointer
  datatype ParametersRef = ParametersRef(address: nat)
  datatype LookupParametersRef = LookupParametersRef(address: nat)

  /** The identity of one `ComputationGraph` instance (the pointer `&g`). */
  datatype GraphRef = GraphRef(address: nat)

  /** A scalar input: a value captured at call time, or a cell read later. */
  datatype ScalarSource = ScalarValue(s: Real) | ScalarCell(ps: Slot)

  /** An index argument: a value captured at call time, or a cell read later. */
  datatype IndexSource = IndexValue(v: u32) | IndexCell(pv: Slot) {

    /** The index a deferred evaluation would use, given the current contents
        of the caller-owned cells. */
    function Current(cells: map<Slot, u32>): u32
      requires IndexCell? ==> pv in cells
    {
      match this
      case IndexValue(v) => v
      case IndexCell(pv) => cells[pv]
    }
  }

  /** The closed catalogue of node kinds, each with its own parameter payload. */
  datatype Op =
    // leaves, created by the graph's registration calls
    | ScalarInput(src: ScalarSource)
    | VectorInput(d: Dim, pdata: Slot)
    | ParameterLeaf(p: ParametersRef)
    | LookupLeaf(lp: LookupParametersRef, index: IndexSource)
    | ConstLookupLeaf(lp: LookupParametersRef, index: IndexSource)
    // functions, created by `add_function`
    | Negate
    | Sum
    | ConstantMinusX(c: Real)
    | MatrixMultiply
    | CwiseQuotient
    | CwiseMultiply
    | Tanh
    | Log
    | Exp
    | LogisticSigmoid
    | Rectify
    | LogSoftmax
    | RestrictedLogSoftmax(allowed: seq<u32>)
    | Softmax
    | SoftSign
    | GaussianNoise(stddev: Real)
    | Dropout(rate: Real)
    | Reshape(to: Dim)
    | Transpose
    | AffineTransform
    | DotProduct
    | SquaredEuclideanDistance
    | HuberDistance(c: Real)
    | L1Distance
    | BinaryLogLoss
    | PairwiseRankLoss(m: Real)
    | Conv1DNarrow
    | KMaxPooling(k: u32)
    | PickElement(index: IndexSource)
    | PickRange(v: u32, u: u32)
    | PickNegLogSoftmax(v: u32)
    | SumColumns
    | KMHNGram(n: u32)
  {
    predicate IsLeaf() {
      ScalarInput? || VectorInput? || ParameterLeaf? || LookupLeaf? || ConstLookupLeaf?
    }

    /** How many operands a node of this kind takes. */
    function OperandCount(): Arity {
      if IsLeaf() then Exactly(0)
      else if AffineTransform? then AtLeastOne
      else if Sum? || MatrixMultiply? || CwiseQuotient? || CwiseMultiply? || DotProduct?
           || SquaredEuclideanDistance? || HuberDistance? || L1Distance? || BinaryLogLoss?
           || PairwiseRankLoss? || Conv1DNarrow?
      then Exactly(2)
      else Exactly(1)
    }
  }

  datatype Arity = Exactly(n: nat) | AtLeastOne {
    predicate Admits(count: nat) {
      match this
      case Exactly(n) => count == n
      case AtLeastOne => count >= 1
    }
  }

  /** One registered operation: its kind (with payload) and its ordered operands. */
  datatype Node = Node(op: Op, args: seq<VariableIndex>)

  datatype Graph = Graph(id: GraphRef, nodes: seq<Node>)

  /** Every operand of every node names a strictly earlier node. */
  predicate WellFormed(nodes: seq<Node>) {
    forall k, j :: 0 <= k < |nodes| && 0 <= j < |nodes[k].args| ==> nodes[k].args[j] < k
  }

  /** Every node has as many operands as its kind takes. */
  predicate Shaped(nodes: seq<Node>) {
    forall k :: 0 <= k < |nodes| ==> nodes[k].op.OperandCount().Admits(|nodes[k].args|)
  }

  /** `g'` is `g` with nodes appended and nothing else changed. */
  predicate Extends(g: Graph, g': Graph) {
    g'.id == g.id && |g.nodes| <= |g'.nodes| && g'.nodes[..|g.nodes|] == g.nodes
  }

  /** Every index in `args` names a node already present in `g`. */
  predicate Present(g: Graph, args: seq<VariableIndex>) {
    forall j :: 0 <= j < |args| ==> args[j] < |g.nodes|
  }

  /** The registration protocol: append one node, return its identity. */
  function Append(g: Graph, n: Node): (r: (Graph, VariableIndex))
  {
    (g.(nodes := g.nodes + [n]), |g.nodes|)
  }

  function AddInput(g: Graph, src: ScalarSource): (r: (Graph, VariableIndex))
  {
    Append(g, Node(ScalarInput(src), []))
  }

  function AddVectorInput(g: Graph, d: Dim, pdata: Slot): (r: (Graph, VariableIndex))
  {
    Append(g, Node(VectorInput(d, pdata), []))
  }

  function AddParameters(g: Graph, p: ParametersRef): (r: (Graph, VariableIndex))
  {
    Append(g, Node(ParameterLeaf(p), []))
  }

  function AddLookup(g: Graph, p: LookupParametersRef, index: IndexSource): (r: (Graph, VariableIndex))
  {
    Append(g, Node(LookupLeaf(p, index), []))
  }

  function AddConstLookup(g: Graph, p: LookupParametersRef, index: IndexSource): (r: (Graph, VariableIndex))
  {
    Append(g, Node(ConstLookupLeaf(p, index), []))
  }

  function AddFunction(g: Graph, op: Op, args: seq<VariableIndex>): (r: (Graph, VariableIndex))
    requires !op.IsLeaf()
  {
    Append(g, Node(op, args))
  }

  /** Registration keeps the graph's identity and its old nodes, grows it by
      one node, and returns the old length, which names the new node. */
  lemma AppendFrame(g: Graph, n: Node)
    ensures Extends(g, Append(g, n).0) && |Append(g, n).0.nodes| == |g.nodes| + 1
    ensures Append(g, n).1 == |g.nodes| && Append(g, n).0.nodes[Append(g, n).1] == n
  {
    assert Append(g, n).0.nodes[..|g.nodes|] == g.nodes;
  }

  /** Appending nodes keeps the graph well formed when each new node's
      operands are below that node's own identity. */
  lemma ConcatWellFormed(nodes: seq<Node>, added: seq<Node>)
    requires WellFormed(nodes)
    requires forall m, j :: 0 <= m < |added| && 0 <= j < |added[m].args| ==> added[m].args[j] < |nodes| + m
    ensures WellFormed(nodes + added)
  {
    var all := nodes + added;
    forall k, j | 0 <= k < |all| && 0 <= j < |all[k].args|
      ensures all[k].args[j] < k
    {
      if k < |nodes| {
        assert all[k] == nodes[k];
      } else {
        assert all[k] == added[k - |nodes|];
      }
    }
  }

  /** Appending a node with the operand count its kind takes keeps every node shaped. */
  lemma AppendShaped(g: Graph, n: Node)
    requires Shaped(g.nodes) && n.op.OperandCount().Admits(|n.args|)
    ensures Shaped(Append(g, n).0.nodes)
  {
    AppendFrame(g, n);
    var nodes' := Append(g, n).0.nodes;
    forall k | 0 <= k < |nodes'|
      ensures nodes'[k].op.OperandCount().Admits(|nodes'[k].args|)
    {
      if k < |g.nodes| {
        assert nodes'[k] == nodes'[..|g.nodes|][k];
      }
    }
  }

  /** Extension is transitive: a graph only ever grows. */
  lemma ExtendsTransitive(g1: Graph, g2: Graph, g3: Graph)
    requires Extends(g1, g2) && Extends(g2, g3)
    ensures Extends(g1, g3)
  {
    assert g3.nodes[..|g1.nodes|] == g3.nodes[..|g2.nodes|][..|g1.nodes|];
  }

  /** A value index ignores the cells; a cell index reads the cell's contents at
      evaluation time, so writing the cell changes it. */
  lemma IndexSourceReadsCell(src: IndexSource, cells: map<Slot, u32>, s: Slot, w: u32)
    requires src.IndexCell? ==> src.pv in cells
    ensures src.IndexValue? ==> src.Current(cells[s := w]) == src.Current(cells) == src.v
    ensures src.IndexCell? && src.pv == s ==> src.Current(cells[s := w]) == w
    ensures src.IndexCell? && src.pv != s ==> src.Current(cells[s := w]) == cells[src.pv]
  {
  }
}
