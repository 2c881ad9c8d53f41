# Expression front end of the cnn computation graph, in Dafny

This project models `cnn/expr.cc`, the symbolic expression layer of the cnn
neural-network library. Every call there (`input`, `parameter`, `lookup`,
`tanh`, `x * y`, `affine_transform`, `pick`, ...) does no arithmetic: it
registers one node (two for `x - y`) in a `ComputationGraph` and returns an
`Expression`, a handle made of the graph pointer `pg` and the node's identity `i`.

Modelling assumption: the graph implementation is not part of this model. It
is abstracted as an append-only sequence of nodes tagged with the graph's
identity. `add_input`, `add_parameters`, `add_lookup`, `add_const_lookup` and
`add_function` each append exactly one node and return the previous length
of the sequence as the new node's identity. Under that assumption every
algebra function is a pure function from the graph before the call to the
graph after it plus the returned handle.

Files:

- `cg.dfy` (module `ComputationGraph`): opaque payloads (`Real`, `Dim`,
  `Slot` for a caller-owned cell behind a pointer, parameter tables), the
  closed catalogue `Op` of node kinds with per-kind payloads and operand
  counts, `Node`, `Graph`, the registration call `Append`, and the
  well-formedness predicate (every operand names a strictly earlier node).
- `expr.dfy` (module `Expr`): `Expression`, and one function per operation
  of `cnn/expr.cc`. Each contract names the node kind appended, the exact
  ordered operand list, the stored parameter, and the graph the result is
  bound to.
- `program.dfy` (module `Program`): every algebra call as one datatype
  `Call`, an independent reference definition `Recorded` of the nodes a
  call appends, the proof that every call matches it, and the frame,
  well-formedness, operand-count and identity properties for a single call
  and for sequences of calls. The frame and identity properties hold for
  any sequence whose handles are on the graph (`Feasible`). Preserving
  well-formedness also needs every handle to name a node already present
  (`Admissible`).
- `scenarios.dfy` (module `Scenarios`): the `x * y` example on an empty graph,
  operand order for non-commutative operations, `affine_transform` over
  three handles, and a fixed versus a cell-backed `pick` index.

Preconditions: a function requires its operand handles to be bound to the
graph it is given (`x.pg == g.id`), because the C++ call mutates the graph
`x.pg` points to. Operations with two or more operands also require them all
to be on the same graph. The source does not check this, so it is a caller
obligation, not an error path. `affine_transform` requires a non-empty list
because the source dereferences `xs.begin()` unconditionally.

`cnn/expr.cc` checks neither that operand identities name present nodes nor
that the `affine_transform` list is non-empty. The model appends without
checking. Well-formedness is proved for calls whose handles name present
nodes. The empty list is excluded by a precondition.

## Model

| member | source | states |
|---|---|---|
| `Expr.Input` | cnn/expr.cc:10 | appends exactly one leaf node with no operands that stores the scalar value `s`; the handle is on `g` and names the new node, whose identity is the old node count |
| `Expr.InputRef` | cnn/expr.cc:11 | appends one leaf node with no operands that stores the cell `ps`, not a value; the handle is on `g` and names that node |
| `Expr.InputData` | cnn/expr.cc:12 | appends one leaf node with no operands storing the dimension `d` and the data cell `pdata`; the handle is on `g` and names that node |
| `Expr.Parameter` | cnn/expr.cc:13 | appends one leaf node with no operands bound to the parameter table `p`; the handle is on `g` and names that node |
| `Expr.Lookup` | cnn/expr.cc:14 | appends one lookup leaf on table `p` storing the fixed index `index`; the handle is on `g` and names that node |
| `Expr.LookupRef` | cnn/expr.cc:15 | appends one lookup leaf on table `p` storing the index cell `pindex`; the handle is on `g` and names that node |
| `Expr.ConstLookup` | cnn/expr.cc:16 | appends one constant-lookup leaf on table `p` storing the fixed index; the handle is on `g` and names that node |
| `Expr.ConstLookupRef` | cnn/expr.cc:17 | appends one constant-lookup leaf on table `p` storing the index cell; the handle is on `g` and names that node |
| `Expr.Negate` | cnn/expr.cc:19 | unary minus appends exactly one Negate node with operands `[x.i]`; the result is bound to `x.pg` and names that node |
| `Expr.Plus` | cnn/expr.cc:20 | appends exactly one Sum node with operands `[x.i, y.i]`, in call order; the result is bound to `x.pg` |
| `Expr.Minus` | cnn/expr.cc:19-21 | `x - y` appends exactly two nodes: first Negate over `[y.i]`, then Sum over `[x.i, k]` where `k` is that Negate node; the result names the Sum node, on `x.pg`, and the old nodes are unchanged |
| `Expr.ConstMinus` | cnn/expr.cc:22 | `c - y` appends one ConstantMinusX node that stores `c`, with operands `[y.i]`; the result is bound to `y.pg` |
| `Expr.Times` | cnn/expr.cc:23 | appends one MatrixMultiply node with operands exactly `[x.i, y.i]` (order kept); the result is bound to `x.pg` |
| `Expr.Cdiv` | cnn/expr.cc:24 | appends one CwiseQuotient node with operands exactly `[x.i, y.i]` (order kept); the result is bound to `x.pg` |
| `Expr.Tanh` | cnn/expr.cc:26 | appends one Tanh node with operands `[x.i]`; the result is bound to `x.pg` |
| `Expr.Log` | cnn/expr.cc:27 | appends one Log node with operands `[x.i]`; the result is bound to `x.pg` |
| `Expr.Exp` | cnn/expr.cc:28 | appends one Exp node with operands `[x.i]`; the result is bound to `x.pg` |
| `Expr.Logistic` | cnn/expr.cc:29 | appends one LogisticSigmoid node with operands `[x.i]`; the result is bound to `x.pg` |
| `Expr.Rectify` | cnn/expr.cc:30 | appends one Rectify node with operands `[x.i]`; the result is bound to `x.pg` |
| `Expr.LogSoftmax` | cnn/expr.cc:31 | appends one LogSoftmax node with operands `[x.i]`; the result is bound to `x.pg` |
| `Expr.LogSoftmaxRestricted` | cnn/expr.cc:32 | appends one RestrictedLogSoftmax node storing the allowed-index list `d` as given, with operands `[x.i]`; bound to `x.pg` |
| `Expr.Softmax` | cnn/expr.cc:33 | appends one Softmax node with operands `[x.i]`; the result is bound to `x.pg` |
| `Expr.Softsign` | cnn/expr.cc:34 | appends one SoftSign node with operands `[x.i]`; the result is bound to `x.pg` |
| `Expr.Noise` | cnn/expr.cc:35 | appends one GaussianNoise node storing `stddev`, with operands `[x.i]`; bound to `x.pg` |
| `Expr.Dropout` | cnn/expr.cc:36 | appends one Dropout node storing the rate `p`, with operands `[x.i]`; bound to `x.pg` |
| `Expr.Reshape` | cnn/expr.cc:38 | appends one Reshape node storing the target dimension `d`, with operands `[x.i]`; bound to `x.pg` |
| `Expr.Transpose` | cnn/expr.cc:39 | appends one Transpose node with operands `[x.i]`; the result is bound to `x.pg` |
| `Expr.Indices` | cnn/expr.cc:43-45 | the collected identity list has one entry per handle, and entry `k` is the identity of the `k`-th handle in iteration order |
| `Expr.AffineTransform` | cnn/expr.cc:41-47 | for a non-empty list, appends one AffineTransform node whose operand list has one entry per handle and whose `k`-th operand is `xs[k].i`; the result is bound to the first handle's graph; old nodes unchanged |
| `Expr.CwiseMultiply` | cnn/expr.cc:48 | appends one CwiseMultiply node with operands `[x.i, y.i]`; the result is bound to `x.pg` |
| `Expr.DotProduct` | cnn/expr.cc:50 | appends one DotProduct node with operands `[x.i, y.i]`; the result is bound to `x.pg` |
| `Expr.SquaredDistance` | cnn/expr.cc:51 | appends one SquaredEuclideanDistance node with operands `[x.i, y.i]`; bound to `x.pg` |
| `Expr.HuberDistance` | cnn/expr.cc:52 | appends one HuberDistance node storing the threshold `c`, with operands `[x.i, y.i]`; bound to `x.pg` |
| `Expr.L1Distance` | cnn/expr.cc:53 | appends one L1Distance node with operands `[x.i, y.i]`; bound to `x.pg` |
| `Expr.BinaryLogLoss` | cnn/expr.cc:54 | appends one BinaryLogLoss node with operands `[x.i, y.i]`; bound to `x.pg` |
| `Expr.PairwiseRankLoss` | cnn/expr.cc:55 | appends one PairwiseRankLoss node storing the margin `m`, with operands `[x.i, y.i]`; bound to `x.pg` |
| `Expr.Conv1dNarrow` | cnn/expr.cc:57 | appends one Conv1DNarrow node with operands `[x.i, f.i]` (signal, then filter); bound to `x.pg` |
| `Expr.KmaxPooling` | cnn/expr.cc:59 | appends one KMaxPooling node storing `k`, with operands `[x.i]`; bound to `x.pg` |
| `Expr.Pick` | cnn/expr.cc:61 | appends one PickElement node storing the fixed index value `v`, with operands `[x.i]`; bound to `x.pg` |
| `Expr.PickRef` | cnn/expr.cc:62 | appends one PickElement node storing the cell `pv` itself, not its contents, with operands `[x.i]`; bound to `x.pg` |
| `Expr.PickRange` | cnn/expr.cc:63 | appends one PickRange node storing the pair `(v, u)` in that order, with operands `[x.i]`; bound to `x.pg` |
| `Expr.PickNegLogSoftmax` | cnn/expr.cc:65 | appends one PickNegLogSoftmax node storing the label `v`, with operands `[x.i]`; bound to `x.pg` |
| `Expr.SumCols` | cnn/expr.cc:67 | appends one SumColumns node with operands `[x.i]`; bound to `x.pg` |
| `Expr.KmhNgram` | cnn/expr.cc:69 | appends one KMHNGram node storing `n`, with operands `[x.i]`; bound to `x.pg` |
| `ComputationGraph.AppendFrame` | cnn/expr.cc:10-17 | the registration step all calls go through: the graph keeps its identity and its old nodes, grows by one, and the returned identity is the old length and names the new node |
| `ComputationGraph.ConcatWellFormed` | cnn/expr.cc:19-21 | appending nodes whose operands are each below the new node's own identity keeps the whole graph well formed |
| `ComputationGraph.AppendShaped` | cnn/expr.cc:19-20 | appending a node with as many operands as its kind takes keeps every node correctly shaped |
| `ComputationGraph.IndexSourceReadsCell` | cnn/expr.cc:61-62 | an index fixed at call time is unaffected by later writes to any cell; an index held as a cell reads whatever the cell holds when the graph is evaluated |
| `Program.ApplyLeaf` | cnn/expr.cc:10-17 | each leaf call records exactly one node of the leaf kind the call names, with no operands, on the graph it was given |
| `Program.ApplyUnary` | cnn/expr.cc:19-69 | each one-handle call records exactly one node of the kind the call names over `[x.i]`, bound to `x.pg` |
| `Program.ApplyBinary` | cnn/expr.cc:20-57 | each two-handle call records exactly one node of the kind the call names over `[x.i, y.i]`, bound to `x.pg` |
| `Program.ApplyRecorded` | cnn/expr.cc:10-69 | every call of the algebra appends exactly the nodes of the independent reference definition `Recorded` (its kind over its handles' identities, or Negate then Sum for `x - y`) and returns a handle on the same graph naming the last one |
| `Program.KindTakesHandles` | cnn/expr.cc:10-69 | each call passes its node kind as many operands as that kind takes: none for leaves, one for unary, two for binary, at least one for `affine_transform` |
| `Program.UnaryKindTakesOne` | cnn/expr.cc:19-69 | every node kind created by a one-handle call takes exactly one operand |
| `Program.BinaryKindTakesTwo` | cnn/expr.cc:20-57 | every node kind created by a two-handle call takes exactly two operands |
| `Program.RecordedEarlier` | cnn/expr.cc:10-69 | when the call's handles name present nodes, each recorded node's operands are below its own identity, including the Sum of `x - y`, whose second operand is the Negate node just before it |
| `Program.ApplyFrame` | cnn/expr.cc:10-69 | frame: every call keeps the graph identity and every existing node unchanged, grows the graph by one node (two for `x - y`), returns a handle naming the last new node, and keeps old handles valid |
| `Program.ApplyWellFormed` | cnn/expr.cc:10-69 | if the graph is well formed and every operand handle names a node already in the graph, it stays well formed after the call: every node, old and new, has operands strictly below its own identity |
| `Program.ApplyShaped` | cnn/expr.cc:10-69 | if every node has as many operands as its kind takes, that stays true after any call |
| `Program.Run` | cnn/expr.cc:10-69 | a sequence of calls whose handles are on the graph (present or not) only extends the starting graph; each returned handle names a node of the final graph that did not exist before, and handles returned later have strictly larger identities |
| `Program.RunPreserves` | cnn/expr.cc:10-69 | starting from a well-formed graph whose nodes have their kinds' operand counts, a sequence of calls whose handles name nodes present when each call is made keeps the graph well formed and every node correctly shaped |
| `Program.RunIdentities` | cnn/expr.cc:10-69 | for any sequence of calls whose handles are on the graph, whether or not they name present nodes, the graph grows by the total number of registrations (two for `x - y`, one for every other call), and the `k`-th call's handle names the last node registered by calls 0..`k`: old length + registrations of calls 0..`k` - 1 |
| `Program.TotalWithoutMinus` | cnn/expr.cc:10-69 | without subtraction every call registers exactly one node, so a sequence of N calls registers N nodes |
| `Program.RunFromEmpty` | cnn/expr.cc:10-69 | on an empty graph, the `k`-th of N calls without subtraction, with handles on that graph, receives the handle `(g, k)` |
| `Scenarios.ProductOfTwoInputs` | cnn/expr.cc:10-23 | on an empty graph, two scalar inputs get identities 0 and 1, and their product is a MatrixMultiply node over `[0, 1]` with identity 2; nothing is computed |
| `Scenarios.NonCommutativeOrderKept` | cnn/expr.cc:23-24 | swapping two distinct operands of a matrix product or a componentwise quotient records a different node |
| `Scenarios.AffineOfThree` | cnn/expr.cc:41-47 | `affine_transform({a, b, c})` appends exactly one node with operands `[a.i, b.i, c.i]`, bound to `a`'s graph |
| `Scenarios.PickValueVersusCell` | cnn/expr.cc:61-62 | a fixed-value pick and a cell-backed pick of the same input are distinct nodes; with the cell later holding `w`, the first still picks `v` and the second picks `w` |

## Left out

- The numeric meaning of every node kind (Tanh, LogSoftmax, Conv1DNarrow, KMHNGram, ...). Those are defined in `cnn/nodes.h` and `cnn/conv.h`, which are not part of this model; kinds are opaque tags.
- Forward and backward evaluation, node dimensions, and the graph's storage beyond the append-only abstraction. The graph implementation (`cnn/cg.h`, `cnn/cg.cc`) is not part of this model.
- Floating-point arguments (scalar inputs, noise standard deviation, dropout rate, Huber threshold, rank margin, the constant in `c - y`) and `std::vector<float>` data: stored as opaque `Real` and `Slot` tokens, never computed with.
- `Dim`, `Parameters` and `LookupParameters`: opaque identifiers.
- Pointer lifetime and aliasing for `const real*`, `const unsigned*` and `unsigned*`: a pointer is an opaque `Slot`, and its contents are only consulted by `IndexSource.Current`, which stands in for a later evaluation pass.
- A checked graph-mismatch error when handles from two graphs are combined: the source does not check this, so it is a precondition.
- Validation of operand identities at registration time: the source does not do it in this file, and the graph implementation is not modelled. Well-formedness is proved for calls whose handles name present nodes.
- 32-bit overflow of node identities: identities are unbounded naturals. `unsigned` call arguments are modelled exactly as 32-bit values.
- `conv1d_wide`: commented out in the source.
