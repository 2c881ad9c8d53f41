/**
 Concrete consequences of the algebra's contracts: the multiplication example,
 operand order for non-commutative operations, the operand list of an affine
 transform over three handles, and the difference between a picked index
 fixed at call time and one read from a cell.
 */
module Scenarios {
  import CG = ComputationGraph
  import E = Expr

  /** On an empty graph, `x = input(2.0)` gets identity 0, `y = input(3.0)`
      identity 1, and `x * y` records a MatrixMultiply node over `[0, 1]` with
      identity 2. The values 2.0 and 3.0 are stored, never multiplied. */
  lemma ProductOfTwoInputs(id: CG.GraphRef, two: CG.Real, three: CG.Real)
    ensures var x := E.Input(CG.Graph(id, []), two);
            var y := E.Input(x.graph, three);
            var e := E.Times(y.graph, x.expr, y.expr);
            && x.expr == E.Expression(id, 0)
            && y.expr == E.Expression(id, 1)
            && e.expr == E.Expression(id, 2)
            && e.graph.nodes == [CG.Node(CG.ScalarInput(CG.ScalarValue(two)), []),
                                 CG.Node(CG.ScalarInput(CG.ScalarValue(three)), []),
                                 CG.Node(CG.MatrixMultiply, [0, 1])]
  {
  }

  /** Swapping the operands of a matrix product or a componentwise quotient
      records a different node. */
  lemma NonCommutativeOrderKept(g: CG.Graph, x: E.Expression, y: E.Expression)
    requires x.pg == g.id && y.pg == g.id && x.i != y.i
    ensures E.Times(g, x, y).graph != E.Times(g, y, x).graph
    ensures E.Cdiv(g, x, y).graph != E.Cdiv(g, y, x).graph
  {
    assert E.Times(g, x, y).graph.nodes[|g.nodes|].args[0] == x.i;
    assert E.Times(g, y, x).graph.nodes[|g.nodes|].args[0] == y.i;
    assert E.Cdiv(g, x, y).graph.nodes[|g.nodes|].args[0] == x.i;
    assert E.Cdiv(g, y, x).graph.nodes[|g.nodes|].args[0] == y.i;
  }

  /** `affine_transform({a, b, c})` records one node whose operands are exactly
      `[a, b, c]`, and the result is bound to `a`'s graph. */
  lemma AffineOfThree(g: CG.Graph, a: E.Expression, b: E.Expression, c: E.Expression)
    requires a.pg == g.id && b.pg == g.id && c.pg == g.id
    ensures var r := E.AffineTransform(g, [a, b, c]);
            && r.graph.nodes == g.nodes + [CG.Node(CG.AffineTransform, [a.i, b.i, c.i])]
            && r.expr == E.Expression(a.pg, |g.nodes|)
  {
    var r := E.AffineTransform(g, [a, b, c]);
    assert r.graph.nodes[|g.nodes|].args == [a.i, b.i, c.i];
    assert r.graph.nodes == r.graph.nodes[..|g.nodes|] + [r.graph.nodes[|g.nodes|]];
  }

  /** `pick(x, v)` followed by `pick(x, &cell)` records two distinct nodes.
      When the graph is later evaluated with `cell` holding `w`, the first
      still picks `v` and the second picks `w`. */
  lemma PickValueVersusCell(g: CG.Graph, x: E.Expression, v: CG.u32, cell: CG.Slot,
                            cells: map<CG.Slot, CG.u32>, w: CG.u32)
    requires x.pg == g.id
    ensures var a := E.Pick(g, x, v);
            var b := E.PickRef(a.graph, x, cell);
            var later := cells[cell := w];
            && a.expr != b.expr
            && b.graph.nodes[a.expr.i].op.index.Current(later) == v
            && b.graph.nodes[b.expr.i].op.index.Current(later) == w
  {
    var a := E.Pick(g, x, v);
    var b := E.PickRef(a.graph, x, cell);
    assert b.graph.nodes[a.expr.i] == a.graph.nodes[a.expr.i];
    CG.IndexSourceReadsCell(CG.IndexValue(v), cells, cell, w);
  }
}
