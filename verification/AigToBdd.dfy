/** From an and-inverter graph to the decision diagrams of its outputs. */
module AigToBdd {
  import opened Aig
  import opened Bdd

  /** No operation meets the empty handle of the constant object: no node uses the constant, and no output complements
      it. */
  predicate HandlesDefined(g: Aig) {
    ConstantFree(g.objs) && forall k | 0 <= k < |g.cos| :: g.cos[k] != Fanin(0, true)
  }

  /** The diagram denotes the object. */
  ghost predicate Denotes(g: Aig, id: nat, p: NodePtr)
    requires WellFormedAig(g) && id < |g.objs|
  {
    p.Ptr? && Ordered(p.node, 0, |g.cis|) && forall a :: EvalBdd(p.node, a) == Value(g.objs, id, a)
  }

  /** The diagram denotes the edge; the constant alone has none. */
  ghost predicate DenotesEdge(g: Aig, e: Fanin, p: NodePtr)
    requires WellFormedAig(g) && e.id < |g.objs|
  {
    if p.Ptr? then Ordered(p.node, 0, |g.cis|) && forall a :: EvalBdd(p.node, a) == EdgeValue(g.objs, e, a)
    else e == Fanin(0, false) && forall a :: !EdgeValue(g.objs, e, a)
  }

  function Edge(p: NodePtr, cmpl: bool): NodePtr
    requires p.Ptr?
  {
    Ptr(if cmpl then BddNot(p.node) else p.node)
  }

  lemma EdgeDenotes(g: Aig, e: Fanin, p: NodePtr)
    requires WellFormedAig(g) && e.id < |g.objs| && Denotes(g, e.id, p)
    ensures p.Ptr? && DenotesEdge(g, e, Edge(p, e.cmpl))
  {
    hide EvalBdd, Ordered, Value;
    forall a ensures EvalBdd(Edge(p, e.cmpl).node, a) == EdgeValue(g.objs, e, a) {
      NotEval(p.node, 0, |g.cis|, a);
    }
    NotEval(p.node, 0, |g.cis|, {});
  }

  lemma NodeDenotes(g: Aig, i: nat, p0: NodePtr, p1: NodePtr)
    requires WellFormedAig(g) && i < |g.objs| && g.objs[i].AndNode? && p0.Ptr? && p1.Ptr?
    requires DenotesEdge(g, g.objs[i].fanin0, p0) && DenotesEdge(g, g.objs[i].fanin1, p1)
    ensures Denotes(g, i, Ptr(BddAnd(p0.node, p1.node)))
  {
    hide EvalBdd, Ordered, BddAnd;
    AndOrdered(p0.node, p1.node, 0, |g.cis|);
    forall a ensures EvalBdd(BddAnd(p0.node, p1.node), a) == Value(g.objs, i, a) { AndEval(p0.node, p1.node, a); }
  }

  lemma InputDenotes(g: Aig, id: nat)
    requires WellFormedAig(g) && id < |g.objs| && g.objs[id].Ci?
    ensures Denotes(g, id, Ptr(Node(g.objs[id].index, Zero, One)))
  {
  }

  lemma EmptyHandle(g: Aig)
    requires WellFormedAig(g)
    ensures DenotesEdge(g, Fanin(0, false), Null)
  {
  }

  /** The diagrams of all outputs, node by node in topological order. An operation on the empty handle of the constant
      has no result, and then `ok` is false. */
  method AigToBdd(g: Aig) returns (ok: bool, outputs: seq<NodePtr>)
    requires WellFormedAig(g)
    ensures ok <==> HandlesDefined(g)
    ensures ok ==> |outputs| == |g.cos| && forall k | 0 <= k < |g.cos| :: DenotesEdge(g, g.cos[k], outputs[k])
  {
    hide EvalBdd, Ordered, Value, Denotes, BddAnd, EdgeValue, DenotesEdge;
    var nodes: seq<NodePtr> := seq(|g.objs|, _ => Null);
    for i := 0 to |g.cis|
      invariant |nodes| == |g.objs|
      invariant forall j | 0 <= j < i :: nodes[g.cis[j]] == Ptr(Node(j, Zero, One))
      invariant forall id | 0 <= id < |g.objs| && !g.objs[id].Ci? :: nodes[id] == Null
    {
      nodes := nodes[g.cis[i] := Ptr(Node(i, Zero, One))];
    }
    forall id | 0 <= id < |g.objs| && g.objs[id].Ci? ensures Denotes(g, id, nodes[id]) {
      assert g.cis[g.objs[id].index] == id;
      InputDenotes(g, id);
    }
    for i := 0 to |g.objs|
      invariant |nodes| == |g.objs| && nodes[0] == Null
      invariant forall id | 0 < id < |g.objs| && (id < i || g.objs[id].Ci?) :: Denotes(g, id, nodes[id])
      invariant forall id | 0 <= id < i && g.objs[id].AndNode? :: g.objs[id].fanin0.id != 0 && g.objs[id].fanin1.id != 0
    {
      if g.objs[i].AndNode? {
        var e0, e1 := g.objs[i].fanin0, g.objs[i].fanin1;
        if e0.id == 0 || e1.id == 0 {
          return false, [];
        }
        EdgeDenotes(g, e0, nodes[e0.id]);
        EdgeDenotes(g, e1, nodes[e1.id]);
        var b1, b2 := Edge(nodes[e0.id], e0.cmpl), Edge(nodes[e1.id], e1.cmpl);
        NodeDenotes(g, i, b1, b2);
        nodes := nodes[i := Ptr(BddAnd(b1.node, b2.node))];
      }
    }
    outputs := [];
    EmptyHandle(g);
    for k := 0 to |g.cos|
      invariant |outputs| == k && forall j | 0 <= j < k :: DenotesEdge(g, g.cos[j], outputs[j])
      invariant forall j | 0 <= j < k :: g.cos[j] != Fanin(0, true)
    {
      var e := g.cos[k];
      if e.id != 0 {
        EdgeDenotes(g, e, nodes[e.id]);
        outputs := outputs + [Edge(nodes[e.id], e.cmpl)];
      } else if e.cmpl {
        return false, [];
      } else {
        outputs := outputs + [nodes[0]];
      }
    }
    return true, outputs;
  }
}
