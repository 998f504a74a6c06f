/** Cofactoring a graph: it is built anew with one input replaced by a constant, which folds away. */
module Cofactors {
  import opened Cube32
  import opened Aig
  import opened EsopToAig

  function SetVar(a: Assignment, v: nat, value: bool): Assignment {
    if value then a + {v} else a - {v}
  }

  /** The literal stands for object `id` with input `v` fixed, and no longer depends on that input. */
  ghost predicate Copied(g: Aig, v: nat, value: bool, objs: seq<Obj>, id: nat, lit: nat)
    requires WellFormedAig(g) && id < |g.objs|
  {
    && Topological(objs) && lit / 2 < |objs|
    && (forall a :: LitValue(objs, lit, a) == Value(g.objs, id, SetVar(a, v, value)))
    && Cone(objs, lit / 2) <= Cone(g.objs, id) - {v}
  }

  ghost predicate CopiedEdge(g: Aig, v: nat, value: bool, objs: seq<Obj>, f: Fanin, lit: nat)
    requires WellFormedAig(g) && f.id < |g.objs|
  {
    && Topological(objs) && lit / 2 < |objs|
    && (forall a :: LitValue(objs, lit, a) == EdgeValue(g.objs, f, SetVar(a, v, value)))
    && Cone(objs, lit / 2) <= Cone(g.objs, f.id) - {v}
  }

  function CopyEdge(lit: nat, cmpl: bool): nat {
    if cmpl then Not(lit) else lit
  }

  lemma EdgeCopied(g: Aig, v: nat, value: bool, objs: seq<Obj>, f: Fanin, lit: nat)
    requires WellFormedAig(g) && f.id < |g.objs| && Copied(g, v, value, objs, f.id, lit)
    ensures CopiedEdge(g, v, value, objs, f, CopyEdge(lit, f.cmpl))
  {
    hide Value, LitValue, Cone, Not;
    NotComplements(objs, lit);
  }

  lemma StillCopied(g: Aig, v: nat, value: bool, objs: seq<Obj>, more: seq<Obj>, id: nat, lit: nat)
    requires WellFormedAig(g) && id < |g.objs| && Copied(g, v, value, objs, id, lit)
    requires Topological(more) && objs <= more
    ensures Copied(g, v, value, more, id, lit)
  {
    hide Value, LitValue, Cone;
    LitKept(objs, more, lit);
    ConeKept(objs, more, lit / 2);
  }

  lemma NodeCopied(g: Aig, v: nat, value: bool, objs: seq<Obj>, more: seq<Obj>, id: nat, l0: nat, l1: nat, lit: nat)
    requires WellFormedAig(g) && id < |g.objs| && g.objs[id].AndNode? && Topological(more) && lit / 2 < |more|
    requires CopiedEdge(g, v, value, objs, g.objs[id].fanin0, l0) && CopiedEdge(g, v, value, objs, g.objs[id].fanin1, l1)
    requires forall a :: LitValue(more, lit, a) == (LitValue(objs, l0, a) && LitValue(objs, l1, a))
    requires Cone(more, lit / 2) <= Cone(objs, l0 / 2) + Cone(objs, l1 / 2)
    ensures Copied(g, v, value, more, id, lit)
  {
    hide LitValue, EdgeValue;
  }

  lemma LeafCopied(g: Aig, v: nat, value: bool, objs: seq<Obj>, id: nat, lit: nat)
    requires WellFormedAig(g) && v < |g.cis| && id < |g.objs| && !g.objs[id].AndNode?
    requires Topological(objs) && InputsFirst(objs, |g.cis|) && objs[0] == Const0
    requires lit == LeafLiteral(g.objs[id], v, value)
    ensures Copied(g, v, value, objs, id, lit)
  {
    hide LitValue;
    ConstLiterals(objs);
    if g.objs[id].Ci? {
      var k := g.objs[id].index;
      InputLiteral(objs, |g.cis|, k, false, 2 * k + 2);
      assert objs[k + 1] == Ci(k);
    }
  }

  function LeafLiteral(o: Obj, v: nat, value: bool): nat {
    if !o.Ci? then 0
    else if o.index != v then 2 * o.index + 2
    else if value then 1 else 0
  }

  /** The leaves and all objects before `bound` have been copied. */
  ghost predicate CopiedUpTo(g: Aig, v: nat, value: bool, objs: seq<Obj>, copies: seq<nat>, bound: nat)
    requires WellFormedAig(g)
  {
    |copies| == |g.objs| &&
    forall id | 0 <= id < |g.objs| && (id < bound || !g.objs[id].AndNode?) :: Copied(g, v, value, objs, id, copies[id])
  }

  lemma LeavesCopied(g: Aig, v: nat, value: bool, objs: seq<Obj>, copies: seq<nat>)
    requires WellFormedAig(g) && v < |g.cis| && |copies| == |g.objs|
    requires Topological(objs) && InputsFirst(objs, |g.cis|) && objs[0] == Const0
    requires forall id | 0 <= id < |g.objs| :: copies[id] == LeafLiteral(g.objs[id], v, value)
    ensures CopiedUpTo(g, v, value, objs, copies, 0)
  {
    hide Copied, LeafLiteral;
    forall id | 0 <= id < |g.objs| && !g.objs[id].AndNode? ensures Copied(g, v, value, objs, id, copies[id]) {
      LeafCopied(g, v, value, objs, id, copies[id]);
    }
  }

  lemma CopiedStep(g: Aig, v: nat, value: bool, objs: seq<Obj>, more: seq<Obj>, copies: seq<nat>, i: nat, lit: nat)
    requires WellFormedAig(g) && i < |g.objs| && CopiedUpTo(g, v, value, objs, copies, i)
    requires if g.objs[i].AndNode? then Topological(more) && objs <= more && Copied(g, v, value, more, i, lit)
      else more == objs && lit == copies[i]
    ensures |copies| == |g.objs| && CopiedUpTo(g, v, value, more, copies[i := lit], i + 1)
  {
    hide Copied;
    if g.objs[i].AndNode? {
      forall id | 0 <= id < |g.objs| && (id < i || !g.objs[id].AndNode?)
        ensures Copied(g, v, value, more, id, copies[id])
      {
        StillCopied(g, v, value, objs, more, id, copies[id]);
      }
    }
  }

  lemma CopyOf(g: Aig, v: nat, value: bool, objs: seq<Obj>, copies: seq<nat>, bound: nat, id: nat)
    requires WellFormedAig(g) && CopiedUpTo(g, v, value, objs, copies, bound) && id < bound && id < |g.objs|
    ensures |copies| == |g.objs| && Copied(g, v, value, objs, id, copies[id])
  {
    hide Copied;
  }

  method CopyNode(m: GiaMan, g: Aig, v: nat, value: bool, i: nat, copies: seq<nat>) returns (lit: nat)
    requires m.Valid() && ConstantFree(m.objs)
    requires WellFormedAig(g) && i < |g.objs| && g.objs[i].AndNode? && CopiedUpTo(g, v, value, m.objs, copies, i)
    modifies m`objs
    ensures m.Valid() && ConstantFree(m.objs) && old(m.objs) <= m.objs
    ensures Copied(g, v, value, m.objs, i, lit)
  {
    hide LitValue, Value, EdgeValue, Cone, Copied, CopiedEdge, SetVar, CopyEdge, ConstantFree, CopiedUpTo;
    ghost var before := m.objs;
    var f0, f1 := g.objs[i].fanin0, g.objs[i].fanin1;
    CopyOf(g, v, value, m.objs, copies, i, f0.id);
    CopyOf(g, v, value, m.objs, copies, i, f1.id);
    EdgeCopied(g, v, value, m.objs, f0, copies[f0.id]);
    EdgeCopied(g, v, value, m.objs, f1, copies[f1.id]);
    var l0, l1 := CopyEdge(copies[f0.id], f0.cmpl), CopyEdge(copies[f1.id], f1.cmpl);
    EdgeThere(g, v, value, m.objs, f0, l0);
    EdgeThere(g, v, value, m.objs, f1, l1);
    lit := m.HashAnd(l0, l1);
    NodeCopied(g, v, value, before, m.objs, i, l0, l1, lit);
  }

  /** The copy has the cofactor of every output, none of which depends on the fixed input any more, and no node with a
      constant fanin. */
  method DupCofactorVar(g: Aig, v: nat, value: bool) returns (h: Aig)
    requires WellFormedAig(g) && v < |g.cis|
    ensures WellFormedAig(h) && |h.cis| == |g.cis| && |h.cos| == |g.cos| && ConstantFree(h.objs)
    ensures forall k, a | 0 <= k < |g.cos| :: Output(h, k, a) == Output(g, k, SetVar(a, v, value))
    ensures forall k | 0 <= k < |g.cos| :: Cone(h.objs, h.cos[k].id) <= Cone(g.objs, g.cos[k].id) - {v}
  {
    hide LitValue, Value, EdgeValue, Cone, Copied, CopiedEdge, SetVar, CopyEdge, CopiedUpTo, OutputCopied;
    var m := new GiaMan();
    for i := 0 to |g.cis|
      invariant m.Valid() && |m.cis| == i && |m.objs| == i + 1 && m.cos == [] && InputsFirst(m.objs, i)
      invariant ConstantFree(m.objs)
    {
      m.AppendCi();
    }
    var copies: seq<nat> := seq(|g.objs|, id requires 0 <= id < |g.objs| => LeafLiteral(g.objs[id], v, value));
    LeavesCopied(g, v, value, m.objs, copies);
    for i := 0 to |g.objs|
      invariant m.Valid() && |m.cis| == |g.cis| && m.cos == [] && ConstantFree(m.objs) && |copies| == |g.objs|
      invariant CopiedUpTo(g, v, value, m.objs, copies, i)
    {
      ghost var before := m.objs;
      var lit := copies[i];
      if g.objs[i].AndNode? {
        lit := CopyNode(m, g, v, value, i, copies);
      }
      CopiedStep(g, v, value, before, m.objs, copies, i, lit);
      copies := copies[i := lit];
    }
    h := AppendOutputs(m, g, v, value, copies);
  }

  /** Every output edge of the copy. */
  method AppendOutputs(m: GiaMan, g: Aig, v: nat, value: bool, copies: seq<nat>) returns (h: Aig)
    requires m.Valid() && WellFormedAig(g) && m.cos == [] && CopiedUpTo(g, v, value, m.objs, copies, |g.objs|)
    modifies m`cos
    ensures WellFormedAig(h) && h.cis == m.cis && h.objs == m.objs && |h.cos| == |g.cos|
    ensures forall k, a | 0 <= k < |g.cos| :: Output(h, k, a) == Output(g, k, SetVar(a, v, value))
    ensures forall k | 0 <= k < |g.cos| :: Cone(h.objs, h.cos[k].id) <= Cone(g.objs, g.cos[k].id) - {v}
  {
    hide LitValue, Value, EdgeValue, Cone, Copied, CopiedEdge, SetVar, CopyEdge, CopiedUpTo;
    for k := 0 to |g.cos|
      invariant m.Valid() && |m.cos| == k
      invariant forall j | 0 <= j < k :: OutputCopied(g, v, value, m.objs, g.cos[j], m.cos[j])
    {
      var f := g.cos[k];
      CopyOf(g, v, value, m.objs, copies, |g.objs|, f.id);
      EdgeCopied(g, v, value, m.objs, f, copies[f.id]);
      var lit := CopyEdge(copies[f.id], f.cmpl);
      EdgeThere(g, v, value, m.objs, f, lit);
      m.AppendCo(lit);
      EdgeDrives(g, v, value, m.objs, f, lit);
    }
    h := Aig(m.objs, m.cis, m.cos);
    forall k | 0 <= k < |g.cos|
      ensures forall a :: Output(h, k, a) == Output(g, k, SetVar(a, v, value))
      ensures Cone(h.objs, h.cos[k].id) <= Cone(g.objs, g.cos[k].id) - {v}
    {
      assert OutputCopied(g, v, value, h.objs, g.cos[k], h.cos[k]);
    }
  }

  lemma EdgeThere(g: Aig, v: nat, value: bool, objs: seq<Obj>, f: Fanin, lit: nat)
    requires WellFormedAig(g) && f.id < |g.objs| && CopiedEdge(g, v, value, objs, f, lit)
    ensures Topological(objs) && lit / 2 < |objs|
  {
  }

  ghost predicate OutputCopied(g: Aig, v: nat, value: bool, objs: seq<Obj>, f: Fanin, e: Fanin)
    requires WellFormedAig(g) && f.id < |g.objs|
  {
    && Topological(objs) && e.id < |objs|
    && (forall a :: EdgeValue(objs, e, a) == EdgeValue(g.objs, f, SetVar(a, v, value)))
    && Cone(objs, e.id) <= Cone(g.objs, f.id) - {v}
  }

  lemma EdgeDrives(g: Aig, v: nat, value: bool, objs: seq<Obj>, f: Fanin, lit: nat)
    requires WellFormedAig(g) && f.id < |g.objs| && CopiedEdge(g, v, value, objs, f, lit)
    ensures OutputCopied(g, v, value, objs, f, EdgeOf(lit))
  {
    hide EdgeValue, Cone;
  }
}
