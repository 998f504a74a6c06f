/** And-inverter graphs as topologically ordered object tables. */
module Aig {
  import opened Cube32

  /** An edge to an object, possibly complemented. */
  datatype Fanin = Fanin(id: nat, cmpl: bool)

  datatype Obj = Const0 | Ci(index: nat) | AndNode(fanin0: Fanin, fanin1: Fanin)

  /** `cis[i]` is the object of input `i`; `cos` are the edges that drive the outputs. */
  datatype Aig = Aig(objs: seq<Obj>, cis: seq<nat>, cos: seq<Fanin>)

  /** Fanins come before the nodes they feed. */
  predicate Topological(objs: seq<Obj>) {
    forall id | 0 <= id < |objs| && objs[id].AndNode? :: objs[id].fanin0.id < id && objs[id].fanin1.id < id
  }

  ghost predicate WellFormedAig(g: Aig) {
    && Topological(g.objs) && |g.objs| > 0 && g.objs[0] == Const0
    && (forall id | 0 <= id < |g.objs| && g.objs[id].Const0? :: id == 0)
    && (forall i | 0 <= i < |g.cis| :: g.cis[i] < |g.objs| && g.objs[g.cis[i]] == Ci(i))
    && (forall id | 0 <= id < |g.objs| && g.objs[id].Ci? ::
      g.objs[id].index < |g.cis| && g.cis[g.objs[id].index] == id)
    && (forall k | 0 <= k < |g.cos| :: g.cos[k].id < |g.objs|)
  }

  /** The value of an object when the inputs in `a` are true. */
  ghost predicate Value(objs: seq<Obj>, id: nat, a: Assignment)
    requires Topological(objs) && id < |objs|
    decreases id, 0
  {
    match objs[id]
    case Const0 => false
    case Ci(index) => index in a
    case AndNode(f0, f1) => EdgeValue(objs, f0, a) && EdgeValue(objs, f1, a)
  }

  ghost predicate EdgeValue(objs: seq<Obj>, f: Fanin, a: Assignment)
    requires Topological(objs) && f.id < |objs|
    decreases f.id, 1
  {
    Value(objs, f.id, a) != f.cmpl
  }

  ghost predicate Output(g: Aig, k: nat, a: Assignment)
    requires WellFormedAig(g) && k < |g.cos|
  {
    EdgeValue(g.objs, g.cos[k], a)
  }

  /** No node has the constant for a fanin. */
  predicate ConstantFree(objs: seq<Obj>) {
    forall id | 0 <= id < |objs| && objs[id].AndNode? :: objs[id].fanin0.id != 0 && objs[id].fanin1.id != 0
  }

  /** The inputs an object depends on structurally. */
  ghost function Cone(objs: seq<Obj>, id: nat): set<nat>
    requires Topological(objs) && id < |objs|
    decreases id
  {
    match objs[id]
    case Const0 => {}
    case Ci(index) => {index}
    case AndNode(f0, f1) => Cone(objs, f0.id) + Cone(objs, f1.id)
  }

  lemma {:induction false} ConeBound(g: Aig, id: nat)
    requires WellFormedAig(g) && id < |g.objs|
    ensures Cone(g.objs, id) <= Below(|g.cis|)
    decreases id
  {
    if g.objs[id].AndNode? {
      ConeBound(g, g.objs[id].fanin0.id);
      ConeBound(g, g.objs[id].fanin1.id);
    }
  }

  lemma {:induction false} ConeKept(objs: seq<Obj>, more: seq<Obj>, id: nat)
    requires Topological(objs) && Topological(more) && objs <= more && id < |objs|
    ensures Cone(more, id) == Cone(objs, id)
    decreases id
  {
    if objs[id].AndNode? {
      ConeKept(objs, more, objs[id].fanin0.id);
      ConeKept(objs, more, objs[id].fanin1.id);
    }
  }
}
