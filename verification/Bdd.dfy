/** Reduced ordered binary decision diagrams: exclusive or, conjunction and canonicity. */
module Bdd {
  import opened Cube32

  datatype Bdd = Zero | One | Node(v: nat, lo: Bdd, hi: Bdd)

  /** A possibly null node pointer. */
  datatype NodePtr = Null | Ptr(node: Bdd)

  ghost predicate EvalBdd(f: Bdd, a: Assignment) {
    match f
    case Zero => false
    case One => true
    case Node(v, lo, hi) => if v in a then EvalBdd(hi, a) else EvalBdd(lo, a)
  }

  /** Variables grow along every path, lie in k..n, and no node is redundant. */
  ghost predicate Ordered(f: Bdd, k: nat, n: nat) {
    f.Node? ==> k <= f.v < n && f.lo != f.hi && Ordered(f.lo, f.v + 1, n) && Ordered(f.hi, f.v + 1, n)
  }

  function Top(f: Bdd, n: nat): nat {
    if f.Node? then f.v else n
  }

  /** The cofactors with respect to `v`, for a diagram that starts at `v` or later. */
  function Cof0(f: Bdd, v: nat): Bdd {
    if f.Node? && f.v == v then f.lo else f
  }

  function Cof1(f: Bdd, v: nat): Bdd {
    if f.Node? && f.v == v then f.hi else f
  }

  function MakeNode(v: nat, lo: Bdd, hi: Bdd): Bdd {
    if lo == hi then lo else Node(v, lo, hi)
  }

  function Size(f: Bdd): nat {
    if f.Node? then 1 + Size(f.lo) + Size(f.hi) else 0
  }

  function BddXor(f: Bdd, g: Bdd): Bdd
    decreases Size(f) + Size(g)
  {
    if f.Node? || g.Node? then
      var v := if !g.Node? || (f.Node? && f.v <= g.v) then f.v else g.v;
      MakeNode(v, BddXor(Cof0(f, v), Cof0(g, v)), BddXor(Cof1(f, v), Cof1(g, v)))
    else if f == g then Zero else One
  }

  lemma {:induction false} OrderedFrom(f: Bdd, k: nat, j: nat, n: nat)
    requires Ordered(f, k, n) && (j <= k || (f.Node? ==> j <= f.v))
    ensures Ordered(f, j, n)
  {
  }

  lemma CofactorsOrdered(f: Bdd, v: nat, n: nat)
    requires Ordered(f, v, n)
    ensures Ordered(Cof0(f, v), v + 1, n) && Ordered(Cof1(f, v), v + 1, n)
  {
  }

  lemma CofactorsEval(f: Bdd, v: nat, a: Assignment)
    ensures EvalBdd(f, a) == if v in a then EvalBdd(Cof1(f, v), a) else EvalBdd(Cof0(f, v), a)
  {
  }

  lemma {:induction false} XorEval(f: Bdd, g: Bdd, a: Assignment)
    ensures EvalBdd(BddXor(f, g), a) == (EvalBdd(f, a) != EvalBdd(g, a))
    decreases Size(f) + Size(g)
  {
    if f.Node? || g.Node? {
      var v := if !g.Node? || (f.Node? && f.v <= g.v) then f.v else g.v;
      XorEval(Cof0(f, v), Cof0(g, v), a);
      XorEval(Cof1(f, v), Cof1(g, v), a);
      CofactorsEval(f, v, a);
      CofactorsEval(g, v, a);
    }
  }

  lemma {:induction false} XorOrdered(f: Bdd, g: Bdd, k: nat, n: nat)
    requires Ordered(f, k, n) && Ordered(g, k, n)
    ensures Ordered(BddXor(f, g), k, n)
    decreases Size(f) + Size(g)
  {
    if f.Node? || g.Node? {
      var v := if !g.Node? || (f.Node? && f.v <= g.v) then f.v else g.v;
      OrderedFrom(f, k, v, n);
      OrderedFrom(g, k, v, n);
      CofactorsOrdered(f, v, n);
      CofactorsOrdered(g, v, n);
      XorOrdered(Cof0(f, v), Cof0(g, v), v + 1, n);
      XorOrdered(Cof1(f, v), Cof1(g, v), v + 1, n);
      MakeNodeOrdered(v, BddXor(Cof0(f, v), Cof0(g, v)), BddXor(Cof1(f, v), Cof1(g, v)), k, n);
    }
  }

  lemma MakeNodeOrdered(v: nat, lo: Bdd, hi: Bdd, k: nat, n: nat)
    requires k <= v < n && Ordered(lo, v + 1, n) && Ordered(hi, v + 1, n)
    ensures Ordered(MakeNode(v, lo, hi), k, n)
  {
    OrderedFrom(lo, v + 1, k, n);
  }

  function BddAnd(f: Bdd, g: Bdd): Bdd
    decreases Size(f) + Size(g)
  {
    if f.Node? || g.Node? then
      var v := if !g.Node? || (f.Node? && f.v <= g.v) then f.v else g.v;
      MakeNode(v, BddAnd(Cof0(f, v), Cof0(g, v)), BddAnd(Cof1(f, v), Cof1(g, v)))
    else if f == One && g == One then One else Zero
  }

  lemma {:induction false} AndEval(f: Bdd, g: Bdd, a: Assignment)
    ensures EvalBdd(BddAnd(f, g), a) == (EvalBdd(f, a) && EvalBdd(g, a))
    decreases Size(f) + Size(g)
  {
    if f.Node? || g.Node? {
      var v := if !g.Node? || (f.Node? && f.v <= g.v) then f.v else g.v;
      AndEval(Cof0(f, v), Cof0(g, v), a);
      AndEval(Cof1(f, v), Cof1(g, v), a);
      CofactorsEval(f, v, a);
      CofactorsEval(g, v, a);
    }
  }

  lemma {:induction false} AndOrdered(f: Bdd, g: Bdd, k: nat, n: nat)
    requires Ordered(f, k, n) && Ordered(g, k, n)
    ensures Ordered(BddAnd(f, g), k, n)
    decreases Size(f) + Size(g)
  {
    if f.Node? || g.Node? {
      var v := if !g.Node? || (f.Node? && f.v <= g.v) then f.v else g.v;
      OrderedFrom(f, k, v, n);
      OrderedFrom(g, k, v, n);
      CofactorsOrdered(f, v, n);
      CofactorsOrdered(g, v, n);
      AndOrdered(Cof0(f, v), Cof0(g, v), v + 1, n);
      AndOrdered(Cof1(f, v), Cof1(g, v), v + 1, n);
      MakeNodeOrdered(v, BddAnd(Cof0(f, v), Cof0(g, v)), BddAnd(Cof1(f, v), Cof1(g, v)), k, n);
    }
  }

  /** The complement, which CUDD marks on the edge. */
  function BddNot(f: Bdd): Bdd {
    match f
    case Zero => One
    case One => Zero
    case Node(v, lo, hi) => Node(v, BddNot(lo), BddNot(hi))
  }

  lemma {:induction false} NotNot(f: Bdd)
    ensures BddNot(BddNot(f)) == f
  {
    if f.Node? {
      NotNot(f.lo);
      NotNot(f.hi);
    }
  }

  lemma {:induction false} NotEval(f: Bdd, k: nat, n: nat, a: Assignment)
    requires Ordered(f, k, n)
    ensures EvalBdd(BddNot(f), a) == !EvalBdd(f, a) && Ordered(BddNot(f), k, n)
  {
    if f.Node? {
      NotNot(f.lo);
      NotNot(f.hi);
      NotEval(f.lo, f.v + 1, n, a);
      NotEval(f.hi, f.v + 1, n, a);
    }
  }

  lemma {:induction false} XorSelf(f: Bdd)
    ensures BddXor(f, f) == Zero
    decreases Size(f)
  {
    if f.Node? {
      XorSelf(f.lo);
      XorSelf(f.hi);
    }
  }

  lemma {:induction false} XorZeroOnlySelf(f: Bdd, g: Bdd, k: nat, n: nat)
    requires Ordered(f, k, n) && Ordered(g, k, n) && BddXor(f, g) == Zero
    ensures f == g
    decreases Size(f) + Size(g)
  {
    if f.Node? || g.Node? {
      var v := if !g.Node? || (f.Node? && f.v <= g.v) then f.v else g.v;
      OrderedFrom(f, k, v, n);
      OrderedFrom(g, k, v, n);
      CofactorsOrdered(f, v, n);
      CofactorsOrdered(g, v, n);
      XorZeroOnlySelf(Cof0(f, v), Cof0(g, v), v + 1, n);
      XorZeroOnlySelf(Cof1(f, v), Cof1(g, v), v + 1, n);
    }
  }

  /** The variables a diagram tests. */
  function BddSupport(f: Bdd): set<nat> {
    if f.Node? then {f.v} + BddSupport(f.lo) + BddSupport(f.hi) else {}
  }

  lemma {:induction false} XorSupport(f: Bdd, g: Bdd)
    ensures BddSupport(BddXor(f, g)) <= BddSupport(f) + BddSupport(g)
    decreases Size(f) + Size(g)
  {
    if f.Node? || g.Node? {
      var v := if !g.Node? || (f.Node? && f.v <= g.v) then f.v else g.v;
      XorSupport(Cof0(f, v), Cof0(g, v));
      XorSupport(Cof1(f, v), Cof1(g, v));
    }
  }

  /** Two diagrams of the same function are the same diagram. */
  lemma Canonicity(f: Bdd, g: Bdd, n: nat)
    requires Ordered(f, 0, n) && Ordered(g, 0, n) && forall a :: EvalBdd(f, a) == EvalBdd(g, a)
    ensures f == g
  {
    XorOrdered(f, g, 0, n);
    var h := BddXor(f, g);
    if h != Zero {
      var a := Satisfy(h, 0, n);
      XorEval(f, g, a);
    } else {
      XorZeroOnlySelf(f, g, 0, n);
    }
  }

  lemma {:induction false} Satisfy(f: Bdd, k: nat, n: nat) returns (a: Assignment)
    requires Ordered(f, k, n) && f != Zero
    ensures EvalBdd(f, a) && forall v | v in a :: k <= v < n
    decreases f
  {
    if f.One? {
      a := {};
    } else if f.lo != Zero {
      a := Satisfy(f.lo, f.v + 1, n);
    } else {
      var b := Satisfy(f.hi, f.v + 1, n);
      a := b + {f.v};
      EvalAbove(f.hi, f.v + 1, n, b, a);
    }
  }

  lemma {:induction false} EvalAbove(f: Bdd, k: nat, n: nat, a: Assignment, b: Assignment)
    requires Ordered(f, k, n) && forall v | k <= v :: v in a <==> v in b
    ensures EvalBdd(f, a) == EvalBdd(f, b)
  {
    if f.Node? {
      EvalAbove(f.lo, f.v + 1, n, a, b);
      EvalAbove(f.hi, f.v + 1, n, a, b);
    }
  }

  /** A tested variable matters: two assignments that differ only there have different values. */
  lemma {:induction false} TestedMatters(f: Bdd, v: nat, k: nat, n: nat) returns (a: Assignment)
    requires Ordered(f, k, n) && v in BddSupport(f)
    ensures EvalBdd(f, a + {v}) != EvalBdd(f, a - {v})
    decreases f
  {
    if f.v == v {
      var h := BddXor(f.lo, f.hi);
      XorOrdered(f.lo, f.hi, v + 1, n);
      if h == Zero { XorZeroOnlySelf(f.lo, f.hi, v + 1, n); }
      a := Satisfy(h, v + 1, n);
      XorEval(f.lo, f.hi, a);
      EvalAbove(f.lo, v + 1, n, a, a - {v});
      EvalAbove(f.hi, v + 1, n, a, a + {v});
    } else if v in BddSupport(f.lo) {
      var b := TestedMatters(f.lo, v, f.v + 1, n);
      a := b - {f.v};
      EvalAbove(f.lo, f.v + 1, n, b + {v}, a + {v});
      EvalAbove(f.lo, f.v + 1, n, b - {v}, a - {v});
    } else {
      var b := TestedMatters(f.hi, v, f.v + 1, n);
      a := b + {f.v};
      EvalAbove(f.hi, f.v + 1, n, b + {v}, a + {v});
      EvalAbove(f.hi, f.v + 1, n, b - {v}, a - {v});
    }
  }
}
