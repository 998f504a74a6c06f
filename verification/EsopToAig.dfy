/** From exclusive-or sums of cubes back to an and-inverter graph. */
module EsopToAig {
  import opened Bits
  import opened Cube32
  import opened Esop
  import opened TwoLvl32
  import opened Aig

  /** A literal is twice an object plus one when it is complemented: 0 is false and 1 is true. */
  function EdgeOf(lit: nat): Fanin {
    Fanin(lit / 2, lit % 2 == 1)
  }

  ghost predicate LitValue(objs: seq<Obj>, lit: nat, a: Assignment)
    requires Topological(objs) && lit / 2 < |objs|
  {
    EdgeValue(objs, EdgeOf(lit), a)
  }

  lemma {:induction false} ValueKept(objs: seq<Obj>, more: seq<Obj>, id: nat, a: Assignment)
    requires Topological(objs) && Topological(more) && objs <= more && id < |objs|
    ensures Value(more, id, a) == Value(objs, id, a)
    decreases id
  {
    if objs[id].AndNode? {
      ValueKept(objs, more, objs[id].fanin0.id, a);
      ValueKept(objs, more, objs[id].fanin1.id, a);
    }
  }

  /** Every literal keeps its value when objects are appended. */
  lemma LitKept(objs: seq<Obj>, more: seq<Obj>, lit: nat)
    requires Topological(objs) && Topological(more) && objs <= more && lit / 2 < |objs|
    ensures forall a :: LitValue(more, lit, a) == LitValue(objs, lit, a)
  {
    hide Value;
    forall a ensures LitValue(more, lit, a) == LitValue(objs, lit, a) { ValueKept(objs, more, lit / 2, a); }
  }

  /** Flipping the last bit of a literal complements it. */
  function Not(lit: nat): nat {
    if lit % 2 == 0 then lit + 1 else lit - 1
  }

  lemma NotComplements(objs: seq<Obj>, lit: nat)
    requires Topological(objs) && lit / 2 < |objs|
    ensures Not(lit) / 2 == lit / 2
    ensures forall a :: LitValue(objs, Not(lit), a) == !LitValue(objs, lit, a)
  {
    hide Value;
  }

  /** The literals of `c` on the first `k` variables hold. */
  ghost predicate HoldsBelow(c: Cube, k: nat, a: Assignment) {
    forall v: nat | v < k :: Holds(Lit(c, v), v in a)
  }

  class GiaMan {
    var objs: seq<Obj>
    var cis: seq<nat>
    var cos: seq<Fanin>

    ghost predicate Valid()
      reads this
    {
      WellFormedAig(Aig(objs, cis, cos))
    }

    constructor ()
      ensures Valid() && objs == [Const0] && cis == [] && cos == []
    {
      objs, cis, cos := [Const0], [], [];
    }

    method AppendCi()
      requires Valid()
      modifies this`objs, this`cis
      ensures Valid()
      ensures objs == old(objs) + [Ci(|old(cis)|)] && cis == old(cis) + [|old(objs)|]
    {
      objs := objs + [Ci(|cis|)];
      cis := cis + [|objs| - 1];
    }

    method AppendCo(lit: nat)
      requires Valid() && lit / 2 < |objs|
      modifies this`cos
      ensures Valid() && cos == old(cos) + [EdgeOf(lit)]
    {
      cos := cos + [EdgeOf(lit)];
    }

    /** A literal for the conjunction, with the trivial cases folded. */
    method HashAnd(l0: nat, l1: nat) returns (lit: nat)
      requires Valid() && l0 / 2 < |objs| && l1 / 2 < |objs|
      modifies this`objs
      ensures Valid() && old(objs) <= objs && lit / 2 < |objs|
      ensures forall a :: LitValue(objs, lit, a) == (LitValue(old(objs), l0, a) && LitValue(old(objs), l1, a))
      ensures Cone(objs, lit / 2) <= Cone(old(objs), l0 / 2) + Cone(old(objs), l1 / 2)
      ensures ConstantFree(old(objs)) ==> ConstantFree(objs)
    {
      hide Value, Cone;
      NoCone(objs);
      ConstLiterals(objs);
      NotComplements(objs, l0);
      if l0 == 0 || l1 == 0 || l1 == Not(l0) {
        return 0;
      }
      if l0 == 1 || l0 == l1 {
        return l1;
      }
      if l1 == 1 {
        return l0;
      }
      ghost var before := objs;
      objs := objs + [AndNode(EdgeOf(l0), EdgeOf(l1))];
      lit := 2 * (|objs| - 1);
      NewNode(before, objs, l0, l1);
      NewCone(before, objs, l0, l1);
    }

    /** Exclusive or from three conjunctions. */
    method HashXor(l0: nat, l1: nat) returns (lit: nat)
      requires Valid() && l0 / 2 < |objs| && l1 / 2 < |objs|
      modifies this`objs
      ensures Valid() && old(objs) <= objs && lit / 2 < |objs|
      ensures forall a :: LitValue(objs, lit, a) == (LitValue(old(objs), l0, a) != LitValue(old(objs), l1, a))
    {
      hide LitValue, Not, Cone, ConstantFree;
      ghost var o0 := objs;
      NotComplements(o0, l0);
      NotComplements(o0, l1);
      var x := HashAnd(l0, Not(l1));
      ghost var o1 := objs;
      LitKept(o0, o1, l1);
      LitKept(o0, o1, Not(l0));
      var y := HashAnd(Not(l0), l1);
      ghost var o2 := objs;
      LitKept(o1, o2, x);
      NotComplements(o2, x);
      NotComplements(o2, y);
      var z := HashAnd(Not(x), Not(y));
      NotComplements(objs, z);
      lit := Not(z);
    }
  }

  lemma ConstLiterals(objs: seq<Obj>)
    requires Topological(objs) && |objs| > 0 && objs[0] == Const0
    ensures forall a :: !LitValue(objs, 0, a) && LitValue(objs, 1, a)
  {
    forall a ensures !LitValue(objs, 0, a) && LitValue(objs, 1, a) {
      assert EdgeOf(0) == Fanin(0, false) && EdgeOf(1) == Fanin(0, true);
      assert !Value(objs, 0, a);
    }
  }

  lemma NoCone(objs: seq<Obj>)
    requires Topological(objs) && |objs| > 0 && objs[0] == Const0
    ensures Cone(objs, 0) == {}
  {
  }

  lemma NewCone(objs: seq<Obj>, more: seq<Obj>, l0: nat, l1: nat)
    requires Topological(objs) && Topological(more) && l0 / 2 < |objs| && l1 / 2 < |objs|
    requires more == objs + [AndNode(EdgeOf(l0), EdgeOf(l1))]
    ensures Cone(more, |objs|) == Cone(objs, l0 / 2) + Cone(objs, l1 / 2)
  {
    ConeKept(objs, more, l0 / 2);
    ConeKept(objs, more, l1 / 2);
  }

  lemma NewNode(objs: seq<Obj>, more: seq<Obj>, l0: nat, l1: nat)
    requires Topological(objs) && l0 / 2 < |objs| && l1 / 2 < |objs|
    requires more == objs + [AndNode(EdgeOf(l0), EdgeOf(l1))]
    ensures Topological(more) && (2 * |objs|) / 2 == |objs|
    ensures forall a :: LitValue(more, 2 * |objs|, a) == (LitValue(objs, l0, a) && LitValue(objs, l1, a))
  {
    LitKept(objs, more, l0);
    LitKept(objs, more, l1);
    forall a ensures LitValue(more, 2 * |objs|, a) == (LitValue(objs, l0, a) && LitValue(objs, l1, a)) {
      assert EdgeOf(2 * |objs|) == Fanin(|objs|, false);
      assert Value(more, |objs|, a) == (LitValue(more, l0, a) && LitValue(more, l1, a));
    }
  }

  /** The objects of the first `n` inputs follow the constant. */
  ghost predicate InputsFirst(objs: seq<Obj>, n: nat) {
    |objs| > n && forall k: nat | k < n :: objs[k + 1] == Ci(k)
  }

  method BuildCube(m: GiaMan, c: Cube, n: nat) returns (andIdx: nat)
    requires m.Valid() && InputsFirst(m.objs, n) && n <= WIDTH && Over(c, Below(n))
    modifies m`objs
    ensures m.Valid() && old(m.objs) <= m.objs && andIdx / 2 < |m.objs|
    ensures forall a :: LitValue(m.objs, andIdx, a) == Eval(c, a)
  {
    hide LitValue, Eval, Has, HoldsBelow, Over, Cone, ConstantFree;
    andIdx := 1;
    ConstLiterals(m.objs);
    NothingHolds(c);
    if c != CUBE_ONE {
      for k := 0 to n
        invariant m.Valid() && old(m.objs) <= m.objs && InputsFirst(m.objs, n) && andIdx / 2 < |m.objs|
        invariant forall a :: LitValue(m.objs, andIdx, a) == HoldsBelow(c, k, a)
      {
        OneMore(c, k);
        if Has(c.mask, k) {
          var lit := 2 * k + if Has(c.polarity, k) then 0 else 1;
          InputLiteral(m.objs, n, k, !Has(c.polarity, k), lit + 2);
          ghost var before, sofar := m.objs, andIdx;
          andIdx := m.HashAnd(andIdx, lit + 2);
          forall a ensures LitValue(m.objs, andIdx, a) == HoldsBelow(c, k + 1, a) {
            assert LitValue(before, sofar, a) == HoldsBelow(c, k, a);
          }
        }
      }
      AllHold(c, n);
    }
  }

  /** The exclusive or of the cubes of one output. */
  method BuildSum(m: GiaMan, cubes0: seq<Cube>, n: nat) returns (rootIdx: nat)
    requires m.Valid() && InputsFirst(m.objs, n) && n <= WIDTH && AllOver(cubes0, Below(n))
    modifies m`objs
    ensures m.Valid() && old(m.objs) <= m.objs && rootIdx / 2 < |m.objs|
    ensures Drives(m.objs, EdgeOf(rootIdx), cubes0)
  {
    hide LitValue, Eval, Over, XorSeq, Below, Drives, Cone, ConstantFree;
    rootIdx := 0;
    NoSum(m.objs, rootIdx);
    assert cubes0[..0] == [];
    for j := 0 to |cubes0|
      invariant m.Valid() && old(m.objs) <= m.objs && rootIdx / 2 < |m.objs|
      invariant Drives(m.objs, EdgeOf(rootIdx), cubes0[..j])
    {
      ghost var before := m.objs;
      var andIdx := BuildCube(m, cubes0[j], n);
      rootIdx := SumStep(m, rootIdx, andIdx, before, cubes0[..j], cubes0[j]);
      assert cubes0[..j + 1] == cubes0[..j] + [cubes0[j]];
    }
    assert cubes0[..|cubes0|] == cubes0;
  }

  /** One and-inverter graph output per cube list. */
  method EsopToAig(esop: TwoLvl) returns (g: Aig)
    requires WellFormed(esop)
    ensures WellFormedAig(g) && |g.cis| == esop.nInputs && |g.cos| == |esop.cubes|
    ensures forall k, a | 0 <= k < |g.cos| :: Output(g, k, a) == XorSeq(esop.cubes[k], a)
  {
    hide LitValue, XorSeq, AllOver, Below, Drives, Cone, ConstantFree, EdgeOf;
    var m := new GiaMan();
    for i := 0 to esop.nInputs
      invariant m.Valid() && |m.cis| == i && |m.objs| == i + 1 && m.cos == [] && InputsFirst(m.objs, i)
    {
      m.AppendCi();
    }
    for i := 0 to |esop.cubes|
      invariant m.Valid() && |m.cis| == esop.nInputs && |m.cos| == i && InputsFirst(m.objs, esop.nInputs)
      invariant forall k | 0 <= k < i :: Drives(m.objs, m.cos[k], esop.cubes[k])
    {
      ghost var before := m.objs;
      var rootIdx := BuildSum(m, esop.cubes[i], esop.nInputs);
      forall k | 0 <= k < i ensures Drives(m.objs, m.cos[k], esop.cubes[k]) {
        DrivesKept(before, m.objs, m.cos[k], esop.cubes[k]);
      }
      m.AppendCo(rootIdx);
    }
    g := Aig(m.objs, m.cis, m.cos);
    forall k, a | 0 <= k < |g.cos| ensures Output(g, k, a) == XorSeq(esop.cubes[k], a) {
      DrivesOutput(g, k, esop.cubes[k], a);
    }
  }

  lemma DrivesOutput(g: Aig, k: nat, sum: seq<Cube>, a: Assignment)
    requires WellFormedAig(g) && k < |g.cos| && Drives(g.objs, g.cos[k], sum)
    ensures Output(g, k, a) == XorSeq(sum, a)
  {
  }

  method SumStep(m: GiaMan, rootIdx: nat, andIdx: nat, ghost before: seq<Obj>, ghost sum: seq<Cube>, ghost c: Cube)
    returns (lit: nat)
    requires m.Valid() && Topological(before) && before <= m.objs && rootIdx / 2 < |before| && andIdx / 2 < |m.objs|
    requires Drives(before, EdgeOf(rootIdx), sum)
    requires forall a :: LitValue(m.objs, andIdx, a) == Eval(c, a)
    modifies m`objs
    ensures m.Valid() && old(m.objs) <= m.objs && lit / 2 < |m.objs|
    ensures Drives(m.objs, EdgeOf(lit), sum + [c])
  {
    hide Eval, XorSeq, Value, Cone, ConstantFree;
    LitKept(before, m.objs, rootIdx);
    ghost var built := m.objs;
    lit := m.HashXor(rootIdx, andIdx);
    forall a ensures EdgeValue(m.objs, EdgeOf(lit), a) == XorSeq(sum + [c], a) {
      XorAppend(sum, c, a);
      assert LitValue(m.objs, lit, a) == (LitValue(built, rootIdx, a) != LitValue(built, andIdx, a));
      assert LitValue(built, rootIdx, a) == LitValue(before, rootIdx, a);
    }
  }

  /** The edge has the value of the sum. */
  ghost predicate Drives(objs: seq<Obj>, f: Fanin, sum: seq<Cube>) {
    Topological(objs) && f.id < |objs| && forall a :: EdgeValue(objs, f, a) == XorSeq(sum, a)
  }

  lemma NoSum(objs: seq<Obj>, rootIdx: nat)
    requires Topological(objs) && |objs| > 0 && objs[0] == Const0 && rootIdx == 0
    ensures Drives(objs, EdgeOf(rootIdx), [])
  {
  }

  lemma DrivesKept(objs: seq<Obj>, more: seq<Obj>, f: Fanin, sum: seq<Cube>)
    requires Drives(objs, f, sum) && Topological(more) && objs <= more
    ensures Drives(more, f, sum)
  {
    hide Value, XorSeq;
    forall a ensures EdgeValue(more, f, a) == XorSeq(sum, a) { ValueKept(objs, more, f.id, a); }
  }

  lemma NothingHolds(c: Cube)
    ensures forall a :: HoldsBelow(c, 0, a)
    ensures c == CUBE_ONE ==> forall a :: Eval(c, a)
  {
    hide Has, Eval;
    forall a ensures c == CUBE_ONE ==> Eval(c, a) { OneHolds(a); }
  }

  lemma OneMore(c: Cube, k: nat)
    ensures Has(c.mask, k) ==> forall a :: HoldsBelow(c, k + 1, a) == (HoldsBelow(c, k, a) && (k in a <==> Has(c.polarity, k)))
    ensures !Has(c.mask, k) ==> forall a :: HoldsBelow(c, k + 1, a) == HoldsBelow(c, k, a)
  {
    hide Has;
    forall a ensures HoldsBelow(c, k + 1, a) == (HoldsBelow(c, k, a) && Holds(Lit(c, k), k in a)) {
    }
  }

  lemma AllHold(c: Cube, n: nat)
    requires Over(c, Below(n)) && n <= WIDTH
    ensures forall a :: HoldsBelow(c, n, a) == Eval(c, a)
  {
    hide Has;
    forall v: nat | n <= v < WIDTH ensures Lit(c, v) == Absent {
      assert v !in Support(c);
    }
  }

  lemma InputLiteral(objs: seq<Obj>, n: nat, k: nat, negative: bool, lit: nat)
    requires Topological(objs) && InputsFirst(objs, n) && k < n
    requires lit == 2 * k + (if negative then 1 else 0) + 2
    ensures lit / 2 < |objs| && forall a :: LitValue(objs, lit, a) == (k in a <==> !negative)
  {
    assert EdgeOf(lit) == Fanin(k + 1, negative);
    forall a ensures LitValue(objs, lit, a) == (k in a <==> !negative) {
      assert objs[k + 1] == Ci(k);
      assert Value(objs, k + 1, a) == (k in a);
    }
  }
}
