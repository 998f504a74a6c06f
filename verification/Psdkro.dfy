/** Pseudo-Kronecker extraction: a decision diagram becomes an exclusive-or sum of cubes by choosing at every
    node one of the two Davio expansions or the Shannon expansion. */
module Psdkro {
  import opened Bits
  import opened Cube32
  import opened Esop
  import opened Bdd

  datatype ExpType = POSITIVE_DAVIO | NEGATIVE_DAVIO | SHANNON

  // ---- Expansions in general ----

  /** One choice of expansion for every variable along every branch. */
  datatype Plan = Done | Expand(choice: ExpType, left: Plan, right: Plan)

  /** The two functions that an expansion at `k` goes on with. */
  function LeftOf(e: ExpType, f: Bdd, k: nat): Bdd {
    if e.NEGATIVE_DAVIO? then Cof1(f, k) else Cof0(f, k)
  }

  function RightOf(e: ExpType, f: Bdd, k: nat): Bdd {
    if e.SHANNON? then Cof1(f, k) else BddXor(Cof0(f, k), Cof1(f, k))
  }

  /** The plan expands the variables k, k+1, .. in this order and stops only at constants. */
  ghost predicate PlanFor(p: Plan, f: Bdd, k: nat, n: nat)
    decreases p
  {
    match p
    case Done => !f.Node?
    case Expand(e, left, right) =>
      k < n && PlanFor(left, LeftOf(e, f, k), k + 1, n) && PlanFor(right, RightOf(e, f, k), k + 1, n)
  }

  function WithLiteral(cubes: seq<Cube>, v: nat, positive: bool): (r: seq<Cube>)
    ensures |r| == |cubes|
  {
    seq(|cubes|, i requires 0 <= i < |cubes| => AddLit(cubes[i], v, positive))
  }

  /** Only the Shannon expansion puts a literal on its left part; on the right it is positive or negative. */
  function Combine(e: ExpType, v: nat, left: seq<Cube>, right: seq<Cube>): (r: seq<Cube>)
    ensures |r| == |left| + |right|
  {
    (if e.SHANNON? then WithLiteral(left, v, false) else left) + WithLiteral(right, v, !e.NEGATIVE_DAVIO?)
  }

  /** The cubes a plan produces. */
  function PlanCubes(p: Plan, f: Bdd, k: nat): seq<Cube>
    decreases p
  {
    match p
    case Done => if f.One? then [CUBE_ONE] else []
    case Expand(e, left, right) =>
      Combine(e, k, PlanCubes(left, LeftOf(e, f, k), k + 1), PlanCubes(right, RightOf(e, f, k), k + 1))
  }

  ghost function Span(k: nat, n: nat): set<nat> {
    Below(n) - Below(k)
  }

  lemma PartsOrdered(e: ExpType, f: Bdd, k: nat, n: nat)
    requires Ordered(f, k, n)
    ensures Ordered(LeftOf(e, f, k), k + 1, n) && Ordered(RightOf(e, f, k), k + 1, n)
  {
    hide Ordered;
    CofactorsOrdered(f, k, n);
    XorOrdered(Cof0(f, k), Cof1(f, k), k + 1, n);
  }

  lemma {:induction false} WithLiteralXor(cubes: seq<Cube>, v: nat, positive: bool, vs: set<nat>, a: Assignment)
    requires v < WIDTH && v !in vs && AllOver(cubes, vs)
    ensures AllOver(WithLiteral(cubes, v, positive), vs + {v})
    ensures XorSeq(WithLiteral(cubes, v, positive), a) == (XorSeq(cubes, a) && (v in a <==> positive))
  {
    hide Has, Eval, AddLit;
    var r := WithLiteral(cubes, v, positive);
    if cubes != [] {
      var m := |cubes| - 1;
      WithLiteralXor(cubes[..m], v, positive, vs, a);
      assert r[..m] == WithLiteral(cubes[..m], v, positive);
      assert Over(cubes[m], vs);
      AddLitRestricts(cubes[m], v, positive, vs);
      forall i | 0 <= i < |r| ensures Over(r[i], vs + {v}) {
        if i < m { assert r[i] == r[..m][i]; }
      }
    }
  }

  /** Whatever expansions are chosen, the cubes denote the function and mention only the variables from `k` on. */
  lemma {:induction false} PlanXor(p: Plan, f: Bdd, k: nat, n: nat, a: Assignment)
    requires Ordered(f, k, n) && PlanFor(p, f, k, n) && k <= n <= WIDTH
    ensures AllOver(PlanCubes(p, f, k), Span(k, n))
    ensures XorSeq(PlanCubes(p, f, k), a) == EvalBdd(f, a)
    decreases p
  {
    hide Has, Eval, AddLit, Ordered, WithLiteral, LeftOf, RightOf, EvalBdd, XorSeq, AllOver;
    match p
    case Done =>
      DoneXor(f, k, n, a);
    case Expand(e, left, right) =>
      PartsOrdered(e, f, k, n);
      PlanXor(left, LeftOf(e, f, k), k + 1, n, a);
      PlanXor(right, RightOf(e, f, k), k + 1, n, a);
      CombineXor(e, k, n, PlanCubes(left, LeftOf(e, f, k), k + 1), PlanCubes(right, RightOf(e, f, k), k + 1), a);
      ExpansionEval(e, f, k, a);
  }

  lemma DoneXor(f: Bdd, k: nat, n: nat, a: Assignment)
    requires !f.Node?
    ensures AllOver(PlanCubes(Done, f, k), Span(k, n))
    ensures XorSeq(PlanCubes(Done, f, k), a) == EvalBdd(f, a)
  {
    hide Has, Eval;
    OneHolds(a);
    XorAppend([], CUBE_ONE, a);
    assert [] + [CUBE_ONE] == [CUBE_ONE];
  }

  lemma CombineSupport(e: ExpType, v: nat, vs: set<nat>, left: seq<Cube>, right: seq<Cube>)
    requires v < WIDTH && v !in vs && AllOver(left, vs) && AllOver(right, vs)
    ensures AllOver(Combine(e, v, left, right), vs + {v})
  {
    hide Has, WithLiteral, Canonical;
    WithLiteralXor(left, v, false, vs, {});
    WithLiteralXor(right, v, !e.NEGATIVE_DAVIO?, vs, {});
  }

  lemma CombineXor(e: ExpType, k: nat, n: nat, left: seq<Cube>, right: seq<Cube>, a: Assignment)
    requires k < n <= WIDTH && AllOver(left, Span(k + 1, n)) && AllOver(right, Span(k + 1, n))
    ensures AllOver(Combine(e, k, left, right), Span(k, n))
    ensures XorSeq(Combine(e, k, left, right), a) ==
      ((XorSeq(left, a) && (e.SHANNON? ==> k !in a)) != (XorSeq(right, a) && (k in a <==> !e.NEGATIVE_DAVIO?)))
  {
    hide Has, Eval, AddLit, WithLiteral, XorSeq, AllOver;
    var l := if e.SHANNON? then WithLiteral(left, k, false) else left;
    var r := WithLiteral(right, k, !e.NEGATIVE_DAVIO?);
    assert Span(k, n) == Span(k + 1, n) + {k};
    CombineSupport(e, k, Span(k + 1, n), left, right);
    WithLiteralXor(left, k, false, Span(k + 1, n), a);
    WithLiteralXor(right, k, !e.NEGATIVE_DAVIO?, Span(k + 1, n), a);
    XorConcat(l, r, a);
  }

  /** The three expansion laws at one variable. */
  lemma ExpansionEval(e: ExpType, f: Bdd, k: nat, a: Assignment)
    ensures EvalBdd(f, a) == ((EvalBdd(LeftOf(e, f, k), a) && (e.SHANNON? ==> k !in a))
      != (EvalBdd(RightOf(e, f, k), a) && (k in a <==> !e.NEGATIVE_DAVIO?)))
  {
    hide EvalBdd;
    CofactorsEval(f, k, a);
    XorEval(Cof0(f, k), Cof1(f, k), a);
  }

  // ---- No cube is produced twice ----

  lemma AddLitInjective(c: Cube, d: Cube, v: nat, positive: bool, vs: set<nat>)
    requires Over(c, vs) && Over(d, vs) && v < WIDTH && v !in vs
    requires AddLit(c, v, positive) == AddLit(d, v, positive)
    ensures c == d
  {
    hide Has, AddLit, Lit;
    AbsentOutside(c, vs, v);
    AbsentOutside(d, vs, v);
    AddLitLiterals(c, v, positive);
    AddLitLiterals(d, v, positive);
    LiteralsDetermineCube(c, d);
  }

  lemma WithLiteralDistinct(cubes: seq<Cube>, v: nat, positive: bool, vs: set<nat>)
    requires AllOver(cubes, vs) && NoRepeats(cubes) && v < WIDTH && v !in vs
    ensures NoRepeats(WithLiteral(cubes, v, positive))
    ensures forall i | 0 <= i < |cubes| ::
      Lit(cubes[i], v) == Absent && Lit(WithLiteral(cubes, v, positive)[i], v) == if positive then Positive else Negative
  {
    hide Has, AddLit, Lit, Over;
    var r := WithLiteral(cubes, v, positive);
    forall i, j | 0 <= i < j < |r| ensures r[i] != r[j] {
      if r[i] == r[j] { AddLitInjective(cubes[i], cubes[j], v, positive, vs); }
    }
    forall i | 0 <= i < |cubes|
      ensures Lit(cubes[i], v) == Absent && Lit(r[i], v) == if positive then Positive else Negative
    {
      OverIsCanonical(cubes[i], vs);
      AbsentOutside(cubes[i], vs, v);
      AddLitLiterals(cubes[i], v, positive);
    }
  }

  lemma CombineDistinct(e: ExpType, k: nat, vs: set<nat>, left: seq<Cube>, right: seq<Cube>)
    requires k < WIDTH && k !in vs && AllOver(left, vs) && AllOver(right, vs) && NoRepeats(left) && NoRepeats(right)
    ensures NoRepeats(Combine(e, k, left, right))
  {
    hide Has, Lit, AllOver, WithLiteral;
    WithLiteralDistinct(left, k, false, vs);
    WithLiteralDistinct(right, k, !e.NEGATIVE_DAVIO?, vs);
  }

  /** All cubes of a plan are different, so collecting them in a set loses and cancels nothing. */
  lemma {:induction false} PlanDistinct(p: Plan, f: Bdd, k: nat, n: nat)
    requires Ordered(f, k, n) && PlanFor(p, f, k, n) && k <= n <= WIDTH
    ensures NoRepeats(PlanCubes(p, f, k))
    decreases p
  {
    hide Has, Ordered, LeftOf, RightOf, AllOver, Combine, NoRepeats;
    match p
    case Done =>
      DoneDistinct(f, k);
    case Expand(e, left, right) =>
      PartsOrdered(e, f, k, n);
      PlanDistinct(left, LeftOf(e, f, k), k + 1, n);
      PlanDistinct(right, RightOf(e, f, k), k + 1, n);
      PlanXor(left, LeftOf(e, f, k), k + 1, n, {});
      PlanXor(right, RightOf(e, f, k), k + 1, n, {});
      CombineDistinct(e, k, Span(k + 1, n), PlanCubes(left, LeftOf(e, f, k), k + 1), PlanCubes(right, RightOf(e, f, k), k + 1));
  }

  lemma DoneDistinct(f: Bdd, k: nat)
    ensures NoRepeats(PlanCubes(Done, f, k))
  {
  }

  // ---- The choice the extractor makes ----

  /** `count_cubes` without its memo: the expansion that leaves out the costliest part, and its cost. */
  function CountCubes(f: Bdd, n: nat): (ExpType, nat)
    requires Ordered(f, 0, n)
    decreases n - Top(f, n)
  {
    if !f.Node? then (POSITIVE_DAVIO, if f.One? then 1 else 0)
    else
      NodeParts(f, n);
      var n0 := CountCubes(f.lo, n).1;
      var n1 := CountCubes(f.hi, n).1;
      var n2 := CountCubes(BddXor(f.lo, f.hi), n).1;
      Cheapest(n0, n1, n2)
  }

  /** Leave out the costliest of the three parts; on a tie the zero cofactor goes first, then the one cofactor. */
  function Cheapest(n0: nat, n1: nat, n2: nat): (ExpType, nat) {
    if n1 <= n0 && n2 <= n0 then (NEGATIVE_DAVIO, n1 + n2)
    else if n2 <= n1 then (POSITIVE_DAVIO, n0 + n2)
    else (SHANNON, n0 + n1)
  }

  /** At a node the extractor leaves out a costliest of the three parts. Where several cost the most, it leaves out the
      zero cofactor if that is one of them, and otherwise the one cofactor. */
  lemma ChoiceIff(f: Bdd, n: nat)
    requires f.Node? && Ordered(f, 0, n)
    requires Ordered(f.lo, 0, n) && Ordered(f.hi, 0, n) && Ordered(BddXor(f.lo, f.hi), 0, n)
    ensures var n0, n1, n2 := CountCubes(f.lo, n).1, CountCubes(f.hi, n).1, CountCubes(BddXor(f.lo, f.hi), n).1;
      var (e, cost) := CountCubes(f, n);
      && (e == NEGATIVE_DAVIO <==> n0 >= n1 && n0 >= n2)
      && (e == POSITIVE_DAVIO <==> n1 > n0 && n1 >= n2)
      && (e == SHANNON <==> n2 > n0 && n2 > n1)
      && cost + Max(Max(n0, n1), n2) == n0 + n1 + n2
  {
    hide Ordered, BddXor, CountCubes;
    CountNode(f, n);
  }

  function Max(x: nat, y: nat): nat {
    if x < y then y else x
  }

  /** The parts of a node start at later variables. */
  lemma NodeParts(f: Bdd, n: nat)
    requires f.Node? && Ordered(f, 0, n)
    ensures Ordered(f.lo, f.v + 1, n) && Ordered(f.hi, f.v + 1, n) && Ordered(BddXor(f.lo, f.hi), f.v + 1, n)
    ensures Ordered(f.lo, 0, n) && Ordered(f.hi, 0, n) && Ordered(BddXor(f.lo, f.hi), 0, n)
    ensures f.v < n && f.v < Top(f.lo, n) && f.v < Top(f.hi, n) && f.v < Top(BddXor(f.lo, f.hi), n)
  {
    XorOrdered(f.lo, f.hi, f.v + 1, n);
    OrderedFrom(f.lo, f.v + 1, 0, n);
    OrderedFrom(f.hi, f.v + 1, 0, n);
    OrderedFrom(BddXor(f.lo, f.hi), f.v + 1, 0, n);
  }

  /** The cubes that `generate_exact` emits below an empty path, in order. */
  function Emitted(f: Bdd, n: nat): seq<Cube>
    requires Ordered(f, 0, n)
    decreases n - Top(f, n)
  {
    if !f.Node? then if f.One? then [CUBE_ONE] else []
    else
      NodeParts(f, n);
      var e := CountCubes(f, n).0;
      Combine(e, f.v, Emitted(LeftOf(e, f, f.v), n), Emitted(RightOf(e, f, f.v), n))
  }

  /** The extractor's choices, as a plan: at a variable the function does not depend on nothing is spent. */
  ghost function ChosenPlan(f: Bdd, k: nat, n: nat): Plan
    requires Ordered(f, k, n) && k <= n
    decreases n - k
  {
    if !f.Node? then Done
    else
      OrderedFrom(f, k, 0, n);
      var e := if f.v == k then CountCubes(f, n).0 else POSITIVE_DAVIO;
      PartsOrdered(e, f, k, n);
      Expand(e, ChosenPlan(LeftOf(e, f, k), k + 1, n), ChosenPlan(RightOf(e, f, k), k + 1, n))
  }

  lemma {:induction false} EmittedIsPlanned(f: Bdd, k: nat, n: nat)
    requires Ordered(f, k, n) && Ordered(f, 0, n) && k <= n
    ensures PlanFor(ChosenPlan(f, k, n), f, k, n)
    ensures PlanCubes(ChosenPlan(f, k, n), f, k) == Emitted(f, n)
    decreases n - k
  {
    hide CountCubes, Ordered, BddXor, Combine;
    if f.Node? {
      NodeRange(f, k, n);
      var e := if f.v == k then CountCubes(f, n).0 else POSITIVE_DAVIO;
      var l, r := LeftOf(e, f, k), RightOf(e, f, k);
      PartsOrdered(e, f, k, n);
      OrderedFrom(l, k + 1, 0, n);
      OrderedFrom(r, k + 1, 0, n);
      EmittedIsPlanned(l, k + 1, n);
      EmittedIsPlanned(r, k + 1, n);
      if f.v != k {
        XorSelf(f);
        CombineNothing(k, Emitted(f, n));
      }
    }
  }

  lemma NodeRange(f: Bdd, k: nat, n: nat)
    requires Ordered(f, k, n) && f.Node?
    ensures k <= f.v < n
  {
  }

  lemma CombineNothing(k: nat, cubes: seq<Cube>)
    ensures Combine(POSITIVE_DAVIO, k, cubes, []) == cubes
  {
  }

  /** The predicted cost is the number of cubes emitted. */
  lemma {:induction false} CostIsLength(f: Bdd, n: nat)
    requires Ordered(f, 0, n)
    ensures |Emitted(f, n)| == CountCubes(f, n).1
    decreases n - Top(f, n)
  {
    hide Ordered, BddXor;
    if f.Node? {
      NodeParts(f, n);
      CostIsLength(f.lo, n);
      CostIsLength(f.hi, n);
      CostIsLength(BddXor(f.lo, f.hi), n);
    }
  }

  /** No choice of expansions yields fewer cubes. */
  lemma {:induction false} PlanCostsMore(p: Plan, f: Bdd, k: nat, n: nat)
    requires Ordered(f, k, n) && Ordered(f, 0, n) && PlanFor(p, f, k, n) && k <= n
    ensures CountCubes(f, n).1 <= |PlanCubes(p, f, k)|
    decreases p
  {
    hide Ordered, BddXor;
    match p
    case Done =>
    case Expand(e, left, right) =>
      var l, r := LeftOf(e, f, k), RightOf(e, f, k);
      PartsOrdered(e, f, k, n);
      OrderedFrom(l, k + 1, 0, n);
      OrderedFrom(r, k + 1, 0, n);
      PlanCostsMore(left, l, k + 1, n);
      PlanCostsMore(right, r, k + 1, n);
      if f.Node? && f.v == k {
        NodeParts(f, n);
      } else {
        XorSelf(f);
      }
  }

  /** With k >= 1 variables left a function costs at most 2^(k-1) cubes. */
  lemma {:induction false} CostBound(f: Bdd, k: nat, n: nat)
    requires Ordered(f, k, n) && Ordered(f, 0, n) && k < n
    ensures CountCubes(f, n).1 <= Pow2(n - k - 1)
    decreases n - k
  {
    hide Ordered, BddXor, CountCubes;
    if f.Node? {
      NodeRange(f, k, n);
      NodeParts(f, n);
      PowMonotone(n - f.v - 1, n - k - 1);
      if f.v + 1 < n {
        CostBound(f.lo, f.v + 1, n);
        CostBound(f.hi, f.v + 1, n);
        CostBound(BddXor(f.lo, f.hi), f.v + 1, n);
        SumOfTwo(f, n, Pow2(n - f.v - 2));
      } else {
        LastVariable(f, n);
      }
    } else {
      ConstantCost(f, n);
      PowMonotone(0, n - k - 1);
    }
  }

  lemma SumOfTwo(f: Bdd, n: nat, b: nat)
    requires f.Node? && Ordered(f, 0, n)
    requires Ordered(f.lo, 0, n) && Ordered(f.hi, 0, n) && Ordered(BddXor(f.lo, f.hi), 0, n)
    requires CountCubes(f.lo, n).1 <= b && CountCubes(f.hi, n).1 <= b && CountCubes(BddXor(f.lo, f.hi), n).1 <= b
    ensures CountCubes(f, n).1 <= 2 * b
  {
    hide Ordered, BddXor;
  }

  lemma ConstantCost(f: Bdd, n: nat)
    requires !f.Node?
    ensures CountCubes(f, n).1 <= 1
  {
  }

  lemma LastVariable(f: Bdd, n: nat)
    requires f.Node? && Ordered(f, 0, n) && f.v + 1 == n
    ensures CountCubes(f, n).1 <= 1
  {
    NodeParts(f, n);
  }

  lemma Pow31()
    ensures Pow2(31) == 0x8000_0000
  {
    assert Pow2(8) == 0x100;
    assert Pow2(16) == 0x1_0000;
    assert Pow2(24) == 0x100_0000;
  }

  /** No count of a function over at most 32 variables leaves the range of a 32-bit unsigned number. */
  lemma CostFitsWord(f: Bdd, n: nat)
    requires Ordered(f, 0, n) && n <= WIDTH
    ensures CountCubes(f, n).1 < 0x1_0000_0000
  {
    hide Ordered, CountCubes;
    Pow31();
    if n == 0 {
      NoVariables(f, n);
      ConstantCost(f, n);
    } else {
      CostBound(f, 0, n);
      PowMonotone(n - 1, 31);
    }
  }

  lemma NoVariables(f: Bdd, n: nat)
    requires Ordered(f, 0, n) && n == 0
    ensures !f.Node?
  {
  }

  // ---- What the emitted cubes are ----

  /** The emitted cubes denote the diagram, are all different, are as many as predicted, and no choice of
      expansions for the variables in their order gives fewer. */
  lemma EmittedExact(f: Bdd, n: nat)
    requires Ordered(f, 0, n) && n <= WIDTH
    ensures AllOver(Emitted(f, n), Below(n)) && NoRepeats(Emitted(f, n))
    ensures forall a :: XorSeq(Emitted(f, n), a) == EvalBdd(f, a)
    ensures |Emitted(f, n)| == CountCubes(f, n).1
    ensures forall p | PlanFor(p, f, 0, n) :: |Emitted(f, n)| <= |PlanCubes(p, f, 0)|
  {
    hide Emitted, CountCubes, Ordered, EvalBdd, XorSeq, PlanCubes, PlanFor, NoRepeats;
    EmittedIsPlanned(f, 0, n);
    CostIsLength(f, n);
    assert Span(0, n) == Below(n);
    var p := ChosenPlan(f, 0, n);
    PlanXor(p, f, 0, n, {});
    PlanDistinct(p, f, 0, n);
    forall a ensures XorSeq(Emitted(f, n), a) == EvalBdd(f, a) { PlanXor(p, f, 0, n, a); }
    forall q | PlanFor(q, f, 0, n) ensures |Emitted(f, n)| <= |PlanCubes(q, f, 0)| { PlanCostsMore(q, f, 0, n); }
  }

  lemma {:induction false} SupportRange(f: Bdd, k: nat, n: nat)
    requires Ordered(f, k, n)
    ensures forall v | v in BddSupport(f) :: k <= v < n
  {
    if f.Node? {
      SupportRange(f.lo, f.v + 1, n);
      SupportRange(f.hi, f.v + 1, n);
    }
  }

  /** The emitted cubes mention only variables that the diagram tests. */
  lemma {:induction false} EmittedSupport(f: Bdd, n: nat)
    requires Ordered(f, 0, n) && n <= WIDTH
    ensures AllOver(Emitted(f, n), BddSupport(f))
    decreases n - Top(f, n)
  {
    hide Has, Ordered, BddXor, CountCubes, WithLiteral, AllOver, BddSupport;
    if f.Node? {
      NodeParts(f, n);
      NodeSupport(f, n);
      var e := CountCubes(f, n).0;
      var l, r := LeftOf(e, f, f.v), RightOf(e, f, f.v);
      var rest := BddSupport(f.lo) + BddSupport(f.hi);
      EmittedSupport(l, n);
      EmittedSupport(r, n);
      XorSupport(f.lo, f.hi);
      OverLarger(Emitted(l, n), BddSupport(l), rest);
      OverLarger(Emitted(r, n), BddSupport(r), rest);
      CombineSupport(e, f.v, rest, Emitted(l, n), Emitted(r, n));
    } else {
      ConstantSupport(f, n);
    }
  }

  lemma NodeSupport(f: Bdd, n: nat)
    requires f.Node? && Ordered(f, 0, n)
    ensures BddSupport(f) == BddSupport(f.lo) + BddSupport(f.hi) + {f.v}
    ensures f.v !in BddSupport(f.lo) + BddSupport(f.hi)
  {
    SupportRange(f.lo, f.v + 1, n);
    SupportRange(f.hi, f.v + 1, n);
  }

  lemma ConstantSupport(f: Bdd, n: nat)
    requires !f.Node?
    ensures AllOver(Emitted(f, n), BddSupport(f))
  {
    hide Has, Eval;
    OneHolds({});
  }

  // ---- The extractor ----

  datatype VarValue = POSITIVE | NEGATIVE | UNUSED

  /** `c` with the literal that the value of `v` on the path asks for. */
  function Mark(c: Cube, v: nat, value: VarValue): Cube {
    Cube(Or(c.mask, if value != UNUSED then Bit(v) else Word(0)),
         Or(c.polarity, if value == POSITIVE then Bit(v) else Word(0)))
  }

  /** The cube of the variables on the path. */
  function PathCube(vars: seq<nat>, values: seq<VarValue>): Cube
    requires forall i | 0 <= i < |vars| :: vars[i] < |values|
  {
    if vars == [] then CUBE_ONE
    else
      var m := |vars| - 1;
      Mark(PathCube(vars[..m], values), vars[m], values[vars[m]])
  }

  function Join(p: Cube, c: Cube): Cube {
    Cube(Or(p.mask, c.mask), Or(p.polarity, c.polarity))
  }

  function JoinAll(p: Cube, cubes: seq<Cube>): set<Cube> {
    set i | 0 <= i < |cubes| :: Join(p, cubes[i])
  }

  lemma JoinMarked(p: Cube, v: nat, c: Cube)
    ensures Join(Mark(p, v, UNUSED), c) == Join(p, c)
    ensures Join(Mark(p, v, POSITIVE), c) == Join(p, AddLit(c, v, true))
    ensures Join(Mark(p, v, NEGATIVE), c) == Join(p, AddLit(c, v, false))
    ensures Join(p, CUBE_ONE) == p && Join(CUBE_ONE, c) == c
  {
    hide Or, Bit;
    OrZeroRight(p.mask);
    OrZeroRight(p.polarity);
    OrZeroRight(c.polarity);
    OrZeroLeft(c.mask);
    OrZeroLeft(c.polarity);
    OrSwap(p.mask, Bit(v), c.mask);
    OrSwap(p.polarity, Bit(v), c.polarity);
  }

  lemma JoinCombined(p: Cube, e: ExpType, v: nat, left: seq<Cube>, right: seq<Cube>)
    ensures JoinAll(p, Combine(e, v, left, right)) ==
      JoinAll(Mark(p, v, if e.SHANNON? then NEGATIVE else UNUSED), left) +
      JoinAll(Mark(p, v, if e.NEGATIVE_DAVIO? then NEGATIVE else POSITIVE), right)
  {
    hide Join, Mark, AddLit;
    var l := if e.SHANNON? then WithLiteral(left, v, false) else left;
    var r := WithLiteral(right, v, !e.NEGATIVE_DAVIO?);
    forall i | 0 <= i < |left|
      ensures Join(p, l[i]) == Join(Mark(p, v, if e.SHANNON? then NEGATIVE else UNUSED), left[i])
    {
      JoinMarked(p, v, left[i]);
    }
    forall i | 0 <= i < |right|
      ensures Join(p, r[i]) == Join(Mark(p, v, if e.NEGATIVE_DAVIO? then NEGATIVE else POSITIVE), right[i])
    {
      JoinMarked(p, v, right[i]);
    }
    JoinConcat(p, l, r);
    JoinSame(p, l, Mark(p, v, if e.SHANNON? then NEGATIVE else UNUSED), left);
    JoinSame(p, r, Mark(p, v, if e.NEGATIVE_DAVIO? then NEGATIVE else POSITIVE), right);
  }

  lemma JoinConcat(p: Cube, l: seq<Cube>, r: seq<Cube>)
    ensures JoinAll(p, l + r) == JoinAll(p, l) + JoinAll(p, r)
  {
    hide Join;
    forall c | c in JoinAll(p, r) ensures c in JoinAll(p, l + r) {
      var i :| 0 <= i < |r| && c == Join(p, r[i]);
      assert (l + r)[|l| + i] == r[i];
    }
    forall c | c in JoinAll(p, l) ensures c in JoinAll(p, l + r) {
      var i :| 0 <= i < |l| && c == Join(p, l[i]);
      assert (l + r)[i] == l[i];
    }
  }

  lemma JoinSame(p: Cube, l: seq<Cube>, q: Cube, m: seq<Cube>)
    requires |l| == |m| && forall i | 0 <= i < |l| :: Join(p, l[i]) == Join(q, m[i])
    ensures JoinAll(p, l) == JoinAll(q, m)
  {
    hide Join;
  }

  lemma JoinConstant(p: Cube, f: Bdd, n: nat)
    requires !f.Node?
    ensures JoinAll(p, Emitted(f, n)) == if f.One? then {p} else {}
  {
    hide Join;
    JoinMarked(p, 0, CUBE_ONE);
    if f.One? {
      var cubes := [CUBE_ONE];
      assert Join(p, cubes[0]) == p;
      assert JoinAll(p, cubes) == {p};
    }
  }

  lemma JoinRoot(cubes: seq<Cube>)
    ensures JoinAll(CUBE_ONE, cubes) == CubesOf(cubes)
  {
    hide Join;
    forall i | 0 <= i < |cubes| ensures Join(CUBE_ONE, cubes[i]) == cubes[i] { JoinMarked(CUBE_ONE, 0, cubes[i]); }
    forall c | c in cubes ensures c in JoinAll(CUBE_ONE, cubes) {
      var i :| 0 <= i < |cubes| && cubes[i] == c;
      assert Join(CUBE_ONE, cubes[i]) == c;
    }
  }

  lemma {:induction false} PathCubeFrame(vars: seq<nat>, values: seq<VarValue>, v: nat, value: VarValue)
    requires v < |values| && forall i | 0 <= i < |vars| :: vars[i] < |values| && vars[i] != v
    ensures PathCube(vars, values[v := value]) == PathCube(vars, values)
  {
    hide Mark;
    if vars != [] { PathCubeFrame(vars[..|vars| - 1], values, v, value); }
  }

  lemma PathCubeExtend(vars: seq<nat>, values: seq<VarValue>, v: nat, value: VarValue)
    requires v < |values| && forall i | 0 <= i < |vars| :: vars[i] < |values| && vars[i] != v
    ensures PathCube(vars + [v], values[v := value]) == Mark(PathCube(vars, values), v, value)
  {
    hide Mark;
    PathCubeFrame(vars, values, v, value);
    assert (vars + [v])[..|vars|] == vars;
  }

  /** The memo agrees with the plain recursion and is closed under the non-constant parts of its entries. */
  ghost predicate MemoOk(memo: map<Bdd, (ExpType, nat)>, n: nat) {
    forall f | f in memo :: MemoEntry(memo, f, n)
  }

  ghost predicate MemoEntry(memo: map<Bdd, (ExpType, nat)>, f: Bdd, n: nat)
    requires f in memo
  {
    && f.Node? && Ordered(f, 0, n) && memo[f] == CountCubes(f, n)
    && Known(memo, f.lo) && Known(memo, f.hi) && Known(memo, BddXor(f.lo, f.hi))
  }

  ghost predicate Known(memo: map<Bdd, (ExpType, nat)>, f: Bdd) {
    f.Node? ==> f in memo
  }

  class PsdkroMngr {
    const size: nat
    var vars: seq<nat>
    const varValues: array<VarValue>
    var expCosts: map<Bdd, (ExpType, nat)>
    var esop: set<Cube>

    constructor (n: nat)
      requires n <= WIDTH
      ensures size == n && vars == [] && varValues.Length == n && fresh(varValues)
    {
      size := n;
      vars := [];
      varValues := new VarValue[n](_ => UNUSED);
      expCosts := map[];
      esop := {};
    }

    method CountCubesMemo(f: Bdd) returns (r: (ExpType, nat))
      requires Ordered(f, 0, size) && MemoOk(expCosts, size)
      modifies this`expCosts
      ensures MemoOk(expCosts, size) && Known(expCosts, f)
      ensures old(expCosts).Keys <= expCosts.Keys
      ensures r == CountCubes(f, size)
      decreases size - Top(f, size)
    {
      hide Ordered, BddXor, MemoOk, Known, CountCubes;
      if !f.Node? {
        CountConstant(expCosts, f, size);
        return (POSITIVE_DAVIO, if f.One? then 1 else 0);
      }
      if f in expCosts {
        KnownIfStored(expCosts, f);
        MemoLookup(expCosts, f, size);
        return expCosts[f];
      }
      NodeParts(f, size);
      var f0, f1 := f.lo, f.hi;
      var f2 := BddXor(f0, f1);
      var r0 := CountCubesMemo(f0);
      ghost var memo0 := expCosts;
      var r1 := CountCubesMemo(f1);
      ghost var memo1 := expCosts;
      var r2 := CountCubesMemo(f2);
      KnownGrows(memo0, expCosts, f0);
      KnownGrows(memo1, expCosts, f1);
      var n0, n1, n2 := r0.1, r1.1, r2.1;
      var nMax := Max(Max(n0, n1), n2);
      if nMax == n0 {
        r := (NEGATIVE_DAVIO, n1 + n2);
      } else if nMax == n1 {
        r := (POSITIVE_DAVIO, n0 + n2);
      } else {
        r := (SHANNON, n0 + n1);
      }
      CountNode(f, size);
      MemoInsert(expCosts, f, size);
      expCosts := expCosts[f := r];
      KnownIfStored(expCosts, f);
    }

    /** One cube per path to the constant 1, with the literals of the variables on the path. */
    method EmitPath()
      requires varValues.Length == size
      requires forall i | 0 <= i < |vars| :: vars[i] < size
      modifies this`esop
      ensures esop == old(esop) + {PathCube(vars, varValues[..])}
    {
      hide Mark;
      var cube := CUBE_ONE;
      for i := 0 to |vars|
        invariant cube == PathCube(vars[..i], varValues[..])
      {
        assert vars[..i + 1][..i] == vars[..i];
        var v := vars[i];
        cube := Mark(cube, v, varValues[v]);
      }
      assert vars[..|vars|] == vars;
      esop := esop + {cube};
    }

    /** `generate_exact`. Below the path in `vars`, it adds the cubes of `f` and leaves path and values as they were. */
    method GenerateExact(f: Bdd, ghost k: nat)
      requires varValues.Length == size <= WIDTH
      requires Ordered(f, k, size) && Ordered(f, 0, size) && MemoOk(expCosts, size) && Known(expCosts, f)
      requires forall i | 0 <= i < |vars| :: vars[i] < k && vars[i] < size
      requires forall i | k <= i < size :: varValues[i] == UNUSED
      modifies this`vars, this`esop, varValues
      ensures vars == old(vars) && varValues[..] == old(varValues[..])
      ensures esop == old(esop) + JoinAll(PathCube(vars, varValues[..]), Emitted(f, size))
      decreases size - Top(f, size), 1
    {
      hide Ordered, BddXor, MemoOk, Known, CountCubes, JoinAll, Combine, Mark, PathCube, Emitted;
      ghost var path, values := vars, varValues[..];
      ghost var root := PathCube(vars, varValues[..]);
      if !f.Node? {
        JoinConstant(root, f, size);
        if f.One? {
          EmitPath();
        }
        return;
      }
      MemoLookup(expCosts, f, size);
      var expansion := expCosts[f].0;
      var idx := f.v;
      NodeRange(f, k, size);
      NodeParts(f, size);
      EmittedNode(f, size);
      vars := vars + [idx];
      var f0, f1 := f.lo, f.hi;
      var f2 := BddXor(f0, f1);
      ghost var l, r := LeftOf(expansion, f, idx), RightOf(expansion, f, idx);
      JoinCombined(root, expansion, idx, Emitted(l, size), Emitted(r, size));
      if expansion == POSITIVE_DAVIO {
        Branch(f0, idx, UNUSED, path, values);
        Branch(f2, idx, POSITIVE, path, values);
      } else if expansion == NEGATIVE_DAVIO {
        Branch(f1, idx, UNUSED, path, values);
        Branch(f2, idx, NEGATIVE, path, values);
      } else {
        Branch(f0, idx, NEGATIVE, path, values);
        Branch(f1, idx, POSITIVE, path, values);
      }
      vars := vars[..|vars| - 1];
      varValues[idx] := UNUSED;
      assert vars == path && varValues[..] == values;
    }

    /** Give the last path variable a value and go on with one part of the expansion. */
    method Branch(g: Bdd, idx: nat, value: VarValue, ghost path: seq<nat>, ghost values: seq<VarValue>)
      requires varValues.Length == size <= WIDTH && idx < size && vars == path + [idx]
      requires Ordered(g, idx + 1, size) && Ordered(g, 0, size) && MemoOk(expCosts, size) && Known(expCosts, g)
      requires forall i | 0 <= i < |path| :: path[i] < idx
      requires |values| == size && forall i | idx < i < size :: values[i] == UNUSED
      requires varValues[..] == values[idx := varValues[idx]]
      modifies this`vars, this`esop, varValues
      ensures vars == old(vars) && varValues[..] == values[idx := value]
      ensures esop == old(esop) + JoinAll(Mark(PathCube(path, values), idx, value), Emitted(g, size))
      decreases size - Top(g, size), 2
    {
      hide Ordered, MemoOk, Known, JoinAll, Mark, PathCube, Emitted;
      ghost var before := varValues[..];
      varValues[idx] := value;
      assert varValues[..] == before[idx := value] == values[idx := value];
      forall i | idx < i < size ensures varValues[i] == UNUSED {
        assert varValues[..][i] == values[i];
      }
      PathCubeExtend(path, values, idx, value);
      GenerateExact(g, idx + 1);
    }

    /** The cubes of one function; the set's cubes come out in any order. */
    method ExtractEsop(ptr: NodePtr) returns (result: seq<Cube>)
      requires varValues.Length == size <= WIDTH && vars == []
      requires ptr.Ptr? ==> Ordered(ptr.node, 0, size)
      modifies this`vars, this`esop, this`expCosts, varValues
      ensures vars == []
      ensures ptr == Null ==> result == []
      ensures ptr.Ptr? ==>
        && NoRepeats(result) && |result| == CountCubes(ptr.node, size).1
        && AllOver(result, Below(size)) && AllOver(result, BddSupport(ptr.node))
        && CubesOf(result) == CubesOf(Emitted(ptr.node, size))
        && (forall a :: XorSeq(result, a) == EvalBdd(ptr.node, a))
        && (forall p | PlanFor(p, ptr.node, 0, size) :: |result| <= |PlanCubes(p, ptr.node, 0)|)
    {
      hide Ordered, CountCubes, Emitted, XorSeq, EvalBdd, PlanFor, PlanCubes, JoinAll, BddSupport, AllOver, MemoOk;
      hide Known, NoRepeats, CubesOf;
      if ptr == Null {
        return [];
      }
      var f := ptr.node;
      expCosts := map[];
      EmptyMemo(size);
      esop := {};
      for i := 0 to varValues.Length
        modifies varValues
        invariant forall j | 0 <= j < i :: varValues[j] == UNUSED
      {
        varValues[i] := UNUSED;
      }
      var _ := CountCubesMemo(f);
      GenerateExact(f, 0);
      JoinRoot(Emitted(f, size));
      EmptyPath(varValues[..]);
      EmittedExact(f, size);
      EmittedSupport(f, size);
      result := ListOf(esop);
      SameCubes(result, Emitted(f, size), Below(size), BddSupport(f));
    }
  }

  lemma EmptyPath(values: seq<VarValue>)
    ensures PathCube([], values) == CUBE_ONE
  {
  }

  lemma EmptyMemo(n: nat)
    ensures MemoOk(map[], n)
  {
  }

  lemma CountConstant(memo: map<Bdd, (ExpType, nat)>, f: Bdd, n: nat)
    requires !f.Node?
    ensures CountCubes(f, n) == (POSITIVE_DAVIO, if f.One? then 1 else 0) && Known(memo, f)
  {
  }

  lemma CountNode(f: Bdd, n: nat)
    requires f.Node? && Ordered(f, 0, n)
    requires Ordered(f.lo, 0, n) && Ordered(f.hi, 0, n) && Ordered(BddXor(f.lo, f.hi), 0, n)
    ensures CountCubes(f, n) ==
      Cheapest(CountCubes(f.lo, n).1, CountCubes(f.hi, n).1, CountCubes(BddXor(f.lo, f.hi), n).1)
  {
    hide Ordered, BddXor;
  }

  lemma EmittedNode(f: Bdd, n: nat)
    requires f.Node? && Ordered(f, 0, n)
    ensures var e := CountCubes(f, n).0;
      && Ordered(LeftOf(e, f, f.v), 0, n) && Ordered(RightOf(e, f, f.v), 0, n)
      && Emitted(f, n) == Combine(e, f.v, Emitted(LeftOf(e, f, f.v), n), Emitted(RightOf(e, f, f.v), n))
  {
    hide Ordered, BddXor, CountCubes, Combine;
    NodeParts(f, n);
  }

  lemma KnownIfStored(memo: map<Bdd, (ExpType, nat)>, f: Bdd)
    requires f in memo
    ensures Known(memo, f)
  {
  }

  lemma KnownGrows(memo: map<Bdd, (ExpType, nat)>, larger: map<Bdd, (ExpType, nat)>, f: Bdd)
    requires Known(memo, f) && memo.Keys <= larger.Keys
    ensures Known(larger, f)
  {
  }

  lemma MemoLookup(memo: map<Bdd, (ExpType, nat)>, f: Bdd, n: nat)
    requires MemoOk(memo, n) && f.Node? && Known(memo, f)
    ensures f in memo && Ordered(f, 0, n) && memo[f] == CountCubes(f, n)
    ensures Known(memo, f.lo) && Known(memo, f.hi) && Known(memo, BddXor(f.lo, f.hi))
  {
    hide Ordered, BddXor, CountCubes;
    assert MemoEntry(memo, f, n);
  }

  lemma MemoInsert(memo: map<Bdd, (ExpType, nat)>, f: Bdd, n: nat)
    requires MemoOk(memo, n) && f.Node? && Ordered(f, 0, n)
    requires Known(memo, f.lo) && Known(memo, f.hi) && Known(memo, BddXor(f.lo, f.hi))
    ensures MemoOk(memo[f := CountCubes(f, n)], n)
  {
    hide Ordered, BddXor, CountCubes;
    var larger := memo[f := CountCubes(f, n)];
    forall g | g in larger ensures MemoEntry(larger, g, n) {
      if g != f { assert MemoEntry(memo, g, n); }
    }
  }

  /** Two lists without repetitions of the same cubes agree in length, in meaning and in the variables used. */
  lemma SameCubes(s: seq<Cube>, t: seq<Cube>, vs: set<nat>, ws: set<nat>)
    requires NoRepeats(s) && NoRepeats(t) && CubesOf(s) == CubesOf(t) && AllOver(t, vs) && AllOver(t, ws)
    ensures |s| == |t| && AllOver(s, vs) && AllOver(s, ws)
    ensures forall a :: XorSeq(s, a) == XorSeq(t, a)
  {
    hide XorSeq, XorSet, Over;
    NoRepeatsSize(s);
    NoRepeatsSize(t);
    forall i | 0 <= i < |s| ensures Over(s[i], vs) && Over(s[i], ws) {
      assert s[i] in CubesOf(t);
    }
    forall a ensures XorSeq(s, a) == XorSeq(t, a) {
      XorSeqIsXorSet(s, a);
      XorSeqIsXorSet(t, a);
    }
  }
}
