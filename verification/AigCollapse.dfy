/** Collapsing an and-inverter graph: every node gets an exclusive-or sum of cubes, computed from those of its
    fanins by multiplying out and merging neighbours. */
module AigCollapse {
  import opened Bits
  import opened Cube32
  import opened Esop
  import opened TwoLvl32
  import opened Aig

  // ---- Cubes lost in a product ----

  /** The pair is multiplied with `operator&`, its conjunction is a cube, and the result is taken for zero. */
  ghost predicate Lost(c: Cube, d: Cube) {
    c != CUBE_ONE && d != CUBE_ONE && Compatible(c, d) && Intersect(c, d) == CUBE_ZERO
  }

  ghost function LostWith(c: Cube, t: seq<Cube>): nat {
    if t == [] then 0 else LostWith(c, t[..|t| - 1]) + if Lost(c, t[|t| - 1]) then 1 else 0
  }

  /** How many pairs of the product of two lists are lost. */
  ghost function LostPairs(s: seq<Cube>, t: seq<Cube>): nat {
    if s == [] then 0 else LostPairs(s[..|s| - 1], t) + LostWith(s[|s| - 1], t)
  }

  /** No variable is true: the one assignment that the zero code, read as a cube, accepts. */
  ghost predicate AllNegative(a: Assignment) {
    Eval(CUBE_ZERO, a)
  }

  lemma AllNegativeIsEmpty(a: Assignment)
    ensures AllNegative(a) <==> forall v: nat | v < WIDTH :: v !in a
    ensures Canonical(CUBE_ZERO)
  {
    hide Has;
    forall v: nat | v < WIDTH { ZeroLiterals(v); }
    if AllNegative(a) {
      forall v: nat | v < WIDTH ensures v !in a {
        assert Holds(Lit(CUBE_ZERO, v), v in a);
      }
    }
  }

  /** Where some variable is mentioned by no cube, nothing is lost. */
  lemma {:induction false} NothingLost(s: seq<Cube>, t: seq<Cube>, vs: set<nat>, v: nat)
    requires AllOver(s, vs) && AllOver(t, vs) && v < WIDTH && v !in vs
    ensures LostPairs(s, t) == 0
  {
    hide Over, Lost;
    if s != [] {
      assert s[|s| - 1] in s;
      NothingLost(s[..|s| - 1], t, vs, v);
      NothingLostWith(s[|s| - 1], t, vs, v);
    }
  }

  lemma {:induction false} NothingLostWith(c: Cube, t: seq<Cube>, vs: set<nat>, v: nat)
    requires Over(c, vs) && AllOver(t, vs) && v < WIDTH && v !in vs
    ensures LostWith(c, t) == 0
  {
    hide Over, Lost;
    if t != [] {
      NothingLostWith(c, t[..|t| - 1], vs, v);
      NotLost(c, t[|t| - 1], vs, v);
    }
  }

  lemma NotLost(c: Cube, d: Cube, vs: set<nat>, v: nat)
    requires Over(c, vs) && Over(d, vs) && v < WIDTH && v !in vs
    ensures !Lost(c, d)
  {
    hide Has, Intersect;
    if Compatible(c, d) {
      IntersectCompatible(c, d, vs);
      HasOnes(WIDTH, v);
      assert v in Support(CUBE_ZERO);
    }
  }

  /** A product is lost exactly when neither factor is the constant 1, neither has a positive literal, and the two
      together mention all 32 variables. */
  lemma LostExactly(c: Cube, d: Cube)
    requires Canonical(c) && Canonical(d)
    ensures Lost(c, d) <==>
      && c != CUBE_ONE && d != CUBE_ONE
      && forall v: nat | v < WIDTH ::
        Lit(c, v) != Positive && Lit(d, v) != Positive && (Lit(c, v) == Negative || Lit(d, v) == Negative)
  {
    hide Has, Intersect, Or, Lit;
    IntersectCases(c, d);
    var m := Cube(Or(c.mask, d.mask), Or(c.polarity, d.polarity));
    forall v: nat | v < WIDTH
      ensures CanonicalAt(m, v) && CanonicalAt(CUBE_ZERO, v) && Lit(CUBE_ZERO, v) == Negative
      ensures Lit(c, v) == Absent || Lit(c, v) == Lit(d, v) ==> Lit(m, v) == Lit(d, v)
      ensures Lit(d, v) == Absent ==> Lit(m, v) == Lit(c, v)
    {
      assert CanonicalAt(c, v) && CanonicalAt(d, v);
      IntersectAt(c, d, v);
      ZeroLiterals(v);
    }
    if Compatible(c, d) && (forall v: nat | v < WIDTH :: Lit(m, v) == Negative) {
      LiteralsDetermineCube(m, CUBE_ZERO);
    }
  }

  /** Over 32 variables a single product can be lost: the two halves of the all-negative minterm. Both factors are
      true there, their product as `compute_and` forms it is not. */
  lemma LossExample()
    ensures var c, d := Cube(Word(0xFFFF), Word(0)), Cube(Word(0xFFFF_0000), Word(0));
      && Over(c, Below(WIDTH)) && Over(d, Below(WIDTH))
      && Eval(c, {}) && Eval(d, {}) && LostPairs([c], [d]) == 1
      && XorSeq([c], {}) && XorSeq([d], {}) && !Product([c], [d], {})
  {
    hide Has, Product, XorSeq, AllNegative;
    var c, d := Cube(Word(0xFFFF), Word(0)), Cube(Word(0xFFFF_0000), Word(0));
    forall v: nat { HasZero(v); }
    assert Compatible(c, d);
    assert Intersect(c, d) == CUBE_ZERO;
    OnesAreNotZero(c, d);
    assert [c][..0] == [] && [d][..0] == [];
    assert LostWith(c, [d]) == LostWith(c, []) + 1;
    assert LostPairs([c], [d]) == LostPairs([], [d]) + LostWith(c, [d]);
    WrongProduct(c, d);
  }

  /** Where a single pair is lost, the product is wrong at the all-negative assignment. */
  lemma WrongProduct(c: Cube, d: Cube)
    requires Eval(c, {}) && Eval(d, {}) && LostPairs([c], [d]) == 1
    ensures XorSeq([c], {}) && XorSeq([d], {}) && !Product([c], [d], {})
  {
    hide Eval, LostPairs;
    AllNegativeIsEmpty({});
    SingleXor([c], {});
    SingleXor([d], {});
  }

  lemma OnesAreNotZero(c: Cube, d: Cube)
    requires c == Cube(Word(0xFFFF), Word(0)) && d == Cube(Word(0xFFFF_0000), Word(0))
    ensures c != CUBE_ONE && d != CUBE_ONE
  {
  }

  // ---- Merging neighbours ----

  /** Two different cubes of `s` other than the constant 1 cannot be merged. */
  ghost predicate ApartButOne(s: set<Cube>) {
    forall x, y | x in s && y in s && x != y && x != CUBE_ONE && y != CUBE_ONE :: Distance(x, y) >= 2
  }

  /** No neighbour of `c` in `s`, looking at the rotations of its first `n` positions. */
  ghost predicate NoRotationIn(c: Cube, s: set<Cube>, n: nat) {
    forall i: nat | i < n :: Rotate(c, i) !in s && Rotate(Rotate(c, i), i) !in s
  }

  /** The rotations in the order they are looked for: once and twice at each position, lowest first. */
  function Rotation(c: Cube, r: nat): Cube {
    if r % 2 == 0 then Rotate(c, r / 2) else Rotate(Rotate(c, r / 2), r / 2)
  }

  /** `x` is the first rotation of `c` that is in `s`. */
  ghost predicate FirstIn(c: Cube, s: set<Cube>, n: nat, x: Cube) {
    x in s && exists r: nat | r < 2 * n && x == Rotation(c, r) :: forall q: nat | q < r :: Rotation(c, q) !in s
  }

  /** Toggling `c` in `s` leads to `t`: an equal cube vanishes with it, the constant 1 and a cube without neighbour are
      stored, and otherwise the first neighbour is taken out and the merged cube toggled. */
  ghost predicate ToggleStep(s: set<Cube>, t: set<Cube>, c: Cube, n: nat)
    decreases |s|, 1
  {
    if c in s then t == s - {c}
    else if c == CUBE_ONE || NoRotationIn(c, s, n) then t == s + {c}
    else exists x | x in s :: MergeStep(s, t, c, n, x)
  }

  ghost predicate MergeStep(s: set<Cube>, t: set<Cube>, c: Cube, n: nat, x: Cube)
    requires x in s
    decreases |s|, 0
  {
    FirstIn(c, s, n, x) && (Smaller(s, x); ToggleStep(s - {x}, t, Merge(c, x), n))
  }

  lemma Smaller(s: set<Cube>, x: Cube)
    requires x in s
    ensures |s - {x}| < |s|
  {
  }

  /** What is still to do from here on leads to the same end as from the start. */
  ghost predicate LeadsOn(s: set<Cube>, c: Cube, now: set<Cube>, d: Cube, n: nat) {
    forall t :: ToggleStep(now, t, d, n) ==> ToggleStep(s, t, c, n)
  }

  lemma LeadsFurther(s: set<Cube>, c: Cube, now: set<Cube>, d: Cube, n: nat, x: Cube)
    requires LeadsOn(s, c, now, d, n) && FirstIn(d, now, n, x) && d !in now && d != CUBE_ONE
    ensures LeadsOn(s, c, now - {x}, Merge(d, x), n)
  {
    hide Rotate, Merge, Rotation;
    FirstIsRotation(d, now, n, x);
    forall t | ToggleStep(now - {x}, t, Merge(d, x), n) ensures ToggleStep(now, t, d, n) {
      assert MergeStep(now, t, d, n, x);
    }
  }

  lemma LeadsStart(s: set<Cube>, c: Cube, n: nat)
    ensures LeadsOn(s, c, s, c, n)
  {
    hide ToggleStep;
  }

  lemma LeadsEnds(s: set<Cube>, c: Cube, now: set<Cube>, d: Cube, n: nat)
    requires LeadsOn(s, c, now, d, n)
    ensures d in now ==> ToggleStep(s, now - {d}, c, n)
    ensures d !in now && (d == CUBE_ONE || NoRotationIn(d, now, n)) ==> ToggleStep(s, now + {d}, c, n)
  {
    hide NoRotationIn, Merge, FirstIn;
    if d in now {
      assert ToggleStep(now, now - {d}, d, n);
    } else if d == CUBE_ONE || NoRotationIn(d, now, n) {
      assert ToggleStep(now, now + {d}, d, n);
    }
  }

  lemma FirstIsRotation(c: Cube, s: set<Cube>, n: nat, x: Cube)
    requires FirstIn(c, s, n, x)
    ensures !NoRotationIn(c, s, n)
  {
    hide Rotate;
    var r: nat :| r < 2 * n && x == Rotation(c, r) && forall q: nat | q < r :: Rotation(c, q) !in s;
    assert r / 2 < n;
  }

  lemma FirstFound(c: Cube, s: set<Cube>, n: nat, i: nat, twice: bool)
    requires i < n && NoRotationIn(c, s, i)
    requires if twice then Rotate(c, i) !in s && Rotate(Rotate(c, i), i) in s else Rotate(c, i) in s
    ensures FirstIn(c, s, n, if twice then Rotate(Rotate(c, i), i) else Rotate(c, i))
  {
    hide Rotate;
    var r := 2 * i + if twice then 1 else 0;
    forall q: nat | q < r ensures Rotation(c, q) !in s {
      assert q / 2 <= i;
      if q / 2 == i { assert q == 2 * i; }
    }
    assert Rotation(c, r) in s;
  }

  lemma NoNeighbour(c: Cube, x: Cube, s: set<Cube>, n: nat)
    requires Over(c, Below(n)) && Over(x, Below(n)) && NoRotationIn(c, s, n) && x in s && n <= WIDTH
    ensures Distance(c, x) != 1
  {
    hide Has, Distance, Rotate;
    if Distance(c, x) == 1 {
      var v := OneDifference(c, x);
      DifferingInSupport(c, x, v);
      NeighbourIsRotation(c, x, v);
    }
  }

  lemma DifferingInSupport(c: Cube, x: Cube, v: nat)
    requires v in Differing(c, x)
    ensures v in Support(c) + Support(x)
  {
    hide Has;
  }

  lemma ApartInsert(s: set<Cube>, c: Cube, vs: set<nat>, n: nat)
    requires ApartButOne(s) && SetOver(s, vs) && Over(c, vs) && vs <= Below(n) && n <= WIDTH
    requires c !in s && NoRotationIn(c, s, n)
    ensures ApartButOne(s + {c}) && SetOver(s + {c}, vs)
  {
    hide Has, Distance, Rotate, NoRotationIn;
    forall x | x in s ensures Distance(c, x) >= 2 && Distance(x, c) >= 2 {
      NoNeighbour(c, x, s, n);
      DistanceZero(c, x);
      DistanceSymmetric(c, x);
    }
  }

  lemma ApartSubset(s: set<Cube>, t: set<Cube>, vs: set<nat>)
    requires t <= s && ApartButOne(s) && SetOver(s, vs)
    ensures ApartButOne(t) && SetOver(t, vs)
  {
    hide Distance, Over;
  }

  lemma ApartWithOne(s: set<Cube>, vs: set<nat>)
    requires ApartButOne(s) && SetOver(s, vs)
    ensures ApartButOne(s + {CUBE_ONE}) && SetOver(s + {CUBE_ONE}, vs)
  {
    hide Distance, Has, Eval;
    OneHolds({});
  }

  /** What remains to be added is the exclusive or of `now` and the cube in hand. */
  ghost predicate Pending(start: set<Cube>, c0: Cube, now: set<Cube>, c: Cube) {
    forall a :: (XorSet(start, a) != Eval(c0, a)) == (XorSet(now, a) != Eval(c, a))
  }

  lemma PendingStart(s: set<Cube>, c: Cube)
    ensures Pending(s, c, s, c)
  {
  }

  lemma PendingMerge(start: set<Cube>, c0: Cube, now: set<Cube>, c: Cube, x: Cube)
    requires Pending(start, c0, now, c) && x in now
    requires forall a :: Eval(Merge(c, x), a) == (Eval(c, a) != Eval(x, a))
    ensures Pending(start, c0, now - {x}, Merge(c, x))
  {
    hide Eval, XorSet, Merge;
    RemoveToggles(now, x);
  }

  lemma PendingEnds(start: set<Cube>, c0: Cube, now: set<Cube>, c: Cube)
    requires Pending(start, c0, now, c)
    ensures c in now ==> Toggled(start, now - {c}, c0)
    ensures c !in now ==> Toggled(start, now + {c}, c0)
  {
    hide Eval, XorSet;
    if c in now { RemoveToggles(now, c); } else { InsertToggles(now, c); }
  }

  // ---- Products ----

  /** Adding one product of the double loop, or dropping it when it is taken for zero. */
  ghost predicate ProductStep(s: set<Cube>, t: set<Cube>, c: Cube, d: Cube) {
    forall a :: XorSet(t, a) == ((XorSet(s, a) != (Eval(c, a) && Eval(d, a))) != (Lost(c, d) && AllNegative(a)))
  }

  /** The sum so far after all products of the first `i` cubes of `p` and those of `p[i]` with the first `j` of `q`. */
  ghost predicate PartialProduct(s: set<Cube>, p: seq<Cube>, q: seq<Cube>, i: nat, j: nat)
    requires i <= |p| && j <= |q| && (i < |p| || j == 0)
  {
    forall a :: XorSet(s, a) ==
      (((XorSeq(p[..i], a) && XorSeq(q, a)) != (i < |p| && Eval(p[i], a) && XorSeq(q[..j], a)))
        != (AllNegative(a) && (LostPairs(p[..i], q) + if i < |p| then LostWith(p[i], q[..j]) else 0) % 2 == 1))
  }

  /** The set denotes the product of the two lists, wrong only at the all-negative assignment and only when an odd
      number of products has been lost. */
  ghost predicate ProductOf(s: set<Cube>, p: seq<Cube>, q: seq<Cube>) {
    forall a :: XorSet(s, a) == Product(p, q, a)
  }

  ghost predicate Product(p: seq<Cube>, q: seq<Cube>, a: Assignment) {
    (XorSeq(p, a) && XorSeq(q, a)) != (AllNegative(a) && LostPairs(p, q) % 2 == 1)
  }

  /** A list that denotes the product as it is formed denotes the conjunction exactly when an even number of pairs is
      lost. */
  lemma ProductExactIff(list: seq<Cube>, p: seq<Cube>, q: seq<Cube>)
    requires forall a :: XorSeq(list, a) == Product(p, q, a)
    ensures (forall a :: XorSeq(list, a) == (XorSeq(p, a) && XorSeq(q, a))) <==> LostPairs(p, q) % 2 == 0
  {
    hide XorSeq, LostPairs, AllNegative;
    AllNegativeIsEmpty({});
    assert XorSeq(list, {}) == ((XorSeq(p, {}) && XorSeq(q, {})) != (LostPairs(p, q) % 2 == 1));
  }

  lemma PartialStart(p: seq<Cube>, q: seq<Cube>)
    ensures PartialProduct({}, p, q, 0, 0)
  {
    hide Eval, XorSet;
    assert p[..0] == [] && q[..0] == [];
    forall a { XorEmpty(a); }
  }

  lemma PartialStep(s: set<Cube>, t: set<Cube>, p: seq<Cube>, q: seq<Cube>, i: nat, j: nat)
    requires i < |p| && j < |q| && PartialProduct(s, p, q, i, j) && ProductStep(s, t, p[i], q[j])
    ensures PartialProduct(t, p, q, i, j + 1)
  {
    hide Eval, XorSet, XorSeq, Lost, LostPairs, AllNegative;
    assert q[..j + 1] == q[..j] + [q[j]];
    assert q[..j + 1][..j] == q[..j];
    forall a { XorAppend(q[..j], q[j], a); }
  }

  lemma PartialRow(s: set<Cube>, p: seq<Cube>, q: seq<Cube>, i: nat)
    requires i < |p| && PartialProduct(s, p, q, i, |q|)
    ensures PartialProduct(s, p, q, i + 1, 0)
  {
    hide Eval, XorSet, XorSeq, Lost, AllNegative;
    assert q[..|q|] == q && q[..0] == [];
    assert p[..i + 1] == p[..i] + [p[i]];
    assert p[..i + 1][..i] == p[..i];
    assert LostPairs(p[..i + 1], q) == LostPairs(p[..i], q) + LostWith(p[i], q);
    forall a ensures XorSeq(p[..i + 1], a) == (XorSeq(p[..i], a) != Eval(p[i], a)) && !XorSeq([], a) {
      XorAppend(p[..i], p[i], a);
      NoCubes(a);
    }
  }

  lemma PartialEnd(s: set<Cube>, p: seq<Cube>, q: seq<Cube>)
    requires PartialProduct(s, p, q, |p|, 0)
    ensures ProductOf(s, p, q)
  {
    hide Eval, XorSet, XorSeq, AllNegative, LostPairs, LostWith;
    assert p[..|p|] == p;
  }

  lemma {:induction false} EmptyProduct(p: seq<Cube>, q: seq<Cube>)
    requires p == [] || q == []
    ensures LostPairs(p, q) == 0
    ensures forall a :: !Product(p, q, a)
  {
    if p != [] { EmptyProduct(p[..|p| - 1], q); }
  }

  /** `operator&` on two cubes other than 1, compared with the zero code. */
  lemma ProductCases(s: set<Cube>, c: Cube, d: Cube, vs: set<nat>)
    requires Over(c, vs) && Over(d, vs) && c != CUBE_ONE && d != CUBE_ONE
    ensures Intersect(c, d) != CUBE_ZERO ==> Over(Intersect(c, d), vs) && !Lost(c, d)
    ensures Intersect(c, d) != CUBE_ZERO ==> forall a :: Eval(Intersect(c, d), a) == (Eval(c, a) && Eval(d, a))
    ensures Intersect(c, d) == CUBE_ZERO ==> ProductStep(s, s, c, d)
  {
    hide Has, Intersect, Compatible, XorSet, Eval;
    if Compatible(c, d) {
      IntersectCompatible(c, d, vs);
    } else {
      forall a { IntersectClash(c, d, a); }
    }
  }

  lemma ProductToggles(s: set<Cube>, t: set<Cube>, m: Cube, c: Cube, d: Cube)
    requires Toggled(s, t, m) && !Lost(c, d) && forall a :: Eval(m, a) == (Eval(c, a) && Eval(d, a))
    ensures ProductStep(s, t, c, d)
  {
    hide Eval, XorSet, Lost;
  }

  lemma OneIsUnit(c: Cube, d: Cube)
    requires c == CUBE_ONE || d == CUBE_ONE
    ensures !Lost(c, d)
    ensures forall a :: Eval(if c == CUBE_ONE then d else c, a) == (Eval(c, a) && Eval(d, a))
  {
    hide Eval, Compatible, Intersect;
    forall a { OneHolds(a); }
  }

  class AigExtrMngr {
    const aig: Aig
    var esops: seq<seq<Cube>>
    var esop0: seq<Cube>
    var esop1: seq<Cube>
    var currEsop: set<Cube>

    constructor (g: Aig)
      ensures aig == g && esops == [] && currEsop == {}
    {
      aig := g;
      esops, esop0, esop1, currEsop := [], [], [], {};
    }

    /** The first rotation of `c`, position by position, that is in the current sum. */
    method FindNeighbour(c: Cube) returns (found: bool, x: Cube)
      requires |aig.cis| <= WIDTH && Canonical(c)
      ensures found ==> FirstIn(c, currEsop, |aig.cis|, x) && x in currEsop && Distance(c, x) == 1
      ensures !found ==> NoRotationIn(c, currEsop, |aig.cis|)
    {
      hide Has, Rotate, Distance, Canonical, FirstIn;
      for i := 0 to |aig.cis|
        invariant NoRotationIn(c, currEsop, i)
      {
        x := Rotate(c, i);
        RotationIsNeighbour(c, x, i);
        if x in currEsop {
          FirstFound(c, currEsop, |aig.cis|, i, false);
          return true, x;
        }
        x := Rotate(x, i);
        RotationIsNeighbour(c, x, i);
        if x in currEsop {
          FirstFound(c, currEsop, |aig.cis|, i, true);
          return true, x;
        }
      }
      return false, c;
    }

    /** Toggle one cube in the current sum, merging it with neighbours as long as there are any. */
    method AddCube(c: Cube, ghost vs: set<nat>)
      requires |aig.cis| <= WIDTH && vs <= Below(|aig.cis|)
      requires Over(c, vs) && SetOver(currEsop, vs) && ApartButOne(currEsop)
      modifies this`currEsop
      ensures ToggleStep(old(currEsop), currEsop, c, |aig.cis|)
      ensures Toggled(old(currEsop), currEsop, c)
      ensures SetOver(currEsop, vs) && ApartButOne(currEsop)
      ensures old(currEsop) == {} ==> currEsop == {c}
    {
      hide Merge, Rotate, Over, Toggled, ApartButOne, NoRotationIn, Pending, SetOver, Below, Distance, FirstIn, LeadsOn;
      var cube0 := c;
      PendingStart(currEsop, c);
      LeadsStart(currEsop, c, |aig.cis|);
      while true
        invariant Pending(old(currEsop), c, currEsop, cube0)
        invariant Over(cube0, vs) && SetOver(currEsop, vs) && ApartButOne(currEsop)
        invariant LeadsOn(old(currEsop), c, currEsop, cube0, |aig.cis|)
        invariant old(currEsop) == {} ==> currEsop == {} && cube0 == c
        decreases |currEsop|
      {
        PendingEnds(old(currEsop), c, currEsop, cube0);
        if cube0 in currEsop {
          ApartSubset(currEsop, currEsop - {cube0}, vs);
          LeadsEnds(old(currEsop), c, currEsop, cube0, |aig.cis|);
          currEsop := currEsop - {cube0};
          return;
        }
        if cube0 == CUBE_ONE {
          ApartWithOne(currEsop, vs);
          LeadsEnds(old(currEsop), c, currEsop, cube0, |aig.cis|);
          currEsop := currEsop + {cube0};
          return;
        }
        OverIsCanonical(cube0, vs);
        var found, x := FindNeighbour(cube0);
        if !found {
          break;
        }
        MemberOver(currEsop, x, vs);
        MergeIsXor(cube0, x, vs);
        LeadsFurther(old(currEsop), c, currEsop, cube0, |aig.cis|, x);
        PendingMerge(old(currEsop), c, currEsop, cube0, x);
        ApartSubset(currEsop, currEsop - {x}, vs);
        cube0 := Merge(cube0, x);
        currEsop := currEsop - {x};
      }
      ApartInsert(currEsop, cube0, vs, |aig.cis|);
      LeadsEnds(old(currEsop), c, currEsop, cube0, |aig.cis|);
      currEsop := currEsop + {cube0};
    }

    /** The sum stored for `idx`, complemented if asked. */
    method PrepareInput(idx: nat, cmpl: bool, ghost vs: set<nat>) returns (out: seq<Cube>)
      requires idx < |esops| && AllOver(esops[idx], vs)
      ensures out == Prepared(esops[idx], cmpl) && AllOver(out, vs)
      ensures forall a :: XorSeq(out, a) == (XorSeq(esops[idx], a) != cmpl)
    {
      hide XorSeq, Invert, Over, NLits, Eval;
      var offset := 0;
      out := [];
      if cmpl {
        if esops[idx] == [] {
          out := out + [CUBE_ONE];
        } else {
          var first := esops[idx][0];
          if first == CUBE_ONE {
            offset := 1;
          } else if NLits(first) == 1 {
            first := Invert(first);
            out := out + [first];
            offset := 1;
          } else {
            out := out + [CUBE_ONE];
          }
        }
      }
      out := out + esops[idx][offset..];
      PreparedXor(esops[idx], cmpl, vs);
    }

    /** Multiply `esop0` and `esop1` out and store the result for object `index`. */
    method ComputeAnd(index: nat, ghost vs: set<nat>)
      requires |aig.cis| <= WIDTH && vs <= Below(|aig.cis|)
      requires index < |esops| && esops[index] == [] && currEsop == {}
      requires AllOver(esop0, vs) && AllOver(esop1, vs)
      modifies this`esops, this`currEsop
      ensures currEsop == {} && |esops| == |old(esops)|
      ensures forall id | 0 <= id < |esops| && id != index :: esops[id] == old(esops[id])
      ensures AllOver(esops[index], vs) && NoRepeats(esops[index])
      ensures ApartButOne(CubesOf(esops[index]))
      ensures forall a :: XorSeq(esops[index], a) == Product(esop0, esop1, a)
      ensures (forall a :: XorSeq(esops[index], a) == (XorSeq(esop0, a) && XorSeq(esop1, a))) <==>
        LostPairs(esop0, esop1) % 2 == 0
      ensures |esop0| == 1 && |esop1| == 1 ==> esops[index] == SingleProduct(esop0[0], esop1[0])
    {
      hide XorSeq, XorSet, Over, Below, Toggled, ApartButOne, SetOver, PartialProduct, ProductStep, Lost, Eval, Intersect;
      hide Product, NoRepeats, SingleProduct;
      NothingYet(vs);
      if esop0 == [] || esop1 == [] {
        EmptyProduct(esop0, esop1);
        ProductExactIff(esops[index], esop0, esop1);
        return;
      }
      PartialStart(esop0, esop1);
      for i := 0 to |esop0|
        modifies this`currEsop
        invariant PartialProduct(currEsop, esop0, esop1, i, 0)
        invariant SetOver(currEsop, vs) && ApartButOne(currEsop)
        invariant i == 0 ==> currEsop == {}
        invariant i == |esop0| == |esop1| == 1 ==> currEsop == CubesOf(SingleProduct(esop0[0], esop1[0]))
      {
        var cube0 := esop0[i];
        for j := 0 to |esop1|
          modifies this`currEsop
          invariant PartialProduct(currEsop, esop0, esop1, i, j)
          invariant SetOver(currEsop, vs) && ApartButOne(currEsop)
          invariant i == j == 0 ==> currEsop == {}
          invariant i == 0 && j == |esop0| == |esop1| == 1 ==> currEsop == CubesOf(SingleProduct(esop0[0], esop1[0]))
        {
          var cube1 := esop1[j];
          ghost var before := currEsop;
          AddProduct(cube0, cube1, vs);
          PartialStep(before, currEsop, esop0, esop1, i, j);
        }
        PartialRow(currEsop, esop0, esop1, i);
      }
      PartialEnd(currEsop, esop0, esop1);
      var list := ListOf(currEsop);
      ListedProduct(list, currEsop, vs);
      if |esop0| == |esop1| == 1 { SingleList(list, esop0[0], esop1[0]); }
      ProductExactIff(list, esop0, esop1);
      esops := esops[index := esops[index] + list];
      currEsop := {};
    }

    /** Inputs and all objects before `bound` are stored, those still to come are empty. */
    ghost predicate Collapsed(bound: nat)
      requires WellFormedAig(aig)
      reads this`esops
    {
      && |esops| == |aig.objs|
      && forall id | 0 <= id < |aig.objs| ::
        if id < bound || !aig.objs[id].AndNode? then Stored(aig, esops, id) else esops[id] == []
    }

    method LoadInputs()
      requires WellFormedAig(aig) && |aig.cis| <= WIDTH && esops == []
      modifies this`esops
      ensures Collapsed(0)
    {
      hide Over, XorSeq, Cone, Bit;
      esops := seq(|aig.objs|, _ => []);
      for i := 0 to |aig.cis|
        invariant |esops| == |aig.objs|
        invariant forall id | 0 <= id < |aig.objs| ::
          esops[id] == if aig.objs[id].Ci? && aig.objs[id].index < i then [InputCube(aig.objs[id].index)] else []
      {
        var id := aig.cis[i];
        var cube := Cube(Bit(i), Bit(i));
        esops := esops[id := esops[id] + [cube]];
      }
    }

    /** One node: prepare both operands and multiply them. */
    method CollapseNode(i: nat)
      requires WellFormedAig(aig) && |aig.cis| <= WIDTH && i < |aig.objs| && aig.objs[i].AndNode?
      requires Collapsed(i) && currEsop == {}
      modifies this
      ensures Collapsed(i + 1) && currEsop == {}
      ensures forall id | 0 <= id < |aig.objs| && id != i :: esops[id] == old(esops)[id]
    {
      hide Over, XorSeq, Cone, Product, AllOver, ApartButOne, Below, Stored, SingleProduct, Prepared, NoRepeats;
      ghost var before := esops;
      var f0, f1 := aig.objs[i].fanin0, aig.objs[i].fanin1;
      ghost var vs := Cone(aig.objs, i);
      StoredOver(aig, esops, f0.id);
      StoredOver(aig, esops, f1.id);
      FaninsOver(aig, i, esops);
      esop0 := PrepareInput(f0.id, f0.cmpl, vs);
      esop1 := PrepareInput(f1.id, f1.cmpl, vs);
      ConeBound(aig, i);
      ComputeAnd(i, vs);
      NodeStored(aig, esops, i);
      forall id | 0 <= id < i || (i < id < |aig.objs| && !aig.objs[id].AndNode?) ensures Stored(aig, esops, id) {
        StillStored(aig, before, esops, i, id);
      }
    }

    /** The whole extraction. Every stored sum and every output list is right at every assignment, except that those
        which flip are wrong exactly where no variable is true; only what depends on all 32 inputs can flip. */
    method Run() returns (result: TwoLvl)
      requires WellFormedAig(aig) && |aig.cis| <= WIDTH && esops == [] && currEsop == {}
      modifies this
      ensures |esops| == |aig.objs| && AllStored(aig, esops)
      ensures forall id, a | 0 <= id < |aig.objs| ::
        XorSeq(esops[id], a) == (Value(aig.objs, id, a) != (AllNegative(a) && Flips(aig, esops, id)))
      ensures result.kind == ESOP && result.nInputs == |aig.cis| && |result.cubes| == |aig.cos|
      ensures WellFormed(result)
      ensures forall k | 0 <= k < |aig.cos| :: result.cubes[k] == Prepared(esops[aig.cos[k].id], aig.cos[k].cmpl)
      ensures forall k | 0 <= k < |aig.cos| :: AllOver(result.cubes[k], Cone(aig.objs, aig.cos[k].id))
      ensures forall k, a | 0 <= k < |aig.cos| ::
        XorSeq(result.cubes[k], a) == (Output(aig, k, a) != (AllNegative(a) && Flips(aig, esops, aig.cos[k].id)))
      ensures forall k | 0 <= k < |aig.cos| ::
        (forall a :: XorSeq(result.cubes[k], a) == Output(aig, k, a)) <==> !Flips(aig, esops, aig.cos[k].id)
      ensures forall id | 0 <= id < |aig.objs| && Flips(aig, esops, id) :: Below(WIDTH) <= Cone(aig.objs, id)
    {
      hide Over, XorSeq, Value, Cone, AllOver, AllNegative, Below, Stored, Flips, Prepared;
      LoadInputs();
      for i := 0 to |aig.objs|
        invariant currEsop == {} && Collapsed(i)
      {
        if aig.objs[i].AndNode? {
          CollapseNode(i);
        }
      }
      forall id | 0 <= id < |aig.objs|
        ensures forall a ::
          XorSeq(esops[id], a) == (Value(aig.objs, id, a) != (AllNegative(a) && Flips(aig, esops, id)))
        ensures Flips(aig, esops, id) ==> Below(WIDTH) <= Cone(aig.objs, id)
      {
        SumRealised(aig, esops, id);
        FlipNeedsAll(aig, esops, id);
      }
      var ret: seq<seq<Cube>> := [];
      for k := 0 to |aig.cos|
        modifies this`esop0
        invariant |ret| == k
        invariant forall j | 0 <= j < k :: OutputHolding(aig, esops, j, ret[j])
        invariant forall j | 0 <= j < k :: ret[j] == Prepared(esops[aig.cos[j].id], aig.cos[j].cmpl)
      {
        var f := aig.cos[k];
        StoredOver(aig, esops, f.id);
        esop0 := PrepareInput(f.id, f.cmpl, Cone(aig.objs, f.id));
        OutputFromObject(aig, esops, k, esop0);
        ret := ret + [esop0];
      }
      result := TwoLvl(ESOP, |aig.cis|, ret);
      OutputsHolding(aig, esops, ret);
      forall k | 0 <= k < |aig.cos|
        ensures (forall a :: XorSeq(ret[k], a) == Output(aig, k, a)) <==> !Flips(aig, esops, aig.cos[k].id)
      {
        OutputExactIff(aig, k, Flips(aig, esops, aig.cos[k].id), ret[k]);
      }
    }

    /** The product of two cubes, as the double loop adds it. */
    method AddProduct(cube0: Cube, cube1: Cube, ghost vs: set<nat>)
      requires |aig.cis| <= WIDTH && vs <= Below(|aig.cis|) && Over(cube0, vs) && Over(cube1, vs)
      requires SetOver(currEsop, vs) && ApartButOne(currEsop)
      modifies this`currEsop
      ensures ProductStep(old(currEsop), currEsop, cube0, cube1)
      ensures SetOver(currEsop, vs) && ApartButOne(currEsop)
      ensures old(currEsop) == {} ==> currEsop == CubesOf(SingleProduct(cube0, cube1))
    {
      hide Over, Below, Toggled, ApartButOne, SetOver, ProductStep, Lost, Eval, Intersect;
      if cube0 == CUBE_ONE || cube1 == CUBE_ONE {
        var m := if cube0 == CUBE_ONE then cube1 else cube0;
        OneIsUnit(cube0, cube1);
        AddCube(m, vs);
        ProductToggles(old(currEsop), currEsop, m, cube0, cube1);
      } else {
        var tmp := Intersect(cube0, cube1);
        ProductCases(currEsop, cube0, cube1, vs);
        if tmp != CUBE_ZERO {
          AddCube(tmp, vs);
          ProductToggles(old(currEsop), currEsop, tmp, cube0, cube1);
        }
      }
    }
  }

  // ---- What is stored ----

  /** The sum that enters a product or an output: complemented by dropping a leading 1, inverting a leading
      literal, or else putting a 1 in front. */
  function Prepared(s: seq<Cube>, cmpl: bool): seq<Cube> {
    if !cmpl then s
    else if s == [] then [CUBE_ONE]
    else if s[0] == CUBE_ONE then s[1..]
    else if NLits(s[0]) == 1 then [Invert(s[0])] + s[1..]
    else [CUBE_ONE] + s
  }

  lemma PreparedXor(s: seq<Cube>, cmpl: bool, vs: set<nat>)
    requires AllOver(s, vs)
    ensures AllOver(Prepared(s, cmpl), vs)
    ensures forall a :: XorSeq(Prepared(s, cmpl), a) == (XorSeq(s, a) != cmpl)
  {
    hide XorSeq, Invert, Over, NLits, Eval;
    OneIsOver(vs);
    if cmpl {
      if s != [] && s[0] != CUBE_ONE && NLits(s[0]) == 1 { InvertComplements(s[0], vs); }
      var offset := if s != [] && (s[0] == CUBE_ONE || NLits(s[0]) == 1) then 1 else 0;
      var front := if s == [] then [CUBE_ONE] else if s[0] == CUBE_ONE then []
        else if NLits(s[0]) == 1 then [Invert(s[0])] else [CUBE_ONE];
      ComplementFront(s, cmpl, offset, front);
      assert Prepared(s, cmpl) == front + s[offset..];
    }
  }

  /** What a product of two single cubes is stored as. */
  function SingleProduct(c: Cube, d: Cube): seq<Cube> {
    if c == CUBE_ONE then [d]
    else if d == CUBE_ONE then [c]
    else if Intersect(c, d) == CUBE_ZERO then []
    else [Intersect(c, d)]
  }

  lemma SingleList(list: seq<Cube>, c: Cube, d: Cube)
    requires |list| == |CubesOf(SingleProduct(c, d))| && CubesOf(list) == CubesOf(SingleProduct(c, d))
    ensures [] + list == SingleProduct(c, d)
  {
    hide Intersect;
    var p := SingleProduct(c, d);
    if p == [] {
      assert CubesOf(p) == {};
    } else {
      assert CubesOf(p) == {p[0]};
      assert list[0] in CubesOf(list);
    }
  }

  /** The positive literal of an input. */
  function InputCube(i: nat): Cube {
    Cube(Bit(i), Bit(i))
  }

  /** What is multiplied at a node. */
  function Operand0(g: Aig, esops: seq<seq<Cube>>, id: nat): seq<Cube>
    requires Topological(g.objs) && id < |g.objs| == |esops| && g.objs[id].AndNode?
  {
    Prepared(esops[g.objs[id].fanin0.id], g.objs[id].fanin0.cmpl)
  }

  function Operand1(g: Aig, esops: seq<seq<Cube>>, id: nat): seq<Cube>
    requires Topological(g.objs) && id < |g.objs| == |esops| && g.objs[id].AndNode?
  {
    Prepared(esops[g.objs[id].fanin1.id], g.objs[id].fanin1.cmpl)
  }

  /** An input holds its literal, and a node the product of what its fanins hold. */
  ghost predicate Stored(g: Aig, esops: seq<seq<Cube>>, id: nat)
    requires WellFormedAig(g) && id < |g.objs| == |esops|
  {
    match g.objs[id]
    case Const0 => esops[id] == []
    case Ci(index) => esops[id] == [InputCube(index)]
    case AndNode(_, _) =>
      var p, q := Operand0(g, esops, id), Operand1(g, esops, id);
      && AllOver(esops[id], Cone(g.objs, id)) && NoRepeats(esops[id]) && ApartButOne(CubesOf(esops[id]))
      && (forall a :: XorSeq(esops[id], a) == Product(p, q, a))
      && (|p| == 1 && |q| == 1 ==> esops[id] == SingleProduct(p[0], q[0]))
  }

  ghost predicate AllStored(g: Aig, esops: seq<seq<Cube>>)
    requires WellFormedAig(g) && |g.objs| == |esops|
  {
    forall id | 0 <= id < |g.objs| :: Stored(g, esops, id)
  }

  lemma LiteralCube(i: nat)
    ensures AddLit(CUBE_ONE, i, true) == Cube(Bit(i), Bit(i))
  {
    hide Or, Bit;
    OrZeroLeft(Bit(i));
  }

  lemma StoredOver(g: Aig, esops: seq<seq<Cube>>, id: nat)
    requires WellFormedAig(g) && id < |g.objs| == |esops| && Stored(g, esops, id) && |g.cis| <= WIDTH
    ensures AllOver(esops[id], Cone(g.objs, id))
  {
    hide Has, Or, Bit, AddLit, Eval, XorSeq, Product, Prepared, Intersect;
    if g.objs[id].Ci? {
      var i := g.objs[id].index;
      OneHolds({});
      AddLitRestricts(CUBE_ONE, i, true, {});
      LiteralCube(i);
    }
  }

  lemma FaninsOver(g: Aig, i: nat, esops: seq<seq<Cube>>)
    requires WellFormedAig(g) && i < |g.objs| == |esops| && g.objs[i].AndNode?
    requires AllOver(esops[g.objs[i].fanin0.id], Cone(g.objs, g.objs[i].fanin0.id))
    requires AllOver(esops[g.objs[i].fanin1.id], Cone(g.objs, g.objs[i].fanin1.id))
    ensures AllOver(esops[g.objs[i].fanin0.id], Cone(g.objs, i))
    ensures AllOver(esops[g.objs[i].fanin1.id], Cone(g.objs, i))
  {
    hide Has, Canonical;
    OverLarger(esops[g.objs[i].fanin0.id], Cone(g.objs, g.objs[i].fanin0.id), Cone(g.objs, i));
    OverLarger(esops[g.objs[i].fanin1.id], Cone(g.objs, g.objs[i].fanin1.id), Cone(g.objs, i));
  }

  lemma NodeStored(g: Aig, esops: seq<seq<Cube>>, i: nat)
    requires WellFormedAig(g) && i < |g.objs| == |esops| && g.objs[i].AndNode?
    requires AllOver(esops[i], Cone(g.objs, i)) && NoRepeats(esops[i]) && ApartButOne(CubesOf(esops[i]))
    requires forall a :: XorSeq(esops[i], a) == Product(Operand0(g, esops, i), Operand1(g, esops, i), a)
    requires |Operand0(g, esops, i)| == 1 && |Operand1(g, esops, i)| == 1 ==>
      esops[i] == SingleProduct(Operand0(g, esops, i)[0], Operand1(g, esops, i)[0])
    ensures Stored(g, esops, i)
  {
    hide XorSeq, Product, Prepared, SingleProduct, ApartButOne;
  }

  /** Filling in object `i` disturbs neither an input nor an object before it. */
  lemma StillStored(g: Aig, before: seq<seq<Cube>>, after: seq<seq<Cube>>, i: nat, id: nat)
    requires WellFormedAig(g) && i < |g.objs| == |before| == |after| && id < |g.objs|
    requires forall j | 0 <= j < |g.objs| && j != i :: after[j] == before[j]
    requires id < i || (id != i && !g.objs[id].AndNode?)
    requires Stored(g, before, id)
    ensures Stored(g, after, id)
  {
    hide XorSeq, Product, Prepared, SingleProduct, AllOver, ApartButOne;
  }

  // ---- What the stored sums denote ----

  /** How many products are lost at a node. */
  ghost function LostAt(g: Aig, esops: seq<seq<Cube>>, id: nat): nat
    requires Topological(g.objs) && id < |g.objs| == |esops| && g.objs[id].AndNode?
  {
    LostPairs(Operand0(g, esops, id), Operand1(g, esops, id))
  }

  /** The value that the sum of an object takes where no variable is true: a node is wrong about its operands when it
      has lost an odd number of products. */
  ghost predicate Realised(g: Aig, esops: seq<seq<Cube>>, id: nat)
    requires Topological(g.objs) && id < |g.objs| == |esops|
    decreases id
  {
    g.objs[id].AndNode? &&
    var o := g.objs[id];
    ((Realised(g, esops, o.fanin0.id) != o.fanin0.cmpl) && (Realised(g, esops, o.fanin1.id) != o.fanin1.cmpl))
      != (LostAt(g, esops, id) % 2 == 1)
  }

  /** The sum of the object is wrong where no variable is true. */
  ghost predicate Flips(g: Aig, esops: seq<seq<Cube>>, id: nat)
    requires Topological(g.objs) && id < |g.objs| == |esops|
  {
    Realised(g, esops, id) != Value(g.objs, id, {})
  }

  lemma {:induction false} ValueAtNone(g: Aig, id: nat, a: Assignment)
    requires WellFormedAig(g) && id < |g.objs| && |g.cis| <= WIDTH && AllNegative(a)
    ensures Value(g.objs, id, a) == Value(g.objs, id, {})
    decreases id
  {
    AllNegativeIsEmpty(a);
    if g.objs[id].AndNode? {
      ValueAtNone(g, g.objs[id].fanin0.id, a);
      ValueAtNone(g, g.objs[id].fanin1.id, a);
    }
  }

  lemma InputSum(g: Aig, i: nat, a: Assignment)
    requires WellFormedAig(g) && i < |g.cis| <= WIDTH
    ensures XorSeq([InputCube(i)], a) == (i in a)
  {
    hide Has, Or, Bit, AddLit, Eval;
    OneHolds(a);
    AddLitRestricts(CUBE_ONE, i, true, {});
    LiteralCube(i);
    SingleXor([InputCube(i)], a);
  }

  lemma NoInputsAtNone(g: Aig, i: nat, a: Assignment)
    requires i < |g.cis| <= WIDTH && AllNegative(a)
    ensures i !in a
  {
    AllNegativeIsEmpty(a);
  }

  lemma {:induction false} SumAt(g: Aig, esops: seq<seq<Cube>>, id: nat, a: Assignment)
    requires WellFormedAig(g) && |g.objs| == |esops| && AllStored(g, esops) && id < |g.objs| && |g.cis| <= WIDTH
    ensures XorSeq(esops[id], a) == if AllNegative(a) then Realised(g, esops, id) else Value(g.objs, id, a)
    decreases id
  {
    hide XorSeq, AllNegative, Prepared, LostPairs, AllOver, Cone, SingleProduct, NoRepeats, InputCube;
    assert Stored(g, esops, id);
    match g.objs[id]
    case Const0 => NoCubes(a);
    case Ci(index) =>
      InputSum(g, index, a);
      if AllNegative(a) { NoInputsAtNone(g, index, a); }
    case AndNode(f0, f1) =>
      SumAt(g, esops, f0.id, a);
      SumAt(g, esops, f1.id, a);
      assert Stored(g, esops, f0.id) && Stored(g, esops, f1.id);
      StoredOver(g, esops, f0.id);
      StoredOver(g, esops, f1.id);
      PreparedXor(esops[f0.id], f0.cmpl, Cone(g.objs, f0.id));
      PreparedXor(esops[f1.id], f1.cmpl, Cone(g.objs, f1.id));
      assert XorSeq(esops[id], a) == Product(Operand0(g, esops, id), Operand1(g, esops, id), a);
  }

  /** Every stored sum denotes its object, except that one that flips is wrong where no variable is true. */
  lemma SumRealised(g: Aig, esops: seq<seq<Cube>>, id: nat)
    requires WellFormedAig(g) && |g.objs| == |esops| && AllStored(g, esops) && id < |g.objs| && |g.cis| <= WIDTH
    ensures forall a :: XorSeq(esops[id], a) == (Value(g.objs, id, a) != (AllNegative(a) && Flips(g, esops, id)))
  {
    hide XorSeq, AllNegative, AllStored, Realised, Value;
    forall a ensures XorSeq(esops[id], a) == (Value(g.objs, id, a) != (AllNegative(a) && Flips(g, esops, id))) {
      SumAt(g, esops, id, a);
      if AllNegative(a) { ValueAtNone(g, id, a); }
    }
  }

  /** A sum is right at every assignment exactly when it does not flip. */
  lemma SumExactIff(g: Aig, esops: seq<seq<Cube>>, id: nat)
    requires WellFormedAig(g) && |g.objs| == |esops| && AllStored(g, esops) && id < |g.objs| && |g.cis| <= WIDTH
    ensures (forall a :: XorSeq(esops[id], a) == Value(g.objs, id, a)) <==> !Flips(g, esops, id)
  {
    hide XorSeq, AllNegative, AllStored, Flips, Value;
    SumRealised(g, esops, id);
    AllNegativeIsEmpty({});
    assert XorSeq(esops[id], {}) == (Value(g.objs, id, {}) != (AllNegative({}) && Flips(g, esops, id)));
  }

  /** Where both fanins are right, a node flips exactly when it has lost an odd number of products. */
  lemma FlipStep(g: Aig, esops: seq<seq<Cube>>, id: nat)
    requires WellFormedAig(g) && id < |g.objs| == |esops| && g.objs[id].AndNode?
    requires !Flips(g, esops, g.objs[id].fanin0.id) && !Flips(g, esops, g.objs[id].fanin1.id)
    ensures Flips(g, esops, id) <==> LostAt(g, esops, id) % 2 == 1
  {
    hide LostAt;
    var f0, f1 := g.objs[id].fanin0, g.objs[id].fanin1;
    assert Value(g.objs, id, {}) == (EdgeValue(g.objs, f0, {}) && EdgeValue(g.objs, f1, {}));
    assert EdgeValue(g.objs, f0, {}) == (Value(g.objs, f0.id, {}) != f0.cmpl);
    assert EdgeValue(g.objs, f1, {}) == (Value(g.objs, f1.id, {}) != f1.cmpl);
  }

  /** Only an object whose cone holds all 32 inputs can flip. */
  lemma {:induction false} FlipNeedsAll(g: Aig, esops: seq<seq<Cube>>, id: nat)
    requires WellFormedAig(g) && |g.objs| == |esops| && AllStored(g, esops) && id < |g.objs| && |g.cis| <= WIDTH
    ensures Flips(g, esops, id) ==> Below(WIDTH) <= Cone(g.objs, id)
    decreases id
  {
    hide Flips, LostAt, AllStored, Cone;
    if !(Below(WIDTH) <= Cone(g.objs, id)) {
      if g.objs[id].AndNode? {
        FlipNeedsAll(g, esops, g.objs[id].fanin0.id);
        FlipNeedsAll(g, esops, g.objs[id].fanin1.id);
        ConeHolds(g, id);
        FlipStep(g, esops, id);
        NothingLostAt(g, esops, id);
      } else {
        LeafKeeps(g, esops, id);
      }
    }
  }

  lemma ConeHolds(g: Aig, id: nat)
    requires WellFormedAig(g) && id < |g.objs| && g.objs[id].AndNode?
    ensures Cone(g.objs, g.objs[id].fanin0.id) <= Cone(g.objs, id)
    ensures Cone(g.objs, g.objs[id].fanin1.id) <= Cone(g.objs, id)
  {
  }

  lemma LeafKeeps(g: Aig, esops: seq<seq<Cube>>, id: nat)
    requires WellFormedAig(g) && id < |g.objs| == |esops| && !g.objs[id].AndNode?
    ensures !Flips(g, esops, id)
  {
  }

  /** A node that does not depend on all 32 inputs loses nothing. */
  lemma NothingLostAt(g: Aig, esops: seq<seq<Cube>>, id: nat)
    requires WellFormedAig(g) && |g.objs| == |esops| && AllStored(g, esops) && id < |g.objs| && |g.cis| <= WIDTH
    requires g.objs[id].AndNode? && !(Below(WIDTH) <= Cone(g.objs, id))
    ensures LostAt(g, esops, id) == 0
  {
    hide XorSeq, Prepared, LostPairs, AllOver, SingleProduct, Product, NoRepeats, Cone, Stored;
    var v :| v in Below(WIDTH) && v !in Cone(g.objs, id);
    var f0, f1 := g.objs[id].fanin0, g.objs[id].fanin1;
    assert Stored(g, esops, f0.id) && Stored(g, esops, f1.id);
    StoredOver(g, esops, f0.id);
    StoredOver(g, esops, f1.id);
    FaninsOver(g, id, esops);
    PreparedXor(esops[f0.id], f0.cmpl, Cone(g.objs, id));
    PreparedXor(esops[f1.id], f1.cmpl, Cone(g.objs, id));
    NothingLost(Operand0(g, esops, id), Operand1(g, esops, id), Cone(g.objs, id), v);
  }

  /** A node with an uncomplemented input for a fanin never flips, even when its other fanin does. */
  lemma InputStopsFlips(g: Aig, esops: seq<seq<Cube>>, id: nat)
    requires WellFormedAig(g) && |g.objs| == |esops| && AllStored(g, esops) && id < |g.objs| && |g.cis| <= WIDTH
    requires g.objs[id].AndNode?
    requires PlainInput(g, g.objs[id].fanin0) || PlainInput(g, g.objs[id].fanin1)
    ensures !Flips(g, esops, id)
  {
    hide XorSeq, LostPairs, AllOver, Product, NoRepeats, SingleProduct, InputCube, Cone;
    var f0, f1 := g.objs[id].fanin0, g.objs[id].fanin1;
    assert Stored(g, esops, f0.id) && Stored(g, esops, f1.id);
    StoredOver(g, esops, f0.id);
    StoredOver(g, esops, f1.id);
    PreparedXor(esops[f0.id], f0.cmpl, Cone(g.objs, f0.id));
    PreparedXor(esops[f1.id], f1.cmpl, Cone(g.objs, f1.id));
    if PlainInput(g, f0) {
      InputLosesNothing(g.objs[f0.id].index, Operand1(g, esops, id), Cone(g.objs, f1.id));
    } else {
      InputLosesNothing(g.objs[f1.id].index, Operand0(g, esops, id), Cone(g.objs, f0.id));
    }
    FalseAtNone(g, esops, id);
  }

  lemma FalseAtNone(g: Aig, esops: seq<seq<Cube>>, id: nat)
    requires WellFormedAig(g) && |g.objs| == |esops| && id < |g.objs| && g.objs[id].AndNode?
    requires PlainInput(g, g.objs[id].fanin0) || PlainInput(g, g.objs[id].fanin1)
    requires LostAt(g, esops, id) == 0
    ensures !Flips(g, esops, id)
  {
    hide LostAt;
    var f0, f1 := g.objs[id].fanin0, g.objs[id].fanin1;
    assert PlainInput(g, f0) ==> !Realised(g, esops, f0.id) && !EdgeValue(g.objs, f0, {});
    assert PlainInput(g, f1) ==> !Realised(g, esops, f1.id) && !EdgeValue(g.objs, f1, {});
    assert Value(g.objs, id, {}) == (EdgeValue(g.objs, f0, {}) && EdgeValue(g.objs, f1, {}));
  }

  predicate PlainInput(g: Aig, f: Fanin) {
    f.id < |g.objs| && g.objs[f.id].Ci? && !f.cmpl
  }

  lemma InputLosesNothing(i: nat, s: seq<Cube>, vs: set<nat>)
    requires i < WIDTH && AllOver(s, vs)
    ensures LostPairs([InputCube(i)], s) == 0 && LostPairs(s, [InputCube(i)]) == 0
  {
    hide Lost, InputCube, Over, Lit, NLits;
    InputLiterals(i);
    var c := InputCube(i);
    PositiveWith(c, i, s, vs);
    assert [c][..0] == [];
    assert LostPairs([c], s) == LostPairs([], s) + LostWith(c, s);
  }

  /** A cube with a positive literal loses nothing. */
  lemma {:induction false} PositiveWith(c: Cube, v: nat, s: seq<Cube>, vs: set<nat>)
    requires v < WIDTH && Canonical(c) && Lit(c, v) == Positive && AllOver(s, vs)
    ensures LostWith(c, s) == 0 && LostPairs(s, [c]) == 0
  {
    hide Lost, Over, Lit, Canonical;
    if s != [] {
      var d := s[|s| - 1];
      PositiveWith(c, v, s[..|s| - 1], vs);
      OverIsCanonical(d, vs);
      LostExactly(c, d);
      LostExactly(d, c);
      assert [c][..0] == [];
      assert LostWith(d, [c]) == LostWith(d, []) + if Lost(d, c) then 1 else 0;
    }
  }

  /** Nothing flips exactly when no node has lost an odd number of products. */
  lemma KeptExactly(g: Aig, esops: seq<seq<Cube>>)
    requires WellFormedAig(g) && |g.objs| == |esops|
    ensures (forall id | 0 <= id < |g.objs| :: !Flips(g, esops, id)) <==>
      (forall id | 0 <= id < |g.objs| && g.objs[id].AndNode? :: LostAt(g, esops, id) % 2 == 0)
  {
    hide LostAt, Flips;
    if forall id | 0 <= id < |g.objs| :: !Flips(g, esops, id) {
      forall id | 0 <= id < |g.objs| && g.objs[id].AndNode? ensures LostAt(g, esops, id) % 2 == 0 {
        FlipStep(g, esops, id);
      }
    }
    if forall id | 0 <= id < |g.objs| && g.objs[id].AndNode? :: LostAt(g, esops, id) % 2 == 0 {
      forall id | 0 <= id < |g.objs| ensures !Flips(g, esops, id) { KeptSoRight(g, esops, id); }
    }
  }

  lemma {:induction false} KeptSoRight(g: Aig, esops: seq<seq<Cube>>, id: nat)
    requires WellFormedAig(g) && id < |g.objs| == |esops|
    requires forall j | 0 <= j < |g.objs| && g.objs[j].AndNode? :: LostAt(g, esops, j) % 2 == 0
    ensures !Flips(g, esops, id)
    decreases id
  {
    hide LostAt, Flips;
    if g.objs[id].AndNode? {
      KeptSoRight(g, esops, g.objs[id].fanin0.id);
      KeptSoRight(g, esops, g.objs[id].fanin1.id);
      FlipStep(g, esops, id);
    } else {
      LeafKeeps(g, esops, id);
    }
  }

  ghost predicate OutputHolding(g: Aig, esops: seq<seq<Cube>>, k: nat, sum: seq<Cube>)
    requires WellFormedAig(g) && |g.objs| == |esops| && k < |g.cos|
  {
    && AllOver(sum, Cone(g.objs, g.cos[k].id))
    && forall a :: XorSeq(sum, a) == (Output(g, k, a) != (AllNegative(a) && Flips(g, esops, g.cos[k].id)))
  }

  /** A list that denotes an output but for a flip denotes it exactly when there is none. */
  lemma OutputExactIff(g: Aig, k: nat, flip: bool, sum: seq<Cube>)
    requires WellFormedAig(g) && k < |g.cos|
    requires forall a :: XorSeq(sum, a) == (Output(g, k, a) != (flip && AllNegative(a)))
    ensures (forall a :: XorSeq(sum, a) == Output(g, k, a)) <==> !flip
  {
    hide Output, AllNegative, XorSeq;
    AllNegativeIsEmpty({});
    assert XorSeq(sum, {}) == (Output(g, k, {}) != (flip && AllNegative({})));
  }

  lemma OutputFromObject(g: Aig, esops: seq<seq<Cube>>, k: nat, sum: seq<Cube>)
    requires WellFormedAig(g) && |g.objs| == |esops| && k < |g.cos|
    requires forall a ::
      XorSeq(esops[g.cos[k].id], a) == (Value(g.objs, g.cos[k].id, a) != (AllNegative(a) && Flips(g, esops, g.cos[k].id)))
    requires AllOver(sum, Cone(g.objs, g.cos[k].id))
    requires forall a :: XorSeq(sum, a) == (XorSeq(esops[g.cos[k].id], a) != g.cos[k].cmpl)
    ensures OutputHolding(g, esops, k, sum)
  {
    hide XorSeq, Value, Over, AllNegative, Flips;
  }

  lemma OutputsHolding(g: Aig, esops: seq<seq<Cube>>, ret: seq<seq<Cube>>)
    requires WellFormedAig(g) && |g.objs| == |esops| && |g.cis| <= WIDTH && |ret| == |g.cos|
    requires forall k | 0 <= k < |ret| :: OutputHolding(g, esops, k, ret[k])
    ensures WellFormed(TwoLvl(ESOP, |g.cis|, ret))
    ensures forall k | 0 <= k < |g.cos| :: AllOver(ret[k], Cone(g.objs, g.cos[k].id))
    ensures forall k, a | 0 <= k < |g.cos| ::
      XorSeq(ret[k], a) == (Output(g, k, a) != (AllNegative(a) && Flips(g, esops, g.cos[k].id)))
  {
    hide XorSeq, Output, AllOver, Cone, Flips, AllNegative;
    forall k | 0 <= k < |ret| ensures AllOver(ret[k], Below(|g.cis|)) {
      assert OutputHolding(g, esops, k, ret[k]);
      ConeBound(g, g.cos[k].id);
      OverLarger(ret[k], Cone(g.objs, g.cos[k].id), Below(|g.cis|));
    }
  }

  lemma MemberOver(s: set<Cube>, x: Cube, vs: set<nat>)
    requires SetOver(s, vs) && x in s
    ensures Over(x, vs)
  {
  }

  lemma OneIsOver(vs: set<nat>)
    ensures Over(CUBE_ONE, vs)
  {
    hide Has, Eval;
    OneHolds({});
  }

  lemma NothingYet(vs: set<nat>)
    ensures SetOver({}, vs) && ApartButOne({})
    ensures AllOver([], vs) && NoRepeats([]) && ApartButOne(CubesOf([])) && forall a :: !XorSeq([], a)
  {
    assert CubesOf([]) == {};
  }

  lemma ListedProduct(list: seq<Cube>, s: set<Cube>, vs: set<nat>)
    requires NoRepeats(list) && CubesOf(list) == s && SetOver(s, vs)
    ensures AllOver([] + list, vs) && [] + list == list
    ensures forall a :: XorSeq(list, a) == XorSet(s, a)
  {
    hide XorSeq, XorSet, Over;
    assert [] + list == list;
    forall i | 0 <= i < |list| ensures Over(list[i], vs) {
      assert list[i] in s;
    }
    forall a { XorSeqIsXorSet(list, a); }
  }

  /** The part that replaces the first `offset` cubes complements the sum when `cmpl` is set. */
  lemma ComplementFront(s: seq<Cube>, cmpl: bool, offset: nat, front: seq<Cube>)
    requires offset <= |s| && offset <= 1 && |front| <= 1
    requires !cmpl ==> offset == 0 && front == []
    requires cmpl && offset == 0 ==> front == [CUBE_ONE]
    requires cmpl && offset == 1 && front == [] ==> s[0] == CUBE_ONE
    requires cmpl && offset == 1 && front != [] ==> forall a :: Eval(front[0], a) == !Eval(s[0], a)
    ensures forall a :: XorSeq(front + s[offset..], a) == (XorSeq(s, a) != cmpl)
  {
    hide Eval;
    assert s == s[..offset] + s[offset..];
    forall a ensures XorSeq(front + s[offset..], a) == (XorSeq(s, a) != cmpl) {
      OneHolds(a);
      XorConcat(front, s[offset..], a);
      XorConcat(s[..offset], s[offset..], a);
      SingleXor(front, a);
      SingleXor(s[..offset], a);
    }
  }

  lemma SingleXor(s: seq<Cube>, a: Assignment)
    requires |s| <= 1
    ensures XorSeq(s, a) == (s != [] && Eval(s[0], a))
  {
    hide Eval;
    if s != [] {
      assert s[..0] == [];
      assert XorSeq(s, a) == (XorSeq(s[..0], a) != Eval(s[0], a));
    }
  }

  // ---- A graph that goes wrong ----

  /** A chain of 31 nodes that computes the nor of 32 inputs. */
  function NorChain(): Aig {
    Aig(seq(64, id requires 0 <= id => NorObj(id)), seq(32, i requires 0 <= i => i + 1), [Fanin(63, false)])
  }

  function NorObj(id: nat): Obj {
    if id == 0 then Const0
    else if id <= 32 then Ci(id - 1)
    else AndNode(if id == 33 then Fanin(1, true) else Fanin(id - 1, false), Fanin(id - 31, true))
  }

  lemma NorChainShape()
    ensures WellFormedAig(NorChain()) && |NorChain().cis| == WIDTH && |NorChain().objs| == 64
    ensures NorChain().cos == [Fanin(63, false)]
    ensures forall id: nat | id < 64 :: NorChain().objs[id] == NorObj(id)
  {
  }

  lemma {:induction false} NorValue(id: nat)
    requires 33 <= id < 64 && WellFormedAig(NorChain())
    ensures Value(NorChain().objs, id, {})
  {
    NorChainShape();
    hide NorChain;
    var objs := NorChain().objs;
    assert objs[id] == NorObj(id);
    if id > 33 { NorValue(id - 1); }
    var f0, f1 := NorObj(id).fanin0, NorObj(id).fanin1;
    assert objs[1] == NorObj(1) && objs[id - 31] == NorObj(id - 31);
    assert EdgeValue(objs, f0, {}) && EdgeValue(objs, f1, {});
  }

  /** The cube of the negative literals of the first `m` variables. */
  predicate NegativeBelow(c: Cube, m: nat) {
    Canonical(c) && forall u: nat | u < WIDTH :: Lit(c, u) == if u < m then Negative else Absent
  }

  /** The negative literal of one variable. */
  predicate OnlyNegative(c: Cube, v: nat) {
    Canonical(c) && forall u: nat | u < WIDTH :: Lit(c, u) == if u == v then Negative else Absent
  }

  lemma InputLiterals(i: nat)
    requires i < WIDTH
    ensures Canonical(InputCube(i)) && NLits(InputCube(i)) == 1
    ensures forall u: nat | u < WIDTH :: Lit(InputCube(i), u) == if u == i then Positive else Absent
  {
    hide Has, Bit;
    forall u: nat | u < WIDTH { HasBit(i, u); }
    assert Support(InputCube(i)) == {i};
  }

  lemma ComplementedInput(i: nat)
    requires i < WIDTH
    ensures var p := Prepared([InputCube(i)], true); |p| == 1 && OnlyNegative(p[0], i)
  {
    hide Has, Lit, NLits, InputCube, Invert;
    InputLiterals(i);
    var c := InputCube(i);
    NotOne(c, i);
    assert Prepared([c], true) == [Invert(c)];
    forall u: nat | u < WIDTH
      ensures CanonicalAt(Invert(c), u) && Lit(Invert(c), u) == if u == i then Negative else Absent
    {
      assert CanonicalAt(c, u);
      InvertAt(c, u);
    }
  }

  lemma NotOne(c: Cube, v: nat)
    requires v < WIDTH && Lit(c, v) != Absent
    ensures c != CUBE_ONE
  {
    hide Has;
    HasZero(v);
  }

  /** One more negative literal, until all 32 are there and the cube is dropped. */
  lemma NextProduct(c: Cube, d: Cube, m: nat)
    requires 0 < m < WIDTH && NegativeBelow(c, m) && OnlyNegative(d, m)
    ensures m + 1 < WIDTH ==> |SingleProduct(c, d)| == 1 && NegativeBelow(SingleProduct(c, d)[0], m + 1)
    ensures m + 1 == WIDTH ==> SingleProduct(c, d) == []
  {
    hide Has, Lit, Intersect, Or;
    NotOne(c, 0);
    NotOne(d, m);
    IntersectCases(c, d);
    var e := Intersect(c, d);
    assert Compatible(c, d);
    forall u: nat | u < WIDTH
      ensures CanonicalAt(e, u) && Lit(e, u) == if u < m + 1 then Negative else Absent
      ensures CanonicalAt(CUBE_ZERO, u) && Lit(CUBE_ZERO, u) == Negative
    {
      assert CanonicalAt(c, u) && CanonicalAt(d, u);
      IntersectAt(c, d, u);
      ZeroLiterals(u);
    }
    if m + 1 == WIDTH {
      LiteralsDetermineCube(e, CUBE_ZERO);
    } else {
      assert Lit(e, m + 1) != Lit(CUBE_ZERO, m + 1);
    }
  }

  /** Up to the last node each sum is a single cube; the last one is lost. */
  lemma {:induction false} NorSums(esops: seq<seq<Cube>>, id: nat)
    requires WellFormedAig(NorChain()) && |esops| == |NorChain().objs| && AllStored(NorChain(), esops)
    requires 33 <= id < 64
    ensures id < 63 ==> |esops[id]| == 1 && NegativeBelow(esops[id][0], id - 31)
    ensures id == 63 ==> esops[id] == []
  {
    hide Lit, Canonical, Prepared, SingleProduct, InputCube, NoRepeats, AllOver, Product, XorSeq;
    NorChainShape();
    hide NorChain;
    var g := NorChain();
    assert g.objs[id] == NorObj(id) && g.objs[1] == NorObj(1) && g.objs[id - 31] == NorObj(id - 31);
    assert Stored(g, esops, id) && Stored(g, esops, 1) && Stored(g, esops, id - 31);
    var m := id - 32;
    ComplementedInput(0);
    ComplementedInput(m);
    var p, q := Operand0(g, esops, id), Operand1(g, esops, id);
    if id > 33 {
      NorSums(esops, id - 1);
      Uncomplemented(esops[id - 1]);
    } else {
      FirstNegative(p[0]);
    }
    NextProduct(p[0], q[0], m);
  }

  lemma Uncomplemented(s: seq<Cube>)
    ensures Prepared(s, false) == s
  {
  }

  lemma FirstNegative(c: Cube)
    requires OnlyNegative(c, 0)
    ensures NegativeBelow(c, 1)
  {
    hide Lit;
  }

  /** Whatever order its sets come out in, the extractor is wrong on this graph: its output is true where no input is,
      and the sum stored for it is empty. */
  lemma NorChainFlips(esops: seq<seq<Cube>>)
    requires WellFormedAig(NorChain()) && |esops| == |NorChain().objs| && AllStored(NorChain(), esops)
    ensures |NorChain().cos| == 1 && Output(NorChain(), 0, {})
    ensures |NorChain().objs| == 64 && esops[63] == [] && Flips(NorChain(), esops, 63)
  {
    NorChainShape();
    hide NorChain, XorSeq, AllNegative, Flips, Value, AllStored;
    NorValue(63);
    NorSums(esops, 63);
    SumRealised(NorChain(), esops, 63);
    NoCubes({});
    assert XorSeq(esops[63], {}) != Value(NorChain().objs, 63, {});
  }
}
