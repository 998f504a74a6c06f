/** Cubes over up to 32 variables: products of literals, held as a mask word and a polarity word. */
module Cube32 {
  import opened Bits

  /** The variables that are true. */
  type Assignment = set<nat>

  datatype Literal = Absent | Negative | Positive

  /** Variable `v` occurs when bit `v` of `mask` is set, positively when bit `v` of `polarity` is set too. */
  datatype Cube = Cube(mask: Word, polarity: Word)

  const CUBE_ONE: Cube := Cube(Word(0), Word(0))
  const CUBE_ZERO: Cube := Cube(Word(0xFFFF_FFFF), Word(0))

  predicate CanonicalAt(c: Cube, v: nat) {
    Has(c.polarity, v) ==> Has(c.mask, v)
  }

  /** No polarity bit outside the mask. */
  predicate Canonical(c: Cube) {
    forall v: nat | v < WIDTH :: CanonicalAt(c, v)
  }

  function Lit(c: Cube, v: nat): Literal {
    if !Has(c.mask, v) then Absent else if Has(c.polarity, v) then Positive else Negative
  }

  predicate Holds(l: Literal, b: bool) {
    match l
    case Absent => true
    case Negative => !b
    case Positive => b
  }

  /** A cube is the conjunction of its literals. */
  predicate Eval(c: Cube, a: Assignment) {
    forall v: nat | v < WIDTH :: Holds(Lit(c, v), v in a)
  }

  /** The variables a cube mentions. */
  function Support(c: Cube): set<nat> {
    Vars(c.mask)
  }

  /** The first `n` variables. */
  function Below(n: nat): (s: set<nat>)
    ensures forall v: nat :: v in s <==> v < n
    ensures |s| == n
  {
    if n == 0 then {} else Below(n - 1) + {n - 1}
  }

  /** A canonical cube that mentions only the variables in `vs`. */
  predicate Over(c: Cube, vs: set<nat>) {
    Canonical(c) && Support(c) <= vs
  }

  /** The literal that differs from both `l` and `r`. */
  function Third(l: Literal, r: Literal): Literal {
    if l != Absent && r != Absent then Absent
    else if l != Positive && r != Positive then Positive
    else Negative
  }

  // ---- Operations ----

  function NLits(c: Cube): nat {
    Popcount(c.mask)
  }

  /** The order of the 64-bit `value` of a cube, whose high word is the mask. */
  predicate Precedes(c: Cube, d: Cube) {
    Less(c.mask, d.mask) || (c.mask == d.mask && Less(c.polarity, d.polarity))
  }

  function Intersect(c: Cube, d: Cube): Cube {
    if And(Xor(c.polarity, d.polarity), And(c.mask, d.mask)) != Word(0) then CUBE_ZERO
    else Cube(Or(c.mask, d.mask), Or(c.polarity, d.polarity))
  }

  function AddLit(c: Cube, v: nat, positive: bool): Cube {
    Cube(Or(c.mask, Bit(v)), Or(c.polarity, if positive then Bit(v) else Word(0)))
  }

  function Invert(c: Cube): Cube {
    Cube(c.mask, Xor(c.polarity, c.mask))
  }

  function Rotate(c: Cube, v: nat): Cube {
    Cube(Xor(c.mask, AndNot(Bit(v), c.polarity)), Xor(c.polarity, AndNot(Bit(v), Xor(c.polarity, c.mask))))
  }

  function Difference(c: Cube, d: Cube): Word {
    Or(Xor(c.polarity, d.polarity), Xor(c.mask, d.mask))
  }

  function Distance(c: Cube, d: Cube): nat {
    Popcount(Difference(c, d))
  }

  function Merge(c: Cube, d: Cube): Cube {
    var diff := Difference(c, d);
    Cube(Xor(c.mask, And(d.mask, diff)), Xor(c.polarity, AndNot(diff, d.polarity)))
  }

  // ---- What the operations do to one literal ----

  lemma DifferenceAt(c: Cube, d: Cube, v: nat)
    requires CanonicalAt(c, v) && CanonicalAt(d, v)
    ensures Has(Difference(c, d), v) <==> Lit(c, v) != Lit(d, v)
  {
    hide Has, Or, Xor;
    HasXor(c.polarity, d.polarity, v);
    HasXor(c.mask, d.mask, v);
    HasOr(Xor(c.polarity, d.polarity), Xor(c.mask, d.mask), v);
  }

  lemma MergeAt(c: Cube, d: Cube, v: nat)
    requires CanonicalAt(c, v) && CanonicalAt(d, v)
    ensures CanonicalAt(Merge(c, d), v)
    ensures Lit(Merge(c, d), v) == if Lit(c, v) == Lit(d, v) then Lit(c, v) else Third(Lit(c, v), Lit(d, v))
  {
    hide Has, And, Xor, AndNot, Difference;
    var diff := Difference(c, d);
    DifferenceAt(c, d, v);
    HasAnd(d.mask, diff, v);
    HasXor(c.mask, And(d.mask, diff), v);
    HasAndNot(diff, d.polarity, v);
    HasXor(c.polarity, AndNot(diff, d.polarity), v);
  }

  function NextLiteral(l: Literal): Literal {
    match l
    case Absent => Positive
    case Positive => Negative
    case Negative => Absent
  }

  lemma RotateAt(c: Cube, v: nat, u: nat)
    requires CanonicalAt(c, u) && v < WIDTH
    ensures CanonicalAt(Rotate(c, v), u)
    ensures Lit(Rotate(c, v), u) == if u == v then NextLiteral(Lit(c, u)) else Lit(c, u)
  {
    hide Has, Bit, Xor, AndNot;
    HasBit(v, u);
    HasAndNot(Bit(v), c.polarity, u);
    HasXor(c.mask, AndNot(Bit(v), c.polarity), u);
    HasXor(c.polarity, c.mask, u);
    HasAndNot(Bit(v), Xor(c.polarity, c.mask), u);
    HasXor(c.polarity, AndNot(Bit(v), Xor(c.polarity, c.mask)), u);
  }

  lemma InvertAt(c: Cube, u: nat)
    requires CanonicalAt(c, u)
    ensures CanonicalAt(Invert(c), u)
    ensures Lit(Invert(c), u) ==
      match Lit(c, u) case Absent => Absent case Positive => Negative case Negative => Positive
  {
    hide Has, Xor;
    HasXor(c.polarity, c.mask, u);
  }

  lemma AddLitAt(c: Cube, v: nat, positive: bool, u: nat)
    requires CanonicalAt(c, u) && v < WIDTH && Lit(c, v) == Absent
    ensures CanonicalAt(AddLit(c, v, positive), u)
    ensures Lit(AddLit(c, v, positive), u) ==
      if u != v then Lit(c, u) else if positive then Positive else Negative
  {
    hide Has, Bit, Or;
    HasBit(v, u);
    HasZero(u);
    HasOr(c.mask, Bit(v), u);
    HasOr(c.polarity, if positive then Bit(v) else Word(0), u);
  }

  lemma AddLitLiterals(c: Cube, v: nat, positive: bool)
    requires Canonical(c) && v < WIDTH && Lit(c, v) == Absent
    ensures Canonical(AddLit(c, v, positive))
    ensures forall u: nat | u < WIDTH ::
      Lit(AddLit(c, v, positive), u) == if u != v then Lit(c, u) else if positive then Positive else Negative
  {
    hide Has, AddLit, Lit;
    forall u: nat | u < WIDTH
      ensures CanonicalAt(AddLit(c, v, positive), u)
      ensures Lit(AddLit(c, v, positive), u) == if u != v then Lit(c, u) else if positive then Positive else Negative
    {
      assert CanonicalAt(c, u);
      AddLitAt(c, v, positive, u);
    }
  }

  lemma AbsentOutside(c: Cube, vs: set<nat>, v: nat)
    requires Over(c, vs) && v < WIDTH && v !in vs
    ensures Lit(c, v) == Absent
  {
    hide Has;
    assert v !in Support(c);
  }

  /** The zero code carries every literal negatively. */
  lemma ZeroLiterals(v: nat)
    requires v < WIDTH
    ensures Lit(CUBE_ZERO, v) == Negative && CanonicalAt(CUBE_ZERO, v)
  {
    hide Has;
    HasOnes(WIDTH, v);
    HasZero(v);
  }

  lemma IntersectAt(c: Cube, d: Cube, v: nat)
    requires CanonicalAt(c, v) && CanonicalAt(d, v)
    ensures Has(And(Xor(c.polarity, d.polarity), And(c.mask, d.mask)), v) <==>
      Lit(c, v) != Absent && Lit(d, v) != Absent && Lit(c, v) != Lit(d, v)
    ensures var m := Cube(Or(c.mask, d.mask), Or(c.polarity, d.polarity));
      && CanonicalAt(m, v)
      && (Lit(c, v) == Absent || Lit(c, v) == Lit(d, v) ==> Lit(m, v) == Lit(d, v))
      && (Lit(d, v) == Absent ==> Lit(m, v) == Lit(c, v))
  {
    hide Has, And, Xor, Or;
    HasXor(c.polarity, d.polarity, v);
    HasAnd(c.mask, d.mask, v);
    HasAnd(Xor(c.polarity, d.polarity), And(c.mask, d.mask), v);
    HasOr(c.mask, d.mask, v);
    HasOr(c.polarity, d.polarity, v);
  }

  // ---- Cubes as families of literals ----

  lemma LiteralsDetermineCube(c: Cube, d: Cube)
    requires Canonical(c) && Canonical(d)
    requires forall v: nat | v < WIDTH :: Lit(c, v) == Lit(d, v)
    ensures c == d
  {
    hide Has;
    forall v: nat | v < WIDTH
      ensures Has(c.mask, v) <==> Has(d.mask, v)
      ensures Has(c.polarity, v) <==> Has(d.polarity, v)
    {
      assert CanonicalAt(c, v) && CanonicalAt(d, v) && Lit(c, v) == Lit(d, v);
    }
    assert Vars(c.mask) == Vars(d.mask);
    assert Vars(c.polarity) == Vars(d.polarity);
    VarsInjective(c.mask, d.mask);
    VarsInjective(c.polarity, d.polarity);
  }

  /** The variables at which two cubes carry different literals. */
  function Differing(c: Cube, d: Cube): set<nat> {
    set v: nat | v < WIDTH && Lit(c, v) != Lit(d, v)
  }

  /** `distance` counts the variables whose literals differ. */
  lemma DistanceCounts(c: Cube, d: Cube)
    requires Canonical(c) && Canonical(d)
    ensures Vars(Difference(c, d)) == Differing(c, d)
    ensures Distance(c, d) == |Differing(c, d)|
  {
    hide Has, Difference, Lit;
    forall v: nat | v < WIDTH { DifferenceAt(c, d, v); }
  }

  lemma DistanceZero(c: Cube, d: Cube)
    requires Canonical(c) && Canonical(d)
    ensures Distance(c, d) == 0 <==> c == d
  {
    hide Has, Distance, Lit;
    DistanceCounts(c, d);
    if Distance(c, d) == 0 {
      forall v: nat | v < WIDTH ensures Lit(c, v) == Lit(d, v) {
        assert v !in Differing(c, d);
      }
      LiteralsDetermineCube(c, d);
    }
  }

  lemma DistanceSymmetric(c: Cube, d: Cube)
    requires Canonical(c) && Canonical(d)
    ensures Distance(c, d) == Distance(d, c)
  {
    hide Has, Distance, Lit, Difference;
    DistanceCounts(c, d);
    DistanceCounts(d, c);
    assert Differing(c, d) == Differing(d, c);
  }

  /** The literal counts of two cubes are no further apart than their distance. */
  lemma LiteralCountGap(c: Cube, d: Cube)
    requires Canonical(c) && Canonical(d)
    ensures NLits(c) <= NLits(d) + Distance(c, d)
    ensures NLits(d) <= NLits(c) + Distance(c, d)
  {
    hide Has, Distance, Difference;
    DistanceCounts(c, d);
    var diff := Differing(c, d);
    forall v: nat | v < WIDTH && Has(c.mask, v) != Has(d.mask, v) ensures v in diff {
      assert Lit(c, v) != Lit(d, v);
    }
    SubsetSize(Vars(c.mask), Vars(d.mask) + diff);
    SubsetSize(Vars(d.mask), Vars(c.mask) + diff);
  }

  lemma OverIsCanonical(c: Cube, vs: set<nat>)
    requires Over(c, vs)
    ensures Canonical(c)
  {
  }

  // ---- Three cubes that differ in one position ----

  /** `c`, `d` and `e` carry the three literals at `v` and agree everywhere else. */
  predicate ThreeAt(c: Cube, d: Cube, e: Cube, v: nat) {
    && v < WIDTH
    && Lit(c, v) != Lit(d, v)
    && Lit(e, v) == Third(Lit(c, v), Lit(d, v))
    && forall u: nat | u < WIDTH && u != v :: Lit(c, u) == Lit(d, u) == Lit(e, u)
  }

  predicate HoldsElsewhere(c: Cube, v: nat, a: Assignment) {
    forall u: nat | u < WIDTH && u != v :: Holds(Lit(c, u), u in a)
  }

  lemma EvalSplit(c: Cube, v: nat, a: Assignment)
    requires v < WIDTH
    ensures Eval(c, a) <==> HoldsElsewhere(c, v, a) && Holds(Lit(c, v), v in a)
  {
    hide Lit, Holds;
  }

  /** Of three such cubes, each one is the exclusive or of the two others. */
  lemma ThreeXor(c: Cube, d: Cube, e: Cube, v: nat, a: Assignment)
    requires ThreeAt(c, d, e, v)
    ensures Eval(e, a) == (Eval(c, a) != Eval(d, a))
  {
    hide Lit, Eval;
    EvalSplit(c, v, a);
    EvalSplit(d, v, a);
    EvalSplit(e, v, a);
    assert HoldsElsewhere(c, v, a) <==> HoldsElsewhere(d, v, a);
    assert HoldsElsewhere(c, v, a) <==> HoldsElsewhere(e, v, a);
  }

  lemma OneDifference(c: Cube, d: Cube) returns (v: nat)
    requires Canonical(c) && Canonical(d) && Distance(c, d) == 1
    ensures v < WIDTH && Differing(c, d) == {v}
  {
    hide Has, Distance, Lit, Difference;
    DistanceCounts(c, d);
    v :| v in Differing(c, d);
    assert |Differing(c, d) - {v}| == 0;
    assert Differing(c, d) == {v};
  }

  /** Merging two cubes at distance 1 gives the one cube equal to their exclusive or. */
  lemma MergeIsXor(c: Cube, d: Cube, vs: set<nat>)
    requires Over(c, vs) && Over(d, vs) && Distance(c, d) == 1
    ensures Over(Merge(c, d), vs)
    ensures forall a :: Eval(Merge(c, d), a) == (Eval(c, a) != Eval(d, a))
  {
    hide Has, Distance, Difference, Merge, Eval;
    var v := OneDifference(c, d);
    var e := Merge(c, d);
    forall u: nat | u < WIDTH
      ensures CanonicalAt(e, u)
      ensures Lit(e, u) == if u == v then Third(Lit(c, v), Lit(d, v)) else Lit(c, u)
      ensures u != v ==> Lit(c, u) == Lit(d, u)
      ensures u in Support(e) ==> u in vs
    {
      MergeAt(c, d, u);
      assert u in Differing(c, d) <==> u == v;
      assert u in Support(c) ==> u in vs;
      assert u in Support(d) ==> u in vs;
    }
    assert ThreeAt(c, d, e, v);
    forall a { ThreeXor(c, d, e, v, a); }
  }

  // ---- Rotation ----

  lemma RotateLiterals(c: Cube, v: nat)
    requires Canonical(c) && v < WIDTH
    ensures Canonical(Rotate(c, v))
    ensures Lit(Rotate(c, v), v) == NextLiteral(Lit(c, v))
    ensures forall u: nat | u < WIDTH && u != v :: Lit(Rotate(c, v), u) == Lit(c, u)
  {
    hide Has, Rotate, Lit;
    forall u: nat | u < WIDTH { RotateAt(c, v, u); }
  }

  /** Rotating a position three times gives the cube back. */
  lemma RotateThrice(c: Cube, v: nat)
    requires Canonical(c) && v < WIDTH
    ensures Rotate(Rotate(Rotate(c, v), v), v) == c
  {
    hide Has, Rotate, Lit, Canonical;
    RotateLiterals(c, v);
    RotateLiterals(Rotate(c, v), v);
    RotateLiterals(Rotate(Rotate(c, v), v), v);
    LiteralsDetermineCube(Rotate(Rotate(Rotate(c, v), v), v), c);
  }

  /** The cubes at distance 1 are exactly the single and double rotations. */
  lemma NeighboursAreRotations(c: Cube, d: Cube)
    requires Canonical(c) && Canonical(d)
    ensures Distance(c, d) == 1 <==>
      exists v: nat :: v < WIDTH && (d == Rotate(c, v) || d == Rotate(Rotate(c, v), v))
  {
    hide Has, Distance, Difference, Rotate, Lit, Canonical;
    if Distance(c, d) == 1 {
      var v := OneDifference(c, d);
      NeighbourIsRotation(c, d, v);
    }
    if v: nat :| v < WIDTH && (d == Rotate(c, v) || d == Rotate(Rotate(c, v), v)) {
      RotationIsNeighbour(c, d, v);
    }
  }

  lemma NeighbourIsRotation(c: Cube, d: Cube, v: nat)
    requires Canonical(c) && Canonical(d) && v < WIDTH && Differing(c, d) == {v}
    ensures d == Rotate(c, v) || d == Rotate(Rotate(c, v), v)
  {
    hide Has, Rotate, Lit, Canonical;
    RotateLiterals(c, v);
    RotateLiterals(Rotate(c, v), v);
    assert v in Differing(c, d);
    forall u: nat | u < WIDTH && u != v ensures Lit(c, u) == Lit(d, u) {
      assert u !in Differing(c, d);
    }
    if Lit(d, v) == NextLiteral(Lit(c, v)) {
      LiteralsDetermineCube(d, Rotate(c, v));
    } else {
      LiteralsDetermineCube(d, Rotate(Rotate(c, v), v));
    }
  }

  lemma RotationIsNeighbour(c: Cube, d: Cube, v: nat)
    requires Canonical(c) && v < WIDTH
    requires d == Rotate(c, v) || d == Rotate(Rotate(c, v), v)
    ensures Canonical(d) && Differing(c, d) == {v} && Distance(c, d) == 1
  {
    hide Has, Rotate, Lit, Canonical, Distance;
    RotateLiterals(c, v);
    RotateLiterals(Rotate(c, v), v);
    DistanceCounts(c, d);
    assert Differing(c, d) == {v};
  }

  // ---- Meaning of the remaining operations ----

  lemma OneHolds(a: Assignment)
    ensures Canonical(CUBE_ONE) && Support(CUBE_ONE) == {} && Eval(CUBE_ONE, a)
  {
    hide Has;
    forall v: nat { HasZero(v); }
  }

  lemma OnlyOneIsEmpty(c: Cube)
    requires Canonical(c) && Support(c) == {}
    ensures c == CUBE_ONE
  {
    hide Has;
    forall v: nat | v < WIDTH ensures Lit(c, v) == Lit(CUBE_ONE, v) {
      HasZero(v);
      assert v !in Support(c);
    }
    OneHolds({});
    LiteralsDetermineCube(c, CUBE_ONE);
  }

  /** Inverting a cube of one literal complements it. */
  lemma InvertComplements(c: Cube, vs: set<nat>)
    requires Over(c, vs) && NLits(c) == 1
    ensures Over(Invert(c), vs)
    ensures forall a :: Eval(Invert(c), a) == !Eval(c, a)
  {
    hide Has, Invert;
    var d := Invert(c);
    var v :| v in Support(c);
    assert |Support(c) - {v}| == 0;
    assert Support(c) == {v};
    forall u: nat | u < WIDTH
      ensures CanonicalAt(d, u)
      ensures u in Support(d) ==> u == v
      ensures u != v ==> Lit(c, u) == Lit(d, u) == Absent
      ensures u == v ==> Lit(c, u) != Absent && Lit(d, u) != Absent && Lit(c, u) != Lit(d, u)
    {
      InvertAt(c, u);
      assert u in Support(c) <==> u == v;
    }
    forall a ensures Eval(d, a) == !Eval(c, a) {
      EvalSplit(c, v, a);
      EvalSplit(d, v, a);
    }
  }

  /** Adding a literal of a variable the cube does not mention restricts it to one cofactor. */
  lemma AddLitRestricts(c: Cube, v: nat, positive: bool, vs: set<nat>)
    requires Over(c, vs) && v < WIDTH && v !in Support(c)
    ensures Over(AddLit(c, v, positive), vs + {v})
    ensures Support(AddLit(c, v, positive)) == Support(c) + {v}
    ensures forall a :: Eval(AddLit(c, v, positive), a) <==> Eval(c, a) && (v in a <==> positive)
  {
    hide Has, AddLit;
    var d := AddLit(c, v, positive);
    forall u: nat | u < WIDTH
      ensures CanonicalAt(d, u)
      ensures Lit(d, u) == if u != v then Lit(c, u) else if positive then Positive else Negative
      ensures Lit(d, u) != Absent <==> u in Support(c) + {v}
    {
      AddLitAt(c, v, positive, u);
    }
    assert Support(d) == Support(c) + {v};
    forall a ensures Eval(d, a) <==> Eval(c, a) && (v in a <==> positive) {
      EvalSplit(c, v, a);
      EvalSplit(d, v, a);
    }
  }

  /** Two cubes with no opposite literals. */
  predicate Compatible(c: Cube, d: Cube) {
    forall v: nat | v < WIDTH :: Lit(c, v) == Absent || Lit(d, v) == Absent || Lit(c, v) == Lit(d, v)
  }

  lemma IntersectCases(c: Cube, d: Cube)
    requires Canonical(c) && Canonical(d)
    ensures Intersect(c, d) ==
      if Compatible(c, d) then Cube(Or(c.mask, d.mask), Or(c.polarity, d.polarity)) else CUBE_ZERO
  {
    hide Has, And, Or, Xor, Lit;
    var clash := And(Xor(c.polarity, d.polarity), And(c.mask, d.mask));
    VarsEmpty(clash);
    forall v: nat | v < WIDTH { IntersectAt(c, d, v); }
    if v: nat :| v < WIDTH && !(Lit(c, v) == Absent || Lit(d, v) == Absent || Lit(c, v) == Lit(d, v)) {
      assert v in Vars(clash);
    } else {
      assert Vars(clash) == {};
    }
  }

  /** Where two cubes have no opposite literals, `operator&` is their conjunction. */
  lemma IntersectCompatible(c: Cube, d: Cube, vs: set<nat>)
    requires Over(c, vs) && Over(d, vs) && Compatible(c, d)
    ensures Over(Intersect(c, d), vs)
    ensures forall a :: Eval(Intersect(c, d), a) <==> Eval(c, a) && Eval(d, a)
  {
    hide Has, Or, Intersect;
    IntersectCases(c, d);
    var m := Intersect(c, d);
    forall v: nat | v < WIDTH
      ensures CanonicalAt(m, v)
      ensures Lit(c, v) == Absent || Lit(c, v) == Lit(d, v) ==> Lit(m, v) == Lit(d, v)
      ensures Lit(d, v) == Absent ==> Lit(m, v) == Lit(c, v)
      ensures v in Support(m) ==> v in Support(c) || v in Support(d)
    {
      IntersectAt(c, d, v);
      assert Lit(c, v) == Absent || Lit(d, v) == Absent || Lit(c, v) == Lit(d, v);
    }
    forall a: Assignment, v: nat | v < WIDTH
      ensures Holds(Lit(m, v), v in a) <==> Holds(Lit(c, v), v in a) && Holds(Lit(d, v), v in a)
    {
    }
  }

  /** Cubes with opposite literals are never true together, and `operator&` yields the zero code. */
  lemma IntersectClash(c: Cube, d: Cube, a: Assignment)
    requires Canonical(c) && Canonical(d) && !Compatible(c, d)
    ensures Intersect(c, d) == CUBE_ZERO && !(Eval(c, a) && Eval(d, a))
  {
    hide Has, Intersect;
    IntersectCases(c, d);
    var v: nat :| v < WIDTH && Lit(c, v) != Absent && Lit(d, v) != Absent && Lit(c, v) != Lit(d, v);
    EvalSplit(c, v, a);
    EvalSplit(d, v, a);
  }
}
