/** The collapsing tool: split a graph on its first inputs, collapse every cofactor, and stitch the results. */
module CollapseTool {
  import opened Bits
  import opened Cube32
  import opened Esop
  import opened TwoLvl32
  import opened Aig
  import opened AigCollapse
  import opened ExorcismRuns
  import opened Exorcism
  import EsopToAig
  import opened Bdd
  import opened Psdkro
  import opened AigToBdd
  import opened Cofactors

  /** `(i >> j) & 1`. */
  predicate BitOf(i: nat, j: nat)
    decreases j
  {
    if j == 0 then i % 2 == 1 else BitOf(i / 2, j - 1)
  }

  // ---- Cofactors by number ----

  /** The first `m` variables of `a` spell the number `i`, lowest bit first. */
  ghost predicate Matches(a: Assignment, i: nat, m: nat) {
    forall j: nat | j < m :: j in a <==> BitOf(i, j)
  }

  /** The number that the variables j..m of `a` spell. */
  ghost function IndexFrom(a: Assignment, j: nat, m: nat): nat
    requires j <= m
    decreases m - j
  {
    if j == m then 0 else (if j in a then 1 else 0) + 2 * IndexFrom(a, j + 1, m)
  }

  lemma {:induction false} IndexBits(a: Assignment, j: nat, m: nat, t: nat)
    requires j + t < m
    ensures BitOf(IndexFrom(a, j, m), t) == (j + t in a)
    decreases t
  {
    if t > 0 { IndexBits(a, j + 1, m, t - 1); }
  }

  lemma {:induction false} IndexUnique(a: Assignment, j: nat, m: nat, i: nat)
    requires j <= m && i < Pow2(m - j)
    requires forall t: nat | t < m - j :: BitOf(i, t) == (j + t in a)
    ensures i == IndexFrom(a, j, m)
    decreases m - j
  {
    if j < m {
      assert BitOf(i, 0) == (j + 0 in a);
      forall t: nat | t < m - j - 1 ensures BitOf(i / 2, t) == (j + 1 + t in a) {
        assert BitOf(i, t + 1) == (j + (t + 1) in a);
      }
      IndexUnique(a, j + 1, m, i / 2);
    }
  }

  lemma {:induction false} IndexBound(a: Assignment, j: nat, m: nat)
    requires j <= m
    ensures IndexFrom(a, j, m) < Pow2(m - j)
    decreases m - j
  {
    if j < m { IndexBound(a, j + 1, m); }
  }

  /** Every assignment belongs to exactly one of the 2^m cofactors. */
  lemma OneCofactor(a: Assignment, i: nat, m: nat)
    requires i < Pow2(m)
    ensures Matches(a, i, m) <==> i == IndexFrom(a, 0, m)
  {
    hide BitOf, IndexFrom;
    forall t: nat | t < m { IndexBits(a, 0, m, t); }
    if Matches(a, i, m) {
      forall t: nat | t < m ensures BitOf(i, t) == (0 + t in a) {
        assert t in a <==> BitOf(i, t);
      }
      IndexUnique(a, 0, m, i);
    }
  }

  /** The inputs that the loop over `j` has fixed so far. */
  ghost function Fixed(a: Assignment, i: nat, m: nat): Assignment
    decreases m
  {
    if m == 0 then a else Fixed(SetVar(a, m - 1, BitOf(i, m - 1)), i, m - 1)
  }

  lemma {:induction false} FixedMatching(a: Assignment, i: nat, m: nat)
    requires Matches(a, i, m)
    ensures Fixed(a, i, m) == a
  {
    hide BitOf;
    if m > 0 {
      assert SetVar(a, m - 1, BitOf(i, m - 1)) == a;
      FixedMatching(a, i, m - 1);
    }
  }

  /** `h` is `g` with its first `m` inputs fixed to the bits of `i`. */
  ghost predicate CofactorOf(h: Aig, g: Aig, i: nat, m: nat)
    requires WellFormedAig(g)
  {
    && WellFormedAig(h) && |h.cis| == |g.cis| && |h.cos| == |g.cos|
    && (forall k, a | 0 <= k < |g.cos| :: Output(h, k, a) == Output(g, k, Fixed(a, i, m)))
    && (forall k | 0 <= k < |g.cos| :: Cone(h.objs, h.cos[k].id) !! Below(m))
  }

  lemma CofactorStart(g: Aig, i: nat)
    requires WellFormedAig(g)
    ensures CofactorOf(g, g, i, 0)
  {
  }

  lemma CofactorStep(h: Aig, h': Aig, g: Aig, i: nat, m: nat)
    requires WellFormedAig(g) && CofactorOf(h, g, i, m) && m < |g.cis|
    requires WellFormedAig(h') && |h'.cis| == |h.cis| && |h'.cos| == |h.cos|
    requires forall k, a | 0 <= k < |h.cos| :: Output(h', k, a) == Output(h, k, SetVar(a, m, BitOf(i, m)))
    requires forall k | 0 <= k < |h.cos| :: Cone(h'.objs, h'.cos[k].id) <= Cone(h.objs, h.cos[k].id) - {m}
    ensures CofactorOf(h', g, i, m + 1)
  {
    hide BitOf, Output, Cone, SetVar, Below;
    forall k, a | 0 <= k < |g.cos| ensures Output(h', k, a) == Output(g, k, Fixed(a, i, m + 1)) {
      assert Output(h, k, SetVar(a, m, BitOf(i, m))) == Output(g, k, Fixed(SetVar(a, m, BitOf(i, m)), i, m));
    }
    forall k | 0 <= k < |g.cos| ensures Cone(h'.objs, h'.cos[k].id) !! Below(m + 1) {
      BelowStep(m);
    }
  }

  lemma BelowStep(m: nat)
    ensures Below(m + 1) == Below(m) + {m}
  {
  }

  lemma MatchesStep(a: Assignment, i: nat, m: nat)
    ensures Matches(a, i, m + 1) == (Matches(a, i, m) && (m in a <==> BitOf(i, m)))
    ensures Matches(a, i, 0)
  {
    hide BitOf;
  }

  // ---- Cofactor literals ----

  function AddLits(c: Cube, i: nat, m: nat): Cube {
    if m == 0 then c else AddLit(AddLits(c, i, m - 1), m - 1, BitOf(i, m - 1))
  }

  /** `vs` and the first `m` variables. */
  ghost function Widen(vs: set<nat>, m: nat): (r: set<nat>)
    ensures forall v: nat :: v in r <==> v in vs || v < m
  {
    if m == 0 then vs else Widen(vs, m - 1) + {m - 1}
  }

  lemma {:induction false} AddLitsRestrict(c: Cube, i: nat, m: nat, vs: set<nat>)
    requires Over(c, vs) && m <= WIDTH && forall v | v in vs :: m <= v
    ensures Over(AddLits(c, i, m), Widen(vs, m))
    ensures forall a :: Eval(AddLits(c, i, m), a) == (Eval(c, a) && Matches(a, i, m))
  {
    hide AddLit, Eval, BitOf, Matches, Over;
    if m > 0 {
      var d := AddLits(c, i, m - 1);
      AddLitsRestrict(c, i, m - 1, vs);
      NotMentioned(d, m - 1, Widen(vs, m - 1));
      AddLitRestricts(d, m - 1, BitOf(i, m - 1), Widen(vs, m - 1));
      forall a ensures Eval(AddLits(c, i, m), a) == (Eval(c, a) && Matches(a, i, m)) {
        MatchesStep(a, i, m - 1);
      }
    } else {
      forall a ensures Matches(a, i, m) { MatchesStep(a, i, 0); }
    }
  }

  lemma NotMentioned(d: Cube, v: nat, vs: set<nat>)
    requires Over(d, vs) && v !in vs
    ensures v !in Support(d)
  {
  }

  function AllLits(cubes: seq<Cube>, i: nat, m: nat): (r: seq<Cube>)
    ensures |r| == |cubes|
  {
    seq(|cubes|, p requires 0 <= p < |cubes| => AddLits(cubes[p], i, m))
  }

  lemma {:induction false} AllLitsRestrict(cubes: seq<Cube>, i: nat, m: nat, vs: set<nat>)
    requires AllOver(cubes, vs) && m <= WIDTH && forall v | v in vs :: m <= v
    ensures AllOver(AllLits(cubes, i, m), Widen(vs, m))
    ensures forall a :: XorSeq(AllLits(cubes, i, m), a) == (XorSeq(cubes, a) && Matches(a, i, m))
  {
    hide Over, Eval, Matches, AddLits, Widen;
    forall p | 0 <= p < |cubes|
      ensures Over(AddLits(cubes[p], i, m), Widen(vs, m))
      ensures forall a :: Eval(AddLits(cubes[p], i, m), a) == (Eval(cubes[p], a) && Matches(a, i, m))
    {
      AddLitsRestrict(cubes[p], i, m, vs);
    }
    if cubes != [] {
      var n := |cubes| - 1;
      AllLitsRestrict(cubes[..n], i, m, vs);
      assert AllLits(cubes, i, m)[..n] == AllLits(cubes[..n], i, m);
    }
  }

  // ---- The tool ----

  /** What the tool makes of output `k`: the output itself or, if it flips, its complement where no variable is
      true. */
  ghost predicate Made(g: Aig, k: nat, flip: bool, a: Assignment)
    requires WellFormedAig(g) && k < |g.cos|
  {
    Output(g, k, a) != (flip && AllNegative(a))
  }

  /** The list is the `i`-th cofactor of output `k`, restricted to its own assignments. */
  ghost predicate CofactorSum(g: Aig, i: nat, m: nat, k: nat, flip: bool, cubes: seq<Cube>)
    requires WellFormedAig(g) && k < |g.cos|
  {
    && AllOver(cubes, Below(|g.cis|))
    && forall a :: XorSeq(cubes, a) == (Made(g, k, flip, a) && Matches(a, i, m))
  }

  /** The list is output `k` on the assignments of the first `i` cofactors. */
  ghost predicate SumUpTo(g: Aig, i: nat, m: nat, k: nat, flip: bool, cubes: seq<Cube>)
    requires WellFormedAig(g) && k < |g.cos|
  {
    && AllOver(cubes, Below(|g.cis|))
    && forall a :: XorSeq(cubes, a) == (Made(g, k, flip, a) && IndexFrom(a, 0, m) < i)
  }

  /** The outputs that flip, judged by the sums stored for the uncofactored graph. */
  ghost predicate FlippedBy(g: Aig, sums: seq<seq<Cube>>, flipped: set<nat>)
    requires WellFormedAig(g)
  {
    && |sums| == |g.objs| && AllStored(g, sums)
    && forall k: nat :: k in flipped <==> k < |g.cos| && Flips(g, sums, g.cos[k].id)
  }

  /** Fix the first `m` inputs of `g` to the bits of `i`, one after the other. */
  method Cofactor(g: Aig, i: nat, m: nat) returns (h: Aig)
    requires WellFormedAig(g) && m <= |g.cis|
    ensures CofactorOf(h, g, i, m) && (if m == 0 then h == g else ConstantFree(h.objs))
  {
    hide CofactorOf, BitOf, Output, Cone, ConstantFree;
    h := g;
    CofactorStart(g, i);
    for j := 0 to m
      invariant CofactorOf(h, g, i, j) && (if j == 0 then h == g else ConstantFree(h.objs))
    {
      CofactorShape(h, g, i, j);
      var next := DupCofactorVar(h, j, BitOf(i, j));
      CofactorStep(h, next, g, i, j);
      h := next;
    }
  }

  /** Add the cofactored variables to all cubes of all outputs, in place. */
  method AddCofactorLiterals(f: TwoLvl, i: nat, m: nat) returns (r: TwoLvl)
    ensures r.kind == f.kind && r.nInputs == f.nInputs && |r.cubes| == |f.cubes|
    ensures forall k | 0 <= k < |f.cubes| :: r.cubes[k] == AllLits(f.cubes[k], i, m)
  {
    hide AddLit, BitOf;
    var cubes := f.cubes;
    for k := 0 to |cubes|
      invariant |cubes| == |f.cubes|
      invariant forall q | 0 <= q < k :: cubes[q] == AllLits(f.cubes[q], i, m)
      invariant forall q | k <= q < |cubes| :: cubes[q] == f.cubes[q]
    {
      var esop := cubes[k];
      for p := 0 to |esop|
        invariant |esop| == |f.cubes[k]|
        invariant forall q | 0 <= q < p :: esop[q] == AddLits(f.cubes[k][q], i, m)
        invariant forall q | p <= q < |esop| :: esop[q] == f.cubes[k][q]
      {
        var cube := esop[p];
        for j := 0 to m
          invariant cube == AddLits(f.cubes[k][p], i, j)
        {
          cube := AddLit(cube, j, BitOf(i, j));
        }
        esop := esop[p := cube];
      }
      cubes := cubes[k := esop];
    }
    r := TwoLvl(f.kind, f.nInputs, cubes);
  }

  /** Collapse one cofactor and restrict it to its assignments. With an input fixed nothing flips. */
  method CollapseCofactor(g: Aig, h: Aig, i: nat, m: nat)
    returns (r: TwoLvl, ghost sums: seq<seq<Cube>>, ghost flipped: set<nat>)
    requires WellFormedAig(g) && |g.cis| <= WIDTH && m <= |g.cis| && CofactorOf(h, g, i, m) && (m == 0 ==> h == g)
    ensures |r.cubes| == |g.cos|
    ensures forall k | 0 <= k < |g.cos| :: CofactorSum(g, i, m, k, k in flipped, r.cubes[k])
    ensures if m == 0 then FlippedBy(g, sums, flipped) else flipped == {}
  {
    hide XorSeq, Matches, Fixed, Cone, Output, AllOver, WellFormedAig, AllNegative, Flips, AllStored, CofactorSum;
    hide CofactorOf, Below, FlippedOutputs, Value;
    CofactorShape(h, g, i, m);
    var mngr := new AigExtrMngr(h);
    var ex := mngr.Run();
    r := AddCofactorLiterals(ex, i, m);
    sums := mngr.esops;
    flipped := FlippedOutputs(h, sums);
    forall k | 0 <= k < |g.cos| ensures CofactorSum(g, i, m, k, k in flipped, r.cubes[k]) {
      CofactorSumFrom(h, g, i, m, k, k in flipped, ex.cubes[k]);
    }
    if m > 0 { NothingFlips(h, g, i, m, sums); } else { FlippedThere(h, sums); }
  }

  ghost function FlippedOutputs(g: Aig, sums: seq<seq<Cube>>): (r: set<nat>)
    requires WellFormedAig(g) && |sums| == |g.objs|
    ensures forall k: nat :: k in r <==> k < |g.cos| && Flips(g, sums, g.cos[k].id)
  {
    set k: nat | k < |g.cos| && Flips(g, sums, g.cos[k].id)
  }

  lemma FlippedThere(g: Aig, sums: seq<seq<Cube>>)
    requires WellFormedAig(g) && |sums| == |g.objs| && AllStored(g, sums)
    ensures FlippedBy(g, sums, FlippedOutputs(g, sums))
  {
    hide AllStored, Flips;
  }

  /** Where an input is fixed, no output depends on all 32 of them. */
  lemma NothingFlips(h: Aig, g: Aig, i: nat, m: nat, sums: seq<seq<Cube>>)
    requires WellFormedAig(g) && 0 < m <= |g.cis| <= WIDTH && CofactorOf(h, g, i, m)
    requires |sums| == |h.objs| && AllStored(h, sums)
    ensures FlippedOutputs(h, sums) == {}
  {
    hide Cone, Output, Fixed, Flips, AllStored;
    forall k: nat | k < |h.cos| ensures !Flips(h, sums, h.cos[k].id) {
      FlipNeedsAll(h, sums, h.cos[k].id);
      assert 0 in Below(WIDTH) && 0 in Below(m);
    }
  }

  lemma CofactorShape(h: Aig, g: Aig, i: nat, m: nat)
    requires WellFormedAig(g) && CofactorOf(h, g, i, m)
    ensures WellFormedAig(h) && |h.cis| == |g.cis| && |h.cos| == |g.cos|
  {
  }

  lemma CofactorSumFrom(h: Aig, g: Aig, i: nat, m: nat, k: nat, flip: bool, cubes: seq<Cube>)
    requires WellFormedAig(g) && |g.cis| <= WIDTH && m <= |g.cis| && CofactorOf(h, g, i, m) && k < |g.cos|
    requires AllOver(cubes, Cone(h.objs, h.cos[k].id))
    requires forall a :: XorSeq(cubes, a) == (Output(h, k, a) != (flip && AllNegative(a)))
    ensures CofactorSum(g, i, m, k, flip, AllLits(cubes, i, m))
  {
    hide XorSeq, Matches, Fixed, Cone, Output, AllOver, AllLits, AllNegative;
    var vs := Cone(h.objs, h.cos[k].id);
    forall v | v in vs ensures m <= v {
      assert v !in Below(m);
    }
    AllLitsRestrict(cubes, i, m, vs);
    ConeBound(h, h.cos[k].id);
    OverLarger(AllLits(cubes, i, m), Widen(vs, m), Below(|g.cis|));
    forall a ensures XorSeq(AllLits(cubes, i, m), a) == (Made(g, k, flip, a) && Matches(a, i, m)) {
      if Matches(a, i, m) { FixedMatching(a, i, m); }
    }
  }

  lemma SumStart(g: Aig, m: nat, k: nat, flip: bool)
    requires WellFormedAig(g) && k < |g.cos|
    ensures SumUpTo(g, 0, m, k, flip, [])
  {
  }

  /** Appending the next cofactor's list. */
  lemma SumStep(g: Aig, i: nat, m: nat, k: nat, flip: bool, sum: seq<Cube>, cubes: seq<Cube>)
    requires WellFormedAig(g) && k < |g.cos| && i < Pow2(m)
    requires SumUpTo(g, i, m, k, flip, sum) && CofactorSum(g, i, m, k, flip, cubes)
    ensures SumUpTo(g, i + 1, m, k, flip, sum + cubes)
  {
    hide XorSeq, Matches, Made, IndexFrom, Over, Below;
    forall a ensures XorSeq(sum + cubes, a) == (Made(g, k, flip, a) && IndexFrom(a, 0, m) < i + 1) {
      XorConcat(sum, cubes, a);
      OneCofactor(a, i, m);
    }
  }

  lemma SumSame(g: Aig, i: nat, m: nat, k: nat, flip: bool, sum: seq<Cube>, other: seq<Cube>)
    requires WellFormedAig(g) && k < |g.cos| && SumUpTo(g, i, m, k, flip, sum)
    requires AllOver(other, Below(|g.cis|)) && forall a :: XorSeq(other, a) == XorSeq(sum, a)
    ensures SumUpTo(g, i, m, k, flip, other)
  {
    hide XorSeq, Made, IndexFrom, Over, Below;
  }

  lemma SumComplete(g: Aig, m: nat, k: nat, flip: bool, sum: seq<Cube>)
    requires WellFormedAig(g) && k < |g.cos| && SumUpTo(g, Pow2(m), m, k, flip, sum)
    ensures AllOver(sum, Below(|g.cis|)) && forall a :: XorSeq(sum, a) == Made(g, k, flip, a)
  {
    hide XorSeq, Made, Over, Below;
    forall a ensures XorSeq(sum, a) == Made(g, k, flip, a) { IndexBound(a, 0, m); }
  }

  /** What stitching makes of one output's list and the next cofactor's list. */
  ghost predicate Joined(before: seq<Cube>, part: seq<Cube>, next: seq<Cube>, exorcise: bool, vs: set<nat>) {
    if exorcise then Minimised(before + part, next, vs) && Improved(before + part, next) else next == before + part
  }

  /** All lists after each cofactor, from empty ones to `result`. */
  ghost predicate Stitched(steps: seq<seq<seq<Cube>>>, parts: seq<TwoLvl>, result: TwoLvl, exorcise: bool) {
    && |steps| == |parts| + 1 && steps[|parts|] == result.cubes
    && (forall i | 0 <= i <= |parts| :: |steps[i]| == |result.cubes|)
    && (forall i | 0 <= i < |parts| :: |parts[i].cubes| == |result.cubes|)
    && (forall k | 0 <= k < |result.cubes| :: steps[0][k] == [])
    && (forall i, k | 0 <= i < |parts| && 0 <= k < |result.cubes| ::
      Joined(steps[i][k], parts[i].cubes[k], steps[i + 1][k], exorcise, Below(result.nInputs)))
  }

  /** Without repetitions or mergeable cubes, and what minimising some list comes to. */
  ghost predicate MinimalForm(list: seq<Cube>, vs: set<nat>) {
    NoRepeats(list) && Separated(CubesOf(list)) && exists before :: Minimised(before, list, vs)
  }

  lemma JoinedMinimal(before: seq<Cube>, part: seq<Cube>, next: seq<Cube>, vs: set<nat>)
    requires Joined(before, part, next, true, vs)
    ensures MinimalForm(next, vs)
  {
    hide Minimised, Improved, Separated, NoRepeats;
    var states := MinimisedEnds(before + part, next, vs);
  }

  lemma StitchedMinimal(steps: seq<seq<seq<Cube>>>, parts: seq<TwoLvl>, result: TwoLvl)
    requires Stitched(steps, parts, result, true) && |parts| > 0
    ensures forall k | 0 <= k < |result.cubes| :: MinimalForm(result.cubes[k], Below(result.nInputs))
  {
    hide Joined, MinimalForm, Below;
    var last := |parts| - 1;
    forall k | 0 <= k < |result.cubes| ensures MinimalForm(result.cubes[k], Below(result.nInputs)) {
      JoinedMinimal(steps[last][k], parts[last].cubes[k], steps[last + 1][k], Below(result.nInputs));
    }
  }

  lemma StitchedStart(result: TwoLvl, exorcise: bool)
    requires forall k | 0 <= k < |result.cubes| :: result.cubes[k] == []
    ensures Stitched([result.cubes], [], result, exorcise)
  {
    hide Joined;
  }

  lemma StitchedMore(steps: seq<seq<seq<Cube>>>, parts: seq<TwoLvl>, result: TwoLvl, part: TwoLvl, next: TwoLvl,
      exorcise: bool)
    requires Stitched(steps, parts, result, exorcise) && next.nInputs == result.nInputs
    requires |next.cubes| == |part.cubes| == |result.cubes|
    requires forall k | 0 <= k < |result.cubes| ::
      Joined(result.cubes[k], part.cubes[k], next.cubes[k], exorcise, Below(result.nInputs))
    ensures Stitched(steps + [next.cubes], parts + [part], next, exorcise)
  {
    hide Joined, Below;
  }

  /** Append the lists of all cofactors, minimising the sum after each of them if asked. */
  method Stitch(g: Aig, cfResults: seq<TwoLvl>, m: nat, exorcise: bool, ghost flipped: set<nat>)
    returns (result: TwoLvl, ghost steps: seq<seq<seq<Cube>>>)
    requires WellFormedAig(g) && |g.cis| <= WIDTH && |cfResults| == Pow2(m)
    requires forall i | 0 <= i < |cfResults| :: |cfResults[i].cubes| == |g.cos|
    requires forall i, k | 0 <= i < |cfResults| && 0 <= k < |g.cos| :: CofactorSum(g, i, m, k, k in flipped, cfResults[i].cubes[k])
    ensures WellFormed(result) && result.nInputs == |g.cis| && |result.cubes| == |g.cos|
    ensures forall k, a | 0 <= k < |g.cos| :: XorSeq(result.cubes[k], a) == Made(g, k, k in flipped, a)
    ensures Stitched(steps, cfResults, result, exorcise)
    ensures exorcise ==> forall k | 0 <= k < |g.cos| :: MinimalForm(result.cubes[k], Below(|g.cis|))
  {
    hide XorSeq, Made, SumUpTo, CofactorSum, WellFormedAig, AllOver, Below, Pow2, Stitched, Minimised, MinimalForm;
    result := TwoLvl(UNDEF, |g.cis|, seq(|g.cos|, _ => []));
    steps := [result.cubes];
    forall k | 0 <= k < |g.cos| { SumStart(g, m, k, k in flipped); }
    StitchedStart(result, exorcise);
    for i := 0 to |cfResults|
      invariant result.nInputs == |g.cis| && |result.cubes| == |g.cos|
      invariant forall k | 0 <= k < |g.cos| :: SumUpTo(g, i, m, k, k in flipped, result.cubes[k])
      invariant Stitched(steps, cfResults[..i], result, exorcise)
    {
      ghost var before := result;
      var cubes := result.cubes;
      for k := 0 to |cubes|
        invariant |cubes| == |before.cubes|
        invariant forall q | 0 <= q < k :: cubes[q] == before.cubes[q] + cfResults[i].cubes[q]
        invariant forall q | k <= q < |cubes| :: cubes[q] == before.cubes[q]
      {
        cubes := cubes[k := cubes[k] + cfResults[i].cubes[k]];
      }
      result := TwoLvl(result.kind, result.nInputs, cubes);
      forall k | 0 <= k < |g.cos| ensures SumUpTo(g, i + 1, m, k, k in flipped, result.cubes[k]) {
        SumStep(g, i, m, k, k in flipped, before.cubes[k], cfResults[i].cubes[k]);
      }
      if exorcise {
        ghost var sums := result;
        forall k | 0 <= k < |g.cos| ensures AllOver(result.cubes[k], Below(|g.cis|)) {
          SumOver(g, i + 1, m, k, k in flipped, result.cubes[k]);
        }
        result := Exorcise(result);
        forall k | 0 <= k < |g.cos| ensures SumUpTo(g, i + 1, m, k, k in flipped, result.cubes[k]) {
          SumSame(g, i + 1, m, k, k in flipped, sums.cubes[k], result.cubes[k]);
        }
      }
      StitchedMore(steps, cfResults[..i], before, cfResults[i], result, exorcise);
      assert cfResults[..i + 1] == cfResults[..i] + [cfResults[i]];
      steps := steps + [result.cubes];
    }
    assert cfResults[..|cfResults|] == cfResults;
    forall k | 0 <= k < |g.cos|
      ensures AllOver(result.cubes[k], Below(|g.cis|)) && forall a :: XorSeq(result.cubes[k], a) == Made(g, k, k in flipped, a)
    {
      SumComplete(g, m, k, k in flipped, result.cubes[k]);
    }
    assert |cfResults| > 0 by { PowPositive(m); }
    if exorcise { StitchedMinimal(steps, cfResults, result); }
  }

  lemma PowPositive(m: nat)
    ensures Pow2(m) > 0
  {
    PowMonotone(0, m);
  }

  lemma SumOver(g: Aig, i: nat, m: nat, k: nat, flip: bool, sum: seq<Cube>)
    requires WellFormedAig(g) && k < |g.cos| && SumUpTo(g, i, m, k, flip, sum)
    ensures AllOver(sum, Below(|g.cis|))
  {
  }

  /** The tool with the AIG method, whatever the number of cofactored inputs and with or without minimisation. The
      result denotes every output, except that those which flip are wrong exactly where no variable is true. Only an
      output that depends on all 32 inputs, none of them cofactored, can flip. */
  method Collapse(aig: Aig, nCofactor: nat, exorcise: bool)
    returns (result: TwoLvl, ghost sums: seq<seq<Cube>>, ghost flipped: set<nat>, ghost parts: seq<TwoLvl>,
      ghost steps: seq<seq<seq<Cube>>>)
    requires WellFormedAig(aig) && |aig.cis| <= WIDTH && nCofactor <= |aig.cis|
    ensures WellFormed(result) && result.nInputs == |aig.cis| && |result.cubes| == |aig.cos|
    ensures forall k, a | 0 <= k < |aig.cos| ::
      XorSeq(result.cubes[k], a) == (Output(aig, k, a) != (k in flipped && AllNegative(a)))
    ensures forall k | 0 <= k < |aig.cos| ::
      (forall a :: XorSeq(result.cubes[k], a) == Output(aig, k, a)) <==> k !in flipped
    ensures |parts| == Pow2(nCofactor) && forall i | 0 <= i < |parts| :: |parts[i].cubes| == |aig.cos|
    ensures forall i, k | 0 <= i < |parts| && 0 <= k < |aig.cos| ::
      CofactorSum(aig, i, nCofactor, k, k in flipped, parts[i].cubes[k])
    ensures Stitched(steps, parts, result, exorcise)
    ensures exorcise ==> forall k | 0 <= k < |aig.cos| :: MinimalForm(result.cubes[k], Below(|aig.cis|))
    ensures if nCofactor == 0 then FlippedBy(aig, sums, flipped) else flipped == {}
    ensures forall k | k in flipped :: k < |aig.cos| && Below(WIDTH) <= Cone(aig.objs, aig.cos[k].id)
    ensures |aig.cis| < WIDTH ==> flipped == {}
  {
    hide XorSeq, Output, CofactorOf, CofactorSum, WellFormedAig, AllOver, Below, FlippedBy, AllNegative, Cone;
    hide Stitched, MinimalForm;
    var count := Pow2(nCofactor);
    var cfAigs := new Aig[count](_ => aig);
    for i := 0 to count
      invariant forall q | 0 <= q < i :: CofactorOf(cfAigs[q], aig, q, nCofactor) && (nCofactor == 0 ==> cfAigs[q] == aig)
    {
      cfAigs[i] := Cofactor(aig, i, nCofactor);
    }
    var cfResults: seq<TwoLvl> := [];
    sums, flipped := [], {};
    for i := 0 to count
      invariant |cfResults| == i
      invariant forall q | 0 <= q < count :: CofactorOf(cfAigs[q], aig, q, nCofactor) && (nCofactor == 0 ==> cfAigs[q] == aig)
      invariant forall q | 0 <= q < i :: |cfResults[q].cubes| == |aig.cos|
      invariant forall q, k | 0 <= q < i && 0 <= k < |aig.cos| ::
        CofactorSum(aig, q, nCofactor, k, k in flipped, cfResults[q].cubes[k])
      invariant nCofactor > 0 ==> flipped == {}
      invariant nCofactor == 0 && i > 0 ==> FlippedBy(aig, sums, flipped)
    {
      var r;
      r, sums, flipped := CollapseCofactor(aig, cfAigs[i], i, nCofactor);
      cfResults := cfResults + [r];
    }
    parts := cfResults;
    result, steps := Stitch(aig, cfResults, nCofactor, exorcise, flipped);
    forall k | 0 <= k < |aig.cos|
      ensures (forall a :: XorSeq(result.cubes[k], a) == Output(aig, k, a)) <==> k !in flipped
    {
      OutputExactIff(aig, k, k in flipped, result.cubes[k]);
    }
    FlippedNeedAll(aig, nCofactor, sums, flipped);
  }

  lemma FlippedNeedAll(g: Aig, nCofactor: nat, sums: seq<seq<Cube>>, flipped: set<nat>)
    requires WellFormedAig(g) && |g.cis| <= WIDTH
    requires if nCofactor == 0 then FlippedBy(g, sums, flipped) else flipped == {}
    ensures forall k | k in flipped :: k < |g.cos| && Below(WIDTH) <= Cone(g.objs, g.cos[k].id)
    ensures |g.cis| < WIDTH ==> flipped == {}
  {
    hide Cone, Flips, AllStored;
    forall k | k in flipped ensures k < |g.cos| && |g.cis| == WIDTH && Below(WIDTH) <= Cone(g.objs, g.cos[k].id) {
      FlipNeedsAll(g, sums, g.cos[k].id);
      ConeBound(g, g.cos[k].id);
      NotAll(|g.cis|);
    }
  }

  lemma NotAll(n: nat)
    ensures n < WIDTH ==> !(Below(WIDTH) <= Below(n))
  {
    if n < WIDTH { assert n in Below(WIDTH) && n !in Below(n); }
  }

  /** A graph of 32 inputs that the tool gets wrong: the nor of them all, which is true where no input is. */
  method CollapseNorChain(exorcise: bool) returns (result: TwoLvl)
    ensures WellFormedAig(NorChain()) && |NorChain().cis| == WIDTH && |NorChain().cos| == 1
    ensures Output(NorChain(), 0, {}) && |result.cubes| == 1 && !XorSeq(result.cubes[0], {})
  {
    hide XorSeq, Output, AllNegative, Flips, AllStored;
    NorChainShape();
    hide NorChain;
    ghost var sums, flipped;
    ghost var parts, steps;
    result, sums, flipped, parts, steps := Collapse(NorChain(), 0, exorcise);
    NorChainFlips(sums);
    AllNegativeIsEmpty({});
  }

  // ---- The BDD method ----

  lemma {:induction false} FixedIgnores(a: Assignment, i: nat, m: nat, v: nat, value: bool)
    requires v < m
    ensures Fixed(SetVar(a, v, value), i, m) == Fixed(a, i, m)
    decreases m
  {
    hide BitOf;
    var bit := BitOf(i, m - 1);
    if v == m - 1 {
      assert SetVar(SetVar(a, v, value), m - 1, bit) == SetVar(a, m - 1, bit);
    } else {
      assert SetVar(SetVar(a, v, value), m - 1, bit) == SetVar(SetVar(a, m - 1, bit), v, value);
      FixedIgnores(SetVar(a, m - 1, bit), i, m - 1, v, value);
    }
  }

  /** The diagram denotes output `k` of the `i`-th cofactor. */
  ghost predicate DiagramOf(f: Bdd, g: Aig, i: nat, m: nat, k: nat)
    requires WellFormedAig(g) && k < |g.cos|
  {
    Ordered(f, 0, |g.cis|) && forall a :: EvalBdd(f, a) == Output(g, k, Fixed(a, i, m))
  }

  /** The diagram of a cofactor does not test the fixed variables. */
  lemma DiagramSupport(f: Bdd, g: Aig, i: nat, m: nat, k: nat)
    requires WellFormedAig(g) && k < |g.cos| && DiagramOf(f, g, i, m, k)
    ensures forall v | v in BddSupport(f) :: m <= v < |g.cis|
  {
    hide Output, Fixed, EvalBdd, Ordered, BddSupport;
    SupportRange(f, 0, |g.cis|);
    forall v | v in BddSupport(f) ensures m <= v {
      if v < m {
        var a := TestedMatters(f, v, 0, |g.cis|);
        FixedIgnores(a, i, m, v, true);
        FixedIgnores(a, i, m, v, false);
      }
    }
  }

  /** One manager extracts the lists of all outputs, one after the other. */
  method BddExtract(bdds: seq<NodePtr>, n: nat) returns (r: TwoLvl)
    requires n <= WIDTH && forall k | 0 <= k < |bdds| && bdds[k].Ptr? :: Ordered(bdds[k].node, 0, n)
    ensures r.kind == ESOP && r.nInputs == n && |r.cubes| == |bdds|
    ensures forall k | 0 <= k < |bdds| :: ExtractedFrom(bdds[k], r.cubes[k], n)
  {
    hide Ordered, XorSeq, EvalBdd, BddSupport, AllOver, PlanFor, PlanCubes, CountCubes, NoRepeats;
    var mngr := new PsdkroMngr(n);
    var fncts: seq<seq<Cube>> := [];
    for i := 0 to |bdds|
      invariant mngr.vars == [] && |fncts| == i && fresh(mngr) && fresh(mngr.varValues)
      invariant forall k | 0 <= k < i :: ExtractedFrom(bdds[k], fncts[k], n)
    {
      var esop := mngr.ExtractEsop(bdds[i]);
      fncts := fncts + [esop];
    }
    r := TwoLvl(ESOP, n, fncts);
  }

  /** No cubes for the null pointer; otherwise the list denotes the diagram over its support, and no plan gives a
      shorter one. */
  ghost predicate ExtractedFrom(p: NodePtr, cubes: seq<Cube>, n: nat) {
    match p
    case Null => cubes == []
    case Ptr(f) =>
      && AllOver(cubes, BddSupport(f))
      && (forall a :: XorSeq(cubes, a) == EvalBdd(f, a))
      && (forall q | PlanFor(q, f, 0, n) :: |cubes| <= |PlanCubes(q, f, 0)|)
  }

  lemma DiagramSum(f: Bdd, g: Aig, i: nat, m: nat, k: nat, cubes: seq<Cube>)
    requires WellFormedAig(g) && |g.cis| <= WIDTH && m <= |g.cis| && k < |g.cos| && DiagramOf(f, g, i, m, k)
    requires AllOver(cubes, BddSupport(f)) && forall a :: XorSeq(cubes, a) == EvalBdd(f, a)
    ensures CofactorSum(g, i, m, k, false, AllLits(cubes, i, m))
  {
    hide XorSeq, Matches, Fixed, Output, AllOver, AllLits, BddSupport, EvalBdd, Ordered;
    DiagramSupport(f, g, i, m, k);
    AllLitsRestrict(cubes, i, m, BddSupport(f));
    OverLarger(AllLits(cubes, i, m), Widen(BddSupport(f), m), Below(|g.cis|));
    forall a ensures XorSeq(AllLits(cubes, i, m), a) == (Output(g, k, a) && Matches(a, i, m)) {
      if Matches(a, i, m) { FixedMatching(a, i, m); }
    }
  }

  lemma PtrSum(h: Aig, g: Aig, i: nat, m: nat, k: nat, p: NodePtr, cubes: seq<Cube>)
    requires WellFormedAig(g) && |g.cis| <= WIDTH && m <= |g.cis| && CofactorOf(h, g, i, m) && k < |g.cos|
    requires DenotesEdge(h, h.cos[k], p) && ExtractedFrom(p, cubes, |h.cis|)
    ensures CofactorSum(g, i, m, k, false, AllLits(cubes, i, m))
  {
    hide XorSeq, EvalBdd, Ordered, EdgeValue, Cone, Matches, AllLits, AllOver, BddSupport, PlanFor, PlanCubes;
    if p.Ptr? {
      forall a ensures EvalBdd(p.node, a) == Output(g, k, Fixed(a, i, m)) {
        assert Output(h, k, a) == Output(g, k, Fixed(a, i, m));
      }
      DiagramSum(p.node, g, i, m, k, cubes);
    } else {
      NoLits(i, m, Below(|g.cis|));
      forall a ensures XorSeq([], a) == (Made(g, k, false, a) && Matches(a, i, m)) {
        NoCubes(a);
        assert Output(h, k, a) == Output(g, k, Fixed(a, i, m));
        if Matches(a, i, m) { FixedMatching(a, i, m); }
      }
    }
  }

  lemma NoLits(i: nat, m: nat, vs: set<nat>)
    ensures AllLits([], i, m) == [] && AllOver([], vs)
  {
  }

  /** The list is that of a diagram of the output, so as short as any expansion in the order of the variables gives,
      with the cofactor's literals. */
  ghost predicate FromDiagram(h: Aig, k: nat, i: nat, m: nat, list: seq<Cube>) {
    WellFormedAig(h) && k < |h.cos| &&
    exists p, cubes | ExtractedFrom(p, cubes, |h.cis|) :: DenotesEdge(h, h.cos[k], p) && list == AllLits(cubes, i, m)
  }

  /** Collapse one cofactor through its decision diagrams and restrict it to its assignments. */
  method CollapseCofactorBdd(g: Aig, h: Aig, i: nat, m: nat) returns (ok: bool, r: TwoLvl)
    requires WellFormedAig(g) && |g.cis| <= WIDTH && m <= |g.cis| && CofactorOf(h, g, i, m)
    ensures ok <==> HandlesDefined(h)
    ensures ok ==> |r.cubes| == |g.cos|
    ensures ok ==> forall k | 0 <= k < |g.cos| ::
      CofactorSum(g, i, m, k, false, r.cubes[k]) && FromDiagram(h, k, i, m, r.cubes[k])
  {
    hide XorSeq, Output, CofactorSum, WellFormedAig, AllOver, Below, EvalBdd, AllLits, CofactorOf, Ordered;
    hide DenotesEdge, ExtractedFrom, HandlesDefined;
    r := TwoLvl(UNDEF, 0, []);
    CofactorShape(h, g, i, m);
    var bdds;
    ok, bdds := AigToBdd.AigToBdd(h);
    if ok {
      forall k | 0 <= k < |bdds| && bdds[k].Ptr? ensures Ordered(bdds[k].node, 0, |h.cis|) {
        PtrOrdered(h, h.cos[k], bdds[k]);
      }
      var ex := BddExtract(bdds, |h.cis|);
      r := AddCofactorLiterals(ex, i, m);
      forall k | 0 <= k < |g.cos|
        ensures CofactorSum(g, i, m, k, false, r.cubes[k]) && FromDiagram(h, k, i, m, r.cubes[k])
      {
        PtrSum(h, g, i, m, k, bdds[k], ex.cubes[k]);
        assert ExtractedFrom(bdds[k], ex.cubes[k], |h.cis|);
      }
    }
  }

  lemma PtrOrdered(h: Aig, e: Fanin, p: NodePtr)
    requires WellFormedAig(h) && e.id < |h.objs| && DenotesEdge(h, e, p)
    ensures p.Ptr? ==> Ordered(p.node, 0, |h.cis|)
  {
    hide Ordered, EvalBdd;
  }

  /** `EmptyHandle`: an operation met the empty handle of the constant, which leaves no result. */
  datatype BddOutcome = Collapsed(f: TwoLvl) | EmptyHandle

  /** The tool with the BDD method: for all 32 inputs the result denotes every output, unless some cofactored graph
      makes an operation meet the empty handle. That takes an output that is constant 1 in a cofactor or, without
      cofactoring, a graph with a node that uses the constant. */
  method CollapseBdd(aig: Aig, nCofactor: nat, exorcise: bool)
    returns (outcome: BddOutcome, ghost graphs: seq<Aig>, ghost parts: seq<TwoLvl>, ghost steps: seq<seq<seq<Cube>>>)
    requires WellFormedAig(aig) && |aig.cis| <= WIDTH && nCofactor <= |aig.cis|
    ensures |graphs| == Pow2(nCofactor) && forall i | 0 <= i < |graphs| :: CofactorOf(graphs[i], aig, i, nCofactor)
    ensures outcome.EmptyHandle? <==> exists i | 0 <= i < |graphs| :: !HandlesDefined(graphs[i])
    ensures outcome.EmptyHandle? ==>
      || (nCofactor == 0 && !ConstantFree(aig.objs))
      || exists i, k | 0 <= i < Pow2(nCofactor) && 0 <= k < |aig.cos| :: AlwaysTrue(aig, i, nCofactor, k)
    ensures outcome.Collapsed? ==>
      && WellFormed(outcome.f) && outcome.f.nInputs == |aig.cis| && |outcome.f.cubes| == |aig.cos|
      && forall k, a | 0 <= k < |aig.cos| :: XorSeq(outcome.f.cubes[k], a) == Output(aig, k, a)
    ensures outcome.Collapsed? ==> |parts| == |graphs| && forall i | 0 <= i < |parts| :: |parts[i].cubes| == |aig.cos|
    ensures outcome.Collapsed? ==> forall i, k | 0 <= i < |parts| && 0 <= k < |aig.cos| ::
      CofactorSum(aig, i, nCofactor, k, false, parts[i].cubes[k]) && FromDiagram(graphs[i], k, i, nCofactor, parts[i].cubes[k])
    ensures outcome.Collapsed? ==> Stitched(steps, parts, outcome.f, exorcise)
    ensures outcome.Collapsed? && exorcise ==>
      forall k | 0 <= k < |aig.cos| :: MinimalForm(outcome.f.cubes[k], Below(|aig.cis|))
  {
    hide XorSeq, Output, CofactorOf, CofactorSum, WellFormedAig, AllOver, Below, HandlesDefined, ConstantFree;
    hide WellFormed, AlwaysTrue, Stitched, MinimalForm, FromDiagram;
    parts, steps := [], [];
    var count := Pow2(nCofactor);
    var cfAigs := new Aig[count](_ => aig);
    for i := 0 to count
      invariant forall q | 0 <= q < i :: CofactorOf(cfAigs[q], aig, q, nCofactor)
      invariant forall q | 0 <= q < i :: if nCofactor == 0 then cfAigs[q] == aig else ConstantFree(cfAigs[q].objs)
    {
      cfAigs[i] := Cofactor(aig, i, nCofactor);
    }
    graphs := cfAigs[..];
    var cfResults: seq<TwoLvl> := [];
    for i := 0 to count
      invariant |cfResults| == i && cfAigs[..] == graphs
      invariant forall q | 0 <= q < i :: HandlesDefined(graphs[q])
      invariant forall q | 0 <= q < i :: |cfResults[q].cubes| == |aig.cos|
      invariant forall q, k | 0 <= q < i && 0 <= k < |aig.cos| ::
        CofactorSum(aig, q, nCofactor, k, false, cfResults[q].cubes[k])
      invariant forall q, k | 0 <= q < i && 0 <= k < |aig.cos| ::
        FromDiagram(graphs[q], k, q, nCofactor, cfResults[q].cubes[k])
    {
      assert cfAigs[i] == graphs[i];
      var ok, r := CollapseCofactorBdd(aig, cfAigs[i], i, nCofactor);
      if !ok {
        EmptyMeansConstant(graphs[i], aig, i, nCofactor);
        return EmptyHandle, graphs, parts, steps;
      }
      cfResults := cfResults + [r];
    }
    parts := cfResults;
    var result;
    result, steps := Stitch(aig, cfResults, nCofactor, exorcise, {});
    outcome := Collapsed(result);
  }

  /** The output is constant 1 in the cofactor. */
  ghost predicate AlwaysTrue(g: Aig, i: nat, m: nat, k: nat)
    requires WellFormedAig(g) && k < |g.cos|
  {
    forall a :: Output(g, k, Fixed(a, i, m))
  }

  lemma EmptyMeansConstant(h: Aig, g: Aig, i: nat, m: nat)
    requires WellFormedAig(g) && CofactorOf(h, g, i, m) && !HandlesDefined(h)
    requires if m == 0 then h == g else ConstantFree(h.objs)
    ensures (m == 0 && !ConstantFree(g.objs)) || exists k | 0 <= k < |g.cos| :: AlwaysTrue(g, i, m, k)
  {
    hide Fixed, Cone, ConstantFree;
    if ConstantFree(h.objs) {
      var k :| 0 <= k < |h.cos| && h.cos[k] == Fanin(0, true);
      forall a ensures Output(g, k, Fixed(a, i, m)) {
        assert Output(h, k, a) == Output(g, k, Fixed(a, i, m));
        assert !Value(h.objs, 0, a);
      }
      assert AlwaysTrue(g, i, m, k);
    }
  }

  /** The `--check` option compares the input with the result read back as a graph: outputs agree unless they flip. */
  method CollapseAndCheck(aig: Aig, nCofactor: nat, exorcise: bool)
    returns (resultAig: Aig, ghost sums: seq<seq<Cube>>, ghost flipped: set<nat>)
    requires WellFormedAig(aig) && |aig.cis| <= WIDTH && nCofactor <= |aig.cis|
    ensures WellFormedAig(resultAig) && |resultAig.cis| == |aig.cis| && |resultAig.cos| == |aig.cos|
    ensures forall k, a | 0 <= k < |aig.cos| ::
      Output(resultAig, k, a) == (Output(aig, k, a) != (k in flipped && AllNegative(a)))
    ensures if nCofactor == 0 then FlippedBy(aig, sums, flipped) else flipped == {}
    ensures |aig.cis| < WIDTH ==> flipped == {}
  {
    hide XorSeq, Output, WellFormedAig, WellFormed, AllNegative, FlippedBy;
    var result;
    ghost var parts, steps;
    result, sums, flipped, parts, steps := Collapse(aig, nCofactor, exorcise);
    resultAig := EsopToAig.EsopToAig(result);
  }
}
