/** The ExorLink transformation: a pair of cubes at distance k becomes k cubes with the same exclusive or. */
module CubeLinks {
  import opened Bits
  import opened Cube32
  import opened Esop

  // Code 0 takes a literal from the first cube, 1 from the second, 2 the literal that is in neither.
  // Each inner list is one group of the source's flat tables.
  const CUBE_GROUPS2: seq<seq<nat>> := [
    [2, 0, 1, 2],
    [0, 2, 2, 1]]

  const CUBE_GROUPS3: seq<seq<nat>> := [
    [2, 0, 0, 1, 2, 0, 1, 1, 2],
    [2, 0, 0, 1, 0, 2, 1, 2, 1],
    [0, 2, 0, 2, 1, 0, 1, 1, 2],
    [0, 2, 0, 0, 1, 2, 2, 1, 1],
    [0, 0, 2, 2, 0, 1, 1, 2, 1],
    [0, 0, 2, 0, 2, 1, 2, 1, 1]]

  /** The pair in the order of the cubes' values. */
  function Sorted(c: Cube, d: Cube): (Cube, Cube) {
    if Precedes(d, c) then (d, c) else (c, d)
  }

  /** At a position where two cubes differ, this carries the literal of neither. */
  function Other(c: Cube, d: Cube): Cube {
    Cube(Xor(c.mask, d.mask), Nor(c.polarity, d.polarity))
  }

  /** `t` with its bit `p` replaced by the bit `p` of `s`. */
  function TakeBit(t: Word, s: Word, p: Word): Word {
    Xor(t, And(Xor(And(s, p), t), p))
  }

  function TakeLit(t: Cube, s: Cube, p: Word): Cube {
    Cube(TakeBit(t.mask, s.mask, p), TakeBit(t.polarity, s.polarity, p))
  }

  function Pick(t: Cube, d: Cube, other: Cube, p: Word, code: nat): Cube {
    if code == 1 then TakeLit(t, d, p) else if code == 2 then TakeLit(t, other, p) else t
  }

  /** One cube of a group: the positions in `pos`, lowest first, are filled as the codes say. */
  function Row(t: Cube, d: Cube, other: Cube, pos: Word, codes: seq<nat>): Cube
    decreases |codes|
  {
    if codes == [] then t
    else Row(Pick(t, d, other, LowBit(pos), codes[0]), d, other, DropLow(pos), codes[1..])
  }

  function LinkRow(c: Cube, d: Cube, codes: seq<nat>): Cube {
    var (x, y) := Sorted(c, d);
    Row(x, y, Other(x, y), Difference(c, d), codes)
  }

  function Link(c: Cube, d: Cube, dist: nat, group: seq<nat>): (r: seq<Cube>)
    requires |group| == dist * dist
    ensures |r| == dist
  {
    seq(dist, i requires 0 <= i < dist => LinkRow(c, d, CodesOf(dist, group, i)))
  }

  function CodesOf(dist: nat, group: seq<nat>, i: nat): (r: seq<nat>)
    requires |group| == dist * dist && i < dist
    ensures |r| == dist
  {
    RowInGroup(dist, i);
    group[i * dist..(i + 1) * dist]
  }

  lemma RowInGroup(dist: nat, i: nat)
    requires i < dist
    ensures 0 <= i * dist <= (i + 1) * dist <= dist * dist
    ensures (i + 1) * dist == i * dist + dist
  {
    var rest := dist - i - 1;
    assert dist * dist == (i + 1 + rest) * dist == (i + 1) * dist + rest * dist;
  }

  /** The source's loop nest over one group of codes. */
  method Exorlink(cube0: Cube, cube1: Cube, dist: nat, group: seq<nat>) returns (ret: seq<Cube>)
    requires dist <= 4 && |group| == dist * dist
    ensures |ret| == 4
    ensures ret[..dist] == Link(cube0, cube1, dist, group)
    ensures forall i | dist <= i < 4 :: ret[i] == CUBE_ONE
  {
    hide Difference, Xor, Nor, And, LowBit, DropLow, Precedes;
    var diff := Difference(cube0, cube1);
    ret := [CUBE_ONE, CUBE_ONE, CUBE_ONE, CUBE_ONE];
    var c0, c1 := cube0, cube1;
    if Precedes(cube1, cube0) {
      c0, c1 := cube1, cube0;
    }
    var cPolarity := Nor(c0.polarity, c1.polarity);
    var cMask := Xor(c0.mask, c1.mask);
    var g := 0;
    for i := 0 to dist
      invariant |ret| == 4 && forall k | i <= k < 4 :: ret[k] == CUBE_ONE
      invariant g == i * dist
      invariant forall k: nat | k < i :: ret[k] == LinkRow(cube0, cube1, CodesOf(dist, group, k))
    {
      RowInGroup(dist, i);
      ghost var codes := CodesOf(dist, group, i);
      var tmpPolarity, tmpMask, tmpPos := c0.polarity, c0.mask, diff;
      for j := 0 to dist
        invariant g == i * dist + j
        invariant Row(Cube(tmpMask, tmpPolarity), c1, Cube(cMask, cPolarity), tmpPos, codes[j..])
          == LinkRow(cube0, cube1, codes)
      {
        assert codes[j..][0] == codes[j] == group[g] && codes[j..][1..] == codes[j + 1..];
        var p := LowBit(tmpPos);
        tmpPos := DropLow(tmpPos);
        if group[g] == 1 {
          tmpPolarity := Xor(tmpPolarity, And(Xor(And(c1.polarity, p), tmpPolarity), p));
          tmpMask := Xor(tmpMask, And(Xor(And(c1.mask, p), tmpMask), p));
        } else if group[g] == 2 {
          tmpPolarity := Xor(tmpPolarity, And(Xor(And(cPolarity, p), tmpPolarity), p));
          tmpMask := Xor(tmpMask, And(Xor(And(cMask, p), tmpMask), p));
        }
        g := g + 1;
      }
      ret := ret[i := Cube(tmpMask, tmpPolarity)];
    }
  }

  // ---- What a row is, literal by literal ----

  lemma TakeBitAt(t: Word, s: Word, p: Word, v: nat)
    ensures Has(TakeBit(t, s, p), v) == if Has(p, v) then Has(s, v) else Has(t, v)
  {
    hide Has, And, Xor;
    HasAnd(s, p, v);
    HasXor(And(s, p), t, v);
    HasAnd(Xor(And(s, p), t), p, v);
    HasXor(t, And(Xor(And(s, p), t), p), v);
  }

  lemma OtherAt(c: Cube, d: Cube, v: nat)
    requires v < WIDTH && CanonicalAt(c, v) && CanonicalAt(d, v) && Lit(c, v) != Lit(d, v)
    ensures CanonicalAt(Other(c, d), v) && Lit(Other(c, d), v) == Third(Lit(c, v), Lit(d, v))
  {
    hide Has, Xor, Nor;
    HasXor(c.mask, d.mask, v);
    HasNor(c.polarity, d.polarity, v);
  }

  function Choose(code: nat, l: Literal, r: Literal, other: Literal): Literal {
    if code == 1 then r else if code == 2 then other else l
  }

  lemma PickAt(t: Cube, d: Cube, other: Cube, p: Word, code: nat, v: nat)
    requires CanonicalAt(t, v) && (Has(p, v) ==> CanonicalAt(d, v) && CanonicalAt(other, v))
    ensures CanonicalAt(Pick(t, d, other, p, code), v)
    ensures Lit(Pick(t, d, other, p, code), v) ==
      if Has(p, v) then Choose(code, Lit(t, v), Lit(d, v), Lit(other, v)) else Lit(t, v)
  {
    hide Has, TakeBit;
    TakeBitAt(t.mask, d.mask, p, v);
    TakeBitAt(t.polarity, d.polarity, p, v);
    TakeBitAt(t.mask, other.mask, p, v);
    TakeBitAt(t.polarity, other.polarity, p, v);
  }

  ghost predicate IsLeast(m: nat, s: set<nat>) {
    m in s && forall u | u in s :: m <= u
  }

  lemma {:induction false} LeastExists(s: set<nat>)
    requires s != {}
    ensures exists m: nat :: IsLeast(m, s)
    decreases |s|
  {
    var x :| x in s;
    if s - {x} == {} {
      assert s == {x};
      assert IsLeast(x, s);
    } else {
      LeastExists(s - {x});
      var m: nat :| IsLeast(m, s - {x});
      var least := if m <= x then m else x;
      forall u | u in s ensures least <= u {
        assert u == x || u in s - {x};
      }
      assert IsLeast(least, s);
    }
  }

  /** The elements of a set in increasing order. */
  ghost function Ascending(s: set<nat>): seq<nat>
    decreases |s|
  {
    if s == {} then []
    else
      LeastExists(s);
      var m: nat :| IsLeast(m, s);
      [m] + Ascending(s - {m})
  }

  lemma {:induction false} AscendingLists(s: set<nat>)
    ensures |Ascending(s)| == |s|
    ensures forall v :: v in Ascending(s) <==> v in s
    ensures forall i, j | 0 <= i < j < |Ascending(s)| :: Ascending(s)[i] < Ascending(s)[j]
    decreases |s|
  {
    hide Ascending;
    if s == {} {
      NothingAscends();
    } else {
      LeastExists(s);
      var m: nat :| IsLeast(m, s);
      AscendingStep(s, m);
      var rest := Ascending(s - {m});
      AscendingLists(s - {m});
      forall k | 0 <= k < |rest| ensures m < rest[k] {
        assert rest[k] in s - {m};
      }
    }
  }

  lemma NothingAscends()
    ensures Ascending({}) == []
  {
  }

  lemma AscendingStep(s: set<nat>, m: nat)
    requires IsLeast(m, s)
    ensures Ascending(s) == [m] + Ascending(s - {m})
  {
  }

  /** `r` carries at `ps[k]` the literal that `codes[k]` names, and agrees with `t` everywhere else. */
  ghost predicate IsRow(r: Cube, t: Cube, d: Cube, other: Cube, ps: seq<nat>, codes: seq<nat>) {
    && |ps| == |codes|
    && Canonical(r)
    && (forall v: nat | v < WIDTH && v !in ps :: Lit(r, v) == Lit(t, v))
    && (forall k | 0 <= k < |ps| ::
      Lit(r, ps[k]) == Choose(codes[k], Lit(t, ps[k]), Lit(d, ps[k]), Lit(other, ps[k])))
  }

  lemma IsRowStep(r: Cube, t: Cube, u: Cube, d: Cube, other: Cube, ps: seq<nat>, codes: seq<nat>)
    requires |ps| == |codes| > 0 && ps[0] < WIDTH
    requires forall i, j | 0 <= i < j < |ps| :: ps[i] < ps[j] < WIDTH
    requires forall v: nat | v < WIDTH && v != ps[0] :: Lit(u, v) == Lit(t, v)
    requires Lit(u, ps[0]) == Choose(codes[0], Lit(t, ps[0]), Lit(d, ps[0]), Lit(other, ps[0]))
    requires IsRow(r, u, d, other, ps[1..], codes[1..])
    ensures IsRow(r, t, d, other, ps, codes)
  {
    hide Lit, Choose, Canonical;
    forall k | 0 <= k < |ps|
      ensures Lit(r, ps[k]) == Choose(codes[k], Lit(t, ps[k]), Lit(d, ps[k]), Lit(other, ps[k]))
    {
      if k > 0 {
        assert ps[k] == ps[1..][k - 1] && codes[k] == codes[1..][k - 1];
      } else {
        assert ps[0] !in ps[1..];
      }
    }
  }

  lemma PickLiterals(t: Cube, d: Cube, other: Cube, p: Word, m: nat, code: nat)
    requires Canonical(t) && m < WIDTH && Vars(p) == {m} && CanonicalAt(d, m) && CanonicalAt(other, m)
    ensures var u := Pick(t, d, other, p, code);
      && Canonical(u)
      && Lit(u, m) == Choose(code, Lit(t, m), Lit(d, m), Lit(other, m))
      && forall v: nat | v < WIDTH && v != m :: Lit(u, v) == Lit(t, v)
  {
    hide Has, Lit, Pick, Choose;
    forall v: nat | v < WIDTH
      ensures CanonicalAt(Pick(t, d, other, p, code), v)
      ensures Lit(Pick(t, d, other, p, code), v) ==
        if v == m then Choose(code, Lit(t, v), Lit(d, v), Lit(other, v)) else Lit(t, v)
    {
      assert Has(p, v) <==> v in Vars(p);
      PickAt(t, d, other, p, code, v);
    }
  }

  /** Each position of `pos` gets the literal its code names; all others are those of `t`. */
  lemma {:induction false} RowLiterals(t: Cube, d: Cube, other: Cube, pos: Word, codes: seq<nat>)
    requires Canonical(t) && |codes| == |Vars(pos)|
    requires forall v | v in Vars(pos) :: CanonicalAt(d, v) && CanonicalAt(other, v)
    ensures IsRow(Row(t, d, other, pos, codes), t, d, other, Ascending(Vars(pos)), codes)
    decreases |codes|
  {
    hide Has, Lit, LowBit, DropLow, Pick, Choose, Canonical, CanonicalAt, Ascending, IsRow;
    AscendingLists(Vars(pos));
    if codes == [] {
      NoCodes(t, d, other, Ascending(Vars(pos)));
    } else {
      VarsEmpty(pos);
      var m := LowBitVars(pos);
      AscendingStep(Vars(pos), m);
      var u := Pick(t, d, other, LowBit(pos), codes[0]);
      PickLiterals(t, d, other, LowBit(pos), m, codes[0]);
      RowLiterals(u, d, other, DropLow(pos), codes[1..]);
      var ps := Ascending(Vars(pos));
      assert ps[1..] == Ascending(Vars(DropLow(pos)));
      forall k | 0 <= k < |ps| ensures ps[k] < WIDTH {
        assert ps[k] in Vars(pos);
      }
      IsRowStep(Row(u, d, other, DropLow(pos), codes[1..]), t, u, d, other, ps, codes);
    }
  }

  lemma NoCodes(t: Cube, d: Cube, other: Cube, ps: seq<nat>)
    requires Canonical(t) && ps == []
    ensures IsRow(t, t, d, other, ps, [])
  {
  }

  /** The literals of a row of the pair `c`, `d` with its positions in increasing order. */
  lemma LinkRowLiterals(c: Cube, d: Cube, codes: seq<nat>, vs: set<nat>)
    requires Over(c, vs) && Over(d, vs) && |codes| == Distance(c, d)
    ensures var (x, y) := Sorted(c, d); var ps := Ascending(Differing(c, d)); var r := LinkRow(c, d, codes);
      && Over(r, vs) && |ps| == |codes|
      && (forall v: nat | v < WIDTH && v !in ps :: Lit(r, v) == Lit(x, v) == Lit(y, v))
      && (forall k | 0 <= k < |ps| :: ps[k] < WIDTH && Lit(x, ps[k]) != Lit(y, ps[k]))
      && (forall k | 0 <= k < |ps| ::
        Lit(r, ps[k]) == Choose(codes[k], Lit(x, ps[k]), Lit(y, ps[k]), Third(Lit(x, ps[k]), Lit(y, ps[k]))))
  {
    hide Has, Difference, Distance, Other, Choose, Precedes, Ascending, Row, Third;
    var (x, y) := Sorted(c, d);
    var other := Other(x, y);
    var ps := Ascending(Differing(c, d));
    var r := LinkRow(c, d, codes);
    DistanceCounts(c, d);
    AscendingLists(Differing(c, d));
    forall v | v in Differing(c, d)
      ensures v < WIDTH && Lit(x, v) != Lit(y, v) && CanonicalAt(y, v)
      ensures CanonicalAt(other, v) && Lit(other, v) == Third(Lit(x, v), Lit(y, v))
    {
      assert CanonicalAt(x, v) && CanonicalAt(y, v);
      OtherAt(x, y, v);
    }
    RowLiterals(x, y, other, Difference(c, d), codes);
    forall k | 0 <= k < |ps| ensures ps[k] in Differing(c, d) {
      assert ps[k] in ps;
    }
    RowSupport(r, x, y, vs);
  }

  lemma RowSupport(r: Cube, x: Cube, y: Cube, vs: set<nat>)
    requires Over(x, vs) && Over(y, vs) && Canonical(r)
    requires forall v: nat | v < WIDTH && Lit(x, v) == Lit(y, v) :: Lit(r, v) == Lit(x, v)
    ensures Over(r, vs)
  {
    hide Has;
    forall v | v in Support(r) ensures v in vs {
      assert Lit(r, v) != Absent;
      assert v in Support(x) || v in Support(y);
    }
  }

  // ---- Groups as paths from the first cube to the second ----

  /** `js` lists every position below `dist` once. */
  ghost predicate IsOrder(js: seq<nat>, dist: nat) {
    && |js| == dist
    && (forall i | 0 <= i < dist :: js[i] < dist)
    && (forall k: nat | k < dist :: k in js)
    && (forall i, j | 0 <= i < j < dist :: js[i] != js[j])
  }

  /** The positions visited in the first `i` steps are those of the second cube, the rest of the first. */
  ghost function StateCodes(js: seq<nat>, i: nat): seq<nat>
    requires i <= |js|
  {
    seq(|js|, k => if k in js[..i] then 1 else 0)
  }

  /** The codes of step `i`: position `js[i]` moves from the first cube's literal to the second's. */
  ghost function StepCodes(js: seq<nat>, i: nat): seq<nat>
    requires i < |js|
  {
    seq(|js|, k => if k == js[i] then 2 else if k in js[..i] then 1 else 0)
  }

  /** The group visits the positions in the order `js`. */
  ghost predicate Follows(dist: nat, group: seq<nat>, js: seq<nat>)
    requires |group| == dist * dist
  {
    IsOrder(js, dist) && forall i: nat | i < dist :: CodesOf(dist, group, i) == StepCodes(js, i)
  }

  lemma StepIsThird(c: Cube, d: Cube, js: seq<nat>, i: nat, vs: set<nat>)
    requires Over(c, vs) && Over(d, vs) && IsOrder(js, Distance(c, d)) && i < |js|
    ensures var from, to := LinkRow(c, d, StateCodes(js, i)), LinkRow(c, d, StateCodes(js, i + 1));
      forall a :: Eval(LinkRow(c, d, StepCodes(js, i)), a) == (Eval(from, a) != Eval(to, a))
  {
    hide Has, Lit, Eval, LinkRow, Distance, Third, Sorted, Ascending;
    var ps := Ascending(Differing(c, d));
    AscendingLists(Differing(c, d));
    LinkRowLiterals(c, d, StateCodes(js, i), vs);
    LinkRowLiterals(c, d, StateCodes(js, i + 1), vs);
    LinkRowLiterals(c, d, StepCodes(js, i), vs);
    assert js[..i + 1] == js[..i] + [js[i]];
    var r0, r1, r := LinkRow(c, d, StateCodes(js, i)), LinkRow(c, d, StateCodes(js, i + 1)), LinkRow(c, d, StepCodes(js, i));
    forall u: nat | u < WIDTH && u != ps[js[i]] ensures Lit(r0, u) == Lit(r1, u) == Lit(r, u) {
      if k: nat :| k < |ps| && ps[k] == u {
        assert k != js[i];
      }
    }
    forall a { ThreeXor(r0, r1, r, ps[js[i]], a); }
  }

  lemma LinkAt(c: Cube, d: Cube, dist: nat, group: seq<nat>, js: seq<nat>, i: nat)
    requires |group| == dist * dist && Follows(dist, group, js) && i < dist
    ensures |js| == dist && Link(c, d, dist, group)[i] == LinkRow(c, d, StepCodes(js, i))
  {
  }

  lemma PathEnds(c: Cube, d: Cube, js: seq<nat>, vs: set<nat>)
    requires Over(c, vs) && Over(d, vs) && IsOrder(js, Distance(c, d))
    ensures LinkRow(c, d, StateCodes(js, 0)) == Sorted(c, d).0
    ensures LinkRow(c, d, StateCodes(js, |js|)) == Sorted(c, d).1
  {
    hide Has, Lit, LinkRow, Distance, Third, Precedes, Ascending;
    var ps := Ascending(Differing(c, d));
    assert js[..0] == [] && js[..|js|] == js;
    LinkRowLiterals(c, d, StateCodes(js, 0), vs);
    LinkRowLiterals(c, d, StateCodes(js, |js|), vs);
    LiteralsDetermineCube(LinkRow(c, d, StateCodes(js, 0)), Sorted(c, d).0);
    LiteralsDetermineCube(LinkRow(c, d, StateCodes(js, |js|)), Sorted(c, d).1);
  }

  /** The sum of the first `i` cubes telescopes to the two ends of the path walked so far. */
  lemma {:induction false} PathXor(c: Cube, d: Cube, dist: nat, group: seq<nat>, js: seq<nat>, i: nat,
      vs: set<nat>, a: Assignment)
    requires Over(c, vs) && Over(d, vs) && Distance(c, d) == dist
    requires |group| == dist * dist && Follows(dist, group, js) && i <= dist
    ensures XorSeq(Link(c, d, dist, group)[..i], a)
      == (Eval(LinkRow(c, d, StateCodes(js, 0)), a) != Eval(LinkRow(c, d, StateCodes(js, i)), a))
  {
    hide Has, LinkRow, Distance, Eval, StateCodes, StepCodes, CodesOf, Link;
    var rows := Link(c, d, dist, group);
    if i > 0 {
      PathXor(c, d, dist, group, js, i - 1, vs, a);
      assert rows[..i] == rows[..i - 1] + [rows[i - 1]];
      XorAppend(rows[..i - 1], rows[i - 1], a);
      LinkAt(c, d, dist, group, js, i - 1);
      StepIsThird(c, d, js, i - 1, vs);
    }
  }

  /** A group that walks the differing positions in any order replaces a pair by cubes with the same sum. */
  lemma LinkPreserves(c: Cube, d: Cube, dist: nat, group: seq<nat>, js: seq<nat>, vs: set<nat>)
    requires Over(c, vs) && Over(d, vs) && Distance(c, d) == dist
    requires |group| == dist * dist && Follows(dist, group, js)
    ensures AllOver(Link(c, d, dist, group), vs)
    ensures forall a :: XorSeq(Link(c, d, dist, group), a) == (Eval(c, a) != Eval(d, a))
  {
    hide Has, LinkRow, Distance, Eval, StateCodes, Precedes, Lit, CodesOf;
    var rows := Link(c, d, dist, group);
    forall i | 0 <= i < |rows| ensures Over(rows[i], vs) {
      LinkRowLiterals(c, d, CodesOf(dist, group, i), vs);
    }
    PathEnds(c, d, js, vs);
    forall a ensures XorSeq(rows, a) == (Eval(c, a) != Eval(d, a)) {
      assert rows[..dist] == rows;
      PathXor(c, d, dist, group, js, dist, vs, a);
    }
  }

  // ---- The tables ----

  const ORDERS2: seq<seq<nat>> := [[0, 1], [1, 0]]
  const ORDERS3: seq<seq<nat>> := [[0, 1, 2], [0, 2, 1], [1, 0, 2], [1, 2, 0], [2, 0, 1], [2, 1, 0]]

  lemma GroupRows2(group: seq<nat>)
    requires |group| == 4
    ensures CodesOf(2, group, 0) == [group[0], group[1]]
    ensures CodesOf(2, group, 1) == [group[2], group[3]]
  {
  }

  lemma StepCodes2(a: nat, b: nat)
    requires a < 2 && b < 2 && a != b
    ensures StepCodes([a, b], 0) == if a == 0 then [2, 0] else [0, 2]
    ensures StepCodes([a, b], 1) == if a == 0 then [1, 2] else [2, 1]
  {
    var js := [a, b];
    assert js[..0] == [] && js[..1] == [a];
  }

  lemma FollowsOrder2(group: seq<nat>, a: nat, b: nat)
    requires |group| == 4 && a < 2 && b < 2 && a != b
    requires group[a] == 2 && group[b] == 0
    requires group[2 + a] == 1 && group[2 + b] == 2
    ensures Follows(2, group, [a, b])
  {
    hide CodesOf, StepCodes;
    var js := [a, b];
    assert js[0] == a && js[1] == b;
    assert a in js && b in js;
    GroupRows2(group);
    StepCodes2(a, b);
    assert CodesOf(2, group, 0) == StepCodes(js, 0);
    assert CodesOf(2, group, 1) == StepCodes(js, 1);
  }

  /** The two ExorLink-2 groups visit the two differing positions in the two possible orders. */
  lemma Groups2Follow(g: nat)
    requires g < 2
    ensures |CUBE_GROUPS2[g]| == 4 && Follows(2, CUBE_GROUPS2[g], ORDERS2[g])
  {
    hide Follows;
    FollowsOrder2(CUBE_GROUPS2[0], 0, 1);
    FollowsOrder2(CUBE_GROUPS2[1], 1, 0);
  }

  lemma GroupRows3(group: seq<nat>)
    requires |group| == 9
    ensures CodesOf(3, group, 0) == [group[0], group[1], group[2]]
    ensures CodesOf(3, group, 1) == [group[3], group[4], group[5]]
    ensures CodesOf(3, group, 2) == [group[6], group[7], group[8]]
  {
  }

  /** The codes of a row when `two` moves and the positions `ones` have moved before. */
  function RowCodes3(two: nat, ones: set<nat>): seq<nat> {
    [if two == 0 then 2 else if 0 in ones then 1 else 0,
     if two == 1 then 2 else if 1 in ones then 1 else 0,
     if two == 2 then 2 else if 2 in ones then 1 else 0]
  }

  lemma StepCodes3(a: nat, b: nat, c: nat)
    ensures StepCodes([a, b, c], 0) == RowCodes3(a, {})
    ensures StepCodes([a, b, c], 1) == RowCodes3(b, {a})
    ensures StepCodes([a, b, c], 2) == RowCodes3(c, {a, b})
  {
    var js := [a, b, c];
    assert js[..0] == [] && js[..1] == [a] && js[..2] == [a, b];
  }

  lemma FollowsOrder3(group: seq<nat>, a: nat, b: nat, c: nat)
    requires |group| == 9 && a < 3 && b < 3 && c < 3 && a != b && b != c && a != c
    requires group[a] == 2 && group[b] == 0 && group[c] == 0
    requires group[3 + a] == 1 && group[3 + b] == 2 && group[3 + c] == 0
    requires group[6 + a] == 1 && group[6 + b] == 1 && group[6 + c] == 2
    ensures Follows(3, group, [a, b, c])
  {
    hide CodesOf, StepCodes;
    var js := [a, b, c];
    assert js[0] == a && js[1] == b && js[2] == c;
    assert a in js && b in js && c in js;
    GroupRows3(group);
    StepCodes3(a, b, c);
    assert CodesOf(3, group, 0) == StepCodes(js, 0);
    assert CodesOf(3, group, 1) == StepCodes(js, 1);
    assert CodesOf(3, group, 2) == StepCodes(js, 2);
  }

  /** The six ExorLink-3 groups visit the three differing positions in the six possible orders. */
  lemma Groups3Follow(g: nat)
    requires g < 6
    ensures |CUBE_GROUPS3[g]| == 9 && Follows(3, CUBE_GROUPS3[g], ORDERS3[g])
  {
    hide Follows;
    FollowsOrder3(CUBE_GROUPS3[0], 0, 1, 2);
    FollowsOrder3(CUBE_GROUPS3[1], 0, 2, 1);
    FollowsOrder3(CUBE_GROUPS3[2], 1, 0, 2);
    FollowsOrder3(CUBE_GROUPS3[3], 1, 2, 0);
    FollowsOrder3(CUBE_GROUPS3[4], 2, 0, 1);
    FollowsOrder3(CUBE_GROUPS3[5], 2, 1, 0);
  }

  /** No order of three positions is missing from the table. */
  lemma Groups3Complete(js: seq<nat>)
    requires IsOrder(js, 3)
    ensures exists g: nat :: g < 6 && js == ORDERS3[g]
  {
    assert js == [js[0], js[1], js[2]];
    assert ORDERS3[0] == [0, 1, 2] && ORDERS3[1] == [0, 2, 1] && ORDERS3[2] == [1, 0, 2];
    assert ORDERS3[3] == [1, 2, 0] && ORDERS3[4] == [2, 0, 1] && ORDERS3[5] == [2, 1, 0];
  }

  /** `Link` does not depend on the order of its two arguments. */
  lemma LinkSymmetric(c: Cube, d: Cube, dist: nat, group: seq<nat>)
    requires |group| == dist * dist
    ensures Link(c, d, dist, group) == Link(d, c, dist, group)
  {
    hide Row, Other, CodesOf, Difference, Precedes;
    SortedSymmetric(c, d);
    DifferenceSymmetric(c, d);
    forall i: nat | i < dist
      ensures LinkRow(c, d, CodesOf(dist, group, i)) == LinkRow(d, c, CodesOf(dist, group, i))
    {
    }
  }

  /** The pair in ascending order: of the second cube and the first, the masks, or for equal masks the polarities,
      differ at the top in a digit that only the second has. */
  lemma SortedAscends(c: Cube, d: Cube)
    ensures Sorted(c, d) == (c, d) || Sorted(c, d) == (d, c)
    ensures var (x, y) := Sorted(c, d);
      x == y || (exists v: nat :: TopDigit(x.mask, y.mask, v, WIDTH)) ||
      (x.mask == y.mask && exists v: nat :: TopDigit(x.polarity, y.polarity, v, WIDTH))
  {
    hide Less, TopDigit;
    var (x, y) := Sorted(c, d);
    LessTotal(c.mask, d.mask);
    LessTotal(c.polarity, d.polarity);
    LessIff(x.mask, y.mask);
    LessIff(x.polarity, y.polarity);
  }

  lemma SortedSymmetric(c: Cube, d: Cube)
    ensures Sorted(c, d) == Sorted(d, c)
  {
    hide Number;
    LessTotal(c.mask, d.mask);
    LessTotal(c.polarity, d.polarity);
  }

  lemma DifferenceSymmetric(c: Cube, d: Cube)
    ensures Difference(c, d) == Difference(d, c)
  {
    hide Or, Xor;
    XorSymmetric(c.mask, d.mask);
    XorSymmetric(c.polarity, d.polarity);
  }
}
