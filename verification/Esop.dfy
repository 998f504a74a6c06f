/** Exclusive-or sums of cubes: their meaning, and how it follows edits of sets and sequences of cubes. */
module Esop {
  import opened Bits
  import opened Cube32

  /** The exclusive or of a set of cubes: an odd number of them is true. */
  ghost function XorSet(s: set<Cube>, a: Assignment): bool {
    |set c | c in s && Eval(c, a)| % 2 == 1
  }

  /** The exclusive or of a list of cubes. */
  ghost function XorSeq(s: seq<Cube>, a: Assignment): bool {
    if s == [] then false else XorSeq(s[..|s| - 1], a) != Eval(s[|s| - 1], a)
  }

  function CubesOf(s: seq<Cube>): set<Cube> {
    set c | c in s
  }

  /** Two sets of cubes denote the same function. */
  ghost predicate SameFunction(s: set<Cube>, t: set<Cube>) {
    forall a :: XorSet(s, a) == XorSet(t, a)
  }

  /** `t` denotes the exclusive or of `s` and `c`. */
  ghost predicate Toggled(s: set<Cube>, t: set<Cube>, c: Cube) {
    forall a :: XorSet(t, a) == (XorSet(s, a) != Eval(c, a))
  }

  ghost predicate NoRepeats(s: seq<Cube>) {
    forall i, j | 0 <= i < j < |s| :: s[i] != s[j]
  }

  ghost predicate AllOver(s: seq<Cube>, vs: set<nat>) {
    forall i | 0 <= i < |s| :: Over(s[i], vs)
  }

  ghost predicate SetOver(s: set<Cube>, vs: set<nat>) {
    forall c | c in s :: Over(c, vs)
  }

  lemma OverLarger(cubes: seq<Cube>, vs: set<nat>, ws: set<nat>)
    requires AllOver(cubes, vs) && vs <= ws
    ensures AllOver(cubes, ws)
  {
    hide Has, Canonical;
  }

  lemma NoCubes(a: Assignment)
    ensures !XorSeq([], a)
  {
  }

  lemma XorInsert(s: set<Cube>, c: Cube, a: Assignment)
    requires c !in s
    ensures XorSet(s + {c}, a) == (XorSet(s, a) != Eval(c, a))
  {
    hide Eval;
    var before := set d | d in s && Eval(d, a);
    var after := set d | d in s + {c} && Eval(d, a);
    if Eval(c, a) {
      assert after == before + {c};
    } else {
      assert after == before;
    }
  }

  lemma InsertToggles(s: set<Cube>, c: Cube)
    requires c !in s
    ensures Toggled(s, s + {c}, c)
  {
    hide Eval, XorSet;
    forall a { XorInsert(s, c, a); }
  }

  lemma RemoveToggles(s: set<Cube>, c: Cube)
    requires c in s
    ensures Toggled(s, s - {c}, c)
  {
    hide Eval, XorSet;
    assert s == (s - {c}) + {c};
    forall a { XorInsert(s - {c}, c, a); }
  }

  lemma XorEmpty(a: Assignment)
    ensures !XorSet({}, a)
  {
    hide Eval;
    assert (set c | c in {} && Eval(c, a)) == {};
  }

  lemma XorAppend(s: seq<Cube>, c: Cube, a: Assignment)
    ensures XorSeq(s + [c], a) == (XorSeq(s, a) != Eval(c, a))
  {
    hide Eval;
    assert (s + [c])[..|s|] == s;
  }

  lemma {:induction false} XorConcat(s: seq<Cube>, t: seq<Cube>, a: Assignment)
    ensures XorSeq(s + t, a) == (XorSeq(s, a) != XorSeq(t, a))
  {
    hide Eval;
    if t == [] {
      assert s + t == s;
    } else {
      var k := |t| - 1;
      assert s + t == (s + t[..k]) + [t[k]];
      XorAppend(s + t[..k], t[k], a);
      XorConcat(s, t[..k], a);
    }
  }

  /** A list without repetitions denotes the same function as the set of its cubes. */
  lemma {:induction false} XorSeqIsXorSet(s: seq<Cube>, a: Assignment)
    requires NoRepeats(s)
    ensures XorSeq(s, a) == XorSet(CubesOf(s), a)
  {
    hide Eval, XorSet;
    if s == [] {
      XorEmpty(a);
      assert CubesOf(s) == {};
    } else {
      var k := |s| - 1;
      var rest := CubesOf(s[..k]);
      XorSeqIsXorSet(s[..k], a);
      assert s[k] !in rest;
      assert CubesOf(s) == rest + {s[k]};
      XorInsert(rest, s[k], a);
    }
  }

  lemma {:induction false} NoRepeatsSize(list: seq<Cube>)
    requires NoRepeats(list)
    ensures |CubesOf(list)| == |list|
  {
    if list != [] {
      var k := |list| - 1;
      NoRepeatsSize(list[..k]);
      assert list[k] !in CubesOf(list[..k]);
      assert CubesOf(list) == CubesOf(list[..k]) + {list[k]};
    }
  }

  /** A set of cubes as a list, in no particular order. */
  method ListOf(s: set<Cube>) returns (result: seq<Cube>)
    ensures NoRepeats(result) && CubesOf(result) == s && |result| == |s|
  {
    result := [];
    var rest := s;
    while rest != {}
      invariant rest <= s && NoRepeats(result) && CubesOf(result) == s - rest
      decreases rest
    {
      var c :| c in rest;
      rest := rest - {c};
      assert c !in CubesOf(result);
      assert CubesOf(result + [c]) == CubesOf(result) + {c};
      result := result + [c];
    }
    NoRepeatsSize(result);
  }
}
