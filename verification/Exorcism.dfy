/** The ESOP minimiser: speculative ExorLink replacements over bucketed cubes and two queues of cube pairs. */
module Exorcism {
  import opened Bits
  import opened Cube32
  import opened Esop
  import opened CubeLinks
  import opened TwoLvl32
  import opened ExorcismRuns

  const MAX_DIST: nat := 3

  /** The buckets hold exactly the cubes of `s`, each in the bucket of its literal count. */
  ghost predicate Indexes(buckets: seq<set<Cube>>, s: set<Cube>) {
    && (forall c | c in s :: NLits(c) < |buckets| && c in buckets[NLits(c)])
    && (forall i, c | 0 <= i < |buckets| && c in buckets[i] :: c in s && NLits(c) == i)
  }

  lemma LiteralBound(c: Cube, n: nat)
    requires Over(c, Below(n))
    ensures NLits(c) <= n
  {
    hide Has;
    SubsetSize(Support(c), Below(n));
  }

  /** Searching the buckets n-3..n+3 finds every cube within distance 3. */
  lemma ScanWindow(c: Cube, x: Cube)
    requires Canonical(c) && Canonical(x) && Distance(c, x) <= MAX_DIST
    ensures NLits(c) - MAX_DIST <= NLits(x) <= NLits(c) + MAX_DIST
  {
    hide Has, Distance, NLits;
    LiteralCountGap(c, x);
  }

  // ---- The index ----

  lemma IndexInsert(buckets: seq<set<Cube>>, s: set<Cube>, c: Cube)
    requires Indexes(buckets, s) && NLits(c) < |buckets|
    ensures Indexes(buckets[NLits(c) := buckets[NLits(c)] + {c}], s + {c})
  {
    hide NLits;
  }

  lemma IndexErase(buckets: seq<set<Cube>>, s: set<Cube>, c: Cube)
    requires Indexes(buckets, s) && c in s
    ensures NLits(c) < |buckets| && c in buckets[NLits(c)]
    ensures Indexes(buckets[NLits(c) := buckets[NLits(c)] - {c}], s - {c})
  {
    hide NLits;
  }

  // ---- The scan for neighbours ----

  /** What is known when the cubes `seen` have been compared with `c`. */
  ghost predicate Scanned(c: Cube, seen: set<Cube>, tmp2: seq<Pair>, tmp3: seq<Pair>, vs: set<nat>) {
    && FarFrom(c, seen)
    && QueueOf(tmp2, 2, vs) && QueueOf(tmp3, 3, vs)
    && NewPairs(tmp2, c, seen, 2) && NewPairs(tmp3, c, seen, 3)
  }

  lemma ScanStart(c: Cube, vs: set<nat>)
    ensures Scanned(c, {}, [], [], vs)
  {
  }

  lemma ScanStep(c: Cube, seen: set<Cube>, tmp2: seq<Pair>, tmp3: seq<Pair>, vs: set<nat>, x: Cube)
    requires Scanned(c, seen, tmp2, tmp3, vs) && Over(c, vs) && Over(x, vs) && Distance(c, x) >= 2 && x !in seen
    ensures Distance(c, x) == 2 ==> Scanned(c, seen + {x}, tmp2 + [(c, x)], tmp3, vs)
    ensures Distance(c, x) == 3 ==> Scanned(c, seen + {x}, tmp2, tmp3 + [(c, x)], vs)
    ensures Distance(c, x) > 3 ==> Scanned(c, seen + {x}, tmp2, tmp3, vs)
  {
    hide Distance, Over, QueueOf;
    QueueStep(tmp2, 2, vs, c, x);
    QueueStep(tmp3, 3, vs, c, x);
  }

  lemma QueueStep(q: seq<Pair>, dist: nat, vs: set<nat>, c: Cube, x: Cube)
    requires QueueOf(q, dist, vs) && Over(c, vs) && Over(x, vs)
    ensures Distance(c, x) == dist ==> QueueOf(q + [(c, x)], dist, vs)
  {
    hide Distance, Over;
  }

  lemma QueueConcat(q: seq<Pair>, r: seq<Pair>, dist: nat, vs: set<nat>)
    requires QueueOf(q, dist, vs) && QueueOf(r, dist, vs)
    ensures QueueOf(q + r, dist, vs)
  {
    hide Distance, Over;
  }

  /** The cubes of `s` with at least `lo` and fewer than `hi` literals. */
  ghost function Window(s: set<Cube>, lo: nat, hi: nat): set<Cube> {
    set x | x in s && lo <= NLits(x) < hi
  }

  lemma WindowStep(buckets: seq<set<Cube>>, s: set<Cube>, lo: nat, i: nat)
    requires Indexes(buckets, s) && lo <= i < |buckets|
    ensures Window(s, lo, i) + buckets[i] == Window(s, lo, i + 1)
  {
    hide NLits;
  }

  lemma WindowApart(buckets: seq<set<Cube>>, s: set<Cube>, lo: nat, i: nat)
    requires Indexes(buckets, s) && i < |buckets|
    ensures Window(s, lo, i) !! buckets[i]
  {
    hide NLits;
  }

  lemma SeenStep(seen: set<Cube>, bucket: set<Cube>, rest: set<Cube>, x: Cube)
    requires rest <= bucket && x in rest
    ensures seen + (bucket - (rest - {x})) == seen + (bucket - rest) + {x}
  {
  }

  lemma BucketOver(buckets: seq<set<Cube>>, s: set<Cube>, i: nat, vs: set<nat>)
    requires Indexes(buckets, s) && i < |buckets| && SetOver(s, vs)
    ensures buckets[i] <= s && SetOver(buckets[i], vs)
  {
    hide NLits, Over;
  }

  /** After the scan of its window, a cube's relation to the whole set is known. */
  lemma ScanComplete(c: Cube, s: set<Cube>, lo: nat, hi: nat, n: nat, tmp2: seq<Pair>, tmp3: seq<Pair>)
    requires Over(c, Below(n)) && SetOver(s, Below(n))
    requires lo == if NLits(c) < MAX_DIST then 0 else NLits(c) - MAX_DIST
    requires hi == if n < NLits(c) + MAX_DIST then n else NLits(c) + MAX_DIST
    requires Scanned(c, Window(s, lo, hi + 1), tmp2, tmp3, Below(n))
    ensures FarFrom(c, s)
    ensures QueueOf(tmp2, 2, Below(n)) && QueueOf(tmp3, 3, Below(n))
    ensures NewPairs(tmp2, c, s, 2) && NewPairs(tmp3, c, s, 3)
  {
    hide Distance, NLits, Has, QueueOf;
    var seen := Window(s, lo, hi + 1);
    forall x | x in s && Distance(c, x) <= MAX_DIST ensures x in seen {
      ScanWindow(c, x);
      LiteralBound(x, n);
    }
    forall p ensures p in tmp2 <==> p.0 == c && p.1 in s && Distance(c, p.1) == 2 {
      assert p in tmp2 <==> p.0 == c && p.1 in seen && Distance(c, p.1) == 2;
    }
    forall p ensures p in tmp3 <==> p.0 == c && p.1 in s && Distance(c, p.1) == 3 {
      assert p in tmp3 <==> p.0 == c && p.1 in seen && Distance(c, p.1) == 3;
    }
  }

  lemma SeparatedInsert(s: set<Cube>, c: Cube, vs: set<nat>)
    requires Separated(s) && SetOver(s, vs) && Over(c, vs) && FarFrom(c, s)
    ensures Separated(s + {c}) && SetOver(s + {c}, vs) && c !in s
  {
    hide Distance, Has;
    DistanceZero(c, c);
    forall x | x in s ensures Distance(x, c) == Distance(c, x) {
      DistanceSymmetric(x, c);
    }
  }

  lemma SubsetKeeps(s: set<Cube>, t: set<Cube>, vs: set<nat>)
    requires t <= s
    ensures Separated(s) ==> Separated(t)
    ensures SetOver(s, vs) ==> SetOver(t, vs)
  {
    hide Distance, Over;
  }

  lemma NotFar(c: Cube, x: Cube, s: set<Cube>)
    requires x in s && Distance(c, x) < 2
    ensures !FarFrom(c, s)
  {
  }

  lemma MergedToggles(s: set<Cube>, t: set<Cube>, c: Cube, x: Cube, merged: Cube)
    requires x in s && Toggled(s - {x}, t, merged)
    requires forall a :: Eval(merged, a) == (Eval(c, a) != Eval(x, a))
    ensures Toggled(s, t, c)
  {
    hide Eval, XorSet;
    RemoveToggles(s, x);
  }

  // ---- Replacing a pair ----

  /** `t` denotes the exclusive or of `s`, `c` and `d`. */
  ghost predicate PairAdded(s: set<Cube>, t: set<Cube>, c: Cube, d: Cube) {
    forall a :: XorSet(t, a) == (XorSet(s, a) != (Eval(c, a) != Eval(d, a)))
  }

  lemma Link2Facts(c: Cube, d: Cube, g: nat, vs: set<nat>)
    requires Over(c, vs) && Over(d, vs) && Distance(c, d) == 2 && g < 2
    ensures |CUBE_GROUPS2[g]| == 4
    ensures var r := Link(c, d, 2, CUBE_GROUPS2[g]);
      && Over(r[0], vs) && Over(r[1], vs)
      && forall a :: (Eval(r[0], a) != Eval(r[1], a)) == (Eval(c, a) != Eval(d, a))
  {
    hide Distance, Over, Link, Follows, Eval;
    Groups2Follow(g);
    LinkPreserves(c, d, 2, CUBE_GROUPS2[g], ORDERS2[g], vs);
    var r := Link(c, d, 2, CUBE_GROUPS2[g]);
    assert r == [] + [r[0]] + [r[1]];
    forall a ensures (Eval(r[0], a) != Eval(r[1], a)) == XorSeq(r, a) {
      XorAppend([r[0]], r[1], a);
      XorAppend([], r[0], a);
      assert [] + [r[0]] == [r[0]];
    }
  }

  lemma TwoToggles(s: set<Cube>, t: set<Cube>, u: set<Cube>, e: Cube, f: Cube, c: Cube, d: Cube)
    requires Toggled(s, t, e) && Toggled(t, u, f)
    requires forall a :: (Eval(e, a) != Eval(f, a)) == (Eval(c, a) != Eval(d, a))
    ensures PairAdded(s, u, c, d)
  {
    hide Eval, XorSet;
  }

  lemma PairReplaced(s: set<Cube>, t: set<Cube>, c: Cube, d: Cube)
    requires c in s && d in s && c != d && PairAdded(s - {c, d}, t, c, d)
    ensures SameFunction(s, t)
  {
    hide Eval, XorSet;
    RemoveToggles(s, c);
    RemoveToggles(s - {c}, d);
    assert s - {c} - {d} == s - {c, d};
  }

  lemma Apart(c: Cube, d: Cube, s: set<Cube>, vs: set<nat>)
    requires c in s && d in s && SetOver(s, vs) && Separated(s) && Distance(c, d) > 0
    ensures c != d && Over(c, vs) && Over(d, vs)
    ensures s - {c, d} + {c} <= s && s - {c, d} + {c} + {d} == s
    ensures Separated(s - {c, d} + {c}) && |s - {c, d}| == |s| - 2
  {
    hide Distance, Has;
    DistanceZero(c, d);
    assert |s - {c} - {d}| == |s| - 2;
    assert s - {c} - {d} == s - {c, d};
  }

  class ExorcismMngr {
    const nVars: nat
    var buckets: seq<set<Cube>>
    var pairs2: seq<Pair>
    var pairs3: seq<Pair>
    var tmp2: seq<Pair>
    var tmp3: seq<Pair>
    var bookmark2: nat
    var bookmark3: nat
    /** The cubes held in the buckets. */
    ghost var cubes: set<Cube>
    /** The pairs that ExorLink-3 has dropped as stuck. */
    ghost var dropped: set<Pair>
    /** What was held before each cube of the original list was added, and after the last one. */
    ghost var built: seq<Stock>

    ghost function Holds(): Stock
      reads this`cubes, this`pairs2, this`pairs3
    {
      Stock(cubes, pairs2, pairs3)
    }

    ghost predicate Valid()
      reads this`buckets, this`cubes, this`pairs2, this`pairs3
    {
      && |buckets| == nVars + 1
      && Indexes(buckets, cubes)
      && SetOver(cubes, Below(nVars))
      && Separated(cubes)
      && QueueOf(pairs2, 2, Below(nVars))
      && QueueOf(pairs3, 3, Below(nVars))
    }

    /** No pair at distance 2 is missing from its queue, and none at distance 3 but those dropped. */
    ghost predicate Covered()
      reads this`cubes, this`pairs2, this`pairs3, this`dropped
    {
      Complete(cubes, pairs2, 2, {}) && Complete(cubes, pairs3, 3, dropped)
    }

    /** `add_cube`: cancel `c` against an equal cube, or merge it with a neighbour and add the result, or
        else (when `add` is set) store it; queue its pairs at distance 2 and 3 unless it was absorbed. */
    method AddCube(c: Cube, add: bool) returns (gain: nat)
      requires Valid() && Over(c, Below(nVars))
      modifies this
      ensures Valid() && unchanged(`bookmark2, `bookmark3, `dropped, `built)
      ensures gain == 0 <==> FarFrom(c, old(cubes))
      ensures gain == 0 ==> cubes == if add then old(cubes) + {c} else old(cubes)
      ensures add || gain > 0 ==> AddStep(old(Holds()), Holds(), c)
      ensures !add && gain == 0 ==> Probe(old(Holds()), Holds(), c)
      ensures add || gain > 0 ==> Toggled(old(cubes), cubes, c) && |cubes| + gain == |old(cubes)| + 1
      ensures old(pairs2) <= pairs2 && old(pairs3) <= pairs3
      ensures Complete(old(cubes), old(pairs2), 2, {}) ==> Complete(cubes, pairs2, 2, {})
      ensures Complete(old(cubes), old(pairs3), 3, dropped) ==> Complete(cubes, pairs3, 3, dropped)
      decreases |cubes|, 1
    {
      hide Distance, NLits, Over, Toggled, FarFrom, QueueOf, Complete, Separated, Indexes, Below, SetOver, NewPairs, AddStep, Appended;
      var found, x := Scan(c);
      if !found {
        Settle(c, add);
        gain := 0;
      } else if Distance(c, x) == 1 {
        gain := MergeInto(c, x);
      } else {
        gain := Cancel(c, x);
      }
    }

    /** The bucket scan of `add_cube`: it stops at the first cube that `c` merges or cancels with, and otherwise
        has collected every pair of `c` at distance 2 and 3. */
    method Scan(c: Cube) returns (found: bool, x: Cube)
      requires Valid() && Over(c, Below(nVars))
      modifies this`tmp2, this`tmp3
      ensures found ==> x in cubes && Distance(c, x) <= 1
      ensures !found ==> FarFrom(c, cubes)
      ensures !found ==> QueueOf(tmp2, 2, Below(nVars)) && QueueOf(tmp3, 3, Below(nVars))
      ensures !found ==> NewPairs(tmp2, c, cubes, 2) && NewPairs(tmp3, c, cubes, 3)
    {
      hide Distance, NLits, Over, FarFrom, Scanned, QueueOf, Separated, Indexes, Window, Below, SetOver, NewPairs;
      tmp2 := [];
      tmp3 := [];
      LiteralBound(c, nVars);
      var nLits := NLits(c);
      var begin := if nLits < MAX_DIST then 0 else nLits - MAX_DIST;
      var end := if nVars < nLits + MAX_DIST then nVars else nLits + MAX_DIST;
      ghost var vs := Below(nVars);
      ghost var seen: set<Cube> := {};
      ScanStart(c, vs);
      EmptyWindow(cubes, begin);
      for i := begin to end + 1
        invariant seen == Window(cubes, begin, i)
        invariant Scanned(c, seen, tmp2, tmp3, vs)
      {
        WindowStep(buckets, cubes, begin, i);
        WindowApart(buckets, cubes, begin, i);
        BucketOver(buckets, cubes, i, vs);
        found, x := ScanBucket(c, buckets[i], seen);
        if found {
          return;
        }
        seen := seen + buckets[i];
      }
      ScanComplete(c, cubes, begin, end, nVars, tmp2, tmp3);
      return false, c;
    }

    /** The cubes of one bucket, in any order. */
    method ScanBucket(c: Cube, bucket: set<Cube>, ghost seen: set<Cube>) returns (found: bool, x: Cube)
      requires Over(c, Below(nVars)) && SetOver(bucket, Below(nVars)) && seen !! bucket
      requires Scanned(c, seen, tmp2, tmp3, Below(nVars))
      modifies this`tmp2, this`tmp3
      ensures found ==> x in bucket && Distance(c, x) <= 1
      ensures !found ==> Scanned(c, seen + bucket, tmp2, tmp3, Below(nVars))
    {
      hide Distance, Over, Scanned, Below;
      var rest := bucket;
      assert seen + (bucket - rest) == seen;
      while rest != {}
        invariant rest <= bucket && Scanned(c, seen + (bucket - rest), tmp2, tmp3, Below(nVars))
        decreases rest
      {
        x :| x in rest;
        var dist := Distance(c, x);
        if dist <= 1 {
          return true, x;
        }
        ScanStep(c, seen + (bucket - rest), tmp2, tmp3, Below(nVars), x);
        SeenStep(seen, bucket, rest, x);
        rest := rest - {x};
        if dist <= MAX_DIST {
          if dist == 2 { tmp2 := tmp2 + [(c, x)]; } else { tmp3 := tmp3 + [(c, x)]; }
        }
      }
      assert bucket - rest == bucket;
      return false, c;
    }

    /** A neighbour at distance 1: it leaves its bucket and the merged cube is added. */
    method MergeInto(c: Cube, x: Cube) returns (gain: nat)
      requires Valid() && Over(c, Below(nVars)) && x in cubes && Distance(c, x) == 1
      modifies this
      ensures Valid() && unchanged(`bookmark2, `bookmark3, `dropped, `built)
      ensures gain > 0 && !FarFrom(c, old(cubes)) && AddStep(old(Holds()), Holds(), c)
      ensures Toggled(old(cubes), cubes, c) && |cubes| + gain == |old(cubes)| + 1
      ensures old(pairs2) <= pairs2 && old(pairs3) <= pairs3
      ensures Complete(old(cubes), old(pairs2), 2, {}) ==> Complete(cubes, pairs2, 2, {})
      ensures Complete(old(cubes), old(pairs3), 3, dropped) ==> Complete(cubes, pairs3, 3, dropped)
      decreases |cubes|, 0
    {
      hide Distance, NLits, Over, Merge, Toggled, FarFrom, QueueOf, Complete, Separated, Indexes, Below, AddStep;
      var merged := Merge(c, x);
      MergeIsXor(c, x, Below(nVars));
      NotFar(c, x, cubes);
      CompleteShrinks(cubes, cubes - {x}, pairs2, [], 2, {});
      CompleteShrinks(cubes, cubes - {x}, pairs3, [], 3, dropped);
      Erase(x);
      gain := AddCube(merged, true);
      MergedToggles(old(cubes), cubes, c, x, merged);
      AbsorbedAdds(old(Holds()), Holds(), c, x);
      gain := gain + 1;
    }

    /** An equal cube: both vanish. */
    method Cancel(c: Cube, x: Cube) returns (gain: nat)
      requires Valid() && Over(c, Below(nVars)) && x in cubes && Distance(c, x) == 0
      modifies this`buckets, this`cubes, this`tmp2
      ensures Valid() && gain == 2 && !FarFrom(c, old(cubes)) && AddStep(old(Holds()), Holds(), c)
      ensures Toggled(old(cubes), cubes, c) && |cubes| + gain == |old(cubes)| + 1
      ensures Complete(old(cubes), pairs2, 2, {}) ==> Complete(cubes, pairs2, 2, {})
      ensures Complete(old(cubes), pairs3, 3, dropped) ==> Complete(cubes, pairs3, 3, dropped)
    {
      hide Distance, NLits, Over, Toggled, FarFrom, QueueOf, Complete, Separated, Indexes, Below, AddStep;
      NotFar(c, x, cubes);
      CompleteShrinks(cubes, cubes - {x}, pairs2, [], 2, {});
      CompleteShrinks(cubes, cubes - {x}, pairs3, [], 3, dropped);
      OverIsCanonical(c, Below(nVars));
      OverIsCanonical(x, Below(nVars));
      DistanceZero(c, x);
      RemoveToggles(cubes, c);
      Erase(x);
      AbsorbedAdds(old(Holds()), Holds(), c, x);
      tmp2 := [];
      gain := 2;
    }

    /** The end of `add_cube`: store the cube if asked to, and flush the two temporary queues. */
    method Settle(c: Cube, add: bool)
      requires Valid() && Over(c, Below(nVars)) && FarFrom(c, cubes)
      requires QueueOf(tmp2, 2, Below(nVars)) && QueueOf(tmp3, 3, Below(nVars))
      requires NewPairs(tmp2, c, cubes, 2) && NewPairs(tmp3, c, cubes, 3)
      modifies this`buckets, this`cubes, this`pairs2, this`pairs3
      ensures Valid() && cubes == if add then old(cubes) + {c} else old(cubes)
      ensures if add then AddStep(old(Holds()), Holds(), c) else Probe(old(Holds()), Holds(), c)
      ensures add ==> Toggled(old(cubes), cubes, c) && |cubes| == |old(cubes)| + 1
      ensures pairs2 == old(pairs2) + tmp2 && pairs3 == old(pairs3) + tmp3
      ensures Complete(old(cubes), old(pairs2), 2, {}) ==> Complete(cubes, pairs2, 2, {})
      ensures Complete(old(cubes), old(pairs3), 3, dropped) ==> Complete(cubes, pairs3, 3, dropped)
    {
      hide Distance, NLits, Over, Toggled, FarFrom, QueueOf, Complete, Separated, Indexes, Below, SetOver, PairsOf;
      hide AddStep, Appended;
      QueueConcat(pairs2, tmp2, 2, Below(nVars));
      QueueConcat(pairs3, tmp3, 3, Below(nVars));
      SeparatedInsert(cubes, c, Below(nVars));
      InsertToggles(cubes, c);
      CompleteInsert(cubes, pairs2, c, tmp2, Below(nVars), 2, {});
      CompleteInsert(cubes, pairs3, c, tmp3, Below(nVars), 3, dropped);
      CompleteShrinks(cubes, cubes, pairs2, tmp2, 2, {});
      CompleteShrinks(cubes, cubes, pairs3, tmp3, 3, dropped);
      ghost var before := Holds();
      if add {
        Insert(c);
      }
      pairs2 := pairs2 + tmp2;
      pairs3 := pairs3 + tmp3;
      QueuesAppended(before, Holds(), c, tmp2, tmp3);
      if add { StoredAdds(before, Holds(), c); }
    }

    /** `m_cubes[n_lits].erase(c)`. */
    method Erase(c: Cube)
      requires Valid() && c in cubes
      modifies this`buckets, this`cubes
      ensures Valid() && cubes == old(cubes) - {c}
    {
      hide Distance, NLits, Over, QueueOf, Separated, SetOver, Indexes, Below;
      IndexErase(buckets, cubes, c);
      SubsetKeeps(cubes, cubes - {c}, Below(nVars));
      buckets := buckets[NLits(c) := buckets[NLits(c)] - {c}];
      cubes := cubes - {c};
    }

    /** `m_cubes[n_lits].insert(c)`. */
    method Insert(c: Cube)
      requires Valid() && Over(c, Below(nVars)) && SetOver(cubes + {c}, Below(nVars)) && Separated(cubes + {c})
      modifies this`buckets, this`cubes
      ensures Valid() && cubes == old(cubes) + {c}
    {
      hide Distance, NLits, Over, QueueOf, Separated, Indexes, Below;
      LiteralBound(c, nVars);
      IndexInsert(buckets, cubes, c);
      buckets := buckets[NLits(c) := buckets[NLits(c)] + {c}];
      cubes := cubes + {c};
    }

    // ---- Bookmark and rollback ----

    method PairsBookmark()
      modifies this`bookmark2, this`bookmark3
      ensures bookmark2 == |pairs2| && bookmark3 == |pairs3|
    {
      bookmark2 := |pairs2|;
      bookmark3 := |pairs3|;
    }

    method PairsRollback()
      requires Valid() && bookmark2 <= |pairs2| && bookmark3 <= |pairs3|
      modifies this`pairs2, this`pairs3
      ensures Valid()
      ensures pairs2 == old(pairs2)[..bookmark2] && pairs3 == old(pairs3)[..bookmark3]
    {
      hide Distance, Over, Separated, Indexes, Below, SetOver;
      pairs2 := pairs2[..bookmark2];
      pairs3 := pairs3[..bookmark3];
    }

    method NCubes() returns (n: nat)
      requires Valid()
      ensures n == |cubes|
    {
      hide Distance, NLits, Over, QueueOf, Separated, Below, SetOver;
      n := 0;
      EmptyWindow(cubes, 0);
      for i := 0 to |buckets|
        invariant n == |Window(cubes, 0, i)|
      {
        WindowStep(buckets, cubes, 0, i);
        assert Window(cubes, 0, i) !! buckets[i];
        n := n + |buckets[i]|;
      }
      assert Window(cubes, 0, |buckets|) == cubes;
    }

    // ---- ExorLink-2 ----

    /** One group of an ExorLink-2 attempt: probe either cube and, if it is absorbed, add the other. */
    method TryGroup2(cube0: Cube, cube1: Cube, g: nat) returns (done: bool)
      requires Valid() && g < 2
      requires Over(cube0, Below(nVars)) && Over(cube1, Below(nVars)) && Distance(cube0, cube1) == 2
      modifies this
      ensures Valid() && unchanged(`bookmark2, `bookmark3, `dropped, `built)
      ensures old(pairs2) <= pairs2 && old(pairs3) <= pairs3
      ensures Complete(old(cubes), old(pairs2), 2, {}) ==> Complete(cubes, pairs2, 2, {})
      ensures Complete(old(cubes), old(pairs3), 3, dropped) ==> Complete(cubes, pairs3, 3, dropped)
      ensures done ==> Group2(old(Holds()), Holds(), cube0, cube1, g)
      ensures done ==> PairAdded(old(cubes), cubes, cube0, cube1) && |cubes| <= |old(cubes)| + 1
      ensures !done ==> cubes == old(cubes)
      ensures done <==> !GroupBlocked(old(cubes), cube0, cube1, 2, CUBE_GROUPS2[g])
    {
      hide Distance, NLits, Over, Toggled, FarFrom, QueueOf, Complete, Separated, Indexes, Below, SetOver, Link;
      hide Follows, PairAdded, AddStep, Group2, Appended;
      Groups2Follow(g);
      Link2Facts(cube0, cube1, g, Below(nVars));
      var n := Exorlink(cube0, cube1, 2, CUBE_GROUPS2[g]);
      ghost var rows := Link(cube0, cube1, 2, CUBE_GROUPS2[g]);
      assert n[0] == n[..2][0] == rows[0] && n[1] == n[..2][1] == rows[1];
      ghost var s, m := cubes, Holds();
      var gain := AddCube(n[0], false);
      if gain > 0 {
        ghost var t, u := cubes, Holds();
        var _ := AddCube(n[1], true);
        TwoToggles(s, t, cubes, n[0], n[1], cube0, cube1);
        GroupAdded2(m, u, Holds(), cube0, cube1, g);
        return true;
      }
      ghost var p := Holds();
      gain := AddCube(n[1], false);
      if gain > 0 {
        ghost var t, u := cubes, Holds();
        var _ := AddCube(n[0], true);
        TwoToggles(s, t, cubes, n[1], n[0], cube0, cube1);
        GroupProbed2(m, p, u, Holds(), cube0, cube1, g);
        return true;
      }
      return false;
    }

    /** Take both cubes of a pair out of their buckets and remember the queue lengths. */
    method TakePair(cube0: Cube, cube1: Cube)
      requires Valid() && cube0 in cubes && cube1 in cubes && cube0 != cube1
      modifies this`buckets, this`cubes, this`bookmark2, this`bookmark3
      ensures Valid() && cubes == old(cubes) - {cube0, cube1}
      ensures bookmark2 == |pairs2| && bookmark3 == |pairs3|
    {
      hide Distance, NLits, Over, QueueOf, Separated, Indexes, Below, SetOver;
      Erase(cube0);
      Erase(cube1);
      PairsBookmark();
    }

    /** Put both cubes of a failed attempt back. */
    method PutBackPair(cube0: Cube, cube1: Cube, ghost s: set<Cube>)
      requires Valid() && cubes == s - {cube0, cube1} && cube0 in s && cube1 in s && Distance(cube0, cube1) > 0
      requires Separated(s) && SetOver(s, Below(nVars))
      modifies this`buckets, this`cubes
      ensures Valid() && cubes == s
    {
      hide Distance, NLits, Over, QueueOf, Separated, Indexes, Below;
      Apart(cube0, cube1, s, Below(nVars));
      Insert(cube0);
      Insert(cube1);
    }

    /** One attempt of ExorLink-2 on two stored cubes, whose pair has just left the queue. */
    method AttemptLink2(cube0: Cube, cube1: Cube) returns (reshaped: bool)
      requires Valid() && cube0 in cubes && cube1 in cubes && Distance(cube0, cube1) == 2
      requires Complete(cubes - {cube0, cube1}, pairs2, 2, {}) && Complete(cubes, pairs3, 3, dropped)
      modifies this
      ensures Valid() && unchanged(`dropped)
      ensures reshaped ==> SameFunction(old(cubes), cubes) && |cubes| < |old(cubes)|
      ensures reshaped ==> Replaced2(old(Holds()), Holds(), cube0, cube1)
      ensures reshaped ==> old(pairs2) <= pairs2 && Covered()
      ensures !reshaped ==> Holds() == old(Holds()).(pairs2 := old(pairs2) + [(cube0, cube1)])
      ensures reshaped <==> !Stuck2(old(cubes), cube0, cube1)
    {
      hide Distance, NLits, Over, Toggled, FarFrom, QueueOf, Complete, Separated, Indexes, Below, Link;
      hide PairAdded, GroupBlocked, SameFunction, SetOver, Group2;
      ghost var s, m := cubes, Holds();
      Apart(cube0, cube1, s, Below(nVars));
      CompleteShrinks(s, s - {cube0, cube1}, pairs3, [], 3, dropped);
      TakePair(cube0, cube1);
      assert Holds() == Taken(m, cube0, cube1);
      var done := TryGroup2(cube0, cube1, 0);
      if !done {
        PairsRollback();
        assert Holds() == Taken(m, cube0, cube1);
        done := TryGroup2(cube0, cube1, 1);
      }
      if done {
        PairReplaced(s, cubes, cube0, cube1);
        return true;
      }
      PutBackPair(cube0, cube1, s);
      PairsRollback();
      assert Holds() == m;
      QueueStep(pairs2, 2, Below(nVars), cube0, cube1);
      pairs2 := pairs2 + [(cube0, cube1)];
      return false;
    }

    /** The loop body of the ExorLink-2 pass: pop the front pair and, unless it is stale, attempt it. */
    method HandleFront2()
      requires Valid() && Covered() && pairs2 != []
      modifies this
      ensures Valid() && Covered() && unchanged(`dropped)
      ensures Step2(old(Holds()), Holds()) && Effect2(old(cubes), cubes, old(pairs2))
      ensures old(pairs2)[1..] <= pairs2
    {
      hide Distance, NLits, Over, FarFrom, QueueOf, Complete, Separated, Indexes, Below, SetOver, Stuck2, SameFunction;
      hide Replaced2;
      var cubePair := pairs2[0];
      PopQueue(pairs2, 2, Below(nVars));
      CompletePop(cubes, pairs2, 2, {});
      pairs2 := pairs2[1..];
      var cube0, cube1 := cubePair.0, cubePair.1;
      LiteralBound(cube0, nVars);
      LiteralBound(cube1, nVars);
      InBucket(buckets, cubes, cube0);
      InBucket(buckets, cubes, cube1);
      if cube0 in buckets[NLits(cube0)] && cube1 in buckets[NLits(cube1)] {
        var _ := AttemptLink2(cube0, cube1);
      }
    }

    /** What the buckets hold now. */
    lemma HoldableNow()
      requires Valid()
      ensures Holdable(cubes, Below(nVars))
    {
      hide QueueOf, Separated, SetOver, Indexes, Below;
    }

    /** One pass of ExorLink-2 over the pairs that are queued when it starts; returns the cubes saved.
        `states` records what is held before each of these pairs and at the end. */
    method Exorlink2() returns (gain: nat, ghost states: seq<Stock>)
      requires Valid() && Covered()
      modifies this
      ensures Valid() && Covered() && unchanged(`dropped)
      ensures Pass2(states, Below(nVars)) && states[0] == old(Holds()) && states[|states| - 1] == Holds()
      ensures SameFunction(old(cubes), cubes)
      ensures |cubes| + gain == |old(cubes)|
      ensures gain == 0 ==> cubes == old(cubes) && LocallyOptimal(cubes)
    {
      hide Valid, Complete, Stuck2, SameFunction, Steps2, Step2, Effect2, StuckSoFar, LocallyOptimal, Holdable, Below;
      var oldSize := NCubes();
      var nPairs := |pairs2|;
      ghost var s, q := cubes, pairs2;
      states := [Holds()];
      SameRefl(s);
      HoldableNow();
      Steps2Start(Holds(), Below(nVars));
      assert q[..0] == [];
      for i := 0 to nPairs
        invariant Valid() && Covered() && unchanged(`dropped) && SameFunction(s, cubes)
        invariant q[i..] <= pairs2
        invariant Steps2(states, Below(nVars)) && |states| == i + 1
        invariant states[0] == old(Holds()) && states[i] == Holds()
        invariant |cubes| <= |s| && (|cubes| == |s| ==> cubes == s && StuckSoFar(s, q[..i]))
      {
        ghost var m := Holds();
        assert q[i..][0] == q[i] && q[i..][1..] == q[i + 1..];
        HandleFront2();
        assert q[..i + 1] == q[..i] + [m.pairs2[0]];
        HoldableNow();
        Steps2More(states, Holds(), Below(nVars));
        Effect2Chain(s, m.cubes, cubes, q[..i], m.pairs2);
        states := states + [Holds()];
      }
      var currSize := NCubes();
      assert q[..nPairs] == q;
      if currSize == oldSize {
        OptimalWhenAllStuck(s, q);
      }
      return oldSize - currSize, states;
    }

    // ---- ExorLink-3 ----

    /** `n[j]` has been absorbed: add the other two cubes of its group. */
    method AddOthers(n: seq<Cube>, j: nat, ghost s: set<Cube>)
      requires Valid() && j < 3 <= |n| && AllOver(n[..3], Below(nVars))
      requires Toggled(s, cubes, n[j])
      modifies this
      ensures Valid() && unchanged(`bookmark2, `bookmark3, `dropped, `built)
      ensures InTurn(old(Holds()), Holds(), n[FirstOther(j)], n[SecondOther(j)])
      ensures RowsAdded(s, cubes, n[..3]) && |cubes| <= |old(cubes)| + 2
      ensures old(pairs2) <= pairs2 && old(pairs3) <= pairs3
      ensures Complete(old(cubes), old(pairs2), 2, {}) ==> Complete(cubes, pairs2, 2, {})
      ensures Complete(old(cubes), old(pairs3), 3, dropped) ==> Complete(cubes, pairs3, 3, dropped)
    {
      hide Distance, NLits, Over, FarFrom, QueueOf, Complete, Separated, Indexes, Below, SetOver, Toggled, RowsAdded;
      hide AddStep, Appended;
      ghost var t := cubes;
      ghost var m, mid := Holds(), Holds();
      PartStart(s, t, n, j);
      for k := 0 to 3
        invariant Valid() && unchanged(`bookmark2, `bookmark3, `dropped, `built)
        invariant PartAdded(s, cubes, n, j, k)
        invariant k <= FirstOther(j) ==> Holds() == m
        invariant FirstOther(j) < k <= SecondOther(j) ==> Holds() == mid
        invariant FirstOther(j) < k ==> AddStep(m, mid, n[FirstOther(j)])
        invariant SecondOther(j) < k ==> AddStep(mid, Holds(), n[SecondOther(j)])
        invariant |cubes| <= |t| + k - (if j < k then 1 else 0)
        invariant old(pairs2) <= pairs2 && old(pairs3) <= pairs3
        invariant Complete(old(cubes), old(pairs2), 2, {}) ==> Complete(cubes, pairs2, 2, {})
        invariant Complete(old(cubes), old(pairs3), 3, dropped) ==> Complete(cubes, pairs3, 3, dropped)
      {
        ghost var u := cubes;
        if j != k {
          assert n[k] == n[..3][k];
          var _ := AddCube(n[k], true);
          if k == FirstOther(j) { mid := Holds(); }
        }
        PartStep(s, u, cubes, n, j, k);
      }
      PartEnd(s, cubes, n, j);
    }

    /** The search over the six groups and their three cubes each. */
    method TryGroups3(cube0: Cube, cube1: Cube) returns (found: bool)
      requires Valid() && bookmark2 == |pairs2| && bookmark3 == |pairs3|
      requires Over(cube0, Below(nVars)) && Over(cube1, Below(nVars)) && Distance(cube0, cube1) == 3
      modifies this
      ensures Valid() && unchanged(`dropped)
      ensures old(pairs2) <= pairs2 && old(pairs3) <= pairs3
      ensures Complete(old(cubes), old(pairs2), 2, {}) ==> Complete(cubes, pairs2, 2, {})
      ensures Complete(old(cubes), old(pairs3), 3, dropped) ==> Complete(cubes, pairs3, 3, dropped)
      ensures found ==> exists g: nat | g < 6 && Group3(old(Holds()), Holds(), cube0, cube1, g) ::
        forall h: nat | h < g :: GroupBlocked(old(cubes), cube0, cube1, 3, CUBE_GROUPS3[h])
      ensures found ==> PairAdded(old(cubes), cubes, cube0, cube1) && |cubes| <= |old(cubes)| + 2
      ensures !found ==> unchanged(`pairs2, `pairs3, `cubes)
      ensures found <==> exists g :: 0 <= g < 6 && !GroupBlocked(old(cubes), cube0, cube1, 3, CUBE_GROUPS3[g])
    {
      hide Distance, NLits, Over, FarFrom, QueueOf, Complete, Separated, Indexes, Below, SetOver, Toggled, Link;
      hide Follows, PairAdded, RowsAdded, AllOver, AddStep, Group3, InTurn, Appended;
      for g := 0 to 6
        invariant Valid() && unchanged(`pairs2, `pairs3, `cubes, `bookmark2, `bookmark3, `dropped, `built)
        invariant forall h | 0 <= h < g :: GroupBlocked(cubes, cube0, cube1, 3, CUBE_GROUPS3[h])
      {
        Groups3Follow(g);
        Link3Facts(cube0, cube1, g, Below(nVars));
        var n := Exorlink(cube0, cube1, 3, CUBE_GROUPS3[g]);
        ghost var rows := Link(cube0, cube1, 3, CUBE_GROUPS3[g]);
        assert forall k: nat | k < 3 :: n[k] == n[..3][k] == rows[k];
        for j := 0 to 3
          invariant Valid() && unchanged(`pairs2, `pairs3, `cubes, `bookmark2, `bookmark3, `dropped, `built)
          invariant forall k | 0 <= k < j :: FarFrom(rows[k], cubes)
        {
          RowsOver(n[..3], Below(nVars), j);
          assert n[j] == rows[j];
          var gain := AddCube(n[j], false);
          if gain >= 1 {
            ghost var u := Holds();
            AddOthers(n, j, old(cubes));
            RowsMakePair(old(cubes), cubes, n[..3], cube0, cube1);
            assert n[FirstOther(j)] == rows[FirstOther(j)] && n[SecondOther(j)] == rows[SecondOther(j)];
            GroupAdded3(old(Holds()), u, Holds(), cube0, cube1, g, j);
            assert !GroupBlocked(old(cubes), cube0, cube1, 3, CUBE_GROUPS3[g]);
            return true;
          }
          PairsRollback();
          assert pairs2 == old(pairs2) && pairs3 == old(pairs3);
        }
      }
      return false;
    }

    /** One attempt of ExorLink-3 on two stored cubes; a pair that fails is not queued again. */
    method AttemptLink3(cube0: Cube, cube1: Cube) returns (reshaped: bool)
      requires Valid() && cube0 in cubes && cube1 in cubes && Distance(cube0, cube1) == 3
      requires Complete(cubes, pairs2, 2, {}) && Complete(cubes - {cube0, cube1}, pairs3, 3, dropped)
      modifies this
      ensures Valid() && Complete(cubes, pairs2, 2, {}) && unchanged(`dropped) && old(pairs3) <= pairs3
      ensures reshaped ==> Replaced3(old(Holds()), Holds(), cube0, cube1) && Complete(cubes, pairs3, 3, dropped)
      ensures reshaped ==> SameFunction(old(cubes), cubes) && |cubes| <= |old(cubes)|
      ensures !reshaped ==> Holds() == old(Holds())
      ensures reshaped <==> !Stuck3(old(cubes), cube0, cube1)
    {
      hide Distance, NLits, Over, FarFrom, QueueOf, Complete, Separated, Indexes, Below, SetOver, Toggled, Link;
      hide PairAdded, GroupBlocked, SameFunction, Group3;
      ghost var s, m := cubes, Holds();
      Apart(cube0, cube1, s, Below(nVars));
      CompleteShrinks(s, s - {cube0, cube1}, pairs2, [], 2, {});
      TakePair(cube0, cube1);
      assert Holds() == Taken(m, cube0, cube1);
      reshaped := TryGroups3(cube0, cube1);
      if reshaped {
        PairReplaced(s, cubes, cube0, cube1);
      } else {
        PutBackPair(cube0, cube1, s);
      }
    }

    /** The loop body of the ExorLink-3 pass. */
    method HandleFront3()
      requires Valid() && Covered() && pairs3 != []
      modifies this
      ensures Valid() && Covered()
      ensures dropped == old(dropped) + DroppedNow(old(Holds()))
      ensures Step3(old(Holds()), Holds()) && Effect3(old(cubes), cubes, old(pairs3))
      ensures old(pairs3)[1..] <= pairs3
    {
      hide Distance, NLits, Over, FarFrom, QueueOf, Complete, Separated, Indexes, Below, SetOver, Stuck3, SameFunction;
      hide Replaced3;
      var cubePair := pairs3[0];
      PopQueue(pairs3, 3, Below(nVars));
      CompletePop(cubes, pairs3, 3, dropped);
      pairs3 := pairs3[1..];
      var cube0, cube1 := cubePair.0, cubePair.1;
      LiteralBound(cube0, nVars);
      LiteralBound(cube1, nVars);
      InBucket(buckets, cubes, cube0);
      InBucket(buckets, cubes, cube1);
      if cube0 in buckets[NLits(cube0)] && cube1 in buckets[NLits(cube1)] {
        var reshaped := AttemptLink3(cube0, cube1);
        if !reshaped { dropped := dropped + {cubePair}; }
      }
    }

    /** One pass of ExorLink-3 over the pairs that are queued when it starts; returns the cubes saved. Afterwards every
        pair at distance 3 is queued, or was dropped as stuck in this pass or an earlier one. */
    method Exorlink3() returns (gain: nat, ghost states: seq<Stock>)
      requires Valid() && Covered()
      modifies this
      ensures Valid() && Covered() && dropped == old(dropped) + DroppedIn(states)
      ensures Pass3(states, Below(nVars)) && states[0] == old(Holds()) && states[|states| - 1] == Holds()
      ensures SameFunction(old(cubes), cubes)
      ensures |cubes| + gain == |old(cubes)|
    {
      hide Valid, Complete, Stuck3, SameFunction, Steps3, Step3, Effect3, Holdable, Below, DroppedIn, DroppedNow;
      var oldSize := NCubes();
      var nPairs := |pairs3|;
      ghost var s, q := cubes, pairs3;
      states := [Holds()];
      SameRefl(s);
      HoldableNow();
      Steps3Start(Holds(), Below(nVars));
      for i := 0 to nPairs
        invariant Valid() && Covered() && SameFunction(s, cubes)
        invariant dropped == old(dropped) + DroppedIn(states)
        invariant q[i..] <= pairs3
        invariant Steps3(states, Below(nVars)) && |states| == i + 1
        invariant states[0] == old(Holds()) && states[i] == Holds()
        invariant |cubes| <= |s|
      {
        ghost var m := Holds();
        assert q[i..][0] == q[i] && q[i..][1..] == q[i + 1..];
        HandleFront3();
        HoldableNow();
        Steps3More(states, Holds(), Below(nVars));
        Effect3Chain(s, m.cubes, cubes, m.pairs3);
        states := states + [Holds()];
      }
      var currSize := NCubes();
      return oldSize - currSize, states;
    }

    // ---- The whole run ----

    constructor (original: seq<Cube>, n: nat)
      requires AllOver(original, Below(n))
      ensures Valid() && nVars == n && Covered() && dropped == {}
      ensures Built(original, built) && built[|original|] == Holds()
      ensures Denotes(cubes, original)
      ensures |cubes| <= |original|
    {
      hide Distance, NLits, Over, FarFrom, QueueOf, Toggled, Below, Denotes, Complete, Separated, Indexes, SetOver;
      hide AddStep;
      nVars := n;
      buckets := seq(n + 1, _ => {});
      pairs2, pairs3, tmp2, tmp3 := [], [], [], [];
      bookmark2, bookmark3 := 0, 0;
      cubes, dropped := {}, {};
      built := [Stock({}, [], [])];
      new;
      NothingStored(buckets, Below(n));
      for i := 0 to |original|
        invariant Valid() && Covered() && dropped == {}
        invariant Built(original[..i], built) && built[i] == Holds()
        invariant Denotes(cubes, original[..i])
        invariant |cubes| <= i
      {
        ghost var s := cubes;
        var _ := AddCube(original[i], true);
        assert original[..i + 1] == original[..i] + [original[i]];
        DenotesStep(s, cubes, original[..i], original[i]);
        BuiltMore(original[..i], built, original[i], Holds());
        built := built + [Holds()];
      }
      assert original[..|original|] == original;
    }

    /** An ExorLink-2 pass and an ExorLink-3 pass, recorded in `passes`; returns their total gain. When that is zero,
        the first of them found its set locally optimal. */
    method BothPasses() returns (gain: nat, ghost passes: seq<seq<Stock>>)
      requires Valid() && Covered()
      modifies this
      ensures Valid() && Covered()
      ensures |passes| == 2 && Chain(passes, old(Holds()), Holds(), Below(nVars))
      ensures SameFunction(old(cubes), cubes)
      ensures |cubes| + gain == |old(cubes)|
      ensures gain == 0 ==> Settled(passes[1], Holds(), Below(nVars))
    {
      hide Valid, Complete, SameFunction, LocallyOptimal, Steps2, Steps3, Settled, Below, Chain;
      var gain2, states2 := Exorlink2();
      ghost var between := cubes;
      var gain3, states3 := Exorlink3();
      SameTrans(old(cubes), between, cubes);
      gain := gain2 + gain3;
      passes := [states2, states3];
      PassNotEmpty(states2, states3, Below(nVars));
      ChainOfTwo(states2, states3, Below(nVars));
      if gain == 0 { PassSettles(states3, Below(nVars)); }
    }

    /** The body of the loop in `run`: both passes six times over. */
    method Round() returns (gain: nat, ghost passes: seq<seq<Stock>>)
      requires Valid() && Covered()
      modifies this
      ensures Valid() && Covered()
      ensures |passes| == 12 && Chain(passes, old(Holds()), Holds(), Below(nVars))
      ensures SameFunction(old(cubes), cubes)
      ensures |cubes| + gain == |old(cubes)|
      ensures gain == 0 ==> Settled(passes[11], Holds(), Below(nVars))
    {
      hide Valid, Complete, SameFunction, Settled, Below, Chain;
      ghost var s, m := cubes, Holds();
      var gain1, p1 := BothPasses();
      passes := p1;
      ghost var m1 := Holds();
      var gain2, p2 := BothPasses();
      SameTrans(s, m1.cubes, cubes);
      ChainConcat(passes, p2, m, m1, Holds(), Below(nVars));
      passes := passes + p2;
      ghost var m2 := Holds();
      var gain3, p3 := BothPasses();
      SameTrans(s, m2.cubes, cubes);
      ChainConcat(passes, p3, m, m2, Holds(), Below(nVars));
      passes := passes + p3;
      ghost var m3 := Holds();
      var gain4, p4 := BothPasses();
      SameTrans(s, m3.cubes, cubes);
      ChainConcat(passes, p4, m, m3, Holds(), Below(nVars));
      passes := passes + p4;
      ghost var m4 := Holds();
      var gain5, p5 := BothPasses();
      SameTrans(s, m4.cubes, cubes);
      ChainConcat(passes, p5, m, m4, Holds(), Below(nVars));
      passes := passes + p5;
      ghost var m5 := Holds();
      var gain6, p6 := BothPasses();
      SameTrans(s, m5.cubes, cubes);
      ChainConcat(passes, p6, m, m5, Holds(), Below(nVars));
      passes := passes + p6;
      gain := gain1 + gain2 + gain3 + gain4 + gain5 + gain6;
    }

    /** Rounds until three in a row save nothing; the result lists the cubes bucket by bucket. */
    method Run() returns (result: seq<Cube>, ghost rounds: nat, ghost passes: seq<seq<Stock>>)
      requires Valid() && Covered()
      modifies this
      ensures Valid() && Covered()
      ensures Chain(passes, old(Holds()), Holds(), Below(nVars)) && Rounds(passes, Holds(), rounds)
      ensures |passes| > 0 && Settled(passes[|passes| - 1], Holds(), Below(nVars))
      ensures NoRepeats(result) && CubesOf(result) == cubes
      ensures Denotes(old(cubes), result)
      ensures |result| <= |old(cubes)|
      ensures AllOver(result, Below(nVars)) && Separated(CubesOf(result))
      ensures rounds <= 3 * (|old(cubes)| + 1)
    {
      hide Valid, Covered, Over, Below, XorSet, XorSeq, Separated, SetOver, AllOver;
      hide SameFunction, Denotes, Settled, Chain, Rounds, RoundsSoFar;
      var withoutImprov := 0;
      rounds := 0;
      passes := [];
      ghost var m := Holds();
      SameRefl(cubes);
      EmptyChain(m, Below(nVars));
      var first := true;
      while first || withoutImprov <= 2
        invariant Valid() && Covered()
        invariant SameFunction(old(cubes), cubes) && |cubes| <= |old(cubes)|
        invariant Chain(passes, m, Holds(), Below(nVars)) && RoundsSoFar(passes, Holds(), rounds, withoutImprov)
        invariant withoutImprov <= 3 && withoutImprov <= rounds && (first ==> withoutImprov == 0)
        invariant |passes| == 12 * rounds
        invariant withoutImprov > 0 ==> Settled(passes[|passes| - 1], Holds(), Below(nVars))
        invariant rounds <= 3 * (|old(cubes)| - |cubes|) + withoutImprov
        decreases |cubes|, 3 - withoutImprov
      {
        first := false;
        ghost var s, k := cubes, Holds();
        var gain, more := Round();
        SameTrans(old(cubes), s, cubes);
        RoundMore(passes, more, m, k, Holds(), rounds, withoutImprov, Below(nVars));
        ChainConcat(passes, more, m, k, Holds(), Below(nVars));
        passes := passes + more;
        rounds := rounds + 1;
        withoutImprov := if gain > 0 then 0 else withoutImprov + 1;
      }
      RoundsDone(passes, Holds(), rounds);
      result := Listed();
      ListDenotes(old(cubes), cubes, result);
      HoldableNow();
      ListOver(result, cubes, Below(nVars));
    }

    method Listed() returns (result: seq<Cube>)
      requires Valid()
      ensures NoRepeats(result) && CubesOf(result) == cubes && |result| == |cubes|
    {
      hide Distance, NLits, Over, QueueOf, Separated, Below, SetOver;
      result := [];
      EmptyWindow(cubes, 0);
      for i := 0 to |buckets|
        invariant NoRepeats(result) && CubesOf(result) == Window(cubes, 0, i)
      {
        WindowStep(buckets, cubes, 0, i);
        assert Window(cubes, 0, i) !! buckets[i];
        var rest := buckets[i];
        while rest != {}
          invariant rest <= buckets[i]
          invariant NoRepeats(result) && CubesOf(result) == Window(cubes, 0, i) + (buckets[i] - rest)
          decreases rest
        {
          var c :| c in rest;
          rest := rest - {c};
          assert c !in CubesOf(result);
          assert CubesOf(result + [c]) == CubesOf(result) + {c};
          result := result + [c];
        }
      }
      assert Window(cubes, 0, |buckets|) == cubes;
      NoRepeatsSize(result);
    }
  }

  /** Minimise every output on its own. */
  method Exorcise(original: TwoLvl) returns (result: TwoLvl)
    requires CubesWithin(original)
    ensures CubesWithin(result)
    ensures result.kind == original.kind && result.nInputs == original.nInputs
    ensures |result.cubes| == |original.cubes|
    ensures forall k | 0 <= k < |result.cubes| ::
      Minimised(original.cubes[k], result.cubes[k], Below(original.nInputs)) && Improved(original.cubes[k], result.cubes[k])
  {
    hide XorSeq, XorSet, Separated, AllOver, Below, Minimised, Improved, Chain, Rounds, Settled, Built;
    var ret: seq<seq<Cube>> := [];
    for i := 0 to |original.cubes|
      invariant |ret| == i
      invariant forall k | 0 <= k < i ::
        && AllOver(ret[k], Below(original.nInputs))
        && Minimised(original.cubes[k], ret[k], Below(original.nInputs))
        && Improved(original.cubes[k], ret[k])
    {
      var exor := new ExorcismMngr(original.cubes[i], original.nInputs);
      ghost var built, start := exor.built, exor.cubes;
      var esop, rounds, passes := exor.Run();
      RunMinimises(original.cubes[i], esop, Log(built, passes, rounds, exor.Holds()), Below(original.nInputs));
      RunImproves(original.cubes[i], start, esop);
      ret := ret + [esop];
    }
    result := TwoLvl(original.kind, original.nInputs, ret);
  }

  /** The same function with no more cubes. */
  ghost predicate Improved(list: seq<Cube>, result: seq<Cube>) {
    |result| <= |list| && forall a :: XorSeq(result, a) == XorSeq(list, a)
  }

  lemma RunMinimises(list: seq<Cube>, result: seq<Cube>, log: Log, vs: set<nat>)
    requires Built(list, log.built) && Chain(log.passes, log.built[|list|], log.final, vs)
    requires Rounds(log.passes, log.final, log.rounds) && |log.passes| > 0
    requires Settled(log.passes[|log.passes| - 1], log.final, vs)
    requires NoRepeats(result) && CubesOf(result) == log.final.cubes
    ensures Minimised(list, result, vs)
  {
    hide Built, Chain, Settled;
    assert Logged(log, list, result, vs);
  }

  lemma RunImproves(list: seq<Cube>, start: set<Cube>, result: seq<Cube>)
    requires Denotes(start, list) && Denotes(start, result) && |result| <= |start| <= |list|
    ensures Improved(list, result)
  {
    hide XorSet, XorSeq;
  }

  /** The set denotes the same function as the list. */
  ghost predicate Denotes(s: set<Cube>, list: seq<Cube>) {
    forall a :: XorSet(s, a) == XorSeq(list, a)
  }

  lemma DenotesStep(s: set<Cube>, t: set<Cube>, list: seq<Cube>, c: Cube)
    requires Denotes(s, list) && Toggled(s, t, c)
    ensures Denotes(t, list + [c])
  {
    hide XorSet, XorSeq, Eval;
    forall a { XorAppend(list, c, a); }
  }

  lemma NothingStored(buckets: seq<set<Cube>>, vs: set<nat>)
    requires forall i | 0 <= i < |buckets| :: buckets[i] == {}
    ensures Indexes(buckets, {}) && SetOver({}, vs) && Separated({})
    ensures Complete({}, [], 2, {}) && Complete({}, [], 3, {})
    ensures QueueOf([], 2, vs) && QueueOf([], 3, vs)
    ensures Denotes({}, [])
  {
    hide XorSet;
    forall a ensures XorSet({}, a) == XorSeq([], a) { XorEmpty(a); }
  }

  lemma ListDenotes(s: set<Cube>, t: set<Cube>, list: seq<Cube>)
    requires SameFunction(s, t) && NoRepeats(list) && CubesOf(list) == t
    ensures Denotes(s, list)
  {
    hide XorSet, XorSeq;
    forall a { XorSeqIsXorSet(list, a); }
  }

  lemma ListOver(list: seq<Cube>, s: set<Cube>, vs: set<nat>)
    requires CubesOf(list) == s && SetOver(s, vs)
    ensures AllOver(list, vs)
  {
    hide Over;
    forall i | 0 <= i < |list| ensures Over(list[i], vs) {
      assert list[i] in CubesOf(list);
    }
  }

  // ---- Adding the rows of an ExorLink-3 group one by one ----

  /** `t` denotes the exclusive or of `s` and all the rows. */
  ghost predicate RowsAdded(s: set<Cube>, t: set<Cube>, rows: seq<Cube>) {
    forall a :: XorSet(t, a) == (XorSet(s, a) != XorSeq(rows, a))
  }

  /** `t` denotes the exclusive or of `s`, of `n[j]`, and of those among the first `k` rows that are not `n[j]`. */
  ghost predicate PartAdded(s: set<Cube>, t: set<Cube>, n: seq<Cube>, j: nat, k: nat)
    requires j < |n| && k <= |n|
  {
    forall a :: XorSet(t, a) == (XorSet(s, a) != (XorSeq(n[..k], a) != (j >= k && Eval(n[j], a))))
  }

  lemma PartStart(s: set<Cube>, t: set<Cube>, n: seq<Cube>, j: nat)
    requires j < |n| && Toggled(s, t, n[j])
    ensures PartAdded(s, t, n, j, 0)
  {
    hide XorSet, Eval;
    assert n[..0] == [];
  }

  lemma PartStep(s: set<Cube>, t: set<Cube>, u: set<Cube>, n: seq<Cube>, j: nat, k: nat)
    requires j < |n| && k < |n| && PartAdded(s, t, n, j, k)
    requires if j == k then u == t else Toggled(t, u, n[k])
    ensures PartAdded(s, u, n, j, k + 1)
  {
    hide XorSet, Eval, XorSeq;
    assert n[..k + 1] == n[..k] + [n[k]];
    forall a { XorAppend(n[..k], n[k], a); }
  }

  lemma PartEnd(s: set<Cube>, t: set<Cube>, n: seq<Cube>, j: nat)
    requires j < 3 <= |n| && PartAdded(s, t, n, j, 3)
    ensures RowsAdded(s, t, n[..3])
  {
    hide XorSet, Eval, XorSeq;
  }

  lemma RowsMakePair(s: set<Cube>, t: set<Cube>, rows: seq<Cube>, c: Cube, d: Cube)
    requires RowsAdded(s, t, rows)
    requires forall a :: XorSeq(rows, a) == (Eval(c, a) != Eval(d, a))
    ensures PairAdded(s, t, c, d)
  {
    hide XorSet, Eval, XorSeq;
  }

  lemma RowsOver(rows: seq<Cube>, vs: set<nat>, j: nat)
    requires AllOver(rows, vs) && j < |rows|
    ensures Over(rows[j], vs)
  {
  }

  lemma Link3Facts(c: Cube, d: Cube, g: nat, vs: set<nat>)
    requires Over(c, vs) && Over(d, vs) && Distance(c, d) == 3 && g < 6
    ensures |CUBE_GROUPS3[g]| == 9 && AllOver(Link(c, d, 3, CUBE_GROUPS3[g]), vs)
    ensures forall a :: XorSeq(Link(c, d, 3, CUBE_GROUPS3[g]), a) == (Eval(c, a) != Eval(d, a))
  {
    hide Distance, Over, Link, Follows, Eval;
    Groups3Follow(g);
    LinkPreserves(c, d, 3, CUBE_GROUPS3[g], ORDERS3[g], vs);
  }

  lemma InBucket(buckets: seq<set<Cube>>, s: set<Cube>, c: Cube)
    requires Indexes(buckets, s) && NLits(c) < |buckets|
    ensures c in buckets[NLits(c)] <==> c in s
  {
    hide NLits;
  }

  lemma PopQueue(q: seq<Pair>, dist: nat, vs: set<nat>)
    requires QueueOf(q, dist, vs) && q != []
    ensures Over(q[0].0, vs) && Over(q[0].1, vs) && Distance(q[0].0, q[0].1) == dist
    ensures QueueOf(q[1..], dist, vs)
  {
    hide Distance, Over;
  }

  lemma EmptyWindow(s: set<Cube>, lo: nat)
    ensures Window(s, lo, lo) == {}
  {
    hide NLits;
  }

}
