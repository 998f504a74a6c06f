/** What the minimiser's steps lead to, as relations between what it holds before and after, and what follows
    for whole passes and runs. */
module ExorcismRuns {
  import opened Bits
  import opened Cube32
  import opened Esop
  import opened CubeLinks

  type Pair = (Cube, Cube)

  /** No cube of `s` cancels `c` or merges with it. */
  ghost predicate FarFrom(c: Cube, s: set<Cube>) {
    forall x | x in s :: Distance(c, x) >= 2
  }

  /** No two cubes of `s` can be merged. */
  ghost predicate Separated(s: set<Cube>) {
    forall x, y | x in s && y in s && x != y :: Distance(x, y) >= 2
  }

  /** Every queued pair has the distance its queue is for. */
  ghost predicate QueueOf(q: seq<Pair>, dist: nat, vs: set<nat>) {
    forall i | 0 <= i < |q| :: Over(q[i].0, vs) && Over(q[i].1, vs) && Distance(q[i].0, q[i].1) == dist
  }

  /** `q` lists exactly the pairs of `c` with the cubes of `s` at distance `dist`. */
  ghost predicate PairsOf(q: seq<Pair>, c: Cube, s: set<Cube>, dist: nat) {
    forall p :: p in q <==> p.0 == c && p.1 in s && Distance(c, p.1) == dist
  }

  ghost predicate Queued(q: seq<Pair>, x: Cube, y: Cube) {
    (x, y) in q || (y, x) in q
  }

  ghost predicate Dropped(d: set<Pair>, x: Cube, y: Cube) {
    (x, y) in d || (y, x) in d
  }

  /** Every pair of cubes of `s` at distance `dist` is queued or has been dropped, in one order or the other. */
  ghost predicate Complete(s: set<Cube>, q: seq<Pair>, dist: nat, dropped: set<Pair>) {
    forall x, y | x in s && y in s && Distance(x, y) == dist :: Queued(q, x, y) || Dropped(dropped, x, y)
  }

  lemma CompleteInsert(s: set<Cube>, q: seq<Pair>, c: Cube, added: seq<Pair>, vs: set<nat>, dist: nat, dropped: set<Pair>)
    requires SetOver(s, vs) && Over(c, vs) && PairsOf(added, c, s, dist) && dist > 0
    ensures Complete(s, q, dist, dropped) ==> Complete(s + {c}, q + added, dist, dropped)
  {
    hide Distance, Has;
    DistanceZero(c, c);
    forall x | x in s ensures Distance(x, c) == Distance(c, x) {
      DistanceSymmetric(x, c);
    }
  }

  lemma CompleteShrinks(s: set<Cube>, t: set<Cube>, q: seq<Pair>, added: seq<Pair>, dist: nat, dropped: set<Pair>)
    requires t <= s
    ensures Complete(s, q, dist, dropped) ==> Complete(t, q + added, dist, dropped)
    ensures Complete(s, q, dist, dropped) ==> Complete(t, q, dist, dropped)
  {
    hide Distance;
  }

  /** Taking a pair off the queue uncovers at most that pair. */
  lemma CompletePop(s: set<Cube>, q: seq<Pair>, dist: nat, dropped: set<Pair>)
    requires Complete(s, q, dist, dropped) && q != []
    ensures Complete(s - {q[0].0, q[0].1}, q[1..], dist, dropped)
    ensures !(q[0].0 in s && q[0].1 in s) ==> Complete(s, q[1..], dist, dropped)
    ensures Complete(s, q[1..] + [q[0]], dist, dropped)
    ensures Complete(s, q[1..], dist, dropped + {q[0]})
  {
    hide Distance;
    assert q == [q[0]] + q[1..];
    assert q[0] in q[1..] + [q[0]];
  }

  // ---- Pairs that are stuck ----

  /** No cube that the group makes of the pair is within distance 1 of a cube of `s`. */
  ghost predicate GroupBlocked(s: set<Cube>, c: Cube, d: Cube, dist: nat, group: seq<nat>) {
    |group| == dist * dist && forall i | 0 <= i < dist :: FarFrom(Link(c, d, dist, group)[i], s)
  }

  /** No ExorLink-2 of the pair yields a cube that merges or cancels with another cube of `s`. */
  ghost predicate Stuck2(s: set<Cube>, c: Cube, d: Cube) {
    && GroupBlocked(s - {c, d}, c, d, 2, CUBE_GROUPS2[0])
    && GroupBlocked(s - {c, d}, c, d, 2, CUBE_GROUPS2[1])
  }

  /** No ExorLink-3 of the pair yields a cube that merges or cancels with another cube of `s`. */
  ghost predicate Stuck3(s: set<Cube>, c: Cube, d: Cube) {
    forall g | 0 <= g < 6 :: GroupBlocked(s - {c, d}, c, d, 3, CUBE_GROUPS3[g])
  }

  /** No ExorLink-2 of any pair of `s` can make progress. */
  ghost predicate LocallyOptimal(s: set<Cube>) {
    forall x, y | x in s && y in s && Distance(x, y) == 2 :: Stuck2(s, x, y)
  }

  lemma StuckSymmetric(s: set<Cube>, x: Cube, y: Cube)
    ensures Stuck2(s, x, y) == Stuck2(s, y, x)
  {
    hide FarFrom, Link;
    LinkSymmetric(x, y, 2, CUBE_GROUPS2[0]);
    LinkSymmetric(x, y, 2, CUBE_GROUPS2[1]);
    assert s - {x, y} == s - {y, x};
  }

  /** Every pair of `q` whose cubes are both in `s` is stuck. */
  ghost predicate StuckSoFar(s: set<Cube>, q: seq<Pair>) {
    forall j | 0 <= j < |q| && q[j].0 in s && q[j].1 in s :: Stuck2(s, q[j].0, q[j].1)
  }

  lemma OptimalWhenAllStuck(s: set<Cube>, q: seq<Pair>)
    requires Complete(s, q, 2, {}) && StuckSoFar(s, q)
    ensures LocallyOptimal(s)
  {
    hide Distance, Stuck2;
    forall x, y | x in s && y in s && Distance(x, y) == 2 ensures Stuck2(s, x, y) {
      assert Queued(q, x, y);
      if (x, y) !in q {
        StuckSymmetric(s, y, x);
      }
    }
  }

  // ---- What adding a cube can lead to ----

  /** The stored cubes and both queues. */
  datatype Stock = Stock(cubes: set<Cube>, pairs2: seq<Pair>, pairs3: seq<Pair>)

  /** The pairs of `c` with the cubes of `s` at distance `dist`, each once. */
  ghost predicate NewPairs(q: seq<Pair>, c: Cube, s: set<Cube>, dist: nat) {
    PairsOf(q, c, s, dist) && forall i, j | 0 <= i < j < |q| :: q[i] != q[j]
  }

  /** Both queues have grown by the pairs of `c`. */
  ghost predicate Appended(m: Stock, n: Stock, c: Cube) {
    && m.pairs2 <= n.pairs2 && NewPairs(n.pairs2[|m.pairs2|..], c, m.cubes, 2)
    && m.pairs3 <= n.pairs3 && NewPairs(n.pairs3[|m.pairs3|..], c, m.cubes, 3)
  }

  /** Adding `c` leads from `m` to `n`: a cube far from all others is stored and its pairs are queued; otherwise some
      equal cube vanishes with it, or some neighbour is taken out and the merged cube is added. */
  ghost predicate AddStep(m: Stock, n: Stock, c: Cube)
    decreases |m.cubes|, 1
  {
    if FarFrom(c, m.cubes) then n.cubes == m.cubes + {c} && Appended(m, n, c)
    else exists x | x in m.cubes :: AbsorbStep(m, n, c, x)
  }

  ghost predicate AbsorbStep(m: Stock, n: Stock, c: Cube, x: Cube)
    requires x in m.cubes
    decreases |m.cubes|, 0
  {
    var rest := m.(cubes := m.cubes - {x});
    || (Distance(c, x) == 0 && n == rest)
    || (Distance(c, x) == 1 && (RemoveSmaller(m.cubes, x); AddStep(rest, n, Merge(c, x))))
  }

  lemma RemoveSmaller(s: set<Cube>, x: Cube)
    requires x in s
    ensures |s - {x}| < |s|
  {
  }

  /** Asking whether `c` would be absorbed, when it would not: only the queues grow. */
  ghost predicate Probe(m: Stock, n: Stock, c: Cube) {
    FarFrom(c, m.cubes) && n.cubes == m.cubes && Appended(m, n, c)
  }

  lemma StoredAdds(m: Stock, n: Stock, c: Cube)
    requires FarFrom(c, m.cubes) && n.cubes == m.cubes + {c} && Appended(m, n, c)
    ensures AddStep(m, n, c)
  {
    hide Distance, Merge, Appended;
  }

  lemma AbsorbedAdds(m: Stock, n: Stock, c: Cube, x: Cube)
    requires x in m.cubes && !FarFrom(c, m.cubes)
    requires var rest := m.(cubes := m.cubes - {x});
      (Distance(c, x) == 0 && n == rest) || (Distance(c, x) == 1 && AddStep(rest, n, Merge(c, x)))
    ensures AddStep(m, n, c)
  {
    hide Distance, Merge, FarFrom, Appended;
    assert AbsorbStep(m, n, c, x);
  }

  lemma QueuesAppended(m: Stock, n: Stock, c: Cube, q2: seq<Pair>, q3: seq<Pair>)
    requires NewPairs(q2, c, m.cubes, 2) && NewPairs(q3, c, m.cubes, 3)
    requires n.pairs2 == m.pairs2 + q2 && n.pairs3 == m.pairs3 + q3
    ensures Appended(m, n, c)
  {
    hide NewPairs;
    assert n.pairs2[|m.pairs2|..] == q2 && n.pairs3[|m.pairs3|..] == q3;
  }

  // ---- What one queued pair can lead to ----

  ghost function Taken(m: Stock, c: Cube, d: Cube): Stock {
    m.(cubes := m.cubes - {c, d})
  }

  /** Both cubes of a group are added, the absorbed one first. When only the second is absorbed, the first has been
      probed before. */
  ghost predicate Group2(m: Stock, n: Stock, c: Cube, d: Cube, g: nat) {
    g < 2 && |CUBE_GROUPS2[g]| == 4 &&
    var r := Link(c, d, 2, CUBE_GROUPS2[g]);
    if FarFrom(r[0], m.cubes) then exists p | Probe(m, p, r[0]) :: !FarFrom(r[1], m.cubes) && InTurn(p, n, r[1], r[0])
    else InTurn(m, n, r[0], r[1])
  }

  ghost predicate InTurn(m: Stock, n: Stock, c: Cube, d: Cube) {
    exists u | AddStep(m, u, c) :: AddStep(u, n, d)
  }

  /** An ExorLink-2 that succeeds: the pair, already off the queue, is taken out, and the first group that is not
      blocked is added. */
  ghost predicate Replaced2(m: Stock, n: Stock, c: Cube, d: Cube) {
    var g := if GroupBlocked(m.cubes - {c, d}, c, d, 2, CUBE_GROUPS2[0]) then 1 else 0;
    Group2(Taken(m, c, d), n, c, d, g)
  }

  /** The first pair of the queue is dropped when it is stale, goes to the end when it is stuck, and is replaced
      otherwise. */
  ghost predicate Step2(m: Stock, n: Stock) {
    m.pairs2 != [] &&
    var (c, d) := m.pairs2[0];
    var rest := m.(pairs2 := m.pairs2[1..]);
    if !(c in m.cubes && d in m.cubes) then n == rest
    else if Stuck2(m.cubes, c, d) then n == rest.(pairs2 := rest.pairs2 + [(c, d)])
    else Replaced2(rest, n, c, d)
  }

  /** The two rows of three that are not `j`, in order. */
  function FirstOther(j: nat): nat { if j == 0 then 1 else 0 }

  function SecondOther(j: nat): nat { if j == 2 then 1 else 2 }

  /** All cubes of a group are added, the earliest one that is absorbed first. */
  ghost predicate Group3(m: Stock, n: Stock, c: Cube, d: Cube, g: nat) {
    g < 6 && |CUBE_GROUPS3[g]| == 9 &&
    var r := Link(c, d, 3, CUBE_GROUPS3[g]);
    exists j: nat, u | j < 3 && AddStep(m, u, r[j]) ::
      !FarFrom(r[j], m.cubes) && (forall k: nat | k < j :: FarFrom(r[k], m.cubes)) &&
      InTurn(u, n, r[FirstOther(j)], r[SecondOther(j)])
  }

  /** As `Replaced2`, for ExorLink-3. */
  ghost predicate Replaced3(m: Stock, n: Stock, c: Cube, d: Cube) {
    exists g: nat | g < 6 && Group3(Taken(m, c, d), n, c, d, g) ::
      forall h: nat | h < g :: GroupBlocked(m.cubes - {c, d}, c, d, 3, CUBE_GROUPS3[h])
  }

  /** As `Step2`, except that a stuck pair is dropped too. */
  ghost predicate Step3(m: Stock, n: Stock) {
    m.pairs3 != [] &&
    var (c, d) := m.pairs3[0];
    var rest := m.(pairs3 := m.pairs3[1..]);
    if !(c in m.cubes && d in m.cubes) || Stuck3(m.cubes, c, d) then n == rest
    else Replaced3(rest, n, c, d)
  }

  lemma GroupAdded2(m: Stock, u: Stock, n: Stock, c: Cube, d: Cube, g: nat)
    requires g < 2 && |CUBE_GROUPS2[g]| == 4
    requires var r := Link(c, d, 2, CUBE_GROUPS2[g]);
      !FarFrom(r[0], m.cubes) && AddStep(m, u, r[0]) && AddStep(u, n, r[1])
    ensures Group2(m, n, c, d, g)
  {
    hide AddStep, FarFrom, Link, Probe;
    var r := Link(c, d, 2, CUBE_GROUPS2[g]);
    assert InTurn(m, n, r[0], r[1]);
  }

  lemma GroupProbed2(m: Stock, p: Stock, u: Stock, n: Stock, c: Cube, d: Cube, g: nat)
    requires g < 2 && |CUBE_GROUPS2[g]| == 4
    requires var r := Link(c, d, 2, CUBE_GROUPS2[g]);
      Probe(m, p, r[0]) && !FarFrom(r[1], p.cubes) && AddStep(p, u, r[1]) && AddStep(u, n, r[0])
    ensures Group2(m, n, c, d, g)
  {
    hide AddStep, FarFrom, Link, Appended;
    var r := Link(c, d, 2, CUBE_GROUPS2[g]);
    assert InTurn(p, n, r[1], r[0]);
  }

  lemma GroupAdded3(m: Stock, u: Stock, n: Stock, c: Cube, d: Cube, g: nat, j: nat)
    requires g < 6 && j < 3 && |CUBE_GROUPS3[g]| == 9
    requires var r := Link(c, d, 3, CUBE_GROUPS3[g]);
      && AddStep(m, u, r[j]) && !FarFrom(r[j], m.cubes) && (forall k: nat | k < j :: FarFrom(r[k], m.cubes))
      && InTurn(u, n, r[FirstOther(j)], r[SecondOther(j)])
    ensures Group3(m, n, c, d, g)
  {
    hide AddStep, FarFrom, Link, InTurn;
  }

  // ---- Passes ----

  /** A set that the buckets can hold between two steps: canonical cubes over the variables, no two of which can be
      merged. */
  ghost predicate Holdable(s: set<Cube>, vs: set<nat>) {
    SetOver(s, vs) && Separated(s)
  }

  /** What the first pair of the queue does to the cube set: nothing when it is stale or stuck, else a strict saving. */
  ghost predicate Effect2(s: set<Cube>, t: set<Cube>, q: seq<Pair>) {
    q != [] &&
    if q[0].0 in s && q[0].1 in s && !Stuck2(s, q[0].0, q[0].1) then SameFunction(s, t) && |t| < |s| else t == s
  }

  /** As `Effect2`, except that ExorLink-3 may reshape the set without saving a cube. */
  ghost predicate Effect3(s: set<Cube>, t: set<Cube>, q: seq<Pair>) {
    q != [] &&
    if q[0].0 in s && q[0].1 in s && !Stuck3(s, q[0].0, q[0].1) then SameFunction(s, t) && |t| <= |s| else t == s
  }

  ghost predicate Steps2(states: seq<Stock>, vs: set<nat>) {
    && |states| > 0
    && (forall i | 0 <= i < |states| :: Holdable(states[i].cubes, vs))
    && forall i | 0 <= i < |states| - 1 ::
      Step2(states[i], states[i + 1]) && Effect2(states[i].cubes, states[i + 1].cubes, states[i].pairs2)
  }

  ghost predicate Steps3(states: seq<Stock>, vs: set<nat>) {
    && |states| > 0
    && (forall i | 0 <= i < |states| :: Holdable(states[i].cubes, vs))
    && forall i | 0 <= i < |states| - 1 ::
      Step3(states[i], states[i + 1]) && Effect3(states[i].cubes, states[i + 1].cubes, states[i].pairs3)
  }

  /** A pass makes as many steps as there are pairs queued when it starts. */
  ghost predicate Pass2(states: seq<Stock>, vs: set<nat>) {
    Steps2(states, vs) && |states| == |states[0].pairs2| + 1
  }

  ghost predicate Pass3(states: seq<Stock>, vs: set<nat>) {
    Steps3(states, vs) && |states| == |states[0].pairs3| + 1
  }

  lemma Steps2Start(m: Stock, vs: set<nat>)
    requires Holdable(m.cubes, vs)
    ensures Steps2([m], vs) && StuckSoFar(m.cubes, [])
  {
    hide Holdable;
  }

  lemma Steps2More(states: seq<Stock>, n: Stock, vs: set<nat>)
    requires Steps2(states, vs) && Holdable(n.cubes, vs)
    requires var m := states[|states| - 1]; Step2(m, n) && Effect2(m.cubes, n.cubes, m.pairs2)
    ensures Steps2(states + [n], vs)
  {
    hide Step2, Effect2, Holdable;
  }

  lemma Steps3Start(m: Stock, vs: set<nat>)
    requires Holdable(m.cubes, vs)
    ensures Steps3([m], vs) && DroppedIn([m]) == {}
  {
    hide Holdable;
    assert DroppedIn([m]) == {};
  }

  lemma Steps3More(states: seq<Stock>, n: Stock, vs: set<nat>)
    requires Steps3(states, vs) && Holdable(n.cubes, vs)
    requires var m := states[|states| - 1]; Step3(m, n) && Effect3(m.cubes, n.cubes, m.pairs3)
    ensures Steps3(states + [n], vs)
    ensures DroppedIn(states + [n]) == DroppedIn(states) + DroppedNow(states[|states| - 1])
  {
    hide Step3, Effect3, Holdable, DroppedNow;
    var more := states + [n];
    assert more[|states| - 1] == states[|states| - 1];
    forall i | 0 <= i < |states| ensures more[i] == states[i] {}
  }

  /** The first pair of the distance-3 queue when it is dropped though both its cubes are stored. */
  ghost function DroppedNow(m: Stock): set<Pair> {
    if m.pairs3 != [] && m.pairs3[0].0 in m.cubes && m.pairs3[0].1 in m.cubes
      && Stuck3(m.cubes, m.pairs3[0].0, m.pairs3[0].1)
    then {m.pairs3[0]} else {}
  }

  /** All pairs that a pass drops so. */
  ghost function DroppedIn(states: seq<Stock>): set<Pair> {
    set i, p | 0 <= i < |states| - 1 && p in DroppedNow(states[i]) :: p
  }

  lemma Effect2Chain(s: set<Cube>, t: set<Cube>, u: set<Cube>, q: seq<Pair>, r: seq<Pair>)
    requires Effect2(t, u, r) && SameFunction(s, t)
    requires |t| <= |s| && (|t| == |s| ==> t == s && StuckSoFar(s, q))
    ensures SameFunction(s, u)
    ensures |u| <= |s| && (|u| == |s| ==> u == s && StuckSoFar(s, q + [r[0]]))
  {
    hide SameFunction, Stuck2;
    if u != t { SameTrans(s, t, u); }
  }

  lemma Effect3Chain(s: set<Cube>, t: set<Cube>, u: set<Cube>, r: seq<Pair>)
    requires Effect3(t, u, r) && SameFunction(s, t) && |t| <= |s|
    ensures SameFunction(s, u) && |u| <= |s|
  {
    hide SameFunction, Stuck3;
    if u != t { SameTrans(s, t, u); }
  }

  lemma SameRefl(s: set<Cube>)
    ensures SameFunction(s, s)
  {
  }

  lemma SameTrans(s: set<Cube>, t: set<Cube>, u: set<Cube>)
    requires SameFunction(s, t) && SameFunction(t, u)
    ensures SameFunction(s, u)
  {
    hide XorSet;
  }

  // ---- How a run ends ----

  /** From a locally optimal set, the last ExorLink-3 pass leads to `final` without saving a cube. */
  ghost predicate Settled(states: seq<Stock>, final: Stock, vs: set<nat>) {
    && Pass3(states, vs) && LocallyOptimal(states[0].cubes) && states[|states| - 1] == final
    && forall i | 0 <= i < |states| :: |states[i].cubes| == |final.cubes| && SameFunction(states[i].cubes, final.cubes)
  }

  lemma {:induction false} PassKeeps(states: seq<Stock>, vs: set<nat>, i: nat)
    requires Steps3(states, vs) && i < |states|
    ensures var last := states[|states| - 1].cubes; |last| <= |states[i].cubes| && SameFunction(states[i].cubes, last)
    decreases |states| - i
  {
    hide SameFunction, Stuck3, Holdable, Step3;
    if i == |states| - 1 {
      SameRefl(states[i].cubes);
    } else {
      PassKeeps(states, vs, i + 1);
      var s, t := states[i].cubes, states[i + 1].cubes;
      assert Effect3(s, t, states[i].pairs3);
      if s != t { SameTrans(s, t, states[|states| - 1].cubes); }
    }
  }

  lemma {:induction false} PassShrinks(states: seq<Stock>, vs: set<nat>, i: nat)
    requires Steps3(states, vs) && i < |states|
    ensures |states[i].cubes| <= |states[0].cubes|
  {
    hide SameFunction, Stuck3, Holdable, Step3;
    if i > 0 {
      PassShrinks(states, vs, i - 1);
      assert Effect3(states[i - 1].cubes, states[i].cubes, states[i - 1].pairs3);
    }
  }

  /** Where a pass of ExorLink-3 saves nothing, all its sets have the same size and function. */
  lemma PassSettles(states: seq<Stock>, vs: set<nat>)
    requires Pass3(states, vs) && LocallyOptimal(states[0].cubes)
    requires |states[|states| - 1].cubes| == |states[0].cubes|
    ensures Settled(states, states[|states| - 1], vs)
  {
    hide SameFunction, Steps3, Holdable, LocallyOptimal;
    var final := states[|states| - 1];
    forall i | 0 <= i < |states|
      ensures |states[i].cubes| == |final.cubes| && SameFunction(states[i].cubes, final.cubes)
    {
      PassKeeps(states, vs, i);
      PassShrinks(states, vs, i);
    }
  }

  // ---- Whole runs ----

  /** One pass, of ExorLink-3 or of ExorLink-2. */
  ghost predicate Passed(states: seq<Stock>, three: bool, vs: set<nat>) {
    |states| > 0 && if three then Pass3(states, vs) else Pass2(states, vs)
  }

  /** Passes of ExorLink-2 and ExorLink-3 in turn lead from `m` to `n`. */
  ghost predicate Chain(passes: seq<seq<Stock>>, m: Stock, n: Stock, vs: set<nat>) {
    && |passes| % 2 == 0
    && (forall i | 0 <= i < |passes| :: Passed(passes[i], i % 2 == 1, vs))
    && (forall i | 0 < i < |passes| :: passes[i][0] == passes[i - 1][|passes[i - 1]| - 1])
    && (if passes == [] then m == n
        else passes[0][0] == m && passes[|passes| - 1][|passes[|passes| - 1]| - 1] == n)
  }

  lemma ChainOfTwo(p: seq<Stock>, q: seq<Stock>, vs: set<nat>)
    requires Pass2(p, vs) && Pass3(q, vs) && |p| > 0 && |q| > 0 && p[|p| - 1] == q[0]
    ensures Chain([p, q], p[0], q[|q| - 1], vs)
  {
    hide Pass2, Pass3;
  }

  lemma ChainConcat(p: seq<seq<Stock>>, q: seq<seq<Stock>>, m: Stock, k: Stock, n: Stock, vs: set<nat>)
    requires Chain(p, m, k, vs) && Chain(q, k, n, vs)
    ensures Chain(p + q, m, n, vs)
  {
    hide Pass2, Pass3;
    var r := p + q;
    if p == [] {
      assert r == q;
    } else if q == [] {
      assert r == p;
    } else {
      forall i | 0 <= i < |r| ensures Passed(r[i], i % 2 == 1, vs) {
        if i >= |p| { assert r[i] == q[i - |p|] && (i - |p|) % 2 == i % 2; }
      }
      forall i | 0 < i < |r| ensures r[i][0] == r[i - 1][|r[i - 1]| - 1] {
        if i > |p| { assert r[i] == q[i - |p|] && r[i - 1] == q[i - 1 - |p|]; }
      }
    }
  }

  /** How many cubes there are when round `r` starts, or at the end. */
  ghost function SizeAt(passes: seq<seq<Stock>>, final: Stock, r: nat): nat
    requires forall i | 0 <= i < |passes| :: |passes[i]| > 0
  {
    if 12 * r < |passes| then |passes[12 * r][0].cubes| else |final.cubes|
  }

  /** Rounds of twelve passes, up to the first three in a row that save nothing. */
  ghost predicate Rounds(passes: seq<seq<Stock>>, final: Stock, rounds: nat) {
    && rounds >= 3 && |passes| == 12 * rounds && (forall i | 0 <= i < |passes| :: |passes[i]| > 0)
    && SizeAt(passes, final, rounds - 3) == |final.cubes|
    && forall r | 3 <= r < rounds :: SizeAt(passes, final, r) < SizeAt(passes, final, r - 3)
  }

  /** The sizes at the starts of all rounds so far and now. */
  ghost function Sizes(passes: seq<seq<Stock>>, now: Stock, rounds: nat): seq<nat>
    requires forall i | 0 <= i < |passes| :: |passes[i]| > 0
  {
    seq(rounds + 1, r requires 0 <= r <= rounds => SizeAt(passes, now, r))
  }

  /** Sizes never grow, the last `idle` rounds have saved nothing, the one before has, and so has at least one of any
      three before that. */
  ghost predicate Counting(sizes: seq<nat>, idle: nat) {
    && idle < |sizes|
    && (forall r, q | 0 <= r <= q < |sizes| :: sizes[q] <= sizes[r])
    && sizes[|sizes| - 1 - idle] == sizes[|sizes| - 1]
    && (idle + 1 < |sizes| ==> sizes[|sizes| - 2 - idle] > sizes[|sizes| - 1])
    && forall r | 3 <= r < |sizes| - (if idle < 3 then 0 else 1) :: sizes[r] < sizes[r - 3]
  }

  lemma CountMore(sizes: seq<nat>, idle: nat, size: nat)
    requires Counting(sizes, idle) && idle < 3 && size <= sizes[|sizes| - 1]
    ensures Counting(sizes + [size], if size < sizes[|sizes| - 1] then 0 else idle + 1)
  {
    var more := sizes + [size];
    var now := if size < sizes[|sizes| - 1] then 0 else idle + 1;
    forall r | 3 <= r < |more| - (if now < 3 then 0 else 1) ensures more[r] < more[r - 3] {
      if r == |sizes| { assert sizes[r - 3] >= sizes[|sizes| - 1]; }
    }
  }

  /** Where a run stands after `rounds` rounds, the last `idle` of which have saved nothing. */
  ghost predicate RoundsSoFar(passes: seq<seq<Stock>>, now: Stock, rounds: nat, idle: nat) {
    && |passes| == 12 * rounds && (forall i | 0 <= i < |passes| :: |passes[i]| > 0)
    && Counting(Sizes(passes, now, rounds), idle)
  }

  lemma EmptyChain(m: Stock, vs: set<nat>)
    ensures Chain([], m, m, vs) && RoundsSoFar([], m, 0, 0)
  {
  }

  lemma PassNotEmpty(p: seq<Stock>, q: seq<Stock>, vs: set<nat>)
    requires Pass2(p, vs) && Pass3(q, vs)
    ensures |p| > 0 && |q| > 0
  {
  }

  /** One more round, which saves nothing or starts the count anew. */
  lemma RoundMore(passes: seq<seq<Stock>>, more: seq<seq<Stock>>, m: Stock, now: Stock, next: Stock, rounds: nat,
      idle: nat, vs: set<nat>)
    requires RoundsSoFar(passes, now, rounds, idle) && idle < 3
    requires Chain(passes, m, now, vs) && Chain(more, now, next, vs) && |more| == 12 && |next.cubes| <= |now.cubes|
    ensures RoundsSoFar(passes + more, next, rounds + 1, if |next.cubes| < |now.cubes| then 0 else idle + 1)
  {
    hide Pass2, Pass3, Counting;
    var all := passes + more;
    forall i | 0 <= i < |all| ensures |all[i]| > 0 {
      if i >= |passes| { assert all[i] == more[i - |passes|] && Passed(more[i - |passes|], (i - |passes|) % 2 == 1, vs); }
    }
    forall r: nat | r <= rounds ensures SizeAt(all, next, r) == SizeAt(passes, now, r) {
      if r == rounds { assert all[12 * r] == more[0] && more[0][0] == now; }
    }
    assert SizeAt(all, next, rounds + 1) == |next.cubes|;
    assert Sizes(all, next, rounds + 1) == Sizes(passes, now, rounds) + [|next.cubes|];
    CountMore(Sizes(passes, now, rounds), idle, |next.cubes|);
  }

  lemma RoundsDone(passes: seq<seq<Stock>>, final: Stock, rounds: nat)
    requires RoundsSoFar(passes, final, rounds, 3)
    ensures Rounds(passes, final, rounds)
  {
    var sizes := Sizes(passes, final, rounds);
    assert forall r: nat | r <= rounds :: sizes[r] == SizeAt(passes, final, r);
  }

  /** The cubes of the list are added one after the other to what is empty at first. */
  ghost predicate Built(list: seq<Cube>, states: seq<Stock>) {
    && |states| == |list| + 1 && states[0] == Stock({}, [], [])
    && forall i | 0 <= i < |list| :: AddStep(states[i], states[i + 1], list[i])
  }

  lemma BuiltMore(list: seq<Cube>, states: seq<Stock>, c: Cube, n: Stock)
    requires Built(list, states) && AddStep(states[|list|], n, c)
    ensures Built(list + [c], states + [n])
  {
    hide AddStep;
  }

  /** Everything that a minimisation went through. */
  datatype Log = Log(built: seq<Stock>, passes: seq<seq<Stock>>, rounds: nat, final: Stock)

  ghost predicate Logged(log: Log, list: seq<Cube>, result: seq<Cube>, vs: set<nat>) {
    && Built(list, log.built)
    && Chain(log.passes, log.built[|list|], log.final, vs)
    && Rounds(log.passes, log.final, log.rounds)
    && Settled(log.passes[|log.passes| - 1], log.final, vs)
    && NoRepeats(result) && CubesOf(result) == log.final.cubes
  }

  /** `result` is what minimising `list` comes to: its cubes added one by one, rounds of passes until three in a row
      save nothing, and the cubes that are left, each once. */
  ghost predicate Minimised(list: seq<Cube>, result: seq<Cube>, vs: set<nat>) {
    exists log :: Logged(log, list, result, vs)
  }

  /** A minimised list has no mergeable cubes, and a locally optimal set of the same size leads to it by one
      ExorLink-3 pass that saves nothing. It is locally optimal itself if that pass changed nothing. */
  lemma MinimisedEnds(list: seq<Cube>, result: seq<Cube>, vs: set<nat>) returns (states: seq<Stock>)
    requires Minimised(list, result, vs)
    ensures NoRepeats(result) && AllOver(result, vs) && Separated(CubesOf(result))
    ensures |states| > 0 && states[|states| - 1].cubes == CubesOf(result) && Settled(states, states[|states| - 1], vs)
    ensures states[0].cubes == CubesOf(result) ==> LocallyOptimal(CubesOf(result))
  {
    hide Built, Chain, SameFunction, LocallyOptimal, Step3, Effect3, Separated, Over;
    var log :| Logged(log, list, result, vs);
    states := log.passes[|log.passes| - 1];
    assert Holdable(states[|states| - 1].cubes, vs);
    forall i | 0 <= i < |result| ensures Over(result[i], vs) {
      assert result[i] in CubesOf(result);
    }
  }
}
