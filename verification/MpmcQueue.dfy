/** The bounded queue of many producers and many consumers, as a state machine whose steps are the
    atomic accesses of `enqueue` and `dequeue`, over counters that do not wrap. */
module MpmcQueue {
  import opened Bits

  datatype Option<T> = None | Some(value: T)

  // ---- Indexing with a mask ----

  /** Bitwise and of two numbers. */
  function BitAnd(x: nat, y: nat): nat {
    if x == 0 || y == 0 then 0 else 2 * BitAnd(x / 2, y / 2) + (x % 2) * (y % 2)
  }

  /** The sizes that the constructor accepts. */
  predicate GoodSize(size: nat) {
    size >= 2 && BitAnd(size, size - 1) == 0
  }

  lemma BitAndStep(x: nat, y: nat)
    requires y % 2 == 1
    ensures BitAnd(x, y) == 2 * BitAnd(x / 2, y / 2) + x % 2
  {}

  /** Masking with the predecessor of a power of two is the remainder. */
  lemma {:induction false} MaskIsRemainder(pos: nat, k: nat, size: nat)
    requires size == Pow2(k)
    ensures size >= 1 && BitAnd(pos, size - 1) == pos % size
    decreases k
  {
    hide BitAnd;
    if k == 0 {
      AndZero(pos);
    } else {
      var half := Pow2(k - 1);
      MaskIsRemainder(pos / 2, k - 1, half);
      assert size - 1 == 2 * (half - 1) + 1;
      BitAndStep(pos, size - 1);
      HalvedRemainder(pos, half);
    }
  }

  lemma AndZero(x: nat)
    ensures BitAnd(x, 0) == 0
  {}

  lemma HalvedRemainder(pos: nat, half: nat)
    requires half > 0
    ensures pos % (2 * half) == 2 * ((pos / 2) % half) + pos % 2
  {
    var q, r := (pos / 2) / half, (pos / 2) % half;
    assert pos == 2 * (q * half + r) + pos % 2;
    assert pos == q * (2 * half) + (2 * r + pos % 2);
    RemainderUnique(pos, 2 * half, q, 2 * r + pos % 2);
  }

  lemma RemainderUnique(x: int, m: nat, q: int, r: nat)
    requires x == q * m + r && r < m
    ensures x % m == r
  {
    var d := q - x / m;
    assert d * m == x % m - r;
    MultipleInside(d, m);
  }

  lemma TimesAtLeast(d: int, m: int)
    requires m >= 0
    ensures d >= 1 ==> d * m >= m
  {
    if d >= 1 { assert (d - 1) * m >= 0; }
  }

  /** The only multiple of `m` strictly between `-m` and `m` is 0. */
  lemma MultipleInside(d: int, m: int)
    requires m >= 0 && -m < d * m < m
    ensures d == 0
  {
    TimesAtLeast(d, m);
    TimesAtLeast(-d, m);
    assert -d * m == -(d * m);
  }

  lemma {:induction false} FindPower(size: nat) returns (k: nat)
    requires size >= 1 && BitAnd(size, size - 1) == 0
    ensures size == Pow2(k) && (size >= 2 ==> k >= 1)
  {
    if size == 1 {
      k := 0;
    } else if size % 2 == 1 {
      AndSelf(size / 2);
      assert false;
    } else {
      var j := FindPower(size / 2);
      k := j + 1;
    }
  }

  lemma {:induction false} AndSelf(x: nat)
    ensures BitAnd(x, x) == x
  {
    hide BitAnd;
    if x == 0 {
      AndZero(x);
    } else {
      AndSelf(x / 2);
      if x % 2 == 1 { BitAndStep(x, x); } else { BitAndEven(x, x); }
    }
  }

  lemma BitAndEven(x: nat, y: nat)
    requires y % 2 == 0
    ensures BitAnd(x, y) == 2 * BitAnd(x / 2, y / 2)
  {}

  /** `pos & buffer_mask_`, the cell that serves a position. */
  function Slot(pos: nat, size: nat): nat
    requires size >= 1
  {
    BitAnd(pos, size - 1)
  }

  lemma SlotIsRemainder(pos: nat, size: nat)
    requires GoodSize(size)
    ensures Slot(pos, size) == pos % size < size
  {
    var k := FindPower(size);
    MaskIsRemainder(pos, k, size);
  }

  /** The test accepts exactly the sizes from 2 on for which the mask gives every position the cell
      that counting round the buffer gives it. */
  lemma MaskNeedsGoodSize(size: nat)
    requires size >= 1
    ensures GoodSize(size) <==> size >= 2 && forall pos: nat :: Slot(pos, size) == pos % size
  {
    if GoodSize(size) {
      forall pos: nat ensures Slot(pos, size) == pos % size { SlotIsRemainder(pos, size); }
    } else if size >= 2 {
      assert Slot(size, size) != size % size;
    }
  }

  /** The facts about cells that the protocol rests on. */
  lemma SlotLaws(p: nat, q: nat, size: nat)
    requires GoodSize(size)
    ensures Slot(p, size) < size
    ensures Slot(p + size, size) == Slot(p, size)
    ensures Slot(p + 1, size) != Slot(p, size)
    ensures p < q && Slot(p, size) == Slot(q, size) ==> p + size <= q
  {
    hide Slot, GoodSize;
    SlotIsRemainder(p, size);
    SlotIsRemainder(q, size);
    SlotIsRemainder(p + size, size);
    SlotIsRemainder(p + 1, size);
    AtLeastTwo(size);
    SameRemainder(p, q, size);
    SameRemainder(p, p + 1, size);
    NextTurn(p, size);
  }

  lemma NextTurn(p: nat, m: nat)
    requires m >= 1
    ensures (p + m) % m == p % m
  {
    assert (p / m + 1) * m == p / m * m + m;
    RemainderUnique(p + m, m, p / m + 1, p % m);
  }

  lemma AtLeastTwo(size: nat)
    requires GoodSize(size)
    ensures size >= 2
  {}

  lemma SameRemainder(p: nat, q: nat, m: nat)
    requires m >= 1
    ensures p < q && p % m == q % m ==> p + m <= q
  {
    if p < q && p % m == q % m {
      var d := q / m - p / m;
      assert d * m == q - p;
      TimesAtLeast(d, m);
      TimesAtLeast(-d, m);
      assert -d * m == -(d * m);
    }
  }

  // ---- The state ----

  datatype Cell<T> = Cell(sequence: nat, data: T)

  /** How far one call has come. A call about to read `enqueue_pos_` is `Enqueueing`; it is
      `EnqLoaded` before it reads the sequence of its cell and `EnqTrying` when that sequence let it
      try the exchange. The claimed position is then written, and released by storing the next
      sequence. Dequeuing goes the same way. */
  datatype Call<T> =
    | Enqueueing(value: T)
    | EnqLoaded(value: T, pos: nat)
    | EnqTrying(value: T, pos: nat)
    | EnqClaimed(value: T, pos: nat)
    | EnqWritten(value: T, pos: nat)
    | EnqDone(value: T, pos: nat)
    | EnqFull(value: T)
    | Dequeueing
    | DeqLoaded(pos: nat)
    | DeqTrying(pos: nat)
    | DeqClaimed(pos: nat)
    | DeqRead(pos: nat, value: T)
    | DeqDone(pos: nat, value: T)
    | DeqEmpty
  {
    /** The call moved `enqueue_pos_` past its position. */
    predicate Produces() { EnqClaimed? || EnqWritten? || EnqDone? }

    /** The call moved `dequeue_pos_` past its position. */
    predicate Consumes() { DeqClaimed? || DeqRead? || DeqDone? }

    predicate Finished() { EnqDone? || EnqFull? || DeqDone? || DeqEmpty? }
  }

  /** The shared memory and every call so far. `owners` and `takers` are history: the calls that
      claimed each position. */
  datatype State<T> = State(
    enq: nat, deq: nat, cells: seq<Cell<T>>,
    calls: seq<Call<T>>, owners: seq<nat>, takers: seq<nat>)
  {
    predicate Shaped() { GoodSize(|cells|) }

    function At(pos: nat): Cell<T>
      requires Shaped()
    {
      SlotIsRemainder(pos, |cells|);
      cells[Slot(pos, |cells|)]
    }

    function SetCall(i: nat, c: Call<T>): State<T>
      requires i < |calls|
    {
      this.(calls := calls[i := c])
    }

    function SetCell(pos: nat, c: Cell<T>): (r: State<T>)
      requires Shaped()
      ensures |r.cells| == |cells| && r.calls == calls
    {
      SlotIsRemainder(pos, |cells|);
      this.(cells := cells[Slot(pos, |cells|) := c])
    }
  }

  /** The empty queue; `rest` is what the cells hold to begin with. */
  function Fresh<T>(size: nat, rest: T): State<T> {
    State(0, 0, seq(size, i requires 0 <= i => Cell(i, rest)), [], [], [])
  }

  /** The constructor, which throws unless the size is a power of two from 2 on. */
  function Create<T>(size: nat, rest: T): Option<State<T>> {
    if GoodSize(size) then Some(Fresh(size, rest)) else None
  }

  /** The constructor accepts exactly the powers of two from 2 on, and then starts empty. */
  lemma {:induction false} PowerOfTwoTest<T>(size: nat, rest: T)
    ensures Create(size, rest).Some? <==> exists k: nat :: k >= 1 && size == Pow2(k)
    ensures Create(size, rest).Some? ==> Inv(Create(size, rest).value) && Contents(Create(size, rest).value) == []
  {
    if GoodSize(size) {
      var k := FindPower(size);
      assert k >= 1 && size == Pow2(k);
      CreateInv(size, rest);
    }
    if k: nat :| k >= 1 && size == Pow2(k) {
      PowMonotone(1, k);
      MaskIsRemainder(size, k, size);
    }
  }

  /** One atomic step of call `i`. A weak exchange may fail with nothing in its way (`spurious`), and
      an item that was moved out of its cell leaves anything behind (`rest`). */
  function Step<T>(s: State<T>, i: nat, spurious: bool, rest: T): (r: State<T>)
    requires s.Shaped() && i < |s.calls|
    ensures |r.cells| == |s.cells| && |r.calls| == |s.calls|
  {
    match s.calls[i]
    case Enqueueing(v) => s.SetCall(i, EnqLoaded(v, s.enq))
    case EnqLoaded(v, pos) =>
      var dif := s.At(pos).sequence - pos;
      s.SetCall(i, if dif == 0 then EnqTrying(v, pos) else if dif < 0 then EnqFull(v) else Enqueueing(v))
    case EnqTrying(v, pos) =>
      if s.enq == pos && !spurious then
        s.SetCall(i, EnqClaimed(v, pos)).(enq := pos + 1, owners := s.owners + [i])
      else
        s.SetCall(i, EnqLoaded(v, s.enq))
    case EnqClaimed(v, pos) =>
      s.SetCell(pos, s.At(pos).(data := v)).SetCall(i, EnqWritten(v, pos))
    case EnqWritten(v, pos) =>
      s.SetCell(pos, s.At(pos).(sequence := pos + 1)).SetCall(i, EnqDone(v, pos))
    case Dequeueing => s.SetCall(i, DeqLoaded(s.deq))
    case DeqLoaded(pos) =>
      var dif := s.At(pos).sequence - (pos + 1);
      s.SetCall(i, if dif == 0 then DeqTrying(pos) else if dif < 0 then DeqEmpty else Dequeueing)
    case DeqTrying(pos) =>
      if s.deq == pos && !spurious then
        s.SetCall(i, DeqClaimed(pos)).(deq := pos + 1, takers := s.takers + [i])
      else
        s.SetCall(i, DeqLoaded(s.deq))
    case DeqClaimed(pos) =>
      s.SetCell(pos, s.At(pos).(data := rest)).SetCall(i, DeqRead(pos, s.At(pos).data))
    case DeqRead(pos, v) =>
      s.SetCell(pos, s.At(pos).(sequence := pos + |s.cells|)).SetCall(i, DeqDone(pos, v))
    case _ => s
  }

  datatype Event<T> =
    | CallEnqueue(value: T)
    | CallDequeue
    | Proceed(call: nat, spurious: bool, rest: T)

  function Next<T>(s: State<T>, e: Event<T>): (r: State<T>)
    requires s.Shaped()
    ensures r.Shaped() && |r.cells| == |s.cells|
  {
    match e
    case CallEnqueue(v) => s.(calls := s.calls + [Enqueueing(v)])
    case CallDequeue => s.(calls := s.calls + [Dequeueing])
    case Proceed(i, spurious, rest) => if i < |s.calls| then Step(s, i, spurious, rest) else s
  }

  /** Any interleaving of any calls. */
  function Execute<T>(s: State<T>, events: seq<Event<T>>): (r: State<T>)
    requires s.Shaped()
    ensures r.Shaped() && |r.cells| == |s.cells|
    decreases |events|
  {
    if events == [] then s else Execute(Next(s, events[0]), events[1..])
  }

  // ---- The invariant ----

  /** Every position below `enq` belongs to one producer, every position below `deq` to one
      consumer. */
  ghost predicate Claims<T>(s: State<T>) {
    && |s.owners| == s.enq
    && |s.takers| == s.deq
    && (forall p | 0 <= p < s.enq :: OwnerAt(s, p))
    && (forall p | 0 <= p < s.deq :: TakerAt(s, p))
  }

  ghost predicate OwnerAt<T>(s: State<T>, p: nat)
    requires p < |s.owners|
  {
    s.owners[p] < |s.calls| && s.calls[s.owners[p]].Produces() && s.calls[s.owners[p]].pos == p
  }

  ghost predicate TakerAt<T>(s: State<T>, p: nat)
    requires p < |s.takers|
  {
    s.takers[p] < |s.calls| && s.calls[s.takers[p]].Consumes() && s.calls[s.takers[p]].pos == p
  }

  /** The producer of `p` is done with it. */
  ghost predicate Published<T>(s: State<T>, p: nat) {
    p < |s.owners| && s.owners[p] < |s.calls| && s.calls[s.owners[p]].EnqDone?
  }

  /** The item that the producer of `p` brought. */
  ghost function Item<T>(s: State<T>, p: nat): T
    requires p < |s.owners| && OwnerAt(s, p)
  {
    s.calls[s.owners[p]].value
  }

  ghost predicate HasItem<T>(s: State<T>, p: nat, v: T) {
    p < |s.owners| && OwnerAt(s, p) && Item(s, p) == v
  }

  /** A cell is vacant for a position `p`, with sequence `p`, or holds the item of `p`, with sequence
      `p + 1`; either way `p` is within one turn of both counters. */
  ghost predicate CellOk<T>(s: State<T>, k: nat)
    requires k < |s.cells|
  {
    var size, c := |s.cells|, s.cells[k];
    if Slot(c.sequence, size) == k then
      s.deq <= c.sequence < s.deq + size && s.enq <= c.sequence + size
    else
      c.sequence >= 1 &&
      var p := c.sequence - 1;
      Slot(p, size) == k && p < s.enq <= p + size && Published(s, p) &&
      (p >= s.deq ==> HasItem(s, p, c.data))
  }

  ghost predicate CallOk<T>(s: State<T>, i: nat)
    requires s.Shaped() && i < |s.calls|
  {
    match s.calls[i]
    case EnqLoaded(_, pos) => pos <= s.enq
    case EnqTrying(_, pos) => pos <= s.enq && (s.enq == pos ==> s.At(pos).sequence == pos)
    case EnqClaimed(_, pos) =>
      pos < |s.owners| && s.owners[pos] == i && s.At(pos).sequence == pos
    case EnqWritten(v, pos) =>
      pos < |s.owners| && s.owners[pos] == i && s.At(pos) == Cell(pos, v)
    case EnqDone(_, pos) => pos < |s.owners| && s.owners[pos] == i && s.At(pos).sequence > pos
    case DeqLoaded(pos) => pos <= s.deq
    case DeqTrying(pos) => pos <= s.deq && (s.deq == pos ==> s.At(pos).sequence == pos + 1)
    case DeqClaimed(pos) =>
      pos < |s.takers| && s.takers[pos] == i && s.At(pos).sequence == pos + 1 &&
      HasItem(s, pos, s.At(pos).data) && Published(s, pos)
    case DeqRead(pos, v) =>
      pos < |s.takers| && s.takers[pos] == i && s.At(pos).sequence == pos + 1 &&
      HasItem(s, pos, v) && Published(s, pos)
    case DeqDone(pos, v) =>
      pos < |s.takers| && s.takers[pos] == i && s.At(pos).sequence >= pos + |s.cells| &&
      HasItem(s, pos, v) && Published(s, pos)
    case _ => true
  }

  ghost predicate Inv<T>(s: State<T>) {
    && s.Shaped()
    && s.deq <= s.enq <= s.deq + |s.cells|
    && Claims(s)
    && (forall k | 0 <= k < |s.cells| :: CellOk(s, k))
    && (forall i | 0 <= i < |s.calls| :: CallOk(s, i))
  }

  // ---- The invariant holds in every reachable state ----

  lemma CreateInv<T>(size: nat, rest: T)
    requires GoodSize(size)
    ensures Inv(Fresh(size, rest))
  {
    hide Slot, GoodSize;
    var s := Fresh(size, rest);
    forall k | 0 <= k < size ensures CellOk(s, k) {
      SlotIsRemainder(k, size);
      RemainderUnique(k, size, 0, k);
    }
  }

  lemma AtSetCell<T>(s: State<T>, pos: nat, c: Cell<T>, q: nat)
    requires s.Shaped()
    ensures s.SetCell(pos, c).Shaped()
    ensures s.SetCell(pos, c).At(q) == if Slot(q, |s.cells|) == Slot(pos, |s.cells|) then c else s.At(q)
  {
    SlotIsRemainder(pos, |s.cells|);
    SlotIsRemainder(q, |s.cells|);
  }

  /** A call that holds no claim moves on without taking one. */
  lemma LocalMove<T>(s: State<T>, i: nat, c: Call<T>)
    requires Inv(s) && i < |s.calls|
    requires !s.calls[i].Produces() && !s.calls[i].Consumes() && !c.Produces() && !c.Consumes()
    requires CallOk(s.SetCall(i, c), i)
    ensures Inv(s.SetCall(i, c))
  {
    hide GoodSize, Slot;
    var t := s.SetCall(i, c);
    forall p | 0 <= p < s.enq ensures OwnerAt(t, p) { assert OwnerAt(s, p); }
    forall p | 0 <= p < s.deq ensures TakerAt(t, p) { assert TakerAt(s, p); }
    forall k | 0 <= k < |s.cells| ensures CellOk(t, k) { assert CellOk(s, k); }
    forall j | 0 <= j < |s.calls| ensures CallOk(t, j) { assert CallOk(s, j); }
  }

  lemma NewCall<T>(s: State<T>, c: Call<T>)
    requires Inv(s) && (c.Enqueueing? || c.Dequeueing?)
    ensures Inv(s.(calls := s.calls + [c]))
  {
    hide GoodSize, Slot;
    var t := s.(calls := s.calls + [c]);
    forall p | 0 <= p < s.enq ensures OwnerAt(t, p) { assert OwnerAt(s, p); }
    forall p | 0 <= p < s.deq ensures TakerAt(t, p) { assert TakerAt(s, p); }
    forall k | 0 <= k < |s.cells| ensures CellOk(t, k) { assert CellOk(s, k); }
    forall j | 0 <= j < |t.calls| ensures CallOk(t, j) { if j < |s.calls| { assert CallOk(s, j); } }
  }

  /** The exchange on `enqueue_pos_` succeeds. */
  lemma ProducerClaims<T>(s: State<T>, i: nat)
    requires Inv(s) && i < |s.calls| && s.calls[i].EnqTrying? && s.calls[i].pos == s.enq
    ensures Inv(Step(s, i, false, s.At(0).data))
  {
    hide GoodSize, Slot;
    var pos, size := s.enq, |s.cells|;
    var t := Step(s, i, false, s.At(0).data);
    assert CallOk(s, i);
    SlotLaws(pos, 0, size);
    assert CellOk(s, Slot(pos, size));
    forall p | 0 <= p < t.enq ensures OwnerAt(t, p) { if p < s.enq { assert OwnerAt(s, p); } }
    forall p | 0 <= p < s.deq ensures TakerAt(t, p) { assert TakerAt(s, p); }
    forall k | 0 <= k < size ensures CellOk(t, k) {
      assert CellOk(s, k);
      SlotLaws(s.cells[k].sequence, 0, size);
      if s.cells[k].sequence >= 1 { SlotLaws(s.cells[k].sequence - 1, 0, size); }
    }
    forall j | 0 <= j < |s.calls| ensures CallOk(t, j) { assert CallOk(s, j); }
  }

  /** The exchange on `dequeue_pos_` succeeds. */
  lemma ConsumerClaims<T>(s: State<T>, i: nat)
    requires Inv(s) && i < |s.calls| && s.calls[i].DeqTrying? && s.calls[i].pos == s.deq
    ensures Inv(Step(s, i, false, s.At(0).data))
  {
    hide GoodSize, Slot;
    var pos, size := s.deq, |s.cells|;
    var t := Step(s, i, false, s.At(0).data);
    assert CallOk(s, i);
    SlotLaws(pos, 0, size);
    assert CellOk(s, Slot(pos, size));
    forall p | 0 <= p < s.enq ensures OwnerAt(t, p) { assert OwnerAt(s, p); }
    forall p | 0 <= p < t.deq ensures TakerAt(t, p) { if p < s.deq { assert TakerAt(s, p); } }
    forall k | 0 <= k < size ensures CellOk(t, k) {
      assert CellOk(s, k);
    }
    forall j | 0 <= j < |s.calls| ensures CallOk(t, j) { assert CallOk(s, j); }
  }

  /** The item goes into its cell. */
  lemma ProducerWrites<T>(s: State<T>, i: nat, rest: T)
    requires Inv(s) && i < |s.calls| && s.calls[i].EnqClaimed?
    ensures Inv(Step(s, i, false, rest))
  {
    hide GoodSize, Slot;
    var pos, v, size := s.calls[i].pos, s.calls[i].value, |s.cells|;
    var t := Step(s, i, false, rest);
    assert CallOk(s, i);
    SlotLaws(pos, 0, size);
    forall p | 0 <= p < s.enq ensures OwnerAt(t, p) { assert OwnerAt(s, p); }
    forall p | 0 <= p < s.deq ensures TakerAt(t, p) { assert TakerAt(s, p); }
    forall k | 0 <= k < size ensures CellOk(t, k) { assert CellOk(s, k); }
    forall j | 0 <= j < |s.calls| ensures CallOk(t, j) { WriteKeepsCall(s, i, rest, j); }
  }

  lemma WriteKeepsCall<T>(s: State<T>, i: nat, rest: T, j: nat)
    requires Inv(s) && i < |s.calls| && s.calls[i].EnqClaimed? && j < |s.calls|
    ensures CallOk(Step(s, i, false, rest), j)
  {
    hide GoodSize, Slot;
    var pos, v, size := s.calls[i].pos, s.calls[i].value, |s.cells|;
    assert CallOk(s, i) && CallOk(s, j);
    SlotLaws(pos, 0, size);
    if AtAPosition(s.calls[j]) {
      AtSetCell(s, pos, s.At(pos).(data := v), s.calls[j].pos);
      SlotLaws(s.calls[j].pos, 0, size);
    }
  }

  predicate AtAPosition<T>(c: Call<T>) {
    !c.Enqueueing? && !c.EnqFull? && !c.Dequeueing? && !c.DeqEmpty?
  }

  /** The producer stores the next sequence: the item is published. */
  lemma ProducerPublishes<T>(s: State<T>, i: nat, rest: T)
    requires Inv(s) && i < |s.calls| && s.calls[i].EnqWritten?
    ensures Inv(Step(s, i, false, rest))
  {
    hide GoodSize, Slot;
    var pos, size := s.calls[i].pos, |s.cells|;
    var t := Step(s, i, false, rest);
    assert CallOk(s, i);
    SlotLaws(pos, 0, size);
    assert CellOk(s, Slot(pos, size));
    forall p | 0 <= p < s.enq ensures OwnerAt(t, p) { assert OwnerAt(s, p); }
    forall p | 0 <= p < s.deq ensures TakerAt(t, p) { assert TakerAt(s, p); }
    forall k | 0 <= k < size ensures CellOk(t, k) { assert CellOk(s, k); }
    forall j | 0 <= j < |s.calls| ensures CallOk(t, j) { PublishKeepsCall(s, i, rest, j); }
  }

  lemma PublishKeepsCall<T>(s: State<T>, i: nat, rest: T, j: nat)
    requires Inv(s) && i < |s.calls| && s.calls[i].EnqWritten? && j < |s.calls|
    ensures CallOk(Step(s, i, false, rest), j)
  {
    hide GoodSize, Slot;
    var pos, size := s.calls[i].pos, |s.cells|;
    assert CallOk(s, i) && CallOk(s, j);
    SlotLaws(pos, 0, size);
    if AtAPosition(s.calls[j]) {
      AtSetCell(s, pos, s.At(pos).(sequence := pos + 1), s.calls[j].pos);
      SlotLaws(s.calls[j].pos, 0, size);
    }
  }

  /** The consumer moves the item out of its cell. */
  lemma ConsumerReads<T>(s: State<T>, i: nat, rest: T)
    requires Inv(s) && i < |s.calls| && s.calls[i].DeqClaimed?
    ensures Inv(Step(s, i, false, rest))
  {
    hide GoodSize, Slot;
    var pos, size := s.calls[i].pos, |s.cells|;
    var t := Step(s, i, false, rest);
    assert CallOk(s, i);
    SlotLaws(pos, 0, size);
    forall p | 0 <= p < s.enq ensures OwnerAt(t, p) { assert OwnerAt(s, p); }
    forall p | 0 <= p < s.deq ensures TakerAt(t, p) { assert TakerAt(s, p); }
    forall k | 0 <= k < size ensures CellOk(t, k) { assert CellOk(s, k); }
    forall j | 0 <= j < |s.calls| ensures CallOk(t, j) { ReadKeepsCall(s, i, rest, j); }
  }

  lemma ReadKeepsCall<T>(s: State<T>, i: nat, rest: T, j: nat)
    requires Inv(s) && i < |s.calls| && s.calls[i].DeqClaimed? && j < |s.calls|
    ensures CallOk(Step(s, i, false, rest), j)
  {
    hide GoodSize, Slot;
    var pos, size := s.calls[i].pos, |s.cells|;
    assert CallOk(s, i) && CallOk(s, j);
    SlotLaws(pos, 0, size);
    if AtAPosition(s.calls[j]) {
      AtSetCell(s, pos, s.At(pos).(data := rest), s.calls[j].pos);
      SlotLaws(s.calls[j].pos, 0, size);
    }
  }

  /** The consumer stores the sequence of the next turn: the cell is vacant again. */
  lemma ConsumerReleases<T>(s: State<T>, i: nat, rest: T)
    requires Inv(s) && i < |s.calls| && s.calls[i].DeqRead?
    ensures Inv(Step(s, i, false, rest))
  {
    hide GoodSize, Slot;
    var pos, size := s.calls[i].pos, |s.cells|;
    var t := Step(s, i, false, rest);
    assert CallOk(s, i);
    SlotLaws(pos, 0, size);
    assert CellOk(s, Slot(pos, size));
    forall p | 0 <= p < s.enq ensures OwnerAt(t, p) { assert OwnerAt(s, p); }
    forall p | 0 <= p < s.deq ensures TakerAt(t, p) { assert TakerAt(s, p); }
    forall k | 0 <= k < size ensures CellOk(t, k) { assert CellOk(s, k); }
    forall j | 0 <= j < |s.calls| ensures CallOk(t, j) { ReleaseKeepsCall(s, i, rest, j); }
  }

  lemma ReleaseKeepsCall<T>(s: State<T>, i: nat, rest: T, j: nat)
    requires Inv(s) && i < |s.calls| && s.calls[i].DeqRead? && j < |s.calls|
    ensures CallOk(Step(s, i, false, rest), j)
  {
    hide GoodSize, Slot;
    var pos, size := s.calls[i].pos, |s.cells|;
    assert CallOk(s, i) && CallOk(s, j);
    SlotLaws(pos, 0, size);
    AtLeastTwo(size);
    if AtAPosition(s.calls[j]) {
      AtSetCell(s, pos, s.At(pos).(sequence := pos + size), s.calls[j].pos);
      SlotLaws(s.calls[j].pos, 0, size);
    }
  }

  /** Every step of every call keeps the invariant. */
  lemma StepInv<T>(s: State<T>, i: nat, spurious: bool, rest: T)
    requires Inv(s) && i < |s.calls|
    ensures Inv(Step(s, i, spurious, rest))
  {
    hide GoodSize, Slot, Inv;
    StepIsMove(s, i, spurious, rest);
    match s.calls[i]
    case EnqClaimed(_, _) => ProducerWrites(s, i, rest);
    case EnqWritten(_, _) => ProducerPublishes(s, i, rest);
    case DeqClaimed(_) => ConsumerReads(s, i, rest);
    case DeqRead(_, _) => ConsumerReleases(s, i, rest);
    case EnqTrying(_, pos) =>
      if s.enq == pos && !spurious { ProducerClaims(s, i); } else { LocalMove(s, i, EnqLoaded(s.calls[i].value, s.enq)); }
    case DeqTrying(pos) =>
      if s.deq == pos && !spurious { ConsumerClaims(s, i); } else { LocalMove(s, i, DeqLoaded(s.deq)); }
    case Enqueueing(_) => LocalMove(s, i, Step(s, i, spurious, rest).calls[i]);
    case EnqLoaded(_, _) => LocalMove(s, i, Step(s, i, spurious, rest).calls[i]);
    case Dequeueing => LocalMove(s, i, Step(s, i, spurious, rest).calls[i]);
    case DeqLoaded(_) => LocalMove(s, i, Step(s, i, spurious, rest).calls[i]);
    case _ =>
  }

  /** What a call that only loads a counter or a sequence does next is as it should be. */
  lemma StepIsMove<T>(s: State<T>, i: nat, spurious: bool, rest: T)
    requires Inv(s) && i < |s.calls|
    ensures s.Shaped()
    ensures var c := s.calls[i]; var t := Step(s, i, spurious, rest);
      c.Enqueueing? || c.EnqLoaded? || c.Dequeueing? || c.DeqLoaded?
        || (c.EnqTrying? && (spurious || s.enq != c.pos)) || (c.DeqTrying? && (spurious || s.deq != c.pos)) ==>
        t == s.SetCall(i, t.calls[i]) && CallOk(t, i)
  {
    hide GoodSize, Slot;
    assert CallOk(s, i);
  }

  lemma NextInv<T>(s: State<T>, e: Event<T>)
    requires Inv(s)
    ensures Inv(Next(s, e))
  {
    hide GoodSize, Slot;
    match e
    case CallEnqueue(v) => NewCall(s, Enqueueing(v));
    case CallDequeue => NewCall(s, Dequeueing);
    case Proceed(i, spurious, rest) => if i < |s.calls| { StepInv(s, i, spurious, rest); }
  }

  lemma {:induction false} ExecuteInv<T>(s: State<T>, events: seq<Event<T>>)
    requires Inv(s)
    ensures Inv(Execute(s, events))
    decreases |events|
  {
    if events != [] {
      NextInv(s, events[0]);
      ExecuteInv(Next(s, events[0]), events[1..]);
    }
  }

  /** The states that some interleaving of some calls leads to. */
  ghost predicate Reachable<T(!new)>(s: State<T>) {
    exists size: nat, rest: T, events: seq<Event<T>> ::
      Create(size, rest).Some? && s == Execute(Create(size, rest).value, events)
  }

  lemma ReachableInv<T(!new)>(s: State<T>)
    requires Reachable(s)
    ensures Inv(s)
  {
    var size: nat, rest: T, events: seq<Event<T>> :|
      Create(size, rest).Some? && s == Execute(Create(size, rest).value, events);
    CreateInv(size, rest);
    ExecuteInv(Fresh(size, rest), events);
  }

  // ---- What every interleaving guarantees ----

  /** The two counters stay within one turn of each other. */
  lemma CountersApart<T(!new)>(s: State<T>)
    requires Reachable(s)
    ensures s.deq <= s.enq <= s.deq + |s.cells|
  {
    ReachableInv(s);
  }

  /** Each position below `enq` is claimed by exactly one producer, and no other one is. */
  lemma OneProducer<T(!new)>(s: State<T>, p: nat)
    requires Reachable(s)
    ensures p < s.enq <==> exists i: nat :: i < |s.calls| && s.calls[i].Produces() && s.calls[i].pos == p
    ensures forall i: nat, j: nat | i < |s.calls| && j < |s.calls| ::
      s.calls[i].Produces() && s.calls[j].Produces() && s.calls[i].pos == p && s.calls[j].pos == p ==> i == j
  {
    hide GoodSize, Slot, Reachable;
    ReachableInv(s);
    if p < s.enq { assert OwnerAt(s, p); }
    forall i: nat | i < |s.calls| && s.calls[i].Produces() ensures s.calls[i].pos < s.enq && s.owners[s.calls[i].pos] == i {
      assert CallOk(s, i);
    }
  }

  /** Each position below `deq` is claimed by exactly one consumer, and no other one is. */
  lemma OneConsumer<T(!new)>(s: State<T>, p: nat)
    requires Reachable(s)
    ensures p < s.deq <==> exists i: nat :: i < |s.calls| && s.calls[i].Consumes() && s.calls[i].pos == p
    ensures forall i: nat, j: nat | i < |s.calls| && j < |s.calls| ::
      s.calls[i].Consumes() && s.calls[j].Consumes() && s.calls[i].pos == p && s.calls[j].pos == p ==> i == j
  {
    hide GoodSize, Slot, Reachable;
    ReachableInv(s);
    if p < s.deq { assert TakerAt(s, p); }
    forall i: nat | i < |s.calls| && s.calls[i].Consumes() ensures s.calls[i].pos < s.deq && s.takers[s.calls[i].pos] == i {
      assert CallOk(s, i);
    }
  }

  /** A dequeue returns what the enqueue that claimed the same position brought, and that enqueue had
      returned already or has stored its item for good. */
  lemma Delivered<T(!new)>(s: State<T>, i: nat)
    requires Reachable(s) && i < |s.calls| && s.calls[i].DeqDone?
    ensures exists j: nat :: j < |s.calls| && s.calls[j] == EnqDone(s.calls[i].value, s.calls[i].pos)
  {
    hide GoodSize, Slot, Reachable;
    ReachableInv(s);
    assert CallOk(s, i);
    var j := s.owners[s.calls[i].pos];
    assert OwnerAt(s, s.calls[i].pos);
    assert s.calls[j] == EnqDone(s.calls[i].value, s.calls[i].pos);
  }

  /** A consumer claimed the position and has not released its cell yet. */
  predicate HeldByConsumer<T>(s: State<T>, pos: nat) {
    exists j | 0 <= j < |s.calls| :: s.calls[j].Consumes() && !s.calls[j].Finished() && s.calls[j].pos == pos
  }

  /** A producer claimed the position and has not published its item yet. */
  predicate HeldByProducer<T>(s: State<T>, pos: nat) {
    exists j | 0 <= j < |s.calls| :: s.calls[j].Produces() && !s.calls[j].Finished() && s.calls[j].pos == pos
  }

  /** `enqueue` gives up only when the queue holds as many items as it has cells, or the consumer of
      the item that was in its cell one turn before has not released the cell. */
  lemma FullIsTrue<T(!new)>(s: State<T>, i: nat, spurious: bool, rest: T)
    requires Reachable(s) && i < |s.calls| && s.Shaped()
    requires !s.calls[i].EnqFull? && Step(s, i, spurious, rest).calls[i].EnqFull?
    ensures s.enq - s.deq == |s.cells| ||
      (s.enq >= |s.cells| && HeldByConsumer(s, s.enq - |s.cells|))
  {
    hide GoodSize, Slot, Reachable;
    ReachableInv(s);
    var pos, size := s.calls[i].pos, |s.cells|;
    var q := s.At(pos).sequence;
    assert CallOk(s, i);
    SlotLaws(pos, 0, size);
    assert CellOk(s, Slot(pos, size));
    SlotLaws(q, pos, size);
    if q >= 1 { SlotLaws(q - 1, pos, size); }
    assert s.enq == pos && pos >= size;
    if s.enq - s.deq != size {
      var p := pos - size;
      assert p < s.deq && q == p + 1;
      assert TakerAt(s, p) && CallOk(s, s.takers[p]);
      SlotLaws(p, 0, size);
      AtLeastTwo(size);
    }
  }

  /** `dequeue` gives up only when no item is claimed beyond those taken, or the next one is not
      published yet. */
  lemma EmptyIsTrue<T(!new)>(s: State<T>, i: nat, spurious: bool, rest: T)
    requires Reachable(s) && i < |s.calls| && s.Shaped()
    requires !s.calls[i].DeqEmpty? && Step(s, i, spurious, rest).calls[i].DeqEmpty?
    ensures s.enq == s.deq ||
      HeldByProducer(s, s.deq)
  {
    hide GoodSize, Slot, Reachable;
    ReachableInv(s);
    var pos, size := s.calls[i].pos, |s.cells|;
    var q := s.At(pos).sequence;
    assert CallOk(s, i);
    SlotLaws(pos, 0, size);
    assert CellOk(s, Slot(pos, size));
    SlotLaws(q, pos, size);
    if q >= 1 { SlotLaws(q - 1, pos, size); }
    if s.enq != s.deq {
      assert q == pos == s.deq;
      assert OwnerAt(s, pos) && CallOk(s, s.owners[pos]);
    }
  }

  // ---- Every interleaving is a run of a bounded first-in first-out queue ----

  /** What a successful exchange means for the queue as a list of items. */
  datatype Effect<T> = Put(call: nat, value: T) | Take(call: nat, value: T)

  /** The effect of one event: none unless an exchange succeeds. */
  function Happens<T>(s: State<T>, e: Event<T>): seq<Effect<T>>
    requires s.Shaped()
  {
    match e
    case Proceed(i, spurious, _) =>
      if i < |s.calls| && !spurious && s.calls[i].EnqTrying? && s.calls[i].pos == s.enq then
        [Put(i, s.calls[i].value)]
      else if i < |s.calls| && !spurious && s.calls[i].DeqTrying? && s.calls[i].pos == s.deq then
        [Take(i, s.At(s.deq).data)]
      else
        []
    case _ => []
  }

  function Effects<T>(s: State<T>, events: seq<Event<T>>): seq<Effect<T>>
    requires s.Shaped()
    decreases |events|
  {
    if events == [] then [] else Happens(s, events[0]) + Effects(Next(s, events[0]), events[1..])
  }

  /** One effect on a list of at most `size` items. */
  ghost function Apply<T>(q: seq<T>, e: Effect<T>, size: nat): Option<seq<T>> {
    match e
    case Put(_, v) => if |q| < size then Some(q + [v]) else None
    case Take(_, v) => if q != [] && q[0] == v then Some(q[1..]) else None
  }

  /** The list after all effects; nothing when one of them is not one of a bounded queue. */
  ghost function Replay<T>(h: seq<Effect<T>>, size: nat): Option<seq<T>> {
    if h == [] then Some([]) else
    match Replay(h[..|h| - 1], size)
    case None => None
    case Some(q) => Apply(q, h[|h| - 1], size)
  }

  /** The calls that put an item, in order, and what they put. */
  function Puts<T>(h: seq<Effect<T>>): seq<(nat, T)> {
    if h == [] then [] else
    Puts(h[..|h| - 1]) + if h[|h| - 1].Put? then [(h[|h| - 1].call, h[|h| - 1].value)] else []
  }

  /** The calls that took an item, in order, and what they took. */
  function Takes<T>(h: seq<Effect<T>>): seq<(nat, T)> {
    if h == [] then [] else
    Takes(h[..|h| - 1]) + if h[|h| - 1].Take? then [(h[|h| - 1].call, h[|h| - 1].value)] else []
  }

  /** All items ever claimed a position for, by position. */
  ghost function Produced<T>(s: State<T>): (r: seq<T>)
    requires Inv(s)
    ensures |r| == s.enq && forall p | 0 <= p < s.enq :: HasItem(s, p, r[p])
  {
    seq(s.enq, p requires 0 <= p < s.enq && p < |s.owners| && OwnerAt(s, p) => Item(s, p))
  }

  /** The items put and not yet taken. */
  ghost function Contents<T>(s: State<T>): seq<T>
    requires Inv(s)
  {
    Produced(s)[s.deq..]
  }

  /** The history of effects accounts for the state. */
  ghost predicate Told<T>(s: State<T>, h: seq<Effect<T>>)
    requires Inv(s)
  {
    && |Puts(h)| == s.enq
    && (forall p | 0 <= p < s.enq :: Puts(h)[p] == (s.owners[p], Produced(s)[p]))
    && |Takes(h)| == s.deq
    && (forall p | 0 <= p < s.deq :: Takes(h)[p] == (s.takers[p], Produced(s)[p]))
    && Replay(h, |s.cells|) == Some(Contents(s))
  }

  /** An event without effect changes nothing that the history speaks of. */
  lemma QuietEvent<T>(s: State<T>, e: Event<T>)
    requires Inv(s) && Happens(s, e) == []
    ensures Inv(Next(s, e)) && Produced(Next(s, e)) == Produced(s)
    ensures Next(s, e).owners == s.owners && Next(s, e).takers == s.takers
  {
    hide GoodSize, Slot;
    NextInv(s, e);
    var t := Next(s, e);
    forall p | 0 <= p < s.enq ensures Produced(t)[p] == Produced(s)[p] {
      assert OwnerAt(s, p) && HasItem(s, p, Produced(s)[p]) && HasItem(t, p, Produced(t)[p]);
    }
  }

  lemma PutEvent<T>(s: State<T>, e: Event<T>)
    requires Inv(s) && Happens(s, e) != [] && Happens(s, e)[0].Put?
    ensures Inv(Next(s, e)) && Produced(Next(s, e)) == Produced(s) + [Happens(s, e)[0].value]
    ensures Next(s, e).owners == s.owners + [Happens(s, e)[0].call] && Next(s, e).takers == s.takers
    ensures s.enq < s.deq + |s.cells|
  {
    hide GoodSize, Slot;
    NextInv(s, e);
    var t := Next(s, e);
    forall p | 0 <= p < t.enq ensures Produced(t)[p] == (Produced(s) + [Happens(s, e)[0].value])[p] {
      assert HasItem(t, p, Produced(t)[p]);
      if p < s.enq { assert OwnerAt(s, p) && HasItem(s, p, Produced(s)[p]); }
    }
  }

  lemma TakeEvent<T>(s: State<T>, e: Event<T>)
    requires Inv(s) && Happens(s, e) != [] && Happens(s, e)[0].Take?
    ensures Inv(Next(s, e)) && Produced(Next(s, e)) == Produced(s)
    ensures Next(s, e).takers == s.takers + [Happens(s, e)[0].call] && Next(s, e).owners == s.owners
    ensures s.deq < s.enq && Produced(s)[s.deq] == Happens(s, e)[0].value
  {
    hide GoodSize, Slot;
    NextInv(s, e);
    var t := Next(s, e);
    forall p | 0 <= p < s.enq ensures Produced(t)[p] == Produced(s)[p] {
      assert OwnerAt(s, p) && HasItem(s, p, Produced(s)[p]) && HasItem(t, p, Produced(t)[p]);
    }
    assert CallOk(s, e.call);
    SlotLaws(s.deq, 0, |s.cells|);
    assert CellOk(s, Slot(s.deq, |s.cells|));
    assert HasItem(s, s.deq, Produced(s)[s.deq]);
  }

  lemma NextTold<T>(s: State<T>, h: seq<Effect<T>>, e: Event<T>)
    requires Inv(s) && Told(s, h)
    ensures Inv(Next(s, e)) && Told(Next(s, e), h + Happens(s, e))
  {
    hide GoodSize, Slot, Inv, Produced, Next, Happens;
    NextInv(s, e);
    CountsAgree(s);
    var t := Next(s, e);
    CountsAgree(t);
    HappensOnce(s, e);
    if Happens(s, e) == [] {
      QuietEvent(s, e);
      assert h + Happens(s, e) == h;
    } else {
      var eff := Happens(s, e)[0];
      assert (h + [eff])[..|h|] == h;
      if eff.Put? {
        PutEvent(s, e);
        assert Contents(t) == Contents(s) + [eff.value];
      } else {
        TakeEvent(s, e);
        assert Contents(s)[0] == eff.value && Contents(t) == Contents(s)[1..];
      }
    }
  }

  lemma HappensOnce<T>(s: State<T>, e: Event<T>)
    requires s.Shaped()
    ensures Happens(s, e) == [] || Happens(s, e) == [Happens(s, e)[0]]
  {}

  lemma CountsAgree<T>(s: State<T>)
    requires Inv(s)
    ensures s.Shaped() && |s.owners| == s.enq && |s.takers| == s.deq && s.deq <= s.enq && |Produced(s)| == s.enq
  {}

  lemma {:induction false} ExecuteTold<T>(s: State<T>, h: seq<Effect<T>>, events: seq<Event<T>>)
    requires Inv(s) && Told(s, h)
    ensures Inv(Execute(s, events)) && Told(Execute(s, events), h + Effects(s, events))
    decreases |events|
  {
    hide GoodSize, Slot, Inv, Told, Next;
    if events == [] {
      assert h + [] == h;
    } else {
      NextTold(s, h, events[0]);
      ExecuteTold(Next(s, events[0]), h + Happens(s, events[0]), events[1..]);
      assert h + Happens(s, events[0]) + Effects(Next(s, events[0]), events[1..]) == h + Effects(s, events);
    }
  }

  /** Calls and effects match: a call that returned with success has the effect of its position,
      with the item it brought or returned, and the call of each effect holds that position. */
  predicate Accounts<T(==)>(s: State<T>, h: seq<Effect<T>>) {
    && (forall i | 0 <= i < |s.calls| ::
         var c := s.calls[i];
         && (c.EnqDone? ==> c.pos < |Puts(h)| && Puts(h)[c.pos] == (i, c.value))
         && (c.DeqDone? ==> c.pos < |Takes(h)| && Takes(h)[c.pos] == (i, c.value)))
    && (forall p | 0 <= p < |Puts(h)| ::
         Puts(h)[p].0 < |s.calls| && s.calls[Puts(h)[p].0].Produces() && s.calls[Puts(h)[p].0].pos == p)
    && (forall p | 0 <= p < |Takes(h)| ::
         Takes(h)[p].0 < |s.calls| && s.calls[Takes(h)[p].0].Consumes() && s.calls[Takes(h)[p].0].pos == p)
  }

  lemma ToldAccounts<T>(s: State<T>, h: seq<Effect<T>>)
    requires Inv(s) && Told(s, h)
    ensures Accounts(s, h)
  {
    hide GoodSize, Slot, Puts, Takes, Replay;
    forall i | 0 <= i < |s.calls|
      ensures s.calls[i].EnqDone? ==>
        s.calls[i].pos < |Puts(h)| && Puts(h)[s.calls[i].pos] == (i, s.calls[i].value)
      ensures s.calls[i].DeqDone? ==>
        s.calls[i].pos < |Takes(h)| && Takes(h)[s.calls[i].pos] == (i, s.calls[i].value)
    {
      assert CallOk(s, i);
      if s.calls[i].EnqDone? || s.calls[i].DeqDone? {
        var p := s.calls[i].pos;
        assert p < s.enq && HasItem(s, p, Produced(s)[p]);
      }
    }
    forall p | 0 <= p < |Puts(h)|
      ensures Puts(h)[p].0 < |s.calls| && s.calls[Puts(h)[p].0].Produces() && s.calls[Puts(h)[p].0].pos == p
    {
      assert OwnerAt(s, p);
    }
    forall p | 0 <= p < |Takes(h)|
      ensures Takes(h)[p].0 < |s.calls| && s.calls[Takes(h)[p].0].Consumes() && s.calls[Takes(h)[p].0].pos == p
    {
      assert TakerAt(s, p);
    }
  }

  /** Whatever the interleaving, the successful exchanges in their order are a run of a
      first-in first-out queue of at most `size` items, and `Accounts` ties them to the calls. */
  lemma Linearizable<T>(size: nat, rest: T, events: seq<Event<T>>)
    requires GoodSize(size)
    ensures Inv(Execute(Fresh(size, rest), events))
    ensures Replay(Effects(Fresh(size, rest), events), size) == Some(Contents(Execute(Fresh(size, rest), events)))
    ensures Accounts(Execute(Fresh(size, rest), events), Effects(Fresh(size, rest), events))
  {
    hide GoodSize, Slot, Execute, Effects, Accounts;
    var s0 := Fresh(size, rest);
    CreateInv(size, rest);
    assert Told(s0, []) by { assert Contents(s0) == []; }
    ExecuteTold(s0, [], events);
    assert [] + Effects(s0, events) == Effects(s0, events);
    ToldAccounts(Execute(s0, events), Effects(s0, events));
  }

  // ---- A retry means that another call got through ----

  lemma {:induction false} PutsConcat<T>(h: seq<Effect<T>>, k: seq<Effect<T>>)
    ensures Puts(h + k) == Puts(h) + Puts(k) && Takes(h + k) == Takes(h) + Takes(k)
    decreases |k|
  {
    if k == [] {
      assert h + k == h;
    } else {
      var m := |k| - 1;
      assert h + k == (h + k[..m]) + [k[m]];
      assert ((h + k[..m]) + [k[m]])[..|h| + m] == h + k[..m];
      PutsConcat(h, k[..m]);
    }
  }

  /** The sequence that a call reads is past its position only when the counter is too. */
  lemma PastPosition<T>(s: State<T>, i: nat)
    requires Inv(s) && i < |s.calls|
    ensures s.calls[i].EnqLoaded? && s.At(s.calls[i].pos).sequence > s.calls[i].pos ==> s.enq > s.calls[i].pos
    ensures s.calls[i].DeqLoaded? && s.At(s.calls[i].pos).sequence > s.calls[i].pos + 1 ==> s.deq > s.calls[i].pos
  {
    hide GoodSize, Slot;
    assert CallOk(s, i);
    if s.calls[i].EnqLoaded? || s.calls[i].DeqLoaded? {
      var pos, size := s.calls[i].pos, |s.cells|;
      var q := s.At(pos).sequence;
      SlotLaws(pos, q, size);
      assert CellOk(s, Slot(pos, size));
      AtLeastTwo(size);
      if q >= 1 { SlotLaws(pos, q - 1, size); }
    }
  }

  /** The next step of the call, without a spurious failure, neither lets it try the exchange, nor succeeds with it,
      nor gives up. */
  predicate Retries<T>(s: State<T>, i: nat, rest: T)
    requires s.Shaped() && i < |s.calls|
  {
    var c := Step(s, i, false, rest).calls[i];
    match s.calls[i]
    case EnqLoaded(_, _) => !c.EnqTrying? && !c.EnqFull?
    case EnqTrying(_, _) => !c.EnqClaimed?
    case DeqLoaded(_) => !c.DeqTrying? && !c.DeqEmpty?
    case DeqTrying(_) => !c.DeqClaimed?
    case _ => false
  }

  lemma RetryMeansPassed<T>(s: State<T>, i: nat, rest: T)
    requires Inv(s) && i < |s.calls| && Retries(s, i, rest)
    ensures s.calls[i].EnqLoaded? || s.calls[i].EnqTrying? ==> s.enq > s.calls[i].pos
    ensures s.calls[i].DeqLoaded? || s.calls[i].DeqTrying? ==> s.deq > s.calls[i].pos
    ensures s.calls[i].EnqLoaded? || s.calls[i].EnqTrying? || s.calls[i].DeqLoaded? || s.calls[i].DeqTrying?
  {
    hide GoodSize, Slot;
    PastPosition(s, i);
    assert CallOk(s, i);
  }

  /** What has happened since `s` is told by the effects since `s`. */
  lemma ToldSince<T>(s: State<T>, h: seq<Effect<T>>, events: seq<Event<T>>)
    requires Inv(s) && Told(s, h)
    ensures var t := Execute(s, events); var e := Effects(s, events);
      && Inv(t) && t.enq == s.enq + |Puts(e)| && t.deq == s.deq + |Takes(e)|
      && (forall p | s.enq <= p < t.enq :: Puts(e)[p - s.enq].0 == t.owners[p])
      && (forall p | s.deq <= p < t.deq :: Takes(e)[p - s.deq].0 == t.takers[p])
  {
    hide GoodSize, Slot, Execute, Effects, Puts, Takes, Replay, Produced;
    ExecuteTold(s, h, events);
    PutsConcat(h, Effects(s, events));
    var t, e := Execute(s, events), Effects(s, events);
    forall p | s.enq <= p < t.enq ensures Puts(e)[p - s.enq].0 == t.owners[p] {
      assert Puts(h + e)[p] == Puts(e)[p - s.enq];
    }
    forall p | s.deq <= p < t.deq ensures Takes(e)[p - s.deq].0 == t.takers[p] {
      assert Takes(h + e)[p] == Takes(e)[p - s.deq];
    }
  }

  lemma SomeHistory<T(!new)>(s: State<T>) returns (h: seq<Effect<T>>)
    requires Reachable(s)
    ensures Inv(s) && Told(s, h)
  {
    hide GoodSize, Slot, Execute, Effects;
    var size: nat, rest: T, events: seq<Event<T>> :|
      Create(size, rest).Some? && s == Execute(Create(size, rest).value, events);
    var s0 := Fresh(size, rest);
    CreateInv(size, rest);
    assert Told(s0, []) by { assert Contents(s0) == []; }
    ExecuteTold(s0, [], events);
    h := Effects(s0, events);
    assert [] + h == h;
  }

  /** No call holds the others up: when an enqueue has read the counter in `s` and after `events` has to try again
      without a spurious failure, then another enqueue has claimed a position in between. */
  lemma EnqueueRetry<T(!new)>(s: State<T>, i: nat, events: seq<Event<T>>, rest: T)
    requires Reachable(s) && s.Shaped() && i < |s.calls| && s.calls[i].EnqLoaded? && s.calls[i].pos == s.enq
    requires var t := Execute(s, events);
      && i < |t.calls| && (t.calls[i].EnqLoaded? || t.calls[i].EnqTrying?) && t.calls[i].pos == s.enq
      && Retries(t, i, rest)
    ensures Puts(Effects(s, events)) != [] && Puts(Effects(s, events))[0].0 != i
  {
    hide GoodSize, Slot, Reachable, Execute, Effects, Puts, Retries;
    var h := SomeHistory(s);
    ToldSince(s, h, events);
    var t := Execute(s, events);
    RetryMeansPassed(t, i, rest);
    assert OwnerAt(t, s.enq);
  }

  /** The same for a dequeue. */
  lemma DequeueRetry<T(!new)>(s: State<T>, i: nat, events: seq<Event<T>>, rest: T)
    requires Reachable(s) && s.Shaped() && i < |s.calls| && s.calls[i].DeqLoaded? && s.calls[i].pos == s.deq
    requires var t := Execute(s, events);
      && i < |t.calls| && (t.calls[i].DeqLoaded? || t.calls[i].DeqTrying?) && t.calls[i].pos == s.deq
      && Retries(t, i, rest)
    ensures Takes(Effects(s, events)) != [] && Takes(Effects(s, events))[0].0 != i
  {
    hide GoodSize, Slot, Reachable, Execute, Effects, Takes, Retries;
    var h := SomeHistory(s);
    ToldSince(s, h, events);
    var t := Execute(s, events);
    RetryMeansPassed(t, i, rest);
    assert TakerAt(t, s.deq);
  }

  // ---- A call that runs alone ----

  /** No call is under way. */
  predicate Quiet<T>(s: State<T>) {
    forall i | 0 <= i < |s.calls| :: s.calls[i].Finished()
  }

  /** Call `i` makes its steps with nothing in between and no spurious failure. */
  function Alone<T>(s: State<T>, i: nat, rest: T, steps: nat): (r: State<T>)
    requires s.Shaped() && i < |s.calls|
    ensures |r.cells| == |s.cells| && |r.calls| == |s.calls|
    decreases steps
  {
    if steps == 0 then s else Alone(Step(s, i, false, rest), i, rest, steps - 1)
  }

  lemma QuietProducer<T>(s: State<T>, p: nat)
    requires Inv(s) && Quiet(s)
    ensures p < s.enq ==> s.At(p).sequence > p
  {
    hide GoodSize, Slot;
    if p < s.enq { assert OwnerAt(s, p) && CallOk(s, s.owners[p]); }
  }

  lemma QuietConsumer<T>(s: State<T>, p: nat)
    requires Inv(s) && Quiet(s)
    ensures p < s.deq ==> s.At(p).sequence >= p + |s.cells|
  {
    hide GoodSize, Slot;
    if p < s.deq { assert TakerAt(s, p) && CallOk(s, s.takers[p]); }
  }

  /** With no call under way the cell of the next position to produce is vacant exactly when there is
      room. */
  lemma QuietTail<T>(s: State<T>)
    requires Inv(s) && Quiet(s)
    ensures s.At(s.enq).sequence == s.enq <==> s.enq - s.deq < |s.cells|
    ensures s.At(s.enq).sequence <= s.enq
  {
    hide GoodSize, Slot;
    var pos, size := s.enq, |s.cells|;
    var q := s.At(pos).sequence;
    SlotLaws(pos, 0, size);
    assert CellOk(s, Slot(pos, size));
    SlotLaws(q, pos, size);
    SlotLaws(pos, q, size);
    if Slot(q, size) == Slot(pos, size) {
      QuietProducer(s, q);
    } else {
      SlotLaws(q - 1, pos, size);
      QuietConsumer(s, q - 1);
      AtLeastTwo(size);
    }
  }

  /** With no call under way the cell of the next position to consume holds its item exactly when the
      queue is not empty. */
  lemma QuietHead<T>(s: State<T>)
    requires Inv(s) && Quiet(s)
    ensures s.At(s.deq).sequence == s.deq + 1 <==> s.deq < s.enq
    ensures s.At(s.deq).sequence <= s.deq + 1
    ensures s.deq < s.enq ==> HasItem(s, s.deq, s.At(s.deq).data)
  {
    hide GoodSize, Slot;
    var pos, size := s.deq, |s.cells|;
    var q := s.At(pos).sequence;
    SlotLaws(pos, 0, size);
    assert CellOk(s, Slot(pos, size));
    SlotLaws(q, pos, size);
    SlotLaws(pos, q, size);
    AtLeastTwo(size);
    if Slot(q, size) == Slot(pos, size) {
      QuietProducer(s, q);
    } else {
      SlotLaws(q - 1, pos, size);
      SlotLaws(pos, q - 1, size);
      QuietConsumer(s, q - 1);
    }
  }

  lemma HeadItem<T>(s: State<T>)
    requires Inv(s)
    ensures Contents(s) == Produced(s)[s.deq..] && (Contents(s) != [] <==> s.deq < s.enq)
    ensures s.deq < s.enq && HasItem(s, s.deq, s.At(s.deq).data) ==> s.At(s.deq).data == Contents(s)[0]
  {
    hide GoodSize, Slot;
    if s.deq < s.enq { assert HasItem(s, s.deq, Produced(s)[s.deq]); }
  }

  /** An `enqueue` that runs alone appends its item exactly when there is room, and gives up without a
      change otherwise. */
  lemma EnqueueAlone<T(!new)>(s: State<T>, v: T, rest: T)
    requires Reachable(s) && Quiet(s) && s.Shaped()
    ensures var i := |s.calls|; var t := Alone(Next(s, CallEnqueue(v)), i, rest, 5);
      && Inv(s) && Inv(t) && Quiet(t)
      && (if |Contents(s)| < |s.cells|
          then t.calls[i] == EnqDone(v, s.enq) && Contents(t) == Contents(s) + [v]
          else t.calls[i] == EnqFull(v) && Contents(t) == Contents(s))
  {
    hide GoodSize, Slot, Inv, Produced, Reachable;
    var i := |s.calls|;
    ReachableInv(s);
    CountsAgree(s);
    QuietTail(s);
    QuietEvent(s, CallEnqueue(v));
    var t0 := Next(s, CallEnqueue(v));
    QuietEvent(t0, Proceed(i, false, rest));
    var t1 := Step(t0, i, false, rest);
    assert t1.calls[i] == EnqLoaded(v, s.enq);
    QuietEvent(t1, Proceed(i, false, rest));
    var t2 := Step(t1, i, false, rest);
    if s.enq - s.deq < |s.cells| {
      assert t2.calls[i] == EnqTrying(v, s.enq);
      PutEvent(t2, Proceed(i, false, rest));
      var t3 := Step(t2, i, false, rest);
      assert t3.calls[i] == EnqClaimed(v, s.enq);
      QuietEvent(t3, Proceed(i, false, rest));
      var t4 := Step(t3, i, false, rest);
      assert t4.calls[i] == EnqWritten(v, s.enq);
      QuietEvent(t4, Proceed(i, false, rest));
      var t5 := Step(t4, i, false, rest);
    } else {
      assert t2.calls[i] == EnqFull(v);
    }
  }

  /** The last three steps of a dequeue whose exchange succeeds. */
  lemma TakeAlone<T>(s: State<T>, i: nat, rest: T)
    requires Inv(s) && s.Shaped() && i < |s.calls| && s.calls[i] == DeqTrying(s.deq)
    ensures var t := Alone(s, i, rest, 3);
      && Inv(t) && Contents(s) != [] && Contents(t) == Contents(s)[1..]
      && t.calls == s.calls[i := DeqDone(s.deq, Contents(s)[0])]
  {
    hide GoodSize, Slot, Inv, Produced, Contents;
    CountsAgree(s);
    HeadItem(s);
    TakeEvent(s, Proceed(i, false, rest));
    var t1 := Step(s, i, false, rest);
    assert t1.calls[i] == DeqClaimed(s.deq) && t1.cells == s.cells;
    HeadItem(t1);
    ReadAndRelease(t1, i, rest);
  }

  lemma ReadAndRelease<T>(s: State<T>, i: nat, rest: T)
    requires Inv(s) && s.Shaped() && i < |s.calls| && s.calls[i].DeqClaimed?
    ensures var t := Alone(s, i, rest, 2);
      && Inv(t) && Contents(t) == Contents(s)
      && t.calls == s.calls[i := DeqDone(s.calls[i].pos, s.At(s.calls[i].pos).data)]
  {
    hide GoodSize, Slot, Inv, Produced, Contents;
    CountsAgree(s);
    HeadItem(s);
    var pos := s.calls[i].pos;
    QuietEvent(s, Proceed(i, false, rest));
    var t1 := Step(s, i, false, rest);
    CountsAgree(t1);
    HeadItem(t1);
    assert t1.calls[i] == DeqRead(pos, s.At(pos).data);
    QuietEvent(t1, Proceed(i, false, rest));
    var t2 := Step(t1, i, false, rest);
    CountsAgree(t2);
    HeadItem(t2);
  }

  /** A `dequeue` that runs alone takes the oldest item exactly when there is one, and gives up without
      a change otherwise. */
  lemma DequeueAlone<T(!new)>(s: State<T>, rest: T)
    requires Reachable(s) && Quiet(s) && s.Shaped()
    ensures var i := |s.calls|; var t := Alone(Next(s, CallDequeue), i, rest, 5);
      && Inv(s) && Inv(t) && Quiet(t)
      && (if Contents(s) != []
          then t.calls[i] == DeqDone(s.deq, Contents(s)[0]) && Contents(t) == Contents(s)[1..]
          else t.calls[i] == DeqEmpty && Contents(t) == Contents(s))
  {
    hide GoodSize, Slot, Inv, Produced, Reachable;
    var i := |s.calls|;
    ReachableInv(s);
    CountsAgree(s);
    QuietHead(s);
    HeadItem(s);
    QuietEvent(s, CallDequeue);
    var t0 := Next(s, CallDequeue);
    QuietEvent(t0, Proceed(i, false, rest));
    var t1 := Step(t0, i, false, rest);
    assert t1.calls[i] == DeqLoaded(s.deq);
    QuietEvent(t1, Proceed(i, false, rest));
    var t2 := Step(t1, i, false, rest);
    if Contents(s) != [] {
      assert t2.calls[i] == DeqTrying(s.deq);
      TakeAlone(t2, i, rest);
    } else {
      assert t2.calls[i] == DeqEmpty;
    }
  }

  // ---- Every call ends when it runs alone ----

  /** A finished call takes no more steps. */
  lemma {:induction false} FinishedStays<T>(s: State<T>, i: nat, rest: T, steps: nat)
    requires s.Shaped() && i < |s.calls| && s.calls[i].Finished()
    ensures Alone(s, i, rest, steps) == s
    decreases steps
  {
    if steps > 0 { FinishedStays(s, i, rest, steps - 1); }
  }

  /** How many of its own steps a call needs at most. A call that has read the present counter needs four, one that
      read it earlier may have to read it again. */
  function Remaining<T>(s: State<T>, i: nat): nat
    requires i < |s.calls|
  {
    match s.calls[i]
    case Enqueueing(_) => 5
    case EnqLoaded(_, pos) => if pos == s.enq then 4 else 6
    case EnqTrying(_, pos) => if pos == s.enq then 3 else 5
    case EnqClaimed(_, _) => 2
    case EnqWritten(_, _) => 1
    case Dequeueing => 5
    case DeqLoaded(pos) => if pos == s.deq then 4 else 6
    case DeqTrying(pos) => if pos == s.deq then 3 else 5
    case DeqClaimed(_) => 2
    case DeqRead(_, _) => 1
    case _ => 0
  }

  /** Each step of its own brings a call closer to its end. */
  lemma StepCloser<T>(s: State<T>, i: nat, rest: T)
    requires Inv(s) && i < |s.calls| && !s.calls[i].Finished()
    ensures Inv(Step(s, i, false, rest)) && Remaining(Step(s, i, false, rest), i) < Remaining(s, i)
  {
    hide GoodSize, Slot;
    StepInv(s, i, false, rest);
    PastPosition(s, i);
    assert CallOk(s, i);
  }

  lemma {:induction false} AloneEnds<T>(s: State<T>, i: nat, rest: T, steps: nat)
    requires Inv(s) && i < |s.calls| && Remaining(s, i) <= steps
    ensures Alone(s, i, rest, steps).calls[i].Finished()
    decreases steps
  {
    hide GoodSize, Slot, Inv, Step;
    CountsAgree(s);
    if s.calls[i].Finished() {
      FinishedStays(s, i, rest, steps);
    } else {
      StepCloser(s, i, rest);
      AloneEnds(Step(s, i, false, rest), i, rest, steps - 1);
    }
  }

  /** From whatever point it has reached, in whatever interleaving, a call left to run alone ends within six steps. */
  lemma EndsAlone<T(!new)>(s: State<T>, i: nat, rest: T)
    requires Reachable(s) && s.Shaped() && i < |s.calls|
    ensures Alone(s, i, rest, 6).calls[i].Finished()
  {
    hide GoodSize, Slot, Inv, Reachable;
    ReachableInv(s);
    AloneEnds(s, i, rest, 6);
  }
}
