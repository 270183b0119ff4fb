/**
 The bounded multi-producer single-consumer ring of the write scheduler, as a transition system.

 One action is one atomic operation of `Push`, `Pop` or `Close`; any number of producers and one
 consumer interleave them freely.  Memory is sequentially consistent, positions are unbounded, and
 waiting on a condition variable is a retry of the enclosing loop.  `accepted`, `delivered` and
 `sent` are history variables: nothing the queue does reads them.
 */
module Ring {
  import opened Wrappers

  /** One ring slot; a value that was never written, or was moved from, is None. */
  datatype Slot<T> = Slot(sequence: nat, value: Option<T>)

  /** Where a producer stands inside Push; each case names the operation it performs next. */
  datatype PushPc<T> =
    | PushIdle
    | PushLoadClosed(value: T)
    | PushLoadPos(value: T)
    | PushLoadSequence(value: T, pos: nat)
    | PushReserve(value: T, pos: nat)
    | PushWrite(value: T, pos: nat)
    | PushPublish(value: T, pos: nat)
    | PushReturn(value: T, ok: bool)

  /** Where the consumer stands inside Pop. */
  datatype PopPc<T> =
    | PopIdle
    | PopLoadSequence
    | PopTake
    | PopRelease(value: Option<T>)
    | PopAdvance(value: Option<T>)
    | PopLoadClosed
    | PopGot(value: Option<T>)
    | PopEmpty

  /** A value together with the producer whose compare-exchange accepted it. */
  datatype Entry<T> = Entry(id: nat, value: T)

  datatype State<T> = State(
    slots: seq<Slot<T>>,
    enqueuePos: nat,
    dequeuePos: nat,
    closed: bool,
    pushes: map<nat, PushPc<T>>,
    pop: PopPc<T>,
    accepted: seq<Entry<T>>,
    delivered: seq<Option<T>>,
    sent: map<nat, seq<T>>)
  {
    function Capacity(): nat { |slots| }

    function Pc(id: nat): PushPc<T> {
      if id in pushes then pushes[id] else PushIdle
    }

    /** Values for which producer id has had Push return true, in program order. */
    function Sent(id: nat): seq<T> {
      if id in sent then sent[id] else []
    }

    /** The first position whose slot the consumer has not handed back. */
    function Released(): nat {
      dequeuePos + if pop.PopAdvance? then 1 else 0
    }

    function DeliveredCount(): nat {
      dequeuePos + if pop.PopRelease? || pop.PopAdvance? then 1 else 0
    }
  }

  datatype Action<T> =
    | CallPush(id: nat, value: T)
    | StepPush(id: nat, spurious: bool)
    | ReturnPush(id: nat)
    | CallPop
    | StepPop
    | ReturnPop
    | Close

  // ---------------------------------------------------------------- slot index

  /** `pos % capacity`, by repeated subtraction so that the solver meets no non-linear modulus. */
  function Index(pos: nat, capacity: nat): (i: nat)
    requires capacity > 0
    ensures i < capacity
    decreases pos
  {
    if pos < capacity then pos else Index(pos - capacity, capacity)
  }

  lemma {:induction false} IndexIsRemainder(pos: nat, capacity: nat)
    requires capacity > 0
    ensures Index(pos, capacity) == pos % capacity
    decreases pos
  {
    if pos >= capacity {
      IndexIsRemainder(pos - capacity, capacity);
      RemainderOfDifference(pos, capacity);
    } else {
      RemainderOfSmall(pos, capacity);
    }
  }

  lemma RemainderOfSmall(x: nat, m: nat)
    requires x < m
    ensures x % m == x
  {
    QuotientUnique(x / m, 0, x % m, x, m);
  }

  lemma RemainderOfDifference(x: nat, m: nat)
    requires 0 < m <= x
    ensures (x - m) % m == x % m
  {
    var d := x - m;
    assert x == (d / m + 1) * m + d % m by {
      assert d == (d / m) * m + d % m;
      assert (d / m + 1) * m == (d / m) * m + m;
    }
    QuotientUnique(d / m + 1, x / m, d % m, x % m, m);
  }

  lemma QuotientUnique(q1: int, q2: int, r1: nat, r2: nat, m: nat)
    requires m > 0 && r1 < m && r2 < m
    requires q1 * m + r1 == q2 * m + r2
    ensures r1 == r2
  {
    if q1 > q2 {
      MultipleIsLarge(q1, q2, m);
      assert false;
    } else if q1 < q2 {
      MultipleIsLarge(q2, q1, m);
      assert false;
    }
  }

  lemma {:induction false} MultipleIsLarge(a: int, b: int, m: nat)
    requires a > b
    ensures a * m >= b * m + m
    decreases a - b
  {
    if a > b + 1 {
      MultipleIsLarge(a - 1, b, m);
    }
    assert a * m == (a - 1) * m + m;
  }

  /** Positions in one window of `capacity` consecutive positions use different slots. */
  lemma {:induction false} IndexDistinct(p: nat, q: nat, capacity: nat)
    requires capacity > 0
    requires p < q < p + capacity
    ensures Index(p, capacity) != Index(q, capacity)
    decreases p
  {
    if p >= capacity {
      IndexDistinct(p - capacity, q - capacity, capacity);
    } else if q >= capacity {
      assert Index(q, capacity) == Index(q - capacity, capacity) == q - capacity;
    }
  }

  lemma IndexPeriodic(p: nat, capacity: nat)
    requires capacity > 0
    ensures Index(p + capacity, capacity) == Index(p, capacity)
  {
  }

  /** Every slot is the slot of some position of the window that starts at lo. */
  lemma {:induction false} IndexOnto(i: nat, lo: nat, capacity: nat) returns (p: nat)
    requires i < capacity
    ensures lo <= p < lo + capacity && Index(p, capacity) == i
    decreases lo
  {
    if lo == 0 {
      p := i;
    } else {
      var q := IndexOnto(i, lo - 1, capacity);
      if q == lo - 1 {
        p := q + capacity;
      } else {
        p := q;
      }
    }
  }

  // ---------------------------------------------------------------- transitions

  /** The constructor: capacity is at least 1 and slot i starts free for position i. */
  function Init<T>(capacity: nat): (s: State<T>)
    ensures s.Capacity() == if capacity < 1 then 1 else capacity
    ensures forall p: nat | p < s.Capacity() :: s.slots[Index(p, s.Capacity())].sequence == p
    ensures s.enqueuePos == s.dequeuePos == 0 && !s.closed
  {
    var n := if capacity < 1 then 1 else capacity;
    State(seq(n, i requires 0 <= i < n => Slot(i, None)), 0, 0, false, map[], PopIdle, [], [], map[])
  }

  predicate Enabled<T>(s: State<T>, a: Action<T>) {
    && s.Capacity() > 0
    && match a
       case CallPush(id, _) => s.Pc(id).PushIdle?
       case StepPush(id, _) => !s.Pc(id).PushIdle? && !s.Pc(id).PushReturn?
       case ReturnPush(id) => s.Pc(id).PushReturn?
       case CallPop => s.pop.PopIdle?
       case StepPop => !s.pop.PopIdle? && !s.pop.PopGot? && !s.pop.PopEmpty?
       case ReturnPop => s.pop.PopGot? || s.pop.PopEmpty?
       case Close => true
  }

  function Apply<T>(s: State<T>, a: Action<T>): State<T>
    requires Enabled(s, a)
  {
    match a
    case CallPush(id, value) => s.(pushes := s.pushes[id := PushLoadClosed(value)])
    case StepPush(id, spurious) => PushStep(s, id, spurious)
    case ReturnPush(id) =>
      var returned := s.(pushes := s.pushes[id := PushIdle]);
      if s.Pc(id).ok then returned.(sent := s.sent[id := s.Sent(id) + [s.Pc(id).value]]) else returned
    case CallPop => s.(pop := PopLoadSequence)
    case StepPop => PopStep(s)
    case ReturnPop => s.(pop := PopIdle)
    case Close => s.(closed := true)
  }

  /** One atomic operation of Push; a weak compare-exchange may fail spuriously. */
  function PushStep<T>(s: State<T>, id: nat, spurious: bool): State<T>
    requires Enabled(s, StepPush(id, spurious))
  {
    match s.Pc(id)
    case PushLoadClosed(value) =>
      s.(pushes := s.pushes[id := if s.closed then PushReturn(value, false) else PushLoadPos(value)])
    case PushLoadPos(value) =>
      s.(pushes := s.pushes[id := PushLoadSequence(value, s.enqueuePos)])
    case PushLoadSequence(value, pos) =>
      if s.slots[Index(pos, s.Capacity())].sequence == pos then
        s.(pushes := s.pushes[id := PushReserve(value, pos)])
      else
        s.(pushes := s.pushes[id := PushLoadClosed(value)])
    case PushReserve(value, pos) =>
      if s.enqueuePos == pos && !spurious then
        s.(enqueuePos := pos + 1,
           accepted := s.accepted + [Entry(id, value)],
           pushes := s.pushes[id := PushWrite(value, pos)])
      else
        s.(pushes := s.pushes[id := PushLoadClosed(value)])
    case PushWrite(value, pos) =>
      var i := Index(pos, s.Capacity());
      s.(slots := s.slots[i := s.slots[i].(value := Some(value))],
         pushes := s.pushes[id := PushPublish(value, pos)])
    case PushPublish(value, pos) =>
      var i := Index(pos, s.Capacity());
      s.(slots := s.slots[i := s.slots[i].(sequence := pos + 1)],
         pushes := s.pushes[id := PushReturn(value, true)])
  }

  /** One atomic operation of Pop. */
  function PopStep<T>(s: State<T>): State<T>
    requires Enabled(s, StepPop)
  {
    var i := Index(s.dequeuePos, s.Capacity());
    match s.pop
    case PopLoadSequence =>
      if s.slots[i].sequence == s.dequeuePos + 1 then s.(pop := PopTake)
      else if s.slots[i].sequence < s.dequeuePos + 1 then s.(pop := PopLoadClosed)
      else s
    case PopTake =>
      s.(pop := PopRelease(s.slots[i].value),
         slots := s.slots[i := s.slots[i].(value := None)],
         delivered := s.delivered + [s.slots[i].value])
    case PopRelease(value) =>
      s.(slots := s.slots[i := s.slots[i].(sequence := s.dequeuePos + s.Capacity())],
         pop := PopAdvance(value))
    case PopAdvance(value) =>
      s.(dequeuePos := s.dequeuePos + 1, pop := PopGot(value))
    case PopLoadClosed =>
      s.(pop := if s.closed then PopEmpty else PopLoadSequence)
  }

  /** Producer id's next operation is a compare-exchange that succeeds. */
  predicate Accepts<T>(s: State<T>, a: Action<T>) {
    a.StepPush? && s.Pc(a.id).PushReserve? && s.Pc(a.id).pos == s.enqueuePos && !a.spurious
  }

  /** The consumer's next operation moves a value out of its slot. */
  predicate Takes<T>(s: State<T>, a: Action<T>) {
    a.StepPop? && s.pop.PopTake?
  }

  /** What one action does to the histories, the flag and the producers' program counters. */
  lemma ActionFrame<T>(s: State<T>, a: Action<T>)
    requires Enabled(s, a)
    ensures var t := Apply(s, a);
            && t.Capacity() == s.Capacity()
            && t.accepted == (if Accepts(s, a) then s.accepted + [Entry(a.id, s.Pc(a.id).value)] else s.accepted)
            && t.delivered == (if Takes(s, a) then s.delivered + [t.pop.value] else s.delivered)
            && t.closed == (s.closed || a.Close?)
            && (forall id | !(a.CallPush? || a.StepPush? || a.ReturnPush?) || id != a.id ::
                  t.Pc(id) == s.Pc(id) && t.Sent(id) == s.Sent(id))
            && (!a.CallPop? && !a.StepPop? && !a.ReturnPop? ==> t.pop == s.pop)
  {
  }

  ghost predicate Next<T(!new)>(s: State<T>, t: State<T>) {
    exists a :: Enabled(s, a) && t == Apply(s, a)
  }

  ghost predicate IsRun<T(!new)>(run: seq<State<T>>) {
    |run| > 0 && forall i | 0 <= i < |run| - 1 :: Next(run[i], run[i + 1])
  }

  ghost predicate Reachable<T(!new)>(capacity: nat, s: State<T>) {
    exists run: seq<State<T>> :: IsRun(run) && run[0] == Init(capacity) && run[|run| - 1] == s
  }

  // ---------------------------------------------------------------- invariant

  /** Producer id has reserved position pos and has not yet published it. */
  ghost predicate Holds<T>(s: State<T>, id: nat, pos: nat) {
    var pc := s.Pc(id);
    (pc.PushWrite? || pc.PushPublish?) && pc.pos == pos
  }

  /** The slot of position p is free, reserved or published for p and for no other position. */
  ghost predicate SlotFits<T>(s: State<T>, p: nat)
    requires s.Capacity() > 0 && |s.accepted| == s.enqueuePos
  {
    var slot := s.slots[Index(p, s.Capacity())];
    if p >= s.enqueuePos then slot.sequence == p
    else
      || (slot.sequence == p && Holds(s, s.accepted[p].id, p))
      || (slot.sequence == p + 1 &&
          ((p == s.dequeuePos && s.pop.PopRelease?) || slot.value == Some(s.accepted[p].value)))
  }

  ghost predicate WindowFits<T>(s: State<T>)
    requires s.Capacity() > 0 && |s.accepted| == s.enqueuePos
  {
    forall p: nat | s.Released() <= p < s.Released() + s.Capacity() :: SlotFits(s, p)
  }

  ghost predicate PusherFits<T>(s: State<T>, id: nat)
    requires s.Capacity() > 0 && |s.accepted| == s.enqueuePos
  {
    match s.Pc(id)
    case PushLoadSequence(_, pos) => pos <= s.enqueuePos
    case PushReserve(_, pos) =>
      pos <= s.enqueuePos &&
      (pos == s.enqueuePos ==> s.slots[Index(pos, s.Capacity())].sequence == pos)
    case PushWrite(value, pos) =>
      && s.Released() <= pos < s.enqueuePos
      && s.accepted[pos] == Entry(id, value)
      && s.slots[Index(pos, s.Capacity())].sequence == pos
    case PushPublish(value, pos) =>
      && s.Released() <= pos < s.enqueuePos
      && s.accepted[pos] == Entry(id, value)
      && s.slots[Index(pos, s.Capacity())] == Slot(pos, Some(value))
    case _ => true
  }

  ghost predicate PushersFit<T>(s: State<T>)
    requires s.Capacity() > 0 && |s.accepted| == s.enqueuePos
  {
    forall id | id in s.pushes :: PusherFits(s, id)
  }

  ghost predicate PopperFits<T>(s: State<T>)
    requires s.Capacity() > 0 && |s.accepted| == s.enqueuePos
  {
    match s.pop
    case PopTake =>
      s.dequeuePos < s.enqueuePos && s.slots[Index(s.dequeuePos, s.Capacity())].sequence == s.dequeuePos + 1
    case PopRelease(value) =>
      && s.dequeuePos < s.enqueuePos
      && s.slots[Index(s.dequeuePos, s.Capacity())].sequence == s.dequeuePos + 1
      && value == Some(s.accepted[s.dequeuePos].value)
    case PopAdvance(value) =>
      s.dequeuePos < s.enqueuePos && value == Some(s.accepted[s.dequeuePos].value)
    case PopGot(value) =>
      0 < s.dequeuePos <= s.enqueuePos && value == Some(s.accepted[s.dequeuePos - 1].value)
    case _ => true
  }

  /** What Pop has returned so far is exactly the oldest accepted values, in order. */
  ghost predicate Fifo<T>(s: State<T>) {
    && |s.delivered| <= |s.accepted|
    && forall i | 0 <= i < |s.delivered| :: s.delivered[i] == Some(s.accepted[i].value)
  }

  ghost predicate Inv<T>(s: State<T>) {
    && s.Capacity() >= 2
    && |s.accepted| == s.enqueuePos
    && s.Released() <= s.enqueuePos <= s.Released() + s.Capacity()
    && |s.delivered| == s.DeliveredCount()
    && Fifo(s)
    && WindowFits(s)
    && PushersFit(s)
    && PopperFits(s)
  }

  lemma InitInv<T>(capacity: nat)
    requires capacity >= 2
    ensures Inv(Init<T>(capacity))
  {
    var s := Init<T>(capacity);
    forall p: nat | s.Released() <= p < s.Released() + s.Capacity()
      ensures SlotFits(s, p)
    {
    }
  }

  /** A compare-exchange that can succeed finds room: here capacity 2 is what matters. */
  lemma ReserveHasRoom<T>(s: State<T>)
    requires Inv(s)
    requires s.slots[Index(s.enqueuePos, s.Capacity())].sequence == s.enqueuePos
    ensures s.enqueuePos < s.Released() + s.Capacity()
  {
    IndexPeriodic(s.Released(), s.Capacity());
    assert SlotFits(s, s.Released());
  }

  /** Steps that move only one producer's program counter. */
  lemma QuietPushInv<T>(s: State<T>, id: nat, pc: PushPc<T>)
    requires Inv(s)
    requires !s.Pc(id).PushWrite? && !s.Pc(id).PushPublish?
    requires PusherFits(s.(pushes := s.pushes[id := pc]), id)
    ensures Inv(s.(pushes := s.pushes[id := pc]))
  {
    var t := s.(pushes := s.pushes[id := pc]);
    forall p: nat | t.Released() <= p < t.Released() + t.Capacity()
      ensures SlotFits(t, p)
    {
      assert SlotFits(s, p);
    }
    forall other | other in t.pushes
      ensures PusherFits(t, other)
    {
      if other != id {
        assert PusherFits(s, other);
      }
    }
  }

  lemma ReserveInv<T>(s: State<T>, id: nat)
    requires Inv(s) && s.Pc(id).PushReserve? && s.Pc(id).pos == s.enqueuePos
    ensures Inv(PushStep(s, id, false))
  {
    hide Index;
    var t := PushStep(s, id, false);
    var pos := s.enqueuePos;
    assert PusherFits(s, id);
    ReserveHasRoom(s);
    forall p: nat | t.Released() <= p < t.Released() + t.Capacity()
      ensures SlotFits(t, p)
    {
      assert SlotFits(s, p);
      assert p < pos ==> t.accepted[p] == s.accepted[p];
    }
    forall other | other in t.pushes
      ensures PusherFits(t, other)
    {
      if other != id {
        assert PusherFits(s, other);
      }
    }
  }

  lemma WriteInv<T>(s: State<T>, id: nat, spurious: bool)
    requires Inv(s) && s.Pc(id).PushWrite?
    ensures Inv(PushStep(s, id, spurious))
  {
    hide Index;
    var t := PushStep(s, id, spurious);
    var pos := s.Pc(id).pos;
    assert PusherFits(s, id);
    assert SlotFits(s, pos);
    forall p: nat | t.Released() <= p < t.Released() + t.Capacity()
      ensures SlotFits(t, p)
    {
      assert SlotFits(s, p);
      SameWindowDistinct(s, p, pos);
    }
    forall other | other in t.pushes
      ensures PusherFits(t, other)
    {
      if other != id {
        assert PusherFits(s, other);
        HeldElsewhere(s, other, pos);
      }
    }
  }

  lemma PublishInv<T>(s: State<T>, id: nat, spurious: bool)
    requires Inv(s) && s.Pc(id).PushPublish?
    ensures Inv(PushStep(s, id, spurious))
  {
    hide Index;
    var t := PushStep(s, id, spurious);
    var pos := s.Pc(id).pos;
    assert PusherFits(s, id);
    if s.pop.PopTake? || s.pop.PopRelease? {
      SameWindowDistinct(s, s.dequeuePos, pos);
    }
    forall p: nat | t.Released() <= p < t.Released() + t.Capacity()
      ensures SlotFits(t, p)
    {
      assert SlotFits(s, p);
      SameWindowDistinct(s, p, pos);
    }
    forall other | other in t.pushes
      ensures PusherFits(t, other)
    {
      if other != id {
        assert PusherFits(s, other);
        HeldElsewhere(s, other, pos);
        SeenFreeElsewhere(s, other, pos);
      }
    }
  }

  /** Two positions of the current window share a slot only when they are the same position. */
  lemma SameWindowDistinct<T>(s: State<T>, p: nat, q: nat)
    requires s.Capacity() > 0
    requires s.Released() <= p < s.Released() + s.Capacity()
    requires s.Released() <= q < s.Released() + s.Capacity()
    ensures p != q ==> Index(p, s.Capacity()) != Index(q, s.Capacity())
  {
    if p < q {
      IndexDistinct(p, q, s.Capacity());
    } else if q < p {
      IndexDistinct(q, p, s.Capacity());
    }
  }

  /** A reserved position that someone else holds lies in another slot than pos. */
  lemma HeldElsewhere<T>(s: State<T>, other: nat, pos: nat)
    requires Inv(s) && other in s.pushes
    requires s.Released() <= pos < s.enqueuePos && s.accepted[pos].id != other
    requires s.Pc(other).PushWrite? || s.Pc(other).PushPublish? ==> PusherFits(s, other)
    ensures s.Pc(other).PushWrite? || s.Pc(other).PushPublish? ==>
              Index(s.Pc(other).pos, s.Capacity()) != Index(pos, s.Capacity())
  {
    if s.Pc(other).PushWrite? || s.Pc(other).PushPublish? {
      SameWindowDistinct(s, s.Pc(other).pos, pos);
    }
  }

  /** A slot seen free at the tail is not the slot of a reserved position. */
  lemma SeenFreeElsewhere<T>(s: State<T>, other: nat, pos: nat)
    requires Inv(s) && other in s.pushes && PusherFits(s, other)
    requires s.Released() <= pos < s.enqueuePos
    ensures s.Pc(other).PushReserve? && s.Pc(other).pos == s.enqueuePos ==>
              Index(s.enqueuePos, s.Capacity()) != Index(pos, s.Capacity())
  {
    if s.Pc(other).PushReserve? && s.Pc(other).pos == s.enqueuePos {
      ReserveHasRoom(s);
      SameWindowDistinct(s, s.enqueuePos, pos);
    }
  }

  lemma PushStepInv<T>(s: State<T>, id: nat, spurious: bool)
    requires Inv(s) && Enabled(s, StepPush(id, spurious))
    ensures Inv(PushStep(s, id, spurious))
  {
    assert PusherFits(s, id);
    match s.Pc(id)
    case PushLoadClosed(value) =>
      QuietPushInv(s, id, if s.closed then PushReturn(value, false) else PushLoadPos(value));
    case PushLoadPos(value) =>
      QuietPushInv(s, id, PushLoadSequence(value, s.enqueuePos));
    case PushLoadSequence(value, pos) =>
      if s.slots[Index(pos, s.Capacity())].sequence == pos {
        QuietPushInv(s, id, PushReserve(value, pos));
      } else {
        QuietPushInv(s, id, PushLoadClosed(value));
      }
    case PushReserve(value, pos) =>
      if s.enqueuePos == pos && !spurious {
        ReserveInv(s, id);
      } else {
        QuietPushInv(s, id, PushLoadClosed(value));
      }
    case PushWrite(value, pos) =>
      WriteInv(s, id, spurious);
    case PushPublish(value, pos) =>
      PublishInv(s, id, spurious);
  }

  lemma TakeInv<T>(s: State<T>)
    requires Inv(s) && s.pop.PopTake?
    ensures Inv(PopStep(s))
  {
    var t := PopStep(s);
    var pos := s.dequeuePos;
    assert SlotFits(s, pos);
    forall p: nat | t.Released() <= p < t.Released() + t.Capacity()
      ensures SlotFits(t, p)
    {
      assert SlotFits(s, p);
      SameWindowDistinct(s, p, pos);
    }
    forall other | other in t.pushes
      ensures PusherFits(t, other)
    {
      assert PusherFits(s, other);
      if s.Pc(other).PushWrite? || s.Pc(other).PushPublish? {
        SameWindowDistinct(s, s.Pc(other).pos, pos);
      }
    }
  }

  lemma ReleaseInv<T>(s: State<T>)
    requires Inv(s) && s.pop.PopRelease?
    ensures Inv(PopStep(s))
  {
    var t := PopStep(s);
    var pos := s.dequeuePos;
    IndexPeriodic(pos, s.Capacity());
    forall p: nat | t.Released() <= p < t.Released() + t.Capacity()
      ensures SlotFits(t, p)
    {
      if p < pos + s.Capacity() {
        assert SlotFits(s, p);
        SameWindowDistinct(s, p, pos);
      }
    }
    forall other | other in t.pushes
      ensures PusherFits(t, other)
    {
      assert PusherFits(s, other);
      if s.Pc(other).PushWrite? || s.Pc(other).PushPublish? {
        SameWindowDistinct(s, s.Pc(other).pos, pos);
      }
      SeenFreeElsewhere(s, other, pos);
    }
  }

  lemma PopStepInv<T>(s: State<T>)
    requires Inv(s) && Enabled(s, StepPop)
    ensures Inv(PopStep(s))
  {
    assert SlotFits(s, s.Released());
    if s.pop.PopTake? {
      TakeInv(s);
    } else if s.pop.PopRelease? {
      ReleaseInv(s);
    } else {
      LocalInv(s, PopStep(s));
    }
  }

  /** Every atomic operation keeps the invariant. */
  lemma StepInv<T>(s: State<T>, a: Action<T>)
    requires Inv(s) && Enabled(s, a)
    ensures Inv(Apply(s, a))
  {
    match a
    case CallPush(id, value) => QuietPushInv(s, id, PushLoadClosed(value));
    case StepPush(id, spurious) => PushStepInv(s, id, spurious);
    case ReturnPush(id) =>
      QuietPushInv(s, id, PushIdle);
      LocalInv(s.(pushes := s.pushes[id := PushIdle]), Apply(s, a));
    case StepPop => PopStepInv(s);
    case _ => LocalInv(s, Apply(s, a));
  }

  /** Steps that change neither slots nor positions nor what the consumer is entitled to. */
  lemma LocalInv<T>(s: State<T>, t: State<T>)
    requires Inv(s)
    requires t.slots == s.slots && t.enqueuePos == s.enqueuePos
    requires t.pushes == s.pushes && t.accepted == s.accepted && t.delivered == s.delivered
    requires t.Released() == s.Released() && t.DeliveredCount() == s.DeliveredCount()
    requires (s.pop.PopRelease? ==> t.pop == s.pop && t.dequeuePos == s.dequeuePos) && PopperFits(t)
    ensures Inv(t)
  {
    forall p: nat | t.Released() <= p < t.Released() + t.Capacity()
      ensures SlotFits(t, p)
    {
      assert SlotFits(s, p);
    }
    forall other | other in t.pushes
      ensures PusherFits(t, other)
    {
      assert PusherFits(s, other);
    }
  }

  lemma {:induction false} RunInv<T(!new)>(run: seq<State<T>>)
    requires IsRun(run) && Inv(run[0])
    ensures Inv(run[|run| - 1])
    decreases |run|
  {
    if |run| > 1 {
      var before := run[..|run| - 1];
      assert IsRun(before) by {
        forall i | 0 <= i < |before| - 1
          ensures Next(before[i], before[i + 1])
        {
          assert Next(run[i], run[i + 1]);
        }
      }
      RunInv(before);
      var s, t := run[|run| - 2], run[|run| - 1];
      assert Next(s, t);
      var a :| Enabled(s, a) && t == Apply(s, a);
      StepInv(s, a);
    }
  }

  lemma ReachableInv<T(!new)>(capacity: nat, s: State<T>)
    requires capacity >= 2 && Reachable(capacity, s)
    ensures Inv(s)
  {
    var run: seq<State<T>> :| IsRun(run) && run[0] == Init(capacity) && run[|run| - 1] == s;
    InitInv<T>(capacity);
    RunInv(run);
  }
}
