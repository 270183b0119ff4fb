/** A Push, and a Pop, that no other thread interrupts: the ring after each number of their operations. */
module RingRuns {
  import opened Wrappers
  import opened Ring

  /** After n more operations of producer id's Push, none of them a spurious failure. */
  function PushSteps<T>(r: State<T>, id: nat, n: nat): State<T> {
    if n == 0 then r
    else
      var before := PushSteps(r, id, n - 1);
      if Enabled(before, StepPush(id, false)) then Apply(before, StepPush(id, false)) else before
  }

  function PopSteps<T>(r: State<T>, n: nat): State<T> {
    if n == 0 then r
    else
      var before := PopSteps(r, n - 1);
      if Enabled(before, StepPop) then Apply(before, StepPop) else before
  }

  /** The first n operations are possible. */
  ghost predicate CanPush<T>(r: State<T>, id: nat, n: nat) {
    forall i | 0 <= i < n :: Enabled(PushSteps(r, id, i), StepPush(id, false))
  }

  ghost predicate CanPop<T>(r: State<T>, n: nat) {
    forall i | 0 <= i < n :: Enabled(PopSteps(r, i), StepPop)
  }

  /** Entering Push with the next slot free in an open ring. */
  ghost predicate ReadyToPush<T>(r: State<T>, id: nat, value: T) {
    && r.Capacity() > 0 && r.Pc(id) == PushLoadClosed(value) && !r.closed
    && r.slots[Index(r.enqueuePos, r.Capacity())].sequence == r.enqueuePos
  }

  /** What a Push leaves alone. */
  ghost predicate OnlyPush<T>(r: State<T>, t: State<T>, id: nat) {
    && t.dequeuePos == r.dequeuePos && t.closed == r.closed && t.pop == r.pop && t.delivered == r.delivered
    && t.sent == r.sent && t.Capacity() == r.Capacity()
    && forall other | other != id :: t.Pc(other) == r.Pc(other)
  }

  /** Five operations: closed flag, position, sequence, compare-exchange, value. */
  lemma PushWrites<T>(r: State<T>, id: nat, value: T)
    requires ReadyToPush(r, id, value)
    ensures CanPush(r, id, 5)
    ensures var t, i := PushSteps(r, id, 5), Index(r.enqueuePos, r.Capacity());
            && OnlyPush(r, t, id) && t.Pc(id) == PushPublish(value, r.enqueuePos)
            && t.slots == r.slots[i := Slot(r.enqueuePos, Some(value))]
            && t.enqueuePos == r.enqueuePos + 1 && t.accepted == r.accepted + [Entry(id, value)]
  {
    hide Index, PushSteps;
    PushReserves(r, id, value);
    var r4 := PushSteps(r, id, 4);
    assert Enabled(r4, StepPush(id, false));
    OnePush(r, id, 4);
    forall i | 0 <= i < 5
      ensures Enabled(PushSteps(r, id, i), StepPush(id, false))
    {
    }
  }

  lemma PushReserves<T>(r: State<T>, id: nat, value: T)
    requires ReadyToPush(r, id, value)
    ensures CanPush(r, id, 4)
    ensures var t := PushSteps(r, id, 4);
            && OnlyPush(r, t, id) && t.Pc(id) == PushWrite(value, r.enqueuePos) && t.slots == r.slots
            && t.enqueuePos == r.enqueuePos + 1 && t.accepted == r.accepted + [Entry(id, value)]
  {
    hide Index, PushSteps;
    NoPush(r, id);
    OnePush(r, id, 0);
    var r1 := PushSteps(r, id, 1);
    assert r1.Pc(id) == PushLoadPos(value) && r1.slots == r.slots && OnlyPush(r, r1, id);
    OnePush(r, id, 1);
    var r2 := PushSteps(r, id, 2);
    assert r2.Pc(id) == PushLoadSequence(value, r.enqueuePos) && r2.slots == r.slots && OnlyPush(r, r2, id);
    OnePush(r, id, 2);
    var r3 := PushSteps(r, id, 3);
    assert r3.Pc(id) == PushReserve(value, r.enqueuePos) && r3.slots == r.slots && OnlyPush(r, r3, id);
    OnePush(r, id, 3);
    forall i | 0 <= i < 4
      ensures Enabled(PushSteps(r, id, i), StepPush(id, false))
    {
      if i == 0 {
      } else if i == 1 {
      } else if i == 2 {
      }
    }
  }

  lemma NoPush<T>(r: State<T>, id: nat)
    ensures PushSteps(r, id, 0) == r && PopSteps(r, 0) == r
  {
  }

  lemma OnePush<T>(r: State<T>, id: nat, n: nat)
    requires Enabled(PushSteps(r, id, n), StepPush(id, false))
    ensures PushSteps(r, id, n + 1) == Apply(PushSteps(r, id, n), StepPush(id, false))
  {
  }

  lemma OnePop<T>(r: State<T>, n: nat)
    requires Enabled(PopSteps(r, n), StepPop)
    ensures PopSteps(r, n + 1) == Apply(PopSteps(r, n), StepPop)
  {
  }

  /** The sixth operation publishes. */
  lemma PushPublishes<T>(r: State<T>, id: nat, value: T, pos: nat)
    requires r.Capacity() > 0 && r.Pc(id) == PushPublish(value, pos)
    ensures CanPush(r, id, 1)
    ensures var t, i := PushSteps(r, id, 1), Index(pos, r.Capacity());
            && OnlyPush(r, t, id) && t.Pc(id) == PushReturn(value, true)
            && t.slots == r.slots[i := r.slots[i].(sequence := pos + 1)]
            && t.enqueuePos == r.enqueuePos && t.accepted == r.accepted
  {
    hide Index, PushSteps;
    NoPush(r, id);
    OnePush(r, id, 0);
  }

  /** What a Pop leaves alone. */
  ghost predicate OnlyPop<T>(r: State<T>, t: State<T>) {
    && t.enqueuePos == r.enqueuePos && t.closed == r.closed && t.accepted == r.accepted
    && t.sent == r.sent && t.pushes == r.pushes && t.Capacity() == r.Capacity()
  }

  /** Two operations take the value out of a slot that is read as published. */
  lemma PopTakes<T>(r: State<T>)
    requires r.Capacity() > 0 && r.pop.PopLoadSequence?
    requires r.slots[Index(r.dequeuePos, r.Capacity())].sequence == r.dequeuePos + 1
    ensures CanPop(r, 2)
    ensures var t, i := PopSteps(r, 2), Index(r.dequeuePos, r.Capacity());
            && OnlyPop(r, t) && t.pop == PopRelease(r.slots[i].value) && t.dequeuePos == r.dequeuePos
            && t.slots == r.slots[i := Slot(r.dequeuePos + 1, None)]
            && t.delivered == r.delivered + [r.slots[i].value]
  {
    hide Index, PopSteps;
    NoPush(r, 0);
    OnePop(r, 0);
    var r1 := PopSteps(r, 1);
    assert r1.pop == PopTake && r1.slots == r.slots;
    OnePop(r, 1);
    forall i | 0 <= i < 2
      ensures Enabled(PopSteps(r, i), StepPop)
    {
      if i == 0 {
      }
    }
  }

  /** Two more hand the slot back. */
  lemma PopReleases<T>(r: State<T>, value: Option<T>)
    requires r.Capacity() > 0 && r.pop == PopRelease(value)
    ensures CanPop(r, 2)
    ensures var t, i := PopSteps(r, 2), Index(r.dequeuePos, r.Capacity());
            && OnlyPop(r, t) && t.pop == PopGot(value) && t.dequeuePos == r.dequeuePos + 1
            && t.slots == r.slots[i := r.slots[i].(sequence := r.dequeuePos + r.Capacity())]
            && t.delivered == r.delivered
  {
    hide Index, PopSteps;
    NoPush(r, 0);
    OnePop(r, 0);
    var r1 := PopSteps(r, 1);
    assert r1.pop == PopAdvance(value) && r1.dequeuePos == r.dequeuePos;
    OnePop(r, 1);
    forall i | 0 <= i < 2
      ensures Enabled(PopSteps(r, i), StepPop)
    {
      if i == 0 {
      }
    }
  }

  /** A load that finds the slot unpublished. */
  lemma PopFindsNothing<T>(r: State<T>)
    requires r.Capacity() > 0 && r.pop.PopLoadSequence?
    requires r.slots[Index(r.dequeuePos, r.Capacity())].sequence < r.dequeuePos + 1
    ensures CanPop(r, 1) && PopSteps(r, 1) == r.(pop := PopLoadClosed)
  {
    hide Index, PopSteps;
    NoPush(r, 0);
    OnePop(r, 0);
  }

  lemma PopEnds<T>(r: State<T>)
    requires r.Capacity() > 0 && r.pop.PopLoadClosed? && r.closed
    ensures CanPop(r, 1) && PopSteps(r, 1) == r.(pop := PopEmpty)
  {
    hide Index, PopSteps;
    NoPush(r, 0);
    OnePop(r, 0);
  }
}
