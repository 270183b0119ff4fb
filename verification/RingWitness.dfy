/**
 Two runs that show which hypotheses the ring's theorems need, and the exact capacities at which it is FIFO.
 */
module RingWitness {
  import opened Wrappers
  import opened Ring

  lemma ReachInit<T(!new)>(capacity: nat)
    ensures Reachable(capacity, Init<T>(capacity))
  {
    assert IsRun([Init<T>(capacity)]);
  }

  lemma ReachStep<T(!new)>(capacity: nat, s: State<T>, a: Action<T>)
    requires Reachable(capacity, s) && Enabled(s, a)
    ensures Reachable(capacity, Apply(s, a))
  {
    var run: seq<State<T>> :| IsRun(run) && run[0] == Init(capacity) && run[|run| - 1] == s;
    var longer := run + [Apply(s, a)];
    forall i | 0 <= i < |longer| - 1
      ensures Next(longer[i], longer[i + 1])
    {
      if i < |run| - 1 {
        assert Next(run[i], run[i + 1]);
      } else {
        assert Enabled(s, a) && longer[i + 1] == Apply(s, a);
      }
    }
    assert IsRun(longer);
  }

  function At<T>(s: State<T>, id: nat, pc: PushPc<T>): State<T> {
    s.(pushes := s.pushes[id := pc])
  }

  /** One step of a Push that moves only its program counter. */
  lemma ReachMove<T(!new)>(capacity: nat, s: State<T>, id: nat, a: Action<T>, pc: PushPc<T>, next: PushPc<T>)
    requires Reachable(capacity, At(s, id, pc))
    requires Enabled(At(s, id, pc), a) && Apply(At(s, id, pc), a) == At(At(s, id, pc), id, next)
    ensures Reachable(capacity, At(s, id, next))
  {
    ReachStep(capacity, At(s, id, pc), a);
    assert s.pushes[id := pc][id := next] == s.pushes[id := next];
  }

  /** An undisturbed Push finds the tail slot free and is about to reserve it. */
  lemma PushUntilReserve<T(!new)>(capacity: nat, s: State<T>, id: nat, value: T)
    requires Reachable(capacity, s)
    requires s.Capacity() > 0 && !s.closed && s.Pc(id).PushIdle?
    requires s.slots[Index(s.enqueuePos, s.Capacity())].sequence == s.enqueuePos
    ensures Reachable(capacity, At(s, id, PushReserve(value, s.enqueuePos)))
  {
    var pos := s.enqueuePos;
    var go: Action<T> := StepPush(id, false);
    ReachStep(capacity, s, CallPush(id, value));
    ReachMove(capacity, s, id, go, PushLoadClosed(value), PushLoadPos(value));
    ReachMove(capacity, s, id, go, PushLoadPos(value), PushLoadSequence(value, pos));
    ReachMove(capacity, s, id, go, PushLoadSequence(value, pos), PushReserve(value, pos));
  }

  /** An undisturbed Push into a slot that is free for the tail, up to and including the write. */
  lemma PushUntilWritten<T(!new)>(capacity: nat, s: State<T>, id: nat, value: T) returns (t: State<T>)
    requires Reachable(capacity, s)
    requires s.Capacity() > 0 && !s.closed && s.Pc(id).PushIdle?
    requires s.slots[Index(s.enqueuePos, s.Capacity())].sequence == s.enqueuePos
    ensures Reachable(capacity, t)
    ensures var i := Index(s.enqueuePos, s.Capacity());
            t == s.(enqueuePos := s.enqueuePos + 1,
                    accepted := s.accepted + [Entry(id, value)],
                    slots := s.slots[i := s.slots[i].(value := Some(value))],
                    pushes := s.pushes[id := PushPublish(value, s.enqueuePos)])
  {
    PushUntilReserve(capacity, s, id, value);
    var pos := s.enqueuePos;
    var s1 := At(s, id, PushReserve(value, pos));
    ReachStep(capacity, s1, StepPush(id, false));
    var s2 := Apply(s1, StepPush(id, false));
    ReachStep(capacity, s2, StepPush(id, false));
    t := Apply(s2, StepPush(id, false));
    assert s.pushes[id := PushReserve(value, pos)][id := PushWrite(value, pos)][id := PushPublish(value, pos)]
      == s.pushes[id := PushPublish(value, pos)];
  }

  /** The rest of that Push: publish and return true. */
  lemma PublishAndReturn<T(!new)>(capacity: nat, s: State<T>, id: nat) returns (t: State<T>)
    requires Reachable(capacity, s)
    requires s.Capacity() > 0 && s.Pc(id).PushPublish?
    ensures Reachable(capacity, t)
    ensures var pos, value := s.Pc(id).pos, s.Pc(id).value;
            var i := Index(pos, s.Capacity());
            t == s.(slots := s.slots[i := s.slots[i].(sequence := pos + 1)],
                    pushes := s.pushes[id := PushIdle],
                    sent := s.sent[id := s.Sent(id) + [value]])
  {
    ReachStep(capacity, s, StepPush(id, false));
    var s1 := Apply(s, StepPush(id, false));
    ReachStep(capacity, s1, ReturnPush(id));
    t := Apply(s1, ReturnPush(id));
  }

  /** One slot: a second Push reserves the slot of the unread first value and overwrites it. */
  lemma OneSlotOverwrites<T(!new)>(a: T, b: T) returns (s: State<T>)
    requires a != b
    ensures Reachable(1, s) && !Fifo(s)
    ensures s.delivered == [Some(b)] && s.accepted == [Entry(0, a), Entry(0, b)]
  {
    var s0 := Init<T>(1);
    ReachInit<T>(1);
    var s1 := PushUntilWritten(1, s0, 0, a);
    var s2 := PublishAndReturn(1, s1, 0);
    assert s2.slots == [Slot(1, Some(a))];
    var s3 := PushUntilWritten(1, s2, 0, b);
    ReachStep(1, s3, CallPop);
    var s4 := Apply(s3, CallPop);
    ReachStep(1, s4, StepPop);
    var s5 := Apply(s4, StepPop);
    ReachStep(1, s5, StepPop);
    s := Apply(s5, StepPop);
  }

  /** The ring is a FIFO queue in every reachable state exactly when it was built with two slots or more. */
  lemma FifoExactlyFromTwoSlots<T(!new)>(capacity: nat, a: T, b: T)
    requires a != b
    ensures (forall s: State<T> :: Reachable(capacity, s) ==> Fifo(s)) <==> capacity >= 2
  {
    if capacity >= 2 {
      forall s: State<T> | Reachable(capacity, s)
        ensures Fifo(s)
      {
        ReachableInv(capacity, s);
      }
    } else {
      var s := OneSlotOverwrites(a, b);
      assert Init<T>(capacity) == Init<T>(1);
      assert Reachable(capacity, s) by {
        var run: seq<State<T>> :| IsRun(run) && run[0] == Init(1) && run[|run| - 1] == s;
      }
    }
  }

  /**
   A publish followed by Close between Pop's sequence load and its load of the closed flag: Pop returns
   false although an accepted and published value is still in the ring.
   */
  lemma EmptyPopCanLeaveAValue<T(!new)>(capacity: nat, a: T) returns (s: State<T>)
    requires capacity >= 2
    ensures Reachable(capacity, s) && s.pop.PopEmpty?
    ensures s.delivered == [] && s.Sent(0) == [a] && s.accepted == [Entry(0, a)]
  {
    var s0 := Init<T>(capacity);
    ReachInit<T>(capacity);
    ReachStep(capacity, s0, CallPop);
    var s1 := Apply(s0, CallPop);
    ReachStep(capacity, s1, StepPop);
    var s2 := Apply(s1, StepPop);
    var s3 := PushUntilWritten(capacity, s2, 0, a);
    var s4 := PublishAndReturn(capacity, s3, 0);
    ReachStep(capacity, s4, Close);
    var s5 := Apply(s4, Close);
    ReachStep(capacity, s5, StepPop);
    s := Apply(s5, StepPop);
  }
}
