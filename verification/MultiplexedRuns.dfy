/** Stretches of runs of the multiplexed writer in which one thread moves alone. */
module MultiplexedRuns {
  import opened Wrappers
  import opened Ring
  import opened RingRuns
  import opened OrderedSink
  import opened OrderedConsumer
  import opened MultiplexedWriter

  /** What a run is a run of. */
  datatype Setting<!B(!new)> = Setting(plan: seq<seq<B>>, oracle: Oracle<B>, capacity: nat)

  function AcceptAll<B(!new)>(): Oracle<B> {
    calls => true
  }

  ghost predicate Reaches<B(!new)>(x: Setting<B>, s: System<B>) {
    exists run: seq<System<B>> :: IsExecution(x.plan, x.oracle, x.capacity, run) && run[|run| - 1] == s
  }

  lemma LaunchReached<B(!new)>(x: Setting<B>)
    ensures Reaches(x, Launch(x.plan, x.capacity))
  {
    var s := Launch(x.plan, x.capacity);
    assert IsExecution(x.plan, x.oracle, x.capacity, [s]);
    assert [s][|[s]| - 1] == s;
  }

  lemma Step<B(!new)>(x: Setting<B>, s: System<B>, move: Move)
    requires Reaches(x, s) && CanMove(x.plan, s, move)
    ensures Reaches(x, Perform(x.plan, x.oracle, s, move))
  {
    hide Perform, CanMove;
    var t := Perform(x.plan, x.oracle, s, move);
    var run: seq<System<B>> :| IsExecution(x.plan, x.oracle, x.capacity, run) && run[|run| - 1] == s;
    var longer := run + [t];
    forall i | 0 <= i < |longer| - 1
      ensures NextSystem(x.plan, x.oracle, longer[i], longer[i + 1])
    {
      if i < |run| - 1 {
        assert longer[i] == run[i] && longer[i + 1] == run[i + 1];
      } else {
        assert longer[i] == s && longer[i + 1] == t;
      }
    }
    assert IsExecution(x.plan, x.oracle, x.capacity, longer) && longer[|longer| - 1] == t;
  }

  lemma NeedsSlots<T>(r: State<T>, a: Action<T>)
    requires Enabled(r, a)
    ensures r.Capacity() > 0
  {
  }

  lemma {:induction false} PushMoves<B(!new)>(x: Setting<B>, s: System<B>, p: nat, n: nat)
    requires Reaches(x, s) && 1 <= p <= |x.plan| && p in s.producers && s.producers[p].pc.Pushing?
    requires CanPush(s.ring, p, n)
    ensures Reaches(x, s.(ring := PushSteps(s.ring, p, n)))
  {
    hide Reaches, Apply, Enabled;
    if n > 0 {
      PushMoves(x, s, p, n - 1);
      var before := s.(ring := PushSteps(s.ring, p, n - 1));
      assert Enabled(before.ring, StepPush(p, false));
      NeedsSlots(before.ring, StepPush(p, false));
      Step(x, before, PushMove(p, false));
    } else {
      assert s.(ring := PushSteps(s.ring, p, 0)) == s;
    }
  }

  lemma {:induction false} PopMoves<B(!new)>(x: Setting<B>, s: System<B>, n: nat)
    requires Reaches(x, s) && s.pc.Popping? && CanPop(s.ring, n)
    ensures Reaches(x, s.(ring := PopSteps(s.ring, n)))
  {
    hide Reaches, Apply, Enabled;
    if n > 0 {
      PopMoves(x, s, n - 1);
      var before := s.(ring := PopSteps(s.ring, n - 1));
      assert Enabled(before.ring, StepPop);
      NeedsSlots(before.ring, StepPop);
      Step(x, before, PopMove);
    } else {
      assert s.(ring := PopSteps(s.ring, 0)) == s;
    }
  }

  // ---------------------------------------------------------------- a producer

  /** Push of a message, up to the store of its value. */
  lemma WriteMoves<B(!new)>(x: Setting<B>, s: System<B>, p: nat, message: Message<B>) returns (t: System<B>)
    requires Reaches(x, s) && 1 <= p <= |x.plan| && p in s.producers && s.producers[p].pc == Pushing(message)
    requires ReadyToPush(s.ring, p, message)
    ensures Reaches(x, t) && t == s.(ring := t.ring)
    ensures var i := Index(s.ring.enqueuePos, s.ring.Capacity());
            && OnlyPush(s.ring, t.ring, p) && t.ring.Pc(p) == PushPublish(message, s.ring.enqueuePos)
            && t.ring.slots == s.ring.slots[i := Slot(s.ring.enqueuePos, Some(message))]
            && t.ring.enqueuePos == s.ring.enqueuePos + 1
  {
    hide Reaches, Index, PushSteps;
    PushWrites(s.ring, p, message);
    PushMoves(x, s, p, 5);
    t := s.(ring := PushSteps(s.ring, p, 5));
  }

  /** Where a producer is when Push has returned true for a message that is no error. */
  function AfterPush<B>(producer: Producer<B>, message: Message<B>): Producer<B> {
    if message.BatchMessage? then Producer(CheckStop, producer.generated + 1) else producer.(pc := CountDown)
  }

  /** The store of the sequence, and the return. */
  lemma PublishMoves<B(!new)>(x: Setting<B>, s: System<B>, p: nat, message: Message<B>, pos: nat)
    returns (t: System<B>)
    requires Reaches(x, s) && 1 <= p <= |x.plan| && p in s.producers && s.producers[p].pc == Pushing(message)
    requires s.ring.Capacity() > 0 && s.ring.Pc(p) == PushPublish(message, pos) && !message.ErrorMessage?
    ensures Reaches(x, t)
    ensures t == s.(ring := t.ring, producers := s.producers[p := AfterPush(s.producers[p], message)])
    ensures var i := Index(pos, s.ring.Capacity());
            && t.ring.slots == s.ring.slots[i := s.ring.slots[i].(sequence := pos + 1)]
            && t.ring.enqueuePos == s.ring.enqueuePos && t.ring.dequeuePos == s.ring.dequeuePos
            && t.ring.closed == s.ring.closed && t.ring.pop == s.ring.pop && t.ring.Pc(p).PushIdle?
            && forall q | q != p :: t.ring.Pc(q) == s.ring.Pc(q)
  {
    hide Reaches, Index, PushSteps;
    PushPublishes(s.ring, p, message, pos);
    PushMoves(x, s, p, 1);
    var returning := s.(ring := PushSteps(s.ring, p, 1));
    Step(x, returning, ProducerMove(p, false));
    t := Perform(x.plan, x.oracle, returning, ProducerMove(p, false));
  }

  /** From the loop's check of the stop flag into Push, with the next batch. */
  lemma EnterBatch<B(!new)>(x: Setting<B>, s: System<B>, p: nat) returns (t: System<B>)
    requires Reaches(x, s) && 1 <= p <= |x.plan| && p in s.producers && s.producers[p].pc.CheckStop? && !s.stop
    requires s.producers[p].generated < |x.plan[p - 1]| && s.ring.Capacity() > 0 && s.ring.Pc(p).PushIdle?
    ensures Reaches(x, t)
    ensures var message := BatchMessage(p, x.plan[p - 1][s.producers[p].generated]);
            && t == s.(ring := t.ring, producers := s.producers[p := s.producers[p].(pc := Pushing(message))])
            && OnlyPush(s.ring, t.ring, p) && t.ring.Pc(p) == PushLoadClosed(message)
            && t.ring.slots == s.ring.slots && t.ring.enqueuePos == s.ring.enqueuePos
  {
    hide Reaches;
    var message := BatchMessage(p, x.plan[p - 1][s.producers[p].generated]);
    Step(x, s, ProducerMove(p, false));
    var checked := Goto(s, p, Generate);
    Step(x, checked, ProducerMove(p, false));
    t := CallPushOf(checked, p, message);
    assert t.producers == s.producers[p := s.producers[p].(pc := Pushing(message))];
  }

  /** From the loop's check into Push with the end mark, when no batch is left. */
  lemma EnterEnd<B(!new)>(x: Setting<B>, s: System<B>, p: nat) returns (t: System<B>)
    requires Reaches(x, s) && 1 <= p <= |x.plan| && p in s.producers && s.producers[p].pc.CheckStop? && !s.stop
    requires s.producers[p].generated == |x.plan[p - 1]| && s.ring.Capacity() > 0 && s.ring.Pc(p).PushIdle?
    ensures Reaches(x, t)
    ensures var message := EndPartition(p);
            && t == s.(ring := t.ring, producers := s.producers[p := s.producers[p].(pc := Pushing(message))])
            && OnlyPush(s.ring, t.ring, p) && t.ring.Pc(p) == PushLoadClosed(message)
            && t.ring.slots == s.ring.slots && t.ring.enqueuePos == s.ring.enqueuePos
  {
    hide Reaches;
    Step(x, s, ProducerMove(p, false));
    var s1 := Goto(s, p, Generate);
    Step(x, s1, ProducerMove(p, false));
    var s2 := Goto(s1, p, Recheck(true));
    Step(x, s2, ProducerMove(p, false));
    t := CallPushOf(s2, p, EndPartition(p));
    assert t.producers == s.producers[p := s.producers[p].(pc := Pushing(EndPartition(p)))];
  }

  // ---------------------------------------------------------------- the consumer

  /** Pop, up to the move out of the slot. */
  lemma TakeMoves<B(!new)>(x: Setting<B>, s: System<B>) returns (t: System<B>)
    requires Reaches(x, s) && s.pc.Popping? && s.ring.pop.PopIdle? && s.ring.Capacity() > 0
    requires s.ring.slots[Index(s.ring.dequeuePos, s.ring.Capacity())].sequence == s.ring.dequeuePos + 1
    ensures Reaches(x, t) && t == s.(ring := t.ring)
    ensures var i := Index(s.ring.dequeuePos, s.ring.Capacity());
            && OnlyPop(s.ring, t.ring) && t.ring.pop == PopRelease(s.ring.slots[i].value)
            && t.ring.dequeuePos == s.ring.dequeuePos
            && t.ring.slots == s.ring.slots[i := Slot(s.ring.dequeuePos + 1, None)]
  {
    hide Reaches, Index, PopSteps;
    Step(x, s, ConsumerMove);
    var called := s.(ring := Apply(s.ring, CallPop));
    PopTakes(called.ring);
    PopMoves(x, called, 2);
    t := called.(ring := PopSteps(called.ring, 2));
  }

  /** The slot is handed back, Pop returns, and the message is handled. */
  lemma HandleMoves<B(!new)>(x: Setting<B>, s: System<B>, message: Message<B>) returns (t: System<B>)
    requires Reaches(x, s) && s.pc.Popping? && s.ring.pop == PopRelease(Some(message)) && s.ring.Capacity() > 0
    requires !message.ErrorMessage? && Drain(Store(s.consumer, message), x.oracle).1 && !s.failed
    ensures Reaches(x, t)
    ensures t == s.(ring := t.ring, consumer := Drain(Store(s.consumer, message), x.oracle).0,
                    received := s.received + [message])
    ensures var i := Index(s.ring.dequeuePos, s.ring.Capacity());
            && OnlyPop(s.ring, t.ring) && t.ring.pop.PopIdle? && t.ring.dequeuePos == s.ring.dequeuePos + 1
            && t.ring.slots ==
               s.ring.slots[i := s.ring.slots[i].(sequence := s.ring.dequeuePos + s.ring.Capacity())]
  {
    hide Reaches, Index, PopSteps, Drain, Store;
    PopReleases(s.ring, Some(message));
    PopMoves(x, s, 2);
    var got := s.(ring := PopSteps(s.ring, 2));
    Step(x, got, ConsumerMove);
    var handling := got.(ring := Apply(got.ring, ReturnPop), pc := Handling(message));
    Step(x, handling, ConsumerMove);
    t := Perform(x.plan, x.oracle, handling, ConsumerMove);
  }

  /** Pop finds a closed ring empty; the producers are joined. */
  lemma EndMoves<B(!new)>(x: Setting<B>, s: System<B>) returns (t: System<B>)
    requires Reaches(x, s) && s.pc.Popping? && s.ring.pop.PopIdle? && s.ring.Capacity() > 0 && s.ring.closed
    requires s.ring.slots[Index(s.ring.dequeuePos, s.ring.Capacity())].sequence < s.ring.dequeuePos + 1
    requires forall p | p in s.producers :: s.producers[p].pc == Finished(0)
    ensures Reaches(x, t) && t == s.(ring := t.ring, pc := Finishing) && t.ring.Capacity() == s.ring.Capacity()
  {
    hide Reaches, Index, PopSteps;
    Step(x, s, ConsumerMove);
    var s1 := s.(ring := Apply(s.ring, CallPop));
    PopFindsNothing(s1.ring);
    PopMoves(x, s1, 1);
    var s2 := s1.(ring := PopSteps(s1.ring, 1));
    PopEnds(s2.ring);
    PopMoves(x, s2, 1);
    var s3 := s2.(ring := PopSteps(s2.ring, 1));
    Step(x, s3, ConsumerMove);
    var s4 := s3.(ring := Apply(s3.ring, ReturnPop), pc := Joining);
    Step(x, s4, ConsumerMove);
    t := s4.(pc := Finishing);
  }

  /** The last producer to count down closes the ring. */
  lemma CountDownMoves<B(!new)>(x: Setting<B>, s: System<B>, p: nat) returns (t: System<B>)
    requires Reaches(x, s) && 1 <= p <= |x.plan| && p in s.producers && s.producers[p].pc.CountDown?
    requires s.ring.Capacity() > 0 && s.ring.Pc(p).PushIdle?
    ensures Reaches(x, t)
    ensures t == s.(ring := t.ring, producers := s.producers[p := s.producers[p].(pc := Finished(0))],
                    remaining := s.remaining - 1)
    ensures t.ring == if s.remaining == 1 then s.ring.(closed := true) else s.ring
  {
    hide Reaches;
    Step(x, s, ProducerMove(p, false));
    t := Perform(x.plan, x.oracle, s, ProducerMove(p, false));
    if s.remaining == 1 {
      Step(x, t, ProducerMove(p, false));
      t := Perform(x.plan, x.oracle, t, ProducerMove(p, false));
      assert t.producers == s.producers[p := s.producers[p].(pc := Finished(0))];
    }
  }
}
