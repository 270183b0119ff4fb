/**
 Which queue capacities the multiplexed writer works with: from two slots up a run that returns 0 exists for every
 plan and always writes the sequential output; with one slot it can return 0 having lost a batch.
 */
module MultiplexedWitness {
  import opened Wrappers
  import opened Ring
  import opened OrderedSink
  import opened OrderedConsumer
  import opened ConsumerProperties
  import opened MultiplexedWriter
  import opened MultiplexedOutcome
  import opened MultiplexedRuns

  // ---------------------------------------------------------------- a sink that refuses nothing

  lemma {:induction false} AcceptAllDrains<B(!new)>(c: Consumer<B>)
    ensures Drain(c, AcceptAll()).1
    decreases c.partCount + 1 - c.expected,
              if c.expected in c.states then |c.states[c.expected].batches| else 0,
              if c.expected in c.states && c.states[c.expected].begun then 0 else 1
  {
    if c.expected <= c.partCount && c.expected in c.states {
      var state := c.states[c.expected];
      if state.batches != [] && !state.begun {
        AcceptAllDrains(AfterBegin(c, c.sink.Attempt(Begin(c.expected), true)));
      } else if state.batches != [] {
        AcceptAllDrains(AfterWrite(c, c.sink.Attempt(Write(state.batches[0]), true)));
      } else if state.completed {
        AcceptAllDrains(AfterEnd(c, if state.begun then c.sink.Attempt(End, true) else c.sink));
      }
    }
  }

  // ---------------------------------------------------------------- one slot

  /** Part 1 of 1 with one batch received: it is written at once. */
  function OneWritten<B>(b: B): Consumer<B> {
    var calls := [OpenTable, Begin(1), Write(b)];
    Consumer(1, map[1 := PartitionState([], false, true)], 1, Sink(calls, calls))
  }

  lemma DrainOneBatch<B(!new)>(b: B)
    ensures Drain(Store(StartConsumer(1, Sink([OpenTable], [OpenTable])), BatchMessage(1, b)), AcceptAll()) ==
            (OneWritten(b), true)
  {
    var c0 := StartConsumer(1, Sink([OpenTable], [OpenTable]));
    var c1 := Store(c0, BatchMessage(1, b));
    assert c1.states[1] == PartitionState([b], false, false);
    var c2 := AfterBegin(c1, c1.sink.Attempt(Begin(1), true));
    assert c2.states[1] == PartitionState([b], false, true);
    var c3 := AfterWrite(c2, c2.sink.Attempt(Write(b), true));
    assert [b][1..] == [];
    assert c3.states[1] == PartitionState([], false, true);
    assert c3.states == OneWritten(b).states;
    assert c3.sink == OneWritten(b).sink;
    assert Drain(c3, AcceptAll()) == (c3, true);
    assert Drain(c2, AcceptAll()) == Drain(c3, AcceptAll());
  }

  lemma DrainEndMark<B(!new)>(b: B)
    ensures var (d, ok) := Drain(Store(OneWritten(b), EndPartition(1)), AcceptAll());
            ok && d.expected == 2 && d.partCount == 1 && d.sink.accepted == [OpenTable, Begin(1), Write(b), End]
  {
    var c := Store(OneWritten(b), EndPartition(1));
    assert c.states[1] == PartitionState([], true, true);
    var d := AfterEnd(c, c.sink.Attempt(End, true));
    assert Drain(d, AcceptAll()) == (d, true);
  }

  /** A system in which the only part's producer has accepted batches behind it and the ring has one slot. */
  ghost predicate OneSlot<B(!new)>(s: System<B>, slot: Slot<Message<B>>, enqueuePos: nat, dequeuePos: nat) {
    && s.ring.slots == [slot] && s.ring.enqueuePos == enqueuePos && s.ring.dequeuePos == dequeuePos
    && !s.ring.closed && !s.stop && !s.failed && s.pc.Popping? && s.remaining == 1
  }

  function OnePart<B>(pc: ProducerPc<B>, generated: nat): map<nat, Producer<B>> {
    map[1 := Producer(pc, generated)]
  }

  /** The first batch is published and the second is written over it. */
  lemma OverwriteFirst<B(!new)>(a: B, b: B, capacity: nat) returns (x: Setting<B>, s: System<B>)
    requires capacity < 2
    ensures x == Setting([[a, b]], AcceptAll(), capacity) && Reaches(x, s)
    ensures OneSlot(s, Slot(1, Some(BatchMessage(1, b))), 2, 0) && s.ring.pop.PopIdle?
    ensures s.ring.Pc(1) == PushPublish(BatchMessage(1, b), 1)
    ensures s.producers == OnePart(Pushing(BatchMessage(1, b)), 1)
    ensures s.consumer == StartConsumer(1, Sink([OpenTable], [OpenTable]))
  {
    hide Reaches;
    x := Setting([[a, b]], AcceptAll(), capacity);
    var s0 := Launch(x.plan, x.capacity);
    LaunchReached(x);
    assert s0.ring.slots == [Slot(0, None)];
    assert s0.producers == OnePart(Start, 0);
    Step(x, s0, ProducerMove(1, false));
    var s1 := Goto(s0, 1, CheckStop);
    var s2 := EnterBatch(x, s1, 1);
    var s3 := WriteMoves(x, s2, 1, BatchMessage(1, a));
    var s4 := PublishMoves(x, s3, 1, BatchMessage(1, a), 0);
    assert s4.ring.slots == [Slot(1, Some(BatchMessage(1, a)))];
    assert s4.producers == OnePart(CheckStop, 1);
    var s5 := EnterBatch(x, s4, 1);
    s := WriteMoves(x, s5, 1, BatchMessage(1, b));
    assert s.producers == OnePart(Pushing(BatchMessage(1, b)), 1);
  }

  /** The consumer takes the second batch, hands the slot back and writes it; then the producer publishes it. */
  lemma WriteSecond<B(!new)>(a: B, b: B, capacity: nat) returns (x: Setting<B>, s: System<B>)
    requires capacity < 2
    ensures x == Setting([[a, b]], AcceptAll(), capacity) && Reaches(x, s)
    ensures OneSlot(s, Slot(2, None), 2, 1) && s.ring.pop.PopIdle? && s.ring.Pc(1).PushIdle?
    ensures s.producers == OnePart(CheckStop, 2) && s.consumer == OneWritten(b)
  {
    hide Reaches, Drain, Store;
    x, s := OverwriteFirst(a, b, capacity);
    var message := BatchMessage(1, b);
    var s1 := TakeMoves(x, s);
    assert s1.ring.slots == [Slot(1, None)] && s1.ring.Pc(1) == s.ring.Pc(1);
    AcceptAllDrains(Store(s1.consumer, message));
    var s2 := HandleMoves(x, s1, message);
    DrainOneBatch(b);
    assert s2.ring.slots == [Slot(1, None)] && s2.ring.Pc(1) == s1.ring.Pc(1);
    s := PublishMoves(x, s2, 1, message, 1);
    assert s.ring.slots == [Slot(2, None)];
    assert s.producers == OnePart(CheckStop, 2);
  }

  /** The end mark is taken before it is published, so that handing the slot back hides that it was. */
  lemma HandleEndMark<B(!new)>(a: B, b: B, capacity: nat) returns (x: Setting<B>, s: System<B>)
    requires capacity < 2
    ensures x == Setting([[a, b]], AcceptAll(), capacity) && Reaches(x, s)
    ensures OneSlot(s, Slot(2, None), 3, 2) && s.ring.pop.PopIdle? && s.ring.Pc(1).PushIdle?
    ensures s.producers == OnePart(CountDown, 2)
    ensures s.consumer == Drain(Store(OneWritten(b), EndPartition(1)), AcceptAll()).0
  {
    hide Reaches, Drain, Store;
    x, s := WriteSecond(a, b, capacity);
    var message: Message<B> := EndPartition(1);
    var s1 := EnterEnd(x, s, 1);
    var s2 := WriteMoves(x, s1, 1, message);
    assert s2.ring.slots == [Slot(2, Some(message))];
    var s3 := TakeMoves(x, s2);
    assert s3.ring.slots == [Slot(2, None)] && s3.ring.Pc(1) == s2.ring.Pc(1);
    var s4 := PublishMoves(x, s3, 1, message, 2);
    assert s4.ring.slots == [Slot(3, None)];
    AcceptAllDrains(Store(s4.consumer, message));
    s := HandleMoves(x, s4, message);
    assert s.ring.slots == [Slot(2, None)];
    assert s.ring.Pc(1) == s4.ring.Pc(1);
    assert s.producers == OnePart(CountDown, 2);
  }

  /** Return code 0, and the first of two batches is not in the output. */
  lemma OneSlotLosesABatch<B(!new)>(a: B, b: B, capacity: nat) returns (x: Setting<B>, s: System<B>)
    requires capacity < 2
    ensures x == Setting([[a, b]], AcceptAll(), capacity) && Reaches(x, s)
    ensures s.pc == Returned(0) && Written(s.consumer.sink.accepted) == [b]
  {
    hide Reaches;
    x, s := HandleEndMark(a, b, capacity);
    var s1 := CountDownMoves(x, s, 1);
    assert s1.producers == OnePart(Finished(0), 2);
    var s2 := EndMoves(x, s1);
    DrainEndMark(b);
    var d := s2.consumer;
    assert Drain(d, AcceptAll()) == (d, true);
    Step(x, s2, ConsumerMove);
    s := Perform(x.plan, x.oracle, s2, ConsumerMove);
    var calls: seq<Call<B>> := [OpenTable, Begin(1), Write(b), End, CloseTable];
    assert s.consumer.sink.accepted == calls;
    WrittenOfOne(b);
  }

  lemma WrittenOfOne<B>(b: B)
    ensures Written([OpenTable, Begin(1), Write(b), End, CloseTable]) == [b]
  {
    var calls := Bracket(1, [b]);
    WrittenBracket(1, [b]);
    WrittenBetween(calls);
    assert calls == [Begin(1), Write(b), End];
    assert [OpenTable] + calls + [CloseTable] == [OpenTable, Begin(1), Write(b), End, CloseTable];
  }

  // ---------------------------------------------------------------- the exact capacities

  /** Return code 0 means the sequential output, for every plan, sink and interleaving, exactly from two slots up. */
  lemma SequentialExactlyFromTwoSlots<B(!new)>(capacity: nat, b: B)
    ensures (forall plan: seq<seq<B>>, oracle: Oracle<B>, run: seq<System<B>> |
               IsExecution(plan, oracle, capacity, run) && run[|run| - 1].pc == Returned(0) ::
               Written(run[|run| - 1].consumer.sink.accepted) == Flatten(plan, |plan|))
            <==> capacity >= 2
  {
    if capacity >= 2 {
      forall plan: seq<seq<B>>, oracle: Oracle<B>, run: seq<System<B>> |
        IsExecution(plan, oracle, capacity, run) && run[|run| - 1].pc == Returned(0)
        ensures Written(run[|run| - 1].consumer.sink.accepted) == Flatten(plan, |plan|)
      {
        ReturnsZeroOnlyIfSequential(plan, oracle, capacity, run);
      }
    } else {
      var x, s := OneSlotLosesABatch(b, b, capacity);
      var run: seq<System<B>> :| IsExecution(x.plan, x.oracle, x.capacity, run) && run[|run| - 1] == s;
      assert Flatten(x.plan, |x.plan|) == [b, b];
    }
  }

  /** What is written is at every moment a prefix of the sequential output, exactly from two slots up. */
  lemma PrefixExactlyFromTwoSlots<B(!new)>(capacity: nat, a: B, b: B)
    requires a != b
    ensures (forall plan: seq<seq<B>>, oracle: Oracle<B>, run: seq<System<B>> |
               IsExecution(plan, oracle, capacity, run) ::
               Written(run[|run| - 1].consumer.sink.accepted) <= Flatten(plan, |plan|))
            <==> capacity >= 2
  {
    if capacity >= 2 {
      forall plan: seq<seq<B>>, oracle: Oracle<B>, run: seq<System<B>> | IsExecution(plan, oracle, capacity, run)
        ensures Written(run[|run| - 1].consumer.sink.accepted) <= Flatten(plan, |plan|)
      {
        WritesAreAlwaysAPrefix(plan, oracle, capacity, run);
      }
    } else {
      var x, s := OneSlotLosesABatch(a, b, capacity);
      var run: seq<System<B>> :| IsExecution(x.plan, x.oracle, x.capacity, run) && run[|run| - 1] == s;
      assert Flatten(x.plan, |x.plan|) == [a, b];
    }
  }

  // ---------------------------------------------------------------- runs that succeed

  /** Parts before p are done, later ones have not started, and part p's producer is as given. */
  ghost predicate Rests<B(!new)>(plan: seq<seq<B>>, s: System<B>, p: nat, producer: Producer<B>) {
    && 1 <= p && s.ring.Capacity() > 0 && s.ring.enqueuePos == s.ring.dequeuePos && s.ring.pop.PopIdle?
    && !s.stop && !s.failed && s.pc.Popping? && s.remaining == |plan| + 1 - p
    && (s.ring.closed <==> p > |plan|)
    && (forall q | q in s.producers :: 1 <= q <= |plan|)
    && (forall q: nat | 1 <= q <= |plan| ::
          && q in s.producers && s.ring.Pc(q).PushIdle?
          && (q < p ==> s.producers[q].pc == Finished(0) && Ended(s.received, q))
          && (q == p ==> s.producers[q] == producer)
          && (q > p ==> s.producers[q] == Producer(Start, 0)))
  }

  /** With nothing in the ring, the next slot is free. */
  lemma NextSlotIsFree<B(!new)>(x: Setting<B>, s: System<B>)
    requires x.capacity >= 2 && Reaches(x, s) && s.ring.enqueuePos == s.ring.dequeuePos && s.ring.pop.PopIdle?
    ensures s.ring.Capacity() > 0
    ensures s.ring.slots[Index(s.ring.enqueuePos, s.ring.Capacity())].sequence == s.ring.enqueuePos
  {
    var run: seq<System<B>> :| IsExecution(x.plan, x.oracle, x.capacity, run) && run[|run| - 1] == s;
    ExecutionInv(x.plan, x.oracle, x.capacity, run);
    assert SlotFits(s.ring, s.ring.enqueuePos);
  }

  /** A message that is being pushed into an empty ring is pushed, popped and handled. */
  lemma PassMessage<B(!new)>(x: Setting<B>, s: System<B>, p: nat, message: Message<B>) returns (t: System<B>)
    requires x.capacity >= 2 && x.oracle == AcceptAll() && Reaches(x, s)
    requires 1 <= p <= |x.plan| && p in s.producers && s.producers[p].pc == Pushing(message) && !message.ErrorMessage?
    requires s.ring.Pc(p) == PushLoadClosed(message) && !s.ring.closed
    requires s.ring.enqueuePos == s.ring.dequeuePos && s.ring.pop.PopIdle? && s.pc.Popping? && !s.failed
    ensures Reaches(x, t)
    ensures t == s.(ring := t.ring, producers := s.producers[p := AfterPush(s.producers[p], message)],
                    consumer := t.consumer, received := s.received + [message])
    ensures t.ring.Capacity() > 0 && t.ring.enqueuePos == t.ring.dequeuePos && t.ring.pop.PopIdle? && !t.ring.closed
    ensures t.ring.Pc(p).PushIdle? && forall q | q != p :: t.ring.Pc(q) == s.ring.Pc(q)
  {
    hide Reaches, Index, Drain, Store;
    NextSlotIsFree(x, s);
    var s1 := WriteMoves(x, s, p, message);
    var s2 := PublishMoves(x, s1, p, message, s.ring.enqueuePos);
    var s3 := TakeMoves(x, s2);
    AcceptAllDrains(Store(s3.consumer, message));
    t := HandleMoves(x, s3, message);
    assert t.ring.pushes == s2.ring.pushes;
  }

  lemma SendBatch<B(!new)>(x: Setting<B>, s: System<B>, p: nat, g: nat) returns (t: System<B>)
    requires x.capacity >= 2 && x.oracle == AcceptAll() && Reaches(x, s) && 1 <= p <= |x.plan|
    requires Rests(x.plan, s, p, Producer(CheckStop, g)) && g < |x.plan[p - 1]|
    ensures Reaches(x, t) && Rests(x.plan, t, p, Producer(CheckStop, g + 1))
  {
    hide Reaches, Ended;
    var message := BatchMessage(p, x.plan[p - 1][g]);
    var s1 := EnterBatch(x, s, p);
    t := PassMessage(x, s1, p, message);
    forall q
      ensures Ended(s.received, q) ==> Ended(t.received, q)
    {
      CountsAfter(s.received, message, q);
    }
  }

  lemma {:induction false} SendBatches<B(!new)>(x: Setting<B>, s: System<B>, p: nat, g: nat) returns (t: System<B>)
    requires x.capacity >= 2 && x.oracle == AcceptAll() && Reaches(x, s) && 1 <= p <= |x.plan|
    requires g <= |x.plan[p - 1]| && Rests(x.plan, s, p, Producer(CheckStop, g))
    ensures Reaches(x, t) && Rests(x.plan, t, p, Producer(CheckStop, |x.plan[p - 1]|))
    decreases |x.plan[p - 1]| - g
  {
    hide Reaches, Rests;
    if g == |x.plan[p - 1]| {
      t := s;
    } else {
      var more := SendBatch(x, s, p, g);
      t := SendBatches(x, more, p, g + 1);
    }
  }

  lemma SendEnd<B(!new)>(x: Setting<B>, s: System<B>, p: nat) returns (t: System<B>)
    requires x.capacity >= 2 && x.oracle == AcceptAll() && Reaches(x, s) && 1 <= p <= |x.plan|
    requires Rests(x.plan, s, p, Producer(CheckStop, |x.plan[p - 1]|))
    ensures Reaches(x, t) && Rests(x.plan, t, p + 1, Producer(Start, 0))
  {
    hide Reaches, Ended;
    var message: Message<B> := EndPartition(p);
    var s1 := EnterEnd(x, s, p);
    var s2 := PassMessage(x, s1, p, message);
    assert s2.remaining == |x.plan| + 1 - p;
    t := CountDownMoves(x, s2, p);
    forall q: nat | 1 <= q <= |x.plan|
      ensures q in t.producers && t.ring.Pc(q).PushIdle?
      ensures q <= p ==> t.producers[q].pc == Finished(0) && Ended(t.received, q)
      ensures q > p ==> t.producers[q] == Producer(Start, 0)
    {
      CountsAfter(s.received, message, q);
      assert q in s.producers && (q != p ==> t.producers[q] == s.producers[q]);
    }
  }

  /** All parts one after the other. */
  lemma {:induction false} SendParts<B(!new)>(x: Setting<B>, p: nat) returns (s: System<B>)
    requires x.capacity >= 2 && x.oracle == AcceptAll() && 1 <= p <= |x.plan| + 1 && x.plan != []
    ensures Reaches(x, s) && Rests(x.plan, s, p, Producer(Start, 0))
  {
    hide Reaches, Ended, Index;
    if p == 1 {
      s := Launch(x.plan, x.capacity);
      LaunchReached(x);
    } else {
      var before := SendParts(x, p - 1);
      Step(x, before, ProducerMove(p - 1, false));
      var started := Goto(before, p - 1, CheckStop);
      var sent := SendBatches(x, started, p - 1, 0);
      s := SendEnd(x, sent, p - 1);
    }
  }

  /** For every plan with a part and every capacity from two up, some run returns 0. */
  lemma SomeRunReturnsZero<B(!new)>(plan: seq<seq<B>>, capacity: nat)
    requires capacity >= 2 && plan != []
    ensures exists run: seq<System<B>> ::
              IsExecution(plan, AcceptAll(), capacity, run) && run[|run| - 1].pc == Returned(0)
  {
    var x := Setting(plan, AcceptAll<B>(), capacity);
    var s := SendParts(x, |plan| + 1);
    NextSlotIsFree(x, s);
    var joined := EndMoves(x, s);
    FinishesWithZero(x, joined);
    Step(x, joined, ConsumerMove);
    var t := Perform(x.plan, x.oracle, joined, ConsumerMove);
    assert t.pc == Returned(0);
    var run: seq<System<B>> :| IsExecution(x.plan, x.oracle, x.capacity, run) && run[|run| - 1] == t;
  }

  lemma FinishesWithZero<B(!new)>(x: Setting<B>, s: System<B>)
    requires x.capacity >= 2 && x.oracle == AcceptAll() && Reaches(x, s) && s.pc.Finishing? && !s.failed
    requires s.ring.Capacity() > 0 && forall q: nat | 1 <= q <= |x.plan| :: Ended(s.received, q)
    ensures Perform(x.plan, x.oracle, s, ConsumerMove).pc == Returned(0)
  {
    hide Drain, Consistent, Legal, Inv;
    var run: seq<System<B>> :| IsExecution(x.plan, x.oracle, x.capacity, run) && run[|run| - 1] == s;
    ExecutionInv(x.plan, x.oracle, x.capacity, run);
    ReceivedLegal(x.plan, s);
    AcceptAllDrains(s.consumer);
    FinishReaches(x.plan, x.oracle, s.consumer, s.received);
  }
}
