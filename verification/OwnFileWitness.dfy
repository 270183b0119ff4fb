/**
 What return code 0 of the one-partition pipeline does not promise: runs that return 0 and lose the last batch, or
 swallow an exception of the generator, and the partitions for which no such run exists.
 */
module OwnFileWitness {
  import opened Wrappers
  import opened Ring
  import opened RingRuns
  import opened OrderedConsumer
  import opened OwnFile

  predicate Throws(move: Move) {
    move.ProducerMove? && move.throws
  }

  ghost predicate NextThrowFree<B(!new)>(batches: seq<B>, s: Pipeline<B>, t: Pipeline<B>) {
    exists move :: !Throws(move) && CanMove(s, move) && t == Perform(batches, s, move)
  }

  /** A run in which the generator never throws. */
  ghost predicate IsThrowFree<B(!new)>(batches: seq<B>, run: seq<Pipeline<B>>) {
    && |run| > 0 && run[0] == Launch()
    && forall i | 0 <= i < |run| - 1 :: NextThrowFree(batches, run[i], run[i + 1])
  }

  lemma ThrowFreeIsExecution<B(!new)>(batches: seq<B>, run: seq<Pipeline<B>>)
    requires IsThrowFree(batches, run)
    ensures IsExecution(batches, run)
  {
    forall i | 0 <= i < |run| - 1
      ensures NextPipeline(batches, run[i], run[i + 1])
    {
      assert NextThrowFree(batches, run[i], run[i + 1]);
    }
  }

  ghost predicate IsRun<B(!new)>(batches: seq<B>, throwFree: bool, run: seq<Pipeline<B>>) {
    if throwFree then IsThrowFree(batches, run) else IsExecution(batches, run)
  }

  ghost predicate Reaches<B(!new)>(batches: seq<B>, throwFree: bool, s: Pipeline<B>) {
    exists run: seq<Pipeline<B>> :: IsRun(batches, throwFree, run) && run[|run| - 1] == s
  }

  lemma Step<B(!new)>(batches: seq<B>, throwFree: bool, s: Pipeline<B>, move: Move)
    requires Reaches(batches, throwFree, s) && CanMove(s, move) && (throwFree ==> !Throws(move))
    ensures Reaches(batches, throwFree, Perform(batches, s, move))
  {
    hide Perform, CanMove;
    var t := Perform(batches, s, move);
    var run: seq<Pipeline<B>> :| IsRun(batches, throwFree, run) && run[|run| - 1] == s;
    var longer := run + [t];
    forall i | 0 <= i < |longer| - 1
      ensures if throwFree then NextThrowFree(batches, longer[i], longer[i + 1])
              else NextPipeline(batches, longer[i], longer[i + 1])
    {
      if i < |run| - 1 {
        assert longer[i] == run[i] && longer[i + 1] == run[i + 1];
      } else {
        assert longer[i] == s && longer[i + 1] == t;
      }
    }
    assert IsRun(batches, throwFree, longer) && longer[|longer| - 1] == t;
  }

  // ---------------------------------------------------------------- uninterrupted stretches

  lemma {:induction false} PushMoves<B(!new)>(batches: seq<B>, throwFree: bool, s: Pipeline<B>, n: nat)
    requires Reaches(batches, throwFree, s) && s.producer.Pushing? && CanPush(s.ring, PRODUCER, n)
    ensures Reaches(batches, throwFree, s.(ring := PushSteps(s.ring, PRODUCER, n)))
  {
    hide Reaches, Apply, Enabled;
    if n > 0 {
      PushMoves(batches, throwFree, s, n - 1);
      var before := s.(ring := PushSteps(s.ring, PRODUCER, n - 1));
      assert Enabled(before.ring, StepPush(PRODUCER, false));
      NeedsSlots(before.ring, StepPush(PRODUCER, false));
      Step(batches, throwFree, before, PushMove(false));
    } else {
      assert s.(ring := PushSteps(s.ring, PRODUCER, 0)) == s;
    }
  }

  lemma NeedsSlots<T>(r: State<T>, a: Action<T>)
    requires Enabled(r, a)
    ensures r.Capacity() > 0
  {
  }

  /** The history of Pop's last sequence load is all that changes besides the ring. */
  ghost predicate OnlyRing<B(!new)>(s: Pipeline<B>, t: Pipeline<B>) {
    t == s.(ring := t.ring, publishedAtLoad := t.publishedAtLoad, closedAtLoad := t.closedAtLoad)
  }

  lemma {:induction false} PopMoves<B(!new)>(batches: seq<B>, throwFree: bool, s: Pipeline<B>, n: nat)
    returns (t: Pipeline<B>)
    requires Reaches(batches, throwFree, s) && s.writer.Popping? && CanPop(s.ring, n)
    ensures Reaches(batches, throwFree, t) && OnlyRing(s, t) && t.ring == PopSteps(s.ring, n)
  {
    hide Reaches, Apply, Enabled;
    t := s;
    if n > 0 {
      var before := PopMoves(batches, throwFree, s, n - 1);
      assert Enabled(before.ring, StepPop);
      NeedsSlots(before.ring, StepPop);
      Step(batches, throwFree, before, PopMove);
      t := Perform(batches, before, PopMove);
    }
  }

  // ---------------------------------------------------------------- one batch after the other

  /** Nothing is under way: k batches were generated, taken and written. */
  ghost predicate Rests<B(!new)>(batches: seq<B>, s: Pipeline<B>, k: nat) {
    && k <= |batches| && s.written == batches[..k] && s.generated == k
    && s.producer.CheckStop? && s.writer.Popping? && !s.stop && !s.failed
    && s.ring.Capacity() == 2 && s.ring.enqueuePos == k && s.ring.dequeuePos == k
    && s.ring.slots[Index(k, 2)].sequence == k && s.ring.slots[Index(k + 1, 2)].sequence == k + 1
    && !s.ring.closed && s.ring.pop.PopIdle? && s.ring.Pc(PRODUCER).PushIdle?
  }

  lemma LaunchRests<B(!new)>(batches: seq<B>, throwFree: bool)
    ensures Reaches(batches, throwFree, Launch<B>()) && Rests(batches, Launch<B>(), 0)
  {
    assert IsRun(batches, throwFree, [Launch<B>()]);
    assert [Launch<B>()][|[Launch<B>()]| - 1] == Launch<B>();
  }

  /** The producer pushes a message, from the loop's check to the return of Push. */
  lemma PushWhole<B(!new)>(batches: seq<B>, throwFree: bool, s: Pipeline<B>, k: nat, throws: bool)
    returns (t: Pipeline<B>)
    requires Reaches(batches, throwFree, s) && k <= |batches| && s.generated == k
    requires s.producer.CheckStop? && !s.stop && (throwFree ==> !throws) && (!throws ==> k < |batches|)
    requires s.ring.Capacity() == 2 && s.ring.enqueuePos == k && s.ring.slots[Index(k, 2)].sequence == k
    requires !s.ring.closed && s.ring.Pc(PRODUCER).PushIdle?
    ensures Reaches(batches, throwFree, t)
    ensures var message := if throws then ErrorMessage(PRODUCER) else BatchMessage(PRODUCER, batches[k]);
            && t == s.(ring := t.ring, producer := if throws then CloseRing else CheckStop,
                       generated := if throws then k else k + 1)
            && t.ring.slots == s.ring.slots[Index(k, 2) := Slot(k + 1, Some(message))]
            && t.ring.enqueuePos == k + 1 && t.ring.Pc(PRODUCER).PushIdle?
            && t.ring.accepted == s.ring.accepted + [Entry(PRODUCER, message)]
            && t.ring.dequeuePos == s.ring.dequeuePos && t.ring.pop == s.ring.pop && !t.ring.closed
  {
    hide Reaches, Index, PushSteps;
    var message := if throws then ErrorMessage(PRODUCER) else BatchMessage(PRODUCER, batches[k]);
    Step(batches, throwFree, s, ProducerMove(false));
    var s1 := s.(producer := Generate);
    Step(batches, throwFree, s1, ProducerMove(throws));
    var s2 := CallPushOf(s1, message);
    PushWrites(s2.ring, PRODUCER, message);
    PushMoves(batches, throwFree, s2, 5);
    var s3 := s2.(ring := PushSteps(s2.ring, PRODUCER, 5));
    PushPublishes(s3.ring, PRODUCER, message, k);
    PushMoves(batches, throwFree, s3, 1);
    var s4 := s3.(ring := PushSteps(s3.ring, PRODUCER, 1));
    Step(batches, throwFree, s4, ProducerMove(false));
    t := Perform(batches, s4, ProducerMove(false));
  }

  /** The writer pops the one published batch and writes it. */
  lemma PopWhole<B(!new)>(batches: seq<B>, throwFree: bool, s: Pipeline<B>, k: nat, batch: B)
    returns (t: Pipeline<B>)
    requires Reaches(batches, throwFree, s) && s.writer.Popping? && !s.stop
    requires s.ring.Capacity() == 2 && s.ring.dequeuePos == k && s.ring.pop.PopIdle?
    requires s.ring.slots[Index(k, 2)] == Slot(k + 1, Some(BatchMessage(PRODUCER, batch)))
    ensures Reaches(batches, throwFree, t)
    ensures && t == s.(ring := t.ring, written := s.written + [batch], received := t.received,
                       publishedAtLoad := t.publishedAtLoad, closedAtLoad := t.closedAtLoad)
            && t.ring.slots == s.ring.slots[Index(k, 2) := Slot(k + 2, None)]
            && t.ring.dequeuePos == k + 1 && t.ring.pop.PopIdle?
            && t.ring.enqueuePos == s.ring.enqueuePos && t.ring.closed == s.ring.closed
            && t.ring.Pc(PRODUCER) == s.ring.Pc(PRODUCER)
  {
    hide Reaches, Index, PopSteps;
    var message := BatchMessage(PRODUCER, batch);
    Step(batches, throwFree, s, WriterMove(true));
    var s1 := s.(ring := Apply(s.ring, CallPop));
    PopTakes(s1.ring);
    var s2 := PopMoves(batches, throwFree, s1, 2);
    PopReleases(s2.ring, Some(message));
    var s3 := PopMoves(batches, throwFree, s2, 2);
    Step(batches, throwFree, s3, WriterMove(true));
    var s4 := Perform(batches, s3, WriterMove(true));
    assert s4.writer == Handling(message);
    Step(batches, throwFree, s4, WriterMove(true));
    t := Perform(batches, s4, WriterMove(true));
  }

  lemma Deliver<B(!new)>(batches: seq<B>, throwFree: bool, s: Pipeline<B>, k: nat) returns (t: Pipeline<B>)
    requires Reaches(batches, throwFree, s) && Rests(batches, s, k) && k < |batches|
    ensures Reaches(batches, throwFree, t) && Rests(batches, t, k + 1)
  {
    hide Reaches, Index;
    IndexDistinct(k, k + 1, 2);
    IndexPeriodic(k, 2);
    var pushed := PushWhole(batches, throwFree, s, k, false);
    t := PopWhole(batches, throwFree, pushed, k, batches[k]);
    assert batches[..k + 1] == batches[..k] + [batches[k]];
  }

  lemma {:induction false} DeliverFirst<B(!new)>(batches: seq<B>, throwFree: bool, k: nat) returns (s: Pipeline<B>)
    requires k <= |batches|
    ensures Reaches(batches, throwFree, s) && Rests(batches, s, k)
  {
    hide Reaches, Rests;
    if k == 0 {
      s := Launch();
      LaunchRests(batches, throwFree);
    } else {
      var before := DeliverFirst(batches, throwFree, k - 1);
      s := Deliver(batches, throwFree, before, k - 1);
    }
  }

  // ---------------------------------------------------------------- the race

  /** Pop has found the ring empty and has not looked at the closed flag yet. */
  lemma LoadEmpty<B(!new)>(batches: seq<B>, throwFree: bool, s: Pipeline<B>, k: nat) returns (t: Pipeline<B>)
    requires Reaches(batches, throwFree, s) && Rests(batches, s, k)
    ensures Reaches(batches, throwFree, t) && OnlyRing(s, t) && t.ring == s.ring.(pop := PopLoadClosed)
  {
    hide Reaches, Index, PopSteps;
    Step(batches, throwFree, s, WriterMove(true));
    var called := s.(ring := Apply(s.ring, CallPop));
    PopFindsNothing(called.ring);
    t := PopMoves(batches, throwFree, called, 1);
  }

  /** The producer closes the ring; Pop, past its sequence load, returns false; nothing has failed. */
  lemma CloseAndReturn<B(!new)>(batches: seq<B>, throwFree: bool, s: Pipeline<B>) returns (t: Pipeline<B>)
    requires Reaches(batches, throwFree, s) && s.producer.CloseRing? && s.ring.Pc(PRODUCER).PushIdle?
    requires s.writer.Popping? && s.ring.pop.PopLoadClosed? && s.ring.Capacity() == 2 && !s.failed
    ensures Reaches(batches, throwFree, t) && t.writer == Returned(0)
    ensures t.written == s.written && t.generated == s.generated && t.ring.accepted == s.ring.accepted
  {
    hide Reaches, PopSteps;
    Step(batches, throwFree, s, ProducerMove(false));
    var s1 := s.(producer := Finished, ring := Apply(s.ring, Close));
    PopEnds(s1.ring);
    var s2 := PopMoves(batches, throwFree, s1, 1);
    Step(batches, throwFree, s2, WriterMove(true));
    var s3 := Perform(batches, s2, WriterMove(true));
    assert s3.writer == Joining;
    Step(batches, throwFree, s3, WriterMove(true));
    t := Perform(batches, s3, WriterMove(true));
  }

  /**
   The producer publishes its last batch and closes the ring between Pop's sequence load and its load of the closed
   flag: return code 0, nothing thrown, and that batch is not in the file.
   */
  lemma LosesItsLastBatch<B(!new)>(batches: seq<B>) returns (s: Pipeline<B>)
    requires batches != []
    ensures Reaches(batches, true, s)
    ensures s.writer == Returned(0) && s.written == batches[..|batches| - 1] && s.generated == |batches|
  {
    hide Reaches, Index;
    var k := |batches| - 1;
    var s0 := DeliverFirst(batches, true, k);
    var s1 := LoadEmpty(batches, true, s0, k);
    var s2 := PushWhole(batches, true, s1, k, false);
    Step(batches, true, s2, ProducerMove(false));
    var s3 := s2.(producer := Generate);
    Step(batches, true, s3, ProducerMove(false));
    s := CloseAndReturn(batches, true, s3.(producer := CloseRing));
  }

  /**
   The same race hides a failure: the generator throws after k batches, its error message is published between the
   two loads, and the return code is 0 with the first k batches written.
   */
  lemma SwallowsException<B(!new)>(batches: seq<B>, k: nat) returns (s: Pipeline<B>)
    requires k <= |batches|
    ensures Reaches(batches, false, s)
    ensures s.writer == Returned(0) && s.written == batches[..k] && s.generated == k
    ensures var accepted := s.ring.accepted;
            accepted != [] && accepted[|accepted| - 1].value == ErrorMessage(PRODUCER)
  {
    hide Reaches, Index;
    var s0 := DeliverFirst(batches, false, k);
    var s1 := LoadEmpty(batches, false, s0, k);
    var s2 := PushWhole(batches, false, s1, k, true);
    s := CloseAndReturn(batches, false, s2);
  }

  // ---------------------------------------------------------------- when return code 0 means a complete file

  /** Return code 0 means a complete file, in every run, exactly for a partition without batches ... */
  lemma CompleteInEveryRunExactlyWhen<B(!new)>(batches: seq<B>)
    ensures (forall run: seq<Pipeline<B>> |
               IsExecution(batches, run) && run[|run| - 1].writer == Returned(0) :: run[|run| - 1].written == batches)
            <==> batches == []
  {
    if batches == [] {
      forall run: seq<Pipeline<B>> | IsExecution(batches, run) && run[|run| - 1].writer == Returned(0)
        ensures run[|run| - 1].written == batches
      {
        FileIsAlwaysAPrefix(batches, run);
      }
    } else {
      var s := LosesItsLastBatch(batches);
      var run: seq<Pipeline<B>> :| IsRun(batches, true, run) && run[|run| - 1] == s;
      ThrowFreeIsExecution(batches, run);
      assert run[|run| - 1].written != batches;
    }
  }

  /** ... and leaving out the generators that throw does not help. */
  lemma CompleteInEveryThrowFreeRunExactlyWhen<B(!new)>(batches: seq<B>)
    ensures (forall run: seq<Pipeline<B>> |
               IsThrowFree(batches, run) && run[|run| - 1].writer == Returned(0) :: run[|run| - 1].written == batches)
            <==> batches == []
  {
    if batches == [] {
      forall run: seq<Pipeline<B>> | IsThrowFree(batches, run) && run[|run| - 1].writer == Returned(0)
        ensures run[|run| - 1].written == batches
      {
        ThrowFreeIsExecution(batches, run);
        FileIsAlwaysAPrefix(batches, run);
      }
    } else {
      var s := LosesItsLastBatch(batches);
      var run: seq<Pipeline<B>> :| IsRun(batches, true, run) && run[|run| - 1] == s;
      assert run[|run| - 1].written != batches;
    }
  }
}
