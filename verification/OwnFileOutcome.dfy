/** How GeneratePartitionToOwnFile winds down, and exactly when it returns 0. */
module OwnFileOutcome {
  import opened Ring
  import opened RingOutcome
  import opened OrderedConsumer
  import opened OwnFile

  ghost predicate AllBatches<B>(received: seq<Message<B>>) {
    forall i | 0 <= i < |received| :: received[i].BatchMessage?
  }

  lemma OneMoreMessage<B>(received: seq<Message<B>>, message: Message<B>)
    ensures AllBatches(received + [message]) <==> AllBatches(received) && message.BatchMessage?
  {
    var more := received + [message];
    assert more[|received|] == message;
    assert forall i | 0 <= i < |received| :: received[i] == more[i];
  }

  /** The writer has failed exactly when a call was refused or an error message came, and it tells everybody. */
  ghost predicate WriterCloses<B>(s: Pipeline<B>) {
    && (if s.writer.Returned? then s.writer.rc == if s.refused == 0 && AllBatches(s.received) then 0 else 2
        else s.failed <==> s.refused > 0 || !AllBatches(s.received))
    && match s.writer
       case Popping => s.failed ==> s.stop && s.ring.closed
       case Handling(_) => s.failed ==> s.stop && s.ring.closed
       case SignalStop => s.failed
       case SignalClose => s.failed && s.stop
       case Joining => s.ring.closed
       case Returned(_) => s.ring.closed && s.producer.Finished?
  }

  ghost predicate CloseInv<B>(s: Pipeline<B>) {
    && FalseMeansClosed(s.ring) && WriterCloses(s)
    && (s.stop ==> s.failed)
    && (s.ring.closed ==> s.producer.Finished? || s.failed)
    && (s.producer.Finished? ==> s.ring.closed)
  }

  lemma MoveCloses<B>(batches: seq<B>, s: Pipeline<B>, move: Move)
    requires CloseInv(s) && CanMove(s, move)
    ensures CloseInv(Perform(batches, s, move))
  {
    hide FalseMeansClosed;
    match move
    case PushMove(spurious) =>
      FalseStep(s.ring, StepPush(PRODUCER, spurious));
      ActionFrame(s.ring, StepPush(PRODUCER, spurious));
    case PopMove =>
      FalseStep(s.ring, StepPop);
      ActionFrame(s.ring, StepPop);
    case ProducerMove(throws) => ProducerCloses(batches, s, throws);
    case WriterMove(accepts) => WriterStepCloses(s, accepts);
  }

  lemma ProducerCloses<B>(batches: seq<B>, s: Pipeline<B>, throws: bool)
    requires CloseInv(s) && CanMove(s, ProducerMove(throws))
    ensures CloseInv(ProducerStep(batches, s, throws))
  {
    hide FalseMeansClosed, Apply;
    var t := ProducerStep(batches, s, throws);
    if s.producer.Pushing? {
      FalseStep(s.ring, ReturnPush(PRODUCER));
      ActionFrame(s.ring, ReturnPush(PRODUCER));
    } else if s.producer.CloseRing? {
      FalseStep(s.ring, Close);
      ActionFrame(s.ring, Close);
    } else if t.producer.Pushing? {
      FalseStep(s.ring, CallPush(PRODUCER, t.producer.message));
      ActionFrame(s.ring, CallPush(PRODUCER, t.producer.message));
    }
  }

  lemma WriterStepCloses<B>(s: Pipeline<B>, accepts: bool)
    requires CloseInv(s) && CanMove(s, WriterMove(accepts))
    ensures CloseInv(WriterStep(s, accepts))
  {
    hide FalseMeansClosed, Apply, AllBatches;
    if s.writer.Popping? {
      PopMeansClosed(s.ring);
      FalseStep(s.ring, if s.ring.pop.PopIdle? then CallPop else ReturnPop);
      ActionFrame(s.ring, if s.ring.pop.PopIdle? then CallPop else ReturnPop);
    } else if s.writer.Handling? {
      OneMoreMessage(s.received, s.writer.message);
    } else if s.writer.SignalClose? {
      FalseStep(s.ring, Close);
      ActionFrame(s.ring, Close);
    }
  }

  lemma PopMeansClosed<T>(r: State<T>)
    requires FalseMeansClosed(r)
    ensures r.pop.PopEmpty? ==> r.closed
  {
  }

  lemma {:induction false} ExecutionCloses<B(!new)>(batches: seq<B>, run: seq<Pipeline<B>>)
    requires IsExecution(batches, run)
    ensures CloseInv(run[|run| - 1])
    decreases |run|
  {
    if |run| > 1 {
      hide CloseInv;
      var before := run[..|run| - 1];
      assert IsExecution(batches, before) by {
        forall i | 0 <= i < |before| - 1
          ensures NextPipeline(batches, before[i], before[i + 1])
        {
          assert NextPipeline(batches, run[i], run[i + 1]);
        }
      }
      ExecutionCloses(batches, before);
      var s, t := run[|run| - 2], run[|run| - 1];
      assert NextPipeline(batches, s, t);
      var move :| CanMove(s, move) && t == Perform(batches, s, move);
      MoveCloses(batches, s, move);
    }
  }

  /** The return code is 0 or 2, and 0 exactly when no call of the writer failed and no error message was received. */
  lemma ReturnsZeroExactlyWhen<B(!new)>(batches: seq<B>, run: seq<Pipeline<B>>)
    requires IsExecution(batches, run) && run[|run| - 1].writer.Returned?
    ensures var s := run[|run| - 1];
            && (s.writer.rc == 0 || s.writer.rc == 2)
            && (s.writer.rc == 0 <==> s.refused == 0 && AllBatches(s.received))
  {
    ExecutionCloses(batches, run);
  }

  /**
   The writer stops popping only when the queue is closed; the producer always ends by closing it, so no Pop waits for
   ever; and it is closed before that only after a failure.
   */
  lemma JoinsOnlyWhenClosed<B(!new)>(batches: seq<B>, run: seq<Pipeline<B>>)
    requires IsExecution(batches, run)
    ensures var s := run[|run| - 1];
            && (s.ring.pop.PopEmpty? || s.writer.Joining? || s.writer.Returned? ==> s.ring.closed)
            && (s.producer.Finished? ==> s.ring.closed)
            && (s.ring.closed ==> s.producer.Finished? || s.failed)
            && (s.writer.Popping? && s.failed ==> s.stop && s.ring.closed)
            && (s.writer.Returned? ==> s.producer.Finished?)
  {
    ExecutionCloses(batches, run);
  }

  // ---------------------------------------------------------------- heeding the stop flag

  function Started<B>(s: Pipeline<B>): nat {
    s.generated + if s.producer.Generate? || (s.producer.Pushing? && s.producer.message.BatchMessage?) then 1 else 0
  }

  lemma StopStep<B>(batches: seq<B>, s: Pipeline<B>, move: Move)
    requires s.stop && CanMove(s, move)
    ensures var t := Perform(batches, s, move); t.stop && Started(t) <= Started(s)
  {
    hide Apply;
  }

  /** Once the writer has failed the producer starts no other batch. */
  lemma {:induction false} StopIsHeeded<B(!new)>(batches: seq<B>, run: seq<Pipeline<B>>)
    requires |run| > 0 && run[0].stop
    requires forall i | 0 <= i < |run| - 1 :: NextPipeline(batches, run[i], run[i + 1])
    ensures run[|run| - 1].stop && run[|run| - 1].generated <= Started(run[0]) <= run[0].generated + 1
    ensures Started(run[|run| - 1]) <= Started(run[0])
    decreases |run|
  {
    if |run| > 1 {
      var before := run[..|run| - 1];
      forall i | 0 <= i < |before| - 1
        ensures NextPipeline(batches, before[i], before[i + 1])
      {
        assert NextPipeline(batches, run[i], run[i + 1]);
      }
      StopIsHeeded(batches, before);
      var s, t := run[|run| - 2], run[|run| - 1];
      assert NextPipeline(batches, s, t);
      var move :| CanMove(s, move) && t == Perform(batches, s, move);
      StopStep(batches, s, move);
    }
  }
}
