/** Exactly when RunNativeMultiplexedOrdered returns 0. */
module MultiplexedOutcome {
  import opened Ring
  import opened OrderedSink
  import opened OrderedConsumer
  import opened ConsumerProperties
  import opened MultiplexedWriter

  /** Calls the sink has refused. */
  function Refusals<B>(sink: Sink<B>): int {
    |sink.attempts| - |sink.accepted|
  }

  predicate HasError<B>(received: seq<Message<B>>) {
    received != [] && (received[|received| - 1].ErrorMessage? || HasError(received[..|received| - 1]))
  }

  lemma HasErrorMore<B>(received: seq<Message<B>>, message: Message<B>)
    ensures HasError(received + [message]) <==> HasError(received) || message.ErrorMessage?
  {
    assert (received + [message])[..|received|] == received;
  }

  /** A drain reports failure exactly when the sink refused one of its calls. */
  lemma {:induction false} DrainRefuses<B(!new)>(c: Consumer<B>, oracle: Oracle<B>)
    ensures var (d, ok) := Drain(c, oracle);
            if ok then Refusals(d.sink) == Refusals(c.sink) else Refusals(d.sink) > Refusals(c.sink)
    decreases c.partCount + 1 - c.expected,
              if c.expected in c.states then |c.states[c.expected].batches| else 0,
              if c.expected in c.states && c.states[c.expected].begun then 0 else 1
  {
    if c.expected <= c.partCount && c.expected in c.states {
      var state := c.states[c.expected];
      if state.batches != [] && !state.begun {
        DrainRefuses(AfterBegin(c, c.sink.Attempt(Begin(c.expected), true)), oracle);
      } else if state.batches != [] {
        DrainRefuses(AfterWrite(c, c.sink.Attempt(Write(state.batches[0]), true)), oracle);
      } else if state.completed {
        DrainRefuses(AfterEnd(c, if state.begun then c.sink.Attempt(End, true) else c.sink), oracle);
      }
    }
  }

  ghost predicate AllEnded<B>(plan: seq<seq<B>>, received: seq<Message<B>>) {
    forall p | 1 <= p <= |plan| :: Ended(received, p)
  }

  /** What the failure flag and the return code have recorded. */
  ghost predicate FailureFits<B>(plan: seq<seq<B>>, s: System<B>) {
    && Refusals(s.consumer.sink) >= 0
    && (s.pc.Finishing? || s.pc.Returned? ==> AllFinished(s))
    && (if s.pc.Returned? then
          s.pc.rc == 0 <==>
            && Refusals(s.consumer.sink) == 0 && !HasError(s.received)
            && !AnyFailed(s) && AllEnded(plan, s.received)
        else
          s.failed <==>
            Refusals(s.consumer.sink) > 0 || HasError(s.received) || (s.pc.Finishing? && AnyFailed(s)))
  }

  lemma FailureUnchanged<B>(plan: seq<seq<B>>, s: System<B>, t: System<B>)
    requires FailureFits(plan, s)
    requires t.consumer == s.consumer && t.failed == s.failed && t.received == s.received
    requires t.pc == s.pc || (!s.pc.Finishing? && !s.pc.Returned? && !t.pc.Finishing? && !t.pc.Returned?)
    requires t.producers == s.producers || !AllFinished(s)
    ensures FailureFits(plan, t)
  {
  }

  /** The final drain reaches the end exactly when every end mark was received and nothing is refused. */
  lemma FinishReaches<B(!new)>(plan: seq<seq<B>>, oracle: Oracle<B>, c: Consumer<B>, received: seq<Message<B>>)
    requires Legal(plan, received) && Consistent(c, plan, received)
    ensures var (d, ok) := Drain(c, oracle);
            ok ==> (d.expected == |plan| + 1 <==> AllEnded(plan, received))
  {
    DrainKeeps(c, oracle, plan, received);
    if Drain(c, oracle).1 && AllEnded(plan, received) {
      DrainCompletes(c, oracle, plan, received);
    }
  }

  lemma FinishFailure<B(!new)>(plan: seq<seq<B>>, oracle: Oracle<B>, s: System<B>)
    requires SystemInv(plan, s) && CanMove(plan, s, ConsumerMove) && FailureFits(plan, s) && s.pc.Finishing?
    ensures FailureFits(plan, ConsumerStep(plan, oracle, s))
  {
    ReceivedLegal(plan, s);
    DrainRefuses(s.consumer, oracle);
    FinishReaches(plan, oracle, s.consumer, s.received);
  }

  lemma HandleFailure<B(!new)>(plan: seq<seq<B>>, oracle: Oracle<B>, s: System<B>)
    requires CanMove(plan, s, ConsumerMove) && FailureFits(plan, s) && s.pc.Handling?
    ensures FailureFits(plan, ConsumerStep(plan, oracle, s))
  {
    HasErrorMore(s.received, s.pc.message);
    if !s.pc.message.ErrorMessage? {
      DrainRefuses(Store(s.consumer, s.pc.message), oracle);
    }
  }

  lemma ConsumerFailure<B(!new)>(plan: seq<seq<B>>, oracle: Oracle<B>, s: System<B>)
    requires SystemInv(plan, s) && CanMove(plan, s, ConsumerMove) && FailureFits(plan, s)
    ensures FailureFits(plan, ConsumerStep(plan, oracle, s))
  {
    if s.pc.Handling? {
      HandleFailure(plan, oracle, s);
    } else if s.pc.Finishing? {
      FinishFailure(plan, oracle, s);
    } else if s.pc.Joining? {
      JoinFailure(plan, oracle, s);
    } else {
      QuietFailure(plan, oracle, s);
    }
  }

  lemma JoinFailure<B(!new)>(plan: seq<seq<B>>, oracle: Oracle<B>, s: System<B>)
    requires CanMove(plan, s, ConsumerMove) && FailureFits(plan, s) && s.pc.Joining?
    ensures FailureFits(plan, ConsumerStep(plan, oracle, s))
  {
  }

  lemma QuietFailure<B(!new)>(plan: seq<seq<B>>, oracle: Oracle<B>, s: System<B>)
    requires CanMove(plan, s, ConsumerMove) && FailureFits(plan, s)
    requires s.pc.Popping? || s.pc.SignalStop? || s.pc.SignalClose?
    ensures FailureFits(plan, ConsumerStep(plan, oracle, s))
  {
    FailureUnchanged(plan, s, ConsumerStep(plan, oracle, s));
  }

  lemma ProducerFailure<B(!new)>(plan: seq<seq<B>>, s: System<B>, p: nat, throws: bool)
    requires SystemInv(plan, s) && CanMove(plan, s, ProducerMove(p, throws)) && FailureFits(plan, s)
    ensures FailureFits(plan, ProducerStep(plan, s, p, throws))
  {
    assert ProducerFits(plan, s, p);
    ProducerMoveFits(plan, s, p, throws);
    var t := ProducerStep(plan, s, p, throws);
    assert t.failed == s.failed;
    FailureUnchanged(plan, s, t);
  }

  lemma FailureStep<B(!new)>(plan: seq<seq<B>>, oracle: Oracle<B>, s: System<B>, move: Move)
    requires SystemInv(plan, s) && CanMove(plan, s, move) && FailureFits(plan, s)
    ensures FailureFits(plan, Perform(plan, oracle, s, move))
  {
    match move
    case PushMove(p, spurious) => FailureUnchanged(plan, s, s.(ring := Apply(s.ring, StepPush(p, spurious))));
    case ProducerMove(p, throws) => ProducerFailure(plan, s, p, throws);
    case PopMove => FailureUnchanged(plan, s, s.(ring := Apply(s.ring, StepPop)));
    case ConsumerMove => ConsumerFailure(plan, oracle, s);
  }

  lemma {:induction false} ExecutionFailure<B(!new)>(
      plan: seq<seq<B>>, oracle: Oracle<B>, capacity: nat, run: seq<System<B>>)
    requires capacity >= 2 && IsExecution(plan, oracle, capacity, run)
    ensures FailureFits(plan, run[|run| - 1])
    decreases |run|
  {
    if |run| > 1 {
      var before := run[..|run| - 1];
      assert IsExecution(plan, oracle, capacity, before) by {
        forall i | 0 <= i < |before| - 1
          ensures NextSystem(plan, oracle, before[i], before[i + 1])
        {
          assert NextSystem(plan, oracle, run[i], run[i + 1]);
        }
      }
      ExecutionFailure(plan, oracle, capacity, before);
      ExecutionInv(plan, oracle, capacity, before);
      var s, t := run[|run| - 2], run[|run| - 1];
      assert NextSystem(plan, oracle, s, t);
      var move :| CanMove(plan, s, move) && t == Perform(plan, oracle, s, move);
      FailureStep(plan, oracle, s, move);
    }
  }

  /**
   The return code is 0 exactly when the sink refused no call, no error message was received, every producer
   returned 0, and the consumer received every part's end mark.
   */
  lemma ReturnsZeroExactlyWhen<B(!new)>(
      plan: seq<seq<B>>, oracle: Oracle<B>, capacity: nat, run: seq<System<B>>)
    requires capacity >= 2 && IsExecution(plan, oracle, capacity, run)
    requires run[|run| - 1].pc.Returned?
    ensures var s := run[|run| - 1];
            s.pc.rc == 0 <==>
              && |s.consumer.sink.accepted| == |s.consumer.sink.attempts|
              && !HasError(s.received)
              && (forall p | p in s.producers :: s.producers[p].pc == Finished(0))
              && AllEnded(plan, s.received)
  {
    ExecutionFailure(plan, oracle, capacity, run);
    var s := run[|run| - 1];
    assert !AnyFailed(s) <==> forall p | p in s.producers :: s.producers[p].pc == Finished(0);
  }
}
