/**
 Runs of RunNativeMultiplexedOrdered without a fault: no generator throws and the sink refuses nothing.  The only
 thing that can then go wrong is a Pop that returns false too early.
 */
module MultiplexedCalm {
  import opened Ring
  import opened RingProperties
  import opened OrderedSink
  import opened OrderedConsumer
  import opened ConsumerProperties
  import opened MultiplexedWriter
  import opened MultiplexedOutcome
  import MultiplexedClosing

  ghost predicate AcceptsAll<B(!new)>(oracle: Oracle<B>) {
    forall calls: seq<Call<B>> :: oracle(calls)
  }

  predicate Throws(move: Move) {
    move.ProducerMove? && move.throws
  }

  ghost predicate CalmNext<B(!new)>(plan: seq<seq<B>>, oracle: Oracle<B>, s: System<B>, t: System<B>) {
    exists move :: CanMove(plan, s, move) && !Throws(move) && t == Perform(plan, oracle, s, move)
  }

  ghost predicate IsCalmExecution<B(!new)>(plan: seq<seq<B>>, oracle: Oracle<B>, capacity: nat, run: seq<System<B>>) {
    && AcceptsAll(oracle) && |run| > 0 && run[0] == Launch(plan, capacity)
    && forall i | 0 <= i < |run| - 1 :: CalmNext(plan, oracle, run[i], run[i + 1])
  }

  ghost predicate NoErrors<B>(messages: seq<Message<B>>) {
    forall i | 0 <= i < |messages| :: !messages[i].ErrorMessage?
  }

  /** The producer has met no fault, and has had its end mark accepted before it counts down. */
  ghost predicate ProducerCalm<B>(accepted: seq<Message<B>>, p: nat, pc: ProducerPc<B>) {
    match pc
    case Pushing(message) => !message.ErrorMessage?
    case Signal => false
    case CloseQueue => false
    case CountDown => Ended(accepted, p)
    case CloseLast => Ended(accepted, p)
    case Finished(rc) => rc == 0 && Ended(accepted, p)
    case _ => true
  }

  ghost predicate CalmInv<B>(plan: seq<seq<B>>, s: System<B>) {
    && !s.stop && (s.failed ==> s.pc.Returned?) && !s.pc.SignalStop? && !s.pc.SignalClose?
    && NoErrors(Values(s.ring.accepted))
    && (forall p | p in s.producers :: ProducerCalm(Values(s.ring.accepted), p, s.producers[p].pc))
    && Refusals(s.consumer.sink) == 0
  }

  /** Everything known of a calm run. */
  ghost predicate AllInv<B>(plan: seq<seq<B>>, s: System<B>) {
    SystemInv(plan, s) && MultiplexedClosing.CloseInv(plan, s) && CalmInv(plan, s)
  }

  // ---------------------------------------------------------------- steps

  lemma CalmPush<B(!new)>(plan: seq<seq<B>>, s: System<B>, p: nat, spurious: bool)
    requires AllInv(plan, s) && CanMove(plan, s, PushMove(p, spurious))
    ensures CalmInv(plan, s.(ring := Apply(s.ring, StepPush(p, spurious))))
  {
    hide Inv, Legal, Apply, MultiplexedClosing.CloseInv, DeliveryFits, SinkFits;
    var a: Action<Message<B>> := StepPush(p, spurious);
    var t := s.(ring := Apply(s.ring, a));
    ActionFrame(s.ring, a);
    assert ProducerFits(plan, s, p) && ProducerCalm(Values(s.ring.accepted), p, s.producers[p].pc);
    forall q | q in t.producers
      ensures ProducerCalm(Values(t.ring.accepted), q, t.producers[q].pc)
    {
      if Ring.Accepts(s.ring, a) {
        AcceptCounts(s, t, p, q);
      }
    }
    if Ring.Accepts(s.ring, a) {
      AcceptCounts(s, t, p, p);
    }
  }

  /** No Push of a calm run is refused. */
  lemma NeverRefused<B(!new)>(plan: seq<seq<B>>, s: System<B>, p: nat)
    requires MultiplexedClosing.CloseInv(plan, s) && !s.stop
    requires p in s.producers && s.producers[p].pc.Pushing?
    ensures !s.ring.closed
    ensures s.ring.Pc(p).PushReturn? ==> s.ring.Pc(p).ok
  {
    MultiplexedClosing.NoneUncounted(s.producers, |plan|);
  }

  lemma CalmReturn<B(!new)>(plan: seq<seq<B>>, s: System<B>, p: nat)
    requires p in s.producers && s.producers[p].pc.Pushing? && 1 <= p <= |plan|
    requires ProducerFits(plan, s, p) && s.ring.Pc(p).PushReturn? && s.ring.Pc(p).ok
    requires !s.producers[p].pc.message.ErrorMessage?
    requires CanMove(plan, s, ProducerMove(p, false))
    ensures ProducerCalm(Values(s.ring.accepted), p, ProducerStep(plan, s, p, false).producers[p].pc)
    ensures var t := ProducerStep(plan, s, p, false); t.stop == s.stop && t.failed == s.failed
  {
    hide Apply;
  }

  lemma CalmProducer<B(!new)>(plan: seq<seq<B>>, s: System<B>, p: nat)
    requires AllInv(plan, s) && CanMove(plan, s, ProducerMove(p, false))
    ensures CalmInv(plan, ProducerStep(plan, s, p, false))
  {
    hide Inv, Legal, MultiplexedClosing.CloseInv, DeliveryFits, SinkFits, Apply;
    var t := ProducerStep(plan, s, p, false);
    assert ProducerFits(plan, s, p) && ProducerCalm(Values(s.ring.accepted), p, s.producers[p].pc);
    ProducerMoveFits(plan, s, p, false);
    if s.producers[p].pc.Pushing? {
      NeverRefused(plan, s, p);
      CalmReturn(plan, s, p);
    } else {
      CalmOwn(plan, s, p);
    }
    forall q | q in t.producers
      ensures ProducerCalm(Values(t.ring.accepted), q, t.producers[q].pc)
    {
      assert q != p ==> q in s.producers && ProducerCalm(Values(s.ring.accepted), q, s.producers[q].pc);
    }
  }

  lemma CalmOwn<B(!new)>(plan: seq<seq<B>>, s: System<B>, p: nat)
    requires CanMove(plan, s, ProducerMove(p, false)) && !s.producers[p].pc.Pushing? && !s.stop
    requires ProducerCalm(Values(s.ring.accepted), p, s.producers[p].pc)
    ensures var t := ProducerStep(plan, s, p, false);
            && ProducerCalm(Values(s.ring.accepted), p, t.producers[p].pc)
            && !t.stop && t.failed == s.failed
            && t.producers.Keys == s.producers.Keys
  {
    hide Apply;
  }

  /** A sink that refuses nothing lets every drain through. */
  lemma {:induction false} DrainAccepted<B(!new)>(c: Consumer<B>, oracle: Oracle<B>)
    requires AcceptsAll(oracle)
    ensures Drain(c, oracle).1
    decreases c.partCount + 1 - c.expected,
              if c.expected in c.states then |c.states[c.expected].batches| else 0,
              if c.expected in c.states && c.states[c.expected].begun then 0 else 1
  {
    if c.expected <= c.partCount && c.expected in c.states {
      var state := c.states[c.expected];
      if state.batches != [] && !state.begun {
        DrainAccepted(AfterBegin(c, c.sink.Attempt(Begin(c.expected), true)), oracle);
      } else if state.batches != [] {
        DrainAccepted(AfterWrite(c, c.sink.Attempt(Write(state.batches[0]), true)), oracle);
      } else if state.completed {
        DrainAccepted(AfterEnd(c, if state.begun then c.sink.Attempt(End, true) else c.sink), oracle);
      }
    }
  }

  /** The message in the consumer's hands is one that was accepted. */
  lemma HandledIsAccepted<B>(s: System<B>)
    requires DeliveryFits(s) && NoErrors(Values(s.ring.accepted)) && s.pc.Handling?
    ensures !s.pc.message.ErrorMessage?
  {
    var n := |s.received|;
    assert (s.received + [s.pc.message])[n] == Values(s.ring.accepted)[n];
  }

  lemma CalmConsumer<B(!new)>(plan: seq<seq<B>>, oracle: Oracle<B>, s: System<B>)
    requires AllInv(plan, s) && CanMove(plan, s, ConsumerMove) && AcceptsAll(oracle)
    ensures CalmInv(plan, ConsumerStep(plan, oracle, s))
  {
    hide Inv, Legal, MultiplexedClosing.CloseInv, SinkFits, Drain, Store, ProducerFits;
    if s.pc.Handling? {
      HandledIsAccepted(s);
      DrainAccepted(Store(s.consumer, s.pc.message), oracle);
      DrainRefuses(Store(s.consumer, s.pc.message), oracle);
      MultiplexedClosing.StoreKeepsSink(s.consumer, s.pc.message);
    } else if s.pc.Popping? {
      ActionFrame(s.ring, if s.ring.pop.PopIdle? then CallPop else ReturnPop);
    } else if s.pc.Finishing? {
      DrainRefuses(s.consumer, oracle);
      DrainAccepted(s.consumer, oracle);
    } else if s.pc.Joining? {
      assert forall p | p in s.producers :: ProducerCalm(Values(s.ring.accepted), p, s.producers[p].pc);
    }
  }

  lemma CalmMove<B(!new)>(plan: seq<seq<B>>, oracle: Oracle<B>, s: System<B>, move: Move)
    requires AllInv(plan, s) && CanMove(plan, s, move) && !Throws(move) && AcceptsAll(oracle)
    ensures AllInv(plan, Perform(plan, oracle, s, move))
  {
    hide SystemInv, MultiplexedClosing.CloseInv, CalmInv;
    MoveInv(plan, oracle, s, move);
    MultiplexedClosing.MoveCloses(plan, oracle, s, move);
    match move
    case PushMove(p, spurious) => CalmPush(plan, s, p, spurious);
    case ProducerMove(p, throws) => CalmProducer(plan, s, p);
    case PopMove => CalmPop(plan, s);
    case ConsumerMove => CalmConsumer(plan, oracle, s);
  }

  lemma CalmPop<B(!new)>(plan: seq<seq<B>>, s: System<B>)
    requires CalmInv(plan, s) && CanMove(plan, s, PopMove)
    ensures CalmInv(plan, s.(ring := Apply(s.ring, StepPop)))
  {
    hide Apply;
    ActionFrame(s.ring, StepPop);
  }

  lemma CalmIsExecution<B(!new)>(plan: seq<seq<B>>, oracle: Oracle<B>, capacity: nat, run: seq<System<B>>)
    requires IsCalmExecution(plan, oracle, capacity, run)
    ensures IsExecution(plan, oracle, capacity, run)
    ensures |run| > 1 ==> IsCalmExecution(plan, oracle, capacity, run[..|run| - 1])
  {
    forall i | 0 <= i < |run| - 1
      ensures NextSystem(plan, oracle, run[i], run[i + 1])
    {
      assert CalmNext(plan, oracle, run[i], run[i + 1]);
    }
    if |run| > 1 {
      var before := run[..|run| - 1];
      forall i | 0 <= i < |before| - 1
        ensures CalmNext(plan, oracle, before[i], before[i + 1])
      {
        assert CalmNext(plan, oracle, run[i], run[i + 1]);
      }
    }
  }

  lemma {:induction false} CalmExecution<B(!new)>(
      plan: seq<seq<B>>, oracle: Oracle<B>, capacity: nat, run: seq<System<B>>)
    requires capacity >= 2 && IsCalmExecution(plan, oracle, capacity, run)
    ensures AllInv(plan, run[|run| - 1])
    decreases |run|
  {
    if |run| == 1 {
      LaunchInv(plan, capacity);
      MultiplexedClosing.LaunchCloses(plan, capacity);
    } else {
      hide AllInv;
      CalmIsExecution(plan, oracle, capacity, run);
      CalmExecution(plan, oracle, capacity, run[..|run| - 1]);
      var s, t := run[|run| - 2], run[|run| - 2 + 1];
      assert CalmNext(plan, oracle, s, t);
      var move :| CanMove(plan, s, move) && !Throws(move) && t == Perform(plan, oracle, s, move);
      CalmMove(plan, oracle, s, move);
    }
  }

  // ---------------------------------------------------------------- main result

  lemma {:induction false} NoErrorReceived<B>(received: seq<Message<B>>)
    requires NoErrors(received)
    ensures !HasError(received)
  {
    if received != [] {
      NoErrorReceived(received[..|received| - 1]);
    }
  }

  /** A message that is still in the ring is one of a part that has not ended among the earlier ones. */
  lemma NothingAfterTheEnd<B>(plan: seq<seq<B>>, accepted: seq<Message<B>>, n: nat)
    requires Legal(plan, accepted) && NoErrors(accepted) && n < |accepted|
    ensures !AllEnded(plan, accepted[..n])
  {
    LegalPrefix(plan, accepted, n + 1);
    var more := accepted[..n + 1];
    assert more[..n] == accepted[..n] && more[n] == accepted[n];
    assert MayFollow(plan, more[..n], more[n]);
  }

  /**
   Without a fault the run fails for one reason only: it returns 0 exactly when the last Pop left nothing in the
   queue, and then exactly when every end mark was received.
   */
  lemma CalmRunReturnsZeroExactlyWhen<B(!new)>(
      plan: seq<seq<B>>, oracle: Oracle<B>, capacity: nat, run: seq<System<B>>)
    requires capacity >= 2 && IsCalmExecution(plan, oracle, capacity, run) && run[|run| - 1].pc.Returned?
    ensures var s := run[|run| - 1];
            && (s.pc.rc == 0 <==> |s.ring.delivered| == |s.ring.accepted|)
            && (s.pc.rc == 0 <==> AllEnded(plan, s.received))
  {
    hide MultiplexedClosing.CloseInv, Inv, SinkFits, ProducerFits, Legal;
    CalmExecution(plan, oracle, capacity, run);
    CalmIsExecution(plan, oracle, capacity, run);
    ExecutionFailure(plan, oracle, capacity, run);
    ReturnsZeroExactlyWhen(plan, oracle, capacity, run);
    CalmEnd(plan, run[|run| - 1]);
  }

  lemma CalmEnd<B(!new)>(plan: seq<seq<B>>, s: System<B>)
    requires AllInv(plan, s) && s.pc.Returned? && AllFinished(s)
    ensures !HasError(s.received) && !AnyFailed(s) && Refusals(s.consumer.sink) == 0
    ensures AllEnded(plan, s.received) <==> |s.ring.delivered| == |s.ring.accepted|
    ensures forall p | p in s.producers :: s.producers[p].pc == Finished(0)
  {
    hide Inv, SinkFits;
    var accepted, n := Values(s.ring.accepted), |s.ring.delivered|;
    NothingAppended(s.received);
    assert s.received == accepted[..n];
    NoErrorReceived(s.received);
    assert forall p | p in s.producers :: ProducerCalm(accepted, p, s.producers[p].pc);
    if n < |accepted| {
      NothingAfterTheEnd(plan, accepted, n);
    } else {
      assert accepted[..n] == accepted;
      forall p | 1 <= p <= |plan|
        ensures Ended(accepted, p)
      {
        assert p in s.producers;
      }
    }
  }

  // ---------------------------------------------------------------- how producers end, in any run

  /** A producer done with its part had its end mark accepted, or a stop was requested; one that failed stops all. */
  ghost predicate ProducerEnds<B>(s: System<B>, p: nat)
    requires p in s.producers
  {
    match s.producers[p].pc
    case CountDown => s.stop || Ended(Values(s.ring.accepted), p)
    case CloseLast => s.stop || Ended(Values(s.ring.accepted), p)
    case CloseQueue => s.stop
    case Finished(rc) => s.stop || (rc == 0 && Ended(Values(s.ring.accepted), p))
    case _ => true
  }

  ghost predicate EndsFit<B>(s: System<B>) {
    forall p | p in s.producers :: ProducerEnds(s, p)
  }

  lemma EndsPush<B(!new)>(plan: seq<seq<B>>, s: System<B>, p: nat, spurious: bool)
    requires SystemInv(plan, s) && EndsFit(s) && CanMove(plan, s, PushMove(p, spurious))
    ensures EndsFit(s.(ring := Apply(s.ring, StepPush(p, spurious))))
  {
    hide Inv, Legal, Apply, DeliveryFits, SinkFits;
    var a: Action<Message<B>> := StepPush(p, spurious);
    var t := s.(ring := Apply(s.ring, a));
    ActionFrame(s.ring, a);
    assert ProducerFits(plan, s, p);
    forall q | q in t.producers
      ensures ProducerEnds(t, q)
    {
      assert ProducerEnds(s, q);
      if Ring.Accepts(s.ring, a) {
        AcceptCounts(s, t, p, q);
      }
    }
  }

  /** A refused Push means that a stop was requested: the queue cannot be closed for lack of producers. */
  lemma RefusedMeansStop<B(!new)>(plan: seq<seq<B>>, s: System<B>, p: nat)
    requires MultiplexedClosing.CloseInv(plan, s) && p in s.producers && s.producers[p].pc.Pushing?
    requires s.ring.Pc(p).PushReturn? && !s.ring.Pc(p).ok
    ensures s.stop
  {
    MultiplexedClosing.NoneUncounted(s.producers, |plan|);
  }

  lemma EndsReturn<B(!new)>(plan: seq<seq<B>>, s: System<B>, p: nat, throws: bool)
    requires CanMove(plan, s, ProducerMove(p, throws)) && s.producers[p].pc.Pushing?
    requires ProducerFits(plan, s, p) && (!s.ring.Pc(p).ok ==> s.stop)
    ensures var t := ProducerStep(plan, s, p, throws);
            t.ring.accepted == s.ring.accepted ==> p in t.producers && ProducerEnds(t, p)
  {
    hide Apply;
  }

  lemma EndsOwn<B(!new)>(plan: seq<seq<B>>, s: System<B>, p: nat, throws: bool)
    requires CanMove(plan, s, ProducerMove(p, throws)) && !s.producers[p].pc.Pushing? && ProducerEnds(s, p)
    ensures var t := ProducerStep(plan, s, p, throws);
            t.ring.accepted == s.ring.accepted ==> p in t.producers && ProducerEnds(t, p)
  {
    hide Apply;
  }

  lemma EndsProducer<B(!new)>(plan: seq<seq<B>>, s: System<B>, p: nat, throws: bool)
    requires SystemInv(plan, s) && MultiplexedClosing.CloseInv(plan, s) && EndsFit(s)
    requires CanMove(plan, s, ProducerMove(p, throws))
    ensures EndsFit(ProducerStep(plan, s, p, throws))
  {
    hide Inv, Legal, DeliveryFits, SinkFits, Apply, MultiplexedClosing.CloseInv;
    var t := ProducerStep(plan, s, p, throws);
    assert ProducerFits(plan, s, p) && ProducerEnds(s, p);
    ProducerMoveFits(plan, s, p, throws);
    if s.producers[p].pc.Pushing? {
      if !s.ring.Pc(p).ok {
        RefusedMeansStop(plan, s, p);
      }
      EndsReturn(plan, s, p, throws);
    } else {
      EndsOwn(plan, s, p, throws);
    }
    SameProducers(plan, s, p, throws);
    OthersEnd(s, t, p);
  }

  lemma OthersEnd<B(!new)>(s: System<B>, t: System<B>, p: nat)
    requires EndsFit(s) && OnlyProducer(s, t, p) && ProducerEnds(t, p)
    requires forall q | q in t.producers :: q == p || q in s.producers
    ensures EndsFit(t)
  {
    forall q | q in t.producers
      ensures ProducerEnds(t, q)
    {
      assert q != p ==> q in s.producers && ProducerEnds(s, q);
    }
  }

  lemma SameProducers<B(!new)>(plan: seq<seq<B>>, s: System<B>, p: nat, throws: bool)
    requires CanMove(plan, s, ProducerMove(p, throws))
    ensures forall q | q in ProducerStep(plan, s, p, throws).producers :: q == p || q in s.producers
  {
    hide Apply;
  }

  lemma EndsConsumer<B(!new)>(plan: seq<seq<B>>, oracle: Oracle<B>, s: System<B>, move: Move)
    requires EndsFit(s) && CanMove(plan, s, move) && (move.PopMove? || move.ConsumerMove?)
    ensures EndsFit(Perform(plan, oracle, s, move))
  {
    hide Drain, Store, Index, PushStep;
    var t := Perform(plan, oracle, s, move);
    assert t.producers == s.producers && t.ring.accepted == s.ring.accepted;
    forall q | q in t.producers
      ensures ProducerEnds(t, q)
    {
      assert ProducerEnds(s, q);
    }
  }

  /** In every run: a producer ends with 0 only after its end mark or a stop, and with an error only after a stop. */
  lemma {:induction false} ProducersEndInOrder<B(!new)>(
      plan: seq<seq<B>>, oracle: Oracle<B>, capacity: nat, run: seq<System<B>>)
    requires capacity >= 2 && IsExecution(plan, oracle, capacity, run)
    ensures EndsFit(run[|run| - 1])
    decreases |run|
  {
    hide SystemInv, MultiplexedClosing.CloseInv;
    if |run| > 1 {
      hide EndsFit;
      var before := run[..|run| - 1];
      assert IsExecution(plan, oracle, capacity, before) by {
        forall i | 0 <= i < |before| - 1
          ensures NextSystem(plan, oracle, before[i], before[i + 1])
        {
          assert NextSystem(plan, oracle, run[i], run[i + 1]);
        }
      }
      ProducersEndInOrder(plan, oracle, capacity, before);
      ExecutionInv(plan, oracle, capacity, before);
      MultiplexedClosing.ExecutionCloses(plan, oracle, capacity, before);
      var s, t := run[|run| - 2], run[|run| - 1];
      assert NextSystem(plan, oracle, s, t);
      var move :| CanMove(plan, s, move) && t == Perform(plan, oracle, s, move);
      match move
      case PushMove(p, spurious) => EndsPush(plan, s, p, spurious);
      case ProducerMove(p, throws) => EndsProducer(plan, s, p, throws);
      case _ => EndsConsumer(plan, oracle, s, move);
    }
  }
}
