/**
 How RunNativeMultiplexedOrdered winds down: when the queue is closed, what each party does once it is, and what a
 run without a fault returns.
 */
module MultiplexedClosing {
  import opened Ring
  import opened RingOutcome
  import opened OrderedSink
  import opened OrderedConsumer
  import opened MultiplexedWriter

  // ---------------------------------------------------------------- who closes the queue

  /** The producer has taken itself off remaining_producers. */
  predicate Counted<B>(pc: ProducerPc<B>) {
    pc.CloseLast? || pc == Finished(0)
  }

  /** How many of the parts 1..n have a producer that has not counted down. */
  function Uncounted<B>(producers: map<nat, Producer<B>>, n: nat): nat {
    if n == 0 then 0
    else Uncounted(producers, n - 1) + if n in producers && Counted(producers[n].pc) then 0 else 1
  }

  lemma {:induction false} UncountedAfter<B>(producers: map<nat, Producer<B>>, p: nat, producer: Producer<B>, n: nat)
    requires p in producers
    ensures Uncounted(producers[p := producer], n) ==
            Uncounted(producers, n)
            + if 1 <= p <= n then
                (if Counted(producers[p].pc) then 1 else 0) - (if Counted(producer.pc) then 1 else 0)
              else 0
  {
    if n > 0 {
      UncountedAfter(producers, p, producer, n - 1);
    }
  }

  lemma {:induction false} UncountedAtStart<B>(producers: map<nat, Producer<B>>, n: nat)
    requires forall p | p in producers :: !Counted(producers[p].pc)
    ensures Uncounted(producers, n) == n
  {
    if n > 0 {
      UncountedAtStart(producers, n - 1);
    }
  }

  /** None is left exactly when all have counted down. */
  lemma {:induction false} NoneUncounted<B>(producers: map<nat, Producer<B>>, n: nat)
    ensures Uncounted(producers, n) == 0 <==> forall p | 1 <= p <= n :: p in producers && Counted(producers[p].pc)
  {
    if n > 0 {
      NoneUncounted(producers, n - 1);
    }
  }

  /** A producer is on its way to set the flags, has set them, or found the queue closed. */
  ghost predicate ProducerCloses<B>(s: System<B>, p: nat)
    requires p in s.producers
  {
    match s.producers[p].pc
    case CloseQueue => s.stop
    case CloseLast => s.remaining == 0
    case Finished(rc) => rc != 0 ==> s.ring.closed
    case _ => true
  }

  ghost predicate ConsumerCloses<B>(s: System<B>) {
    match s.pc
    case Popping => s.failed ==> s.stop && s.ring.closed
    case Handling(_) => s.failed ==> s.stop && s.ring.closed
    case SignalStop => s.failed
    case SignalClose => s.failed && s.stop
    case _ => s.ring.closed
  }

  ghost predicate SomeoneCloses<B>(s: System<B>) {
    exists p :: p in s.producers && s.producers[p].pc.CloseLast?
  }

  ghost predicate CloseInv<B>(plan: seq<seq<B>>, s: System<B>) {
    && FalseMeansClosed(s.ring)
    && (forall p :: p in s.producers <==> 1 <= p <= |plan|)
    && s.remaining == Uncounted(s.producers, |plan|)
    && (s.ring.closed ==> s.stop || s.remaining == 0)
    && (s.remaining == 0 && |plan| > 0 ==> s.ring.closed || SomeoneCloses(s))
    && (forall p | p in s.producers :: ProducerCloses(s, p))
    && ConsumerCloses(s)
  }

  lemma LaunchCloses<B>(plan: seq<seq<B>>, capacity: nat)
    ensures CloseInv(plan, Launch(plan, capacity))
  {
    UncountedAtStart(Producers<B>(|plan|), |plan|);
  }

  /** A step of the ring alone, which closes it or leaves the flag. */
  lemma RingStepCloses<B>(plan: seq<seq<B>>, s: System<B>, a: Action<Message<B>>)
    requires CloseInv(plan, s) && Enabled(s.ring, a) && !a.Close?
    ensures CloseInv(plan, s.(ring := Apply(s.ring, a)))
  {
    hide FalseMeansClosed;
    FalseStep(s.ring, a);
    ActionFrame(s.ring, a);
    var t := s.(ring := Apply(s.ring, a));
    assert SomeoneCloses(s) ==> SomeoneCloses(t);
    forall p | p in t.producers
      ensures ProducerCloses(t, p)
    {
      assert ProducerCloses(s, p);
    }
  }

  /** A producer moves on without counting down; the flags may be set on the way. */
  lemma GotoCloses<B>(plan: seq<seq<B>>, s: System<B>, t: System<B>, p: nat)
    requires CloseInv(plan, s) && p in s.producers && FalseMeansClosed(t.ring)
    requires p in t.producers && t.producers == s.producers[p := t.producers[p]]
    requires Counted(t.producers[p].pc) <==> Counted(s.producers[p].pc)
    requires s.producers[p].pc.CloseLast? ==> t.ring.closed
    requires t.remaining == s.remaining && t.pc == s.pc && t.failed == s.failed
    requires (s.stop ==> t.stop) && (s.ring.closed ==> t.ring.closed)
    requires t.ring.closed ==> s.ring.closed || s.stop || s.remaining == 0
    requires ProducerCloses(t, p)
    ensures CloseInv(plan, t)
  {
    hide FalseMeansClosed;
    UncountedAfter(s.producers, p, t.producers[p], |plan|);
    forall q | q in t.producers
      ensures ProducerCloses(t, q)
    {
      if q != p {
        assert ProducerCloses(s, q);
      }
    }
    if s.remaining == 0 && |plan| > 0 && !t.ring.closed {
      var q :| q in s.producers && s.producers[q].pc.CloseLast?;
      assert q != p && q in t.producers && t.producers[q].pc.CloseLast?;
    }
  }

  lemma CountDownCloses<B>(plan: seq<seq<B>>, s: System<B>, p: nat, throws: bool)
    requires CloseInv(plan, s) && CanMove(plan, s, ProducerMove(p, throws)) && s.producers[p].pc.CountDown?
    ensures CloseInv(plan, ProducerStep(plan, s, p, throws))
  {
    hide FalseMeansClosed;
    var t := ProducerStep(plan, s, p, throws);
    UncountedAfter(s.producers, p, t.producers[p], |plan|);
    forall q | q in t.producers
      ensures ProducerCloses(t, q)
    {
      if q != p {
        assert ProducerCloses(s, q);
      }
    }
    if t.remaining == 0 {
      assert p in t.producers && t.producers[p].pc.CloseLast?;
    }
  }

  /** What a producer's own step does to the ring. */
  lemma ProducerRing<B>(plan: seq<seq<B>>, s: System<B>, p: nat, throws: bool)
    requires FalseMeansClosed(s.ring) && CanMove(plan, s, ProducerMove(p, throws))
    ensures var t, pc := ProducerStep(plan, s, p, throws), s.producers[p].pc;
            && FalseMeansClosed(t.ring)
            && t.ring.closed == (s.ring.closed || pc.CloseQueue? || pc.CloseLast?)
            && (pc.Pushing? && !s.ring.Pc(p).ok ==> s.ring.closed)
  {
    hide Apply, FalseMeansClosed;
    var t := ProducerStep(plan, s, p, throws);
    var pc := s.producers[p].pc;
    if pc.CloseQueue? || pc.CloseLast? {
      FalseStep(s.ring, Close);
      ActionFrame(s.ring, Close);
    } else if pc.Pushing? {
      FalseStep(s.ring, ReturnPush(p));
      ActionFrame(s.ring, ReturnPush(p));
      ReturnedFalse(s.ring, p);
    } else if t.ring != s.ring {
      var message := t.producers[p].pc.message;
      FalseStep(s.ring, CallPush(p, message));
      ActionFrame(s.ring, CallPush(p, message));
    }
  }

  lemma ProducerMoveCloses<B>(plan: seq<seq<B>>, s: System<B>, p: nat, throws: bool)
    requires CloseInv(plan, s) && CanMove(plan, s, ProducerMove(p, throws))
    ensures CloseInv(plan, ProducerStep(plan, s, p, throws))
  {
    assert ProducerCloses(s, p);
    if s.producers[p].pc.CountDown? {
      CountDownCloses(plan, s, p, throws);
    } else {
      ProducerRing(plan, s, p, throws);
      ProducerPlace(plan, s, p, throws);
      GotoCloses(plan, s, ProducerStep(plan, s, p, throws), p);
    }
  }

  /** A producer's own step moves it, may set the stop flag, and counts nothing. */
  ghost predicate OnlyMoves<B>(s: System<B>, t: System<B>, p: nat)
    requires p in s.producers
  {
    && p in t.producers && t.producers == s.producers[p := t.producers[p]]
    && (Counted(t.producers[p].pc) <==> Counted(s.producers[p].pc))
    && t.remaining == s.remaining && t.pc == s.pc && t.failed == s.failed && (s.stop ==> t.stop)
  }

  lemma ProducerPlace<B>(plan: seq<seq<B>>, s: System<B>, p: nat, throws: bool)
    requires CanMove(plan, s, ProducerMove(p, throws)) && ProducerCloses(s, p) && !s.producers[p].pc.CountDown?
    requires s.producers[p].pc.Pushing? && !s.ring.Pc(p).ok ==> s.ring.closed
    requires ProducerStep(plan, s, p, throws).ring.closed ==
             (s.ring.closed || s.producers[p].pc.CloseQueue? || s.producers[p].pc.CloseLast?)
    ensures var t := ProducerStep(plan, s, p, throws); OnlyMoves(s, t, p) && ProducerCloses(t, p)
  {
    if s.producers[p].pc.Pushing? {
      ReturnPlace(plan, s, p, throws);
    } else {
      OwnPlace(plan, s, p, throws);
    }
  }

  lemma ReturnPlace<B>(plan: seq<seq<B>>, s: System<B>, p: nat, throws: bool)
    requires CanMove(plan, s, ProducerMove(p, throws)) && s.producers[p].pc.Pushing?
    requires !s.ring.Pc(p).ok ==> s.ring.closed
    requires ProducerStep(plan, s, p, throws).ring.closed == s.ring.closed
    ensures var t := ProducerStep(plan, s, p, throws); OnlyMoves(s, t, p) && ProducerCloses(t, p)
  {
    hide Apply;
  }

  lemma OwnPlace<B>(plan: seq<seq<B>>, s: System<B>, p: nat, throws: bool)
    requires CanMove(plan, s, ProducerMove(p, throws)) && ProducerCloses(s, p)
    requires var pc := s.producers[p].pc; !pc.CountDown? && !pc.Pushing?
    requires ProducerStep(plan, s, p, throws).ring.closed ==
             (s.ring.closed || s.producers[p].pc.CloseQueue? || s.producers[p].pc.CloseLast?)
    ensures var t := ProducerStep(plan, s, p, throws); OnlyMoves(s, t, p) && ProducerCloses(t, p)
  {
    hide Apply;
  }

  lemma ReturnedFalse<T>(r: State<T>, id: nat)
    requires FalseMeansClosed(r) && r.Pc(id).PushReturn?
    ensures !r.Pc(id).ok ==> r.closed
  {
  }

  lemma ConsumerMoveCloses<B(!new)>(plan: seq<seq<B>>, oracle: Oracle<B>, s: System<B>)
    requires CloseInv(plan, s) && CanMove(plan, s, ConsumerMove)
    ensures CloseInv(plan, ConsumerStep(plan, oracle, s))
  {
    hide Apply, Drain, Store;
    var t := ConsumerStep(plan, oracle, s);
    if s.pc.Popping? {
      var a: Action<Message<B>> := if s.ring.pop.PopIdle? then CallPop else ReturnPop;
      FalseStep(s.ring, a);
      ActionFrame(s.ring, a);
    } else if s.pc.SignalClose? {
      FalseStep(s.ring, Close);
      ActionFrame(s.ring, Close);
    }
    ConsumerKeepsFlags(plan, s, t);
  }

  lemma ConsumerKeepsFlags<B>(plan: seq<seq<B>>, s: System<B>, t: System<B>)
    requires CloseInv(plan, s) && FalseMeansClosed(t.ring) && ConsumerCloses(t)
    requires t.producers == s.producers && t.remaining == s.remaining && (s.stop ==> t.stop)
    requires (s.ring.closed ==> t.ring.closed) && (t.ring.closed ==> s.ring.closed || t.stop)
    ensures CloseInv(plan, t)
  {
    hide FalseMeansClosed;
    assert SomeoneCloses(s) ==> SomeoneCloses(t);
    forall q | q in t.producers
      ensures ProducerCloses(t, q)
    {
      assert ProducerCloses(s, q);
    }
  }

  lemma MoveCloses<B(!new)>(plan: seq<seq<B>>, oracle: Oracle<B>, s: System<B>, move: Move)
    requires CloseInv(plan, s) && CanMove(plan, s, move)
    ensures CloseInv(plan, Perform(plan, oracle, s, move))
  {
    match move
    case PushMove(p, spurious) => RingStepCloses(plan, s, StepPush(p, spurious));
    case ProducerMove(p, throws) => ProducerMoveCloses(plan, s, p, throws);
    case PopMove => RingStepCloses(plan, s, StepPop);
    case ConsumerMove => ConsumerMoveCloses(plan, oracle, s);
  }

  lemma {:induction false} ExecutionCloses<B(!new)>(
      plan: seq<seq<B>>, oracle: Oracle<B>, capacity: nat, run: seq<System<B>>)
    requires IsExecution(plan, oracle, capacity, run)
    ensures CloseInv(plan, run[|run| - 1])
    decreases |run|
  {
    hide CloseInv;
    if |run| == 1 {
      LaunchCloses(plan, capacity);
    } else {
      var before := run[..|run| - 1];
      assert IsExecution(plan, oracle, capacity, before) by {
        forall i | 0 <= i < |before| - 1
          ensures NextSystem(plan, oracle, before[i], before[i + 1])
        {
          assert NextSystem(plan, oracle, run[i], run[i + 1]);
        }
      }
      ExecutionCloses(plan, oracle, capacity, before);
      var s, t := run[|run| - 2], run[|run| - 1];
      assert NextSystem(plan, oracle, s, t);
      var move :| CanMove(plan, s, move) && t == Perform(plan, oracle, s, move);
      MoveCloses(plan, oracle, s, move);
    }
  }

  // ---------------------------------------------------------------- main results on closing

  /**
   At every queue capacity: Pop's false and a refused Push mean a closed queue, so the consumer stops popping only
   when the queue is closed; and the queue is closed only after a stop was requested or all producers counted down.
   */
  lemma JoinsOnlyWhenClosed<B(!new)>(plan: seq<seq<B>>, oracle: Oracle<B>, capacity: nat, run: seq<System<B>>)
    requires IsExecution(plan, oracle, capacity, run)
    ensures var s := run[|run| - 1];
            && (s.ring.pop.PopEmpty? || s.pc.Joining? || s.pc.Finishing? || s.pc.Returned? ==> s.ring.closed)
            && (forall p | p in s.producers && s.producers[p].pc == Finished(2) :: s.ring.closed)
            && (s.ring.closed ==>
                  s.stop || forall p | 1 <= p <= |plan| :: p in s.producers && Counted(s.producers[p].pc))
  {
    ExecutionCloses(plan, oracle, capacity, run);
    var s := run[|run| - 1];
    NoneUncounted(s.producers, |plan|);
    assert forall p | p in s.producers :: ProducerCloses(s, p);
  }

  /** Nobody forgets to close: once all producers have ended, the queue is closed, so no Pop waits for ever. */
  lemma LastProducerCloses<B(!new)>(plan: seq<seq<B>>, oracle: Oracle<B>, capacity: nat, run: seq<System<B>>)
    requires IsExecution(plan, oracle, capacity, run) && |plan| > 0
    requires AllFinished(run[|run| - 1])
    ensures run[|run| - 1].ring.closed
  {
    ExecutionCloses(plan, oracle, capacity, run);
    var s := run[|run| - 1];
    NoneUncounted(s.producers, |plan|);
    if !s.ring.closed {
      forall p | 1 <= p <= |plan|
        ensures p in s.producers && Counted(s.producers[p].pc)
      {
        assert ProducerCloses(s, p);
      }
    }
  }

  /** A failure seen by the consumer has stopped the producers and closed the queue before the next Pop. */
  lemma FailureStopsProducers<B(!new)>(plan: seq<seq<B>>, oracle: Oracle<B>, capacity: nat, run: seq<System<B>>)
    requires IsExecution(plan, oracle, capacity, run)
    ensures var s := run[|run| - 1]; s.pc.Popping? && s.failed ==> s.stop && s.ring.closed
  {
    ExecutionCloses(plan, oracle, capacity, run);
  }

  // ---------------------------------------------------------------- heeding the stop flag

  /** Batches the producer has handed over, and the one it is about to make or hand over. */
  function Started<B>(producer: Producer<B>): nat {
    producer.generated
    + if producer.pc.Generate? || (producer.pc.Pushing? && producer.pc.message.BatchMessage?) then 1 else 0
  }

  lemma StopStep<B(!new)>(plan: seq<seq<B>>, oracle: Oracle<B>, s: System<B>, move: Move, p: nat)
    requires s.stop && p in s.producers && CanMove(plan, s, move)
    ensures var t := Perform(plan, oracle, s, move);
            t.stop && p in t.producers && Started(t.producers[p]) <= Started(s.producers[p])
  {
    hide Apply, Drain, Store, Started;
    if move.ProducerMove? && move.part == p {
      StoppedProducer(plan, s, p, move.throws);
    }
  }

  lemma StoppedProducer<B>(plan: seq<seq<B>>, s: System<B>, p: nat, throws: bool)
    requires s.stop && p in s.producers && CanMove(plan, s, ProducerMove(p, throws))
    ensures var t := ProducerStep(plan, s, p, throws); t.stop && p in t.producers
    ensures Started(ProducerStep(plan, s, p, throws).producers[p]) <= Started(s.producers[p])
  {
    hide Apply;
  }

  /** Once a stop is requested, no producer starts another batch, whatever else happens. */
  lemma {:induction false} StopIsHeeded<B(!new)>(plan: seq<seq<B>>, oracle: Oracle<B>, run: seq<System<B>>, p: nat)
    requires |run| > 0 && run[0].stop && p in run[0].producers
    requires forall i | 0 <= i < |run| - 1 :: NextSystem(plan, oracle, run[i], run[i + 1])
    ensures var s, t := run[0], run[|run| - 1];
            && t.stop && p in t.producers
            && t.producers[p].generated <= Started(t.producers[p]) <= Started(s.producers[p])
            && Started(s.producers[p]) <= s.producers[p].generated + 1
    decreases |run|
  {
    if |run| > 1 {
      var before := run[..|run| - 1];
      forall i | 0 <= i < |before| - 1
        ensures NextSystem(plan, oracle, before[i], before[i + 1])
      {
        assert NextSystem(plan, oracle, run[i], run[i + 1]);
      }
      StopIsHeeded(plan, oracle, before, p);
      var s, t := run[|run| - 2], run[|run| - 1];
      assert NextSystem(plan, oracle, s, t);
      var move :| CanMove(plan, s, move) && t == Perform(plan, oracle, s, move);
      StopStep(plan, oracle, s, move, p);
    }
  }

  // ---------------------------------------------------------------- the sink is opened first and closed last

  /** OpenTable is the first call, and there is no CloseTable among the calls. */
  ghost predicate StillOpen<B>(calls: seq<Call<B>>) {
    && calls != [] && calls[0] == OpenTable
    && forall i | 0 < i < |calls| :: calls[i] != OpenTable && calls[i] != CloseTable
  }

  lemma {:induction false} DrainStaysOpen<B(!new)>(c: Consumer<B>, oracle: Oracle<B>)
    requires StillOpen(c.sink.attempts)
    ensures StillOpen(Drain(c, oracle).0.sink.attempts)
    decreases c.partCount + 1 - c.expected,
              if c.expected in c.states then |c.states[c.expected].batches| else 0,
              if c.expected in c.states && c.states[c.expected].begun then 0 else 1
  {
    if c.expected <= c.partCount && c.expected in c.states {
      var state := c.states[c.expected];
      if state.batches != [] && !state.begun {
        DrainStaysOpen(AfterBegin(c, c.sink.Attempt(Begin(c.expected), true)), oracle);
      } else if state.batches != [] {
        DrainStaysOpen(AfterWrite(c, c.sink.Attempt(Write(state.batches[0]), true)), oracle);
      } else if state.completed {
        DrainStaysOpen(AfterEnd(c, if state.begun then c.sink.Attempt(End, true) else c.sink), oracle);
      }
    }
  }

  ghost predicate SinkOrdered<B>(s: System<B>) {
    var attempts := s.consumer.sink.attempts;
    if s.pc.Returned? then
      |attempts| > 1 && attempts[|attempts| - 1] == CloseTable && StillOpen(attempts[..|attempts| - 1])
    else StillOpen(attempts)
  }

  lemma SinkStep<B(!new)>(plan: seq<seq<B>>, oracle: Oracle<B>, s: System<B>, move: Move)
    requires SinkOrdered(s) && CanMove(plan, s, move)
    ensures SinkOrdered(Perform(plan, oracle, s, move))
  {
    hide Apply, Drain, StillOpen, Store;
    if move.ConsumerMove? && s.pc.Finishing? {
      FinishOrdered(plan, oracle, s);
    } else if move.ConsumerMove? && s.pc.Handling? && !s.pc.message.ErrorMessage? {
      StoreKeepsSink(s.consumer, s.pc.message);
      DrainStaysOpen(Store(s.consumer, s.pc.message), oracle);
    }
  }

  lemma StoreKeepsSink<B>(c: Consumer<B>, message: Message<B>)
    requires !message.ErrorMessage?
    ensures Store(c, message).sink == c.sink
  {
  }

  lemma FinishOrdered<B(!new)>(plan: seq<seq<B>>, oracle: Oracle<B>, s: System<B>)
    requires SinkOrdered(s) && CanMove(plan, s, ConsumerMove) && s.pc.Finishing?
    ensures SinkOrdered(ConsumerStep(plan, oracle, s))
  {
    hide Drain, StillOpen;
    DrainStaysOpen(s.consumer, oracle);
    var attempts := Drain(s.consumer, oracle).0.sink.attempts;
    assert attempts != [] by {
      NonEmptyCalls(attempts);
    }
    assert (attempts + [CloseTable])[..|attempts|] == attempts;
  }

  lemma NonEmptyCalls<B>(calls: seq<Call<B>>)
    requires StillOpen(calls)
    ensures calls != []
  {
  }

  /** However a run ends, the sink was asked to open first, and to close exactly once, as the last call. */
  lemma {:induction false} ClosesTheSinkLast<B(!new)>(
      plan: seq<seq<B>>, oracle: Oracle<B>, capacity: nat, run: seq<System<B>>)
    requires IsExecution(plan, oracle, capacity, run)
    ensures SinkOrdered(run[|run| - 1])
    decreases |run|
  {
    hide SinkOrdered;
    if |run| == 1 {
      LaunchOrdered(plan, capacity);
    } else {
      var before := run[..|run| - 1];
      assert IsExecution(plan, oracle, capacity, before) by {
        forall i | 0 <= i < |before| - 1
          ensures NextSystem(plan, oracle, before[i], before[i + 1])
        {
          assert NextSystem(plan, oracle, run[i], run[i + 1]);
        }
      }
      ClosesTheSinkLast(plan, oracle, capacity, before);
      var s, t := run[|run| - 2], run[|run| - 1];
      assert NextSystem(plan, oracle, s, t);
      var move :| CanMove(plan, s, move) && t == Perform(plan, oracle, s, move);
      SinkStep(plan, oracle, s, move);
    }
  }

  lemma LaunchOrdered<B>(plan: seq<seq<B>>, capacity: nat)
    ensures SinkOrdered(Launch(plan, capacity))
  {
  }
}
