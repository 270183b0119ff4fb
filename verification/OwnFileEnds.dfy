/** No deadlock: from every state that GeneratePartitionToOwnFile can be in, it can still return. */
module OwnFileEnds {
  import opened Ring
  import opened RingRuns
  import opened RingOutcome
  import opened OrderedConsumer
  import opened OwnFile
  import opened OwnFileOutcome

  // ---------------------------------------------------------------- continuations

  /** Some sequence of moves leads from start to s. */
  ghost predicate Leads<B(!new)>(batches: seq<B>, start: Pipeline<B>, s: Pipeline<B>) {
    exists run: seq<Pipeline<B>> ::
      && |run| > 0 && run[0] == start && run[|run| - 1] == s
      && forall i | 0 <= i < |run| - 1 :: NextPipeline(batches, run[i], run[i + 1])
  }

  lemma LeadsNowhere<B(!new)>(batches: seq<B>, s: Pipeline<B>)
    ensures Leads(batches, s, s)
  {
    var run := [s];
    assert |run| > 0 && run[0] == s && run[|run| - 1] == s;
  }

  lemma LeadsOn<B(!new)>(batches: seq<B>, start: Pipeline<B>, s: Pipeline<B>, move: Move)
    requires Leads(batches, start, s) && CanMove(s, move)
    ensures Leads(batches, start, Perform(batches, s, move))
  {
    hide Perform, CanMove;
    var t := Perform(batches, s, move);
    var run: seq<Pipeline<B>> :|
      && |run| > 0 && run[0] == start && run[|run| - 1] == s
      && forall i | 0 <= i < |run| - 1 :: NextPipeline(batches, run[i], run[i + 1]);
    var longer := run + [t];
    forall i | 0 <= i < |longer| - 1
      ensures NextPipeline(batches, longer[i], longer[i + 1])
    {
      if i < |run| - 1 {
        assert longer[i] == run[i] && longer[i + 1] == run[i + 1];
      } else {
        assert longer[i] == s && longer[i + 1] == t;
      }
    }
    assert longer[0] == start && longer[|longer| - 1] == t;
  }

  /** Nobody but the producer is inside Push. */
  ghost predicate OnePusher<B>(s: Pipeline<B>) {
    forall id | id in s.ring.pushes && !s.ring.pushes[id].PushIdle? :: id == PRODUCER
  }

  /** What is known in every state of every run. */
  ghost predicate Known<B>(batches: seq<B>, s: Pipeline<B>) {
    PipelineInv(batches, s) && CloseInv(s) && OnePusher(s)
  }

  lemma PusherFrame<B>(s: Pipeline<B>, t: Pipeline<B>)
    requires OnePusher(s) && forall id | id != PRODUCER :: t.ring.Pc(id) == s.ring.Pc(id)
    ensures OnePusher(t)
  {
    forall id | id in t.ring.pushes && !t.ring.pushes[id].PushIdle?
      ensures id == PRODUCER
    {
      assert id != PRODUCER ==> !s.ring.Pc(id).PushIdle?;
    }
  }

  lemma PusherStep<B>(batches: seq<B>, s: Pipeline<B>, move: Move)
    requires OnePusher(s) && CanMove(s, move)
    ensures OnePusher(Perform(batches, s, move))
  {
    hide Apply, OnePusher, ProducerStep, WriterStep;
    match move {
      case PushMove(spurious) => ActionFrame(s.ring, StepPush(PRODUCER, spurious));
      case PopMove => ActionFrame(s.ring, StepPop);
      case ProducerMove(throws) => ProducerPlaces(batches, s, throws);
      case WriterMove(accepts) => WriterPlaces(s, accepts);
    }
    PusherFrame(s, Perform(batches, s, move));
  }

  lemma ProducerPlaces<B>(batches: seq<B>, s: Pipeline<B>, throws: bool)
    requires CanMove(s, ProducerMove(throws))
    ensures forall id | id != PRODUCER :: ProducerStep(batches, s, throws).ring.Pc(id) == s.ring.Pc(id)
  {
    hide Apply;
    var t := ProducerStep(batches, s, throws);
    if s.producer.Pushing? {
      ActionFrame(s.ring, ReturnPush(PRODUCER));
    } else if s.producer.CloseRing? {
      ActionFrame(s.ring, Close);
    } else if t.producer.Pushing? {
      ActionFrame(s.ring, CallPush(PRODUCER, t.producer.message));
    }
  }

  lemma WriterPlaces<B>(s: Pipeline<B>, accepts: bool)
    requires CanMove(s, WriterMove(accepts))
    ensures forall id :: WriterStep(s, accepts).ring.Pc(id) == s.ring.Pc(id)
  {
    hide Apply;
    if s.writer.Popping? {
      ActionFrame(s.ring, if s.ring.pop.PopIdle? then CallPop else ReturnPop);
    } else if s.writer.SignalClose? {
      ActionFrame(s.ring, Close);
    }
  }

  lemma KnownOn<B>(batches: seq<B>, s: Pipeline<B>, move: Move)
    requires Known(batches, s) && CanMove(s, move)
    ensures Known(batches, Perform(batches, s, move))
  {
    hide PipelineInv, CloseInv, OnePusher;
    MoveCloses(batches, s, move);
    PusherStep(batches, s, move);
    match move
    case PushMove(spurious) => PushMoveInv(batches, s, spurious);
    case ProducerMove(throws) => ProducerMoveInv(batches, s, throws);
    case PopMove => PopMoveInv(batches, s);
    case WriterMove(accepts) => WriterMoveInv(batches, s, accepts);
  }

  lemma {:induction false} PushLeads<B(!new)>(batches: seq<B>, start: Pipeline<B>, s: Pipeline<B>, n: nat)
    requires Leads(batches, start, s) && Known(batches, s) && s.producer.Pushing?
    ensures var t := s.(ring := PushSteps(s.ring, PRODUCER, n)); Leads(batches, start, t) && Known(batches, t)
  {
    hide Leads, Known, Apply, Enabled;
    if n > 0 {
      PushLeads(batches, start, s, n - 1);
      var before := s.(ring := PushSteps(s.ring, PRODUCER, n - 1));
      if Enabled(before.ring, StepPush(PRODUCER, false)) {
        HasSlots(before.ring, StepPush(PRODUCER, false));
        LeadsOn(batches, start, before, PushMove(false));
        KnownOn(batches, before, PushMove(false));
      }
    } else {
      assert s.(ring := PushSteps(s.ring, PRODUCER, 0)) == s;
    }
  }

  // ---------------------------------------------------------------- work left

  const MESSAGE_WORK: nat := 6

  function BatchWork(b: nat): nat {
    MESSAGE_WORK + 5 + b * (MESSAGE_WORK + 5)
  }

  function ProducerWork<B>(batches: seq<B>, producer: ProducerPc<B>, generated: nat): nat {
    var work := BatchWork(if generated <= |batches| then |batches| - generated else 0);
    match producer
    case CheckStop => work + 1
    case Generate => work
    case Pushing(message) => if message.BatchMessage? then work - 1 else MESSAGE_WORK + 3
    case CloseRing => 1
    case Finished => 0
  }

  function WriterWork<B>(writer: WriterPc<B>, pop: PopPc<Message<B>>): nat {
    match writer
    case Popping => if Took(pop) then 8 else if pop.PopIdle? then 4 else 3
    case Handling(_) => 7
    case SignalStop => 6
    case SignalClose => 5
    case Joining => 2
    case Returned(_) => 0
  }

  function Queued<B>(s: Pipeline<B>): nat {
    if |s.ring.delivered| <= |s.ring.accepted| then |s.ring.accepted| - |s.ring.delivered| else 0
  }

  function Work<B>(batches: seq<B>, s: Pipeline<B>): nat {
    ProducerWork(batches, s.producer, s.generated) + MESSAGE_WORK * Queued(s) + WriterWork(s.writer, s.ring.pop)
  }

  lemma Bounds<B>(batches: seq<B>, s: Pipeline<B>)
    requires PipelineInv(batches, s)
    ensures Inv(s.ring) && s.ring.Capacity() > 0 && |s.ring.delivered| <= |s.ring.accepted|
    ensures !s.writer.Popping? ==> s.ring.pop.PopIdle?
    ensures s.ring.pop.PopGot? ==> s.ring.pop.value.Some?
    ensures s.producer.Pushing? <==> !s.ring.Pc(PRODUCER).PushIdle?
    ensures ProducerFits(batches, s)
  {
    hide WindowFits, PushersFit, AcceptedBatches, AcceptedError, LoadFits, FileFits;
  }

  // ---------------------------------------------------------------- the producer's turn

  predicate Able<B>(s: Pipeline<B>) {
    && !s.producer.Finished?
    && var push := s.ring.Pc(PRODUCER);
       s.producer.Pushing? ==>
         s.ring.closed || HasRoom(s.ring) || push.PushWrite? || push.PushPublish? || push.PushReturn?
  }

  lemma OwnWork<B>(batches: seq<B>, s: Pipeline<B>)
    requires CanMove(s, ProducerMove(false)) && ProducerFits(batches, s)
    ensures var t, added := ProducerStep(batches, s, false), if s.producer.Pushing? then MESSAGE_WORK else 0;
            && ProducerWork(batches, t.producer, t.generated) + added <
               ProducerWork(batches, s.producer, s.generated)
            && t.writer == s.writer && t.ring.pop == s.ring.pop && t.ring.delivered == s.ring.delivered
            && t.ring.accepted == s.ring.accepted
  {
    hide AcceptedBatches, AcceptedError;
  }

  lemma Cheaper<B>(batches: seq<B>, s: Pipeline<B>, t: Pipeline<B>, added: nat, taken: nat)
    requires |s.ring.delivered| + taken <= |s.ring.accepted| && |t.ring.accepted| == |s.ring.accepted| + added
    requires |t.ring.delivered| == |s.ring.delivered| + taken
    requires ProducerWork(batches, t.producer, t.generated) + WriterWork(t.writer, t.ring.pop) + MESSAGE_WORK * added <
             ProducerWork(batches, s.producer, s.generated) + WriterWork(s.writer, s.ring.pop) + MESSAGE_WORK * taken
    ensures Work(batches, t) < Work(batches, s)
  {
    hide ProducerWork, WriterWork;
  }

  lemma ProducerTurn<B(!new)>(batches: seq<B>, start: Pipeline<B>, s: Pipeline<B>) returns (t: Pipeline<B>)
    requires Leads(batches, start, s) && Known(batches, s) && Able(s)
    ensures Leads(batches, start, t) && Known(batches, t) && Work(batches, t) < Work(batches, s)
  {
    hide Leads, PipelineInv, CloseInv, OnePusher, Inv, ProducerFits, Work, ProducerWork, WriterWork, PushSteps;
    hide ProducerStep;
    Bounds(batches, s);
    var n: nat := 0;
    if s.producer.Pushing? {
      n := PushAloneReturns(s.ring, PRODUCER);
      PushLeads(batches, start, s, n);
    } else {
      NoPush(s.ring, PRODUCER);
      assert s.(ring := PushSteps(s.ring, PRODUCER, 0)) == s;
    }
    PushStepsFrame(s.ring, PRODUCER, n);
    var ready := s.(ring := PushSteps(s.ring, PRODUCER, n));
    Bounds(batches, ready);
    LeadsOn(batches, start, ready, ProducerMove(false));
    KnownOn(batches, ready, ProducerMove(false));
    OwnWork(batches, ready);
    t := ProducerStep(batches, ready, false);
    if s.producer.Pushing? {
      AcceptedAtMostOne(s.ring, ready.ring, PRODUCER);
    }
    Cheaper(batches, s, t, |t.ring.accepted| - |s.ring.accepted|, 0);
  }

  // ---------------------------------------------------------------- the writer's turn

  lemma {:induction false} PopLeads<B(!new)>(batches: seq<B>, start: Pipeline<B>, s: Pipeline<B>, n: nat)
    returns (t: Pipeline<B>)
    requires Leads(batches, start, s) && Known(batches, s) && s.writer.Popping?
    ensures Leads(batches, start, t) && Known(batches, t)
    ensures t.ring == PopSteps(s.ring, n) && t.producer == s.producer && t.generated == s.generated
    ensures t.writer == s.writer
  {
    hide Leads, Known, Apply, Enabled;
    if n > 0 {
      var before := PopLeads(batches, start, s, n - 1);
      t := before;
      if Enabled(before.ring, StepPop) {
        HasSlots(before.ring, StepPop);
        LeadsOn(batches, start, before, PopMove);
        KnownOn(batches, before, PopMove);
        t := Perform(batches, before, PopMove);
      }
    } else {
      t := s;
    }
  }

  lemma WriterOwnWork<B>(s: Pipeline<B>)
    requires CanMove(s, WriterMove(true)) && (!s.writer.Popping? ==> s.ring.pop.PopIdle?)
    ensures var t := WriterStep(s, true);
            && t.producer == s.producer && t.generated == s.generated
            && t.ring.accepted == s.ring.accepted && t.ring.delivered == s.ring.delivered
            && WriterWork(t.writer, t.ring.pop) < WriterWork(s.writer, s.ring.pop)
  {
  }

  lemma WriterTurn<B(!new)>(batches: seq<B>, start: Pipeline<B>, s: Pipeline<B>) returns (t: Pipeline<B>)
    requires Leads(batches, start, s) && Known(batches, s) && !s.writer.Returned? && !Able(s)
    ensures Leads(batches, start, t) && Known(batches, t) && Work(batches, t) < Work(batches, s)
  {
    hide Leads, PipelineInv, OnePusher, Inv, ProducerFits, Work, ProducerWork, PopSteps, WriterStep;
    Bounds(batches, s);
    var ready := s;
    if s.writer.Popping? && !s.ring.pop.PopIdle? {
      SomethingToPop(batches, s);
      var n: nat := 0;
      if s.ring.pop.PopGot? || s.ring.pop.PopEmpty? {
        NoPush(s.ring, PRODUCER);
      } else {
        n := PopAloneReturns(s.ring);
      }
      ready := PopLeads(batches, start, s, n);
      PopStepsFrame(s.ring, n);
    }
    Bounds(batches, ready);
    assert ready.writer.Joining? ==> ready.producer.Finished? by {
      JoiningIsFinished(s);
    }
    LeadsOn(batches, start, ready, WriterMove(true));
    KnownOn(batches, ready, WriterMove(true));
    WriterOwnWork(ready);
    t := WriterStep(ready, true);
    EndWork(s, ready);
    Cheaper(batches, s, t, 0, |ready.ring.delivered| - |s.ring.delivered|);
  }

  /** The Pop costs no more than the value it took was worth. */
  lemma EndWork<B>(s: Pipeline<B>, ready: Pipeline<B>)
    requires ready.writer == s.writer && |ready.ring.delivered| >= |s.ring.delivered|
    requires ready.ring.pop == s.ring.pop || (s.writer.Popping? && !s.ring.pop.PopIdle? && !ready.ring.pop.PopIdle?)
    requires |ready.ring.delivered| - |s.ring.delivered| ==
             (if Took(ready.ring.pop) then 1 else 0) - (if Took(s.ring.pop) then 1 else 0)
    ensures WriterWork(ready.writer, ready.ring.pop) <=
            WriterWork(s.writer, s.ring.pop) + MESSAGE_WORK * (|ready.ring.delivered| - |s.ring.delivered|)
  {
  }

  lemma JoiningIsFinished<B>(s: Pipeline<B>)
    requires CloseInv(s) && !Able(s)
    ensures s.ring.closed ==> s.producer.Finished?
  {
  }

  /** When the producer cannot move, there is something for Pop to return. */
  lemma SomethingToPop<B>(batches: seq<B>, s: Pipeline<B>)
    requires Known(batches, s) && !Able(s)
    ensures s.ring.closed || HeadPublished(s.ring) || Took(s.ring.pop) || s.ring.pop.PopTake?
  {
    hide PipelineInv, Inv, ProducerFits, AllBatches;
    Bounds(batches, s);
    if !s.ring.closed && !Took(s.ring.pop) {
      FullHead(s);
    }
  }

  lemma FullHead<B>(s: Pipeline<B>)
    requires Inv(s.ring) && OnePusher(s) && !s.ring.closed && !Took(s.ring.pop)
    requires s.producer.Pushing? && !Able(s)
    ensures HeadPublished(s.ring)
  {
    var r := s.ring;
    assert SlotFits(r, r.dequeuePos);
    HolderIsProducer(s, r.accepted[r.dequeuePos].id, r.dequeuePos);
  }

  lemma HolderIsProducer<B>(s: Pipeline<B>, id: nat, pos: nat)
    requires OnePusher(s)
    ensures Holds(s.ring, id, pos) ==> id == PRODUCER
  {
  }

  // ---------------------------------------------------------------- main result

  lemma {:induction false} CanFinish<B(!new)>(batches: seq<B>, start: Pipeline<B>, s: Pipeline<B>)
    returns (t: Pipeline<B>)
    requires Leads(batches, start, s) && Known(batches, s)
    ensures Leads(batches, start, t) && t.writer.Returned?
    decreases Work(batches, s)
  {
    hide Leads, Known, Work, Able;
    if s.writer.Returned? {
      t := s;
    } else if Able(s) {
      var next := ProducerTurn(batches, start, s);
      t := CanFinish(batches, start, next);
    } else {
      var next := WriterTurn(batches, start, s);
      t := CanFinish(batches, start, next);
    }
  }

  lemma {:induction false} ExecutionKnown<B(!new)>(batches: seq<B>, run: seq<Pipeline<B>>)
    requires IsExecution(batches, run)
    ensures Known(batches, run[|run| - 1])
    decreases |run|
  {
    if |run| == 1 {
      LaunchInv(batches);
    } else {
      hide Known;
      var before := run[..|run| - 1];
      assert IsExecution(batches, before) by {
        forall i | 0 <= i < |before| - 1
          ensures NextPipeline(batches, before[i], before[i + 1])
        {
          assert NextPipeline(batches, run[i], run[i + 1]);
        }
      }
      ExecutionKnown(batches, before);
      var s, t := run[|run| - 2], run[|run| - 1];
      assert NextPipeline(batches, s, t);
      var move :| CanMove(s, move) && t == Perform(batches, s, move);
      KnownOn(batches, s, move);
    }
  }

  /** Wherever a run stands, after any throw, refusal or failure, it can go on so that the call returns. */
  lemma CanAlwaysReturn<B(!new)>(batches: seq<B>, run: seq<Pipeline<B>>) returns (t: Pipeline<B>)
    requires IsExecution(batches, run)
    ensures Leads(batches, run[|run| - 1], t) && t.writer.Returned?
  {
    hide Known, Leads;
    ExecutionKnown(batches, run);
    LeadsNowhere(batches, run[|run| - 1]);
    t := CanFinish(batches, run[|run| - 1], run[|run| - 1]);
  }
}
