/**
 No deadlock: from every state that RunNativeMultiplexedOrdered can be in, it can still return, whatever was thrown or
 refused before and whatever the sink refuses from now on.
 */
module MultiplexedEnds {
  import opened Ring
  import opened RingRuns
  import opened RingOutcome
  import opened OrderedSink
  import opened OrderedConsumer
  import opened MultiplexedWriter
  import opened MultiplexedClosing
  import ConsumerProperties

  // ---------------------------------------------------------------- continuations

  /** Some sequence of moves leads from start to s. */
  ghost predicate Leads<B(!new)>(plan: seq<seq<B>>, oracle: Oracle<B>, start: System<B>, s: System<B>) {
    exists run: seq<System<B>> ::
      && |run| > 0 && run[0] == start && run[|run| - 1] == s
      && forall i | 0 <= i < |run| - 1 :: NextSystem(plan, oracle, run[i], run[i + 1])
  }

  lemma LeadsNowhere<B(!new)>(plan: seq<seq<B>>, oracle: Oracle<B>, s: System<B>)
    ensures Leads(plan, oracle, s, s)
  {
    var run := [s];
    assert |run| > 0 && run[0] == s && run[|run| - 1] == s;
  }

  lemma LeadsOn<B(!new)>(plan: seq<seq<B>>, oracle: Oracle<B>, start: System<B>, s: System<B>, move: Move)
    requires Leads(plan, oracle, start, s) && CanMove(plan, s, move)
    ensures Leads(plan, oracle, start, Perform(plan, oracle, s, move))
  {
    hide Perform, CanMove;
    var t := Perform(plan, oracle, s, move);
    var run: seq<System<B>> :|
      && |run| > 0 && run[0] == start && run[|run| - 1] == s
      && forall i | 0 <= i < |run| - 1 :: NextSystem(plan, oracle, run[i], run[i + 1]);
    var longer := run + [t];
    forall i | 0 <= i < |longer| - 1
      ensures NextSystem(plan, oracle, longer[i], longer[i + 1])
    {
      if i < |run| - 1 {
        assert longer[i] == run[i] && longer[i + 1] == run[i + 1];
      } else {
        assert longer[i] == s && longer[i + 1] == t;
      }
    }
    assert longer[0] == start && longer[|longer| - 1] == t;
  }

  /** Only producers are inside Push. */
  ghost predicate PushersAreProducers<B>(s: System<B>) {
    forall id | id in s.ring.pushes && !s.ring.pushes[id].PushIdle? ::
      id in s.producers && s.producers[id].pc.Pushing?
  }

  /** What is known in every state of every run. */
  ghost predicate Known<B>(plan: seq<seq<B>>, s: System<B>) {
    SystemInv(plan, s) && CloseInv(plan, s) && PushersAreProducers(s)
  }

  lemma PushersStep<B(!new)>(plan: seq<seq<B>>, oracle: Oracle<B>, s: System<B>, move: Move)
    requires PushersAreProducers(s) && CanMove(plan, s, move)
    ensures PushersAreProducers(Perform(plan, oracle, s, move))
  {
    hide Drain, Store, PushersAreProducers, Apply;
    match move
    case PushMove(p, spurious) =>
      ActionFrame(s.ring, StepPush(p, spurious));
      PushersFrame(s, s.(ring := Apply(s.ring, StepPush(p, spurious))), p);
    case PopMove =>
      ActionFrame(s.ring, StepPop);
      PusherIsProducer(s, 0);
      PushersFrame(s, s.(ring := Apply(s.ring, StepPop)), 0);
    case ProducerMove(p, throws) => PushersOwn(plan, s, p, throws);
    case ConsumerMove => PushersConsumer(plan, oracle, s);
  }

  lemma PushersConsumer<B(!new)>(plan: seq<seq<B>>, oracle: Oracle<B>, s: System<B>)
    requires PushersAreProducers(s) && CanMove(plan, s, ConsumerMove)
    ensures PushersAreProducers(ConsumerStep(plan, oracle, s))
  {
    hide Drain, Store, PushersAreProducers, Apply;
    if s.pc.Popping? {
      ActionFrame(s.ring, if s.ring.pop.PopIdle? then CallPop else ReturnPop);
    } else if s.pc.SignalClose? {
      ActionFrame(s.ring, Close);
    }
    PusherIsProducer(s, 0);
    PushersFrame(s, ConsumerStep(plan, oracle, s), 0);
  }

  lemma PushersOwn<B(!new)>(plan: seq<seq<B>>, s: System<B>, p: nat, throws: bool)
    requires PushersAreProducers(s) && CanMove(plan, s, ProducerMove(p, throws))
    ensures PushersAreProducers(ProducerStep(plan, s, p, throws))
  {
    hide Apply, PushersAreProducers;
    var t := ProducerStep(plan, s, p, throws);
    var pc := s.producers[p].pc;
    if pc.Pushing? {
      PushersReturn(plan, s, p, throws);
    } else {
      if pc.CloseQueue? || pc.CloseLast? {
        ActionFrame(s.ring, Close);
      } else if t.producers[p].pc.Pushing? {
        ActionFrame(s.ring, CallPush(p, t.producers[p].pc.message));
      }
      PushersFrame(s, t, p);
    }
  }

  lemma PushersReturn<B(!new)>(plan: seq<seq<B>>, s: System<B>, p: nat, throws: bool)
    requires PushersAreProducers(s) && CanMove(plan, s, ProducerMove(p, throws)) && s.producers[p].pc.Pushing?
    ensures PushersAreProducers(ProducerStep(plan, s, p, throws))
  {
    hide Apply, PushersAreProducers;
    ActionFrame(s.ring, ReturnPush(p));
    Returned(s.ring, p);
    PushersFrame(s, ProducerStep(plan, s, p, throws), p);
  }

  lemma Returned<T>(r: State<T>, id: nat)
    requires Enabled(r, ReturnPush(id))
    ensures Apply(r, ReturnPush(id)).Pc(id).PushIdle?
  {
  }

  lemma PushersFrame<B>(s: System<B>, t: System<B>, p: nat)
    requires PushersAreProducers(s)
    requires forall id | id != p && id in s.producers :: id in t.producers && t.producers[id] == s.producers[id]
    requires t.ring.Pc(p).PushIdle? || (p in t.producers && t.producers[p].pc.Pushing?)
    requires forall id | id != p :: t.ring.Pc(id) == s.ring.Pc(id)
    ensures PushersAreProducers(t)
  {
    forall id | id in t.ring.pushes && !t.ring.pushes[id].PushIdle?
      ensures id in t.producers && t.producers[id].pc.Pushing?
    {
      assert id != p ==> !s.ring.Pc(id).PushIdle?;
    }
  }

  lemma PusherIsProducer<B>(s: System<B>, p: nat)
    requires PushersAreProducers(s)
    ensures s.ring.Pc(p).PushIdle? || (p in s.producers && s.producers[p].pc.Pushing?)
  {
  }

  lemma KnownOn<B(!new)>(plan: seq<seq<B>>, oracle: Oracle<B>, s: System<B>, move: Move)
    requires Known(plan, s) && CanMove(plan, s, move)
    ensures Known(plan, Perform(plan, oracle, s, move))
  {
    hide SystemInv, CloseInv, PushersAreProducers;
    MoveInv(plan, oracle, s, move);
    MoveCloses(plan, oracle, s, move);
    PushersStep(plan, oracle, s, move);
  }

  lemma {:induction false} PushLeads<B(!new)>(
      plan: seq<seq<B>>, oracle: Oracle<B>, start: System<B>, s: System<B>, p: nat, n: nat)
    requires Leads(plan, oracle, start, s) && Known(plan, s)
    requires 1 <= p <= |plan| && p in s.producers && s.producers[p].pc.Pushing?
    ensures var t := s.(ring := PushSteps(s.ring, p, n)); Leads(plan, oracle, start, t) && Known(plan, t)
  {
    hide Leads, Known, Apply, Enabled;
    if n > 0 {
      PushLeads(plan, oracle, start, s, p, n - 1);
      var before := s.(ring := PushSteps(s.ring, p, n - 1));
      if Enabled(before.ring, StepPush(p, false)) {
        HasSlots(before.ring, StepPush(p, false));
        LeadsOn(plan, oracle, start, before, PushMove(p, false));
        KnownOn(plan, oracle, before, PushMove(p, false));
      }
    } else {
      assert s.(ring := PushSteps(s.ring, p, 0)) == s;
    }
  }

  lemma {:induction false} PopLeads<B(!new)>(
      plan: seq<seq<B>>, oracle: Oracle<B>, start: System<B>, s: System<B>, n: nat)
    requires Leads(plan, oracle, start, s) && Known(plan, s) && s.pc.Popping?
    ensures var t := s.(ring := PopSteps(s.ring, n)); Leads(plan, oracle, start, t) && Known(plan, t)
  {
    hide Leads, Known, Apply, Enabled;
    if n > 0 {
      PopLeads(plan, oracle, start, s, n - 1);
      var before := s.(ring := PopSteps(s.ring, n - 1));
      if Enabled(before.ring, StepPop) {
        HasSlots(before.ring, StepPop);
        LeadsOn(plan, oracle, start, before, PopMove);
        KnownOn(plan, oracle, before, PopMove);
      }
    } else {
      assert s.(ring := PopSteps(s.ring, 0)) == s;
    }
  }

  // ---------------------------------------------------------------- work left

  const MESSAGE_WORK: nat := 6

  /** The work of a producer with b batches left, at most. */
  function BatchWork(b: nat): nat {
    MESSAGE_WORK + 5 + b * (MESSAGE_WORK + 5)
  }

  function BatchesLeft<B>(plan: seq<seq<B>>, p: nat, producer: Producer<B>): nat {
    if 1 <= p <= |plan| && producer.generated <= |plan[p - 1]| then |plan[p - 1]| - producer.generated else 0
  }

  function ProducerWork<B>(plan: seq<seq<B>>, p: nat, producer: Producer<B>): nat {
    var work := BatchWork(BatchesLeft(plan, p, producer));
    match producer.pc
    case Start => work + 2
    case CheckStop => work + 1
    case Generate => work
    case Pushing(message) => if message.BatchMessage? then work - 1 else MESSAGE_WORK + 3
    case Recheck(_) => MESSAGE_WORK + 4
    case Signal => 2
    case CountDown => 2
    case CloseQueue => 1
    case CloseLast => 1
    case Finished(_) => 0
  }

  function ProducersWork<B>(plan: seq<seq<B>>, producers: map<nat, Producer<B>>, n: nat): nat {
    if n == 0 then 0
    else ProducersWork(plan, producers, n - 1) + if n in producers then ProducerWork(plan, n, producers[n]) else 0
  }

  lemma {:induction false} WorkAfter<B>(
      plan: seq<seq<B>>, producers: map<nat, Producer<B>>, p: nat, producer: Producer<B>, n: nat)
    requires p in producers
    ensures ProducersWork(plan, producers[p := producer], n) ==
            ProducersWork(plan, producers, n)
            + if 1 <= p <= n then ProducerWork(plan, p, producer) - ProducerWork(plan, p, producers[p]) else 0
  {
    hide ProducerWork;
    if n > 0 {
      WorkAfter(plan, producers, p, producer, n - 1);
    }
  }

  function ConsumerWork<B>(pc: ConsumerPc<B>, pop: PopPc<Message<B>>): nat {
    match pc
    case Popping => if Took(pop) then 8 else if pop.PopIdle? then 4 else 3
    case Handling(_) => 7
    case SignalStop => 6
    case SignalClose => 5
    case Joining => 2
    case Finishing => 1
    case Returned(_) => 0
  }

  function Queued<B>(s: System<B>): nat {
    if |s.ring.delivered| <= |s.ring.accepted| then |s.ring.accepted| - |s.ring.delivered| else 0
  }

  function Work<B>(plan: seq<seq<B>>, s: System<B>): nat {
    ProducersWork(plan, s.producers, |plan|) + MESSAGE_WORK * Queued(s) + ConsumerWork(s.pc, s.ring.pop)
  }

  // ---------------------------------------------------------------- a producer's turn

  /** Nothing keeps the producer from moving. */
  predicate Able<B>(s: System<B>, p: nat) {
    && p in s.producers && !s.producers[p].pc.Finished?
    && var push := s.ring.Pc(p);
       s.producers[p].pc.Pushing? ==>
         s.ring.closed || HasRoom(s.ring) || push.PushWrite? || push.PushPublish? || push.PushReturn?
  }

  /** A move of producer p alone that makes it cheaper than the messages it adds to the queue. */
  lemma CheaperProducer<B>(plan: seq<seq<B>>, s: System<B>, t: System<B>, p: nat, added: nat)
    requires 1 <= p <= |plan| && p in s.producers && p in t.producers
    requires t.producers == s.producers[p := t.producers[p]]
    requires ProducerWork(plan, p, t.producers[p]) + MESSAGE_WORK * added < ProducerWork(plan, p, s.producers[p])
    requires t.pc == s.pc && t.ring.pop == s.ring.pop && t.ring.delivered == s.ring.delivered
    requires |s.ring.delivered| <= |s.ring.accepted| && |t.ring.accepted| == |s.ring.accepted| + added
    ensures Work(plan, t) < Work(plan, s)
  {
    hide ProducerWork, ProducersWork, ConsumerWork;
    WorkAfter(plan, s.producers, p, t.producers[p], |plan|);
  }

  lemma OwnWork<B>(plan: seq<seq<B>>, s: System<B>, p: nat)
    requires CanMove(plan, s, ProducerMove(p, false)) && !s.producers[p].pc.Pushing?
    requires ProducerFits(plan, s, p)
    ensures var t := ProducerStep(plan, s, p, false);
            && p in t.producers && t.producers == s.producers[p := t.producers[p]]
            && ProducerWork(plan, p, t.producers[p]) < ProducerWork(plan, p, s.producers[p])
            && t.pc == s.pc && t.ring.pop == s.ring.pop && t.ring.delivered == s.ring.delivered
            && t.ring.accepted == s.ring.accepted
  {
  }

  lemma OwnTurn<B(!new)>(plan: seq<seq<B>>, oracle: Oracle<B>, start: System<B>, s: System<B>, p: nat)
    returns (t: System<B>)
    requires Leads(plan, oracle, start, s) && Known(plan, s) && Able(s, p) && !s.producers[p].pc.Pushing?
    ensures Leads(plan, oracle, start, t) && Known(plan, t) && Work(plan, t) < Work(plan, s)
  {
    hide Leads, Inv, ProducerFits, ConsumerProperties.Legal, SinkFits, Work, ProducerWork;
    assert ProducerFits(plan, s, p);
    IdlePush(plan, s, p);
    LeadsOn(plan, oracle, start, s, ProducerMove(p, false));
    KnownOn(plan, oracle, s, ProducerMove(p, false));
    OwnWork(plan, s, p);
    t := ProducerStep(plan, s, p, false);
    CheaperProducer(plan, s, t, p, 0);
  }

  lemma IdlePush<B>(plan: seq<seq<B>>, s: System<B>, p: nat)
    requires 1 <= p <= |plan| && ProducerFits(plan, s, p) && Inv(s.ring)
    ensures p in s.producers && s.ring.Capacity() > 0
    ensures if s.producers[p].pc.Pushing? then !s.ring.Pc(p).PushIdle? else s.ring.Pc(p).PushIdle?
  {
  }

  lemma ReturnWork<B>(plan: seq<seq<B>>, s: System<B>, p: nat)
    requires CanMove(plan, s, ProducerMove(p, false)) && s.producers[p].pc.Pushing?
    requires ProducerFits(plan, s, p)
    ensures var t := ProducerStep(plan, s, p, false);
            && p in t.producers && t.producers == s.producers[p := t.producers[p]]
            && ProducerWork(plan, p, t.producers[p]) + MESSAGE_WORK < ProducerWork(plan, p, s.producers[p])
            && t.pc == s.pc && t.ring.pop == s.ring.pop && t.ring.delivered == s.ring.delivered
            && t.ring.accepted == s.ring.accepted
  {
  }

  lemma PushTurn<B(!new)>(plan: seq<seq<B>>, oracle: Oracle<B>, start: System<B>, s: System<B>, p: nat)
    returns (t: System<B>)
    requires Leads(plan, oracle, start, s) && Known(plan, s) && Able(s, p) && s.producers[p].pc.Pushing?
    ensures Leads(plan, oracle, start, t) && Known(plan, t) && Work(plan, t) < Work(plan, s)
  {
    hide Leads, Inv, ProducerFits, ConsumerProperties.Legal, SinkFits, Work, ProducerWork, PushSteps, CloseInv, Apply;
    assert 1 <= p <= |plan| by {
      IsPart(plan, s, p);
    }
    assert ProducerFits(plan, s, p);
    IdlePush(plan, s, p);
    var n := PushAloneReturns(s.ring, p);
    PushLeads(plan, oracle, start, s, p, n);
    PushStepsFrame(s.ring, p, n);
    var returning := s.(ring := PushSteps(s.ring, p, n));
    assert ProducerFits(plan, returning, p);
    LeadsOn(plan, oracle, start, returning, ProducerMove(p, false));
    KnownOn(plan, oracle, returning, ProducerMove(p, false));
    ReturnWork(plan, returning, p);
    t := ProducerStep(plan, returning, p, false);
    AcceptedAtMostOne(s.ring, returning.ring, p);
    CheaperProducer(plan, s, t, p, |t.ring.accepted| - |s.ring.accepted|);
  }

  lemma IsPart<B>(plan: seq<seq<B>>, s: System<B>, p: nat)
    requires CloseInv(plan, s) && p in s.producers
    ensures 1 <= p <= |plan|
  {
  }

  lemma ProducerTurn<B(!new)>(plan: seq<seq<B>>, oracle: Oracle<B>, start: System<B>, s: System<B>, p: nat)
    returns (t: System<B>)
    requires Leads(plan, oracle, start, s) && Known(plan, s) && Able(s, p)
    ensures Leads(plan, oracle, start, t) && Known(plan, t) && Work(plan, t) < Work(plan, s)
  {
    hide Leads, Known, Work;
    if s.producers[p].pc.Pushing? {
      t := PushTurn(plan, oracle, start, s, p);
    } else {
      t := OwnTurn(plan, oracle, start, s, p);
    }
  }

  // ---------------------------------------------------------------- the consumer's turn

  /** When nobody else can move, there is something for Pop to return. */
  lemma NobodyAble<B>(plan: seq<seq<B>>, s: System<B>)
    requires Known(plan, s) && |plan| > 0 && forall p | p in s.producers :: !Able(s, p)
    ensures s.ring.closed ==> AllFinished(s)
    ensures s.ring.closed || HeadPublished(s.ring) || Took(s.ring.pop) || s.ring.pop.PopTake?
  {
    hide SystemInv, ConsumerProperties.Legal, ProducerFits, SinkFits, DeliveryFits, Index;
    assert forall p | p in s.producers :: !Able(s, p) && ProducerCloses(s, p);
    if !s.ring.closed && !Took(s.ring.pop) && !s.ring.pop.PopTake? {
      if AllFinished(s) {
        FinishedIsClosed(plan, s);
      } else {
        var p :| p in s.producers && !s.producers[p].pc.Finished?;
        assert !HasRoom(s.ring);
        assert Inv(s.ring) by {
          RingInv(plan, s);
        }
        HeadOfFull(plan, s);
      }
    }
  }

  lemma RingInv<B>(plan: seq<seq<B>>, s: System<B>)
    requires SystemInv(plan, s)
    ensures Inv(s.ring)
  {
    hide Inv, ConsumerProperties.Legal, ProducerFits, SinkFits, DeliveryFits;
  }

  lemma FinishedIsClosed<B>(plan: seq<seq<B>>, s: System<B>)
    requires CloseInv(plan, s) && |plan| > 0 && AllFinished(s)
    ensures s.ring.closed
  {
    NoneUncounted(s.producers, |plan|);
    if !s.ring.closed {
      forall p | 1 <= p <= |plan|
        ensures p in s.producers && Counted(s.producers[p].pc)
      {
        assert ProducerCloses(s, p);
      }
    }
  }

  /** The oldest value of a full ring is published, or its producer can move. */
  lemma HeadOfFull<B>(plan: seq<seq<B>>, s: System<B>)
    requires Inv(s.ring) && PushersAreProducers(s) && !HasRoom(s.ring)
    requires forall p | p in s.producers :: !Able(s, p)
    requires !Took(s.ring.pop)
    ensures HeadPublished(s.ring)
  {
    var r := s.ring;
    assert SlotFits(r, r.dequeuePos);
    if Holds(r, r.accepted[r.dequeuePos].id, r.dequeuePos) {
      PusherIsProducer(s, r.accepted[r.dequeuePos].id);
      assert Able(s, r.accepted[r.dequeuePos].id);
    }
  }

  /** A move of the consumer alone, after which it has less to do. */
  lemma CheaperConsumer<B>(plan: seq<seq<B>>, s: System<B>, t: System<B>, taken: nat)
    requires t.producers == s.producers && t.ring.accepted == s.ring.accepted
    requires |t.ring.delivered| == |s.ring.delivered| + taken <= |s.ring.accepted|
    requires ConsumerWork(t.pc, t.ring.pop) < ConsumerWork(s.pc, s.ring.pop) + MESSAGE_WORK * taken
    ensures Work(plan, t) < Work(plan, s)
  {
    hide ConsumerWork, ProducersWork;
  }

  lemma DeliveredBound<B>(plan: seq<seq<B>>, s: System<B>)
    requires SystemInv(plan, s)
    ensures |s.ring.delivered| <= |s.ring.accepted| && s.ring.Capacity() > 0
    ensures !s.pc.Popping? ==> s.ring.pop.PopIdle?
    ensures s.ring.pop.PopGot? ==> s.ring.pop.value.Some?
  {
    hide ConsumerProperties.Legal, ProducerFits, SinkFits, WindowFits, PushersFit;
  }

  /** Any step of the consumer but the one that ends a Pop. */
  lemma OwnConsumerWork<B(!new)>(plan: seq<seq<B>>, oracle: Oracle<B>, s: System<B>)
    requires CanMove(plan, s, ConsumerMove) && (s.pc.Popping? ==> s.ring.pop.PopIdle?)
    requires !s.pc.Popping? ==> s.ring.pop.PopIdle?
    ensures var t := ConsumerStep(plan, oracle, s);
            && t.producers == s.producers && t.ring.accepted == s.ring.accepted && t.ring.delivered == s.ring.delivered
            && ConsumerWork(t.pc, t.ring.pop) < ConsumerWork(s.pc, s.ring.pop)
  {
    hide Drain, Store;
  }

  lemma OwnConsumerTurn<B(!new)>(plan: seq<seq<B>>, oracle: Oracle<B>, start: System<B>, s: System<B>)
    returns (t: System<B>)
    requires Leads(plan, oracle, start, s) && Known(plan, s) && CanMove(plan, s, ConsumerMove)
    requires s.pc.Popping? ==> s.ring.pop.PopIdle?
    ensures Leads(plan, oracle, start, t) && Known(plan, t) && Work(plan, t) < Work(plan, s)
  {
    hide Leads, Work, SystemInv, CloseInv, PushersAreProducers, ConsumerWork;
    LeadsOn(plan, oracle, start, s, ConsumerMove);
    KnownOn(plan, oracle, s, ConsumerMove);
    DeliveredBound(plan, s);
    OwnConsumerWork(plan, oracle, s);
    t := ConsumerStep(plan, oracle, s);
    CheaperConsumer(plan, s, t, 0);
  }

  lemma EndOfPop<B(!new)>(plan: seq<seq<B>>, oracle: Oracle<B>, s: System<B>)
    requires CanMove(plan, s, ConsumerMove) && s.pc.Popping? && (s.ring.pop.PopGot? || s.ring.pop.PopEmpty?)
    ensures var t := ConsumerStep(plan, oracle, s);
            && t.producers == s.producers && t.ring.accepted == s.ring.accepted && t.ring.delivered == s.ring.delivered
            && ConsumerWork(t.pc, t.ring.pop) == if s.ring.pop.PopGot? then 7 else 2
  {
  }

  lemma PopTurn<B(!new)>(plan: seq<seq<B>>, oracle: Oracle<B>, start: System<B>, s: System<B>)
    returns (t: System<B>)
    requires Leads(plan, oracle, start, s) && Known(plan, s) && s.pc.Popping? && !s.ring.pop.PopIdle?
    requires s.ring.closed || HeadPublished(s.ring) || Took(s.ring.pop) || s.ring.pop.PopTake?
    ensures Leads(plan, oracle, start, t) && Known(plan, t) && Work(plan, t) < Work(plan, s)
  {
    hide Leads, Work, SystemInv, CloseInv, PushersAreProducers, PopSteps, ConsumerStep;
    RingInv(plan, s);
    var n: nat := 0;
    if s.ring.pop.PopGot? || s.ring.pop.PopEmpty? {
      NoPush(s.ring, 0);
    } else {
      n := PopAloneReturns(s.ring);
    }
    PopLeads(plan, oracle, start, s, n);
    PopStepsFrame(s.ring, n);
    var ended := s.(ring := PopSteps(s.ring, n));
    DeliveredBound(plan, ended);
    LeadsOn(plan, oracle, start, ended, ConsumerMove);
    KnownOn(plan, oracle, ended, ConsumerMove);
    EndOfPop(plan, oracle, ended);
    t := ConsumerStep(plan, oracle, ended);
    CheaperConsumer(plan, s, t, |t.ring.delivered| - |s.ring.delivered|);
  }

  lemma ConsumerTurn<B(!new)>(plan: seq<seq<B>>, oracle: Oracle<B>, start: System<B>, s: System<B>)
    returns (t: System<B>)
    requires Leads(plan, oracle, start, s) && Known(plan, s) && |plan| > 0 && !s.pc.Returned?
    requires forall p | p in s.producers :: !Able(s, p)
    ensures Leads(plan, oracle, start, t) && Known(plan, t) && Work(plan, t) < Work(plan, s)
  {
    hide Leads, Work, SystemInv, Able, HeadPublished, AllFinished, Took;
    NobodyAble(plan, s);
    DeliveredBound(plan, s);
    if s.pc.Popping? && !s.ring.pop.PopIdle? {
      t := PopTurn(plan, oracle, start, s);
    } else {
      t := OwnConsumerTurn(plan, oracle, start, s);
    }
  }

  // ---------------------------------------------------------------- main result

  lemma {:induction false} CanFinish<B(!new)>(plan: seq<seq<B>>, oracle: Oracle<B>, start: System<B>, s: System<B>)
    returns (t: System<B>)
    requires Leads(plan, oracle, start, s) && Known(plan, s) && |plan| > 0
    ensures Leads(plan, oracle, start, t) && t.pc.Returned?
    decreases Work(plan, s)
  {
    hide Leads, Known, Work, Able;
    if s.pc.Returned? {
      t := s;
    } else if p :| p in s.producers && Able(s, p) {
      var next := ProducerTurn(plan, oracle, start, s, p);
      t := CanFinish(plan, oracle, start, next);
    } else {
      var next := ConsumerTurn(plan, oracle, start, s);
      t := CanFinish(plan, oracle, start, next);
    }
  }

  lemma {:induction false} ExecutionKnown<B(!new)>(
      plan: seq<seq<B>>, oracle: Oracle<B>, capacity: nat, run: seq<System<B>>)
    requires capacity >= 2 && IsExecution(plan, oracle, capacity, run)
    ensures Known(plan, run[|run| - 1])
    decreases |run|
  {
    if |run| == 1 {
      LaunchInv(plan, capacity);
      LaunchCloses(plan, capacity);
    } else {
      hide Known;
      var before := run[..|run| - 1];
      assert IsExecution(plan, oracle, capacity, before) by {
        forall i | 0 <= i < |before| - 1
          ensures NextSystem(plan, oracle, before[i], before[i + 1])
        {
          assert NextSystem(plan, oracle, run[i], run[i + 1]);
        }
      }
      ExecutionKnown(plan, oracle, capacity, before);
      var s, t := run[|run| - 2], run[|run| - 1];
      assert NextSystem(plan, oracle, s, t);
      var move :| CanMove(plan, s, move) && t == Perform(plan, oracle, s, move);
      KnownOn(plan, oracle, s, move);
    }
  }

  /**
   Wherever a run stands, after any throws, refusals and failures, it can go on so that the call returns: no
   interleaving leads the producers and the consumer into waiting for each other.
   */
  lemma CanAlwaysReturn<B(!new)>(plan: seq<seq<B>>, oracle: Oracle<B>, capacity: nat, run: seq<System<B>>)
    returns (t: System<B>)
    requires capacity >= 2 && |plan| > 0 && IsExecution(plan, oracle, capacity, run)
    ensures Leads(plan, oracle, run[|run| - 1], t) && t.pc.Returned?
  {
    hide Known, Leads;
    ExecutionKnown(plan, oracle, capacity, run);
    LeadsNowhere(plan, oracle, run[|run| - 1]);
    t := CanFinish(plan, oracle, run[|run| - 1], run[|run| - 1]);
  }

  // ---------------------------------------------------------------- no parts

  /** No producers: nobody will push or close, and the consumer pops. */
  ghost predicate Waits<B>(s: System<B>) {
    && s.producers == map[] && s.pc.Popping? && !s.ring.closed && s.ring.Capacity() > 0
    && s.ring.slots[Index(s.ring.dequeuePos, s.ring.Capacity())].sequence < s.ring.dequeuePos + 1
    && (s.ring.pop.PopIdle? || s.ring.pop.PopLoadSequence? || s.ring.pop.PopLoadClosed?)
  }

  /** Without a part the queue is never closed, and the call never returns. */
  lemma {:induction false} NoPartsNeverReturn<B(!new)>(oracle: Oracle<B>, capacity: nat, run: seq<System<B>>)
    requires IsExecution([], oracle, capacity, run)
    ensures Waits(run[|run| - 1]) && !run[|run| - 1].pc.Returned?
    decreases |run|
  {
    if |run| > 1 {
      var before := run[..|run| - 1];
      assert IsExecution([], oracle, capacity, before) by {
        forall i | 0 <= i < |before| - 1
          ensures NextSystem([], oracle, before[i], before[i + 1])
        {
          assert NextSystem([], oracle, run[i], run[i + 1]);
        }
      }
      NoPartsNeverReturn(oracle, capacity, before);
      var s, t := run[|run| - 2], run[|run| - 1];
      assert NextSystem([], oracle, s, t);
      var move :| CanMove([], s, move) && t == Perform([], oracle, s, move);
    } else {
      assert run[0].producers == map[];
    }
  }
}
