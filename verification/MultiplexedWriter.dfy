/**
 RunNativeMultiplexedOrdered as a whole: one producer per part pushing into the ring, one consumer popping
 from it into the ordered sink, interleaved at single atomic operations.

 `plan[p - 1]` is the list of batches part p's generator yields.  A generator may throw at any call, the
 sink may refuse any call, a compare-exchange may fail spuriously.
 */
module MultiplexedWriter {
  import opened Ring
  import opened RingProperties
  import opened OrderedSink
  import opened OrderedConsumer
  import opened ConsumerProperties

  datatype ProducerPc<B> =
    | Start
    | CheckStop
    | Generate
    | Pushing(message: Message<B>)
    | Recheck(exhausted: bool)
    | Signal
    | CloseQueue
    | CountDown
    | CloseLast
    | Finished(rc: int)

  datatype Producer<B> = Producer(pc: ProducerPc<B>, generated: nat)

  datatype ConsumerPc<B> =
    | Popping
    | Handling(message: Message<B>)
    | SignalStop
    | SignalClose
    | Joining
    | Finishing
    | Returned(rc: int)

  datatype System<B> = System(
    ring: State<Message<B>>,
    producers: map<nat, Producer<B>>,
    stop: bool,
    remaining: int,
    consumer: Consumer<B>,
    pc: ConsumerPc<B>,
    failed: bool,
    received: seq<Message<B>>)

  datatype Move =
    | PushMove(part: nat, spurious: bool)
    | ProducerMove(part: nat, throws: bool)
    | PopMove
    | ConsumerMove

  // ---------------------------------------------------------------- transitions

  function Producers<B>(n: nat): (producers: map<nat, Producer<B>>)
    ensures forall p :: p in producers <==> 1 <= p <= n
    ensures forall p | p in producers :: producers[p] == Producer(Start, 0)
  {
    if n == 0 then map[] else Producers(n - 1)[n := Producer(Start, 0)]
  }

  /** The state after the sink was opened and the producers were handed to the executor. */
  function Launch<B>(plan: seq<seq<B>>, capacity: nat): System<B> {
    System(
      Init(capacity),
      Producers(|plan|),
      false,
      |plan|,
      StartConsumer(|plan|, Sink([OpenTable], [OpenTable])),
      Popping,
      false,
      [])
  }

  predicate AllFinished<B>(s: System<B>) {
    forall p | p in s.producers :: s.producers[p].pc.Finished?
  }

  predicate AnyFailed<B>(s: System<B>) {
    exists p | p in s.producers :: s.producers[p].pc.Finished? && s.producers[p].pc.rc != 0
  }

  predicate CanMove<B>(plan: seq<seq<B>>, s: System<B>, move: Move) {
    && s.ring.Capacity() > 0
    && match move
       case PushMove(p, spurious) =>
         && 1 <= p <= |plan| && p in s.producers && s.producers[p].pc.Pushing?
         && Enabled(s.ring, StepPush(p, spurious))
       case ProducerMove(p, throws) =>
         && 1 <= p <= |plan| && p in s.producers && !s.producers[p].pc.Finished?
         && (if s.producers[p].pc.Pushing? then s.ring.Pc(p).PushReturn? else s.ring.Pc(p).PushIdle?)
       case PopMove => s.pc.Popping? && Enabled(s.ring, StepPop)
       case ConsumerMove =>
         match s.pc
         case Popping => s.ring.pop.PopIdle? || s.ring.pop.PopEmpty? || (s.ring.pop.PopGot? && s.ring.pop.value.Some?)
         case Joining => AllFinished(s)
         case Returned(_) => false
         case _ => true
  }

  function Perform<B(!new)>(plan: seq<seq<B>>, oracle: Oracle<B>, s: System<B>, move: Move): System<B>
    requires CanMove(plan, s, move)
  {
    match move
    case PushMove(p, spurious) => s.(ring := Apply(s.ring, StepPush(p, spurious)))
    case ProducerMove(p, throws) => ProducerStep(plan, s, p, throws)
    case PopMove => s.(ring := Apply(s.ring, StepPop))
    case ConsumerMove => ConsumerStep(plan, oracle, s)
  }

  function Goto<B>(s: System<B>, p: nat, pc: ProducerPc<B>): System<B>
    requires p in s.producers
  {
    s.(producers := s.producers[p := s.producers[p].(pc := pc)])
  }

  /** Enters queue.Push(message). */
  function CallPushOf<B>(s: System<B>, p: nat, message: Message<B>): System<B>
    requires p in s.producers && s.ring.Pc(p).PushIdle? && s.ring.Capacity() > 0
  {
    Goto(s, p, Pushing(message)).(ring := Apply(s.ring, CallPush(p, message)))
  }

  function ProducerStep<B>(plan: seq<seq<B>>, s: System<B>, p: nat, throws: bool): System<B>
    requires CanMove(plan, s, ProducerMove(p, throws))
  {
    var batches, generated := plan[p - 1], s.producers[p].generated;
    match s.producers[p].pc
    case Start =>
      if throws then CallPushOf(s, p, ErrorMessage(p)) else Goto(s, p, CheckStop)
    case CheckStop =>
      Goto(s, p, if s.stop then Recheck(false) else Generate)
    case Generate =>
      if throws then CallPushOf(s, p, ErrorMessage(p))
      else if generated < |batches| then CallPushOf(s, p, BatchMessage(p, batches[generated]))
      else Goto(s, p, Recheck(true))
    case Pushing(message) =>
      var returned := s.(ring := Apply(s.ring, ReturnPush(p)));
      (match message
       case BatchMessage(_, _) =>
         if s.ring.Pc(p).ok then
           returned.(producers := s.producers[p := Producer(CheckStop, generated + 1)])
         else Goto(returned, p, Finished(2))
       case EndPartition(_) => Goto(returned, p, CountDown)
       case ErrorMessage(_) => Goto(returned, p, Signal))
    case Recheck(_) =>
      if s.stop then Goto(s, p, CountDown) else CallPushOf(s, p, EndPartition(p))
    case Signal => Goto(s, p, CloseQueue).(stop := true)
    case CloseQueue => Goto(s, p, Finished(2)).(ring := Apply(s.ring, Close))
    case CountDown =>
      Goto(s, p, if s.remaining == 1 then CloseLast else Finished(0)).(remaining := s.remaining - 1)
    case CloseLast => Goto(s, p, Finished(0)).(ring := Apply(s.ring, Close))
  }

  function ConsumerStep<B(!new)>(plan: seq<seq<B>>, oracle: Oracle<B>, s: System<B>): System<B>
    requires CanMove(plan, s, ConsumerMove)
  {
    match s.pc
    case Popping =>
      if s.ring.pop.PopIdle? then s.(ring := Apply(s.ring, CallPop))
      else if s.ring.pop.PopEmpty? then s.(ring := Apply(s.ring, ReturnPop), pc := Joining)
      else s.(ring := Apply(s.ring, ReturnPop), pc := Handling(s.ring.pop.value.value))
    case Handling(message) =>
      if message.ErrorMessage? then
        s.(failed := true, received := s.received + [message], pc := SignalStop)
      else
        var (drained, ok) := Drain(Store(s.consumer, message), oracle);
        s.(consumer := drained,
           received := s.received + [message],
           failed := s.failed || !ok,
           pc := if ok then Popping else SignalStop)
    case SignalStop => s.(stop := true, pc := SignalClose)
    case SignalClose => s.(ring := Apply(s.ring, Close), pc := Popping)
    case Joining => s.(failed := s.failed || AnyFailed(s), pc := Finishing)
    case Finishing =>
      var (drained, ok) := Drain(s.consumer, oracle);
      var closes := Allows(oracle, drained.sink, CloseTable);
      var failed := s.failed || !ok || drained.expected != |plan| + 1 || !closes;
      s.(consumer := drained.(sink := drained.sink.Attempt(CloseTable, closes)),
         failed := failed,
         pc := Returned(if failed then 2 else 0))
  }

  ghost predicate NextSystem<B(!new)>(plan: seq<seq<B>>, oracle: Oracle<B>, s: System<B>, t: System<B>) {
    exists move :: CanMove(plan, s, move) && t == Perform(plan, oracle, s, move)
  }

  ghost predicate IsExecution<B(!new)>(plan: seq<seq<B>>, oracle: Oracle<B>, capacity: nat, run: seq<System<B>>) {
    && |run| > 0 && run[0] == Launch(plan, capacity)
    && forall i | 0 <= i < |run| - 1 :: NextSystem(plan, oracle, run[i], run[i + 1])
  }

  // ---------------------------------------------------------------- invariant

  /** The producer's current message has been accepted by the ring. */
  predicate Pushed<B>(pc: PushPc<Message<B>>) {
    pc.PushWrite? || pc.PushPublish? || (pc.PushReturn? && pc.ok)
  }

  /** Producer p has had exactly the messages accepted that its place in the code says. */
  ghost predicate ProducerFits<B>(plan: seq<seq<B>>, s: System<B>, p: nat)
    requires 1 <= p <= |plan|
  {
    && p in s.producers
    && var accepted := Values(s.ring.accepted);
       var got, ended := Got(accepted, p), Ended(accepted, p);
       var batches, generated := plan[p - 1], s.producers[p].generated;
       var push := s.ring.Pc(p);
       match s.producers[p].pc
       case Start => push.PushIdle? && !ended && got == generated <= |batches|
       case CheckStop => push.PushIdle? && !ended && got == generated <= |batches|
       case Generate => push.PushIdle? && !ended && got == generated <= |batches|
       case Pushing(message) =>
         && !push.PushIdle? && push.value == message && message.part == p
         && (message.BatchMessage? ==>
               && generated < |batches| && message.batch == batches[generated] && !ended
               && got == generated + if Pushed(push) then 1 else 0)
         && (message.EndPartition? ==> got == |batches| && (ended <==> Pushed(push)))
       case Recheck(exhausted) =>
         && push.PushIdle? && !ended && got == generated <= |batches|
         && (if exhausted then generated == |batches| else s.stop)
       case _ => push.PushIdle?
  }

  /** The message the consumer has taken from the ring and not handled yet. */
  function Pending<B>(s: System<B>): seq<Message<B>> {
    match s.pc
    case Handling(message) => [message]
    case Popping => InHand(s.ring.pop)
    case _ => []
  }

  /** Handled and pending messages are the ones the ring delivered. */
  ghost predicate DeliveryFits<B>(s: System<B>) {
    && |s.ring.delivered| <= |s.ring.accepted|
    && s.received + Pending(s) == Values(s.ring.accepted)[..|s.ring.delivered|]
    && (!s.pc.Popping? ==> s.ring.pop.PopIdle?)
  }

  ghost predicate SinkFits<B>(plan: seq<seq<B>>, s: System<B>) {
    if s.pc.Returned? then
      && (s.pc.rc == 0 ==>
            s.consumer.sink.accepted == [OpenTable] + NonEmptyBrackets(plan, |plan|) + [CloseTable])
      && Written(s.consumer.sink.accepted) <= Flatten(plan, |plan|)
    else Consistent(s.consumer, plan, s.received)
  }

  ghost predicate SystemInv<B>(plan: seq<seq<B>>, s: System<B>) {
    && Inv(s.ring)
    && Legal(plan, Values(s.ring.accepted))
    && (forall p | 1 <= p <= |plan| :: ProducerFits(plan, s, p))
    && DeliveryFits(s)
    && SinkFits(plan, s)
  }

  lemma LaunchInv<B>(plan: seq<seq<B>>, capacity: nat)
    requires capacity >= 2
    ensures SystemInv(plan, Launch(plan, capacity))
  {
    var s := Launch(plan, capacity);
    InitInv<Message<B>>(capacity);
    StartConsistent(plan, s.consumer.sink);
    assert Values(s.ring.accepted) == [];
    forall p | 1 <= p <= |plan|
      ensures ProducerFits(plan, s, p)
    {
    }
  }

  /** The message a producer is pushing is one its part may send next. */
  lemma PushedMayFollow<B>(plan: seq<seq<B>>, s: System<B>, p: nat)
    requires 1 <= p <= |plan| && ProducerFits(plan, s, p)
    requires s.producers[p].pc.Pushing? && s.ring.Pc(p).PushReserve?
    ensures MayFollow(plan, Values(s.ring.accepted), s.ring.Pc(p).value)
  {
  }

  lemma AcceptCounts<B>(s: System<B>, t: System<B>, p: nat, q: nat)
    requires s.ring.Pc(p).PushReserve? && s.ring.Pc(p).value.part == p
    requires t.ring.accepted == s.ring.accepted + [Entry(p, s.ring.Pc(p).value)]
    ensures var message := s.ring.Pc(p).value;
            && Values(t.ring.accepted) == Values(s.ring.accepted) + [message]
            && Got(Values(t.ring.accepted), q) ==
               Got(Values(s.ring.accepted), q) + (if message.BatchMessage? && p == q then 1 else 0)
            && (Ended(Values(t.ring.accepted), q) <==>
                  (message.EndPartition? && p == q) || Ended(Values(s.ring.accepted), q))
  {
    var message := s.ring.Pc(p).value;
    assert Values(t.ring.accepted) == Values(s.ring.accepted) + [message];
    CountsAfter(Values(s.ring.accepted), message, q);
  }

  /** A step inside Push: Legal grows by the accepted message, the other producers are untouched. */
  lemma PushMoveFits<B>(plan: seq<seq<B>>, s: System<B>, p: nat, spurious: bool, q: nat)
    requires 1 <= p <= |plan| && ProducerFits(plan, s, p)
    requires 1 <= q <= |plan| && ProducerFits(plan, s, q)
    requires CanMove(plan, s, PushMove(p, spurious))
    ensures ProducerFits(plan, s.(ring := Apply(s.ring, StepPush(p, spurious))), q)
  {
    var t := s.(ring := Apply(s.ring, StepPush(p, spurious)));
    ActionFrame(s.ring, StepPush(p, spurious));
    if Ring.Accepts(s.ring, StepPush(p, spurious)) {
      AcceptCounts(s, t, p, q);
    }
    if p == q {
      OwnPushStep(s.ring, p, spurious);
    }
  }

  /** Inside Push a producer keeps its value, and it becomes Pushed exactly by being accepted. */
  lemma OwnPushStep<B>(r: State<Message<B>>, p: nat, spurious: bool)
    requires Enabled(r, StepPush(p, spurious))
    ensures var pc, after := r.Pc(p), Apply(r, StepPush(p, spurious)).Pc(p);
            && !after.PushIdle? && after.value == pc.value
            && (Pushed(after) <==> Pushed(pc) || Ring.Accepts(r, StepPush(p, spurious)))
            && (Ring.Accepts(r, StepPush(p, spurious)) ==> !Pushed(pc))
  {
  }

  lemma PushMoveInv<B(!new)>(plan: seq<seq<B>>, s: System<B>, p: nat, spurious: bool)
    requires SystemInv(plan, s) && CanMove(plan, s, PushMove(p, spurious))
    ensures SystemInv(plan, s.(ring := Apply(s.ring, StepPush(p, spurious))))
  {
    var a: Action<Message<B>> := StepPush(p, spurious);
    var t := s.(ring := Apply(s.ring, a));
    StepInv(s.ring, a);
    ActionFrame(s.ring, a);
    assert ProducerFits(plan, s, p);
    forall q | 1 <= q <= |plan|
      ensures ProducerFits(plan, t, q)
    {
      PushMoveFits(plan, s, p, spurious, q);
    }
    if Ring.Accepts(s.ring, a) {
      PushedMayFollow(plan, s, p);
      AcceptCounts(s, t, p, p);
      AcceptLegal(plan, Values(s.ring.accepted), s.ring.Pc(p).value);
      AcceptDelivery(s, t, s.ring.Pc(p).value);
    }
  }

  lemma AcceptLegal<B>(plan: seq<seq<B>>, accepted: seq<Message<B>>, message: Message<B>)
    requires Legal(plan, accepted) && MayFollow(plan, accepted, message)
    ensures Legal(plan, accepted + [message])
  {
    assert (accepted + [message])[..|accepted|] == accepted;
  }

  lemma AcceptDelivery<B>(s: System<B>, t: System<B>, message: Message<B>)
    requires DeliveryFits(s)
    requires Values(t.ring.accepted) == Values(s.ring.accepted) + [message]
    requires t.ring.delivered == s.ring.delivered && t.ring.pop == s.ring.pop
    requires t.pc == s.pc && t.received == s.received
    ensures DeliveryFits(t)
  {
    assert Pending(t) == Pending(s);
    var n := |s.ring.delivered|;
    assert (Values(s.ring.accepted) + [message])[..n] == Values(s.ring.accepted)[..n];
  }

  /** Steps that leave the ring's accepted list alone and concern producer p only. */
  lemma OtherProducersFit<B>(plan: seq<seq<B>>, s: System<B>, t: System<B>, p: nat, q: nat)
    requires 1 <= q <= |plan| && q != p && ProducerFits(plan, s, q)
    requires t.ring.accepted == s.ring.accepted && t.ring.Pc(q) == s.ring.Pc(q)
    requires q in t.producers && t.producers[q] == s.producers[q] && (s.stop ==> t.stop)
    ensures ProducerFits(plan, t, q)
  {
  }

  /** The consumer, the accepted list and the other producers are as they were. */
  ghost predicate OnlyProducer<B>(s: System<B>, t: System<B>, p: nat) {
    && t.ring.accepted == s.ring.accepted && t.ring.delivered == s.ring.delivered
    && t.ring.pop == s.ring.pop
    && t.pc == s.pc && t.received == s.received && t.consumer == s.consumer
    && (s.stop ==> t.stop)
    && p in t.producers
    && (forall q | q != p && q in s.producers :: q in t.producers && t.producers[q] == s.producers[q])
    && (forall q | q != p :: t.ring.Pc(q) == s.ring.Pc(q))
  }

  lemma CallFits<B>(plan: seq<seq<B>>, s: System<B>, p: nat, message: Message<B>)
    requires Inv(s.ring) && p in s.producers && s.ring.Pc(p).PushIdle?
    requires 1 <= p <= |plan| && message.part == p
    requires var accepted := Values(s.ring.accepted);
             match message
             case BatchMessage(_, batch) =>
               && !Ended(accepted, p) && Got(accepted, p) == s.producers[p].generated < |plan[p - 1]|
               && batch == plan[p - 1][s.producers[p].generated]
             case EndPartition(_) => !Ended(accepted, p) && Got(accepted, p) == |plan[p - 1]|
             case ErrorMessage(_) => true
    ensures var t := CallPushOf(s, p, message);
            Inv(t.ring) && OnlyProducer(s, t, p) && ProducerFits(plan, t, p)
  {
    StepInv(s.ring, CallPush(p, message));
  }

  lemma ReturnFrame<B>(plan: seq<seq<B>>, s: System<B>, p: nat, throws: bool)
    requires CanMove(plan, s, ProducerMove(p, throws)) && s.producers[p].pc.Pushing?
    ensures var t := ProducerStep(plan, s, p, throws);
            OnlyProducer(s, t, p) && t.ring == Apply(s.ring, ReturnPush(p)) && t.ring.Pc(p).PushIdle?
  {
    ActionFrame(s.ring, ReturnPush(p));
  }

  lemma ReturnFits<B>(plan: seq<seq<B>>, s: System<B>, p: nat, throws: bool)
    requires Inv(s.ring) && CanMove(plan, s, ProducerMove(p, throws))
    requires ProducerFits(plan, s, p) && s.producers[p].pc.Pushing?
    ensures var t := ProducerStep(plan, s, p, throws);
            Inv(t.ring) && OnlyProducer(s, t, p) && ProducerFits(plan, t, p)
  {
    StepInv(s.ring, ReturnPush(p));
    ReturnFrame(plan, s, p, throws);
    ReturnedFits(plan, s, ProducerStep(plan, s, p, throws), p, throws);
  }

  lemma ReturnedFits<B>(plan: seq<seq<B>>, s: System<B>, t: System<B>, p: nat, throws: bool)
    requires CanMove(plan, s, ProducerMove(p, throws)) && t == ProducerStep(plan, s, p, throws)
    requires ProducerFits(plan, s, p) && s.producers[p].pc.Pushing?
    requires t.ring.accepted == s.ring.accepted && t.ring.Pc(p).PushIdle?
    ensures ProducerFits(plan, t, p)
  {
    var message := s.producers[p].pc.message;
    if message.BatchMessage? && s.ring.Pc(p).ok {
      assert t.producers[p] == Producer(CheckStop, s.producers[p].generated + 1);
    }
  }

  /** Steps that store flags, count down or close the ring. */
  lemma LateFits<B>(plan: seq<seq<B>>, s: System<B>, p: nat, throws: bool)
    requires Inv(s.ring) && CanMove(plan, s, ProducerMove(p, throws)) && ProducerFits(plan, s, p)
    requires var pc := s.producers[p].pc; pc.Signal? || pc.CloseQueue? || pc.CountDown? || pc.CloseLast?
    ensures var t := ProducerStep(plan, s, p, throws);
            Inv(t.ring) && OnlyProducer(s, t, p) && ProducerFits(plan, t, p)
  {
    StepInv(s.ring, Close);
  }

  lemma EarlyFits<B>(plan: seq<seq<B>>, s: System<B>, p: nat, throws: bool)
    requires Inv(s.ring) && CanMove(plan, s, ProducerMove(p, throws)) && ProducerFits(plan, s, p)
    requires var pc := s.producers[p].pc; pc.Start? || pc.CheckStop? || pc.Generate? || pc.Recheck?
    ensures var t := ProducerStep(plan, s, p, throws);
            Inv(t.ring) && OnlyProducer(s, t, p) && ProducerFits(plan, t, p)
  {
    var pc, generated := s.producers[p].pc, s.producers[p].generated;
    if (pc.Start? || pc.Generate?) && throws {
      CallFits(plan, s, p, ErrorMessage(p));
    } else if pc.Generate? && generated < |plan[p - 1]| {
      CallFits(plan, s, p, BatchMessage(p, plan[p - 1][generated]));
    } else if pc.Recheck? && !s.stop {
      CallFits(plan, s, p, EndPartition(p));
    }
  }

  lemma ProducerMoveFits<B>(plan: seq<seq<B>>, s: System<B>, p: nat, throws: bool)
    requires Inv(s.ring) && CanMove(plan, s, ProducerMove(p, throws)) && ProducerFits(plan, s, p)
    ensures var t := ProducerStep(plan, s, p, throws);
            Inv(t.ring) && OnlyProducer(s, t, p) && ProducerFits(plan, t, p)
  {
    var pc := s.producers[p].pc;
    if pc.Pushing? {
      ReturnFits(plan, s, p, throws);
    } else if pc.Start? || pc.CheckStop? || pc.Generate? || pc.Recheck? {
      EarlyFits(plan, s, p, throws);
    } else {
      LateFits(plan, s, p, throws);
    }
  }

  lemma ProducerMoveInv<B(!new)>(plan: seq<seq<B>>, s: System<B>, p: nat, throws: bool)
    requires SystemInv(plan, s) && CanMove(plan, s, ProducerMove(p, throws))
    ensures SystemInv(plan, ProducerStep(plan, s, p, throws))
  {
    var t := ProducerStep(plan, s, p, throws);
    assert ProducerFits(plan, s, p);
    ProducerMoveFits(plan, s, p, throws);
    forall q | 1 <= q <= |plan|
      ensures ProducerFits(plan, t, q)
    {
      if q != p {
        assert ProducerFits(plan, s, q);
        OtherProducersFit(plan, s, t, p, q);
      }
    }
    assert Pending(t) == Pending(s);
  }

  /** A step inside Pop: what moves out of a slot becomes the pending message. */
  lemma PopMoveDelivery<B>(s: System<B>)
    requires Inv(s.ring) && DeliveryFits(s) && s.pc.Popping? && Enabled(s.ring, StepPop)
    ensures DeliveryFits(s.(ring := Apply(s.ring, StepPop)))
  {
    InHandStep(s.ring);
    if s.ring.pop.PopTake? {
      var n, values := |s.ring.delivered|, Values(s.ring.accepted);
      assert values[..n + 1] == values[..n] + [values[n]];
    }
  }

  lemma PopMoveInv<B(!new)>(plan: seq<seq<B>>, s: System<B>)
    requires SystemInv(plan, s) && CanMove(plan, s, PopMove)
    ensures SystemInv(plan, s.(ring := Apply(s.ring, StepPop)))
  {
    var t := s.(ring := Apply(s.ring, StepPop));
    StepInv(s.ring, StepPop);
    ActionFrame(s.ring, StepPop);
    PopMoveDelivery(s);
    forall q | 1 <= q <= |plan|
      ensures ProducerFits(plan, t, q)
    {
      assert ProducerFits(plan, s, q);
    }
  }

  /** The producers' side, after one of the consumer's own steps. */
  ghost predicate OnlyConsumer<B>(s: System<B>, t: System<B>) {
    && t.ring.accepted == s.ring.accepted && t.ring.delivered == s.ring.delivered
    && t.producers == s.producers && (s.stop ==> t.stop)
    && forall q :: t.ring.Pc(q) == s.ring.Pc(q)
  }

  lemma PopFrame<B(!new)>(plan: seq<seq<B>>, oracle: Oracle<B>, s: System<B>)
    requires Inv(s.ring) && DeliveryFits(s) && CanMove(plan, s, ConsumerMove) && s.pc.Popping?
    ensures var t := ConsumerStep(plan, oracle, s);
            Inv(t.ring) && DeliveryFits(t) && OnlyConsumer(s, t) && t.received == s.received && t.consumer == s.consumer
  {
    var a: Action<Message<B>> := if s.ring.pop.PopIdle? then CallPop else ReturnPop;
    StepInv(s.ring, a);
    ActionFrame(s.ring, a);
  }

  lemma HandleFrame<B(!new)>(plan: seq<seq<B>>, oracle: Oracle<B>, s: System<B>)
    requires Inv(s.ring) && DeliveryFits(s) && CanMove(plan, s, ConsumerMove) && s.pc.Handling?
    ensures var t := ConsumerStep(plan, oracle, s);
            t.ring == s.ring && DeliveryFits(t) && OnlyConsumer(s, t) && t.received == s.received + [s.pc.message]
  {
    var t := ConsumerStep(plan, oracle, s);
    assert Pending(t) == [];
    NothingAppended(t.received);
  }

  lemma SignalFrame<B(!new)>(plan: seq<seq<B>>, oracle: Oracle<B>, s: System<B>)
    requires Inv(s.ring) && DeliveryFits(s) && CanMove(plan, s, ConsumerMove)
    requires s.pc.SignalStop? || s.pc.SignalClose? || s.pc.Joining?
    ensures var t := ConsumerStep(plan, oracle, s);
            Inv(t.ring) && DeliveryFits(t) && OnlyConsumer(s, t) && t.received == s.received && t.consumer == s.consumer
  {
    if s.pc.SignalClose? {
      StepInv(s.ring, Close);
    }
  }

  lemma FinishFrame<B(!new)>(plan: seq<seq<B>>, oracle: Oracle<B>, s: System<B>)
    requires Inv(s.ring) && DeliveryFits(s) && CanMove(plan, s, ConsumerMove) && s.pc.Finishing?
    ensures var t := ConsumerStep(plan, oracle, s);
            t.ring == s.ring && DeliveryFits(t) && OnlyConsumer(s, t)
  {
  }

  lemma HandleKeeps<B(!new)>(plan: seq<seq<B>>, oracle: Oracle<B>, s: System<B>)
    requires Legal(plan, Values(s.ring.accepted)) && DeliveryFits(s) && s.pc.Handling?
    requires Consistent(s.consumer, plan, s.received) && s.ring.Capacity() > 0
    ensures Consistent(ConsumerStep(plan, oracle, s).consumer, plan, s.received + [s.pc.message])
  {
    var message, values, n := s.pc.message, Values(s.ring.accepted), |s.ring.delivered|;
    var more := s.received + [message];
    LegalPrefix(plan, values, n);
    assert values[..n] == more;
    assert more[..|more| - 1] == s.received;
    if message.ErrorMessage? {
      ErrorKeeps(s.consumer, plan, s.received, message);
    } else {
      StoreKeeps(s.consumer, plan, s.received, message);
      DrainKeeps(Store(s.consumer, message), oracle, plan, more);
    }
  }

  /** The final drain, the check of expected_part and CloseTable. */
  lemma FinishKeeps<B(!new)>(plan: seq<seq<B>>, oracle: Oracle<B>, s: System<B>)
    requires Legal(plan, s.received) && Consistent(s.consumer, plan, s.received)
    requires s.pc.Finishing? && s.ring.Capacity() > 0
    ensures SinkFits(plan, ConsumerStep(plan, oracle, s))
  {
    var drained := Drain(s.consumer, oracle).0;
    DrainKeeps(s.consumer, oracle, plan, s.received);
    var closes := Allows(oracle, drained.sink, CloseTable);
    ClosedFits(plan, drained, s.received, ConsumerStep(plan, oracle, s), closes);
  }

  lemma ClosedFits<B(!new)>(
      plan: seq<seq<B>>, drained: Consumer<B>, received: seq<Message<B>>, t: System<B>, closes: bool)
    requires Consistent(drained, plan, received)
    requires t.pc.Returned? && t.consumer.sink == drained.sink.Attempt(CloseTable, closes)
    requires t.pc.rc == 0 ==> closes && drained.expected == |plan| + 1
    ensures SinkFits(plan, t)
  {
    DrainedPrefix(drained, plan, received);
    if drained.expected == |plan| + 1 {
      FinishedLog(drained, plan, received);
    }
  }

  lemma DrainedPrefix<B(!new)>(drained: Consumer<B>, plan: seq<seq<B>>, received: seq<Message<B>>)
    requires Consistent(drained, plan, received)
    ensures forall closes :: Written(drained.sink.Attempt(CloseTable, closes).accepted) <= Flatten(plan, |plan|)
  {
    WrittenIsPrefix(drained, plan, received);
    PrefixClosed(plan, drained.sink.accepted);
  }

  lemma PrefixClosed<B>(plan: seq<seq<B>>, calls: seq<Call<B>>)
    requires Written(calls) <= Flatten(plan, |plan|)
    ensures Written(calls + [CloseTable]) <= Flatten(plan, |plan|)
  {
    ClosedWrites(calls);
  }

  lemma FinishedLog<B(!new)>(c: Consumer<B>, plan: seq<seq<B>>, received: seq<Message<B>>)
    requires Consistent(c, plan, received) && c.expected == |plan| + 1
    ensures c.sink.accepted == [OpenTable] + NonEmptyBrackets(plan, |plan|)
  {
    WholeLog(plan, |plan| + 1);
  }

  lemma ClosedWrites<B>(calls: seq<Call<B>>)
    ensures Written(calls + [CloseTable]) == Written(calls)
  {
    WrittenMore(calls, CloseTable);
    NothingAppended(Written(calls));
  }

  lemma ConsumerMoveInv<B(!new)>(plan: seq<seq<B>>, oracle: Oracle<B>, s: System<B>)
    requires SystemInv(plan, s) && CanMove(plan, s, ConsumerMove)
    ensures SystemInv(plan, ConsumerStep(plan, oracle, s))
  {
    hide Inv, Consistent, Legal, Drain, DeliveryFits;
    var t := ConsumerStep(plan, oracle, s);
    if s.pc.Popping? {
      PopFrame(plan, oracle, s);
    } else if s.pc.Handling? {
      HandleFrame(plan, oracle, s);
      HandleKeeps(plan, oracle, s);
    } else if s.pc.Finishing? {
      FinishFrame(plan, oracle, s);
      ReceivedLegal(plan, s);
      FinishKeeps(plan, oracle, s);
    } else {
      SignalFrame(plan, oracle, s);
    }
    forall q | 1 <= q <= |plan|
      ensures ProducerFits(plan, t, q)
    {
      assert ProducerFits(plan, s, q);
    }
  }

  lemma ReceivedLegal<B(!new)>(plan: seq<seq<B>>, s: System<B>)
    requires Legal(plan, Values(s.ring.accepted)) && DeliveryFits(s) && Pending(s) == []
    ensures Legal(plan, s.received)
  {
    LegalPrefix(plan, Values(s.ring.accepted), |s.ring.delivered|);
    NothingAppended(s.received);
  }

  lemma MoveInv<B(!new)>(plan: seq<seq<B>>, oracle: Oracle<B>, s: System<B>, move: Move)
    requires SystemInv(plan, s) && CanMove(plan, s, move)
    ensures SystemInv(plan, Perform(plan, oracle, s, move))
  {
    match move
    case PushMove(p, spurious) => PushMoveInv(plan, s, p, spurious);
    case ProducerMove(p, throws) => ProducerMoveInv(plan, s, p, throws);
    case PopMove => PopMoveInv(plan, s);
    case ConsumerMove => ConsumerMoveInv(plan, oracle, s);
  }

  lemma {:induction false} ExecutionInv<B(!new)>(
      plan: seq<seq<B>>, oracle: Oracle<B>, capacity: nat, run: seq<System<B>>)
    requires capacity >= 2 && IsExecution(plan, oracle, capacity, run)
    ensures SystemInv(plan, run[|run| - 1])
    decreases |run|
  {
    if |run| == 1 {
      LaunchInv(plan, capacity);
    } else {
      var before := run[..|run| - 1];
      assert IsExecution(plan, oracle, capacity, before) by {
        forall i | 0 <= i < |before| - 1
          ensures NextSystem(plan, oracle, before[i], before[i + 1])
        {
          assert NextSystem(plan, oracle, run[i], run[i + 1]);
        }
      }
      ExecutionInv(plan, oracle, capacity, before);
      var s, t := run[|run| - 2], run[|run| - 1];
      assert NextSystem(plan, oracle, s, t);
      var move :| CanMove(plan, s, move) && t == Perform(plan, oracle, s, move);
      MoveInv(plan, oracle, s, move);
    }
  }

  // ---------------------------------------------------------------- main results

  /**
   Every interleaving that returns 0 made the sink accept exactly Open, the brackets of the parts that have
   a batch, in part order, and Close; so it wrote the batches the sequential writer writes, in its order.
   */
  lemma ReturnsZeroOnlyIfSequential<B(!new)>(
      plan: seq<seq<B>>, oracle: Oracle<B>, capacity: nat, run: seq<System<B>>)
    requires capacity >= 2 && IsExecution(plan, oracle, capacity, run)
    requires run[|run| - 1].pc == Returned(0)
    ensures var accepted := run[|run| - 1].consumer.sink.accepted;
            && accepted == [OpenTable] + NonEmptyBrackets(plan, |plan|) + [CloseTable]
            && Written(accepted) == Written([OpenTable] + AllBrackets(plan, |plan|) + [CloseTable])
            && Written(accepted) == Flatten(plan, |plan|)
  {
    ExecutionInv(plan, oracle, capacity, run);
    SameBatches(plan);
    WrittenBetween(NonEmptyBrackets(plan, |plan|));
    WrittenBetween(AllBrackets(plan, |plan|));
  }

  /** At every moment of every run, the batches written so far are a prefix of the sequential output. */
  lemma WritesAreAlwaysAPrefix<B(!new)>(
      plan: seq<seq<B>>, oracle: Oracle<B>, capacity: nat, run: seq<System<B>>)
    requires capacity >= 2 && IsExecution(plan, oracle, capacity, run)
    ensures Written(run[|run| - 1].consumer.sink.accepted) <= Flatten(plan, |plan|)
  {
    ExecutionInv(plan, oracle, capacity, run);
    var s := run[|run| - 1];
    if !s.pc.Returned? {
      WrittenIsPrefix(s.consumer, plan, s.received);
    }
  }

  /** For capacity 2 and up a Pop never hands the consumer a moved-from message. */
  lemma PopsRealMessages<B(!new)>(
      plan: seq<seq<B>>, oracle: Oracle<B>, capacity: nat, run: seq<System<B>>)
    requires capacity >= 2 && IsExecution(plan, oracle, capacity, run)
    ensures run[|run| - 1].ring.pop.PopGot? ==> run[|run| - 1].ring.pop.value.Some?
  {
    ExecutionInv(plan, oracle, capacity, run);
  }
}
