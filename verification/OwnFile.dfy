/**
 The one-partition pipeline of GeneratePartitionToOwnFile: a producer thread pushes the partition's batches
 into a ring of two slots and closes it; the writer thread pops them into the partition's file.

 Nothing after the loop checks that every batch arrived, so the file can end early with return code 0;
 the results below say exactly when.
 */
module OwnFile {
  import opened Ring
  import opened RingProperties
  import opened OrderedConsumer

  const PIPELINE_CAPACITY: nat := 2
  const PRODUCER: nat := 0

  datatype ProducerPc<B> = CheckStop | Generate | Pushing(message: Message<B>) | CloseRing | Finished

  datatype WriterPc<B> =
    | Popping
    | Handling(message: Message<B>)
    | SignalStop
    | SignalClose
    | Joining
    | Returned(rc: int)

  /** History: what was true at Pop's latest sequence load, and how many calls of the file writer failed. */
  datatype Pipeline<B> = Pipeline(
    ring: State<Message<B>>,
    producer: ProducerPc<B>,
    generated: nat,
    stop: bool,
    writer: WriterPc<B>,
    failed: bool,
    written: seq<B>,
    received: seq<Message<B>>,
    publishedAtLoad: nat,
    closedAtLoad: bool,
    refused: nat)

  datatype Move =
    | PushMove(spurious: bool)
    | ProducerMove(throws: bool)
    | PopMove
    | WriterMove(accepts: bool)

  function Launch<B>(): Pipeline<B> {
    Pipeline(Init(PIPELINE_CAPACITY), CheckStop, 0, false, Popping, false, [], [], 0, false, 0)
  }

  predicate CanMove<B>(s: Pipeline<B>, move: Move) {
    && s.ring.Capacity() > 0
    && match move
       case PushMove(spurious) => s.producer.Pushing? && Enabled(s.ring, StepPush(PRODUCER, spurious))
       case ProducerMove(_) =>
         && !s.producer.Finished?
         && (if s.producer.Pushing? then s.ring.Pc(PRODUCER).PushReturn? else s.ring.Pc(PRODUCER).PushIdle?)
       case PopMove => s.writer.Popping? && Enabled(s.ring, StepPop)
       case WriterMove(_) =>
         match s.writer
         case Popping => s.ring.pop.PopIdle? || s.ring.pop.PopEmpty? || (s.ring.pop.PopGot? && s.ring.pop.value.Some?)
         case Joining => s.producer.Finished?
         case Returned(_) => false
         case _ => true
  }

  /** Positions whose value has been stored and published. */
  function Published<B>(ring: State<Message<B>>): int {
    var pc := ring.Pc(PRODUCER);
    ring.enqueuePos - if pc.PushWrite? || pc.PushPublish? then 1 else 0
  }

  function Perform<B>(batches: seq<B>, s: Pipeline<B>, move: Move): Pipeline<B>
    requires CanMove(s, move)
  {
    match move
    case PushMove(spurious) => s.(ring := Apply(s.ring, StepPush(PRODUCER, spurious)))
    case ProducerMove(throws) => ProducerStep(batches, s, throws)
    case PopMove =>
      var t := s.(ring := Apply(s.ring, StepPop));
      if s.ring.pop.PopLoadSequence? then
        t.(publishedAtLoad := if Published(s.ring) < 0 then 0 else Published(s.ring), closedAtLoad := s.ring.closed)
      else t
    case WriterMove(accepts) => WriterStep(s, accepts)
  }

  function CallPushOf<B>(s: Pipeline<B>, message: Message<B>): Pipeline<B>
    requires s.ring.Pc(PRODUCER).PushIdle? && s.ring.Capacity() > 0
  {
    s.(producer := Pushing(message), ring := Apply(s.ring, CallPush(PRODUCER, message)))
  }

  function ProducerStep<B>(batches: seq<B>, s: Pipeline<B>, throws: bool): Pipeline<B>
    requires CanMove(s, ProducerMove(throws))
  {
    match s.producer
    case CheckStop => s.(producer := if s.stop then CloseRing else Generate)
    case Generate =>
      if throws then CallPushOf(s, ErrorMessage(PRODUCER))
      else if s.generated < |batches| then CallPushOf(s, BatchMessage(PRODUCER, batches[s.generated]))
      else s.(producer := CloseRing)
    case Pushing(message) =>
      var returned := s.(ring := Apply(s.ring, ReturnPush(PRODUCER)));
      if message.BatchMessage? && s.ring.Pc(PRODUCER).ok then
        returned.(producer := CheckStop, generated := s.generated + 1)
      else returned.(producer := CloseRing)
    case CloseRing => s.(producer := Finished, ring := Apply(s.ring, Close))
  }

  function WriterStep<B>(s: Pipeline<B>, accepts: bool): Pipeline<B>
    requires CanMove(s, WriterMove(accepts))
  {
    match s.writer
    case Popping =>
      if s.ring.pop.PopIdle? then s.(ring := Apply(s.ring, CallPop))
      else if s.ring.pop.PopEmpty? then s.(ring := Apply(s.ring, ReturnPop), writer := Joining)
      else s.(ring := Apply(s.ring, ReturnPop), writer := Handling(s.ring.pop.value.value))
    case Handling(message) =>
      var handled := s.(received := s.received + [message]);
      if !message.BatchMessage? then handled.(failed := true, writer := SignalStop)
      else if s.stop then handled.(writer := Popping)
      else if accepts then handled.(written := s.written + [message.batch], writer := Popping)
      else handled.(failed := true, refused := s.refused + 1, writer := SignalStop)
    case SignalStop => s.(stop := true, writer := SignalClose)
    case SignalClose => s.(ring := Apply(s.ring, Close), writer := Popping)
    case Joining =>
      // an earlier failure returns 2 after the clean-up; otherwise ClosePartition decides
      s.(writer := Returned(if s.failed || !accepts then 2 else 0), refused := s.refused + if accepts then 0 else 1)
  }

  ghost predicate NextPipeline<B(!new)>(batches: seq<B>, s: Pipeline<B>, t: Pipeline<B>) {
    exists move :: CanMove(s, move) && t == Perform(batches, s, move)
  }

  ghost predicate IsExecution<B(!new)>(batches: seq<B>, run: seq<Pipeline<B>>) {
    && |run| > 0 && run[0] == Launch()
    && forall i | 0 <= i < |run| - 1 :: NextPipeline(batches, run[i], run[i + 1])
  }

  // ---------------------------------------------------------------- invariant

  predicate Pushed<B>(pc: PushPc<Message<B>>) {
    pc.PushWrite? || pc.PushPublish? || (pc.PushReturn? && pc.ok)
  }

  /** The ring accepted the first n batches in order. */
  ghost predicate AcceptedBatches<B>(batches: seq<B>, accepted: seq<Entry<Message<B>>>, n: nat) {
    n <= |batches| && n <= |accepted| &&
    forall i | 0 <= i < n :: accepted[i] == Entry(PRODUCER, BatchMessage(PRODUCER, batches[i]))
  }

  ghost predicate AcceptedError<B>(batches: seq<B>, accepted: seq<Entry<Message<B>>>) {
    && |accepted| > 0
    && AcceptedBatches(batches, accepted, |accepted| - 1)
    && accepted[|accepted| - 1] == Entry(PRODUCER, ErrorMessage(PRODUCER))
  }

  ghost predicate AcceptedFits<B>(batches: seq<B>, accepted: seq<Entry<Message<B>>>) {
    AcceptedBatches(batches, accepted, |accepted|) || AcceptedError(batches, accepted)
  }

  ghost predicate ProducerFits<B>(batches: seq<B>, s: Pipeline<B>) {
    var accepted, push := s.ring.accepted, s.ring.Pc(PRODUCER);
    && (push.PushWrite? || push.PushPublish? ==> push.pos == s.ring.enqueuePos - 1)
    && (s.ring.closed && !s.failed ==> s.producer.Finished?)
    && match s.producer
       case Pushing(message) =>
         && !push.PushIdle? && push.value == message
         && (push.PushReturn? && !push.ok ==> s.failed)
         && |accepted| == s.generated + (if Pushed(push) then 1 else 0)
         && (if message.BatchMessage? then
               && AcceptedBatches(batches, accepted, |accepted|)
               && s.generated < |batches| && message == BatchMessage(PRODUCER, batches[s.generated])
             else
               && message == ErrorMessage(PRODUCER)
               && if Pushed(push) then AcceptedError(batches, accepted)
                  else AcceptedBatches(batches, accepted, |accepted|))
       case CheckStop => push.PushIdle? && |accepted| == s.generated && AcceptedBatches(batches, accepted, |accepted|)
       case Generate => push.PushIdle? && |accepted| == s.generated && AcceptedBatches(batches, accepted, |accepted|)
       case _ =>
         && push.PushIdle? && AcceptedFits(batches, accepted)
         && (!s.failed ==>
               || (AcceptedBatches(batches, accepted, |accepted|) && |accepted| == |batches|)
               || AcceptedError(batches, accepted))
  }

  function Pending<B>(s: Pipeline<B>): seq<Message<B>> {
    match s.writer
    case Handling(message) => [message]
    case Popping => InHand(s.ring.pop)
    case _ => []
  }

  ghost predicate DeliveryFits<B>(s: Pipeline<B>) {
    && |s.ring.delivered| <= |s.ring.accepted|
    && s.received + Pending(s) == Values(s.ring.accepted)[..|s.ring.delivered|]
    && (!s.writer.Popping? ==> s.ring.pop.PopIdle?)
  }

  /** Until something fails, the file holds the batches of all received messages. */
  ghost predicate FileFits<B>(batches: seq<B>, s: Pipeline<B>) {
    && s.written <= batches
    && (s.stop ==> s.failed)
    && (s.writer.SignalStop? || s.writer.SignalClose? ==> s.failed)
    && (s.writer.SignalClose? ==> s.stop)
    && (s.failed && (s.writer.Popping? || s.writer.Handling?) ==> s.stop)
    && (s.writer == Returned(0) ==> !s.failed)
    && (!s.failed ==>
          && |s.received| <= |batches|
          && s.written == batches[..|s.received|]
          && forall i | 0 <= i < |s.received| :: s.received[i].BatchMessage?)
  }

  /** After a load that found nothing, the published values of that moment are all delivered. */
  ghost predicate LoadFits<B>(s: Pipeline<B>) {
    (s.ring.pop.PopLoadClosed? || s.ring.pop.PopEmpty? || s.writer.Joining? || s.writer.Returned?) ==>
      && |s.ring.delivered| == s.publishedAtLoad
      && (s.closedAtLoad ==>
            s.ring.closed && (s.failed || (s.producer.Finished? && s.publishedAtLoad == |s.ring.accepted|)))
  }

  ghost predicate PipelineInv<B>(batches: seq<B>, s: Pipeline<B>) {
    Inv(s.ring) && ProducerFits(batches, s) && DeliveryFits(s) && FileFits(batches, s) && LoadFits(s)
  }

  lemma LaunchInv<B>(batches: seq<B>)
    ensures PipelineInv(batches, Launch())
  {
    InitInv<Message<B>>(PIPELINE_CAPACITY);
    assert Values(Launch<B>().ring.accepted) == [];
  }

  lemma PushMoveInv<B>(batches: seq<B>, s: Pipeline<B>, spurious: bool)
    requires PipelineInv(batches, s) && CanMove(s, PushMove(spurious))
    ensures PipelineInv(batches, Perform(batches, s, PushMove(spurious)))
  {
    var a: Action<Message<B>> := StepPush(PRODUCER, spurious);
    var t := Perform(batches, s, PushMove(spurious));
    StepInv(s.ring, a);
    ActionFrame(s.ring, a);
    PushStepFits(batches, s, t, spurious);
    DeliveryStays(s, t);
  }

  /** The producer's side moved; what was delivered and received did not. */
  lemma DeliveryStays<B>(s: Pipeline<B>, t: Pipeline<B>)
    requires DeliveryFits(s) && s.ring.accepted <= t.ring.accepted
    requires t.ring.delivered == s.ring.delivered && t.ring.pop == s.ring.pop
    requires t.writer == s.writer && t.received == s.received
    ensures DeliveryFits(t)
  {
    PrefixStays(s, t);
    assert Pending(t) == Pending(s);
  }

  lemma PushStepFits<B>(batches: seq<B>, s: Pipeline<B>, t: Pipeline<B>, spurious: bool)
    requires ProducerFits(batches, s) && CanMove(s, PushMove(spurious)) && |s.ring.accepted| == s.ring.enqueuePos
    requires t == Perform(batches, s, PushMove(spurious))
    ensures ProducerFits(batches, t)
  {
    var a: Action<Message<B>> := StepPush(PRODUCER, spurious);
    ActionFrame(s.ring, a);
    OwnPushStep(s.ring, spurious);
  }

  lemma OwnPushStep<B>(r: State<Message<B>>, spurious: bool)
    requires Enabled(r, StepPush(PRODUCER, spurious))
    ensures var pc, t := r.Pc(PRODUCER), Apply(r, StepPush(PRODUCER, spurious));
            var after := t.Pc(PRODUCER);
            && !after.PushIdle? && after.value == pc.value
            && (Pushed(after) <==> Pushed(pc) || Accepts(r, StepPush(PRODUCER, spurious)))
            && (Accepts(r, StepPush(PRODUCER, spurious)) ==> !Pushed(pc) && t.enqueuePos == r.enqueuePos + 1)
            && (!Accepts(r, StepPush(PRODUCER, spurious)) ==> t.enqueuePos == r.enqueuePos)
            && (after.PushReturn? && !after.ok ==> r.closed)
            && (after.PushWrite? || after.PushPublish? ==>
                  after.pos == if pc.PushWrite? || pc.PushPublish? then pc.pos else r.enqueuePos)
  {
  }

  lemma PrefixStays<B>(s: Pipeline<B>, t: Pipeline<B>)
    requires |s.ring.delivered| <= |s.ring.accepted| && s.ring.accepted <= t.ring.accepted
    ensures Values(t.ring.accepted)[..|s.ring.delivered|] == Values(s.ring.accepted)[..|s.ring.delivered|]
  {
  }

  lemma ProducerFrame<B>(batches: seq<B>, s: Pipeline<B>, throws: bool)
    requires Inv(s.ring) && CanMove(s, ProducerMove(throws))
    ensures var t := ProducerStep(batches, s, throws);
            && Inv(t.ring)
            && t.ring.accepted == s.ring.accepted && t.ring.delivered == s.ring.delivered && t.ring.pop == s.ring.pop
            && (s.ring.closed ==> t.ring.closed) && (s.producer.CloseRing? ==> t.producer.Finished?)
            && t == s.(ring := t.ring, producer := t.producer, generated := t.generated)
  {
    if s.producer.Pushing? {
      ReturnFrame(batches, s, throws);
    } else if s.producer.CloseRing? {
      StepInv(s.ring, Close);
    } else if s.producer.Generate? {
      GenerateFrame(batches, s, throws);
    }
  }

  lemma GenerateFrame<B>(batches: seq<B>, s: Pipeline<B>, throws: bool)
    requires Inv(s.ring) && CanMove(s, ProducerMove(throws)) && s.producer.Generate?
    ensures var t := ProducerStep(batches, s, throws);
            && Inv(t.ring)
            && t.ring.accepted == s.ring.accepted && t.ring.delivered == s.ring.delivered && t.ring.pop == s.ring.pop
            && t.ring.closed == s.ring.closed
            && t == s.(ring := t.ring, producer := t.producer)
  {
    if throws {
      StepInv(s.ring, CallPush(PRODUCER, ErrorMessage(PRODUCER)));
    } else if s.generated < |batches| {
      StepInv(s.ring, CallPush(PRODUCER, BatchMessage(PRODUCER, batches[s.generated])));
    }
  }

  lemma ReturnFrame<B>(batches: seq<B>, s: Pipeline<B>, throws: bool)
    requires Inv(s.ring) && CanMove(s, ProducerMove(throws)) && s.producer.Pushing?
    ensures var t := ProducerStep(batches, s, throws);
            && Inv(t.ring)
            && t.ring.accepted == s.ring.accepted && t.ring.delivered == s.ring.delivered && t.ring.pop == s.ring.pop
            && t.ring.closed == s.ring.closed
            && t == s.(ring := t.ring, producer := t.producer, generated := t.generated)
  {
    StepInv(s.ring, ReturnPush(PRODUCER));
    ActionFrame(s.ring, ReturnPush(PRODUCER));
  }

  lemma ProducerMoveInv<B>(batches: seq<B>, s: Pipeline<B>, throws: bool)
    requires PipelineInv(batches, s) && CanMove(s, ProducerMove(throws))
    ensures PipelineInv(batches, ProducerStep(batches, s, throws))
  {
    var t := ProducerStep(batches, s, throws);
    ProducerFrame(batches, s, throws);
    ProducerStepFits(batches, s, throws);
    DeliveryStays(s, t);
  }

  lemma ProducerStepFits<B>(batches: seq<B>, s: Pipeline<B>, throws: bool)
    requires ProducerFits(batches, s) && (s.stop ==> s.failed) && CanMove(s, ProducerMove(throws))
    ensures ProducerFits(batches, ProducerStep(batches, s, throws))
  {
  }

  /** A Pop that finds nothing has been handed every value published so far. */
  lemma EmptyLoadCounts<B>(batches: seq<B>, s: Pipeline<B>)
    requires Inv(s.ring) && ProducerFits(batches, s) && LoadsEmpty(s.ring)
    requires AcceptedFits(batches, s.ring.accepted)
    ensures |s.ring.delivered| == Published(s.ring)
  {
    EmptyLoadMeaning(s.ring);
    if s.ring.dequeuePos < s.ring.enqueuePos {
      assert s.ring.accepted[s.ring.dequeuePos].id == PRODUCER;
    } else {
      assert PRODUCER in s.ring.pushes ==> PusherFits(s.ring, PRODUCER);
    }
  }

  lemma AcceptedAlwaysFits<B>(batches: seq<B>, s: Pipeline<B>)
    requires ProducerFits(batches, s)
    ensures AcceptedFits(batches, s.ring.accepted)
  {
  }

  lemma PopMoveInv<B>(batches: seq<B>, s: Pipeline<B>)
    requires PipelineInv(batches, s) && CanMove(s, PopMove)
    ensures PipelineInv(batches, Perform(batches, s, PopMove))
  {
    StepInv(s.ring, StepPop);
    AcceptedAlwaysFits(batches, s);
    PopMoveProducer(batches, s);
    PopMoveDelivery(batches, s);
    PopMoveLoad(batches, s);
  }

  lemma PopMoveProducer<B>(batches: seq<B>, s: Pipeline<B>)
    requires ProducerFits(batches, s) && FileFits(batches, s) && CanMove(s, PopMove)
    ensures ProducerFits(batches, Perform(batches, s, PopMove)) && FileFits(batches, Perform(batches, s, PopMove))
  {
    hide Index, PushStep;
    ActionFrame(s.ring, StepPop);
  }

  lemma PopMoveDelivery<B>(batches: seq<B>, s: Pipeline<B>)
    requires Inv(s.ring) && DeliveryFits(s) && CanMove(s, PopMove)
    ensures DeliveryFits(Perform(batches, s, PopMove))
  {
    InHandStep(s.ring);
    HandDelivery(s, Perform(batches, s, PopMove));
  }

  lemma HandDelivery<B>(s: Pipeline<B>, t: Pipeline<B>)
    requires DeliveryFits(s) && s.writer.Popping? && t.writer == s.writer && t.received == s.received
    requires t.ring.accepted == s.ring.accepted
    requires if s.ring.pop.PopTake? then
               && |s.ring.delivered| < |s.ring.accepted| && |t.ring.delivered| == |s.ring.delivered| + 1
               && InHand(s.ring.pop) == [] && InHand(t.ring.pop) == [s.ring.accepted[|s.ring.delivered|].value]
             else t.ring.delivered == s.ring.delivered && InHand(t.ring.pop) == InHand(s.ring.pop)
    ensures DeliveryFits(t)
  {
    if s.ring.pop.PopTake? {
      var n, values := |s.ring.delivered|, Values(s.ring.accepted);
      assert values[..n + 1] == values[..n] + [values[n]];
    }
  }

  lemma PopMoveLoad<B>(batches: seq<B>, s: Pipeline<B>)
    requires Inv(s.ring) && ProducerFits(batches, s) && LoadFits(s) && AcceptedFits(batches, s.ring.accepted)
    requires CanMove(s, PopMove)
    ensures LoadFits(Perform(batches, s, PopMove))
  {
    if LoadsEmpty(s.ring) {
      EmptyLoadCounts(batches, s);
    }
  }

  lemma WriterMoveInv<B>(batches: seq<B>, s: Pipeline<B>, accepts: bool)
    requires PipelineInv(batches, s) && CanMove(s, WriterMove(accepts))
    ensures PipelineInv(batches, WriterStep(s, accepts))
  {
    if s.writer.Popping? {
      PopCallInv(batches, s, accepts);
    } else if s.writer.Handling? {
      AcceptedAlwaysFits(batches, s);
      HandleFits(batches, s, accepts);
    } else {
      SignalInv(batches, s, accepts);
    }
  }

  lemma PopCallInv<B>(batches: seq<B>, s: Pipeline<B>, accepts: bool)
    requires PipelineInv(batches, s) && CanMove(s, WriterMove(accepts)) && s.writer.Popping?
    ensures PipelineInv(batches, WriterStep(s, accepts))
  {
    StepInv(s.ring, if s.ring.pop.PopIdle? then CallPop else ReturnPop);
    PopCallDelivery(s, accepts);
    PopCallFits(batches, s, accepts);
  }

  lemma PopCallDelivery<B>(s: Pipeline<B>, accepts: bool)
    requires DeliveryFits(s) && CanMove(s, WriterMove(accepts)) && s.writer.Popping?
    ensures DeliveryFits(WriterStep(s, accepts))
  {
    assert Pending(WriterStep(s, accepts)) == Pending(s);
  }

  lemma PopCallFits<B>(batches: seq<B>, s: Pipeline<B>, accepts: bool)
    requires ProducerFits(batches, s) && FileFits(batches, s) && LoadFits(s)
    requires CanMove(s, WriterMove(accepts)) && s.writer.Popping?
    ensures var t := WriterStep(s, accepts); ProducerFits(batches, t) && FileFits(batches, t) && LoadFits(t)
  {
    ActionFrame(s.ring, if s.ring.pop.PopIdle? then CallPop else ReturnPop);
  }

  lemma SignalInv<B>(batches: seq<B>, s: Pipeline<B>, accepts: bool)
    requires PipelineInv(batches, s) && CanMove(s, WriterMove(accepts))
    requires s.writer.SignalStop? || s.writer.SignalClose? || s.writer.Joining?
    ensures PipelineInv(batches, WriterStep(s, accepts))
  {
    StepInv(s.ring, Close);
    assert Pending(WriterStep(s, accepts)) == [];
  }

  lemma HandleFits<B>(batches: seq<B>, s: Pipeline<B>, accepts: bool)
    requires PipelineInv(batches, s) && AcceptedFits(batches, s.ring.accepted)
    requires CanMove(s, WriterMove(accepts)) && s.writer.Handling?
    ensures PipelineInv(batches, WriterStep(s, accepts))
  {
    var t := WriterStep(s, accepts);
    HandledDelivery(s, t);
    HandledFile(batches, s, accepts);
  }

  lemma HandledDelivery<B>(s: Pipeline<B>, t: Pipeline<B>)
    requires DeliveryFits(s) && s.writer.Handling?
    requires t.ring == s.ring && t.received == s.received + [s.writer.message]
    requires t.writer.Popping? || t.writer.SignalStop?
    ensures DeliveryFits(t)
  {
    assert Pending(t) == [];
  }

  lemma HandledFile<B>(batches: seq<B>, s: Pipeline<B>, accepts: bool)
    requires FileFits(batches, s) && DeliveryFits(s) && AcceptedFits(batches, s.ring.accepted)
    requires CanMove(s, WriterMove(accepts)) && s.writer.Handling?
    ensures FileFits(batches, WriterStep(s, accepts))
  {
    var n, message := |s.received|, s.writer.message;
    assert (s.received + [message])[n] == message;
    assert message == s.ring.accepted[n].value;
    if message.BatchMessage? {
      assert batches[..n] + [batches[n]] == batches[..n + 1];
    }
  }

  lemma {:induction false} ExecutionInv<B(!new)>(batches: seq<B>, run: seq<Pipeline<B>>)
    requires IsExecution(batches, run)
    ensures PipelineInv(batches, run[|run| - 1])
    decreases |run|
  {
    if |run| == 1 {
      LaunchInv(batches);
    } else {
      var before := run[..|run| - 1];
      assert IsExecution(batches, before) by {
        forall i | 0 <= i < |before| - 1
          ensures NextPipeline(batches, before[i], before[i + 1])
        {
          assert NextPipeline(batches, run[i], run[i + 1]);
        }
      }
      ExecutionInv(batches, before);
      var s, t := run[|run| - 2], run[|run| - 1];
      assert NextPipeline(batches, s, t);
      var move :| CanMove(s, move) && t == Perform(batches, s, move);
      match move {
        case PushMove(spurious) => PushMoveInv(batches, s, spurious);
        case ProducerMove(throws) => ProducerMoveInv(batches, s, throws);
        case PopMove => PopMoveInv(batches, s);
        case WriterMove(accepts) => WriterMoveInv(batches, s, accepts);
      }
    }
  }

  // ---------------------------------------------------------------- main results

  /** The file always holds a prefix of the partition's batches. */
  lemma FileIsAlwaysAPrefix<B(!new)>(batches: seq<B>, run: seq<Pipeline<B>>)
    requires IsExecution(batches, run)
    ensures run[|run| - 1].written <= batches
  {
    ExecutionInv(batches, run);
  }

  /**
   With return code 0 the file is complete exactly when as many values as there are batches had been
   published by the time of Pop's last sequence load.
   */
  lemma CompleteExactlyWhen<B(!new)>(batches: seq<B>, run: seq<Pipeline<B>>)
    requires IsExecution(batches, run) && run[|run| - 1].writer == Returned(0)
    ensures var s := run[|run| - 1]; s.written == batches <==> s.publishedAtLoad == |batches|
  {
    ExecutionInv(batches, run);
    var s := run[|run| - 1];
    var n := |s.received|;
    NoneLeft(s);
    assert n == s.publishedAtLoad;
    if n == |batches| {
      assert batches[..n] == batches;
    }
  }

  lemma NoneLeft<B>(s: Pipeline<B>)
    requires |s.ring.delivered| <= |s.ring.accepted| && s.writer.Returned?
    requires s.received + Pending(s) == Values(s.ring.accepted)[..|s.ring.delivered|]
    ensures |s.received| == |s.ring.delivered|
  {
  }

  /** In particular it is complete when that load came after the ring was closed. */
  lemma CompleteWhenLoadFollowsClose<B(!new)>(batches: seq<B>, run: seq<Pipeline<B>>)
    requires IsExecution(batches, run) && run[|run| - 1].writer == Returned(0)
    requires run[|run| - 1].closedAtLoad
    ensures run[|run| - 1].written == batches
  {
    ExecutionInv(batches, run);
    var s := run[|run| - 1];
    NoneLeft(s);
    var n := |s.received|;
    var accepted := s.ring.accepted;
    assert n == |accepted|;
    assert n > 0 ==> s.received[n - 1] == accepted[n - 1].value;
    assert batches[..n] == batches;
  }
}
