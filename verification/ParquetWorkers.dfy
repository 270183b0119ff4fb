/**
 RunParallelEncodeParquetOrdered as a whole: workers take part numbers from the dispenser, encode each part to
 an in-memory file and push it into the ring; one consumer pops results in arrival order and merges them in
 part order.  `minis[p - 1]` is the file that part p encodes to; an encoding may fail or throw.
 */
module ParquetWorkers {
  import opened Wrappers
  import opened Ring
  import opened RingProperties
  import opened ParquetMerge
  import opened ParquetConsumer
  import PartitionFiles

  /** `LoadStop` to `FetchAdd` are the loop condition; `SetStop` follows a failed encoding. */
  datatype WorkerPc =
    | LoadStop
    | LoadClosed
    | FetchAdd
    | Encoding(part: nat)
    | SetStop(part: nat)
    | Pushing(result: Result)
    | CountDown
    | CloseQueue
    | Done
    | Threw

  datatype ConsumerPc =
    | Popping
    | Handling(result: Result)
    | SignalStop
    | ClosePartitions
    | CloseResults
    | Joining
    | Returned(rc: int)

  datatype Ticket = Ticket(worker: nat, part: nat)

  /** `tickets` and `received` are history; `file` is what was moved to the final path. */
  datatype System = System(
    ring: State<Result>,
    next: nat,
    closed: bool,
    stop: bool,
    remaining: int,
    workers: map<nat, WorkerPc>,
    collector: Collector,
    pc: ConsumerPc,
    file: Option<seq<Byte>>,
    tickets: seq<Ticket>,
    received: seq<Result>)

  datatype EncodeOutcome = Succeeds | Fails | Throws

  datatype Move =
    | PushMove(worker: nat, spurious: bool)
    | WorkerMove(worker: nat, encoded: EncodeOutcome)
    | PopMove
    | ConsumerMove(closes: bool, stale: nat)

  // ---------------------------------------------------------------- transitions

  /** The serializer reports the footer's length in 32 bits. */
  ghost predicate ShortFooters(codec: Codec) {
    forall meta :: |codec.serialize(meta)| < WORD
  }

  function Workers(n: nat): (workers: map<nat, WorkerPc>)
    ensures forall w: nat :: w in workers <==> w < n
    ensures forall w | w in workers :: workers[w] == LoadStop
  {
    if n == 0 then map[] else Workers(n - 1)[n - 1 := LoadStop]
  }

  /** The result queue has one slot per worker. */
  function Launch(oracle: WriteOracle, partCount: nat, configured: nat): System {
    var n := PartitionFiles.ResolveWorkerCount(configured, partCount);
    System(Init(n), 1, false, false, n, Workers(n), Collector(partCount, StartMerge(oracle), map[], 1),
           Popping, None, [], [])
  }

  predicate Ended(pc: WorkerPc) {
    pc.Done? || pc.Threw?
  }

  /** The part number a moved-from slot can hold: that of a result taken out of it, or the default 0. */
  ghost predicate IsStale(s: System, part: nat) {
    || part == 0
    || exists i :: 0 <= i < |s.ring.delivered| && s.ring.delivered[i].Some? && s.ring.delivered[i].value.part == part
  }

  ghost predicate CanMove(minis: seq<seq<Byte>>, s: System, move: Move) {
    && s.ring.Capacity() > 0
    && match move
       case PushMove(w, spurious) =>
         w in s.workers && s.workers[w].Pushing? && Enabled(s.ring, StepPush(w, spurious))
       case WorkerMove(w, encoded) =>
         && w in s.workers && !Ended(s.workers[w])
         && (s.workers[w].Encoding? ==> 1 <= s.workers[w].part <= |minis|)
         && (if s.workers[w].Pushing? then s.ring.Pc(w).PushReturn? else s.ring.Pc(w).PushIdle?)
       case PopMove => s.pc.Popping? && Enabled(s.ring, StepPop)
       case ConsumerMove(_, stale) =>
         match s.pc
         case Popping =>
           || s.ring.pop.PopIdle? || s.ring.pop.PopEmpty?
           || (s.ring.pop.PopGot? && (s.ring.pop.value.None? ==> IsStale(s, stale)))
         case Handling(result) => PendingWellFormed(s.collector.pending) && ResultWellFormed(result)
         case Joining =>
           && (forall w | w in s.workers :: Ended(s.workers[w]))
           && (!s.collector.merge.failed && s.collector.expected == |minis| + 1 ==> s.collector.merge.header.Some?)
         case Returned(_) => false
         case _ => true
  }

  ghost function Perform(codec: Codec, oracle: WriteOracle, minis: seq<seq<Byte>>, s: System, move: Move): System
    requires CanMove(minis, s, move) && ShortFooters(codec)
  {
    match move
    case PushMove(w, spurious) => s.(ring := Apply(s.ring, StepPush(w, spurious)))
    case WorkerMove(w, encoded) => WorkerStep(minis, s, w, encoded)
    case PopMove => s.(ring := Apply(s.ring, StepPop))
    case ConsumerMove(closes, stale) => ConsumerStep(codec, oracle, minis, s, closes, stale)
  }

  function Goto(s: System, w: nat, pc: WorkerPc): System {
    s.(workers := s.workers[w := pc])
  }

  function CallPushOf(s: System, w: nat, result: Result): System
    requires s.ring.Pc(w).PushIdle? && s.ring.Capacity() > 0
  {
    Goto(s, w, Pushing(result)).(ring := Apply(s.ring, CallPush(w, result)))
  }

  ghost function WorkerStep(minis: seq<seq<Byte>>, s: System, w: nat, encoded: EncodeOutcome): System
    requires CanMove(minis, s, WorkerMove(w, encoded))
  {
    match s.workers[w]
    case LoadStop => Goto(s, w, if s.stop then CountDown else LoadClosed)
    case LoadClosed => Goto(s, w, if s.closed then CountDown else FetchAdd)
    case FetchAdd =>
      if s.next > |minis| then Goto(s, w, CountDown).(next := s.next + 1)
      else Goto(s, w, Encoding(s.next)).(next := s.next + 1, tickets := s.tickets + [Ticket(w, s.next)])
    case Encoding(part) =>
      (match encoded
       case Succeeds => CallPushOf(s, w, Result.Encoded(part, minis[part - 1]))
       case Fails => Goto(s, w, SetStop(part))
       case Throws => Goto(s, w, Threw))
    case SetStop(part) => CallPushOf(s, w, Failed(part)).(stop := true)
    case Pushing(_) =>
      Goto(s, w, if s.ring.Pc(w).ok then LoadStop else CountDown).(ring := Apply(s.ring, ReturnPush(w)))
    case CountDown => Goto(s, w, if s.remaining == 1 then CloseQueue else Done).(remaining := s.remaining - 1)
    case CloseQueue => Goto(s, w, Done).(ring := Apply(s.ring, Close))
  }

  ghost function ConsumerStep(
      codec: Codec, oracle: WriteOracle, minis: seq<seq<Byte>>, s: System, closes: bool, stale: nat): System
    requires CanMove(minis, s, ConsumerMove(closes, stale)) && ShortFooters(codec)
  {
    match s.pc
    case Popping =>
      if s.ring.pop.PopIdle? then s.(ring := Apply(s.ring, CallPop))
      else if s.ring.pop.PopEmpty? then s.(ring := Apply(s.ring, ReturnPop), pc := Joining)
      else
        var value := s.ring.pop.value;
        s.(ring := Apply(s.ring, ReturnPop), pc := Handling(if value.Some? then value.value else MovedFrom(stale)))
    case Handling(result) =>
      var collector := Receive(codec, oracle, s.collector, result);
      s.(collector := collector, received := if result.MovedFrom? then s.received else s.received + [result],
         pc := if collector.merge.failed then SignalStop else Popping)
    case SignalStop => s.(stop := true, pc := ClosePartitions)
    case ClosePartitions => s.(closed := true, pc := CloseResults)
    case CloseResults => s.(ring := Apply(s.ring, Close), pc := Joining)
    case Joining =>
      var threw := exists w | w in s.workers :: s.workers[w].Threw?;
      if threw || s.collector.merge.failed || s.collector.expected != |minis| + 1 then s.(pc := Returned(2))
      else
        var file := Finish(codec, oracle, s.collector.merge);
        if file.None? || !closes then s.(pc := Returned(2)) else s.(pc := Returned(0), file := file)
  }

  ghost predicate NextSystem(codec: Codec, oracle: WriteOracle, minis: seq<seq<Byte>>, s: System, t: System)
    requires ShortFooters(codec)
  {
    exists move :: CanMove(minis, s, move) && t == Perform(codec, oracle, minis, s, move)
  }

  ghost predicate IsExecution(
      codec: Codec, oracle: WriteOracle, minis: seq<seq<Byte>>, configured: nat, run: seq<System>)
    requires ShortFooters(codec)
  {
    && |run| > 0 && run[0] == Launch(oracle, |minis|, configured)
    && forall i | 0 <= i < |run| - 1 :: NextSystem(codec, oracle, minis, run[i], run[i + 1])
  }

  // ---------------------------------------------------------------- invariant

  /** The dispenser hands out 1, 2, 3, ... without gap or repetition. */
  ghost predicate TicketsFit(n: nat, next: nat, tickets: seq<Ticket>) {
    && next >= 1 && |tickets| == (if next - 1 < n then next - 1 else n)
    && forall i | 0 <= i < |tickets| :: tickets[i].part == i + 1
  }

  ghost predicate Seen(results: seq<Result>, part: nat) {
    exists i :: 0 <= i < |results| && results[i].part == part
  }

  /** Every accepted result is genuine, of a part that was handed out, and of a part no other result is of. */
  ghost predicate AcceptedFit(minis: seq<seq<Byte>>, dispensed: nat, results: seq<Result>) {
    && (forall i | 0 <= i < |results| :: Genuine(minis, results[i]) && results[i].part <= dispensed)
    && (forall i, j | 0 <= i < j < |results| :: results[i].part != results[j].part)
  }

  ghost predicate Owns(tickets: seq<Ticket>, w: nat, part: nat) {
    1 <= part <= |tickets| && tickets[part - 1].worker == w
  }

  predicate Pushed(pc: PushPc<Result>) {
    pc.PushWrite? || pc.PushPublish? || (pc.PushReturn? && pc.ok)
  }

  /** A worker holds only a part that was handed to it and whose result is not in the queue yet. */
  ghost predicate WorkerFits(
      minis: seq<seq<Byte>>, tickets: seq<Ticket>, results: seq<Result>, w: nat, pc: WorkerPc, push: PushPc<Result>)
  {
    match pc
    case Encoding(part) => push.PushIdle? && Owns(tickets, w, part) && !Seen(results, part)
    case SetStop(part) => push.PushIdle? && Owns(tickets, w, part) && !Seen(results, part)
    case Pushing(result) =>
      && !push.PushIdle? && push.value == result && Genuine(minis, result) && Owns(tickets, w, result.part)
      && (!Pushed(push) ==> !Seen(results, result.part))
    case _ => push.PushIdle?
  }

  ghost predicate WorkersFit(minis: seq<seq<Byte>>, s: System) {
    forall w | w in s.workers ::
      WorkerFits(minis, s.tickets, Values(s.ring.accepted), w, s.workers[w], s.ring.Pc(w))
  }

  function Pending(pc: ConsumerPc, pop: PopPc<Result>): seq<Result> {
    match pc
    case Handling(result) => if result.MovedFrom? then [] else [result]
    case Popping => InHand(pop)
    case _ => []
  }

  /** Handled and pending results are the ones the ring delivered. */
  ghost predicate DeliveryFits(
      received: seq<Result>, pc: ConsumerPc, pop: PopPc<Result>, delivered: nat, results: seq<Result>)
  {
    && delivered <= |results|
    && received + Pending(pc, pop) == results[..delivered]
    && (!pc.Popping? ==> pop.PopIdle?)
    && (pc.Handling? ==> !pc.result.MovedFrom?)
  }

  ghost predicate Delivery(s: System) {
    DeliveryFits(s.received, s.pc, s.ring.pop, |s.ring.delivered|, Values(s.ring.accepted))
  }

  /** The collector has merged or keeps only parts it received. */
  ghost predicate CollectorSeen(c: Collector, received: seq<Result>) {
    && (forall p: nat | 1 <= p < c.expected :: Seen(received, p))
    && (forall p | p in c.pending :: Seen(received, p))
  }

  /** Return code 0 means the merged file of all parts was moved into place. */
  ghost predicate FileFits(
      codec: Codec, minis: seq<seq<Byte>>, pc: ConsumerPc, collector: Collector, file: Option<seq<Byte>>)
    requires |minis| > 0
  {
    pc == Returned(0) ==>
      && collector.expected == |minis| + 1
      && AllReadable(codec, minis)
      && |codec.serialize(MergedMeta(codec, minis))| < WORD
      && file == Some(FileBytes(MergedData(codec, minis, |minis|), codec.serialize(MergedMeta(codec, minis))))
  }

  ghost predicate SystemInv(codec: Codec, minis: seq<seq<Byte>>, s: System)
    requires |minis| > 0
  {
    && Inv(s.ring)
    && TicketsFit(|minis|, s.next, s.tickets)
    && AcceptedFit(minis, |s.tickets|, Values(s.ring.accepted))
    && WorkersFit(minis, s)
    && Delivery(s)
    && CollectorFits(codec, minis, s.collector)
    && CollectorSeen(s.collector, s.received)
    && FileFits(codec, minis, s.pc, s.collector, s.file)
  }

  lemma LaunchInv(codec: Codec, oracle: WriteOracle, minis: seq<seq<Byte>>, configured: nat)
    requires |minis| > 0 && PartitionFiles.ResolveWorkerCount(configured, |minis|) >= 2
    ensures SystemInv(codec, minis, Launch(oracle, |minis|, configured))
  {
    var s := Launch(oracle, |minis|, configured);
    InitInv<Result>(s.ring.Capacity());
    assert Values(s.ring.accepted) == [];
    assert minis[..0] == [];
  }

  // ---------------------------------------------------------------- steps inside Push

  lemma AcceptKeeps(minis: seq<seq<Byte>>, dispensed: nat, results: seq<Result>, result: Result)
    requires AcceptedFit(minis, dispensed, results)
    requires Genuine(minis, result) && result.part <= dispensed && !Seen(results, result.part)
    ensures AcceptedFit(minis, dispensed, results + [result])
  {
  }

  lemma SeenMore(results: seq<Result>, result: Result, part: nat)
    ensures Seen(results + [result], part) <==> Seen(results, part) || part == result.part
  {
    var more := results + [result];
    if Seen(results, part) {
      var i :| 0 <= i < |results| && results[i].part == part;
      assert more[i] == results[i];
    }
    assert more[|results|] == result;
  }

  lemma AcceptDelivery(
      received: seq<Result>, pc: ConsumerPc, pop: PopPc<Result>, delivered: nat, results: seq<Result>, result: Result)
    requires DeliveryFits(received, pc, pop, delivered, results)
    ensures DeliveryFits(received, pc, pop, delivered, results + [result])
  {
    assert (results + [result])[..delivered] == results[..delivered];
  }

  /** Inside Push a worker keeps its value, and it becomes Pushed exactly by being accepted. */
  lemma OwnPushStep(r: State<Result>, w: nat, spurious: bool)
    requires Enabled(r, StepPush(w, spurious))
    ensures var pc, after := r.Pc(w), Apply(r, StepPush(w, spurious)).Pc(w);
            && !after.PushIdle? && after.value == pc.value
            && (Pushed(after) <==> Pushed(pc) || Ring.Accepts(r, StepPush(w, spurious)))
            && (Ring.Accepts(r, StepPush(w, spurious)) ==> !Pushed(pc))
  {
  }

  /** A result that another worker's part does not share leaves that worker's claim as it was. */
  lemma OthersFit(
      minis: seq<seq<Byte>>, tickets: seq<Ticket>, results: seq<Result>, result: Result,
      w: nat, v: nat, pc: WorkerPc, push: PushPc<Result>)
    requires WorkerFits(minis, tickets, results, v, pc, push)
    requires v != w && Owns(tickets, w, result.part)
    ensures WorkerFits(minis, tickets, results + [result], v, pc, push)
  {
    var part := if pc.Encoding? || pc.SetStop? then pc.part else if pc.Pushing? then pc.result.part else 0;
    SeenMore(results, result, part);
  }

  lemma PushMoveInv(codec: Codec, minis: seq<seq<Byte>>, s: System, w: nat, spurious: bool)
    requires |minis| > 0 && SystemInv(codec, minis, s) && CanMove(minis, s, PushMove(w, spurious))
    ensures SystemInv(codec, minis, s.(ring := Apply(s.ring, StepPush(w, spurious))))
  {
    hide CollectorFits, CollectorSeen, Inv, FileFits, TicketsFit, AcceptedFit, Apply, DeliveryFits, Seen;
    var a: Action<Result> := StepPush(w, spurious);
    var t := s.(ring := Apply(s.ring, a));
    StepInv(s.ring, a);
    ActionFrame(s.ring, a);
    OwnPushStep(s.ring, w, spurious);
    if Ring.Accepts(s.ring, a) {
      var results, result := Values(s.ring.accepted), s.ring.Pc(w).value;
      assert Values(t.ring.accepted) == results + [result];
      AcceptKeeps(minis, |s.tickets|, results, result);
      AcceptDelivery(s.received, s.pc, s.ring.pop, |s.ring.delivered|, results, result);
      forall v | v in t.workers && v != w
        ensures WorkerFits(minis, t.tickets, results + [result], v, t.workers[v], t.ring.Pc(v))
      {
        OthersFit(minis, s.tickets, results, result, w, v, s.workers[v], s.ring.Pc(v));
      }
    }
  }

  // ---------------------------------------------------------------- other steps of the workers

  /** A part that is handed out now is new to the queue. */
  lemma FetchKeeps(minis: seq<seq<Byte>>, s: System, w: nat, part: nat)
    requires AcceptedFit(minis, |s.tickets|, Values(s.ring.accepted)) && part == |s.tickets| + 1
    ensures var tickets := s.tickets + [Ticket(w, part)];
            AcceptedFit(minis, |tickets|, Values(s.ring.accepted)) && Owns(tickets, w, part)
    ensures !Seen(Values(s.ring.accepted), part)
  {
  }

  lemma TicketMore(
      minis: seq<seq<Byte>>, tickets: seq<Ticket>, ticket: Ticket, results: seq<Result>,
      v: nat, pc: WorkerPc, push: PushPc<Result>)
    requires WorkerFits(minis, tickets, results, v, pc, push)
    ensures WorkerFits(minis, tickets + [ticket], results, v, pc, push)
  {
  }

  /** What a worker's own step changes: its place, its ticket, and nothing the consumer looks at. */
  ghost predicate OnlyWorker(s: System, t: System, w: nat) {
    && t.ring.accepted == s.ring.accepted && t.ring.delivered == s.ring.delivered && t.ring.pop == s.ring.pop
    && t.pc == s.pc && t.received == s.received && t.collector == s.collector && t.file == s.file
    && (forall v | v in t.workers :: v in s.workers || v == w)
    && (forall v | v in s.workers && v != w ::
          v in t.workers && t.workers[v] == s.workers[v] && t.ring.Pc(v) == s.ring.Pc(v))
  }

  lemma FetchInv(codec: Codec, minis: seq<seq<Byte>>, s: System, w: nat, encoded: EncodeOutcome)
    requires |minis| > 0 && SystemInv(codec, minis, s) && CanMove(minis, s, WorkerMove(w, encoded))
    requires s.workers[w].FetchAdd?
    ensures SystemInv(codec, minis, WorkerStep(minis, s, w, encoded))
  {
    hide CollectorFits, CollectorSeen, Inv, FileFits, AcceptedFit, DeliveryFits, Seen;
    var t := WorkerStep(minis, s, w, encoded);
    if s.next <= |minis| {
      FetchKeeps(minis, s, w, s.next);
      forall v | v in t.workers && v != w
        ensures WorkerFits(minis, t.tickets, Values(t.ring.accepted), v, t.workers[v], t.ring.Pc(v))
      {
        TicketMore(minis, s.tickets, Ticket(w, s.next), Values(s.ring.accepted), v, s.workers[v], s.ring.Pc(v));
      }
    }
  }

  lemma CallFits(minis: seq<seq<Byte>>, s: System, w: nat, result: Result)
    requires Inv(s.ring) && s.ring.Pc(w).PushIdle? && w in s.workers
    requires Genuine(minis, result) && Owns(s.tickets, w, result.part)
    requires !Seen(Values(s.ring.accepted), result.part)
    ensures var t := CallPushOf(s, w, result);
            && Inv(t.ring) && OnlyWorker(s, t, w) && t.next == s.next && t.tickets == s.tickets
            && w in t.workers
            && WorkerFits(minis, t.tickets, Values(t.ring.accepted), w, t.workers[w], t.ring.Pc(w))
  {
    StepInv(s.ring, CallPush(w, result));
    hide Inv, Seen, Genuine;
  }

  lemma ReturnFits(minis: seq<seq<Byte>>, s: System, w: nat, encoded: EncodeOutcome)
    requires Inv(s.ring) && CanMove(minis, s, WorkerMove(w, encoded)) && s.workers[w].Pushing?
    ensures var t := WorkerStep(minis, s, w, encoded);
            && Inv(t.ring) && OnlyWorker(s, t, w) && t.next == s.next && t.tickets == s.tickets
            && w in t.workers
            && WorkerFits(minis, t.tickets, Values(t.ring.accepted), w, t.workers[w], t.ring.Pc(w))
  {
    StepInv(s.ring, ReturnPush(w));
    hide Inv;
    ActionFrame(s.ring, ReturnPush(w));
  }

  /** The ring operation inside a worker's step, and what it leaves of the worker's place in Push. */
  lemma WorkerStepFits(minis: seq<seq<Byte>>, s: System, w: nat, encoded: EncodeOutcome)
    requires Inv(s.ring) && CanMove(minis, s, WorkerMove(w, encoded)) && !s.workers[w].FetchAdd?
    requires |s.tickets| <= |minis|
    requires WorkerFits(minis, s.tickets, Values(s.ring.accepted), w, s.workers[w], s.ring.Pc(w))
    ensures var t := WorkerStep(minis, s, w, encoded);
            && Inv(t.ring) && OnlyWorker(s, t, w) && t.next == s.next && t.tickets == s.tickets
            && w in t.workers
            && WorkerFits(minis, t.tickets, Values(t.ring.accepted), w, t.workers[w], t.ring.Pc(w))
  {
    hide Inv, Seen, CallPushOf;
    var pc := s.workers[w];
    if pc.Pushing? {
      ReturnFits(minis, s, w, encoded);
    } else if pc.Encoding? && encoded.Succeeds? {
      CallFits(minis, s, w, Result.Encoded(pc.part, minis[pc.part - 1]));
    } else if pc.SetStop? {
      CallFits(minis, s, w, Failed(pc.part));
    } else if pc.CloseQueue? {
      StepInv(s.ring, Close);
    }
  }

  lemma WorkerMoveInv(codec: Codec, minis: seq<seq<Byte>>, s: System, w: nat, encoded: EncodeOutcome)
    requires |minis| > 0 && SystemInv(codec, minis, s) && CanMove(minis, s, WorkerMove(w, encoded))
    ensures SystemInv(codec, minis, WorkerStep(minis, s, w, encoded))
  {
    hide CollectorFits, CollectorSeen, Inv, FileFits, AcceptedFit, DeliveryFits, WorkerFits, WorkerStep;
    if s.workers[w].FetchAdd? {
      FetchInv(codec, minis, s, w, encoded);
    } else {
      WorkerStepFits(minis, s, w, encoded);
    }
  }

  // ---------------------------------------------------------------- steps of the consumer

  lemma TakeDelivery(received: seq<Result>, before: PopPc<Result>, after: PopPc<Result>, n: nat, results: seq<Result>)
    requires n < |results| && DeliveryFits(received, Popping, before, n, results)
    requires InHand(before) == [] && InHand(after) == [results[n]]
    ensures DeliveryFits(received, Popping, after, n + 1, results)
  {
    assert results[..n + 1] == results[..n] + [results[n]];
  }

  lemma PopMoveInv(codec: Codec, minis: seq<seq<Byte>>, s: System)
    requires |minis| > 0 && SystemInv(codec, minis, s) && CanMove(minis, s, PopMove)
    ensures SystemInv(codec, minis, s.(ring := Apply(s.ring, StepPop)))
  {
    hide CollectorFits, CollectorSeen, Inv, FileFits, AcceptedFit, TicketsFit, WorkerFits, Apply;
    var t := s.(ring := Apply(s.ring, StepPop));
    StepInv(s.ring, StepPop);
    ActionFrame(s.ring, StepPop);
    PopDelivery(s, t);
  }

  lemma PopDelivery(s: System, t: System)
    requires Inv(s.ring) && Delivery(s) && s.pc.Popping? && Enabled(s.ring, StepPop)
    requires t == s.(ring := Apply(s.ring, StepPop))
    ensures Delivery(t)
  {
    hide Inv;
    InHandStep(s.ring);
    if s.ring.pop.PopTake? {
      var n, results := |s.ring.delivered|, Values(s.ring.accepted);
      TakeDelivery(s.received, s.ring.pop, t.ring.pop, n, results);
    }
  }

  /** From two slots up, Pop returns a genuine result. */
  lemma GotIsGenuine(minis: seq<seq<Byte>>, s: System)
    requires Inv(s.ring) && AcceptedFit(minis, |s.tickets|, Values(s.ring.accepted)) && Delivery(s)
    requires s.pc.Popping? && s.ring.pop.PopGot?
    ensures s.ring.pop.value.Some? && Genuine(minis, s.ring.pop.value.value)
  {
    var results, n, value := Values(s.ring.accepted), |s.ring.delivered|, s.ring.pop.value.value;
    assert Pending(s.pc, s.ring.pop) == [value];
    assert (s.received + [value])[|s.received|] == value;
    assert value == results[..n][|s.received|] == results[|s.received|];
  }

  /** Returning from Pop passes what is in hand to the consumer. */
  lemma PoppingDelivery(
      codec: Codec, oracle: WriteOracle, minis: seq<seq<Byte>>, s: System, closes: bool, stale: nat)
    requires Delivery(s) && CanMove(minis, s, ConsumerMove(closes, stale)) && ShortFooters(codec) && s.pc.Popping?
    requires s.ring.pop.PopGot? ==> s.ring.pop.value.Some? && !s.ring.pop.value.value.MovedFrom?
    ensures Delivery(ConsumerStep(codec, oracle, minis, s, closes, stale))
  {
    hide ShortFooters, IsStale;
  }

  lemma PoppingInv(
      codec: Codec, oracle: WriteOracle, minis: seq<seq<Byte>>, s: System, closes: bool, stale: nat)
    requires |minis| > 0 && SystemInv(codec, minis, s) && CanMove(minis, s, ConsumerMove(closes, stale))
    requires s.pc.Popping? && ShortFooters(codec)
    ensures SystemInv(codec, minis, ConsumerStep(codec, oracle, minis, s, closes, stale))
  {
    hide CollectorFits, CollectorSeen, Inv, AcceptedFit, TicketsFit, WorkerFits, ShortFooters, Delivery;
    hide MergedMeta, AllReadable, MergedData, FileBytes, Genuine, IsStale, Receive, Finish;
    if s.ring.pop.PopGot? {
      GotIsGenuine(minis, s);
      GenuineIsReal(minis, s.ring.pop.value.value);
    }
    PoppingDelivery(codec, oracle, minis, s, closes, stale);
    var a: Action<Result> := if s.ring.pop.PopIdle? then CallPop else ReturnPop;
    StepInv(s.ring, a);
    ActionFrame(s.ring, a);
  }

  lemma GenuineIsReal(minis: seq<seq<Byte>>, result: Result)
    requires Genuine(minis, result)
    ensures !result.MovedFrom?
  {
  }

  /** The result in the consumer's hands is genuine and of a part that was not received before. */
  lemma HandledIsNew(minis: seq<seq<Byte>>, s: System)
    requires AcceptedFit(minis, |s.tickets|, Values(s.ring.accepted)) && Delivery(s) && s.pc.Handling?
    ensures Genuine(minis, s.pc.result) && !Seen(s.received, s.pc.result.part)
  {
    var results, n := Values(s.ring.accepted), |s.ring.delivered|;
    var more := s.received + [s.pc.result];
    assert more == results[..n] && n == |s.received| + 1;
    assert s.pc.result == more[|s.received|] == results[|s.received|];
    forall i | 0 <= i < |s.received|
      ensures s.received[i].part != s.pc.result.part
    {
      assert s.received[i] == more[i] == results[i];
    }
  }

  lemma ReceiveSeen(
      codec: Codec, oracle: WriteOracle, minis: seq<seq<Byte>>, c: Collector, received: seq<Result>, result: Result)
    requires MinisWellFormed(minis) && CollectorFits(codec, minis, c) && CollectorSeen(c, received)
    requires Genuine(minis, result) && !Seen(received, result.part)
    ensures PendingWellFormed(c.pending) && ResultWellFormed(result)
    ensures var d := Receive(codec, oracle, c, result);
            CollectorFits(codec, minis, d) && CollectorSeen(d, received + [result])
  {
    hide Process, MergeFits, Seen, Receive;
    ReceiveKeeps(codec, oracle, minis, c, result);
    forall p: nat
      ensures Seen(received + [result], p) <==> Seen(received, p) || p == result.part
    {
      SeenMore(received, result, p);
    }
  }

  lemma HandlingInv(codec: Codec, oracle: WriteOracle, minis: seq<seq<Byte>>, s: System, closes: bool, stale: nat)
    requires |minis| > 0 && MinisWellFormed(minis) && ShortFooters(codec)
    requires SystemInv(codec, minis, s) && CanMove(minis, s, ConsumerMove(closes, stale)) && s.pc.Handling?
    ensures SystemInv(codec, minis, ConsumerStep(codec, oracle, minis, s, closes, stale))
  {
    hide CollectorFits, CollectorSeen, Inv, AcceptedFit, TicketsFit, WorkerFits, ShortFooters, MinisWellFormed, Receive;
    HandledIsNew(minis, s);
    ReceiveSeen(codec, oracle, minis, s.collector, s.received, s.pc.result);
    var more := s.received + [s.pc.result];
    assert more + [] == more;
  }

  /** All parts merged without failure: the finished file is the merged file. */
  lemma FinishFits(codec: Codec, oracle: WriteOracle, minis: seq<seq<Byte>>, c: Collector)
    requires |minis| > 0 && ShortFooters(codec) && MergeFits(codec, minis, |minis|, c.merge)
    requires !c.merge.failed && c.expected == |minis| + 1 && c.merge.header.Some?
    ensures var file := Finish(codec, oracle, c.merge);
            file.Some? ==> FileFits(codec, minis, Returned(0), c, file)
  {
    assert minis[..|minis|] == minis;
    assert MergeFits(codec, minis, |minis|, c.merge);
  }

  lemma CollectorMerge(codec: Codec, minis: seq<seq<Byte>>, c: Collector)
    requires CollectorFits(codec, minis, c) && c.expected == |minis| + 1
    ensures MergeFits(codec, minis, |minis|, c.merge)
  {
  }

  lemma LateInv(codec: Codec, oracle: WriteOracle, minis: seq<seq<Byte>>, s: System, closes: bool, stale: nat)
    requires |minis| > 0 && ShortFooters(codec)
    requires SystemInv(codec, minis, s) && CanMove(minis, s, ConsumerMove(closes, stale))
    requires !s.pc.Popping? && !s.pc.Handling?
    ensures SystemInv(codec, minis, ConsumerStep(codec, oracle, minis, s, closes, stale))
  {
    hide MergeFits, MergedData, FileBytes, Finish, Receive;
    hide CollectorFits, CollectorSeen, Inv, AcceptedFit, TicketsFit, WorkerFits, ShortFooters, MergedMeta, AllReadable;
    if s.pc.CloseResults? {
      StepInv(s.ring, Close);
    } else if s.pc.Joining? && !s.collector.merge.failed && s.collector.expected == |minis| + 1 {
      CollectorMerge(codec, minis, s.collector);
      FinishFits(codec, oracle, minis, s.collector);
    }
  }

  lemma MoveInv(codec: Codec, oracle: WriteOracle, minis: seq<seq<Byte>>, s: System, move: Move)
    requires |minis| > 0 && MinisWellFormed(minis) && ShortFooters(codec)
    requires SystemInv(codec, minis, s) && CanMove(minis, s, move)
    ensures SystemInv(codec, minis, Perform(codec, oracle, minis, s, move))
  {
    hide SystemInv, WorkerStep, ConsumerStep, ShortFooters, MinisWellFormed, Apply;
    match move
    case PushMove(w, spurious) => PushMoveInv(codec, minis, s, w, spurious);
    case WorkerMove(w, encoded) => WorkerMoveInv(codec, minis, s, w, encoded);
    case PopMove => PopMoveInv(codec, minis, s);
    case ConsumerMove(closes, stale) =>
      if s.pc.Popping? {
        PoppingInv(codec, oracle, minis, s, closes, stale);
      } else if s.pc.Handling? {
        HandlingInv(codec, oracle, minis, s, closes, stale);
      } else {
        LateInv(codec, oracle, minis, s, closes, stale);
      }
  }

  lemma EarlierExecution(
      codec: Codec, oracle: WriteOracle, minis: seq<seq<Byte>>, configured: nat, run: seq<System>)
    requires ShortFooters(codec) && IsExecution(codec, oracle, minis, configured, run) && |run| > 1
    ensures IsExecution(codec, oracle, minis, configured, run[..|run| - 1])
    ensures NextSystem(codec, oracle, minis, run[|run| - 2], run[|run| - 1])
  {
    hide NextSystem, ShortFooters;
    var before := run[..|run| - 1];
    forall i | 0 <= i < |before| - 1
      ensures NextSystem(codec, oracle, minis, before[i], before[i + 1])
    {
      assert before[i] == run[i] && before[i + 1] == run[i + 1];
    }
    assert NextSystem(codec, oracle, minis, run[|run| - 2], run[|run| - 2 + 1]);
  }

  lemma {:induction false} ExecutionInv(
      codec: Codec, oracle: WriteOracle, minis: seq<seq<Byte>>, configured: nat, run: seq<System>)
    requires |minis| > 0 && MinisWellFormed(minis) && ShortFooters(codec)
    requires PartitionFiles.ResolveWorkerCount(configured, |minis|) >= 2
    requires IsExecution(codec, oracle, minis, configured, run)
    ensures SystemInv(codec, minis, run[|run| - 1])
    decreases |run|
  {
    hide SystemInv, ShortFooters, MinisWellFormed, Perform, CanMove;
    if |run| == 1 {
      LaunchInv(codec, oracle, minis, configured);
    } else {
      EarlierExecution(codec, oracle, minis, configured, run);
      ExecutionInv(codec, oracle, minis, configured, run[..|run| - 1]);
      var s, t := run[|run| - 2], run[|run| - 1];
      var move :| CanMove(minis, s, move) && t == Perform(codec, oracle, minis, s, move);
      MoveInv(codec, oracle, minis, s, move);
    }
  }

  lemma EachPartOnce(
      minis: seq<seq<Byte>>, next: nat, tickets: seq<Ticket>, received: seq<Result>, n: nat, results: seq<Result>)
    requires TicketsFit(|minis|, next, tickets) && AcceptedFit(minis, |tickets|, results)
    requires n <= |results| && received + [] == results[..n]
    requires |minis| > 0 && Seen(received, |minis|)
    ensures |tickets| == |minis|
    ensures forall i, j | 0 <= i < j < |received| :: received[i].part != received[j].part
    ensures forall i | 0 <= i < |received| :: Genuine(minis, received[i]) && received[i].part <= |minis|
  {
    assert received == results[..n];
    assert forall i | 0 <= i < |received| :: received[i] == results[i];
  }
}
