/**
 RunParallelEncodeParquetOrdered with one worker, whose result queue has a single slot.  The slot may be
 overwritten, and Pop may hand out a moved-from result; but parts are pushed in ascending order, so a part that is
 lost leaves the expected part behind for good.  None of this needs the ring's sequence numbers.
 */
module ParquetOneWorker {
  import opened Ring
  import opened ParquetMerge
  import opened ParquetConsumer
  import opened ParquetWorkers
  import PartitionFiles

  // ---------------------------------------------------------------- invariant

  function InSlot(r: State<Result>): seq<Result> {
    if |r.slots| == 1 && r.slots[0].value.Some? then [r.slots[0].value.value] else []
  }

  /** Received, then in the consumer's hands, then in the slot. */
  function Line(s: System): seq<Result> {
    s.received + Pending(s.pc, s.ring.pop) + InSlot(s.ring)
  }

  /** Genuine results of strictly ascending parts, none above the bound. */
  ghost predicate Ascends(minis: seq<seq<Byte>>, line: seq<Result>, bound: int) {
    && (forall i | 0 <= i < |line| :: Genuine(minis, line[i]) && line[i].part <= bound)
    && (forall i, j | 0 <= i < j < |line| :: line[i].part < line[j].part)
  }

  /** The worker holds the last part handed out, and its result has not been stored in the slot. */
  predicate Unstored(pc: WorkerPc, push: PushPc<Result>) {
    pc.Encoding? || pc.SetStop? || (pc.Pushing? && !push.PushPublish? && !push.PushReturn?)
  }

  ghost predicate OneWorkerFits(minis: seq<seq<Byte>>, top: nat, pc: WorkerPc, push: PushPc<Result>) {
    match pc
    case Encoding(part) => push.PushIdle? && 1 <= part == top
    case SetStop(part) => push.PushIdle? && 1 <= part == top
    case Pushing(result) => !push.PushIdle? && push.value == result && Genuine(minis, result) && result.part == top
    case _ => push.PushIdle?
  }

  /** Whatever was taken out of the slot has been received, or is in the consumer's hands. */
  ghost predicate TakenSeen(s: System) {
    && (forall i | 0 <= i < |s.ring.delivered| && s.ring.delivered[i].Some? ::
          Seen(s.received + Pending(s.pc, s.ring.pop), s.ring.delivered[i].value.part))
    && (s.pc.Handling? && s.pc.result.MovedFrom? ==> s.pc.result.part == 0 || Seen(s.received, s.pc.result.part))
    && (!s.pc.Popping? ==> s.ring.pop.PopIdle?)
  }

  function LastPart(received: seq<Result>): nat {
    if received == [] then 0 else received[|received| - 1].part
  }

  /** Every part so far was received and merged. */
  ghost predicate OnTrack(codec: Codec, minis: seq<seq<Byte>>, c: Collector, received: seq<Result>) {
    && |received| <= |minis| && c.expected == |received| + 1
    && (forall i | 0 <= i < |received| :: received[i].part == i + 1)
    && (forall p | p in c.pending :: p < c.expected)
    && MergeFits(codec, minis, |received|, c.merge)
  }

  /** The expected part is lost: later ones were received, and it is not pending. */
  ghost predicate Behind(c: Collector, received: seq<Result>) {
    1 <= c.expected <= LastPart(received) && !Seen(received, c.expected) && c.expected !in c.pending
  }

  ghost predicate OneCollectorFits(codec: Codec, minis: seq<seq<Byte>>, c: Collector, received: seq<Result>) {
    && c.partCount == |minis| && PendingWellFormed(c.pending)
    && (c.merge.failed || OnTrack(codec, minis, c, received) || Behind(c, received))
  }

  ghost predicate OneInv(codec: Codec, minis: seq<seq<Byte>>, s: System)
    requires |minis| > 0
  {
    && s.ring.Capacity() == 1 && (forall w | w in s.workers :: w == 0) && 0 in s.workers
    && TicketsFit(|minis|, s.next, s.tickets)
    && OneWorkerFits(minis, |s.tickets|, s.workers[0], s.ring.Pc(0))
    && Ascends(minis, Line(s), |s.tickets| - if Unstored(s.workers[0], s.ring.Pc(0)) then 1 else 0)
    && TakenSeen(s)
    && OneCollectorFits(codec, minis, s.collector, s.received)
    && FileFits(codec, minis, s.pc, s.collector, s.file)
    && (s.pc == Returned(0) ==> OnTrack(codec, minis, s.collector, s.received))
  }

  lemma LaunchOne(codec: Codec, oracle: WriteOracle, minis: seq<seq<Byte>>, configured: nat)
    requires |minis| > 0 && PartitionFiles.ResolveWorkerCount(configured, |minis|) == 1
    ensures OneInv(codec, minis, Launch(oracle, |minis|, configured))
  {
    var s := Launch(oracle, |minis|, configured);
    assert minis[..0] == [];
    assert OnTrack(codec, minis, s.collector, s.received);
  }

  // ---------------------------------------------------------------- the worker

  lemma AscendsBelow(minis: seq<seq<Byte>>, line: seq<Result>, a: int, b: int)
    requires Ascends(minis, line, a) && a <= b
    ensures Ascends(minis, line, b)
  {
  }

  /** Storing a result over the one in the slot: what was there is lost, the order stays. */
  lemma StoreAscends(minis: seq<seq<Byte>>, front: seq<Result>, lost: seq<Result>, result: Result)
    requires Genuine(minis, result) && Ascends(minis, front + lost, result.part - 1)
    ensures Ascends(minis, front + [result], result.part)
  {
    var line := front + lost;
    assert forall i | 0 <= i < |front| :: front[i] == line[i];
  }

  /** A step that leaves the slot, the histories and the consumer alone. */
  ghost predicate OnlyPlace(s: System, t: System) {
    && t.ring.slots == s.ring.slots && t.ring.delivered == s.ring.delivered && t.ring.pop == s.ring.pop
    && t.pc == s.pc && t.received == s.received && t.collector == s.collector && t.file == s.file
    && t.workers.Keys == s.workers.Keys
  }

  lemma WriteSlot(minis: seq<seq<Byte>>, s: System, spurious: bool)
    requires s.ring.Capacity() == 1 && s.ring.Pc(0).PushWrite? && Enabled(s.ring, StepPush(0, spurious))
    requires 0 in s.workers && s.workers[0].Pushing?
    requires OneWorkerFits(minis, |s.tickets|, s.workers[0], s.ring.Pc(0))
    requires Ascends(minis, Line(s), |s.tickets| - 1)
    ensures var t := s.(ring := Apply(s.ring, StepPush(0, spurious)));
            Ascends(minis, Line(t), |s.tickets|) && t.ring.Pc(0) == PushPublish(s.ring.Pc(0).value, s.ring.Pc(0).pos)
  {
    var t := s.(ring := Apply(s.ring, StepPush(0, spurious)));
    StoreAscends(minis, s.received + Pending(s.pc, s.ring.pop), InSlot(s.ring), s.ring.Pc(0).value);
    assert InSlot(t.ring) == [s.ring.Pc(0).value];
  }

  /** What an operation of Push does to the one slot and to the producer's place. */
  lemma PushFrame(r: State<Result>, spurious: bool)
    requires r.Capacity() == 1 && Enabled(r, StepPush(0, spurious))
    ensures var t := Apply(r, StepPush(0, spurious));
            && t.Capacity() == 1 && t.delivered == r.delivered && t.pop == r.pop
            && !t.Pc(0).PushIdle? && t.Pc(0).value == r.Pc(0).value
            && (!r.Pc(0).PushWrite? ==> t.slots[0].value == r.slots[0].value && !t.Pc(0).PushPublish?)
            && (r.Pc(0).PushPublish? ==> t.Pc(0).PushReturn?)
  {
  }

  lemma PushOne(codec: Codec, minis: seq<seq<Byte>>, s: System, w: nat, spurious: bool)
    requires |minis| > 0 && OneInv(codec, minis, s) && CanMove(minis, s, PushMove(w, spurious))
    ensures OneInv(codec, minis, s.(ring := Apply(s.ring, StepPush(w, spurious))))
  {
    hide OneCollectorFits, FileFits, TicketsFit, Ascends, OnTrack, Apply, Seen;
    var t := s.(ring := Apply(s.ring, StepPush(w, spurious)));
    PushFrame(s.ring, spurious);
    if s.ring.Pc(0).PushWrite? {
      WriteSlot(minis, s, spurious);
    } else {
      assert Line(t) == Line(s);
      var bound := |s.tickets| - if Unstored(s.workers[0], s.ring.Pc(0)) then 1 else 0;
      AscendsBelow(minis, Line(s), bound, |t.tickets| - if Unstored(t.workers[0], t.ring.Pc(0)) then 1 else 0);
    }
  }

  lemma QuietAction(r: State<Result>, a: Action<Result>)
    requires Enabled(r, a) && (a.CallPush? || a.ReturnPush? || a.Close?)
    ensures var t := Apply(r, a); t.slots == r.slots && t.delivered == r.delivered && t.pop == r.pop
    ensures Apply(r, a).Pc(0) ==
            if a.CallPush? && a.id == 0 then PushLoadClosed(a.value)
            else if a.ReturnPush? && a.id == 0 then PushIdle
            else r.Pc(0)
  {
  }

  /** A worker's own steps touch no slot. */
  lemma WorkerFrame(minis: seq<seq<Byte>>, s: System, encoded: EncodeOutcome)
    requires s.ring.Capacity() == 1 && CanMove(minis, s, WorkerMove(0, encoded)) && 0 in s.workers
    ensures var t := WorkerStep(minis, s, 0, encoded);
            && t.ring.Capacity() == 1 && OnlyPlace(s, t)
  {
    hide Apply;
    var pc := s.workers[0];
    if pc.Pushing? {
      QuietAction(s.ring, ReturnPush(0));
    } else if pc.Encoding? && encoded.Succeeds? {
      QuietAction(s.ring, CallPush(0, Result.Encoded(pc.part, minis[pc.part - 1])));
    } else if pc.SetStop? {
      QuietAction(s.ring, CallPush(0, Failed(pc.part)));
    } else if pc.CloseQueue? {
      QuietAction(s.ring, Close);
    }
  }

  /** The worker's place and the bound on the line, after one of its own steps. */
  ghost predicate PlaceFits(minis: seq<seq<Byte>>, s: System, t: System)
    requires 0 in s.workers
  {
    && 0 in t.workers && TicketsFit(|minis|, t.next, t.tickets)
    && OneWorkerFits(minis, |t.tickets|, t.workers[0], t.ring.Pc(0))
    && (if Unstored(t.workers[0], t.ring.Pc(0)) then
          || (|t.tickets| == |s.tickets| && Unstored(s.workers[0], s.ring.Pc(0)))
          || (|t.tickets| == |s.tickets| + 1 && !Unstored(s.workers[0], s.ring.Pc(0)))
        else |t.tickets| == |s.tickets|)
  }

  lemma PushingFits(minis: seq<seq<Byte>>, s: System, encoded: EncodeOutcome)
    requires CanMove(minis, s, WorkerMove(0, encoded)) && 0 in s.workers && TicketsFit(|minis|, s.next, s.tickets)
    requires s.workers[0].Pushing?
    ensures PlaceFits(minis, s, WorkerStep(minis, s, 0, encoded))
  {
    hide Apply, TicketsFit, Genuine;
    QuietAction(s.ring, ReturnPush(0));
  }

  lemma EncodingFits(minis: seq<seq<Byte>>, s: System, encoded: EncodeOutcome)
    requires CanMove(minis, s, WorkerMove(0, encoded)) && 0 in s.workers && TicketsFit(|minis|, s.next, s.tickets)
    requires OneWorkerFits(minis, |s.tickets|, s.workers[0], s.ring.Pc(0))
    requires s.workers[0].Encoding? || s.workers[0].SetStop?
    ensures PlaceFits(minis, s, WorkerStep(minis, s, 0, encoded))
  {
    hide Apply;
    var part := s.workers[0].part;
    if s.workers[0].SetStop? {
      QuietAction(s.ring, CallPush(0, Failed(part)));
    } else if encoded.Succeeds? {
      QuietAction(s.ring, CallPush(0, Result.Encoded(part, minis[part - 1])));
    }
  }

  lemma WorkerOneFits(minis: seq<seq<Byte>>, s: System, encoded: EncodeOutcome)
    requires CanMove(minis, s, WorkerMove(0, encoded)) && 0 in s.workers && TicketsFit(|minis|, s.next, s.tickets)
    requires OneWorkerFits(minis, |s.tickets|, s.workers[0], s.ring.Pc(0))
    ensures PlaceFits(minis, s, WorkerStep(minis, s, 0, encoded))
  {
    hide Apply, Genuine;
    var pc := s.workers[0];
    if pc.Pushing? {
      PushingFits(minis, s, encoded);
    } else if pc.Encoding? || pc.SetStop? {
      EncodingFits(minis, s, encoded);
    } else if pc.CloseQueue? {
      QuietAction(s.ring, Close);
    }
  }

  lemma WorkerOne(codec: Codec, minis: seq<seq<Byte>>, s: System, w: nat, encoded: EncodeOutcome)
    requires |minis| > 0 && OneInv(codec, minis, s) && CanMove(minis, s, WorkerMove(w, encoded))
    ensures OneInv(codec, minis, WorkerStep(minis, s, w, encoded))
  {
    hide OneCollectorFits, FileFits, TicketsFit, Ascends, OnTrack, Seen, WorkerStep, Genuine, OneWorkerFits, Unstored;
    var t := WorkerStep(minis, s, w, encoded);
    WorkerFrame(minis, s, encoded);
    WorkerOneFits(minis, s, encoded);
    assert Line(t) == Line(s);
    var bound := |s.tickets| - if Unstored(s.workers[0], s.ring.Pc(0)) then 1 else 0;
    AscendsBelow(minis, Line(s), bound, |t.tickets| - if Unstored(t.workers[0], t.ring.Pc(0)) then 1 else 0);
  }

  // ---------------------------------------------------------------- the consumer's side of the slot

  lemma SeenAppended(results: seq<Result>, more: seq<Result>, part: nat)
    requires Seen(results, part)
    ensures Seen(results + more, part)
  {
    var i :| 0 <= i < |results| && results[i].part == part;
    assert (results + more)[i].part == part;
  }

  /** Taking moves the value from the slot into the consumer's hands; the line is the same. */
  lemma PopLine(s: System)
    requires s.ring.Capacity() == 1 && s.pc.Popping? && Enabled(s.ring, StepPop)
    ensures var t := s.(ring := Apply(s.ring, StepPop));
            && t.ring.Capacity() == 1 && Line(t) == Line(s) && t.ring.pushes == s.ring.pushes
            && (if s.ring.pop.PopTake? then
                  t.ring.delivered == s.ring.delivered + [s.ring.slots[0].value] &&
                  Pending(t.pc, t.ring.pop) == InSlot(s.ring) && Pending(s.pc, s.ring.pop) == []
                else t.ring.delivered == s.ring.delivered && Pending(t.pc, t.ring.pop) == Pending(s.pc, s.ring.pop))
  {
    hide Index;
    var t := s.(ring := Apply(s.ring, StepPop));
    if s.ring.pop.PopTake? {
      assert Pending(t.pc, t.ring.pop) == InSlot(s.ring) && InSlot(t.ring) == [];
      assert s.received + [] + InSlot(s.ring) == s.received + InSlot(s.ring) + [];
    } else {
      assert InSlot(t.ring) == InSlot(s.ring);
    }
  }

  lemma PopSeen(s: System)
    requires s.ring.Capacity() == 1 && s.pc.Popping? && Enabled(s.ring, StepPop) && TakenSeen(s)
    ensures TakenSeen(s.(ring := Apply(s.ring, StepPop)))
  {
    hide Apply, Seen;
    PopLine(s);
    var t := s.(ring := Apply(s.ring, StepPop));
    if s.ring.pop.PopTake? {
      var taken := InSlot(s.ring);
      assert s.received + [] == s.received;
      forall i | 0 <= i < |t.ring.delivered| && t.ring.delivered[i].Some?
        ensures Seen(t.received + taken, t.ring.delivered[i].value.part)
      {
        if i < |s.ring.delivered| {
          SeenAppended(s.received, taken, s.ring.delivered[i].value.part);
        } else {
          LastIsSeen(s.received, taken[0]);
          assert taken == [taken[0]];
        }
      }
    }
  }

  lemma LastIsSeen(results: seq<Result>, result: Result)
    ensures Seen(results + [result], result.part)
  {
    assert (results + [result])[|results|] == result;
  }

  lemma PopOne(codec: Codec, minis: seq<seq<Byte>>, s: System)
    requires |minis| > 0 && OneInv(codec, minis, s) && CanMove(minis, s, PopMove)
    ensures OneInv(codec, minis, s.(ring := Apply(s.ring, StepPop)))
  {
    hide OneCollectorFits, FileFits, TicketsFit, Ascends, OnTrack, Seen, Apply, TakenSeen, OneWorkerFits, Unstored;
    PopLine(s);
    PopSeen(s);
  }

  lemma HandIsGenuine(minis: seq<seq<Byte>>, s: System, bound: int)
    requires Ascends(minis, Line(s), bound)
    ensures forall i | 0 <= i < |Pending(s.pc, s.ring.pop)| :: Genuine(minis, Pending(s.pc, s.ring.pop)[i])
  {
    var pending := Pending(s.pc, s.ring.pop);
    forall i | 0 <= i < |pending|
      ensures Genuine(minis, pending[i])
    {
      assert Line(s)[|s.received| + i] == pending[i];
    }
  }

  lemma PoppingOne(
      codec: Codec, oracle: WriteOracle, minis: seq<seq<Byte>>, s: System, closes: bool, stale: nat)
    requires |minis| > 0 && OneInv(codec, minis, s) && ShortFooters(codec)
    requires CanMove(minis, s, ConsumerMove(closes, stale)) && s.pc.Popping?
    ensures OneInv(codec, minis, ConsumerStep(codec, oracle, minis, s, closes, stale))
  {
    hide OneCollectorFits, MergedMeta, AllReadable, TicketsFit, OnTrack, Seen, OneWorkerFits, Unstored, ShortFooters;
    var t := ConsumerStep(codec, oracle, minis, s, closes, stale);
    if s.ring.pop.PopGot? && s.ring.pop.value.Some? {
      assert Pending(s.pc, s.ring.pop)[0] == s.ring.pop.value.value;
    }
    HandIsGenuine(minis, s, |s.tickets| - if Unstored(s.workers[0], s.ring.Pc(0)) then 1 else 0);
    PoppedLine(codec, oracle, minis, s, closes, stale);
    assert Line(t) == Line(s);
    assert s.received + [] == s.received;
  }

  /** Returning from Pop passes what is in hand to the consumer; a moved-from result repeats a part already seen. */
  lemma PoppedLine(
      codec: Codec, oracle: WriteOracle, minis: seq<seq<Byte>>, s: System, closes: bool, stale: nat)
    requires CanMove(minis, s, ConsumerMove(closes, stale)) && s.pc.Popping? && ShortFooters(codec) && TakenSeen(s)
    requires s.ring.pop.PopGot? && s.ring.pop.value.Some? ==> !s.ring.pop.value.value.MovedFrom?
    ensures var t := ConsumerStep(codec, oracle, minis, s, closes, stale);
            && t.ring.slots == s.ring.slots && Pending(t.pc, t.ring.pop) == Pending(s.pc, s.ring.pop)
            && TakenSeen(t)
  {
    hide Seen, ShortFooters;
    var t := ConsumerStep(codec, oracle, minis, s, closes, stale);
    assert Pending(t.pc, t.ring.pop) == Pending(s.pc, s.ring.pop);
    assert s.received + [] == s.received;
  }

  // ---------------------------------------------------------------- the collector

  lemma NoDrain(codec: Codec, oracle: WriteOracle, c: Collector)
    requires PendingWellFormed(c.pending) && (c.merge.failed || c.expected !in c.pending)
    ensures DrainPending(codec, oracle, c) == c
  {
  }

  /** The part that is due is merged, and the one after it is not there yet. */
  lemma ReceiveDue(
      codec: Codec, oracle: WriteOracle, minis: seq<seq<Byte>>, c: Collector, received: seq<Result>, result: Result)
    requires MinisWellFormed(minis) && PendingWellFormed(c.pending) && c.partCount == |minis| && !c.merge.failed
    requires OnTrack(codec, minis, c, received) && Genuine(minis, result) && result.part == |received| + 1
    ensures OneCollectorFits(codec, minis, Receive(codec, oracle, c, result), received + [result])
  {
    hide MergeFits, AfterResult, WellFormed;
    var stored := c.(pending := c.pending[result.part := result]);
    var taken := TakeExpected(codec, oracle, stored);
    assert WellFormed(minis[|received|]);
    TakeMerge(codec, oracle, minis, |received|, c.merge, result);
    NoDrain(codec, oracle, taken);
    assert Receive(codec, oracle, c, result) == taken;
  }

  /** Any other part, or a moved-from result, is only stored. */
  lemma ReceiveOther(codec: Codec, oracle: WriteOracle, c: Collector, result: Result)
    requires PendingWellFormed(c.pending) && ResultWellFormed(result)
    requires c.merge.failed || (c.expected !in c.pending && result.part != c.expected)
    ensures Receive(codec, oracle, c, result) == c.(pending := c.pending[result.part := result])
  {
    hide Process, WellFormed;
    NoDrain(codec, oracle, c.(pending := c.pending[result.part := result]));
  }

  lemma ReceiveReal(
      codec: Codec, oracle: WriteOracle, minis: seq<seq<Byte>>, c: Collector, received: seq<Result>, result: Result)
    requires MinisWellFormed(minis) && OneCollectorFits(codec, minis, c, received)
    requires Genuine(minis, result) && result.part > LastPart(received)
    ensures ResultWellFormed(result)
    ensures OneCollectorFits(codec, minis, Receive(codec, oracle, c, result), received + [result])
  {
    hide MergeFits, Process, WellFormed, DrainPending;
    var more := received + [result];
    assert LastPart(more) == result.part;
    if c.merge.failed {
      ReceiveOther(codec, oracle, c, result);
    } else if OnTrack(codec, minis, c, received) {
      assert LastPart(received) == |received|;
      if result.part == |received| + 1 {
        ReceiveDue(codec, oracle, minis, c, received, result);
      } else {
        ReceiveOther(codec, oracle, c, result);
        assert !Seen(more, c.expected);
      }
    } else {
      ReceiveOther(codec, oracle, c, result);
      SeenMore(received, result, c.expected);
    }
  }

  lemma ReceiveMoved(
      codec: Codec, oracle: WriteOracle, minis: seq<seq<Byte>>, c: Collector, received: seq<Result>, result: Result)
    requires OneCollectorFits(codec, minis, c, received)
    requires result.MovedFrom? && (result.part == 0 || Seen(received, result.part))
    ensures OneCollectorFits(codec, minis, Receive(codec, oracle, c, result), received)
  {
    hide MergeFits, Process, WellFormed, DrainPending;
    ReceiveOther(codec, oracle, c, result);
  }

  // ---------------------------------------------------------------- the consumer

  /** The result in the consumer's hands is of a later part than all received ones. */
  lemma HandledIsLater(minis: seq<seq<Byte>>, s: System, bound: int)
    requires Ascends(minis, Line(s), bound) && s.pc.Handling? && !s.pc.result.MovedFrom?
    ensures Genuine(minis, s.pc.result) && s.pc.result.part > LastPart(s.received)
  {
    assert Line(s)[|s.received|] == s.pc.result;
    if s.received != [] {
      assert Line(s)[|s.received| - 1] == s.received[|s.received| - 1];
    }
  }

  lemma LastIsBounded(minis: seq<seq<Byte>>, s: System, bound: int)
    requires Ascends(minis, Line(s), bound)
    ensures s.received != [] ==> LastPart(s.received) <= bound
  {
    if s.received != [] {
      assert Line(s)[|s.received| - 1] == s.received[|s.received| - 1];
    }
  }

  lemma HandlingOne(
      codec: Codec, oracle: WriteOracle, minis: seq<seq<Byte>>, s: System, closes: bool, stale: nat)
    requires |minis| > 0 && OneInv(codec, minis, s) && ShortFooters(codec) && MinisWellFormed(minis)
    requires CanMove(minis, s, ConsumerMove(closes, stale)) && s.pc.Handling?
    ensures OneInv(codec, minis, ConsumerStep(codec, oracle, minis, s, closes, stale))
  {
    hide OneCollectorFits, MergedMeta, AllReadable, TicketsFit, OnTrack, OneWorkerFits, Unstored, ShortFooters;
    hide Receive, MinisWellFormed, Ascends, Seen;
    var t := ConsumerStep(codec, oracle, minis, s, closes, stale);
    assert s.received + [] == s.received && t.received + [] == t.received;
    assert Line(t) == Line(s);
    if s.pc.result.MovedFrom? {
      ReceiveMoved(codec, oracle, minis, s.collector, s.received, s.pc.result);
    } else {
      HandledIsLater(minis, s, |s.tickets| - if Unstored(s.workers[0], s.ring.Pc(0)) then 1 else 0);
      ReceiveReal(codec, oracle, minis, s.collector, s.received, s.pc.result);
    }
  }

  lemma LateOne(
      codec: Codec, oracle: WriteOracle, minis: seq<seq<Byte>>, s: System, closes: bool, stale: nat)
    requires |minis| > 0 && OneInv(codec, minis, s) && ShortFooters(codec)
    requires CanMove(minis, s, ConsumerMove(closes, stale)) && !s.pc.Popping? && !s.pc.Handling?
    ensures OneInv(codec, minis, ConsumerStep(codec, oracle, minis, s, closes, stale))
  {
    hide MergedMeta, AllReadable, OneWorkerFits, Unstored, ShortFooters, MergeFits, Seen, Finish, Ascends;
    var t := ConsumerStep(codec, oracle, minis, s, closes, stale);
    assert Line(t) == Line(s);
    LastIsBounded(minis, s, |s.tickets| - if Unstored(s.workers[0], s.ring.Pc(0)) then 1 else 0);
    if s.pc.Joining? && !s.collector.merge.failed && s.collector.expected == |minis| + 1 {
      FinishFits(codec, oracle, minis, s.collector);
    }
  }

  lemma MoveOne(codec: Codec, oracle: WriteOracle, minis: seq<seq<Byte>>, s: System, move: Move)
    requires |minis| > 0 && MinisWellFormed(minis) && ShortFooters(codec)
    requires OneInv(codec, minis, s) && CanMove(minis, s, move)
    ensures OneInv(codec, minis, Perform(codec, oracle, minis, s, move))
  {
    hide OneInv, WorkerStep, ConsumerStep, ShortFooters, MinisWellFormed, Apply;
    match move
    case PushMove(w, spurious) => PushOne(codec, minis, s, w, spurious);
    case WorkerMove(w, encoded) => WorkerOne(codec, minis, s, w, encoded);
    case PopMove => PopOne(codec, minis, s);
    case ConsumerMove(closes, stale) =>
      if s.pc.Popping? {
        PoppingOne(codec, oracle, minis, s, closes, stale);
      } else if s.pc.Handling? {
        HandlingOne(codec, oracle, minis, s, closes, stale);
      } else {
        LateOne(codec, oracle, minis, s, closes, stale);
      }
  }

  lemma {:induction false} ExecutionOne(
      codec: Codec, oracle: WriteOracle, minis: seq<seq<Byte>>, configured: nat, run: seq<System>)
    requires |minis| > 0 && MinisWellFormed(minis) && ShortFooters(codec)
    requires PartitionFiles.ResolveWorkerCount(configured, |minis|) == 1
    requires IsExecution(codec, oracle, minis, configured, run)
    ensures OneInv(codec, minis, run[|run| - 1])
    decreases |run|
  {
    hide OneInv, ShortFooters, MinisWellFormed, Perform, CanMove;
    if |run| == 1 {
      LaunchOne(codec, oracle, minis, configured);
    } else {
      EarlierExecution(codec, oracle, minis, configured, run);
      ExecutionOne(codec, oracle, minis, configured, run[..|run| - 1]);
      var s, t := run[|run| - 2], run[|run| - 1];
      assert NextSystem(codec, oracle, minis, s, t);
      var move :| CanMove(minis, s, move) && t == Perform(codec, oracle, minis, s, move);
      MoveOne(codec, oracle, minis, s, move);
    }
  }
}
