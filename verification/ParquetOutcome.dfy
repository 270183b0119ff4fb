/** What return code 0 of RunParallelEncodeParquetOrdered means, for every number of workers. */
module ParquetOutcome {
  import opened Wrappers
  import opened Ring
  import opened RingProperties
  import opened ParquetMerge
  import opened ParquetConsumer
  import opened ParquetWorkers
  import opened ParquetOneWorker
  import PartitionFiles

  /** One worker or more: the two invariants cover every execution. */
  lemma EitherInv(codec: Codec, oracle: WriteOracle, minis: seq<seq<Byte>>, configured: nat, run: seq<System>)
    requires |minis| > 0 && MinisWellFormed(minis) && ShortFooters(codec)
    requires IsExecution(codec, oracle, minis, configured, run)
    ensures if PartitionFiles.ResolveWorkerCount(configured, |minis|) >= 2 then SystemInv(codec, minis, run[|run| - 1])
            else OneInv(codec, minis, run[|run| - 1])
  {
    hide SystemInv, OneInv, IsExecution, ShortFooters;
    if PartitionFiles.ResolveWorkerCount(configured, |minis|) >= 2 {
      ExecutionInv(codec, oracle, minis, configured, run);
    } else {
      ExecutionOne(codec, oracle, minis, configured, run);
    }
  }

  /**
   Every interleaving of any number of workers that returns 0 leaves at the final path exactly the merge of the
   parts' files in part order, whatever order their results arrived in.
   */
  lemma ReturnsZeroOnlyIfMerged(
      codec: Codec, oracle: WriteOracle, minis: seq<seq<Byte>>, configured: nat, run: seq<System>)
    requires |minis| > 0 && MinisWellFormed(minis) && ShortFooters(codec)
    requires IsExecution(codec, oracle, minis, configured, run) && run[|run| - 1].pc == Returned(0)
    ensures AllReadable(codec, minis)
    ensures Writable(codec, MergedMeta(codec, minis)) ==>
              run[|run| - 1].file == Some(MergedFile(codec, minis))
  {
    hide Inv, CollectorFits, OneCollectorFits, Ascends, OnTrack, WorkersFit, OneWorkerFits, MergedMeta, IsExecution;
    EitherInv(codec, oracle, minis, configured, run);
  }

  /** Then each part was handed to exactly one worker, and its file was received exactly once. */
  lemma ReturnsZeroOnlyIfEachPartOnce(
      codec: Codec, oracle: WriteOracle, minis: seq<seq<Byte>>, configured: nat, run: seq<System>)
    requires |minis| > 0 && MinisWellFormed(minis) && ShortFooters(codec)
    requires IsExecution(codec, oracle, minis, configured, run) && run[|run| - 1].pc == Returned(0)
    ensures var s := run[|run| - 1];
            && |s.tickets| == |minis| && (forall i | 0 <= i < |minis| :: s.tickets[i].part == i + 1)
            && (forall p: nat | 1 <= p <= |minis| :: Seen(s.received, p))
            && (forall i, j | 0 <= i < j < |s.received| :: s.received[i].part != s.received[j].part)
            && (forall i | 0 <= i < |s.received| ::
                  Genuine(minis, s.received[i]) && s.received[i].part <= |minis|)
  {
    hide Inv, CollectorFits, OneCollectorFits, WorkersFit, OneWorkerFits, MergedMeta, AllReadable, MergedData, Genuine;
    hide MinisWellFormed, ShortFooters, NextSystem, MergeFits;
    EitherInv(codec, oracle, minis, configured, run);
    var s := run[|run| - 1];
    if PartitionFiles.ResolveWorkerCount(configured, |minis|) >= 2 {
      EachPartOnce(minis, s.next, s.tickets, s.received, |s.ring.delivered|, Values(s.ring.accepted));
    } else {
      InOrder(minis, s);
    }
  }

  /** One worker: the parts were received in order. */
  lemma InOrder(minis: seq<seq<Byte>>, s: System)
    requires |minis| > 0 && TicketsFit(|minis|, s.next, s.tickets)
    requires Ascends(minis, Line(s), |s.tickets|) || Ascends(minis, Line(s), |s.tickets| - 1)
    requires |s.received| == |minis| && forall i | 0 <= i < |s.received| :: s.received[i].part == i + 1
    ensures |s.tickets| == |minis|
    ensures forall p: nat | 1 <= p <= |minis| :: Seen(s.received, p)
    ensures forall i | 0 <= i < |s.received| :: Genuine(minis, s.received[i])
  {
    assert forall i | 0 <= i < |s.received| :: Line(s)[i] == s.received[i];
    assert Line(s)[|minis| - 1].part == |minis|;
    forall p: nat | 1 <= p <= |minis|
      ensures Seen(s.received, p)
    {
      assert s.received[p - 1].part == p;
    }
  }

  /** No state reachable reads outside a buffer or finishes without a schema; from two slots up, Pop is always real. */
  lemma GuardsHold(codec: Codec, oracle: WriteOracle, minis: seq<seq<Byte>>, configured: nat, run: seq<System>)
    requires |minis| > 0 && MinisWellFormed(minis) && ShortFooters(codec)
    requires IsExecution(codec, oracle, minis, configured, run)
    ensures var s := run[|run| - 1];
            && PendingWellFormed(s.collector.pending)
            && (s.pc.Handling? ==> ResultWellFormed(s.pc.result))
            && (!s.collector.merge.failed && s.collector.expected == |minis| + 1 ==> s.collector.merge.header.Some?)
            && (s.ring.Capacity() >= 2 && s.ring.pop.PopGot? ==> s.ring.pop.value.Some?)
  {
    hide NextSystem, ShortFooters, WellFormed;
    EitherInv(codec, oracle, minis, configured, run);
    var s := run[|run| - 1];
    if PartitionFiles.ResolveWorkerCount(configured, |minis|) >= 2 {
      ManyGuards(codec, minis, s);
    } else {
      OneGuards(codec, minis, s);
    }
  }

  lemma ManyGuards(codec: Codec, minis: seq<seq<Byte>>, s: System)
    requires |minis| > 0 && MinisWellFormed(minis) && SystemInv(codec, minis, s)
    ensures PendingWellFormed(s.collector.pending) && (s.pc.Handling? ==> ResultWellFormed(s.pc.result))
    ensures s.ring.pop.PopGot? ==> s.ring.pop.value.Some?
    ensures !s.collector.merge.failed && s.collector.expected == |minis| + 1 ==> s.collector.merge.header.Some?
  {
    hide WellFormed, MergedMeta, WorkersFit;
    GenuineIsWellFormed(codec, minis, s.collector);
    if s.pc.Handling? {
      HandledIsNew(minis, s);
    }
  }

  lemma OneGuards(codec: Codec, minis: seq<seq<Byte>>, s: System)
    requires |minis| > 0 && MinisWellFormed(minis) && OneInv(codec, minis, s)
    ensures PendingWellFormed(s.collector.pending) && (s.pc.Handling? ==> ResultWellFormed(s.pc.result))
    ensures !s.collector.merge.failed && s.collector.expected == |minis| + 1 ==> s.collector.merge.header.Some?
  {
    hide WellFormed, MergedMeta, OneWorkerFits, Unstored, MergedData, MergedGroups, Seen;
    var bound := |s.tickets| - if Unstored(s.workers[0], s.ring.Pc(0)) then 1 else 0;
    LastIsBounded(minis, s, bound);
    if s.pc.Handling? && !s.pc.result.MovedFrom? {
      HandledIsLater(minis, s, bound);
    }
  }
}
