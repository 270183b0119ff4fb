/** The consumer of RunParallelEncodeParquetOrdered: results arrive in any order, files are merged in part order. */
module ParquetConsumer {
  import opened ParquetMerge

  /** InMemoryPartitionData; one that was moved from keeps its part number and has neither file nor error. */
  datatype Result = Encoded(part: nat, file: seq<Byte>) | Failed(part: nat) | MovedFrom(part: nat)

  predicate ResultWellFormed(result: Result) {
    result.Encoded? ==> WellFormed(result.file)
  }

  datatype Collector = Collector(partCount: nat, merge: Merge, pending: map<nat, Result>, expected: nat)

  ghost predicate PendingWellFormed(pending: map<nat, Result>) {
    forall p | p in pending :: ResultWellFormed(pending[p])
  }

  /** A part's file is merged; a failed part is the error that ends the run; a moved-from result is passed over. */
  function AfterResult(codec: Codec, oracle: WriteOracle, m: Merge, result: Result): Merge
    requires ResultWellFormed(result)
  {
    match result
    case Encoded(_, file) => Process(codec, oracle, m, file)
    case Failed(_) => m.(failed := true)
    case MovedFrom(_) => m
  }

  /** The expected part taken out of pending. */
  function TakeExpected(codec: Codec, oracle: WriteOracle, c: Collector): Collector
    requires c.expected in c.pending && PendingWellFormed(c.pending)
  {
    var merge := AfterResult(codec, oracle, c.merge, c.pending[c.expected]);
    Collector(c.partCount, merge, c.pending - {c.expected}, c.expected + 1)
  }

  function DrainPending(codec: Codec, oracle: WriteOracle, c: Collector): Collector
    requires PendingWellFormed(c.pending)
    decreases c.partCount + 1 - c.expected
  {
    if c.expected > c.partCount || c.merge.failed || c.expected !in c.pending then c
    else DrainPending(codec, oracle, TakeExpected(codec, oracle, c))
  }

  function Receive(codec: Codec, oracle: WriteOracle, c: Collector, result: Result): Collector
    requires PendingWellFormed(c.pending) && ResultWellFormed(result)
  {
    DrainPending(codec, oracle, c.(pending := c.pending[result.part := result]))
  }

  class ResultConsumer {
    const partCount: nat
    const merger: Merger
    var pending: map<nat, Result>
    var expectedPart: nat

    constructor (partCount: nat, codec: Codec, oracle: WriteOracle)
      ensures this.partCount == partCount && merger.codec == codec && merger.oracle == oracle && fresh(merger)
      ensures Value() == Collector(partCount, StartMerge(oracle), map[], 1)
    {
      this.partCount := partCount;
      merger := new Merger(codec, oracle);
      pending, expectedPart := map[], 1;
    }

    ghost function Value(): Collector
      reads this, merger
    {
      Collector(partCount, merger.Value(), pending, expectedPart)
    }

    /** One turn of the consumer loop. */
    method Collect(result: Result)
      requires PendingWellFormed(pending) && ResultWellFormed(result)
      modifies this, merger
      ensures Value() == Receive(merger.codec, merger.oracle, old(Value()), result)
      ensures PendingWellFormed(pending)
    {
      pending := pending[result.part := result];
      ghost var start := Value();
      while expectedPart <= partCount && !merger.pipelineError
        invariant PendingWellFormed(pending)
        invariant DrainPending(merger.codec, merger.oracle, Value()) == DrainPending(merger.codec, merger.oracle, start)
        decreases partCount + 1 - expectedPart
      {
        if expectedPart !in pending {
          break;
        }
        var it := pending[expectedPart];
        if it.Failed? {
          merger.pipelineError := true;
        } else if it.Encoded? {
          merger.ProcessBuffer(it.file);
        }
        pending := pending - {expectedPart};
        expectedPart := expectedPart + 1;
      }
    }
  }

  // ---------------------------------------------------------------- invariant

  /** A result that a worker may send for its part: that part's file, or a failure. */
  predicate Genuine(minis: seq<seq<Byte>>, result: Result) {
    1 <= result.part <= |minis| && !result.MovedFrom? && (result.Encoded? ==> result.file == minis[result.part - 1])
  }

  /** Parts before the expected one are merged in order; pending holds genuine results of later parts only. */
  ghost predicate CollectorFits(codec: Codec, minis: seq<seq<Byte>>, c: Collector) {
    && c.partCount == |minis| && 1 <= c.expected <= |minis| + 1
    && (forall p | p in c.pending :: c.expected <= p && c.pending[p].part == p && Genuine(minis, c.pending[p]))
    && MergeFits(codec, minis, c.expected - 1, c.merge)
  }

  /** Unless it failed, the merge is that of the first n files. */
  ghost predicate MergeFits(codec: Codec, minis: seq<seq<Byte>>, n: nat, m: Merge)
    requires n <= |minis|
  {
    m.failed || (AllReadable(codec, minis[..n]) && Merged(codec, minis[..n], n, m))
  }

  ghost predicate MinisWellFormed(minis: seq<seq<Byte>>) {
    forall i | 0 <= i < |minis| :: WellFormed(minis[i])
  }

  lemma GenuineIsWellFormed(codec: Codec, minis: seq<seq<Byte>>, c: Collector)
    requires MinisWellFormed(minis) && CollectorFits(codec, minis, c)
    ensures PendingWellFormed(c.pending)
  {
  }

  lemma {:induction false} PrefixMerge(codec: Codec, files: seq<seq<Byte>>, more: seq<seq<Byte>>, n: nat)
    requires n <= |files| <= |more| && AllReadable(codec, more) && files == more[..|files|]
    ensures AllReadable(codec, files)
    ensures Delta(codec, files, n) == Delta(codec, more, n)
    ensures MergedData(codec, files, n) == MergedData(codec, more, n)
    ensures MergedGroups(codec, files, n) == MergedGroups(codec, more, n)
  {
    if n > 0 {
      PrefixMerge(codec, files, more, n - 1);
      assert files[n - 1] == more[n - 1];
    }
  }

  lemma MergedForMore(codec: Codec, files: seq<seq<Byte>>, more: seq<seq<Byte>>, m: Merge)
    requires |files| <= |more| && AllReadable(codec, more) && files == more[..|files|]
    requires AllReadable(codec, files) && Merged(codec, files, |files|, m)
    ensures Merged(codec, more, |files|, m)
  {
    PrefixMerge(codec, files, more, |files|);
    if |files| > 0 {
      assert files[0] == more[0];
    }
  }

  lemma ReadableMore(codec: Codec, minis: seq<seq<Byte>>, n: nat)
    requires n < |minis| && AllReadable(codec, minis[..n]) && Readable(codec, minis[n])
    ensures AllReadable(codec, minis[..n + 1])
  {
    var files, more := minis[..n], minis[..n + 1];
    forall i | 0 <= i < |more|
      ensures Readable(codec, more[i])
    {
      if i < n {
        assert Readable(codec, files[i]) && more[i] == files[i];
      }
    }
  }

  /** Processing the next file without failure extends the merge by that file. */
  lemma NextFileMerges(codec: Codec, oracle: WriteOracle, minis: seq<seq<Byte>>, n: nat, m: Merge)
    requires n < |minis| && WellFormed(minis[n]) && AllReadable(codec, minis[..n])
    requires Merged(codec, minis[..n], n, m)
    requires !m.failed && !Process(codec, oracle, m, minis[n]).failed
    ensures AllReadable(codec, minis[..n + 1])
    ensures Merged(codec, minis[..n + 1], n + 1, Process(codec, oracle, m, minis[n]))
  {
    ReadableMore(codec, minis, n);
    assert minis[..n] == minis[..n + 1][..n];
    assert minis[n] == minis[..n + 1][n];
    MergedForMore(codec, minis[..n], minis[..n + 1], m);
    ProcessMerges(codec, oracle, minis[..n + 1], n, m);
  }

  lemma NextFits(codec: Codec, oracle: WriteOracle, minis: seq<seq<Byte>>, n: nat, m: Merge)
    requires n < |minis| && WellFormed(minis[n]) && MergeFits(codec, minis, n, m) && !m.failed
    ensures MergeFits(codec, minis, n + 1, Process(codec, oracle, m, minis[n]))
  {
    if !Process(codec, oracle, m, minis[n]).failed {
      NextFileMerges(codec, oracle, minis, n, m);
    }
  }

  lemma TakeMerge(codec: Codec, oracle: WriteOracle, minis: seq<seq<Byte>>, n: nat, m: Merge, result: Result)
    requires n < |minis| && WellFormed(minis[n]) && MergeFits(codec, minis, n, m) && !m.failed
    requires !result.MovedFrom? && (result.Encoded? ==> result.file == minis[n])
    ensures MergeFits(codec, minis, n + 1, AfterResult(codec, oracle, m, result))
  {
    if result.Encoded? {
      NextFits(codec, oracle, minis, n, m);
    }
  }

  lemma {:induction false} TakeKeeps(codec: Codec, oracle: WriteOracle, minis: seq<seq<Byte>>, c: Collector)
    requires MinisWellFormed(minis) && CollectorFits(codec, minis, c)
    requires c.expected in c.pending && PendingWellFormed(c.pending) && !c.merge.failed && c.expected <= |minis|
    ensures CollectorFits(codec, minis, TakeExpected(codec, oracle, c))
  {
    hide MergeFits, AfterResult;
    var n, result := c.expected - 1, c.pending[c.expected];
    assert Genuine(minis, result) && WellFormed(minis[n]);
    TakeMerge(codec, oracle, minis, n, c.merge, result);
  }

  lemma {:induction false} DrainKeeps(codec: Codec, oracle: WriteOracle, minis: seq<seq<Byte>>, c: Collector)
    requires MinisWellFormed(minis) && CollectorFits(codec, minis, c) && PendingWellFormed(c.pending)
    ensures CollectorFits(codec, minis, DrainPending(codec, oracle, c))
    ensures var d := DrainPending(codec, oracle, c);
            && d.expected >= c.expected
            && (forall p | p in d.pending :: p in c.pending)
            && (forall p | c.expected <= p < d.expected :: p in c.pending)
            && (!d.merge.failed && d.expected <= d.partCount ==> d.expected !in d.pending)
    decreases c.partCount + 1 - c.expected
  {
    hide MergeFits, AfterResult;
    if c.expected <= c.partCount && !c.merge.failed && c.expected in c.pending {
      TakeKeeps(codec, oracle, minis, c);
      DrainKeeps(codec, oracle, minis, TakeExpected(codec, oracle, c));
    }
  }

  /** A new genuine result of a part that is not merged yet keeps the invariant. */
  lemma ReceiveKeeps(codec: Codec, oracle: WriteOracle, minis: seq<seq<Byte>>, c: Collector, result: Result)
    requires MinisWellFormed(minis) && CollectorFits(codec, minis, c)
    requires Genuine(minis, result) && result.part >= c.expected
    ensures PendingWellFormed(c.pending) && ResultWellFormed(result)
    ensures CollectorFits(codec, minis, Receive(codec, oracle, c, result))
    ensures var d := Receive(codec, oracle, c, result);
            && d.expected >= c.expected
            && (forall p | p in d.pending :: p in c.pending || p == result.part)
            && (forall p | c.expected <= p < d.expected :: p in c.pending || p == result.part)
  {
    hide MergeFits, Process, WellFormed;
    GenuineIsWellFormed(codec, minis, c);
    DrainKeeps(codec, oracle, minis, c.(pending := c.pending[result.part := result]));
  }
}
