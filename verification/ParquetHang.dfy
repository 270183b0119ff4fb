/** Runs of RunParallelEncodeParquetOrdered that can never return: every worker has ended by an exception. */
module ParquetHang {
  import opened Ring
  import opened ParquetMerge
  import opened ParquetWorkers
  import PartitionFiles

  datatype Job = Job(codec: Codec, oracle: WriteOracle, minis: seq<seq<Byte>>, configured: nat)

  ghost predicate Reaches(x: Job, s: System)
    requires ShortFooters(x.codec)
  {
    exists run: seq<System> ::
      IsExecution(x.codec, x.oracle, x.minis, x.configured, run) && run[|run| - 1] == s
  }

  lemma Step(x: Job, s: System, move: Move)
    requires ShortFooters(x.codec) && Reaches(x, s) && CanMove(x.minis, s, move)
    ensures Reaches(x, Perform(x.codec, x.oracle, x.minis, s, move))
  {
    hide Perform, CanMove, ShortFooters;
    var t := Perform(x.codec, x.oracle, x.minis, s, move);
    var run: seq<System> :|
      IsExecution(x.codec, x.oracle, x.minis, x.configured, run) && run[|run| - 1] == s;
    var longer := run + [t];
    forall i | 0 <= i < |longer| - 1
      ensures NextSystem(x.codec, x.oracle, x.minis, longer[i], longer[i + 1])
    {
      if i < |run| - 1 {
        assert longer[i] == run[i] && longer[i + 1] == run[i + 1];
      } else {
        assert longer[i] == s && longer[i + 1] == t;
      }
    }
    assert IsExecution(x.codec, x.oracle, x.minis, x.configured, longer) && longer[|longer| - 1] == t;
  }

  // ---------------------------------------------------------------- waiting for ever

  /** Nobody is left to push or to close, and the consumer waits at a slot that is not published. */
  ghost predicate Stuck(s: System) {
    && (forall w | w in s.workers :: Ended(s.workers[w]))
    && s.pc.Popping? && !s.ring.closed && s.ring.Capacity() > 0
    && s.ring.slots[Index(s.ring.dequeuePos, s.ring.Capacity())].sequence < s.ring.dequeuePos + 1
    && (s.ring.pop.PopIdle? || s.ring.pop.PopLoadSequence? || s.ring.pop.PopLoadClosed?)
  }

  lemma StuckStep(x: Job, s: System, move: Move)
    requires ShortFooters(x.codec) && Stuck(s) && CanMove(x.minis, s, move)
    ensures Stuck(Perform(x.codec, x.oracle, x.minis, s, move))
  {
    hide ShortFooters, Index;
  }

  /** From there every continuation leaves the consumer popping: the call never returns. */
  lemma {:induction false} StuckForEver(x: Job, run: seq<System>)
    requires ShortFooters(x.codec) && |run| > 0 && Stuck(run[0])
    requires forall i | 0 <= i < |run| - 1 :: NextSystem(x.codec, x.oracle, x.minis, run[i], run[i + 1])
    ensures Stuck(run[|run| - 1]) && !run[|run| - 1].pc.Returned?
    decreases |run|
  {
    if |run| > 1 {
      hide Stuck, ShortFooters;
      var before := run[..|run| - 1];
      forall i | 0 <= i < |before| - 1
        ensures NextSystem(x.codec, x.oracle, x.minis, before[i], before[i + 1])
      {
        assert NextSystem(x.codec, x.oracle, x.minis, run[i], run[i + 1]);
      }
      StuckForEver(x, before);
      var s, t := run[|run| - 2], run[|run| - 1];
      assert NextSystem(x.codec, x.oracle, x.minis, s, t);
      var move :| CanMove(x.minis, s, move) && t == Perform(x.codec, x.oracle, x.minis, s, move);
      StuckStep(x, s, move);
    }
    assert Stuck(run[|run| - 1]) ==> !run[|run| - 1].pc.Returned?;
  }

  // ---------------------------------------------------------------- such a run exists

  /** The first k workers took a part each and threw; the others have not begun. */
  ghost predicate ThrewFirst(x: Job, s: System, k: nat) {
    && s.next == k + 1 && !s.stop && !s.closed && s.pc.Popping?
    && s.ring == Init(PartitionFiles.ResolveWorkerCount(x.configured, |x.minis|))
    && (forall w: nat :: w in s.workers <==> w < s.ring.Capacity())
    && forall w | w in s.workers :: s.workers[w] == if w < k then Threw else LoadStop
  }

  /** One worker's turn: stop flag, closed flag, part number, exception. */
  lemma OneThrows(x: Job, s: System, k: nat) returns (t: System)
    requires ShortFooters(x.codec) && Reaches(x, s) && ThrewFirst(x, s, k)
    requires k < s.ring.Capacity() <= |x.minis|
    ensures Reaches(x, t) && ThrewFirst(x, t, k + 1) && t.ring == s.ring
  {
    hide Reaches, ShortFooters;
    var go := WorkerMove(k, Throws);
    Step(x, s, go);
    var s1 := Perform(x.codec, x.oracle, x.minis, s, go);
    Step(x, s1, go);
    var s2 := Perform(x.codec, x.oracle, x.minis, s1, go);
    Step(x, s2, go);
    var s3 := Perform(x.codec, x.oracle, x.minis, s2, go);
    Step(x, s3, go);
    t := Perform(x.codec, x.oracle, x.minis, s3, go);
  }

  lemma {:induction false} FirstThrow(x: Job, k: nat) returns (s: System)
    requires ShortFooters(x.codec) && |x.minis| > 0
    requires k <= PartitionFiles.ResolveWorkerCount(x.configured, |x.minis|)
    ensures Reaches(x, s) && ThrewFirst(x, s, k)
  {
    if k == 0 {
      s := Launch(x.oracle, |x.minis|, x.configured);
      assert IsExecution(x.codec, x.oracle, x.minis, x.configured, [s]);
      assert [s][|[s]| - 1] == s;
    } else {
      var before := FirstThrow(x, k - 1);
      s := OneThrows(x, before, k - 1);
    }
  }

  /**
   For every table and every number of workers: when each worker's first encoding throws, remaining_workers never
   reaches 0, the queue stays open, and the consumer waits for ever.
   */
  lemma SomeRunHangs(x: Job) returns (s: System)
    requires ShortFooters(x.codec) && |x.minis| > 0
    ensures Reaches(x, s) && Stuck(s)
    ensures forall run: seq<System> |
              |run| > 0 && run[0] == s &&
              forall i | 0 <= i < |run| - 1 :: NextSystem(x.codec, x.oracle, x.minis, run[i], run[i + 1]) ::
              !run[|run| - 1].pc.Returned?
  {
    hide ShortFooters, NextSystem, Reaches;
    s := FirstThrow(x, PartitionFiles.ResolveWorkerCount(x.configured, |x.minis|));
    forall run: seq<System> |
      |run| > 0 && run[0] == s &&
      forall i | 0 <= i < |run| - 1 :: NextSystem(x.codec, x.oracle, x.minis, run[i], run[i + 1])
      ensures !run[|run| - 1].pc.Returned?
    {
      StuckForEver(x, run);
    }
  }
}
