/**
 How RunParallelEncodeParquetOrdered winds down, for every number of workers: when the result queue is closed, and
 what happens when a worker ends by an exception.
 */
module ParquetClosing {
  import opened Wrappers
  import opened Ring
  import opened RingOutcome
  import opened ParquetMerge
  import opened ParquetConsumer
  import opened ParquetWorkers

  // ---------------------------------------------------------------- who closes the queue

  /** The worker has taken itself off remaining_workers. */
  predicate Counted(pc: WorkerPc) {
    pc.CloseQueue? || pc.Done?
  }

  /** How many of the first n workers have not counted down. */
  function Uncounted(workers: map<nat, WorkerPc>, n: nat): nat {
    if n == 0 then 0
    else Uncounted(workers, n - 1) + if n - 1 in workers && Counted(workers[n - 1]) then 0 else 1
  }

  lemma {:induction false} UncountedAfter(workers: map<nat, WorkerPc>, w: nat, pc: WorkerPc, n: nat)
    requires w in workers
    ensures Uncounted(workers[w := pc], n) ==
            Uncounted(workers, n)
            + if w < n then (if Counted(workers[w]) then 1 else 0) - (if Counted(pc) then 1 else 0) else 0
  {
    if n > 0 {
      UncountedAfter(workers, w, pc, n - 1);
    }
  }

  lemma {:induction false} UncountedAtStart(workers: map<nat, WorkerPc>, n: nat)
    requires forall w | w in workers :: !Counted(workers[w])
    ensures Uncounted(workers, n) == n
  {
    if n > 0 {
      UncountedAtStart(workers, n - 1);
    }
  }

  /** None is left exactly when all have counted down. */
  lemma {:induction false} NoneUncounted(workers: map<nat, WorkerPc>, n: nat)
    ensures Uncounted(workers, n) == 0 <==> forall w: nat | w < n :: w in workers && Counted(workers[w])
  {
    if n > 0 {
      NoneUncounted(workers, n - 1);
    }
  }

  ghost predicate SomeoneCloses(s: System) {
    exists w :: w in s.workers && s.workers[w].CloseQueue?
  }

  /** A failure stops everybody at once, except a leading magic that could not be written: that is noticed later. */
  ghost predicate ConsumerCloses(oracle: WriteOracle, s: System) {
    var failed, started := s.collector.merge.failed, oracle([], MAGIC);
    match s.pc
    case Popping => failed ==> !started
    case Handling(_) => failed ==> !started
    case SignalStop => failed
    case ClosePartitions => failed && s.stop
    case CloseResults => failed && s.stop && s.closed
    case _ => s.ring.closed && (failed && started ==> s.stop && s.closed)
  }

  /** The result queue has one slot, and remaining_workers one count, per worker. */
  ghost predicate CloseInv(oracle: WriteOracle, s: System) {
    && FalseMeansClosed(s.ring) && s.ring.Capacity() > 0
    && (forall w: nat :: w in s.workers <==> w < s.ring.Capacity())
    && s.remaining == Uncounted(s.workers, s.ring.Capacity())
    && (s.ring.closed ==> s.remaining == 0 || s.collector.merge.failed)
    && (s.remaining == 0 ==> s.ring.closed || SomeoneCloses(s))
    && (forall w | w in s.workers && s.workers[w].CloseQueue? :: s.remaining == 0)
    && ConsumerCloses(oracle, s)
  }

  lemma LaunchCloses(oracle: WriteOracle, partCount: nat, configured: nat)
    ensures CloseInv(oracle, Launch(oracle, partCount, configured))
  {
    var s := Launch(oracle, partCount, configured);
    UncountedAtStart(s.workers, s.ring.Capacity());
  }

  // ---------------------------------------------------------------- steps

  lemma RingStepCloses(oracle: WriteOracle, s: System, a: Action<Result>)
    requires CloseInv(oracle, s) && Enabled(s.ring, a) && !a.Close?
    ensures CloseInv(oracle, s.(ring := Apply(s.ring, a)))
  {
    hide FalseMeansClosed;
    FalseStep(s.ring, a);
    ActionFrame(s.ring, a);
    assert SomeoneCloses(s) ==> SomeoneCloses(s.(ring := Apply(s.ring, a)));
  }

  /** A worker's own step moves it, and counts nothing. */
  ghost predicate OnlyMoves(s: System, t: System, w: nat)
    requires w in s.workers
  {
    && w in t.workers && t.workers == s.workers[w := t.workers[w]]
    && (Counted(t.workers[w]) <==> Counted(s.workers[w])) && !t.workers[w].CloseQueue?
    && t.remaining == s.remaining && t.pc == s.pc && t.collector == s.collector && t.closed == s.closed
    && (s.stop ==> t.stop)
  }

  lemma MovedCloses(oracle: WriteOracle, s: System, t: System, w: nat)
    requires CloseInv(oracle, s) && w in s.workers && OnlyMoves(s, t, w)
    requires FalseMeansClosed(t.ring) && t.ring.Capacity() == s.ring.Capacity()
    requires t.ring.closed == (s.ring.closed || s.workers[w].CloseQueue?)
    ensures CloseInv(oracle, t)
  {
    hide FalseMeansClosed;
    UncountedAfter(s.workers, w, t.workers[w], s.ring.Capacity());
    if s.remaining == 0 && !t.ring.closed {
      var v :| v in s.workers && s.workers[v].CloseQueue?;
      assert v in t.workers && t.workers[v].CloseQueue?;
    }
  }

  lemma WorkerRing(minis: seq<seq<Byte>>, s: System, w: nat, encoded: EncodeOutcome)
    requires FalseMeansClosed(s.ring) && CanMove(minis, s, WorkerMove(w, encoded))
    ensures var t := WorkerStep(minis, s, w, encoded);
            && FalseMeansClosed(t.ring) && t.ring.Capacity() == s.ring.Capacity()
            && t.ring.closed == (s.ring.closed || s.workers[w].CloseQueue?)
  {
    hide Apply, FalseMeansClosed;
    var t, pc := WorkerStep(minis, s, w, encoded), s.workers[w];
    if pc.CloseQueue? {
      FalseStep(s.ring, Close);
      ActionFrame(s.ring, Close);
    } else if pc.Pushing? {
      FalseStep(s.ring, ReturnPush(w));
      ActionFrame(s.ring, ReturnPush(w));
    } else if t.workers[w].Pushing? {
      FalseStep(s.ring, CallPush(w, t.workers[w].result));
      ActionFrame(s.ring, CallPush(w, t.workers[w].result));
    }
  }

  lemma CountDownCloses(
      oracle: WriteOracle, minis: seq<seq<Byte>>, s: System, w: nat, encoded: EncodeOutcome)
    requires CloseInv(oracle, s) && CanMove(minis, s, WorkerMove(w, encoded)) && s.workers[w].CountDown?
    ensures CloseInv(oracle, WorkerStep(minis, s, w, encoded))
  {
    hide FalseMeansClosed;
    var t := WorkerStep(minis, s, w, encoded);
    UncountedAfter(s.workers, w, t.workers[w], s.ring.Capacity());
    forall v | v in t.workers && t.workers[v].CloseQueue?
      ensures t.remaining == 0
    {
      if v != w {
        NoneUncounted(s.workers, s.ring.Capacity());
      }
    }
    if t.remaining == 0 {
      assert w in t.workers && t.workers[w].CloseQueue?;
    }
  }

  lemma WorkerPlace(minis: seq<seq<Byte>>, s: System, w: nat, encoded: EncodeOutcome)
    requires CanMove(minis, s, WorkerMove(w, encoded)) && !s.workers[w].CountDown?
    ensures OnlyMoves(s, WorkerStep(minis, s, w, encoded), w)
  {
    hide Apply;
  }

  lemma WorkerMoveCloses(oracle: WriteOracle, minis: seq<seq<Byte>>, s: System, w: nat, encoded: EncodeOutcome)
    requires CloseInv(oracle, s) && CanMove(minis, s, WorkerMove(w, encoded))
    ensures CloseInv(oracle, WorkerStep(minis, s, w, encoded))
  {
    hide FalseMeansClosed;
    if s.workers[w].CountDown? {
      CountDownCloses(oracle, minis, s, w, encoded);
    } else {
      WorkerRing(minis, s, w, encoded);
      WorkerPlace(minis, s, w, encoded);
      MovedCloses(oracle, s, WorkerStep(minis, s, w, encoded), w);
    }
  }

  /** A collector that has failed stays so. */
  lemma {:induction false} FailureStays(codec: Codec, oracle: WriteOracle, c: Collector)
    requires PendingWellFormed(c.pending) && c.merge.failed
    ensures DrainPending(codec, oracle, c) == c
  {
  }

  lemma ConsumerMoveCloses(
      codec: Codec, oracle: WriteOracle, minis: seq<seq<Byte>>, s: System, closes: bool, stale: nat)
    requires ShortFooters(codec) && CloseInv(oracle, s) && CanMove(minis, s, ConsumerMove(closes, stale))
    ensures CloseInv(oracle, ConsumerStep(codec, oracle, minis, s, closes, stale))
  {
    hide Apply, Receive, FalseMeansClosed, Finish, ShortFooters;
    var t := ConsumerStep(codec, oracle, minis, s, closes, stale);
    if s.pc.Popping? {
      PopMeansClosed(s.ring);
      var a: Action<Result> := if s.ring.pop.PopIdle? then CallPop else ReturnPop;
      FalseStep(s.ring, a);
      ActionFrame(s.ring, a);
    } else if s.pc.CloseResults? {
      FalseStep(s.ring, Close);
      ActionFrame(s.ring, Close);
    } else if s.pc.Handling? {
      if s.collector.merge.failed {
        FailureStays(codec, oracle, s.collector.(pending := s.collector.pending[s.pc.result.part := s.pc.result]));
        ReceiveIsDrain(codec, oracle, s.collector, s.pc.result);
      }
    }
    assert SomeoneCloses(s) ==> SomeoneCloses(t);
  }

  lemma ReceiveIsDrain(codec: Codec, oracle: WriteOracle, c: Collector, result: Result)
    requires PendingWellFormed(c.pending) && ResultWellFormed(result)
    ensures Receive(codec, oracle, c, result) ==
            DrainPending(codec, oracle, c.(pending := c.pending[result.part := result]))
  {
  }

  lemma PopMeansClosed<T>(r: State<T>)
    requires FalseMeansClosed(r)
    ensures r.pop.PopEmpty? ==> r.closed
  {
  }

  lemma MoveCloses(codec: Codec, oracle: WriteOracle, minis: seq<seq<Byte>>, s: System, move: Move)
    requires ShortFooters(codec) && CloseInv(oracle, s) && CanMove(minis, s, move)
    ensures CloseInv(oracle, Perform(codec, oracle, minis, s, move))
  {
    hide ShortFooters, CloseInv;
    match move
    case PushMove(w, spurious) => RingStepCloses(oracle, s, StepPush(w, spurious));
    case WorkerMove(w, encoded) => WorkerMoveCloses(oracle, minis, s, w, encoded);
    case PopMove => RingStepCloses(oracle, s, StepPop);
    case ConsumerMove(closes, stale) => ConsumerMoveCloses(codec, oracle, minis, s, closes, stale);
  }

  lemma {:induction false} ExecutionCloses(
      codec: Codec, oracle: WriteOracle, minis: seq<seq<Byte>>, configured: nat, run: seq<System>)
    requires ShortFooters(codec) && IsExecution(codec, oracle, minis, configured, run)
    ensures CloseInv(oracle, run[|run| - 1])
    decreases |run|
  {
    hide CloseInv, ShortFooters;
    if |run| == 1 {
      LaunchCloses(oracle, |minis|, configured);
    } else {
      var before := run[..|run| - 1];
      assert IsExecution(codec, oracle, minis, configured, before) by {
        forall i | 0 <= i < |before| - 1
          ensures NextSystem(codec, oracle, minis, before[i], before[i + 1])
        {
          assert NextSystem(codec, oracle, minis, run[i], run[i + 1]);
        }
      }
      ExecutionCloses(codec, oracle, minis, configured, before);
      var s, t := run[|run| - 2], run[|run| - 1];
      assert NextSystem(codec, oracle, minis, s, t);
      var move :| CanMove(minis, s, move) && t == Perform(codec, oracle, minis, s, move);
      MoveCloses(codec, oracle, minis, s, move);
    }
  }

  // ---------------------------------------------------------------- main results

  /**
   The consumer stops popping only when the queue is closed; the queue is closed only after a failure or when every
   worker has counted down; and when every worker has ended normally it is closed.
   */
  lemma JoinsOnlyWhenClosed(
      codec: Codec, oracle: WriteOracle, minis: seq<seq<Byte>>, configured: nat, run: seq<System>)
    requires ShortFooters(codec) && IsExecution(codec, oracle, minis, configured, run)
    ensures var s := run[|run| - 1];
            && (s.ring.pop.PopEmpty? || s.pc.Joining? || s.pc.Returned? ==> s.ring.closed)
            && (s.ring.closed ==> s.collector.merge.failed || forall w | w in s.workers :: Counted(s.workers[w]))
            && ((forall w | w in s.workers :: s.workers[w].Done?) ==> s.ring.closed)
  {
    ExecutionCloses(codec, oracle, minis, configured, run);
    var s := run[|run| - 1];
    NoneUncounted(s.workers, s.ring.Capacity());
  }

  /** A worker that ends by an exception is never counted: without another failure the run does not return. */
  lemma ThrowKeepsQueueOpen(
      codec: Codec, oracle: WriteOracle, minis: seq<seq<Byte>>, configured: nat, run: seq<System>, w: nat)
    requires ShortFooters(codec) && IsExecution(codec, oracle, minis, configured, run)
    requires w in run[|run| - 1].workers && run[|run| - 1].workers[w].Threw?
    ensures var s := run[|run| - 1];
            !s.collector.merge.failed ==> !s.ring.closed && (s.pc.Popping? || s.pc.Handling?)
  {
    ExecutionCloses(codec, oracle, minis, configured, run);
    var s := run[|run| - 1];
    NoneUncounted(s.workers, s.ring.Capacity());
  }

  // ---------------------------------------------------------------- exactly when 0 is returned

  /** The trailer can be written. */
  ghost predicate Finishes(codec: Codec, oracle: WriteOracle, m: Merge)
    requires ShortFooters(codec)
  {
    m.header.Some? && Finish(codec, oracle, m).Some?
  }

  /** What the last step looks at: how the workers ended, and how far the merge came. */
  ghost predicate CanFinish(codec: Codec, oracle: WriteOracle, minis: seq<seq<Byte>>, s: System)
    requires ShortFooters(codec)
  {
    && (forall w | w in s.workers :: s.workers[w].Done?)
    && !s.collector.merge.failed && s.collector.expected == |minis| + 1
    && Finishes(codec, oracle, s.collector.merge)
  }

  ghost predicate OutcomeFits(codec: Codec, oracle: WriteOracle, minis: seq<seq<Byte>>, s: System)
    requires ShortFooters(codec)
  {
    s.pc.Returned? ==>
      && (forall w | w in s.workers :: Ended(s.workers[w]))
      && (s.pc.rc == 0 || s.pc.rc == 2)
      && (s.pc.rc == 0 ==> CanFinish(codec, oracle, minis, s))
      && (s.pc.rc == 0 <==> s.file.Some?)
  }

  /** The step that returns: 0 exactly when the merge can be finished and the output be closed and renamed. */
  lemma JoinReturns(codec: Codec, oracle: WriteOracle, minis: seq<seq<Byte>>, s: System, closes: bool, stale: nat)
    requires ShortFooters(codec) && CanMove(minis, s, ConsumerMove(closes, stale)) && s.pc.Joining?
    ensures var t := ConsumerStep(codec, oracle, minis, s, closes, stale);
            && t.pc == Returned(if CanFinish(codec, oracle, minis, s) && closes then 0 else 2)
            && (t.file != s.file ==> t.pc.rc == 0)
            && (t.pc.rc == 0 ==> t.file.Some?)
            && t == s.(pc := t.pc, file := t.file)
  {
    hide ShortFooters, Finish;
  }

  lemma OutcomeStep(codec: Codec, oracle: WriteOracle, minis: seq<seq<Byte>>, s: System, move: Move)
    requires ShortFooters(codec) && CanMove(minis, s, move)
    requires OutcomeFits(codec, oracle, minis, s) && (s.file.Some? ==> s.pc == Returned(0))
    ensures var t := Perform(codec, oracle, minis, s, move);
            OutcomeFits(codec, oracle, minis, t) && (t.file.Some? ==> t.pc == Returned(0))
  {
    hide Apply, Receive, ShortFooters, Finishes, Finish;
    if move.ConsumerMove? && s.pc.Joining? {
      JoinReturns(codec, oracle, minis, s, move.closes, move.stale);
    }
  }

  /**
   A run that returned 0 had no worker throw and nothing fail, merged all parts and wrote the trailer; a file stands
   at the final path exactly then.
   */
  lemma {:induction false} ReturnsZeroOnlyIfFinished(
      codec: Codec, oracle: WriteOracle, minis: seq<seq<Byte>>, configured: nat, run: seq<System>)
    requires ShortFooters(codec) && IsExecution(codec, oracle, minis, configured, run)
    ensures OutcomeFits(codec, oracle, minis, run[|run| - 1])
    ensures run[|run| - 1].file.Some? <==> run[|run| - 1].pc == Returned(0)
    decreases |run|
  {
    if |run| > 1 {
      hide ShortFooters, CanFinish;
      var before := run[..|run| - 1];
      assert IsExecution(codec, oracle, minis, configured, before) by {
        forall i | 0 <= i < |before| - 1
          ensures NextSystem(codec, oracle, minis, before[i], before[i + 1])
        {
          assert NextSystem(codec, oracle, minis, run[i], run[i + 1]);
        }
      }
      ReturnsZeroOnlyIfFinished(codec, oracle, minis, configured, before);
      var s, t := run[|run| - 2], run[|run| - 1];
      assert NextSystem(codec, oracle, minis, s, t);
      var move :| CanMove(minis, s, move) && t == Perform(codec, oracle, minis, s, move);
      OutcomeStep(codec, oracle, minis, s, move);
    }
  }

  // ---------------------------------------------------------------- heeding the stop flag

  /** How many parts were handed to worker w. */
  function PartsOf(tickets: seq<Ticket>, w: nat): nat {
    if tickets == [] then 0
    else PartsOf(tickets[..|tickets| - 1], w) + if tickets[|tickets| - 1].worker == w then 1 else 0
  }

  /** Those, and the one it is about to take. */
  function PartsBegun(s: System, w: nat): nat {
    PartsOf(s.tickets, w) + if w in s.workers && (s.workers[w].LoadClosed? || s.workers[w].FetchAdd?) then 1 else 0
  }

  lemma OneMoreTicket(tickets: seq<Ticket>, ticket: Ticket, w: nat)
    ensures PartsOf(tickets + [ticket], w) == PartsOf(tickets, w) + if ticket.worker == w then 1 else 0
  {
    assert (tickets + [ticket])[..|tickets|] == tickets;
  }

  lemma StopStep(codec: Codec, oracle: WriteOracle, minis: seq<seq<Byte>>, s: System, move: Move, w: nat)
    requires ShortFooters(codec) && s.stop && CanMove(minis, s, move)
    ensures var t := Perform(codec, oracle, minis, s, move); t.stop && PartsBegun(t, w) <= PartsBegun(s, w)
  {
    hide ShortFooters, Apply, Receive, Finish, PartsOf;
    if move.WorkerMove? && s.workers[move.worker].FetchAdd? {
      OneMoreTicket(s.tickets, Ticket(move.worker, s.next), w);
    }
  }

  /** Once the stop flag is set, no worker begins to take another part. */
  lemma {:induction false} StopIsHeeded(
      codec: Codec, oracle: WriteOracle, minis: seq<seq<Byte>>, run: seq<System>, w: nat)
    requires ShortFooters(codec) && |run| > 0 && run[0].stop
    requires forall i | 0 <= i < |run| - 1 :: NextSystem(codec, oracle, minis, run[i], run[i + 1])
    ensures var s, t := run[0], run[|run| - 1];
            && t.stop
            && PartsOf(t.tickets, w) <= PartsBegun(t, w) <= PartsBegun(s, w) <= PartsOf(s.tickets, w) + 1
    decreases |run|
  {
    hide ShortFooters, PartsOf;
    if |run| > 1 {
      var before := run[..|run| - 1];
      forall i | 0 <= i < |before| - 1
        ensures NextSystem(codec, oracle, minis, before[i], before[i + 1])
      {
        assert NextSystem(codec, oracle, minis, run[i], run[i + 1]);
      }
      StopIsHeeded(codec, oracle, minis, before, w);
      var s, t := run[|run| - 2], run[|run| - 1];
      assert NextSystem(codec, oracle, minis, s, t);
      var move :| CanMove(minis, s, move) && t == Perform(codec, oracle, minis, s, move);
      StopStep(codec, oracle, minis, s, move, w);
    }
  }

  /** Those, and the one it is about to take unless the dispenser is found closed. */
  function PartsFetched(s: System, w: nat): nat {
    PartsOf(s.tickets, w) + if w in s.workers && s.workers[w].FetchAdd? then 1 else 0
  }

  lemma ClosedStep(codec: Codec, oracle: WriteOracle, minis: seq<seq<Byte>>, s: System, move: Move, w: nat)
    requires ShortFooters(codec) && s.closed && CanMove(minis, s, move)
    ensures var t := Perform(codec, oracle, minis, s, move); t.closed && PartsFetched(t, w) <= PartsFetched(s, w)
  {
    hide ShortFooters, Apply, Receive, Finish, PartsOf;
    if move.WorkerMove? && s.workers[move.worker].FetchAdd? {
      OneMoreTicket(s.tickets, Ticket(move.worker, s.next), w);
    }
  }

  /** Once the dispenser is closed, no worker goes to fetch another part. */
  lemma {:induction false} ClosedIsHeeded(
      codec: Codec, oracle: WriteOracle, minis: seq<seq<Byte>>, run: seq<System>, w: nat)
    requires ShortFooters(codec) && |run| > 0 && run[0].closed
    requires forall i | 0 <= i < |run| - 1 :: NextSystem(codec, oracle, minis, run[i], run[i + 1])
    ensures var s, t := run[0], run[|run| - 1];
            && t.closed
            && PartsOf(t.tickets, w) <= PartsFetched(t, w) <= PartsFetched(s, w) <= PartsOf(s.tickets, w) + 1
    decreases |run|
  {
    hide ShortFooters, PartsOf;
    if |run| > 1 {
      var before := run[..|run| - 1];
      forall i | 0 <= i < |before| - 1
        ensures NextSystem(codec, oracle, minis, before[i], before[i + 1])
      {
        assert NextSystem(codec, oracle, minis, run[i], run[i + 1]);
      }
      ClosedIsHeeded(codec, oracle, minis, before, w);
      var s, t := run[|run| - 2], run[|run| - 1];
      assert NextSystem(codec, oracle, minis, s, t);
      var move :| CanMove(minis, s, move) && t == Perform(codec, oracle, minis, s, move);
      ClosedStep(codec, oracle, minis, s, move, w);
    }
  }

  // ---------------------------------------------------------------- a failed encoding is announced

  /** A worker that hands over a failure has set the stop flag. */
  ghost predicate FailuresAnnounced(s: System) {
    forall w | w in s.workers && s.workers[w].Pushing? && s.workers[w].result.Failed? :: s.stop
  }

  lemma AnnouncedStep(codec: Codec, oracle: WriteOracle, minis: seq<seq<Byte>>, s: System, move: Move)
    requires ShortFooters(codec) && FailuresAnnounced(s) && CanMove(minis, s, move)
    ensures FailuresAnnounced(Perform(codec, oracle, minis, s, move))
  {
    hide ShortFooters, Apply, Receive, Finish;
  }

  /** In every run the stop flag is set before a failed result reaches the queue. */
  lemma {:induction false} FailureStopsWorkers(
      codec: Codec, oracle: WriteOracle, minis: seq<seq<Byte>>, configured: nat, run: seq<System>)
    requires ShortFooters(codec) && IsExecution(codec, oracle, minis, configured, run)
    ensures FailuresAnnounced(run[|run| - 1])
    decreases |run|
  {
    hide ShortFooters;
    if |run| > 1 {
      hide FailuresAnnounced;
      var before := run[..|run| - 1];
      assert IsExecution(codec, oracle, minis, configured, before) by {
        forall i | 0 <= i < |before| - 1
          ensures NextSystem(codec, oracle, minis, before[i], before[i + 1])
        {
          assert NextSystem(codec, oracle, minis, run[i], run[i + 1]);
        }
      }
      FailureStopsWorkers(codec, oracle, minis, configured, before);
      var s, t := run[|run| - 2], run[|run| - 1];
      assert NextSystem(codec, oracle, minis, s, t);
      var move :| CanMove(minis, s, move) && t == Perform(codec, oracle, minis, s, move);
      AnnouncedStep(codec, oracle, minis, s, move);
    }
  }
}
