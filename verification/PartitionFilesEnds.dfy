/** RunParallelPartitionFiles always returns: no interleaving is longer than a bound, and none stops early. */
module PartitionFilesEnds {
  import opened PartitionFiles

  /** Steps a worker can take before it must fetch another part. */
  function Rank(pc: WorkerPc): nat {
    match pc
    case LoadClosed => 2
    case FetchAdd => 1
    case CheckStop(_) => 5
    case Generating(_) => 4
    case StoreError(_, _) => 3
    case StoreStop => 2
    case CloseQueue => 1
    case _ => 0
  }

  function Ranks(workers: map<nat, WorkerPc>, n: nat): nat {
    if n == 0 then 0
    else Ranks(workers, n - 1) + if n - 1 in workers then Rank(workers[n - 1]) else 0
  }

  lemma {:induction false} RanksAfter(workers: map<nat, WorkerPc>, w: nat, pc: WorkerPc, n: nat)
    requires w in workers
    ensures Ranks(workers[w := pc], n) == Ranks(workers, n) + if w < n then Rank(pc) - Rank(workers[w]) else 0
  {
    if n > 0 {
      RanksAfter(workers, w, pc, n - 1);
    }
  }

  lemma {:induction false} RanksAtStart(workers: map<nat, WorkerPc>, n: nat)
    requires forall w: nat :: w in workers <==> w < n
    requires forall w | w in workers :: workers[w] == LoadClosed
    ensures forall m | 0 <= m <= n :: Ranks(workers, m) == 2 * m
  {
    forall m | 0 <= m <= n
      ensures Ranks(workers, m) == 2 * m
    {
      TwoEach(workers, m);
    }
  }

  lemma {:induction false} TwoEach(workers: map<nat, WorkerPc>, m: nat)
    requires forall w: nat | w < m :: w in workers && workers[w] == LoadClosed
    ensures Ranks(workers, m) == 2 * m
  {
    if m > 0 {
      TwoEach(workers, m - 1);
    }
  }

  /** Parts not handed out yet. */
  function PartsLeft(s: State): nat {
    if s.next <= s.partCount then s.partCount + 1 - s.next else 0
  }

  function JoinsLeft(s: State): nat {
    match s.main
    case Joining(w) => if w <= s.workerCount then s.workerCount - w + 1 else 1
    case Returned(_) => 0
  }

  /** At most so many steps are left, whoever takes them. */
  function StepsLeft(s: State): nat {
    Ranks(s.workers, s.workerCount) + 5 * PartsLeft(s) + JoinsLeft(s)
  }

  ghost predicate Shape(s: State) {
    && (forall w: nat :: w in s.workers <==> w < s.workerCount)
    && (s.main.Joining? ==> s.main.worker <= s.workerCount)
  }

  lemma WorkerMoves(s: State, w: nat, rc: int, throws: bool)
    requires Enabled(s, WorkerStep(w, rc, throws))
    ensures var t := Apply(s, WorkerStep(w, rc, throws));
            && w in t.workers && t.workers == s.workers[w := t.workers[w]]
            && t.main == s.main && t.workerCount == s.workerCount
  {
  }

  /** A part fetched pays for the steps it leads to. */
  lemma WorkerCounts(s: State, w: nat, rc: int, throws: bool)
    requires Enabled(s, WorkerStep(w, rc, throws))
    ensures var t := Apply(s, WorkerStep(w, rc, throws));
            w in t.workers && Rank(t.workers[w]) + 5 * PartsLeft(t) < Rank(s.workers[w]) + 5 * PartsLeft(s)
  {
  }

  lemma MainCounts(s: State)
    requires Shape(s) && Enabled(s, MainStep)
    ensures var t := Apply(s, MainStep);
            && Shape(t) && JoinsLeft(t) < JoinsLeft(s)
            && t.workers == s.workers && t.workerCount == s.workerCount && PartsLeft(t) == PartsLeft(s)
  {
  }

  lemma StepCounts(s: State, a: Action)
    requires Shape(s) && Enabled(s, a)
    ensures Shape(Apply(s, a)) && StepsLeft(Apply(s, a)) < StepsLeft(s)
  {
    hide Ranks, Apply, PartsLeft, JoinsLeft;
    match a
    case WorkerStep(w, rc, throws) =>
      WorkerMoves(s, w, rc, throws);
      WorkerCounts(s, w, rc, throws);
      RanksAfter(s.workers, w, Apply(s, a).workers[w], s.workerCount);
      assert JoinsLeft(Apply(s, a)) == JoinsLeft(s) by {
        SameJoins(s, Apply(s, a));
      }
    case MainStep => MainCounts(s);
  }

  lemma SameJoins(s: State, t: State)
    requires t.main == s.main && t.workerCount == s.workerCount
    ensures JoinsLeft(t) == JoinsLeft(s)
  {
  }

  /** Every interleaving is at most 3 W + 5 N + 1 steps long, for N parts and W workers. */
  lemma {:induction false} EveryRunIsShort(partCount: nat, configured: nat, run: seq<State>)
    requires IsExecution(partCount, configured, run)
    ensures Shape(run[|run| - 1])
    ensures |run| - 1 + StepsLeft(run[|run| - 1]) <=
            3 * ResolveWorkerCount(configured, partCount) + 5 * partCount + 1
    decreases |run|
  {
    if |run| == 1 {
      var n := ResolveWorkerCount(configured, partCount);
      RanksAtStart(Workers(n), n);
      assert Ranks(Workers(n), n) == 2 * n;
    } else {
      hide Shape, StepsLeft;
      EarlierExecution(partCount, configured, run);
      EveryRunIsShort(partCount, configured, run[..|run| - 1]);
      var s, t := run[|run| - 2], run[|run| - 1];
      var a :| Enabled(s, a) && t == Apply(s, a);
      StepCounts(s, a);
    }
  }

  /** A run that has not returned can go on, whatever happened in it. */
  lemma CanGoOn(partCount: nat, configured: nat, run: seq<State>) returns (a: Action)
    requires IsExecution(partCount, configured, run)
    ensures !run[|run| - 1].main.Returned? <==> Enabled(run[|run| - 1], a)
  {
    EveryRunIsShort(partCount, configured, run);
    ExecutionInv(partCount, configured, run);
    var s := run[|run| - 1];
    a := MainStep;
    if s.main.Joining? && s.main.worker < s.workerCount && !Ended(s.workers[s.main.worker]) {
      a := WorkerStep(s.main.worker, 0, false);
    }
  }
}
