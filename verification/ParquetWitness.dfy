/** Runs of RunParallelEncodeParquetOrdered that return 0: one for every list of readable files and any workers. */
module ParquetWitness {
  import opened Wrappers
  import opened Ring
  import opened RingRuns
  import opened ParquetMerge
  import opened ParquetConsumer
  import opened ParquetWorkers

  datatype Setting = Setting(codec: Codec, minis: seq<seq<Byte>>, configured: nat)

  function AcceptAll(): WriteOracle {
    (written, bytes) => true
  }

  /** Files that can all be read, and at least one of them. */
  ghost predicate Usable(x: Setting) {
    |x.minis| > 0 && ShortFooters(x.codec) && AllReadable(x.codec, x.minis)
  }

  ghost predicate Reaches(x: Setting, s: System)
    requires Usable(x)
  {
    exists run: seq<System> ::
      IsExecution(x.codec, AcceptAll(), x.minis, x.configured, run) && run[|run| - 1] == s
  }

  lemma Step(x: Setting, s: System, move: Move)
    requires Usable(x) && Reaches(x, s) && CanMove(x.minis, s, move)
    ensures Reaches(x, Perform(x.codec, AcceptAll(), x.minis, s, move))
  {
    hide Perform, CanMove, ShortFooters, AllReadable;
    var t := Perform(x.codec, AcceptAll(), x.minis, s, move);
    var run: seq<System> :|
      IsExecution(x.codec, AcceptAll(), x.minis, x.configured, run) && run[|run| - 1] == s;
    var longer := run + [t];
    forall i | 0 <= i < |longer| - 1
      ensures NextSystem(x.codec, AcceptAll(), x.minis, longer[i], longer[i + 1])
    {
      if i < |run| - 1 {
        assert longer[i] == run[i] && longer[i + 1] == run[i + 1];
      } else {
        assert longer[i] == s && longer[i + 1] == t;
      }
    }
    assert IsExecution(x.codec, AcceptAll(), x.minis, x.configured, longer) && longer[|longer| - 1] == t;
  }

  lemma NeedsSlots(r: State<Result>, a: Action<Result>)
    requires Enabled(r, a)
    ensures r.Capacity() > 0
  {
  }

  lemma {:induction false} PushMoves(x: Setting, s: System, w: nat, n: nat)
    requires Usable(x) && Reaches(x, s) && w in s.workers && s.workers[w].Pushing? && CanPush(s.ring, w, n)
    ensures Reaches(x, s.(ring := PushSteps(s.ring, w, n)))
  {
    hide Reaches, Apply, Enabled, Usable;
    if n > 0 {
      PushMoves(x, s, w, n - 1);
      var before := s.(ring := PushSteps(s.ring, w, n - 1));
      assert Enabled(before.ring, StepPush(w, false));
      NeedsSlots(before.ring, StepPush(w, false));
      OneStep(x, before, PushMove(w, false));
    } else {
      assert s.(ring := PushSteps(s.ring, w, 0)) == s;
    }
  }

  lemma OneStep(x: Setting, s: System, move: Move)
    requires Usable(x) && Reaches(x, s) && CanMove(x.minis, s, move) && (move.PushMove? || move.PopMove?)
    ensures var a := if move.PopMove? then StepPop else StepPush(move.worker, move.spurious);
            Reaches(x, s.(ring := Apply(s.ring, a)))
  {
    hide Reaches, Apply, Enabled;
    Step(x, s, move);
  }

  lemma {:induction false} PopMoves(x: Setting, s: System, n: nat)
    requires Usable(x) && Reaches(x, s) && s.pc.Popping? && CanPop(s.ring, n)
    ensures Reaches(x, s.(ring := PopSteps(s.ring, n)))
  {
    hide Reaches, Apply, Enabled, Usable;
    if n > 0 {
      PopMoves(x, s, n - 1);
      var before := s.(ring := PopSteps(s.ring, n - 1));
      assert Enabled(before.ring, StepPop);
      NeedsSlots(before.ring, StepPop);
      OneStep(x, before, PopMove);
    } else {
      assert s.(ring := PopSteps(s.ring, 0)) == s;
    }
  }

  // ---------------------------------------------------------------- one part after the other

  /** An empty open ring at position k. */
  ghost predicate AllFree(r: State<Result>, k: nat) {
    && r.Capacity() > 0 && r.enqueuePos == k && r.dequeuePos == k && r.pop.PopIdle?
    && forall q: nat | k <= q < k + r.Capacity() :: r.slots[Index(q, r.Capacity())].sequence == q
  }

  /** The collector after k parts. */
  ghost predicate Collected(x: Setting, c: Collector, k: nat) {
    && c.partCount == |x.minis| && c.expected == k + 1 && c.pending == map[] && !c.merge.failed
    && (k > 0 ==> c.merge.header.Some?)
  }

  ghost predicate WorkersIdle(s: System) {
    forall w | w in s.workers :: s.workers[w].LoadStop? && s.ring.Pc(w).PushIdle?
  }

  /** k parts were handed out, encoded, received and merged; nothing is under way. */
  ghost predicate Rests(x: Setting, s: System, k: nat) {
    && s.next == k + 1 && !s.closed && !s.stop && !s.ring.closed && s.pc.Popping?
    && 0 in s.workers && WorkersIdle(s) && AllFree(s.ring, k) && Collected(x, s.collector, k)
  }

  lemma LaunchRests(x: Setting)
    requires Usable(x)
    ensures var s := Launch(AcceptAll(), |x.minis|, x.configured); Reaches(x, s) && Rests(x, s, 0)
    ensures var s := Launch(AcceptAll(), |x.minis|, x.configured);
            (forall w: nat :: w in s.workers <==> w < s.remaining) && s.remaining >= 1
  {
    var s := Launch(AcceptAll(), |x.minis|, x.configured);
    assert IsExecution(x.codec, AcceptAll(), x.minis, x.configured, [s]);
    assert [s][|[s]| - 1] == s;
  }

  lemma ProcessAccepted(codec: Codec, m: Merge, file: seq<Byte>)
    requires Readable(codec, file) && !m.failed
    ensures !Process(codec, AcceptAll(), m, file).failed && Process(codec, AcceptAll(), m, file).header.Some?
  {
  }

  /** The next part in order is merged at once. */
  lemma ReceiveNext(x: Setting, c: Collector, k: nat)
    requires Usable(x) && Collected(x, c, k) && k < |x.minis|
    ensures WellFormed(x.minis[k]) && PendingWellFormed(c.pending)
    ensures Collected(x, Receive(x.codec, AcceptAll(), c, Result.Encoded(k + 1, x.minis[k])), k + 1)
  {
    hide Process, WellFormed;
    assert Readable(x.codec, x.minis[k]);
    ProcessAccepted(x.codec, c.merge, x.minis[k]);
    var result := Result.Encoded(k + 1, x.minis[k]);
    var stored := c.(pending := c.pending[k + 1 := result]);
    assert stored.pending == map[k + 1 := result];
    var taken := TakeExpected(x.codec, AcceptAll(), stored);
    assert taken.pending == map[];
    assert DrainPending(x.codec, AcceptAll(), taken) == taken;
  }

  /** Worker 0 takes the next part and encodes it. */
  lemma TakePart(x: Setting, s: System, k: nat) returns (t: System)
    requires Usable(x) && Reaches(x, s) && Rests(x, s, k) && k < |x.minis|
    ensures Reaches(x, t)
    ensures var result := Result.Encoded(k + 1, x.minis[k]);
            && t == s.(ring := t.ring, next := k + 2, tickets := t.tickets, workers := s.workers[0 := Pushing(result)])
            && OnlyPush(s.ring, t.ring, 0) && t.ring.Pc(0) == PushLoadClosed(result) && t.ring.slots == s.ring.slots
            && t.ring.enqueuePos == s.ring.enqueuePos
  {
    hide Reaches, ShortFooters, AllReadable, Index, Collected;
    Step(x, s, WorkerMove(0, Succeeds));
    var s1 := Goto(s, 0, LoadClosed);
    Step(x, s1, WorkerMove(0, Succeeds));
    var s2 := Goto(s1, 0, FetchAdd);
    Step(x, s2, WorkerMove(0, Succeeds));
    var s3 := Goto(s2, 0, Encoding(k + 1)).(next := k + 2, tickets := s.tickets + [Ticket(0, k + 1)]);
    Step(x, s3, WorkerMove(0, Succeeds));
    t := CallPushOf(s3, 0, Result.Encoded(k + 1, x.minis[k]));
    assert t.workers == s.workers[0 := Pushing(Result.Encoded(k + 1, x.minis[k]))];
  }

  /** It pushes the result and is back at the start of its loop. */
  lemma PushPart(x: Setting, s: System, result: Result, k: nat) returns (t: System)
    requires Usable(x) && Reaches(x, s) && 0 in s.workers && s.workers[0] == Pushing(result)
    requires ReadyToPush(s.ring, 0, result) && s.ring.enqueuePos == k
    ensures Reaches(x, t) && t == s.(ring := t.ring, workers := s.workers[0 := LoadStop])
    ensures && t.ring.slots == s.ring.slots[Index(k, s.ring.Capacity()) := Slot(k + 1, Some(result))]
            && t.ring.enqueuePos == k + 1 && t.ring.dequeuePos == s.ring.dequeuePos && t.ring.pop == s.ring.pop
            && !t.ring.closed && t.ring.Pc(0).PushIdle? && forall w | w != 0 :: t.ring.Pc(w) == s.ring.Pc(w)
  {
    hide Reaches, ShortFooters, AllReadable, Index, PushSteps;
    PushWrites(s.ring, 0, result);
    PushMoves(x, s, 0, 5);
    var s1 := s.(ring := PushSteps(s.ring, 0, 5));
    PushPublishes(s1.ring, 0, result, k);
    PushMoves(x, s1, 0, 1);
    var s2 := s1.(ring := PushSteps(s1.ring, 0, 1));
    Step(x, s2, WorkerMove(0, Succeeds));
    t := Perform(x.codec, AcceptAll(), x.minis, s2, WorkerMove(0, Succeeds));
  }

  /** The consumer pops it and merges it. */
  lemma PopPart(x: Setting, s: System, k: nat) returns (t: System)
    requires Usable(x) && Reaches(x, s) && s.pc.Popping? && k < |x.minis| && Collected(x, s.collector, k)
    requires s.ring.Capacity() > 0 && s.ring.dequeuePos == k && s.ring.pop.PopIdle?
    requires s.ring.slots[Index(k, s.ring.Capacity())] == Slot(k + 1, Some(Result.Encoded(k + 1, x.minis[k])))
    ensures Reaches(x, t) && t == s.(ring := t.ring, collector := t.collector, received := t.received)
    ensures Collected(x, t.collector, k + 1)
    ensures && t.ring.slots == s.ring.slots[Index(k, s.ring.Capacity()) := Slot(k + s.ring.Capacity(), None)]
            && t.ring.dequeuePos == k + 1 && t.ring.pop.PopIdle? && t.ring.enqueuePos == s.ring.enqueuePos
            && t.ring.closed == s.ring.closed && t.ring.pushes == s.ring.pushes
  {
    hide Reaches, ShortFooters, AllReadable, Index, PopSteps, Receive, Collected, WellFormed, PendingWellFormed;
    var result := Result.Encoded(k + 1, x.minis[k]);
    ReceiveNext(x, s.collector, k);
    Step(x, s, ConsumerMove(true, 0));
    var s1 := s.(ring := Apply(s.ring, CallPop));
    PopTakes(s1.ring);
    PopMoves(x, s1, 2);
    var s2 := s1.(ring := PopSteps(s1.ring, 2));
    PopReleases(s2.ring, Some(result));
    PopMoves(x, s2, 2);
    var s3 := s2.(ring := PopSteps(s2.ring, 2));
    Step(x, s3, ConsumerMove(true, 0));
    var s4 := s3.(ring := Apply(s3.ring, ReturnPop), pc := Handling(result));
    NotFailed(x, Receive(x.codec, AcceptAll(), s.collector, result), k + 1);
    Step(x, s4, ConsumerMove(true, 0));
    t := Perform(x.codec, AcceptAll(), x.minis, s4, ConsumerMove(true, 0));
  }

  lemma NotFailed(x: Setting, c: Collector, k: nat)
    requires Collected(x, c, k)
    ensures !c.merge.failed
  {
  }

  /** Handing back slot k frees it for position k + capacity. */
  lemma StillFree(before: State<Result>, after: State<Result>, k: nat)
    requires AllFree(before, k) && after.Capacity() == before.Capacity()
    requires after.slots[Index(k, before.Capacity())].sequence == k + before.Capacity()
    requires forall i | 0 <= i < before.Capacity() && i != Index(k, before.Capacity()) ::
               after.slots[i] == before.slots[i]
    requires after.enqueuePos == k + 1 && after.dequeuePos == k + 1 && after.pop.PopIdle?
    ensures AllFree(after, k + 1)
  {
    var n := before.Capacity();
    forall q: nat | k + 1 <= q < k + 1 + n
      ensures after.slots[Index(q, n)].sequence == q
    {
      if q == k + n {
        IndexPeriodic(k, n);
      } else {
        IndexDistinct(k, q, n);
      }
    }
  }

  lemma PassPart(x: Setting, s: System, k: nat) returns (t: System)
    requires Usable(x) && Reaches(x, s) && Rests(x, s, k) && k < |x.minis|
    ensures Reaches(x, t) && Rests(x, t, k + 1) && t.workers == s.workers && t.remaining == s.remaining
  {
    hide Reaches, ShortFooters, AllReadable, Index, Collected;
    var taken := TakePart(x, s, k);
    var pushed := PushPart(x, taken, Result.Encoded(k + 1, x.minis[k]), k);
    t := PopPart(x, pushed, k);
    StillFree(s.ring, t.ring, k);
    assert t.workers == s.workers;
  }

  lemma {:induction false} PassParts(x: Setting, k: nat) returns (s: System)
    requires Usable(x) && k <= |x.minis|
    ensures Reaches(x, s) && Rests(x, s, k)
    ensures (forall w: nat :: w in s.workers <==> w < s.remaining) && s.remaining >= 1
  {
    hide Reaches, Rests, Usable;
    if k == 0 {
      s := Launch(AcceptAll(), |x.minis|, x.configured);
      LaunchRests(x);
    } else {
      var before := PassParts(x, k - 1);
      s := PassPart(x, before, k - 1);
    }
  }

  // ---------------------------------------------------------------- the workers end

  /** The first w workers are done; the last of all closed the ring. */
  ghost predicate Ending(x: Setting, s: System, workers: nat, w: nat) {
    && w <= workers && s.remaining == workers - w && (s.ring.closed <==> w == workers)
    && s.next > |x.minis| && !s.closed && !s.stop && s.pc.Popping?
    && (forall v: nat :: v in s.workers <==> v < workers)
    && (forall v: nat | v < workers ::
          s.ring.Pc(v).PushIdle? && s.workers[v] == if v < w then Done else LoadStop)
    && AllFree(s.ring, |x.minis|) && Collected(x, s.collector, |x.minis|)
  }

  lemma EndWorker(x: Setting, s: System, workers: nat, w: nat) returns (t: System)
    requires Usable(x) && Reaches(x, s) && Ending(x, s, workers, w) && w < workers
    ensures Reaches(x, t) && Ending(x, t, workers, w + 1)
  {
    hide Reaches, ShortFooters, AllReadable, Index, Collected;
    Step(x, s, WorkerMove(w, Succeeds));
    var s1 := Goto(s, w, LoadClosed);
    Step(x, s1, WorkerMove(w, Succeeds));
    var s2 := Goto(s1, w, FetchAdd);
    Step(x, s2, WorkerMove(w, Succeeds));
    var s3 := Goto(s2, w, CountDown).(next := s.next + 1);
    Step(x, s3, WorkerMove(w, Succeeds));
    t := Perform(x.codec, AcceptAll(), x.minis, s3, WorkerMove(w, Succeeds));
    if s.remaining == 1 {
      Step(x, t, WorkerMove(w, Succeeds));
      t := Perform(x.codec, AcceptAll(), x.minis, t, WorkerMove(w, Succeeds));
    }
    assert t.ring == if s.remaining == 1 then s.ring.(closed := true) else s.ring;
    assert t.remaining == workers - (w + 1);
    forall v: nat
      ensures v in t.workers <==> v < workers
      ensures v < workers ==>
                t.ring.Pc(v).PushIdle? && t.workers[v] == if v < w + 1 then Done else LoadStop
    {
      if v < workers {
        assert v in s.workers && s.ring.Pc(v).PushIdle?;
      }
    }
  }

  lemma {:induction false} EndWorkers(x: Setting, s: System, workers: nat, w: nat) returns (t: System)
    requires Usable(x) && Reaches(x, s) && Ending(x, s, workers, w)
    ensures Reaches(x, t) && Ending(x, t, workers, workers)
    decreases workers - w
  {
    hide Reaches, Usable, Ending;
    assert w <= workers by {
      EndingBound(x, s, workers, w);
    }
    if w == workers {
      t := s;
    } else {
      var more := EndWorker(x, s, workers, w);
      t := EndWorkers(x, more, workers, w + 1);
    }
  }

  lemma EndingBound(x: Setting, s: System, workers: nat, w: nat)
    requires Ending(x, s, workers, w)
    ensures w <= workers
  {
  }

  /** The consumer finds the closed ring empty, joins, and writes the trailer. */
  lemma Finishes(x: Setting, s: System, workers: nat) returns (t: System)
    requires Usable(x) && Reaches(x, s) && Ending(x, s, workers, workers)
    ensures Reaches(x, t) && t.pc == Returned(0)
  {
    hide Reaches, Index, PopSteps, AllReadable;
    Step(x, s, ConsumerMove(true, 0));
    var s1 := s.(ring := Apply(s.ring, CallPop));
    PopFindsNothing(s1.ring);
    PopMoves(x, s1, 1);
    var s2 := s1.(ring := PopSteps(s1.ring, 1));
    PopEnds(s2.ring);
    PopMoves(x, s2, 1);
    var s3 := s2.(ring := PopSteps(s2.ring, 1));
    Step(x, s3, ConsumerMove(true, 0));
    var s4 := s3.(ring := Apply(s3.ring, ReturnPop), pc := Joining);
    Step(x, s4, ConsumerMove(true, 0));
    t := Perform(x.codec, AcceptAll(), x.minis, s4, ConsumerMove(true, 0));
  }

  /** For every number of workers, readable files and a sink that refuses nothing, some run returns 0. */
  lemma SomeRunReturnsZero(codec: Codec, minis: seq<seq<Byte>>, configured: nat)
    requires |minis| > 0 && ShortFooters(codec) && AllReadable(codec, minis)
    ensures exists run: seq<System> ::
              IsExecution(codec, AcceptAll(), minis, configured, run) && run[|run| - 1].pc == Returned(0)
  {
    var x := Setting(codec, minis, configured);
    var s := PassParts(x, |minis|);
    var workers: nat := s.remaining;
    var ended := EndWorkers(x, s, workers, 0);
    var t := Finishes(x, ended, workers);
    var run: seq<System> :| IsExecution(codec, AcceptAll(), minis, configured, run) && run[|run| - 1] == t;
  }
}
