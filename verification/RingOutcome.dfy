/** What Push and Pop return, and when they return at all. */
module RingOutcome {
  import opened Wrappers
  import opened Ring
  import opened RingProperties
  import opened RingRuns

  // ---------------------------------------------------------------- false means closed

  /** An operation that is about to return false stands in a closed ring. */
  ghost predicate FalseMeansClosed<T>(s: State<T>) {
    && (s.pop.PopEmpty? ==> s.closed)
    && forall id | id in s.pushes && s.pushes[id].PushReturn? && !s.pushes[id].ok :: s.closed
  }

  lemma FalseStep<T>(s: State<T>, a: Action<T>)
    requires FalseMeansClosed(s) && Enabled(s, a)
    ensures FalseMeansClosed(Apply(s, a))
  {
  }

  /** At every capacity and in every run, Push and Pop return false only in a closed ring. */
  lemma {:induction false} FalseOnlyWhenClosed<T(!new)>(run: seq<State<T>>, capacity: nat)
    requires IsRun(run) && run[0] == Init(capacity)
    ensures FalseMeansClosed(run[|run| - 1])
    decreases |run|
  {
    if |run| > 1 {
      var before := run[..|run| - 1];
      assert IsRun(before) by {
        forall i | 0 <= i < |before| - 1
          ensures Next(before[i], before[i + 1])
        {
          assert Next(run[i], run[i + 1]);
        }
      }
      FalseOnlyWhenClosed(before, capacity);
      var s, t := run[|run| - 2], run[|run| - 1];
      assert Next(s, t);
      var a :| Enabled(s, a) && t == Apply(s, a);
      FalseStep(s, a);
    }
  }

  // ---------------------------------------------------------------- Pop alone

  /** The oldest position holds a published value. */
  predicate HeadPublished<T>(s: State<T>) {
    s.Capacity() > 0 && s.slots[Index(s.dequeuePos, s.Capacity())].sequence == s.dequeuePos + 1
  }

  lemma {:induction false} PopStepsSum<T>(r: State<T>, m: nat, n: nat)
    ensures PopSteps(r, m + n) == PopSteps(PopSteps(r, m), n)
    decreases n
  {
    hide Enabled, Apply;
    if n > 0 {
      PopStepsSum(r, m, n - 1);
    }
  }

  lemma {:induction false} PushStepsSum<T>(r: State<T>, id: nat, m: nat, n: nat)
    ensures PushSteps(r, id, m + n) == PushSteps(PushSteps(r, id, m), id, n)
    decreases n
  {
    hide Enabled, Apply;
    if n > 0 {
      PushStepsSum(r, id, m, n - 1);
    }
  }

  lemma PopAloneTakes<T>(r: State<T>)
    requires r.pop.PopLoadSequence? && HeadPublished(r)
    ensures PopSteps(r, 4).pop == PopGot(r.slots[Index(r.dequeuePos, r.Capacity())].value)
  {
    hide Index, PopSteps;
    PopTakes(r);
    PopReleases(PopSteps(r, 2), r.slots[Index(r.dequeuePos, r.Capacity())].value);
    PopStepsSum(r, 2, 2);
  }

  lemma PopAloneEnds<T>(r: State<T>)
    requires r.Capacity() > 0 && r.pop.PopLoadSequence? && r.closed
    requires r.slots[Index(r.dequeuePos, r.Capacity())].sequence < r.dequeuePos + 1
    ensures PopSteps(r, 2) == r.(pop := PopEmpty)
  {
    hide Index, PopSteps;
    PopFindsNothing(r);
    PopEnds(PopSteps(r, 1));
    PopStepsSum(r, 1, 1);
  }

  /** Nothing published and not closed: Pop goes round between its two loads. */
  lemma {:induction false} PopAloneWaits<T>(r: State<T>, n: nat)
    requires r.Capacity() > 0 && !r.closed && r.pop.PopLoadSequence?
    requires r.slots[Index(r.dequeuePos, r.Capacity())].sequence < r.dequeuePos + 1
    ensures var t := PopSteps(r, n);
            t == r.(pop := t.pop) && (t.pop.PopLoadSequence? || t.pop.PopLoadClosed?)
  {
    hide Index;
    if n > 0 {
      PopAloneWaits(r, n - 1);
    }
  }

  lemma {:induction false} PopStays<T>(r: State<T>, n: nat)
    requires r.pop.PopGot? || r.pop.PopEmpty?
    ensures PopSteps(r, n) == r
  {
    if n > 0 {
      PopStays(r, n - 1);
    }
  }

  /** The first four operations of a Pop that finds a value. */
  lemma PopTakesSteps<T>(r: State<T>, n: nat)
    requires r.pop.PopLoadSequence? && HeadPublished(r) && n < 4
    ensures !PopSteps(r, n).pop.PopGot? && !PopSteps(r, n).pop.PopEmpty?
  {
    hide Index, PopSteps;
    NoPush(r, 0);
    PopTakes(r);
    assert CanPop(r, 2) && Enabled(PopSteps(r, 0), StepPop) && Enabled(PopSteps(r, 1), StepPop);
    var t := PopSteps(r, 2);
    PopReleases(t, r.slots[Index(r.dequeuePos, r.Capacity())].value);
    NoPush(t, 0);
    PopStepsSum(r, 2, 1);
    assert CanPop(t, 2) && Enabled(PopSteps(t, 0), StepPop) && Enabled(PopSteps(t, 1), StepPop);
  }

  lemma PopPublishedReturns<T>(r: State<T>, n: nat)
    requires r.pop.PopLoadSequence? && HeadPublished(r)
    ensures var value := r.slots[Index(r.dequeuePos, r.Capacity())].value;
            if n < 4 then !PopSteps(r, n).pop.PopGot? && !PopSteps(r, n).pop.PopEmpty?
            else PopSteps(r, n).pop == PopGot(value)
  {
    hide Index, PopSteps;
    if n < 4 {
      PopTakesSteps(r, n);
    } else {
      PopAloneTakes(r);
      PopStepsSum(r, 4, n - 4);
      PopStays(PopSteps(r, 4), n - 4);
    }
  }

  lemma PopClosedReturns<T>(r: State<T>, n: nat)
    requires r.Capacity() > 0 && r.pop.PopLoadSequence? && r.closed
    requires r.slots[Index(r.dequeuePos, r.Capacity())].sequence < r.dequeuePos + 1
    ensures !PopSteps(r, n).pop.PopGot? && (n >= 2 ==> PopSteps(r, n).pop.PopEmpty?)
  {
    hide Index, PopSteps;
    if n == 0 {
      NoPush(r, 0);
    } else if n == 1 {
      PopFindsNothing(r);
    } else {
      PopAloneEnds(r);
      PopStepsSum(r, 2, n - 2);
      PopStays(PopSteps(r, 2), n - 2);
    }
  }

  /**
   A Pop that no other thread interrupts returns the oldest accepted value exactly when that value is published,
   false exactly when it is not and the ring is closed, and otherwise waits.
   */
  lemma PopAloneExactly<T(!new)>(s: State<T>)
    requires Inv(s) && s.pop.PopLoadSequence?
    ensures (exists n: nat :: PopSteps(s, n).pop.PopGot?) <==> HeadPublished(s)
    ensures (exists n: nat :: PopSteps(s, n).pop.PopEmpty?) <==> !HeadPublished(s) && s.closed
    ensures HeadPublished(s) ==>
              |s.delivered| < |s.accepted| &&
              exists n: nat :: PopSteps(s, n).pop == PopGot(Some(s.accepted[|s.delivered|].value))
  {
    hide Index, PopSteps;
    assert SlotFits(s, s.dequeuePos);
    if HeadPublished(s) {
      forall n: nat
        ensures !PopSteps(s, n).pop.PopEmpty?
      {
        PopPublishedReturns(s, n);
      }
      PopPublishedReturns(s, 4);
      assert PopSteps(s, 4).pop.PopGot?;
    } else if s.closed {
      forall n: nat
        ensures !PopSteps(s, n).pop.PopGot?
      {
        PopClosedReturns(s, n);
      }
      PopClosedReturns(s, 2);
      assert PopSteps(s, 2).pop.PopEmpty?;
    } else {
      forall n: nat
        ensures !PopSteps(s, n).pop.PopGot? && !PopSteps(s, n).pop.PopEmpty?
      {
        PopAloneWaits(s, n);
      }
    }
  }

  /** Wherever a Pop stands, it can return once the ring is closed or a value is there for it. */
  lemma PopAloneReturns<T>(s: State<T>) returns (n: nat)
    requires Inv(s) && !s.pop.PopIdle?
    requires s.closed || HeadPublished(s) || !(s.pop.PopLoadSequence? || s.pop.PopLoadClosed?)
    ensures PopSteps(s, n).pop.PopGot? || PopSteps(s, n).pop.PopEmpty?
  {
    hide Index, PopSteps;
    NoPush(s, 0);
    assert SlotFits(s, s.Released());
    n := 0;
    if s.pop.PopLoadSequence? && HeadPublished(s) {
      PopAloneTakes(s);
      n := 4;
    } else if s.pop.PopLoadSequence? {
      PopAloneEnds(s);
      n := 2;
    } else if s.pop.PopLoadClosed? {
      OnePop(s, 0);
      n := 1;
      if !s.closed {
        PopAloneTakes(PopSteps(s, 1));
        PopStepsSum(s, 1, 4);
        n := 5;
      }
    } else if s.pop.PopTake? {
      OnePop(s, 0);
      PopReleases(PopSteps(s, 1), PopSteps(s, 1).pop.value);
      PopStepsSum(s, 1, 2);
      n := 3;
    } else if s.pop.PopRelease? {
      PopReleases(s, s.pop.value);
      n := 2;
    } else if s.pop.PopAdvance? {
      OnePop(s, 0);
      n := 1;
    }
  }

  // ---------------------------------------------------------------- Push alone

  /** Fewer than capacity positions are reserved and not handed back. */
  predicate HasRoom<T>(s: State<T>) {
    s.enqueuePos < s.Released() + s.Capacity()
  }

  /** In a ring with two slots or more, the tail slot says free exactly when there is room. */
  lemma FreeMeansRoom<T>(s: State<T>)
    requires Inv(s)
    ensures s.slots[Index(s.enqueuePos, s.Capacity())].sequence == s.enqueuePos <==> HasRoom(s)
  {
    if HasRoom(s) {
      assert SlotFits(s, s.enqueuePos);
    } else if s.slots[Index(s.enqueuePos, s.Capacity())].sequence == s.enqueuePos {
      ReserveHasRoom(s);
    }
  }

  /** Open and with room: six operations later the value is accepted, stored and published. */
  lemma PushAloneAccepts<T>(r: State<T>, id: nat, value: T)
    requires ReadyToPush(r, id, value)
    ensures PushSteps(r, id, 6).Pc(id) == PushReturn(value, true)
    ensures PushSteps(r, id, 6).accepted == r.accepted + [Entry(id, value)]
    ensures PushSteps(r, id, 6).slots ==
            r.slots[Index(r.enqueuePos, r.Capacity()) := Slot(r.enqueuePos + 1, Some(value))]
  {
    hide Index, PushSteps;
    PushWrites(r, id, value);
    PushPublishes(PushSteps(r, id, 5), id, value, r.enqueuePos);
    PushStepsSum(r, id, 5, 1);
  }

  lemma PushAloneRefused<T>(r: State<T>, id: nat, value: T)
    requires r.Capacity() > 0 && r.closed && r.Pc(id) == PushLoadClosed(value)
    ensures PushSteps(r, id, 1) == r.(pushes := r.pushes[id := PushReturn(value, false)])
  {
    hide Index, PushSteps;
    NoPush(r, id);
    OnePush(r, id, 0);
  }

  /** Where a Push stands that waits for room. */
  ghost predicate WaitsForRoom<T>(r: State<T>, pc: PushPc<T>, value: T) {
    pc == PushLoadClosed(value) || pc == PushLoadPos(value) || pc == PushLoadSequence(value, r.enqueuePos)
  }

  lemma WaitStep<T>(r: State<T>, id: nat, value: T)
    requires r.Capacity() > 0 && !r.closed && WaitsForRoom(r, r.Pc(id), value)
    requires r.slots[Index(r.enqueuePos, r.Capacity())].sequence != r.enqueuePos
    ensures Enabled(r, StepPush(id, false))
    ensures var t := Apply(r, StepPush(id, false));
            t == r.(pushes := r.pushes[id := t.Pc(id)]) && WaitsForRoom(r, t.Pc(id), value)
  {
    hide Index;
  }

  /** Open and full: Push goes round between its loads and changes nothing but its own place. */
  lemma {:induction false} PushAloneWaits<T>(r: State<T>, id: nat, value: T, n: nat)
    requires r.Capacity() > 0 && !r.closed && r.Pc(id) == PushLoadClosed(value)
    requires r.slots[Index(r.enqueuePos, r.Capacity())].sequence != r.enqueuePos
    ensures var t := PushSteps(r, id, n);
            (t == r || t == r.(pushes := r.pushes[id := t.Pc(id)])) && WaitsForRoom(r, t.Pc(id), value)
  {
    hide Index, Apply, Enabled;
    if n > 0 {
      PushAloneWaits(r, id, value, n - 1);
      var t := PushSteps(r, id, n - 1);
      WaitStep(t, id, value);
      var after := PushSteps(r, id, n).Pc(id);
      assert r.pushes[id := t.Pc(id)][id := after] == r.pushes[id := after];
    }
  }

  lemma {:induction false} PushStays<T>(r: State<T>, id: nat, n: nat)
    requires r.Pc(id).PushReturn?
    ensures PushSteps(r, id, n) == r
  {
    if n > 0 {
      PushStays(r, id, n - 1);
    }
  }

  lemma {:induction false} PushSeesFlag<T>(r: State<T>, id: nat, n: nat)
    requires !r.closed && (r.Pc(id).PushReturn? ==> r.Pc(id).ok)
    ensures var t := PushSteps(r, id, n); !t.closed && (t.Pc(id).PushReturn? ==> t.Pc(id).ok)
  {
    if n > 0 {
      PushSeesFlag(r, id, n - 1);
    }
  }

  lemma PushRefusedStays<T>(r: State<T>, id: nat, value: T, n: nat)
    requires r.Capacity() > 0 && r.closed && r.Pc(id) == PushLoadClosed(value)
    ensures PushSteps(r, id, n).Pc(id) == if n == 0 then PushLoadClosed(value) else PushReturn(value, false)
  {
    hide Index, PushSteps;
    if n == 0 {
      NoPush(r, id);
    } else {
      PushAloneRefused(r, id, value);
      PushStepsSum(r, id, 1, n - 1);
      PushStays(PushSteps(r, id, 1), id, n - 1);
    }
  }

  /**
   A Push that no other thread interrupts returns true exactly when the ring is open and has room, false exactly
   when it is closed, and otherwise waits.
   */
  lemma PushAloneExactly<T(!new)>(s: State<T>, id: nat, value: T)
    requires Inv(s) && s.Pc(id) == PushLoadClosed(value)
    ensures (exists n: nat :: PushSteps(s, id, n).Pc(id) == PushReturn(value, true)) <==> !s.closed && HasRoom(s)
    ensures (exists n: nat :: PushSteps(s, id, n).Pc(id) == PushReturn(value, false)) <==> s.closed
  {
    hide Index, PushSteps;
    FreeMeansRoom(s);
    if s.closed {
      forall n: nat
        ensures PushSteps(s, id, n).Pc(id) != PushReturn(value, true)
      {
        PushRefusedStays(s, id, value, n);
      }
      PushRefusedStays(s, id, value, 1);
      assert PushSteps(s, id, 1).Pc(id) == PushReturn(value, false);
    } else {
      forall n: nat
        ensures PushSteps(s, id, n).Pc(id) != PushReturn(value, false)
        ensures !HasRoom(s) ==> PushSteps(s, id, n).Pc(id) != PushReturn(value, true)
      {
        PushSeesFlag(s, id, n);
        if !HasRoom(s) {
          PushAloneWaits(s, id, value, n);
        }
      }
      if HasRoom(s) {
        PushAloneAccepts(s, id, value);
        assert PushSteps(s, id, 6).Pc(id) == PushReturn(value, true);
      }
    }
  }

  /** How many operations are left at most, when nobody interferes. */
  function PushRank<T>(s: State<T>, id: nat): nat
    requires s.Capacity() > 0
  {
    match s.Pc(id)
    case PushLoadClosed(_) => if s.closed then 1 else 6
    case PushLoadPos(_) => 5
    case PushLoadSequence(_, pos) =>
      if pos < s.enqueuePos then 8
      else if s.slots[Index(pos, s.Capacity())].sequence == pos then 4
      else 2
    case PushReserve(_, pos) => if pos == s.enqueuePos then 3 else 7
    case PushWrite(_, _) => 2
    case PushPublish(_, _) => 1
    case _ => 0
  }

  lemma PushRankFalls<T>(s: State<T>, id: nat)
    requires Inv(s) && Enabled(s, StepPush(id, false))
    requires s.closed || HasRoom(s) || s.Pc(id).PushWrite? || s.Pc(id).PushPublish?
    ensures var t := Apply(s, StepPush(id, false));
            && PushRank(t, id) < PushRank(s, id)
            && (t.closed || HasRoom(t) || t.Pc(id).PushWrite? || t.Pc(id).PushPublish? || t.Pc(id).PushReturn?)
  {
    FreeMeansRoom(s);
    assert PusherFits(s, id);
  }

  /** Wherever a Push stands, it can return once the ring is closed or has room. */
  lemma {:induction false} PushAloneReturns<T>(s: State<T>, id: nat) returns (n: nat)
    requires Inv(s) && !s.Pc(id).PushIdle?
    requires s.closed || HasRoom(s) || s.Pc(id).PushWrite? || s.Pc(id).PushPublish? || s.Pc(id).PushReturn?
    ensures n <= 8 && n <= PushRank(s, id) && PushSteps(s, id, n).Pc(id).PushReturn?
    decreases PushRank(s, id)
  {
    hide Index, PushSteps, Inv;
    NoPush(s, id);
    n := 0;
    if !s.Pc(id).PushReturn? {
      assert s.Capacity() > 0 by {
        InvCapacity(s);
      }
      PushRankFalls(s, id);
      StepInv(s, StepPush(id, false));
      OnePush(s, id, 0);
      StillPushing(s, id);
      var m := PushAloneReturns(PushSteps(s, id, 1), id);
      PushStepsSum(s, id, 1, m);
      n := 1 + m;
    }
  }

  lemma InvCapacity<T>(s: State<T>)
    requires Inv(s)
    ensures s.Capacity() >= 2
  {
  }

  lemma StillPushing<T>(s: State<T>, id: nat)
    requires Enabled(s, StepPush(id, false))
    ensures !Apply(s, StepPush(id, false)).Pc(id).PushIdle?
  {
  }

  // ---------------------------------------------------------------- what moves when one thread runs alone

  lemma HasSlots<T>(r: State<T>, a: Action<T>)
    requires Enabled(r, a)
    ensures r.Capacity() > 0
  {
  }

  lemma {:induction false} PushStepsFrame<T>(r: State<T>, id: nat, n: nat)
    ensures var t := PushSteps(r, id, n);
            && t.delivered == r.delivered && t.pop == r.pop && t.closed == r.closed && t.Capacity() == r.Capacity()
            && |t.accepted| >= |r.accepted|
            && |t.accepted| - |r.accepted| == |InFlight(t.Pc(id))| - |InFlight(r.Pc(id))|
  {
    hide Index, Apply, Enabled, InFlight;
    if n > 0 {
      PushStepsFrame(r, id, n - 1);
      var before := PushSteps(r, id, n - 1);
      if Enabled(before, StepPush(id, false)) {
        FlightStep(before, id);
      }
    }
  }

  lemma FlightStep<T>(r: State<T>, id: nat)
    requires Enabled(r, StepPush(id, false))
    ensures var t := Apply(r, StepPush(id, false));
            && t.delivered == r.delivered && t.pop == r.pop && t.closed == r.closed && t.Capacity() == r.Capacity()
            && |t.accepted| >= |r.accepted|
            && |t.accepted| - |r.accepted| == |InFlight(t.Pc(id))| - |InFlight(r.Pc(id))|
  {
    hide Index;
  }

  lemma AcceptedAtMostOne<T>(r: State<T>, t: State<T>, id: nat)
    requires t.Pc(id).PushReturn?
    requires |t.accepted| - |r.accepted| == |InFlight(t.Pc(id))| - |InFlight(r.Pc(id))|
    ensures |t.accepted| <= |r.accepted| + 1
  {
  }

  /** Pop has moved a value out of its slot. */
  predicate Took<T>(pop: PopPc<T>) {
    pop.PopRelease? || pop.PopAdvance? || pop.PopGot?
  }

  lemma {:induction false} PopStepsFrame<T>(r: State<T>, n: nat)
    requires !r.pop.PopIdle?
    ensures var t := PopSteps(r, n);
            && t.accepted == r.accepted && t.pushes == r.pushes && t.closed == r.closed && !t.pop.PopIdle?
            && |t.delivered| >= |r.delivered|
            && |t.delivered| - |r.delivered| == (if Took(t.pop) then 1 else 0) - (if Took(r.pop) then 1 else 0)
  {
    hide Index, Apply, Enabled, Took;
    if n > 0 {
      PopStepsFrame(r, n - 1);
      var before := PopSteps(r, n - 1);
      if Enabled(before, StepPop) {
        TakenStep(before);
      }
    }
  }

  lemma TakenStep<T>(r: State<T>)
    requires Enabled(r, StepPop)
    ensures var t := Apply(r, StepPop);
            && t.accepted == r.accepted && t.pushes == r.pushes && t.closed == r.closed && !t.pop.PopIdle?
            && |t.delivered| >= |r.delivered|
            && |t.delivered| - |r.delivered| == (if Took(t.pop) then 1 else 0) - (if Took(r.pop) then 1 else 0)
  {
    hide Index;
  }
}
