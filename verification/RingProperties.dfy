/**
 What the scheduler relies on in the ring: it is a FIFO queue exactly when it has two slots or more,
 threads never share a slot, producers keep their order, and what an empty Pop does and does not mean.
 */
module RingProperties {
  import opened Wrappers
  import opened Ring

  // ---------------------------------------------------------------- refinement of a FIFO queue

  /** The specification: an unbounded queue with atomic operations. */
  datatype Queue<T> = Queue(items: seq<T>, closed: bool)

  function Values<T>(entries: seq<Entry<T>>): (values: seq<T>)
    ensures |values| == |entries|
    ensures forall i | 0 <= i < |entries| :: values[i] == entries[i].value
  {
    seq(|entries|, i requires 0 <= i < |entries| => entries[i].value)
  }

  /** The queue a ring state stands for: accepted values the consumer has not taken yet. */
  function Abstract<T>(s: State<T>): Queue<T>
    requires |s.delivered| <= |s.accepted|
  {
    Queue(Values(s.accepted)[|s.delivered|..], s.closed)
  }

  /**
   Refinement: the successful compare-exchange is the queue's enqueue, the move out of the slot is its
   dequeue (and hands the consumer the oldest item), Close closes, and every other atomic operation
   leaves the queue as it is.
   */
  lemma RefinesQueue<T>(s: State<T>, a: Action<T>)
    requires Inv(s) && Enabled(s, a)
    ensures var q, r, t := Abstract(s), Abstract(Apply(s, a)), Apply(s, a);
            if Accepts(s, a) then r == Queue(q.items + [s.Pc(a.id).value], q.closed)
            else if Takes(s, a) then
              q.items != [] && r == Queue(q.items[1..], q.closed) && t.pop == PopRelease(Some(q.items[0]))
            else if a.Close? then r == Queue(q.items, true)
            else r == q
  {
    ActionFrame(s, a);
    var t := Apply(s, a);
    if Accepts(s, a) {
      assert Values(t.accepted) == Values(s.accepted) + [s.Pc(a.id).value];
    } else if Takes(s, a) {
      TakeIsNext(s);
      assert Values(s.accepted)[|s.delivered|..][1..] == Values(s.accepted)[|t.delivered|..];
    }
  }

  lemma TakeIsNext<T>(s: State<T>)
    requires Inv(s) && s.pop.PopTake?
    ensures |s.delivered| < |s.accepted|
    ensures PopStep(s).pop == PopRelease(Some(s.accepted[|s.delivered|].value))
    ensures PopStep(s).delivered == s.delivered + [Some(s.accepted[|s.delivered|].value)]
  {
    assert SlotFits(s, s.dequeuePos);
  }

  /** A Pop that returns a value returns the next accepted one, never an overwritten or moved-from slot. */
  lemma PopReturnsNextAccepted<T(!new)>(capacity: nat, s: State<T>)
    requires capacity >= 2 && Reachable(capacity, s)
    ensures Fifo(s)
    ensures s.pop.PopGot? ==>
              0 < |s.delivered| <= |s.accepted| && s.pop.value == Some(s.accepted[|s.delivered| - 1].value)
  {
    ReachableInv(capacity, s);
  }

  /** The value Pop has moved out of its slot and not handed to its caller yet. */
  function InHand<T>(pop: PopPc<T>): seq<T> {
    match pop
    case PopRelease(value) => if value.Some? then [value.value] else []
    case PopAdvance(value) => if value.Some? then [value.value] else []
    case PopGot(value) => if value.Some? then [value.value] else []
    case _ => []
  }

  /** Delivered and in hand change together, by the next accepted value. */
  lemma InHandStep<T>(s: State<T>)
    requires Inv(s) && Enabled(s, StepPop)
    ensures var t := PopStep(s);
            && t.accepted == s.accepted
            && (if s.pop.PopTake? then
                  && |s.delivered| < |s.accepted| && |t.delivered| == |s.delivered| + 1
                  && InHand(s.pop) == [] && InHand(t.pop) == [s.accepted[|s.delivered|].value]
                else t.delivered == s.delivered && InHand(t.pop) == InHand(s.pop))
  {
    if s.pop.PopTake? {
      TakeIsNext(s);
    }
  }

  // ---------------------------------------------------------------- order of each producer

  function OfProducer<T>(entries: seq<Entry<T>>, id: nat): seq<T> {
    if entries == [] then []
    else
      var last := entries[|entries| - 1];
      OfProducer(entries[..|entries| - 1], id) + if last.id == id then [last.value] else []
  }

  /** The value a producer has had accepted but whose Push has not returned yet. */
  function InFlight<T>(pc: PushPc<T>): seq<T> {
    match pc
    case PushWrite(value, _) => [value]
    case PushPublish(value, _) => [value]
    case PushReturn(value, ok) => if ok then [value] else []
    case _ => []
  }

  ghost predicate ProducersInOrder<T>(s: State<T>) {
    forall id: nat :: OfProducer(s.accepted, id) == s.Sent(id) + InFlight(s.Pc(id))
  }

  /** The moving producer: what enters `accepted`, `sent` or the air is one and the same value. */
  lemma OwnHistoryStep<T>(s: State<T>, a: Action<T>)
    requires Enabled(s, a) && (a.CallPush? || a.StepPush? || a.ReturnPush?)
    ensures var t := Apply(s, a);
            t.Sent(a.id) + InFlight(t.Pc(a.id)) ==
            s.Sent(a.id) + InFlight(s.Pc(a.id)) + if Accepts(s, a) then [s.Pc(a.id).value] else []
  {
  }

  lemma OrderStep<T>(s: State<T>, a: Action<T>)
    requires Enabled(s, a) && ProducersInOrder(s)
    ensures ProducersInOrder(Apply(s, a))
  {
    var t := Apply(s, a);
    ActionFrame(s, a);
    if Accepts(s, a) {
      assert t.accepted[..|t.accepted| - 1] == s.accepted;
    }
    forall id: nat
      ensures OfProducer(t.accepted, id) == t.Sent(id) + InFlight(t.Pc(id))
    {
      assert OfProducer(s.accepted, id) == s.Sent(id) + InFlight(s.Pc(id));
      if (a.CallPush? || a.StepPush? || a.ReturnPush?) && id == a.id {
        OwnHistoryStep(s, a);
      }
    }
  }

  /**
   At every capacity, the accepted values of a producer are the values for which its Push calls
   returned true, in the order of those calls, plus at most the one still inside Push.
   */
  lemma {:induction false} ProducerOrderKept<T(!new)>(run: seq<State<T>>, capacity: nat, id: nat)
    requires IsRun(run) && run[0] == Init(capacity)
    ensures ProducersInOrder(run[|run| - 1])
    ensures var s := run[|run| - 1]; s.Pc(id).PushIdle? ==> OfProducer(s.accepted, id) == s.Sent(id)
    decreases |run|
  {
    if |run| > 1 {
      var before := run[..|run| - 1];
      assert IsRun(before) by {
        forall i | 0 <= i < |before| - 1
          ensures Next(before[i], before[i + 1])
        {
          assert Next(run[i], run[i + 1]);
        }
      }
      ProducerOrderKept(before, capacity, id);
      var s, t := run[|run| - 2], run[|run| - 1];
      assert Next(s, t);
      var a :| Enabled(s, a) && t == Apply(s, a);
      OrderStep(s, a);
    }
    var s := run[|run| - 1];
    assert OfProducer(s.accepted, id) == s.Sent(id) + InFlight(s.Pc(id));
  }

  // ---------------------------------------------------------------- slots

  datatype Thread = Pusher(id: nat) | Popper

  /** The thread's next operation reads or writes the value field of slot i. */
  predicate Touches<T>(s: State<T>, thread: Thread, i: nat)
    requires s.Capacity() > 0
  {
    match thread
    case Pusher(id) => s.Pc(id).PushWrite? && Index(s.Pc(id).pos, s.Capacity()) == i
    case Popper => s.pop.PopTake? && Index(s.dequeuePos, s.Capacity()) == i
  }

  /** No two threads are ever about to access the same slot value. */
  lemma ExclusiveSlots<T>(s: State<T>, a: Thread, b: Thread, i: nat)
    requires Inv(s) && Touches(s, a, i) && Touches(s, b, i)
    ensures a == b
  {
    if a.Pusher? {
      assert PusherFits(s, a.id);
    }
    if b.Pusher? {
      assert PusherFits(s, b.id);
    }
    if a.Pusher? && b.Pusher? {
      SameWindowDistinct(s, s.Pc(a.id).pos, s.Pc(b.id).pos);
    } else if a.Pusher? {
      SameWindowDistinct(s, s.Pc(a.id).pos, s.dequeuePos);
    } else if b.Pusher? {
      SameWindowDistinct(s, s.Pc(b.id).pos, s.dequeuePos);
    }
  }

  datatype Phase = Free | Reserved | Published

  /** What slot `Index(p)` says about position p of the live window. */
  ghost predicate InPhase<T>(s: State<T>, p: nat, phase: Phase)
    requires s.Capacity() > 0 && |s.accepted| == s.enqueuePos
  {
    var sequence := s.slots[Index(p, s.Capacity())].sequence;
    match phase
    case Free => p >= s.enqueuePos && sequence == p
    case Reserved => p < s.enqueuePos && sequence == p && Holds(s, s.accepted[p].id, p)
    case Published => p < s.enqueuePos && sequence == p + 1
  }

  /**
   Every slot belongs to exactly one live position and is in exactly one phase for it; at most
   `capacity` positions are reserved and not released.
   */
  lemma SlotPhases<T>(s: State<T>, i: nat) returns (p: nat, phase: Phase)
    requires Inv(s) && i < s.Capacity()
    ensures s.enqueuePos - s.Released() <= s.Capacity()
    ensures s.Released() <= p < s.Released() + s.Capacity()
    ensures Index(p, s.Capacity()) == i && InPhase(s, p, phase)
    ensures forall q: nat | s.Released() <= q < s.Released() + s.Capacity() && q != p ::
              Index(q, s.Capacity()) != i
    ensures forall other | InPhase(s, p, other) :: other == phase
  {
    p := IndexOnto(i, s.Released(), s.Capacity());
    assert SlotFits(s, p);
    phase := if p >= s.enqueuePos then Free
      else if s.slots[i].sequence == p then Reserved else Published;
    forall q: nat | s.Released() <= q < s.Released() + s.Capacity() && q != p
      ensures Index(q, s.Capacity()) != i
    {
      SameWindowDistinct(s, p, q);
    }
  }

  // ---------------------------------------------------------------- what an empty Pop means

  /** The next atomic operation is a sequence load that sends Pop towards returning false. */
  predicate LoadsEmpty<T>(s: State<T>) {
    && s.Capacity() > 0
    && s.pop.PopLoadSequence?
    && s.slots[Index(s.dequeuePos, s.Capacity())].sequence < s.dequeuePos + 1
  }

  /** Pop finds nothing exactly when all accepted values are delivered or the oldest is unpublished. */
  lemma EmptyLoadMeaning<T>(s: State<T>)
    requires Inv(s) && s.pop.PopLoadSequence?
    ensures LoadsEmpty(s) <==>
              || |s.delivered| == |s.accepted|
              || Holds(s, s.accepted[s.dequeuePos].id, s.dequeuePos)
  {
    assert SlotFits(s, s.dequeuePos);
    if s.dequeuePos < s.enqueuePos {
      var id := s.accepted[s.dequeuePos].id;
      if Holds(s, id, s.dequeuePos) {
        assert PusherFits(s, id);
      }
    }
  }

  /** The queue is closed and no Push that started before the close is still running. */
  predicate Sealed<T>(s: State<T>) {
    && s.closed
    && forall id | id in s.pushes ::
         s.pushes[id].PushIdle? || s.pushes[id].PushLoadClosed? || (s.pushes[id].PushReturn? && !s.pushes[id].ok)
  }

  lemma SealedStep<T>(s: State<T>, a: Action<T>)
    requires Sealed(s) && Enabled(s, a)
    ensures Sealed(Apply(s, a)) && Apply(s, a).accepted == s.accepted
  {
  }

  /** Pop is past a sequence load that found nothing, or has returned false. */
  predicate PastEmptyLoad<T>(s: State<T>) {
    s.pop.PopLoadClosed? || s.pop.PopEmpty?
  }

  /**
   Drain after close: once every Push has returned and the queue is closed, nothing is accepted any
   more, and a Pop whose sequence load happens after that returns false only when every accepted
   value has been delivered.
   */
  lemma {:induction false} DrainAfterClose<T(!new)>(run: seq<State<T>>)
    requires IsRun(run) && Inv(run[0]) && Sealed(run[0]) && !PastEmptyLoad(run[0])
    ensures var s := run[|run| - 1];
            && s.accepted == run[0].accepted
            && Sealed(s) && Inv(s)
            && (PastEmptyLoad(s) ==> |s.delivered| == |s.accepted|)
    decreases |run|
  {
    hide Inv;
    if |run| > 1 {
      var before := run[..|run| - 1];
      assert IsRun(before) by {
        forall i | 0 <= i < |before| - 1
          ensures Next(before[i], before[i + 1])
        {
          assert Next(run[i], run[i + 1]);
        }
      }
      DrainAfterClose(before);
      var s, t := run[|run| - 2], run[|run| - 1];
      assert Next(s, t);
      var a :| Enabled(s, a) && t == Apply(s, a);
      StepInv(s, a);
      SealedStep(s, a);
      if a.StepPop? && s.pop.PopLoadSequence? {
        EmptyLoadMeaning(s);
      }
    }
  }
}
