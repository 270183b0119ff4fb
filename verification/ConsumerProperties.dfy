/**
 What the ordered consumer keeps at every step, whatever the order in which partitions' messages arrive and
 whichever calls the sink refuses.
 */
module ConsumerProperties {
  import opened OrderedSink
  import opened OrderedConsumer

  // ---------------------------------------------------------------- what was received

  /** Number of batches received for part p. */
  function Got<B>(received: seq<Message<B>>, p: nat): nat {
    if received == [] then 0
    else
      var last := received[|received| - 1];
      Got(received[..|received| - 1], p) + if last.BatchMessage? && last.part == p then 1 else 0
  }

  /** Part p's end mark was received. */
  predicate Ended<B>(received: seq<Message<B>>, p: nat) {
    received != [] &&
    var last := received[|received| - 1];
    (last.EndPartition? && last.part == p) || Ended(received[..|received| - 1], p)
  }

  /** message may follow `received` when part p's producer sends the batches of plan[p - 1] and then an end mark. */
  ghost predicate MayFollow<B>(plan: seq<seq<B>>, received: seq<Message<B>>, message: Message<B>) {
    match message
    case BatchMessage(p, batch) =>
      && 1 <= p <= |plan| && !Ended(received, p)
      && Got(received, p) < |plan[p - 1]| && batch == plan[p - 1][Got(received, p)]
    case EndPartition(p) =>
      1 <= p <= |plan| && !Ended(received, p) && Got(received, p) == |plan[p - 1]|
    case ErrorMessage(p) => true
  }

  /** Any interleaving of the producers' messages. */
  ghost predicate Legal<B>(plan: seq<seq<B>>, received: seq<Message<B>>) {
    received == [] ||
    (Legal(plan, received[..|received| - 1]) &&
     MayFollow(plan, received[..|received| - 1], received[|received| - 1]))
  }

  lemma {:induction false} LegalCounts<B>(plan: seq<seq<B>>, received: seq<Message<B>>, p: nat)
    requires Legal(plan, received) && 1 <= p <= |plan|
    ensures Got(received, p) <= |plan[p - 1]|
    ensures Ended(received, p) ==> Got(received, p) == |plan[p - 1]|
  {
    if received != [] {
      LegalCounts(plan, received[..|received| - 1], p);
    }
  }

  lemma {:induction false} LegalPrefix<B>(plan: seq<seq<B>>, received: seq<Message<B>>, n: nat)
    requires Legal(plan, received) && n <= |received|
    ensures Legal(plan, received[..n])
    decreases |received|
  {
    if n < |received| {
      var init := received[..|received| - 1];
      LegalPrefix(plan, init, n);
      assert init[..n] == received[..n];
    } else {
      assert received[..n] == received;
    }
  }

  /** The batches of part p among the received messages, in arrival order. */
  function Received<B>(received: seq<Message<B>>, p: nat): seq<B> {
    if received == [] then []
    else
      var last := received[|received| - 1];
      Received(received[..|received| - 1], p) + if last.BatchMessage? && last.part == p then [last.batch] else []
  }

  lemma {:induction false} ReceivedIsPlanPrefix<B>(plan: seq<seq<B>>, received: seq<Message<B>>, p: nat)
    requires Legal(plan, received) && 1 <= p <= |plan|
    ensures Got(received, p) <= |plan[p - 1]|
    ensures Received(received, p) == plan[p - 1][..Got(received, p)]
  {
    LegalCounts(plan, received, p);
    if received != [] {
      ReceivedIsPlanPrefix(plan, received[..|received| - 1], p);
    }
  }

  // ---------------------------------------------------------------- the invariant

  function Buffered<B>(c: Consumer<B>, p: nat): seq<B> {
    if p in c.states then c.states[p].batches else []
  }

  predicate Begun<B>(c: Consumer<B>, p: nat) {
    p in c.states && c.states[p].begun
  }

  /** How many batches of part p the sink has accepted. */
  function Passed<B>(c: Consumer<B>, received: seq<Message<B>>, p: nat): int {
    Got(received, p) - |Buffered(c, p)|
  }

  /** Part p's buffer holds exactly the received batches that were not written yet. */
  ghost predicate PartFits<B>(c: Consumer<B>, plan: seq<seq<B>>, received: seq<Message<B>>, p: nat)
    requires 1 <= p <= |plan|
  {
    && 0 <= Passed(c, received, p) <= Got(received, p) <= |plan[p - 1]|
    && Buffered(c, p) == plan[p - 1][Passed(c, received, p)..Got(received, p)]
    && ((p in c.states && c.states[p].completed) <==> Ended(received, p))
    && (!Begun(c, p) ==> Passed(c, received, p) == 0)
    && (p > c.expected ==> !Begun(c, p))
    && (Begun(c, p) ==> plan[p - 1] != [])
  }

  /** Where the sink stands: `count` batches into part e's bracket, or before it when begun is false. */
  predicate IsPoint<B>(plan: seq<seq<B>>, e: nat, begun: bool, count: int) {
    && 1 <= e <= |plan| + 1
    && (if begun then e <= |plan| && 0 <= count <= |plan[e - 1]| else count == 0)
  }

  /** The calls that bring the sink to a point, one at a time. */
  function Log<B>(plan: seq<seq<B>>, e: nat, begun: bool, count: int): seq<Call<B>>
    requires IsPoint(plan, e, begun, count)
    decreases e, begun, count
  {
    if begun && count > 0 then Log(plan, e, true, count - 1) + [Write(plan[e - 1][count - 1])]
    else if begun then Log(plan, e, false, 0) + [Begin(e)]
    else if e == 1 then [OpenTable]
    else if plan[e - 2] == [] then Log(plan, e - 1, false, 0)
    else Log(plan, e - 1, true, |plan[e - 2]|) + [End]
  }

  /** Only parts that are due have buffers, and every part before the expected one has ended. */
  ghost predicate Placed<B>(c: Consumer<B>, plan: seq<seq<B>>, received: seq<Message<B>>) {
    && c.partCount == |plan|
    && 1 <= c.expected <= |plan| + 1
    && (forall p | p in c.states :: c.expected <= p <= |plan|)
    && (forall p | 1 <= p < c.expected :: Ended(received, p))
  }

  ghost predicate BuffersFit<B>(c: Consumer<B>, plan: seq<seq<B>>, received: seq<Message<B>>) {
    1 <= c.expected && forall p | c.expected <= p <= |plan| :: PartFits(c, plan, received, p)
  }

  /** The sink accepted exactly the calls that lead to the point the consumer has reached. */
  ghost predicate Logged<B>(c: Consumer<B>, plan: seq<seq<B>>, received: seq<Message<B>>) {
    var count := if Begun(c, c.expected) then Passed(c, received, c.expected) else 0;
    && IsPoint(plan, c.expected, Begun(c, c.expected), count)
    && c.sink.accepted == Log(plan, c.expected, Begun(c, c.expected), count)
  }

  ghost predicate Consistent<B>(c: Consumer<B>, plan: seq<seq<B>>, received: seq<Message<B>>) {
    Placed(c, plan, received) && BuffersFit(c, plan, received) && Logged(c, plan, received)
  }

  lemma StartConsistent<B>(plan: seq<seq<B>>, sink: Sink<B>)
    requires sink.accepted == [OpenTable]
    ensures Consistent(StartConsumer(|plan|, sink), plan, [])
  {
    var c := StartConsumer(|plan|, sink);
    forall p | c.expected <= p <= |plan|
      ensures PartFits(c, plan, [], p)
    {
    }
    assert Log(plan, 1, false, 0) == [OpenTable];
  }

  // ---------------------------------------------------------------- one sink call at a time

  lemma BeginStep<B(!new)>(c: Consumer<B>, plan: seq<seq<B>>, received: seq<Message<B>>, sink: Sink<B>)
    requires Consistent(c, plan, received)
    requires c.expected <= c.partCount && c.expected in c.states
    requires c.states[c.expected].batches != [] && !c.states[c.expected].begun
    requires sink.accepted == c.sink.accepted + [Begin(c.expected)]
    ensures Consistent(AfterBegin(c, sink), plan, received)
  {
    var d := AfterBegin(c, sink);
    assert BuffersFit(d, plan, received) by {
      forall p | d.expected <= p <= |plan|
        ensures PartFits(d, plan, received, p)
      {
        assert PartFits(c, plan, received, p);
      }
    }
    assert PartFits(c, plan, received, c.expected);
  }

  lemma WriteFits<B(!new)>(
      c: Consumer<B>, plan: seq<seq<B>>, received: seq<Message<B>>, sink: Sink<B>, p: nat)
    requires 1 <= c.expected <= p <= |plan| && c.expected in c.states
    requires PartFits(c, plan, received, p)
    requires c.states[c.expected].batches != [] && c.states[c.expected].begun
    ensures PartFits(AfterWrite(c, sink), plan, received, p)
  {
    if p == c.expected {
      var batches, k := plan[p - 1], Passed(c, received, p);
      assert batches[k..Got(received, p)][1..] == batches[k + 1..Got(received, p)];
    }
  }

  lemma WriteStep<B(!new)>(c: Consumer<B>, plan: seq<seq<B>>, received: seq<Message<B>>, sink: Sink<B>)
    requires Consistent(c, plan, received)
    requires c.expected <= c.partCount && c.expected in c.states
    requires c.states[c.expected].batches != [] && c.states[c.expected].begun
    requires sink.accepted == c.sink.accepted + [Write(c.states[c.expected].batches[0])]
    ensures Consistent(AfterWrite(c, sink), plan, received)
  {
    var d := AfterWrite(c, sink);
    assert BuffersFit(d, plan, received) by {
      forall p | d.expected <= p <= |plan|
        ensures PartFits(d, plan, received, p)
      {
        WriteFits(c, plan, received, sink, p);
      }
    }
    WriteLogged(c, plan, received, sink);
  }

  lemma WriteLogged<B(!new)>(c: Consumer<B>, plan: seq<seq<B>>, received: seq<Message<B>>, sink: Sink<B>)
    requires Logged(c, plan, received)
    requires c.expected <= |plan| && PartFits(c, plan, received, c.expected) && c.expected in c.states
    requires c.states[c.expected].batches != [] && c.states[c.expected].begun
    requires sink.accepted == c.sink.accepted + [Write(c.states[c.expected].batches[0])]
    ensures Logged(AfterWrite(c, sink), plan, received)
  {
    var k := Passed(c, received, c.expected);
    assert c.states[c.expected].batches[0] == plan[c.expected - 1][k];
    assert Log(plan, c.expected, true, k + 1) == Log(plan, c.expected, true, k) + [Write(plan[c.expected - 1][k])];
  }

  lemma EndStep<B(!new)>(c: Consumer<B>, plan: seq<seq<B>>, received: seq<Message<B>>, sink: Sink<B>)
    requires Legal(plan, received) && Consistent(c, plan, received)
    requires c.expected <= c.partCount && c.expected in c.states
    requires c.states[c.expected].batches == [] && c.states[c.expected].completed
    requires sink.accepted == c.sink.accepted + if c.states[c.expected].begun then [End] else []
    ensures Consistent(AfterEnd(c, sink), plan, received)
  {
    var d := AfterEnd(c, sink);
    assert PartFits(c, plan, received, c.expected);
    assert BuffersFit(d, plan, received) by {
      forall p | d.expected <= p <= |plan|
        ensures PartFits(d, plan, received, p)
      {
        assert PartFits(c, plan, received, p);
      }
    }
    if c.expected + 1 <= |plan| {
      assert PartFits(c, plan, received, c.expected + 1);
    }
    EndLogged(c, plan, received, sink);
  }

  /** The finished part's calls become a whole bracket, or nothing when it had no batch. */
  lemma EndLogged<B(!new)>(c: Consumer<B>, plan: seq<seq<B>>, received: seq<Message<B>>, sink: Sink<B>)
    requires Legal(plan, received) && Logged(c, plan, received)
    requires c.expected <= |plan| && PartFits(c, plan, received, c.expected) && c.expected in c.states
    requires c.states[c.expected].batches == [] && c.states[c.expected].completed
    requires !Begun(c, c.expected + 1)
    requires sink.accepted == c.sink.accepted + if c.states[c.expected].begun then [End] else []
    ensures Logged(AfterEnd(c, sink), plan, received)
  {
    var e := c.expected;
    LegalCounts(plan, received, e);
    assert Passed(c, received, e) == |plan[e - 1]|;
    if !c.states[e].begun {
      NothingAppended(c.sink.accepted);
    }
    assert Log(plan, e + 1, false, 0) ==
      if plan[e - 1] == [] then Log(plan, e, false, 0) else Log(plan, e, true, |plan[e - 1]|) + [End];
  }

  lemma RefusedStep<B(!new)>(c: Consumer<B>, plan: seq<seq<B>>, received: seq<Message<B>>, sink: Sink<B>)
    requires Consistent(c, plan, received) && sink.accepted == c.sink.accepted
    ensures Consistent(c.(sink := sink), plan, received)
  {
    var d := c.(sink := sink);
    assert BuffersFit(d, plan, received) by {
      forall p | d.expected <= p <= |plan|
        ensures PartFits(d, plan, received, p)
      {
        assert PartFits(c, plan, received, p);
      }
    }
  }

  lemma ExpectedFits<B(!new)>(c: Consumer<B>, plan: seq<seq<B>>, received: seq<Message<B>>)
    requires Consistent(c, plan, received)
    ensures c.partCount == |plan| && 1 <= c.expected <= |plan| + 1
    ensures c.expected <= |plan| ==>
              ((c.expected in c.states && c.states[c.expected].completed) <==> Ended(received, c.expected))
  {
    if c.expected <= |plan| {
      assert PartFits(c, plan, received, c.expected);
    }
  }

  /** Draining keeps the invariant, whatever the sink refuses. */
  lemma {:induction false} DrainKeeps<B(!new)>(
      c: Consumer<B>, oracle: Oracle<B>, plan: seq<seq<B>>, received: seq<Message<B>>)
    requires Legal(plan, received) && Consistent(c, plan, received)
    ensures Consistent(Drain(c, oracle).0, plan, received)
    decreases c.partCount + 1 - c.expected,
              if c.expected in c.states then |c.states[c.expected].batches| else 0,
              if c.expected in c.states && c.states[c.expected].begun then 0 else 1
  {
    if c.expected <= c.partCount && c.expected in c.states {
      var state := c.states[c.expected];
      if state.batches != [] && !state.begun {
        DrainBeginKeeps(c, oracle, plan, received);
      } else if state.batches != [] {
        DrainWriteKeeps(c, oracle, plan, received);
      } else if state.completed {
        DrainEndKeeps(c, oracle, plan, received);
      }
    }
  }

  lemma {:induction false} DrainBeginKeeps<B(!new)>(
      c: Consumer<B>, oracle: Oracle<B>, plan: seq<seq<B>>, received: seq<Message<B>>)
    requires Legal(plan, received) && Consistent(c, plan, received)
    requires c.expected <= c.partCount && c.expected in c.states
    requires c.states[c.expected].batches != [] && !c.states[c.expected].begun
    ensures Consistent(Drain(c, oracle).0, plan, received)
    decreases c.partCount + 1 - c.expected, |c.states[c.expected].batches|, 1, 0
  {
    var accepts := Allows(oracle, c.sink, Begin(c.expected));
    var sink := c.sink.Attempt(Begin(c.expected), accepts);
    if accepts {
      BeginStep(c, plan, received, sink);
      DrainKeeps(AfterBegin(c, sink), oracle, plan, received);
    } else {
      RefusedStep(c, plan, received, sink);
    }
  }

  lemma {:induction false} DrainWriteKeeps<B(!new)>(
      c: Consumer<B>, oracle: Oracle<B>, plan: seq<seq<B>>, received: seq<Message<B>>)
    requires Legal(plan, received) && Consistent(c, plan, received)
    requires c.expected <= c.partCount && c.expected in c.states
    requires c.states[c.expected].batches != [] && c.states[c.expected].begun
    ensures Consistent(Drain(c, oracle).0, plan, received)
    decreases c.partCount + 1 - c.expected, |c.states[c.expected].batches|, 0, 0
  {
    var front := c.states[c.expected].batches[0];
    var accepts := Allows(oracle, c.sink, Write(front));
    var sink := c.sink.Attempt(Write(front), accepts);
    if accepts {
      WriteStep(c, plan, received, sink);
      DrainKeeps(AfterWrite(c, sink), oracle, plan, received);
    } else {
      RefusedStep(c, plan, received, sink);
    }
  }

  lemma {:induction false} DrainEndKeeps<B(!new)>(
      c: Consumer<B>, oracle: Oracle<B>, plan: seq<seq<B>>, received: seq<Message<B>>)
    requires Legal(plan, received) && Consistent(c, plan, received)
    requires c.expected <= c.partCount && c.expected in c.states
    requires c.states[c.expected].batches == [] && c.states[c.expected].completed
    ensures Consistent(Drain(c, oracle).0, plan, received)
    decreases c.partCount + 1 - c.expected, 0, if c.states[c.expected].begun then 0 else 1, 0
  {
    var begun := c.states[c.expected].begun;
    var accepts := begun ==> Allows(oracle, c.sink, End);
    var sink := if begun then c.sink.Attempt(End, accepts) else c.sink;
    if accepts {
      EndStep(c, plan, received, sink);
      DrainKeeps(AfterEnd(c, sink), oracle, plan, received);
    } else {
      RefusedStep(c, plan, received, sink);
    }
  }

  /** A drain in which the sink refuses nothing stops only where there is nothing to write and no end mark. */
  lemma {:induction false} DrainExhausts<B(!new)>(c: Consumer<B>, oracle: Oracle<B>)
    requires Drain(c, oracle).1
    ensures var d := Drain(c, oracle).0;
            d.expected > d.partCount || d.expected !in d.states ||
            (d.states[d.expected].batches == [] && !d.states[d.expected].completed)
    decreases c.partCount + 1 - c.expected,
              if c.expected in c.states then |c.states[c.expected].batches| else 0,
              if c.expected in c.states && c.states[c.expected].begun then 0 else 1
  {
    if c.expected <= c.partCount && c.expected in c.states {
      var state := c.states[c.expected];
      if state.batches != [] && !state.begun {
        DrainExhausts(AfterBegin(c, c.sink.Attempt(Begin(c.expected), true)), oracle);
      } else if state.batches != [] {
        DrainExhausts(AfterWrite(c, c.sink.Attempt(Write(state.batches[0]), true)), oracle);
      } else if state.completed {
        DrainExhausts(AfterEnd(c, if state.begun then c.sink.Attempt(End, true) else c.sink), oracle);
      }
    }
  }

  lemma CountsAfter<B>(received: seq<Message<B>>, message: Message<B>, p: nat)
    ensures Got(received + [message], p) ==
            Got(received, p) + if message.BatchMessage? && message.part == p then 1 else 0
    ensures Ended(received + [message], p) <==>
              (message.EndPartition? && message.part == p) || Ended(received, p)
  {
    assert (received + [message])[..|received|] == received;
  }

  lemma StoreFits<B(!new)>(
      c: Consumer<B>, plan: seq<seq<B>>, received: seq<Message<B>>, message: Message<B>, p: nat)
    requires 1 <= p <= |plan| && PartFits(c, plan, received, p)
    requires MayFollow(plan, received, message) && !message.ErrorMessage?
    ensures PartFits(Store(c, message), plan, received + [message], p)
    ensures Begun(Store(c, message), p) == Begun(c, p)
    ensures Passed(Store(c, message), received + [message], p) == Passed(c, received, p)
  {
    CountsAfter(received, message, p);
    if p == message.part && message.BatchMessage? {
      var batches, k, n := plan[p - 1], Passed(c, received, p), Got(received, p);
      assert batches[k..n] + [batches[n]] == batches[k..n + 1];
      assert Buffered(Store(c, message), p) == Buffered(c, p) + [message.batch];
    }
  }

  /** Buffering a message keeps the invariant for the longer list of received messages. */
  lemma StoreKeeps<B(!new)>(
      c: Consumer<B>, plan: seq<seq<B>>, received: seq<Message<B>>, message: Message<B>)
    requires Consistent(c, plan, received)
    requires MayFollow(plan, received, message) && !message.ErrorMessage?
    ensures Consistent(Store(c, message), plan, received + [message])
  {
    var d, more := Store(c, message), received + [message];
    StorePlaced(c, plan, received, message);
    assert BuffersFit(d, plan, more) by {
      forall p | d.expected <= p <= |plan|
        ensures PartFits(d, plan, more, p)
      {
        StoreFits(c, plan, received, message, p);
      }
    }
    if c.expected <= |plan| {
      StoreFits(c, plan, received, message, c.expected);
    }
  }

  lemma StorePlaced<B(!new)>(
      c: Consumer<B>, plan: seq<seq<B>>, received: seq<Message<B>>, message: Message<B>)
    requires Placed(c, plan, received)
    requires MayFollow(plan, received, message) && !message.ErrorMessage?
    ensures Placed(Store(c, message), plan, received + [message])
  {
    forall p | 1 <= p < c.expected
      ensures Ended(received + [message], p)
    {
      CountsAfter(received, message, p);
    }
  }

  lemma ErrorFits<B(!new)>(
      c: Consumer<B>, plan: seq<seq<B>>, received: seq<Message<B>>, message: Message<B>, p: nat)
    requires 1 <= p <= |plan| && PartFits(c, plan, received, p) && message.ErrorMessage?
    ensures PartFits(c, plan, received + [message], p)
    ensures Passed(c, received + [message], p) == Passed(c, received, p)
  {
    CountsAfter(received, message, p);
  }

  /** An error message is recorded elsewhere; the consumer's buffers still fit. */
  lemma ErrorKeeps<B(!new)>(
      c: Consumer<B>, plan: seq<seq<B>>, received: seq<Message<B>>, message: Message<B>)
    requires Consistent(c, plan, received) && message.ErrorMessage?
    ensures Consistent(c, plan, received + [message])
  {
    var more := received + [message];
    assert Placed(c, plan, more) by {
      forall p | 1 <= p < c.expected
        ensures Ended(more, p)
      {
        CountsAfter(received, message, p);
      }
    }
    assert BuffersFit(c, plan, more) by {
      forall p | c.expected <= p <= |plan|
        ensures PartFits(c, plan, more, p)
      {
        ErrorFits(c, plan, received, message, p);
      }
    }
    if c.expected <= |plan| {
      ErrorFits(c, plan, received, message, c.expected);
    }
  }

  // ---------------------------------------------------------------- what the invariant says

  lemma PrefixOfSum<B>(a: seq<B>, b: seq<B>, whole: seq<B>, k: nat)
    requires k <= |b| && a + b <= whole
    ensures a + b[..k] <= whole
  {
    assert a + b[..k] == (a + b)[..|a| + k];
  }

  /** The batches written on the way to a point: all earlier parts', then the part's own first ones. */
  lemma {:induction false} LogWrites<B>(plan: seq<seq<B>>, e: nat, begun: bool, count: int)
    requires IsPoint(plan, e, begun, count)
    ensures Written(Log(plan, e, begun, count)) ==
            Flatten(plan, e - 1) + if begun then plan[e - 1][..count] else []
    decreases e, begun, count
  {
    if begun && count > 0 {
      LogWrites(plan, e, true, count - 1);
      WrittenMore(Log(plan, e, true, count - 1), Write(plan[e - 1][count - 1]));
      assert plan[e - 1][..count] == plan[e - 1][..count - 1] + [plan[e - 1][count - 1]];
      Associate(Flatten(plan, e - 1), plan[e - 1][..count - 1], [plan[e - 1][count - 1]]);
    } else if begun {
      LogWrites(plan, e, false, 0);
      WrittenMore(Log(plan, e, false, 0), Begin(e));
      NothingAppended(Flatten(plan, e - 1));
    } else if e == 1 {
      var open: seq<Call<B>> := [OpenTable];
      assert Written(open[..0]) == [];
    } else if plan[e - 2] == [] {
      LogWrites(plan, e - 1, false, 0);
      NothingAppended(Flatten(plan, e - 1));
    } else {
      var n := |plan[e - 2]|;
      LogWrites(plan, e - 1, true, n);
      WrittenMore(Log(plan, e - 1, true, n), End);
      assert plan[e - 2][..n] == plan[e - 2];
      NothingAppended(Flatten(plan, e - 1));
    }
  }

  lemma WrittenMore<B>(calls: seq<Call<B>>, call: Call<B>)
    ensures Written(calls + [call]) == Written(calls) + if call.Write? then [call.batch] else []
  {
    assert (calls + [call])[..|calls|] == calls;
  }

  /** The log of a whole table is OpenTable and then the brackets of the parts that have a batch. */
  lemma {:induction false} WholeLog<B>(plan: seq<seq<B>>, e: nat)
    requires 1 <= e <= |plan| + 1
    ensures Log(plan, e, false, 0) == [OpenTable] + NonEmptyBrackets(plan, e - 1)
  {
    if e > 1 {
      WholeLog(plan, e - 1);
      if plan[e - 2] == [] {
        NothingAppended(NonEmptyBrackets(plan, e - 2));
      } else {
        BracketLog(plan, e - 1);
        ExtendBoth(Log(plan, e - 1, false, 0), [OpenTable], NonEmptyBrackets(plan, e - 2), Bracket(e - 1, plan[e - 2]));
      }
    }
  }

  lemma ExtendBoth<T>(whole: seq<T>, first: seq<T>, rest: seq<T>, more: seq<T>)
    requires whole == first + rest
    ensures whole + more == first + (rest + more)
  {
  }

  lemma BracketLog<B>(plan: seq<seq<B>>, e: nat)
    requires 1 <= e <= |plan| && plan[e - 1] != []
    ensures Log(plan, e + 1, false, 0) == Log(plan, e, false, 0) + Bracket(e, plan[e - 1])
  {
    var batches := plan[e - 1];
    PartLog(plan, e, |batches|);
    assert batches[..|batches|] == batches;
    Associate(Log(plan, e, false, 0), [Begin(e)] + Writes(batches), [End]);
  }

  lemma {:induction false} PartLog<B>(plan: seq<seq<B>>, e: nat, count: nat)
    requires 1 <= e <= |plan| && count <= |plan[e - 1]|
    ensures Log(plan, e, true, count) == Log(plan, e, false, 0) + ([Begin(e)] + Writes(plan[e - 1][..count]))
  {
    var before, batches := Log(plan, e, false, 0), plan[e - 1];
    if count == 0 {
      assert [Begin(e)] + Writes(batches[..0]) == [Begin(e)];
    } else {
      PartLog(plan, e, count - 1);
      assert Writes(batches[..count]) == Writes(batches[..count - 1]) + [Write(batches[count - 1])];
      Associate([Begin(e)], Writes(batches[..count - 1]), [Write(batches[count - 1])]);
      Associate(before, [Begin(e)] + Writes(batches[..count - 1]), [Write(batches[count - 1])]);
    }
  }

  /** What the sink was handed so far is a prefix of all batches in partition order. */
  lemma WrittenIsPrefix<B>(c: Consumer<B>, plan: seq<seq<B>>, received: seq<Message<B>>)
    requires Consistent(c, plan, received)
    ensures Written(c.sink.accepted) <= Flatten(plan, |plan|)
  {
    var count := if Begun(c, c.expected) then Passed(c, received, c.expected) else 0;
    PointIsPrefix(plan, c.expected, Begun(c, c.expected), count);
  }

  lemma PointIsPrefix<B>(plan: seq<seq<B>>, e: nat, begun: bool, count: int)
    requires IsPoint(plan, e, begun, count)
    ensures Written(Log(plan, e, begun, count)) <= Flatten(plan, |plan|)
  {
    LogWrites(plan, e, begun, count);
    if begun {
      FlattenPrefix(plan, e, |plan|);
      PrefixOfSum(Flatten(plan, e - 1), plan[e - 1], Flatten(plan, |plan|), count);
    } else {
      FlattenPrefix(plan, e - 1, |plan|);
      NothingAppended(Flatten(plan, e - 1));
    }
  }

  /** For every part not finished yet: accepted by the sink, then buffered, is exactly what was received. */
  lemma NothingLost<B>(c: Consumer<B>, plan: seq<seq<B>>, received: seq<Message<B>>, p: nat)
    requires Legal(plan, received) && Consistent(c, plan, received)
    requires 1 <= p <= |plan|
    ensures p < c.expected ==> Received(received, p) == plan[p - 1] && Buffered(c, p) == []
    ensures p >= c.expected ==>
              && 0 <= Passed(c, received, p) <= |plan[p - 1]|
              && plan[p - 1][..Passed(c, received, p)] + Buffered(c, p) == Received(received, p)
  {
    ReceivedIsPlanPrefix(plan, received, p);
    LegalCounts(plan, received, p);
    if p >= c.expected {
      assert PartFits(c, plan, received, p);
      SplitSlice(plan[p - 1], Passed(c, received, p), Got(received, p));
    }
  }

  lemma SplitSlice<T>(s: seq<T>, i: nat, n: nat)
    requires i <= n <= |s|
    ensures s[..i] + s[i..n] == s[..n]
  {
  }

  /** Once every part has ended, a drain in which the sink refuses nothing writes everything. */
  lemma DrainCompletes<B(!new)>(
      c: Consumer<B>, oracle: Oracle<B>, plan: seq<seq<B>>, received: seq<Message<B>>)
    requires Legal(plan, received) && Consistent(c, plan, received)
    requires forall p | 1 <= p <= |plan| :: Ended(received, p)
    requires Drain(c, oracle).1
    ensures Drain(c, oracle).0.expected == |plan| + 1
    ensures Drain(c, oracle).0.sink.accepted == [OpenTable] + NonEmptyBrackets(plan, |plan|)
  {
    DrainKeeps(c, oracle, plan, received);
    DrainExhausts(c, oracle);
    ExpectedFits(Drain(c, oracle).0, plan, received);
    WholeLog(plan, |plan| + 1);
  }
}
