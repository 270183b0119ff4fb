/**
 The single-file sink as the sequence of calls it accepted, the call sequences that make up a table, and
 the plain sequential writer that is the specification of the multiplexed one.
 */
module OrderedSink {
  import opened Wrappers

  datatype Call<B> = OpenTable | Begin(part: nat) | Write(batch: B) | End | CloseTable

  /** Whether the sink accepts the last of the calls attempted so far. */
  type Oracle<!B(!new)> = seq<Call<B>> -> bool

  datatype Sink<B> = Sink(attempts: seq<Call<B>>, accepted: seq<Call<B>>)
  {
    function Attempt(call: Call<B>, accepts: bool): Sink<B> {
      Sink(attempts + [call], if accepts then accepted + [call] else accepted)
    }
  }

  function NewSink<B>(): Sink<B> {
    Sink([], [])
  }

  function Allows<B(!new)>(oracle: Oracle<B>, sink: Sink<B>, call: Call<B>): bool {
    oracle(sink.attempts + [call])
  }

  // ---------------------------------------------------------------- call sequences

  function Writes<B>(batches: seq<B>): (calls: seq<Call<B>>)
    ensures |calls| == |batches|
    ensures forall i | 0 <= i < |batches| :: calls[i] == Write(batches[i])
  {
    seq(|batches|, i requires 0 <= i < |batches| => Write(batches[i]))
  }

  function Bracket<B>(part: nat, batches: seq<B>): seq<Call<B>> {
    [Begin(part)] + Writes(batches) + [End]
  }

  /** Brackets of parts 1..n, empty parts included: what the sequential writer emits. */
  function AllBrackets<B>(plan: seq<seq<B>>, n: nat): seq<Call<B>>
    requires n <= |plan|
  {
    if n == 0 then [] else AllBrackets(plan, n - 1) + Bracket(n, plan[n - 1])
  }

  /** Brackets of the parts among 1..n that have a batch: what the multiplexed writer emits. */
  function NonEmptyBrackets<B>(plan: seq<seq<B>>, n: nat): seq<Call<B>>
    requires n <= |plan|
  {
    if n == 0 then []
    else NonEmptyBrackets(plan, n - 1) + if plan[n - 1] == [] then [] else Bracket(n, plan[n - 1])
  }

  /** The batches handed to the sink, in order. */
  function Written<B>(calls: seq<Call<B>>): seq<B> {
    if calls == [] then []
    else
      var last := calls[|calls| - 1];
      Written(calls[..|calls| - 1]) + if last.Write? then [last.batch] else []
  }

  function Flatten<B>(plan: seq<seq<B>>, n: nat): seq<B>
    requires n <= |plan|
  {
    if n == 0 then [] else Flatten(plan, n - 1) + plan[n - 1]
  }

  lemma {:induction false} WrittenConcat<B>(a: seq<Call<B>>, b: seq<Call<B>>)
    ensures Written(a + b) == Written(a) + Written(b)
    decreases |b|
  {
    if b == [] {
      assert a + b == a;
    } else {
      WrittenConcat(a, b[..|b| - 1]);
      assert (a + b)[..|a + b| - 1] == a + b[..|b| - 1];
    }
  }

  lemma {:induction false} WrittenWrites<B>(batches: seq<B>)
    ensures Written(Writes(batches)) == batches
    decreases |batches|
  {
    if batches != [] {
      var init := batches[..|batches| - 1];
      WrittenWrites(init);
      assert Writes(batches)[..|batches| - 1] == Writes(init);
      assert batches == init + [batches[|batches| - 1]];
    }
  }

  lemma WrittenBracket<B>(part: nat, batches: seq<B>)
    ensures Written(Bracket(part, batches)) == batches
  {
    var begin: seq<Call<B>> := [Begin(part)];
    var end: seq<Call<B>> := [End];
    WrittenConcat(begin, Writes(batches));
    WrittenConcat(begin + Writes(batches), end);
    WrittenWrites(batches);
    assert Written(begin) == [];
    assert Written(end) == [];
  }

  lemma NothingAppended<T>(s: seq<T>)
    ensures s + [] == s
  {
  }

  lemma Associate<T>(a: seq<T>, b: seq<T>, c: seq<T>)
    ensures (a + b) + c == a + (b + c)
  {
  }

  /** OpenTable and CloseTable are calls without a batch. */
  lemma WrittenBetween<B>(calls: seq<Call<B>>)
    ensures Written([OpenTable] + calls + [CloseTable]) == Written(calls)
  {
    var open: seq<Call<B>> := [OpenTable];
    var close: seq<Call<B>> := [CloseTable];
    assert Written(open[..0]) == Written(close[..0]) == [];
    WrittenOfThree(open, calls, close);
  }

  lemma WrittenOfThree<B>(open: seq<Call<B>>, calls: seq<Call<B>>, close: seq<Call<B>>)
    requires Written(open) == [] && Written(close) == []
    ensures Written(open + calls + close) == Written(calls)
  {
    WrittenConcat(open, calls);
    WrittenConcat(open + calls, close);
    var batches := Written(calls);
    assert [] + batches == batches;
    NothingAppended(batches);
  }

  lemma WrittenAppend<B>(calls: seq<Call<B>>, more: seq<Call<B>>, first: seq<B>, second: seq<B>)
    requires Written(calls) == first && Written(more) == second
    ensures Written(calls + more) == first + second
  {
    WrittenConcat(calls, more);
  }

  lemma {:induction false} AllBatches<B>(plan: seq<seq<B>>, n: nat)
    requires n <= |plan|
    ensures Written(AllBrackets(plan, n)) == Flatten(plan, n)
  {
    if n > 0 {
      AllBatches(plan, n - 1);
      WrittenBracket(n, plan[n - 1]);
      WrittenAppend(AllBrackets(plan, n - 1), Bracket(n, plan[n - 1]), Flatten(plan, n - 1), plan[n - 1]);
    }
  }

  lemma {:induction false} NonEmptyBatches<B>(plan: seq<seq<B>>, n: nat)
    requires n <= |plan|
    ensures Written(NonEmptyBrackets(plan, n)) == Flatten(plan, n)
  {
    hide Bracket;
    if n > 0 {
      NonEmptyBatches(plan, n - 1);
      if plan[n - 1] == [] {
        NothingAppended(NonEmptyBrackets(plan, n - 1));
        NothingAppended(Flatten(plan, n - 1));
      } else {
        WrittenBracket(n, plan[n - 1]);
        WrittenAppend(NonEmptyBrackets(plan, n - 1), Bracket(n, plan[n - 1]), Flatten(plan, n - 1), plan[n - 1]);
      }
    }
  }

  /** Both writers hand the sink the same batches: all of part 1, then all of part 2, and so on. */
  lemma SameBatches<B>(plan: seq<seq<B>>)
    ensures Written(NonEmptyBrackets(plan, |plan|)) == Written(AllBrackets(plan, |plan|)) == Flatten(plan, |plan|)
  {
    AllBatches(plan, |plan|);
    NonEmptyBatches(plan, |plan|);
  }

  lemma {:induction false} FlattenPrefix<B>(plan: seq<seq<B>>, m: nat, n: nat)
    requires m <= n <= |plan|
    ensures Flatten(plan, m) <= Flatten(plan, n)
  {
    if m < n {
      FlattenPrefix(plan, m, n - 1);
    }
  }

  // ---------------------------------------------------------------- the sequential writer

  /** At which step, if any, creating, resetting or advancing a part's generator throws. */
  datatype Generator<B> = Generator(batches: seq<B>, throwsAt: Option<nat>)

  predicate Throws<B>(generator: Generator<B>) {
    generator.throwsAt.Some? && generator.throwsAt.value <= |generator.batches|
  }

  function Plans<B>(generators: seq<Generator<B>>): (plan: seq<seq<B>>)
    ensures |plan| == |generators|
    ensures forall i | 0 <= i < |plan| :: plan[i] == generators[i].batches
  {
    seq(|generators|, i requires 0 <= i < |generators| => generators[i].batches)
  }

  /** OpenTable is the first call; if it is accepted CloseTable is the last, and otherwise there is no other. */
  ghost predicate OpensAndCloses<B(!new)>(oracle: Oracle<B>, sink: Sink<B>) {
    && |sink.attempts| > 0 && sink.attempts[0] == OpenTable
    && (oracle([OpenTable]) ==> sink.attempts[|sink.attempts| - 1] == CloseTable)
    && (!oracle([OpenTable]) ==> sink.attempts == [OpenTable] && sink.accepted == [])
  }

  /**
   The sequential loop: one bracket per part, in order.  It returns 0 only when the sink accepted exactly
   OpenTable, the brackets of all parts, and CloseTable, and it returns 2 only when the sink refused a call or a
   generator threw.
   */
  method RunForeignStreamingOrdered<B(!new)>(generators: seq<Generator<B>>, oracle: Oracle<B>)
    returns (rc: int, sink: Sink<B>)
    ensures rc == 0 || rc == 2
    ensures rc == 0 ==> sink.accepted == [OpenTable] + AllBrackets(Plans(generators), |generators|) + [CloseTable]
    ensures rc == 0 <==> sink.attempts == sink.accepted && forall i | 0 <= i < |generators| :: !Throws(generators[i])
    ensures OpensAndCloses(oracle, sink)
    ensures Written(sink.accepted) <= Flatten(Plans(generators), |generators|)
  {
    hide Bracket, Throws, Written, Flatten, WritesPrefix, AllBrackets;
    sink := NewSink();
    var plan := Plans(generators);
    var accepts := Allows(oracle, sink, OpenTable);
    sink := sink.Attempt(OpenTable, accepts);
    assert sink.attempts == [OpenTable];
    NoneWritten(sink.accepted);
    if !accepts {
      return 2, sink;
    }
    var part := 1;
    var failed := false;
    FlattenNone(plan);
    FlattenPrefix(plan, 0, |plan|);
    while part <= |generators| && !failed
      invariant 1 <= part <= |generators| + 1
      invariant !failed ==> sink.accepted == [OpenTable] + AllBrackets(plan, part - 1)
      invariant !failed ==> sink.attempts == sink.accepted
      invariant !failed ==> forall i | 0 <= i < part - 1 :: !Throws(generators[i])
      invariant failed ==> part <= |generators| && (|sink.accepted| < |sink.attempts| || Throws(generators[part - 1]))
      invariant |sink.accepted| <= |sink.attempts|
      invariant |sink.attempts| > 0 && sink.attempts[0] == OpenTable
      invariant if failed then Written(sink.accepted) <= Flatten(plan, |plan|)
                else Written(sink.accepted) == Flatten(plan, part - 1)
      decreases |generators| + 1 - part, !failed
    {
      var ok;
      ghost var before := sink.accepted;
      ok, sink := WritePartition(part, generators[part - 1], oracle, sink);
      if ok {
        PartDone(plan, part, before, sink.accepted);
        part := part + 1;
      } else {
        PartOfPlan(plan, part, before, sink.accepted);
        failed := true;
      }
    }
    if !failed {
      FlattenPrefix(plan, part - 1, |plan|);
    }
    CloseWritesNothing(sink.accepted);
    accepts := Allows(oracle, sink, CloseTable);
    sink := sink.Attempt(CloseTable, accepts);
    rc := if failed || !accepts then 2 else 0;
  }

  /** Between the two moments the sink accepted the first n of the batches, for some n. */
  ghost predicate WritesPrefix<B>(before: seq<Call<B>>, after: seq<Call<B>>, batches: seq<B>) {
    exists n: nat :: n <= |batches| && Written(after) == Written(before) + batches[..n]
  }

  lemma NoneWritten<B>(calls: seq<Call<B>>)
    requires calls == [] || calls == [OpenTable]
    ensures Written(calls) == []
  {
    if calls != [] {
      assert calls[..0] == [];
    }
  }

  lemma FlattenNone<B>(plan: seq<seq<B>>)
    ensures Flatten(plan, 0) == [] && AllBrackets(plan, 0) == []
  {
  }

  lemma CloseWritesNothing<B>(calls: seq<Call<B>>)
    ensures Written(calls + [CloseTable]) == Written(calls)
  {
    assert (calls + [CloseTable])[..|calls|] == calls;
    NothingAppended(Written(calls));
  }

  lemma PartDone<B>(plan: seq<seq<B>>, part: nat, before: seq<Call<B>>, after: seq<Call<B>>)
    requires 1 <= part <= |plan| && Written(before) == Flatten(plan, part - 1)
    requires before == [OpenTable] + AllBrackets(plan, part - 1) && after == before + Bracket(part, plan[part - 1])
    ensures Written(after) == Flatten(plan, part) && after == [OpenTable] + AllBrackets(plan, part)
  {
    hide Bracket;
    WrittenBracket(part, plan[part - 1]);
    WrittenAppend(before, Bracket(part, plan[part - 1]), Flatten(plan, part - 1), plan[part - 1]);
    Associate([OpenTable], AllBrackets(plan, part - 1), Bracket(part, plan[part - 1]));
  }

  lemma PartOfPlan<B>(plan: seq<seq<B>>, part: nat, before: seq<Call<B>>, after: seq<Call<B>>)
    requires 1 <= part <= |plan| && Written(before) == Flatten(plan, part - 1)
    requires WritesPrefix(before, after, plan[part - 1])
    ensures Written(after) <= Flatten(plan, |plan|)
  {
    FlattenPrefix(plan, part, |plan|);
  }

  lemma WritesBegun<B>(before: seq<Call<B>>, after: seq<Call<B>>, part: nat, batches: seq<B>, n: nat)
    requires n <= |batches| && after == before + ([Begin(part)] + Writes(batches[..n]))
    ensures WritesPrefix(before, after, batches)
  {
    var begin: seq<Call<B>> := [Begin(part)];
    assert begin[..0] == [] && Written(begin) == [];
    WrittenConcat(begin, Writes(batches[..n]));
    WrittenWrites(batches[..n]);
    WrittenConcat(before, begin + Writes(batches[..n]));
  }

  lemma WritesNothing<B>(calls: seq<Call<B>>, batches: seq<B>)
    ensures WritesPrefix(calls, calls, batches)
  {
    assert Written(calls) + batches[..0] == Written(calls);
  }

  /** Begin, every batch of one generator, End; stops at the first call the sink refuses or at a throw. */
  method WritePartition<B(!new)>(part: nat, generator: Generator<B>, oracle: Oracle<B>, before: Sink<B>)
    returns (ok: bool, sink: Sink<B>)
    ensures ok ==> sink.accepted == before.accepted + Bracket(part, generator.batches)
    ensures ok ==> sink.attempts == before.attempts + Bracket(part, generator.batches)
    ensures ok ==> !Throws(generator)
    ensures |before.accepted| <= |before.attempts| ==> |sink.accepted| <= |sink.attempts|
    ensures |before.accepted| <= |before.attempts| && !ok ==>
              |sink.accepted| < |sink.attempts| || Throws(generator)
    ensures before.attempts <= sink.attempts
    ensures !ok ==> WritesPrefix(before.accepted, sink.accepted, generator.batches)
  {
    hide Written, WritesPrefix;
    var batches := generator.batches;
    var accepts := Allows(oracle, before, Begin(part));
    sink := before.Attempt(Begin(part), accepts);
    if !accepts {
      WritesNothing(before.accepted, batches);
      return false, sink;
    }
    var next := 0;
    while next < |batches|
      invariant next <= |batches|
      invariant generator.throwsAt.Some? ==> generator.throwsAt.value >= next
      invariant sink.accepted == before.accepted + ([Begin(part)] + Writes(batches[..next]))
      invariant sink.attempts == before.attempts + ([Begin(part)] + Writes(batches[..next]))
    {
      WritesBegun(before.accepted, sink.accepted, part, batches, next);
      if generator.throwsAt == Some(next) {
        return false, sink;
      }
      accepts := Allows(oracle, sink, Write(batches[next]));
      sink := sink.Attempt(Write(batches[next]), accepts);
      if !accepts {
        return false, sink;
      }
      assert Writes(batches[..next + 1]) == Writes(batches[..next]) + [Write(batches[next])];
      next := next + 1;
    }
    WritesBegun(before.accepted, sink.accepted, part, batches, next);
    if generator.throwsAt == Some(next) {
      return false, sink;
    }
    accepts := Allows(oracle, sink, End);
    sink := sink.Attempt(End, accepts);
    ok := accepts;
    assert batches[..next] == batches;
  }
}
