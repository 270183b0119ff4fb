/**
 The consumer of the multiplexed writer: it buffers batches per partition and lets them through to the
 sink in partition order.
 */
module OrderedConsumer {
  import opened OrderedSink

  datatype Message<B> = BatchMessage(part: nat, batch: B) | EndPartition(part: nat) | ErrorMessage(part: nat)

  datatype PartitionState<B> = PartitionState(batches: seq<B>, completed: bool, begun: bool)

  /** `states`, `expected_part` and the sink. */
  datatype Consumer<B> = Consumer(
    partCount: nat,
    states: map<nat, PartitionState<B>>,
    expected: nat,
    sink: Sink<B>)

  function StartConsumer<B>(partCount: nat, sink: Sink<B>): Consumer<B> {
    Consumer(partCount, map[], 1, sink)
  }

  // ---------------------------------------------------------------- drain_ready_partitions as a function

  /** The expected part, opened in the sink. */
  function AfterBegin<B>(c: Consumer<B>, sink: Sink<B>): Consumer<B>
    requires c.expected in c.states
  {
    c.(sink := sink, states := c.states[c.expected := c.states[c.expected].(begun := true)])
  }

  /** The expected part, its first batch gone to the sink. */
  function AfterWrite<B>(c: Consumer<B>, sink: Sink<B>): Consumer<B>
    requires c.expected in c.states && c.states[c.expected].batches != []
  {
    var state := c.states[c.expected];
    c.(sink := sink, states := c.states[c.expected := state.(batches := state.batches[1..])])
  }

  /** The expected part finished; the next one is due. */
  function AfterEnd<B>(c: Consumer<B>, sink: Sink<B>): Consumer<B> {
    c.(sink := sink, states := c.states - {c.expected}, expected := c.expected + 1)
  }

  /** drain_ready_partitions: the consumer afterwards, and whether every call was accepted. */
  function Drain<B(!new)>(c: Consumer<B>, oracle: Oracle<B>): (Consumer<B>, bool)
    decreases c.partCount + 1 - c.expected,
              if c.expected in c.states then |c.states[c.expected].batches| else 0,
              if c.expected in c.states && c.states[c.expected].begun then 0 else 1
  {
    if c.expected > c.partCount || c.expected !in c.states then (c, true)
    else
      var state := c.states[c.expected];
      if state.batches != [] && !state.begun then
        var accepts := Allows(oracle, c.sink, Begin(c.expected));
        var sink := c.sink.Attempt(Begin(c.expected), accepts);
        if accepts then Drain(AfterBegin(c, sink), oracle) else (c.(sink := sink), false)
      else if state.batches != [] then
        var accepts := Allows(oracle, c.sink, Write(state.batches[0]));
        var sink := c.sink.Attempt(Write(state.batches[0]), accepts);
        if accepts then Drain(AfterWrite(c, sink), oracle) else (c.(sink := sink), false)
      else if !state.completed then (c, true)
      else if state.begun then
        var accepts := Allows(oracle, c.sink, End);
        var sink := c.sink.Attempt(End, accepts);
        if accepts then Drain(AfterEnd(c, sink), oracle) else (c.(sink := sink), false)
      else Drain(AfterEnd(c, c.sink), oracle)
  }

  /** Stores a batch or an end mark, as the consumer loop does before it drains. */
  function Store<B>(c: Consumer<B>, message: Message<B>): Consumer<B>
    requires !message.ErrorMessage?
  {
    var state := if message.part in c.states then c.states[message.part] else PartitionState([], false, false);
    var updated :=
      if message.BatchMessage? then state.(batches := state.batches + [message.batch]) else state.(completed := true);
    c.(states := c.states[message.part := updated])
  }

  // ---------------------------------------------------------------- the consumer object

  class OrderedConsumer<B(!new)> {
    const partCount: nat
    const oracle: Oracle<B>
    var states: map<nat, PartitionState<B>>
    var expectedPart: nat
    var sink: Sink<B>

    constructor (partCount: nat, oracle: Oracle<B>, sink: Sink<B>)
      ensures this.partCount == partCount && this.oracle == oracle
      ensures Value() == StartConsumer(partCount, sink)
    {
      this.partCount, this.oracle, this.sink := partCount, oracle, sink;
      states, expectedPart := map[], 1;
    }

    ghost function Value(): Consumer<B>
      reads this
    {
      Consumer(partCount, states, expectedPart, sink)
    }

    method DrainReadyPartitions() returns (ok: bool)
      modifies this
      ensures (Value(), ok) == Drain(old(Value()), oracle)
    {
      while expectedPart <= partCount
        invariant Drain(Value(), oracle) == Drain(old(Value()), oracle)
        decreases partCount + 1 - expectedPart
      {
        if expectedPart !in states {
          return true;
        }
        label Part:
        if states[expectedPart].batches != [] {
          if !states[expectedPart].begun {
            var accepted := Allows(oracle, sink, Begin(expectedPart));
            sink := sink.Attempt(Begin(expectedPart), accepted);
            if !accepted {
              return false;
            }
            states := states[expectedPart := states[expectedPart].(begun := true)];
          }
          while states[expectedPart].batches != []
            invariant expectedPart == old@Part(expectedPart) && expectedPart in states && states[expectedPart].begun
            invariant Drain(Value(), oracle) == Drain(old(Value()), oracle)
            decreases |states[expectedPart].batches|
          {
            var front := states[expectedPart].batches[0];
            var accepted := Allows(oracle, sink, Write(front));
            sink := sink.Attempt(Write(front), accepted);
            if !accepted {
              return false;
            }
            states := states[expectedPart := states[expectedPart].(batches := states[expectedPart].batches[1..])];
          }
        }
        if !states[expectedPart].completed {
          return true;
        }
        if states[expectedPart].begun {
          var ended := Allows(oracle, sink, End);
          sink := sink.Attempt(End, ended);
          if !ended {
            return false;
          }
        }
        states := states - {expectedPart};
        expectedPart := expectedPart + 1;
      }
      ok := true;
    }

    /** One turn of the consumer loop for a batch or an end mark. */
    method Receive(message: Message<B>) returns (ok: bool)
      requires !message.ErrorMessage?
      modifies this
      ensures (Value(), ok) == Drain(Store(old(Value()), message), oracle)
    {
      if message.part !in states {
        states := states[message.part := PartitionState([], false, false)];
      }
      var state := states[message.part];
      if message.BatchMessage? {
        states := states[message.part := state.(batches := state.batches + [message.batch])];
      } else {
        states := states[message.part := state.(completed := true)];
      }
      assert Value() == Store(old(Value()), message);
      ok := DrainReadyPartitions();
    }
  }
}
