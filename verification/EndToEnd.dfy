/**
 From the row iterators to the sink: whatever the number of partitions, the batch size, the interleaving and the
 queue capacity from two up, a multiplexed run that returns 0 wrote the rows of one un-partitioned run.
 */
module EndToEnd {
  import opened Scaling
  import opened Batches
  import opened Partition
  import opened OrderedSink
  import MultiplexedWriter
  import MultiplexedWitness
  import CInt
  import Lineitem
  import Orders
  import PartSupp
  import Supplier

  /** The batches each part's generator yields: the part's rows cut every batchRows rows. */
  function TablePlan<T>(rows: (nat, nat) -> seq<T>, total: nat, n: nat, partCount: int, batchRows: nat)
    : (plan: seq<seq<seq<T>>>)
    requires n <= partCount && batchRows > 0
    ensures |plan| == n
    ensures forall p | 0 <= p < n ::
              var range := RangeOf(total, p + 1, partCount);
              plan[p] == Chunks(rows(range.start, range.end), batchRows)
  {
    if n == 0 then []
    else
      var range := RangeOf(total, n, partCount);
      TablePlan(rows, total, n - 1, partCount, batchRows) + [Chunks(rows(range.start, range.end), batchRows)]
  }

  lemma {:induction false} PlanHoldsTheRows<T(!new)>(
      rows: (nat, nat) -> seq<T>, total: nat, n: nat, partCount: int, batchRows: nat, plan: seq<seq<seq<T>>>)
    requires n <= partCount && batchRows > 0 && plan == TablePlan(rows, total, partCount, partCount, batchRows)
    ensures Concat(Flatten(plan, n)) == Partitioned(rows, total, n, partCount)
    decreases n
  {
    hide TablePlan, RangeOf, Chunks, Concat;
    if n > 0 {
      PlanHoldsTheRows(rows, total, n - 1, partCount, batchRows, plan);
      var range := RangeOf(total, n, partCount);
      ConcatSum(Flatten(plan, n - 1), plan[n - 1]);
      ConcatChunks(rows(range.start, range.end), batchRows);
    } else {
      NothingConcatenated<T>();
    }
  }

  lemma NothingConcatenated<T>()
    ensures Concat<T>([]) == []
  {
  }

  /** The multiplexed writer, for any table whose adjacent ranges join. */
  lemma MultiplexedRunWritesTheTable<T(!new)>(
      rows: (nat, nat) -> seq<T>, total: nat, partCount: int, batchRows: nat, oracle: Oracle<seq<T>>,
      capacity: nat, run: seq<MultiplexedWriter.System<seq<T>>>)
    requires Additive(rows) && partCount >= 1 && batchRows > 0 && capacity >= 2
    requires MultiplexedWriter.IsExecution(
               TablePlan(rows, total, partCount, partCount, batchRows), oracle, capacity, run)
    requires run[|run| - 1].pc == MultiplexedWriter.Returned(0)
    ensures Concat(Written(run[|run| - 1].consumer.sink.accepted)) == rows(0, total)
  {
    hide TablePlan, Additive;
    var plan := TablePlan(rows, total, partCount, partCount, batchRows);
    MultiplexedWriter.ReturnsZeroOnlyIfSequential(plan, oracle, capacity, run);
    PlanHoldsTheRows(rows, total, partCount, partCount, batchRows, plan);
    PartitionsMakeTheTable(rows, total, partCount);
  }

  function Copies<T>(t: T, n: nat): seq<T> {
    seq(n, i => t)
  }

  /** A multiplexed run over the partitions of a table that returned 0. */
  ghost predicate IsTableRun<T(!new)>(
      rows: (nat, nat) -> seq<T>, total: nat, partCount: nat, batchRows: nat, oracle: Oracle<seq<T>>,
      capacity: nat, run: seq<MultiplexedWriter.System<seq<T>>>)
  {
    && Additive(rows) && partCount >= 1 && batchRows > 0
    && MultiplexedWriter.IsExecution(
         TablePlan(rows, total, partCount, partCount, batchRows), oracle, capacity, run)
    && run[|run| - 1].pc == MultiplexedWriter.Returned(0)
  }

  /** With one slot, such a run can lose a row of a table of two rows. */
  lemma OneSlotLosesARow<T(!new)>(capacity: nat, t: T)
    returns (rows: (nat, nat) -> seq<T>, oracle: Oracle<seq<T>>, run: seq<MultiplexedWriter.System<seq<T>>>)
    requires capacity < 2
    ensures IsTableRun(rows, 2, 1, 1, oracle, capacity, run)
    ensures Concat(Written(run[|run| - 1].consumer.sink.accepted)) != rows(0, 2)
  {
    hide TablePlan, Additive, MultiplexedWriter.NextSystem, Written;
    rows := (a: nat, b: nat) => if a <= b then Copies(t, b - a) else [];
    var x, s := MultiplexedWitness.OneSlotLosesABatch([t], [t], capacity);
    oracle := x.oracle;
    run :| MultiplexedWriter.IsExecution(x.plan, x.oracle, x.capacity, run) && run[|run| - 1] == s;
    TwoRowPlan(t, rows);
    assert Concat([[t]]) == [t] + Concat([]);
    assert |rows(0, 2)| == 2;
  }

  /** The queue capacities for which every such run writes the table are exactly those from two up. */
  lemma MultiplexedRunWritesTheTableExactlyWhen<T(!new)>(capacity: nat, t: T)
    ensures (forall rows: (nat, nat) -> seq<T>, total: nat, partCount: nat, batchRows: nat, oracle: Oracle<seq<T>>,
                    run: seq<MultiplexedWriter.System<seq<T>>> |
               IsTableRun(rows, total, partCount, batchRows, oracle, capacity, run) ::
               Concat(Written(run[|run| - 1].consumer.sink.accepted)) == rows(0, total))
            <==> capacity >= 2
  {
    hide TablePlan, Additive, MultiplexedWriter.NextSystem, Written, Concat;
    if capacity >= 2 {
      forall rows: (nat, nat) -> seq<T>, total: nat, partCount: nat, batchRows: nat, oracle: Oracle<seq<T>>,
             run: seq<MultiplexedWriter.System<seq<T>>> |
        IsTableRun(rows, total, partCount, batchRows, oracle, capacity, run)
        ensures Concat(Written(run[|run| - 1].consumer.sink.accepted)) == rows(0, total)
      {
        MultiplexedRunWritesTheTable(rows, total, partCount, batchRows, oracle, capacity, run);
      }
    } else {
      var rows, oracle, run := OneSlotLosesARow(capacity, t);
    }
  }

  lemma TwoRowPlan<T(!new)>(t: T, rows: (nat, nat) -> seq<T>)
    requires forall a: nat, b: nat :: rows(a, b) == if a <= b then Copies(t, b - a) else []
    ensures Additive(rows) && TablePlan(rows, 2, 1, 1, 1) == [[[t], [t]]]
  {
    assert RangeOf(2, 1, 1) == Range(0, 2);
    var two := rows(0, 2);
    assert two == [t, t] && two[..1] == [t] && two[1..] == [t];
    assert Chunks(two, 1) == [[t], [t]];
    assert TablePlan(rows, 2, 0, 1, 1) == [];
  }

  // ---------------------------------------------------------------- the sequential writer

  lemma BracketsHoldTheTable<T(!new)>(
      rows: (nat, nat) -> seq<T>, total: nat, partCount: int, batchRows: nat, plan: seq<seq<seq<T>>>)
    requires Additive(rows) && partCount >= 1 && batchRows > 0
    requires plan == TablePlan(rows, total, partCount, partCount, batchRows)
    ensures Concat(Written([OpenTable] + AllBrackets(plan, |plan|) + [CloseTable])) == rows(0, total)
  {
    hide TablePlan, Additive;
    SameBatches(plan);
    WrittenBetween(AllBrackets(plan, |plan|));
    PlanHoldsTheRows(rows, total, partCount, partCount, batchRows, plan);
    PartitionsMakeTheTable(rows, total, partCount);
  }

  /** The sequential writer, run on the generators of the partitions: return code 0 means the whole table. */
  method SequentialRunWritesTheTable<T(!new)>(
      ghost rows: (nat, nat) -> seq<T>, ghost total: nat, ghost batchRows: nat, generators: seq<Generator<seq<T>>>,
      oracle: Oracle<seq<T>>)
    returns (rc: int, sink: Sink<seq<T>>)
    requires Additive(rows) && |generators| >= 1 && batchRows > 0
    requires Plans(generators) == TablePlan(rows, total, |generators|, |generators|, batchRows)
    ensures rc == 0 ==> Concat(Written(sink.accepted)) == rows(0, total)
    ensures rc == 0 <==> sink.attempts == sink.accepted && forall i | 0 <= i < |generators| :: !Throws(generators[i])
  {
    hide TablePlan, Additive;
    rc, sink := RunForeignStreamingOrdered(generators, oracle);
    BracketsHoldTheTable(rows, total, |generators|, batchRows, Plans(generators));
  }

  // ---------------------------------------------------------------- the four tables meet the hypothesis

  lemma TablesAreAdditive(scale: Scale, poolSize: nat, pool: string)
    requires scale.Supported() && |pool| < CInt.TWO31
    ensures Additive((a: nat, b: nat) => Lineitem.Lines(scale, poolSize, a, b))
    ensures Additive((a: nat, b: nat) => Orders.OrderRows(scale, poolSize, a, b))
    ensures Additive((a: nat, b: nat) => PartSupp.PartSuppRows(scale, poolSize, a, b))
    ensures Additive((a: nat, b: nat) => Supplier.SupplierRows(pool, a, b))
  {
    hide Lineitem.LinesFrom, Orders.OrderAt, PartSupp.RowsFrom, Supplier.SupplierAt;
    forall a: nat, b: nat, c: nat | a <= b <= c
      ensures Lineitem.Lines(scale, poolSize, a, b) + Lineitem.Lines(scale, poolSize, b, c) ==
              Lineitem.Lines(scale, poolSize, a, c)
    {
      Lineitem.LinesSplit(scale, poolSize, a, 0, b, c);
    }
    forall a: nat, b: nat, c: nat | a <= b <= c
      ensures Orders.OrderRows(scale, poolSize, a, b) + Orders.OrderRows(scale, poolSize, b, c) ==
              Orders.OrderRows(scale, poolSize, a, c)
    {
      Orders.OrdersSplit(scale, poolSize, a, b, c);
    }
    forall a: nat, b: nat, c: nat | a <= b <= c
      ensures PartSupp.PartSuppRows(scale, poolSize, a, b) + PartSupp.PartSuppRows(scale, poolSize, b, c) ==
              PartSupp.PartSuppRows(scale, poolSize, a, c)
    {
      PartSupp.RowsSplit(scale, poolSize, a, 0, 0, b, c);
    }
    forall a: nat, b: nat, c: nat | a <= b <= c
      ensures Supplier.SupplierRows(pool, a, b) + Supplier.SupplierRows(pool, b, c) ==
              Supplier.SupplierRows(pool, a, c)
    {
      Supplier.SuppliersSplit(pool, a, b, c);
    }
  }

  /** For lineitem: every line of every order, once and in order, whoever generated it. */
  lemma LineitemSurvivesThePipeline(
      scale: Scale, poolSize: nat, totalOrders: nat, partCount: int, batchRows: nat, oracle: Oracle<seq<Lineitem.Line>>,
      capacity: nat, run: seq<MultiplexedWriter.System<seq<Lineitem.Line>>>)
    requires scale.Supported() && partCount >= 1 && batchRows > 0 && capacity >= 2
    requires MultiplexedWriter.IsExecution(
               TablePlan((a: nat, b: nat) => Lineitem.Lines(scale, poolSize, a, b),
                         totalOrders, partCount, partCount, batchRows),
               oracle, capacity, run)
    requires run[|run| - 1].pc == MultiplexedWriter.Returned(0)
    ensures Concat(Written(run[|run| - 1].consumer.sink.accepted)) == Lineitem.Lines(scale, poolSize, 0, totalOrders)
  {
    hide Lineitem.LinesFrom, TablePlan;
    var rows := (a: nat, b: nat) => Lineitem.Lines(scale, poolSize, a, b);
    TablesAreAdditive(scale, poolSize, "");
    MultiplexedRunWritesTheTable(rows, totalOrders, partCount, batchRows, oracle, capacity, run);
  }

  /** For orders. */
  lemma OrdersSurviveThePipeline(
      scale: Scale, poolSize: nat, total: nat, partCount: int, batchRows: nat, oracle: Oracle<seq<Orders.Order>>,
      capacity: nat, run: seq<MultiplexedWriter.System<seq<Orders.Order>>>)
    requires scale.Supported() && partCount >= 1 && batchRows > 0 && capacity >= 2
    requires MultiplexedWriter.IsExecution(
               TablePlan((a: nat, b: nat) => Orders.OrderRows(scale, poolSize, a, b),
                         total, partCount, partCount, batchRows),
               oracle, capacity, run)
    requires run[|run| - 1].pc == MultiplexedWriter.Returned(0)
    ensures Concat(Written(run[|run| - 1].consumer.sink.accepted)) == Orders.OrderRows(scale, poolSize, 0, total)
  {
    hide Orders.OrderRows, TablePlan;
    var rows := (a: nat, b: nat) => Orders.OrderRows(scale, poolSize, a, b);
    TablesAreAdditive(scale, poolSize, "");
    MultiplexedRunWritesTheTable(rows, total, partCount, batchRows, oracle, capacity, run);
  }

  /** For partsupp. */
  lemma PartSuppSurvivesThePipeline(
      scale: Scale, poolSize: nat, totalParts: nat, partCount: int, batchRows: nat,
      oracle: Oracle<seq<PartSupp.PartSupplier>>, capacity: nat,
      run: seq<MultiplexedWriter.System<seq<PartSupp.PartSupplier>>>)
    requires scale.Supported() && partCount >= 1 && batchRows > 0 && capacity >= 2
    requires MultiplexedWriter.IsExecution(
               TablePlan((a: nat, b: nat) => PartSupp.PartSuppRows(scale, poolSize, a, b),
                         totalParts, partCount, partCount, batchRows),
               oracle, capacity, run)
    requires run[|run| - 1].pc == MultiplexedWriter.Returned(0)
    ensures Concat(Written(run[|run| - 1].consumer.sink.accepted)) ==
            PartSupp.PartSuppRows(scale, poolSize, 0, totalParts)
  {
    hide PartSupp.RowsFrom, TablePlan;
    var rows := (a: nat, b: nat) => PartSupp.PartSuppRows(scale, poolSize, a, b);
    TablesAreAdditive(scale, poolSize, "");
    MultiplexedRunWritesTheTable(rows, totalParts, partCount, batchRows, oracle, capacity, run);
  }

  /** For supplier. */
  lemma SupplierSurvivesThePipeline(
      pool: string, total: nat, partCount: int, batchRows: nat, oracle: Oracle<seq<Supplier.SupplierRow>>,
      capacity: nat, run: seq<MultiplexedWriter.System<seq<Supplier.SupplierRow>>>)
    requires |pool| < CInt.TWO31 && partCount >= 1 && batchRows > 0 && capacity >= 2
    requires MultiplexedWriter.IsExecution(
               TablePlan((a: nat, b: nat) => Supplier.SupplierRows(pool, a, b),
                         total, partCount, partCount, batchRows),
               oracle, capacity, run)
    requires run[|run| - 1].pc == MultiplexedWriter.Returned(0)
    ensures Concat(Written(run[|run| - 1].consumer.sink.accepted)) == Supplier.SupplierRows(pool, 0, total)
  {
    hide Supplier.SupplierRows, TablePlan;
    var rows := (a: nat, b: nat) => Supplier.SupplierRows(pool, a, b);
    TablesAreAdditive(Scale(0, 1, 1, 1), 0, pool);
    MultiplexedRunWritesTheTable(rows, total, partCount, batchRows, oracle, capacity, run);
  }
}
