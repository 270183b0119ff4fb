/**
 The orders table: what order o is, and the iterator that produces a range of orders.  Total price and status
 are computed by drawing again what the lineitem table draws for the order's lines.
 */
module Orders {
  import opened Wrappers
  import opened CInt
  import opened Lehmer
  import opened Dates
  import opened Keys
  import opened Distribution
  import opened Scaling
  import opened Batches
  import opened Partition

  const LINES_MAX: nat := 7
  const ORDER_DATE_MAX: int := MIN_GENERATE_DATE + (TOTAL_DATE_RANGE - 151 - 1)
  const COMMENT_MIN: nat := 19
  const COMMENT_MAX: nat := 78

  const ORDER_DATE: Column := Column(1066728069, 1)
  const LINE_COUNT: Column := Column(1434868289, 1)
  const CUSTOMER_KEY: Column := Column(851767375, 1)
  const ORDER_PRIORITY: Column := Column(591449447, 1)
  const CLERK: Column := Column(1171034773, 1)
  const COMMENT: Column := Column(276090261, 2)
  const LINE_QUANTITY: Column := Column(209208115, 7)
  const LINE_DISCOUNT: Column := Column(554590007, 7)
  const LINE_TAX: Column := Column(721958466, 7)
  const LINE_PART_KEY: Column := Column(1808217256, 7)
  const LINE_SHIP_DATE: Column := Column(1769349045, 7)

  /** The clerk is kept as a number; its text is "Clerk#" and nine digits. */
  datatype Order = Order(
    orderKey: Int32, custKey: Int32, orderStatus: string, totalPrice: Int32, orderDate: int,
    orderPriority: string, clerk: int, shipPriority: int, comment: Text)

  // ---------------------------------------------------------------- the rows

  function OrderDate(o: nat): (date: int)
    ensures MIN_GENERATE_DATE <= date <= ORDER_DATE_MAX
  {
    SampleInRange(ORDER_DATE, o, 0, MIN_GENERATE_DATE, ORDER_DATE_MAX);
    Sample(ORDER_DATE, o, 0, MIN_GENERATE_DATE, ORDER_DATE_MAX)
  }

  function LineCount(o: nat): (n: nat)
    ensures 1 <= n <= LINES_MAX
  {
    SampleInRange(LINE_COUNT, o, 0, 1, 7);
    Sample(LINE_COUNT, o, 0, 1, 7)
  }

  function CustomerKey(scale: Scale, o: nat): (key: int)
    requires scale.Supported()
    ensures 1 <= key <= scale.customers && key % 3 != 0
  {
    SampleInRange(CUSTOMER_KEY, o, 0, 1, scale.customers);
    LivingCustomerIsValid(Sample(CUSTOMER_KEY, o, 0, 1, scale.customers), scale.customers);
    LivingCustomer(Sample(CUSTOMER_KEY, o, 0, 1, scale.customers), scale.customers)
  }

  function Quantity(o: nat, l: nat): (quantity: nat)
    ensures 1 <= quantity <= 50
  {
    SampleInRange(LINE_QUANTITY, o, l, 1, 50);
    Sample(LINE_QUANTITY, o, l, 1, 50)
  }

  function Discount(o: nat, l: nat): (discount: nat)
    ensures discount <= 10
  {
    SampleInRange(LINE_DISCOUNT, o, l, 0, 10);
    Sample(LINE_DISCOUNT, o, l, 0, 10)
  }

  function Tax(o: nat, l: nat): (tax: nat)
    ensures tax <= 8
  {
    SampleInRange(LINE_TAX, o, l, 0, 8);
    Sample(LINE_TAX, o, l, 0, 8)
  }

  /** Without parts the bounds are [1, 0], whose range is empty and whose value is 1. */
  lemma EmptyRangeGivesOne(seed: int)
    ensures ValueOf(seed, 1, 0) == 1
  {
  }

  function PartKey(scale: Scale, o: nat, l: nat): (key: nat)
    requires scale.Supported()
    ensures 1 <= key <= (if scale.parts < 1 then 1 else scale.parts)
  {
    if scale.parts == 0 then
      EmptyRangeGivesOne(At(LINE_PART_KEY, o, l + 1).seed);
      Sample(LINE_PART_KEY, o, l, 1, scale.parts)
    else
      SampleInRange(LINE_PART_KEY, o, l, 1, scale.parts);
      Sample(LINE_PART_KEY, o, l, 1, scale.parts)
  }

  function ShipDate(o: nat, l: nat): int {
    Sample(LINE_SHIP_DATE, o, l, 1, 121) + OrderDate(o)
  }

  /** One line's price in cents, discounted and taxed, cut to whole cents at both steps. */
  function LinePrice(partPrice: nat, quantity: nat, discount: nat, tax: nat): (price: nat)
    requires discount <= 100
  {
    ProductOfNaturals(partPrice, quantity);
    ProductOfNaturals(partPrice * quantity, 100 - discount);
    ProductOfNaturals(partPrice * quantity * (100 - discount) / 100, 100 + tax);
    partPrice * quantity * (100 - discount) / 100 * (100 + tax) / 100
  }

  function PriceOf(scale: Scale, o: nat, l: nat): nat
    requires scale.Supported()
  {
    LinePrice(PartPrice(PartKey(scale, o, l)), Quantity(o, l), Discount(o, l), Tax(o, l))
  }

  /** The prices of the order's first n lines. */
  function TotalPrice(scale: Scale, o: nat, n: nat): nat
    requires scale.Supported()
  {
    if n == 0 then 0 else TotalPrice(scale, o, n - 1) + PriceOf(scale, o, n - 1)
  }

  /** How many of the order's first n lines were shipped in the past. */
  function ShippedCount(o: nat, n: nat): (count: nat)
    ensures count <= n
  {
    if n == 0 then 0 else ShippedCount(o, n - 1) + if IsInPast(ShipDate(o, n - 1)) then 1 else 0
  }

  function OrderStatus(shipped: nat, lines: nat): string {
    if shipped == lines then "F" else if shipped > 0 then "P" else "O"
  }

  function OrderAt(scale: Scale, poolSize: nat, o: nat): Order
    requires scale.Supported()
  {
    Order(
      ToInt32(MakeOrderKey(o + 1)),
      ToInt32(CustomerKey(scale, o)),
      OrderStatus(ShippedCount(o, LineCount(o)), LineCount(o)),
      ToInt32(TotalPrice(scale, o, LineCount(o))),
      OrderDate(o),
      Picked(ORDER_PRIORITIES, At(ORDER_PRIORITY, o, 1)),
      Sample(CLERK, o, 0, 1, scale.clerks),
      0,
      TextAt(COMMENT, o, 0, poolSize, COMMENT_MIN, COMMENT_MAX))
  }

  /** Orders start up to, not including, end. */
  function OrderRows(scale: Scale, poolSize: nat, start: nat, end: nat): seq<Order>
    requires scale.Supported()
    decreases end - start
  {
    if start >= end then [] else [OrderAt(scale, poolSize, start)] + OrderRows(scale, poolSize, start + 1, end)
  }

  // ---------------------------------------------------------------- the streams

  datatype Streams = Streams(
    orderDate: Stream, lineCount: Stream, customerKey: Stream, orderPriority: Stream, clerk: Stream,
    comment: Stream, lineQuantity: Stream, lineDiscount: Stream, lineTax: Stream, linePartKey: Stream,
    lineShipDate: Stream)
  {
    function Advanced(rows: nat): Streams {
      Streams(
        orderDate.Advanced(rows), lineCount.Advanced(rows), customerKey.Advanced(rows),
        orderPriority.Advanced(rows), clerk.Advanced(rows), comment.Advanced(rows),
        lineQuantity.Advanced(rows), lineDiscount.Advanced(rows), lineTax.Advanced(rows),
        linePartKey.Advanced(rows), lineShipDate.Advanced(rows))
    }

    function Finished(): Streams {
      Streams(
        orderDate.Finished(), lineCount.Finished(), customerKey.Finished(), orderPriority.Finished(),
        clerk.Finished(), comment.Finished(), lineQuantity.Finished(), lineDiscount.Finished(),
        lineTax.Finished(), linePartKey.Finished(), lineShipDate.Finished())
    }
  }

  function FreshStreams(): Streams {
    Streams(
      Fresh(ORDER_DATE), Fresh(LINE_COUNT), Fresh(CUSTOMER_KEY), Fresh(ORDER_PRIORITY), Fresh(CLERK),
      Fresh(COMMENT), Fresh(LINE_QUANTITY), Fresh(LINE_DISCOUNT), Fresh(LINE_TAX), Fresh(LINE_PART_KEY),
      Fresh(LINE_SHIP_DATE))
  }

  /** All streams at the start of order o. */
  function OrderStart(o: nat): Streams {
    Streams(
      At(ORDER_DATE, o, 0), At(LINE_COUNT, o, 0), At(CUSTOMER_KEY, o, 0), At(ORDER_PRIORITY, o, 0),
      At(CLERK, o, 0), At(COMMENT, o, 0), At(LINE_QUANTITY, o, 0), At(LINE_DISCOUNT, o, 0), At(LINE_TAX, o, 0),
      At(LINE_PART_KEY, o, 0), At(LINE_SHIP_DATE, o, 0))
  }

  /** All streams after n lines of order o were replayed and its own columns were drawn. */
  function OrderDrawn(poolSize: nat, o: nat, n: nat): Streams {
    Streams(
      At(ORDER_DATE, o, 1), At(LINE_COUNT, o, 1), At(CUSTOMER_KEY, o, 1), At(ORDER_PRIORITY, o, 1), At(CLERK, o, 1),
      At(COMMENT, o, TextDraws(poolSize, COMMENT_MAX, 1)), At(LINE_QUANTITY, o, n), At(LINE_DISCOUNT, o, n),
      At(LINE_TAX, o, n), At(LINE_PART_KEY, o, n), At(LINE_SHIP_DATE, o, n))
  }

  lemma AdvancedStreams(rows: nat)
    ensures FreshStreams().Advanced(rows) == OrderStart(rows)
    ensures FreshStreams() == OrderStart(0)
  {
    hide At, Fresh, Stream.Advanced;
    AdvancedRows();
  }

  /** However many lines the order has, the budget of seven covers them, so the next order starts in place. */
  lemma FinishedStreams(poolSize: nat, o: nat, n: nat)
    requires n <= LINES_MAX
    ensures OrderDrawn(poolSize, o, n).Finished() == OrderStart(o + 1)
  {
    hide At, Stream.Finished;
    FinishedRows();
  }

  lemma OwnDraws(scale: Scale, poolSize: nat, o: nat)
    requires scale.Supported()
    ensures var s := OrderStart(o);
            && s.orderDate.Next().Int(MIN_GENERATE_DATE, ORDER_DATE_MAX) == OrderDate(o)
            && s.lineCount.Next().Int(1, 7) == LineCount(o)
            && LivingCustomer(s.customerKey.Next().Int(1, ToInt32(scale.customers)), scale.customers) ==
               CustomerKey(scale, o)
            && s.orderPriority.Next() == At(ORDER_PRIORITY, o, 1)
            && s.clerk.Next().Int(1, scale.clerks) == Sample(CLERK, o, 0, 1, scale.clerks)
            && NextText(s.comment, poolSize, COMMENT_MIN, COMMENT_MAX) ==
               (TextAt(COMMENT, o, 0, poolSize, COMMENT_MIN, COMMENT_MAX),
                At(COMMENT, o, TextDraws(poolSize, COMMENT_MAX, 1)))
  {
    hide At, Stream.Next, ValueOf, NextText, TextAt, LivingCustomer;
    DrawsStayInRow();
    ToInt32Keeps(scale.customers);
    NextTextAt(COMMENT, o, 0, poolSize, COMMENT_MIN, COMMENT_MAX);
  }

  lemma OwnSteps(poolSize: nat, o: nat)
    ensures var s := OrderStart(o);
            OrderDrawn(poolSize, o, 0) ==
            s.(orderDate := s.orderDate.Next(), lineCount := s.lineCount.Next(), customerKey := s.customerKey.Next(),
               orderPriority := s.orderPriority.Next(), clerk := s.clerk.Next(),
               comment := NextText(s.comment, poolSize, COMMENT_MIN, COMMENT_MAX).1)
  {
    hide At, Stream.Next, NextText;
    DrawsStayInRow();
    NextTextAt(COMMENT, o, 0, poolSize, COMMENT_MIN, COMMENT_MAX);
  }

  /** The streams that replay the lines, each n draws into order o. */
  predicate Replayed(s: Streams, o: nat, n: nat) {
    && s.lineQuantity == At(LINE_QUANTITY, o, n) && s.lineDiscount == At(LINE_DISCOUNT, o, n)
    && s.lineTax == At(LINE_TAX, o, n) && s.linePartKey == At(LINE_PART_KEY, o, n)
    && s.lineShipDate == At(LINE_SHIP_DATE, o, n)
  }

  function NextReplay(s: Streams): Streams {
    s.(lineQuantity := s.lineQuantity.Next(), lineDiscount := s.lineDiscount.Next(), lineTax := s.lineTax.Next(),
       linePartKey := s.linePartKey.Next(), lineShipDate := s.lineShipDate.Next())
  }

  lemma ReplayDraws(scale: Scale, s: Streams, o: nat, l: nat)
    requires scale.Supported() && Replayed(s, o, l)
    ensures Replayed(NextReplay(s), o, l + 1)
    ensures s.lineQuantity.Next().Int(1, 50) == Quantity(o, l)
    ensures s.lineDiscount.Next().Int(0, 10) == Discount(o, l)
    ensures s.lineTax.Next().Int(0, 8) == Tax(o, l)
    ensures s.linePartKey.Next().Int(1, ToInt32(scale.parts)) == PartKey(scale, o, l)
    ensures s.lineShipDate.Next().Int(1, 121) + OrderDate(o) == ShipDate(o, l)
  {
    hide At, Stream.Next, ValueOf, OrderDate;
    DrawsStayInRow();
    ToInt32Keeps(scale.parts);
  }

  // ---------------------------------------------------------------- the iterator

  /** The id of a row is its index, and its key counts from 1. */
  predicate HasId(row: Order, id: nat) {
    row.orderKey == ToInt32(MakeOrderKey(id + 1))
  }

  lemma IdOfOrder(scale: Scale, poolSize: nat, o: nat)
    requires scale.Supported()
    ensures HasId(OrderAt(scale, poolSize, o), o)
  {
    hide Sample, At, Picked, TextAt, ToInt32, MakeOrderKey, CustomerKey, TotalPrice, ShippedCount, LineCount, OrderDate;
  }

  class OrderRowIterator {
    var nextRow: nat
    var endRow: nat
    var scale: Scale
    var poolSize: nat
    var streams: Streams

    ghost predicate Valid()
      reads this
    {
      scale.Supported() && nextRow <= endRow && streams == OrderStart(nextRow)
    }

    ghost function Remaining(): seq<Order>
      requires Valid()
      reads this
    {
      OrderRows(scale, poolSize, nextRow, endRow)
    }

    constructor ()
      ensures Valid() && Remaining() == [] && fresh(this)
    {
      scale, poolSize := Scale(0, 1, 1, 1), 0;
      nextRow, endRow := 0, 0;
      streams := FreshStreams();
      new;
      AdvancedStreams(0);
    }

    method Reset(start: nat, end: nat, scale: Scale, poolSize: nat)
      requires scale.Supported()
      modifies this
      ensures Valid() && this.scale == scale && this.poolSize == poolSize
      ensures Remaining() == OrderRows(scale, poolSize, start, end)
    {
      hide At, Streams.Advanced, FreshStreams, OrderStart, OrderAt;
      nextRow := if start > end then end else start;
      endRow := end;
      this.scale, this.poolSize := scale, poolSize;
      streams := FreshStreams();
      AdvancedStreams(nextRow);
      if nextRow > 0 {
        streams := streams.Advanced(nextRow);
      }
    }

    /** The loop over the order's lines. */
    method ReplayLines(orderDate: int, lineCount: nat) returns (totalPrice: nat, shippedCount: nat)
      requires scale.Supported() && orderDate == OrderDate(nextRow) && Replayed(streams, nextRow, 0)
      modifies `streams
      ensures totalPrice == TotalPrice(scale, nextRow, lineCount) && shippedCount == ShippedCount(nextRow, lineCount)
      ensures Replayed(streams, nextRow, lineCount)
      ensures streams == old(streams).(
                lineQuantity := streams.lineQuantity, lineDiscount := streams.lineDiscount, lineTax := streams.lineTax,
                linePartKey := streams.linePartKey, lineShipDate := streams.lineShipDate)
    {
      hide Replayed, OrderDate, Stream.Next, Stream.Int, LinePrice, PartPrice, IsInPast, PartKey, ToInt32, ShipDate;
      hide Quantity, Discount, Tax;
      totalPrice, shippedCount := 0, 0;
      var i := 0;
      while i < lineCount
        invariant i <= lineCount && Replayed(streams, nextRow, i)
        invariant totalPrice == TotalPrice(scale, nextRow, i) && shippedCount == ShippedCount(nextRow, i)
        invariant streams == old(streams).(
                    lineQuantity := streams.lineQuantity, lineDiscount := streams.lineDiscount,
                    lineTax := streams.lineTax, linePartKey := streams.linePartKey,
                    lineShipDate := streams.lineShipDate)
      {
        ReplayDraws(scale, streams, nextRow, i);
        ghost var before := streams;
        streams := streams.(lineQuantity := streams.lineQuantity.Next());
        var quantity := streams.lineQuantity.Int(1, 50);
        streams := streams.(lineDiscount := streams.lineDiscount.Next());
        var discount := streams.lineDiscount.Int(0, 10);
        streams := streams.(lineTax := streams.lineTax.Next());
        var tax := streams.lineTax.Int(0, 8);
        streams := streams.(linePartKey := streams.linePartKey.Next());
        var partKey := streams.linePartKey.Int(1, ToInt32(scale.parts));
        totalPrice := totalPrice + LinePrice(PartPrice(partKey), quantity, discount, tax);
        streams := streams.(lineShipDate := streams.lineShipDate.Next());
        var shipDate := streams.lineShipDate.Int(1, 121) + orderDate;
        if IsInPast(shipDate) {
          shippedCount := shippedCount + 1;
        }
        assert streams == NextReplay(before);
        i := i + 1;
      }
    }

    method DrawOrder() returns (row: Order)
      requires Valid() && nextRow < endRow
      modifies `streams
      ensures row == OrderAt(scale, poolSize, nextRow)
      ensures streams == OrderDrawn(poolSize, nextRow, LineCount(nextRow))
    {
      hide At, Stream.Next, Stream.Int, NextText, TextAt, OrderDate, LineCount, MakeOrderKey, ToInt32, Picked;
      hide LivingCustomer, CustomerKey, OrderStatus, TotalPrice, ShippedCount, TextDraws;
      ghost var o, s := nextRow, streams;
      OwnDraws(scale, poolSize, o);
      OwnSteps(poolSize, o);

      var orderKey := MakeOrderKey(nextRow + 1);
      streams := streams.(orderDate := streams.orderDate.Next());
      var orderDate := streams.orderDate.Int(MIN_GENERATE_DATE, ORDER_DATE_MAX);
      streams := streams.(customerKey := streams.customerKey.Next());
      var customerKey := SkipDeadCustomers(streams.customerKey.Int(1, ToInt32(scale.customers)), scale.customers);
      streams := streams.(lineCount := streams.lineCount.Next());
      var lineCount := streams.lineCount.Int(1, 7);
      var totalPrice, shippedCount := ReplayLines(orderDate, lineCount);
      var orderStatus := OrderStatus(shippedCount, lineCount);
      streams := streams.(clerk := streams.clerk.Next());
      var clerk := streams.clerk.Int(1, scale.clerks);
      streams := streams.(orderPriority := streams.orderPriority.Next());
      var orderPriority := Picked(ORDER_PRIORITIES, streams.orderPriority);
      var text := NextText(streams.comment, poolSize, COMMENT_MIN, COMMENT_MAX);
      streams := streams.(comment := text.1);
      row := Order(
        ToInt32(orderKey), ToInt32(customerKey), orderStatus, ToInt32(totalPrice), orderDate, orderPriority, clerk, 0,
        text.0);
    }

    method Next() returns (row: Option<Order>)
      requires Valid()
      modifies this
      ensures Valid() && unchanged(`scale, `poolSize, `endRow)
      ensures row.Some? <==> old(nextRow < endRow)
      ensures row.Some? ==> old(Remaining()) == [row.value] + Remaining()
      ensures row.None? ==> Remaining() == old(Remaining()) == [] && NextRowId() == old(NextRowId())
      ensures row.Some? ==> NextRowId() == old(NextRowId()) + 1 && HasId(row.value, old(NextRowId()))
    {
      hide OrderAt, OrderStart, OrderDrawn, LineCount, Streams.Finished;
      if nextRow >= endRow {
        return None;
      }
      IdOfOrder(scale, poolSize, nextRow);
      var order := DrawOrder();
      FinishedStreams(poolSize, nextRow, LineCount(nextRow));
      streams := streams.Finished();
      nextRow := nextRow + 1;
      row := Some(order);
    }

    predicate Done()
      reads this
    {
      nextRow >= endRow
    }

    function NextRowId(): nat
      reads this
    {
      nextRow
    }

    lemma RemainingIsEmpty()
      requires Valid()
      ensures Remaining() == [] <==> Done()
    {
    }
  }

  class OrderGenerator {
    const rowIter: OrderRowIterator

    constructor ()
      ensures rowIter.Valid() && rowIter.Remaining() == [] && fresh(rowIter)
    {
      rowIter := new OrderRowIterator();
    }

    method Reset(range: Range, scale: Scale, poolSize: nat)
      requires scale.Supported()
      modifies rowIter
      ensures rowIter.Valid() && rowIter.Remaining() == OrderRows(scale, poolSize, range.start, range.end)
    {
      rowIter.Reset(range.start, range.end, scale, poolSize);
    }

    method NextBatch(maxRows: nat) returns (batch: Option<Batch<Order>>)
      requires rowIter.Valid()
      modifies rowIter
      ensures rowIter.Valid()
      ensures batch.None? <==> maxRows == 0 || old(rowIter.Remaining()) == []
      ensures batch.None? ==> rowIter.Remaining() == old(rowIter.Remaining())
      ensures batch.Some? ==>
                && batch.value.firstRowId == old(rowIter.NextRowId())
                && old(rowIter.Remaining()) == batch.value.rows + rowIter.Remaining()
                && |batch.value.rows| <= maxRows
                && (|batch.value.rows| < maxRows ==> rowIter.Remaining() == [])
                && batch.value.rows != [] && batch.value.firstRowId + |batch.value.rows| == rowIter.NextRowId()
                && forall k | 0 <= k < |batch.value.rows| ::
                     HasId(batch.value.rows[k], batch.value.firstRowId + k)
    {
      hide OrderRows, OrderRowIterator.Remaining;
      rowIter.RemainingIsEmpty();
      if maxRows == 0 || rowIter.Done() {
        return None;
      }
      ghost var all := rowIter.Remaining();
      var batchStart := rowIter.NextRowId();
      var rows: seq<Order> := [];
      var exhausted := false;
      while |rows| < maxRows && !exhausted
        invariant rowIter.Valid() && |rows| <= maxRows
        invariant rows + rowIter.Remaining() == all
        invariant exhausted ==> rowIter.Remaining() == []
        invariant batchStart + |rows| == rowIter.NextRowId()
        invariant forall k | 0 <= k < |rows| :: HasId(rows[k], batchStart + k)
        decreases maxRows - |rows|, !exhausted
      {
        ghost var before := rowIter.Remaining();
        var row := rowIter.Next();
        if row.Some? {
          assert rows + before == (rows + [row.value]) + rowIter.Remaining();
          rows := rows + [row.value];
        } else {
          exhausted := true;
        }
      }
      batch := Some(Batch(batchStart, rows));
    }

    /** The writer's loop over NextBatch yields the remaining rows cut every maxRows rows. */
    method Generate(maxRows: nat) returns (batches: seq<seq<Order>>)
      requires rowIter.Valid() && maxRows > 0
      modifies rowIter
      ensures batches == Chunks(old(rowIter.Remaining()), maxRows)
    {
      hide OrderRowIterator.Remaining, Chunks, HasId, OrderRowIterator.NextRowId;
      NoChunks<Order>(maxRows);
      batches := [];
      var batch := NextBatch(maxRows);
      while batch.Some?
        invariant rowIter.Valid()
        invariant batch.None? ==> rowIter.Remaining() == []
        invariant batch.Some? ==> 0 < |batch.value.rows| <= maxRows
        invariant batch.Some? && |batch.value.rows| < maxRows ==> rowIter.Remaining() == []
        invariant var rest := (if batch.Some? then batch.value.rows else []) + rowIter.Remaining();
                  batches + Chunks(rest, maxRows) == Chunks(old(rowIter.Remaining()), maxRows)
        decreases |(if batch.Some? then batch.value.rows else []) + rowIter.Remaining()|, batch
      {
        ChunkStep(batch.value.rows, rowIter.Remaining(), maxRows);
        batches := batches + [batch.value.rows];
        batch := NextBatch(maxRows);
      }
    }
  }

  // ---------------------------------------------------------------- partitions

  lemma {:induction false} OrdersSplit(scale: Scale, poolSize: nat, start: nat, middle: nat, end: nat)
    requires scale.Supported() && start <= middle <= end
    ensures OrderRows(scale, poolSize, start, middle) + OrderRows(scale, poolSize, middle, end) ==
            OrderRows(scale, poolSize, start, end)
    decreases middle - start
  {
    hide OrderAt;
    if start < middle {
      OrdersSplit(scale, poolSize, start + 1, middle, end);
    }
  }

  /** The orders of all partitions, one after the other, are the orders of the whole table. */
  lemma PartitionsMakeOrders(scale: Scale, poolSize: nat, total: nat, partCount: int)
    requires scale.Supported() && 1 <= partCount
    ensures Partitioned((a, b) => OrderRows(scale, poolSize, a, b), total, partCount, partCount) ==
            OrderRows(scale, poolSize, 0, total)
  {
    hide OrderAt;
    var rows := (a: nat, b: nat) => OrderRows(scale, poolSize, a, b);
    forall a: nat, b: nat, c: nat | a <= b <= c
      ensures rows(a, b) + rows(b, c) == rows(a, c)
    {
      OrdersSplit(scale, poolSize, a, b, c);
    }
    PartitionsMakeTheTable(rows, total, partCount);
  }

  // ---------------------------------------------------------------- the values

  lemma LinePriceBound(partPrice: nat, quantity: nat, discount: nat, tax: nat)
    requires partPrice <= 209900 && quantity <= 50 && discount <= 100 && tax <= 8
    ensures LinePrice(partPrice, quantity, discount, tax) <= 11334600
  {
    ProductOfNaturals(partPrice, quantity);
    ProductMonotone(partPrice, 209900, quantity);
    ProductMonotone(100 - discount, 100, partPrice * quantity);
    assert partPrice * quantity * (100 - discount) == (100 - discount) * (partPrice * quantity);
    var discounted := partPrice * quantity * (100 - discount) / 100;
    assert discounted <= 10495000;
    ProductOfNaturals(partPrice * quantity, 100 - discount);
    ProductMonotone(100 + tax, 108, discounted);
    assert discounted * (100 + tax) == (100 + tax) * discounted;
  }

  lemma {:induction false} TotalPriceBound(scale: Scale, o: nat, n: nat)
    requires scale.Supported()
    ensures TotalPrice(scale, o, n) <= 11334600 * n
  {
    hide LinePrice, PartPrice, Quantity, Discount, Tax;
    if n > 0 {
      TotalPriceBound(scale, o, n - 1);
      LinePriceBound(PartPrice(PartKey(scale, o, n - 1)), Quantity(o, n - 1), Discount(o, n - 1), Tax(o, n - 1));
    }
  }

  /** The total always fits its 32-bit column, and so does the customer's key, which is never a multiple of 3. */
  lemma OrderFits(scale: Scale, poolSize: nat, o: nat)
    requires scale.Supported()
    ensures OrderAt(scale, poolSize, o).totalPrice == TotalPrice(scale, o, LineCount(o)) <= 79342200
    ensures 1 <= OrderAt(scale, poolSize, o).custKey <= scale.customers
    ensures OrderAt(scale, poolSize, o).custKey % 3 != 0
  {
    hide TotalPrice, CustomerKey, LineCount, OrderDate, ToInt32;
    TotalPriceBound(scale, o, LineCount(o));
    ToInt32Keeps(TotalPrice(scale, o, LineCount(o)));
    ToInt32Keeps(CustomerKey(scale, o));
  }
}
