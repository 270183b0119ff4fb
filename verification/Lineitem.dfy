/**
 The lineitem table: what row l of order o is, and the iterator that produces the rows of a range of orders.
 Orders and lines are counted from 0.  Decimal columns are kept in cents and percent.
 */
module Lineitem {
  import opened Wrappers
  import opened CInt
  import opened Lehmer
  import opened Dates
  import opened Keys
  import opened Distribution
  import opened Scaling
  import opened Batches
  import opened Partition

  const LINES_MAX: nat := 7
  const ORDER_DATE_MAX: int := MIN_GENERATE_DATE + (TOTAL_DATE_RANGE - 151 - 1)
  const COMMENT_MIN: nat := 10
  const COMMENT_MAX: nat := 43

  const ORDER_DATE: Column := Column(1066728069, 1)
  const LINE_COUNT: Column := Column(1434868289, 1)
  const QUANTITY: Column := Column(209208115, 7)
  const DISCOUNT: Column := Column(554590007, 7)
  const TAX: Column := Column(721958466, 7)
  const PART_KEY: Column := Column(1808217256, 7)
  const SUPPLIER_NUMBER: Column := Column(2095021727, 7)
  const SHIP_DATE: Column := Column(1769349045, 7)
  const COMMIT_DATE: Column := Column(904914315, 7)
  const RECEIPT_DATE: Column := Column(373135028, 7)
  const RETURN_FLAG: Column := Column(717419739, 7)
  const SHIP_INSTRUCT: Column := Column(1371272478, 7)
  const SHIP_MODE: Column := Column(675466456, 7)
  const COMMENT: Column := Column(1095462486, 14)

  datatype Line = Line(
    orderKey: Int32, partKey: Int32, suppKey: Int32, lineNumber: int, quantity: int, extendedPrice: Int32,
    discount: int, tax: int, returnFlag: string, lineStatus: string, shipDate: int, commitDate: int,
    receiptDate: int, shipInstruct: string, shipMode: string, comment: Text)

  // ---------------------------------------------------------------- the rows

  function OrderDate(o: nat): (date: int)
    ensures MIN_GENERATE_DATE <= date <= ORDER_DATE_MAX
  {
    SampleInRange(ORDER_DATE, o, 0, MIN_GENERATE_DATE, ORDER_DATE_MAX);
    Sample(ORDER_DATE, o, 0, MIN_GENERATE_DATE, ORDER_DATE_MAX)
  }

  function LineCount(o: nat): (n: nat)
    ensures 1 <= n <= LINES_MAX
  {
    SampleInRange(LINE_COUNT, o, 0, 1, 7);
    Sample(LINE_COUNT, o, 0, 1, 7)
  }

  function Quantity(o: nat, l: nat): int { Sample(QUANTITY, o, l, 1, 50) }

  function Discount(o: nat, l: nat): int { Sample(DISCOUNT, o, l, 0, 10) }

  function Tax(o: nat, l: nat): int { Sample(TAX, o, l, 0, 8) }

  function PartKeyMax(scale: Scale): int {
    if scale.parts < 1 then 1 else scale.parts
  }

  function PartKey(scale: Scale, o: nat, l: nat): (key: nat)
    requires scale.Supported()
    ensures 1 <= key <= PartKeyMax(scale) < TWO31
  {
    SampleInRange(PART_KEY, o, l, 1, PartKeyMax(scale));
    Sample(PART_KEY, o, l, 1, PartKeyMax(scale))
  }

  function SupplierNumber(o: nat, l: nat): (n: nat)
    ensures n < 4
  {
    SampleInRange(SUPPLIER_NUMBER, o, l, 0, 3);
    Sample(SUPPLIER_NUMBER, o, l, 0, 3)
  }

  function ShipDate(o: nat, l: nat): int {
    Sample(SHIP_DATE, o, l, 1, 121) + OrderDate(o)
  }

  function CommitDate(o: nat, l: nat): int {
    Sample(COMMIT_DATE, o, l, 30, 90) + OrderDate(o)
  }

  function ReceiptDate(o: nat, l: nat): int {
    Sample(RECEIPT_DATE, o, l, 1, 30) + ShipDate(o, l)
  }

  /** Draws the return flags of the order's first l lines made: one for each line received in the past. */
  function FlagDraws(o: nat, l: nat): (n: nat)
    ensures n <= l
  {
    if l == 0 then 0 else FlagDraws(o, l - 1) + if IsInPast(ReceiptDate(o, l - 1)) then 1 else 0
  }

  function ReturnFlag(o: nat, l: nat): string {
    if IsInPast(ReceiptDate(o, l)) then Picked(RETURN_FLAGS, At(RETURN_FLAG, o, FlagDraws(o, l) + 1)) else "N"
  }

  function LineStatus(o: nat, l: nat): string {
    if IsInPast(ShipDate(o, l)) then "F" else "O"
  }

  function LineAt(scale: Scale, poolSize: nat, o: nat, l: nat): Line
    requires scale.Supported()
  {
    hide Sample, At, IsInPast, Picked, TextAt, FlagDraws;
    var partKey := PartKey(scale, o, l);
    Line(
      ToInt32(MakeOrderKey(o + 1)),
      partKey,
      ToInt32(SelectPartSupplier(partKey, SupplierNumber(o, l), scale.suppliers)),
      l + 1,
      Quantity(o, l),
      ToInt32(PartPrice(partKey) * Quantity(o, l)),
      Discount(o, l),
      Tax(o, l),
      ReturnFlag(o, l),
      LineStatus(o, l),
      ShipDate(o, l),
      CommitDate(o, l),
      ReceiptDate(o, l),
      Picked(SHIP_INSTRUCTIONS, At(SHIP_INSTRUCT, o, l + 1)),
      Picked(SHIP_MODES, At(SHIP_MODE, o, l + 1)),
      TextAt(COMMENT, o, TextDraws(poolSize, COMMENT_MAX, l), poolSize, COMMENT_MIN, COMMENT_MAX))
  }

  /** The lines from line l of order o to the last line before order `end`. */
  function LinesFrom(scale: Scale, poolSize: nat, o: nat, l: nat, end: nat): seq<Line>
    requires scale.Supported()
    decreases end - o, LineCount(o) - l
  {
    if o >= end then []
    else if l + 1 < LineCount(o) then
      [LineAt(scale, poolSize, o, l)] + LinesFrom(scale, poolSize, o, l + 1, end)
    else [LineAt(scale, poolSize, o, l)] + LinesFrom(scale, poolSize, o + 1, 0, end)
  }

  /** The lines of orders start up to, not including, end. */
  function Lines(scale: Scale, poolSize: nat, start: nat, end: nat): seq<Line>
    requires scale.Supported()
  {
    LinesFrom(scale, poolSize, start, 0, end)
  }

  // ---------------------------------------------------------------- the iterator

  datatype Streams = Streams(
    orderDate: Stream, lineCount: Stream, quantity: Stream, discount: Stream, tax: Stream, partKey: Stream,
    supplierNumber: Stream, shipDate: Stream, commitDate: Stream, receiptDate: Stream, returnFlag: Stream,
    shipInstruct: Stream, shipMode: Stream, comment: Stream)
  {
    function Advanced(rows: nat): Streams {
      Streams(
        orderDate.Advanced(rows), lineCount.Advanced(rows), quantity.Advanced(rows), discount.Advanced(rows),
        tax.Advanced(rows), partKey.Advanced(rows), supplierNumber.Advanced(rows), shipDate.Advanced(rows),
        commitDate.Advanced(rows), receiptDate.Advanced(rows), returnFlag.Advanced(rows),
        shipInstruct.Advanced(rows), shipMode.Advanced(rows), comment.Advanced(rows))
    }

    function Finished(): Streams {
      Streams(
        orderDate.Finished(), lineCount.Finished(), quantity.Finished(), discount.Finished(), tax.Finished(),
        partKey.Finished(), supplierNumber.Finished(), shipDate.Finished(), commitDate.Finished(),
        receiptDate.Finished(), returnFlag.Finished(), shipInstruct.Finished(), shipMode.Finished(),
        comment.Finished())
    }
  }

  function FreshStreams(): Streams {
    Streams(
      Fresh(ORDER_DATE), Fresh(LINE_COUNT), Fresh(QUANTITY), Fresh(DISCOUNT), Fresh(TAX), Fresh(PART_KEY),
      Fresh(SUPPLIER_NUMBER), Fresh(SHIP_DATE), Fresh(COMMIT_DATE), Fresh(RECEIPT_DATE), Fresh(RETURN_FLAG),
      Fresh(SHIP_INSTRUCT), Fresh(SHIP_MODE), Fresh(COMMENT))
  }

  /** All streams at the start of order o, before its date and line count are drawn. */
  function OrderStart(o: nat): Streams {
    Streams(
      At(ORDER_DATE, o, 0), At(LINE_COUNT, o, 0), At(QUANTITY, o, 0), At(DISCOUNT, o, 0), At(TAX, o, 0),
      At(PART_KEY, o, 0), At(SUPPLIER_NUMBER, o, 0), At(SHIP_DATE, o, 0), At(COMMIT_DATE, o, 0),
      At(RECEIPT_DATE, o, 0), At(RETURN_FLAG, o, 0), At(SHIP_INSTRUCT, o, 0), At(SHIP_MODE, o, 0),
      At(COMMENT, o, 0))
  }

  /** Where the streams stand before line l of order o. */
  function StreamsAt(poolSize: nat, o: nat, l: nat): Streams {
    Streams(
      At(ORDER_DATE, o, 1), At(LINE_COUNT, o, 1), At(QUANTITY, o, l), At(DISCOUNT, o, l), At(TAX, o, l),
      At(PART_KEY, o, l), At(SUPPLIER_NUMBER, o, l), At(SHIP_DATE, o, l), At(COMMIT_DATE, o, l),
      At(RECEIPT_DATE, o, l), At(RETURN_FLAG, o, FlagDraws(o, l)), At(SHIP_INSTRUCT, o, l), At(SHIP_MODE, o, l),
      At(COMMENT, o, TextDraws(poolSize, COMMENT_MAX, l)))
  }

  lemma AdvancedStreams(rows: nat)
    ensures FreshStreams().Advanced(rows) == OrderStart(rows)
    ensures FreshStreams() == OrderStart(0)
  {
    hide At, Fresh, Stream.Advanced;
    AdvancedRows();
  }

  /** However many draws an order's lines made, its budget covers them, so the next order starts in place. */
  lemma FinishedStreams(poolSize: nat, o: nat, l: nat)
    requires l <= LINES_MAX
    ensures StreamsAt(poolSize, o, l).Finished() == OrderStart(o + 1)
  {
    hide At, Stream.Finished;
    FinishedRows();
  }

  /** Drawing the date and the line count. */
  lemma FirstLine(poolSize: nat, o: nat)
    ensures var s := OrderStart(o);
            && StreamsAt(poolSize, o, 0) == s.(orderDate := s.orderDate.Next(), lineCount := s.lineCount.Next())
            && OrderDate(o) == s.orderDate.Next().Int(MIN_GENERATE_DATE, ORDER_DATE_MAX)
            && LineCount(o) == s.lineCount.Next().Int(1, 7)
  {
    hide At, Stream.Next;
    DrawsStayInRow();
  }

  /** The draws of line l yield the values of its columns ... */
  lemma LineDraws(scale: Scale, poolSize: nat, o: nat, l: nat)
    requires scale.Supported()
    ensures var s := StreamsAt(poolSize, o, l);
            && s.quantity.Next().Int(1, 50) == Quantity(o, l)
            && s.discount.Next().Int(0, 10) == Discount(o, l)
            && s.tax.Next().Int(0, 8) == Tax(o, l)
            && s.partKey.Next().Int(1, ToInt32(PartKeyMax(scale))) == PartKey(scale, o, l)
            && s.supplierNumber.Next().Int(0, 3) == SupplierNumber(o, l)
            && s.shipDate.Next().Int(1, 121) + OrderDate(o) == ShipDate(o, l)
            && s.commitDate.Next().Int(30, 90) + OrderDate(o) == CommitDate(o, l)
            && s.receiptDate.Next().Int(1, 30) + ShipDate(o, l) == ReceiptDate(o, l)
  {
    hide At, Stream.Next, ValueOf, OrderDate, FlagDraws, ToInt32;
    DrawsStayInRow();
    ToInt32Keeps(PartKeyMax(scale));
  }

  lemma TokenDraws(poolSize: nat, o: nat, l: nat)
    ensures var s := StreamsAt(poolSize, o, l);
            && s.returnFlag.Next() == At(RETURN_FLAG, o, FlagDraws(o, l) + 1)
            && s.shipInstruct.Next() == At(SHIP_INSTRUCT, o, l + 1)
            && s.shipMode.Next() == At(SHIP_MODE, o, l + 1)
            && NextText(s.comment, poolSize, COMMENT_MIN, COMMENT_MAX) ==
               (TextAt(COMMENT, o, TextDraws(poolSize, COMMENT_MAX, l), poolSize, COMMENT_MIN, COMMENT_MAX),
                At(COMMENT, o, TextDraws(poolSize, COMMENT_MAX, l + 1)))
  {
    hide At, Stream.Next, NextText, TextAt, FlagDraws;
    DrawsStayInRow();
    NextTextAt(COMMENT, o, l, poolSize, COMMENT_MIN, COMMENT_MAX);
  }

  /** ... and leave the streams where line l + 1 needs them; the return flag is drawn only for the past. */
  lemma NextLine(poolSize: nat, o: nat, l: nat)
    ensures var s := StreamsAt(poolSize, o, l);
            StreamsAt(poolSize, o, l + 1) ==
            Streams(
              s.orderDate, s.lineCount, s.quantity.Next(), s.discount.Next(), s.tax.Next(), s.partKey.Next(),
              s.supplierNumber.Next(), s.shipDate.Next(), s.commitDate.Next(), s.receiptDate.Next(),
              if IsInPast(ReceiptDate(o, l)) then s.returnFlag.Next() else s.returnFlag,
              s.shipInstruct.Next(), s.shipMode.Next(),
              NextText(s.comment, poolSize, COMMENT_MIN, COMMENT_MAX).1)
  {
    hide At, Stream.Next, NextText, TextAt, IsInPast, ReceiptDate;
    DrawsStayInRow();
    TokenDraws(poolSize, o, l);
  }

  /** The id of a row says which order it belongs to and which of its lines it is. */
  predicate HasId(line: Line, id: nat) {
    line.orderKey == ToInt32(MakeOrderKey(id / LINES_MAX + 1)) && line.lineNumber == id % LINES_MAX + 1
  }

  lemma IdOfLine(scale: Scale, poolSize: nat, o: nat, l: nat)
    requires scale.Supported() && l < LineCount(o)
    ensures HasId(LineAt(scale, poolSize, o, l), o * LINES_MAX + l)
  {
    hide Sample, At, IsInPast, Picked, TextAt, FlagDraws, ToInt32, MakeOrderKey, SelectPartSupplier, PartPrice;
    hide Quantity, PartKey, SupplierNumber, ReturnFlag, LineStatus, ShipDate, CommitDate, ReceiptDate;
    LineCountBound(o);
    assert (o * 7 + l) / 7 == o && (o * 7 + l) % 7 == l;
  }

  lemma LineCountBound(o: nat)
    ensures LineCount(o) <= LINES_MAX
  {
  }

  lemma NoLines(scale: Scale, poolSize: nat, start: nat, end: nat)
    requires scale.Supported() && start >= end
    ensures Lines(scale, poolSize, start, end) == []
  {
  }

  class LineitemRowIterator {
    var scale: Scale
    var poolSize: nat
    var startOrder: nat
    var orderCount: nat
    var index: nat
    var orderDate: int
    var lineCount: int
    var lineNumber: nat
    var streams: Streams

    /** Inside the range, the fields are those of the next line. */
    ghost predicate Valid()
      reads this
    {
      && scale.Supported() && index <= orderCount
      && (index < orderCount ==>
            var o := startOrder + index;
            && lineNumber < LineCount(o) && lineCount == LineCount(o) - 1 && orderDate == OrderDate(o)
            && streams == StreamsAt(poolSize, o, lineNumber))
    }

    /** The rows still to come. */
    ghost function Remaining(): seq<Line>
      requires Valid()
      reads this
    {
      LinesFrom(scale, poolSize, startOrder + index, lineNumber, startOrder + orderCount)
    }

    constructor ()
      ensures Valid() && Remaining() == [] && fresh(this)
    {
      scale, poolSize := Scale(0, 1, 1, 1), 0;
      startOrder, orderCount, index, orderDate, lineCount, lineNumber := 0, 0, 0, 0, 0, 0;
      streams := FreshStreams();
    }

    method Reset(start: nat, end: nat, scale: Scale, poolSize: nat)
      requires scale.Supported()
      modifies this
      ensures Valid() && this.scale == scale && this.poolSize == poolSize
      ensures Remaining() == Lines(scale, poolSize, start, end)
    {
      hide At, Streams.Advanced, FreshStreams, OrderStart, Stream.Next, Stream.Int, StreamsAt, OrderDate, LineCount;
      hide LinesFrom;
      startOrder := if start > end then end else start;
      this.scale, this.poolSize := scale, poolSize;
      orderCount := end - startOrder;
      index, lineNumber := 0, 0;
      streams := FreshStreams();
      AdvancedStreams(startOrder);
      if startOrder > 0 {
        streams := streams.Advanced(startOrder);
      }
      FirstLine(poolSize, startOrder);
      if start >= end {
        NoLines(scale, poolSize, start, end);
        NoLines(scale, poolSize, end, end);
      }
      if orderCount > 0 {
        streams := streams.(orderDate := streams.orderDate.Next());
        orderDate := streams.orderDate.Int(MIN_GENERATE_DATE, ORDER_DATE_MAX);
        streams := streams.(lineCount := streams.lineCount.Next());
        lineCount := streams.lineCount.Int(1, 7) - 1;
      }
    }

    /** The draws of the next line, and its row. */
    method DrawLine() returns (row: Line)
      requires Valid() && index < orderCount
      modifies this`streams
      ensures row == LineAt(scale, poolSize, startOrder + index, lineNumber)
      ensures streams == StreamsAt(poolSize, startOrder + index, lineNumber + 1)
    {
      hide At, Stream.Next, Stream.Int, StreamsAt, OrderDate, LineCount, IsInPast, Picked, MakeOrderKey, PartPrice;
      hide SelectPartSupplier, ToInt32, NextText, TextAt, FlagDraws, Quantity, Discount, Tax, PartKey, SupplierNumber;
      hide ShipDate, CommitDate, ReceiptDate, PartKeyMax, TextDraws;
      ghost var o, l := startOrder + index, lineNumber;
      LineDraws(scale, poolSize, o, l);
      TokenDraws(poolSize, o, l);
      NextLine(poolSize, o, l);

      var orderKey := MakeOrderKey(startOrder + index + 1);
      streams := streams.(quantity := streams.quantity.Next());
      var quantity := streams.quantity.Int(1, 50);
      streams := streams.(discount := streams.discount.Next());
      var discount := streams.discount.Int(0, 10);
      streams := streams.(tax := streams.tax.Next());
      var tax := streams.tax.Int(0, 8);
      streams := streams.(partKey := streams.partKey.Next());
      var partKey := streams.partKey.Int(1, ToInt32(PartKeyMax(scale)));
      streams := streams.(supplierNumber := streams.supplierNumber.Next());
      var supplierNumber := streams.supplierNumber.Int(0, 3);
      var supplierKey := SelectPartSupplier(partKey, supplierNumber, scale.suppliers);
      var extendedPrice := PartPrice(partKey) * quantity;

      streams := streams.(shipDate := streams.shipDate.Next());
      var shipDate := streams.shipDate.Int(1, 121) + orderDate;
      streams := streams.(commitDate := streams.commitDate.Next());
      var commitDate := streams.commitDate.Int(30, 90) + orderDate;
      streams := streams.(receiptDate := streams.receiptDate.Next());
      var receiptDate := streams.receiptDate.Int(1, 30) + shipDate;

      var returnFlag := "N";
      if IsInPast(receiptDate) {
        streams := streams.(returnFlag := streams.returnFlag.Next());
        returnFlag := Picked(RETURN_FLAGS, streams.returnFlag);
      }
      var lineStatus := if IsInPast(shipDate) then "F" else "O";
      streams := streams.(shipInstruct := streams.shipInstruct.Next());
      var shipInstruct := Picked(SHIP_INSTRUCTIONS, streams.shipInstruct);
      streams := streams.(shipMode := streams.shipMode.Next());
      var shipMode := Picked(SHIP_MODES, streams.shipMode);
      var text := NextText(streams.comment, poolSize, COMMENT_MIN, COMMENT_MAX);
      streams := streams.(comment := text.1);

      row := Line(
        ToInt32(orderKey), partKey, ToInt32(supplierKey), lineNumber + 1, quantity, ToInt32(extendedPrice), discount,
        tax, returnFlag, lineStatus, shipDate, commitDate, receiptDate, shipInstruct, shipMode, text.0);
    }

    /** Counts the line; after the last one of an order, pads the streams and starts the next order. */
    method FinishLine()
      requires scale.Supported() && index < orderCount && lineNumber < LineCount(startOrder + index)
      requires lineCount == LineCount(startOrder + index) - 1 && orderDate == OrderDate(startOrder + index)
      requires streams == StreamsAt(poolSize, startOrder + index, lineNumber + 1)
      modifies `lineNumber, `index, `streams, `lineCount, `orderDate
      ensures Valid() && NextRowId() > old(NextRowId())
      ensures Remaining() == old(
                if lineNumber + 1 < LineCount(startOrder + index) then
                  LinesFrom(scale, poolSize, startOrder + index, lineNumber + 1, startOrder + orderCount)
                else LinesFrom(scale, poolSize, startOrder + index + 1, 0, startOrder + orderCount))
    {
      hide At, Streams.Finished, OrderStart, Stream.Next, Stream.Int, StreamsAt, OrderDate, LineCount, LineAt;
      ghost var o := startOrder + index;
      lineNumber := lineNumber + 1;
      if lineNumber > lineCount {
        FinishedStreams(poolSize, o, lineNumber);
        streams := streams.Finished();
        index := index + 1;
        if index < orderCount {
          FirstLine(poolSize, o + 1);
          streams := streams.(lineCount := streams.lineCount.Next());
          lineCount := streams.lineCount.Int(1, 7) - 1;
          streams := streams.(orderDate := streams.orderDate.Next());
          orderDate := streams.orderDate.Int(MIN_GENERATE_DATE, ORDER_DATE_MAX);
          lineNumber := 0;
        }
      }
    }

    method Next() returns (row: Option<Line>)
      requires Valid()
      modifies this
      ensures Valid() && unchanged(`scale, `poolSize, `startOrder, `orderCount)
      ensures row.Some? <==> old(index < orderCount)
      ensures row.Some? ==> old(Remaining()) == [row.value] + Remaining()
      ensures row.None? ==> Remaining() == old(Remaining()) == [] && NextRowId() == old(NextRowId())
      ensures row.Some? ==> old(NextRowId()) < NextRowId() && HasId(row.value, old(NextRowId()))
    {
      hide StreamsAt, OrderDate, LineCount, LineAt;
      if index >= orderCount {
        return None;
      }
      IdOfLine(scale, poolSize, startOrder + index, lineNumber);
      var line := DrawLine();
      FinishLine();
      row := Some(line);
    }

    predicate Done()
      reads this
    {
      index >= orderCount
    }

    function NextRowId(): nat
      reads this
    {
      (startOrder + index) * LINES_MAX + lineNumber
    }

    lemma RemainingIsEmpty()
      requires Valid()
      ensures Remaining() == [] <==> Done()
    {
    }
  }

  class LineitemGenerator {
    const rowIter: LineitemRowIterator

    constructor ()
      ensures rowIter.Valid() && rowIter.Remaining() == [] && fresh(rowIter)
    {
      rowIter := new LineitemRowIterator();
    }

    /** The partition splits the orders; a bad part number throws. */
    method Reset(totalOrders: nat, partNum: int, partCount: int, scale: Scale, poolSize: nat)
      returns (error: Option<Error>)
      requires scale.Supported() && rowIter.Valid()
      modifies rowIter
      ensures error == ValidatePart(partNum, partCount) && rowIter.Valid()
      ensures error.None? ==>
                var range := RangeOf(totalOrders, partNum, partCount);
                rowIter.Remaining() == Lines(scale, poolSize, range.start, range.end)
    {
      var range := MakePartitionRange(totalOrders, partNum, partCount);
      if range.Invalid? {
        return Some(range.error);
      }
      rowIter.Reset(range.value.start, range.value.end, scale, poolSize);
      error := None;
    }

    method NextBatch(maxRows: nat) returns (batch: Option<Batch<Line>>)
      requires rowIter.Valid()
      modifies rowIter
      ensures rowIter.Valid()
      ensures batch.None? <==> maxRows == 0 || old(rowIter.Remaining()) == []
      ensures batch.None? ==> rowIter.Remaining() == old(rowIter.Remaining())
      ensures batch.Some? ==>
                && batch.value.firstRowId == old(rowIter.NextRowId())
                && old(rowIter.Remaining()) == batch.value.rows + rowIter.Remaining()
                && |batch.value.rows| <= maxRows
                && (|batch.value.rows| < maxRows ==> rowIter.Remaining() == [])
                && batch.value.rows != [] && HasId(batch.value.rows[0], batch.value.firstRowId)
                && batch.value.firstRowId + |batch.value.rows| <= rowIter.NextRowId()
    {
      hide LinesFrom, LineitemRowIterator.Remaining, LineitemRowIterator.NextRowId, HasId;
      rowIter.RemainingIsEmpty();
      if maxRows == 0 || rowIter.Done() {
        return None;
      }
      ghost var all := rowIter.Remaining();
      var batchStart := rowIter.NextRowId();
      var rows: seq<Line> := [];
      var exhausted := false;
      while |rows| < maxRows && !exhausted
        invariant rowIter.Valid() && |rows| <= maxRows
        invariant rows + rowIter.Remaining() == all
        invariant exhausted ==> rowIter.Remaining() == []
        invariant batchStart + |rows| <= rowIter.NextRowId() && (rows == [] ==> batchStart == rowIter.NextRowId())
        invariant rows != [] ==> HasId(rows[0], batchStart)
        decreases maxRows - |rows|, !exhausted
      {
        ghost var before := rowIter.Remaining();
        var row := rowIter.Next();
        if row.Some? {
          assert rows + before == (rows + [row.value]) + rowIter.Remaining();
          rows := rows + [row.value];
        } else {
          exhausted := true;
        }
      }
      batch := Some(Batch(batchStart, rows));
    }

    /** The writer's loop over NextBatch yields the remaining rows cut every maxRows rows. */
    method Generate(maxRows: nat) returns (batches: seq<seq<Line>>)
      requires rowIter.Valid() && maxRows > 0
      modifies rowIter
      ensures batches == Chunks(old(rowIter.Remaining()), maxRows)
    {
      hide LineitemRowIterator.Remaining, Chunks, HasId, LineitemRowIterator.NextRowId, LineitemRowIterator.Valid;
      NoChunks<Line>(maxRows);
      batches := [];
      var batch := NextBatch(maxRows);
      while batch.Some?
        invariant rowIter.Valid()
        invariant batch.None? ==> rowIter.Remaining() == []
        invariant batch.Some? ==> 0 < |batch.value.rows| <= maxRows
        invariant batch.Some? && |batch.value.rows| < maxRows ==> rowIter.Remaining() == []
        invariant var rest := (if batch.Some? then batch.value.rows else []) + rowIter.Remaining();
                  batches + Chunks(rest, maxRows) == Chunks(old(rowIter.Remaining()), maxRows)
        decreases |(if batch.Some? then batch.value.rows else []) + rowIter.Remaining()|, batch
      {
        ChunkStep(batch.value.rows, rowIter.Remaining(), maxRows);
        batches := batches + [batch.value.rows];
        batch := NextBatch(maxRows);
      }
    }
  }

  // ---------------------------------------------------------------- partitions

  lemma {:induction false} LinesSplit(scale: Scale, poolSize: nat, o: nat, l: nat, middle: nat, end: nat)
    requires scale.Supported() && o <= middle <= end && (o < middle || l == 0)
    ensures LinesFrom(scale, poolSize, o, l, middle) + LinesFrom(scale, poolSize, middle, 0, end) ==
            LinesFrom(scale, poolSize, o, l, end)
    decreases middle - o, LineCount(o) - l
  {
    hide LineAt, LineCount;
    if o < middle {
      if l + 1 < LineCount(o) {
        LinesSplit(scale, poolSize, o, l + 1, middle, end);
      } else {
        LinesSplit(scale, poolSize, o + 1, 0, middle, end);
      }
    }
  }

  /** The lines of all partitions, one after the other, are the lines of the whole table. */
  lemma PartitionsMakeLineitem(scale: Scale, poolSize: nat, totalOrders: nat, partCount: int)
    requires scale.Supported() && 1 <= partCount
    ensures Partitioned((a, b) => Lines(scale, poolSize, a, b), totalOrders, partCount, partCount) ==
            Lines(scale, poolSize, 0, totalOrders)
  {
    hide LinesFrom;
    var rows := (a: nat, b: nat) => Lines(scale, poolSize, a, b);
    forall a: nat, b: nat, c: nat | a <= b <= c
      ensures rows(a, b) + rows(b, c) == rows(a, c)
    {
      LinesSplit(scale, poolSize, a, 0, b, c);
    }
    PartitionsMakeTheTable(rows, totalOrders, partCount);
  }

  // ---------------------------------------------------------------- the values

  /** Every date of the table lies in the 2557 days from 1 January 1992; the other columns keep their ranges. */
  lemma LineInRange(scale: Scale, o: nat, l: nat)
    ensures 1 <= Quantity(o, l) <= 50 && 0 <= Discount(o, l) <= 10 && 0 <= Tax(o, l) <= 8
    ensures MIN_GENERATE_DATE < ShipDate(o, l) < ReceiptDate(o, l) <= MIN_GENERATE_DATE + TOTAL_DATE_RANGE - 1
    ensures MIN_GENERATE_DATE < CommitDate(o, l) <= MIN_GENERATE_DATE + TOTAL_DATE_RANGE - 1
  {
    hide Sample;
    SampleInRange(QUANTITY, o, l, 1, 50);
    SampleInRange(DISCOUNT, o, l, 0, 10);
    SampleInRange(TAX, o, l, 0, 8);
    SampleInRange(SHIP_DATE, o, l, 1, 121);
    SampleInRange(COMMIT_DATE, o, l, 30, 90);
    SampleInRange(RECEIPT_DATE, o, l, 1, 30);
  }
}
