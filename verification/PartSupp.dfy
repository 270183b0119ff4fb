/** The partsupp table: four suppliers for every part, and the iterator over a range of parts. */
module PartSupp {
  import opened Wrappers
  import opened CInt
  import opened Lehmer
  import opened Keys
  import opened Scaling
  import opened Batches
  import opened Partition

  const SUPPLIERS_PER_PART: nat := 4
  const COMMENT_MIN: nat := 49
  const COMMENT_MAX: nat := 198

  const AVAILABLE_QUANTITY: Column := Column(1671059989, 4)
  const SUPPLY_COST: Column := Column(1051288424, 4)
  const COMMENT: Column := Column(1961692154, 8)

  datatype PartSupplier = PartSupplier(partKey: Int32, suppKey: Int32, availQty: int, supplyCost: int, comment: Text)

  // ---------------------------------------------------------------- the rows

  /** Supplier `number` of part p, counting both from 0, with the values of draw d. */
  function RowAt(scale: Scale, poolSize: nat, p: nat, number: nat, d: nat): PartSupplier
    requires scale.Supported()
  {
    PartSupplier(
      ToInt32(p + 1),
      ToInt32(SupplierOf(ToInt32(p + 1), number, scale.suppliers)),
      Sample(AVAILABLE_QUANTITY, p, d, 1, 9999),
      Sample(SUPPLY_COST, p, d, 100, 100000),
      TextAt(COMMENT, p, TextDraws(poolSize, COMMENT_MAX, d), poolSize, COMMENT_MIN, COMMENT_MAX))
  }

  function RowsFrom(scale: Scale, poolSize: nat, p: nat, number: nat, d: nat, end: nat): seq<PartSupplier>
    requires scale.Supported()
    decreases end - p, SUPPLIERS_PER_PART - number
  {
    if p >= end then []
    else if number + 1 < SUPPLIERS_PER_PART then
      [RowAt(scale, poolSize, p, number, d)] + RowsFrom(scale, poolSize, p, number + 1, d + 1, end)
    else [RowAt(scale, poolSize, p, number, d)] + RowsFrom(scale, poolSize, p + 1, 0, 0, end)
  }

  /** The rows of parts start up to, not including, end. */
  function PartSuppRows(scale: Scale, poolSize: nat, start: nat, end: nat): seq<PartSupplier>
    requires scale.Supported()
  {
    RowsFrom(scale, poolSize, start, 0, 0, end)
  }

  // ---------------------------------------------------------------- the streams

  datatype Streams = Streams(availableQuantity: Stream, supplyCost: Stream, comment: Stream) {
    function Advanced(rows: nat): Streams {
      Streams(availableQuantity.Advanced(rows), supplyCost.Advanced(rows), comment.Advanced(rows))
    }

    function Finished(): Streams {
      Streams(availableQuantity.Finished(), supplyCost.Finished(), comment.Finished())
    }
  }

  function FreshStreams(): Streams {
    Streams(Fresh(AVAILABLE_QUANTITY), Fresh(SUPPLY_COST), Fresh(COMMENT))
  }

  /** The streams after d rows of part p. */
  function StreamsAt(poolSize: nat, p: nat, d: nat): Streams {
    Streams(At(AVAILABLE_QUANTITY, p, d), At(SUPPLY_COST, p, d), At(COMMENT, p, TextDraws(poolSize, COMMENT_MAX, d)))
  }

  lemma AdvancedStreams(poolSize: nat, rows: nat)
    ensures FreshStreams().Advanced(rows) == StreamsAt(poolSize, rows, 0)
    ensures FreshStreams() == StreamsAt(poolSize, 0, 0)
  {
    hide At, Fresh, Stream.Advanced;
    AdvancedRows();
  }

  lemma FinishedStreams(poolSize: nat, p: nat, d: nat)
    requires d <= SUPPLIERS_PER_PART
    ensures StreamsAt(poolSize, p, d).Finished() == StreamsAt(poolSize, p + 1, 0)
  {
    hide At, Stream.Finished;
    FinishedRows();
  }

  lemma RowDraws(scale: Scale, poolSize: nat, p: nat, number: nat, d: nat)
    requires scale.Supported()
    ensures var s := StreamsAt(poolSize, p, d);
            var text := NextText(s.comment, poolSize, COMMENT_MIN, COMMENT_MAX);
            && StreamsAt(poolSize, p, d + 1) == Streams(s.availableQuantity.Next(), s.supplyCost.Next(), text.1)
            && RowAt(scale, poolSize, p, number, d) ==
               PartSupplier(
                 ToInt32(p + 1), ToInt32(SupplierOf(ToInt32(p + 1), number, scale.suppliers)),
                 s.availableQuantity.Next().Int(1, 9999), s.supplyCost.Next().Int(100, 100000), text.0)
  {
    hide At, Stream.Next, ValueOf, ToInt32, SupplierOf, NextText, TextAt;
    DrawsStayInRow();
    NextTextAt(COMMENT, p, d, poolSize, COMMENT_MIN, COMMENT_MAX);
  }

  // ---------------------------------------------------------------- the iterator

  /** The id of a row says which part it belongs to and which of its suppliers it is. */
  predicate HasId(suppliers: nat, row: PartSupplier, id: nat)
    requires suppliers >= 1
  {
    && row.partKey == ToInt32(id / SUPPLIERS_PER_PART + 1)
    && row.suppKey == ToInt32(SupplierOf(row.partKey, id % SUPPLIERS_PER_PART, suppliers))
  }

  class PartSuppRowIterator {
    var nextPart: nat
    var endPart: nat
    var partSupplierNumber: nat
    var scale: Scale
    var poolSize: nat
    var streams: Streams

    /** The draws this part has made. */
    function Drawn(): int
      reads this
    {
      streams.availableQuantity.usage
    }

    /** The streams are never ahead of the supplier number; they are behind it after Reset cut a part short. */
    ghost predicate Valid()
      reads this
    {
      && scale.Supported() && nextPart <= endPart
      && 0 <= Drawn() <= partSupplierNumber < SUPPLIERS_PER_PART
      && streams == StreamsAt(poolSize, nextPart, Drawn())
    }

    ghost function Remaining(): seq<PartSupplier>
      requires Valid()
      reads this
    {
      RowsFrom(scale, poolSize, nextPart, partSupplierNumber, Drawn(), endPart)
    }

    constructor ()
      ensures Valid() && Remaining() == [] && partSupplierNumber == 0 && fresh(this)
    {
      scale, poolSize := Scale(0, 1, 1, 1), 0;
      nextPart, endPart, partSupplierNumber := 0, 0, 0;
      streams := FreshStreams();
      new;
      AdvancedStreams(0, 0);
    }

    /** The supplier number is left as it was. */
    method Reset(start: nat, end: nat, scale: Scale, poolSize: nat)
      requires scale.Supported() && partSupplierNumber < SUPPLIERS_PER_PART
      modifies this
      ensures Valid() && this.scale == scale && this.poolSize == poolSize
      ensures partSupplierNumber == old(partSupplierNumber)
      ensures Remaining() == RowsFrom(scale, poolSize, start, old(partSupplierNumber), 0, end)
    {
      hide Streams.Advanced, FreshStreams, RowAt, RowSeed, SeedAfter;
      nextPart := if start > end then end else start;
      endPart := end;
      this.scale, this.poolSize := scale, poolSize;
      streams := FreshStreams();
      AdvancedStreams(poolSize, nextPart);
      if nextPart > 0 {
        streams := streams.Advanced(nextPart);
      }
    }

    method Next() returns (row: Option<PartSupplier>)
      requires Valid()
      modifies this
      ensures Valid() && unchanged(`scale, `poolSize, `endPart)
      ensures row.Some? <==> old(nextPart < endPart)
      ensures row.Some? ==> old(Remaining()) == [row.value] + Remaining()
      ensures row.None? ==> Remaining() == old(Remaining()) == [] && NextRowId() == old(NextRowId())
      ensures row.Some? ==> NextRowId() == old(NextRowId()) + 1 && HasId(scale.suppliers, row.value, old(NextRowId()))
    {
      hide Streams.Finished, SupplierOf, NextText, Stream.Int, RowSeed, SeedAfter, NextSeed, RowAt, TextDraws;
      if nextPart >= endPart {
        return None;
      }
      ghost var p, number, d := nextPart, partSupplierNumber, Drawn();
      RowDraws(scale, poolSize, p, number, d);
      var partKey := ToInt32(nextPart + 1);
      var supplierKey := SupplierOf(partKey, partSupplierNumber, scale.suppliers);
      streams := streams.(availableQuantity := streams.availableQuantity.Next());
      var availQty := streams.availableQuantity.Int(1, 9999);
      streams := streams.(supplyCost := streams.supplyCost.Next());
      var supplyCost := streams.supplyCost.Int(100, 100000);
      var text := NextText(streams.comment, poolSize, COMMENT_MIN, COMMENT_MAX);
      streams := streams.(comment := text.1);
      row := Some(PartSupplier(partKey, ToInt32(supplierKey), availQty, supplyCost, text.0));

      partSupplierNumber := partSupplierNumber + 1;
      if partSupplierNumber >= SUPPLIERS_PER_PART {
        FinishedStreams(poolSize, p, d + 1);
        streams := streams.Finished();
        partSupplierNumber := 0;
        nextPart := nextPart + 1;
      }
    }

    predicate Done()
      reads this
    {
      nextPart >= endPart
    }

    function NextRowId(): nat
      reads this
    {
      nextPart * SUPPLIERS_PER_PART + partSupplierNumber
    }

    lemma RemainingIsEmpty()
      requires Valid()
      ensures Remaining() == [] <==> Done()
    {
    }
  }

  class PartSuppGenerator {
    const rowIter: PartSuppRowIterator

    constructor ()
      ensures rowIter.Valid() && rowIter.Remaining() == [] && rowIter.partSupplierNumber == 0 && fresh(rowIter)
    {
      rowIter := new PartSuppRowIterator();
    }

    /** The partition splits the parts; a bad part number throws. */
    method Reset(totalParts: nat, partNum: int, partCount: int, scale: Scale, poolSize: nat)
      returns (error: Option<Error>)
      requires scale.Supported() && rowIter.Valid()
      modifies rowIter
      ensures error == ValidatePart(partNum, partCount) && rowIter.Valid()
      ensures error.None? ==>
                var range := RangeOf(totalParts, partNum, partCount);
                rowIter.Remaining() ==
                RowsFrom(scale, poolSize, range.start, old(rowIter.partSupplierNumber), 0, range.end)
    {
      var range := MakePartitionRange(totalParts, partNum, partCount);
      if range.Invalid? {
        return Some(range.error);
      }
      rowIter.Reset(range.value.start, range.value.end, scale, poolSize);
      error := None;
    }

    method NextBatch(maxRows: nat) returns (batch: Option<Batch<PartSupplier>>)
      requires rowIter.Valid()
      modifies rowIter
      ensures rowIter.Valid()
      ensures batch.None? <==> maxRows == 0 || old(rowIter.Remaining()) == []
      ensures batch.None? ==> rowIter.Remaining() == old(rowIter.Remaining())
      ensures batch.Some? ==>
                && batch.value.firstRowId == old(rowIter.NextRowId())
                && old(rowIter.Remaining()) == batch.value.rows + rowIter.Remaining()
                && |batch.value.rows| <= maxRows
                && (|batch.value.rows| < maxRows ==> rowIter.Remaining() == [])
                && batch.value.rows != [] && batch.value.firstRowId + |batch.value.rows| == rowIter.NextRowId()
                && forall k | 0 <= k < |batch.value.rows| ::
                     HasId(rowIter.scale.suppliers, batch.value.rows[k], batch.value.firstRowId + k)
    {
      hide RowsFrom, PartSuppRowIterator.Remaining;
      rowIter.RemainingIsEmpty();
      if maxRows == 0 || rowIter.Done() {
        return None;
      }
      ghost var all := rowIter.Remaining();
      var batchStart := rowIter.NextRowId();
      var rows: seq<PartSupplier> := [];
      var exhausted := false;
      while |rows| < maxRows && !exhausted
        invariant rowIter.Valid() && |rows| <= maxRows
        invariant rows + rowIter.Remaining() == all
        invariant exhausted ==> rowIter.Remaining() == []
        invariant batchStart + |rows| == rowIter.NextRowId() && rowIter.scale == old(rowIter.scale)
        invariant forall k | 0 <= k < |rows| :: HasId(rowIter.scale.suppliers, rows[k], batchStart + k)
        decreases maxRows - |rows|, !exhausted
      {
        ghost var before := rowIter.Remaining();
        var row := rowIter.Next();
        if row.Some? {
          assert rows + before == (rows + [row.value]) + rowIter.Remaining();
          rows := rows + [row.value];
        } else {
          exhausted := true;
        }
      }
      batch := Some(Batch(batchStart, rows));
    }

    /** The writer's loop over NextBatch yields the remaining rows cut every maxRows rows. */
    method Generate(maxRows: nat) returns (batches: seq<seq<PartSupplier>>)
      requires rowIter.Valid() && maxRows > 0
      modifies rowIter
      ensures batches == Chunks(old(rowIter.Remaining()), maxRows)
    {
      hide PartSuppRowIterator.Remaining, Chunks, HasId, PartSuppRowIterator.NextRowId;
      NoChunks<PartSupplier>(maxRows);
      batches := [];
      var batch := NextBatch(maxRows);
      while batch.Some?
        invariant rowIter.Valid()
        invariant batch.None? ==> rowIter.Remaining() == []
        invariant batch.Some? ==> 0 < |batch.value.rows| <= maxRows
        invariant batch.Some? && |batch.value.rows| < maxRows ==> rowIter.Remaining() == []
        invariant var rest := (if batch.Some? then batch.value.rows else []) + rowIter.Remaining();
                  batches + Chunks(rest, maxRows) == Chunks(old(rowIter.Remaining()), maxRows)
        decreases |(if batch.Some? then batch.value.rows else []) + rowIter.Remaining()|, batch
      {
        ChunkStep(batch.value.rows, rowIter.Remaining(), maxRows);
        batches := batches + [batch.value.rows];
        batch := NextBatch(maxRows);
      }
    }
  }

  // ---------------------------------------------------------------- resetting

  lemma {:induction false} RowCountFrom(scale: Scale, poolSize: nat, p: nat, number: nat, d: nat, end: nat)
    requires scale.Supported() && number < SUPPLIERS_PER_PART
    ensures |RowsFrom(scale, poolSize, p, number, d, end)| ==
            if p >= end then 0 else SUPPLIERS_PER_PART * (end - p) - number
    decreases end - p, SUPPLIERS_PER_PART - number
  {
    hide RowAt;
    if p < end {
      if number + 1 < SUPPLIERS_PER_PART {
        RowCountFrom(scale, poolSize, p, number + 1, d + 1, end);
      } else {
        RowCountFrom(scale, poolSize, p + 1, 0, 0, end);
      }
    }
  }

  /** Reset yields the range's rows exactly when the iterator stood between parts, or the range is empty. */
  lemma ResetIsFreshExactlyWhen(scale: Scale, poolSize: nat, start: nat, number: nat, end: nat)
    requires scale.Supported() && number < SUPPLIERS_PER_PART
    ensures RowsFrom(scale, poolSize, start, number, 0, end) == PartSuppRows(scale, poolSize, start, end) <==>
            number == 0 || start >= end
  {
    RowCountFrom(scale, poolSize, start, number, 0, end);
    RowCountFrom(scale, poolSize, start, 0, 0, end);
  }

  // ---------------------------------------------------------------- partitions

  lemma {:induction false} RowsSplit(scale: Scale, poolSize: nat, p: nat, number: nat, d: nat, middle: nat, end: nat)
    requires scale.Supported() && p <= middle <= end && (p < middle || (number == 0 && d == 0))
    ensures RowsFrom(scale, poolSize, p, number, d, middle) + RowsFrom(scale, poolSize, middle, 0, 0, end) ==
            RowsFrom(scale, poolSize, p, number, d, end)
    decreases middle - p, SUPPLIERS_PER_PART - number
  {
    hide RowAt;
    if p < middle {
      var row, tail := [RowAt(scale, poolSize, p, number, d)], RowsFrom(scale, poolSize, middle, 0, 0, end);
      if number + 1 < SUPPLIERS_PER_PART {
        RowsSplit(scale, poolSize, p, number + 1, d + 1, middle, end);
        var rest := RowsFrom(scale, poolSize, p, number + 1, d + 1, middle);
        assert (row + rest) + tail == row + (rest + tail);
      } else {
        RowsSplit(scale, poolSize, p + 1, 0, 0, middle, end);
        var rest := RowsFrom(scale, poolSize, p + 1, 0, 0, middle);
        assert (row + rest) + tail == row + (rest + tail);
      }
    }
  }

  /** The rows of all partitions, one after the other, are the rows of the whole table. */
  lemma PartitionsMakePartSupp(scale: Scale, poolSize: nat, totalParts: nat, partCount: int)
    requires scale.Supported() && 1 <= partCount
    ensures Partitioned((a, b) => PartSuppRows(scale, poolSize, a, b), totalParts, partCount, partCount) ==
            PartSuppRows(scale, poolSize, 0, totalParts)
  {
    hide RowsFrom;
    var rows := (a: nat, b: nat) => PartSuppRows(scale, poolSize, a, b);
    forall a: nat, b: nat, c: nat | a <= b <= c
      ensures rows(a, b) + rows(b, c) == rows(a, c)
    {
      RowsSplit(scale, poolSize, a, 0, 0, b, c);
    }
    PartitionsMakeTheTable(rows, totalParts, partCount);
  }

  /** Row 4p + n of the table is supplier n of part p. */
  lemma {:induction false} RowPlace(scale: Scale, poolSize: nat, start: nat, p: nat, n: nat, end: nat)
    requires scale.Supported() && start <= p < end && n < SUPPLIERS_PER_PART
    ensures var rows, at := PartSuppRows(scale, poolSize, start, end), SUPPLIERS_PER_PART * (p - start) + n;
            at < |rows| && rows[at] == RowAt(scale, poolSize, p, n, n)
    decreases p - start
  {
    hide RowAt;
    RowCountFrom(scale, poolSize, start, 0, 0, end);
    var rest := RowsFrom(scale, poolSize, start + 1, 0, 0, end);
    assert PartSuppRows(scale, poolSize, start, end) ==
           [RowAt(scale, poolSize, start, 0, 0), RowAt(scale, poolSize, start, 1, 1),
            RowAt(scale, poolSize, start, 2, 2), RowAt(scale, poolSize, start, 3, 3)] + rest by {
      FourRows(scale, poolSize, start, end);
    }
    if start < p {
      RowPlace(scale, poolSize, start + 1, p, n, end);
    }
  }

  lemma FourRows(scale: Scale, poolSize: nat, p: nat, end: nat)
    requires scale.Supported() && p < end
    ensures PartSuppRows(scale, poolSize, p, end) ==
            [RowAt(scale, poolSize, p, 0, 0), RowAt(scale, poolSize, p, 1, 1),
             RowAt(scale, poolSize, p, 2, 2), RowAt(scale, poolSize, p, 3, 3)]
            + RowsFrom(scale, poolSize, p + 1, 0, 0, end)
  {
    hide RowAt;
    var third := RowsFrom(scale, poolSize, p, 2, 2, end);
    assert third == [RowAt(scale, poolSize, p, 2, 2)] + RowsFrom(scale, poolSize, p, 3, 3, end);
    var second := RowsFrom(scale, poolSize, p, 1, 1, end);
    assert second == [RowAt(scale, poolSize, p, 1, 1)] + third;
    assert PartSuppRows(scale, poolSize, p, end) == [RowAt(scale, poolSize, p, 0, 0)] + second;
  }
}
