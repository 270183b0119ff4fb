/**
 The supplier table.  How many draws a row makes depends on what it drew: one comment in a thousand is rewritten,
 which takes three draws more, and an address draws on a copy of its stream.
 */
module Supplier {
  import opened Wrappers
  import opened CInt
  import opened Lehmer
  import opened Scaling
  import opened Batches
  import opened Partition

  const COMMENT_MIN: nat := 25
  const COMMENT_MAX: nat := 100
  const BBB_BASE: string := "Customer "
  const BBB_COMPLAINT: string := "Complaints"
  const BBB_RECOMMEND: string := "Recommends"
  const BBB_LENGTH: nat := 19
  const ALPHABET: string := "0123456789abcdefghijklmnopqrstuvwxyz ABCDEFGHIJKLMNOPQRSTUVWXYZ,"

  const ADDRESS: Column := Column(706178559, 9)
  const NATION_KEY: Column := Column(110356601, 1)
  const PHONE: Column := Column(884434366, 3)
  const ACCOUNT_BALANCE: Column := Column(962338209, 1)
  const COMMENT: Column := Column(1341315363, 2)
  const BBB_COMMENT: Column := Column(202794285, 1)
  const BBB_JUNK: Column := Column(263032577, 1)
  const BBB_OFFSET: Column := Column(715851524, 1)
  const BBB_TYPE: Column := Column(753643799, 1)

  datatype PhoneNumber = PhoneNumber(countryCode: int, local1: int, local2: int, local3: int)

  /** The name is "Supplier#" and the key in nine digits. */
  datatype SupplierRow = SupplierRow(
    suppKey: Int32, address: string, nationKey: int, phone: PhoneNumber, accountBalance: int, comment: string)

  // ---------------------------------------------------------------- addresses

  /** The bits that character i takes its six from: a fresh draw for every fifth character. */
  function CharBits(snapshot: Stream, i: nat): int {
    if i % 5 == 0 then Draws(snapshot, i / 5 + 1).Int(0, 0x7fff_ffff) else CharBits(snapshot, i - 1) / 64
  }

  function AddressChar(snapshot: Stream, i: nat): char {
    ALPHABET[CharBits(snapshot, i) % 64]
  }

  function AddressText(length: int, snapshot: Stream): (text: string)
    ensures |text| == if length < 0 then 0 else length
  {
    if length <= 0 then ""
    else seq(length, i requires 0 <= i < length => AddressChar(snapshot, i))
  }

  /** ToString: six bits a character, five characters a draw, on a copy of the stream. */
  method AddressToString(length: nat, snapshot: Stream) returns (text: string)
    ensures text == AddressText(length, snapshot)
  {
    hide Stream.Next, Stream.Int;
    text := "";
    var generator := snapshot;
    var charIndex := 0;
    ghost var draws: nat := 0;
    var i := 0;
    while i < length
      invariant 0 <= i <= length && |text| == i
      invariant generator == Draws(snapshot, draws) && 5 * draws - 5 < i <= 5 * draws
      invariant i < 5 * draws ==> charIndex == CharBits(snapshot, i - 1) / 64
      invariant forall k | 0 <= k < i :: text[k] == AddressChar(snapshot, k)
    {
      if i % 5 == 0 {
        generator := generator.Next();
        charIndex := generator.Int(0, 0x7fff_ffff);
        draws := draws + 1;
      }
      text := text + [ALPHABET[charIndex % 64]];
      charIndex := charIndex / 64;
      i := i + 1;
    }
  }

  /** The copy's draws are the ones row r skips afterwards: no address shares a draw with another row. */
  lemma AddressStaysInBudget(r: nat, i: nat)
    requires i < Sample(ADDRESS, r, 0, 10, 40)
    ensures Draws(At(ADDRESS, r, 1), i / 5 + 1) == At(ADDRESS, r, i / 5 + 2) && i / 5 + 2 <= ADDRESS.perRow
  {
    SampleInRange(ADDRESS, r, 0, 10, 40);
    DrawsFrom(ADDRESS, r, 1, i / 5 + 1);
  }

  lemma {:induction false} DrawsFrom(c: Column, r: nat, used: nat, n: nat)
    ensures Draws(At(c, r, used), n) == At(c, r, used + n)
  {
    if n > 0 {
      DrawsFrom(c, r, used, n - 1);
    }
  }

  // ---------------------------------------------------------------- Better Business Bureau comments

  /** "Customer ", the old text for `noise` characters, and the word, written over the comment at `offset`. */
  function Rewritten(comment: string, noise: nat, offset: nat, word: string): (r: string)
    requires |word| == 10 && offset + noise + BBB_LENGTH <= |comment|
    ensures |r| == |comment|
  {
    comment[..offset] + BBB_BASE + comment[offset + 9..offset + 9 + noise] + word
    + comment[offset + 9 + noise + 10..]
  }

  /** Both words stand where they were put, and every other character is the old one. */
  lemma RewrittenPlaces(comment: string, noise: nat, offset: nat, word: string, k: nat)
    requires |word| == 10 && offset + noise + BBB_LENGTH <= |comment| && k < |comment|
    ensures var at := offset + 9 + noise;
            Rewritten(comment, noise, offset, word)[k] ==
            if offset <= k < offset + 9 then BBB_BASE[k - offset]
            else if at <= k < at + 10 then word[k - at]
            else comment[k]
  {
  }

  function BbbWord(type_: int): (word: string)
    ensures |word| == 10
  {
    if type_ < 50 then BBB_COMPLAINT else BBB_RECOMMEND
  }

  // ---------------------------------------------------------------- the rows

  function Comment(pool: string, r: nat): (comment: string)
    requires |pool| < TWO31
    ensures |comment| <= COMMENT_MAX
  {
    var text := TextAt(COMMENT, r, 0, |pool|, COMMENT_MIN, COMMENT_MAX);
    TextInPool(COMMENT, r, 0, |pool|, COMMENT_MIN, COMMENT_MAX);
    pool[text.begin..text.begin + text.count]
  }

  predicate HasBbb(pool: string, r: nat)
    requires |pool| < TWO31
  {
    Sample(BBB_COMMENT, r, 0, 1, 10000) <= 10 && |Comment(pool, r)| >= BBB_LENGTH
  }

  function Noise(pool: string, r: nat): (noise: nat)
    requires |pool| < TWO31 && HasBbb(pool, r)
    ensures noise <= |Comment(pool, r)| - BBB_LENGTH
  {
    hide Comment, Sample;
    SampleInRange(BBB_JUNK, r, 0, 0, |Comment(pool, r)| - BBB_LENGTH);
    Sample(BBB_JUNK, r, 0, 0, |Comment(pool, r)| - BBB_LENGTH)
  }

  function Offset(pool: string, r: nat): (offset: nat)
    requires |pool| < TWO31 && HasBbb(pool, r)
    ensures offset + Noise(pool, r) + BBB_LENGTH <= |Comment(pool, r)|
  {
    hide Comment, Sample, Noise;
    SampleInRange(BBB_OFFSET, r, 0, 0, |Comment(pool, r)| - (BBB_LENGTH + Noise(pool, r)));
    Sample(BBB_OFFSET, r, 0, 0, |Comment(pool, r)| - (BBB_LENGTH + Noise(pool, r)))
  }

  function FinalComment(pool: string, r: nat): (comment: string)
    requires |pool| < TWO31
    ensures |comment| == |Comment(pool, r)|
  {
    if HasBbb(pool, r) then
      Rewritten(Comment(pool, r), Noise(pool, r), Offset(pool, r), BbbWord(Sample(BBB_TYPE, r, 0, 0, 100)))
    else Comment(pool, r)
  }

  function NationKey(r: nat): int { Sample(NATION_KEY, r, 0, 0, 24) }

  function PhoneAt(r: nat): PhoneNumber {
    PhoneNumber(10 + NationKey(r) % 90, Sample(PHONE, r, 0, 100, 999), Sample(PHONE, r, 1, 100, 999),
                Sample(PHONE, r, 2, 1000, 9999))
  }

  function SupplierAt(pool: string, r: nat): SupplierRow
    requires |pool| < TWO31
  {
    SupplierRow(
      ToInt32(r + 1),
      AddressText(Sample(ADDRESS, r, 0, 10, 40), At(ADDRESS, r, 1)),
      NationKey(r),
      PhoneAt(r),
      Sample(ACCOUNT_BALANCE, r, 0, -99999, 999999),
      FinalComment(pool, r))
  }

  function SupplierRows(pool: string, start: nat, end: nat): seq<SupplierRow>
    requires |pool| < TWO31
    decreases end - start
  {
    if start >= end then [] else [SupplierAt(pool, start)] + SupplierRows(pool, start + 1, end)
  }

  // ---------------------------------------------------------------- the streams

  datatype Streams = Streams(
    address: Stream, nationKey: Stream, phone: Stream, accountBalance: Stream, comment: Stream,
    bbbComment: Stream, bbbJunk: Stream, bbbOffset: Stream, bbbType: Stream)
  {
    function Advanced(rows: nat): Streams {
      Streams(
        address.Advanced(rows), nationKey.Advanced(rows), phone.Advanced(rows), accountBalance.Advanced(rows),
        comment.Advanced(rows), bbbComment.Advanced(rows), bbbJunk.Advanced(rows), bbbOffset.Advanced(rows),
        bbbType.Advanced(rows))
    }

    function Finished(): Streams {
      Streams(
        address.Finished(), nationKey.Finished(), phone.Finished(), accountBalance.Finished(),
        comment.Finished(), bbbComment.Finished(), bbbJunk.Finished(), bbbOffset.Finished(), bbbType.Finished())
    }
  }

  function FreshStreams(): Streams {
    Streams(
      Fresh(ADDRESS), Fresh(NATION_KEY), Fresh(PHONE), Fresh(ACCOUNT_BALANCE), Fresh(COMMENT),
      Fresh(BBB_COMMENT), Fresh(BBB_JUNK), Fresh(BBB_OFFSET), Fresh(BBB_TYPE))
  }

  /** All streams at the start of row r. */
  function RowStart(r: nat): Streams {
    Streams(
      At(ADDRESS, r, 0), At(NATION_KEY, r, 0), At(PHONE, r, 0), At(ACCOUNT_BALANCE, r, 0), At(COMMENT, r, 0),
      At(BBB_COMMENT, r, 0), At(BBB_JUNK, r, 0), At(BBB_OFFSET, r, 0), At(BBB_TYPE, r, 0))
  }

  /** After row r, whose comment took c draws and whose rewriting took b of each of its three streams. */
  function RowDrawn(r: nat, c: nat, b: nat): Streams {
    Streams(
      At(ADDRESS, r, 1), At(NATION_KEY, r, 1), At(PHONE, r, 3), At(ACCOUNT_BALANCE, r, 1), At(COMMENT, r, c),
      At(BBB_COMMENT, r, 1), At(BBB_JUNK, r, b), At(BBB_OFFSET, r, b), At(BBB_TYPE, r, b))
  }

  lemma AdvancedStreams(rows: nat)
    ensures FreshStreams().Advanced(rows) == RowStart(rows)
    ensures FreshStreams() == RowStart(0)
  {
    hide At, Fresh, Stream.Advanced;
    AdvancedRows();
  }

  /** Whatever a row drew, the next row starts in place. */
  lemma FinishedStreams(r: nat, c: nat, b: nat)
    requires c <= 2 && b <= 1
    ensures RowDrawn(r, c, b).Finished() == RowStart(r + 1)
  {
    hide At, Stream.Finished;
    FinishedRows();
  }

  lemma PlainDraws(poolSize: nat, r: nat)
    ensures var s := RowStart(r);
            && s.address.Next() == At(ADDRESS, r, 1)
            && s.address.Next().Int(10, 40) == Sample(ADDRESS, r, 0, 10, 40)
            && s.nationKey.Next().Int(0, 24) == NationKey(r)
            && PhoneNumber(10 + NationKey(r) % 90, s.phone.Next().Int(100, 999), s.phone.Next().Next().Int(100, 999),
                           s.phone.Next().Next().Next().Int(1000, 9999)) == PhoneAt(r)
            && s.accountBalance.Next().Int(-99999, 999999) == Sample(ACCOUNT_BALANCE, r, 0, -99999, 999999)
            && s.bbbComment.Next().Int(1, 10000) == Sample(BBB_COMMENT, r, 0, 1, 10000)
            && NextText(s.comment, poolSize, COMMENT_MIN, COMMENT_MAX) ==
               (TextAt(COMMENT, r, 0, poolSize, COMMENT_MIN, COMMENT_MAX),
                At(COMMENT, r, TextDraws(poolSize, COMMENT_MAX, 1)))
  {
    hide At, Stream.Next, ValueOf, NextText, TextAt;
    DrawsStayInRow();
    NextTextAt(COMMENT, r, 0, poolSize, COMMENT_MIN, COMMENT_MAX);
  }

  lemma PlainSteps(poolSize: nat, r: nat)
    ensures var s := RowStart(r);
            RowDrawn(r, TextDraws(poolSize, COMMENT_MAX, 1), 0) ==
            s.(address := s.address.Next(), nationKey := s.nationKey.Next(),
               phone := s.phone.Next().Next().Next(), accountBalance := s.accountBalance.Next(),
               comment := NextText(s.comment, poolSize, COMMENT_MIN, COMMENT_MAX).1,
               bbbComment := s.bbbComment.Next())
  {
    hide At, Stream.Next, NextText;
    DrawsStayInRow();
    NextTextAt(COMMENT, r, 0, poolSize, COMMENT_MIN, COMMENT_MAX);
  }

  // ---------------------------------------------------------------- the iterator

  /** The id of a row is its index, and its key counts from 1. */
  predicate HasId(row: SupplierRow, id: nat) {
    row.suppKey == ToInt32(id + 1)
  }

  lemma IdOfSupplier(pool: string, r: nat)
    requires |pool| < TWO31
    ensures HasId(SupplierAt(pool, r), r)
  {
    hide Sample, At, AddressText, FinalComment, PhoneAt, NationKey, ToInt32;
  }

  class SupplierRowIterator {
    var nextRow: nat
    var endRow: nat
    var pool: string
    var streams: Streams

    ghost predicate Valid()
      reads this
    {
      |pool| < TWO31 && nextRow <= endRow && streams == RowStart(nextRow)
    }

    ghost function Remaining(): seq<SupplierRow>
      requires Valid()
      reads this
    {
      SupplierRows(pool, nextRow, endRow)
    }

    constructor ()
      ensures Valid() && Remaining() == [] && fresh(this)
    {
      nextRow, endRow, pool := 0, 0, "";
      streams := FreshStreams();
      new;
      AdvancedStreams(0);
    }

    method Reset(start: nat, end: nat, pool: string)
      requires |pool| < TWO31
      modifies this
      ensures Valid() && this.pool == pool && Remaining() == SupplierRows(pool, start, end)
    {
      hide At, Streams.Advanced, FreshStreams, RowStart, SupplierAt;
      nextRow := if start > end then end else start;
      endRow := end;
      this.pool := pool;
      streams := FreshStreams();
      AdvancedStreams(nextRow);
      if nextRow > 0 {
        streams := streams.Advanced(nextRow);
      }
    }

    /** Rewrites the comment, drawing noise length, offset and word; a comment too short is left alone. */
    method ApplyBBBComment(comment: string) returns (modified: string)
      requires |comment| <= COMMENT_MAX && |pool| < TWO31
      requires comment == Comment(pool, nextRow) && Sample(BBB_COMMENT, nextRow, 0, 1, 10000) <= 10
      requires streams == RowDrawn(nextRow, TextDraws(|pool|, COMMENT_MAX, 1), 0)
      modifies `streams
      ensures modified == FinalComment(pool, nextRow)
      ensures streams == RowDrawn(nextRow, TextDraws(|pool|, COMMENT_MAX, 1), if HasBbb(pool, nextRow) then 1 else 0)
    {
      hide At, Comment, Stream.Next, ValueOf, Rewritten;
      if |comment| < BBB_LENGTH {
        return comment;
      }
      ghost var r := nextRow;
      DrawsStayInRow();
      var maxNoise := |comment| - BBB_LENGTH;
      streams := streams.(bbbJunk := streams.bbbJunk.Next());
      var noise := streams.bbbJunk.Int(0, maxNoise);
      assert noise == Noise(pool, r);
      var maxOffset := |comment| - (BBB_LENGTH + noise);
      streams := streams.(bbbOffset := streams.bbbOffset.Next());
      var offset := streams.bbbOffset.Int(0, maxOffset);
      assert offset == Offset(pool, r);
      streams := streams.(bbbType := streams.bbbType.Next());
      var word := BbbWord(streams.bbbType.Int(0, 100));
      modified := Rewritten(comment, noise, offset, word);
    }

    method DrawSupplier() returns (row: SupplierRow)
      requires Valid() && nextRow < endRow
      modifies `streams
      ensures row == SupplierAt(pool, nextRow)
      ensures exists b: nat | b <= 1 :: streams == RowDrawn(nextRow, TextDraws(|pool|, COMMENT_MAX, 1), b)
    {
      hide At, Stream.Next, ValueOf, NextText, TextAt, AddressText, PhoneAt, FinalComment, ToInt32, RowDrawn;
      ghost var r := nextRow;
      PlainDraws(|pool|, r);
      PlainSteps(|pool|, r);
      var supplierKey := ToInt32(nextRow + 1);
      streams := streams.(address := streams.address.Next());
      var length := streams.address.Int(10, 40);
      SampleInRange(ADDRESS, r, 0, 10, 40);
      var address := AddressToString(length, streams.address);
      streams := streams.(nationKey := streams.nationKey.Next());
      var nationKey := streams.nationKey.Int(0, 24);
      streams := streams.(phone := streams.phone.Next());
      var local1 := streams.phone.Int(100, 999);
      streams := streams.(phone := streams.phone.Next());
      var local2 := streams.phone.Int(100, 999);
      streams := streams.(phone := streams.phone.Next());
      var local3 := streams.phone.Int(1000, 9999);
      streams := streams.(accountBalance := streams.accountBalance.Next());
      var accountBalance := streams.accountBalance.Int(-99999, 999999);
      var text := NextText(streams.comment, |pool|, COMMENT_MIN, COMMENT_MAX);
      streams := streams.(comment := text.1);
      TextInPool(COMMENT, r, 0, |pool|, COMMENT_MIN, COMMENT_MAX);
      var comment := pool[text.0.begin..text.0.begin + text.0.count];
      streams := streams.(bbbComment := streams.bbbComment.Next());
      var bbbValue := streams.bbbComment.Int(1, 10000);
      if bbbValue <= 10 {
        comment := ApplyBBBComment(comment);
      } else {
        PlainComment(pool, r);
      }
      row := SupplierRow(
        supplierKey, address, nationKey, PhoneNumber(10 + nationKey % 90, local1, local2, local3), accountBalance,
        comment);
    }

    method Next() returns (row: Option<SupplierRow>)
      requires Valid()
      modifies this
      ensures Valid() && unchanged(`pool, `endRow)
      ensures row.Some? <==> old(nextRow < endRow)
      ensures row.Some? ==> old(Remaining()) == [row.value] + Remaining()
      ensures row.None? ==> Remaining() == old(Remaining()) == [] && NextRowId() == old(NextRowId())
      ensures row.Some? ==> NextRowId() == old(NextRowId()) + 1 && HasId(row.value, old(NextRowId()))
    {
      hide SupplierAt, RowStart, RowDrawn, Streams.Finished;
      if nextRow >= endRow {
        return None;
      }
      IdOfSupplier(pool, nextRow);
      var supplier := DrawSupplier();
      ghost var b: nat :| b <= 1 && streams == RowDrawn(nextRow, TextDraws(|pool|, COMMENT_MAX, 1), b);
      FinishedStreams(nextRow, TextDraws(|pool|, COMMENT_MAX, 1), b);
      streams := streams.Finished();
      nextRow := nextRow + 1;
      row := Some(supplier);
    }

    predicate Done()
      reads this
    {
      nextRow >= endRow
    }

    function NextRowId(): nat
      reads this
    {
      nextRow
    }

    lemma RemainingIsEmpty()
      requires Valid()
      ensures Remaining() == [] <==> Done()
    {
    }
  }

  lemma PlainComment(pool: string, r: nat)
    requires |pool| < TWO31 && Sample(BBB_COMMENT, r, 0, 1, 10000) > 10
    ensures FinalComment(pool, r) == Comment(pool, r)
  {
  }

  class SupplierGenerator {
    const rowIter: SupplierRowIterator

    constructor ()
      ensures rowIter.Valid() && rowIter.Remaining() == [] && fresh(rowIter)
    {
      rowIter := new SupplierRowIterator();
    }

    method Reset(range: Range, pool: string)
      requires |pool| < TWO31
      modifies rowIter
      ensures rowIter.Valid() && rowIter.Remaining() == SupplierRows(pool, range.start, range.end)
    {
      rowIter.Reset(range.start, range.end, pool);
    }

    method NextBatch(maxRows: nat) returns (batch: Option<Batch<SupplierRow>>)
      requires rowIter.Valid()
      modifies rowIter
      ensures rowIter.Valid()
      ensures batch.None? <==> maxRows == 0 || old(rowIter.Remaining()) == []
      ensures batch.None? ==> rowIter.Remaining() == old(rowIter.Remaining())
      ensures batch.Some? ==>
                && batch.value.firstRowId == old(rowIter.NextRowId())
                && old(rowIter.Remaining()) == batch.value.rows + rowIter.Remaining()
                && |batch.value.rows| <= maxRows
                && (|batch.value.rows| < maxRows ==> rowIter.Remaining() == [])
                && batch.value.rows != [] && batch.value.firstRowId + |batch.value.rows| == rowIter.NextRowId()
                && forall k | 0 <= k < |batch.value.rows| ::
                     HasId(batch.value.rows[k], batch.value.firstRowId + k)
    {
      hide SupplierRows, SupplierRowIterator.Remaining;
      rowIter.RemainingIsEmpty();
      if maxRows == 0 || rowIter.Done() {
        return None;
      }
      ghost var all := rowIter.Remaining();
      var batchStart := rowIter.NextRowId();
      var rows: seq<SupplierRow> := [];
      var exhausted := false;
      while |rows| < maxRows && !exhausted
        invariant rowIter.Valid() && |rows| <= maxRows
        invariant rows + rowIter.Remaining() == all
        invariant exhausted ==> rowIter.Remaining() == []
        invariant batchStart + |rows| == rowIter.NextRowId()
        invariant forall k | 0 <= k < |rows| :: HasId(rows[k], batchStart + k)
        decreases maxRows - |rows|, !exhausted
      {
        ghost var before := rowIter.Remaining();
        var row := rowIter.Next();
        if row.Some? {
          assert rows + before == (rows + [row.value]) + rowIter.Remaining();
          rows := rows + [row.value];
        } else {
          exhausted := true;
        }
      }
      batch := Some(Batch(batchStart, rows));
    }

    /** The writer's loop over NextBatch yields the remaining rows cut every maxRows rows. */
    method Generate(maxRows: nat) returns (batches: seq<seq<SupplierRow>>)
      requires rowIter.Valid() && maxRows > 0
      modifies rowIter
      ensures batches == Chunks(old(rowIter.Remaining()), maxRows)
    {
      hide SupplierRowIterator.Remaining, Chunks, HasId, SupplierRowIterator.NextRowId;
      NoChunks<SupplierRow>(maxRows);
      batches := [];
      var batch := NextBatch(maxRows);
      while batch.Some?
        invariant rowIter.Valid()
        invariant batch.None? ==> rowIter.Remaining() == []
        invariant batch.Some? ==> 0 < |batch.value.rows| <= maxRows
        invariant batch.Some? && |batch.value.rows| < maxRows ==> rowIter.Remaining() == []
        invariant var rest := (if batch.Some? then batch.value.rows else []) + rowIter.Remaining();
                  batches + Chunks(rest, maxRows) == Chunks(old(rowIter.Remaining()), maxRows)
        decreases |(if batch.Some? then batch.value.rows else []) + rowIter.Remaining()|, batch
      {
        ChunkStep(batch.value.rows, rowIter.Remaining(), maxRows);
        batches := batches + [batch.value.rows];
        batch := NextBatch(maxRows);
      }
    }
  }

  /** The columns keep the ranges of the standard, and a rewritten comment keeps its length. */
  lemma SupplierInRange(pool: string, r: nat)
    requires |pool| < TWO31
    ensures var row := SupplierAt(pool, r);
            && 10 <= |row.address| <= 40 && 0 <= row.nationKey <= 24
            && row.phone.countryCode == row.nationKey + 10
            && 100 <= row.phone.local1 <= 999 && 100 <= row.phone.local2 <= 999 && 1000 <= row.phone.local3 <= 9999
            && -99999 <= row.accountBalance <= 999999
            && |row.comment| == |Comment(pool, r)|
  {
    hide Sample, Comment, FinalComment, AddressChar, ToInt32, At;
    SampleInRange(ADDRESS, r, 0, 10, 40);
    SampleInRange(NATION_KEY, r, 0, 0, 24);
    SampleInRange(PHONE, r, 0, 100, 999);
    SampleInRange(PHONE, r, 1, 100, 999);
    SampleInRange(PHONE, r, 2, 1000, 9999);
    SampleInRange(ACCOUNT_BALANCE, r, 0, -99999, 999999);
  }

  // ---------------------------------------------------------------- partitions

  lemma {:induction false} SuppliersSplit(pool: string, start: nat, middle: nat, end: nat)
    requires |pool| < TWO31 && start <= middle <= end
    ensures SupplierRows(pool, start, middle) + SupplierRows(pool, middle, end) == SupplierRows(pool, start, end)
    decreases middle - start
  {
    hide SupplierAt;
    if start < middle {
      SuppliersSplit(pool, start + 1, middle, end);
    }
  }

  /** The suppliers of all partitions, one after the other, are the suppliers of the whole table. */
  lemma PartitionsMakeSupplier(pool: string, total: nat, partCount: int)
    requires |pool| < TWO31 && 1 <= partCount
    ensures Partitioned((a, b) => SupplierRows(pool, a, b), total, partCount, partCount) == SupplierRows(pool, 0, total)
  {
    hide SupplierAt;
    var rows := (a: nat, b: nat) => SupplierRows(pool, a, b);
    forall a: nat, b: nat, c: nat | a <= b <= c
      ensures rows(a, b) + rows(b, c) == rows(a, c)
    {
      SuppliersSplit(pool, a, b, c);
    }
    PartitionsMakeTheTable(rows, total, partCount);
  }
}
