/**
 Merging in-memory Parquet files into one: row group data is concatenated, the absolute offsets of each
 file's footer are shifted by the data written before it, and one merged footer is appended.

 The layout is that of the Apache Parquet format, section "File Format": magic, data, footer, footer length
 in four little-endian bytes, magic.  Thrift is a codec whose reader inverts its writer.
 */
module ParquetMerge {
  import opened Wrappers

  type Byte = b: int | 0 <= b < 256

  const MAGIC: seq<Byte> := [80, 65, 82, 49]
  const WORD: nat := 0x1_0000_0000

  // ---------------------------------------------------------------- metadata

  /** The absolute offsets inside ColumnMetaData. */
  datatype ColumnOffsets = ColumnOffsets(
    dataPage: int, indexPage: Option<int>, dictionaryPage: Option<int>, bloomFilter: Option<int>)

  /** `other` stands for the fields the merge copies unchanged. */
  datatype ColumnChunk = ColumnChunk(
    metaData: Option<ColumnOffsets>, offsetIndex: Option<int>, columnIndex: Option<int>, other: seq<Byte>)

  datatype RowGroup = RowGroup(columns: seq<ColumnChunk>, fileOffset: Option<int>, numRows: int, other: seq<Byte>)

  datatype Header = Header(version: int, schema: seq<Byte>, createdBy: Option<seq<Byte>>)

  datatype FileMeta = FileMeta(header: Header, numRows: int, rowGroups: seq<RowGroup>)

  datatype Codec = Codec(serialize: FileMeta -> seq<Byte>, deserialize: seq<Byte> -> Option<FileMeta>)

  /** The reader gives back what the writer wrote for meta, and its length fits the four bytes of the trailer. */
  predicate Writable(codec: Codec, meta: FileMeta) {
    |codec.serialize(meta)| < WORD && codec.deserialize(codec.serialize(meta)) == Some(meta)
  }

  // ---------------------------------------------------------------- shifting

  function ShiftOption(offset: Option<int>, delta: int): Option<int> {
    if offset.Some? then Some(offset.value + delta) else None
  }

  function ShiftColumn(column: ColumnChunk, delta: int): ColumnChunk {
    var metaData :=
      if column.metaData.Some? then
        var m := column.metaData.value;
        Some(ColumnOffsets(m.dataPage + delta, ShiftOption(m.indexPage, delta),
                           ShiftOption(m.dictionaryPage, delta), ShiftOption(m.bloomFilter, delta)))
      else None;
    ColumnChunk(metaData, ShiftOption(column.offsetIndex, delta), ShiftOption(column.columnIndex, delta), column.other)
  }

  function ShiftColumns(columns: seq<ColumnChunk>, delta: int): (shifted: seq<ColumnChunk>)
    ensures |shifted| == |columns|
    ensures forall i | 0 <= i < |columns| :: shifted[i] == ShiftColumn(columns[i], delta)
  {
    seq(|columns|, i requires 0 <= i < |columns| => ShiftColumn(columns[i], delta))
  }

  function ShiftGroup(group: RowGroup, delta: int): RowGroup {
    RowGroup(ShiftColumns(group.columns, delta), ShiftOption(group.fileOffset, delta), group.numRows, group.other)
  }

  function ShiftGroups(groups: seq<RowGroup>, delta: int): (shifted: seq<RowGroup>)
    ensures |shifted| == |groups|
    ensures forall i | 0 <= i < |groups| :: shifted[i] == ShiftGroup(groups[i], delta)
  {
    seq(|groups|, i requires 0 <= i < |groups| => ShiftGroup(groups[i], delta))
  }

  function RowsOf(groups: seq<RowGroup>): int {
    if groups == [] then 0 else RowsOf(groups[..|groups| - 1]) + groups[|groups| - 1].numRows
  }

  // ---------------------------------------------------------------- layout

  function LittleEndian(n: nat): seq<Byte>
    requires n < WORD
  {
    [n % 256, n / 256 % 256, n / 65536 % 256, n / 16777216 % 256]
  }

  /** The four bytes shifted into place and or-ed together; as bits do not overlap, that is their sum. */
  function FromLittleEndian(bytes: seq<Byte>): nat
    requires |bytes| == 4
  {
    var b0: int, b1: int, b2: int, b3: int := bytes[0], bytes[1], bytes[2], bytes[3];
    b0 + 256 * b1 + 65536 * b2 + 16777216 * b3
  }

  lemma LittleEndianRoundTrip(n: nat)
    requires n < WORD
    ensures FromLittleEndian(LittleEndian(n)) == n
    ensures n < 256 ==> LittleEndian(n) == [n, 0, 0, 0]
    ensures n >= 256 ==> LittleEndian(n)[1..] == LittleEndian(n / 256)[..3]
  {
    assert n == n % 256 + 256 * (n / 256);
    assert n / 256 == n / 256 % 256 + 256 * (n / 65536);
    assert n / 65536 == n / 65536 % 256 + 256 * (n / 16777216);
  }

  function FileBytes(data: seq<Byte>, footer: seq<Byte>): seq<Byte>
    requires |footer| < WORD
  {
    MAGIC + data + footer + LittleEndian(|footer|) + MAGIC
  }

  function FooterLength(file: seq<Byte>): nat
    requires |file| >= 8
  {
    FromLittleEndian(file[|file| - 8..|file| - 4])
  }

  function FooterStart(file: seq<Byte>): int
    requires |file| >= 8
  {
    |file| - 8 - FooterLength(file)
  }

  /** What process_buffer relies on to stay inside the buffer. */
  predicate WellFormed(file: seq<Byte>) {
    |file| >= 12 && FooterStart(file) >= 4
  }

  function Data(file: seq<Byte>): seq<Byte>
    requires WellFormed(file)
  {
    file[4..FooterStart(file)]
  }

  function Footer(file: seq<Byte>): seq<Byte>
    requires WellFormed(file)
  {
    file[FooterStart(file)..|file| - 8]
  }

  /** Reading the layout back gives the parts it was built from. */
  lemma LayoutRoundTrip(data: seq<Byte>, footer: seq<Byte>)
    requires |footer| < WORD
    ensures var file := FileBytes(data, footer);
            && WellFormed(file) && FooterStart(file) == 4 + |data|
            && Data(file) == data && Footer(file) == footer
  {
    var file := FileBytes(data, footer);
    assert file[|file| - 8..|file| - 4] == LittleEndian(|footer|);
    LittleEndianRoundTrip(|footer|);
  }

  // ---------------------------------------------------------------- specification of the merge

  /** A mini file the merge can read: its footer decodes. */
  predicate Readable(codec: Codec, file: seq<Byte>) {
    WellFormed(file) && codec.deserialize(Footer(file)).Some?
  }

  function Meta(codec: Codec, file: seq<Byte>): FileMeta
    requires Readable(codec, file)
  {
    codec.deserialize(Footer(file)).value
  }

  ghost predicate AllReadable(codec: Codec, files: seq<seq<Byte>>) {
    forall i | 0 <= i < |files| :: Readable(codec, files[i])
  }

  /** Bytes of row group data before file number n: the sum of footer_start - 4. */
  function Delta(codec: Codec, files: seq<seq<Byte>>, n: nat): int
    requires n <= |files| && AllReadable(codec, files)
  {
    if n == 0 then 0 else Delta(codec, files, n - 1) + (FooterStart(files[n - 1]) - 4)
  }

  function MergedData(codec: Codec, files: seq<seq<Byte>>, n: nat): seq<Byte>
    requires n <= |files| && AllReadable(codec, files)
  {
    if n == 0 then [] else MergedData(codec, files, n - 1) + Data(files[n - 1])
  }

  function MergedGroups(codec: Codec, files: seq<seq<Byte>>, n: nat): seq<RowGroup>
    requires n <= |files| && AllReadable(codec, files)
  {
    if n == 0 then []
    else
      MergedGroups(codec, files, n - 1)
      + ShiftGroups(Meta(codec, files[n - 1]).rowGroups, Delta(codec, files, n - 1))
  }

  function MergedMeta(codec: Codec, files: seq<seq<Byte>>): FileMeta
    requires |files| > 0 && AllReadable(codec, files)
  {
    var groups := MergedGroups(codec, files, |files|);
    FileMeta(Meta(codec, files[0]).header, RowsOf(groups), groups)
  }

  /** The files can be merged: each can be read, and the merged footer can be written. */
  ghost predicate Mergeable(codec: Codec, files: seq<seq<Byte>>) {
    |files| > 0 && AllReadable(codec, files) && Writable(codec, MergedMeta(codec, files))
  }

  ghost function MergedFile(codec: Codec, files: seq<seq<Byte>>): seq<Byte>
    requires Mergeable(codec, files)
  {
    FileBytes(MergedData(codec, files, |files|), codec.serialize(MergedMeta(codec, files)))
  }

  // ---------------------------------------------------------------- the merger object

  /** Whether the output stream accepts a write, given what it holds. */
  type WriteOracle = (seq<Byte>, seq<Byte>) -> bool

  /** The consumer's accumulators: output stream, merged metadata, current_output_data_offset, pipeline_error. */
  datatype Merge = Merge(
    output: seq<Byte>, header: Option<Header>, numRows: int, rowGroups: seq<RowGroup>, offset: int, failed: bool)

  /** After writing the leading magic. */
  function StartMerge(oracle: WriteOracle): Merge {
    Merge(if oracle([], MAGIC) then MAGIC else [], None, 0, [], 0, !oracle([], MAGIC))
  }

  /** process_buffer. */
  function Process(codec: Codec, oracle: WriteOracle, m: Merge, file: seq<Byte>): Merge
    requires WellFormed(file)
  {
    if m.failed then m
    else
      var meta := codec.deserialize(Footer(file));
      if meta.None? then m.(failed := true)
      else
        var groups := ShiftGroups(meta.value.rowGroups, m.offset);
        var taken := m.(header := if m.header.None? then Some(meta.value.header) else m.header,
                        numRows := m.numRows + RowsOf(groups),
                        rowGroups := m.rowGroups + groups);
        if FooterStart(file) - 4 <= 0 then taken
        else if oracle(m.output, Data(file)) then
          taken.(output := m.output + Data(file), offset := m.offset + (FooterStart(file) - 4))
        else taken.(failed := true)
  }

  /** Footer, its length and the trailing magic; None when a write is refused. */
  function Finish(codec: Codec, oracle: WriteOracle, m: Merge): Option<seq<Byte>>
    requires m.header.Some? && |codec.serialize(FileMeta(m.header.value, m.numRows, m.rowGroups))| < WORD
  {
    var footer := codec.serialize(FileMeta(m.header.value, m.numRows, m.rowGroups));
    var length := LittleEndian(|footer|);
    if !oracle(m.output, footer) then None
    else if !oracle(m.output + footer, length) then None
    else if !oracle(m.output + footer + length, MAGIC) then None
    else Some(m.output + footer + length + MAGIC)
  }

  class Merger {
    const codec: Codec
    const oracle: WriteOracle
    var output: seq<Byte>
    var header: Option<Header>
    var numRows: int
    var rowGroups: seq<RowGroup>
    var currentOutputDataOffset: int
    var pipelineError: bool

    constructor (codec: Codec, oracle: WriteOracle)
      ensures this.codec == codec && this.oracle == oracle && Value() == StartMerge(oracle)
    {
      this.codec, this.oracle := codec, oracle;
      var accepted := oracle([], MAGIC);
      output := if accepted then MAGIC else [];
      header, numRows, rowGroups, currentOutputDataOffset := None, 0, [], 0;
      pipelineError := !accepted;
    }

    ghost function Value(): Merge
      reads this
    {
      Merge(output, header, numRows, rowGroups, currentOutputDataOffset, pipelineError)
    }

    /** Shifts one column's offsets in place of the parsed ones, group by group, as the source's loop does. */
    method ProcessBuffer(buffer: seq<Byte>)
      requires WellFormed(buffer)
      modifies this
      ensures Value() == Process(codec, oracle, old(Value()), buffer)
    {
      if pipelineError {
        return;
      }
      var rowGroupDataSize := FooterStart(buffer) - 4;
      var fileMeta := codec.deserialize(Footer(buffer));
      if fileMeta.None? {
        pipelineError := true;
        return;
      }
      if header.None? {
        header := Some(fileMeta.value.header);
      }
      var delta := currentOutputDataOffset;
      var groups := fileMeta.value.rowGroups;
      var i := 0;
      while i < |groups|
        invariant 0 <= i <= |groups|
        invariant rowGroups == old(rowGroups) + ShiftGroups(groups, delta)[..i]
        invariant numRows == old(numRows) + RowsOf(ShiftGroups(groups, delta)[..i])
        invariant header == (if old(header).None? then Some(fileMeta.value.header) else old(header))
        invariant output == old(output) && currentOutputDataOffset == old(currentOutputDataOffset) && !pipelineError
      {
        var shifted := ShiftGroup(groups[i], delta);
        RowsOfMore(ShiftGroups(groups, delta), i);
        numRows := numRows + shifted.numRows;
        rowGroups := rowGroups + [shifted];
        i := i + 1;
      }
      assert ShiftGroups(groups, delta)[..i] == ShiftGroups(groups, delta);
      if rowGroupDataSize > 0 {
        if !oracle(output, Data(buffer)) {
          pipelineError := true;
          return;
        }
        output := output + Data(buffer);
        currentOutputDataOffset := currentOutputDataOffset + rowGroupDataSize;
      }
    }
  }

  lemma RowsOfMore(groups: seq<RowGroup>, i: nat)
    requires i < |groups|
    ensures groups[..i + 1] == groups[..i] + [groups[i]]
    ensures RowsOf(groups[..i + 1]) == RowsOf(groups[..i]) + groups[i].numRows
  {
    assert groups[..i + 1][..i] == groups[..i];
  }

  // ---------------------------------------------------------------- the merger meets the specification

  lemma {:induction false} RowsOfConcat(a: seq<RowGroup>, b: seq<RowGroup>)
    ensures RowsOf(a + b) == RowsOf(a) + RowsOf(b)
    decreases |b|
  {
    if b == [] {
      assert a + b == a;
    } else {
      RowsOfConcat(a, b[..|b| - 1]);
      assert (a + b)[..|a + b| - 1] == a + b[..|b| - 1];
    }
  }

  /** After n files without failure the accumulators are the specification's. */
  ghost predicate Merged(codec: Codec, files: seq<seq<Byte>>, n: nat, m: Merge)
    requires n <= |files| && AllReadable(codec, files)
  {
    && m.output == MAGIC + MergedData(codec, files, n)
    && m.rowGroups == MergedGroups(codec, files, n)
    && m.numRows == RowsOf(m.rowGroups)
    && m.offset == Delta(codec, files, n)
    && m.header == (if n == 0 then None else Some(Meta(codec, files[0]).header))
  }

  lemma ProcessMerges(codec: Codec, oracle: WriteOracle, files: seq<seq<Byte>>, n: nat, m: Merge)
    requires n < |files| && AllReadable(codec, files) && Merged(codec, files, n, m)
    requires !Process(codec, oracle, m, files[n]).failed
    ensures Merged(codec, files, n + 1, Process(codec, oracle, m, files[n]))
  {
    hide ShiftGroups, FooterStart, Footer, Data, RowsOf;
    var groups := ShiftGroups(Meta(codec, files[n]).rowGroups, m.offset);
    RowsOfConcat(m.rowGroups, groups);
    var data := MergedData(codec, files, n);
    assert (MAGIC + data) + Data(files[n]) == MAGIC + (data + Data(files[n]));
    if FooterStart(files[n]) - 4 <= 0 {
      NoData(files[n]);
      assert data + Data(files[n]) == data;
    }
  }

  lemma NoData(file: seq<Byte>)
    requires WellFormed(file)
    ensures FooterStart(file) - 4 <= 0 ==> FooterStart(file) == 4 && Data(file) == []
  {
  }

  /** When nothing fails the finished file is the specified one. */
  lemma FinishMerges(codec: Codec, oracle: WriteOracle, files: seq<seq<Byte>>, m: Merge)
    requires Mergeable(codec, files) && Merged(codec, files, |files|, m)
    requires m.header.Some? && |codec.serialize(FileMeta(m.header.value, m.numRows, m.rowGroups))| < WORD
    requires Finish(codec, oracle, m).Some?
    ensures Finish(codec, oracle, m).value == MergedFile(codec, files)
  {
  }

  // ---------------------------------------------------------------- properties of the merged file

  /** The number of rows is the sum of the files' row group counts. */
  function TotalRows(codec: Codec, files: seq<seq<Byte>>, n: nat): int
    requires n <= |files| && AllReadable(codec, files)
  {
    if n == 0 then 0 else TotalRows(codec, files, n - 1) + RowsOf(Meta(codec, files[n - 1]).rowGroups)
  }

  lemma {:induction false} ShiftKeepsRows(groups: seq<RowGroup>, delta: int)
    ensures RowsOf(ShiftGroups(groups, delta)) == RowsOf(groups)
    decreases |groups|
  {
    if groups != [] {
      ShiftKeepsRows(groups[..|groups| - 1], delta);
      assert ShiftGroups(groups, delta)[..|groups| - 1] == ShiftGroups(groups[..|groups| - 1], delta);
    }
  }

  lemma {:induction false} RowsAreSummed(codec: Codec, files: seq<seq<Byte>>, n: nat)
    requires n <= |files| && AllReadable(codec, files)
    ensures RowsOf(MergedGroups(codec, files, n)) == TotalRows(codec, files, n)
  {
    if n > 0 {
      RowsAreSummed(codec, files, n - 1);
      var groups := Meta(codec, files[n - 1]).rowGroups;
      ShiftKeepsRows(groups, Delta(codec, files, n - 1));
      RowsOfConcat(MergedGroups(codec, files, n - 1), ShiftGroups(groups, Delta(codec, files, n - 1)));
    }
  }

  /** The data before file n is as long as its delta says, and file n's data follows at that place. */
  lemma {:induction false} DataPlacement(codec: Codec, files: seq<seq<Byte>>, i: nat, n: nat)
    requires i < n <= |files| && AllReadable(codec, files)
    ensures |MergedData(codec, files, i)| == Delta(codec, files, i)
    ensures Delta(codec, files, i) + |Data(files[i])| <= |MergedData(codec, files, n)|
    ensures var from := Delta(codec, files, i);
            MergedData(codec, files, n)[from..from + |Data(files[i])|] == Data(files[i])
    decreases n
  {
    DeltaIsLength(codec, files, i);
    if i < n - 1 {
      DataPlacement(codec, files, i, n - 1);
      var before, last := MergedData(codec, files, n - 1), Data(files[n - 1]);
      var from, to := Delta(codec, files, i), Delta(codec, files, i) + |Data(files[i])|;
      assert (before + last)[from..to] == before[from..to];
    }
  }

  lemma {:induction false} DeltaIsLength(codec: Codec, files: seq<seq<Byte>>, n: nat)
    requires n <= |files| && AllReadable(codec, files)
    ensures |MergedData(codec, files, n)| == Delta(codec, files, n)
  {
    if n > 0 {
      DeltaIsLength(codec, files, n - 1);
    }
  }

  /** Whatever byte an offset of file i points at inside its data, the shifted offset points at in the merged file. */
  lemma OffsetsStillPoint(codec: Codec, files: seq<seq<Byte>>, i: nat, o: int)
    requires i < |files| && Mergeable(codec, files)
    requires 4 <= o < FooterStart(files[i])
    ensures 0 <= o + Delta(codec, files, i) < |MergedFile(codec, files)|
    ensures MergedFile(codec, files)[o + Delta(codec, files, i)] == files[i][o]
  {
    DataPlacement(codec, files, i, |files|);
    var data, delta := MergedData(codec, files, |files|), Delta(codec, files, i);
    assert data[delta..delta + |Data(files[i])|][o - 4] == data[delta + o - 4];
    assert Data(files[i])[o - 4] == files[i][o];
    assert MergedFile(codec, files)[4..4 + |data|] == data;
  }

  /** Row groups of the first n files. */
  function GroupCount(codec: Codec, files: seq<seq<Byte>>, n: nat): nat
    requires n <= |files| && AllReadable(codec, files)
  {
    if n == 0 then 0 else GroupCount(codec, files, n - 1) + |Meta(codec, files[n - 1]).rowGroups|
  }

  lemma {:induction false} GroupsAreCounted(codec: Codec, files: seq<seq<Byte>>, n: nat)
    requires n <= |files| && AllReadable(codec, files)
    ensures |MergedGroups(codec, files, n)| == GroupCount(codec, files, n)
  {
    if n > 0 {
      GroupsAreCounted(codec, files, n - 1);
    }
  }

  /** Row group g of file i follows the groups of the files before it, with every absolute offset moved by its delta. */
  lemma {:induction false} GroupPlacement(codec: Codec, files: seq<seq<Byte>>, i: nat, g: nat, n: nat)
    requires i < n <= |files| && AllReadable(codec, files)
    requires g < |Meta(codec, files[i]).rowGroups|
    ensures GroupCount(codec, files, i) + g < |MergedGroups(codec, files, n)|
    ensures MergedGroups(codec, files, n)[GroupCount(codec, files, i) + g] ==
            ShiftGroup(Meta(codec, files[i]).rowGroups[g], Delta(codec, files, i))
    decreases n
  {
    hide ShiftGroup;
    if i < n - 1 {
      GroupPlacement(codec, files, i, g, n - 1);
    } else {
      GroupsAreCounted(codec, files, i);
    }
  }

  /** Every absolute file offset that a column chunk carries. */
  function OffsetsOf(column: ColumnChunk): (offsets: seq<Option<int>>)
    ensures |offsets| == 6
  {
    var m := column.metaData;
    (if m.Some? then [Some(m.value.dataPage), m.value.indexPage, m.value.dictionaryPage, m.value.bloomFilter]
     else [None, None, None, None])
    + [column.offsetIndex, column.columnIndex]
  }

  lemma ShiftedOffsets(column: ColumnChunk, delta: int, k: nat)
    requires k < 6
    ensures OffsetsOf(ShiftColumn(column, delta))[k] == ShiftOption(OffsetsOf(column)[k], delta)
    ensures ShiftColumn(column, delta).other == column.other
    ensures ShiftColumn(column, delta).metaData.Some? <==> column.metaData.Some?
  {
  }

  /** Where an offset is in the merged footer, and what it points at, compared with file i. */
  ghost predicate StillPoints(
      codec: Codec, files: seq<seq<Byte>>, i: nat, before: Option<int>, after: Option<int>)
    requires i < |files| && Mergeable(codec, files)
  {
    && (after.Some? <==> before.Some?)
    && (before.Some? && 4 <= before.value < FooterStart(files[i]) ==>
          && 0 <= after.value < |MergedFile(codec, files)|
          && MergedFile(codec, files)[after.value] == files[i][before.value])
  }

  lemma ShiftedPoints(codec: Codec, files: seq<seq<Byte>>, i: nat, offset: Option<int>)
    requires i < |files| && Mergeable(codec, files)
    ensures StillPoints(codec, files, i, offset, ShiftOption(offset, Delta(codec, files, i)))
  {
    if offset.Some? {
      OffsetPoints(codec, files, i, offset.value);
    }
  }

  /**
   Every row group of every file is in the merged footer, in order, and whatever byte of the file's data its file
   offset or any offset of its columns points at, the merged offset points at the same byte in the merged file.
   */
  lemma MergedFooterPoints(codec: Codec, files: seq<seq<Byte>>, i: nat, g: nat, c: nat, k: nat)
    requires i < |files| && Mergeable(codec, files)
    requires g < |Meta(codec, files[i]).rowGroups| && c < |Meta(codec, files[i]).rowGroups[g].columns| && k < 6
    ensures GroupCount(codec, files, i) + g < |MergedMeta(codec, files).rowGroups|
    ensures var group := Meta(codec, files[i]).rowGroups[g];
            var merged := MergedMeta(codec, files).rowGroups[GroupCount(codec, files, i) + g];
            && |merged.columns| == |group.columns| && merged.numRows == group.numRows && merged.other == group.other
            && merged.columns[c].other == group.columns[c].other
            && (merged.columns[c].metaData.Some? <==> group.columns[c].metaData.Some?)
            && StillPoints(codec, files, i, group.fileOffset, merged.fileOffset)
            && StillPoints(codec, files, i, OffsetsOf(group.columns[c])[k], OffsetsOf(merged.columns[c])[k])
  {
    hide StillPoints, MergedGroups, RowsOf, Delta, OffsetsOf, ShiftColumn, GroupCount, ShiftOption;
    ShiftedOffsets(Meta(codec, files[i]).rowGroups[g].columns[c], Delta(codec, files, i), 0);
    GroupPlacement(codec, files, i, g, |files|);
    var group := Meta(codec, files[i]).rowGroups[g];
    ShiftedOffsets(group.columns[c], Delta(codec, files, i), k);
    ShiftedPoints(codec, files, i, group.fileOffset);
    ShiftedPoints(codec, files, i, OffsetsOf(group.columns[c])[k]);
  }

  lemma OffsetPoints(codec: Codec, files: seq<seq<Byte>>, i: nat, o: int)
    requires i < |files| && Mergeable(codec, files)
    ensures 4 <= o < FooterStart(files[i]) ==>
              && 0 <= o + Delta(codec, files, i) < |MergedFile(codec, files)|
              && MergedFile(codec, files)[o + Delta(codec, files, i)] == files[i][o]
  {
    hide MergedFile, Delta;
    if 4 <= o < FooterStart(files[i]) {
      OffsetsStillPoint(codec, files, i, o);
    }
  }

  /** The merged file is itself a mini file the merge can read, and its footer decodes to the merged metadata. */
  lemma MergedIsReadable(codec: Codec, files: seq<seq<Byte>>)
    requires Mergeable(codec, files)
    ensures Readable(codec, MergedFile(codec, files))
    ensures Meta(codec, MergedFile(codec, files)) == MergedMeta(codec, files)
    ensures Data(MergedFile(codec, files)) == MergedData(codec, files, |files|)
    ensures FooterStart(MergedFile(codec, files)) - 4 == Delta(codec, files, |files|)
  {
    LayoutRoundTrip(MergedData(codec, files, |files|), codec.serialize(MergedMeta(codec, files)));
    DeltaIsLength(codec, files, |files|);
  }

  /** Read back: schema, version and creator of the first file, the row groups and rows of all files and no others. */
  lemma MergedFooterHolds(codec: Codec, files: seq<seq<Byte>>)
    requires Mergeable(codec, files)
    ensures Readable(codec, MergedFile(codec, files))
    ensures var meta := Meta(codec, MergedFile(codec, files));
            && meta.header == Meta(codec, files[0]).header
            && |meta.rowGroups| == GroupCount(codec, files, |files|)
            && meta.numRows == TotalRows(codec, files, |files|)
  {
    MergedIsReadable(codec, files);
    GroupsAreCounted(codec, files, |files|);
    RowsAreSummed(codec, files, |files|);
  }

  // ---------------------------------------------------------------- merging in stages

  lemma ShiftZero(groups: seq<RowGroup>)
    ensures ShiftGroups(groups, 0) == groups
  {
    forall i | 0 <= i < |groups|
      ensures ShiftGroups(groups, 0)[i] == groups[i]
    {
      assert ShiftColumns(groups[i].columns, 0) == groups[i].columns;
    }
  }

  /** Splitting the list of files: the tail is merged as if alone and moved behind the head. */
  lemma {:induction false} MergeFromHead(
      codec: Codec, head: seq<Byte>, first: seq<seq<Byte>>, rest: seq<seq<Byte>>, n: nat)
    requires n <= |rest| && Mergeable(codec, first) && AllReadable(codec, rest)
    requires head == MergedFile(codec, first)
    ensures AllReadable(codec, [head] + rest) && AllReadable(codec, first + rest)
    ensures Delta(codec, [head] + rest, 1 + n) == Delta(codec, first + rest, |first| + n)
    ensures MergedData(codec, [head] + rest, 1 + n) == MergedData(codec, first + rest, |first| + n)
    ensures MergedGroups(codec, [head] + rest, 1 + n) == MergedGroups(codec, first + rest, |first| + n)
  {
    MergedIsReadable(codec, first);
    if n == 0 {
      OnlyFirstMatters(codec, first, rest, |first|);
      HeadAlone(codec, head, first, rest);
    } else {
      MergeFromHead(codec, head, first, rest, n - 1);
      assert ([head] + rest)[n] == rest[n - 1] == (first + rest)[|first| + n - 1];
    }
  }

  lemma {:induction false} OnlyFirstMatters(codec: Codec, first: seq<seq<Byte>>, rest: seq<seq<Byte>>, n: nat)
    requires n <= |first| && AllReadable(codec, first) && AllReadable(codec, rest)
    ensures AllReadable(codec, first + rest)
    ensures Delta(codec, first + rest, n) == Delta(codec, first, n)
    ensures MergedData(codec, first + rest, n) == MergedData(codec, first, n)
    ensures MergedGroups(codec, first + rest, n) == MergedGroups(codec, first, n)
  {
    if n > 0 {
      OnlyFirstMatters(codec, first, rest, n - 1);
    }
  }

  lemma HeadAlone(codec: Codec, head: seq<Byte>, first: seq<seq<Byte>>, rest: seq<seq<Byte>>)
    requires Mergeable(codec, first) && AllReadable(codec, rest)
    requires head == MergedFile(codec, first)
    ensures AllReadable(codec, [head] + rest)
    ensures Delta(codec, [head] + rest, 1) == Delta(codec, first, |first|)
    ensures MergedData(codec, [head] + rest, 1) == MergedData(codec, first, |first|)
    ensures MergedGroups(codec, [head] + rest, 1) == MergedGroups(codec, first, |first|)
  {
    MergedIsReadable(codec, first);
    var files := [head] + rest;
    assert files[0] == head;
    assert Delta(codec, files, 0) == 0 && MergedData(codec, files, 0) == [] && MergedGroups(codec, files, 0) == [];
    ShiftZero(MergedMeta(codec, first).rowGroups);
    assert [] + Data(head) == Data(head);
  }

  /** Merging a merged file with further files gives, byte for byte, the merge of all the files at once. */
  lemma MergeInStages(codec: Codec, first: seq<seq<Byte>>, rest: seq<seq<Byte>>)
    requires Mergeable(codec, first) && Mergeable(codec, first + rest)
    ensures Mergeable(codec, [MergedFile(codec, first)] + rest)
    ensures MergedFile(codec, [MergedFile(codec, first)] + rest) == MergedFile(codec, first + rest)
  {
    hide FileBytes, Writable, WellFormed, ShiftGroups, RowsOf, FooterStart, Footer, Data;
    var head := MergedFile(codec, first);
    assert AllReadable(codec, rest) by {
      forall i | 0 <= i < |rest|
        ensures Readable(codec, rest[i])
      {
        assert Readable(codec, (first + rest)[|first| + i]);
      }
    }
    MergeFromHead(codec, head, first, rest, |rest|);
    MergedIsReadable(codec, first);
    assert ([head] + rest)[0] == head && (first + rest)[0] == first[0];
  }
}
