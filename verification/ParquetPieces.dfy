/** The merge seen from the output stream: which pieces are written, in which order, and when it fails. */
module ParquetPieces {
  import opened Wrappers
  import opened ParquetMerge

  ghost predicate FilesWellFormed(files: seq<seq<Byte>>) {
    forall i | 0 <= i < |files| :: WellFormed(files[i])
  }

  /** The leading magic and the data of the first n files; nothing is written for a file without data. */
  function DataPieces(files: seq<seq<Byte>>, n: nat): seq<seq<Byte>>
    requires n <= |files| && FilesWellFormed(files)
  {
    if n == 0 then [MAGIC]
    else DataPieces(files, n - 1) + if Data(files[n - 1]) == [] then [] else [Data(files[n - 1])]
  }

  function Joined(pieces: seq<seq<Byte>>): seq<Byte> {
    if pieces == [] then [] else Joined(pieces[..|pieces| - 1]) + pieces[|pieces| - 1]
  }

  /** The stream takes each piece, given all the pieces before it. */
  predicate TakesAll(oracle: WriteOracle, pieces: seq<seq<Byte>>) {
    pieces == [] ||
    var before := pieces[..|pieces| - 1];
    TakesAll(oracle, before) && oracle(Joined(before), pieces[|pieces| - 1])
  }

  lemma OneMorePiece(oracle: WriteOracle, pieces: seq<seq<Byte>>, piece: seq<Byte>)
    ensures Joined(pieces + [piece]) == Joined(pieces) + piece
    ensures TakesAll(oracle, pieces + [piece]) <==> TakesAll(oracle, pieces) && oracle(Joined(pieces), piece)
  {
    assert (pieces + [piece])[..|pieces|] == pieces;
  }

  /** process_buffer over the first n files, in order. */
  function ProcessAll(codec: Codec, oracle: WriteOracle, files: seq<seq<Byte>>, n: nat): Merge
    requires n <= |files| && FilesWellFormed(files)
  {
    if n == 0 then StartMerge(oracle) else Process(codec, oracle, ProcessAll(codec, oracle, files, n - 1), files[n - 1])
  }

  ghost predicate ReadableUpTo(codec: Codec, files: seq<seq<Byte>>, n: nat)
    requires n <= |files|
  {
    forall i | 0 <= i < n :: Readable(codec, files[i])
  }

  lemma DataIsEmpty(file: seq<Byte>)
    requires WellFormed(file)
    ensures FooterStart(file) - 4 <= 0 <==> Data(file) == []
  {
  }

  /** Without failure, what was written is the pieces so far. */
  lemma {:induction false} FailsExactlyWhen(codec: Codec, oracle: WriteOracle, files: seq<seq<Byte>>, n: nat)
    requires n <= |files| && FilesWellFormed(files)
    ensures var m := ProcessAll(codec, oracle, files, n);
            && (!m.failed <==> ReadableUpTo(codec, files, n) && TakesAll(oracle, DataPieces(files, n)))
            && (!m.failed ==> m.output == Joined(DataPieces(files, n)))
            && (!m.failed && n > 0 ==> m.header == Some(Meta(codec, files[0]).header))
            && (n == 0 ==> m.header == None)
  {
    hide FooterStart, Footer, Data, ShiftGroups, RowsOf, WellFormed;
    if n == 0 {
      OneMorePiece(oracle, [], MAGIC);
      assert [] + [MAGIC] == [MAGIC];
      assert Joined([]) == [];
    } else {
      FailsExactlyWhen(codec, oracle, files, n - 1);
      DataIsEmpty(files[n - 1]);
      OneMorePiece(oracle, DataPieces(files, n - 1), Data(files[n - 1]));
      assert DataPieces(files, n - 1) + [] == DataPieces(files, n - 1);
    }
  }

  /** All that is written for the files. */
  ghost function AllPieces(codec: Codec, files: seq<seq<Byte>>): seq<seq<Byte>>
    requires Mergeable(codec, files)
  {
    var footer := codec.serialize(MergedMeta(codec, files));
    DataPieces(files, |files|) + [footer] + [LittleEndian(|footer|)] + [MAGIC]
  }

  lemma {:induction false} ProcessedIsMerged(codec: Codec, oracle: WriteOracle, files: seq<seq<Byte>>, n: nat)
    requires n <= |files| && FilesWellFormed(files) && AllReadable(codec, files)
    requires !ProcessAll(codec, oracle, files, n).failed
    ensures Merged(codec, files, n, ProcessAll(codec, oracle, files, n))
  {
    hide Process;
    if n > 0 {
      FailureStays(codec, oracle, ProcessAll(codec, oracle, files, n - 1), files[n - 1]);
      ProcessedIsMerged(codec, oracle, files, n - 1);
      ProcessMerges(codec, oracle, files, n - 1, ProcessAll(codec, oracle, files, n - 1));
    } else {
      assert MAGIC + [] == MAGIC;
    }
  }

  lemma FailureStays(codec: Codec, oracle: WriteOracle, m: Merge, file: seq<Byte>)
    requires WellFormed(file)
    ensures m.failed ==> Process(codec, oracle, m, file).failed
  {
  }

  /**
   For any files: the merge fails exactly when a footer cannot be read or the stream refuses one of the pieces; if it
   succeeds, the pieces make up the merged file.
   */
  lemma MergeSucceedsExactlyWhen(codec: Codec, oracle: WriteOracle, files: seq<seq<Byte>>)
    requires Mergeable(codec, files)
    ensures FilesWellFormed(files)
    ensures var m := ProcessAll(codec, oracle, files, |files|);
            && (!m.failed ==>
                  m.header.Some? && FileMeta(m.header.value, m.numRows, m.rowGroups) == MergedMeta(codec, files))
            && (!m.failed && Finish(codec, oracle, m).Some? <==> TakesAll(oracle, AllPieces(codec, files)))
            && (!m.failed && Finish(codec, oracle, m).Some? ==>
                  Finish(codec, oracle, m).value == MergedFile(codec, files))
    ensures Joined(AllPieces(codec, files)) == MergedFile(codec, files)
  {
    hide WellFormed, FooterStart, Footer, Data, LittleEndian, Process, FilesWellFormed;
    assert FilesWellFormed(files) by {
      ReadableAreWellFormed(codec, files);
    }
    var m := ProcessAll(codec, oracle, files, |files|);
    FailsExactlyWhen(codec, oracle, files, |files|);
    PiecesAreData(codec, files, |files|);
    Trailer(codec, oracle, files);
    if !m.failed {
      ProcessedIsMerged(codec, oracle, files, |files|);
    }
  }

  lemma ReadableAreWellFormed(codec: Codec, files: seq<seq<Byte>>)
    requires AllReadable(codec, files)
    ensures FilesWellFormed(files)
  {
  }

  lemma {:induction false} PiecesAreData(codec: Codec, files: seq<seq<Byte>>, n: nat)
    requires n <= |files| && AllReadable(codec, files) && FilesWellFormed(files)
    ensures Joined(DataPieces(files, n)) == MAGIC + MergedData(codec, files, n)
  {
    hide WellFormed, FooterStart, Footer, Data;
    if n == 0 {
      OneMorePiece((a, b) => true, [], MAGIC);
      assert [] + [MAGIC] == [MAGIC];
    } else {
      PiecesAreData(codec, files, n - 1);
      OneMorePiece((a, b) => true, DataPieces(files, n - 1), Data(files[n - 1]));
      var data := MergedData(codec, files, n - 1);
      assert (MAGIC + data) + Data(files[n - 1]) == MAGIC + (data + Data(files[n - 1]));
      assert DataPieces(files, n - 1) + [] == DataPieces(files, n - 1);
    }
  }

  /** The three writes after the data. */
  lemma Trailer(codec: Codec, oracle: WriteOracle, files: seq<seq<Byte>>)
    requires Mergeable(codec, files) && FilesWellFormed(files)
    ensures var footer := codec.serialize(MergedMeta(codec, files));
            var front, length := DataPieces(files, |files|), LittleEndian(|footer|);
            && Joined(AllPieces(codec, files)) == Joined(front) + footer + length + MAGIC
            && (TakesAll(oracle, AllPieces(codec, files)) <==>
                  && TakesAll(oracle, front) && oracle(Joined(front), footer)
                  && oracle(Joined(front) + footer, length) && oracle(Joined(front) + footer + length, MAGIC))
  {
    hide TakesAll, Joined, DataPieces;
    var footer := codec.serialize(MergedMeta(codec, files));
    var front, length := DataPieces(files, |files|), LittleEndian(|footer|);
    OneMorePiece(oracle, front, footer);
    OneMorePiece(oracle, front + [footer], length);
    OneMorePiece(oracle, front + [footer] + [length], MAGIC);
  }
}
