/** Rows cut into batches. */
module Batches {

  datatype Batch<T> = Batch(firstRowId: nat, rows: seq<T>)

  /** The rows in pieces of maxRows, the last one possibly shorter and none empty. */
  function Chunks<T>(rows: seq<T>, maxRows: nat): (chunks: seq<seq<T>>)
    requires maxRows > 0
    ensures forall i | 0 <= i < |chunks| :: 0 < |chunks[i]| <= maxRows
    decreases |rows|
  {
    if rows == [] then []
    else if |rows| <= maxRows then [rows]
    else [rows[..maxRows]] + Chunks(rows[maxRows..], maxRows)
  }

  function Concat<T>(pieces: seq<seq<T>>): seq<T> {
    if pieces == [] then [] else pieces[0] + Concat(pieces[1..])
  }

  /** Cutting loses, repeats and reorders nothing, whatever the size of the pieces. */
  lemma {:induction false} ConcatChunks<T>(rows: seq<T>, maxRows: nat)
    requires maxRows > 0
    ensures Concat(Chunks(rows, maxRows)) == rows
    decreases |rows|
  {
    if rows == [] {
    } else if |rows| <= maxRows {
      assert Concat([rows]) == rows + Concat([]);
    } else {
      var rest := Chunks(rows[maxRows..], maxRows);
      ConcatChunks(rows[maxRows..], maxRows);
      assert ([rows[..maxRows]] + rest)[1..] == rest;
      assert rows == rows[..maxRows] + rows[maxRows..];
    }
  }

  lemma {:induction false} ConcatSum<T>(a: seq<seq<T>>, b: seq<seq<T>>)
    ensures Concat(a + b) == Concat(a) + Concat(b)
    decreases |a|
  {
    if a == [] {
      assert a + b == b;
    } else {
      ConcatSum(a[1..], b);
      assert (a + b)[1..] == a[1..] + b;
      assert a[0] + (Concat(a[1..]) + Concat(b)) == a[0] + Concat(a[1..]) + Concat(b);
    }
  }

  lemma NoChunks<T>(maxRows: nat)
    requires maxRows > 0
    ensures Chunks<T>([], maxRows) == []
  {
  }

  /** A batch that is full, or the last, is the first chunk of what was left. */
  lemma ChunkStep<T>(batch: seq<T>, rest: seq<T>, maxRows: nat)
    requires 0 < |batch| <= maxRows && (|batch| < maxRows ==> rest == [])
    ensures Chunks(batch + rest, maxRows) == [batch] + Chunks(rest, maxRows)
  {
    if rest == [] {
      assert batch + rest == batch;
    } else {
      assert (batch + rest)[..maxRows] == batch && (batch + rest)[maxRows..] == rest;
    }
  }
}
