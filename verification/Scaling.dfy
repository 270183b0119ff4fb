/** What the tables take from outside: row counts at the scale factor, and the text pool. */
module Scaling {
  import opened CInt
  import opened Lehmer

  /**
   The products of the scale factor that the iterators compute: parts (200,000 per unit), suppliers (10,000),
   customers (150,000, at least 1) and clerks (1,000, at least 1,000).
   */
  datatype Scale = Scale(parts: nat, suppliers: nat, customers: nat, clerks: nat) {
    /** Keys fit 32 bits, so the 32-bit streams are used, and there is a supplier to choose. */
    predicate Supported() {
      parts < TWO31 && 1 <= suppliers < TWO31 && 1 <= customers < TWO31 && 1 <= clerks < TWO31
    }
  }

  /** A view into the text pool. */
  datatype Text = Text(begin: int, count: int)

  /** The draws that so many text values make: none when the pool is not longer than the longest text. */
  function TextDraws(poolSize: nat, maxLength: nat, texts: nat): (n: nat)
    ensures n <= 2 * texts
  {
    if poolSize <= maxLength then 0 else 2 * texts
  }

  /** The text whose two draws start after the first `used` draws of the row. */
  function TextAt(c: Column, row: nat, used: nat, poolSize: nat, minLength: nat, maxLength: nat): Text {
    if poolSize <= maxLength then Text(0, 0)
    else
      Text(Sample(c, row, used, 0, poolSize - maxLength), Sample(c, row, used + 1, minLength, maxLength))
  }

  /** RandomText::NextValue: the view, and the stream after its two draws or none. */
  function NextText(random: Stream, poolSize: nat, minLength: nat, maxLength: nat): (Text, Stream) {
    if poolSize <= maxLength then (Text(0, 0), random)
    else
      var offset, length := random.Next(), random.Next().Next();
      (Text(offset.Int(0, poolSize - maxLength), length.Int(minLength, maxLength)), length)
  }

  lemma NextTextAt(c: Column, row: nat, texts: nat, poolSize: nat, minLength: nat, maxLength: nat)
    ensures var used := TextDraws(poolSize, maxLength, texts);
            NextText(At(c, row, used), poolSize, minLength, maxLength) ==
            (TextAt(c, row, used, poolSize, minLength, maxLength),
             At(c, row, TextDraws(poolSize, maxLength, texts + 1)))
  {
    hide At, Stream.Next;
    DrawsStayInRow();
  }

  /** A text lies inside the pool and has an allowed length. */
  lemma TextInPool(c: Column, row: nat, used: nat, poolSize: nat, minLength: nat, maxLength: nat)
    requires IsSeed(c.seed) && poolSize < TWO31 && 0 < minLength <= maxLength
    ensures var text := TextAt(c, row, used, poolSize, minLength, maxLength);
            && 0 <= text.begin && text.begin + text.count <= poolSize
            && (text.count == 0 <==> poolSize <= maxLength)
            && (poolSize > maxLength ==> minLength <= text.count <= maxLength)
  {
    if poolSize > maxLength {
      SampleInRange(c, row, used, 0, poolSize - maxLength);
      SampleInRange(c, row, used + 1, minLength, maxLength);
    }
  }

  // ---------------------------------------------------------------- stepping streams that stand inside a row

  lemma DrawsStayInRow()
    ensures forall c: Column, row: nat, used: nat {:trigger At(c, row, used).Next()} ::
              At(c, row, used).Next() == At(c, row, used + 1)
  {
  }

  lemma FinishedRows()
    ensures forall c: Column, row: nat, used: nat {:trigger At(c, row, used).Finished()} | used <= c.perRow ::
              At(c, row, used).Finished() == At(c, row + 1, 0)
  {
    forall c: Column, row: nat, used: nat | used <= c.perRow
      ensures At(c, row, used).Finished() == At(c, row + 1, 0)
    {
      FinishedAt(c, row, used);
    }
  }

  lemma AdvancedRows()
    ensures forall c: Column, row: nat {:trigger Fresh(c).Advanced(row)} :: Fresh(c).Advanced(row) == At(c, row, 0)
    ensures forall c: Column {:trigger Fresh(c)} :: Fresh(c) == At(c, 0, 0)
  {
    forall c: Column, row: nat
      ensures Fresh(c).Advanced(row) == At(c, row, 0)
    {
      AdvancedAt(c, row);
    }
  }
}
