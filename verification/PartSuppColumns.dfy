/** What every column of every partsupp row is, and at which place of the output the row stands. */
module PartSuppColumns {
  import opened CInt
  import opened Lehmer
  import opened Keys
  import opened Scaling
  import opened Columns
  import opened PartSupp

  /** Supplier n of part p, counting both from 0: draw n + 1 of the part's four in each column. */
  ghost predicate RowHolds(scale: Scale, poolSize: nat, p: nat, n: nat, row: PartSupplier)
    requires scale.Supported()
  {
    && row.partKey == p + 1
    && row.suppKey == SelectPartSupplier(p + 1, n, scale.suppliers)
    && row.availQty == Scaled(DrawSeed(AVAILABLE_QUANTITY, 4 * p + n + 1), 1, 9999)
    && row.supplyCost == Scaled(DrawSeed(SUPPLY_COST, 4 * p + n + 1), 100, 100000)
    && TextIs(COMMENT, 8 * p + (if poolSize <= 198 then 0 else 2 * n), poolSize, 49, 198, row.comment)
  }

  lemma SupplierAt(p: nat, n: nat, S: nat)
    requires p + 1 < TWO31 && 1 <= S < TWO31
    ensures ToInt32(p + 1) == p + 1
    ensures ToInt32(SupplierOf(p + 1, n, S)) == SelectPartSupplier(p + 1, n, S)
  {
    hide SupplierOf, SelectPartSupplier;
    ToInt32Keeps(p + 1);
    SupplierOfPart(p + 1, n, S);
    ToInt32Keeps(SelectPartSupplier(p + 1, n, S));
  }

  lemma RowAtHolds(scale: Scale, poolSize: nat, p: nat, n: nat)
    requires scale.Supported() && poolSize < TWO31 && p + 1 < TWO31
    ensures RowHolds(scale, poolSize, p, n, RowAt(scale, poolSize, p, n, n))
  {
    hide Sample, Scaled, DrawSeed, ToInt32, SupplierOf, SelectPartSupplier, TextAt, TextIs;
    SupplierAt(p, n, scale.suppliers);
    SampleIsScaled(AVAILABLE_QUANTITY, p, n, 1, 9999);
    SampleIsScaled(SUPPLY_COST, p, n, 100, 100000);
    TextAtIs(COMMENT, p, TextDraws(poolSize, COMMENT_MAX, n), poolSize, COMMENT_MIN, COMMENT_MAX);
  }

  /** Row 4 (p - start) + n of the range; with the range's 4 (end - start) rows, these are all. */
  lemma RowPlaceHolds(scale: Scale, poolSize: nat, start: nat, p: nat, n: nat, end: nat)
    requires scale.Supported() && poolSize < TWO31 && start <= p < end < TWO31 && n < 4
    ensures var rows := PartSuppRows(scale, poolSize, start, end);
            && |rows| == 4 * (end - start) && 4 * (p - start) + n < |rows|
            && RowHolds(scale, poolSize, p, n, rows[4 * (p - start) + n])
  {
    hide RowAt, RowHolds, RowsFrom;
    RowCountFrom(scale, poolSize, start, 0, 0, end);
    RowPlace(scale, poolSize, start, p, n, end);
    RowAtHolds(scale, poolSize, p, n);
  }

  /** Of S consecutive parts, from part key q S + 1 on, each supplier is offered as n-th by exactly one row. */
  lemma EverySupplierOffersOnce(scale: Scale, poolSize: nat, q: nat, n: nat, supplier: nat, end: nat)
    returns (p: nat)
    requires scale.Supported() && poolSize < TWO31 && n < 4 && 1 <= supplier <= scale.suppliers
    requires q * scale.suppliers >= 0 && q * scale.suppliers + scale.suppliers <= end < TWO31
    ensures q * scale.suppliers <= p < q * scale.suppliers + scale.suppliers
    ensures |PartSuppRows(scale, poolSize, 0, end)| == 4 * end
    ensures PartSuppRows(scale, poolSize, 0, end)[4 * p + n].suppKey == supplier
    ensures forall other: nat | q * scale.suppliers <= other < q * scale.suppliers + scale.suppliers && other != p ::
              PartSuppRows(scale, poolSize, 0, end)[4 * other + n].suppKey != supplier
  {
    hide PartSuppRows, SelectPartSupplier, TextIs, Scaled, DrawSeed;
    var S := scale.suppliers;
    var partKey := EverySupplierOnce(q, n, supplier, S);
    p := partKey - 1;
    RowPlaceHolds(scale, poolSize, 0, p, n, end);
    forall other: nat | q * S <= other < q * S + S && other != p
      ensures PartSuppRows(scale, poolSize, 0, end)[4 * other + n].suppKey != supplier
    {
      RowPlaceHolds(scale, poolSize, 0, other, n, end);
      assert q * S < other + 1 <= q * S + S;
    }
  }
}
