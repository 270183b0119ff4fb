/** What every column of every lineitem row is, and at which place of the output the row stands. */
module LineitemColumns {
  import opened CInt
  import opened Lehmer
  import opened Dates
  import opened Keys
  import opened Distribution
  import opened Scaling
  import opened Columns
  import opened Lineitem

  /** How many of the order's first l lines carry a return flag. */
  function FlagsBefore(scale: Scale, poolSize: nat, o: nat, l: nat): nat
    requires scale.Supported()
  {
    if l == 0 then 0
    else FlagsBefore(scale, poolSize, o, l - 1) + if LineAt(scale, poolSize, o, l - 1).returnFlag != "N" then 1 else 0
  }

  // ---------------------------------------------------------------- columns

  /** The keys of line l of order o: draw l + 1 of the order's seven in each column. */
  ghost predicate KeysHold(scale: Scale, o: nat, l: nat, line: Line)
    requires scale.Supported()
  {
    && line.orderKey == ToInt32(32 * ((o + 1) / 8) + (o + 1) % 8)
    && line.lineNumber == l + 1
    && line.partKey == Scaled(DrawSeed(PART_KEY, 7 * o + l + 1), 1, if scale.parts < 1 then 1 else scale.parts)
    && 1 <= line.partKey
    && line.suppKey ==
       SelectPartSupplier(line.partKey, Scaled(DrawSeed(SUPPLIER_NUMBER, 7 * o + l + 1), 0, 3), scale.suppliers)
  }

  /** Its amounts. */
  ghost predicate AmountsHold(o: nat, l: nat, line: Line) {
    && line.quantity == Scaled(DrawSeed(QUANTITY, 7 * o + l + 1), 1, 50)
    && line.discount == Scaled(DrawSeed(DISCOUNT, 7 * o + l + 1), 0, 10)
    && line.tax == Scaled(DrawSeed(TAX, 7 * o + l + 1), 0, 8)
    && line.partKey >= 1 && line.extendedPrice == PartPrice(line.partKey) * line.quantity
  }

  /** Its dates. */
  ghost predicate DatesHold(o: nat, l: nat, line: Line) {
    var draw := 7 * o + l + 1;
    var orderDate := Scaled(DrawSeed(ORDER_DATE, o + 1), 92001, 94406);
    && line.shipDate == orderDate + Scaled(DrawSeed(SHIP_DATE, draw), 1, 121)
    && line.commitDate == orderDate + Scaled(DrawSeed(COMMIT_DATE, draw), 30, 90)
    && line.receiptDate == line.shipDate + Scaled(DrawSeed(RECEIPT_DATE, draw), 1, 30)
  }

  /**
   Its tokens.  Day 93264 is the last of the past.  A line received by then is flagged R or A, by the next unused draw
   of the order; any other line is flagged N and uses none.
   */
  ghost predicate TokensHold(o: nat, l: nat, flagsBefore: nat, line: Line) {
    && line.lineStatus == (if line.shipDate <= 93264 then "F" else "O")
    && (if line.receiptDate <= 93264 then
          Picks(RETURN_FLAGS, DrawSeed(RETURN_FLAG, 7 * o + flagsBefore + 1), line.returnFlag)
        else line.returnFlag == "N")
    && Picks(SHIP_INSTRUCTIONS, DrawSeed(SHIP_INSTRUCT, 7 * o + l + 1), line.shipInstruct)
    && Picks(SHIP_MODES, DrawSeed(SHIP_MODE, 7 * o + l + 1), line.shipMode)
  }

  lemma Tables()
    ensures Weighted(RETURN_FLAGS) && Weighted(SHIP_INSTRUCTIONS) && Weighted(SHIP_MODES)
    ensures TotalWeight(RETURN_FLAGS) == 2 && TotalWeight(SHIP_INSTRUCTIONS) == 4 && TotalWeight(SHIP_MODES) == 7
  {
    assert Weight(RETURN_FLAGS, 2) == 2;
    assert Weight(SHIP_INSTRUCTIONS, 2) == 2;
    assert Weight(SHIP_INSTRUCTIONS, 4) == 4;
    assert Weight(SHIP_MODES, 3) == 3;
    assert Weight(SHIP_MODES, 6) == 6;
    assert Weight(SHIP_MODES, 7) == 7;
  }

  /** The columns of a row by name. */
  lemma RowColumns(scale: Scale, poolSize: nat, o: nat, l: nat)
    requires scale.Supported()
    ensures var line := LineAt(scale, poolSize, o, l);
            && line.orderKey == ToInt32(MakeOrderKey(o + 1)) && line.lineNumber == l + 1
            && line.partKey == PartKey(scale, o, l)
            && line.suppKey == ToInt32(SelectPartSupplier(PartKey(scale, o, l), SupplierNumber(o, l), scale.suppliers))
            && line.quantity == Quantity(o, l) && line.discount == Discount(o, l) && line.tax == Tax(o, l)
            && line.extendedPrice == ToInt32(PartPrice(PartKey(scale, o, l)) * Quantity(o, l))
            && line.returnFlag == ReturnFlag(o, l) && line.lineStatus == LineStatus(o, l)
            && line.shipDate == ShipDate(o, l) && line.commitDate == CommitDate(o, l)
            && line.receiptDate == ReceiptDate(o, l)
            && line.shipInstruct == Picked(SHIP_INSTRUCTIONS, At(SHIP_INSTRUCT, o, l + 1))
            && line.shipMode == Picked(SHIP_MODES, At(SHIP_MODE, o, l + 1))
            && line.comment ==
               TextAt(COMMENT, o, TextDraws(poolSize, COMMENT_MAX, l), poolSize, COMMENT_MIN, COMMENT_MAX)
  {
    hide Sample, At, IsInPast, Picked, TextAt, FlagDraws, ToInt32, OrderDate, SelectPartSupplier, PartPrice;
    hide ReturnFlag, LineStatus, Quantity, Discount, Tax, PartKey, SupplierNumber, ShipDate, CommitDate, ReceiptDate;
    hide MakeOrderKey;
  }

  lemma KeysAt(scale: Scale, poolSize: nat, o: nat, l: nat)
    requires scale.Supported()
    ensures KeysHold(scale, o, l, LineAt(scale, poolSize, o, l))
  {
    hide LineAt, Scaled, DrawSeed, ToInt32, SelectPartSupplier, MakeOrderKey, PartKey, SupplierNumber;
    RowColumns(scale, poolSize, o, l);
    PartKeyIs(scale, o, l);
    OrderKeyIs(o);
    SupplierKeyFits(PartKey(scale, o, l), SupplierNumber(o, l), scale.suppliers);
  }

  lemma PartKeyIs(scale: Scale, o: nat, l: nat)
    requires scale.Supported()
    ensures PartKey(scale, o, l) ==
            Scaled(DrawSeed(PART_KEY, 7 * o + l + 1), 1, if scale.parts < 1 then 1 else scale.parts)
    ensures SupplierNumber(o, l) == Scaled(DrawSeed(SUPPLIER_NUMBER, 7 * o + l + 1), 0, 3)
  {
    hide Sample, Scaled, DrawSeed;
    SampleIsScaled(PART_KEY, o, l, 1, PartKeyMax(scale));
    SampleIsScaled(SUPPLIER_NUMBER, o, l, 0, 3);
  }

  lemma OrderKeyIs(o: nat)
    ensures MakeOrderKey(o + 1) == 32 * ((o + 1) / 8) + (o + 1) % 8
  {
    hide MakeOrderKey;
    OrderKeyRoundTrip(o + 1, 0);
  }

  lemma SupplierKeyFits(partKey: nat, number: nat, S: nat)
    requires partKey >= 1 && 1 <= S < TWO31
    ensures ToInt32(SelectPartSupplier(partKey, number, S)) == SelectPartSupplier(partKey, number, S)
  {
    hide SelectPartSupplier;
    ToInt32Keeps(SelectPartSupplier(partKey, number, S));
  }

  lemma AmountsAt(scale: Scale, poolSize: nat, o: nat, l: nat)
    requires scale.Supported()
    ensures AmountsHold(o, l, LineAt(scale, poolSize, o, l))
  {
    hide Sample, LineAt, Scaled, DrawSeed, ToInt32, PartPrice, PartKey;
    RowColumns(scale, poolSize, o, l);
    SampleIsScaled(QUANTITY, o, l, 1, 50);
    SampleIsScaled(DISCOUNT, o, l, 0, 10);
    SampleIsScaled(TAX, o, l, 0, 8);
    LineInRange(scale, o, l);
    PriceFits(PartKey(scale, o, l), Quantity(o, l));
  }

  lemma PriceFits(partKey: nat, quantity: nat)
    requires quantity <= 50
    ensures ToInt32(PartPrice(partKey) * quantity) == PartPrice(partKey) * quantity
  {
    hide PartPrice;
    ProductOfNaturals(PartPrice(partKey), quantity);
    ProductMonotone(PartPrice(partKey), 209900, quantity);
    ToInt32Keeps(PartPrice(partKey) * quantity);
  }

  lemma DatesAre(o: nat, l: nat)
    ensures OrderDate(o) == Scaled(DrawSeed(ORDER_DATE, o + 1), 92001, 94406)
    ensures ShipDate(o, l) == OrderDate(o) + Scaled(DrawSeed(SHIP_DATE, 7 * o + l + 1), 1, 121)
    ensures CommitDate(o, l) == OrderDate(o) + Scaled(DrawSeed(COMMIT_DATE, 7 * o + l + 1), 30, 90)
    ensures ReceiptDate(o, l) == ShipDate(o, l) + Scaled(DrawSeed(RECEIPT_DATE, 7 * o + l + 1), 1, 30)
  {
    hide Sample, Scaled, DrawSeed;
    SampleIsScaled(ORDER_DATE, o, 0, 92001, 94406);
    SampleIsScaled(SHIP_DATE, o, l, 1, 121);
    SampleIsScaled(COMMIT_DATE, o, l, 30, 90);
    SampleIsScaled(RECEIPT_DATE, o, l, 1, 30);
  }

  lemma DatesAt(scale: Scale, poolSize: nat, o: nat, l: nat)
    requires scale.Supported()
    ensures DatesHold(o, l, LineAt(scale, poolSize, o, l))
  {
    hide LineAt, Scaled, DrawSeed, OrderDate, ShipDate, CommitDate, ReceiptDate;
    RowColumns(scale, poolSize, o, l);
    DatesAre(o, l);
  }

  /** A drawn flag is R or A. */
  lemma FlagIsDrawn(o: nat, used: nat)
    ensures var flag := Picked(RETURN_FLAGS, At(RETURN_FLAG, o, used)); flag == "R" || flag == "A"
  {
    Tables();
    PickedIs(RETURN_FLAGS, RETURN_FLAG, o, used);
  }

  lemma {:induction false} FlagsAreDraws(scale: Scale, poolSize: nat, o: nat, l: nat)
    requires scale.Supported()
    ensures FlagsBefore(scale, poolSize, o, l) == FlagDraws(o, l)
  {
    hide Sample, At, IsInPast, Picked, TextAt, ToInt32, SelectPartSupplier, PartPrice, ReceiptDate;
    if l > 0 {
      FlagsAreDraws(scale, poolSize, o, l - 1);
      FlagIsDrawn(o, FlagDraws(o, l - 1) + 1);
    }
  }

  lemma PicksAt(o: nat, used: nat)
    ensures Picks(RETURN_FLAGS, DrawSeed(RETURN_FLAG, 7 * o + used), Picked(RETURN_FLAGS, At(RETURN_FLAG, o, used)))
    ensures Picks(SHIP_INSTRUCTIONS, DrawSeed(SHIP_INSTRUCT, 7 * o + used),
                  Picked(SHIP_INSTRUCTIONS, At(SHIP_INSTRUCT, o, used)))
    ensures Picks(SHIP_MODES, DrawSeed(SHIP_MODE, 7 * o + used), Picked(SHIP_MODES, At(SHIP_MODE, o, used)))
  {
    hide At, Picked, DrawSeed, Picks, Weighted;
    Tables();
    PickedIs(RETURN_FLAGS, RETURN_FLAG, o, used);
    PickedIs(SHIP_INSTRUCTIONS, SHIP_INSTRUCT, o, used);
    PickedIs(SHIP_MODES, SHIP_MODE, o, used);
  }

  lemma StatusIs(o: nat, l: nat)
    ensures LineStatus(o, l) == if ShipDate(o, l) <= 93264 then "F" else "O"
    ensures ReturnFlag(o, l) ==
            if ReceiptDate(o, l) <= 93264 then Picked(RETURN_FLAGS, At(RETURN_FLAG, o, FlagDraws(o, l) + 1)) else "N"
  {
    hide At, IsInPast, Picked, FlagDraws, ShipDate, ReceiptDate;
    InPastIsThreshold(ShipDate(o, l));
    InPastIsThreshold(ReceiptDate(o, l));
  }

  lemma TokensAt(scale: Scale, poolSize: nat, o: nat, l: nat)
    requires scale.Supported()
    ensures TokensHold(o, l, FlagsBefore(scale, poolSize, o, l), LineAt(scale, poolSize, o, l))
  {
    hide LineAt, At, Picked, FlagDraws, FlagsBefore, DrawSeed, Picks, ShipDate, ReceiptDate, ReturnFlag, LineStatus;
    hide CommitDate, PartKey, SupplierNumber, Quantity, Discount, Tax;
    RowColumns(scale, poolSize, o, l);
    FlagsAreDraws(scale, poolSize, o, l);
    StatusIs(o, l);
    PicksAt(o, FlagDraws(o, l) + 1);
    PicksAt(o, l + 1);
  }

  /** Everything there is to say about line l of order o. */
  ghost predicate LineHolds(scale: Scale, poolSize: nat, o: nat, l: nat, line: Line)
    requires scale.Supported()
  {
    && KeysHold(scale, o, l, line) && AmountsHold(o, l, line) && DatesHold(o, l, line)
    && TokensHold(o, l, FlagsBefore(scale, poolSize, o, l), line)
    && TextIs(COMMENT, 14 * o + (if poolSize <= 43 then 0 else 2 * l), poolSize, 10, 43, line.comment)
  }

  lemma LineAtHolds(scale: Scale, poolSize: nat, o: nat, l: nat)
    requires scale.Supported() && poolSize < TWO31
    ensures LineHolds(scale, poolSize, o, l, LineAt(scale, poolSize, o, l))
  {
    hide KeysHold, AmountsHold, DatesHold, TokensHold, LineAt, TextIs, FlagsBefore;
    KeysAt(scale, poolSize, o, l);
    AmountsAt(scale, poolSize, o, l);
    DatesAt(scale, poolSize, o, l);
    TokensAt(scale, poolSize, o, l);
    CommentAt(scale, poolSize, o, l);
  }

  lemma CommentAt(scale: Scale, poolSize: nat, o: nat, l: nat)
    requires scale.Supported() && poolSize < TWO31
    ensures TextIs(COMMENT, 14 * o + (if poolSize <= 43 then 0 else 2 * l), poolSize, 10, 43,
                   LineAt(scale, poolSize, o, l).comment)
  {
    hide LineAt, TextIs, TextAt;
    RowColumns(scale, poolSize, o, l);
    TextAtIs(COMMENT, o, TextDraws(poolSize, COMMENT_MAX, l), poolSize, COMMENT_MIN, COMMENT_MAX);
  }

  // ---------------------------------------------------------------- places

  /** Lines of the orders from start up to, not including, o. */
  function LinesBefore(start: nat, o: nat): nat
    requires start <= o
  {
    if o == start then 0 else LinesBefore(start, o - 1) + LineCount(o - 1)
  }

  lemma LineCountIs(o: nat)
    ensures LineCount(o) == Scaled(DrawSeed(LINE_COUNT, o + 1), 1, 7)
  {
    hide Sample, Scaled, DrawSeed;
    SampleIsScaled(LINE_COUNT, o, 0, 1, 7);
  }

  lemma {:induction false} LinesFromFirst(start: nat, o: nat)
    requires start < o
    ensures LinesBefore(start, o) == LineCount(start) + LinesBefore(start + 1, o)
    decreases o
  {
    hide LineCount;
    if start + 1 < o {
      LinesFromFirst(start, o - 1);
    }
  }

  /** Row number k of the lines that are left is line number l + k of the order, or one of a later order. */
  lemma {:induction false} PlaceFrom(scale: Scale, poolSize: nat, at: nat, from: nat, o: nat, l: nat, end: nat)
    requires scale.Supported() && at <= o < end && from < LineCount(at) && l < LineCount(o) && (at == o ==> from <= l)
    ensures var k := LinesBefore(at, o) + l - from;
            && 0 <= k < |LinesFrom(scale, poolSize, at, from, end)|
            && LinesFrom(scale, poolSize, at, from, end)[k] == LineAt(scale, poolSize, o, l)
    decreases end - at, LineCount(at) - from
  {
    hide LineAt, LineCount, LinesBefore;
    NoneBefore(at);
    if at == o && from == l {
    } else if from + 1 < LineCount(at) {
      PlaceFrom(scale, poolSize, at, from + 1, o, l, end);
      LaterOrder(at, o);
    } else {
      PlaceFrom(scale, poolSize, at + 1, 0, o, l, end);
      LinesFromFirst(at, o);
    }
  }

  lemma NoneBefore(start: nat)
    ensures LinesBefore(start, start) == 0
  {
  }

  lemma LaterOrder(at: nat, o: nat)
    requires at <= o
    ensures at < o ==> LinesBefore(at, o) >= LineCount(at)
  {
    hide LineCount;
    if at < o {
      LinesFromFirst(at, o);
    }
  }

  /** Line l of order o stands behind all lines of earlier orders of the range and the earlier lines of the order. */
  lemma LinePlace(scale: Scale, poolSize: nat, start: nat, o: nat, l: nat, end: nat)
    requires scale.Supported() && poolSize < TWO31 && start <= o < end && l < LineCount(o)
    ensures LinesBefore(start, o) + l < |Lines(scale, poolSize, start, end)|
    ensures LineHolds(scale, poolSize, o, l, Lines(scale, poolSize, start, end)[LinesBefore(start, o) + l])
  {
    hide LineHolds, LineAt, LineCount, LinesFrom;
    assert 0 < LineCount(start) by {
      SomeLine(start);
    }
    PlaceFrom(scale, poolSize, start, 0, o, l, end);
    LineAtHolds(scale, poolSize, o, l);
  }

  lemma SomeLine(o: nat)
    ensures LineCount(o) >= 1
  {
  }

  /** And there are no other rows. */
  lemma {:induction false} EveryLineHasAPlace(scale: Scale, poolSize: nat, at: nat, from: nat, end: nat, k: nat)
    returns (o: nat, l: nat)
    requires scale.Supported() && from < LineCount(at) && k < |LinesFrom(scale, poolSize, at, from, end)|
    ensures at <= o < end && l < LineCount(o) && k == LinesBefore(at, o) + l - from
    ensures LinesFrom(scale, poolSize, at, from, end)[k] == LineAt(scale, poolSize, o, l)
    decreases end - at, LineCount(at) - from
  {
    hide LineAt, LineCount;
    if k == 0 {
      o, l := at, from;
    } else if from + 1 < LineCount(at) {
      o, l := EveryLineHasAPlace(scale, poolSize, at, from + 1, end, k - 1);
    } else {
      assert 0 < LineCount(at + 1) by {
        SomeLine(at + 1);
      }
      o, l := EveryLineHasAPlace(scale, poolSize, at + 1, 0, end, k - 1);
      LinesFromFirst(at, o);
    }
  }

  /**
   In every row: the flag is R or A for a line received in the past and N for any other, the status F for a line
   shipped in the past and O for any other; so a line that carries a return flag is shipped.
   */
  lemma FlagsAndStatus(scale: Scale, poolSize: nat, start: nat, end: nat, k: nat)
    requires scale.Supported() && poolSize < TWO31 && k < |Lines(scale, poolSize, start, end)|
    ensures var line := Lines(scale, poolSize, start, end)[k];
            && (if IsInPast(line.receiptDate) then line.returnFlag == "R" || line.returnFlag == "A"
                else line.returnFlag == "N")
            && line.lineStatus == (if IsInPast(line.shipDate) then "F" else "O")
            && (line.returnFlag != "N" ==> line.lineStatus == "F")
  {
    hide LineAt, LineCount, LinesFrom, IsInPast, KeysHold, AmountsHold, Scaled, DrawSeed;
    assert 0 < LineCount(start) by {
      SomeLine(start);
    }
    var o, l := EveryLineHasAPlace(scale, poolSize, start, 0, end, k);
    LineAtHolds(scale, poolSize, o, l);
    LineInRange(scale, o, l);
    var line := LineAt(scale, poolSize, o, l);
    InPastIsThreshold(line.receiptDate);
    InPastIsThreshold(line.shipDate);
    ReceivedLater(o, l, line);
  }

  lemma ReceivedLater(o: nat, l: nat, line: Line)
    requires DatesHold(o, l, line)
    ensures line.shipDate < line.receiptDate
  {
    hide Sample;
    SampleIsScaled(RECEIPT_DATE, o, l, 1, 30);
    SampleInRange(RECEIPT_DATE, o, l, 1, 30);
  }
}
