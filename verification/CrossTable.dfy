/** What orders, lineitem and partsupp must agree on although each is generated on its own. */
module CrossTable {
  import opened CInt
  import opened Lehmer
  import opened Dates
  import opened Keys
  import opened Scaling
  import Distribution
  import Lineitem
  import Orders
  import PartSupp

  type Line = Lineitem.Line

  // ---------------------------------------------------------------- orders and lineitem

  /** The orders iterator replays exactly what lineitem draws for line l of order o. */
  lemma ReplayIsLineitem(scale: Scale, o: nat, l: nat)
    requires scale.Supported()
    ensures Orders.OrderDate(o) == Lineitem.OrderDate(o) && Orders.LineCount(o) == Lineitem.LineCount(o)
    ensures Orders.Quantity(o, l) == Lineitem.Quantity(o, l)
    ensures Orders.Discount(o, l) == Lineitem.Discount(o, l)
    ensures Orders.Tax(o, l) == Lineitem.Tax(o, l)
    ensures Orders.PartKey(scale, o, l) == Lineitem.PartKey(scale, o, l)
    ensures Orders.ShipDate(o, l) == Lineitem.ShipDate(o, l)
  {
    hide At, RowSeed;
    if scale.parts == 0 {
      Orders.EmptyRangeGivesOne(At(Orders.LINE_PART_KEY, o, l + 1).seed);
    }
  }

  /** The price the standard gives a line, from the columns of its row, cut to cents after each factor. */
  function RowPrice(line: Line): int {
    line.extendedPrice * (100 - line.discount) / 100 * (100 + line.tax) / 100
  }

  /** It is the exact product, less two cents and a tenth at most. */
  lemma RowPriceIsCut(line: Line)
    requires line.discount <= 100 && 0 <= line.tax <= 8
    ensures var exact := line.extendedPrice * (100 - line.discount) * (100 + line.tax);
            10000 * RowPrice(line) <= exact < 10000 * RowPrice(line) + 20800
  {
    var x, k := line.extendedPrice * (100 - line.discount), 100 + line.tax;
    var q, r := x / 100, x % 100;
    assert x == 100 * q + r;
    assert x * k == 100 * (q * k) + r * k;
    ProductMonotone(r, 99, k);
    ProductOfNaturals(r, k);
  }

  function RowTotal(lines: seq<Line>): int {
    if lines == [] then 0 else RowTotal(lines[..|lines| - 1]) + RowPrice(lines[|lines| - 1])
  }

  predicate Shipped(line: Line) {
    line.lineStatus == "F"
  }

  /** Line l's row costs what the replay added for it. */
  lemma PriceAgrees(scale: Scale, poolSize: nat, o: nat, l: nat)
    requires scale.Supported()
    ensures RowPrice(Lineitem.LineAt(scale, poolSize, o, l)) == Orders.PriceOf(scale, o, l)
  {
    hide ToInt32, PartPrice, IsInPast, Distribution.Picked, TextAt, At, Lineitem.FlagDraws, MakeOrderKey;
    hide SelectPartSupplier, Orders.Quantity, Orders.Discount, Orders.Tax;
    hide Lineitem.Quantity, Lineitem.Discount, Lineitem.Tax;
    hide Orders.PartKey, Lineitem.PartKey;
    ReplayIsLineitem(scale, o, l);
    var price, quantity := PartPrice(Orders.PartKey(scale, o, l)), Orders.Quantity(o, l);
    ProductOfNaturals(price, quantity);
    ProductMonotone(price, 209900, quantity);
    ToInt32Keeps(price * quantity);
  }

  /** The first n lines of order o. */
  function OrderLines(scale: Scale, poolSize: nat, o: nat, n: nat): (lines: seq<Line>)
    requires scale.Supported()
    ensures |lines| == n
  {
    if n == 0 then [] else OrderLines(scale, poolSize, o, n - 1) + [Lineitem.LineAt(scale, poolSize, o, n - 1)]
  }

  lemma {:induction false} LinesOfOrder(scale: Scale, poolSize: nat, o: nat, l: nat)
    requires scale.Supported() && l < Lineitem.LineCount(o)
    ensures OrderLines(scale, poolSize, o, l) + Lineitem.LinesFrom(scale, poolSize, o, l, o + 1) ==
            OrderLines(scale, poolSize, o, Lineitem.LineCount(o))
    decreases Lineitem.LineCount(o) - l
  {
    hide Lineitem.LineAt, Lineitem.LineCount;
    var rest := Lineitem.LinesFrom(scale, poolSize, o, l, o + 1);
    var line := Lineitem.LineAt(scale, poolSize, o, l);
    assert Lineitem.LinesFrom(scale, poolSize, o + 1, 0, o + 1) == [];
    assert OrderLines(scale, poolSize, o, l + 1) == OrderLines(scale, poolSize, o, l) + [line];
    if l + 1 < Lineitem.LineCount(o) {
      LinesOfOrder(scale, poolSize, o, l + 1);
      var further := Lineitem.LinesFrom(scale, poolSize, o, l + 1, o + 1);
      assert rest == [line] + further;
      assert OrderLines(scale, poolSize, o, l) + ([line] + further) ==
             (OrderLines(scale, poolSize, o, l) + [line]) + further;
    } else {
      assert rest == [line];
    }
  }

  lemma {:induction false} LinePlaces(scale: Scale, poolSize: nat, o: nat, n: nat, l: nat)
    requires scale.Supported() && l < n
    ensures OrderLines(scale, poolSize, o, n)[l] == Lineitem.LineAt(scale, poolSize, o, l)
    decreases n
  {
    hide Lineitem.LineAt;
    if l < n - 1 {
      LinePlaces(scale, poolSize, o, n - 1, l);
    }
  }

  lemma {:induction false} TotalAgrees(scale: Scale, poolSize: nat, o: nat, n: nat)
    requires scale.Supported()
    ensures RowTotal(OrderLines(scale, poolSize, o, n)) == Orders.TotalPrice(scale, o, n)
  {
    hide Lineitem.LineAt, Orders.PriceOf, RowPrice;
    if n > 0 {
      TotalAgrees(scale, poolSize, o, n - 1);
      PriceAgrees(scale, poolSize, o, n - 1);
      var lines := OrderLines(scale, poolSize, o, n);
      assert lines[..|lines| - 1] == OrderLines(scale, poolSize, o, n - 1);
    }
  }

  lemma ShippedAgrees(scale: Scale, poolSize: nat, o: nat, l: nat)
    requires scale.Supported()
    ensures Shipped(Lineitem.LineAt(scale, poolSize, o, l)) <==> IsInPast(Orders.ShipDate(o, l))
  {
    hide IsInPast, Orders.ShipDate, Lineitem.ShipDate;
    ReplayIsLineitem(scale, o, l);
  }

  ghost predicate AllShipped(lines: seq<Line>) {
    forall l | 0 <= l < |lines| :: Shipped(lines[l])
  }

  ghost predicate NoneShipped(lines: seq<Line>) {
    forall l | 0 <= l < |lines| :: !Shipped(lines[l])
  }

  lemma OneMoreLine(lines: seq<Line>, line: Line)
    ensures AllShipped(lines + [line]) <==> AllShipped(lines) && Shipped(line)
    ensures NoneShipped(lines + [line]) <==> NoneShipped(lines) && !Shipped(line)
  {
    hide Shipped;
    var more := lines + [line];
    assert more[|lines|] == line;
    assert forall l | 0 <= l < |lines| :: lines[l] == more[l];
  }

  lemma {:induction false} StatusAgrees(scale: Scale, poolSize: nat, o: nat, n: nat)
    requires scale.Supported()
    ensures Orders.ShippedCount(o, n) == n <==> AllShipped(OrderLines(scale, poolSize, o, n))
    ensures Orders.ShippedCount(o, n) == 0 <==> NoneShipped(OrderLines(scale, poolSize, o, n))
  {
    hide Lineitem.LineAt, Shipped, IsInPast;
    if n > 0 {
      StatusAgrees(scale, poolSize, o, n - 1);
      ShippedAgrees(scale, poolSize, o, n - 1);
      OneMoreLine(OrderLines(scale, poolSize, o, n - 1), Lineitem.LineAt(scale, poolSize, o, n - 1));
    }
  }

  /**
   The row of an order and the rows of its one to seven lines, each generated from any partition: the total is the
   sum of the line prices, and the status is F, O or P exactly as all, none or some of the lines are shipped.
   */
  lemma OrderAgreesWithItsLines(scale: Scale, poolSize: nat, o: nat)
    requires scale.Supported()
    ensures var order, lines := Orders.OrderAt(scale, poolSize, o), Lineitem.Lines(scale, poolSize, o, o + 1);
            && 1 <= |lines| <= 7
            && order.totalPrice == RowTotal(lines)
            && (order.orderStatus == "F" <==> AllShipped(lines))
            && (order.orderStatus == "O" <==> NoneShipped(lines))
            && (order.orderStatus == "P" <==> !AllShipped(lines) && !NoneShipped(lines))
  {
    hide Lineitem.LineAt, Shipped, IsInPast, Orders.TotalPrice, Orders.ShippedCount, RowTotal, OrderLines, ToInt32;
    hide Orders.LineCount, Lineitem.LineCount, Lineitem.LinesFrom;
    ReplayIsLineitem(scale, o, 0);
    var n := Orders.LineCount(o);
    LinesOfOrder(scale, poolSize, o, 0);
    NoLinesYet(scale, poolSize, o);
    TotalAgrees(scale, poolSize, o, n);
    StatusAgrees(scale, poolSize, o, n);
    Orders.OrderFits(scale, poolSize, o);
    var lines := Lineitem.Lines(scale, poolSize, o, o + 1);
    assert [] + lines == lines;
  }

  lemma NoLinesYet(scale: Scale, poolSize: nat, o: nat)
    requires scale.Supported()
    ensures OrderLines(scale, poolSize, o, 0) == []
  {
  }

  /** Every line has the order's key and its own number, and its dates follow the order date. */
  lemma LinesBelongToOrder(scale: Scale, poolSize: nat, o: nat, l: nat)
    requires scale.Supported() && l < |Lineitem.Lines(scale, poolSize, o, o + 1)|
    ensures var order, line := Orders.OrderAt(scale, poolSize, o), Lineitem.Lines(scale, poolSize, o, o + 1)[l];
            && line.orderKey == order.orderKey && line.lineNumber == l + 1
            && order.orderDate < line.shipDate < line.receiptDate && order.orderDate < line.commitDate
  {
    hide Lineitem.LineAt, Orders.OrderAt, Lineitem.LineCount, Lineitem.LinesFrom, OrderLines, Orders.LineCount;
    LinesOfOrder(scale, poolSize, o, 0);
    NoLinesYet(scale, poolSize, o);
    var lines := Lineitem.Lines(scale, poolSize, o, o + 1);
    assert [] + lines == lines;
    LinePlaces(scale, poolSize, o, |lines|, l);
    RowColumns(scale, poolSize, o, l);
  }

  lemma RowColumns(scale: Scale, poolSize: nat, o: nat, l: nat)
    requires scale.Supported()
    ensures var order, line := Orders.OrderAt(scale, poolSize, o), Lineitem.LineAt(scale, poolSize, o, l);
            && line.orderKey == order.orderKey && line.lineNumber == l + 1
            && order.orderDate < line.shipDate < line.receiptDate && order.orderDate < line.commitDate
  {
    hide Sample, ToInt32, Distribution.Picked, TextAt, IsInPast, Orders.TotalPrice, Orders.ShippedCount, MakeOrderKey;
    hide Lineitem.OrderDate, Orders.OrderDate, PartPrice, SelectPartSupplier, Lineitem.FlagDraws, At;
    hide Lineitem.PartKey, Lineitem.SupplierNumber, Orders.CustomerKey;
    ReplayIsLineitem(scale, o, l);
    SampleInRange(Lineitem.SHIP_DATE, o, l, 1, 121);
    SampleInRange(Lineitem.COMMIT_DATE, o, l, 30, 90);
    SampleInRange(Lineitem.RECEIPT_DATE, o, l, 1, 30);
  }

  // ---------------------------------------------------------------- lineitem and partsupp

  /** Some row of the partsupp table is for this part and supplier. */
  ghost predicate Offered(rows: seq<PartSupp.PartSupplier>, partKey: int, suppKey: int) {
    exists i :: 0 <= i < |rows| && rows[i].partKey == partKey && rows[i].suppKey == suppKey
  }

  lemma OfferedAt(scale: Scale, poolSize: nat, linePool: nat, o: nat, l: nat)
    requires scale.Supported() && scale.parts >= 1
    ensures var line := Lineitem.LineAt(scale, linePool, o, l);
            var row := PartSupp.RowAt(scale, poolSize, line.partKey - 1, Lineitem.SupplierNumber(o, l),
                                      Lineitem.SupplierNumber(o, l));
            1 <= line.partKey <= scale.parts && row.partKey == line.partKey && row.suppKey == line.suppKey
  {
    hide Sample, Distribution.Picked, TextAt, IsInPast, MakeOrderKey, Lineitem.OrderDate, PartPrice, SelectPartSupplier;
    hide Lineitem.FlagDraws, At, Lineitem.PartKey, Lineitem.SupplierNumber, ToInt32, ValueOf, SupplierOf;
    ToInt32Keeps(Lineitem.PartKey(scale, o, l));
    SupplierOfPart(Lineitem.PartKey(scale, o, l), Lineitem.SupplierNumber(o, l), scale.suppliers);
  }

  /** Every line's part and supplier are a row of partsupp, unless there are no parts at all: then none is. */
  lemma LinesAreOfferedExactlyWhen(scale: Scale, poolSize: nat, linePool: nat, o: nat, l: nat)
    requires scale.Supported()
    ensures var line := Lineitem.LineAt(scale, linePool, o, l);
            Offered(PartSupp.PartSuppRows(scale, poolSize, 0, scale.parts), line.partKey, line.suppKey) <==>
            scale.parts >= 1
  {
    hide Lineitem.LineAt, PartSupp.RowAt, PartSupp.RowsFrom;
    var line := Lineitem.LineAt(scale, linePool, o, l);
    var rows := PartSupp.PartSuppRows(scale, poolSize, 0, scale.parts);
    if scale.parts >= 1 {
      OfferedAt(scale, poolSize, linePool, o, l);
      var p, n := line.partKey - 1, Lineitem.SupplierNumber(o, l);
      PartSupp.RowPlace(scale, poolSize, 0, p, n, scale.parts);
      assert rows[PartSupp.SUPPLIERS_PER_PART * (p - 0) + n].partKey == line.partKey;
    } else {
      PartSupp.RowCountFrom(scale, poolSize, 0, 0, 0, 0);
    }
  }
}
