/** What every column of every orders row is, and at which place of the output the row stands. */
module OrderColumns {
  import opened CInt
  import opened Lehmer
  import opened Keys
  import opened Distribution
  import opened Scaling
  import opened Columns
  import opened Orders

  /** Every third key is skipped: the customer is the drawn one, or else the next, of the last the one before. */
  ghost predicate CustomerHolds(drawn: int, customers: int, key: int) {
    key == if drawn % 3 != 0 then drawn else if drawn < customers then drawn + 1 else drawn - 1
  }

  /** The columns of order o that do not depend on its lines: one draw each. */
  ghost predicate OrderHolds(scale: Scale, poolSize: nat, o: nat, order: Order) {
    && order.orderKey == ToInt32(32 * ((o + 1) / 8) + (o + 1) % 8)
    && CustomerHolds(Scaled(DrawSeed(CUSTOMER_KEY, o + 1), 1, scale.customers), scale.customers, order.custKey)
    && order.orderDate == Scaled(DrawSeed(ORDER_DATE, o + 1), 92001, 94406)
    && Picks(ORDER_PRIORITIES, DrawSeed(ORDER_PRIORITY, o + 1), order.orderPriority)
    && order.clerk == Scaled(DrawSeed(CLERK, o + 1), 1, scale.clerks)
    && order.shipPriority == 0
    && TextIs(COMMENT, 2 * o, poolSize, 19, 78, order.comment)
  }

  lemma Priorities()
    ensures Weighted(ORDER_PRIORITIES) && TotalWeight(ORDER_PRIORITIES) == 5
  {
    assert Weight(ORDER_PRIORITIES, 2) == 2;
    assert Weight(ORDER_PRIORITIES, 5) == 5;
  }

  lemma CustomerAt(scale: Scale, o: nat)
    requires scale.Supported()
    ensures CustomerHolds(Scaled(DrawSeed(CUSTOMER_KEY, o + 1), 1, scale.customers), scale.customers,
                          ToInt32(CustomerKey(scale, o)))
  {
    hide Sample, Scaled, DrawSeed, ToInt32, LivingCustomer;
    SampleIsScaled(CUSTOMER_KEY, o, 0, 1, scale.customers);
    SampleInRange(CUSTOMER_KEY, o, 0, 1, scale.customers);
    LivingCustomerIsValid(Sample(CUSTOMER_KEY, o, 0, 1, scale.customers), scale.customers);
    ToInt32Keeps(CustomerKey(scale, o));
  }

  lemma KeyAt(o: nat)
    ensures MakeOrderKey(o + 1) == 32 * ((o + 1) / 8) + (o + 1) % 8
  {
    hide MakeOrderKey;
    OrderKeyRoundTrip(o + 1, 0);
  }

  lemma OrderAtHolds(scale: Scale, poolSize: nat, o: nat)
    requires scale.Supported() && poolSize < TWO31
    ensures OrderHolds(scale, poolSize, o, OrderAt(scale, poolSize, o))
  {
    hide Sample, Scaled, DrawSeed, ToInt32, MakeOrderKey, CustomerKey, Picked, TextAt, TextIs, TotalPrice, ShippedCount;
    hide LineCount, CustomerHolds, Picks, Weighted, At;
    KeyAt(o);
    CustomerAt(scale, o);
    Priorities();
    PickedIs(ORDER_PRIORITIES, ORDER_PRIORITY, o, 1);
    SampleIsScaled(ORDER_DATE, o, 0, 92001, 94406);
    SampleIsScaled(CLERK, o, 0, 1, scale.clerks);
    TextAtIs(COMMENT, o, 0, poolSize, COMMENT_MIN, COMMENT_MAX);
  }

  /** Row k of the range is order start + k, and the range has no other rows. */
  lemma {:induction false} OrderPlace(scale: Scale, poolSize: nat, start: nat, end: nat, k: nat)
    requires scale.Supported() && start <= end
    ensures |OrderRows(scale, poolSize, start, end)| == end - start
    ensures k < end - start ==> OrderRows(scale, poolSize, start, end)[k] == OrderAt(scale, poolSize, start + k)
    decreases end - start
  {
    hide OrderAt;
    if start < end {
      OrderPlace(scale, poolSize, start + 1, end, if k > 0 then k - 1 else 0);
    }
  }

  /** Every row of the table, by its place. */
  lemma RowHolds(scale: Scale, poolSize: nat, start: nat, end: nat, k: nat)
    requires scale.Supported() && poolSize < TWO31 && start + k < end
    ensures k < |OrderRows(scale, poolSize, start, end)|
    ensures OrderHolds(scale, poolSize, start + k, OrderRows(scale, poolSize, start, end)[k])
  {
    hide OrderAt, OrderHolds, OrderRows;
    OrderPlace(scale, poolSize, start, end, k);
    OrderAtHolds(scale, poolSize, start + k);
  }
}
