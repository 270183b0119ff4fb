/** Splitting row indices into partitions: the ranges of parts 1..N tile [0, total). */
module Partition {
  import opened Wrappers

  /** [start, end). */
  datatype Range = Range(start: nat, end: nat)

  datatype PartitionPlan = PartitionPlan(range: Range, partNum: int, partCount: int)

  datatype Error = PartCountTooSmall | PartOutOfRange

  datatype Validated<T> = Ok(value: T) | Invalid(error: Error)

  function ValidatePart(partNum: int, partCount: int): (error: Option<Error>)
    ensures error.None? <==> 1 <= partNum <= partCount
  {
    if partCount < 1 then Some(PartCountTooSmall)
    else if partNum < 1 || partNum > partCount then Some(PartOutOfRange)
    else None
  }

  /** CalculateRowCount for a valid part; the last part also takes the remainder. */
  function RowCount(total: nat, partNum: int, partCount: int): nat
    requires 1 <= partNum <= partCount
  {
    total / partCount + if partNum == partCount then total % partCount else 0
  }

  /** CalculateStartIndex for a valid part. */
  function StartIndex(total: nat, partNum: int, partCount: int): (start: nat)
    requires 1 <= partNum <= partCount
    ensures partNum == 1 ==> start == 0
  {
    ProductIsNatural(total / partCount, partNum - 1);
    total / partCount * (partNum - 1)
  }

  lemma {:induction false} ProductIsNatural(a: nat, b: nat)
    ensures a * b >= 0
  {
    if b > 0 {
      ProductIsNatural(a, b - 1);
      assert a * b == a * (b - 1) + a;
    }
  }

  function MakePartitionRange(total: nat, partNum: int, partCount: int): (range: Validated<Range>)
    ensures range.Ok? <==> 1 <= partNum <= partCount
    ensures range.Ok? ==> range.value.start == total / partCount * (partNum - 1)
    ensures range.Ok? ==> range.value.end == if partNum == partCount then total else total / partCount * partNum
  {
    assert partCount >= 1 ==> total == total / partCount * partCount + total % partCount;
    assert partCount >= 1 ==> total / partCount * partNum == total / partCount * (partNum - 1) + total / partCount;
    var error := ValidatePart(partNum, partCount);
    if error.Some? then Invalid(error.value)
    else
      var start := StartIndex(total, partNum, partCount);
      Ok(Range(start, start + RowCount(total, partNum, partCount)))
  }

  function RangeOf(total: nat, partNum: int, partCount: int): Range
    requires 1 <= partNum <= partCount
  {
    MakePartitionRange(total, partNum, partCount).value
  }

  /** None stands for the exception that reserving a negative size throws. */
  method BuildPartitionPlans(total: nat, partCount: int) returns (plans: Option<seq<PartitionPlan>>)
    ensures plans.Some? <==> partCount >= 0
    ensures plans.Some? ==>
              && |plans.value| == partCount
              && forall i | 0 <= i < partCount ::
                   plans.value[i] == PartitionPlan(RangeOf(total, i + 1, partCount), i + 1, partCount)
  {
    if partCount < 0 {
      return None;
    }
    var built: seq<PartitionPlan> := [];
    var part := 1;
    while part <= partCount
      invariant 1 <= part <= partCount + 1 && |built| == part - 1
      invariant forall i | 0 <= i < |built| ::
                  built[i] == PartitionPlan(RangeOf(total, i + 1, partCount), i + 1, partCount)
    {
      built := built + [PartitionPlan(RangeOf(total, part, partCount), part, partCount)];
      part := part + 1;
    }
    plans := Some(built);
  }

  // ---------------------------------------------------------------- tiling

  /** Each part starts where the one before it ended, the first at 0, and the last ends at total. */
  lemma RangesTile(total: nat, p: int, partCount: int)
    requires 1 <= p <= partCount
    ensures RangeOf(total, 1, partCount).start == 0
    ensures RangeOf(total, p, partCount).start <= RangeOf(total, p, partCount).end
    ensures RangeOf(total, p, partCount).end ==
            if p == partCount then total else RangeOf(total, p + 1, partCount).start
  {
    var rows := total / partCount;
    assert total == rows * partCount + total % partCount;
    assert rows * p == rows * (p - 1) + rows;
  }

  lemma {:induction false} StartsAscend(total: nat, p: int, q: int, partCount: int)
    requires 1 <= p < q <= partCount
    ensures RangeOf(total, p, partCount).end <= RangeOf(total, q, partCount).start
    ensures RangeOf(total, q, partCount).end <= total
    decreases q - p
  {
    RangesTile(total, p, partCount);
    if p + 1 < q {
      StartsAscend(total, p + 1, q, partCount);
      RangesTile(total, p + 1, partCount);
    } else {
      EndsBelow(total, q, partCount);
    }
  }

  lemma {:induction false} EndsBelow(total: nat, q: int, partCount: int)
    requires 1 <= q <= partCount
    ensures RangeOf(total, q, partCount).end <= total
    decreases partCount - q
  {
    RangesTile(total, q, partCount);
    if q < partCount {
      EndsBelow(total, q + 1, partCount);
      RangesTile(total, q + 1, partCount);
    }
  }

  predicate Contains(range: Range, row: nat) {
    range.start <= row < range.end
  }

  /** Every row below total is in some part ... */
  lemma {:induction false} EveryRowHasAPart(total: nat, row: nat, q: int, partCount: int) returns (p: int)
    requires 1 <= q <= partCount && row < total && row >= RangeOf(total, q, partCount).start
    ensures q <= p <= partCount && Contains(RangeOf(total, p, partCount), row)
    decreases partCount - q
  {
    RangesTile(total, q, partCount);
    if row < RangeOf(total, q, partCount).end {
      p := q;
    } else {
      p := EveryRowHasAPart(total, row, q + 1, partCount);
    }
  }

  /** ... and in no other. */
  lemma OnlyOnePart(total: nat, row: nat, p: int, q: int, partCount: int)
    requires 1 <= p <= partCount && 1 <= q <= partCount
    requires Contains(RangeOf(total, p, partCount), row) && Contains(RangeOf(total, q, partCount), row)
    ensures p == q
  {
    if p < q {
      StartsAscend(total, p, q, partCount);
    } else if q < p {
      StartsAscend(total, q, p, partCount);
    }
  }

  // ---------------------------------------------------------------- tables

  /** What a table yields for a range of its rows; two adjacent ranges yield what the joined range yields. */
  ghost predicate Additive<T(!new)>(rows: (nat, nat) -> seq<T>) {
    forall a: nat, b: nat, c: nat | a <= b <= c :: rows(a, b) + rows(b, c) == rows(a, c)
  }

  /** The rows of parts 1..n of partCount, one after the other. */
  function Partitioned<T>(rows: (nat, nat) -> seq<T>, total: nat, n: nat, partCount: int): seq<T>
    requires n <= partCount
  {
    if n == 0 then []
    else
      var range := RangeOf(total, n, partCount);
      Partitioned(rows, total, n - 1, partCount) + rows(range.start, range.end)
  }

  lemma {:induction false} PartitionedPrefix<T(!new)>(rows: (nat, nat) -> seq<T>, total: nat, n: nat, partCount: int)
    requires Additive(rows) && 1 <= n <= partCount
    ensures Partitioned(rows, total, n, partCount) == rows(0, RangeOf(total, n, partCount).end)
  {
    RangesTile(total, n, partCount);
    var range := RangeOf(total, n, partCount);
    if n > 1 {
      PartitionedPrefix(rows, total, n - 1, partCount);
      RangesTile(total, n - 1, partCount);
      assert rows(0, range.start) + rows(range.start, range.end) == rows(0, range.end);
    }
  }

  /** Generating parts 1..N and putting them together yields the un-partitioned table. */
  lemma PartitionsMakeTheTable<T(!new)>(rows: (nat, nat) -> seq<T>, total: nat, partCount: int)
    requires Additive(rows) && 1 <= partCount
    ensures Partitioned(rows, total, partCount, partCount) == rows(0, total)
  {
    PartitionedPrefix(rows, total, partCount, partCount);
    RangesTile(total, partCount, partCount);
  }
}
