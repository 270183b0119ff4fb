/**
 The 32-bit column streams: a Lehmer generator with a budget of draws per row.

 `Stream` is the value of a RowRandomInt object, which other objects hold by value and copy; the class below
 is the object, with each method proved to do to its fields what the function of the same purpose does to
 the value.
 */
module Lehmer {
  import opened CInt

  const MULTIPLIER: int := 16807
  const MODULUS: int := 0x7fff_ffff
  /** The inverse of the multiplier. */
  const INVERSE: int := 1407677000

  predicate IsSeed(s: int) {
    0 <= s < MODULUS
  }

  // ---------------------------------------------------------------- one draw, many draws

  function NextSeed(s: int): (r: int)
    ensures IsSeed(r)
  {
    s * MULTIPLIER % MODULUS
  }

  /** The seed after n draws. */
  function SeedAfter(s: int, n: nat): (r: int)
    ensures IsSeed(s) ==> IsSeed(r)
  {
    if n == 0 then s else NextSeed(SeedAfter(s, n - 1))
  }

  lemma {:induction false} SeedAfterSum(s: int, a: nat, b: nat)
    ensures SeedAfter(s, a + b) == SeedAfter(SeedAfter(s, a), b)
    decreases b
  {
    if b > 0 {
      SeedAfterSum(s, a, b - 1);
    }
  }

  /** A draw can be undone, so two seeds never meet, and a seed that is not 0 never becomes 0. */
  lemma Undo(s: int)
    requires IsSeed(s)
    ensures NextSeed(s) * INVERSE % MODULUS == s
    ensures NextSeed(s) == 0 <==> s == 0
  {
    var q := s * MULTIPLIER / MODULUS;
    assert NextSeed(s) * INVERSE == (11017 * s - q * INVERSE) * MODULUS + s;
    AddMultiple(11017 * s - q * INVERSE, s);
  }

  lemma {:induction false} NeverZero(s: int, n: nat)
    requires 1 <= s < MODULUS
    ensures 1 <= SeedAfter(s, n) < MODULUS
  {
    if n > 0 {
      NeverZero(s, n - 1);
      Undo(SeedAfter(s, n - 1));
    }
  }

  // ---------------------------------------------------------------- square and multiply

  /** n multiplications of s by m, each reduced. */
  function Times(m: int, n: nat, s: int): int {
    if n == 0 then s else m * Times(m, n - 1, s) % MODULUS
  }

  lemma {:induction false} DrawsAreTimes(s: int, n: nat)
    ensures SeedAfter(s, n) == Times(MULTIPLIER, n, s)
  {
    if n > 0 {
      DrawsAreTimes(s, n - 1);
    }
  }

  lemma ReduceFactor(a: int, b: int)
    ensures a * (b % MODULUS) % MODULUS == a * b % MODULUS
  {
    var q, r := b / MODULUS, b % MODULUS;
    assert a * b == (a * q) * MODULUS + a * r by {
      assert b == q * MODULUS + r;
    }
    AddMultiple(a * q, a * r);
  }

  lemma AddMultiple(k: int, y: int)
    ensures (k * MODULUS + y) % MODULUS == y % MODULUS
  {
  }

  /** Two reduced factors in a row are one reduced product. */
  lemma TwoFactors(a: int, b: int, x: int)
    ensures a * (b * x % MODULUS) % MODULUS == (a * b % MODULUS) * x % MODULUS
  {
    ReduceFactor(a, b * x);
    ReduceFactor(x, a * b);
    assert a * (b * x) == x * (a * b);
    assert (a * b % MODULUS) * x == x * (a * b % MODULUS);
  }

  lemma {:induction false} TimesFirst(m: int, n: nat, s: int)
    requires n > 0
    ensures Times(m, n, s) == Times(m, n - 1, m * s % MODULUS)
  {
    if n > 1 {
      TimesFirst(m, n - 1, s);
    }
  }

  lemma {:induction false} TimesSquare(m: int, k: nat, s: int)
    ensures Times(m, 2 * k, s) == Times(m * m % MODULUS, k, s)
  {
    if k > 0 {
      TimesSquare(m, k - 1, s);
      var x := Times(m, 2 * k - 2, s);
      assert Times(m, 2 * k, s) == m * Times(m, 2 * k - 1, s) % MODULUS;
      assert Times(m, 2 * k - 1, s) == m * x % MODULUS;
      TwoFactors(m, m, x);
    }
  }

  lemma ProductFits(a: int, b: int)
    requires IsSeed(a) && IsSeed(b)
    ensures 0 <= a * b < 0x4000_0000_0000_0000
  {
    ProductOfNaturals(a, b);
    ProductMonotone(a, MODULUS, b);
  }

  // ---------------------------------------------------------------- values

  /** NextInt's value for the seed it has just drawn, with the quotient exact instead of in double. */
  function ValueOf(seed: int, lo: int, hi: int): (r: Int32) {
    var range := ToInt32(hi - lo + 1);
    ToInt32(lo + ToInt32(TruncDiv(seed * range, MODULUS)))
  }

  lemma QuotientBound(n: nat, range: nat)
    requires n <= (MODULUS - 1) * range
    ensures range > 0 ==> n / MODULUS < range
  {
  }

  lemma ScaledBound(seed: int, range: int)
    requires IsSeed(seed) && range >= 0
    ensures 0 <= TruncDiv(seed * range, MODULUS)
    ensures range > 0 ==> TruncDiv(seed * range, MODULUS) < range
  {
    ProductOfNaturals(seed, range);
    ProductMonotone(seed, MODULUS - 1, range);
    QuotientBound(seed * range, range);
  }

  /** Uniform scaling, inside [lo, hi], whenever the range does not wrap. */
  lemma ValueInRange(seed: int, lo: Int32, hi: Int32)
    requires IsSeed(seed) && 0 <= hi - lo < TWO31 - 1
    ensures ValueOf(seed, lo, hi) == lo + seed * (hi - lo + 1) / MODULUS
    ensures lo <= ValueOf(seed, lo, hi) <= hi
  {
    hide ToInt32, TruncDiv;
    var range := hi - lo + 1;
    ScaledBound(seed, range);
    var value := TruncDiv(seed * range, MODULUS);
    ToInt32Keeps(range);
    ToInt32Keeps(value);
    ToInt32Keeps(lo + value);
    ExactQuotient(seed, range);
  }

  lemma ExactQuotient(seed: nat, range: nat)
    ensures TruncDiv(seed * range, MODULUS) == seed * range / MODULUS
  {
    ProductOfNaturals(seed, range);
  }

  /** The range that wraps to -2^31: rounding toward zero takes exactly the seed off the lower bound. */
  lemma ValueOnWrappedRange(seed: int, lo: Int32, hi: Int32)
    requires IsSeed(seed) && hi - lo == TWO31 - 1
    ensures ValueOf(seed, lo, hi) == ToInt32(lo - seed * TWO31 / MODULUS) == ToInt32(lo - seed)
  {
    hide TruncDiv;
    assert ToInt32(hi - lo + 1) == -TWO31;
    WrappedQuotient(seed);
    ToInt32Keeps(-seed);
  }

  lemma WrappedQuotient(seed: int)
    requires IsSeed(seed)
    ensures TruncDiv(seed * -TWO31, MODULUS) == -seed
    ensures seed * TWO31 / MODULUS == seed
  {
    hide TruncDiv;
    TruncDivUnique(seed * -TWO31, MODULUS, -seed, -seed);
    WholePart(seed, seed);
  }

  lemma WholePart(q: int, r: int)
    requires 0 <= r < MODULUS
    ensures (q * MODULUS + r) / MODULUS == q
  {
  }

  /** An empty range [lo, lo - 1] has the value lo. */
  lemma ValueOnEmptyRange(seed: int, lo: Int32)
    ensures ValueOf(seed, lo, lo - 1) == lo
  {
    assert ToInt32(lo - 1 - lo + 1) == 0;
    assert seed * 0 == 0;
  }

  /** The values that lie in [lo, hi]: all of them, unless hi - lo is 2^31 - 1, and then only that of seed 0. */
  lemma ValueInRangeExactlyWhen(seed: int, lo: Int32, hi: Int32)
    requires IsSeed(seed) && 0 <= hi - lo < TWO31
    ensures lo <= ValueOf(seed, lo, hi) <= hi <==> hi - lo < TWO31 - 1 || seed == 0
  {
    if hi - lo < TWO31 - 1 {
      ValueInRange(seed, lo, hi);
    } else {
      assert ToInt32(hi - lo + 1) == -TWO31;
      assert -(seed * -TWO31) == seed * TWO31;
    }
  }

  lemma QuotientMonotone(a: int, b: int)
    requires a <= b
    ensures a / MODULUS <= b / MODULUS
  {
  }

  /** The scaling keeps the order of seeds. */
  lemma ValueMonotone(a: int, b: int, lo: Int32, hi: Int32)
    requires IsSeed(a) && IsSeed(b) && a <= b && 0 <= hi - lo < TWO31 - 1
    ensures ValueOf(a, lo, hi) <= ValueOf(b, lo, hi)
  {
    ValueInRange(a, lo, hi);
    ValueInRange(b, lo, hi);
    ProductMonotone(a, b, hi - lo + 1);
    QuotientMonotone(a * (hi - lo + 1), b * (hi - lo + 1));
  }

  // ---------------------------------------------------------------- streams

  datatype Stream = Stream(seed: int, usage: int, perRow: int) {
    function Next(): Stream {
      Stream(NextSeed(seed), usage + 1, perRow)
    }

    /** The value of the draw made last. */
    function Int(lo: int, hi: int): Int32 {
      ValueOf(seed, lo, hi)
    }

    /** The seed n draws further on. */
    function Skip(n: int): Stream {
      if n > 0 then this.(seed := SeedAfter(seed, n)) else this
    }

    function Finished(): Stream {
      Skip(perRow - usage).(usage := 0)
    }

    function Advanced(rows: int): Stream {
      (if usage != 0 then Finished() else this).Skip(perRow * rows)
    }
  }

  class RowRandomInt {
    var seed: Int64
    var usage: int
    const seedsPerRow: int

    constructor (seed: Int64, seedsPerRow: int)
      ensures Value() == Stream(seed, 0, seedsPerRow)
    {
      this.seed, usage, this.seedsPerRow := seed, 0, seedsPerRow;
    }

    ghost function Value(): Stream
      reads this
    {
      Stream(seed, usage, seedsPerRow)
    }

    method NextRand() returns (r: int)
      requires IsSeed(seed)
      modifies this
      ensures Value() == old(Value()).Next() && r == seed && IsSeed(seed)
    {
      var product: Int64 := seed * MULTIPLIER;
      seed := product % MODULUS;
      usage := usage + 1;
      r := seed;
    }

    method NextInt(lo: Int32, hi: Int32) returns (r: Int32)
      requires IsSeed(seed) && -TWO31 <= hi - lo < TWO31
      modifies this
      ensures Value() == old(Value()).Next() && r == Value().Int(lo, hi) && IsSeed(seed)
      ensures 0 <= hi - lo < TWO31 - 1 ==> lo <= r <= hi && r == lo + seed * (hi - lo + 1) / MODULUS
      ensures hi - lo == TWO31 - 1 ==> r == ToInt32(lo - seed)
      ensures hi == lo - 1 ==> r == lo
    {
      var drawn := NextRand();
      var range := ToInt32(hi - lo + 1);
      r := ToInt32(lo + ToInt32(TruncDiv(drawn * range, MODULUS)));
      if 0 <= hi - lo < TWO31 - 1 {
        ValueInRange(seed, lo, hi);
      } else if hi - lo == TWO31 - 1 {
        ValueOnWrappedRange(seed, lo, hi);
      } else if hi == lo - 1 {
        ValueOnEmptyRange(seed, lo);
      }
    }

    /** Square and multiply: the seed that `count` calls of NextRand leave. */
    method AdvanceSeed(count: Int64)
      requires IsSeed(seed)
      modifies this`seed
      ensures count >= 0 ==> seed == SeedAfter(old(seed), count)
      ensures count <= 0 ==> seed == old(seed)
      ensures IsSeed(seed)
    {
      var multiplier: Int64, remaining: Int64 := MULTIPLIER, count;
      if count >= 0 {
        DrawsAreTimes(seed, count);
      }
      while remaining > 0
        invariant IsSeed(seed) && IsSeed(multiplier)
        invariant count < 0 ==> remaining == count && seed == old(seed)
        invariant count >= 0 ==> remaining >= 0
        invariant count >= 0 ==> Times(multiplier, remaining, seed) == SeedAfter(old(seed), count)
        decreases remaining
      {
        ghost var before, was := remaining, seed;
        if remaining % 2 != 0 {
          ProductFits(multiplier, seed);
          TimesFirst(multiplier, remaining, seed);
          var product: Int64 := multiplier * seed;
          seed := product % MODULUS;
        }
        remaining := remaining / 2;
        TimesSquare(multiplier, remaining, seed);
        ProductFits(multiplier, multiplier);
        var square: Int64 := multiplier * multiplier;
        multiplier := square % MODULUS;
      }
    }

    method RowFinished()
      requires IsSeed(seed) && -TWO31 <= seedsPerRow - usage < TWO31
      modifies this
      ensures Value() == old(Value()).Finished() && IsSeed(seed)
    {
      var remaining: Int64 := seedsPerRow - usage;
      if remaining > 0 {
        AdvanceSeed(remaining);
      }
      usage := 0;
    }

    method AdvanceRows(rowCount: Int64)
      requires IsSeed(seed) && -TWO31 <= seedsPerRow - usage < TWO31
      requires -0x8000_0000_0000_0000 <= seedsPerRow * rowCount < 0x8000_0000_0000_0000
      modifies this
      ensures Value() == old(Value()).Advanced(rowCount) && IsSeed(seed)
    {
      if usage != 0 {
        RowFinished();
      }
      var count: Int64 := seedsPerRow * rowCount;
      if count > 0 {
        AdvanceSeed(count);
      }
    }
  }

  // ---------------------------------------------------------------- rows

  /** A column of a table: the seed of its stream and the number of draws each row is given. */
  datatype Column = Column(seed: int, perRow: nat)

  /** The seed at the start of a row, counting rows from 0. */
  function RowSeed(c: Column, row: nat): int {
    if row == 0 then c.seed else SeedAfter(RowSeed(c, row - 1), c.perRow)
  }

  /** The stream inside a row, after `used` of its draws. */
  function At(c: Column, row: nat, used: nat): Stream {
    Stream(SeedAfter(RowSeed(c, row), used), used, c.perRow)
  }

  function Fresh(c: Column): Stream {
    Stream(c.seed, 0, c.perRow)
  }

  lemma {:induction false} RowSeedIsSkip(c: Column, row: nat)
    ensures c.perRow * row >= 0
    ensures RowSeed(c, row) == SeedAfter(c.seed, c.perRow * row)
  {
    if row > 0 {
      RowSeedIsSkip(c, row - 1);
      assert c.perRow * row == c.perRow * (row - 1) + c.perRow;
      SeedAfterSum(c.seed, c.perRow * (row - 1), c.perRow);
    } else {
      assert c.perRow * row == 0;
    }
  }

  /** However many of a row's draws were used, RowFinished stands at the start of the next row. */
  lemma FinishedAt(c: Column, row: nat, used: nat)
    requires used <= c.perRow
    ensures At(c, row, used).Finished() == At(c, row + 1, 0)
  {
    SeedAfterSum(RowSeed(c, row), used, c.perRow - used);
  }

  /** Jumping over rows of a fresh stream is drawing them all; jumps add up. */
  lemma AdvancedAt(c: Column, row: nat)
    ensures Fresh(c).Advanced(row) == At(c, row, 0)
  {
    RowSeedIsSkip(c, row);
    assert c.perRow * row == 0 ==> SeedAfter(c.seed, 0) == c.seed;
  }

  lemma AdvancedAdds(c: Column, row: nat, used: nat, rows: nat)
    requires used <= c.perRow
    ensures At(c, row, used).Advanced(rows) == At(c, row + rows + (if used > 0 then 1 else 0), 0)
  {
    var from := if used > 0 then row + 1 else row;
    if used > 0 {
      FinishedAt(c, row, used);
    }
    RowsAhead(c, from, rows);
  }

  lemma {:induction false} RowsAhead(c: Column, row: nat, rows: nat)
    ensures c.perRow * rows >= 0
    ensures SeedAfter(RowSeed(c, row), c.perRow * rows) == RowSeed(c, row + rows)
  {
    if rows > 0 {
      RowsAhead(c, row, rows - 1);
      assert c.perRow * rows == c.perRow * (rows - 1) + c.perRow;
      SeedAfterSum(RowSeed(c, row), c.perRow * (rows - 1), c.perRow);
    } else {
      assert c.perRow * rows == 0;
    }
  }

  function Draws(s: Stream, n: nat): Stream {
    if n == 0 then s else Draws(s, n - 1).Next()
  }

  /** Whole rows, each closed by RowFinished; row i makes draws[i] draws. */
  function RunRows(s: Stream, draws: seq<nat>): Stream
    decreases |draws|
  {
    if draws == [] then s else RunRows(Draws(s, draws[0]).Finished(), draws[1..])
  }

  lemma {:induction false} DrawsAt(c: Column, row: nat, n: nat)
    ensures Draws(At(c, row, 0), n) == At(c, row, n)
  {
    if n > 0 {
      DrawsAt(c, row, n - 1);
    }
  }

  /** Rows that keep to the budget leave the stream where AdvanceRows jumps to, whatever each of them drew. */
  lemma {:induction false} RowsOfAnyDraws(c: Column, row: nat, draws: seq<nat>)
    requires forall i | 0 <= i < |draws| :: draws[i] <= c.perRow
    ensures RunRows(At(c, row, 0), draws) == At(c, row, 0).Advanced(|draws|)
    decreases |draws|
  {
    AdvancedAdds(c, row, 0, |draws|);
    if draws != [] {
      DrawsAt(c, row, draws[0]);
      FinishedAt(c, row, draws[0]);
      RowsOfAnyDraws(c, row + 1, draws[1..]);
      AdvancedAdds(c, row + 1, 0, |draws| - 1);
    }
  }

  /** A row that overdraws its budget pushes every later row out of place: nothing is skipped back. */
  lemma OverdrawnRow(c: Column, row: nat, used: nat)
    requires used > c.perRow
    ensures At(c, row, used).Finished() == Stream(SeedAfter(RowSeed(c, row + 1), used - c.perRow), 0, c.perRow)
  {
    SeedAfterSum(RowSeed(c, row), c.perRow, used - c.perRow);
  }

  /** The value of draw number k of a row, counting from 0. */
  function Sample(c: Column, row: nat, k: nat, lo: int, hi: int): Int32 {
    At(c, row, k + 1).Int(lo, hi)
  }

  lemma {:induction false} RowSeedIsSeed(c: Column, row: nat)
    requires IsSeed(c.seed)
    ensures IsSeed(RowSeed(c, row))
  {
    if row > 0 {
      RowSeedIsSeed(c, row - 1);
    }
  }

  lemma SampleInRange(c: Column, row: nat, k: nat, lo: Int32, hi: Int32)
    requires IsSeed(c.seed) && 0 <= hi - lo < TWO31 - 1
    ensures lo <= Sample(c, row, k, lo, hi) <= hi
  {
    RowSeedIsSeed(c, row);
    ValueInRange(At(c, row, k + 1).seed, lo, hi);
  }
}
