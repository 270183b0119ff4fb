/**
 Random access to the column streams: which draw of a column's whole stream a value comes from, and what it is,
 written with the seed of that draw and exact quotients only.
 */
module Columns {
  import opened CInt
  import opened Lehmer
  import opened Distribution
  import opened Scaling

  /** The seed after the first n draws of the column. */
  function DrawSeed(c: Column, n: int): int
    requires n >= 0
  {
    SeedAfter(c.seed, n)
  }

  /** A seed scaled to [lo, hi]. */
  function Scaled(seed: int, lo: int, hi: int): int {
    lo + seed * (hi - lo + 1) / MODULUS
  }

  /** The seed lies in the token's own share of the weights. */
  ghost predicate Picks(dist: seq<Entry>, seed: int, token: string) {
    exists i: nat :: i < |dist| && dist[i].token == token &&
                     Weight(dist, i) * MODULUS <= seed * TotalWeight(dist) < Weight(dist, i + 1) * MODULUS
  }

  lemma AtSeed(c: Column, row: nat, used: nat)
    ensures c.perRow * row >= 0
    ensures At(c, row, used).seed == DrawSeed(c, c.perRow * row + used)
  {
    RowSeedIsSkip(c, row);
    SeedAfterSum(c.seed, c.perRow * row, used);
  }

  /** Value number k of a row, counting from 0. */
  lemma SampleIsScaled(c: Column, row: nat, k: nat, lo: Int32, hi: Int32)
    requires IsSeed(c.seed) && 0 <= hi - lo < TWO31 - 1
    ensures c.perRow * row >= 0
    ensures Sample(c, row, k, lo, hi) == Scaled(DrawSeed(c, c.perRow * row + k + 1), lo, hi)
  {
    hide ValueOf, SeedAfter;
    RowSeedIsSeed(c, row);
    AtSeed(c, row, k + 1);
    AtIsSeed(c, row, k + 1);
    ValueInRange(At(c, row, k + 1).seed, lo, hi);
  }

  lemma AtIsSeed(c: Column, row: nat, used: nat)
    requires IsSeed(c.seed)
    ensures IsSeed(At(c, row, used).seed)
  {
    RowSeedIsSeed(c, row);
  }

  lemma PickedIs(dist: seq<Entry>, c: Column, row: nat, used: nat)
    requires Weighted(dist) && IsSeed(c.seed)
    ensures c.perRow * row >= 0 && dist != []
    ensures Picks(dist, DrawSeed(c, c.perRow * row + used), Picked(dist, At(c, row, used)))
  {
    hide Picked;
    AtSeed(c, row, used);
    AtIsSeed(c, row, used);
    var i := PickedBySeed(dist, At(c, row, used));
  }

  /** A text value: its place in the pool and its length from two draws in a row, or no text at all. */
  ghost predicate TextIs(c: Column, draw: int, poolSize: nat, minLength: nat, maxLength: nat, text: Text)
    requires draw >= 0
  {
    if poolSize <= maxLength then text == Text(0, 0)
    else
      && text.begin == Scaled(DrawSeed(c, draw + 1), 0, poolSize - maxLength)
      && text.count == Scaled(DrawSeed(c, draw + 2), minLength, maxLength)
  }

  lemma TextAtIs(c: Column, row: nat, used: nat, poolSize: nat, minLength: nat, maxLength: nat)
    requires IsSeed(c.seed) && poolSize < TWO31 && 0 < minLength <= maxLength < TWO31
    ensures c.perRow * row >= 0
    ensures TextIs(c, c.perRow * row + used, poolSize, minLength, maxLength,
                   TextAt(c, row, used, poolSize, minLength, maxLength))
  {
    hide Sample, DrawSeed, Scaled;
    AtSeed(c, row, used);
    if poolSize > maxLength {
      SampleIsScaled(c, row, used, 0, poolSize - maxLength);
      SampleIsScaled(c, row, used + 1, minLength, maxLength);
    }
  }
}
