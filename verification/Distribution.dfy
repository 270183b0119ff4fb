/** Weighted token tables: picking one token, and the shuffle that picks several different ones. */
module Distribution {
  import opened CInt
  import opened Lehmer

  datatype Entry = Entry(token: string, weight: int)

  const RETURN_FLAGS: seq<Entry> := [Entry("R", 1), Entry("A", 1)]
  const SHIP_INSTRUCTIONS: seq<Entry> :=
    [Entry("DELIVER IN PERSON", 1), Entry("COLLECT COD", 1), Entry("TAKE BACK RETURN", 1), Entry("NONE", 1)]
  const SHIP_MODES: seq<Entry> :=
    [Entry("REG AIR", 1), Entry("AIR", 1), Entry("RAIL", 1), Entry("TRUCK", 1), Entry("MAIL", 1), Entry("FOB", 1),
     Entry("SHIP", 1)]
  const ORDER_PRIORITIES: seq<Entry> :=
    [Entry("1-URGENT", 1), Entry("2-HIGH", 1), Entry("3-MEDIUM", 1), Entry("4-NOT SPECIFIED", 1), Entry("5-LOW", 1)]

  // ---------------------------------------------------------------- one token

  /** The weights of the first n entries, added up. */
  function Weight(dist: seq<Entry>, n: nat): int
    requires n <= |dist|
  {
    if n == 0 then 0 else Weight(dist, n - 1) + dist[n - 1].weight
  }

  function TotalWeight(dist: seq<Entry>): int {
    Weight(dist, |dist|)
  }

  /** The first entry from i on whose cumulative weight exceeds the sample, or else the last. */
  function PickIndex(dist: seq<Entry>, sample: int, i: nat): (picked: nat)
    requires i <= |dist| && dist != []
    ensures picked < |dist|
    decreases |dist| - i
  {
    if i == |dist| then |dist| - 1
    else if sample < Weight(dist, i + 1) then i
    else PickIndex(dist, sample, i + 1)
  }

  /** The token for the draw made last. */
  function Picked(dist: seq<Entry>, random: Stream): string
    requires dist != []
  {
    dist[PickIndex(dist, random.Int(0, TotalWeight(dist) - 1), 0)].token
  }

  method PickToken(dist: seq<Entry>, random: RowRandomInt) returns (token: string)
    requires dist != [] && IsSeed(random.seed) && -TWO31 <= TotalWeight(dist) - 1 < TWO31
    modifies random
    ensures random.Value() == old(random.Value()).Next() && IsSeed(random.seed)
    ensures token == Picked(dist, random.Value())
  {
    var sample := random.NextInt(0, TotalWeight(dist) - 1);
    var cumulative := 0;
    var i := 0;
    while i < |dist|
      invariant 0 <= i <= |dist| && cumulative == Weight(dist, i)
      invariant PickIndex(dist, sample, i) == PickIndex(dist, sample, 0)
    {
      cumulative := cumulative + dist[i].weight;
      if sample < cumulative {
        return dist[i].token;
      }
      i := i + 1;
    }
    token := dist[|dist| - 1].token;
  }

  lemma {:induction false} WeightGrows(dist: seq<Entry>, i: nat, j: nat)
    requires i <= j <= |dist| && forall k | 0 <= k < |dist| :: dist[k].weight >= 0
    ensures Weight(dist, i) <= Weight(dist, j)
    decreases j
  {
    if i < j {
      WeightGrows(dist, i, j - 1);
    }
  }

  lemma {:induction false} PickedFrom(dist: seq<Entry>, sample: int, i: nat)
    requires i <= |dist| && dist != [] && Weight(dist, i) <= sample < TotalWeight(dist)
    ensures var picked := PickIndex(dist, sample, i);
            i <= picked < |dist| && Weight(dist, picked) <= sample < Weight(dist, picked + 1)
    decreases |dist| - i
  {
    if i < |dist| && sample >= Weight(dist, i + 1) {
      PickedFrom(dist, sample, i + 1);
    }
  }

  /** A token is picked for exactly as many samples as its weight says: those of its own cumulative interval. */
  lemma PickedExactlyWhen(dist: seq<Entry>, sample: int, i: nat)
    requires i < |dist| && 0 <= sample < TotalWeight(dist)
    requires forall k | 0 <= k < |dist| :: dist[k].weight >= 0
    ensures PickIndex(dist, sample, 0) == i <==> Weight(dist, i) <= sample < Weight(dist, i + 1)
  {
    PickedFrom(dist, sample, 0);
    var picked := PickIndex(dist, sample, 0);
    if i < picked {
      WeightGrows(dist, i + 1, picked);
    } else if picked < i {
      WeightGrows(dist, picked + 1, i);
    }
  }

  predicate Weighted(dist: seq<Entry>) {
    0 < TotalWeight(dist) < TWO31 && forall k | 0 <= k < |dist| :: dist[k].weight >= 0
  }

  /** Seed s picks the entry whose cumulative interval, scaled to the modulus, holds it; every seed picks one. */
  lemma PickedBySeed(dist: seq<Entry>, random: Stream) returns (i: nat)
    requires Weighted(dist) && IsSeed(random.seed)
    ensures i < |dist| && Picked(dist, random) == dist[i].token
    ensures Weight(dist, i) * MODULUS <= random.seed * TotalWeight(dist) < Weight(dist, i + 1) * MODULUS
    ensures forall j: nat | j < |dist| &&
              Weight(dist, j) * MODULUS <= random.seed * TotalWeight(dist) < Weight(dist, j + 1) * MODULUS :: j == i
  {
    hide PickIndex, ValueOf;
    var total, seed := TotalWeight(dist), random.seed;
    ValueInRange(seed, 0, total - 1);
    var sample := random.Int(0, total - 1);
    Quotient(seed * total, sample);
    PickedFrom(dist, sample, 0);
    i := PickIndex(dist, sample, 0);
    forall j: nat | j < |dist| && Weight(dist, j) * MODULUS <= seed * total < Weight(dist, j + 1) * MODULUS
      ensures j == i
    {
      PickedExactlyWhen(dist, sample, j);
    }
  }

  lemma Quotient(x: int, q: int)
    requires q == x / MODULUS
    ensures q * MODULUS <= x < q * MODULUS + MODULUS
    ensures forall w: int :: w * MODULUS <= x <==> w <= q
  {
  }

  // ---------------------------------------------------------------- several tokens

  function Tokens(dist: seq<Entry>): (tokens: seq<string>)
    ensures |tokens| == |dist| && forall i | 0 <= i < |dist| :: tokens[i] == dist[i].token
  {
    seq(|dist|, i requires 0 <= i < |dist| => dist[i].token)
  }

  /** The tokens at i and j change places, the others stay. */
  function Swap(s: seq<string>, i: nat, j: nat): (r: seq<string>)
    requires i < |s| && j < |s|
    ensures |r| == |s| && multiset(r) == multiset(s)
    ensures r[i] == s[j] && r[j] == s[i] && forall k | 0 <= k < |s| && k != i && k != j :: r[k] == s[k]
  {
    SwapPermutes(s, i, j);
    s[i := s[j]][j := s[i]]
  }

  lemma SwapPermutes(s: seq<string>, i: nat, j: nat)
    requires i < |s| && j < |s|
    ensures multiset(s[i := s[j]][j := s[i]]) == multiset(s)
  {
  }

  predicate Shuffles(s: seq<string>, random: Stream) {
    |s| < TWO31 && IsSeed(random.seed)
  }

  /** Each place from current to limit is swapped with a drawn place that is not before it. */
  function Shuffled(s: seq<string>, random: Stream, current: nat, limit: nat): (r: seq<string>)
    requires Shuffles(s, random) && current <= limit <= |s|
    ensures |r| == |s| && r[..current] == s[..current]
    decreases limit - current
  {
    if current == limit then s
    else
      hide ValueOf, Swap, NextSeed;
      var next := random.Next();
      DrawnInRange(next, current, |s|);
      Shuffled(Swap(s, current, next.Int(current, |s| - 1)), next, current + 1, limit)
  }

  lemma DrawnInRange(random: Stream, current: nat, size: nat)
    requires IsSeed(random.seed) && current < size < TWO31
    ensures current <= random.Int(current, size - 1) < size
  {
    hide ValueOf;
    ValueInRange(random.seed, current, size - 1);
  }

  lemma ShuffleStep(s: seq<string>, random: Stream, current: nat, limit: nat)
    requires Shuffles(s, random) && current < limit <= |s|
    ensures Shuffles(s, random.Next()) && current <= random.Next().Int(current, |s| - 1) < |s|
    ensures var swapped := Swap(s, current, random.Next().Int(current, |s| - 1));
            Shuffles(swapped, random.Next()) &&
            Shuffled(s, random, current, limit) == Shuffled(swapped, random.Next(), current + 1, limit)
  {
    ValueInRange(random.Next().seed, current, |s| - 1);
  }

  /** One place is swapped with a drawn place that is not before it. */
  method SwapDrawn(values: array<string>, current: nat, random: RowRandomInt)
    requires IsSeed(random.seed) && current < values.Length < TWO31
    modifies values, random
    ensures IsSeed(random.seed) && random.Value() == old(random.Value()).Next()
    ensures current <= random.Value().Int(current, values.Length - 1) < values.Length
    ensures var drawn := random.Value().Int(current, values.Length - 1);
            && values[current] == old(values[drawn]) && values[drawn] == old(values[current])
            && forall k | 0 <= k < values.Length && k != current && k != drawn :: values[k] == old(values[k])
    ensures values[..] == Swap(old(values[..]), current, random.Value().Int(current, values.Length - 1))
  {
    hide ValueOf, NextSeed;
    var swapWith := random.NextInt(current, values.Length - 1);
    values[current], values[swapWith] := values[swapWith], values[current];
  }

  method ShuffleInPlace(values: array<string>, limit: nat, random: RowRandomInt)
    requires IsSeed(random.seed) && limit <= values.Length < TWO31
    modifies values, random
    ensures IsSeed(random.seed) && random.Value() == Draws(old(random.Value()), limit)
    ensures values[..] == Shuffled(old(values[..]), old(random.Value()), 0, limit)
  {
    hide Swap, ValueOf, NextSeed, Shuffled;
    ghost var start, was := random.Value(), values[..];
    var current := 0;
    while current < limit
      invariant 0 <= current <= limit && IsSeed(random.seed)
      invariant random.Value() == Draws(start, current)
      invariant Shuffled(values[..], random.Value(), current, limit) == Shuffled(was, start, 0, limit)
    {
      ShuffleStep(values[..], random.Value(), current, limit);
      SwapDrawn(values, current, random);
      current := current + 1;
    }
    ShuffleDone(values[..], random.Value(), limit);
  }

  lemma ShuffleDone(s: seq<string>, random: Stream, limit: nat)
    requires Shuffles(s, random) && limit <= |s|
    ensures Shuffled(s, random, limit, limit) == s
  {
  }

  /** NextValue of a token sequence: all tokens, shuffled up to count and cut there. */
  method NextSequence(dist: seq<Entry>, count: int, random: RowRandomInt) returns (values: seq<string>)
    requires IsSeed(random.seed) && |dist| < TWO31
    modifies random
    ensures IsSeed(random.seed)
    ensures count <= 0 || dist == [] ==> values == [] && random.Value() == old(random.Value())
    ensures count > 0 && dist != [] ==>
              var limit := if count < |dist| then count else |dist|;
              && values == Shuffled(Tokens(dist), old(random.Value()), 0, limit)[..limit]
              && random.Value() == Draws(old(random.Value()), limit)
  {
    if dist == [] || count <= 0 {
      return [];
    }
    hide Shuffled, NextSeed;
    var a := new string[|dist|](i requires 0 <= i < |dist| => dist[i].token);
    assert a[..] == Tokens(dist);
    var limit := if count < |dist| then count else |dist|;
    ShuffleInPlace(a, limit, random);
    values := a[..limit];
    assert values == a[..][..limit];
  }

  // ---------------------------------------------------------------- which token stands where

  /** The place drawn for place n of a sequence of `size` tokens. */
  function DrawnPlace(random: Stream, size: nat, n: nat): (place: nat)
    requires IsSeed(random.seed) && n < size < TWO31
    ensures n <= place < size
  {
    ValueInRange(Draws(random, n + 1).seed, n, size - 1);
    Draws(random, n + 1).Int(n, size - 1)
  }

  /** Where in the table the token comes from that stands at `place` once places 0 to n - 1 have been swapped. */
  function Origin(random: Stream, size: nat, n: nat, place: nat): (origin: nat)
    requires IsSeed(random.seed) && n <= size < TWO31 && place < size
    ensures origin < size
  {
    if n == 0 then place
    else
      var drawn := DrawnPlace(random, size, n - 1);
      Origin(random, size, n - 1, if place == n - 1 then drawn else if place == drawn then n - 1 else place)
  }

  lemma {:induction false} DrawsFirst(random: Stream, n: nat)
    ensures Draws(random.Next(), n) == Draws(random, n + 1)
  {
    hide NextSeed;
    if n > 0 {
      DrawsFirst(random, n - 1);
    }
  }

  /** The first step puts the token from the drawn place where it stays. */
  lemma FirstPlace(s: seq<string>, random: Stream, current: nat, limit: nat)
    requires Shuffles(s, random) && current < limit <= |s|
    ensures var drawn := random.Next().Int(current, |s| - 1);
            current <= drawn < |s| && Shuffled(s, random, current, limit)[current] == s[drawn]
  {
    hide Swap, ValueOf, NextSeed;
    ShuffleStep(s, random, current, limit);
    var swapped := Swap(s, current, random.Next().Int(current, |s| - 1));
    var shuffled := Shuffled(swapped, random.Next(), current + 1, limit);
    assert shuffled[current] == shuffled[..current + 1][current];
    assert swapped[current] == swapped[..current + 1][current];
  }

  /** One more place: the last swap, done after all others. */
  lemma {:induction false} LastSwap(s: seq<string>, random: Stream, current: nat, limit: nat)
    requires Shuffles(s, random) && current < limit <= |s|
    ensures var drawn := Draws(random, limit - current).Int(limit - 1, |s| - 1);
            && limit - 1 <= drawn < |s|
            && Shuffled(s, random, current, limit) ==
               Swap(Shuffled(s, random, current, limit - 1), limit - 1, drawn)
    decreases limit - current
  {
    hide Swap, ValueOf, NextSeed, Shuffled, Draws;
    ShuffleStep(s, random, current, limit);
    DrawsFirst(random, limit - current - 1);
    if current + 1 < limit {
      LastSwap(Swap(s, current, random.Next().Int(current, |s| - 1)), random.Next(), current + 1, limit);
      ShuffleStep(s, random, current, limit - 1);
    } else {
      NoDraws(random.Next());
      ShuffleDone(Swap(s, current, random.Next().Int(current, |s| - 1)), random.Next(), limit);
      ShuffleDone(s, random, current);
    }
  }

  lemma NoDraws(random: Stream)
    ensures Draws(random, 0) == random
  {
  }

  /** The token at any place of the shuffled table, from the draws alone. */
  lemma {:induction false} ShuffledFrom(s: seq<string>, random: Stream, limit: nat, place: nat)
    requires Shuffles(s, random) && limit <= |s| && place < |s|
    ensures Shuffled(s, random, 0, limit)[place] == s[Origin(random, |s|, limit, place)]
    decreases limit
  {
    hide Shuffled, ValueOf, NextSeed, Stream.Int;
    if limit == 0 {
      ShuffleDone(s, random, 0);
    } else {
      LastSwap(s, random, 0, limit);
      var drawn := DrawnPlace(random, |s|, limit - 1);
      assert Draws(random, limit - 0) == Draws(random, limit - 1 + 1);
      var from := if place == limit - 1 then drawn else if place == drawn then limit - 1 else place;
      ShuffledFrom(s, random, limit - 1, from);
    }
  }

  /** Place k of the sequence is settled by its own draw; no later swap moves it. */
  lemma {:induction false} PlaceIsSettled(random: Stream, size: nat, n: nat, k: nat)
    requires IsSeed(random.seed) && k < n <= size < TWO31
    ensures Origin(random, size, n, k) == Origin(random, size, k, DrawnPlace(random, size, k))
    decreases n
  {
    hide DrawnPlace;
    if n - 1 > k {
      PlaceIsSettled(random, size, n - 1, k);
    }
  }

  /** Token k of a sequence: the one that stands at the k-th drawn place after the k earlier swaps. */
  lemma SequenceHolds(dist: seq<Entry>, random: Stream, limit: nat, k: nat)
    requires Shuffles(Tokens(dist), random) && k < limit <= |dist|
    ensures Shuffled(Tokens(dist), random, 0, limit)[k] ==
            dist[Origin(random, |dist|, k, DrawnPlace(random, |dist|, k))].token
  {
    hide Shuffled, Origin, DrawnPlace;
    ShuffledFrom(Tokens(dist), random, limit, k);
    PlaceIsSettled(random, |dist|, limit, k);
  }

  lemma {:induction false} ShufflePermutes(s: seq<string>, random: Stream, current: nat, limit: nat)
    requires Shuffles(s, random) && current <= limit <= |s|
    ensures multiset(Shuffled(s, random, current, limit)) == multiset(s)
    decreases limit - current
  {
    if current < limit {
      var next := random.Next();
      ValueInRange(next.seed, current, |s| - 1);
      ShufflePermutes(Swap(s, current, next.Int(current, |s| - 1)), next, current + 1, limit);
    }
  }

  ghost predicate Distinct(s: seq<string>) {
    forall i, j | 0 <= i < j < |s| :: s[i] != s[j]
  }

  lemma {:induction false} DistinctCounts(s: seq<string>)
    requires Distinct(s)
    ensures forall x :: multiset(s)[x] <= 1
  {
    if s != [] {
      var front, last := s[..|s| - 1], s[|s| - 1];
      assert s == front + [last];
      DistinctCounts(front);
      assert last !in front;
    }
  }

  lemma TwiceCounts(s: seq<string>, i: nat, j: nat)
    requires i < j < |s| && s[i] == s[j]
    ensures multiset(s)[s[i]] >= 2
  {
    var front := s[..j];
    assert s == front + [s[j]] + s[j + 1..];
    assert front[i] == s[i] && s[i] in front;
  }

  lemma CountsDistinct(s: seq<string>)
    requires forall x :: multiset(s)[x] <= 1
    ensures Distinct(s)
  {
    forall i, j | 0 <= i < j < |s|
      ensures s[i] != s[j]
    {
      if s[i] == s[j] {
        TwiceCounts(s, i, j);
      }
    }
  }

  /** Different tokens of the table stay different in the sequence. */
  lemma SequenceIsDistinct(dist: seq<Entry>, random: Stream, limit: nat)
    requires Shuffles(Tokens(dist), random) && limit <= |dist| && Distinct(Tokens(dist))
    ensures Distinct(Shuffled(Tokens(dist), random, 0, limit)[..limit])
    ensures forall i | 0 <= i < limit :: Shuffled(Tokens(dist), random, 0, limit)[i] in Tokens(dist)
  {
    var shuffled := Shuffled(Tokens(dist), random, 0, limit);
    ShufflePermutes(Tokens(dist), random, 0, limit);
    DistinctCounts(Tokens(dist));
    CountsDistinct(shuffled);
    forall i | 0 <= i < limit
      ensures shuffled[i] in Tokens(dist)
    {
      assert shuffled[i] in multiset(shuffled);
    }
  }
}
