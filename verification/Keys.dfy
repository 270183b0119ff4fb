/** The arithmetic of TPC-H keys and prices shared by the row iterators. */
module Keys {
  import opened CInt

  // ---------------------------------------------------------------- sparse order keys

  /** `index & 7`, then `index >> 3 << 2 << 3` plus those bits. */
  function MakeOrderKey(index: int): int {
    var lowBits := index % 8;
    var shifted := index / 8;
    shifted * 4 * 8 + lowBits
  }

  function OrderIndex(key: int): int {
    key / 32 * 8 + key % 8
  }

  /** Of every 32 keys the first eight are used, in order, and the index can be computed back. */
  lemma OrderKeyRoundTrip(index: int, key: int)
    ensures OrderIndex(MakeOrderKey(index)) == index
    ensures MakeOrderKey(OrderIndex(key)) == key <==> key % 32 < 8
    ensures MakeOrderKey(index) == 32 * (index / 8) + index % 8
  {
    Eights(4 * (index / 8), index % 8);
    assert MakeOrderKey(index) / 32 == index / 8;
    Eights(key / 32, key % 8);
    Eights(4 * (key / 32) + key % 32 / 8, key % 32 % 8);
  }

  lemma Eights(q: int, r: int)
    requires 0 <= r < 8
    ensures (q * 8 + r) / 8 == q && (q * 8 + r) % 8 == r
  {
  }

  lemma OrderKeysAscend(a: int, b: int)
    ensures a < b <==> MakeOrderKey(a) < MakeOrderKey(b)
  {
  }

  /** The 32-bit column holds the key unchanged exactly for the first 2^29 - 1 orders. */
  lemma OrderKeyFitsExactlyWhen(index: nat)
    ensures ToInt32(MakeOrderKey(index)) == MakeOrderKey(index) <==> index < 0x2000_0000
  {
    ToInt32Keeps(MakeOrderKey(index));
  }

  // ---------------------------------------------------------------- prices

  /** In cents. */
  function PartPrice(partKey: nat): (price: nat)
    ensures 90000 <= price <= 209900
  {
    90000 + partKey / 10 % 20001 + partKey % 1000 * 100
  }

  /** What the next part costs more; the two parts of the price start again at 200010 and at 1000 parts. */
  function PriceStep(partKey: nat): int {
    100 + (if partKey % 10 == 9 then 1 else 0)
    - (if partKey % 1000 == 999 then 100000 else 0)
    - (if partKey % 200010 == 200009 then 20001 else 0)
  }

  lemma NextTen(k: nat)
    ensures (k + 1) / 10 == k / 10 + if k % 10 == 9 then 1 else 0
  {
  }

  lemma NextOfCycle(t: nat)
    ensures (t + 1) % 20001 == if t % 20001 == 20000 then 0 else t % 20001 + 1
  {
  }

  lemma NextOfThousand(k: nat)
    ensures (k + 1) % 1000 == if k % 1000 == 999 then 0 else k % 1000 + 1
  {
  }

  lemma TensOfCycle(k: nat)
    ensures k % 200010 == 10 * (k / 10 % 20001) + k % 10
  {
    var tens := k / 10;
    assert tens == 20001 * (tens / 20001) + tens % 20001;
    UniqueRemainder(k, tens / 20001, 10 * (tens % 20001) + k % 10, 200010);
  }

  /** Prices start at 900.00 and climb by PriceStep. */
  lemma PartPriceClimbs(partKey: nat)
    ensures PartPrice(0) == 90000
    ensures PartPrice(partKey + 1) == PartPrice(partKey) + PriceStep(partKey)
  {
    NextTen(partKey);
    NextOfCycle(partKey / 10);
    NextOfThousand(partKey);
    TensOfCycle(partKey);
    var tens, left := partKey / 10 % 20001, partKey % 10;
    assert 10 * tens + left == 200009 <==> tens == 20000 && left == 9;
  }

  /** Nothing else does. */
  lemma {:induction false} PartPriceIsDetermined(price: nat -> int, partKey: nat)
    requires price(0) == 90000 && forall k: nat :: price(k + 1) == price(k) + PriceStep(k)
    ensures price(partKey) == PartPrice(partKey)
  {
    hide PartPrice, PriceStep;
    PartPriceClimbs(0);
    if partKey > 0 {
      PartPriceIsDetermined(price, partKey - 1);
      PartPriceClimbs(partKey - 1);
      assert price(partKey - 1 + 1) == price(partKey - 1) + PriceStep(partKey - 1);
    }
  }

  // ---------------------------------------------------------------- the suppliers of a part

  /** The distance between the part's consecutive suppliers, modulo S. */
  function SupplierStep(partKey: nat, S: nat): nat
    requires partKey >= 1 && S >= 1
  {
    S / 4 + (partKey - 1) / S
  }

  function SelectPartSupplier(partKey: nat, number: nat, S: nat): (key: nat)
    requires partKey >= 1 && S >= 1
    ensures 1 <= key <= S
  {
    ProductOfNaturals(number, SupplierStep(partKey, S));
    (partKey + number * SupplierStep(partKey, S)) % S + 1
  }

  /** The same for any 32-bit key, also one that wrapped to a negative number, with C++ division and remainder. */
  function SupplierOf(partKey: int, number: int, S: nat): int
    requires S >= 1
  {
    TruncMod(partKey + number * (S / 4 + TruncDiv(partKey - 1, S)), S) + 1
  }

  lemma SupplierOfPart(partKey: nat, number: nat, S: nat)
    requires partKey >= 1 && S >= 1
    ensures SupplierOf(partKey, number, S) == SelectPartSupplier(partKey, number, S)
  {
    ProductOfNaturals(number, SupplierStep(partKey, S));
  }

  predicate Divides(m: nat, n: nat)
    requires m >= 1
  {
    n % m == 0
  }

  lemma SplitProduct(i: nat, j: nat, step: nat)
    requires i <= j
    ensures j * step == i * step + (j - i) * step
    ensures i * step >= 0 && (j - i) * step >= 0
  {
    ProductOfNaturals(i, step);
    ProductOfNaturals(j - i, step);
  }

  lemma SameRemainder(a: nat, d: nat, m: nat)
    requires m >= 1
    ensures (a + d) % m == a % m <==> Divides(m, d)
  {
    var q, r := a / m, a % m;
    assert a == m * q + r;
    var p, t := (a + d) / m, (a + d) % m;
    assert a + d == m * p + t;
    if t == r {
      assert d == m * (p - q);
      RemainderOfMultiple(d, p - q, m);
    }
    if Divides(m, d) {
      var k := d / m;
      assert d == m * k;
      assert a + d == m * (q + k) + r;
      UniqueRemainder(a + d, q + k, r, m);
    }
  }

  lemma {:induction false} UniqueRemainder(x: int, q: int, r: nat, m: nat)
    requires m >= 1 && r < m && x == m * q + r
    ensures x % m == r
  {
    var p, t := x / m, x % m;
    assert m * p + t == m * q + r;
    assert m * (p + 1) == m * p + m && m * (q + 1) == m * q + m;
    if p < q {
      ProductMonotone(p + 1, q, m);
      assert false;
    } else if q < p {
      ProductMonotone(q + 1, p, m);
      assert false;
    }
  }

  lemma RemainderOfMultiple(x: int, q: int, m: nat)
    requires m >= 1 && x == m * q
    ensures x % m == 0
  {
    UniqueRemainder(x, q, 0, m);
  }

  /** Two suppliers of a part coincide exactly when S divides the distance between them. */
  lemma SuppliersCoincideExactlyWhen(partKey: nat, i: nat, j: nat, S: nat)
    requires partKey >= 1 && S >= 1 && i <= j
    ensures (j - i) * SupplierStep(partKey, S) >= 0
    ensures SelectPartSupplier(partKey, i, S) == SelectPartSupplier(partKey, j, S) <==>
            Divides(S, (j - i) * SupplierStep(partKey, S))
  {
    var step := SupplierStep(partKey, S);
    SplitProduct(i, j, step);
    SameRemainder(partKey + i * step, (j - i) * step, S);
  }

  /** The first supplier follows the part key; each further one is a quarter of all and a bit ahead, going round. */
  lemma SuppliersGoRound(partKey: nat, number: nat, S: nat)
    requires partKey >= 1 && S >= 1
    ensures SelectPartSupplier(partKey, 0, S) == partKey % S + 1
    ensures SelectPartSupplier(partKey, number + 1, S) ==
            (SelectPartSupplier(partKey, number, S) - 1 + S / 4 + (partKey - 1) / S) % S + 1
  {
    hide SelectPartSupplier;
    FirstSupplier(partKey, S);
    NextSupplier(partKey, number, S / 4 + (partKey - 1) / S, S);
  }

  lemma FirstSupplier(partKey: nat, S: nat)
    requires partKey >= 1 && S >= 1
    ensures SelectPartSupplier(partKey, 0, S) == partKey % S + 1
  {
    hide SelectPartSupplier, SupplierStep;
    var step := SupplierStep(partKey, S);
    SupplierIs(partKey, 0, step, S);
    assert 0 * step == 0;
  }

  lemma NextSupplier(partKey: nat, number: nat, step: nat, S: nat)
    requires partKey >= 1 && S >= 1 && step == SupplierStep(partKey, S)
    ensures SelectPartSupplier(partKey, number + 1, S) == (SelectPartSupplier(partKey, number, S) - 1 + step) % S + 1
  {
    hide SelectPartSupplier, SupplierStep;
    NextMultiple(number, step);
    var key, next := SelectPartSupplier(partKey, number, S), SelectPartSupplier(partKey, number + 1, S);
    SupplierIs(partKey, number, step, S);
    SupplierIs(partKey, number + 1, step, S);
    GoRound(partKey + number * step, partKey + (number + 1) * step, step, S, key, next);
  }

  lemma GoRound(x: nat, y: nat, d: nat, m: nat, key: int, next: int)
    requires m >= 1 && y == x + d && key == x % m + 1 && next == y % m + 1
    ensures next == (key - 1 + d) % m + 1
  {
    AddToRemainder(x, d, m);
  }

  lemma SupplierIs(partKey: nat, number: nat, step: nat, S: nat)
    requires partKey >= 1 && S >= 1 && step == SupplierStep(partKey, S)
    ensures number * step >= 0 && SelectPartSupplier(partKey, number, S) == (partKey + number * step) % S + 1
  {
    hide SupplierStep;
    ProductOfNaturals(number, step);
  }

  lemma NextMultiple(n: nat, step: nat)
    ensures n * step >= 0 && (n + 1) * step == n * step + step && 0 * step == 0
  {
    ProductOfNaturals(n, step);
  }

  lemma AddToRemainder(x: nat, d: nat, m: nat)
    requires m >= 1
    ensures (x % m + d) % m == (x + d) % m
  {
    var q, r := x / m, x % m;
    assert x == m * q + r;
    var p, t := (r + d) / m, (r + d) % m;
    assert r + d == m * p + t;
    assert x + d == m * (p + q) + t;
    UniqueRemainder(x + d, p + q, t, m);
  }

  /** Of S consecutive parts (of one block q) each supplier is the n-th of exactly one. */
  lemma EverySupplierOnce(q: nat, number: nat, supplier: nat, S: nat) returns (partKey: nat)
    requires S >= 1 && 1 <= supplier <= S
    ensures q * S < partKey <= q * S + S && SelectPartSupplier(partKey, number, S) == supplier
    ensures forall other: nat | q * S < other <= q * S + S && SelectPartSupplier(other, number, S) == supplier ::
              other == partKey
  {
    hide SelectPartSupplier;
    partKey := SomePart(q, number, supplier, S);
    forall other: nat | q * S < other <= q * S + S && SelectPartSupplier(other, number, S) == supplier
      ensures other == partKey
    {
      SameBlockDiffers(q, number, other, partKey, S);
      SameBlockDiffers(q, number, partKey, other, S);
    }
  }

  /** A place in [1, m] with the given remainder after a shift. */
  lemma ShiftedPlace(shift: int, target: nat, m: nat) returns (place: nat, turns: int)
    requires m >= 1 && target < m
    ensures 1 <= place <= m && place + shift == m * turns + target
  {
    var p, r := (target - shift) / m, (target - shift) % m;
    assert target - shift == m * p + r;
    if r == 0 {
      place, turns := m, 1 - p;
      assert m * (1 - p) == m - m * p;
    } else {
      place, turns := r, -p;
      assert m * -p == -(m * p);
    }
  }

  lemma SomePart(q: nat, number: nat, supplier: nat, S: nat) returns (partKey: nat)
    requires S >= 1 && 1 <= supplier <= S
    ensures q * S < partKey <= q * S + S && SelectPartSupplier(partKey, number, S) == supplier
  {
    ProductOfNaturals(q, S);
    var shift := number * (S / 4 + q);
    var place, turns := ShiftedPlace(q * S + shift, supplier - 1, S);
    partKey := q * S + place;
    BlockOf(q, partKey, S);
    UniqueRemainder(partKey + shift, turns, supplier - 1, S);
  }

  lemma BlockOf(q: nat, partKey: nat, S: nat)
    requires S >= 1 && q * S < partKey <= q * S + S
    ensures partKey >= 1 && SupplierStep(partKey, S) == S / 4 + q
  {
    ProductOfNaturals(q, S);
    var p := (partKey - 1) / S;
    assert partKey - 1 == S * p + (partKey - 1) % S;
    SameBlock(p, q, partKey - 1, (partKey - 1) % S, S);
  }

  lemma SameBlock(p: int, q: int, x: int, r: nat, S: nat)
    requires S >= 1 && r < S && x == S * p + r && q * S <= x < q * S + S
    ensures p == q
  {
    assert S * p == p * S && (p + 1) * S == p * S + S && (q + 1) * S == q * S + S;
    if p < q {
      ProductMonotone(p + 1, q, S);
    } else if q < p {
      ProductMonotone(q + 1, p, S);
    }
  }

  lemma SameBlockDiffers(q: nat, number: nat, a: nat, b: nat, S: nat)
    requires S >= 1 && q * S < a < q * S + S + 1 && q * S < b < q * S + S + 1
    ensures a >= 1 && b >= 1
    ensures a < b ==> SelectPartSupplier(a, number, S) != SelectPartSupplier(b, number, S)
  {
    BlockOf(q, a, S);
    BlockOf(q, b, S);
    if a < b {
      ProductOfNaturals(number, SupplierStep(a, S));
      SameRemainder(a + number * SupplierStep(a, S), b - a, S);
      SmallIsNotMultiple(b - a, S);
    }
  }

  predicate DistinctSuppliers(partKey: nat, S: nat)
    requires partKey >= 1 && S >= 1
  {
    forall i, j | 0 <= i < j < 4 :: SelectPartSupplier(partKey, i, S) != SelectPartSupplier(partKey, j, S)
  }

  /** The four suppliers differ exactly when S divides none of one, two and three steps. */
  lemma DistinctExactlyWhen(partKey: nat, S: nat)
    requires partKey >= 1 && S >= 1
    ensures var step := SupplierStep(partKey, S);
            DistinctSuppliers(partKey, S) <==>
              !Divides(S, step) && !Divides(S, 2 * step) && !Divides(S, 3 * step)
  {
    forall i: nat, j: nat | i < j < 4
      ensures (j - i) * SupplierStep(partKey, S) >= 0
      ensures SelectPartSupplier(partKey, i, S) == SelectPartSupplier(partKey, j, S) <==>
              Divides(S, (j - i) * SupplierStep(partKey, S))
    {
      SuppliersCoincideExactlyWhen(partKey, i, j, S);
    }
    assert SelectPartSupplier(partKey, 0, S) == SelectPartSupplier(partKey, 1, S) <==>
           Divides(S, (1 - 0) * SupplierStep(partKey, S));
    assert SelectPartSupplier(partKey, 0, S) == SelectPartSupplier(partKey, 2, S) <==>
           Divides(S, (2 - 0) * SupplierStep(partKey, S));
    assert SelectPartSupplier(partKey, 0, S) == SelectPartSupplier(partKey, 3, S) <==>
           Divides(S, (3 - 0) * SupplierStep(partKey, S));
  }

  lemma SmallIsNotMultiple(n: nat, m: nat)
    requires 0 < n < m
    ensures !Divides(m, n)
  {
    UniqueRemainder(n, 0, n, m);
  }

  lemma StepBound(partKey: nat, S: nat)
    requires 1 <= partKey <= 20 * S && S >= 1
    ensures S / 4 <= SupplierStep(partKey, S) <= S / 4 + 19
  {
    var q := (partKey - 1) / S;
    assert partKey - 1 == S * q + (partKey - 1) % S;
    if q >= 20 {
      ProductMonotone(20, q, S);
      assert false;
    }
  }

  /** With 229 suppliers or more, every part of the table (there are 20 per supplier) has four suppliers. */
  lemma EnoughSuppliers(partKey: nat, S: nat)
    requires 1 <= partKey <= 20 * S && S >= 229
    ensures DistinctSuppliers(partKey, S)
  {
    StepBound(partKey, S);
    DistinctExactlyWhen(partKey, S);
    var step := SupplierStep(partKey, S);
    SmallIsNotMultiple(step, S);
    SmallIsNotMultiple(2 * step, S);
    SmallIsNotMultiple(3 * step, S);
  }

  /** The bound is tight: of 228 suppliers, the last parts get one twice. */
  lemma TooFewSuppliers()
    ensures SelectPartSupplier(4333, 0, 228) == SelectPartSupplier(4333, 3, 228)
    ensures 4333 <= 20 * 228 && !DistinctSuppliers(4333, 228)
  {
    SuppliersCoincideExactlyWhen(4333, 0, 3, 228);
  }

  // ---------------------------------------------------------------- customers

  /** Where the search for a customer key that is not a multiple of three ends. */
  function LivingCustomer(key: int, max: int): int {
    if key % 3 != 0 then key
    else if key + 1 <= max then key + 1
    else if max % 3 != 0 then max
    else max - 1
  }

  /** The steps are +1 and -1, each cut off at max. */
  method SkipDeadCustomers(start: int, max: int) returns (key: int)
    ensures key == LivingCustomer(start, max)
  {
    key := start;
    var delta := 1;
    ghost var turns := 0;
    while key % 3 == 0
      invariant 0 <= turns <= 2
      invariant turns == 0 ==> key == start && delta == 1
      invariant turns == 1 ==> start % 3 == 0 && delta == -1 && key == if start + 1 > max then max else start + 1
      invariant turns == 2 ==> start % 3 == 0 && start + 1 > max && max % 3 == 0 && key == max - 1
      decreases 2 - turns
    {
      key := key + delta;
      if key > max {
        key := max;
      }
      delta := delta * -1;
      turns := turns + 1;
    }
  }

  /**
   From any customer in [1, max] the search ends at a living one in [1, max]: a living customer itself, or else the next
   one, except that the last customer's neighbour is the one before.
   */
  lemma LivingCustomerIsValid(key: int, max: int)
    requires 1 <= key <= max
    ensures 1 <= LivingCustomer(key, max) <= max && LivingCustomer(key, max) % 3 != 0
    ensures LivingCustomer(key, max) - key ==
            if key % 3 != 0 then 0 else if key < max then 1 else -1
  {
  }
}
