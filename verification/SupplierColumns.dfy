/** What every column of every supplier row is, and at which place of the output the row stands. */
module SupplierColumns {
  import opened CInt
  import opened Lehmer
  import opened Scaling
  import opened Columns
  import opened Supplier

  // ---------------------------------------------------------------- addresses

  function Power64(n: nat): nat {
    if n == 0 then 1 else 64 * Power64(n - 1)
  }

  /** The number with these base-64 digits, the lowest first. */
  function Number64(digits: seq<nat>): nat {
    if digits == [] then 0
    else Number64(digits[..|digits| - 1]) + Power64(|digits| - 1) * digits[|digits| - 1]
  }

  /** What is left of a draw after c of its characters. */
  function BitsLeft(snapshot: Stream, g: nat, c: nat): int {
    if c == 0 then CharBits(snapshot, 5 * g) else CharBits(snapshot, 5 * g + c - 1) / 64
  }

  lemma FirstBits(snapshot: Stream, g: nat)
    requires IsSeed(Draws(snapshot, g + 1).seed)
    ensures CharBits(snapshot, 5 * g) == -Draws(snapshot, g + 1).seed
  {
    hide Draws;
    ValueOnWrappedRange(Draws(snapshot, g + 1).seed, 0, 0x7fff_ffff);
    ToInt32Keeps(-Draws(snapshot, g + 1).seed);
  }

  lemma NextBits(snapshot: Stream, g: nat, c: nat)
    requires c < 5
    ensures CharBits(snapshot, 5 * g + c) == BitsLeft(snapshot, g, c)
    ensures BitsLeft(snapshot, g, c + 1) == BitsLeft(snapshot, g, c) / 64
  {
    hide Draws, Stream.Int;
  }

  /** The first c characters of a group and the rest of the draw make up the draw. */
  lemma {:induction false} GroupOfDraw(snapshot: Stream, g: nat, c: nat) returns (digits: seq<nat>)
    requires c <= 5 && IsSeed(Draws(snapshot, g + 1).seed)
    ensures |digits| == c
    ensures forall j | 0 <= j < c ::
              digits[j] < 64 && AddressChar(snapshot, 5 * g + j) == ALPHABET[digits[j]]
    ensures -Draws(snapshot, g + 1).seed == Number64(digits) + Power64(c) * BitsLeft(snapshot, g, c)
  {
    hide Draws, CharBits, BitsLeft;
    if c == 0 {
      digits := [];
      FirstBits(snapshot, g);
      NoneTaken(snapshot, g);
    } else {
      var front := GroupOfDraw(snapshot, g, c - 1);
      NextBits(snapshot, g, c - 1);
      var left := BitsLeft(snapshot, g, c - 1);
      digits := front + [left % 64];
      assert digits[..c - 1] == front;
      assert left == 64 * (left / 64) + left % 64;
      Regroup(Power64(c - 1), left / 64, left % 64);
    }
  }

  lemma NoneTaken(snapshot: Stream, g: nat)
    ensures BitsLeft(snapshot, g, 0) == CharBits(snapshot, 5 * g)
  {
  }

  lemma Regroup(power: nat, rest: int, digit: nat)
    ensures power * (64 * rest + digit) == power * digit + 64 * power * rest
  {
    assert power * (64 * rest) == 64 * power * rest;
  }

  /**
   The address of supplier r: its length from draw 1 of the row's nine, and its characters, five to a draw from draw 2
   on, read as base-64 digits, are the negated seed modulo 64 to the number of characters.
   */
  lemma AddressHolds(pool: string, r: nat, g: nat, c: nat) returns (digits: seq<nat>)
    requires |pool| < TWO31 && 1 <= c <= 5
    requires 5 * g + c <= |SupplierAt(pool, r).address|
    ensures |SupplierAt(pool, r).address| == Scaled(DrawSeed(ADDRESS, 9 * r + 1), 10, 40)
    ensures |digits| == c
    ensures forall j | 0 <= j < c ::
              digits[j] < 64 && SupplierAt(pool, r).address[5 * g + j] == ALPHABET[digits[j]]
    ensures Divides64(DrawSeed(ADDRESS, 9 * r + g + 2) + Number64(digits), c)
  {
    hide Sample, AddressChar, Draws, FinalComment, PhoneAt, NationKey, ToInt32, Scaled, DrawSeed, BitsLeft, At;
    SampleIsScaled(ADDRESS, r, 0, 10, 40);
    SampleInRange(ADDRESS, r, 0, 10, 40);
    GroupSeed(r, g);
    digits := GroupOfDraw(At(ADDRESS, r, 1), g, c);
    var left := BitsLeft(At(ADDRESS, r, 1), g, c);
    assert DrawSeed(ADDRESS, 9 * r + g + 2) + Number64(digits) == Power64(c) * -left by {
      assert Power64(c) * -left == -(Power64(c) * left);
    }
    AddressLetters(Sample(ADDRESS, r, 0, 10, 40), At(ADDRESS, r, 1), g, c);
  }

  ghost predicate Divides64(x: int, c: nat) {
    exists q: int :: x == Power64(c) * q
  }

  lemma AddressLetters(length: nat, snapshot: Stream, g: nat, c: nat)
    requires 5 * g + c <= length
    ensures |AddressText(length, snapshot)| == length
    ensures forall i | 5 * g <= i < 5 * g + c :: AddressText(length, snapshot)[i] == AddressChar(snapshot, i)
  {
    hide AddressChar;
  }

  lemma GroupSeed(r: nat, g: nat)
    ensures Draws(At(ADDRESS, r, 1), g + 1).seed == DrawSeed(ADDRESS, 9 * r + g + 2)
    ensures IsSeed(DrawSeed(ADDRESS, 9 * r + g + 2))
  {
    hide At, Draws, DrawSeed;
    DrawsFrom(ADDRESS, r, 1, g + 1);
    AtSeed(ADDRESS, r, g + 2);
    AtIsSeed(ADDRESS, r, g + 2);
  }

  // ---------------------------------------------------------------- the other columns

  ghost predicate NumbersHold(r: nat, row: SupplierRow) {
    && row.suppKey == ToInt32(r + 1)
    && row.nationKey == Scaled(DrawSeed(NATION_KEY, r + 1), 0, 24)
    && row.phone.countryCode == 10 + row.nationKey
    && row.phone.local1 == Scaled(DrawSeed(PHONE, 3 * r + 1), 100, 999)
    && row.phone.local2 == Scaled(DrawSeed(PHONE, 3 * r + 2), 100, 999)
    && row.phone.local3 == Scaled(DrawSeed(PHONE, 3 * r + 3), 1000, 9999)
    && row.accountBalance == Scaled(DrawSeed(ACCOUNT_BALANCE, r + 1), -99999, 999999)
  }

  /** Ten suppliers in ten thousand, if their comment is long enough. */
  ghost predicate IsRewritten(r: nat, length: nat) {
    Scaled(DrawSeed(BBB_COMMENT, r + 1), 1, 10000) <= 10 && length >= 19
  }

  /** The noise between the two words, the place of the first, and the second word: half and half, of 101 samples. */
  ghost predicate RewriteIs(r: nat, length: nat, noise: nat, offset: nat, word: string) {
    && noise == Scaled(DrawSeed(BBB_JUNK, r + 1), 0, length - 19)
    && offset == Scaled(DrawSeed(BBB_OFFSET, r + 1), 0, length - 19 - noise)
    && offset + noise + 19 <= length
    && word == (if Scaled(DrawSeed(BBB_TYPE, r + 1), 0, 100) < 50 then "Complaints" else "Recommends")
  }

  /** The comment: a view into the pool, or that view with two words written over it. */
  ghost predicate CommentHolds(pool: string, r: nat, text: Text, comment: string) {
    && TextIs(COMMENT, 2 * r, |pool|, 25, 100, text)
    && 0 <= text.begin && 0 <= text.count && text.begin + text.count <= |pool| && |comment| == text.count
    && if IsRewritten(r, text.count) then
         exists noise: nat, offset: nat, word: string ::
           && RewriteIs(r, text.count, noise, offset, word)
           && forall k | 0 <= k < |comment| :: comment[k] == LetterAt(pool, text.begin, noise, offset, word, k)
       else comment == pool[text.begin..text.begin + text.count]
  }

  /** Letter k of a rewritten comment. */
  function LetterAt(pool: string, begin: nat, noise: nat, offset: nat, word: string, k: nat): char {
    if offset <= k < offset + 9 then "Customer "[k - offset]
    else if offset + 9 + noise <= k < offset + 19 + noise && k - offset - 9 - noise < |word| then
      word[k - offset - 9 - noise]
    else if begin + k < |pool| then pool[begin + k]
    else ' '
  }

  lemma NumbersAt(pool: string, r: nat)
    requires |pool| < TWO31
    ensures NumbersHold(r, SupplierAt(pool, r))
  {
    hide Sample, Scaled, DrawSeed, ToInt32, FinalComment, AddressText, At;
    SampleIsScaled(NATION_KEY, r, 0, 0, 24);
    SampleInRange(NATION_KEY, r, 0, 0, 24);
    SampleIsScaled(PHONE, r, 0, 100, 999);
    SampleIsScaled(PHONE, r, 1, 100, 999);
    SampleIsScaled(PHONE, r, 2, 1000, 9999);
    SampleIsScaled(ACCOUNT_BALANCE, r, 0, -99999, 999999);
  }

  lemma RewriteAt(pool: string, r: nat)
    requires |pool| < TWO31
    ensures HasBbb(pool, r) <==> IsRewritten(r, |Comment(pool, r)|)
    ensures HasBbb(pool, r) ==>
              RewriteIs(r, |Comment(pool, r)|, Noise(pool, r), Offset(pool, r),
                        BbbWord(Sample(BBB_TYPE, r, 0, 0, 100)))
  {
    hide Sample, Scaled, DrawSeed, Comment;
    SampleIsScaled(BBB_COMMENT, r, 0, 1, 10000);
    SampleIsScaled(BBB_TYPE, r, 0, 0, 100);
    if HasBbb(pool, r) {
      var spare := |Comment(pool, r)| - BBB_LENGTH;
      SampleIsScaled(BBB_JUNK, r, 0, 0, spare);
      SampleIsScaled(BBB_OFFSET, r, 0, 0, spare - Noise(pool, r));
    }
  }

  lemma CommentAt(pool: string, r: nat)
    requires |pool| < TWO31
    ensures CommentHolds(pool, r, TextAt(COMMENT, r, 0, |pool|, COMMENT_MIN, COMMENT_MAX), SupplierAt(pool, r).comment)
  {
    hide Sample, TextAt, TextIs, ToInt32, AddressText, PhoneAt, NationKey, IsRewritten, RewriteIs, Noise, Offset, At;
    hide BbbWord, Rewritten;
    var text := TextAt(COMMENT, r, 0, |pool|, COMMENT_MIN, COMMENT_MAX);
    TextAtIs(COMMENT, r, 0, |pool|, COMMENT_MIN, COMMENT_MAX);
    TextInPool(COMMENT, r, 0, |pool|, COMMENT_MIN, COMMENT_MAX);
    RewriteAt(pool, r);
    if HasBbb(pool, r) {
      var comment, word := SupplierAt(pool, r).comment, BbbWord(Sample(BBB_TYPE, r, 0, 0, 100));
      forall k | 0 <= k < |comment|
        ensures comment[k] == LetterAt(pool, text.begin, Noise(pool, r), Offset(pool, r), word, k)
      {
        RewrittenPlaces(Comment(pool, r), Noise(pool, r), Offset(pool, r), word, k);
      }
    }
  }

  // ---------------------------------------------------------------- places

  /** Row k of the range is supplier start + k, and the range has no other rows. */
  lemma {:induction false} SupplierPlace(pool: string, start: nat, end: nat, k: nat)
    requires |pool| < TWO31 && start <= end
    ensures |SupplierRows(pool, start, end)| == end - start
    ensures k < end - start ==> SupplierRows(pool, start, end)[k] == SupplierAt(pool, start + k)
    decreases end - start
  {
    hide SupplierAt;
    if start < end {
      SupplierPlace(pool, start + 1, end, if k > 0 then k - 1 else 0);
    }
  }

  /** Every row of the table, by its place; AddressHolds says what its address is. */
  lemma RowHolds(pool: string, start: nat, end: nat, k: nat)
    requires |pool| < TWO31 && start + k < end
    ensures k < |SupplierRows(pool, start, end)|
    ensures SupplierRows(pool, start, end)[k] == SupplierAt(pool, start + k)
    ensures var row := SupplierRows(pool, start, end)[k];
            && NumbersHold(start + k, row)
            && CommentHolds(
                 pool, start + k, TextAt(COMMENT, start + k, 0, |pool|, COMMENT_MIN, COMMENT_MAX), row.comment)
  {
    hide SupplierAt, SupplierRows, NumbersHold, CommentHolds, TextAt;
    SupplierPlace(pool, start, end, k);
    NumbersAt(pool, start + k);
    CommentAt(pool, start + k);
  }
}
