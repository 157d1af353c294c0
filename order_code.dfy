/** The public order code `PRNTDT-LLLNNNNN` minted from the order counter
    (utils/order.py). Python's `//`, `%` and `divmod` floor; with the positive
    divisors used here that is exactly Dafny's Euclidean `/` and `%`, so the
    model accepts every integer counter, negative ones included. */
module OrderCode {
  import opened Decimal

  const Prefix: string := "PRNTDT-"
  /** Codes per letter block: the numeric part runs 00001..99999. */
  const BlockSize: int := 99999
  /** Number of distinct three-letter blocks, AAA..ZZZ. */
  const LetterSpace: int := 26 * 26 * 26
  /** Counters in [0, CodeSpace) receive pairwise distinct codes. */
  const CodeSpace: int := BlockSize * LetterSpace

  function Letter(d: int): (c: char)
    requires 0 <= d < 26
    ensures 'A' <= c <= 'Z'
  {
    (65 + d) as char
  }

  predicate IsLetter(c: char) {
    'A' <= c <= 'Z'
  }

  /** The value of `n` after `k` rounds of `n, _ = divmod(n, 26)`. */
  function Shifted(n: int, k: nat): int {
    if k == 0 then n else Shifted(n, k - 1) / 26
  }

  /** The letters `number_to_letters` has built after `k` rounds: each round
      prepends the letter of the current remainder. */
  function LowLetters(n: int, k: nat): (s: string)
    ensures |s| == k
    ensures forall i :: 0 <= i < k ==> IsLetter(s[i])
  {
    if k == 0 then "" else [Letter(Shifted(n, k - 1) % 26)] + LowLetters(n, k - 1)
  }

  /** The three-letter block for `n`: its three low base-26 digits, most
      significant first. */
  function LettersOf(n: int): (s: string)
    ensures |s| == 3
    ensures forall i :: 0 <= i < 3 ==> IsLetter(s[i])
  {
    LowLetters(n, 3)
  }

  /** The loop of `number_to_letters`, three rounds of divmod by 26. */
  method NumberToLetters(n0: int) returns (letters: string)
    ensures letters == LettersOf(n0)
  {
    var n := n0;
    letters := "";
    for i := 0 to 3
      invariant n == Shifted(n0, i)
      invariant letters == LowLetters(n0, i)
    {
      var remainder := n % 26;
      n := n / 26;
      letters := [Letter(remainder)] + letters;
    }
  }

  /** The order code for a counter value. */
  function OrderCode(counter: int): (code: string)
    ensures |code| == 15
    ensures code[..7] == Prefix
    ensures forall i :: 7 <= i < 10 ==> IsLetter(code[i])
    ensures AllDigits(code[10..])
  {
    var digits := ZFill(Str(counter % BlockSize + 1), 5);
    assert Pow10(5) == 100000;
    ZFillLength(counter % BlockSize + 1, 5);
    ZFillValue(counter % BlockSize + 1, 5);
    var code := Prefix + LettersOf(counter / BlockSize) + digits;
    assert code[10..] == digits;
    code
  }

  /** `generate_order_id`: straight-line arithmetic around the letter loop. */
  method GenerateOrderId(counter: int) returns (orderId: string)
    ensures orderId == OrderCode(counter)
  {
    var lettersPart := counter / BlockSize;
    var numbersPart := counter % BlockSize + 1;
    var lettersCode := NumberToLetters(lettersPart);
    orderId := Prefix + lettersCode + ZFill(Str(numbersPart), 5);
  }

  // ---------------------------------------------------------------------
  // Reading a code back

  function LettersValue(s: string): int
    requires |s| == 3
  {
    676 * (s[0] as int - 65) + 26 * (s[1] as int - 65) + (s[2] as int - 65)
  }

  /** The counter a code was minted from, if it lies in [0, CodeSpace). */
  function Decode(code: string): int
    requires |code| == 15 && AllDigits(code[10..])
  {
    LettersValue(code[7..10]) * BlockSize + Value(code[10..]) - 1
  }

  lemma DivModUnique(n: int, d: int, q: int, r: int)
    requires d > 0 && n == d * q + r && 0 <= r < d
    ensures n / d == q && n % d == r
  {
    var q', r' := n / d, n % d;
    assert d * (q' - q) == r - r';
    MultipleBelow(d, q' - q);
  }

  /** The only multiple of `d` strictly between `-d` and `d` is zero. */
  lemma MultipleBelow(d: int, k: int)
    requires d > 0
    ensures -d < d * k < d ==> k == 0
  {
    if k >= 1 {
      assert d * k == d + d * (k - 1);
    } else if k <= -1 {
      assert d * k == -d + d * (k + 1);
    }
  }

  lemma LettersOfDigits(n: int)
    ensures LettersOf(n) == [Letter(n / 26 / 26 % 26), Letter(n / 26 % 26), Letter(n % 26)]
  {
    assert Shifted(n, 1) == n / 26;
    assert Shifted(n, 2) == n / 26 / 26;
    assert LowLetters(n, 1) == [Letter(n % 26)];
    assert LowLetters(n, 2) == [Letter(n / 26 % 26), Letter(n % 26)];
  }

  /** The letter block spells the counter's block number modulo 26^3. */
  lemma LettersRoundTrip(n: int)
    ensures LettersValue(LettersOf(n)) == n % LetterSpace
  {
    LettersOfDigits(n);
    var q1, r1 := n / 26, n % 26;
    var q2, r2 := q1 / 26, q1 % 26;
    var q3, r3 := q2 / 26, q2 % 26;
    assert n == 17576 * q3 + (676 * r3 + 26 * r2 + r1);
    DivModUnique(n, 17576, q3, 676 * r3 + 26 * r2 + r1);
  }

  /** Every block AAA..ZZZ is the letter block of its own value. */
  lemma ValueRoundTrip(s: string)
    requires |s| == 3 && forall i :: 0 <= i < 3 ==> IsLetter(s[i])
    ensures LettersOf(LettersValue(s)) == s
  {
    var a, b, c := s[0] as int - 65, s[1] as int - 65, s[2] as int - 65;
    var v := LettersValue(s);
    LettersOfDigits(v);
    DivModUnique(v, 26, 26 * a + b, c);
    DivModUnique(26 * a + b, 26, a, b);
    DivModUnique(a, 26, 0, a);
  }

  /** Only the low three base-26 digits of the block number matter. */
  lemma LettersPeriodic(x: int)
    ensures LettersOf(x + LetterSpace) == LettersOf(x)
  {
    var s, t := LettersOf(x), LettersOf(x + LetterSpace);
    LettersRoundTrip(x);
    LettersRoundTrip(x + LetterSpace);
    DivModUnique(x + LetterSpace, LetterSpace, x / LetterSpace + 1, x % LetterSpace);
    ValueRoundTrip(s);
    ValueRoundTrip(t);
  }

  /** Decoding a code minted from a counter in [0, CodeSpace) gives the counter back. */
  lemma DecodeRoundTrip(counter: int)
    requires 0 <= counter < CodeSpace
    ensures Decode(OrderCode(counter)) == counter
  {
    var code := OrderCode(counter);
    var block := counter / BlockSize;
    var digits := ZFill(Str(counter % BlockSize + 1), 5);
    assert code == Prefix + LettersOf(block) + digits;
    assert code[7..10] == LettersOf(block);
    assert code[10..] == digits;
    ZFillValue(counter % BlockSize + 1, 5);
    LettersRoundTrip(block);
    assert 0 <= block < LetterSpace;
    DivModUnique(block, LetterSpace, 0, block);
  }

  /** Distinct counters in [0, CodeSpace) never share a code, as the unique
      `order_id` column requires. */
  lemma OrderCodeInjective(c1: int, c2: int)
    requires 0 <= c1 < CodeSpace && 0 <= c2 < CodeSpace
    requires c1 != c2
    ensures OrderCode(c1) != OrderCode(c2)
  {
    DecodeRoundTrip(c1);
    DecodeRoundTrip(c2);
  }

  /** Counters CodeSpace apart produce the same code: the letter block wraps
      after ZZZ. */
  lemma OrderCodeWraps(counter: int)
    ensures OrderCode(counter + CodeSpace) == OrderCode(counter)
  {
    var later := counter + CodeSpace;
    DivModUnique(later, BlockSize, counter / BlockSize + LetterSpace, counter % BlockSize);
    LettersPeriodic(counter / BlockSize);
    assert LettersOf(later / BlockSize) == LettersOf(counter / BlockSize);
    assert ZFill(Str(later % BlockSize + 1), 5) == ZFill(Str(counter % BlockSize + 1), 5);
  }

  /** The numeric block is `counter % 99999 + 1`: it reads back in 1..99999 and
      is never 00000. */
  lemma NumberBlock(counter: int)
    ensures Value(OrderCode(counter)[10..]) == counter % BlockSize + 1
    ensures 1 <= Value(OrderCode(counter)[10..]) <= BlockSize
    ensures OrderCode(counter)[10..] != "00000"
  {
    var digits := ZFill(Str(counter % BlockSize + 1), 5);
    assert OrderCode(counter)[10..] == digits;
    ZFillValue(counter % BlockSize + 1, 5);
    assert digits != "00000" by {
      ZerosAlone(5);
      assert Zeros(5) == "00000";
    }
  }

  /** The first counter gives AAA00001. */
  lemma FirstCode()
    ensures OrderCode(0) == "PRNTDT-AAA00001"
  {
    LettersOfDigits(0);
    assert LettersOf(0) == "AAA";
    assert Zeros(4) == "0000";
    assert Str(1) == "1";
  }

  /** The second counter gives AAA00002. */
  lemma SecondCode()
    ensures OrderCode(1) == "PRNTDT-AAA00002"
  {
    LettersOfDigits(0);
    assert LettersOf(0) == "AAA";
    assert Zeros(4) == "0000";
    assert Str(2) == "2";
  }

  /** The last code of block AAA. */
  lemma LastCodeOfFirstBlock()
    ensures OrderCode(99998) == "PRNTDT-AAA99999"
  {
    assert 99998 / BlockSize == 0 && 99998 % BlockSize == 99998;
    LettersOfDigits(0);
    assert LettersOf(0) == "AAA";
    assert Str(9) == "9";
    assert Str(99) == Str(9) + "9";
    assert Str(999) == Str(99) + "9";
    assert Str(9999) == Str(999) + "9";
    assert Str(99999) == Str(9999) + "9";
    assert ZFill(Str(99999), 5) == "99999";
    assert OrderCode(99998) == Prefix + "AAA" + "99999";
  }

  /** The counter after it rolls over to AAB00001. */
  lemma RollOverCode()
    ensures OrderCode(99999) == "PRNTDT-AAB00001"
  {
    LettersOfDigits(1);
    assert LettersOf(1) == "AAB";
    assert Zeros(4) == "0000";
    assert Str(1) == "1";
  }
}
