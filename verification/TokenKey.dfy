/**
 * A token id as an id column of `examples/event-processor-nfts` (`entities.ts`): its decimal form
 * padded to a fixed width, so that listings, which order ids bytewise, order them by number.
 */
module TokenKey {
  import Bytes

  const WIDTH: nat := 78

  function DigitChar(d: nat): char
    requires d < 10
  {
    (d + '0' as nat) as char
  }

  /** `toString()` of a non-negative bigint. */
  function Decimal(n: nat): (s: string)
    ensures s != ""
  {
    if n < 10 then [DigitChar(n)] else Decimal(n / 10) + [DigitChar(n % 10)]
  }

  function PadStart(s: string, width: nat): (r: string)
    ensures |r| == if |s| < width then width else |s|
    decreases width - |s|
  {
    if |s| >= width then s else PadStart(['0'] + s, width)
  }

  function Key(n: nat): string { PadStart(Decimal(n), WIDTH) }

  predicate IsDigit(c: char) { '0' <= c <= '9' }

  /** `replace(/^0+(?=\d)/, '')`: every leading zero that a digit follows. */
  function Readable(key: string): string {
    if |key| > 1 && key[0] == '0' && IsDigit(key[1]) then Readable(key[1..]) else key
  }

  // ------------------------------------------------------------------------ round trip

  lemma {:induction false} DecimalDigits(n: nat)
    ensures forall i :: 0 <= i < |Decimal(n)| ==> IsDigit(Decimal(n)[i])
    ensures n > 0 ==> Decimal(n)[0] != '0'
  {
    if n >= 10 { DecimalDigits(n / 10); }
  }

  lemma {:induction false} ReadablePadded(s: string, width: nat)
    requires s != "" && IsDigit(s[0])
    ensures Readable(PadStart(s, width)) == Readable(s)
    decreases width - |s|
  {
    if |s| < width {
      ReadablePadded(['0'] + s, width);
      assert (['0'] + s)[1..] == s;
    }
  }

  /** The display form of any key is the id's own decimal form, of any size. */
  lemma KeysReadBack(n: nat)
    ensures Readable(Key(n)) == Decimal(n)
  {
    DecimalDigits(n);
    ReadablePadded(Decimal(n), WIDTH);
  }

  function ValueOf(s: string): int {
    if s == "" then 0 else ValueOf(s[..|s| - 1]) * 10 + (s[|s| - 1] as int - '0' as int)
  }

  lemma {:induction false} DecimalIsValue(n: nat)
    ensures ValueOf(Decimal(n)) == n
  {
    if n >= 10 {
      DecimalIsValue(n / 10);
      assert Decimal(n)[..|Decimal(n)| - 1] == Decimal(n / 10);
    } else {
      assert Decimal(n)[..0] == "";
    }
  }

  /** No two ids share a key. */
  lemma KeysAreDistinct(n: nat, m: nat)
    requires Key(n) == Key(m)
    ensures n == m
  {
    KeysReadBack(n);
    KeysReadBack(m);
    DecimalIsValue(n);
    DecimalIsValue(m);
  }

  // ----------------------------------------------------------------------------- order

  function Pow10(k: nat): (p: nat)
    ensures p > 0
  {
    if k == 0 then 1 else 10 * Pow10(k - 1)
  }

  /** The low `k` digits of `n`. */
  function Digits(n: nat, k: nat): (s: string)
    ensures |s| == k
  {
    if k == 0 then "" else Digits(n / 10, k - 1) + [DigitChar(n % 10)]
  }

  function Codes(s: string): (codes: seq<nat>)
    ensures |codes| == |s| && forall i :: 0 <= i < |s| ==> codes[i] == s[i] as nat
  {
    seq(|s|, i requires 0 <= i < |s| => s[i] as nat)
  }

  /** How a listing compares two ids: bytewise, and every digit is one byte. */
  function Compared(a: string, b: string): int { Bytes.Compare(Codes(a), Codes(b)) }

  lemma {:induction false} PadStartSnoc(s: string, c: char, width: nat)
    ensures PadStart(s + [c], width + 1) == PadStart(s, width) + [c]
    decreases width - |s|
  {
    if |s| < width {
      PadStartSnoc(['0'] + s, c, width);
      assert ['0'] + (s + [c]) == (['0'] + s) + [c];
    }
  }

  lemma {:induction false} ZeroPadded(k: nat, c: char)
    ensures PadStart([c], k + 1) == Digits(0, k) + [c]
  {
    if k == 0 {
      assert Digits(0, 0) + [c] == [c];
    } else {
      ZeroPadded(k - 1, '0');
      PadStartSnoc(['0'], c, k);
      assert PadStart([c], k + 1) == PadStart(['0'] + [c], k + 1);
      assert DigitChar(0) == '0';
    }
  }

  lemma {:induction false} PaddedIsDigits(n: nat, k: nat)
    requires n < Pow10(k) && k > 0
    ensures PadStart(Decimal(n), k) == Digits(n, k)
  {
    if n < 10 {
      ZeroPadded(k - 1, DigitChar(n));
    } else {
      PaddedIsDigits(n / 10, k - 1);
      PadStartSnoc(Decimal(n / 10), DigitChar(n % 10), k - 1);
    }
  }

  lemma {:induction false} DigitsOrder(n: nat, m: nat, k: nat)
    requires n < Pow10(k) && m < Pow10(k)
    ensures Bytes.Sign(Compared(Digits(n, k), Digits(m, k))) == Bytes.Sign(n - m)
  {
    if k > 0 {
      var a, b := Codes(Digits(n / 10, k - 1)), Codes(Digits(m / 10, k - 1));
      DigitsOrder(n / 10, m / 10, k - 1);
      Bytes.CompareSnoc(a, b, DigitChar(n % 10) as nat, DigitChar(m % 10) as nat);
      Bytes.CompareIsZeroOnlyOnEquals(a, b);
      assert Codes(Digits(n, k)) == a + [DigitChar(n % 10) as nat];
      assert Codes(Digits(m, k)) == b + [DigitChar(m % 10) as nat];
    }
  }

  /** Keys of ids of at most 78 digits compare as the ids do. */
  lemma KeysOrderAsIds(n: nat, m: nat)
    requires n < Pow10(WIDTH) && m < Pow10(WIDTH)
    ensures Bytes.Sign(Compared(Key(n), Key(m))) == Bytes.Sign(n - m)
  {
    PaddedIsDigits(n, WIDTH);
    PaddedIsDigits(m, WIDTH);
    DigitsOrder(n, m, WIDTH);
  }

  lemma {:induction false} Pow10Sum(j: nat, k: nat)
    ensures Pow10(j + k) == Pow10(j) * Pow10(k)
  {
    if k > 0 {
      Pow10Sum(j, k - 1);
      assert Pow10(j + k) == 10 * Pow10(j + (k - 1));
      assert Pow10(j) * (10 * Pow10(k - 1)) == 10 * (Pow10(j) * Pow10(k - 1));
    }
  }

  /** And every `uint256` is one of those. */
  lemma Uint256Fits()
    ensures 0x1_0000000000000000_0000000000000000_0000000000000000_0000000000000000 < Pow10(WIDTH)
  {
    assert Pow10(6) == 1000000;
    assert Pow10(7) == 10000000;
    Pow10Sum(6, 7);
    Pow10Sum(13, 13);
    Pow10Sum(26, 26);
    Pow10Sum(52, 26);
  }

  lemma {:induction false} DecimalOfPow10(k: nat)
    ensures |Decimal(Pow10(k))| == k + 1 && Decimal(Pow10(k))[0] == '1'
  {
    if k > 0 {
      DecimalOfPow10(k - 1);
      assert Pow10(k) / 10 == Pow10(k - 1);
    }
  }

  /** One digit more and the order is lost: the least id of 79 digits comes before one of 78. */
  lemma LongerIdsMisorder()
    ensures Compared(Key(Pow10(WIDTH)), Key(2 * Pow10(WIDTH - 1))) < 0
  {
    var n, m := Pow10(WIDTH), 2 * Pow10(WIDTH - 1);
    DecimalOfPow10(WIDTH);
    DecimalOfTwice(WIDTH - 1);
    assert Codes(Key(n))[..0] == Codes(Key(m))[..0];
    Bytes.FirstDifference(Codes(Key(n)), Codes(Key(m)), 0);
  }

  lemma {:induction false} DecimalOfTwice(k: nat)
    ensures |Decimal(2 * Pow10(k))| == k + 1 && Decimal(2 * Pow10(k))[0] == '2'
  {
    if k > 0 {
      DecimalOfTwice(k - 1);
      assert 2 * Pow10(k) / 10 == 2 * Pow10(k - 1);
    }
  }
}
