/**
 * Human-readable document numbers (server.js:306-310, 415-419, 680-683).
 *
 * The next number is computed by one SQL query:
 *   LPAD((COALESCE(MAX(CAST(SUBSTRING(number FROM start) AS INTEGER)), 0) + 1)::text, 6, '0')
 * over the rows whose number is LIKE prefix || '%', and the prefix is put in front.
 * This module gives each piece of that query its PostgreSQL meaning and proves when
 * the result is fresh.
 */
module Numbering {
  import opened Wrappers

  const SalePrefix: string := "SALE-2025-"
  const RefundPrefix: string := "REFUND-2025-"
  /** Width of the zero-padded numeric suffix. */
  const Width: nat := 6
  /** Largest value of PostgreSQL's INTEGER. */
  const IntMax: nat := 2147483647

  predicate IsDigit(c: char) {
    '0' <= c <= '9'
  }

  predicate AllDigits(s: string) {
    forall i :: 0 <= i < |s| ==> IsDigit(s[i])
  }

  function DigitValue(c: char): (d: nat)
    requires IsDigit(c)
    ensures d < 10
  {
    c as int - '0' as int
  }

  function DigitChar(d: nat): (c: char)
    requires d < 10
    ensures IsDigit(c) && DigitValue(c) == d
  {
    ('0' as int + d) as char
  }

  function Pow10(k: nat): (r: nat)
    ensures r >= 1
  {
    if k == 0 then 1 else 10 * Pow10(k - 1)
  }

  /** Decimal value of a digit string, most significant digit first; leading zeros allowed. */
  function ValueOf(s: string): nat
    requires AllDigits(s)
  {
    if s == [] then 0 else ValueOf(s[..|s| - 1]) * 10 + DigitValue(s[|s| - 1])
  }

  /** `n::text`: the decimal digits of `n` without leading zeros. */
  function DigitsOf(n: nat): (r: string)
    ensures AllDigits(r) && |r| >= 1
    decreases n
  {
    if n < 10 then [DigitChar(n)] else DigitsOf(n / 10) + [DigitChar(n % 10)]
  }

  /** PostgreSQL `lpad(s, len, fill)`: pads on the left, and truncates on the right when `s` is too long. */
  function Lpad(s: string, len: nat, fill: char): (r: string)
    ensures |r| == len
  {
    if |s| >= len then s[..len] else seq(len - |s|, _ => fill) + s
  }

  /** PostgreSQL `substring(s FROM pos)`, positions counted from 1. */
  function SubstringFrom(s: string, pos: nat): string
    requires pos >= 1
  {
    if pos - 1 <= |s| then s[pos - 1..] else []
  }

  /** `CAST(s AS INTEGER)` on a string of digits (None: the cast raises an error). */
  function CastInteger(s: string): Option<nat> {
    if s != [] && AllDigits(s) && ValueOf(s) <= IntMax then Some(ValueOf(s)) else None
  }

  /** `s LIKE prefix || '%'` for a prefix without wildcards. */
  predicate HasPrefix(s: string, prefix: string) {
    |prefix| <= |s| && s[..|prefix|] == prefix
  }

  /** The numeric suffix the query reads from one row. */
  function SuffixOf(number: string, start: nat): Option<nat>
    requires start >= 1
  {
    CastInteger(SubstringFrom(number, start))
  }

  /**
   * `COALESCE(MAX(CAST(SUBSTRING(number FROM start) AS INTEGER)), 0)` over the rows that match
   * the prefix. None: the cast failed on one of those rows and the query raised an error.
   */
  function MaxSuffix(numbers: seq<string>, prefix: string, start: nat): (r: Option<nat>)
    requires start >= 1
    ensures r.Some? <==> forall k :: 0 <= k < |numbers| && HasPrefix(numbers[k], prefix) ==> SuffixOf(numbers[k], start).Some?
    ensures r.Some? ==> forall k :: 0 <= k < |numbers| && HasPrefix(numbers[k], prefix) ==> SuffixOf(numbers[k], start).value <= r.value
    ensures r.Some? && r.value > 0 ==>
      exists k :: 0 <= k < |numbers| && HasPrefix(numbers[k], prefix) && SuffixOf(numbers[k], start) == r
  {
    if numbers == [] then Some(0)
    else
      var rest := MaxSuffix(numbers[1..], prefix, start);
      assert forall k :: 1 <= k < |numbers| ==> numbers[k] == numbers[1..][k - 1];
      if !HasPrefix(numbers[0], prefix) then rest
      else match SuffixOf(numbers[0], start)
        case None => None
        case Some(v) => if rest.None? then None else Some(if v > rest.value then v else rest.value)
  }

  /**
   * The whole numbering query with the prefix put in front (None: the query raised
   * an error, either in a cast or because `MAX(...) + 1` overflows INTEGER).
   */
  function NextNumber(numbers: seq<string>, prefix: string, start: nat): (r: Option<string>)
    requires start >= 1
    ensures r.Some? <==> MaxSuffix(numbers, prefix, start).Some? && MaxSuffix(numbers, prefix, start).value < IntMax
    ensures r.Some? ==> HasPrefix(r.value, prefix) && |r.value| == |prefix| + Width
  {
    match MaxSuffix(numbers, prefix, start)
    case None => None
    case Some(m) => if m + 1 > IntMax then None else Some(prefix + Lpad(DigitsOf(m + 1), Width, '0'))
  }

  /** server.js:306-310 and 680-683: the suffix of 'SALE-2025-NNNNNN' starts at position 11. */
  function NextSaleNumber(numbers: seq<string>): Option<string> {
    NextNumber(numbers, SalePrefix, 11)
  }

  /** server.js:415-419 as written: reads from position 15 although the suffix of 'REFUND-2025-NNNNNN' starts at 13. */
  function NextRefundNumberAsWritten(numbers: seq<string>): Option<string> {
    NextNumber(numbers, RefundPrefix, 15)
  }

  /** The refund numbering with the suffix read from where it starts. */
  function NextRefundNumber(numbers: seq<string>): Option<string> {
    NextNumber(numbers, RefundPrefix, 13)
  }

  // ---------------------------------------------------------------- digit lemmas

  lemma {:induction false} ValueOfBound(s: string)
    requires AllDigits(s)
    ensures ValueOf(s) < Pow10(|s|)
  {
    if s != [] {
      var init := s[..|s| - 1];
      ValueOfBound(init);
      assert ValueOf(init) * 10 <= (Pow10(|init|) - 1) * 10;
    }
  }

  lemma {:induction false} ValueOfAppend(a: string, b: string)
    requires AllDigits(a) && AllDigits(b)
    ensures AllDigits(a + b)
    ensures ValueOf(a + b) == ValueOf(a) * Pow10(|b|) + ValueOf(b)
    decreases |b|
  {
    if b == [] {
      assert a + b == a;
    } else {
      var b' := b[..|b| - 1];
      assert (a + b)[..|a + b| - 1] == a + b';
      assert (a + b)[|a + b| - 1] == b[|b| - 1];
      ValueOfAppend(a, b');
      var d := DigitValue(b[|b| - 1]);
      assert ValueOf(a + b) == ValueOf(a + b') * 10 + d;
      assert ValueOf(b) == ValueOf(b') * 10 + d;
      ShiftPlace(ValueOf(a), Pow10(|b'|), ValueOf(b'), d);
    }
  }

  /** The arithmetic of one more digit: `(x * p + y) * 10 + d == x * (10 * p) + (y * 10 + d)`. */
  lemma ShiftPlace(x: int, p: int, y: int, d: int)
    ensures (x * p + y) * 10 + d == x * (10 * p) + (y * 10 + d)
  {
    assert (x * p) * 10 == x * (10 * p);
  }

  /** One more digit on the right: the value is shifted by one place. */
  lemma ValuePrefixStep(s: string, k: nat)
    requires AllDigits(s) && k < |s|
    ensures ValueOf(s[..k + 1]) == ValueOf(s[..k]) * 10 + DigitValue(s[k])
  {
    assert s[..k + 1][..k] == s[..k];
  }

  /** The value of a six-digit string, digit by digit. */
  lemma ValueOfSix(s: string)
    requires |s| == 6 && AllDigits(s)
    ensures ValueOf(s) == DigitValue(s[0]) * 100000 + DigitValue(s[1]) * 10000 + DigitValue(s[2]) * 1000
                        + DigitValue(s[3]) * 100 + DigitValue(s[4]) * 10 + DigitValue(s[5])
  {
    assert s[..0] == [];
    ValuePrefixStep(s, 0);
    ValuePrefixStep(s, 1);
    ValuePrefixStep(s, 2);
    ValuePrefixStep(s, 3);
    ValuePrefixStep(s, 4);
    ValuePrefixStep(s, 5);
    assert s[..6] == s;
  }

  /** The value of a four-digit string, digit by digit. */
  lemma ValueOfFour(s: string)
    requires |s| == 4 && AllDigits(s)
    ensures ValueOf(s) == DigitValue(s[0]) * 1000 + DigitValue(s[1]) * 100 + DigitValue(s[2]) * 10 + DigitValue(s[3])
  {
    assert s[..0] == [];
    ValuePrefixStep(s, 0);
    ValuePrefixStep(s, 1);
    ValuePrefixStep(s, 2);
    ValuePrefixStep(s, 3);
    assert s[..4] == s;
  }

  /** `MaxSuffix` of two numbers that both match the prefix. */
  lemma MaxSuffixOfTwo(a: string, b: string, prefix: string, start: nat, va: nat, vb: nat)
    requires start >= 1
    requires HasPrefix(a, prefix) && HasPrefix(b, prefix)
    requires SuffixOf(a, start) == Some(va) && SuffixOf(b, start) == Some(vb)
    ensures MaxSuffix([a, b], prefix, start) == Some(if va > vb then va else vb)
  {
    var ns := [a, b];
    assert ns[1..] == [b];
    assert [b][1..] == [];
    assert MaxSuffix([b], prefix, start) == Some(vb);
  }

  lemma {:induction false} ZerosValue(k: nat)
    ensures AllDigits(seq(k, _ => '0'))
    ensures ValueOf(seq(k, _ => '0')) == 0
  {
    if k > 0 {
      assert seq(k, _ => '0')[..k - 1] == seq(k - 1, _ => '0');
      ZerosValue(k - 1);
    }
  }

  /** `::text` and reading the digits back are inverse. */
  lemma {:induction false} DigitsOfValue(n: nat)
    ensures ValueOf(DigitsOf(n)) == n
    decreases n
  {
    if n >= 10 {
      DigitsOfValue(n / 10);
      var r := DigitsOf(n);
      assert r[..|r| - 1] == DigitsOf(n / 10);
    }
  }

  lemma {:induction false} DigitsOfShort(n: nat, k: nat)
    requires k >= 1 && n < Pow10(k)
    ensures |DigitsOf(n)| <= k
    decreases n
  {
    if n >= 10 {
      assert n / 10 < Pow10(k - 1);
      assert k - 1 != 0 by {
        assert Pow10(0) == 1;
      }
      DigitsOfShort(n / 10, k - 1);
    }
  }

  /** Below one million, padding `n::text` to six digits keeps its value. */
  lemma LpadDigitsValue(n: nat)
    requires n < Pow10(Width)
    ensures AllDigits(Lpad(DigitsOf(n), Width, '0'))
    ensures ValueOf(Lpad(DigitsOf(n), Width, '0')) == n
  {
    var d := DigitsOf(n);
    DigitsOfShort(n, Width);
    DigitsOfValue(n);
    var z := seq(Width - |d|, _ => '0');
    ZerosValue(Width - |d|);
    ValueOfAppend(z, d);
    assert Lpad(d, Width, '0') == z + d;
  }

  /** `1000000::text` and the numbers on the way there. */
  lemma DigitsOfMillion()
    ensures DigitsOf(100000) == "100000" && DigitsOf(1000000) == "1000000"
  {
    assert DigitsOf(1) == "1";
    assert DigitsOf(10) == "10";
    assert DigitsOf(100) == "100";
    assert DigitsOf(1000) == "1000";
    assert DigitsOf(10000) == "10000";
    assert DigitsOf(100000) == "100000";
  }

  lemma DigitsOfTenThousand()
    ensures DigitsOf(10000) == "10000" && DigitsOf(10001) == "10001"
  {
    assert DigitsOf(1) == "1";
    assert DigitsOf(10) == "10";
    assert DigitsOf(100) == "100";
    assert DigitsOf(1000) == "1000";
  }

  /** The refund numbers that follow 10000 and 10001 issued before. */
  lemma PaddedTenThousand()
    ensures RefundPrefix + Lpad(DigitsOf(10000), Width, '0') == "REFUND-2025-010000"
    ensures RefundPrefix + Lpad(DigitsOf(10001), Width, '0') == "REFUND-2025-010001"
  {
    DigitsOfTenThousand();
    assert Lpad("10000", Width, '0') == "010000";
    assert Lpad("10001", Width, '0') == "010001";
  }

  lemma SaleSuffixes()
    ensures SuffixOf("SALE-2025-100000", 11) == Some(100000)
    ensures SuffixOf("SALE-2025-999999", 11) == Some(999999)
  {
    assert SubstringFrom("SALE-2025-100000", 11) == "100000";
    ValueOfSix("100000");
    assert SubstringFrom("SALE-2025-999999", 11) == "999999";
    ValueOfSix("999999");
  }

  lemma RefundNumbersMatch()
    ensures HasPrefix("REFUND-2025-009999", RefundPrefix) && HasPrefix("REFUND-2025-010000", RefundPrefix)
  {
    assert "REFUND-2025-009999"[..12] == RefundPrefix;
    assert "REFUND-2025-010000"[..12] == RefundPrefix;
  }

  lemma RefundSuffixesAt15()
    ensures SuffixOf("REFUND-2025-009999", 15) == Some(9999)
    ensures SuffixOf("REFUND-2025-010000", 15) == Some(0)
  {
    assert SubstringFrom("REFUND-2025-009999", 15) == "9999";
    ValueOfFour("9999");
    assert SubstringFrom("REFUND-2025-010000", 15) == "0000";
    ValueOfFour("0000");
  }

  lemma RefundSuffixesAt13()
    ensures SuffixOf("REFUND-2025-009999", 13) == Some(9999)
    ensures SuffixOf("REFUND-2025-010000", 13) == Some(10000)
  {
    assert SubstringFrom("REFUND-2025-009999", 13) == "009999";
    ValueOfSix("009999");
    assert SubstringFrom("REFUND-2025-010000", 13) == "010000";
    ValueOfSix("010000");
  }

  // ---------------------------------------------------------------- freshness

  /**
   * When the suffix is read from where it starts and the largest suffix is below 999999,
   * the next number is new: its suffix is one more than every suffix already taken.
   */
  lemma NextNumberFresh(numbers: seq<string>, prefix: string, start: nat)
    requires start == |prefix| + 1
    requires MaxSuffix(numbers, prefix, start).Some?
    requires MaxSuffix(numbers, prefix, start).value < 999999
    ensures NextNumber(numbers, prefix, start).Some?
    ensures NextNumber(numbers, prefix, start).value !in numbers
    ensures SuffixOf(NextNumber(numbers, prefix, start).value, start) == Some(MaxSuffix(numbers, prefix, start).value + 1)
    ensures forall k :: 0 <= k < |numbers| && HasPrefix(numbers[k], prefix) ==>
      SuffixOf(numbers[k], start).value < MaxSuffix(numbers, prefix, start).value + 1
  {
    var m := MaxSuffix(numbers, prefix, start).value;
    var p := Lpad(DigitsOf(m + 1), Width, '0');
    var next := prefix + p;
    assert Pow10(Width) == 1000000;
    LpadDigitsValue(m + 1);
    assert SubstringFrom(next, start) == p;
    assert SuffixOf(next, start) == Some(m + 1);
  }

  /** The next sale number is fresh while every sale suffix is below 999999. */
  lemma SaleNumberFresh(numbers: seq<string>)
    requires MaxSuffix(numbers, SalePrefix, 11).Some?
    requires MaxSuffix(numbers, SalePrefix, 11).value < 999999
    ensures NextSaleNumber(numbers).Some?
    ensures NextSaleNumber(numbers).value !in numbers
  {
    NextNumberFresh(numbers, SalePrefix, 11);
  }

  /** The corrected refund number is fresh while every refund suffix is below 999999. */
  lemma RefundNumberFresh(numbers: seq<string>)
    requires MaxSuffix(numbers, RefundPrefix, 13).Some?
    requires MaxSuffix(numbers, RefundPrefix, 13).value < 999999
    ensures NextRefundNumber(numbers).Some?
    ensures NextRefundNumber(numbers).value !in numbers
  {
    NextNumberFresh(numbers, RefundPrefix, 13);
  }

  /** Past 999999 the seven-digit `1000000` is truncated by LPAD to `100000`, a number already issued. */
  lemma SaleNumberWrapsAfterMax()
    ensures NextSaleNumber(["SALE-2025-100000", "SALE-2025-999999"]) == Some("SALE-2025-100000")
  {
    var a, b := "SALE-2025-100000", "SALE-2025-999999";
    SaleSuffixes();
    MaxSuffixOfTwo(a, b, SalePrefix, 11, 100000, 999999);
    DigitsOfMillion();
    assert Lpad("1000000", Width, '0') == "100000";
    assert SalePrefix + "100000" == a;
  }

  // ---------------------------------------------------------------- the refund suffix offset

  /** A number as the system issues it: the prefix followed by six digits. */
  predicate IssuedNumber(n: string, prefix: string) {
    HasPrefix(n, prefix) && |n| == |prefix| + Width && AllDigits(n[|prefix|..])
  }

  /** Reading from 15 instead of 13 drops the first two digits, which are zeros below 10000. */
  lemma AsWrittenSuffixAgrees(n: string)
    requires IssuedNumber(n, RefundPrefix)
    requires ValueOf(n[12..]) < 10000
    ensures SuffixOf(n, 15) == SuffixOf(n, 13)
  {
    assert |RefundPrefix| == 12;
    var s := n[12..];
    assert |s| == 6 && AllDigits(s);
    assert s == s[..2] + s[2..];
    ValueOfAppend(s[..2], s[2..]);
    ValueOfBound(s[2..]);
    assert Pow10(4) == 10000;
    assert SubstringFrom(n, 15) == s[2..];
    assert SubstringFrom(n, 13) == s;
  }

  lemma {:induction false} MaxSuffixSameReads(numbers: seq<string>, prefix: string, a: nat, b: nat)
    requires a >= 1 && b >= 1
    requires forall k :: 0 <= k < |numbers| && HasPrefix(numbers[k], prefix) ==> SuffixOf(numbers[k], a) == SuffixOf(numbers[k], b)
    ensures MaxSuffix(numbers, prefix, a) == MaxSuffix(numbers, prefix, b)
  {
    if numbers != [] {
      var tail := numbers[1..];
      forall k | 0 <= k < |tail| && HasPrefix(tail[k], prefix) ensures SuffixOf(tail[k], a) == SuffixOf(tail[k], b) {
        assert tail[k] == numbers[k + 1];
      }
      MaxSuffixSameReads(tail, prefix, a, b);
    }
  }

  /** As written, the refund number is still fresh while every issued refund suffix is below 10000. */
  lemma RefundAsWrittenFreshBelow10000(numbers: seq<string>)
    requires forall k :: 0 <= k < |numbers| && HasPrefix(numbers[k], RefundPrefix) ==>
      IssuedNumber(numbers[k], RefundPrefix) && ValueOf(numbers[k][12..]) < 10000
    ensures NextRefundNumberAsWritten(numbers).Some?
    ensures NextRefundNumberAsWritten(numbers).value !in numbers
  {
    forall k | 0 <= k < |numbers| && HasPrefix(numbers[k], RefundPrefix)
      ensures SuffixOf(numbers[k], 15) == SuffixOf(numbers[k], 13)
      ensures SuffixOf(numbers[k], 13) == Some(ValueOf(numbers[k][12..]))
    {
      AsWrittenSuffixAgrees(numbers[k]);
      assert SubstringFrom(numbers[k], 13) == numbers[k][12..];
    }
    MaxSuffixSameReads(numbers, RefundPrefix, 15, 13);
    var m := MaxSuffix(numbers, RefundPrefix, 13);
    assert m.Some? && m.value < 10000;
    NextNumberFresh(numbers, RefundPrefix, 13);
  }

  /** Once refund 010000 exists, the query reads it as 0 and proposes 010000 again. */
  lemma RefundAsWrittenCollides()
    ensures NextRefundNumberAsWritten(["REFUND-2025-009999", "REFUND-2025-010000"]) == Some("REFUND-2025-010000")
  {
    var a, b := "REFUND-2025-009999", "REFUND-2025-010000";
    RefundSuffixesAt15();
    RefundNumbersMatch();
    MaxSuffixOfTwo(a, b, RefundPrefix, 15, 9999, 0);
    assert MaxSuffix([a, b], RefundPrefix, 15) == Some(9999);
    PaddedTenThousand();
    assert NextNumber([a, b], RefundPrefix, 15) == Some(RefundPrefix + Lpad(DigitsOf(10000), Width, '0'));
  }

  /** With the suffix read from 13, the same two refunds lead to 010001. */
  lemma RefundCorrectedAfterCollisionCase()
    ensures NextRefundNumber(["REFUND-2025-009999", "REFUND-2025-010000"]) == Some("REFUND-2025-010001")
  {
    var a, b := "REFUND-2025-009999", "REFUND-2025-010000";
    RefundSuffixesAt13();
    RefundNumbersMatch();
    MaxSuffixOfTwo(a, b, RefundPrefix, 13, 9999, 10000);
    assert MaxSuffix([a, b], RefundPrefix, 13) == Some(10000);
    PaddedTenThousand();
    assert NextNumber([a, b], RefundPrefix, 13) == Some(RefundPrefix + Lpad(DigitsOf(10001), Width, '0'));
  }
}
