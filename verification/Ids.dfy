/** Record identifiers: a fixed prefix and a decimal counter, printed and parsed back. */
module Ids {

  const UINT64_LIMIT: nat := 0x1_0000_0000_0000_0000

  /** One more, in 64 bits. */
  function Increment64(n: nat): (m: nat)
    ensures m < UINT64_LIMIT
    ensures n + 1 < UINT64_LIMIT ==> m == n + 1
  {
    (n + 1) % UINT64_LIMIT
  }

  predicate IsDecimalDigit(c: char) { '0' <= c <= '9' }

  function DigitChar(d: nat): (c: char)
    requires d < 10
    ensures IsDecimalDigit(c)
  {
    ['0', '1', '2', '3', '4', '5', '6', '7', '8', '9'][d]
  }

  function DigitValue(c: char): nat
    requires IsDecimalDigit(c)
  {
    (c as int) - ('0' as int)
  }

  function Decimal(n: nat): (s: string)
    ensures s != [] && forall i :: 0 <= i < |s| ==> IsDecimalDigit(s[i])
    ensures n > 0 ==> s[0] != '0'
  {
    if n < 10 then [DigitChar(n)] else Decimal(n / 10) + [DigitChar(n % 10)]
  }

  /** The digits a scan for an unsigned decimal consumes from the front of `s`. */
  function LeadingDigits(s: string): (d: string)
    ensures forall i :: 0 <= i < |d| ==> IsDecimalDigit(d[i])
  {
    if s != [] && IsDecimalDigit(s[0]) then [s[0]] + LeadingDigits(s[1..]) else []
  }

  function ValueOf(d: string): nat
    requires forall i :: 0 <= i < |d| ==> IsDecimalDigit(d[i])
  {
    if d == [] then 0 else 10 * ValueOf(d[..|d| - 1]) + DigitValue(d[|d| - 1])
  }

  /** For instance. */
  lemma DecimalExamples()
    ensures Decimal(0) == "0" && Decimal(7) == "7" && Decimal(42) == "42" && Decimal(1003) == "1003"
  {
    assert Decimal(4) == "4" && Decimal(1) == "1" && Decimal(10) == "10" && Decimal(100) == "100";
  }

  function FormatId(prefix: string, n: nat): string {
    prefix + Decimal(n)
  }

  /** The number in an identifier; 0 when the prefix or the digits are missing, or when
      the digits overflow the counter's 64 bits. */
  function ParseNum(prefix: string, id: string): (n: nat)
    ensures n < UINT64_LIMIT
    ensures !(prefix <= id) || LeadingDigits(id[|prefix|..]) == "" || ValueOf(LeadingDigits(id[|prefix|..])) >= UINT64_LIMIT ==> n == 0
  {
    if prefix <= id then
      var v := ValueOf(LeadingDigits(id[|prefix|..]));
      if v < UINT64_LIMIT then v else 0
    else 0
  }

  lemma {:induction false} LeadingDigitsOfDigits(d: string)
    requires forall i :: 0 <= i < |d| ==> IsDecimalDigit(d[i])
    ensures LeadingDigits(d) == d
  {
    if d != [] {
      LeadingDigitsOfDigits(d[1..]);
      assert d == [d[0]] + d[1..];
    }
  }

  lemma {:induction false} ValueOfDecimal(n: nat)
    ensures ValueOf(Decimal(n)) == n
  {
    if n < 10 {
      assert DigitValue(DigitChar(n)) == n;
      assert Decimal(n)[..0] == [];
    } else {
      ValueOfDecimal(n / 10);
      assert Decimal(n)[..|Decimal(n)| - 1] == Decimal(n / 10);
      assert DigitValue(DigitChar(n % 10)) == n % 10;
    }
  }

  /** Parsing undoes printing, for every counter value a 64-bit counter can hold. */
  lemma {:induction false} ParseFormat(prefix: string, n: nat)
    requires n < UINT64_LIMIT
    ensures ParseNum(prefix, FormatId(prefix, n)) == n
  {
    var id := FormatId(prefix, n);
    assert id[|prefix|..] == Decimal(n);
    assert prefix <= id;
    LeadingDigitsOfDigits(Decimal(n));
    ValueOfDecimal(n);
  }
}
