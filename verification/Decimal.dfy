/** Decimal numbers as strconv.FormatUint, FormatInt and ParseUint(s, 10, 32) write and read them. */
module Decimal {
  import opened Wrappers

  const UINT32_LIMIT: int := 0x1_0000_0000
  type Uint32 = n: int | 0 <= n < UINT32_LIMIT

  predicate IsDigit(c: char) {
    '0' <= c <= '9'
  }

  function DigitValue(c: char): (d: nat)
    requires IsDigit(c)
    ensures d < 10
  {
    c as int - '0' as int
  }

  function DigitChar(d: nat): (c: char)
    requires d < 10
    ensures IsDigit(c) && DigitValue(c) == d
  {
    (d + '0' as int) as char
  }

  predicate AllDigits(s: string) {
    forall i :: 0 <= i < |s| ==> IsDigit(s[i])
  }

  /** The number a digit string denotes, leading zeros allowed. */
  function Value(s: string): nat
    requires AllDigits(s)
  {
    if s == "" then 0 else 10 * Value(s[..|s| - 1]) + DigitValue(s[|s| - 1])
  }

  /** strconv.FormatUint(n, 10). */
  function Print(n: nat): (s: string)
    ensures s != "" && AllDigits(s)
  {
    if n < 10 then [DigitChar(n)] else Print(n / 10) + [DigitChar(n % 10)]
  }

  lemma {:induction false} PrintValue(n: nat)
    ensures Value(Print(n)) == n
  {
    if n < 10 {
      assert [DigitChar(n)][..0] == "";
    } else {
      PrintValue(n / 10);
      assert Print(n)[..|Print(n)| - 1] == Print(n / 10);
    }
  }

  /** Digits weigh powers of ten. */
  lemma PrintExamples()
    ensures Print(0) == "0" && Print(10) == "10" && Print(209) == "209"
  {
    assert Print(20) == "20" && Print(2) == "2" && Print(1) == "1";
  }

  lemma {:induction false} ValueZeros(zeros: string, s: string)
    requires AllDigits(s) && forall i :: 0 <= i < |zeros| ==> zeros[i] == '0'
    ensures AllDigits(zeros + s) && Value(zeros + s) == Value(s)
  {
    if s == "" {
      assert zeros + s == zeros;
      if zeros != "" {
        var z := zeros[..|zeros| - 1];
        ValueZeros(z, "");
        assert z + "" == z;
      }
    } else {
      assert (zeros + s)[..|zeros + s| - 1] == zeros + s[..|s| - 1];
      ValueZeros(zeros, s[..|s| - 1]);
    }
  }

  /** strconv.ParseUint(s, 10, 32): digits only, no sign, below 2^32. */
  function ParseUint32(s: string): (r: Option<Uint32>)
    ensures r.Some? <==> s != "" && AllDigits(s) && Value(s) < UINT32_LIMIT
    ensures r.Some? ==> r.value == Value(s)
  {
    if s != "" && AllDigits(s) && Value(s) < UINT32_LIMIT then Some(Value(s)) else None
  }

  /** strconv.FormatInt(n, 10). */
  function PrintInt(n: int): (s: string)
    ensures s != ""
  {
    if n < 0 then "-" + Print(-n) else Print(n)
  }

  /** Reads back what PrintInt writes. */
  function ReadInt(s: string): Option<int> {
    if s == "" then None
    else if s[0] == '-' then
      if |s| > 1 && AllDigits(s[1..]) then Some(0 - Value(s[1..])) else None
    else if AllDigits(s) then Some(Value(s)) else None
  }

  lemma PrintIntRoundTrip(n: int)
    ensures ReadInt(PrintInt(n)) == Some(n)
    ensures '\n' !in PrintInt(n)
  {
    if n < 0 {
      PrintValue(-n);
      assert PrintInt(n)[1..] == Print(-n);
    } else {
      PrintValue(n);
    }
  }
}
