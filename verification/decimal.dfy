/**
 Decimal integers as Go reads and prints them: `strconv.Atoi` on a 64-bit
 platform, and the `%d` verb of `fmt.Printf`.
 */
module Decimal {
  import opened Wrappers

  const Int64Min: int := -0x8000_0000_0000_0000
  const Int64Max: int := 0x7FFF_FFFF_FFFF_FFFF

  /** The values of Go's `int` (and `int64`) on a 64-bit platform. */
  predicate InInt64(n: int) {
    Int64Min <= n <= Int64Max
  }

  predicate IsDigit(c: char) {
    '0' <= c <= '9'
  }

  predicate AllDigits(s: string) {
    forall i :: 0 <= i < |s| ==> IsDigit(s[i])
  }

  /** The value of a string of decimal digits, most significant first. */
  function DigitsValue(s: string): nat
    requires AllDigits(s)
  {
    if |s| == 0 then 0 else 10 * DigitsValue(s[..|s| - 1]) + (s[|s| - 1] as int - '0' as int)
  }

  /** The shortest decimal digit string of `n`. */
  function NatToDigits(n: nat): (s: string)
    ensures |s| >= 1 && AllDigits(s)
    ensures DigitsValue(s) == n
    ensures s[0] == '0' ==> s == "0"
  {
    var d := [('0' as int + n % 10) as char];
    if n < 10 then d
    else
      var p := NatToDigits(n / 10);
      assert (p + d)[..|p + d| - 1] == p;
      p + d
  }

  /** `fmt`'s `%d`: a minus sign for negative values, then the digits without leading zeros. */
  function Itoa(n: int): (s: string)
    ensures |s| >= 1
    ensures s[0] == '-' <==> n < 0
    ensures IsDigit(s[0]) || s[0] == '-'
    ensures forall i :: 1 <= i < |s| ==> IsDigit(s[i])
    ensures |s| >= 2 && s[0] != '-' ==> s[0] != '0'
    ensures n < 0 ==> |s| >= 2 && s[1] != '0'
  {
    if n < 0 then "-" + NatToDigits(-n) else NatToDigits(n)
  }

  /**
   `strconv.Atoi`: an optional `+` or `-` sign followed by at least one ASCII
   digit, and a value that fits in 64 bits; anything else is an error.
   */
  function Atoi(s: string): (r: Option<int>)
    ensures r.Some? ==> InInt64(r.value)
    ensures r.Some? ==> |s| >= 1 && (IsDigit(s[0]) || s[0] == '+' || s[0] == '-')
    ensures r.Some? ==> AllDigits(s[1..])
    ensures r.Some? && r.value < 0 ==> s[0] == '-'
    ensures |s| >= 1 && AllDigits(s) && DigitsValue(s) <= Int64Max ==> r == Some(DigitsValue(s))
  {
    if |s| == 0 then None
    else
      var signed := s[0] == '-' || s[0] == '+';
      var digits := if signed then s[1..] else s;
      if |digits| == 0 || !AllDigits(digits) then None
      else
        var v: int := if s[0] == '-' then -(DigitsValue(digits) as int) else DigitsValue(digits);
        if InInt64(v) then Some(v) else None
  }

  /**
   The full case split of `Atoi`: an unsigned digit string, a digit string
   after `+`, a digit string after `-`, each read when its value fits in 64
   bits and an error otherwise; any other input is an error.
   */
  lemma AtoiCases(s: string)
    ensures |s| >= 1 && AllDigits(s) ==>
      Atoi(s) == (if DigitsValue(s) <= Int64Max then Some(DigitsValue(s)) else None)
    ensures |s| >= 2 && s[0] == '+' && AllDigits(s[1..]) ==>
      Atoi(s) == (if DigitsValue(s[1..]) <= Int64Max then Some(DigitsValue(s[1..])) else None)
    ensures |s| >= 2 && s[0] == '-' && AllDigits(s[1..]) ==>
      Atoi(s) == (if DigitsValue(s[1..]) <= -Int64Min then Some(-(DigitsValue(s[1..]) as int)) else None)
    ensures !(|s| >= 1 && AllDigits(s)) && !(|s| >= 2 && (s[0] == '+' || s[0] == '-') && AllDigits(s[1..])) ==>
      Atoi(s) == None
  {
  }

  /** Reading back what `%d` prints gives the number back, for every 64-bit value. */
  lemma {:induction false} AtoiItoa(n: int)
    requires InInt64(n)
    ensures Atoi(Itoa(n)) == Some(n)
  {
    if n < 0 {
      var d := NatToDigits(-n);
      assert ("-" + d)[1..] == d;
    }
  }
}
