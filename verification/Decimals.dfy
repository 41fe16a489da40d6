/** Numbers written in decimal. */
module Decimals {
  import opened Common

  predicate AllDigits(s: string) { s != "" && forall i :: 0 <= i < |s| ==> IsDigit(s[i]) }

  function ParseNat(s: string): nat
    requires forall i :: 0 <= i < |s| ==> IsDigit(s[i])
  {
    if s == "" then 0 else assert IsDigit(s[|s| - 1]); 10 * ParseNat(s[..|s| - 1]) + (s[|s| - 1] - '0') as nat
  }

  function PrintNat(n: nat): (s: string)
    ensures AllDigits(s) && ParseNat(s) == n
  {
    var digit := [(n % 10) as char + '0'];
    if n < 10 then assert digit[..0] == ""; digit
    else
      var s := PrintNat(n / 10) + digit;
      assert s[..|s| - 1] == PrintNat(n / 10);
      s
  }
}
