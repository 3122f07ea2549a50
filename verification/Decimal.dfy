/** Decimal formatting of counters, as fmt's %d does it. */
module Decimal {
  function Digit(d: nat): char
    requires d < 10
  {
    "0123456789"[d]
  }

  function Value(c: char): int { c as int - '0' as int }

  function Format(n: nat): (s: string)
    ensures s != ""
  {
    if n < 10 then [Digit(n)] else Format(n / 10) + [Digit(n % 10)]
  }

  function Parse(s: string): int {
    if s == "" then 0 else 10 * Parse(s[..|s| - 1]) + Value(s[|s| - 1])
  }

  lemma {:induction false} ParseFormat(n: nat)
    ensures Parse(Format(n)) == n
  {
    if n < 10 {
      assert Format(n)[..0] == "";
    } else {
      ParseFormat(n / 10);
      assert Format(n)[..|Format(n)| - 1] == Format(n / 10);
    }
  }

  /** Decimal notation: digits only, and no leading zero but for zero itself. */
  lemma {:induction false} FormatIsDecimal(n: nat)
    ensures forall k :: 0 <= k < |Format(n)| ==> '0' <= Format(n)[k] <= '9'
    ensures Format(n) != "" && (Format(n)[0] == '0' ==> n == 0)
  {
    if n >= 10 { FormatIsDecimal(n / 10); }
  }

  lemma FormatInjective(m: nat, n: nat)
    requires Format(m) == Format(n)
    ensures m == n
  {
    ParseFormat(m);
    ParseFormat(n);
  }
}
