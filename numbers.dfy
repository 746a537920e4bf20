/**
  Models of Go's `strconv.Atoi` and `strconv.Itoa` on the platform's 64-bit
  `int`: decimal text with an optional sign, no underscores, no spaces.
*/
module GoNumbers {
  import opened Wrappers

  const MinInt64: int := -0x8000_0000_0000_0000
  const MaxInt64: int := 0x7FFF_FFFF_FFFF_FFFF

  predicate IsDigit(c: char)
  {
    '0' <= c <= '9'
  }

  predicate AllDigits(s: string)
  {
    forall i | 0 <= i < |s| :: IsDigit(s[i])
  }

  function DigitValue(c: char): (d: nat)
    requires IsDigit(c)
    ensures d < 10
  {
    c as int - '0' as int
  }

  function DigitChar(d: nat): (c: char)
    requires d < 10
    ensures IsDigit(c) && DigitValue(c) == d
  {
    ('0' as int + d) as char
  }

  /** The value of a run of decimal digits, most significant first. */
  function DigitsValue(s: string): nat
    requires AllDigits(s)
  {
    if s == [] then 0 else DigitsValue(s[..|s| - 1]) * 10 + DigitValue(s[|s| - 1])
  }

  /** The decimal digits of `n`, without leading zeros. */
  function NatDigits(n: nat): (s: string)
    ensures |s| >= 1 && AllDigits(s)
    ensures n == 0 ==> s == "0"
    ensures n > 0 ==> s[0] != '0'
  {
    if n < 10 then [DigitChar(n)] else NatDigits(n / 10) + [DigitChar(n % 10)]
  }

  /** The digits of `n` read back give `n`. */
  lemma {:induction false} NatDigitsValue(n: nat)
    ensures DigitsValue(NatDigits(n)) == n
    decreases n
  {
    var s := NatDigits(n);
    if n >= 10 {
      NatDigitsValue(n / 10);
      assert s[..|s| - 1] == NatDigits(n / 10);
    }
  }

  /** A magnitude with the sign its first rune gives it. */
  function SignedValue(first: char, magnitude: nat): int
  {
    if first == '-' then -(magnitude as int) else magnitude
  }

  /** The text after an optional leading sign. */
  function Unsigned(s: string): (u: string)
    ensures u == s || (|s| >= 1 && (s[0] == '+' || s[0] == '-') && u == s[1..])
  {
    if |s| > 0 && (s[0] == '+' || s[0] == '-') then s[1..] else s
  }

  /**
    strconv.Atoi: `Some(n)` exactly when `s` is an optional `+` or `-`
    followed by at least one decimal digit and the value fits in 64 bits;
    `None` stands for Go's non-nil error.
  */
  function Atoi(s: string): (r: Option<int>)
    ensures r.Some? <==>
      var u := Unsigned(s);
      && |u| > 0 && AllDigits(u)
      && MinInt64 <= SignedValue(s[0], DigitsValue(u)) <= MaxInt64
    ensures r.Some? ==> r.value == SignedValue(s[0], DigitsValue(Unsigned(s)))
    ensures r.Some? && s[0] != '-' ==> r.value >= 0
  {
    var u := Unsigned(s);
    if |u| == 0 || !AllDigits(u) then None
    else
      var v := SignedValue(s[0], DigitsValue(u));
      if v < MinInt64 || v > MaxInt64 then None else Some(v)
  }

  /** strconv.Itoa. */
  function Itoa(n: int): (s: string)
    ensures |s| >= 1
    ensures n >= 0 ==> AllDigits(s) && DigitsValue(s) == n
    ensures n < 0 ==> s[0] == '-' && AllDigits(s[1..]) && DigitsValue(s[1..]) == -n
    ensures AllDigits(s) && |s| > 1 ==> s[0] != '0'
    ensures n < 0 ==> |s| >= 2 && s[1] != '0'
  {
    if n < 0 then
      var digits := NatDigits(-n);
      NatDigitsValue(-n);
      assert ("-" + digits)[1..] == digits;
      "-" + digits
    else
      NatDigitsValue(n);
      NatDigits(n)
  }

  /** Atoi reads back every 64-bit integer that Itoa writes. */
  lemma AtoiItoa(n: int)
    requires MinInt64 <= n <= MaxInt64
    ensures Atoi(Itoa(n)) == Some(n)
  {
    var s := Itoa(n);
    if n < 0 {
      var digits := NatDigits(-n);
      NatDigitsValue(-n);
      assert s[0] == '-' && s[1..] == digits;
      assert Unsigned(s) == digits;
    } else {
      NatDigitsValue(n);
      assert IsDigit(s[0]);
      assert Unsigned(s) == s;
    }
  }
}
