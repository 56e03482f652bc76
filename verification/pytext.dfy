/** The Python built-ins the bot applies to numbers and text: `str.isdigit`,
    `int(s)` on a digit string, `str(n)` on an integer, `int(x)` truncation,
    and `str(v)` on a decoded JSON value. */
module PyText {
  import opened Json

  predicate IsDigit(c: char) {
    '0' <= c <= '9'
  }

  /** `s.isdigit()`: non-empty and made of digits only (ASCII digits). */
  predicate IsDigitString(s: string) {
    s != [] && forall i :: 0 <= i < |s| ==> IsDigit(s[i])
  }

  /** `int(s)` on a string of digits, leading zeros allowed. */
  function DigitsValue(s: string): (n: nat)
    requires forall i :: 0 <= i < |s| ==> IsDigit(s[i])
  {
    if s == [] then 0
    else
      assert IsDigit(s[|s| - 1]);
      DigitsValue(s[..|s| - 1]) * 10 + (s[|s| - 1] as int - '0' as int)
  }

  /** `str(n)` for a non-negative integer: decimal, no leading zeros. */
  function NatText(n: nat): (s: string)
    ensures IsDigitString(s)
    ensures |s| > 1 ==> s[0] != '0'
  {
    if n < 10 then [('0' as int + n) as char]
    else NatText(n / 10) + [('0' as int + n % 10) as char]
  }

  /** `str(n)` for any integer. */
  function IntText(n: int): (s: string)
    ensures s != []
    ensures forall i :: 0 <= i < |s| ==> s[i] != '_'
    ensures s[0] == '-' <==> n < 0
  {
    if n < 0 then "-" + NatText(-n) else NatText(n)
  }

  /** Reads back what `IntText` writes: an optional minus and digits. */
  function ParseIntText(s: string): int
    requires s != []
    requires forall i :: 1 <= i < |s| ==> IsDigit(s[i])
    requires s[0] == '-' || IsDigit(s[0])
  {
    if s[0] == '-' then -(DigitsValue(s[1..]) as int) else DigitsValue(s)
  }

  /** `int(s)` undoes `str(n)` for every natural number. */
  lemma {:induction false} DigitsValueNatText(n: nat)
    ensures DigitsValue(NatText(n)) == n
  {
    if n >= 10 {
      var s := NatText(n);
      assert s[..|s| - 1] == NatText(n / 10);
      DigitsValueNatText(n / 10);
    }
  }

  /** `int()` ignores leading zeros: `int("0" + s) == int(s)`. */
  lemma {:induction false} DigitsValueLeadingZero(s: string)
    requires forall i :: 0 <= i < |s| ==> IsDigit(s[i])
    ensures DigitsValue("0" + s) == DigitsValue(s)
    decreases |s|
  {
    if s != [] {
      var t := "0" + s;
      assert t[..|t| - 1] == "0" + s[..|s| - 1];
      assert t[|t| - 1] == s[|s| - 1];
      DigitsValueLeadingZero(s[..|s| - 1]);
    }
  }

  /** Decimal rendering of integers is invertible, hence injective. */
  lemma IntTextRoundTrip(n: int)
    ensures ParseIntText(IntText(n)) == n
  {
    if n < 0 {
      assert IntText(n)[1..] == NatText(-n);
      DigitsValueNatText(-n);
    } else {
      DigitsValueNatText(n);
    }
  }

  lemma IntTextInjective(m: int, n: int)
    requires IntText(m) == IntText(n)
    ensures m == n
  {
    IntTextRoundTrip(m);
    IntTextRoundTrip(n);
  }

  /** Python's `int(k / 100)`: the quotient truncated toward zero, which for a
      negative `k` differs from Dafny's Euclidean `k / 100`. */
  function TruncDiv100(k: int): (q: int)
    ensures k >= 0 ==> q >= 0 && q * 100 <= k < q * 100 + 100
    ensures k < 0 ==> q <= 0 && q * 100 - 100 < k <= q * 100
  {
    if k >= 0 then k / 100 else -((-k) / 100)
  }

  /** `int(x)` on a finite float: truncation toward zero. */
  function TruncReal(x: real): (q: int)
    ensures x >= 0.0 ==> q >= 0 && q as real <= x < q as real + 1.0
    ensures x < 0.0 ==> q <= 0 && q as real - 1.0 < x <= q as real
  {
    if x >= 0.0 then x.Floor else -((-x).Floor)
  }

  /** Python's `str(v)` (also what an f-string writes) on a decoded JSON value.
      Exact for None, booleans, integers and strings. Floats, lists and dicts
      are rendered by fixed placeholders, so distinct values of one of these
      kinds share one text here where Python's texts differ. */
  function PyStr(j: Json): (s: string)
    ensures s == [] <==> j == Str([])
  {
    match j
    case Null => "None"
    case Bool(b) => if b then "True" else "False"
    case Int(i) => IntText(i)
    case Float(_) => "<float>"
    case Str(t) => t
    case Arr(_) => "<list>"
    case Obj(_) => "<dict>"
  }
}
