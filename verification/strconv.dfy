/**
 * The parts of Go's `strconv` package the configuration getters rely on,
 * with base 10 throughout: `ParseUint`, `ParseInt`, `Atoi`, `ParseBool`, and
 * the decimal rendering `FormatUint`/`FormatInt` (also what `fmt`'s `%d` prints).
 */
module Strconv {
  import opened Wrappers
  import opened Integers

  predicate IsDigit(c: char) {
    '0' <= c <= '9'
  }

  predicate AllDigits(s: string) {
    forall i :: 0 <= i < |s| ==> IsDigit(s[i])
  }

  function DigitValue(c: char): nat
    requires IsDigit(c)
  {
    c as int - '0' as int
  }

  function DigitChar(d: nat): (c: char)
    requires d < 10
    ensures IsDigit(c) && DigitValue(c) == d
  {
    ('0' as int + d) as char
  }

  /** The number a non-empty run of decimal digits denotes (leading zeros allowed). */
  function DigitsValue(s: string): nat
    requires AllDigits(s)
  {
    if s == [] then 0 else 10 * DigitsValue(s[..|s| - 1]) + DigitValue(s[|s| - 1])
  }

  /**
   * strconv.ParseUint(s, 10, bits): a non-empty string of decimal digits only
   * (no sign, no underscore) whose value fits in `bits` bits.
   */
  function ParseUint(s: string, w: Width): (r: Option<nat>)
    ensures r.Some? ==> InUnsigned(r.value, w)
    ensures r.Some? ==> |s| > 0 && AllDigits(s) && r.value == DigitsValue(s)
    ensures r.None? ==> |s| == 0 || !AllDigits(s) || DigitsValue(s) >= w.Modulus()
  {
    if |s| > 0 && AllDigits(s) && DigitsValue(s) < w.Modulus() then Some(DigitsValue(s)) else None
  }

  /** The digits after an optional leading '+' or '-'. */
  function Unsigned(s: string): string
    requires |s| > 0
  {
    if s[0] == '+' || s[0] == '-' then s[1..] else s
  }

  /**
   * strconv.ParseInt(s, 10, bits): an optional sign, then what ParseUint
   * accepts; the value must lie in [-2^(bits-1), 2^(bits-1)).
   */
  function ParseInt(s: string, w: Width): (r: Option<int>)
    ensures r.Some? ==> InSigned(r.value, w)
    ensures r.Some? ==> |s| > 0 && |Unsigned(s)| > 0 && AllDigits(Unsigned(s))
    ensures r.Some? ==> r.value == if s[0] == '-' then -(DigitsValue(Unsigned(s)) as int) else DigitsValue(Unsigned(s))
    ensures (|s| > 0 && |Unsigned(s)| > 0 && AllDigits(Unsigned(s))
             && InSigned(if s[0] == '-' then -(DigitsValue(Unsigned(s)) as int) else DigitsValue(Unsigned(s)), w))
            ==> r.Some?
  {
    if |s| == 0 then None
    else
      var neg := s[0] == '-';
      var body := Unsigned(s);
      if |body| == 0 || !AllDigits(body) then None
      else
        var v := DigitsValue(body);
        if !neg && v >= w.Half() then None
        else if neg && v > w.Half() then None
        else Some(if neg then -(v as int) else v)
  }

  /** strconv.Atoi on a 64-bit platform: the same language and range as ParseInt(s, 10, 64). */
  function Atoi(s: string): (r: Option<int>)
    ensures r.Some? ==> InSigned(r.value, W64)
  {
    ParseInt(s, W64)
  }

  /** strconv.ParseBool: the twelve spellings it accepts. */
  function ParseBool(s: string): (r: Option<bool>)
    ensures r == Some(true) <==> s in ["1", "t", "T", "TRUE", "true", "True"]
    ensures r == Some(false) <==> s in ["0", "f", "F", "FALSE", "false", "False"]
  {
    if s == "1" || s == "t" || s == "T" || s == "TRUE" || s == "true" || s == "True" then Some(true)
    else if s == "0" || s == "f" || s == "F" || s == "FALSE" || s == "false" || s == "False" then Some(false)
    else None
  }

  /** The decimal rendering of n, without leading zeros (strconv.FormatUint(n, 10), fmt's %d). */
  function FormatUint(n: nat): (s: string)
    ensures |s| > 0 && AllDigits(s)
    ensures s[0] == '0' ==> n == 0 && s == "0"
  {
    if n < 10 then [DigitChar(n)] else FormatUint(n / 10) + [DigitChar(n % 10)]
  }

  /** The decimal rendering of x with a '-' for negative values (strconv.FormatInt(x, 10)). */
  function FormatInt(x: int): (s: string)
    ensures |s| > 0
  {
    if x < 0 then "-" + FormatUint(-x) else FormatUint(x)
  }

  lemma {:induction false} DigitsValueOfFormat(n: nat)
    ensures DigitsValue(FormatUint(n)) == n
  {
    if n >= 10 {
      var s := FormatUint(n);
      assert s[..|s| - 1] == FormatUint(n / 10);
      DigitsValueOfFormat(n / 10);
    }
  }

  /** Formatting and then parsing gives back every value the width can hold. */
  lemma ParseFormatUint(n: nat, w: Width)
    requires InUnsigned(n, w)
    ensures ParseUint(FormatUint(n), w) == Some(n)
  {
    DigitsValueOfFormat(n);
  }

  lemma ParseFormatInt(x: int, w: Width)
    requires InSigned(x, w)
    ensures ParseInt(FormatInt(x), w) == Some(x)
  {
    var s := FormatInt(x);
    if x < 0 {
      var u := FormatUint(-x);
      assert s == "-" + u && s[0] == '-';
      assert Unsigned(s) == u;
      DigitsValueOfFormat(-x);
      assert DigitsValue(u) == -x <= w.Half();
    } else {
      var u := FormatUint(x);
      assert s == u && IsDigit(s[0]);
      assert Unsigned(s) == u;
      DigitsValueOfFormat(x);
      assert DigitsValue(u) == x < w.Half();
    }
  }

  /** Two digit strings of the same length and value are equal. */
  lemma {:induction false} DigitsValueInjective(s: string, t: string)
    requires AllDigits(s) && AllDigits(t) && |s| == |t|
    requires DigitsValue(s) == DigitsValue(t)
    ensures s == t
  {
    if s != [] {
      var n := |s|;
      DigitsValueLast(s);
      DigitsValueLast(t);
      Decimal(DigitsValue(s[..n - 1]), DigitValue(s[n - 1]), DigitsValue(t[..n - 1]), DigitValue(t[n - 1]));
      DigitsValueInjective(s[..n - 1], t[..n - 1]);
      forall i | 0 <= i < n
        ensures s[i] == t[i]
      {
        if i < n - 1 {
          assert s[i] == s[..n - 1][i] && t[i] == t[..n - 1][i];
        }
      }
    }
  }

  /** A digit string is its prefix followed by its last digit, in value too. */
  lemma DigitsValueLast(s: string)
    requires AllDigits(s) && s != []
    ensures AllDigits(s[..|s| - 1])
    ensures DigitsValue(s) == 10 * DigitsValue(s[..|s| - 1]) + DigitValue(s[|s| - 1])
  {
    var p := s[..|s| - 1];
    forall i | 0 <= i < |p|
      ensures IsDigit(p[i])
    {
      assert p[i] == s[i];
    }
  }

  /** A decimal number determines its last digit and the number before it. */
  lemma Decimal(a: nat, d: nat, b: nat, e: nat)
    requires d < 10 && e < 10 && 10 * a + d == 10 * b + e
    ensures a == b && d == e
  {
  }

  /** A digit string with k digits has value below 10^k; one without a leading zero, at least 10^(k-1). */
  lemma {:induction false} DigitsValueBounds(s: string)
    requires AllDigits(s) && |s| > 0
    ensures DigitsValue(s) < Pow10(|s|)
    ensures s[0] != '0' ==> Pow10(|s| - 1) <= DigitsValue(s)
  {
    if |s| > 1 {
      var p := s[..|s| - 1];
      assert p[0] == s[0];
      DigitsValueBounds(p);
    }
  }

  function Pow10(k: nat): (r: nat)
    ensures r >= 1
  {
    if k == 0 then 1 else 10 * Pow10(k - 1)
  }

  /** The decimal rendering has as many digits as the value needs. */
  lemma {:induction false} FormatUintLength(n: nat)
    ensures n < Pow10(|FormatUint(n)|)
    ensures n >= 10 ==> Pow10(|FormatUint(n)| - 1) <= n
  {
    DigitsValueOfFormat(n);
    DigitsValueBounds(FormatUint(n));
  }

  /** Parsing a canonical digit string (no leading zero) and formatting it gives the string back. */
  lemma FormatParseUint(s: string, w: Width)
    requires ParseUint(s, w).Some?
    requires s[0] != '0' || s == "0"
    ensures FormatUint(ParseUint(s, w).value) == s
  {
    var n := DigitsValue(s);
    var f := FormatUint(n);
    DigitsValueOfFormat(n);
    if s == "0" {
      assert DigitsValue(s) == DigitsValue(s[..0]) * 10 + 0;
    } else {
      DigitsValueBounds(s);
      DigitsValueBounds(f);
      Pow10Monotone(|s|, |f|);
      Pow10Monotone(|f|, |s|);
      DigitsValueInjective(s, f);
    }
  }

  /** Pow10 grows strictly, so comparing powers compares exponents. */
  lemma {:induction false} Pow10Monotone(j: nat, k: nat)
    ensures j < k ==> Pow10(j) < Pow10(k) && Pow10(j) <= Pow10(k - 1)
  {
    if j < k {
      Pow10Monotone(j, k - 1);
    }
  }
}
