/**
 * The parts of `java.lang.Integer` the region decoder relies on: the 32-bit
 * `int` range, two's-complement wrap-around of `int` subtraction, and
 * `Integer.parseInt(String)` in base 10.
 *
 * `ParseInt` is the reference meaning ("an optional sign, at least one
 * decimal digit, and a value that fits in 32 bits"); `ParseIntJava` follows
 * the JDK's own algorithm step by step (negative accumulation, the `multmin`
 * and `limit + digit` overflow guards, truncating `/`) and is proved to agree
 * with it on every input.
 */
module JavaInt {
  import opened Wrappers

  const MIN_VALUE: int := -0x8000_0000
  const MAX_VALUE: int := 0x7FFF_FFFF

  /** Values of Java's `int`. */
  type int32 = n: int | MIN_VALUE <= n <= MAX_VALUE

  /** Java's `int` arithmetic result for an exact value `n`: keep the low 32 bits, two's complement. */
  function Wrap(n: int): (r: int32)
    ensures (r - n) % 0x1_0000_0000 == 0
    ensures MIN_VALUE <= n <= MAX_VALUE ==> r == n
  {
    (n - MIN_VALUE) % 0x1_0000_0000 + MIN_VALUE
  }

  /** Java's `a - b` on `int`. */
  function Sub(a: int32, b: int32): (r: int32)
    ensures MIN_VALUE <= a - b <= MAX_VALUE ==> r == a - b
    ensures a - b < MIN_VALUE ==> r == a - b + 0x1_0000_0000
    ensures a - b > MAX_VALUE ==> r == a - b - 0x1_0000_0000
  {
    Wrap(a - b)
  }

  /**
   * Java's `a / b` on `int`: the quotient truncated toward zero (Dafny's `/`
   * is Euclidean). The quotient is exact, so `MIN_VALUE / -1` is 2^31 here
   * where Java wraps it to `MIN_VALUE`; `parseInt` only divides by 10.
   */
  function Quot(a: int, b: int): (q: int)
    requires b != 0
    ensures 0 <= a && 0 < b ==> q == a / b
    ensures a < 0 && 0 < b ==> q == -((-a) / b)
    ensures a < 0 && 0 < b ==> a <= q * b < a + b
    ensures 0 <= a && b < 0 ==> q == -(a / -b)
    ensures a < 0 && b < 0 ==> q == (-a) / (-b)
  {
    if a >= 0 then (if b > 0 then a / b else -(a / -b))
    else (if b > 0 then -((-a) / b) else (-a) / (-b))
  }

  predicate IsDigit(c: char) {
    '0' <= c <= '9'
  }

  predicate AllDigits(s: string) {
    forall i :: 0 <= i < |s| ==> IsDigit(s[i])
  }

  /** `Character.digit(c, 10)` for the ASCII digits; -1 for anything else. */
  function Digit(c: char): (d: int)
    ensures IsDigit(c) ==> 0 <= d <= 9
    ensures !IsDigit(c) ==> d == -1
  {
    if IsDigit(c) then (c - '0') as int else -1
  }

  /** The number a string of decimal digits denotes, most significant digit first. */
  function DigitsValue(s: string): nat
    requires AllDigits(s)
  {
    if |s| == 0 then 0 else DigitsValue(s[..|s| - 1]) * 10 + Digit(s[|s| - 1])
  }

  /** The character of a single decimal digit. */
  function DigitChar(d: nat): (c: char)
    requires d <= 9
    ensures IsDigit(c) && Digit(c) == d
  {
    (d + '0' as int) as char
  }

  /** The unsigned decimal text of `n`, without leading zeros. */
  function NatToDigits(n: nat): (s: string)
    ensures |s| >= 1 && AllDigits(s)
    ensures DigitsValue(s) == n
    ensures |s| > 1 ==> s[0] != '0'
  {
    if n < 10 then [DigitChar(n)]
    else
      var prefix := NatToDigits(n / 10);
      var s := prefix + [DigitChar(n % 10)];
      assert s[..|s| - 1] == prefix;
      s
  }

  /** `Integer.toString(n)`: a minus sign for negatives, then the decimal digits. */
  function ToDecimal(n: int): (s: string)
    ensures |s| >= 1
  {
    if n < 0 then "-" + NatToDigits(-(n as int)) else NatToDigits(n)
  }

  /** The part of `s` after an optional leading sign. */
  function Unsigned(s: string): string
    requires |s| > 0
  {
    if s[0] == '-' || s[0] == '+' then s[1..] else s
  }

  /**
   * What `Integer.parseInt(s)` means: `s` is an optional `+` or `-` followed
   * by at least one decimal digit, and the signed value lies in the `int`
   * range. Anything else is a `NumberFormatException`, here `None`.
   */
  function ParseInt(s: string): (r: Option<int32>)
    ensures r.Some? ==> |s| > 0 && |Unsigned(s)| > 0 && AllDigits(Unsigned(s))
    ensures r.Some? && s[0] == '-' ==> r.value == -(DigitsValue(Unsigned(s)) as int)
    ensures r.Some? && s[0] != '-' ==> r.value == DigitsValue(Unsigned(s))
  {
    if |s| == 0 then None
    else
      var body := Unsigned(s);
      if |body| == 0 || !AllDigits(body) then None
      else
        var v := if s[0] == '-' then -(DigitsValue(body) as int) else DigitsValue(body);
        if MIN_VALUE <= v <= MAX_VALUE then Some(v) else None
  }

  /** A longer run of digits never denotes a smaller number. */
  lemma {:induction false} DigitsValueMonotone(s: string, k: nat)
    requires AllDigits(s) && k <= |s|
    ensures DigitsValue(s[..k]) <= DigitsValue(s)
    decreases |s|
  {
    if k < |s| {
      var t := s[..|s| - 1];
      assert t[..k] == s[..k];
      DigitsValueMonotone(t, k);
    } else {
      assert s[..k] == s;
    }
  }

  /**
   * `Integer.parseInt(s, 10)` as the JDK writes it: digits are accumulated as
   * a NEGATIVE number so that `MIN_VALUE` is reachable, and each step is
   * guarded so that no intermediate `int` operation overflows. Every local of
   * Java type `int` has type `int32` here, so the verifier checks that claim.
   */
  method ParseIntJava(s: string) returns (r: Option<int32>)
    ensures r == ParseInt(s)
  {
    if |s| == 0 {
      return None;
    }
    var negative := false;
    var i := 0;
    var limit: int32 := -MAX_VALUE;
    var firstChar := s[0];
    if firstChar < '0' {
      if firstChar == '-' {
        negative := true;
        limit := MIN_VALUE;
      } else if firstChar != '+' {
        return None;
      }
      if |s| == 1 {
        return None;
      }
      i := 1;
    }
    ghost var start := i;
    ghost var body := Unsigned(s);
    assert body == s[start..];
    var multmin: int32 := Quot(limit, 10);
    var result: int32 := 0;
    while i < |s|
      invariant start <= i <= |s|
      invariant AllDigits(s[start..i])
      invariant result == -(DigitsValue(s[start..i]) as int)
      invariant limit <= result <= 0
      decreases |s| - i
    {
      var digit := Digit(s[i]);
      if digit < 0 {
        assert !AllDigits(body) by { assert body[i - start] == s[i]; }
        return None;
      }
      DigitsStep(s, start, i);
      if result < multmin {
        OverflowPrefix(s, start, i + 1, limit, negative);
        return None;
      }
      var scaled: int32 := result * 10;
      if scaled < limit + digit {
        OverflowPrefix(s, start, i + 1, limit, negative);
        return None;
      }
      result := scaled - digit;
      i := i + 1;
    }
    assert s[start..i] == body;
    r := Some(if negative then result else -result);
  }

  /** Reading one more digit multiplies the value so far by ten and adds it. */
  lemma DigitsStep(s: string, start: nat, i: nat)
    requires start <= i < |s| && AllDigits(s[start..i]) && IsDigit(s[i])
    ensures AllDigits(s[start..i + 1])
    ensures DigitsValue(s[start..i + 1]) == DigitsValue(s[start..i]) * 10 + Digit(s[i])
  {
    assert s[start..i + 1][..i - start] == s[start..i];
  }

  /**
   * Once a prefix of the digits is already beyond the limit, the whole text
   * is outside the `int` range (or not all digits).
   */
  lemma OverflowPrefix(s: string, start: nat, j: nat, limit: int, negative: bool)
    requires |s| > 0 && start <= j <= |s|
    requires start == (if s[0] == '-' || s[0] == '+' then 1 else 0)
    requires negative <==> s[0] == '-'
    requires limit == (if negative then MIN_VALUE else -MAX_VALUE)
    requires AllDigits(s[start..j]) && DigitsValue(s[start..j]) > -limit
    ensures ParseInt(s) == None
  {
    var body := Unsigned(s);
    assert body == s[start..];
    if AllDigits(body) {
      assert body[..j - start] == s[start..j];
      DigitsValueMonotone(body, j - start);
    }
  }

  /** `Integer.parseInt(Integer.toString(n)) == n` for every `int`. */
  lemma ParseIntToDecimal(n: int32)
    ensures ParseInt(ToDecimal(n)) == Some(n)
  {
    if n < 0 {
      var s := ToDecimal(n);
      assert Unsigned(s) == NatToDigits(-(n as int));
    }
  }
}
