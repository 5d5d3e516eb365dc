/** Shared vocabulary of the model: optional values (C# nullables), time
    (DateTime as whole seconds since DateTime.MinValue, so that default(DateTime)
    is 0), and the decimal rendering that `int.ToString()` / `long.ToString()`
    produce together with the parse that `int.Parse` / `long.Parse` perform on it. */
module Common {

  datatype Option<+T> = None | Some(value: T)

  datatype Result<+T, +E> = Success(value: T) | Failure(error: E)

  /** A DateTime, in seconds. */
  type Time = int

  const Minute: int := 60
  const Day: int := 24 * 60 * Minute

  /** `AddMinutes(15)`: the lockout window. */
  const LockoutWindow: int := 15 * Minute

  /** Decimal digits, the form `ToString()` gives a non-negative integer. */
  function DigitChar(d: nat): (c: char)
    requires d < 10
    ensures '0' <= c <= '9'
  {
    ['0', '1', '2', '3', '4', '5', '6', '7', '8', '9'][d]
  }

  predicate IsDigit(c: char) { '0' <= c <= '9' }

  function DigitValue(c: char): (d: nat)
    requires IsDigit(c)
    ensures d < 10
  {
    c as int - '0' as int
  }

  function Digits(n: nat): (s: string)
    ensures |s| > 0
    ensures forall i :: 0 <= i < |s| ==> IsDigit(s[i])
  {
    if n < 10 then [DigitChar(n)] else Digits(n / 10) + [DigitChar(n % 10)]
  }

  /** The value of a string of decimal digits, most significant first. */
  function DigitsValue(s: string): nat
    requires forall i :: 0 <= i < |s| ==> IsDigit(s[i])
  {
    if s == [] then 0 else 10 * DigitsValue(s[..|s| - 1]) + DigitValue(s[|s| - 1])
  }

  predicate AllDigits(s: string) { forall i :: 0 <= i < |s| ==> IsDigit(s[i]) }

  /** `ToString()` of an integer: an optional minus sign and the digits. */
  function IntText(n: int): (s: string)
    ensures |s| > 0
  {
    if n < 0 then "-" + Digits(-n) else Digits(n)
  }

  /** `long.Parse` on an optional minus sign followed by decimal digits, the
      form `ToString()` writes; any other string gives None. Of what `long.Parse`
      also does, the model leaves out its acceptance of a leading '+' and of
      surrounding white space, and its OverflowException outside the 64-bit
      range. */
  function ParseInt(s: string): (r: Option<int>)
    ensures r.Some? && |s| > 0 && s[0] != '-' ==> r.value >= 0
  {
    if |s| > 1 && s[0] == '-' && AllDigits(s[1..]) then Some(0 - DigitsValue(s[1..]) as int)
    else if |s| > 0 && AllDigits(s) then Some(DigitsValue(s))
    else None
  }

  lemma {:induction false} DigitsRoundTrip(n: nat)
    ensures DigitsValue(Digits(n)) == n
  {
    if n < 10 {
      assert Digits(n)[..0] == [];
    } else {
      var s := Digits(n);
      assert s[..|s| - 1] == Digits(n / 10);
      DigitsRoundTrip(n / 10);
      assert DigitValue(DigitChar(n % 10)) == n % 10;
    }
  }

  /** The text `ToString()` writes into a claim parses back to the same number. */
  lemma IntTextRoundTrip(n: int)
    ensures ParseInt(IntText(n)) == Some(n)
  {
    var s := IntText(n);
    if n < 0 {
      var d := Digits(-n);
      assert s == "-" + d && s[1..] == d;
      assert AllDigits(d);
      DigitsRoundTrip(-n);
    } else {
      assert s == Digits(n);
      assert s[0] != '-';
      DigitsRoundTrip(n);
    }
  }

  /** Number of occurrences of `c` in `s`. */
  function Count(s: string, c: char): (k: nat)
    ensures k <= |s|
  {
    if s == [] then 0 else (if s[0] == c then 1 else 0) + Count(s[1..], c)
  }

  /** `string.Length` in .NET: the number of UTF-16 code units. A Dafny
      character is a Unicode scalar value, and one above U+FFFF takes two
      code units (a surrogate pair). */
  function Utf16Length(s: string): (n: nat)
    ensures |s| <= n <= 2 * |s|
  {
    if s == [] then 0 else (if s[0] as int > 0xFFFF then 2 else 1) + Utf16Length(s[1..])
  }

  /** Every character lies in the Basic Multilingual Plane. */
  predicate InBmp(s: string)
  {
    forall i :: 0 <= i < |s| ==> s[i] as int <= 0xFFFF
  }

  /** In the Basic Multilingual Plane the two lengths agree; outside it they
      do not. */
  lemma {:induction false} Utf16LengthInBmp(s: string)
    ensures InBmp(s) <==> Utf16Length(s) == |s|
  {
    if s != [] {
      Utf16LengthInBmp(s[1..]);
      if InBmp(s) {
        assert InBmp(s[1..]) by {
          forall i | 0 <= i < |s[1..]| ensures s[1..][i] as int <= 0xFFFF { assert s[1..][i] == s[i + 1]; }
        }
      } else if s[0] as int <= 0xFFFF {
        var i :| 0 <= i < |s| && s[i] as int > 0xFFFF;
        assert s[1..][i - 1] == s[i];
      }
    }
  }

  /** UTF-16 length adds up over concatenation. */
  lemma {:induction false} Utf16LengthAppend(a: string, b: string)
    ensures Utf16Length(a + b) == Utf16Length(a) + Utf16Length(b)
  {
    if a == [] {
      assert a + b == b;
    } else {
      assert (a + b)[1..] == a[1..] + b;
      Utf16LengthAppend(a[1..], b);
    }
  }
}
