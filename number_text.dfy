/** How the client turns its usage counter into text and back: JavaScript's
    number-to-string conversion on `localStorage.setItem` and the global
    `parseInt` (no radix argument) on restore. */
module NumberText {
  import opened Wrappers
  import opened Strings

  /** The decimal digit character for `d`. */
  function DigitChar(d: int): char
    requires 0 <= d < 10
  {
    ('0' as int + d) as char
  }

  /** Decimal rendering of a natural number, most significant digit first,
      with no leading zero. */
  function NatToString(n: nat): (r: string)
    ensures |r| >= 1
    ensures forall k :: 0 <= k < |r| ==> '0' <= r[k] <= '9'
    ensures n > 0 ==> r[0] != '0'
    ensures n == 0 ==> r == "0"
    decreases n
  {
    if n < 10 then [DigitChar(n)] else NatToString(n / 10) + [DigitChar(n % 10)]
  }

  /** `String(n)` for an integral number. */
  function IntToString(n: int): string {
    if n < 0 then "-" + NatToString(-n) else NatToString(n)
  }

  /** Whether `c` is a digit in the given radix (10, or 16 after a `0x` prefix). */
  predicate IsRadixDigit(c: char, radix: nat) {
    if radix == 16 then '0' <= c <= '9' || 'a' <= c <= 'f' || 'A' <= c <= 'F'
    else '0' <= c <= '9'
  }

  /** The value of a decimal or hexadecimal digit. */
  function DigitValue(c: char): nat {
    if '0' <= c <= '9' then c as int - '0' as int
    else if 'a' <= c <= 'f' then c as int - 'a' as int + 10
    else if 'A' <= c <= 'F' then c as int - 'A' as int + 10
    else 0
  }

  /** The length of the longest prefix of `s` made of radix digits. */
  function DigitRun(s: string, radix: nat): (n: nat)
    ensures n <= |s|
    ensures forall k :: 0 <= k < n ==> IsRadixDigit(s[k], radix)
    ensures n == |s| || !IsRadixDigit(s[n], radix)
  {
    if s == [] || !IsRadixDigit(s[0], radix) then 0 else 1 + DigitRun(s[1..], radix)
  }

  /** The number a string of digits denotes, read most significant first. */
  function DigitsValue(s: string, radix: nat): nat {
    if s == [] then 0 else DigitsValue(s[..|s| - 1], radix) * radix + DigitValue(s[|s| - 1])
  }

  /** The text after an optional leading sign. */
  function Unsigned(t: string): (u: string)
    ensures |u| <= |t|
  {
    if |t| > 0 && (t[0] == '-' || t[0] == '+') then t[1..] else t
  }

  /** Whether the digits that follow carry the `0x`/`0X` prefix of radix 16. */
  predicate HexPrefixed(u: string) {
    |u| >= 2 && u[0] == '0' && (u[1] == 'x' || u[1] == 'X')
  }

  /** The longest digit run of the unsigned text, read in its radix. */
  function ParseUnsigned(u: string): Option<nat> {
    var radix := if HexPrefixed(u) then 16 else 10;
    var body := if HexPrefixed(u) then u[2..] else u;
    var n := DigitRun(body, radix);
    if n == 0 then None else Some(DigitsValue(body[..n], radix))
  }

  /** `parseInt(s)`: skip leading white space, take an optional sign, switch
      to radix 16 after `0x`/`0X`, and read the longest run of digits; `None`
      stands for `NaN`, the result when that run is empty. */
  function ParseInt(s: string): Option<int> {
    var t := TrimStart(s, IsJsSpace);
    match ParseUnsigned(Unsigned(t))
    case None => None
    case Some(v) => Some(if |t| > 0 && t[0] == '-' then -(v as int) else v as int)
  }

  /** `parseInt(s) || 0`: `NaN` is falsy, so it becomes 0. */
  function ParseIntOrZero(s: string): int {
    match ParseInt(s)
    case None => 0
    case Some(v) => v
  }

  /** Reading back a decimal rendering gives the number. */
  lemma {:induction false} DigitsValueOfNatToString(n: nat)
    ensures DigitsValue(NatToString(n), 10) == n
    decreases n
  {
    var s := NatToString(n);
    if n >= 10 {
      DigitsValueOfNatToString(n / 10);
      assert s[..|s| - 1] == NatToString(n / 10);
    }
  }

  /** A run made only of digits is read whole. */
  lemma {:induction false} DigitRunAll(s: string, radix: nat)
    requires forall k :: 0 <= k < |s| ==> IsRadixDigit(s[k], radix)
    ensures DigitRun(s, radix) == |s|
  {
    if s != [] {
      DigitRunAll(s[1..], radix);
    }
  }

  /** A decimal rendering parses, unsigned, to its number. */
  lemma ParseUnsignedNatToString(m: nat)
    ensures ParseUnsigned(NatToString(m)) == Some(m)
  {
    var d := NatToString(m);
    assert !HexPrefixed(d);
    DigitRunAll(d, 10);
    DigitsValueOfNatToString(m);
    assert d[..|d|] == d;
  }

  /** Writing a counter to storage and restoring it with `parseInt` gives
      the same number back, negative values included. */
  lemma ParseIntRoundTrip(n: int)
    ensures ParseInt(IntToString(n)) == Some(n)
    ensures ParseIntOrZero(IntToString(n)) == n
  {
    var m: nat := if n < 0 then -n else n;
    ParseUnsignedNatToString(m);
    SignedRendering(n);
    NoLeadingSpace(IntToString(n));
  }

  /** The text after a rendering's sign is the rendering of its magnitude,
      and the sign is there exactly for a negative number. */
  lemma SignedRendering(n: int)
    ensures var s := IntToString(n);
      |s| > 0 && Unsigned(s) == NatToString(if n < 0 then -n else n)
      && (s[0] == '-' <==> n < 0) && (s[0] == '-' || '0' <= s[0] <= '9')
  {
    var s := IntToString(n);
    if n < 0 {
      var d := NatToString(-n);
      assert s[1..] == d;
    }
  }

  /** Text that starts with a sign or a digit loses nothing to `TrimStart`. */
  lemma NoLeadingSpace(s: string)
    requires |s| > 0 && (s[0] == '-' || '0' <= s[0] <= '9')
    ensures TrimStart(s, IsJsSpace) == s
  {
  }

  /** Text with no decimal digit in it. */
  predicate NoDecimalDigit(s: string) {
    forall k :: 0 <= k < |s| ==> !('0' <= s[k] <= '9')
  }

  /** A suffix of digit-free text is digit-free. */
  lemma NoDecimalDigitSuffix(s: string, i: nat)
    requires NoDecimalDigit(s) && i <= |s|
    ensures NoDecimalDigit(s[i..])
  {
    assert forall k :: 0 <= k < |s| - i ==> s[i..][k] == s[i + k];
  }

  /** Digit-free text has no number to read. */
  lemma ParseUnsignedNoDigits(u: string)
    requires NoDecimalDigit(u)
    ensures ParseUnsigned(u) == None
  {
    assert !HexPrefixed(u) by {
      if |u| >= 2 {
        assert !('0' <= u[0] <= '9');
      }
    }
    assert u == [] || !IsRadixDigit(u[0], 10);
  }

  /** A string holding no decimal digit restores as 0 (`NaN || 0`). */
  lemma ParseIntNoDigits(s: string)
    requires NoDecimalDigit(s)
    ensures ParseIntOrZero(s) == 0
  {
    var t := TrimStart(s, IsJsSpace);
    NoDecimalDigitSuffix(s, |s| - |t|);
    var u := Unsigned(t);
    if u != t {
      NoDecimalDigitSuffix(t, 1);
    }
    ParseUnsignedNoDigits(u);
  }
}
