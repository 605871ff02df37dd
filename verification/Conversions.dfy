/** Numbers to text and back, as a string stream does it for a 32-bit int. */
module Conversions {

  const INT_MAX := 0x7fff_ffff
  const INT_MIN := -0x8000_0000

  predicate IsDigit(c: char) {
    '0' <= c <= '9'
  }

  predicate IsSpace(c: char) {
    c == ' ' || c == '\t' || c == '\n' || c == '\r' || c == '\U{000B}' || c == '\U{000C}'
  }

  function DigitsOf(n: nat): (r: string)
    ensures r != "" && forall i :: 0 <= i < |r| ==> IsDigit(r[i])
  {
    (if n < 10 then "" else DigitsOf(n / 10)) + [('0' as int + n % 10) as char]
  }

  function ConvertToString(n: int): string {
    if n < 0 then "-" + DigitsOf(-n) else DigitsOf(n)
  }

  function SkipSpaces(s: string): string {
    if s != "" && IsSpace(s[0]) then SkipSpaces(s[1..]) else s
  }

  /** The leading digits of a text, read on top of `acc`. */
  function ReadDigits(s: string, acc: nat): nat {
    if s != "" && IsDigit(s[0]) then ReadDigits(s[1..], 10 * acc + (s[0] as int - '0' as int)) else acc
  }

  /** Extraction leaves 0 where there is no number, and the nearest int where the number does not fit. */
  function ConvertStringToInt(s: string): (r: int)
    ensures INT_MIN <= r <= INT_MAX
  {
    var t := SkipSpaces(s);
    var negative := t != "" && t[0] == '-';
    var value: int := ReadDigits(if t != "" && (t[0] == '-' || t[0] == '+') then t[1..] else t, 0);
    if negative then (if -value < INT_MIN then INT_MIN else -value)
    else if value > INT_MAX then INT_MAX else value
  }

  lemma {:induction false} ReadDigitsAppend(s: string, c: char, acc: nat)
    requires IsDigit(c) && forall i :: 0 <= i < |s| ==> IsDigit(s[i])
    ensures ReadDigits(s + [c], acc) == 10 * ReadDigits(s, acc) + (c as int - '0' as int)
    decreases |s|
  {
    if s == "" {
      assert (s + [c])[1..] == "";
    } else {
      assert (s + [c])[1..] == s[1..] + [c];
      ReadDigitsAppend(s[1..], c, 10 * acc + (s[0] as int - '0' as int));
    }
  }

  lemma {:induction false} ReadDigitsOf(n: nat)
    ensures ReadDigits(DigitsOf(n), 0) == n
  {
    var c := ('0' as int + n % 10) as char;
    if n < 10 {
      assert DigitsOf(n) == "" + [c] == [c];
      ReadDigitsAppend("", c, 0);
    } else {
      ReadDigitsOf(n / 10);
      ReadDigitsAppend(DigitsOf(n / 10), c, 0);
    }
  }

  /** Every int survives the round trip through text. */
  lemma ConversionRoundTrip(n: int)
    requires INT_MIN <= n <= INT_MAX
    ensures ConvertStringToInt(ConvertToString(n)) == n
  {
    var s := ConvertToString(n);
    assert !IsSpace(s[0]) && SkipSpaces(s) == s;
    if n < 0 {
      assert s[1..] == DigitsOf(-n);
      ReadDigitsOf(-n);
    } else {
      ReadDigitsOf(n);
      assert IsDigit(s[0]);
    }
  }

  lemma {:induction false} SpacesSkipped(spaces: string, t: string)
    requires (forall i :: 0 <= i < |spaces| ==> IsSpace(spaces[i])) && (t == "" || !IsSpace(t[0]))
    ensures SkipSpaces(spaces + t) == t
  {
    if spaces == "" {
      assert spaces + t == t;
    } else {
      assert (spaces + t)[1..] == spaces[1..] + t;
      SpacesSkipped(spaces[1..], t);
    }
  }

  lemma {:induction false} DigitsStop(digits: string, rest: string, acc: nat)
    requires (forall i :: 0 <= i < |digits| ==> IsDigit(digits[i])) && (rest == "" || !IsDigit(rest[0]))
    ensures ReadDigits(digits + rest, acc) == ReadDigits(digits, acc)
    decreases |digits|
  {
    if digits == "" {
      assert digits + rest == rest;
    } else {
      assert (digits + rest)[1..] == digits[1..] + rest;
      DigitsStop(digits[1..], rest, 10 * acc + (digits[0] as int - '0' as int));
    }
  }

  lemma SignInFront(digits: string, rest: string)
    ensures var t := "-" + digits + rest; t[0] == '-' && t[1..] == digits + rest
  {
  }

  lemma NegativeIsRead(n: int, rest: string)
    requires n < 0 && (rest == "" || !IsDigit(rest[0]))
    ensures var t := ConvertToString(n) + rest; t[0] == '-' && ReadDigits(t[1..], 0) == -n
  {
    var digits := DigitsOf(-n);
    SignInFront(digits, rest);
    ReadDigitsOf(-n);
    DigitsStop(digits, rest, 0);
  }

  lemma NaturalIsRead(n: nat, rest: string)
    requires rest == "" || !IsDigit(rest[0])
    ensures var t := ConvertToString(n) + rest; IsDigit(t[0]) && ReadDigits(t, 0) == n
  {
    ReadDigitsOf(n);
    DigitsStop(DigitsOf(n), rest, 0);
  }

  /** A number is read past spaces and up to the first other character, and cut off at the limits of an int. */
  lemma NumberIsRead(spaces: string, n: int, rest: string)
    requires (forall i :: 0 <= i < |spaces| ==> IsSpace(spaces[i])) && (rest == "" || !IsDigit(rest[0]))
    ensures ConvertStringToInt(spaces + (ConvertToString(n) + rest)) ==
              if n < INT_MIN then INT_MIN else if n > INT_MAX then INT_MAX else n
  {
    var t := ConvertToString(n) + rest;
    if n < 0 {
      NegativeIsRead(n, rest);
    } else {
      NaturalIsRead(n, rest);
    }
    SpacesSkipped(spaces, t);
    AfterSpaces(spaces + t, t);
  }

  lemma AfterSpaces(s: string, t: string)
    requires SkipSpaces(s) == t && SkipSpaces(t) == t
    ensures ConvertStringToInt(s) == ConvertStringToInt(t)
  {
  }

  /** Without a digit, or a sign and a digit, after the spaces there is no number. */
  lemma NoNumberIsZero(spaces: string, t: string)
    requires (forall i :: 0 <= i < |spaces| ==> IsSpace(spaces[i])) && (t == "" || !IsSpace(t[0]))
    requires t != "" ==> !IsDigit(t[0]) && ((t[0] == '-' || t[0] == '+') && |t| > 1 ==> !IsDigit(t[1]))
    ensures ConvertStringToInt(spaces + t) == 0
  {
    SpacesSkipped(spaces, t);
  }
}
