/** Decimal text of integers, as std::to_string and "{}" write it. */
module Decimal {
  import opened Words
  import opened Wrappers

  predicate IsDigit(c: char) {
    '0' <= c <= '9'
  }

  predicate AllDigits(s: string) {
    forall i :: 0 <= i < |s| ==> IsDigit(s[i])
  }

  function DigitChar(d: nat): char
    requires d < 10
  {
    (d + '0' as int) as char
  }

  function DigitValue(c: char): nat
    requires IsDigit(c)
  {
    c as int - '0' as int
  }

  function Digits(n: nat): (s: string)
    ensures |s| > 0 && AllDigits(s)
    ensures s[0] == '0' ==> |s| == 1
    ensures Value(s) == n
  {
    if n < 10 then [DigitChar(n)]
    else
      var front := Digits(n / 10);
      ValuePush(front, DigitChar(n % 10));
      front + [DigitChar(n % 10)]
  }

  function Value(s: string): nat
    requires AllDigits(s)
  {
    if s == [] then 0 else Value(s[..|s| - 1]) * 10 + DigitValue(s[|s| - 1])
  }

  lemma ValuePush(s: string, c: char)
    requires AllDigits(s) && IsDigit(c)
    ensures AllDigits(s + [c]) && Value(s + [c]) == Value(s) * 10 + DigitValue(c)
  {
    assert (s + [c])[..|s|] == s;
  }

  /** A text that starts with '0' and is only that is worth nothing. */
  lemma LeadingZero(s: string)
    requires AllDigits(s) && s == ['0']
    ensures Value(s) == 0
  {
    ValuePush([], '0');
  }

  lemma FirstDigit(n: nat)
    requires n > 0
    ensures Digits(n)[0] != '0'
  {
    if Digits(n)[0] == '0' {
      assert Digits(n) == ['0'];
      LeadingZero(Digits(n));
    }
  }

  lemma ValueSplit(s: string)
    requires AllDigits(s) && |s| > 1 && s[0] != '0'
    ensures var front := s[..|s| - 1];
            AllDigits(front) && |front| > 0 && front[0] != '0' && Value(s) == Value(front) * 10 + DigitValue(s[|s| - 1])
  {
  }

  lemma {:induction false} NonZeroLead(s: string)
    requires AllDigits(s) && |s| > 0 && s[0] != '0'
    ensures Value(s) > 0
  {
    if |s| == 1 {
      ValuePush([], s[0]);
      assert s == [] + [s[0]];
    } else {
      ValueSplit(s);
      NonZeroLead(s[..|s| - 1]);
    }
  }

  /** The only text of a value without leading zeros is the one Digits writes. */
  lemma {:induction false} DigitsOfValue(s: string)
    requires |s| > 0 && AllDigits(s) && (s[0] == '0' ==> |s| == 1)
    ensures Digits(Value(s)) == s
  {
    var front, c := s[..|s| - 1], s[|s| - 1];
    assert s == front + [c];
    if front == [] {
      ValuePush([], c);
      assert Value(s) == DigitValue(c) < 10;
    } else {
      ValueSplit(s);
      NonZeroLead(front);
      DigitsOfValue(front);
      DigitsPush(Value(front), DigitValue(c));
    }
  }

  lemma DigitsPush(n: nat, d: nat)
    requires n > 0 && d < 10
    ensures Digits(n * 10 + d) == Digits(n) + [DigitChar(d)]
  {
    assert (n * 10 + d) / 10 == n && (n * 10 + d) % 10 == d;
  }

  function ToString(z: int): (s: string)
    ensures |s| > 0 && '.' !in s && '"' !in s && '\\' !in s
  {
    if z < 0 then ['-'] + Digits(-z) else Digits(z)
  }

  /** SimpleAtoi and Atoi: an optional sign, digits, and a 64-bit range. */
  function ParseInt64(s: string): Option<Int64> {
    var signed := s != [] && (s[0] == '-' || s[0] == '+');
    var digits := if signed then s[1..] else s;
    if digits == [] || !AllDigits(digits) then None
    else
      var v: int := Value(digits);
      var z := if signed && s[0] == '-' then -v else v;
      if IsInt64(z) then Some(z) else None
  }

  lemma ParseUndoesToString(z: int)
    ensures ParseInt64(ToString(z)) == if IsInt64(z) then Some(z) else None
  {
    var s := ToString(z);
    if z < 0 {
      assert s[1..] == Digits(-z);
    }
  }

  lemma ToStringInjective(a: int, b: int)
    requires ToString(a) == ToString(b)
    ensures a == b
  {
    if a < 0 && b < 0 {
      assert ToString(a)[1..] == Digits(-a) && ToString(b)[1..] == Digits(-b);
    }
  }

  // ---- sizes

  function Pow10(n: nat): nat {
    if n == 0 then 1 else 10 * Pow10(n - 1)
  }

  /** A number below a power of ten has no more digits than its exponent. */
  lemma {:induction false} DigitsFit(n: nat, k: nat)
    requires n < Pow10(k) && k > 0
    ensures |Digits(n)| <= k
    decreases k
  {
    if n >= 10 {
      DigitsFit(n / 10, k - 1);
    }
  }

  /** The texts of 64-bit numbers have at most 19 digits and perhaps a sign. */
  lemma Int64Digits(z: Int64)
    ensures |ToString(z)| <= if z < 0 then 20 else 19
  {
    Pow10Nineteen();
    var size: int := if z < 0 then -(z as int) else z;
    assert IsInt64(z);
    var bound := 19;
    assert 0 <= size <= INT64_END < Pow10(bound);
    DigitsFit(size, bound);
  }

  lemma Pow10Nineteen()
    ensures Pow10(19) == 10_000_000_000_000_000_000
  {
    assert Pow10(5) == 100_000;
    assert Pow10(10) == 100_000 * Pow10(5);
    assert Pow10(15) == 100_000 * Pow10(10);
    assert Pow10(19) == 10_000 * Pow10(15);
  }

  // ---- std::stol

  predicate IsSpace(c: char) {
    c in {' ', '\t', '\n', 11 as char, 12 as char, '\r'}
  }

  /** The leading digits. */
  function UpToNonDigit(s: string): (i: nat)
    ensures i <= |s| && AllDigits(s[..i]) && (i < |s| ==> !IsDigit(s[i]))
  {
    if s == [] || !IsDigit(s[0]) then 0
    else
      assert s[..1 + UpToNonDigit(s[1..])] == [s[0]] + s[1..][..UpToNonDigit(s[1..])];
      1 + UpToNonDigit(s[1..])
  }

  lemma NonDigitAt(digits: string, rest: string)
    requires AllDigits(digits) && (rest != [] ==> !IsDigit(rest[0]))
    ensures UpToNonDigit(digits + rest) == |digits|
  {
    var s := digits + rest;
    var i := UpToNonDigit(s);
    assert rest != [] ==> s[|digits|] == rest[0];
    assert forall k :: 0 <= k < |digits| ==> s[k] == digits[k];
    assert forall k :: 0 <= k < i ==> s[k] == s[..i][k];
  }

  /** White space, a sign and as many digits as there are; what follows is left
      alone. None is the exception for no digits or for a number out of range. */
  function Stol(s: string): Option<Int64>
    decreases |s|
  {
    if s != [] && IsSpace(s[0]) then Stol(s[1..])
    else
      var signed := s != [] && (s[0] == '-' || s[0] == '+');
      var rest := if signed then s[1..] else s;
      ParseInt64((if signed then s[..1] else []) + rest[..UpToNonDigit(rest)])
  }

  lemma AllOfDigits(digits: string)
    requires AllDigits(digits)
    ensures digits[..UpToNonDigit(digits)] == digits
  {
    NonDigitAt(digits, []);
    assert digits + [] == digits;
  }

  lemma StolOfDigits(digits: string)
    requires AllDigits(digits) && |digits| > 0
    ensures Stol(digits) == ParseInt64(digits)
  {
    AllOfDigits(digits);
    hide ParseInt64, UpToNonDigit;
    assert IsDigit(digits[0]) && [] + digits == digits;
  }

  lemma StolOfMinus(digits: string)
    requires AllDigits(digits) && |digits| > 0
    ensures Stol(['-'] + digits) == ParseInt64(['-'] + digits)
  {
    AllOfDigits(digits);
    hide ParseInt64, UpToNonDigit, AllDigits;
    var s := ['-'] + digits;
    assert s[0] == '-' && s[1..] == digits && s[..1] == ['-'];
  }

  /** Reading undoes writing. */
  lemma StolUndoesToString(z: Int64)
    ensures Stol(ToString(z)) == Some(z)
  {
    hide Value, ParseInt64, Stol;
    var size: int := z;
    StolOfDigits(Digits(if z < 0 then -size else size));
    StolOfMinus(Digits(if z < 0 then -size else size));
    ParseUndoesToString(z);
  }

  lemma StolSkips(c: char, s: string)
    requires IsSpace(c)
    ensures Stol([c] + s) == Stol(s)
  {
    assert ([c] + s)[1..] == s;
    hide ParseInt64;
  }

  /** What comes before a number is skipped if it is white space, and what comes after
      its last digit does not matter. */
  lemma {:induction false} StolFindsNumber(spaces: string, z: Int64, rest: string)
    requires forall i :: 0 <= i < |spaces| ==> spaces[i] in {' ', '\t', '\n', 11 as char, 12 as char, '\r'}
    requires rest != [] ==> !IsDigit(rest[0])
    ensures Stol(spaces + (ToString(z) + rest)) == Some(z)
    decreases |spaces|
  {
    hide ToString, Stol, IsDigit;
    var s := ToString(z) + rest;
    if spaces == [] {
      assert spaces + s == s;
      StolBeforeRest(z, rest);
    } else {
      assert spaces + s == [spaces[0]] + (spaces[1..] + s);
      StolSkips(spaces[0], spaces[1..] + s);
      StolFindsNumber(spaces[1..], z, rest);
    }
  }

  lemma FrontIsDigits(digits: string, rest: string)
    requires AllDigits(digits) && |digits| > 0 && (rest != [] ==> !IsDigit(rest[0]))
    ensures var s := digits + rest;
            |s| > 0 && IsDigit(s[0]) && s[..UpToNonDigit(s)] == digits
  {
    NonDigitAt(digits, rest);
    var s := digits + rest;
    assert s[..|digits|] == digits && s[0] == digits[0];
  }

  lemma StolOfFront(digits: string, rest: string)
    requires AllDigits(digits) && |digits| > 0 && (rest != [] ==> !IsDigit(rest[0]))
    ensures Stol(digits + rest) == ParseInt64(digits)
  {
    FrontIsDigits(digits, rest);
    hide UpToNonDigit, ParseInt64, AllDigits, Stol, IsDigit;
    StolAtDigit(digits + rest);
  }

  lemma StolAtDigit(s: string)
    requires s != [] && IsDigit(s[0])
    ensures Stol(s) == ParseInt64(s[..UpToNonDigit(s)])
  {
    hide UpToNonDigit, ParseInt64;
    assert [] + s[..UpToNonDigit(s)] == s[..UpToNonDigit(s)];
  }

  lemma StolOfMinusFront(digits: string, rest: string)
    requires AllDigits(digits) && |digits| > 0 && (rest != [] ==> !IsDigit(rest[0]))
    ensures Stol("-" + (digits + rest)) == ParseInt64("-" + digits)
  {
    FrontIsDigits(digits, rest);
    hide UpToNonDigit, ParseInt64, AllDigits;
    var s := digits + rest;
    var t := "-" + s;
    assert t[0] == '-' && t[1..] == s && t[..1] == "-";
  }

  lemma StolBeforeRest(z: Int64, rest: string)
    requires rest != [] ==> !IsDigit(rest[0])
    ensures Stol(ToString(z) + rest) == Some(z)
  {
    hide Stol, Value, ParseInt64;
    var size: int := z;
    var digits := Digits(if z < 0 then -size else size);
    StolOfFront(digits, rest);
    StolOfMinusFront(digits, rest);
    ParseUndoesToString(z);
    if z < 0 {
      assert ToString(z) + rest == "-" + (digits + rest);
    }
  }
}
