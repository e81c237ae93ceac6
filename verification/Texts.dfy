// String searching and number text, as the C++ standard library does them.
module Texts {

  import opened Sequences

  // Position of the first character from the set at or after pos.
  function FindFirstOf(s: string, chars: set<char>, pos: nat): (found: Option<nat>)
    ensures found.Some? ==> pos <= found.value < |s| && s[found.value] in chars
    decreases |s| - pos
  {
    if pos >= |s| then None
    else if s[pos] in chars then Some(pos)
    else FindFirstOf(s, chars, pos + 1)
  }

  lemma {:induction false} FindIs(s: string, chars: set<char>, pos: nat, k: nat)
    requires pos <= k < |s| && s[k] in chars && forall i | pos <= i < k :: s[i] !in chars
    ensures FindFirstOf(s, chars, pos) == Some(k)
    decreases k - pos
  {
    if pos < k {
      FindIs(s, chars, pos + 1, k);
    }
  }

  // Nothing in the rest of the string is found.
  lemma {:induction false} FindNothing(s: string, chars: set<char>, pos: nat)
    requires forall i | pos <= i < |s| :: s[i] !in chars
    ensures FindFirstOf(s, chars, pos) == None
    decreases |s| - pos
  {
    if pos < |s| {
      FindNothing(s, chars, pos + 1);
    }
  }

  // The text has this part at this position.
  predicate Has(s: string, at: nat, part: string) {
    at + |part| <= |s| && s[at..at + |part|] == part
  }

  lemma HasChars(s: string, at: nat, part: string)
    requires Has(s, at, part)
    ensures forall i | 0 <= i < |part| :: s[at + i] == part[i]
  {
    forall i | 0 <= i < |part|
      ensures s[at + i] == part[i]
    {
      assert s[at..at + |part|][i] == part[i];
    }
  }

  lemma HasNone(s: string, at: nat, part: string, chars: set<char>)
    requires Has(s, at, part) && forall c | c in part :: c !in chars
    ensures forall i | at <= i < at + |part| :: s[i] !in chars
  {
    forall i | at <= i < at + |part|
      ensures s[i] !in chars
    {
      assert s[at..at + |part|][i - at] == part[i - at];
    }
  }

  lemma HasParts(a: string, b: string, c: string, d: string)
    ensures var s := a + (b + (c + d));
            && |s| == |a| + |b| + |c| + |d| && Has(s, 0, a) && Has(s, |a|, b)
            && Has(s, |a| + |b|, c) && Has(s, |a| + |b| + |c|, d)
  {
    HasRight(c, d, 0, c);
    HasRight(b, c + d, 0, b);
    HasShift(b, c + d, 0, c);
    HasShift(b, c + d, |c|, d);
    HasShift(a, b + (c + d), 0, b);
    HasShift(a, b + (c + d), |b|, c);
    HasShift(a, b + (c + d), |b| + |c|, d);
  }

  lemma HasRight(a: string, b: string, at: nat, part: string)
    requires Has(a, at, part)
    ensures Has(a + b, at, part)
  {
    assert (a + b)[at..at + |part|] == a[at..at + |part|];
  }

  lemma HasShift(a: string, b: string, at: nat, part: string)
    requires Has(b, at, part)
    ensures Has(a + b, |a| + at, part)
  {
    assert (a + b)[|a| + at..|a| + at + |part|] == b[at..at + |part|];
  }

  predicate IsDigit(c: char) { '0' <= c <= '9' }

  predicate AllDigits(s: string) { forall i | 0 <= i < |s| :: IsDigit(s[i]) }

  function DigitChar(d: nat): (c: char)
    requires d < 10
    ensures IsDigit(c) && (c as int) - ('0' as int) == d
  {
    '0' + d as char
  }

  // The decimal text of a number, as operator<< prints it.
  function Decimal(n: nat): (s: string)
    ensures s != [] && AllDigits(s)
  {
    if n < 10 then [DigitChar(n)] else Decimal(n / 10) + [DigitChar(n % 10)]
  }

  function DigitsValue(s: string): nat
    requires AllDigits(s)
  {
    if s == [] then 0 else 10 * DigitsValue(s[..|s| - 1]) + (s[|s| - 1] as int - '0' as int)
  }

  lemma {:induction false} DecimalValue(n: nat)
    ensures DigitsValue(Decimal(n)) == n
  {
    if n >= 10 {
      var s := Decimal(n);
      assert s[..|s| - 1] == Decimal(n / 10);
      DecimalValue(n / 10);
    } else {
      assert Decimal(n)[..0] == [];
    }
  }

  const SPACES: set<char> := {' ', '\t', '\n', '\r', 11 as char, 12 as char}

  function SkipSpaces(s: string): string {
    if s != [] && s[0] in SPACES then SkipSpaces(s[1..]) else s
  }

  function LeadingDigits(s: string): (d: string)
    ensures AllDigits(d)
  {
    if s != [] && IsDigit(s[0]) then [s[0]] + LeadingDigits(s[1..]) else []
  }

  lemma {:induction false} LeadingDigitsStop(d: string, rest: string)
    requires AllDigits(d) && (rest == [] || !IsDigit(rest[0]))
    ensures LeadingDigits(d + rest) == d
  {
    if d == [] {
      assert d + rest == rest;
    } else {
      assert (d + rest)[1..] == d[1..] + rest;
      LeadingDigitsStop(d[1..], rest);
    }
  }

  // The number at the front of a string: optional spaces and sign, then digits; none without digits.
  function FrontNumber(s: string): Option<int> { SignedNumber(SkipSpaces(s)) }

  function SignedNumber(t: string): Option<int> {
    var negative := t != [] && t[0] == '-';
    var u := if t != [] && t[0] in {'-', '+'} then t[1..] else t;
    var d := LeadingDigits(u);
    var n: int := DigitsValue(d);
    if d == [] then None else Some(if negative then -n else n)
  }

  lemma FrontNumberDecimal(n: nat, rest: string)
    requires rest == [] || !IsDigit(rest[0])
    ensures FrontNumber(Decimal(n) + rest) == Some(n)
  {
    assert "" + (Decimal(n) + rest) == Decimal(n) + rest;
    FrontNumberUnsigned("", n, rest);
  }

  const INT_MAX: int := 0x7FFF_FFFF
  const INT_MIN: int := -0x8000_0000
  const ULONG_MAX: int := 0xFFFF_FFFF_FFFF_FFFF

  // std::stoi; None for the exceptions it throws.
  function Stoi(s: string): Option<int> {
    match FrontNumber(s)
    case Some(n) => if INT_MIN <= n <= INT_MAX then Some(n) else None
    case None => None
  }

  // std::stoul, which lets a minus sign wrap around; None for the exceptions it throws.
  function Stoul(s: string): Option<nat> {
    match FrontNumber(s)
    case Some(n) =>
      if -ULONG_MAX <= n <= ULONG_MAX then Some(if n < 0 then ULONG_MAX + 1 + n else n) else None
    case None => None
  }

  // ----- numbers in other forms

  lemma {:induction false} SkippedSpaces(spaces: string, rest: string)
    requires AllSpaces(spaces) && (rest == [] || rest[0] !in SPACES)
    ensures SkipSpaces(spaces + rest) == rest
  {
    if spaces == [] {
      assert spaces + rest == rest;
    } else {
      assert (spaces + rest)[1..] == spaces[1..] + rest;
      SkippedSpaces(spaces[1..], rest);
    }
  }

  lemma UnsignedRead(n: nat, rest: string)
    requires rest == [] || !IsDigit(rest[0])
    ensures SignedNumber(Decimal(n) + rest) == Some(n)
  {
    var digits := Decimal(n) + rest;
    assert digits[0] == Decimal(n)[0] && IsDigit(digits[0]);
    LeadingDigitsStop(Decimal(n), rest);
    DecimalValue(n);
  }

  lemma SignedRead(sign: char, n: nat, rest: string)
    requires (sign == '+' || sign == '-') && (rest == [] || !IsDigit(rest[0]))
    ensures SignedNumber([sign] + (Decimal(n) + rest)) == Some((if sign == '-' then -1 else 1) * n)
  {
    var t := [sign] + (Decimal(n) + rest);
    assert t[0] == sign && t[1..] == Decimal(n) + rest;
    LeadingDigitsStop(Decimal(n), rest);
    DecimalValue(n);
  }

  predicate AllSpaces(s: string) { forall c | c in s :: c in SPACES }

  // A number may have spaces and a sign before it, and anything but a digit behind it.
  lemma FrontNumberUnsigned(spaces: string, n: nat, rest: string)
    requires AllSpaces(spaces) && (rest == [] || !IsDigit(rest[0]))
    ensures FrontNumber(spaces + (Decimal(n) + rest)) == Some(n)
  {
    assert (Decimal(n) + rest)[0] == Decimal(n)[0];
    SkippedSpaces(spaces, Decimal(n) + rest);
    UnsignedRead(n, rest);
  }

  lemma FrontNumberSigned(spaces: string, sign: char, n: nat, rest: string)
    requires AllSpaces(spaces) && (sign == '+' || sign == '-') && (rest == [] || !IsDigit(rest[0]))
    ensures FrontNumber(spaces + ([sign] + (Decimal(n) + rest))) == Some((if sign == '-' then -1 else 1) * n)
  {
    SkippedSpaces(spaces, [sign] + (Decimal(n) + rest));
    SignedRead(sign, n, rest);
  }

  // What fits an int, and what fits an unsigned long, where a minus sign wraps around.
  lemma NumbersThatFit(n: nat)
    ensures Stoi(Decimal(n)) == if n < 0x8000_0000 then Some(n) else None
    ensures Stoi("-" + Decimal(n)) == if n <= 0x8000_0000 then Some(0 - n) else None
    ensures Stoul(Decimal(n)) == if n < 0x1_0000_0000_0000_0000 then Some(n) else None
    ensures Stoul("-" + Decimal(n)) ==
            if n >= 0x1_0000_0000_0000_0000 then None
            else if n == 0 then Some(0) else Some(0x1_0000_0000_0000_0000 - n)
  {
    assert Decimal(n) == "" + (Decimal(n) + "") && "-" + Decimal(n) == "" + (['-'] + (Decimal(n) + ""));
    FrontNumberUnsigned("", n, "");
    FrontNumberSigned("", '-', n, "");
  }

  lemma {:induction false} SkippedPart(s: string)
    ensures forall c | c in SkipSpaces(s) :: c in s
  {
    if s != [] && s[0] in SPACES {
      SkippedPart(s[1..]);
    }
  }

  // Without a digit there is no number.
  lemma NoFrontNumber(s: string)
    requires forall c | c in s :: !IsDigit(c)
    ensures FrontNumber(s) == None
  {
    SkippedPart(s);
    var t := SkipSpaces(s);
    var u := if t != [] && t[0] in {'-', '+'} then t[1..] else t;
    assert u != [] ==> u[0] in t;
  }
}
