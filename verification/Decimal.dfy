/** Decimal notation of JavaScript: `toString` of an integer and `parseInt(_, 10)`. */
module Decimal {
  import opened Wrappers

  const DIGITS: string := "0123456789"

  /** The decimal digits of n, without leading zeros. */
  function Print(n: nat): (s: string)
    ensures |s| > 0
  {
    if n < 10 then [DIGITS[n]] else Print(n / 10) + [DIGITS[n % 10]]
  }

  function PrintInt(n: int): string {
    if n < 0 then "-" + Print(-n) else Print(n)
  }

  predicate IsDigit(c: char) {
    '0' <= c <= '9'
  }

  // The characters parseInt skips at the start.
  predicate IsSpace(c: char) {
    '\t' <= c <= '\r' || c == ' ' || c == '\U{A0}' || c == '\U{1680}' || '\U{2000}' <= c <= '\U{200A}'
    || c == '\U{2028}' || c == '\U{2029}' || c == '\U{202F}' || c == '\U{205F}' || c == '\U{3000}' || c == '\U{FEFF}'
  }

  function SkipSpaces(s: string): string {
    if s != [] && IsSpace(s[0]) then SkipSpaces(s[1..]) else s
  }

  function DigitValue(c: char): nat
    requires IsDigit(c)
  {
    c as int - '0' as int
  }

  predicate AllDigits(s: string) {
    forall i :: 0 <= i < |s| ==> IsDigit(s[i])
  }

  function Value(s: string): nat
    requires AllDigits(s)
  {
    if s == [] then 0 else Value(s[..|s| - 1]) * 10 + DigitValue(s[|s| - 1])
  }

  /** The longest prefix of digits. */
  function LeadingDigits(s: string): (d: string)
    ensures d <= s && AllDigits(d) && (|d| < |s| ==> !IsDigit(s[|d|]))
  {
    if s == [] || !IsDigit(s[0]) then [] else [s[0]] + LeadingDigits(s[1..])
  }

  function ParseDigits(s: string): Option<nat> {
    if LeadingDigits(s) == [] then None else Some(Value(LeadingDigits(s)))
  }

  /** parseInt(s, 10); None is NaN. */
  function ParseInt(s: string): Option<int> {
    var t := SkipSpaces(s);
    if t != [] && (t[0] == '+' || t[0] == '-') then
      var n := ParseDigits(t[1..]);
      if n.None? then None else Some(if t[0] == '-' then -(n.value as int) else n.value as int)
    else
      var n := ParseDigits(t);
      if n.None? then None else Some(n.value)
  }

  // ----- canonical decimals ------------------------------------------------------------------------------

  predicate CanonicalNat(s: string) {
    s != [] && AllDigits(s) && (|s| > 1 ==> s[0] != '0')
  }

  /** Digits only, no needless zero in front, and a minus sign only before a positive number. */
  predicate Canonical(s: string) {
    CanonicalNat(s) || (s != [] && s[0] == '-' && CanonicalNat(s[1..]) && s[1..] != "0")
  }

  lemma DigitOf(d: nat)
    requires d < 10
    ensures IsDigit(DIGITS[d]) && DigitValue(DIGITS[d]) == d && (d > 0 ==> DIGITS[d] != '0')
  {
  }

  lemma DigitAt(c: char)
    requires IsDigit(c)
    ensures DIGITS[DigitValue(c)] == c && !IsSpace(c) && c != '+' && c != '-'
  {
  }

  lemma {:induction false} ValueOfPrint(n: nat)
    ensures CanonicalNat(Print(n)) && Value(Print(n)) == n && (n > 0 ==> Print(n)[0] != '0')
  {
    DigitOf(n % 10);
    if n < 10 {
      assert Print(n)[..0] == [];
    } else {
      ValueOfPrint(n / 10);
      assert Print(n)[..|Print(n)| - 1] == Print(n / 10);
    }
  }

  lemma PrintStep(v: nat, c: char)
    requires v > 0 && IsDigit(c)
    ensures Print(v * 10 + DigitValue(c)) == Print(v) + [c]
  {
    DigitAt(c);
    var n := v * 10 + DigitValue(c);
    assert n / 10 == v && n % 10 == DigitValue(c);
  }

  lemma {:induction false} PrintOfValue(s: string)
    requires CanonicalNat(s)
    ensures Print(Value(s)) == s && (s != "0" ==> Value(s) > 0)
  {
    hide Print, IsSpace;
    var before, last := s[..|s| - 1], s[|s| - 1];
    assert s == before + [last];
    if before == [] {
      PrintOneDigit(last);
    } else {
      PrintOfValue(before);
      PrintStep(Value(before), last);
    }
  }

  lemma PrintOneDigit(c: char)
    requires IsDigit(c)
    ensures Print(DigitValue(c)) == [c] && Value([c]) == DigitValue(c)
  {
    DigitAt(c);
    assert [c][..0] == [];
  }

  lemma {:induction false} AllAreLeading(s: string)
    requires AllDigits(s)
    ensures LeadingDigits(s) == s
  {
    if s != [] {
      AllAreLeading(s[1..]);
    }
  }

  lemma ParseOfNat(s: string)
    requires CanonicalNat(s)
    ensures ParseInt(s) == Some(Value(s)) && ParseInt("-" + s) == Some(-(Value(s) as int))
  {
    hide IsSpace, Value;
    DigitAt(s[0]);
    AllAreLeading(s);
    assert !IsSpace('-') by { MinusIsNoSpace(); }
    assert ("-" + s)[1..] == s && SkipSpaces("-" + s) == "-" + s && SkipSpaces(s) == s;
    assert ParseDigits(s) == Some(Value(s));
  }

  lemma MinusIsNoSpace()
    ensures !IsSpace('-')
  {
  }

  /** Whatever is printed reads back as the same number. */
  lemma ParseOfPrint(n: int)
    ensures ParseInt(PrintInt(n)) == Some(n) && Canonical(PrintInt(n))
  {
    hide ParseInt, Value;
    var digits := Print(if n < 0 then -n else n);
    ValueOfPrint(if n < 0 then -n else n);
    ParseOfNat(digits);
    assert ("-" + digits)[1..] == digits;
  }

  /** A string survives being read and printed again exactly when it is a canonical decimal. */
  lemma PrintOfParse(s: string)
    ensures ParseInt(s).Some? && PrintInt(ParseInt(s).value) == s <==> Canonical(s)
  {
    hide ParseInt, Value;
    if ParseInt(s).Some? && PrintInt(ParseInt(s).value) == s {
      ParseOfPrint(ParseInt(s).value);
    }
    if CanonicalNat(s) {
      ParseOfNat(s);
      PrintOfValue(s);
    } else if Canonical(s) {
      ParseOfNat(s[1..]);
      PrintOfValue(s[1..]);
      assert s == "-" + s[1..];
    }
  }
}
