/** Reading text as the C++ library does: std::getline, std::to_string and std::stoull. */
module Text {
  import opened Base

  // ---------------------------------------------------------------- std::getline

  /** The position of the first `d`, or the length of `s`. */
  function Find(s: string, d: char): (i: nat)
    ensures i <= |s| && d !in s[..i]
    ensures i < |s| ==> s[i] == d
  {
    if s == [] || s[0] == d then 0
    else
      var i := 1 + Find(s[1..], d);
      assert s[..i] == [s[0]] + s[1..][..i - 1];
      i
  }

  function Line(s: string, d: char): string {
    s[..Find(s, d)]
  }

  function AfterLine(s: string, d: char): (r: string)
    ensures s != [] ==> |r| < |s|
  {
    if Find(s, d) == |s| then [] else s[Find(s, d) + 1..]
  }

  /** The lines getline delivers until the stream is empty: a final delimiter ends no further line. */
  function Split(s: string, d: char): seq<string>
    decreases |s|
  {
    if s == [] then [] else [Line(s, d)] + Split(AfterLine(s, d), d)
  }

  lemma SplitStep(s: string, d: char)
    requires s != []
    ensures Split(s, d) == [Line(s, d)] + Split(AfterLine(s, d), d)
  {
  }

  lemma FindInPrefix(head: string, d: char, rest: string)
    requires d !in head
    ensures Find(head + [d] + rest, d) == |head|
  {
    var s := head + [d] + rest;
    assert s[|head|] == d;
  }

  /** The first line of a text that starts with one. */
  lemma SplitFirst(head: string, d: char, rest: string)
    requires d !in head
    ensures Split(head + [d] + rest, d) == [head] + Split(rest, d)
  {
    FindInPrefix(head, d, rest);
    var s := head + [d] + rest;
    assert s[..|head|] == head && s[|head| + 1..] == rest;
  }

  lemma SplitLast(s: string, d: char)
    requires d !in s && s != []
    ensures Split(s, d) == [s]
  {
    assert Find(s, d) == |s|;
    assert s[..|s|] == s;
  }

  lemma {:induction false} SplitHasNoDelimiter(s: string, d: char)
    ensures forall i :: 0 <= i < |Split(s, d)| ==> d !in Split(s, d)[i]
    decreases |s|
  {
    if s != [] {
      SplitHasNoDelimiter(AfterLine(s, d), d);
    }
  }

  // ---------------------------------------------------------------- std::to_string

  predicate IsDigit(c: char) {
    '0' <= c <= '9'
  }

  predicate AllDigits(s: string) {
    forall i :: 0 <= i < |s| ==> IsDigit(s[i])
  }

  function Decimal(n: nat): (s: string)
    ensures s != [] && AllDigits(s)
  {
    if n < 10 then [('0' as int + n) as char] else Decimal(n / 10) + [('0' as int + n % 10) as char]
  }

  function Value(s: string): nat
    requires AllDigits(s)
  {
    if s == [] then 0 else 10 * Value(s[..|s| - 1]) + (s[|s| - 1] as int - '0' as int)
  }

  lemma {:induction false} ValueOfDecimal(n: nat)
    ensures Value(Decimal(n)) == n
  {
    if n >= 10 {
      var s := Decimal(n);
      assert s[..|s| - 1] == Decimal(n / 10);
      ValueOfDecimal(n / 10);
    } else {
      assert Decimal(n)[..0] == [];
    }
  }

  lemma DecimalInjective(n: nat, m: nat)
    requires Decimal(n) == Decimal(m)
    ensures n == m
  {
    ValueOfDecimal(n);
    ValueOfDecimal(m);
  }

  // ---------------------------------------------------------------- std::stoull

  predicate IsSpace(c: char) {
    c == ' ' || '\t' <= c <= '\r'
  }

  function SkipSpace(s: string): string {
    if s != [] && IsSpace(s[0]) then SkipSpace(s[1..]) else s
  }

  /** The longest prefix of digits. */
  function DigitPrefix(s: string): (p: string)
    ensures AllDigits(p) && |p| <= |s| && p == s[..|p|]
    ensures |p| < |s| ==> !IsDigit(s[|p|])
  {
    if s == [] || !IsDigit(s[0]) then []
    else
      var p := [s[0]] + DigitPrefix(s[1..]);
      p
  }

  /**
   * std::stoull in base ten: leading space, an optional sign, then digits; the rest
   * is ignored. None is the exception, thrown without digits or out of range. A
   * minus sign negates modulo 2^64.
   */
  function ParseU64(value: string): Option<u64> {
    var s := SkipSpace(value);
    var negative := s != [] && s[0] == '-';
    var digits := DigitPrefix(if s != [] && (s[0] == '-' || s[0] == '+') then s[1..] else s);
    if digits == [] || Value(digits) >= TWO_64 then None
    else Some(if negative then Wrap64(0 - Value(digits) as int) else Value(digits))
  }

  lemma DigitPrefixAll(s: string)
    requires AllDigits(s)
    ensures DigitPrefix(s) == s
  {
    var p := DigitPrefix(s);
    assert |p| == |s|;
  }

  lemma ParseDecimal(n: u64)
    ensures ParseU64(Decimal(n)) == Some(n)
  {
    var s := Decimal(n);
    assert IsDigit(s[0]) && SkipSpace(s) == s;
    DigitPrefixAll(s);
    ValueOfDecimal(n);
  }

  lemma {:induction false} DigitPrefixStops(s: string, rest: string)
    requires AllDigits(s) && (rest == [] || !IsDigit(rest[0]))
    ensures DigitPrefix(s + rest) == s
    decreases |s|
  {
    if s == [] {
      assert s + rest == rest;
    } else {
      assert (s + rest)[1..] == s[1..] + rest;
      DigitPrefixStops(s[1..], rest);
    }
  }

  /** What stoull makes of a number: space before it is skipped, what follows is ignored, a minus sign negates. */
  lemma ParsesForms(n: u64, rest: string)
    requires rest == [] || !('0' <= rest[0] <= '9')
    ensures ParseU64(Decimal(n) + rest) == Some(n) && ParseU64(" " + (Decimal(n) + rest)) == Some(n)
    ensures ParseU64("+" + (Decimal(n) + rest)) == Some(n)
    ensures ParseU64("-" + (Decimal(n) + rest)) == Some((0x1_0000_0000_0000_0000 - n) % 0x1_0000_0000_0000_0000)
  {
    hide Decimal, ParseU64;
    ParsePlain(n, rest);
    ParseSpaced(n, rest);
    ParseSigned(n, rest, '+');
    ParseSigned(n, rest, '-');
    assert ['+'] + (Decimal(n) + rest) == "+" + (Decimal(n) + rest);
    assert ['-'] + (Decimal(n) + rest) == "-" + (Decimal(n) + rest);
  }

  /** The digits of a number that is followed by something else. */
  lemma NumberStarts(n: u64, rest: string)
    requires rest == [] || !IsDigit(rest[0])
    ensures var s := Decimal(n) + rest;
            s != [] && IsDigit(s[0]) && SkipSpace(s) == s && DigitPrefix(s) == Decimal(n) && Value(Decimal(n)) == n
  {
    hide Decimal, Value, DigitPrefix;
    var s := Decimal(n) + rest;
    ValueOfDecimal(n);
    DigitPrefixStops(Decimal(n), rest);
    assert s[0] == Decimal(n)[0];
  }

  lemma ParsePlain(n: u64, rest: string)
    requires rest == [] || !IsDigit(rest[0])
    ensures ParseU64(Decimal(n) + rest) == Some(n)
  {
    hide Decimal, Value, DigitPrefix, SkipSpace, Wrap64;
    NumberStarts(n, rest);
  }

  lemma ParseSpaced(n: u64, rest: string)
    requires rest == [] || !IsDigit(rest[0])
    ensures ParseU64(" " + (Decimal(n) + rest)) == Some(n)
  {
    hide Decimal, Value, DigitPrefix, Wrap64;
    NumberStarts(n, rest);
    var s := Decimal(n) + rest;
    assert (" " + s)[1..] == s && SkipSpace(" " + s) == s;
  }

  lemma ParseSigned(n: u64, rest: string, sign: char)
    requires (rest == [] || !IsDigit(rest[0])) && (sign == '+' || sign == '-')
    ensures ParseU64([sign] + (Decimal(n) + rest)) ==
            Some(if sign == '-' then (0x1_0000_0000_0000_0000 - n) % 0x1_0000_0000_0000_0000 else n)
  {
    hide Decimal, Value, DigitPrefix, Wrap64;
    NumberStarts(n, rest);
    var s := Decimal(n) + rest;
    var signed := [sign] + s;
    assert signed[1..] == s && signed[0] == sign && SkipSpace(signed) == signed;
    Negated(n);
  }

  lemma Negated(n: u64)
    ensures Wrap64(0 - n as int) == (0x1_0000_0000_0000_0000 - n) % 0x1_0000_0000_0000_0000
  {
  }

  /** Without digits, or with a number that does not fit in 64 bits, it throws. */
  lemma ParsesNothing(s: string)
    requires s == [] || !(IsSpace(s[0]) || s[0] == '+' || s[0] == '-' || '0' <= s[0] <= '9')
    ensures ParseU64(s) == None
  {
  }

  lemma ParsesTooLarge(n: nat)
    requires n >= 0x1_0000_0000_0000_0000
    ensures ParseU64(Decimal(n)) == None
  {
    hide Decimal, Value, DigitPrefix;
    var s := Decimal(n);
    assert IsDigit(s[0]) && SkipSpace(s) == s;
    DigitPrefixAll(s);
    ValueOfDecimal(n);
  }

  /** A decimal number has digits only, none of them a leading zero. */
  lemma {:induction false} DecimalHasNoLeadingZero(n: nat)
    ensures n > 0 ==> Decimal(n)[0] != '0'
  {
    if n >= 10 {
      DecimalHasNoLeadingZero(n / 10);
      assert Decimal(n)[0] == Decimal(n / 10)[0];
    }
  }

  /** Lines before a delimiter and lines after it. */
  lemma {:induction false} SplitConcat(a: string, d: char, t: string)
    ensures Split(a + [d] + t, d) == Split(a + [d], d) + Split(t, d)
    decreases |a|
  {
    hide Split, Find;
    if d in a {
      var n := FirstOf(a, d);
      var head, rest := a[..n], a[n + 1..];
      assert a == head + [d] + rest;
      assert a + [d] + t == head + [d] + (rest + [d] + t) && a + [d] == head + [d] + (rest + [d]);
      SplitFirst(head, d, rest + [d] + t);
      SplitFirst(head, d, rest + [d]);
      SplitConcat(rest, d, t);
    } else {
      SplitFirst(a, d, t);
      assert a + [d] == a + [d] + [];
      SplitFirst(a, d, []);
      NoText(d);
    }
  }

  lemma FirstOf(a: string, d: char) returns (n: nat)
    requires d in a
    ensures n < |a| && a[n] == d && d !in a[..n]
  {
    n := Find(a, d);
    assert a[..|a|] == a;
  }

  lemma NoText(d: char)
    ensures Split([], d) == []
  {
  }

  /** The characters of the lines are characters of the text. */
  lemma {:induction false} SplitCharacters(s: string, d: char, i: nat, ch: char)
    requires i < |Split(s, d)| && ch in Split(s, d)[i]
    ensures ch in s
    decreases |s|
  {
    hide Split, Find;
    if s == [] {
      NoText(d);
    } else {
      SplitStep(s, d);
      if i > 0 {
        SplitCharacters(AfterLine(s, d), d, i - 1, ch);
      }
    }
  }
}
