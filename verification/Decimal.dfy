/** Decimal text: what the digits of a number are, and that reading them back gives the number. */
module Decimals {
  function Pow10(k: nat): (r: nat)
    ensures r > 0
  {
    if k == 0 then 1 else 10 * Pow10(k - 1)
  }

  function Digit(d: int): char
    requires 0 <= d <= 9
  {
    '0' + d as char
  }

  predicate IsDigit(c: char) {
    '0' <= c <= '9'
  }

  function DigitValue(c: char): int {
    c as int - '0' as int
  }

  /** Canonical decimal digits, from the last one back. */
  function Digits(n: nat): (r: string)
    ensures |r| > 0
  {
    if n < 10 then [Digit(n)] else Digits(n / 10) + [Digit(n % 10)]
  }

  function Decimal(n: int): string {
    if n < 0 then "-" + Digits(-n) else Digits(n)
  }

  /** Exactly `k` digits of a number, from the first one on, as the conversion loops produce them. */
  function Padded(m: nat, k: nat): (r: string)
    requires m < Pow10(k)
    ensures |r| == k
  {
    if k == 0 then []
    else
      Leading(m, Pow10(k - 1));
      [Digit(m / Pow10(k - 1))] + Padded(m % Pow10(k - 1), k - 1)
  }

  /** The leading digit and what is left. */
  lemma Leading(m: nat, t: nat)
    requires t > 0 && m < 10 * t
    ensures 0 <= m / t <= 9 && 0 <= m % t < t && m - m / t * t == m % t
  {
    assert m == m / t * t + m % t;
    Multiples(m / t - 9, t);
    assert (m / t - 9) * t == m / t * t - 9 * t;
  }

  lemma Multiples(x: int, d: int)
    requires d >= 0
    ensures x > 0 ==> x * d >= d
    ensures x < 0 ==> x * d <= -d
  {
  }

  // ----- Length -----

  lemma {:induction false} DigitsLength(n: nat)
    ensures n < Pow10(|Digits(n)|)
    ensures n > 0 ==> Pow10(|Digits(n)| - 1) <= n
  {
    if n >= 10 {
      DigitsLength(n / 10);
      var k := |Digits(n / 10)|;
      assert |Digits(n)| == k + 1;
    }
  }

  lemma {:induction false} Pow10Grows(i: nat, j: nat)
    requires i <= j
    ensures Pow10(i) <= Pow10(j)
    decreases j - i
  {
    if i < j { Pow10Grows(i, j - 1); }
  }

  /** A 32-bit number has at most ten digits. */
  lemma AtMostTen(n: nat)
    requires n <= 0x7FFF_FFFF
    ensures |Digits(n)| <= 10
  {
    if |Digits(n)| > 10 {
      DigitsLength(n);
      Pow10Grows(10, |Digits(n)| - 1);
      Pow10Values();
    }
  }

  lemma Pow10Values()
    ensures Pow10(9) == 1000000000 && Pow10(10) == 10000000000
  {
    assert Pow10(5) == 100000;
  }

  // ----- The digits from the front are the digits from the back -----

  lemma DivDiv(m: nat, t: nat)
    requires t > 0
    ensures m / (10 * t) == m / 10 / t
    ensures m % (10 * t) / 10 == m / 10 % t
    ensures m % (10 * t) % 10 == m % 10
  {
    var q, r := m / 10, m % 10;
    var a, b := q / t, q % t;
    assert m == 10 * q + r && q == a * t + b;
    assert m == a * (10 * t) + (10 * b + r) by { assert a * (10 * t) == 10 * (a * t); }
    assert 0 <= 10 * b + r < 10 * t;
    Unique(m, 10 * t, a, 10 * b + r);
  }

  lemma Unique(m: nat, d: nat, q: int, r: int)
    requires d > 0 && m == q * d + r && 0 <= r < d
    ensures m / d == q && m % d == r
  {
    var x := m / d - q;
    assert m == m / d * d + m % d;
    assert x * d == r - m % d;
    Multiples(x, d);
  }

  lemma {:induction false} PaddedBack(m: nat, k: nat)
    requires m < Pow10(k + 1)
    ensures m / 10 < Pow10(k) && Padded(m, k + 1) == Padded(m / 10, k) + [Digit(m % 10)]
    decreases k
  {
    if k > 0 {
      var t := Pow10(k - 1);
      Leading(m, Pow10(k));
      DivDiv(m, t);
      PaddedBack(m % Pow10(k), k - 1);
    }
  }

  lemma {:induction false} PaddedIsDigits(n: nat)
    ensures n < Pow10(|Digits(n)|) && Padded(n, |Digits(n)|) == Digits(n)
  {
    DigitsLength(n);
    if n >= 10 {
      PaddedIsDigits(n / 10);
      PaddedBack(n, |Digits(n / 10)|);
    } else {
      assert Padded(n, 1) == [Digit(n / 1)] + Padded(n % 1, 0);
    }
  }

  // ----- Reading -----

  predicate IsSpace(c: char) {
    c == ' ' || c == '\n' || c == '\r' || c == 12 as char || c == '\t' || c == 11 as char
  }

  function SkipSpaces(s: string): string {
    if s != "" && IsSpace(s[0]) then SkipSpaces(s[1..]) else s
  }

  /** The number that leading digits spell, after a prefix worth `acc`. */
  function Spelt(acc: nat, s: string): nat
    decreases |s|
  {
    if s != "" && IsDigit(s[0]) then Spelt(10 * acc + DigitValue(s[0]), s[1..]) else acc
  }

  function Magnitude(s: string): nat {
    var t := SkipSpaces(s);
    if t != "" && (t[0] == '-' || t[0] == '+') then Spelt(0, t[1..]) else Spelt(0, t)
  }

  /** What `atoi` makes of any text. */
  function ParseInt(s: string): int {
    var t := SkipSpaces(s);
    if t != "" && t[0] == '-' then 0 - Magnitude(s) else Magnitude(s)
  }

  lemma {:induction false} SpeltAppend(acc: nat, x: string, c: char, rest: string)
    requires (forall i :: 0 <= i < |x| ==> IsDigit(x[i])) && IsDigit(c)
    requires rest != "" ==> !IsDigit(rest[0])
    ensures Spelt(acc, x + [c] + rest) == 10 * Spelt(acc, x) + DigitValue(c)
    decreases |x|
  {
    if x == "" {
      assert x + [c] + rest == [c] + rest;
      assert ([c] + rest)[1..] == rest;
    } else {
      assert (x + [c] + rest)[1..] == x[1..] + [c] + rest;
      SpeltAppend(10 * acc + DigitValue(x[0]), x[1..], c, rest);
    }
  }

  lemma {:induction false} SkipsSpaces(spaces: string, s: string)
    requires forall i :: 0 <= i < |spaces| ==> IsSpace(spaces[i])
    requires s != "" ==> !IsSpace(s[0])
    ensures SkipSpaces(spaces + s) == s
  {
    if spaces == "" {
      assert spaces + s == s;
    } else {
      assert (spaces + s)[1..] == spaces[1..] + s;
      SkipsSpaces(spaces[1..], s);
    }
  }

  // ----- What any text is read as -----

  /** The six characters that are skipped in front: blank, newline, return, form feed, tab and
      vertical tab. */
  const BLANKS := [' ', '\n', '\r', 12 as char, '\t', 11 as char]

  predicate AllBlank(s: string) {
    forall i :: 0 <= i < |s| ==> s[i] in BLANKS
  }

  predicate AllDigits(s: string) {
    forall i :: 0 <= i < |s| ==> '0' <= s[i] <= '9'
  }

  predicate StartsWithDigit(s: string) {
    s != "" && '0' <= s[0] <= '9'
  }

  /** The value of digits by their places, leading zeros and all; of none it is 0. */
  function Value(digits: string): nat
    requires AllDigits(digits)
  {
    if digits == "" then 0 else 10 * Value(digits[..|digits| - 1]) + (digits[|digits| - 1] as int - '0' as int)
  }

  lemma {:induction false} SpeltIsValue(digits: string, rest: string)
    requires AllDigits(digits) && !StartsWithDigit(rest)
    ensures Spelt(0, digits + rest) == Value(digits)
  {
    if digits == "" {
      assert digits + rest == rest;
    } else {
      var x, c := digits[..|digits| - 1], digits[|digits| - 1];
      assert digits + rest == x + [c] + rest;
      SpeltIsValue(x, "");
      assert x + "" == x;
      SpeltAppend(0, x, c, rest);
    }
  }

  /** Any text is blanks, then a sign or none, then digits or none, and then something else; and it
      is read as the value of the digits under the sign. */
  lemma ReadAs(blanks: string, sign: string, digits: string, rest: string)
    requires AllBlank(blanks) && sign in ["", "+", "-"] && AllDigits(digits) && !StartsWithDigit(rest)
    requires sign == digits == "" && rest != "" ==> rest[0] !in BLANKS && rest[0] != '+' && rest[0] != '-'
    ensures ParseInt(blanks + sign + digits + rest) == if sign == "-" then 0 - Value(digits) else Value(digits)
  {
    hide Spelt, SkipSpaces, Value, AllDigits;
    var s := sign + (digits + rest);
    forall i | 0 <= i < |blanks| ensures IsSpace(blanks[i]) {
      assert blanks[i] in BLANKS;
    }
    FirstIsNoBlank(sign, digits, rest);
    SpeltIsValue(digits, rest);
    SkipsSpaces(blanks, s);
    assert blanks + sign + digits + rest == blanks + s;
    if sign == "" {
      assert s == digits + rest;
    } else {
      assert s[1..] == digits + rest;
    }
  }

  lemma FirstIsNoBlank(sign: string, digits: string, rest: string)
    requires sign in ["", "+", "-"] && AllDigits(digits)
    requires sign == digits == "" && rest != "" ==> rest[0] !in BLANKS && rest[0] != '+' && rest[0] != '-'
    ensures var s := sign + (digits + rest);
      s != "" ==> !IsSpace(s[0]) && (sign == "" ==> s[0] != '+' && s[0] != '-')
  {
  }

  lemma BlanksInFront(s: string) returns (n: nat)
    ensures n <= |s| && AllBlank(s[..n]) && (n < |s| ==> s[n] !in BLANKS)
  {
    n := 0;
    while n < |s| && s[n] in BLANKS
      invariant n <= |s| && AllBlank(s[..n])
    {
      n := n + 1;
    }
  }

  lemma DigitsInFront(s: string) returns (n: nat)
    ensures n <= |s| && AllDigits(s[..n]) && !StartsWithDigit(s[n..])
  {
    n := 0;
    while n < |s| && '0' <= s[n] <= '9'
      invariant n <= |s| && AllDigits(s[..n])
    {
      n := n + 1;
    }
  }

  /** There is such a reading of every text. */
  lemma ReadingExists(s: string) returns (blanks: string, sign: string, digits: string, rest: string)
    ensures s == blanks + sign + digits + rest
    ensures AllBlank(blanks) && sign in ["", "+", "-"] && AllDigits(digits) && !StartsWithDigit(rest)
    ensures sign == digits == "" && rest != "" ==> rest[0] !in BLANKS && rest[0] != '+' && rest[0] != '-'
  {
    hide AllBlank, AllDigits, StartsWithDigit;
    var n := BlanksInFront(s);
    var m := if n < |s| && (s[n] == '+' || s[n] == '-') then n + 1 else n;
    var k := DigitsInFront(s[m..]);
    blanks, sign, digits, rest := s[..n], s[n..m], s[m..][..k], s[m..][k..];
    assert s[m..] == digits + rest && s == blanks + sign + s[m..];
    assert m == n ==> sign == "";
    assert m == n + 1 ==> sign == [s[n]];
  }

  lemma {:induction false} ValueOfDigits(n: nat)
    ensures AllDigits(Digits(n)) && Value(Digits(n)) == n
  {
    if n >= 10 {
      ValueOfDigits(n / 10);
      assert Digits(n)[..|Digits(n)| - 1] == Digits(n / 10);
    } else {
      assert Value("") == 0 && Digits(n)[..0] == "";
    }
  }

  /** The round trip, also with blanks before the number and anything but a digit after it, and with
      or without a sign where there is no minus. */
  lemma RoundTrip(n: int, blanks: string, rest: string)
    requires AllBlank(blanks) && !StartsWithDigit(rest)
    ensures ParseInt(blanks + Decimal(n) + rest) == n
    ensures n >= 0 ==> ParseInt(blanks + "+" + Decimal(n) + rest) == n
  {
    hide Digits, Value, ParseInt, AllBlank, AllDigits, StartsWithDigit;
    var m: nat := if n < 0 then -n else n;
    ValueOfDigits(m);
    if n < 0 {
      ReadAs(blanks, "-", Digits(m), rest);
      SignInFront(blanks, "-", Digits(m), rest);
    } else {
      ReadAs(blanks, "", Digits(m), rest);
      ReadAs(blanks, "+", Digits(m), rest);
      assert blanks + "" == blanks;
    }
  }

  lemma SignInFront(blanks: string, sign: string, digits: string, rest: string)
    ensures blanks + (sign + digits) + rest == blanks + sign + digits + rest
  {
  }

  /** Canonical text: digits only, no leading zero, and the length that the value calls for. */
  lemma {:induction false} Canonical(n: nat)
    ensures forall i :: 0 <= i < |Digits(n)| ==> '0' <= Digits(n)[i] <= '9'
    ensures Digits(n)[0] == '0' <==> n == 0
    ensures n > 0 ==> Pow10(|Digits(n)| - 1) <= n < Pow10(|Digits(n)|)
  {
    DigitsLength(n);
    if n >= 10 {
      Canonical(n / 10);
    }
  }

  // ----- Binary coded decimal -----

  /** Four bits of a digit, the highest first. */
  function Nibble(c: char): (r: string)
    requires IsDigit(c)
    ensures |r| == 4
  {
    var d := DigitValue(c);
    [BitChar(d / 8), BitChar(d / 4), BitChar(d / 2), BitChar(d)]
  }

  function BitChar(x: int): char {
    if x % 2 == 1 then '1' else '0'
  }

  function Bcd(s: string): (r: string)
    requires forall i :: 0 <= i < |s| ==> IsDigit(s[i])
    ensures |r| == 4 * |s|
  {
    if s == "" then "" else Nibble(s[0]) + Bcd(s[1..])
  }

  function BitValue(c: char): nat {
    if c == '1' then 1 else 0
  }

  /** Reading four bits at a time. */
  function FromBcd(b: string): string {
    if |b| < 4 then ""
    else
      var d := 8 * BitValue(b[0]) + 4 * BitValue(b[1]) + 2 * BitValue(b[2]) + BitValue(b[3]);
      ['0' + d as char] + FromBcd(b[4..])
  }

  lemma {:induction false} BcdRoundTrip(s: string)
    requires forall i :: 0 <= i < |s| ==> IsDigit(s[i])
    ensures FromBcd(Bcd(s)) == s
  {
    if s != "" {
      hide Nibble;
      assert Bcd(s)[4..] == Bcd(s[1..]);
      BcdRoundTrip(s[1..]);
      NibbleRoundTrip(s[0], Bcd(s[1..]));
      assert [s[0]] + s[1..] == s;
    }
  }

  lemma NibbleRoundTrip(c: char, rest: string)
    requires IsDigit(c)
    ensures FromBcd(Nibble(c) + rest) == [c] + FromBcd(rest)
  {
    var b, d := Nibble(c) + rest, DigitValue(c);
    assert b[..4] == Nibble(c) && b[4..] == rest;
    FourBits(d);
    assert BitValue(BitChar(d / 8)) == d / 8 % 2 && BitValue(BitChar(d / 4)) == d / 4 % 2;
    assert BitValue(BitChar(d / 2)) == d / 2 % 2 && BitValue(BitChar(d)) == d % 2;
    hide BitChar, BitValue;
    assert FromBcd(b) == ['0' + d as char] + FromBcd(rest);
  }

  lemma FourBits(d: int)
    requires 0 <= d <= 15
    ensures d == 8 * (d / 8 % 2) + 4 * (d / 4 % 2) + 2 * (d / 2 % 2) + d % 2
  {
  }

  lemma {:induction false} BcdAppend(x: string, c: char)
    requires (forall i :: 0 <= i < |x| ==> IsDigit(x[i])) && IsDigit(c)
    ensures Bcd(x + [c]) == Bcd(x) + Nibble(c)
  {
    if x == "" {
      assert x + [c] == [c];
      assert Bcd([c][1..]) == "";
    } else {
      assert (x + [c])[1..] == x[1..] + [c];
      BcdAppend(x[1..], c);
    }
  }
}
