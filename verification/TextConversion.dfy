/** `itoa`, `atoi` and `itoBCD` with 32-bit arithmetic, in character buffers. */
module TextConversions {
  import opened Decimals

  newtype int32 = x: int | -0x8000_0000 <= x < 0x8000_0000

  const NUL: char := '\0'

  /** The inner loop of the conversions: a power of ten. */
  method TenTo(power: int32) returns (tenToThe: int32)
    requires 0 <= power <= 9
    ensures tenToThe as int == Pow10(power as int)
  {
    tenToThe := 1;
    var j: int32 := 0;
    while j < power
      invariant 0 <= j <= power && tenToThe as int == Pow10(j as int)
    {
      Pow10Grows((j + 1) as int, 9);
      Pow10Values();
      tenToThe := tenToThe * 10;
      j := j + 1;
    }
  }

  /** The largest power of ten in a number, as `itoa` finds it. */
  method MaxPower(num: int32) returns (maxPower: int32)
    requires num >= 0
    ensures maxPower as int == |Digits(num as int)| - 1 && maxPower <= 9
  {
    AtMostTen(num as int);
    var numLeft := num;
    maxPower := 0;
    while numLeft > 1
      invariant 0 <= numLeft <= num && 0 <= maxPower <= 9
      invariant maxPower as int + |Digits(numLeft as int)| == |Digits(num as int)|
    {
      numLeft := numLeft / 10;
      if numLeft < 1 { break; }
      maxPower := maxPower + 1;
    }
  }

  /** One digit is written and taken off what is left. */
  method PutDigit(buffer: array<char>, i: int32, numLeft: int32, power: int32) returns (rest: int32)
    requires 0 <= i as int < buffer.Length && 0 <= power <= 9 && 0 <= numLeft as int < Pow10(power as int + 1)
    modifies buffer
    ensures 0 <= rest as int < Pow10(power as int)
    ensures [buffer[i]] + Padded(rest as int, power as int) == Padded(numLeft as int, power as int + 1)
    ensures forall j :: 0 <= j < buffer.Length && j != i as int ==> buffer[j] == old(buffer[j])
  {
    var tenToThePower := TenTo(power);
    Leading(numLeft as int, tenToThePower as int);
    Multiples(numLeft as int / tenToThePower as int, tenToThePower as int);
    var numToChar := numLeft / tenToThePower;
    buffer[i] := '0' + numToChar as char;
    rest := numLeft - numToChar * tenToThePower;
  }

  /** The conversion loop, from the place after the sign; the two branches differ in that only. */
  method PutDigits(buffer: array<char>, start: int32, num: int32, maxPower: int32)
    requires 0 <= start <= 1 && 0 <= maxPower <= 9 && (start + maxPower + 1) as int < buffer.Length
    requires 0 <= num as int < Pow10(maxPower as int + 1)
    modifies buffer
    ensures buffer[..start + maxPower + 1] == old(buffer[..start]) + Padded(num as int, maxPower as int + 1)
    ensures forall j :: (start + maxPower) as int < j < buffer.Length ==> buffer[j] == old(buffer[j])
  {
    hide Padded, Pow10;
    var numLeft := num;
    var i := start;
    while i < start + maxPower + 1
      invariant start <= i <= start + maxPower + 1
      invariant 0 <= numLeft as int < Pow10((start + maxPower + 1 - i) as int)
      invariant buffer[..i] + Padded(numLeft as int, (start + maxPower + 1 - i) as int)
             == old(buffer[..start]) + Padded(num as int, maxPower as int + 1)
      invariant forall j :: i as int <= j < buffer.Length ==> buffer[j] == old(buffer[j])
    {
      ghost var was := buffer[..i];
      numLeft := PutDigit(buffer, i, numLeft, start + maxPower - i);
      assert buffer[..i + 1] == was + [buffer[i]];
      Joined(was, buffer[i], Padded(numLeft as int, (start + maxPower - i) as int));
      i := i + 1;
    }
    NonePadded(numLeft as int);
  }

  lemma Joined(x: string, c: char, y: string)
    ensures x + [c] + y == x + ([c] + y)
  {
  }

  /** The text of a number, NUL included, and nothing after it. */
  method Itoa(num: int32, buffer: array<char>)
    requires num > -0x8000_0000 && |Decimal(num as int)| < buffer.Length
    modifies buffer
    ensures buffer[..|Decimal(num as int)| + 1] == Decimal(num as int) + ['\0']
    ensures forall i :: |Decimal(num as int)| < i < buffer.Length ==> buffer[i] == old(buffer[i])
  {
    hide Digits, Padded, Pow10;
    var numLeft: int32;
    if num < 0 { numLeft := -1 * num; } else { numLeft := num; }
    var maxPower := MaxPower(numLeft);
    PaddedIsDigits(numLeft as int);
    if num < 0 {
      buffer[0] := '-';
      assert buffer[..1] == "-";
      PutDigits(buffer, 1, numLeft, maxPower);
      assert buffer[..maxPower + 2] == Decimal(num as int);
      buffer[maxPower + 2] := NUL;
    } else {
      PutDigits(buffer, 0, numLeft, maxPower);
      assert buffer[..maxPower + 1] == Decimal(num as int);
      buffer[maxPower + 1] := NUL;
    }
  }

  lemma NonePadded(m: nat)
    requires m < Pow10(0)
    ensures Padded(m, 0) == []
  {
  }

  /** The text in a buffer: what comes before the first NUL. */
  ghost predicate Holds(s: array<char>, text: string)
    reads s
  {
    && |text| < s.Length && s[..|text|] == text && s[|text|] == NUL
    && forall i :: 0 <= i < |text| ==> text[i] != NUL
  }

  lemma {:induction false} SpeltGrows(acc: nat, s: string)
    ensures acc <= Spelt(acc, s)
    decreases |s|
  {
    if s != "" && IsDigit(s[0]) { SpeltGrows(10 * acc + DigitValue(s[0]), s[1..]); }
  }

  /** The value of any text whose digits do not overflow. */
  method Atoi(s: array<char>, ghost text: string) returns (res: int32)
    requires Holds(s, text) && Magnitude(text) <= 0x7FFF_FFFF
    ensures res as int == ParseInt(text)
  {
    hide Spelt, SkipSpaces;
    res := 0;
    var sign := ' ';
    var p := 0;
    while IsSpace(s[p])
      invariant 0 <= p <= |text| && SkipSpaces(text[p..]) == SkipSpaces(text)
      decreases |text| - p
    {
      SpaceStep(text, p);
      p := p + 1;
    }
    SpacesDone(text, p);
    if s[p] == '-' || s[p] == '+' {
      sign := s[p];
      p := p + 1;
    }
    while '0' <= s[p] <= '9'
      invariant 0 <= p <= |text| && 0 <= res
      invariant Spelt(res as int, text[p..]) == Magnitude(text)
      decreases |text| - p
    {
      DigitStep(res as int, text, p);
      SpeltGrows(10 * res as int + DigitValue(s[p]), text[p + 1..]);
      res := res * 10 + (s[p] as int - '0' as int) as int32;
      p := p + 1;
    }
    DigitsDone(res as int, text, p);
    if sign == '-' {
      res := res * -1;
    }
  }

  /** What `itoa` wrote meets all that `atoi` needs, and reads back as the number it was. */
  lemma PrintedIsReadable(num: int32, s: array<char>)
    requires num > -0x8000_0000 && |Decimal(num as int)| < s.Length
    requires s[..|Decimal(num as int)| + 1] == Decimal(num as int) + [NUL]
    ensures Holds(s, Decimal(num as int)) && Magnitude(Decimal(num as int)) <= 0x7FFF_FFFF
    ensures ParseInt(Decimal(num as int)) == num as int
  {
    hide Digits, SkipSpaces, Spelt;
    var n := num as int;
    var text := Decimal(n);
    RoundTrip(n, "", "");
    assert "" + text + "" == text;
    Canonical(if n < 0 then -n else n);
    assert s[..|text| + 1][..|text|] == text;
    assert s[..|text| + 1][|text|] == NUL;
  }

  lemma SpaceStep(text: string, p: nat)
    requires p < |text| && IsSpace(text[p])
    ensures SkipSpaces(text[p + 1..]) == SkipSpaces(text[p..])
  {
    assert text[p..][1..] == text[p + 1..];
  }

  lemma SpacesDone(text: string, p: nat)
    requires p <= |text| && (p < |text| ==> !IsSpace(text[p])) && SkipSpaces(text[p..]) == SkipSpaces(text)
    ensures SkipSpaces(text) == text[p..]
    ensures p < |text| ==> text[p..][1..] == text[p + 1..]
  {
  }

  lemma DigitStep(acc: nat, text: string, p: nat)
    requires p < |text| && IsDigit(text[p])
    ensures Spelt(acc, text[p..]) == Spelt(10 * acc + DigitValue(text[p]), text[p + 1..])
  {
    assert text[p..][1..] == text[p + 1..];
  }

  lemma DigitsDone(acc: nat, text: string, p: nat)
    requires p <= |text| && (p < |text| ==> !IsDigit(text[p]))
    ensures Spelt(acc, text[p..]) == acc
  {
  }

  // ----- itoBCD -----

  /** The four characters chosen for one digit. */
  method SetNibble(numTo: int32, v: array<char>)
    requires 0 <= numTo <= 9 && v.Length == 4
    modifies v
    ensures v[..] == Nibble(Digit(numTo as int))
  {
    hide Nibble;
    if numTo == 1 {
      v[0], v[1], v[2], v[3] := '0', '0', '0', '1';
    } else if numTo == 2 {
      v[0], v[1], v[2], v[3] := '0', '0', '1', '0';
    } else if numTo == 3 {
      v[0], v[1], v[2], v[3] := '0', '0', '1', '1';
    } else if numTo == 4 {
      v[0], v[1], v[2], v[3] := '0', '1', '0', '0';
    } else if numTo == 5 {
      v[0], v[1], v[2], v[3] := '0', '1', '0', '1';
    } else if numTo == 6 {
      v[0], v[1], v[2], v[3] := '0', '1', '1', '0';
    } else if numTo == 7 {
      v[0], v[1], v[2], v[3] := '0', '1', '1', '1';
    } else if numTo == 8 {
      v[0], v[1], v[2], v[3] := '1', '0', '0', '0';
    } else if numTo == 9 {
      v[0], v[1], v[2], v[3] := '1', '0', '0', '1';
    } else if numTo == 0 {
      v[0], v[1], v[2], v[3] := '0', '0', '0', '0';
    }
    NibbleIs(numTo as int, v[..]);
  }

  lemma NibbleIs(d: int, v: string)
    requires 0 <= d <= 9 && |v| == 4
    requires v[0] == BitChar(d / 8) && v[1] == BitChar(d / 4) && v[2] == BitChar(d / 2) && v[3] == BitChar(d)
    ensures v == Nibble(Digit(d))
  {
  }

  /** How many digits a positive number has; none for the others. */
  method CountDigits(num: int32) returns (power: int32)
    ensures 0 <= power <= 10 && power as int == if num > 0 then |Digits(num as int)| else 0
  {
    var numLeft := num;
    power := 0;
    if num > 0 { AtMostTen(num as int); }
    while numLeft > 0
      invariant numLeft <= num && (num > 0 ==> numLeft >= 0) && 0 <= power <= 10
      invariant power as int + (if numLeft > 0 then |Digits(numLeft as int)| else 0)
             == if num > 0 then |Digits(num as int)| else 0
    {
      numLeft := numLeft / 10;
      power := power + 1;
    }
  }

  /** The text that `itoBCD` writes: nothing unless the number is positive. */
  function BcdText(num: int): string {
    if num > 0 then Canonical(num); Bcd(Digits(num)) else ""
  }

  /** One digit's four characters go to the end of what is written so far. */
  method PutNibble(buffer: array<char>, count: int32, numTo: int32)
    requires 0 <= count <= 10 && 4 * count as int + 4 < buffer.Length && 0 <= numTo <= 9
    modifies buffer
    ensures buffer[..4 * count + 4] == old(buffer[..4 * count]) + Nibble(Digit(numTo as int))
    ensures forall i :: 4 * count as int + 4 <= i < buffer.Length ==> buffer[i] == old(buffer[i])
  {
    hide Nibble;
    var bcdVal := new char[4];
    SetNibble(numTo, bcdVal);
    var j: int32 := 0;
    while j < 4
      invariant 0 <= j <= 4
      invariant buffer[..4 * count + j] == old(buffer[..4 * count]) + bcdVal[..j]
      invariant bcdVal[..] == Nibble(Digit(numTo as int))
      invariant forall i :: (4 * count + j) as int <= i < buffer.Length ==> buffer[i] == old(buffer[i])
    {
      ghost var was := buffer[..4 * count + j];
      buffer[j + 4 * count] := bcdVal[j];
      assert buffer[..4 * count + j + 1] == was + [bcdVal[j]];
      assert bcdVal[..j + 1] == bcdVal[..j] + [bcdVal[j]];
      j := j + 1;
    }
    assert bcdVal[..4] == bcdVal[..];
  }

  method ItoBCD(num: int32, buffer: array<char>)
    requires |BcdText(num as int)| < buffer.Length
    modifies buffer
    ensures buffer[..|BcdText(num as int)| + 1] == BcdText(num as int) + ['\0']
    ensures num <= 0 ==> buffer[0] == '\0'
    ensures num > 0 ==> FromBcd(buffer[..4 * |Digits(num as int)|]) == Digits(num as int)
    ensures forall i :: |BcdText(num as int)| < i < buffer.Length ==> buffer[i] == old(buffer[i])
  {
    hide Digits, Padded, Pow10, Bcd, Nibble;
    var power := CountDigits(num);
    var numLeft := num;
    ghost var digits := if num > 0 then Digits(num as int) else "";
    DigitsReady(num as int, digits);
    var count: int32 := 0;
    while count < power
      invariant 0 <= count <= power
      invariant num > 0 ==> 0 <= numLeft as int < Pow10((power - count) as int)
      invariant num > 0 ==> Padded(numLeft as int, (power - count) as int) == digits[count..]
      invariant buffer[..4 * count] == Bcd(digits[..count])
      invariant forall i :: 4 * count as int <= i < buffer.Length ==> buffer[i] == old(buffer[i])
    {
      var numTo;
      numTo, numLeft := TakeDigit(numLeft, power - count, digits, count as int);
      PutNibble(buffer, count, numTo);
      BcdGrows(digits, count as int);
      count := count + 1;
    }
    assert digits[..power] == digits;
    buffer[4 * power] := NUL;
    BcdRoundTrip(digits);
    assert buffer[..4 * |digits|] == BcdText(num as int);
  }

  lemma DigitsReady(num: int, digits: string)
    requires digits == if num > 0 then Digits(num) else ""
    ensures forall i :: 0 <= i < |digits| ==> IsDigit(digits[i])
    ensures num > 0 ==> num < Pow10(|digits|) && Padded(num, |digits|) == digits[0..]
    ensures BcdText(num) == Bcd(digits) && Bcd([]) == []
  {
    if num > 0 {
      Canonical(num);
      PaddedIsDigits(num);
    }
  }

  lemma BcdGrows(digits: string, count: nat)
    requires count < |digits| && forall i :: 0 <= i < |digits| ==> IsDigit(digits[i])
    ensures Bcd(digits[..count + 1]) == Bcd(digits[..count]) + Nibble(digits[count])
  {
    assert digits[..count + 1] == digits[..count] + [digits[count]];
    BcdAppend(digits[..count], digits[count]);
  }

  /** The digit at the highest place, and what is left below it. */
  method TakeDigit(num: int32, power: int32, ghost digits: string, ghost count: nat)
    returns (numTo: int32, numLeft: int32)
    requires 0 < power <= 10 && 0 <= num as int < Pow10(power as int)
    requires count < |digits| && Padded(num as int, power as int) == digits[count..]
    ensures 0 <= numTo <= 9 && Digit(numTo as int) == digits[count]
    ensures 0 <= numLeft as int < Pow10(power as int - 1)
    ensures Padded(numLeft as int, power as int - 1) == digits[count + 1..]
  {
    hide Padded, Pow10, Digit;
    var tenToThe := TenTo(power - 1);
    DigitSplit(num as int, power as int, digits, count);
    numTo, numLeft := SplitOff(num, tenToThe);
  }

  method SplitOff(num: int32, tenToThe: int32) returns (numTo: int32, numLeft: int32)
    requires tenToThe > 0 && 0 <= num as int < 10 * tenToThe as int
    ensures numTo as int == num as int / tenToThe as int && numLeft as int == num as int % tenToThe as int
  {
    Leading(num as int, tenToThe as int);
    Unique(num as int - num as int % tenToThe as int, tenToThe as int, num as int / tenToThe as int, 0);
    numTo := num;
    numLeft := num % tenToThe;
    numTo := (numTo - numLeft) / tenToThe;
  }

  lemma DigitSplit(m: nat, k: nat, digits: string, count: nat)
    requires 0 < k && m < Pow10(k) && count < |digits| && Padded(m, k) == digits[count..]
    ensures var t := Pow10(k - 1);
      && m < 10 * t && 0 <= m % t < t && 0 <= m / t <= 9
      && digits[count] == Digit(m / t) && Padded(m % t, k - 1) == digits[count + 1..]
  {
    Leading(m, Pow10(k - 1));
    assert digits[count..][1..] == digits[count + 1..];
  }
}
