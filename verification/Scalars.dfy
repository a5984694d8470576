/** The text rules the formats build on: UTF-8 by its scalar values, and numerals. */
module TextLaws {
  import opened Wrappers
  import opened Text

  // ---------------------------------------------------------------- UTF-8

  predicate IsScalar(c: int) {
    0 <= c < 0xD800 || 0xE000 <= c < 0x110000
  }

  /** The octets of a scalar value (section 3 of RFC 3629). */
  function Utf8(c: int): (s: Bytes)
    requires IsScalar(c)
    ensures 1 <= |s| <= 4
  {
    if c < 0x80 then [c as char]
    else if c < 0x800 then [(0xC0 + c / 64) as char, (0x80 + c % 64) as char]
    else if c < 0x10000 then
      [(0xE0 + c / 4096) as char, (0x80 + c / 64 % 64) as char, (0x80 + c % 64) as char]
    else
      [(0xF0 + c / 262144) as char, (0x80 + c / 4096 % 64) as char, (0x80 + c / 64 % 64) as char,
       (0x80 + c % 64) as char]
  }

  predicate AllScalars(cs: seq<int>) {
    forall i :: 0 <= i < |cs| ==> IsScalar(cs[i])
  }

  function Utf8All(cs: seq<int>): Bytes
    requires AllScalars(cs)
  {
    if cs == [] then [] else Utf8(cs[0]) + Utf8All(cs[1..])
  }

  lemma ShortScalar(c: int)
    requires IsScalar(c) && c < 0x800
    ensures CharLen(Utf8(c)) == |Utf8(c)|
  {
  }

  lemma MediumScalar(c: int)
    requires IsScalar(c) && 0x800 <= c < 0x10000
    ensures CharLen(Utf8(c)) == |Utf8(c)|
  {
    var high, middle := c / 4096, c / 64 % 64;
    assert c / 64 == high * 64 + middle;
    assert 0 <= high <= 15 && 0 <= middle < 64 && 0 <= c % 64 < 64;
    assert high == 0 ==> middle >= 32;
    assert high == 13 ==> middle < 32;
  }

  lemma LongScalar(c: int)
    requires IsScalar(c) && 0x10000 <= c
    ensures CharLen(Utf8(c)) == |Utf8(c)|
  {
    var high, middle := c / 262144, c / 4096 % 64;
    assert c / 4096 == high * 64 + middle;
    assert 0 <= high <= 4 && 0 <= middle < 64 && 0 <= c / 64 % 64 < 64 && 0 <= c % 64 < 64;
    assert high == 0 ==> middle >= 16;
    assert high == 4 ==> middle < 16;
  }

  /** The octets of a scalar value are recognised as one sequence. */
  lemma ScalarIsSequence(c: int)
    requires IsScalar(c)
    ensures CharLen(Utf8(c)) == |Utf8(c)|
  {
    hide CharLen;
    hide Utf8;
    if c < 0x800 {
      ShortScalar(c);
    } else if c < 0x10000 {
      MediumScalar(c);
    } else {
      LongScalar(c);
    }
  }

  lemma LowestGroup(high: nat, low: nat)
    requires low < 64
    ensures (high * 64 + low) / 64 == high && (high * 64 + low) % 64 == low
  {
  }

  lemma LowestTwo(high: nat, low: nat)
    requires low < 4096
    ensures (high * 4096 + low) / 4096 == high
  {
  }

  lemma LowestThree(high: nat, low: nat)
    requires low < 262144
    ensures (high * 262144 + low) / 262144 == high
  {
  }

  /** The four groups of bits of a scalar value. */
  lemma Groups(w: nat, x: nat, y: nat, z: nat)
    requires x < 64 && y < 64 && z < 64
    ensures var c := w * 262144 + x * 4096 + y * 64 + z;
            c / 262144 == w && c / 4096 == w * 64 + x && c / 4096 % 64 == x && c / 64 % 64 == y && c % 64 == z
  {
    LowestGroup(w * 4096 + x * 64 + y, z);
    LowestGroup(w * 64 + x, y);
    LowestTwo(w * 64 + x, y * 64 + z);
    LowestGroup(w, x);
    LowestThree(w, x * 4096 + y * 64 + z);
  }

  /** The scalar value of the sequence at the front of `s`. */
  function ScalarOf(s: Bytes): int
    requires CharLen(s) > 0
  {
    var n, a := CharLen(s), s[0] as int;
    if n == 1 then a
    else if n == 2 then (a - 0xC0) * 64 + (s[1] as int - 0x80)
    else if n == 3 then (a - 0xE0) * 4096 + (s[1] as int - 0x80) * 64 + (s[2] as int - 0x80)
    else
      (a - 0xF0) * 262144 + (s[1] as int - 0x80) * 4096 + (s[2] as int - 0x80) * 64 + (s[3] as int - 0x80)
  }

  lemma ShortSequence(s: Bytes)
    requires 0 < CharLen(s) <= 2
    ensures IsScalar(ScalarOf(s)) && Utf8(ScalarOf(s)) == s[..CharLen(s)]
  {
    if CharLen(s) == 2 {
      Groups(0, 0, s[0] as int - 0xC0, s[1] as int - 0x80);
    }
  }

  lemma MediumSequence(s: Bytes)
    requires CharLen(s) == 3
    ensures IsScalar(ScalarOf(s)) && Utf8(ScalarOf(s)) == s[..3]
  {
    Groups(0, s[0] as int - 0xE0, s[1] as int - 0x80, s[2] as int - 0x80);
  }

  lemma LongSequence(s: Bytes)
    requires CharLen(s) == 4
    ensures IsScalar(ScalarOf(s)) && Utf8(ScalarOf(s)) == s[..4]
  {
    Groups(s[0] as int - 0xF0, s[1] as int - 0x80, s[2] as int - 0x80, s[3] as int - 0x80);
  }

  /** A recognised sequence is the octets of one scalar value. */
  lemma SequenceIsScalar(s: Bytes)
    requires CharLen(s) > 0
    ensures IsScalar(ScalarOf(s)) && Utf8(ScalarOf(s)) == s[..CharLen(s)]
  {
    hide ScalarOf;
    hide Utf8;
    if CharLen(s) <= 2 {
      ShortSequence(s);
    } else if CharLen(s) == 3 {
      MediumSequence(s);
    } else {
      LongSequence(s);
    }
  }

  lemma {:induction false} ScalarsAreValid(cs: seq<int>)
    requires AllScalars(cs)
    ensures ValidUtf8(Utf8All(cs))
  {
    if cs != [] {
      var first, rest := Utf8(cs[0]), Utf8All(cs[1..]);
      ScalarIsSequence(cs[0]);
      CharLenPrefix(first, rest);
      ScalarsAreValid(cs[1..]);
      assert (first + rest)[|first|..] == rest;
    }
  }

  /** The scalar values of a valid string. */
  function ScalarsOf(s: Bytes): seq<int>
    requires ValidUtf8(s)
    decreases |s|
  {
    if s == [] then [] else [ScalarOf(s)] + ScalarsOf(s[CharLen(s)..])
  }

  lemma OneMoreScalar(c: int, rest: seq<int>)
    requires IsScalar(c) && AllScalars(rest)
    ensures AllScalars([c] + rest) && Utf8All([c] + rest) == Utf8(c) + Utf8All(rest)
  {
    hide Utf8;
    assert ([c] + rest)[1..] == rest;
  }

  lemma CutInTwo(s: Bytes, n: nat)
    requires n <= |s|
    ensures s[..n] + s[n..] == s
  {
  }

  lemma {:induction false} ValidAreScalars(s: Bytes)
    requires ValidUtf8(s)
    ensures AllScalars(ScalarsOf(s)) && Utf8All(ScalarsOf(s)) == s
    decreases |s|
  {
    if s != [] {
      var n := CharLen(s);
      var rest := ScalarsOf(s[n..]);
      assert ScalarsOf(s) == [ScalarOf(s)] + rest;
      ValidAreScalars(s[n..]);
      hide *;
      SequenceIsScalar(s);
      OneMoreScalar(ScalarOf(s), rest);
      CutInTwo(s, n);
    }
  }

  /** A string is valid UTF-8 exactly when it is the octets of some scalar values. */
  lemma ValidExactly(s: Bytes)
    ensures ValidUtf8(s) <==> exists cs :: AllScalars(cs) && Utf8All(cs) == s
  {
    if ValidUtf8(s) {
      ValidAreScalars(s);
    }
    if exists cs :: AllScalars(cs) && Utf8All(cs) == s {
      var cs :| AllScalars(cs) && Utf8All(cs) == s;
      ScalarsAreValid(cs);
    }
  }

  // ---------------------------------------------------------------- Numerals

  function Zeros(k: nat): Bytes {
    seq(k, _ => '0')
  }

  predicate IsSign(sign: Bytes, n: int) {
    && (sign == "" || sign == "+" || sign == "-")
    && (n < 0 ==> sign == "-") && (n > 0 ==> sign != "-")
  }

  /** The numerals of a number: an optional sign, any leading zeros, and its digits;
      only zero and the negative numbers may carry a minus, only those that are not
      negative a plus or nothing. */
  ghost predicate IsNumeral(s: Bytes, n: int) {
    exists sign, k: nat ::
      IsSign(sign, n) && s == sign + (Zeros(k) + Digits(if n < 0 then -n else n))
  }

  /** `s` is the number `v` after some leading zeros. */
  predicate IsPadded(s: Bytes, v: nat) {
    |Digits(v)| <= |s| && s == Zeros(|s| - |Digits(v)|) + Digits(v)
  }

  lemma OneDigit(last: char)
    requires IsDigit(last)
    ensures Digits(last as int - '0' as int) == [last]
  {
  }

  lemma PaddedZero(s: Bytes, last: char)
    requires s != [] && IsPadded(s, 0) && IsDigit(last)
    ensures IsPadded(s + [last], last as int - '0' as int)
  {
    OneDigit('0');
    OneDigit(last);
    hide Digits;
    assert s == Zeros(|s|);
  }

  lemma PaddedMore(s: Bytes, v: nat, last: char)
    requires v > 0 && IsPadded(s, v) && IsDigit(last)
    ensures IsPadded(s + [last], 10 * v + (last as int - '0' as int))
  {
    var d := last as int - '0' as int;
    assert (10 * v + d) / 10 == v && (10 * v + d) % 10 == d;
    assert Digits(10 * v + d) == Digits(v) + [last];
    hide Digits;
    assert s + [last] == Zeros(|s| - |Digits(v)|) + (Digits(v) + [last]);
  }

  lemma {:induction false} DigitsForm(s: Bytes)
    requires s != [] && AllDigits(s)
    ensures IsPadded(s, DigitsValue(s))
  {
    hide IsPadded;
    hide Digits;
    var init, last := s[..|s| - 1], s[|s| - 1];
    assert s == init + [last];
    if init == [] {
      OnlyDigit(s);
    } else {
      DigitsForm(init);
      if DigitsValue(init) == 0 {
        PaddedZero(init, last);
      } else {
        PaddedMore(init, DigitsValue(init), last);
      }
    }
  }

  lemma OnlyDigit(s: Bytes)
    requires |s| == 1 && AllDigits(s)
    ensures IsPadded(s, DigitsValue(s))
  {
    OneDigit(s[0]);
    assert s == [s[0]] && DigitsValue(s[..0]) == 0;
  }

  lemma {:induction false} ZerosDoNotCount(k: nat, s: Bytes)
    requires AllDigits(s)
    ensures AllDigits(Zeros(k) + s) && DigitsValue(Zeros(k) + s) == DigitsValue(s)
    decreases k + |s|
  {
    var t := Zeros(k) + s;
    if s != [] {
      ZerosDoNotCount(k, s[..|s| - 1]);
      assert t[..|t| - 1] == Zeros(k) + s[..|s| - 1];
    } else if k > 0 {
      ZerosDoNotCount(k - 1, []);
      assert t[..k - 1] == Zeros(k - 1) + [];
    }
  }

  /** A text is read as a number exactly when it is one of its numerals and the
      number fits 32 bits. */
  lemma ParseExactly(s: Bytes, n: int)
    ensures (ParseI32(s).Some? && ParseI32(s).value == n)
            <==> IsNumeral(s, n) && -0x8000_0000 <= n < 0x8000_0000
  {
    if ParseI32(s).Some? && ParseI32(s).value == n {
      ReadIsNumeral(s);
    }
    if IsNumeral(s, n) && -0x8000_0000 <= n < 0x8000_0000 {
      NumeralIsRead(s, n);
    }
  }

  lemma ReadIsNumeral(s: Bytes)
    requires ParseI32(s).Some?
    ensures IsNumeral(s, ParseI32(s).value)
  {
    hide Digits;
    hide DigitsValue;
    var signed := s[0] == '-' || s[0] == '+';
    var digits := if signed then s[1..] else s;
    var sign := if signed then [s[0]] else "";
    DigitsForm(digits);
    var k := |digits| - |Digits(DigitsValue(digits))|;
    assert s == sign + digits;
    assert IsSign(sign, ParseI32(s).value);
    assert s == sign + (Zeros(k) + Digits(DigitsValue(digits)));
  }

  lemma NumeralIsRead(s: Bytes, n: int)
    requires IsNumeral(s, n) && -0x8000_0000 <= n < 0x8000_0000
    ensures ParseI32(s) == Some(n)
  {
    hide Digits;
    hide DigitsValue;
    var m := if n < 0 then -n else n;
    var sign, k: nat :| IsSign(sign, n) && s == sign + (Zeros(k) + Digits(m));
    var digits := Zeros(k) + Digits(m);
    ZerosDoNotCount(k, Digits(m));
    DigitsRoundTrip(m);
    assert digits != [] && IsDigit(digits[0]);
    if sign == "" {
      assert s == digits;
    } else {
      assert s[0] == sign[0] && s[1..] == digits;
    }
  }
}
