/**
 Octet strings, as the frames and `String` values of the server.

 A `Bytes` value holds one character per octet. Nothing below needs the octets
 to be smaller than 256: a character that is no octet makes a string fail
 `ValidUtf8`, exactly as an impossible octet would.
 */
module Text {
  import opened Wrappers

  type Bytes = string

  // ---------------------------------------------------------------- ASCII

  predicate IsAscii(s: Bytes) {
    forall i :: 0 <= i < |s| ==> s[i] as int < 0x80
  }

  function UpperChar(c: char): char {
    if 'a' <= c <= 'z' then (c as int - 32) as char else c
  }

  function Upper(s: Bytes): (u: Bytes)
    ensures |u| == |s|
    ensures forall i :: 0 <= i < |s| ==> u[i] == UpperChar(s[i])
  {
    seq(|s|, i requires 0 <= i < |s| => UpperChar(s[i]))
  }

  lemma UpperIdempotent(s: Bytes)
    ensures Upper(Upper(s)) == Upper(s)
  {
    assert forall i :: 0 <= i < |s| ==> Upper(Upper(s))[i] == Upper(s)[i];
  }

  // ---------------------------------------------------------------- Tokens

  /** The index of the first `:`, or the length when there is none. */
  function ColonIndex(s: Bytes): (i: nat)
    ensures i <= |s|
    ensures forall j :: 0 <= j < i ==> s[j] != ':'
    ensures i < |s| ==> s[i] == ':'
  {
    if s == [] || s[0] == ':' then 0 else 1 + ColonIndex(s[1..])
  }

  /** `str::split(':')`: always at least one part. */
  function Split(s: Bytes): (parts: seq<Bytes>)
    ensures |parts| >= 1
  {
    var i := ColonIndex(s);
    if i == |s| then [s] else [s[..i]] + Split(s[i + 1..])
  }

  /** `[String]::join(":")`. */
  function Join(parts: seq<Bytes>): Bytes {
    if parts == [] then ""
    else if |parts| == 1 then parts[0]
    else parts[0] + ":" + Join(parts[1..])
  }

  predicate ColonFree(parts: seq<Bytes>) {
    forall i :: 0 <= i < |parts| ==> ':' !in parts[i]
  }

  lemma SplitCons(a: Bytes, s: Bytes)
    requires ':' !in a
    ensures Split(a + ":" + s) == [a] + Split(s)
  {
    var t := a + ":" + s;
    assert t[..|a|] == a && t[|a| + 1..] == s && t[|a|] == ':';
    assert forall j :: 0 <= j < |a| ==> t[j] == a[j];
    assert ColonIndex(t) == |a|;
  }

  lemma SplitWhole(a: Bytes)
    requires ':' !in a
    ensures Split(a) == [a]
  {
    assert ColonIndex(a) == |a|;
  }

  lemma {:induction false} SplitColonFree(s: Bytes)
    ensures ColonFree(Split(s))
  {
    var i := ColonIndex(s);
    assert s[..|s|] == s;
    if i < |s| {
      SplitColonFree(s[i + 1..]);
    }
  }

  lemma {:induction false} JoinSplit(s: Bytes)
    ensures Join(Split(s)) == s
  {
    var i := ColonIndex(s);
    if i < |s| {
      JoinSplit(s[i + 1..]);
      JoinCons(s[..i], Split(s[i + 1..]));
      CutAt(s, i);
    }
  }

  lemma JoinCons(a: Bytes, rest: seq<Bytes>)
    requires rest != []
    ensures Join([a] + rest) == a + ":" + Join(rest)
  {
    assert ([a] + rest)[1..] == rest;
  }

  lemma CutAt(s: Bytes, i: nat)
    requires i < |s|
    ensures s == s[..i] + [s[i]] + s[i + 1..]
  {
  }

  lemma DropFromSum(a: Bytes, b: Bytes, n: nat)
    requires n <= |a|
    ensures (a + b)[n..] == a[n..] + b
  {
  }

  lemma {:induction false} SplitJoin(parts: seq<Bytes>)
    requires parts != [] && ColonFree(parts)
    ensures Split(Join(parts)) == parts
  {
    if |parts| == 1 {
      SplitWhole(parts[0]);
    } else {
      SplitJoin(parts[1..]);
      SplitCons(parts[0], Join(parts[1..]));
    }
  }

  // ---------------------------------------------------------------- UTF-8

  predicate Continuation(c: char) {
    0x80 <= c as int <= 0xBF
  }

  /** The length of the well-formed sequence at the front of `s` (section 4 of
      RFC 3629), or 0 when `s` starts with none. */
  function CharLen(s: Bytes): (n: nat)
    ensures n <= |s|
  {
    if s == [] then 0 else
    var b := s[0] as int;
    if b < 0x80 then 1
    else if 0xC2 <= b <= 0xDF then
      if |s| >= 2 && Continuation(s[1]) then 2 else 0
    else if 0xE0 <= b <= 0xEF then
      if |s| >= 3 && Continuation(s[1]) && Continuation(s[2])
         && (b == 0xE0 ==> s[1] as int >= 0xA0) && (b == 0xED ==> s[1] as int <= 0x9F)
      then 3 else 0
    else if 0xF0 <= b <= 0xF4 then
      if |s| >= 4 && Continuation(s[1]) && Continuation(s[2]) && Continuation(s[3])
         && (b == 0xF0 ==> s[1] as int >= 0x90) && (b == 0xF4 ==> s[1] as int <= 0x8F)
      then 4 else 0
    else 0
  }

  /** `str::from_utf8` accepts exactly these strings. */
  predicate ValidUtf8(s: Bytes) {
    s == [] || (CharLen(s) > 0 && ValidUtf8(s[CharLen(s)..]))
  }

  predicate AllValid(parts: seq<Bytes>) {
    forall i :: 0 <= i < |parts| ==> ValidUtf8(parts[i])
  }

  lemma {:induction false} ValidAscii(s: Bytes)
    requires IsAscii(s)
    ensures ValidUtf8(s)
  {
    if s != [] {
      ValidAscii(s[1..]);
    }
  }

  lemma CharLenPrefix(a: Bytes, b: Bytes)
    requires CharLen(a) > 0
    ensures CharLen(a + b) == CharLen(a)
  {
    var s := a + b;
    assert forall i :: 0 <= i < |a| ==> s[i] == a[i];
  }

  lemma {:induction false} ValidAppend(a: Bytes, b: Bytes)
    requires ValidUtf8(a) && ValidUtf8(b)
    ensures ValidUtf8(a + b)
  {
    if a == [] {
      assert a + b == b;
    } else {
      var n := CharLen(a);
      CharLenPrefix(a, b);
      ValidAppend(a[n..], b);
      DropFromSum(a, b, n);
    }
  }

  /** Splitting at an ASCII octet never cuts a multi-byte sequence. */
  lemma {:induction false} ValidCut(a: Bytes, c: char, b: Bytes)
    requires c as int < 0x80
    requires ValidUtf8(a + [c] + b)
    ensures ValidUtf8(a) && ValidUtf8(b)
  {
    var s := a + [c] + b;
    var n := CharLen(s);
    assert s[|a|] == c;
    if a == [] {
      assert s[1..] == b;
    } else {
      assert n <= |a|;
      assert CharLen(a) == n;
      DropFromSum(a, [c] + b, n);
      assert s == a + ([c] + b) && a[n..] + ([c] + b) == a[n..] + [c] + b;
      ValidCut(a[n..], c, b);
    }
  }

  lemma {:induction false} ValidSplit(s: Bytes)
    requires ValidUtf8(s)
    ensures AllValid(Split(s))
  {
    var i := ColonIndex(s);
    if i < |s| {
      CutAt(s, i);
      ValidCut(s[..i], ':', s[i + 1..]);
      ValidSplit(s[i + 1..]);
    }
  }

  lemma {:induction false} ValidJoin(parts: seq<Bytes>)
    requires AllValid(parts)
    ensures ValidUtf8(Join(parts))
  {
    if |parts| > 1 {
      ValidJoin(parts[1..]);
      ValidAscii(":");
      ValidAppend(parts[0], ":");
      ValidAppend(parts[0] + ":", Join(parts[1..]));
    }
  }

  /** The first scalar value of a non-empty valid string is itself valid, and
      is its own first scalar value. */
  lemma FirstScalarValid(s: Bytes)
    requires ValidUtf8(s) && s != []
    ensures var f := s[..CharLen(s)]; f != [] && ValidUtf8(f) && f[..CharLen(f)] == f
  {
    var f := s[..CharLen(s)];
    assert CharLen(f) == |f|;
    assert f[|f|..] == [];
  }

  // ---------------------------------------------------------------- Numbers

  type I32 = n: int | -0x8000_0000 <= n < 0x8000_0000

  predicate IsDigit(c: char) {
    '0' <= c <= '9'
  }

  predicate AllDigits(s: Bytes) {
    forall i :: 0 <= i < |s| ==> IsDigit(s[i])
  }

  function DigitChar(d: nat): (c: char)
    requires d < 10
    ensures IsDigit(c)
  {
    ('0' as int + d) as char
  }

  function Digits(n: nat): (s: Bytes)
    ensures s != [] && AllDigits(s)
  {
    if n < 10 then [DigitChar(n)] else Digits(n / 10) + [DigitChar(n % 10)]
  }

  /** `i32::to_string`. */
  function Decimal(n: int): Bytes {
    if n < 0 then "-" + Digits(-n) else Digits(n)
  }

  function DigitsValue(s: Bytes): nat
    requires AllDigits(s)
  {
    if s == [] then 0
    else 10 * DigitsValue(s[..|s| - 1]) + (s[|s| - 1] as int - '0' as int)
  }

  /** `str::parse::<i32>`: one optional sign, at least one digit, no overflow. */
  function ParseI32(s: Bytes): Option<I32> {
    if s == [] then None else
    var digits := if s[0] == '-' || s[0] == '+' then s[1..] else s;
    if digits == [] || !AllDigits(digits) then None else
    var magnitude: int := DigitsValue(digits);
    var value: int := if s[0] == '-' then -magnitude else magnitude;
    if -0x8000_0000 <= value < 0x8000_0000 then Some(value) else None
  }

  lemma {:induction false} DigitsRoundTrip(n: nat)
    ensures DigitsValue(Digits(n)) == n
  {
    var s := Digits(n);
    if n < 10 {
      assert s[..0] == [];
    } else {
      DigitsRoundTrip(n / 10);
      assert s[..|s| - 1] == Digits(n / 10);
    }
  }

  /** Every i32 survives being printed and parsed. */
  lemma DecimalRoundTrip(n: I32)
    ensures ParseI32(Decimal(n)) == Some(n)
  {
    hide Digits;
    hide DigitsValue;
    var m: int := n;
    if m < 0 {
      DigitsRoundTrip(-m);
      assert ("-" + Digits(-m))[1..] == Digits(-m);
    } else {
      DigitsRoundTrip(n);
      assert IsDigit(Digits(n)[0]);
    }
  }

  lemma DecimalPlain(n: int)
    ensures IsAscii(Decimal(n)) && ':' !in Decimal(n)
  {
    var d := Digits(if n < 0 then -n else n);
    assert AllDigits(d);
    assert forall i :: 0 <= i < |d| ==> IsDigit(d[i]);
  }

  /** No numeral of a number is shorter than the printed one, and one of the
      same length is the printed one. */
  lemma {:induction false} DigitsShortest(s: Bytes)
    requires s != [] && AllDigits(s)
    ensures |Digits(DigitsValue(s))| <= |s|
    ensures |Digits(DigitsValue(s))| == |s| ==> Digits(DigitsValue(s)) == s
  {
    var init, last := s[..|s| - 1], s[|s| - 1];
    assert s == init + [last];
    if init == [] {
      assert DigitsValue(s) == last as int - '0' as int;
    } else {
      DigitsShortest(init);
      assert DigitsValue(s) / 10 == DigitsValue(init);
    }
  }

  lemma DecimalShortest(s: Bytes)
    requires ParseI32(s).Some?
    ensures |Decimal(ParseI32(s).value)| <= |s|
    ensures |Decimal(ParseI32(s).value)| == |s| ==> Decimal(ParseI32(s).value) == s
  {
    hide DigitsValue;
    hide Digits;
    var signed := s[0] == '-' || s[0] == '+';
    var digits := if signed then s[1..] else s;
    DigitsShortest(digits);
    assert signed ==> s == [s[0]] + digits;
  }
}
