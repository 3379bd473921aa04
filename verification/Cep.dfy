/** Postal codes as strings: the order of the database and of JavaScript's comparison, and
    the numbers parseInt reads from them. */
module Cep {
  import opened Wrappers

  /** Lexicographic order by character code. */
  predicate Le(a: string, b: string) {
    if a == "" then true
    else if b == "" then false
    else if a[0] != b[0] then a[0] < b[0]
    else Le(a[1..], b[1..])
  }

  predicate Lt(a: string, b: string) {
    !Le(b, a)
  }

  lemma {:induction false} LeTotal(a: string, b: string)
    ensures Le(a, b) || Le(b, a)
  {
    if a != "" && b != "" && a[0] == b[0] {
      LeTotal(a[1..], b[1..]);
    }
  }

  lemma {:induction false} LeReflexive(a: string)
    ensures Le(a, a)
  {
    if a != "" {
      LeReflexive(a[1..]);
    }
  }

  lemma {:induction false} LeAntisymmetric(a: string, b: string)
    requires Le(a, b) && Le(b, a)
    ensures a == b
  {
    if a != "" && b != "" {
      LeAntisymmetric(a[1..], b[1..]);
      assert a == [a[0]] + a[1..] && b == [b[0]] + b[1..];
    }
  }

  lemma {:induction false} LeTransitive(a: string, b: string, c: string)
    requires Le(a, b) && Le(b, c)
    ensures Le(a, c)
  {
    if a != "" && b != "" && c != "" && a[0] == b[0] == c[0] {
      LeTransitive(a[1..], b[1..], c[1..]);
    }
  }

  // ---- Digits ----

  predicate IsDigit(c: char) {
    '0' <= c <= '9'
  }

  predicate AllDigits(s: string) {
    forall i :: 0 <= i < |s| ==> IsDigit(s[i])
  }

  /** A CEP as the ranges are meant to hold it. Request validation only asks for eight characters. */
  predicate IsCep(s: string) {
    |s| == 8 && AllDigits(s)
  }

  function Digit(c: char): nat
    requires IsDigit(c)
  {
    c as nat - '0' as nat
  }

  function PowerOfTen(n: nat): nat {
    if n == 0 then 1 else 10 * PowerOfTen(n - 1)
  }

  function Value(s: string): nat
    requires AllDigits(s)
  {
    if s == "" then 0 else Digit(s[0]) * PowerOfTen(|s| - 1) + Value(s[1..])
  }

  lemma {:induction false} ValueBound(s: string)
    requires AllDigits(s)
    ensures Value(s) < PowerOfTen(|s|)
  {
    if s != "" {
      ValueBound(s[1..]);
      var p := PowerOfTen(|s| - 1);
      assert Digit(s[0]) <= 9;
      Scale(Digit(s[0]), 9, p);
    }
  }

  lemma Scale(m: nat, n: nat, p: nat)
    requires m <= n
    ensures m * p <= n * p
  {
  }

  lemma TenTimes(d: nat, p: nat, rest: nat)
    ensures d * (10 * p) + 10 * rest == 10 * (d * p + rest)
  {
  }

  lemma {:induction false} ValueSnoc(s: string, c: char)
    requires AllDigits(s) && IsDigit(c)
    ensures AllDigits(s + [c]) && Value(s + [c]) == 10 * Value(s) + Digit(c)
  {
    if s == "" {
      assert s + [c] == [c];
      assert [c][1..] == "";
    } else {
      var all, tail := s + [c], s[1..];
      ValueSnoc(tail, c);
      assert all[0] == s[0] && all[1..] == tail + [c];
      var d, p := Digit(s[0]), PowerOfTen(|s| - 1);
      assert Value(all) == d * PowerOfTen(|s|) + Value(tail + [c]);
      assert Value(s) == d * p + Value(tail);
      TenTimes(d, p, Value(tail));
    }
  }

  /** Zeros ahead of a number do not change it. */
  lemma {:induction false} ZerosAhead(zeros: string, s: string)
    requires (forall i :: 0 <= i < |zeros| ==> zeros[i] == '0') && AllDigits(s)
    ensures AllDigits(zeros + s) && Value(zeros + s) == Value(s)
  {
    if zeros == "" {
      assert zeros + s == s;
    } else {
      ZerosAhead(zeros[1..], s);
      assert (zeros + s)[1..] == zeros[1..] + s;
    }
  }

  // ---- parseInt ----

  /** What JavaScript skips at the start of a number. */
  predicate IsBlank(c: char) {
    var n := c as int;
    || 9 <= n <= 13 || n == 32 || n == 160 || n == 5760 || 8192 <= n <= 8202
    || n == 8232 || n == 8233 || n == 8239 || n == 8287 || n == 12288 || n == 65279
  }

  function SkipBlanks(s: string): string {
    if s != "" && IsBlank(s[0]) then SkipBlanks(s[1..]) else s
  }

  /** The leading digits of a string. */
  function Prefix(s: string): (p: string)
    ensures AllDigits(p) && |p| <= |s|
  {
    if s == "" || !IsDigit(s[0]) then "" else [s[0]] + Prefix(s[1..])
  }

  function HexDigit(c: char): Option<nat> {
    if IsDigit(c) then Some(Digit(c))
    else if 'a' <= c <= 'f' then Some(c as nat - 'a' as nat + 10)
    else if 'A' <= c <= 'F' then Some(c as nat - 'A' as nat + 10)
    else None
  }

  /** The number in the leading hexadecimal digits, if there are any. */
  function HexPrefix(s: string, before: Option<nat>): Option<nat>
    decreases |s|
  {
    if s == "" || HexDigit(s[0]).None? then before
    else HexPrefix(s[1..], Some((if before.Some? then 16 * before.value else 0) + HexDigit(s[0]).value))
  }

  predicate IsHex(s: string) {
    |s| >= 2 && s[0] == '0' && (s[1] == 'x' || s[1] == 'X')
  }

  function ReadUnsigned(s: string): Option<nat> {
    if IsHex(s) then HexPrefix(s[2..], None)
    else if Prefix(s) == "" then None
    else Some(Value(Prefix(s)))
  }

  function ReadSigned(s: string): Option<int> {
    var negative, signed := s != "" && s[0] == '-', s != "" && (s[0] == '-' || s[0] == '+');
    var n := ReadUnsigned(if signed then s[1..] else s);
    if n.None? then None
    else
      var magnitude: int := n.value;
      Some(if negative then -magnitude else magnitude)
  }

  /** parseInt without a radix: blanks, a sign, an optional 0x, then as many digits as there
      are; what follows is ignored. None stands for NaN. */
  function ParseInt(s: string): Option<int> {
    ReadSigned(SkipBlanks(s))
  }

  lemma {:induction false} PrefixStops(digits: string, rest: string)
    requires AllDigits(digits) && (rest == "" || !IsDigit(rest[0]))
    ensures Prefix(digits + rest) == digits
  {
    if digits == "" {
      assert digits + rest == rest;
    } else {
      PrefixStops(digits[1..], rest);
      assert (digits + rest)[1..] == digits[1..] + rest;
      assert digits == [digits[0]] + digits[1..];
    }
  }

  lemma DigitsFirst(s: string)
    requires s != "" && IsDigit(s[0])
    ensures SkipBlanks(s) == s
    ensures ReadUnsigned(s).Some? ==> ReadSigned(s) == Some(ReadUnsigned(s).value)
  {
  }

  lemma UnsignedOfDigits(digits: string, rest: string)
    requires AllDigits(digits) && |digits| >= 2 && (rest == "" || !IsDigit(rest[0]))
    ensures IsDigit((digits + rest)[0]) && ReadUnsigned(digits + rest) == Some(Value(digits))
  {
    var s := digits + rest;
    PrefixStops(digits, rest);
    assert s[0] == digits[0] && s[1] == digits[1] && IsDigit(digits[1]);
    assert !IsHex(s);
  }

  /** Two digits or more are read up to the first other character. */
  lemma ParseIntOfDigits(digits: string, rest: string)
    requires AllDigits(digits) && |digits| >= 2 && (rest == "" || !IsDigit(rest[0]))
    ensures ParseInt(digits + rest) == Some(Value(digits))
  {
    UnsignedOfDigits(digits, rest);
    DigitsFirst(digits + rest);
  }

  lemma ParseIntOfCep(s: string)
    requires IsCep(s)
    ensures ParseInt(s) == Some(Value(s))
  {
    ParseIntOfDigits(s, "");
    assert s + "" == s;
  }

  // ---- How a number may be written ----

  lemma BlanksAreSkipped(c: char, s: string)
    requires
      || c as int in {9, 10, 11, 12, 13, 32, 160, 5760, 8232, 8233, 8239, 8287, 12288, 65279}
      || 8192 <= c as int <= 8202
    ensures ParseInt([c] + s) == ParseInt(s)
  {
    assert ([c] + s)[1..] == s;
  }

  /** One sign may come before the first digit; a minus turns the number round. */
  lemma SignsAreRead(sign: char, s: string)
    requires (sign == '-' || sign == '+') && s != "" && IsDigit(s[0])
    ensures ParseInt([sign] + s).Some? <==> ParseInt(s).Some?
    ensures ParseInt(s).Some? ==>
      ParseInt([sign] + s).value == if sign == '-' then -ParseInt(s).value else ParseInt(s).value
  {
    var all := [sign] + s;
    assert all[0] == sign && all[1..] == s;
    assert SkipBlanks(all) == all && SkipBlanks(s) == s;
  }

  /** The number of a string of hexadecimal digits, the most significant first. */
  function HexValue(s: string): nat
    requires forall i :: 0 <= i < |s| ==> HexDigit(s[i]).Some?
  {
    if s == "" then 0 else 16 * HexValue(s[..|s| - 1]) + HexDigit(s[|s| - 1]).value
  }

  lemma {:induction false} HexPrefixReads(done: string, s: string)
    requires forall i :: 0 <= i < |done| ==> HexDigit(done[i]).Some?
    requires forall i :: 0 <= i < |s| ==> HexDigit(s[i]).Some?
    requires done + s != ""
    ensures HexPrefix(s, if done == "" then None else Some(HexValue(done))) == Some(HexValue(done + s))
    decreases |s|
  {
    if s == "" {
      assert done + s == done;
    } else {
      var more := done + [s[0]];
      assert more[..|done|] == done;
      assert more + s[1..] == done + s;
      HexPrefixReads(more, s[1..]);
    }
  }

  /** 0x or 0X makes the digits after it hexadecimal. */
  lemma HexIsRead(x: char, digits: string)
    requires (x == 'x' || x == 'X') && digits != "" && forall i :: 0 <= i < |digits| ==> HexDigit(digits[i]).Some?
    ensures ParseInt(['0', x] + digits) == Some(HexValue(digits))
  {
    var s := ['0', x] + digits;
    assert s[0] == '0' && s[1] == x && s[2..] == digits;
    assert IsHex(s);
    HexPrefixReads("", digits);
    assert "" + digits == digits;
    DigitsFirst(s);
  }

  lemma HexDigits()
    ensures HexDigit('0') == Some(0) && HexDigit('9') == Some(9)
    ensures HexDigit('a') == Some(10) && HexDigit('f') == Some(15)
    ensures HexDigit('A') == Some(10) && HexDigit('F') == Some(15) && HexDigit('g') == None && HexDigit('G') == None
    ensures HexValue("1F") == 31
  {
    assert "1F"[..1] == "1" && "1"[..0] == "";
    assert HexValue("1") == 1;
  }

  // ---- Any string against digit strings ----

  /** How many strings of n digits sort before a. */
  function Below(a: string, n: nat): nat
    decreases n
  {
    if a == "" then 0
    else if n == 0 then 1
    else if a[0] < '0' then 0
    else if a[0] > '9' then PowerOfTen(n)
    else Digit(a[0]) * PowerOfTen(n - 1) + Below(a[1..], n - 1)
  }

  /** How many strings of n digits sort before b or are b. */
  function AtMost(b: string, n: nat): nat
    decreases n
  {
    if n == 0 then 1
    else if b == "" || b[0] < '0' then 0
    else if b[0] > '9' then PowerOfTen(n)
    else Digit(b[0]) * PowerOfTen(n - 1) + AtMost(b[1..], n - 1)
  }

  lemma {:induction false} CountBounds(a: string, n: nat)
    ensures Below(a, n) <= PowerOfTen(n) && AtMost(a, n) <= PowerOfTen(n)
  {
    if a != "" && n > 0 && IsDigit(a[0]) {
      CountBounds(a[1..], n - 1);
      Scale(Digit(a[0]) + 1, 10, PowerOfTen(n - 1));
      assert (Digit(a[0]) + 1) * PowerOfTen(n - 1) == Digit(a[0]) * PowerOfTen(n - 1) + PowerOfTen(n - 1);
    }
  }

  lemma DigitsApart(x: nat, y: nat, p: nat, below: nat, above: nat)
    requires x < y && below <= p
    ensures x * p + below <= y * p + above
  {
    Scale(x + 1, y, p);
    assert (x + 1) * p == x * p + p;
  }

  /** Among digit strings, those from a on are an interval of numbers. */
  lemma {:induction false} FromIsInterval(a: string, c: string)
    requires AllDigits(c)
    ensures Le(a, c) <==> Below(a, |c|) <= Value(c)
  {
    ValueBound(c);
    if a != "" && c != "" && IsDigit(a[0]) {
      var n := |c| - 1;
      var p, rest := PowerOfTen(n), c[1..];
      ValueBound(rest);
      CountBounds(a[1..], n);
      if a[0] == c[0] {
        FromIsInterval(a[1..], rest);
      } else if a[0] < c[0] {
        DigitsApart(Digit(a[0]), Digit(c[0]), p, Below(a[1..], n), Value(rest));
      } else {
        DigitsApart(Digit(c[0]), Digit(a[0]), p, Value(rest) + 1, Below(a[1..], n));
      }
    }
  }

  /** And so are those up to b. */
  lemma {:induction false} UpToIsInterval(c: string, b: string)
    requires AllDigits(c)
    ensures Le(c, b) <==> Value(c) < AtMost(b, |c|)
  {
    ValueBound(c);
    if b != "" && c != "" && IsDigit(b[0]) {
      var n := |c| - 1;
      var p, rest := PowerOfTen(n), c[1..];
      ValueBound(rest);
      CountBounds(b[1..], n);
      if b[0] == c[0] {
        UpToIsInterval(rest, b[1..]);
      } else if c[0] < b[0] {
        DigitsApart(Digit(c[0]), Digit(b[0]), p, Value(rest) + 1, AtMost(b[1..], n));
      } else {
        DigitsApart(Digit(b[0]), Digit(c[0]), p, AtMost(b[1..], n), Value(rest));
      }
    }
  }

  lemma {:induction false} BelowOfDigits(a: string)
    requires AllDigits(a)
    ensures Below(a, |a|) == Value(a)
  {
    if a != "" {
      BelowOfDigits(a[1..]);
    }
  }

  /** For digit strings of equal length the string order is the numeric order. */
  lemma LexicographicIsNumeric(a: string, b: string)
    requires |a| == |b| && AllDigits(a) && AllDigits(b)
    ensures Le(a, b) <==> Value(a) <= Value(b)
  {
    FromIsInterval(a, b);
    BelowOfDigits(a);
  }

  /** Strings compare by their heads of equal length first. */
  lemma {:induction false} LeByParts(p: string, q: string, s: string, t: string)
    requires |p| == |q|
    ensures Le(p + s, q + t) <==> if p == q then Le(s, t) else Le(p, q)
  {
    if p == "" {
      assert p + s == s && q + t == t;
    } else {
      LeByParts(p[1..], q[1..], s, t);
      assert (p + s)[1..] == p[1..] + s && (q + t)[1..] == q[1..] + t;
      assert p == [p[0]] + p[1..] && q == [q[0]] + q[1..];
    }
  }
}
