/**
  JavaScript numbers as the handler uses them: results of `parseInt(s, 10)`,
  which are either an integer or NaN, the `<` comparison, and the arithmetic
  of the offset and the page count. Integers are unbounded here.
 */
module JsNumber {

  /** A number that is either an integer or NaN (the result of a failed `parseInt`). */
  datatype Num = Finite(n: int) | NaN

  /** `a < b` in JavaScript: every comparison with NaN is false. */
  predicate LessThan(a: Num, b: int)
  {
    a.Finite? && a.n < b
  }

  /** `a - b`: NaN when `a` is NaN. */
  function Minus(a: Num, b: int): Num
  {
    if a.Finite? then Finite(a.n - b) else NaN
  }

  /** `a * b`: NaN when either side is NaN. */
  function Times(a: Num, b: Num): Num
  {
    if a.Finite? && b.Finite? then Finite(a.n * b.n) else NaN
  }

  /** ECMAScript StrWhiteSpaceChar: WhiteSpace (with category Zs) and LineTerminator. */
  predicate IsWhiteSpace(c: char)
  {
    var k := c as int;
    k == 0x09 || k == 0x0A || k == 0x0B || k == 0x0C || k == 0x0D || k == 0x20
    || k == 0xA0 || k == 0x1680 || (0x2000 <= k <= 0x200A) || k == 0x2028
    || k == 0x2029 || k == 0x202F || k == 0x205F || k == 0x3000 || k == 0xFEFF
  }

  /** An optional sign in front of a numeral: nothing, `+` or `-`. */
  predicate IsSign(s: string)
  {
    |s| == 0 || (|s| == 1 && (s[0] == '+' || s[0] == '-'))
  }

  predicate Negative(sign: string)
  {
    |sign| == 1 && sign[0] == '-'
  }

  /**
    The digit value `parseInt` gives a character: 0-9 for the decimal
    digits, 10-35 for the Latin letters in either case, and 36 (a digit in
    no radix) for everything else.
   */
  function CharValue(c: char): nat
  {
    if '0' <= c <= '9' then c as int - '0' as int
    else if 'a' <= c <= 'z' then c as int - 'a' as int + 10
    else if 'A' <= c <= 'Z' then c as int - 'A' as int + 10
    else 36
  }

  predicate IsDigitIn(c: char, radix: nat)
  {
    CharValue(c) < radix
  }

  /** A decimal digit. */
  predicate IsDigit(c: char)
  {
    '0' <= c <= '9'
  }

  predicate AllDigitsIn(s: string, radix: nat)
  {
    forall i :: 0 <= i < |s| ==> IsDigitIn(s[i], radix)
  }

  predicate AllDigits(s: string)
  {
    forall i :: 0 <= i < |s| ==> IsDigit(s[i])
  }

  predicate AllWhiteSpace(s: string)
  {
    forall i :: 0 <= i < |s| ==> IsWhiteSpace(s[i])
  }

  function DigitChar(d: nat): char
    requires d < 10
  {
    ('0' as int + d) as char
  }

  /** The leading whitespace of `s` removed. */
  function TrimStart(s: string): string
  {
    if |s| > 0 && IsWhiteSpace(s[0]) then TrimStart(s[1..]) else s
  }

  /** The length of the longest prefix of `s` made of digits of `radix`. */
  function DigitRun(s: string, radix: nat): nat
  {
    if |s| > 0 && IsDigitIn(s[0], radix) then 1 + DigitRun(s[1..], radix) else 0
  }

  /** DigitRun measures the longest all-digit prefix. */
  lemma {:induction false} DigitRunIsLongestDigitPrefix(s: string, radix: nat)
    ensures DigitRun(s, radix) <= |s|
    ensures forall i :: 0 <= i < DigitRun(s, radix) ==> IsDigitIn(s[i], radix)
    ensures DigitRun(s, radix) == |s| || !IsDigitIn(s[DigitRun(s, radix)], radix)
    decreases |s|
  {
    if |s| > 0 && IsDigitIn(s[0], radix) {
      DigitRunIsLongestDigitPrefix(s[1..], radix);
    }
  }

  /** The value of a string of digits of `radix`, most significant first. */
  function DigitsValue(ds: string, radix: nat): nat
    requires AllDigitsIn(ds, radix)
  {
    if |ds| == 0 then 0
    else DigitsValue(ds[..|ds| - 1], radix) * radix + CharValue(ds[|ds| - 1])
  }

  /**
    `parseInt(s, 10)`: skip leading whitespace, take an optional sign, then
    the longest run of decimal digits; NaN when that run is empty. Whatever
    follows the digits is ignored.
   */
  function ParseInt(s: string): Num
  {
    ParseSigned(TrimStart(s), false)
  }

  /**
    `parseInt(s)` with no radix argument: as `parseInt(s, 10)`, except that
    `0x` or `0X` after the sign switches to hexadecimal digits.
   */
  function ParseIntNoRadix(s: string): Num
  {
    ParseSigned(TrimStart(s), true)
  }

  /** `parseInt` on a string whose leading whitespace is already gone: an optional sign, then digits. */
  function ParseSigned(t: string, detectHex: bool): Num
  {
    if |t| > 0 && t[0] == '-' then ParseUnsigned(t[1..], true, detectHex)
    else if |t| > 0 && t[0] == '+' then ParseUnsigned(t[1..], false, detectHex)
    else ParseUnsigned(t, false, detectHex)
  }

  predicate HasHexPrefix(u: string)
  {
    |u| >= 2 && u[0] == '0' && (u[1] == 'x' || u[1] == 'X')
  }

  /** The digits after the sign, read in base 16 after a hex prefix when that is enabled, in base 10 otherwise. */
  function ParseUnsigned(u: string, negative: bool, detectHex: bool): Num
  {
    if detectHex && HasHexPrefix(u) then ParseDigits(u[2..], negative, 16)
    else ParseDigits(u, negative, 10)
  }

  /** The value of the leading digits of `u`, negated when a minus sign preceded them; NaN without digits. */
  function ParseDigits(u: string, negative: bool, radix: nat): Num
  {
    var k := DigitRun(u, radix);
    if k == 0 then NaN
    else
      DigitRunIsLongestDigitPrefix(u, radix);
      assert AllDigitsIn(u[..k], radix);
      var m: int := DigitsValue(u[..k], radix);
      Finite(if negative then -m else m)
  }

  /** The decimal numeral of `n`, without leading zeros. */
  function Decimal(n: nat): (ds: string)
    ensures |ds| >= 1 && AllDigits(ds)
    ensures ds[0] == '0' ==> n == 0 && |ds| == 1
  {
    if n < 10 then [DigitChar(n)]
    else Decimal(n / 10) + [DigitChar(n % 10)]
  }

  /** `String(n)` for an integer `n`. */
  function IntToString(n: int): string
  {
    if n < 0 then "-" + Decimal(-n) else Decimal(n)
  }

  /** Reading a numeral back gives the number it was written from. */
  lemma {:induction false} DecimalValue(n: nat)
    ensures AllDigitsIn(Decimal(n), 10)
    ensures DigitsValue(Decimal(n), 10) == n
  {
    var ds := Decimal(n);
    if n >= 10 {
      assert ds[..|ds| - 1] == Decimal(n / 10);
      DecimalValue(n / 10);
    }
  }

  lemma {:induction false} TrimStartSkipsWhiteSpace(w: string, rest: string)
    requires AllWhiteSpace(w)
    requires |rest| == 0 || !IsWhiteSpace(rest[0])
    ensures TrimStart(w + rest) == rest
    decreases |w|
  {
    if |w| == 0 {
      assert w + rest == rest;
    } else {
      assert (w + rest)[1..] == w[1..] + rest;
      TrimStartSkipsWhiteSpace(w[1..], rest);
    }
  }

  /**
    On an input of this shape, `parseInt(s, 10)` is the signed value of the
    digit run: leading whitespace, an optional sign, a non-empty run of
    decimal digits, then anything that does not start with a digit.
   */
  lemma ParseIntNumeral(w: string, sign: string, ds: string, tail: string)
    requires AllWhiteSpace(w)
    requires IsSign(sign)
    requires |ds| >= 1 && AllDigits(ds)
    requires |tail| == 0 || !IsDigit(tail[0])
    ensures AllDigitsIn(ds, 10)
    ensures ParseInt(w + sign + ds + tail)
         == Finite(if Negative(sign) then -(DigitsValue(ds, 10) as int) else DigitsValue(ds, 10))
  {
    var rest := sign + ds + tail;
    assert w + sign + ds + tail == w + rest by {
      ConcatAssoc(w + sign, ds, tail);
      ConcatAssoc(w, sign, ds + tail);
      ConcatAssoc(sign, ds, tail);
    }
    assert ParseInt(w + sign + ds + tail) == ParseSigned(rest, false) by {
      TrimStartSkipsWhiteSpace(w, rest);
    }
    assert ParseSigned(rest, false) == ParseDigits(ds + tail, Negative(sign), 10) by {
      ConcatAssoc(sign, ds, tail);
      SignSplit(rest, sign, ds + tail, false);
    }
    DecimalDigitsAreDigits(ds, tail);
    DigitsOfNumeral(ds, tail, Negative(sign), 10);
  }

  lemma DecimalDigitsAreDigits(ds: string, tail: string)
    requires AllDigits(ds)
    requires |tail| == 0 || !IsDigit(tail[0])
    ensures AllDigitsIn(ds, 10)
    ensures |tail| == 0 || !IsDigitIn(tail[0], 10)
  {
  }

  /** After an optional sign, `parseInt` reads the digits with the sign's polarity. */
  lemma SignSplit(t: string, sign: string, u: string, detectHex: bool)
    requires IsSign(sign)
    requires |u| == 0 || (u[0] != '+' && u[0] != '-')
    requires t == sign + u
    ensures ParseSigned(t, detectHex) == ParseUnsigned(u, Negative(sign), detectHex)
  {
    if |sign| == 0 {
      assert t == u;
    } else {
      assert t[1..] == u;
    }
  }

  lemma DigitsOfNumeral(ds: string, tail: string, negative: bool, radix: nat)
    requires |ds| >= 1 && AllDigitsIn(ds, radix)
    requires |tail| == 0 || !IsDigitIn(tail[0], radix)
    ensures ParseDigits(ds + tail, negative, radix)
         == Finite(if negative then -(DigitsValue(ds, radix) as int) else DigitsValue(ds, radix))
  {
    DigitRunOfNumeral(ds, tail, radix);
  }

  lemma DigitRunOfNumeral(ds: string, tail: string, radix: nat)
    requires AllDigitsIn(ds, radix)
    requires |tail| == 0 || !IsDigitIn(tail[0], radix)
    ensures DigitRun(ds + tail, radix) == |ds|
    ensures (ds + tail)[..|ds|] == ds
  {
    DigitRunIsLongestDigitPrefix(ds + tail, radix);
  }

  /**
    The inputs `parseInt(s, 10)` turns into NaN: after the leading
    whitespace comes neither a digit nor a sign followed by a digit.
   */
  lemma ParseIntNotANumber(w: string, sign: string, tail: string)
    requires AllWhiteSpace(w)
    requires IsSign(sign)
    requires |tail| == 0 || !IsDigit(tail[0])
    requires |sign| == 0 && |tail| > 0 ==> !IsWhiteSpace(tail[0]) && tail[0] != '+' && tail[0] != '-'
    ensures ParseInt(w + sign + tail) == NaN
  {
    var rest := sign + tail;
    assert w + sign + tail == w + rest;
    TrimStartSkipsWhiteSpace(w, rest);
    if |sign| == 0 {
      assert rest == tail;
    } else {
      assert rest[1..] == tail;
    }
  }

  /** Without a radix, `0x` selects hexadecimal: `parseInt("0x" + hs)` is the base-16 value of `hs`. */
  lemma ParseIntNoRadixHex(prefix: string, hs: string, tail: string)
    requires |prefix| == 2 && HasHexPrefix(prefix)
    requires |hs| >= 1 && AllDigitsIn(hs, 16)
    requires |tail| == 0 || !IsDigitIn(tail[0], 16)
    ensures ParseIntNoRadix(prefix + hs + tail) == Finite(DigitsValue(hs, 16))
  {
    var t := prefix + hs + tail;
    assert HasHexPrefix(t) && t[2..] == hs + tail by {
      ConcatAssoc(prefix, hs, tail);
      assert t == prefix + (hs + tail);
    }
    assert ParseIntNoRadix(t) == ParseDigits(hs + tail, false, 16) by {
      assert TrimStart(t) == t;
      assert ParseSigned(t, true) == ParseUnsigned(t, false, true);
    }
    DigitsOfNumeral(hs, tail, false, 16);
  }

  /** `parseInt(String(n), 10) == n` for every integer `n`. */
  lemma ParseIntOfIntToString(n: int)
    ensures ParseInt(IntToString(n)) == Finite(n)
  {
    var m := if n < 0 then -n else n;
    var d := Decimal(m);
    var sign := if n < 0 then "-" else "";
    assert IntToString(n) == "" + sign + d + "" by {
      assert "" + sign + d + "" == sign + d;
    }
    assert DigitsValue(d, 10) == m by { DecimalValue(m); }
    ParseIntNumeral("", sign, d, "");
  }

  /** A numeral written by `String(n)` never has a hex prefix, so `parseInt` reads it back with or without a radix. */
  lemma ParseIntNoRadixOfIntToString(n: int)
    ensures ParseIntNoRadix(IntToString(n)) == Finite(n)
  {
    var m := if n < 0 then -n else n;
    var d := Decimal(m);
    var sign := if n < 0 then "-" else "";
    var s := IntToString(n);
    assert s == sign + d;
    assert TrimStart(s) == s;
    SignSplit(s, sign, d, true);
    assert !HasHexPrefix(d);
    assert ParseUnsigned(d, n < 0, true) == ParseUnsigned(d, n < 0, false);
    assert d + "" == d;
    DecimalValue(m);
    DigitsOfNumeral(d, "", n < 0, 10);
  }

  /**
    `Math.ceil(a / d)` for a positive divisor: the least number of `d`-sized
    pages that hold `a` items.
   */
  function CeilDiv(a: int, d: int): (q: int)
    requires d >= 1
    ensures (q - 1) * d < a <= q * d
  {
    var q := (a + d - 1) / d;
    assert q * d <= a + d - 1 < q * d + d;
    q
  }

  /** The bounds in CeilDiv's contract determine its result. */
  lemma CeilDivUnique(a: int, d: int, q: int)
    requires d >= 1
    requires (q - 1) * d < a <= q * d
    ensures q == CeilDiv(a, d)
  {
    var c := CeilDiv(a, d);
    if q < c {
      MulMonotone(q, c - 1, d);
    } else if q > c {
      MulMonotone(c, q - 1, d);
    }
  }

  lemma MulMonotone(x: int, y: int, d: int)
    requires x <= y && d >= 0
    ensures x * d <= y * d
  {
  }

  lemma ConcatAssoc<T>(a: seq<T>, b: seq<T>, c: seq<T>)
    ensures a + b + c == a + (b + c)
  {
  }
}
