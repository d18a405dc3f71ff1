/**
 * The JavaScript string primitives the calculators rely on: decimal rendering of integers
 * (template literals), parseInt, String.prototype.split with a one-character separator,
 * trim, toLowerCase and includes.
 */
module Strings {
  import opened Wrappers

  predicate IsDigit(c: char) {
    '0' <= c <= '9'
  }

  predicate AllDigits(s: string) {
    forall i :: 0 <= i < |s| ==> IsDigit(s[i])
  }

  function DigitValue(c: char): (d: nat)
    requires IsDigit(c)
    ensures d < 10
  {
    c as int - '0' as int
  }

  function DigitChar(d: nat): (c: char)
    requires d < 10
    ensures IsDigit(c) && DigitValue(c) == d
  {
    ('0' as int + d) as char
  }

  /** The value of a run of decimal digits, most significant first; the empty run is 0. */
  function DigitsValue(s: string): nat
    requires AllDigits(s)
  {
    if |s| == 0 then 0 else 10 * DigitsValue(s[..|s| - 1]) + DigitValue(s[|s| - 1])
  }

  /** The decimal text of a natural number, as `${n}` renders it: no leading zeros. */
  function NatToString(n: nat): (s: string)
    ensures 1 <= |s| && AllDigits(s)
    ensures |s| > 1 ==> s[0] != '0'
  {
    if n < 10 then [DigitChar(n)] else NatToString(n / 10) + [DigitChar(n % 10)]
  }

  /** Rendering a natural number and reading its digits back gives the number. */
  lemma {:induction false} NatToStringValue(n: nat)
    ensures DigitsValue(NatToString(n)) == n
  {
    if n >= 10 {
      var s := NatToString(n);
      assert s[..|s| - 1] == NatToString(n / 10);
      NatToStringValue(n / 10);
    }
  }

  /** The decimal text of an integer, as `${i}` renders it. */
  function IntToString(i: int): (s: string)
    ensures 1 <= |s|
    ensures i < 0 <==> s[0] == '-'
  {
    if i < 0 then "-" + NatToString(-i) else NatToString(i)
  }

  /** The characters JavaScript treats as white space in trim, parseInt and the regex class \s. */
  predicate IsSpace(c: char) {
    c == ' ' || c == '\t' || c == '\n' || c == '\r' || c == '\U{B}' || c == '\U{C}'
    || c == '\U{A0}' || c == '\U{1680}' || ('\U{2000}' <= c <= '\U{200A}')
    || c == '\U{2028}' || c == '\U{2029}' || c == '\U{202F}' || c == '\U{205F}'
    || c == '\U{3000}' || c == '\U{FEFF}'
  }

  function TrimStart(s: string): (t: string)
    ensures |t| <= |s|
  {
    if |s| > 0 && IsSpace(s[0]) then TrimStart(s[1..]) else s
  }

  /** TrimStart removes a prefix of white space and leaves text that does not start with one. */
  lemma {:induction false} TrimStartFacts(s: string)
    ensures var t := TrimStart(s);
      t == s[|s| - |t|..] && (|t| > 0 ==> !IsSpace(t[0]))
      && forall i :: 0 <= i < |s| - |t| ==> IsSpace(s[i])
  {
    if |s| > 0 && IsSpace(s[0]) {
      TrimStartFacts(s[1..]);
    }
  }

  function TrimEnd(s: string): (t: string)
    ensures |t| <= |s|
  {
    if |s| > 0 && IsSpace(s[|s| - 1]) then TrimEnd(s[..|s| - 1]) else s
  }

  /** TrimEnd removes a suffix of white space and leaves text that does not end with one. */
  lemma {:induction false} TrimEndFacts(s: string)
    ensures var t := TrimEnd(s);
      t == s[..|t|] && (|t| > 0 ==> !IsSpace(t[|t| - 1]))
      && forall i :: |t| <= i < |s| ==> IsSpace(s[i])
  {
    if |s| > 0 && IsSpace(s[|s| - 1]) {
      TrimEndFacts(s[..|s| - 1]);
    }
  }

  /** String.prototype.trim. */
  function Trim(s: string): string {
    TrimEnd(TrimStart(s))
  }

  /** `s.trim() === ''`: the text holds nothing but white space. */
  lemma TrimEmptyIffBlank(s: string)
    ensures Trim(s) == "" <==> forall i :: 0 <= i < |s| ==> IsSpace(s[i])
  {
    TrimStartFacts(s);
    TrimEndFacts(TrimStart(s));
  }

  /** The longest prefix of `s` whose characters all satisfy `IsDigit`. */
  function DigitPrefix(s: string): (d: string)
    ensures d <= s && AllDigits(d)
    ensures |d| < |s| ==> !IsDigit(s[|d|])
  {
    if |s| > 0 && IsDigit(s[0]) then [s[0]] + DigitPrefix(s[1..]) else ""
  }

  predicate IsHexDigit(c: char) {
    IsDigit(c) || 'a' <= c <= 'f' || 'A' <= c <= 'F'
  }

  function HexDigitValue(c: char): (d: nat)
    requires IsHexDigit(c)
    ensures d < 16
  {
    if IsDigit(c) then DigitValue(c)
    else if 'a' <= c <= 'f' then c as int - 'a' as int + 10
    else c as int - 'A' as int + 10
  }

  function HexDigitPrefix(s: string): (d: string)
    ensures d <= s && forall i :: 0 <= i < |d| ==> IsHexDigit(d[i])
    ensures |d| < |s| ==> !IsHexDigit(s[|d|])
  {
    if |s| > 0 && IsHexDigit(s[0]) then [s[0]] + HexDigitPrefix(s[1..]) else ""
  }

  function HexDigitsValue(s: string): nat
    requires forall i :: 0 <= i < |s| ==> IsHexDigit(s[i])
  {
    if |s| == 0 then 0 else 16 * HexDigitsValue(s[..|s| - 1]) + HexDigitValue(s[|s| - 1])
  }

  /** The text after an optional leading sign, with the sign's factor. */
  function SplitSign(t: string): (r: (int, string))
    ensures r.0 == 1 || r.0 == -1
    ensures r.1 == t || (|t| > 0 && r.1 == t[1..])
  {
    if |t| > 0 && t[0] == '-' then (-1, t[1..])
    else if |t| > 0 && t[0] == '+' then (1, t[1..])
    else (1, t)
  }

  /** The unsigned part of parseInt: a "0x" or "0X" prefix selects base 16, otherwise base 10. */
  function ParseUnsigned(rest: string): Option<nat>
  {
    if |rest| >= 2 && rest[0] == '0' && (rest[1] == 'x' || rest[1] == 'X') then
      var h := HexDigitPrefix(rest[2..]);
      if |h| == 0 then None else Some(HexDigitsValue(h))
    else
      var d := DigitPrefix(rest);
      if |d| == 0 then None else Some(DigitsValue(d))
  }

  /**
   * parseInt(s) with no radix: leading white space is skipped, a sign is read, then the longest
   * run of digits is read and the rest ignored. None stands for NaN (no digit at all).
   */
  function ParseInt(s: string): (r: Option<int>)
    ensures TrimStart(s) == "" ==> r.None?
    ensures r.Some? && r.value < 0 ==> TrimStart(s)[0] == '-'
  {
    var p := SplitSign(TrimStart(s));
    match ParseUnsigned(p.1)
    case None => None
    case Some(v) => Some(p.0 * v)
  }

  /** The digits of `NatToString` are the whole of its digit prefix, even with text after it. */
  lemma DigitPrefixOfDigits(d: string, tail: string)
    requires AllDigits(d)
    requires |tail| > 0 ==> !IsDigit(tail[0])
    ensures DigitPrefix(d + tail) == d
  {
    var s, p := d + tail, DigitPrefix(d + tail);
    assert forall i :: 0 <= i < |d| ==> IsDigit(s[i]);
    assert forall i :: 0 <= i < |p| ==> IsDigit(s[i]);
    assert |s| > |d| ==> !IsDigit(s[|d|]);
    assert |p| == |d|;
    assert p == s[..|p|] && d == s[..|d|];
  }

  /** A rendered natural number never looks like a "0x" prefix, whatever follows it. */
  lemma NotHexPrefix(d: string, tail: string)
    requires 1 <= |d| && AllDigits(d) && (|d| > 1 ==> d[0] != '0')
    requires |tail| > 0 ==> tail[0] != 'x' && tail[0] != 'X'
    ensures !(|d + tail| >= 2 && (d + tail)[0] == '0' && ((d + tail)[1] == 'x' || (d + tail)[1] == 'X'))
  {
    if |d| >= 2 {
      assert (d + tail)[1] == d[1];
    } else if |d + tail| >= 2 {
      assert (d + tail)[1] == tail[0];
    }
  }

  /**
   * parseInt reads back the decimal rendering of any integer, whatever text follows that does not
   * start with a digit or with the 'x' that would turn a rendered 0 into a hexadecimal prefix.
   */
  lemma ParseIntOfIntToString(i: int, tail: string)
    requires |tail| > 0 ==> !IsDigit(tail[0]) && tail[0] != 'x' && tail[0] != 'X'
    ensures ParseInt(IntToString(i) + tail) == Some(i)
  {
    if i < 0 {
      assert IntToString(i) == "-" + NatToString(-i);
      ParseIntOfNegative(-i, tail);
    } else {
      ParseIntOfNonNegative(i, tail);
    }
  }

  lemma ParseIntOfNegative(n: nat, tail: string)
    requires |tail| > 0 ==> !IsDigit(tail[0]) && tail[0] != 'x' && tail[0] != 'X'
    ensures ParseInt("-" + NatToString(n) + tail) == Some(-(n as int))
  {
    var rest := NatToString(n) + tail;
    var s := "-" + rest;
    assert "-" + NatToString(n) + tail == s;
    ParseUnsignedOfRendering(n, tail);
    assert s[0] == '-' && s[1..] == rest;
    TrimStartUnchanged(s);
    ParseIntOfSigned(s, -1, rest, n, -(n as int));
  }

  lemma ParseIntOfNonNegative(n: nat, tail: string)
    requires |tail| > 0 ==> !IsDigit(tail[0]) && tail[0] != 'x' && tail[0] != 'X'
    ensures ParseInt(NatToString(n) + tail) == Some(n)
  {
    var s := NatToString(n) + tail;
    ParseUnsignedOfRendering(n, tail);
    assert s[0] == NatToString(n)[0];
    TrimStartUnchanged(s);
    ParseIntOfSigned(s, 1, s, n, n);
  }

  /** parseInt of text with no leading blank, read as a sign and an unsigned number. */
  lemma ParseIntOfSigned(s: string, sign: int, rest: string, n: nat, v: int)
    requires TrimStart(s) == s && SplitSign(s) == (sign, rest) && ParseUnsigned(rest) == Some(n)
    requires v == sign * n
    ensures ParseInt(s) == Some(v)
  {
  }

  lemma TrimStartUnchanged(s: string)
    requires |s| > 0 && (s[0] == '-' || IsDigit(s[0]))
    ensures TrimStart(s) == s
  {
    assert !IsSpace(s[0]);
  }

  lemma ParseUnsignedOfRendering(n: nat, tail: string)
    requires |tail| > 0 ==> !IsDigit(tail[0]) && tail[0] != 'x' && tail[0] != 'X'
    ensures ParseUnsigned(NatToString(n) + tail) == Some(n)
  {
    var d := NatToString(n);
    NatToStringValue(n);
    DigitPrefixOfDigits(d, tail);
    NotHexPrefix(d, tail);
  }

  /** parseInt reads back the rendering of a natural number. */
  lemma ParseIntOfNat(n: nat)
    ensures ParseInt(NatToString(n)) == Some(n)
  {
    ParseIntOfIntToString(n, "");
    assert NatToString(n) + "" == NatToString(n);
  }

  /** String.prototype.split with a one-character separator. */
  function Split(s: string, sep: char): (parts: seq<string>)
    ensures |parts| >= 1
    ensures sep in s <==> |parts| >= 2
    ensures forall k :: 0 <= k < |parts| ==> sep !in parts[k]
  {
    if |s| == 0 then [""]
    else if s[0] == sep then [""] + Split(s[1..], sep)
    else
      var r := Split(s[1..], sep);
      [[s[0]] + r[0]] + r[1..]
  }

  /** Array.prototype.join with a one-character separator. */
  function Join(parts: seq<string>, sep: char): string
  {
    if |parts| == 0 then "" else if |parts| == 1 then parts[0] else parts[0] + [sep] + Join(parts[1..], sep)
  }

  /** Splitting then joining with the same separator gives back the text. */
  lemma {:induction false} JoinSplit(s: string, sep: char)
    ensures Join(Split(s, sep), sep) == s
    decreases |s|
  {
    if |s| > 0 {
      JoinSplit(s[1..], sep);
      var r := Split(s[1..], sep);
      if s[0] != sep {
        assert Split(s, sep) == [[s[0]] + r[0]] + r[1..];
        JoinPrepend([s[0]], r, sep);
      } else {
        assert Split(s, sep) == [""] + r;
        assert Join([""] + r, sep) == "" + [sep] + Join(r, sep);
      }
      assert s == [s[0]] + s[1..];
    }
  }

  /** Gluing text onto the first part glues it onto the joined text. */
  lemma JoinPrepend(p: string, r: seq<string>, sep: char)
    requires |r| >= 1
    ensures Join([p + r[0]] + r[1..], sep) == p + Join(r, sep)
  {
    if |r| > 1 {
      var t := [p + r[0]] + r[1..];
      assert t[1..] == r[1..];
      assert Join(t, sep) == (p + r[0]) + [sep] + Join(r[1..], sep);
    }
  }

  /** Text without the separator splits into itself alone. */
  lemma {:induction false} SplitWithoutSeparator(s: string, sep: char)
    requires sep !in s
    ensures Split(s, sep) == [s]
    decreases |s|
  {
    if |s| > 0 {
      SplitWithoutSeparator(s[1..], sep);
      assert s == [s[0]] + s[1..];
    }
  }

  /** Two separator-free pieces joined by the separator split back into the two pieces. */
  lemma {:induction false} SplitTwo(a: string, b: string, sep: char)
    requires sep !in a && sep !in b
    ensures Split(a + [sep] + b, sep) == [a, b]
    decreases |a|
  {
    if |a| == 0 {
      assert a + [sep] + b == [sep] + b;
      assert (a + [sep] + b)[1..] == b;
      SplitWithoutSeparator(b, sep);
    } else {
      assert (a + [sep] + b)[1..] == a[1..] + [sep] + b;
      SplitTwo(a[1..], b, sep);
      assert [a[0]] + a[1..] == a;
    }
  }

  /** Text that starts with a separator-free piece splits into that piece and the rest's parts. */
  lemma {:induction false} SplitFirst(a: string, rest: string, sep: char)
    requires sep !in a
    ensures Split(a + [sep] + rest, sep) == [a] + Split(rest, sep)
    decreases |a|
  {
    if |a| == 0 {
      assert a + [sep] + rest == [sep] + rest;
      assert (a + [sep] + rest)[1..] == rest;
    } else {
      assert (a + [sep] + rest)[1..] == a[1..] + [sep] + rest;
      SplitFirst(a[1..], rest, sep);
      assert [a[0]] + a[1..] == a;
    }
  }

  lemma TrimEndUnchanged(s: string)
    requires |s| > 0 && IsDigit(s[|s| - 1])
    ensures TrimEnd(s) == s
  {
    assert !IsSpace(s[|s| - 1]);
  }

  /**
   * Number(s) for text that holds an integer: surrounding white space is ignored, blank text is
   * 0, an optional sign is followed by decimal digits; anything else is NaN (None).
   */
  function ToNumber(s: string): (r: Option<int>)
    ensures Trim(s) == "" ==> r == Some(0)
    ensures r.Some? && Trim(s) != "" ==> IsDigit(Trim(s)[|Trim(s)| - 1])
    ensures r.Some? && r.value < 0 ==> Trim(s)[0] == '-'
  {
    var t := Trim(s);
    if t == "" then Some(0)
    else
      var p := SplitSign(t);
      if |p.1| > 0 && AllDigits(p.1) then Some(if p.0 < 0 then -(DigitsValue(p.1) as int) else DigitsValue(p.1)) else None
  }

  /** A run of decimal digits reads as its value. */
  lemma ToNumberOfDigits(s: string)
    requires |s| > 0 && AllDigits(s)
    ensures ToNumber(s) == Some(DigitsValue(s))
  {
    TrimStartUnchanged(s);
    TrimEndUnchanged(s);
    assert Trim(s) == s;
    assert SplitSign(s) == (1, s);
  }

  /** A leading zero does not change the value of a run of digits. */
  lemma {:induction false} DigitsValueLeadingZero(s: string)
    requires AllDigits(s)
    ensures AllDigits("0" + s) && DigitsValue("0" + s) == DigitsValue(s)
    decreases |s|
  {
    if |s| > 0 {
      var z := "0" + s;
      assert z[..|z| - 1] == "0" + s[..|s| - 1];
      assert z[|z| - 1] == s[|s| - 1];
      DigitsValueLeadingZero(s[..|s| - 1]);
    }
  }

  /** A number rendered and padded to two digits reads back as the number. */
  lemma PaddedReadsBack(n: nat)
    ensures ToNumber(PadStart2(IntToString(n))) == Some(n)
  {
    var s := NatToString(n);
    if n < 10 {
      DigitsValueLeadingZero(s);
      ToNumberOfDigits("0" + s);
    } else {
      ToNumberOfDigits(s);
    }
    NatToStringValue(n);
  }

  /** toLowerCase on one character, for the ASCII letters. */
  function ToLowerChar(c: char): (d: char)
    ensures 'A' <= c <= 'Z' ==> d as int == c as int + 32
    ensures !('A' <= c <= 'Z') ==> d == c
  {
    if 'A' <= c <= 'Z' then (c as int + 32) as char else c
  }

  /** String.prototype.toLowerCase on the ASCII letters. */
  function ToLower(s: string): (t: string)
    ensures |t| == |s| && forall i :: 0 <= i < |s| ==> t[i] == ToLowerChar(s[i])
  {
    seq(|s|, i requires 0 <= i < |s| => ToLowerChar(s[i]))
  }

  /** toUpperCase on one character, for the ASCII letters. */
  function ToUpperChar(c: char): (d: char)
    ensures 'a' <= c <= 'z' ==> d as int == c as int - 32
    ensures !('a' <= c <= 'z') ==> d == c
  {
    if 'a' <= c <= 'z' then (c as int - 32) as char else c
  }

  /** String.prototype.toUpperCase on the ASCII letters. */
  function ToUpper(s: string): (t: string)
    ensures |t| == |s| && forall i :: 0 <= i < |s| ==> t[i] == ToUpperChar(s[i])
  {
    seq(|s|, i requires 0 <= i < |s| => ToUpperChar(s[i]))
  }

  /** Lowering is idempotent. */
  lemma ToLowerIdempotent(s: string)
    ensures ToLower(ToLower(s)) == ToLower(s)
  {
    var t := ToLower(s);
    assert forall i :: 0 <= i < |s| ==> ToLower(t)[i] == ToLowerChar(ToLowerChar(s[i])) == t[i];
  }

  /** Text without upper-case ASCII letters is its own lower case. */
  lemma ToLowerOfLowerCase(s: string)
    requires forall i :: 0 <= i < |s| ==> !('A' <= s[i] <= 'Z')
    ensures ToLower(s) == s
  {
  }

  /** String.prototype.includes. */
  predicate Contains(s: string, sub: string) {
    exists i :: 0 <= i <= |s| - |sub| && sub <= s[i..]
  }

  /** String.prototype.padStart(2, '0'). */
  function PadStart2(s: string): (t: string)
    ensures |s| >= 2 ==> t == s
    ensures |s| < 2 ==> |t| == 2 && t[2 - |s|..] == s && forall i :: 0 <= i < 2 - |s| ==> t[i] == '0'
  {
    if |s| >= 2 then s else if |s| == 1 then "0" + s else "00"
  }

  /** 10 to the power w. */
  function Pow10(w: nat): (p: nat)
    ensures p >= 1
  {
    if w == 0 then 1 else 10 * Pow10(w - 1)
  }

  /** The last w decimal digits of n, leading zeros kept: the zero-padded fields of a date text. */
  function FixedDigits(n: nat, w: nat): (s: string)
    ensures |s| == w && AllDigits(s)
  {
    if w == 0 then "" else FixedDigits(n / 10, w - 1) + [DigitChar(n % 10)]
  }

  /** A run of w digits is worth less than 10^w. */
  lemma {:induction false} DigitsValueBelow(s: string)
    requires AllDigits(s)
    ensures DigitsValue(s) < Pow10(|s|)
  {
    if |s| > 0 {
      DigitsValueBelow(s[..|s| - 1]);
    }
  }

  /** A number below 10^w written in w digits reads back as the number. */
  lemma {:induction false} FixedDigitsValue(n: nat, w: nat)
    requires n < Pow10(w)
    ensures DigitsValue(FixedDigits(n, w)) == n
  {
    if w > 0 {
      var s := FixedDigits(n, w);
      assert s[..|s| - 1] == FixedDigits(n / 10, w - 1);
      FixedDigitsValue(n / 10, w - 1);
    }
  }

  /** A run of digits is the fixed-width rendering of its own value. */
  lemma {:induction false} DigitsAreFixed(s: string)
    requires AllDigits(s)
    ensures FixedDigits(DigitsValue(s), |s|) == s
  {
    if |s| > 0 {
      var init, n := s[..|s| - 1], DigitsValue(s);
      DigitsAreFixed(init);
      assert n / 10 == DigitsValue(init) && n % 10 == DigitValue(s[|s| - 1]);
      assert s == init + [s[|s| - 1]];
    }
  }
}
