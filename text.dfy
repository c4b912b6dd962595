/**
 * The Python string operations the ingest pipeline relies on: `str.split`
 * with a one-character separator, `str.join`, `str.strip`, `str.zfill`,
 * `str.lower`, the substring test `x in s`, and the decimal text `str(n)` of
 * an integer.
 */
module Text {

  /** Python's `str.isspace()` for one character (the characters `strip()` removes). */
  predicate IsSpace(c: char) {
    var n := c as int;
    (9 <= n <= 13) || (28 <= n <= 32) || n == 0x85 || n == 0xA0 || n == 0x1680
    || (0x2000 <= n <= 0x200A) || n == 0x2028 || n == 0x2029 || n == 0x202F
    || n == 0x205F || n == 0x3000
  }

  /** Leading whitespace removed: what is left is a suffix of `s`. */
  function StripLeft(s: string): (r: string)
    ensures |r| <= |s| && r == s[|s| - |r|..]
    ensures forall k | 0 <= k < |s| - |r| :: IsSpace(s[k])
    ensures r == [] || !IsSpace(r[0])
    decreases |s|
  {
    if |s| > 0 && IsSpace(s[0]) then StripLeft(s[1..]) else s
  }

  /** Trailing whitespace removed: what is left is a prefix of `s`. */
  function StripRight(s: string): (r: string)
    ensures |r| <= |s| && r == s[..|r|]
    ensures forall k | |r| <= k < |s| :: IsSpace(s[k])
    ensures r == [] || !IsSpace(r[|r| - 1])
    decreases |s|
  {
    if |s| > 0 && IsSpace(s[|s| - 1]) then StripRight(s[..|s| - 1]) else s
  }

  /** Python's `s.strip()`: no whitespace is left at either end, and a
      string without whitespace at its ends is returned as it is. */
  function Strip(s: string): (r: string)
    ensures |r| <= |s|
    ensures r == [] || (!IsSpace(r[0]) && !IsSpace(r[|r| - 1]))
    ensures (|s| == 0 || (!IsSpace(s[0]) && !IsSpace(s[|s| - 1]))) ==> r == s
  {
    StripRight(StripLeft(s))
  }

  /** `strip()` returns a piece of its input: a prefix of what is left
      after the leading whitespace. Stripping it again changes nothing. */
  lemma StripTrimmed(s: string)
    ensures Strip(s) <= StripLeft(s) && StripLeft(s) == s[|s| - |StripLeft(s)|..]
    ensures Strip(Strip(s)) == Strip(s)
  {
    var r := Strip(s);
    assert r == StripRight(StripLeft(s));
    assert Strip(r) == r;
  }

  predicate IsDigit(c: char) {
    '0' <= c <= '9'
  }

  predicate AllDigits(s: string) {
    forall k | 0 <= k < |s| :: IsDigit(s[k])
  }

  function DigitValue(c: char): nat
    requires IsDigit(c)
  {
    (c as int) - ('0' as int)
  }

  function DigitChar(d: nat): (c: char)
    requires d < 10
    ensures IsDigit(c) && DigitValue(c) == d
  {
    (('0' as int) + d) as char
  }

  /** The number a string of decimal digits denotes. */
  function Value(s: string): nat
    requires AllDigits(s)
    decreases |s|
  {
    if |s| == 0 then 0 else Value(s[..|s| - 1]) * 10 + DigitValue(s[|s| - 1])
  }

  /** Python's `str(n)` for a non-negative integer: digits only, no leading
      zero, and denoting `n`. */
  function NatText(n: nat): (s: string)
    ensures |s| >= 1 && AllDigits(s) && Value(s) == n
    ensures |s| == 1 || s[0] != '0'
    decreases n
  {
    if n < 10 then [DigitChar(n)]
    else
      var p := NatText(n / 10);
      var s := p + [DigitChar(n % 10)];
      assert s[..|s| - 1] == p;
      s
  }

  /** A digit string without a superfluous leading zero is the text of its value. */
  lemma {:induction false} NatTextOfValue(s: string)
    requires |s| >= 1 && AllDigits(s) && (|s| == 1 || s[0] != '0')
    ensures NatText(Value(s)) == s
    decreases |s|
  {
    if |s| > 1 {
      var p := s[..|s| - 1];
      assert p[0] == s[0];
      ValuePositive(p);
      NatTextOfValue(p);
      var n := Value(s);
      assert n / 10 == Value(p) && n % 10 == DigitValue(s[|s| - 1]);
      assert DigitChar(n % 10) == s[|s| - 1];
      assert s == p + [s[|s| - 1]];
    }
  }

  lemma {:induction false} ValuePositive(s: string)
    requires |s| >= 1 && AllDigits(s) && s[0] != '0'
    ensures Value(s) >= 1
    decreases |s|
  {
    if |s| > 1 {
      var p := s[..|s| - 1];
      assert p[0] == s[0];
      ValuePositive(p);
    }
  }

  /** Python's `str(i)` for an integer. */
  function IntText(i: int): (s: string)
    ensures '|' !in s && |s| >= 1
  {
    if i < 0 then "-" + NatText(-i) else NatText(i)
  }

  /** Distinct integers have distinct texts. */
  lemma IntTextInjective(a: int, b: int)
    ensures IntText(a) == IntText(b) ==> a == b
  {
    if IntText(a) == IntText(b) {
      if a < 0 && b < 0 {
        assert NatText(-a) == IntText(a)[1..] == IntText(b)[1..] == NatText(-b);
      }
    }
  }

  /** A string of `n` zeros. */
  function Zeros(n: nat): (z: string)
    ensures |z| == n && AllDigits(z) && Value(z) == 0
    decreases n
  {
    if n == 0 then [] else
      var z := Zeros(n - 1) + ['0'];
      assert z[..n - 1] == Zeros(n - 1);
      z
  }

  predicate HasSign(s: string) {
    |s| > 0 && (s[0] == '+' || s[0] == '-')
  }

  /** Python's `s.zfill(width)`: zeros are inserted after a leading sign. */
  function ZFill(s: string, width: nat): (r: string)
    ensures |r| == if |s| >= width then |s| else width
    ensures |s| >= width ==> r == s
    ensures |s| < width && !HasSign(s) ==> r == Zeros(width - |s|) + s
    ensures |s| < width && HasSign(s) ==> r == [s[0]] + Zeros(width - |s|) + s[1..]
  {
    if |s| >= width then s
    else if HasSign(s) then [s[0]] + Zeros(width - |s|) + s[1..]
    else Zeros(width - |s|) + s
  }

  /** Leading zeros do not change the value of a digit string. */
  lemma {:induction false} ValueLeadingZeros(n: nat, s: string)
    requires AllDigits(s)
    ensures AllDigits(Zeros(n) + s) && Value(Zeros(n) + s) == Value(s)
    decreases |s|
  {
    var t := Zeros(n) + s;
    assert forall k | 0 <= k < |t| :: IsDigit(t[k]) by {
      forall k | 0 <= k < |t| ensures IsDigit(t[k]) {
        if k < n { assert t[k] == Zeros(n)[k]; } else { assert t[k] == s[k - n]; }
      }
    }
    if |s| > 0 {
      var p := s[..|s| - 1];
      ValueLeadingZeros(n, p);
      assert t[..|t| - 1] == Zeros(n) + p;
    } else {
      assert t == Zeros(n);
    }
  }

  /** Zero-filling a digit string keeps it a digit string of the same value. */
  lemma ZFillDigits(s: string, width: nat)
    requires AllDigits(s)
    ensures AllDigits(ZFill(s, width)) && Value(ZFill(s, width)) == Value(s)
  {
    if |s| < width {
      ValueLeadingZeros(width - |s|, s);
    }
  }

  /** Python's `s.split(sep)` for a one-character separator. */
  function Split(s: string, sep: char): (parts: seq<string>)
    ensures |parts| >= 1
    ensures sep !in s ==> parts == [s]
    ensures forall k | 0 <= k < |parts| :: sep !in parts[k]
    decreases |s|
  {
    if |s| == 0 then [""]
    else
      var rest := Split(s[1..], sep);
      if s[0] == sep then [""] + rest
      else
        var first := [s[0]] + rest[0];
        assert sep !in first;
        assert sep !in s ==> first == s;
        [first] + rest[1..]
  }

  /** Python's `sep.join(parts)`. */
  function Join(parts: seq<string>, sep: string): string
    decreases |parts|
  {
    if |parts| == 0 then ""
    else if |parts| == 1 then parts[0]
    else parts[0] + sep + Join(parts[1..], sep)
  }

  /** Joining the pieces of a split with the separator gives back the string. */
  lemma {:induction false} SplitJoin(s: string, sep: char)
    ensures Join(Split(s, sep), [sep]) == s
    decreases |s|
  {
    if |s| > 0 {
      var rest := Split(s[1..], sep);
      SplitJoin(s[1..], sep);
      if s[0] == sep {
        assert ([""] + rest)[1..] == rest;
      } else {
        var parts := [[s[0]] + rest[0]] + rest[1..];
        assert parts[1..] == rest[1..];
        if |rest| > 1 {
          assert Join(rest, [sep]) == rest[0] + [sep] + Join(rest[1..], [sep]);
        }
      }
    }
  }

  /** A first character other than the separator joins the first part. */
  lemma SplitCons(c: char, s: string, sep: char)
    requires c != sep
    ensures Split([c] + s, sep) == [[c] + Split(s, sep)[0]] + Split(s, sep)[1..]
  {
    assert ([c] + s)[1..] == s;
  }

  lemma HeadConcat(a: string, b: string)
    requires |a| > 0
    ensures [a[0]] + (a[1..] + b) == a + b
  {
    assert a == [a[0]] + a[1..];
  }

  /** Splitting a string that starts with a separator-free prefix `a`. */
  lemma {:induction false} SplitPrefix(a: string, sep: char, t: string)
    requires sep !in a
    ensures var r := Split(t, sep);
      Split(a + t, sep) == [a + r[0]] + r[1..]
    decreases |a|
  {
    if |a| > 0 {
      SplitPrefix(a[1..], sep, t);
      SplitPrefixStep(a, sep, t);
    } else {
      var r := Split(t, sep);
      assert a + t == t && a + r[0] == r[0];
      assert r == [r[0]] + r[1..];
    }
  }

  /** The inductive step of `SplitPrefix`: one more leading character. */
  lemma SplitPrefixStep(a: string, sep: char, t: string)
    requires |a| > 0 && a[0] != sep
    requires Split(a[1..] + t, sep) == [a[1..] + Split(t, sep)[0]] + Split(t, sep)[1..]
    ensures Split(a + t, sep) == [a + Split(t, sep)[0]] + Split(t, sep)[1..]
  {
    var r := Split(t, sep);
    var rest := Split(a[1..] + t, sep);
    assert rest[0] == a[1..] + r[0] && rest[1..] == r[1..];
    HeadConcat(a, t);
    SplitCons(a[0], a[1..] + t, sep);
    HeadConcat(a, r[0]);
  }

  /** A separator-free piece followed by the separator splits off as one part. */
  lemma SplitAfter(a: string, sep: char, b: string)
    requires sep !in a
    ensures Split(a + [sep] + b, sep) == [a] + Split(b, sep)
  {
    var t := [sep] + b;
    SplitPrefix(a, sep, t);
    assert t[0] == sep && t[1..] == b;
    var r := Split(t, sep);
    assert r == [""] + Split(b, sep);
    assert a + r[0] == a;
    assert a + [sep] + b == a + t;
  }

  /** Splitting a join of separator-free parts gives back the parts. */
  lemma {:induction false} JoinSplit(parts: seq<string>, sep: char)
    requires |parts| >= 1
    requires forall k | 0 <= k < |parts| :: sep !in parts[k]
    ensures Split(Join(parts, [sep]), sep) == parts
    decreases |parts|
  {
    if |parts| > 1 {
      JoinSplit(parts[1..], sep);
      SplitAfter(parts[0], sep, Join(parts[1..], [sep]));
      assert parts == [parts[0]] + parts[1..];
    }
  }

  /** Python's substring test `sub in s`. */
  predicate Contains(s: string, sub: string)
    decreases |s|
  {
    sub <= s || (|s| > 0 && Contains(s[1..], sub))
  }

  /** `sub` occurs in `s` starting at position `i`. */
  predicate OccursAt(s: string, sub: string, i: int) {
    0 <= i <= |s| - |sub| && s[i..i + |sub|] == sub
  }

  /** `sub in s` holds exactly when `sub` occurs at some position of `s`. */
  lemma {:induction false} ContainsAt(s: string, sub: string)
    ensures Contains(s, sub) <==> exists i :: OccursAt(s, sub, i)
    decreases |s|
  {
    if exists i :: OccursAt(s, sub, i) {
      var i :| OccursAt(s, sub, i);
      if i == 0 {
        assert sub <= s;
      } else {
        assert OccursAt(s[1..], sub, i - 1) by {
          assert s[1..][i - 1..i - 1 + |sub|] == s[i..i + |sub|];
        }
        ContainsAt(s[1..], sub);
      }
    }
    if Contains(s, sub) {
      if sub <= s {
        assert OccursAt(s, sub, 0);
      } else {
        ContainsAt(s[1..], sub);
        var i :| OccursAt(s[1..], sub, i);
        assert s[1..][i..i + |sub|] == s[i + 1..i + 1 + |sub|];
        assert OccursAt(s, sub, i + 1);
      }
    }
  }

  /** `str.lower()` on a character: upper-case ASCII letters become lower case. */
  function LowerChar(c: char): char {
    if 'A' <= c <= 'Z' then ((c as int) + 32) as char else c
  }

  /** Python's `lower()` on ASCII letters: each character is mapped on its
      own, and no capital is left. */
  function Lower(s: string): (r: string)
    ensures |r| == |s|
    ensures forall k | 0 <= k < |s| :: r[k] == LowerChar(s[k])
    ensures forall k | 0 <= k < |r| :: !('A' <= r[k] <= 'Z')
    decreases |s|
  {
    if |s| == 0 then [] else [LowerChar(s[0])] + Lower(s[1..])
  }

  /** A lower-case letter appears in `Lower(s)` only if it or its capital
      appears in `s`. */
  lemma {:induction false} LowerKeepsOut(s: string, c: char)
    requires 'a' <= c <= 'z' && c !in s && ((c as int) - 32) as char !in s
    ensures c !in Lower(s)
    decreases |s|
  {
    if |s| > 0 {
      assert s[0] != c && s[0] != ((c as int) - 32) as char;
      LowerKeepsOut(s[1..], c);
    }
  }
}
