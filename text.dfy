/**
 * The handful of Python string operations the booking handlers rely on:
 * `str(n)`, `int(s)`, `str.strip()`, `str.isdigit()`, `str.isalpha()` and
 * `str.split(sep)`, restricted to ASCII characters.
 */
module Text {

  /** `c.isdigit()` for an ASCII character. */
  predicate IsDigit(c: char) {
    '0' <= c <= '9'
  }

  /** `c.isalpha()` for an ASCII character. */
  predicate IsLetter(c: char) {
    'A' <= c <= 'Z' || 'a' <= c <= 'z'
  }

  /** `c.isspace()` for an ASCII character: tab to carriage return, the four
      separators 0x1c-0x1f, and the blank. */
  predicate IsSpace(c: char) {
    c == ' ' || '\t' <= c <= '\r' || '\U{1c}' <= c <= '\U{1f}'
  }

  predicate AllDigits(s: string) {
    forall i :: 0 <= i < |s| ==> IsDigit(s[i])
  }

  /** `s.isdigit()`: true only for a non-empty run of digits. */
  predicate IsNumeral(s: string) {
    |s| > 0 && AllDigits(s)
  }

  function DigitValue(c: char): (d: nat)
    requires IsDigit(c)
    ensures d < 10
  {
    (c as int) - ('0' as int)
  }

  function DigitChar(d: nat): (c: char)
    requires d < 10
    ensures IsDigit(c) && DigitValue(c) == d
  {
    (('0' as int) + d) as char
  }

  /** `int(s)` for a string of digits (leading zeros allowed). */
  function Value(s: string): nat
    requires AllDigits(s)
    decreases |s|
  {
    if s == [] then 0 else 10 * Value(s[..|s| - 1]) + DigitValue(s[|s| - 1])
  }

  /** `str(n)` for a natural number. */
  function Decimal(n: nat): (r: string)
    ensures IsNumeral(r)
    ensures |r| > 1 ==> r[0] != '0'
    decreases n
  {
    if n < 10 then [DigitChar(n)] else Decimal(n / 10) + [DigitChar(n % 10)]
  }

  /** `str(k)` for any integer: a minus sign before the digits of a negative one. */
  function IntToString(k: int): (r: string)
    ensures k >= 0 ==> r == Decimal(k)
    ensures k < 0 ==> |r| > 1 && r[0] == '-' && r[1..] == Decimal(-k)
  {
    if k < 0 then "-" + Decimal(-k) else Decimal(k)
  }

  /** Reading back the digits that `str` writes gives the number. */
  lemma {:induction false} ValueOfDecimal(n: nat)
    ensures Value(Decimal(n)) == n
    decreases n
  {
    if n >= 10 {
      ValueOfDecimal(n / 10);
      var s := Decimal(n);
      assert s[..|s| - 1] == Decimal(n / 10);
    }
  }

  function Pow10(k: nat): (p: nat)
    ensures p >= 1
  {
    if k == 0 then 1 else 10 * Pow10(k - 1)
  }

  /** `str(n)` has k + 1 digits exactly when 10^k <= n < 10^(k+1). */
  lemma {:induction false} DecimalLength(n: nat, k: nat)
    requires Pow10(k) <= n < 10 * Pow10(k)
    ensures |Decimal(n)| == k + 1
    decreases k
  {
    if k > 0 {
      var q := n / 10;
      assert n == 10 * q + n % 10;
      assert Pow10(k) == 10 * Pow10(k - 1);
      DecimalLength(q, k - 1);
    }
  }

  lemma DecimalInjective(m: nat, n: nat)
    ensures Decimal(m) == Decimal(n) <==> m == n
  {
    if Decimal(m) == Decimal(n) {
      ValueOfDecimal(m);
      ValueOfDecimal(n);
    }
  }

  lemma IntToStringInjective(j: int, k: int)
    ensures IntToString(j) == IntToString(k) <==> j == k
  {
    if IntToString(j) == IntToString(k) && (j < 0 <==> k < 0) {
      if j < 0 {
        DecimalInjective(-j, -k);
      } else {
        DecimalInjective(j, k);
      }
    }
  }

  /** `"".join(filter(str.isalpha, s))` */
  function Letters(s: string): (r: string)
    ensures |r| <= |s|
    ensures forall i :: 0 <= i < |r| ==> IsLetter(r[i])
    decreases |s|
  {
    if s == [] then []
    else (if IsLetter(s[0]) then [s[0]] else []) + Letters(s[1..])
  }

  /** `"".join(filter(str.isdigit, s))` */
  function Digits(s: string): (r: string)
    ensures |r| <= |s|
    ensures AllDigits(r)
    decreases |s|
  {
    if s == [] then []
    else (if IsDigit(s[0]) then [s[0]] else []) + Digits(s[1..])
  }

  lemma {:induction false} LettersAppend(a: string, b: string)
    ensures Letters(a + b) == Letters(a) + Letters(b)
    ensures Digits(a + b) == Digits(a) + Digits(b)
    decreases |a|
  {
    if a != [] {
      assert (a + b)[0] == a[0] && (a + b)[1..] == a[1..] + b;
      LettersAppend(a[1..], b);
      var l := if IsLetter(a[0]) then [a[0]] else [];
      var d := if IsDigit(a[0]) then [a[0]] else [];
      assert Letters(a + b) == l + (Letters(a[1..]) + Letters(b));
      assert Letters(a) == l + Letters(a[1..]);
      assert Digits(a + b) == d + (Digits(a[1..]) + Digits(b));
      assert Digits(a) == d + Digits(a[1..]);
    } else {
      assert a + b == b;
    }
  }

  lemma {:induction false} LettersOfLetters(s: string)
    requires forall i :: 0 <= i < |s| ==> IsLetter(s[i])
    ensures Letters(s) == s && Digits(s) == []
    decreases |s|
  {
    if s != [] {
      LettersOfLetters(s[1..]);
    }
  }

  lemma {:induction false} LettersOfNumeral(s: string)
    requires AllDigits(s)
    ensures Letters(s) == [] && Digits(s) == s
    decreases |s|
  {
    if s != [] {
      LettersOfNumeral(s[1..]);
    }
  }

  /** A seat number is a row label of letters followed by a decimal number:
      the letters give back the row and the digits give back the number. */
  lemma LabelAndNumber(row: string, n: nat)
    requires forall i :: 0 <= i < |row| ==> IsLetter(row[i])
    ensures Letters(row + Decimal(n)) == row
    ensures Digits(row + Decimal(n)) == Decimal(n)
    ensures Value(Digits(row + Decimal(n))) == n
  {
    LettersAppend(row, Decimal(n));
    LettersOfLetters(row);
    LettersOfNumeral(Decimal(n));
    ValueOfDecimal(n);
  }

  lemma LabelAndNumberInjective(l1: string, n1: nat, l2: string, n2: nat)
    requires forall i :: 0 <= i < |l1| ==> IsLetter(l1[i])
    requires forall i :: 0 <= i < |l2| ==> IsLetter(l2[i])
    ensures l1 + Decimal(n1) == l2 + Decimal(n2) <==> l1 == l2 && n1 == n2
  {
    LabelAndNumber(l1, n1);
    LabelAndNumber(l2, n2);
  }

  /** The first position at or after `i` that is not white space. */
  function SkipSpaces(s: string, i: nat): (n: nat)
    requires i <= |s|
    ensures i <= n <= |s|
    ensures forall k :: i <= k < n ==> IsSpace(s[k])
    ensures n < |s| ==> !IsSpace(s[n])
    decreases |s| - i
  {
    if i < |s| && IsSpace(s[i]) then SkipSpaces(s, i + 1) else i
  }

  /** The end of `s[lo..j]` once its trailing white space is dropped. */
  function SkipSpacesBack(s: string, lo: nat, j: nat): (n: nat)
    requires lo <= j <= |s|
    ensures lo <= n <= j
    ensures forall k :: n <= k < j ==> IsSpace(s[k])
    ensures n > lo ==> !IsSpace(s[n - 1])
    decreases j
  {
    if j > lo && IsSpace(s[j - 1]) then SkipSpacesBack(s, lo, j - 1) else j
  }

  /** `s.strip()`: the slice left after removing white space at both ends. */
  function Strip(s: string): string {
    var i := SkipSpaces(s, 0);
    s[i..SkipSpacesBack(s, i, |s|)]
  }

  /** What `strip` promises: the slice `s[i..j]`, bounded by non-blank
      characters, with only white space cut off on either side. */
  lemma StripIsTrimmedSlice(s: string) returns (i: nat, j: nat)
    ensures i <= j <= |s| && Strip(s) == s[i..j]
    ensures forall k :: 0 <= k < i ==> IsSpace(s[k])
    ensures forall k :: j <= k < |s| ==> IsSpace(s[k])
    ensures Strip(s) == [] || (!IsSpace(s[i]) && !IsSpace(s[j - 1]))
  {
    i := SkipSpaces(s, 0);
    j := SkipSpacesBack(s, i, |s|);
  }

  /** `s.split(sep)`: the pieces between separators, always at least one. */
  function Split(s: string, sep: char): (r: seq<string>)
    ensures |r| >= 1
    ensures forall p :: p in r ==> sep !in p
    decreases |s|
  {
    if s == [] then [""]
    else
      var rest := Split(s[1..], sep);
      if s[0] == sep then [""] + rest
      else [[s[0]] + rest[0]] + rest[1..]
  }

  /** `sep.join(parts)` */
  function Join(parts: seq<string>, sep: char): string
    decreases |parts|
  {
    if parts == [] then ""
    else if |parts| == 1 then parts[0]
    else parts[0] + [sep] + Join(parts[1..], sep)
  }

  /** Joining the pieces of a split with the same separator gives back the text. */
  lemma {:induction false} JoinSplit(s: string, sep: char)
    ensures Join(Split(s, sep), sep) == s
    decreases |s|
  {
    if s != [] {
      var rest := Split(s[1..], sep);
      JoinSplit(s[1..], sep);
      if s[0] == sep {
        assert Split(s, sep) == [""] + rest;
        assert ([""] + rest)[1..] == rest;
      } else {
        if |rest| > 1 {
          assert ([[s[0]] + rest[0]] + rest[1..])[1..] == rest[1..];
          assert Join(rest, sep) == rest[0] + [sep] + Join(rest[1..], sep);
        }
      }
    }
  }

  /** Splitting a join of separator-free pieces gives back the pieces. */
  lemma {:induction false} SplitJoin(parts: seq<string>, sep: char)
    requires |parts| >= 1
    requires forall p :: p in parts ==> sep !in p
    ensures Split(Join(parts, sep), sep) == parts
    decreases |parts|, |parts[0]|
  {
    if parts[0] == [] {
      if |parts| > 1 {
        assert Join(parts, sep) == [sep] + Join(parts[1..], sep);
        SplitJoin(parts[1..], sep);
        assert ([sep] + Join(parts[1..], sep))[1..] == Join(parts[1..], sep);
        assert parts == [""] + parts[1..];
      }
    } else {
      var p := parts[0];
      var tail := [p[1..]] + parts[1..];
      assert p[1..] in tail;
      forall q | q in tail ensures sep !in q {
        if q == p[1..] {
          assert forall c :: c in p[1..] ==> c in p;
        }
      }
      SplitJoin(tail, sep);
      var joined := Join(parts, sep);
      assert joined == [p[0]] + Join(tail, sep) by {
        assert p == [p[0]] + p[1..];
        if |parts| > 1 {
          assert tail[1..] == parts[1..];
        }
      }
      assert p[0] in p;
      assert joined[0] == p[0] && joined[0] != sep && joined[1..] == Join(tail, sep);
      assert Split(joined, sep) == [[p[0]] + tail[0]] + tail[1..];
      assert [p[0]] + tail[0] == p;
      assert [p] + parts[1..] == parts;
    }
  }
}
