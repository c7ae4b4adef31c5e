/** The handful of Python `str` operations that app.py relies on, over
    the ASCII range: `isalnum`, `isspace`, `lower`, `upper`, `strip`,
    `lstrip`, `join`, and the decimal rendering of an `int` in an f-string. */
module Text {

  /** `str.isalnum` on one character, restricted to ASCII letters and digits. */
  predicate IsAlnum(c: char)
  {
    'a' <= c <= 'z' || 'A' <= c <= 'Z' || '0' <= c <= '9'
  }

  predicate IsDigit(c: char)
  {
    '0' <= c <= '9'
  }

  /** The characters `str.isspace` accepts in the ASCII range: tab to
      carriage return, the four separators 0x1C-0x1F, and space. */
  const WHITESPACE: set<char> :=
    {'\t', '\n', '\U{0B}', '\U{0C}', '\r', '\U{1C}', '\U{1D}', '\U{1E}', '\U{1F}', ' '}

  function LowerChar(c: char): char
  {
    if 'A' <= c <= 'Z' then (c as int + 32) as char else c
  }

  function UpperChar(c: char): char
  {
    if 'a' <= c <= 'z' then (c as int - 32) as char else c
  }

  /** `str.lower()` */
  function Lower(s: string): string
  {
    seq(|s|, i requires 0 <= i < |s| => LowerChar(s[i]))
  }

  /** `str.upper()` */
  function Upper(s: string): string
  {
    seq(|s|, i requires 0 <= i < |s| => UpperChar(s[i]))
  }

  /** `str.lstrip(chars)`: drops the longest prefix made of characters in `chars`. */
  function TrimLeft(s: string, chars: set<char>): string
  {
    if s != [] && s[0] in chars then TrimLeft(s[1..], chars) else s
  }

  /** `str.rstrip(chars)`: drops the longest suffix made of characters in `chars`. */
  function TrimRight(s: string, chars: set<char>): string
  {
    if s != [] && s[|s| - 1] in chars then TrimRight(s[..|s| - 1], chars) else s
  }

  /** `str.strip(chars)` */
  function Strip(s: string, chars: set<char>): string
  {
    TrimRight(TrimLeft(s, chars), chars)
  }

  /** What lstrip leaves is a suffix of `s`. */
  lemma {:induction false} TrimLeftSuffix(s: string, chars: set<char>)
    ensures var r := TrimLeft(s, chars); |r| <= |s| && r == s[|s| - |r|..]
  {
    if s != [] && s[0] in chars {
      var r := TrimLeft(s[1..], chars);
      TrimLeftSuffix(s[1..], chars);
      assert s[1..][|s| - 1 - |r|..] == s[|s| - |r|..];
    }
  }

  /** Everything lstrip drops is in `chars`, and what it keeps does not
      start with a character of `chars`. */
  lemma {:induction false} TrimLeftDrops(s: string, chars: set<char>)
    ensures var r := TrimLeft(s, chars);
      && (forall i :: 0 <= i < |s| - |r| ==> s[i] in chars)
      && (r != [] ==> r[0] !in chars)
  {
    if s != [] && s[0] in chars {
      var r := TrimLeft(s[1..], chars);
      TrimLeftDrops(s[1..], chars);
      forall i | 1 <= i < |s| - |r| ensures s[i] in chars {
        assert s[i] == s[1..][i - 1];
      }
    }
  }

  /** What rstrip leaves is a prefix of `s`. */
  lemma {:induction false} TrimRightPrefix(s: string, chars: set<char>)
    ensures var r := TrimRight(s, chars); |r| <= |s| && r == s[..|r|]
  {
    if s != [] && s[|s| - 1] in chars {
      var r := TrimRight(s[..|s| - 1], chars);
      TrimRightPrefix(s[..|s| - 1], chars);
      assert s[..|s| - 1][..|r|] == s[..|r|];
    }
  }

  /** Everything rstrip drops is in `chars`, and what it keeps does not
      end with a character of `chars`. */
  lemma {:induction false} TrimRightDrops(s: string, chars: set<char>)
    ensures var r := TrimRight(s, chars);
      && |r| <= |s|
      && (forall i :: |r| <= i < |s| ==> s[i] in chars)
      && (r != [] ==> r[|r| - 1] !in chars)
  {
    if s != [] && s[|s| - 1] in chars {
      var r := TrimRight(s[..|s| - 1], chars);
      TrimRightDrops(s[..|s| - 1], chars);
      TrimRightPrefix(s[..|s| - 1], chars);
      forall i | |r| <= i < |s| - 1 ensures s[i] in chars {
        assert s[i] == s[..|s| - 1][i];
      }
    }
  }

  /** The index of the first character `str.strip(chars)` keeps. */
  function StripStart(s: string, chars: set<char>): int
  {
    |s| - |TrimLeft(s, chars)|
  }

  /** `str.strip(chars)` returns the slice of `s` starting at StripStart,
      everything outside that slice is in `chars`, and neither end of the
      slice is. */
  lemma StripSlice(s: string, chars: set<char>)
    ensures var r, lo := Strip(s, chars), StripStart(s, chars);
      && 0 <= lo && lo + |r| <= |s| && r == s[lo..lo + |r|]
      && (forall k :: 0 <= k < lo ==> s[k] in chars)
      && (forall k :: lo + |r| <= k < |s| ==> s[k] in chars)
      && (r != [] ==> r[0] !in chars && r[|r| - 1] !in chars)
  {
    var left := TrimLeft(s, chars);
    TrimLeftSuffix(s, chars);
    TrimLeftDrops(s, chars);
    TrimRightPrefix(left, chars);
    TrimRightDrops(left, chars);
    TailDropped(s, left, TrimRight(left, chars), chars);
  }

  /** What TrimRight drops from the tail of `left` is also a dropped tail of `s`. */
  lemma TailDropped(s: string, left: string, r: string, chars: set<char>)
    requires |left| <= |s| && left == s[|s| - |left|..]
    requires |r| <= |left| && forall i :: |r| <= i < |left| ==> left[i] in chars
    ensures forall k :: |s| - |left| + |r| <= k < |s| ==> s[k] in chars
  {
    forall k | |s| - |left| + |r| <= k < |s| ensures s[k] in chars {
      assert s[k] == left[k - (|s| - |left|)];
    }
  }

  /** Stripping leaves nothing exactly when every character is dropped. */
  lemma StripEmpty(s: string, chars: set<char>)
    ensures Strip(s, chars) == [] <==> forall i :: 0 <= i < |s| ==> s[i] in chars
  {
    var r := Strip(s, chars);
    var lo := StripStart(s, chars);
    StripSlice(s, chars);
    if r != [] {
      assert s[lo] == r[0];
    }
  }

  /** A first character that is not dropped survives stripping. */
  lemma StripKeepsFirst(s: string, chars: set<char>)
    requires s != [] && s[0] !in chars
    ensures Strip(s, chars) != [] && Strip(s, chars)[0] == s[0]
  {
    var r := Strip(s, chars);
    var lo := StripStart(s, chars);
    StripSlice(s, chars);
    assert lo == 0;
    StripEmpty(s, chars);
    assert r[0] == s[lo];
  }

  /** A last character that is not dropped survives stripping. */
  lemma StripKeepsLast(s: string, chars: set<char>)
    requires s != [] && s[|s| - 1] !in chars
    ensures Strip(s, chars) != [] && Strip(s, chars)[|Strip(s, chars)| - 1] == s[|s| - 1]
  {
    var r := Strip(s, chars);
    var lo := StripStart(s, chars);
    StripSlice(s, chars);
    assert lo + |r| == |s|;
    StripEmpty(s, chars);
    assert r[|r| - 1] == s[lo + |r| - 1];
  }

  /** A string with neither end dropped is returned unchanged. */
  lemma StripFixes(s: string, chars: set<char>)
    requires s != [] && s[0] !in chars && s[|s| - 1] !in chars
    ensures Strip(s, chars) == s
  {
    var r := Strip(s, chars);
    var lo := StripStart(s, chars);
    StripSlice(s, chars);
    assert lo == 0;
    assert lo + |r| == |s|;
  }

  /** `str.strip()` with no argument: surrounding whitespace removed. */
  function StripSpaces(s: string): string
  {
    Strip(s, WHITESPACE)
  }

  /** `sep.join(lines)` */
  function Join(lines: seq<string>, sep: string): string
  {
    if lines == [] then ""
    else if |lines| == 1 then lines[0]
    else lines[0] + sep + Join(lines[1..], sep)
  }

  /** The joined text starts with the first line. */
  lemma JoinStartsWithFirst(lines: seq<string>, sep: string)
    requires lines != []
    ensures lines[0] <= Join(lines, sep)
  {
  }

  function DigitChar(d: nat): (c: char)
    requires d < 10
    ensures IsDigit(c)
  {
    ('0' as int + d) as char
  }

  function DigitValue(c: char): (d: nat)
    requires IsDigit(c)
    ensures d < 10 && DigitChar(d) == c
  {
    c as int - '0' as int
  }

  predicate AllDigits(s: string)
  {
    forall i :: 0 <= i < |s| ==> IsDigit(s[i])
  }

  /** `f"{n}"` for a non-negative `int`: decimal digits, no leading zeros. */
  function Decimal(n: nat): string
  {
    if n < 10 then [DigitChar(n)] else Decimal(n / 10) + [DigitChar(n % 10)]
  }

  /** The rendering is a non-empty string of digits, with no leading zero
      unless the number is zero. */
  lemma {:induction false} DecimalDigits(n: nat)
    ensures var r := Decimal(n); r != [] && AllDigits(r) && (r[0] == '0' <==> n == 0)
  {
    if n >= 10 {
      DecimalDigits(n / 10);
    }
  }

  /** The number a string of decimal digits denotes. */
  function DecimalValue(s: string): nat
    requires AllDigits(s)
    decreases |s|
  {
    if s == [] then 0 else DecimalValue(s[..|s| - 1]) * 10 + DigitValue(s[|s| - 1])
  }

  /** Reading back the digits of `n` gives `n`. */
  lemma {:induction false} DecimalRoundTrip(n: nat)
    ensures AllDigits(Decimal(n)) && DecimalValue(Decimal(n)) == n
  {
    var r := Decimal(n);
    DecimalDigits(n);
    if n >= 10 {
      DecimalRoundTrip(n / 10);
      assert r[..|r| - 1] == Decimal(n / 10);
    }
  }

  /** Different numbers are rendered as different strings. */
  lemma DecimalInjective(m: nat, n: nat)
    requires Decimal(m) == Decimal(n)
    ensures m == n
  {
    DecimalRoundTrip(m);
    DecimalRoundTrip(n);
  }

  /** A name of the shape `prefix_<index><tail>`. */
  function IndexedName(prefix: string, index: nat, tail: string): string
  {
    prefix + "_" + Decimal(index) + tail
  }

  /** Two digit strings of one length that differ, differ at some index. */
  lemma DigitsDifferAt(d1: string, d2: string) returns (t: nat)
    requires |d1| == |d2| && d1 != d2
    ensures t < |d1| && d1[t] != d2[t]
  {
    assert exists t :: 0 <= t < |d1| && d1[t] != d2[t];
    t :| 0 <= t < |d1| && d1[t] != d2[t];
  }

  /** `p1_d1` and `p2_d2` of equal length, for different digit strings,
      differ at some index: among the digits when these have equal length,
      otherwise where the shorter one has its `_` and the longer a digit. */
  lemma IndexedPartsDiffer(p1: string, p2: string, d1: string, d2: string) returns (k: nat)
    requires AllDigits(d1) && AllDigits(d2) && d1 != d2
    requires |p1 + "_" + d1| == |p2 + "_" + d2|
    ensures k < |p1 + "_" + d1| && (p1 + "_" + d1)[k] != (p2 + "_" + d2)[k]
  {
    var a, b := p1 + "_" + d1, p2 + "_" + d2;
    if |d1| == |d2| {
      var t := DigitsDifferAt(d1, d2);
      k := |a| - |d1| + t;
      assert a[k] == d1[t] && b[k] == d2[t];
    } else if |d1| < |d2| {
      k := |a| - |d1| - 1;
      assert a[k] == '_' && b[k] == d2[|d2| - |d1| - 1];
    } else {
      k := |b| - |d2| - 1;
      assert b[k] == '_' && a[k] == d1[|d1| - |d2| - 1];
    }
  }

  /** Two indexed names whose tails have equal length differ as soon as
      their indexes differ, whatever the prefixes. */
  lemma IndexedNamesDiffer(p1: string, p2: string, i: nat, j: nat, s1: string, s2: string)
    requires i != j && |s1| == |s2|
    ensures IndexedName(p1, i, s1) != IndexedName(p2, j, s2)
  {
    var d1, d2 := Decimal(i), Decimal(j);
    var a, b := p1 + "_" + d1, p2 + "_" + d2;
    DecimalRoundTrip(i);
    DecimalRoundTrip(j);
    assert d1 != d2;
    if |a| == |b| {
      var k := IndexedPartsDiffer(p1, p2, d1, d2);
      assert (a + s1)[k] == a[k] && (b + s2)[k] == b[k];
    } else {
      assert |a + s1| != |b + s2|;
    }
  }
}
