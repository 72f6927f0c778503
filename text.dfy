/**
 * The Option type, standing for Python's `None` or a value, and the Result
 * type, standing for a value or a raised exception.
 */
module Wrappers {
  datatype Option<+T> = None | Some(value: T)

  datatype Result<+T, +E> = Success(value: T) | Failure(error: E)
}

/**
 * Character classes, whitespace stripping, line splitting and decimal digits:
 * the parts of Python's `str` and `re` that the trip planner relies on.
 *
 * The model uses ASCII throughout: whitespace (`\s`, `str.strip`) is space, tab,
 * line feed, carriage return, vertical tab and form feed; a digit (`\d`) is
 * 0-9; case-insensitive matching lower-cases A-Z only; lines are split at
 * line feeds only.
 */
module Text {

  predicate IsSpace(c: char) {
    c == ' ' || c == '\t' || c == '\n' || c == '\r' || c == '\U{000B}' || c == '\U{000C}'
  }

  predicate IsDigit(c: char) {
    '0' <= c <= '9'
  }

  predicate IsAsciiLetter(c: char) {
    'A' <= c <= 'Z' || 'a' <= c <= 'z'
  }

  /** The character classes that occur, repeated, in the source's patterns. */
  datatype CharClass =
    | Whitespace   // \s
    | Digits       // \d
    | NameChars    // [A-Za-z ]
    | AmountChars  // [\d,]
    | LineChars    // anything but a line feed

  predicate InClass(c: char, k: CharClass) {
    match k
    case Whitespace => IsSpace(c)
    case Digits => IsDigit(c)
    case NameChars => IsAsciiLetter(c) || c == ' '
    case AmountChars => IsDigit(c) || c == ','
    case LineChars => c != '\n'
  }

  /** The end of the longest run of class `k` that starts at `i` (a greedy `k*`). */
  function SkipClass(s: string, i: nat, k: CharClass): (j: nat)
    requires i <= |s|
    ensures i <= j <= |s|
    ensures forall m :: i <= m < j ==> InClass(s[m], k)
    ensures j == |s| || !InClass(s[j], k)
    decreases |s| - i
  {
    if i == |s| || !InClass(s[i], k) then i else SkipClass(s, i + 1, k)
  }

  /** A greedy run is determined by where it starts. */
  lemma SkipClassUnique(s: string, i: nat, j: nat, k: CharClass)
    requires i <= j <= |s|
    requires forall m :: i <= m < j ==> InClass(s[m], k)
    requires j == |s| || !InClass(s[j], k)
    ensures SkipClass(s, i, k) == j
  {
  }

  predicate AllSpace(s: string) {
    forall k :: 0 <= k < |s| ==> IsSpace(s[k])
  }

  /** `r` sits at offset `a` of `s` with only whitespace around it. */
  ghost predicate PaddedAt(s: string, r: string, a: nat) {
    a + |r| <= |s| && s[a..a + |r|] == r && AllSpace(s[..a]) && AllSpace(s[a + |r|..])
  }

  /** The start of the run of whitespace that ends at `j`. */
  function TrailingSpaceStart(s: string, j: nat): (b: nat)
    requires j <= |s|
    ensures b <= j
    ensures forall m :: b <= m < j ==> IsSpace(s[m])
    ensures b == 0 || !IsSpace(s[b - 1])
    decreases j
  {
    if j == 0 || !IsSpace(s[j - 1]) then j else TrailingSpaceStart(s, j - 1)
  }

  /** Python's `str.strip()`: `s` without its leading and trailing whitespace. */
  function Strip(s: string): (r: string)
    ensures r == [] <==> AllSpace(s)
    ensures r != [] ==> !IsSpace(r[0]) && !IsSpace(r[|r| - 1])
  {
    var a := SkipClass(s, 0, Whitespace);
    if a == |s| then
      []
    else
      var b := TrailingSpaceStart(s, |s|);
      assert a < b;
      s[a..b]
  }

  /** The strip of `s` is `s` less whitespace on both sides: it sits after the leading run. */
  lemma StripPadded(s: string)
    ensures PaddedAt(s, Strip(s), SkipClass(s, 0, Whitespace))
  {
    var a := SkipClass(s, 0, Whitespace);
    if a < |s| {
      var b := TrailingSpaceStart(s, |s|);
      assert a < b;
      assert s[a..b] == Strip(s);
      assert AllSpace(s[..a]) by {
        forall k | 0 <= k < a ensures IsSpace(s[..a][k]) { assert s[..a][k] == s[k]; }
      }
      assert AllSpace(s[b..]) by {
        forall k | 0 <= k < |s| - b ensures IsSpace(s[b..][k]) { assert s[b..][k] == s[b + k]; }
      }
    } else {
      assert AllSpace(s[..a]) by {
        forall k | 0 <= k < a ensures IsSpace(s[..a][k]) { assert s[..a][k] == s[k]; }
      }
    }
  }

  /** A string that neither starts nor ends with whitespace is its own strip. */
  lemma StripUnpadded(s: string)
    requires s != [] ==> !IsSpace(s[0]) && !IsSpace(s[|s| - 1])
    ensures Strip(s) == s
  {
    if s != [] {
      SkipClassUnique(s, 0, 0, Whitespace);
      assert TrailingSpaceStart(s, |s|) == |s|;
    }
  }

  /** Stripping twice is stripping once. */
  lemma StripIdempotent(s: string)
    ensures Strip(Strip(s)) == Strip(s)
  {
    StripUnpadded(Strip(s));
  }

  /**
   * Strip is the unique unpadded core: any `r` that sits in `s` with only
   * whitespace around it and neither starts nor ends with whitespace is Strip(s).
   */
  lemma {:induction false} StripIsUniqueCore(s: string, r: string, a: nat)
    requires PaddedAt(s, r, a)
    requires r != [] ==> !IsSpace(r[0]) && !IsSpace(r[|r| - 1])
    ensures Strip(s) == r
  {
    var t := Strip(s);
    var b := SkipClass(s, 0, Whitespace);
    StripPadded(s);
    if r == [] {
      assert AllSpace(s) by {
        forall k | 0 <= k < |s| ensures IsSpace(s[k]) {
          if k < a { assert s[..a][k] == s[k]; } else { assert s[a..][k - a] == s[k]; }
        }
      }
    } else {
      // both cores start at the first non-space character and end after the last
      assert s[a] == r[0] && s[a + |r| - 1] == r[|r| - 1];
      assert !AllSpace(s);
      assert s[b] == t[0] && s[b + |t| - 1] == t[|t| - 1];
      LeadingSpaces(s, a);
      LeadingSpaces(s, b);
      assert a == b;
      TrailingSpaces(s, a + |r|);
      TrailingSpaces(s, b + |t|);
      assert a + |r| == b + |t|;
    }
  }

  lemma LeadingSpaces(s: string, a: nat)
    requires a <= |s| && AllSpace(s[..a])
    ensures forall k :: 0 <= k < a ==> IsSpace(s[k])
  {
    forall k | 0 <= k < a ensures IsSpace(s[k]) { assert s[..a][k] == s[k]; }
  }

  lemma TrailingSpaces(s: string, e: nat)
    requires e <= |s| && AllSpace(s[e..])
    ensures forall k :: e <= k < |s| ==> IsSpace(s[k])
  {
    forall k | e <= k < |s| ensures IsSpace(s[k]) { assert s[e..][k - e] == s[k]; }
  }

  /** Python's `str.splitlines()`, splitting at line feeds only. */
  function SplitLines(s: string): (lines: seq<string>)
    ensures forall k :: 0 <= k < |lines| ==> '\n' !in lines[k]
    decreases |s|
  {
    if s == [] then []
    else
      var j := SkipClass(s, 0, LineChars);
      if j == |s| then [s] else [s[..j]] + SplitLines(s[j + 1..])
  }

  /** Every line followed by a line feed, as the source's `chunk += ln + "\n"` builds it. */
  function Terminated(lines: seq<string>): (s: string)
    ensures |s| >= |lines|
  {
    if lines == [] then [] else lines[0] + "\n" + Terminated(lines[1..])
  }

  lemma {:induction false} TerminatedAppend(a: seq<string>, b: seq<string>)
    ensures Terminated(a + b) == Terminated(a) + Terminated(b)
  {
    if a != [] {
      assert (a + b)[1..] == a[1..] + b;
      TerminatedAppend(a[1..], b);
    } else {
      assert a + b == b;
    }
  }

  /**
   * Splitting into lines loses only the final line feed: putting a line feed
   * after every line gives the text back, with a line feed added when the
   * text did not already end with one.
   */
  lemma {:induction false} SplitLinesRoundTrip(s: string)
    ensures Terminated(SplitLines(s)) == if s == [] || s[|s| - 1] == '\n' then s else s + "\n"
  {
    if s != [] {
      var j := SkipClass(s, 0, LineChars);
      if j < |s| {
        var x, t := s[..j], s[j + 1..];
        var rest := SplitLines(t);
        assert SplitLines(s) == [x] + rest;
        SplitLinesRoundTrip(t);
        TerminatedCons(x, rest);
        SplitAtLineFeed(s, j);
        RoundTripStep(s, x, t, Terminated(rest));
      } else {
        assert SplitLines(s) == [s];
        LastLine(s);
      }
    }
  }

  lemma SplitAtLineFeed(s: string, j: nat)
    requires j < |s| && s[j] == '\n'
    ensures s == s[..j] + "\n" + s[j + 1..]
  {
  }

  /** A text without a line feed is one line, which gets one line feed. */
  lemma LastLine(s: string)
    requires s != [] && SkipClass(s, 0, LineChars) == |s|
    ensures Terminated([s]) == s + "\n" && s[|s| - 1] != '\n'
  {
    assert [s][1..] == [];
    assert InClass(s[|s| - 1], LineChars);
  }

  lemma TerminatedCons(line: string, rest: seq<string>)
    ensures Terminated([line] + rest) == line + "\n" + Terminated(rest)
  {
    assert ([line] + rest)[1..] == rest;
  }

  /** A line feed in front of a text keeps the round trip's rule for the final line feed. */
  lemma RoundTripStep(s: string, x: string, t: string, rt: string)
    requires s == x + "\n" + t
    requires rt == if t == [] || t[|t| - 1] == '\n' then t else t + "\n"
    ensures s != [] && x + "\n" + rt == if s[|s| - 1] == '\n' then s else s + "\n"
  {
    if t != [] {
      assert s[|s| - 1] == t[|t| - 1];
    }
    if rt != t {
      assert x + "\n" + (t + "\n") == s + "\n";
    }
  }

  function LowerChar(c: char): char {
    if 'A' <= c <= 'Z' then (c as int + 32) as char else c
  }

  /** ASCII lower-casing, the model's stand-in for the `re.I` flag. */
  function LowerAscii(s: string): (r: string)
    ensures |r| == |s|
    ensures forall k :: 0 <= k < |s| ==> r[k] == LowerChar(s[k])
    ensures forall k :: 0 <= k < |r| ==> !('A' <= r[k] <= 'Z')
    ensures forall k :: 0 <= k < |s| && !('A' <= s[k] <= 'Z') ==> r[k] == s[k]
  {
    seq(|s|, k requires 0 <= k < |s| => LowerChar(s[k]))
  }

  /** Lower-casing twice is lower-casing once. */
  lemma LowerAsciiIdempotent(s: string)
    ensures LowerAscii(LowerAscii(s)) == LowerAscii(s)
  {
    var l := LowerAscii(s);
    assert forall k :: 0 <= k < |l| ==> LowerAscii(l)[k] == l[k];
  }

  /** `t` occurs in `s` (the source's `re.search` of a literal). */
  predicate Contains(s: string, t: string) {
    exists i :: 0 <= i <= |s| - |t| && OccursAt(s, t, i)
  }

  predicate OccursAt(s: string, t: string, i: nat) {
    i + |t| <= |s| && s[i..i + |t|] == t
  }

  predicate AllDigits(s: string) {
    forall k :: 0 <= k < |s| ==> IsDigit(s[k])
  }

  function DigitValue(c: char): nat
    requires IsDigit(c)
  {
    c as int - '0' as int
  }

  function DigitChar(d: nat): (c: char)
    requires d < 10
    ensures IsDigit(c) && DigitValue(c) == d
  {
    ('0' as int + d) as char
  }

  /** The value of a string of decimal digits (Python's `float` on such a string). */
  function DecimalValue(s: string): nat
    requires AllDigits(s)
    decreases |s|
  {
    if s == [] then 0 else 10 * DecimalValue(s[..|s| - 1]) + DigitValue(s[|s| - 1])
  }

  /** Python's `str()` of a non-negative integer. */
  function NatToString(n: nat): (s: string)
    ensures |s| >= 1 && AllDigits(s)
    ensures |s| > 1 ==> s[0] != '0'
    decreases n
  {
    if n < 10 then [DigitChar(n)] else NatToString(n / 10) + [DigitChar(n % 10)]
  }

  /** Reading back the decimal rendering of `n` gives `n`. */
  lemma {:induction false} NatToStringRoundTrip(n: nat)
    ensures DecimalValue(NatToString(n)) == n
  {
    if n >= 10 {
      var s := NatToString(n);
      NatToStringRoundTrip(n / 10);
      assert s[..|s| - 1] == NatToString(n / 10);
    }
  }

  /** Python's `s.replace(",", "")`. */
  function RemoveCommas(s: string): (r: string)
    ensures ',' !in r
    ensures |r| <= |s|
    ensures r == [] <==> forall k :: 0 <= k < |s| ==> s[k] == ','
    ensures (forall k :: 0 <= k < |s| ==> InClass(s[k], AmountChars)) ==> AllDigits(r)
    ensures |s| == 1 ==> r == (if s[0] == ',' then [] else s)
    decreases |s|
  {
    if s == [] then []
    else
      assert s == [s[0]] + s[1..];
      (if s[0] == ',' then [] else [s[0]]) + RemoveCommas(s[1..])
  }

  /**
   * Removal works character by character: the result for a concatenation is
   * the results for its parts, in order. With the one-character case of
   * `RemoveCommas`, this fixes the result as the input's other characters
   * in their original order.
   */
  lemma {:induction false} RemoveCommasAppend(a: string, b: string)
    ensures RemoveCommas(a + b) == RemoveCommas(a) + RemoveCommas(b)
    decreases |a|
  {
    if a != [] {
      assert (a + b)[1..] == a[1..] + b;
      RemoveCommasAppend(a[1..], b);
    } else {
      assert a + b == b;
    }
  }

  function Pow10(n: nat): (p: nat)
    ensures p >= 1
  {
    if n == 0 then 1 else 10 * Pow10(n - 1)
  }

  lemma AllDigitsAppend(a: string, b: string)
    requires AllDigits(a) && AllDigits(b)
    ensures AllDigits(a + b)
  {
    assert forall k :: 0 <= k < |a + b| ==> (a + b)[k] == if k < |a| then a[k] else b[k - |a|];
  }

  /** Appending digits shifts the value left by their count. */
  lemma {:induction false} DecimalValueAppend(a: string, b: string)
    requires AllDigits(a) && AllDigits(b)
    ensures AllDigits(a + b)
    ensures DecimalValue(a + b) == DecimalValue(a) * Pow10(|b|) + DecimalValue(b)
    decreases |b|
  {
    AllDigitsAppend(a, b);
    if b == [] {
      assert a + b == a;
    } else {
      var b' := b[..|b| - 1];
      assert AllDigits(b');
      assert (a + b)[..|a + b| - 1] == a + b';
      DecimalValueAppend(a, b');
      ShiftStep(DecimalValue(a), Pow10(|b'|), DecimalValue(b'), DigitValue(b[|b| - 1]));
    }
  }

  lemma ShiftStep(x: nat, p: nat, y: nat, d: nat)
    ensures 10 * (x * p + y) + d == x * (10 * p) + (10 * y + d)
  {
  }

  /**
   * A thousands separator between two digit groups is dropped, and the amount
   * reads as the digits run together ("1,250" as 1250).
   */
  lemma ThousandsSeparator(a: string, b: string)
    requires AllDigits(a) && AllDigits(b)
    ensures RemoveCommas(a + [','] + b) == a + b
    ensures AllDigits(a + b) && DecimalValue(a + b) == DecimalValue(a) * Pow10(|b|) + DecimalValue(b)
  {
    RemoveCommasAppend(a + [','], b);
    RemoveCommasAppend(a, [',']);
    RemoveCommasOfDigits(a);
    RemoveCommasOfDigits(b);
    assert a + [] == a;
    DecimalValueAppend(a, b);
  }

  /** Digits carry no commas to remove. */
  lemma {:induction false} RemoveCommasOfDigits(s: string)
    requires AllDigits(s)
    ensures RemoveCommas(s) == s
    decreases |s|
  {
    if s != [] {
      RemoveCommasOfDigits(s[1..]);
      assert s == [s[0]] + s[1..];
    }
  }

  /** Concatenation is associative. */
  lemma ConcatAssoc(x: string, y: string, z: string)
    ensures x + y + z == x + (y + z)
  {
  }

  /** The two halves of a concatenation are recovered by slicing at the seam. */
  lemma SliceConcat(x: string, y: string)
    ensures (x + y)[..|x|] == x && (x + y)[|x|..] == y
  {
  }
}
