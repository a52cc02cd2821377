/**
 * The handful of Python `str` operations the tool relies on: `in` on
 * strings, `startswith`, `split` on one character, `join`, `replace` of one
 * character, `strip`, `str(int)` and `int(str)`.
 */
module Text {
  import opened Wrappers

  /** t stands in s at position i. */
  predicate PieceAt(s: string, i: int, t: string) {
    0 <= i <= |s| - |t| && s[i..i + |t|] == t
  }

  /** `t in s` for two strings: t stands in s at some position. */
  predicate Occurs(t: string, s: string) {
    exists i :: 0 <= i <= |s| - |t| && PieceAt(s, i, t)
  }

  /** A string holding a character that s lacks does not occur in s. */
  lemma MissingCharAbsent(t: string, s: string, c: char)
    requires c in t && c !in s
    ensures !Occurs(t, s)
  {
    var m :| 0 <= m < |t| && t[m] == c;
    forall i | 0 <= i <= |s| - |t| ensures !PieceAt(s, i, t) {
      assert s[i..i + |t|][m] == s[i + m] && s[i + m] in s;
    }
  }

  /** `s.startswith(p)`. */
  predicate StartsWith(s: string, p: string) {
    |p| <= |s| && s[..|p|] == p
  }

  /** `s.split(c)`: the pieces between occurrences of c (never empty). */
  function Split(s: string, c: char): (parts: seq<string>)
    ensures |parts| >= 1
    decreases |s|
  {
    if |s| == 0 then [""]
    else
      var rest := Split(s[1..], c);
      if s[0] == c then [""] + rest else [[s[0]] + rest[0]] + rest[1..]
  }

  /** `sep.join(parts)`. */
  function Join(parts: seq<string>, sep: string): string {
    if |parts| == 0 then ""
    else if |parts| == 1 then parts[0]
    else parts[0] + sep + Join(parts[1..], sep)
  }

  lemma {:induction false} SplitPiecesAvoidSeparator(s: string, c: char)
    ensures forall k :: 0 <= k < |Split(s, c)| ==> c !in Split(s, c)[k]
    decreases |s|
  {
    if |s| > 0 {
      SplitPiecesAvoidSeparator(s[1..], c);
    }
  }

  /** Joining the pieces of a split with the separator gives the string back. */
  lemma {:induction false} JoinSplit(s: string, c: char)
    ensures Join(Split(s, c), [c]) == s
    decreases |s|
  {
    if |s| > 0 {
      var rest := Split(s[1..], c);
      JoinSplit(s[1..], c);
      if s[0] == c {
        assert Split(s, c) == [""] + rest;
        if |rest| == 1 {
          assert Join(rest, [c]) == rest[0];
        } else {
          assert Join(rest, [c]) == rest[0] + [c] + Join(rest[1..], [c]);
        }
        assert Join([""] + rest, [c]) == "" + [c] + Join(rest, [c]);
      } else {
        var parts := [[s[0]] + rest[0]] + rest[1..];
        assert parts[1..] == rest[1..];
        if |rest| == 1 {
          assert Join(rest, [c]) == rest[0];
          assert Join(parts, [c]) == [s[0]] + rest[0];
        } else {
          assert Join(rest, [c]) == rest[0] + [c] + Join(rest[1..], [c]);
          assert Join(parts, [c]) == [s[0]] + rest[0] + [c] + Join(rest[1..], [c]);
        }
      }
    }
  }

  /** Splitting a join of separator-free pieces gives the pieces back. */
  lemma {:induction false} SplitJoin(parts: seq<string>, c: char)
    requires |parts| >= 1
    requires forall k :: 0 <= k < |parts| ==> c !in parts[k]
    ensures Split(Join(parts, [c]), c) == parts
    decreases |parts|, |parts[0]|
  {
    if |parts[0]| > 0 {
      var p0 := parts[0];
      var tail := [p0[1..]] + parts[1..];
      assert forall k :: 0 <= k < |tail| ==> c !in tail[k] by {
        forall k | 0 <= k < |tail| ensures c !in tail[k] {
          if k == 0 {
            assert forall x :: x in p0[1..] ==> x in p0;
          } else {
            assert tail[k] == parts[k];
          }
        }
      }
      SplitJoin(tail, c);
      var s := Join(parts, [c]);
      if |parts| == 1 {
        assert s == p0;
        assert s[1..] == Join(tail, [c]);
      } else {
        assert s == p0 + [c] + Join(parts[1..], [c]);
        assert tail[1..] == parts[1..];
        assert Join(tail, [c]) == p0[1..] + [c] + Join(parts[1..], [c]);
        assert s[1..] == Join(tail, [c]);
      }
      assert s[0] == p0[0] && p0[0] != c;
      assert Split(s, c) == [[s[0]] + tail[0]] + tail[1..];
      assert [s[0]] + tail[0] == p0;
    } else if |parts| > 1 {
      SplitJoin(parts[1..], c);
      var s := Join(parts, [c]);
      assert s == [c] + Join(parts[1..], [c]);
      assert s[1..] == Join(parts[1..], [c]);
    }
  }

  /** Every character of a piece comes from the split string. */
  lemma {:induction false} SplitPieceChars(s: string, c: char)
    ensures forall k, ch :: 0 <= k < |Split(s, c)| && ch in Split(s, c)[k] ==> ch in s
    decreases |s|
  {
    if |s| > 0 {
      SplitPieceChars(s[1..], c);
      assert forall ch :: ch in s[1..] ==> ch in s;
    }
  }

  /** The first piece of a split is a prefix of the split string. */
  lemma {:induction false} SplitFirstPiece(s: string, c: char)
    ensures PieceAt(s, 0, Split(s, c)[0])
    decreases |s|
  {
    if |s| > 0 {
      SplitFirstPiece(s[1..], c);
    }
  }

  /** u stands somewhere in s. */
  ghost predicate Within(s: string, u: string) {
    exists i :: PieceAt(s, i, u)
  }

  /** Every piece of a split stands somewhere in the split string. */
  lemma {:induction false} SplitPiecesAreSlices(s: string, c: char)
    ensures forall k :: 0 <= k < |Split(s, c)| ==> Within(s, Split(s, c)[k])
    decreases |s|
  {
    SplitFirstPiece(s, c);
    var parts := Split(s, c);
    if |s| > 0 {
      var rest := Split(s[1..], c);
      SplitPiecesAreSlices(s[1..], c);
      forall k | 0 <= k < |parts| ensures Within(s, parts[k]) {
        if k == 0 {
          assert PieceAt(s, 0, parts[0]);
        } else {
          var r := if s[0] == c then k - 1 else k;
          assert parts[k] == rest[r];
          assert Within(s[1..], rest[r]);
          var at :| PieceAt(s[1..], at, rest[r]);
          assert PieceAt(s, at + 1, parts[k]);
        }
      }
    } else {
      assert PieceAt(s, 0, parts[0]);
    }
  }

  /** A piece of a piece of s is a piece of s. */
  lemma WithinTrans(s: string, u: string, w: string)
    requires Within(s, u) && Within(u, w)
    ensures Within(s, w)
  {
    var i :| PieceAt(s, i, u);
    var j :| PieceAt(u, j, w);
    forall m | 0 <= m < |w| ensures s[i + j + m] == w[m] {
      assert u[j + m] == w[m];
    }
    assert PieceAt(s, i + j, w);
  }

  /** A piece has no character its string lacks. */
  lemma WithinChars(s: string, u: string)
    requires Within(s, u)
    ensures forall ch :: ch in u ==> ch in s
  {
    var i :| PieceAt(s, i, u);
    forall ch | ch in u ensures ch in s {
      var m :| 0 <= m < |u| && u[m] == ch;
      assert s[i + m] == ch;
    }
  }

  /** What occurs in a piece of s occurs in s. */
  lemma OccursInPiece(t: string, s: string, i: int, u: string)
    requires PieceAt(s, i, u) && Occurs(t, u)
    ensures Occurs(t, s)
  {
    var k :| 0 <= k <= |u| - |t| && PieceAt(u, k, t);
    forall m | 0 <= m < |t| ensures s[i + k + m] == t[m] {
      assert u[k + m] == t[m];
    }
    assert PieceAt(s, i + k, t);
  }

  /** A string without the separator splits into itself. */
  lemma {:induction false} SplitNoSeparator(s: string, c: char)
    requires c !in s
    ensures Split(s, c) == [s]
    decreases |s|
  {
    if |s| > 0 {
      assert c !in s[1..] by {
        assert forall x :: x in s[1..] ==> x in s;
      }
      SplitNoSeparator(s[1..], c);
      assert s == [s[0]] + s[1..];
    }
  }

  /** Splitting around one separator splits each side. */
  lemma {:induction false} SplitAround(a: string, b: string, c: char)
    ensures Split(a + [c] + b, c) == Split(a, c) + Split(b, c)
    decreases |a|
  {
    var s := a + [c] + b;
    if |a| == 0 {
      assert s[1..] == b;
    } else {
      assert s[1..] == a[1..] + [c] + b;
      SplitAround(a[1..], b, c);
    }
  }

  /** Two pieces joined by one separator split back into the two. */
  lemma SplitPair(a: string, b: string, c: char)
    requires c !in a && c !in b
    ensures Split(a + [c] + b, c) == [a, b]
  {
    SplitAround(a, b, c);
    SplitNoSeparator(a, c);
    SplitNoSeparator(b, c);
  }

  function Last(parts: seq<string>): string
    requires |parts| >= 1
  {
    parts[|parts| - 1]
  }

  /** Strip removes everything there is to remove at once. */
  lemma StripTwice(s: string)
    ensures Strip(Strip(s)) == Strip(s)
  {
    StripShape(s);
    StripClean(Strip(s));
  }

  /** `s.replace(a, b)` for single characters. */
  function ReplaceChar(s: string, a: char, b: char): (r: string)
    ensures |r| == |s|
    ensures forall k :: 0 <= k < |s| ==> r[k] == (if s[k] == a then b else s[k])
  {
    seq(|s|, k requires 0 <= k < |s| => if s[k] == a then b else s[k])
  }

  /** Python's `str.isspace` for one character. */
  predicate IsSpace(c: char) {
    c == ' ' || ('\U{0009}' <= c <= '\U{000D}') || ('\U{001C}' <= c <= '\U{001F}')
    || c == '\U{0085}' || c == '\U{00A0}' || c == '\U{1680}'
    || ('\U{2000}' <= c <= '\U{200A}') || c == '\U{2028}' || c == '\U{2029}'
    || c == '\U{202F}' || c == '\U{205F}' || c == '\U{3000}'
  }

  /** Number of leading whitespace characters of s. */
  function LeadingSpace(s: string): (n: nat)
    ensures n <= |s|
    ensures forall k :: 0 <= k < n ==> IsSpace(s[k])
    ensures n < |s| ==> !IsSpace(s[n])
  {
    if |s| > 0 && IsSpace(s[0]) then
      var m := LeadingSpace(s[1..]);
      assert forall k :: 1 <= k < 1 + m ==> s[k] == s[1..][k - 1];
      1 + m
    else 0
  }

  /** Number of trailing whitespace characters of s. */
  function TrailingSpace(s: string): (n: nat)
    ensures n <= |s|
    ensures forall k :: |s| - n <= k < |s| ==> IsSpace(s[k])
    ensures n < |s| ==> !IsSpace(s[|s| - n - 1])
  {
    if |s| > 0 && IsSpace(s[|s| - 1]) then
      var m := TrailingSpace(s[..|s| - 1]);
      1 + m
    else 0
  }

  /** `s.strip()`: s without its leading and trailing whitespace. */
  function Strip(s: string): string {
    var i := LeadingSpace(s);
    var rest := s[i..];
    s[i..i + |rest| - TrailingSpace(rest)]
  }

  /** The strip is a slice of s with only whitespace around it, and does not start or end in whitespace. */
  lemma StripShape(s: string)
    ensures exists i, j :: (0 <= i <= j <= |s| && Strip(s) == s[i..j]
        && (forall k :: 0 <= k < i ==> IsSpace(s[k]))
        && (forall k :: j <= k < |s| ==> IsSpace(s[k])))
    ensures Strip(s) != [] ==> !IsSpace(Strip(s)[0]) && !IsSpace(Strip(s)[|Strip(s)| - 1])
  {
    var i := LeadingSpace(s);
    var rest := s[i..];
    var n := TrailingSpace(rest);
    assert forall k :: i + |rest| - n <= k < |s| ==> s[k] == rest[k - i];
    assert Strip(s) == s[i..i + |rest| - n];
  }

  predicate IsDigit(c: char) { '0' <= c <= '9' }

  function DigitChar(d: nat): (c: char)
    requires d < 10
    ensures IsDigit(c)
  {
    (48 + d) as char
  }

  function DigitValue(c: char): (d: nat)
    requires IsDigit(c)
    ensures d < 10 && DigitChar(d) == c
  {
    (c as int - 48) as nat
  }

  /** `str(n)` for a natural number: its decimal digits, no leading zero. */
  function NatToString(n: nat): (r: string)
    ensures |r| >= 1
    ensures forall k :: 0 <= k < |r| ==> IsDigit(r[k])
    ensures |r| > 1 ==> r[0] != '0'
    ensures n < 10 <==> |r| == 1
    decreases n
  {
    if n < 10 then [DigitChar(n)]
    else
      var hi := NatToString(n / 10);
      hi + [DigitChar(n % 10)]
  }

  /** The value of a string of decimal digits. */
  function DigitsValue(s: string): (n: nat)
    requires forall k :: 0 <= k < |s| ==> IsDigit(s[k])
    decreases |s|
  {
    if |s| == 0 then 0
    else 10 * DigitsValue(s[..|s| - 1]) + DigitValue(s[|s| - 1])
  }

  /** Parses a non-empty string made only of decimal digits. */
  function ParseNat(s: string): (r: Option<nat>)
    ensures r.Some? <==> |s| >= 1 && forall k :: 0 <= k < |s| ==> IsDigit(s[k])
  {
    if |s| >= 1 && forall k :: 0 <= k < |s| ==> IsDigit(s[k]) then Some(DigitsValue(s)) else None
  }

  lemma {:induction false} DigitsOfNat(n: nat)
    ensures DigitsValue(NatToString(n)) == n
    decreases n
  {
    if n >= 10 {
      DigitsOfNat(n / 10);
      var r := NatToString(n);
      assert r[..|r| - 1] == NatToString(n / 10);
    }
  }

  /** Reading back the decimal text of a number gives the number. */
  lemma ParseNatToString(n: nat)
    ensures ParseNat(NatToString(n)) == Some(n)
  {
    DigitsOfNat(n);
  }

  lemma {:induction false} NatToStringDigits(s: string)
    requires |s| >= 1 && forall k :: 0 <= k < |s| ==> IsDigit(s[k])
    requires |s| > 1 ==> s[0] != '0'
    ensures NatToString(DigitsValue(s)) == s
    decreases |s|
  {
    if |s| > 1 {
      var init := s[..|s| - 1];
      NatToStringDigits(init);
      LeadingDigitBound(init);
      assert DigitsValue(s) / 10 == DigitsValue(init);
      assert DigitsValue(s) % 10 == DigitValue(s[|s| - 1]);
    }
  }

  lemma {:induction false} LeadingDigitBound(s: string)
    requires |s| >= 1 && forall k :: 0 <= k < |s| ==> IsDigit(s[k])
    requires s[0] != '0'
    ensures DigitsValue(s) >= 1
    decreases |s|
  {
    if |s| > 1 {
      LeadingDigitBound(s[..|s| - 1]);
    }
  }

  /** Canonical digit strings (no leading zero) are exactly the texts of numbers. */
  lemma NatToStringParse(s: string)
    requires |s| >= 1 && forall k :: 0 <= k < |s| ==> IsDigit(s[k])
    requires |s| > 1 ==> s[0] != '0'
    ensures ParseNat(s).Some? && NatToString(ParseNat(s).value) == s
  {
    NatToStringDigits(s);
  }

  /** `str(i)` for any integer. */
  function IntToString(i: int): (r: string)
    ensures i >= 0 ==> r == NatToString(i)
    ensures i < 0 ==> r == "-" + NatToString(-i)
  {
    if i >= 0 then NatToString(i) else "-" + NatToString(-i)
  }

  /**
   * `int(s)` for a decimal literal: surrounding whitespace, an optional sign
   * and at least one digit.
   */
  function ParseInt(s: string): (r: Option<int>)
    ensures r.Some? ==> |Strip(s)| >= 1
  {
    ParseSigned(Strip(s))
  }

  /** A decimal literal with an optional sign and no surrounding whitespace. */
  function ParseSigned(t: string): (r: Option<int>)
    ensures r.Some? ==> |t| >= 1
  {
    if |t| >= 1 && t[0] == '-' then
      match ParseNat(t[1..])
      case Some(n) => Some(0 - n)
      case None => None
    else if |t| >= 1 && t[0] == '+' then
      match ParseNat(t[1..])
      case Some(n) => Some(n)
      case None => None
    else
      match ParseNat(t)
      case Some(n) => Some(n)
      case None => None
  }

  /** `int(str(i)) == i`. */
  lemma ParseIntToString(i: int)
    ensures ParseInt(IntToString(i)) == Some(i)
  {
    if i >= 0 {
      ParseIntDigits(NatToString(i));
      ParseNatToString(i);
    } else {
      ParseIntNegative(-i);
    }
  }

  lemma ParseIntDigits(d: string)
    requires |d| >= 1 && forall k :: 0 <= k < |d| ==> IsDigit(d[k])
    ensures ParseInt(d) == ParseNat(d)
  {
    assert IsDigit(d[0]) && IsDigit(d[|d| - 1]);
    StripClean(d);
  }

  lemma ParseIntNegative(n: nat)
    requires n > 0
    ensures ParseInt("-" + NatToString(n)) == Some(0 - n)
  {
    var d := NatToString(n);
    NegativeTextClean(d);
    ParseSignedNegative(n);
  }

  lemma ParseSignedNegative(n: nat)
    ensures ParseSigned("-" + NatToString(n)) == Some(0 - n)
  {
    var d := NatToString(n);
    assert ("-" + d)[1..] == d;
    ParseNatToString(n);
  }

  lemma NegativeTextClean(d: string)
    requires |d| >= 1 && IsDigit(d[|d| - 1])
    ensures Strip("-" + d) == "-" + d
  {
    var s := "-" + d;
    assert s[|s| - 1] == d[|d| - 1];
    StripClean(s);
  }

  /** The strip of s stands in s. */
  lemma StripWithin(s: string)
    ensures Within(s, Strip(s))
  {
    StripShape(s);
    var i, j :| 0 <= i <= j <= |s| && Strip(s) == s[i..j];
    assert PieceAt(s, i, Strip(s));
  }

  /** A string with no whitespace at either end is its own strip. */
  lemma StripClean(s: string)
    requires s != [] ==> !IsSpace(s[0]) && !IsSpace(s[|s| - 1])
    ensures Strip(s) == s
  {
    if s != [] {
      assert LeadingSpace(s) == 0;
      assert TrailingSpace(s) == 0;
    }
  }

  /** `f"{name}-{index}"`: the name of the index-th copy or clone. */
  function CopyName(name: string, index: nat): string {
    name + "-" + NatToString(index)
  }

  /** Copies are told apart by their number. */
  lemma CopyNamesDiffer(name: string, i: nat, j: nat)
    requires i != j
    ensures CopyName(name, i) != CopyName(name, j)
  {
    ParseNatToString(i);
    ParseNatToString(j);
    assert NatToString(i) == CopyName(name, i)[|name| + 1..];
  }

  /** `<name>-0` .. `<name>-(count-1)`. */
  function CopyNames(name: string, count: int): (r: seq<string>)
    ensures |r| == if count <= 0 then 0 else count
    ensures forall i :: 0 <= i < |r| ==> r[i] == CopyName(name, i)
  {
    if count <= 0 then [] else seq(count, i requires 0 <= i < count => CopyName(name, i))
  }
}
