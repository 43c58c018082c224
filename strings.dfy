/**
 * The string operations the hooks rely on, over `seq<char>`: ASCII whitespace and word
 * characters, ASCII lower-casing, `str.strip`, `str.split` on one character, `"sep".join`,
 * slicing with `[:n]`, decimal `str(n)` / `int(s)`, substring search and the line iteration
 * of a text file.
 */
module Strings {
  import opened Wrappers

  /** ASCII whitespace as `str.strip()` and regex `\s` see it: space, \t \n \v \f \r, 0x1C-0x1F. */
  predicate IsSpace(c: char) {
    c == ' ' || 9 <= c as int <= 13 || 28 <= c as int <= 31
  }

  /** ASCII word character, the class behind regex `\b`: letters, digits and underscore. */
  predicate IsWordChar(c: char) {
    'a' <= c <= 'z' || 'A' <= c <= 'Z' || '0' <= c <= '9' || c == '_'
  }

  predicate IsDigit(c: char) {
    '0' <= c <= '9'
  }

  function LowerChar(c: char): char {
    if 'A' <= c <= 'Z' then (c as int + 32) as char else c
  }

  /** ASCII lower-casing, the case-insensitivity of `re.IGNORECASE` on ASCII text. */
  function Lower(s: string): (r: string)
    ensures |r| == |s|
    ensures forall i :: 0 <= i < |s| ==> r[i] == LowerChar(s[i])
  {
    seq(|s|, i requires 0 <= i < |s| => LowerChar(s[i]))
  }

  /** No whitespace at either end. */
  predicate Trimmed(s: string) {
    s == [] || (!IsSpace(s[0]) && !IsSpace(s[|s| - 1]))
  }

  /** `s.lstrip()`: the suffix left after removing the leading whitespace. */
  function TrimStart(s: string): string {
    if s != [] && IsSpace(s[0]) then TrimStart(s[1..]) else s
  }

  /** `lstrip` removes exactly the leading whitespace. */
  lemma {:induction false} TrimStartSpec(s: string)
    ensures var r := TrimStart(s);
      |r| <= |s| && r == s[|s| - |r|..]
      && (r == [] || !IsSpace(r[0]))
      && forall k :: 0 <= k < |s| - |r| ==> IsSpace(s[k])
  {
    if s != [] && IsSpace(s[0]) {
      var t := s[1..];
      var r := TrimStart(t);
      assert r == TrimStart(s);
      TrimStartSpec(t);
      assert r == s[|s| - |r|..] by {
        assert t[|t| - |r|..] == s[|s| - |r|..];
      }
      forall k | 0 <= k < |s| - |r|
        ensures IsSpace(s[k])
      {
        if k > 0 {
          assert s[k] == t[k - 1];
        }
      }
    }
  }

  /** `s.rstrip()`: the prefix left after removing the trailing whitespace. */
  function TrimEnd(s: string): string {
    if s != [] && IsSpace(s[|s| - 1]) then TrimEnd(s[..|s| - 1]) else s
  }

  /** `rstrip` removes exactly the trailing whitespace. */
  lemma {:induction false} TrimEndSpec(s: string)
    ensures var r := TrimEnd(s);
      |r| <= |s| && r == s[..|r|]
      && (r == [] || !IsSpace(r[|r| - 1]))
      && forall k :: |r| <= k < |s| ==> IsSpace(s[k])
  {
    if s != [] && IsSpace(s[|s| - 1]) {
      var t := s[..|s| - 1];
      var r := TrimEnd(t);
      assert r == TrimEnd(s);
      TrimEndSpec(t);
      assert r == s[..|r|] by {
        assert t[..|r|] == s[..|r|];
      }
      forall k | |r| <= k < |s|
        ensures IsSpace(s[k])
      {
        if k < |t| {
          assert s[k] == t[k];
        }
      }
    }
  }

  /** `s.strip()`. */
  function Strip(s: string): (r: string)
    ensures Trimmed(r)
    ensures |r| <= |s|
    ensures Trimmed(s) ==> r == s
  {
    var t := TrimStart(s);
    var r := TrimEnd(t);
    TrimStartSpec(s);
    TrimEndSpec(t);
    assert r == [] || r[0] == t[0];
    r
  }

  /** Stripping only removes characters. */
  lemma StripChars(s: string)
    ensures forall c :: c in Strip(s) ==> c in s
  {
    var t := TrimStart(s);
    var r := TrimEnd(t);
    TrimStartSpec(s);
    TrimEndSpec(t);
    assert r == t[..|r|];
    assert t == s[|s| - |t|..];
    assert forall c :: c in r ==> c in t;
  }

  /** The pattern `pat` occurs in `s` starting at index `i`. */
  predicate StartsAt(s: string, i: nat, pat: string) {
    i + |pat| <= |s| && s[i..i + |pat|] == pat
  }

  /** Python's `pat in s`. */
  predicate Contains(s: string, pat: string) {
    exists i :: 0 <= i <= |s| && StartsAt(s, i, pat)
  }

  /** The first occurrence of `pat` in `s` at or after `from` (the scan behind `str.find`). */
  function IndexFrom(s: string, pat: string, from: nat): (r: Option<nat>)
    decreases |s| - from
    ensures r.Some? ==> from <= r.value && StartsAt(s, r.value, pat)
  {
    if from + |pat| > |s| then None
    else if StartsAt(s, from, pat) then Some(from)
    else IndexFrom(s, pat, from + 1)
  }

  /** The scan finds the leftmost occurrence at or after `from`, and none when there is none. */
  lemma {:induction false} IndexFromSpec(s: string, pat: string, from: nat)
    decreases |s| - from
    ensures var r := IndexFrom(s, pat, from);
      (r.Some? ==> forall k :: from <= k < r.value ==> !StartsAt(s, k, pat))
      && (r.None? ==> forall k :: from <= k ==> !StartsAt(s, k, pat))
  {
    if from + |pat| <= |s| && !StartsAt(s, from, pat) {
      IndexFromSpec(s, pat, from + 1);
    }
  }

  lemma IndexFromContains(s: string, pat: string)
    ensures IndexFrom(s, pat, 0).Some? <==> Contains(s, pat)
  {
    var r := IndexFrom(s, pat, 0);
    IndexFromSpec(s, pat, 0);
    if r.Some? {
      assert StartsAt(s, r.value, pat);
    }
  }

  /** The position of the first `c` in `s`. */
  function IndexOfChar(s: string, c: char): (k: nat)
    requires c in s
    ensures k < |s| && s[k] == c
    ensures forall j :: 0 <= j < k ==> s[j] != c
  {
    if s[0] == c then 0 else 1 + IndexOfChar(s[1..], c)
  }

  /** `sep.join(xs)`. */
  function Join(xs: seq<string>, sep: string): string {
    if |xs| == 0 then ""
    else if |xs| == 1 then xs[0]
    else xs[0] + sep + Join(xs[1..], sep)
  }

  /** `s.split(c)` for a one-character separator: the pieces between the separators. */
  function SplitOn(s: string, c: char): (r: seq<string>)
    ensures |r| >= 1 && r[0] <= s
    decreases |s|
  {
    if c !in s then [s]
    else
      var k := IndexOfChar(s, c);
      [s[..k]] + SplitOn(s[k + 1..], c)
  }

  /** The pieces hold no separator, and joining them on it gives the text back. */
  lemma {:induction false} SplitOnSpec(s: string, c: char)
    ensures forall i :: 0 <= i < |SplitOn(s, c)| ==> c !in SplitOn(s, c)[i]
    ensures Join(SplitOn(s, c), [c]) == s
    decreases |s|
  {
    if c in s {
      var k := IndexOfChar(s, c);
      var head, tail := s[..k], s[k + 1..];
      assert c !in head by {
        assert forall j :: 0 <= j < k ==> head[j] == s[j];
      }
      assert s == head + [c] + tail;
      SplitOnCons(head, c, tail);
      SplitOnSpec(tail, c);
      var rest := SplitOn(tail, c);
      assert SplitOn(s, c) == [head] + rest;
      assert Join([head] + rest, [c]) == head + [c] + Join(rest, [c]) by {
        assert ([head] + rest)[1..] == rest;
      }
    }
  }

  /** Joining pieces that hold no separator and splitting again gives the pieces back. */
  lemma {:induction false} SplitJoin(xs: seq<string>, c: char)
    requires |xs| >= 1
    requires forall i :: 0 <= i < |xs| ==> c !in xs[i]
    ensures SplitOn(Join(xs, [c]), c) == xs
    decreases |xs|
  {
    if |xs| > 1 {
      var tail := Join(xs[1..], [c]);
      assert Join(xs, [c]) == xs[0] + [c] + tail;
      SplitOnCons(xs[0], c, tail);
      SplitJoin(xs[1..], c);
      assert [xs[0]] + xs[1..] == xs;
    }
  }

  /** Splitting at a first separator: the text before it, then the pieces of the rest. */
  lemma SplitOnCons(a: string, c: char, b: string)
    requires c !in a
    ensures SplitOn(a + [c] + b, c) == [a] + SplitOn(b, c)
  {
    var s := a + [c] + b;
    assert s[|a|] == c;
    assert forall j :: 0 <= j < |a| ==> s[j] == a[j];
    var k := IndexOfChar(s, c);
    assert k == |a|;
    assert s[..k] == a;
    assert s[k + 1..] == b;
  }

  /** The first piece of `s.split(c)` is the text before the first separator. */
  lemma SplitOnFirst(a: string, c: char, b: string)
    requires c !in a
    ensures SplitOn(a + [c] + b, c)[0] == a
  {
    SplitOnCons(a, c, b);
  }

  /** `s[:n]`. */
  function Take(s: string, n: nat): (r: string)
    ensures |r| <= n && r <= s
    ensures |s| <= n ==> r == s
  {
    if |s| <= n then s else s[..n]
  }

  /* ---- decimal numbers ---- */

  function DigitChar(d: nat): (c: char)
    requires d < 10
    ensures IsDigit(c) && !IsSpace(c)
  {
    ('0' as int + d) as char
  }

  predicate AllDigits(s: string) {
    forall i :: 0 <= i < |s| ==> IsDigit(s[i])
  }

  /** The value of a string of decimal digits, most significant first. */
  function DigitsValue(s: string): nat
    requires AllDigits(s)
  {
    if s == [] then 0 else 10 * DigitsValue(s[..|s| - 1]) + (s[|s| - 1] as int - '0' as int)
  }

  /** `str(n)` for a non-negative integer. */
  function NatToString(n: nat): (r: string)
    ensures |r| >= 1 && AllDigits(r)
    ensures '\t' !in r && '\n' !in r
    ensures !IsSpace(r[0]) && !IsSpace(r[|r| - 1])
  {
    if n < 10 then [DigitChar(n)] else NatToString(n / 10) + [DigitChar(n % 10)]
  }

  /**
   * `int(s)`: surrounding whitespace, then an optional sign, then at least one ASCII digit.
   * None where Python raises ValueError.
   */
  function ParseInt(s: string): Option<int> {
    var t := Strip(s);
    if |t| >= 2 && (t[0] == '-' || t[0] == '+') && AllDigits(t[1..]) then
      var v: int := DigitsValue(t[1..]);
      Some(if t[0] == '-' then -v else v)
    else if |t| >= 1 && AllDigits(t) then
      Some(DigitsValue(t))
    else None
  }

  lemma {:induction false} DigitsValueOfNatToString(n: nat)
    ensures DigitsValue(NatToString(n)) == n
  {
    var r := NatToString(n);
    if n < 10 {
      assert r[..0] == [];
    } else {
      DigitsValueOfNatToString(n / 10);
      assert r[..|r| - 1] == NatToString(n / 10);
    }
  }

  /** Printing a number and parsing it back gives the number: ledger indices round-trip. */
  lemma ParseIntOfNatToString(n: nat)
    ensures ParseInt(NatToString(n)) == Some(n)
  {
    var r := NatToString(n);
    assert Strip(r) == r;
    DigitsValueOfNatToString(n);
    if |r| >= 2 {
      assert IsDigit(r[0]);
    }
  }

  /* ---- lines of a text file ---- */

  function Concat(xs: seq<string>): string {
    if xs == [] then "" else xs[0] + Concat(xs[1..])
  }

  /** The text is empty or its last character is a newline: appending starts a fresh line. */
  predicate EndsWithNewline(s: string) {
    s == [] || s[|s| - 1] == '\n'
  }

  /**
   * The lines `for line in f` yields: each keeps its terminating newline, the last one
   * may lack it, and no line is empty.
   */
  function Lines(text: string): (r: seq<string>)
    decreases |text|
  {
    if text == [] then []
    else if '\n' !in text then [text]
    else
      var k := IndexOfChar(text, '\n');
      [text[..k + 1]] + Lines(text[k + 1..])
  }

  /** The lines put back together are the text: nothing is lost or reordered. */
  lemma {:induction false} LinesConcat(text: string)
    ensures Concat(Lines(text)) == text
    decreases |text|
  {
    if text != [] && '\n' in text {
      var k := IndexOfChar(text, '\n');
      LinesConcat(text[k + 1..]);
      assert text == text[..k + 1] + text[k + 1..];
    }
  }

  /** Appending text after a character does not move its first occurrence. */
  lemma IndexOfCharAppend(a: string, b: string, c: char)
    requires c in a
    ensures c in a + b && IndexOfChar(a + b, c) == IndexOfChar(a, c)
  {
    var k := IndexOfChar(a, c);
    assert (a + b)[k] == c;
    assert forall j :: 0 <= j < k ==> (a + b)[j] == a[j];
  }

  /** A text that ends with a newline splits into the lines of each part. */
  lemma {:induction false} LinesAppend(a: string, b: string)
    requires EndsWithNewline(a)
    ensures Lines(a + b) == Lines(a) + Lines(b)
    decreases |a|
  {
    if a == [] {
      assert a + b == b;
    } else {
      assert '\n' in a by { assert a[|a| - 1] == '\n'; }
      IndexOfCharAppend(a, b, '\n');
      var k := IndexOfChar(a, '\n');
      var ab := a + b;
      assert ab[..k + 1] == a[..k + 1];
      assert ab[k + 1..] == a[k + 1..] + b;
      LinesAppend(a[k + 1..], b);
    }
  }

  /** A single newline-terminated line with no other newline is one line. */
  lemma LinesOfLine(line: string)
    requires line != [] && line[|line| - 1] == '\n'
    requires forall j :: 0 <= j < |line| - 1 ==> line[j] != '\n'
    ensures Lines(line) == [line]
  {
    assert '\n' in line by { assert line[|line| - 1] == '\n'; }
    var k := IndexOfChar(line, '\n');
    assert k == |line| - 1;
    assert line[..k + 1] == line;
    assert line[k + 1..] == [];
    assert Lines(line[k + 1..]) == [];
  }
}
