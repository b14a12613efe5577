/** The slice of Python's `str` behaviour the pipeline relies on: `isspace`,
    `strip`/`lstrip`/`rstrip`, `lstrip(chars)`, `lower`, the `in` substring
    test, `startswith` and `splitlines`. Strings are sequences of Unicode
    code points, as in Python 3. */
module Text {

  /** Python's `str.isspace` for one code point: the characters `strip()`
      with no argument removes. */
  predicate IsSpace(c: char) {
    || c == ' '
    || ('\U{9}' <= c <= '\U{D}')
    || ('\U{1C}' <= c <= '\U{1F}')
    || c == '\U{85}' || c == '\U{A0}' || c == '\U{1680}'
    || ('\U{2000}' <= c <= '\U{200A}')
    || c == '\U{2028}' || c == '\U{2029}' || c == '\U{202F}'
    || c == '\U{205F}' || c == '\U{3000}'
  }

  /** The code points at which `str.splitlines` ends a line. */
  predicate IsLineBreak(c: char) {
    || c == '\n' || c == '\r' || c == '\U{B}' || c == '\U{C}'
    || ('\U{1C}' <= c <= '\U{1E}')
    || c == '\U{85}' || c == '\U{2028}' || c == '\U{2029}'
  }

  predicate AllSpace(s: string) {
    forall i :: 0 <= i < |s| ==> IsSpace(s[i])
  }

  predicate NoLineBreak(s: string) {
    forall i :: 0 <= i < |s| ==> !IsLineBreak(s[i])
  }

  /** No whitespace at either end: what `strip()` leaves. */
  predicate Trimmed(s: string) {
    s == [] || (!IsSpace(s[0]) && !IsSpace(s[|s| - 1]))
  }

  /** `s.lstrip()`: the suffix left after the leading whitespace. */
  function LStrip(s: string): (r: string)
    ensures |r| <= |s|
    ensures r == [] || !IsSpace(r[0])
    decreases |s|
  {
    if |s| > 0 && IsSpace(s[0]) then LStrip(s[1..]) else s
  }

  /** `lstrip()` keeps a suffix and what it cuts off is whitespace. */
  lemma {:induction false} LStripSpec(s: string)
    ensures LStrip(s) == s[|s| - |LStrip(s)|..]
    ensures AllSpace(s[..|s| - |LStrip(s)|])
    decreases |s|
  {
    if |s| > 0 && IsSpace(s[0]) {
      var r := LStrip(s[1..]);
      LStripSpec(s[1..]);
      assert s[1..][|s[1..]| - |r|..] == s[|s| - |r|..];
      assert s[1..][..|s[1..]| - |r|] == s[1..|s| - |r|];
    }
  }

  /** `s.rstrip()`: the prefix left before the trailing whitespace. */
  function RStrip(s: string): (r: string)
    ensures |r| <= |s|
    ensures r == [] || !IsSpace(r[|r| - 1])
    decreases |s|
  {
    if |s| > 0 && IsSpace(s[|s| - 1]) then RStrip(s[..|s| - 1]) else s
  }

  /** `rstrip()` keeps a prefix and what it cuts off is whitespace. */
  lemma {:induction false} RStripSpec(s: string)
    ensures RStrip(s) == s[..|RStrip(s)|]
    ensures AllSpace(s[|RStrip(s)|..])
    decreases |s|
  {
    if |s| > 0 && IsSpace(s[|s| - 1]) {
      var r := RStrip(s[..|s| - 1]);
      RStripSpec(s[..|s| - 1]);
      assert s[..|s| - 1][..|r|] == s[..|r|];
      assert s[..|s| - 1][|r|..] + [s[|s| - 1]] == s[|r|..];
    }
  }

  /** `s.strip()`. */
  function Strip(s: string): (r: string)
  {
    RStrip(LStrip(s))
  }

  /** The cut points of `strip()`: it keeps `s[i..j]` and everything it
      drops is whitespace. */
  lemma StripBounds(s: string) returns (i: nat, j: nat)
    ensures i <= j <= |s| && Strip(s) == s[i..j]
    ensures AllSpace(s[..i]) && AllSpace(s[j..])
  {
    var l := LStrip(s);
    var r := RStrip(l);
    i, j := |s| - |l|, |s| - |l| + |r|;
    LStripSpec(s);
    RStripSpec(l);
    assert s[j..] == l[|r|..];
    assert r == s[i..j];
  }

  /** `strip()` cuts a trimmed infix out of `s` and discards only whitespace;
      these facts determine the result uniquely. */
  lemma StripSpec(s: string)
    ensures Trimmed(Strip(s))
    ensures exists i, j :: 0 <= i <= j <= |s| && Strip(s) == s[i..j]
                          && AllSpace(s[..i]) && AllSpace(s[j..])
  {
    var l := LStrip(s);
    var r := RStrip(l);
    if r != [] {
      RStripSpec(l);
      assert r[0] == l[0];
    }
    var i, j := StripBounds(s);
  }

  /** Stripping twice is stripping once. */
  lemma StripIdempotent(s: string)
    ensures Strip(Strip(s)) == Strip(s)
  {
    StripSpec(s);
    var t := Strip(s);
    if t != [] {
      assert LStrip(t) == t;
      assert RStrip(t) == t;
    }
  }

  /** `s.lstrip(chars)`: drop leading code points that belong to `chars`. */
  function LStripChars(s: string, chars: set<char>): (r: string)
    ensures |r| <= |s|
    ensures r == [] || r[0] !in chars
    decreases |s|
  {
    if |s| > 0 && s[0] in chars then LStripChars(s[1..], chars) else s
  }

  /** `lstrip(chars)` keeps a suffix and cuts off only code points of `chars`. */
  lemma {:induction false} LStripCharsSpec(s: string, chars: set<char>)
    ensures LStripChars(s, chars) == s[|s| - |LStripChars(s, chars)|..]
    ensures forall i :: 0 <= i < |s| - |LStripChars(s, chars)| ==> s[i] in chars
    decreases |s|
  {
    if |s| > 0 && s[0] in chars {
      var r := LStripChars(s[1..], chars);
      LStripCharsSpec(s[1..], chars);
      assert s[1..][|s[1..]| - |r|..] == s[|s| - |r|..];
      forall i | 1 <= i < |s| - |r| ensures s[i] in chars {
        assert s[i] == s[1..][i - 1];
      }
    }
  }

  /** `str.lower` restricted to ASCII: only `A`-`Z` change. */
  function LowerChar(c: char): char {
    if 'A' <= c <= 'Z' then (c as int + 32) as char else c
  }

  function Lower(s: string): (r: string)
    ensures |r| == |s|
    decreases |s|
  {
    if s == [] then [] else [LowerChar(s[0])] + Lower(s[1..])
  }

  /** Lower-casing maps each character on its own. */
  lemma {:induction false} LowerPointwise(s: string)
    ensures forall i :: 0 <= i < |s| ==> Lower(s)[i] == LowerChar(s[i])
    decreases |s|
  {
    if s != [] {
      LowerPointwise(s[1..]);
      forall i | 1 <= i < |s| ensures Lower(s)[i] == LowerChar(s[i]) {
        assert Lower(s)[i] == Lower(s[1..])[i - 1];
      }
    }
  }

  /** Python's `k in t` for strings. */
  predicate Contains(t: string, k: string)
    decreases |t|
  {
    (|k| <= |t| && t[..|k|] == k) || (|t| > 0 && Contains(t[1..], k))
  }

  /** `k` occurs in `t` starting at offset `i`. */
  predicate OccursAt(t: string, k: string, i: int) {
    0 <= i && i + |k| <= |t| && t[i..i + |k|] == k
  }

  /** `k in t` holds exactly when `k` occurs at some offset of `t`. */
  lemma {:induction false} ContainsIff(t: string, k: string)
    ensures Contains(t, k) <==> exists i :: OccursAt(t, k, i)
    decreases |t|
  {
    if |t| > 0 {
      ContainsIff(t[1..], k);
      if Contains(t, k) {
        if |k| <= |t| && t[..|k|] == k {
          assert OccursAt(t, k, 0);
        } else {
          var i :| OccursAt(t[1..], k, i);
          assert t[i + 1..i + 1 + |k|] == t[1..][i..i + |k|];
          assert OccursAt(t, k, i + 1);
        }
      }
      if exists i :: OccursAt(t, k, i) {
        var i :| OccursAt(t, k, i);
        if i > 0 {
          assert t[1..][i - 1..i - 1 + |k|] == t[i..i + |k|];
          assert OccursAt(t[1..], k, i - 1);
        } else {
          assert t[..|k|] == k;
        }
        assert Contains(t, k);
      }
    } else {
      if exists i :: OccursAt(t, k, i) {
        var i :| OccursAt(t, k, i);
        assert k == [] == t[..|k|];
        assert Contains(t, k);
      }
      if Contains(t, k) {
        assert OccursAt(t, k, 0);
      }
    }
  }

  /** A string too short to hold `k` does not contain it. */
  lemma {:induction false} ContainsNeedsLength(t: string, k: string)
    requires Contains(t, k)
    ensures |k| <= |t|
    decreases |t|
  {
    if !(|k| <= |t| && t[..|k|] == k) {
      ContainsNeedsLength(t[1..], k);
    }
  }

  /** `s.startswith(p)`. */
  predicate StartsWith(s: string, p: string) {
    |p| <= |s| && s[..|p|] == p
  }

  /** The first line break at or after `i`, or `|s|`. */
  function LineEnd(s: string, i: nat): (j: nat)
    requires i <= |s|
    ensures i <= j <= |s|
    ensures j < |s| ==> IsLineBreak(s[j])
    decreases |s| - i
  {
    if i < |s| && !IsLineBreak(s[i]) then LineEnd(s, i + 1) else i
  }

  /** No line break comes before `LineEnd`. */
  lemma {:induction false} LineEndSkipsNoBreak(s: string, i: nat)
    requires i <= |s|
    ensures forall m :: i <= m < LineEnd(s, i) ==> !IsLineBreak(s[m])
    decreases |s| - i
  {
    if i < |s| && !IsLineBreak(s[i]) {
      LineEndSkipsNoBreak(s, i + 1);
    }
  }

  /** `s.splitlines()`: lines without their terminators; `\r\n` ends one
      line; a final terminator does not open an empty last line. */
  function SplitLines(s: string): (lines: seq<string>)
    decreases |s|
  {
    if s == [] then []
    else
      var j := LineEnd(s, 0);
      if j == |s| then [s]
      else
        var next := if s[j] == '\r' && j + 1 < |s| && s[j + 1] == '\n' then j + 2 else j + 1;
        [s[..j]] + SplitLines(s[next..])
  }

  /** No line that `splitlines` returns holds a line break. */
  lemma {:induction false} SplitLinesHaveNoBreaks(s: string)
    ensures forall l :: l in SplitLines(s) ==> NoLineBreak(l)
    decreases |s|
  {
    if s != [] {
      var j := LineEnd(s, 0);
      LineEndSkipsNoBreak(s, 0);
      if j < |s| {
        var next := if s[j] == '\r' && j + 1 < |s| && s[j + 1] == '\n' then j + 2 else j + 1;
        SplitLinesHaveNoBreaks(s[next..]);
      }
    }
  }

  /** Lines each followed by `\n`, as a model reply written line by line. */
  function Terminated(lines: seq<string>): string
  {
    if lines == [] then "" else lines[0] + "\n" + Terminated(lines[1..])
  }

  /** `splitlines` undoes writing break-free lines one per line. */
  lemma {:induction false} SplitLinesOfTerminated(lines: seq<string>)
    requires forall l :: l in lines ==> NoLineBreak(l)
    ensures SplitLines(Terminated(lines)) == lines
  {
    if lines != [] {
      var l := lines[0];
      assert l in lines;
      var s := Terminated(lines);
      assert s == l + "\n" + Terminated(lines[1..]);
      assert s[|l|] == '\n';
      assert forall m :: 0 <= m < |l| ==> s[m] == l[m];
      assert forall m :: 0 <= m < |l| ==> !IsLineBreak(s[m]);
      var j := LineEnd(s, 0);
      LineEndSkipsNoBreak(s, 0);
      assert j == |l|;
      assert s[..j] == l;
      assert s[j + 1..] == Terminated(lines[1..]);
      SplitLinesOfTerminated(lines[1..]);
    }
  }
}
