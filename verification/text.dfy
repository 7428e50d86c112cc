/**
 * The parts of Python's `str` that the alert preprocessor relies on:
 * the whitespace class shared by `\s`, `str.isspace` and `str.strip`,
 * `split("\n")` / `"\n".join`, `strip()`, and ASCII case mapping.
 */
module Text {
  import opened Wrappers

  /** Python's whitespace test (`Py_UNICODE_ISSPACE`): the class matched by
      the regex `\s` on `str` patterns and removed by `str.strip()`. */
  predicate IsSpace(c: char) {
    || ('\t' <= c <= '\r')              // \t \n \v \f \r
    || ('\U{1C}' <= c <= '\U{1F}')      // file, group, record, unit separators
    || c == ' '
    || c == '\U{85}' || c == '\U{A0}' || c == '\U{1680}'
    || ('\U{2000}' <= c <= '\U{200A}')
    || c == '\U{2028}' || c == '\U{2029}' || c == '\U{202F}' || c == '\U{205F}'
    || c == '\U{3000}'
  }

  ghost predicate AllSpace(s: string, i: nat, j: nat)
    requires i <= j <= |s|
  {
    forall k :: i <= k < j ==> IsSpace(s[k])
  }

  ghost predicate NoNewline(s: string, i: nat, j: nat)
    requires i <= j <= |s|
  {
    forall k :: i <= k < j ==> s[k] != '\n'
  }

  /** The end of the longest run of whitespace starting at `i`: what a greedy
      `\s*` consumes. */
  function SkipSpaces(s: string, i: nat): (j: nat)
    requires i <= |s|
    ensures i <= j <= |s|
    ensures AllSpace(s, i, j)
    ensures j == |s| || !IsSpace(s[j])
    decreases |s| - i
  {
    if i < |s| && IsSpace(s[i]) then SkipSpaces(s, i + 1) else i
  }

  /** The whitespace run is determined by its two defining properties. */
  lemma SkipSpacesUnique(s: string, i: nat, j: nat)
    requires i <= j <= |s|
    requires AllSpace(s, i, j)
    requires j == |s| || !IsSpace(s[j])
    ensures SkipSpaces(s, i) == j
  {
  }

  /** The index of the first `'\n'` at or after `i`, or `|s|` if there is none. */
  function FindNewline(s: string, i: nat): (j: nat)
    requires i <= |s|
    ensures i <= j <= |s|
    ensures NoNewline(s, i, j)
    ensures j == |s| || s[j] == '\n'
    decreases |s| - i
  {
    if i == |s| || s[i] == '\n' then i else FindNewline(s, i + 1)
  }

  lemma FindNewlineUnique(s: string, i: nat, j: nat)
    requires i <= j <= |s|
    requires NoNewline(s, i, j)
    requires j == |s| || s[j] == '\n'
    ensures FindNewline(s, i) == j
  {
  }

  /** `"\n".join(lines)`. */
  function Join(lines: seq<string>): string
  {
    if |lines| == 0 then ""
    else if |lines| == 1 then lines[0]
    else lines[0] + "\n" + Join(lines[1..])
  }

  predicate LineFree(line: string) {
    forall k :: 0 <= k < |line| ==> line[k] != '\n'
  }

  ghost predicate AllLineFree(lines: seq<string>) {
    forall i :: 0 <= i < |lines| ==> LineFree(lines[i])
  }

  /** `s.split("\n")`: never empty, made of newline-free pieces, and
      joining the pieces back with `"\n"` gives `s` again. */
  function Split(s: string): (lines: seq<string>)
    ensures |lines| >= 1
    ensures AllLineFree(lines)
    ensures Join(lines) == s
    decreases |s|
  {
    var j := FindNewline(s, 0);
    if j == |s| then [s]
    else
      var rest := Split(s[j + 1..]);
      assert ([s[..j]] + rest)[1..] == rest;
      assert s == s[..j] + "\n" + s[j + 1..];
      [s[..j]] + rest
  }

  /** Splitting undoes joining: a list of newline-free lines is exactly what
      `split("\n")` recovers from their join. */
  lemma {:induction false} SplitJoin(lines: seq<string>)
    requires |lines| >= 1
    requires AllLineFree(lines)
    ensures Split(Join(lines)) == lines
    decreases |lines|
  {
    var s := Join(lines);
    if |lines| == 1 {
      FindNewlineUnique(s, 0, |s|);
    } else {
      var head := lines[0];
      var rest := lines[1..];
      assert s == head + "\n" + Join(rest);
      assert LineFree(head);
      assert NoNewline(s, 0, |head|) by {
        forall k | 0 <= k < |head| ensures s[k] != '\n' {
          assert s[k] == head[k];
        }
      }
      FindNewlineUnique(s, 0, |head|);
      assert s[..|head|] == head;
      assert s[|head| + 1..] == Join(rest);
      SplitJoin(rest);
    }
  }

  /** Appending one line to a non-empty list appends `"\n" + line` to the join. */
  lemma {:induction false} JoinSnoc(lines: seq<string>, last: string)
    requires |lines| >= 1
    ensures Join(lines + [last]) == Join(lines) + "\n" + last
    decreases |lines|
  {
    if |lines| == 1 {
      assert (lines + [last])[1..] == [last];
    } else {
      assert (lines + [last])[1..] == lines[1..] + [last];
      JoinSnoc(lines[1..], last);
    }
  }

  /** The index range `[a, b)` that `strip()` keeps. */
  function StripBounds(s: string): (ab: (nat, nat))
    ensures ab.0 <= ab.1 <= |s|
    ensures AllSpace(s, 0, ab.0) && AllSpace(s, ab.1, |s|)
    ensures ab.0 < ab.1 ==> !IsSpace(s[ab.0]) && !IsSpace(s[ab.1 - 1])
  {
    var a := SkipSpaces(s, 0);
    (a, TrimEnd(s, a, |s|))
  }

  /** The largest `j <= hi` such that `s[j..hi]` is whitespace, not going below `lo`. */
  function TrimEnd(s: string, lo: nat, hi: nat): (j: nat)
    requires lo <= hi <= |s|
    ensures lo <= j <= hi
    ensures AllSpace(s, j, hi)
    ensures j > lo ==> !IsSpace(s[j - 1])
    decreases hi - lo
  {
    if hi > lo && IsSpace(s[hi - 1]) then TrimEnd(s, lo, hi - 1) else hi
  }

  /** `s.strip()`: a contiguous piece of `s`, with only whitespace cut from
      either side, and neither starting nor ending with whitespace. */
  function Strip(s: string): (t: string)
    ensures |t| <= |s|
    ensures |t| > 0 ==> !IsSpace(t[0]) && !IsSpace(t[|t| - 1])
    ensures |t| == 0 ==> AllSpace(s, 0, |s|)
    ensures exists a :: 0 <= a <= |s| - |t| && IsPieceAt(s, a, t) && AllSpace(s, 0, a) && AllSpace(s, a + |t|, |s|)
  {
    var (a, b) := StripBounds(s);
    assert IsPieceAt(s, a, s[a..b]);
    s[a..b]
  }

  /** `t` sits in `s` at index `a`. */
  ghost predicate IsPieceAt(s: string, a: nat, t: string)
  {
    a + |t| <= |s| && s[a..a + |t|] == t
  }

  /** `strip()` is characterised by its result: whatever whitespace surrounds
      a text that neither starts nor ends with whitespace is removed, and
      nothing else. */
  lemma StripExact(w1: string, t: string, w2: string)
    requires AllSpace(w1, 0, |w1|) && AllSpace(w2, 0, |w2|)
    requires |t| > 0 ==> !IsSpace(t[0]) && !IsSpace(t[|t| - 1])
    ensures Strip(w1 + t + w2) == t
  {
    var s := w1 + t + w2;
    if |t| == 0 {
      assert AllSpace(s, 0, |s|) by {
        forall k | 0 <= k < |s| ensures IsSpace(s[k]) {
          if k < |w1| { assert s[k] == w1[k]; } else { assert s[k] == w2[k - |w1|]; }
        }
      }
      SkipSpacesUnique(s, 0, |s|);
    } else {
      assert AllSpace(s, 0, |w1|) by {
        forall k | 0 <= k < |w1| ensures IsSpace(s[k]) { assert s[k] == w1[k]; }
      }
      assert s[|w1|] == t[0];
      SkipSpacesUnique(s, 0, |w1|);
      var b := |w1| + |t|;
      assert s[b - 1] == t[|t| - 1];
      assert AllSpace(s, b, |s|) by {
        forall k | b <= k < |s| ensures IsSpace(s[k]) { assert s[k] == w2[k - b]; }
      }
      assert TrimEnd(s, |w1|, |s|) == b;
      assert s[|w1|..b] == t;
    }
  }

  /** Whitespace appended to a text does not change its stripped form. */
  lemma StripAppendSpace(s: string, w: string)
    requires AllSpace(w, 0, |w|)
    ensures Strip(s + w) == Strip(s)
  {
    var ab := StripBounds(s);
    StripAppendCore(s, w, ab.0, ab.1);
  }

  /** `s + w` strips to the piece `[a, b)` that `s` strips to. */
  lemma StripAppendCore(s: string, w: string, a: nat, b: nat)
    requires AllSpace(w, 0, |w|)
    requires a <= b <= |s| && AllSpace(s, 0, a) && AllSpace(s, b, |s|)
    requires a < b ==> !IsSpace(s[a]) && !IsSpace(s[b - 1])
    ensures Strip(s + w) == s[a..b]
  {
    var pre, t, post := s[..a], s[a..b], s[b..];
    SplitThree(s, a, b);
    AllSpacePiece(s, 0, a, pre);
    AllSpacePiece(s, b, |s|, post);
    PieceEnds(s, a, b, t);
    AllSpaceConcat(post, w);
    AppendAssoc(pre, t, post, w);
    StripExact(pre, t, post + w);
  }

  /** A piece that starts and ends with non-whitespace characters. */
  lemma PieceEnds(s: string, a: nat, b: nat, t: string)
    requires a <= b <= |s| && t == s[a..b]
    requires a < b ==> !IsSpace(s[a]) && !IsSpace(s[b - 1])
    ensures |t| > 0 ==> !IsSpace(t[0]) && !IsSpace(t[|t| - 1])
  {
  }

  lemma SplitThree(s: string, a: nat, b: nat)
    requires a <= b <= |s|
    ensures s == s[..a] + s[a..b] + s[b..]
  {
  }

  lemma AppendAssoc(x: string, y: string, z: string, w: string)
    ensures x + y + z + w == x + y + (z + w)
  {
  }

  lemma AllSpacePiece(s: string, i: nat, j: nat, u: string)
    requires i <= j <= |s| && AllSpace(s, i, j) && u == s[i..j]
    ensures AllSpace(u, 0, |u|)
  {
    forall k | 0 <= k < |u| ensures IsSpace(u[k]) {
      assert u[k] == s[i + k];
    }
  }

  lemma AllSpaceConcat(u: string, v: string)
    requires AllSpace(u, 0, |u|) && AllSpace(v, 0, |v|)
    ensures AllSpace(u + v, 0, |u + v|)
  {
    forall k | 0 <= k < |u + v| ensures IsSpace((u + v)[k]) {
      if k < |u| { assert (u + v)[k] == u[k]; } else { assert (u + v)[k] == v[k - |u|]; }
    }
  }

  /** ASCII lower-casing of one character; other characters are unchanged. */
  function LowerChar(c: char): char {
    if 'A' <= c <= 'Z' then (c as int + 32) as char else c
  }

  /** ASCII upper-casing of one character; other characters are unchanged. */
  function UpperChar(c: char): char {
    if 'a' <= c <= 'z' then (c as int - 32) as char else c
  }

  /** `s.lower()` restricted to ASCII letters. */
  function Lower(s: string): string {
    seq(|s|, i requires 0 <= i < |s| => LowerChar(s[i]))
  }

  /** `s.capitalize()` restricted to ASCII letters. */
  function Capitalize(s: string): string {
    if |s| == 0 then "" else [UpperChar(s[0])] + Lower(s[1..])
  }

  /** Equality under the regex `IGNORECASE` flag, for ASCII letters. */
  predicate EqualsIgnoreCase(a: string, b: string) {
    Lower(a) == Lower(b)
  }

  /** `s.rfind(c, i, j)`: the last index in `[i, j)` holding `c`, if any. */
  function LastIndexIn(s: string, c: char, i: nat, j: nat): (r: Option<nat>)
    requires i <= j <= |s|
    ensures r.Some? ==> i <= r.value < j && s[r.value] == c
    ensures forall k :: (if r.Some? then r.value + 1 else i) <= k < j ==> s[k] != c
    decreases j - i
  {
    if j == i then None
    else if s[j - 1] == c then Some(j - 1)
    else LastIndexIn(s, c, i, j - 1)
  }

  /** An occurrence of `c` with none after it below `j` is the last one. */
  lemma LastIndexInIs(s: string, c: char, i: nat, j: nat, k: nat)
    requires i <= k < j <= |s|
    requires s[k] == c
    requires forall x :: k < x < j ==> s[x] != c
    ensures LastIndexIn(s, c, i, j) == Some(k)
  {
    var r := LastIndexIn(s, c, i, j);
    assert r.Some?;
    assert s[r.value] == c;
  }

  /** Lowercase letters are left as they are. */
  lemma LowerOfLowercase(s: string)
    requires forall i :: 0 <= i < |s| ==> 'a' <= s[i] <= 'z'
    ensures Lower(s) == s
  {
  }
}
