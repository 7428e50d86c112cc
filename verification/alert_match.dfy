/**
 * The alert pattern of the preprocessor, written as an explicit scanner:
 *
 *   ^>\s*\[!(NOTE|TIP|IMPORTANT|WARNING|CAUTION)\]\s*\n((?:>.*(?:\n|$))*)
 *
 * compiled with MULTILINE and IGNORECASE. `^` holds at index 0 and after
 * every line break; `\s` also matches line breaks; `.` matches anything
 * but a line break.
 */
module AlertMatch {
  import opened Wrappers
  import opened Text
  import opened AlertKinds

  /** A successful match: the kind, where its token (group 1) starts, and
      the index range `[bodyStart, end)` of the quoted body (group 2). The
      whole match is `[p, end)` for the position `p` it was tried at. */
  datatype Match = Match(kind: Kind, kindStart: nat, bodyStart: nat, end: nat)

  /** `^` under MULTILINE. */
  predicate LineStart(s: string, p: nat) {
    p == 0 || (0 < p <= |s| && s[p - 1] == '\n')
  }

  /** `k` starts a line of the text that begins at `b`. */
  predicate LineStartFrom(s: string, b: nat, k: nat) {
    k == b || (0 < k <= |s| && s[k - 1] == '\n')
  }

  /** Every line starting in `[b, e)` begins with `>`. */
  ghost predicate QuotedLines(s: string, b: nat, e: nat)
    requires b <= e <= |s|
  {
    forall k {:trigger LineStartFrom(s, b, k)} :: b <= k < e && LineStartFrom(s, b, k) ==> s[k] == '>'
  }

  /** `e` ends the greedy run `(?:>.*(?:\n|$))*` that starts at `b`: all
      lines in between are quoted, `e` is a line boundary, and the line at
      `e` (if any) is not quoted. */
  ghost predicate IsBodyEnd(s: string, b: nat, e: nat) {
    && b <= e <= |s|
    && QuotedLines(s, b, e)
    && (e == |s| || LineStartFrom(s, b, e))
    && (e == |s| || s[e] != '>')
  }

  /** The greedy run of quoted lines starting at `b`; each line takes its
      line break with it, and the last one may end at the end of the text. */
  function BodyEnd(s: string, b: nat): (e: nat)
    requires b <= |s|
    ensures IsBodyEnd(s, b, e)
    decreases |s| - b
  {
    if b < |s| && s[b] == '>' then
      var j := FindNewline(s, b);
      BodyEnd(s, if j < |s| then j + 1 else |s|)
    else b
  }

  /** Only one index ends the run of quoted lines. */
  lemma BodyEndUnique(s: string, b: nat, e: nat)
    requires IsBodyEnd(s, b, e)
    ensures BodyEnd(s, b) == e
  {
    var r := BodyEnd(s, b);
    assert IsBodyEnd(s, b, r);
  }

  /** `^>\s*\[!KIND\]` at `p`, with the kind token starting at `q`. The
      `\s*` may run over line breaks. */
  ghost predicate IsMarker(s: string, p: nat, k: Kind, q: nat) {
    && LineStart(s, p)
    && p + 3 <= q <= |s|
    && s[p] == '>'
    && AllSpace(s, p + 1, q - 2)
    && s[q - 2] == '[' && s[q - 1] == '!'
    && KindTokenAt(s, q, k)
  }

  /** The opening of the pattern tried at `p`: the kind and where its token
      starts. */
  function MarkerAt(s: string, p: nat): (r: Option<(Kind, nat)>)
    requires p <= |s|
    ensures r.Some? ==> p + 3 <= r.value.1 && r.value.1 + |Name(r.value.0)| < |s|
  {
    if !(LineStart(s, p) && p < |s| && s[p] == '>') then None
    else TokenAfter(s, SkipSpaces(s, p + 1))
  }

  /** `\[!KIND\]` at `q`: the kind and where its token starts. */
  function TokenAfter(s: string, q: nat): (r: Option<(Kind, nat)>)
    requires q <= |s|
    ensures r.Some? ==> r.value.1 == q + 2 && r.value.1 + |Name(r.value.0)| < |s|
  {
    if !(q + 2 <= |s| && s[q] == '[' && s[q + 1] == '!') then None
    else match KindAt(s, q + 2)
      case None => None
      case Some(k) => Some((k, q + 2))
  }

  /** The marker opening is unique where it exists, and found when it does. */
  lemma MarkerAtExact(s: string, p: nat, k: Kind, q: nat)
    requires p <= |s|
    ensures MarkerAt(s, p) == Some((k, q)) <==> IsMarker(s, p, k, q)
  {
    if IsMarker(s, p, k, q) {
      MarkerAtComplete(s, p, k, q);
    }
    if MarkerAt(s, p) == Some((k, q)) {
      MarkerAtSound(s, p, k, q);
    }
  }

  lemma MarkerAtComplete(s: string, p: nat, k: Kind, q: nat)
    requires p <= |s|
    requires IsMarker(s, p, k, q)
    ensures MarkerAt(s, p) == Some((k, q))
  {
    assert !IsSpace(s[q - 2]);
    SkipSpacesUnique(s, p + 1, q - 2);
    assert KindAt(s, q) == Some(k);
    assert TokenAfter(s, q - 2) == Some((k, q));
  }

  lemma MarkerAtSound(s: string, p: nat, k: Kind, q: nat)
    requires p <= |s|
    requires MarkerAt(s, p) == Some((k, q))
    ensures IsMarker(s, p, k, q)
  {
    var q' := SkipSpaces(s, p + 1);
    assert TokenAfter(s, q') == Some((k, q));
    assert KindAt(s, q) == Some(k);
  }

  /** `\s*\n` tried right after the `]` at `c`: the greedy run of whitespace
      is given back down to its last line break, and the body starts after
      it. Fails when the run holds no line break. */
  function BreakAfter(s: string, c: nat): (r: Option<nat>)
    requires c < |s|
    ensures r.Some? ==> c + 1 < r.value <= |s|
  {
    match LastIndexIn(s, '\n', c + 1, SkipSpaces(s, c + 1))
    case None => None
    case Some(n) => Some(n + 1)
  }

  /** The body starts at `b` after the `]` at `c`: only whitespace lies
      between, ending with a line break, and no further line break follows
      before the first non-whitespace character. */
  ghost predicate IsBreakAfter(s: string, c: nat, b: nat) {
    && c + 1 < b <= |s|
    && AllSpace(s, c + 1, b)
    && s[b - 1] == '\n'
    && NoNewline(s, b, SkipSpaces(s, b))
  }

  lemma BreakAfterExact(s: string, c: nat, b: nat)
    requires c < |s|
    ensures BreakAfter(s, c) == Some(b) <==> IsBreakAfter(s, c, b)
  {
    if BreakAfter(s, c) == Some(b) {
      BreakAfterSound(s, c, b);
    }
    if IsBreakAfter(s, c, b) {
      BreakAfterComplete(s, c, b);
    }
  }

  lemma BreakAfterSound(s: string, c: nat, b: nat)
    requires c < |s|
    requires BreakAfter(s, c) == Some(b)
    ensures IsBreakAfter(s, c, b)
  {
    var t := SkipSpaces(s, c + 1);
    assert LastIndexIn(s, '\n', c + 1, t) == Some(b - 1);
    SkipSpacesUnique(s, b, t);
  }

  lemma BreakAfterComplete(s: string, c: nat, b: nat)
    requires c < |s|
    requires IsBreakAfter(s, c, b)
    ensures BreakAfter(s, c) == Some(b)
  {
    var t := SkipSpaces(s, c + 1);
    var u := SkipSpaces(s, b);
    assert AllSpace(s, c + 1, u);
    SkipSpacesUnique(s, c + 1, u);
    LastIndexInIs(s, '\n', c + 1, t, b - 1);
  }

  /** The whole pattern, stated declaratively: `m` is a match tried at `p`. */
  ghost predicate IsMatch(s: string, p: nat, m: Match) {
    && IsMarker(s, p, m.kind, m.kindStart)
    && m.kindStart + |Name(m.kind)| < |s|
    && IsBreakAfter(s, m.kindStart + |Name(m.kind)|, m.bodyStart)
    && IsBodyEnd(s, m.bodyStart, m.end)
  }

  /** The pattern tried at position `p`. */
  function MatchAt(s: string, p: nat): (r: Option<Match>)
    requires p <= |s|
    ensures r.Some? ==> p < r.value.kindStart && r.value.kindStart + |Name(r.value.kind)| < r.value.bodyStart <= r.value.end <= |s|
  {
    match MarkerAt(s, p)
    case None => None
    case Some((k, q)) => MatchAfterMarker(s, k, q)
  }

  /** The rest of the pattern once the kind token `k` was found at `q`: the
      line break and the body. */
  function MatchAfterMarker(s: string, k: Kind, q: nat): (r: Option<Match>)
    requires q + |Name(k)| < |s|
    ensures r.Some? ==> r.value.kind == k && r.value.kindStart == q
    ensures r.Some? ==> q + |Name(k)| < r.value.bodyStart <= r.value.end <= |s|
  {
    match BreakAfter(s, q + |Name(k)|)
    case None => None
    case Some(b) => Some(Match(k, q, b, BodyEnd(s, b)))
  }

  /** The scanner finds exactly the declarative matches: it answers `m`
      precisely when `m` is a match at `p`. */
  lemma MatchAtExact(s: string, p: nat, m: Match)
    requires p <= |s|
    ensures MatchAt(s, p) == Some(m) <==> IsMatch(s, p, m)
  {
    if IsMatch(s, p, m) {
      MatchAtComplete(s, p, m);
    }
    if MatchAt(s, p) == Some(m) {
      MatchAtSound(s, p, m);
    }
  }

  lemma MatchAtComplete(s: string, p: nat, m: Match)
    requires p <= |s|
    requires IsMatch(s, p, m)
    ensures MatchAt(s, p) == Some(m)
  {
    MarkerAtComplete(s, p, m.kind, m.kindStart);
    AfterMarkerComplete(s, m);
  }

  lemma AfterMarkerComplete(s: string, m: Match)
    requires m.kindStart + |Name(m.kind)| < |s|
    requires IsBreakAfter(s, m.kindStart + |Name(m.kind)|, m.bodyStart)
    requires IsBodyEnd(s, m.bodyStart, m.end)
    ensures MatchAfterMarker(s, m.kind, m.kindStart) == Some(m)
  {
    BreakAfterComplete(s, m.kindStart + |Name(m.kind)|, m.bodyStart);
    BodyEndUnique(s, m.bodyStart, m.end);
  }

  lemma MatchAtSound(s: string, p: nat, m: Match)
    requires p <= |s|
    requires MatchAt(s, p) == Some(m)
    ensures IsMatch(s, p, m)
  {
    assert MarkerAt(s, p) == Some((m.kind, m.kindStart));
    MarkerAtSound(s, p, m.kind, m.kindStart);
    AfterMarkerSound(s, m);
  }

  lemma AfterMarkerSound(s: string, m: Match)
    requires m.kindStart + |Name(m.kind)| < |s|
    requires MatchAfterMarker(s, m.kind, m.kindStart) == Some(m)
    ensures IsBreakAfter(s, m.kindStart + |Name(m.kind)|, m.bodyStart)
    ensures IsBodyEnd(s, m.bodyStart, m.end)
  {
    var c := m.kindStart + |Name(m.kind)|;
    assert BreakAfter(s, c) == Some(m.bodyStart);
    BreakAfterSound(s, c, m.bodyStart);
  }

  /** A match can only start at the beginning of a line that opens with `>`. */
  lemma MatchNeedsQuote(s: string, p: nat)
    requires p <= |s|
    requires MatchAt(s, p).Some?
    ensures LineStart(s, p) && p < |s| && s[p] == '>'
  {
  }
}
