/**
 * Alerts as they are written in Markdown, and what the preprocessing pass
 * turns them into.
 */
module AlertSources {
  import opened Wrappers
  import opened Text
  import opened AlertKinds
  import opened AlertMatch
  import opened AlertBody
  import opened Substitution
  import opened Alerts

  /** An alert as written: `>`, optional whitespace, `[!token]`, optional
      whitespace up to and including a line break, then the body lines,
      each quoted with `> ` and ended by a line break. */
  function AlertSource(lead: string, token: string, gap: string, lines: seq<string>): string {
    ">" + lead + "[!" + token + "]" + gap + "\n" + QuoteLines(lines)
  }

  /** An alert with a single body line, spelled out. */
  lemma OneLineSource(lead: string, token: string, gap: string, line: string)
    ensures AlertSource(lead, token, gap, [line]) == ">" + lead + "[!" + token + "]" + gap + "\n> " + line + "\n"
  {
    assert [line][1..] == [];
    assert QuoteLines([line]) == "> " + line + "\n";
  }

  /** In a quoted block every line opens with `>`, and the block ends with
      a line break. */
  lemma {:induction false} QuoteLinesQuoted(lines: seq<string>)
    requires AllLineFree(lines)
    ensures var t := QuoteLines(lines);
      forall k :: 0 <= k < |t| && (k == 0 || t[k - 1] == '\n') ==> t[k] == '>'
    ensures |lines| > 0 ==> |QuoteLines(lines)| > 0 && QuoteLines(lines)[|QuoteLines(lines)| - 1] == '\n'
    decreases |lines|
  {
    if |lines| > 0 {
      var head := Quote(lines[0]) + "\n";
      var rest := QuoteLines(lines[1..]);
      var t := QuoteLines(lines);
      assert t == head + rest;
      assert AllLineFree(lines[1..]) by {
        forall i | 0 <= i < |lines[1..]| ensures LineFree(lines[1..][i]) {
          assert lines[1..][i] == lines[i + 1];
        }
      }
      QuoteLinesQuoted(lines[1..]);
      assert LineFree(lines[0]);
      forall j | 0 <= j < |head| - 1 ensures t[j] != '\n' {
        assert t[j] == head[j];
        if j >= 2 {
          assert head[j] == lines[0][j - 2];
        }
      }
      forall k | 0 <= k < |t| && (k == 0 || t[k - 1] == '\n') ensures t[k] == '>' {
        if k >= |head| {
          assert t[k] == rest[k - |head|];
          if k > |head| {
            assert t[k - 1] == rest[k - 1 - |head|];
          }
        }
      }
    }
  }

  /** A piece of `s` that is a quoted block makes the quoted lines of a
      match body. */
  lemma QuotedLinesAt(s: string, b: nat, e: nat, lines: seq<string>)
    requires AllLineFree(lines) && |lines| > 0
    requires e == b + |QuoteLines(lines)| <= |s|
    requires s[b..e] == QuoteLines(lines)
    ensures QuotedLines(s, b, e)
    ensures s[e - 1] == '\n'
  {
    var t := QuoteLines(lines);
    QuoteLinesQuoted(lines);
    forall k | b <= k < b + |t| && LineStartFrom(s, b, k) ensures s[k] == '>' {
      assert s[k] == t[k - b];
      if k > b {
        assert s[k - 1] == t[k - 1 - b];
      }
    }
    assert s[b + |t| - 1] == t[|t| - 1];
  }

  /** The conditions under which an alert is written well: the whitespace
      is whitespace, the token names kind `k` in some letter case, and the
      body has at least one line. */
  ghost predicate WellWritten(lead: string, token: string, gap: string, lines: seq<string>, k: Kind) {
    && AllSpace(lead, 0, |lead|)
    && EqualsIgnoreCase(token, Name(k))
    && AllSpace(gap, 0, |gap|)
    && |lines| > 0 && AllLineFree(lines)
  }

  /** Where the opening of a written alert sits: the kind token starts at
      `q` and the `]` is at `c`. */
  lemma LayoutHead(lead: string, token: string, gap: string, lines: seq<string>, q: nat, c: nat)
    requires q == 3 + |lead| && c == q + |token|
    ensures var src := AlertSource(lead, token, gap, lines);
      && c < |src|
      && src[0] == '>'
      && src[1..q - 2] == lead
      && src[q - 2] == '[' && src[q - 1] == '!'
      && src[q..c] == token
      && src[c] == ']'
  {
    var src := AlertSource(lead, token, gap, lines);
    var head := ">" + lead + "[!" + token + "]";
    assert src == head + (gap + "\n" + QuoteLines(lines));
    assert head == ">" + lead + "[!" + token + "]";
  }

  /** Where the rest of a written alert sits: the whitespace and line break
      after the `]` at `c`, then the body from `b` to the end. */
  lemma LayoutTail(lead: string, token: string, gap: string, lines: seq<string>, c: nat, b: nat)
    requires c == 3 + |lead| + |token| && b == c + |gap| + 2
    ensures var src := AlertSource(lead, token, gap, lines);
      && |src| == b + |QuoteLines(lines)|
      && src[c + 1..b] == gap + "\n"
      && src[b..] == QuoteLines(lines)
      && (|lines| > 0 ==> b < |src| && src[b] == '>')
  {
    var src := AlertSource(lead, token, gap, lines);
    var head := ">" + lead + "[!" + token + "]";
    assert |head| == c + 1;
    assert src == head + (gap + "\n") + QuoteLines(lines);
    if |lines| > 0 {
      assert QuoteLines(lines)[0] == '>';
    }
  }

  lemma AllSpaceAt(s: string, i: nat, w: string)
    requires i + |w| <= |s| && s[i..i + |w|] == w
    requires AllSpace(w, 0, |w|)
    ensures AllSpace(s, i, i + |w|)
  {
    forall k | i <= k < i + |w| ensures IsSpace(s[k]) {
      assert s[k] == w[k - i];
    }
  }

  /** A piece of a piece of `s` is a piece of `s`. */
  lemma SubSlice(s: string, p: nat, src: string, i: nat, j: nat)
    requires p + |src| <= |s| && s[p..p + |src|] == src
    requires p <= i <= j <= p + |src|
    ensures s[i..j] == src[i - p..j - p]
  {
    forall k | 0 <= k < j - i ensures s[i..j][k] == src[i - p..j - p][k] {
      assert src[i - p..j - p][k] == src[i - p + k] == s[p..p + |src|][i - p + k];
    }
  }

  lemma SubChar(s: string, p: nat, src: string, i: nat)
    requires p + |src| <= |s| && s[p..p + |src|] == src
    requires p <= i < p + |src|
    ensures s[i] == src[i - p]
  {
    assert s[p..p + |src|][i - p] == s[i];
  }

  /** The opening `>`, whitespace, `[!` and the kind token followed by `]`,
      found in place, make the marker of a match. */
  lemma MarkerFromParts(s: string, p: nat, lead: string, token: string, k: Kind, q: nat, c: nat)
    requires LineStart(s, p)
    requires AllSpace(lead, 0, |lead|) && EqualsIgnoreCase(token, Name(k))
    requires q == p + 3 + |lead| && c == q + |token| < |s|
    requires s[p] == '>' && s[p + 1..q - 2] == lead
    requires s[q - 2] == '[' && s[q - 1] == '!' && s[q..c] == token && s[c] == ']'
    ensures |token| == |Name(k)|
    ensures IsMarker(s, p, k, q)
  {
    assert |Lower(token)| == |Lower(Name(k))|;
    AllSpaceAt(s, p + 1, lead);
  }

  /** Whitespace and a line break after the `]` at `c`, followed by a
      quoted line, make the line break of a match. */
  lemma BreakFromParts(s: string, c: nat, gap: string, b: nat)
    requires AllSpace(gap, 0, |gap|)
    requires b == c + |gap| + 2 && b < |s|
    requires s[c + 1..b] == gap + "\n"
    requires s[b] == '>'
    ensures IsBreakAfter(s, c, b)
  {
    var w := gap + "\n";
    assert AllSpace(w, 0, |w|) by {
      forall i | 0 <= i < |w| ensures IsSpace(w[i]) {
        if i < |gap| { assert w[i] == gap[i]; }
      }
    }
    AllSpaceAt(s, c + 1, w);
    assert s[b - 1] == w[|gap|];
    SkipSpacesUnique(s, b, b);
  }

  /** The positions inside `s` of the parts of a written alert placed at
      `p`: the kind token at `q`, the `]` at `c`, the body from `b` to `e`. */
  ghost predicate Positions(p: nat, lead: string, token: string, gap: string, lines: seq<string>,
                            q: nat, c: nat, b: nat, e: nat) {
    q == p + 3 + |lead| && c == q + |token| && b == c + |gap| + 2
    && e == p + |AlertSource(lead, token, gap, lines)|
  }

  lemma SourceMarker(s: string, p: nat, lead: string, token: string, gap: string, lines: seq<string>, k: Kind,
                     q: nat, c: nat, b: nat, e: nat)
    requires WellWritten(lead, token, gap, lines, k)
    requires LineStart(s, p)
    requires IsPieceAt(s, p, AlertSource(lead, token, gap, lines))
    requires Positions(p, lead, token, gap, lines, q, c, b, e)
    ensures |token| == |Name(k)|
    ensures IsMarker(s, p, k, q)
  {
    HeadMarks(s, p, lead, token, gap, lines, q, c);
    HeadLead(s, p, lead, token, gap, lines, q, c);
    HeadToken(s, p, lead, token, gap, lines, q, c);
    MarkerFromParts(s, p, lead, token, k, q, c);
  }

  /** The punctuation of a written alert's opening, found in `s`. */
  lemma HeadMarks(s: string, p: nat, lead: string, token: string, gap: string, lines: seq<string>, q: nat, c: nat)
    requires IsPieceAt(s, p, AlertSource(lead, token, gap, lines))
    requires q == p + 3 + |lead| && c == q + |token|
    ensures c < |s| && s[p] == '>' && s[q - 2] == '[' && s[q - 1] == '!' && s[c] == ']'
  {
    var src := AlertSource(lead, token, gap, lines);
    var q0, c0 := q - p, c - p;
    LayoutHead(lead, token, gap, lines, q0, c0);
    SubChar(s, p, src, p + 0);
    SubChar(s, p, src, p + (q0 - 2));
    SubChar(s, p, src, p + (q0 - 1));
    SubChar(s, p, src, p + c0);
  }

  /** The whitespace of a written alert's opening, found in `s`. */
  lemma HeadLead(s: string, p: nat, lead: string, token: string, gap: string, lines: seq<string>, q: nat, c: nat)
    requires IsPieceAt(s, p, AlertSource(lead, token, gap, lines))
    requires q == p + 3 + |lead| && c == q + |token|
    ensures s[p + 1..q - 2] == lead
  {
    var src := AlertSource(lead, token, gap, lines);
    var q0, c0 := q - p, c - p;
    LayoutHead(lead, token, gap, lines, q0, c0);
    SubSlice(s, p, src, p + 1, p + (q0 - 2));
  }

  /** The kind token of a written alert, found in `s`. */
  lemma HeadToken(s: string, p: nat, lead: string, token: string, gap: string, lines: seq<string>, q: nat, c: nat)
    requires IsPieceAt(s, p, AlertSource(lead, token, gap, lines))
    requires q == p + 3 + |lead| && c == q + |token|
    ensures s[q..c] == token
  {
    var src := AlertSource(lead, token, gap, lines);
    var q0, c0 := q - p, c - p;
    LayoutHead(lead, token, gap, lines, q0, c0);
    SubSlice(s, p, src, p + q0, p + c0);
  }

  lemma SourceBreak(s: string, p: nat, lead: string, token: string, gap: string, lines: seq<string>, k: Kind,
                    q: nat, c: nat, b: nat, e: nat)
    requires WellWritten(lead, token, gap, lines, k)
    requires IsPieceAt(s, p, AlertSource(lead, token, gap, lines))
    requires Positions(p, lead, token, gap, lines, q, c, b, e)
    ensures IsBreakAfter(s, c, b)
  {
    var src := AlertSource(lead, token, gap, lines);
    LayoutTail(lead, token, gap, lines, c - p, b - p);
    SubSlice(s, p, src, c + 1, b);
    assert src[c + 1 - p..b - p] == gap + "\n";
    assert s[b] == src[b - p];
    BreakFromParts(s, c, gap, b);
  }

  lemma SourceBody(s: string, p: nat, lead: string, token: string, gap: string, lines: seq<string>, k: Kind,
                   q: nat, c: nat, b: nat, e: nat)
    requires WellWritten(lead, token, gap, lines, k)
    requires IsPieceAt(s, p, AlertSource(lead, token, gap, lines))
    requires Positions(p, lead, token, gap, lines, q, c, b, e)
    requires e == |s| || s[e] != '>'
    ensures IsBodyEnd(s, b, e)
  {
    var src := AlertSource(lead, token, gap, lines);
    LayoutTail(lead, token, gap, lines, c - p, b - p);
    assert e == b + |QuoteLines(lines)|;
    SubSlice(s, p, src, b, e);
    assert src[b - p..e - p] == src[b - p..];
    QuotedLinesAt(s, b, e, lines);
  }

  /** A well-written alert inside a text, at the start of a line and not
      followed by another quoted line, is a match of the alert pattern
      that ends right after the alert. */
  lemma SourceMatches(s: string, p: nat, lead: string, token: string, gap: string, lines: seq<string>, k: Kind,
                      q: nat, c: nat, b: nat, e: nat)
    requires WellWritten(lead, token, gap, lines, k)
    requires LineStart(s, p)
    requires IsPieceAt(s, p, AlertSource(lead, token, gap, lines))
    requires Positions(p, lead, token, gap, lines, q, c, b, e)
    requires e == |s| || s[e] != '>'
    ensures |token| == |Name(k)|
    ensures MatchAt(s, p) == Some(Match(k, q, b, e))
  {
    SourceMarker(s, p, lead, token, gap, lines, k, q, c, b, e);
    SourceBreak(s, p, lead, token, gap, lines, k, q, c, b, e);
    SourceBody(s, p, lead, token, gap, lines, k, q, c, b, e);
    assert IsMatch(s, p, Match(k, q, b, e));
    MatchAtExact(s, p, Match(k, q, b, e));
  }

  /** The body of a written alert, found in place, is its quoted lines. */
  lemma SourceBodyText(s: string, p: nat, lead: string, token: string, gap: string, lines: seq<string>,
                       b: nat, e: nat)
    requires IsPieceAt(s, p, AlertSource(lead, token, gap, lines))
    requires b == p + 3 + |lead| + |token| + |gap| + 2 && e == p + |AlertSource(lead, token, gap, lines)|
    ensures b <= e && s[b..e] == QuoteLines(lines)
  {
    var src := AlertSource(lead, token, gap, lines);
    LayoutTail(lead, token, gap, lines, 3 + |lead| + |token|, b - p);
    SubSlice(s, p, src, b, e);
    assert src[b - p..e - p] == src[b - p..];
  }

  /** No character of `s` in `[i, j)` is `>`. */
  ghost predicate NoQuoteIn(s: string, i: nat, j: nat) {
    forall x :: i <= x < j && x < |s| ==> s[x] != '>'
  }

  /** A text without `>` holds no alert. */
  lemma NoAlertWithoutQuote(s: string, i: nat, j: nat)
    requires i <= j <= |s|
    requires NoQuoteIn(s, i, j)
    ensures NoAlertIn(s, i, j)
  {
    forall x: nat | i <= x < j ensures MatchAt(s, x).None? {
      if MatchAt(s, x).Some? {
        MatchNeedsQuote(s, x);
      }
    }
  }

  /** Substitution copies a tail of the text in which the alert pattern
      matches nowhere. */
  lemma TailWithoutAlerts(icons: map<string, string>, s: string, e: nat)
    requires e <= |s|
    requires NoAlertIn(s, e, |s|)
    ensures Advances(s, AlertsIn(icons, s)) && Sub(s, e, AlertsIn(icons, s)) == s[e..]
  {
    AlertsAdvance(icons, s);
    NoAlertNoHit(icons, s, e, |s|);
    SubCopies(s, e, |s|, AlertsIn(icons, s));
  }

  /** From any position `i` the scan stands at, with no alert between `i`
      and a well-written alert at the start of a line that no quoted line
      follows: the text from `i` up to the alert is copied, the alert
      becomes its fragment, and the scan resumes after it. */
  lemma NextAlertAt(icons: map<string, string>, s: string, i: nat, p: nat, lead: string, token: string,
                    gap: string, lines: seq<string>, k: Kind, e: nat)
    requires WellWritten(lead, token, gap, lines, k)
    requires LineStart(s, p)
    requires IsPieceAt(s, p, AlertSource(lead, token, gap, lines))
    requires e == p + |AlertSource(lead, token, gap, lines)|
    requires e == |s| || s[e] != '>'
    requires i <= p && NoAlertIn(s, i, p)
    ensures Advances(s, AlertsIn(icons, s))
    ensures Sub(s, i, AlertsIn(icons, s))
         == s[i..p] + Fragment(Name(k), Lookup(icons, Name(k), ""), Title(k), Strip(Join(lines)))
            + Sub(s, e, AlertsIn(icons, s))
  {
    var q := p + 3 + |lead|;
    var c := q + |token|;
    var b := c + |gap| + 2;
    SourceMatches(s, p, lead, token, gap, lines, k, q, c, b, e);
    var m := Match(k, q, b, e);
    PreprocessAtNextAlert(icons, s, i, p, m);
    ReplacementShape(icons, s, p, m);
    SourceBodyText(s, p, lead, token, gap, lines, b, e);
    ExtractQuoteLines(lines);
  }

  /** A well-written alert at the start of a line of `s`, with no alert
      before it and no quoted line right after it, becomes its fragment, and
      the pass carries on after it. */
  lemma FirstAlertAt(icons: map<string, string>, s: string, p: nat, lead: string, token: string,
                     gap: string, lines: seq<string>, k: Kind, e: nat)
    requires WellWritten(lead, token, gap, lines, k)
    requires LineStart(s, p)
    requires IsPieceAt(s, p, AlertSource(lead, token, gap, lines))
    requires e == p + |AlertSource(lead, token, gap, lines)|
    requires e == |s| || s[e] != '>'
    requires NoAlertIn(s, 0, p)
    ensures Advances(s, AlertsIn(icons, s))
    ensures PreprocessWith(icons, s)
         == s[..p] + Fragment(Name(k), Lookup(icons, Name(k), ""), Title(k), Strip(Join(lines)))
            + Sub(s, e, AlertsIn(icons, s))
  {
    NextAlertAt(icons, s, 0, p, lead, token, gap, lines, k, e);
    assert s[0..p] == s[..p];
  }

  /** A well-written alert at the start of a line of `s`, not followed by
      another quoted line, with the alert pattern matching nowhere before it
      or after it, becomes its fragment; the rest of `s` is kept. */
  lemma PreprocessAlertAt(icons: map<string, string>, s: string, p: nat, lead: string, token: string,
                          gap: string, lines: seq<string>, k: Kind, e: nat)
    requires WellWritten(lead, token, gap, lines, k)
    requires LineStart(s, p)
    requires IsPieceAt(s, p, AlertSource(lead, token, gap, lines))
    requires e == p + |AlertSource(lead, token, gap, lines)|
    requires e == |s| || s[e] != '>'
    requires NoAlertIn(s, 0, p) && NoAlertIn(s, e, |s|)
    ensures PreprocessWith(icons, s)
         == s[..p] + Fragment(Name(k), Lookup(icons, Name(k), ""), Title(k), Strip(Join(lines))) + s[e..]
  {
    FirstAlertAt(icons, s, p, lead, token, gap, lines, k, e);
    TailWithoutAlerts(icons, s, e);
  }

  /** A piece of a text keeps the text free of `>` where the piece is,
      and a piece ending with a line break is followed by a line start. */
  lemma PieceFacts(s: string, a: nat, t: string)
    requires IsPieceAt(s, a, t)
    ensures NoQuoteIn(t, 0, |t|) ==> NoQuoteIn(s, a, a + |t|)
    ensures |t| > 0 && t[|t| - 1] == '\n' ==> LineStart(s, a + |t|)
  {
    forall x | a <= x < a + |t| ensures s[x] == t[x - a] {
      assert s[x] == s[a..a + |t|][x - a];
    }
  }

  /** Where the three parts of `pre + mid + post` sit. */
  lemma Concat3(pre: string, mid: string, post: string)
    ensures var s := pre + mid + post;
      && IsPieceAt(s, |pre|, mid)
      && s[..|pre|] == pre
      && s[|pre| + |mid|..] == post
      && ((|pre| == 0 || pre[|pre| - 1] == '\n') ==> LineStart(s, |pre|))
      && (NoQuoteIn(pre, 0, |pre|) ==> NoQuoteIn(s, 0, |pre|))
      && (NoQuoteIn(post, 0, |post|) ==> NoQuoteIn(s, |pre| + |mid|, |s|))
  {
    var s := pre + mid + post;
    assert s[|pre|..|pre| + |mid|] == mid;
    assert s[0..|pre|] == pre;
    assert s[|pre| + |mid|..|s|] == post;
    PieceFacts(s, 0, pre);
    PieceFacts(s, |pre| + |mid|, post);
  }

  /** In `pre + a1 + rest`, the first alert text `a1` starts a line, and
      `pre` is kept free of `>`. */
  lemma FirstPartAt(s: string, pre: string, a1: string, rest: string)
    requires s == pre + a1 + rest
    requires |pre| == 0 || pre[|pre| - 1] == '\n'
    requires NoQuoteIn(pre, 0, |pre|)
    ensures IsPieceAt(s, |pre|, a1) && LineStart(s, |pre|)
    ensures s[..|pre|] == pre && NoQuoteIn(s, 0, |pre|)
  {
    Concat3(pre, a1, rest);
  }

  /** In `head + mid + rest`, a `mid` without `>` that ends with a line
      break is kept, and the next line starts right after it. */
  lemma MiddlePartAt(s: string, head: string, mid: string, rest: string)
    requires s == head + mid + rest
    requires |mid| > 0 && mid[|mid| - 1] == '\n'
    requires NoQuoteIn(mid, 0, |mid|)
    ensures s[|head|..|head| + |mid|] == mid
    ensures NoQuoteIn(s, |head|, |head| + |mid|) && s[|head|] != '>'
    ensures LineStart(s, |head| + |mid|)
  {
    assert s[|head|..|head| + |mid|] == mid;
    PieceFacts(s, |head|, mid);
  }

  /** In `head + a2 + post`, the alert text `a2` sits after `head`, and a
      `post` without `>` is kept. */
  lemma LastPartAt(s: string, head: string, a2: string, post: string)
    requires s == head + a2 + post
    requires NoQuoteIn(post, 0, |post|)
    ensures IsPieceAt(s, |head|, a2)
    ensures s[|head| + |a2|..] == post && NoQuoteIn(s, |head| + |a2|, |s|)
  {
    Concat3(head, a2, post);
  }

  lemma TwoAlertsPieces(s: string, pre: string, a1: string, mid: string, a2: string, post: string)
    requires s == pre + a1 + mid + a2 + post
    requires |pre| == 0 || pre[|pre| - 1] == '\n'
    requires |mid| > 0 && mid[|mid| - 1] == '\n'
    requires NoQuoteIn(pre, 0, |pre|) && NoQuoteIn(mid, 0, |mid|) && NoQuoteIn(post, 0, |post|)
    ensures var e1 := |pre| + |a1|; var p2 := e1 + |mid|; var e2 := p2 + |a2|;
      && LineStart(s, |pre|) && LineStart(s, p2)
      && IsPieceAt(s, |pre|, a1) && IsPieceAt(s, p2, a2)
      && s[e1] != '>'
      && NoQuoteIn(s, 0, |pre|) && NoQuoteIn(s, e1, p2) && NoQuoteIn(s, e2, |s|)
      && s[..|pre|] == pre && s[e1..p2] == mid && s[e2..] == post
  {
    AppendAssoc(pre, a1, mid, a2);
    AppendAssoc(pre, a1, mid + a2, post);
    FirstPartAt(s, pre, a1, mid + a2 + post);
    AppendAssoc(pre + a1, mid, a2, post);
    MiddlePartAt(s, pre + a1, mid, a2 + post);
    LastPartAt(s, pre + a1 + mid, a2, post);
  }

  /** Where the parts of `pre + a1 + mid + a2 + post` sit, when `pre`, `mid`
      and `post` hold no `>` and `pre` and `mid` end at a line start. */
  lemma TwoAlertsLayout(s: string, pre: string, a1: string, mid: string, a2: string, post: string)
    requires s == pre + a1 + mid + a2 + post
    requires |pre| == 0 || pre[|pre| - 1] == '\n'
    requires |mid| > 0 && mid[|mid| - 1] == '\n'
    requires NoQuoteIn(pre, 0, |pre|) && NoQuoteIn(mid, 0, |mid|) && NoQuoteIn(post, 0, |post|)
    ensures var e1 := |pre| + |a1|; var p2 := e1 + |mid|; var e2 := p2 + |a2|;
      && LineStart(s, |pre|) && LineStart(s, p2)
      && IsPieceAt(s, |pre|, a1) && IsPieceAt(s, p2, a2)
      && (e1 == |s| || s[e1] != '>') && (e2 == |s| || s[e2] != '>')
      && NoAlertIn(s, 0, |pre|) && NoAlertIn(s, e1, p2) && NoAlertIn(s, e2, |s|)
      && s[..|pre|] == pre && s[e1..p2] == mid && s[e2..] == post
  {
    var e1 := |pre| + |a1|;
    var p2 := e1 + |mid|;
    var e2 := p2 + |a2|;
    TwoAlertsPieces(s, pre, a1, mid, a2, post);
    NoAlertWithoutQuote(s, 0, |pre|);
    NoAlertWithoutQuote(s, e1, p2);
    NoAlertWithoutQuote(s, e2, |s|);
  }

  /** Two well-written alerts in `s`, each at a line start and not followed
      by a quoted line, with the pattern matching nowhere before, between or
      after them, each become their fragment; the text `pre` before, `mid`
      between and `post` after them is kept. */
  lemma TwoAlertsAt(icons: map<string, string>, s: string, pre: string, mid: string, post: string,
                    p1: nat, lead1: string, token1: string, gap1: string, lines1: seq<string>, k1: Kind, e1: nat,
                    p2: nat, lead2: string, token2: string, gap2: string, lines2: seq<string>, k2: Kind, e2: nat)
    requires WellWritten(lead1, token1, gap1, lines1, k1)
    requires WellWritten(lead2, token2, gap2, lines2, k2)
    requires LineStart(s, p1) && LineStart(s, p2)
    requires IsPieceAt(s, p1, AlertSource(lead1, token1, gap1, lines1))
    requires e1 == p1 + |AlertSource(lead1, token1, gap1, lines1)|
    requires IsPieceAt(s, p2, AlertSource(lead2, token2, gap2, lines2))
    requires e2 == p2 + |AlertSource(lead2, token2, gap2, lines2)|
    requires e1 <= p2
    requires e1 == |s| || s[e1] != '>'
    requires e2 == |s| || s[e2] != '>'
    requires NoAlertIn(s, 0, p1) && NoAlertIn(s, e1, p2) && NoAlertIn(s, e2, |s|)
    requires s[..p1] == pre && s[e1..p2] == mid && s[e2..] == post
    ensures PreprocessWith(icons, s)
         == pre + Fragment(Name(k1), Lookup(icons, Name(k1), ""), Title(k1), Strip(Join(lines1)))
            + mid + Fragment(Name(k2), Lookup(icons, Name(k2), ""), Title(k2), Strip(Join(lines2)))
            + post
  {
    NextAlertAt(icons, s, 0, p1, lead1, token1, gap1, lines1, k1, e1);
    NextAlertAt(icons, s, e1, p2, lead2, token2, gap2, lines2, k2, e2);
    TailWithoutAlerts(icons, s, e2);
    assert s[0..p1] == s[..p1];
    var f1 := Fragment(Name(k1), Lookup(icons, Name(k1), ""), Title(k1), Strip(Join(lines1)));
    var f2 := Fragment(Name(k2), Lookup(icons, Name(k2), ""), Title(k2), Strip(Join(lines2)));
    assert PreprocessWith(icons, s) == pre + f1 + (mid + f2 + post);
    AppendAssoc(pre, f1, mid, f2);
    AppendAssoc(pre, f1, mid + f2, post);
  }

  /** Two well-written alerts, separated by text that holds no `>` and ends
      with a line break, each become their fragment; the text before,
      between and after them is kept. */
  lemma PreprocessTwoAlerts(icons: map<string, string>, pre: string,
                            lead1: string, token1: string, gap1: string, lines1: seq<string>, k1: Kind,
                            mid: string,
                            lead2: string, token2: string, gap2: string, lines2: seq<string>, k2: Kind,
                            post: string)
    requires |pre| == 0 || pre[|pre| - 1] == '\n'
    requires |mid| > 0 && mid[|mid| - 1] == '\n'
    requires NoQuoteIn(pre, 0, |pre|) && NoQuoteIn(mid, 0, |mid|) && NoQuoteIn(post, 0, |post|)
    requires WellWritten(lead1, token1, gap1, lines1, k1)
    requires WellWritten(lead2, token2, gap2, lines2, k2)
    ensures PreprocessWith(icons, pre + AlertSource(lead1, token1, gap1, lines1) + mid
                                      + AlertSource(lead2, token2, gap2, lines2) + post)
         == pre + Fragment(Name(k1), Lookup(icons, Name(k1), ""), Title(k1), Strip(Join(lines1)))
            + mid + Fragment(Name(k2), Lookup(icons, Name(k2), ""), Title(k2), Strip(Join(lines2)))
            + post
  {
    var a1 := AlertSource(lead1, token1, gap1, lines1);
    var a2 := AlertSource(lead2, token2, gap2, lines2);
    var s := pre + a1 + mid + a2 + post;
    var e1 := |pre| + |a1|;
    var p2 := e1 + |mid|;
    var e2 := p2 + |a2|;
    TwoAlertsLayout(s, pre, a1, mid, a2, post);
    TwoAlertsAt(icons, s, pre, mid, post, |pre|, lead1, token1, gap1, lines1, k1, e1,
                p2, lead2, token2, gap2, lines2, k2, e2);
  }

  /** A well-written alert between text that holds no `>` (the text before
      it ending with a line break, if any) becomes exactly its fragment: the
      kind's lowercase name as CSS class, its icon and title, and as content
      the body lines without their quote markers, joined with line breaks
      and stripped. The text around it is kept as it is. */
  lemma PreprocessAlertSource(icons: map<string, string>, pre: string, lead: string, token: string,
                              gap: string, lines: seq<string>, post: string, k: Kind)
    requires |pre| == 0 || pre[|pre| - 1] == '\n'
    requires NoQuoteIn(pre, 0, |pre|) && NoQuoteIn(post, 0, |post|)
    requires WellWritten(lead, token, gap, lines, k)
    ensures PreprocessWith(icons, pre + AlertSource(lead, token, gap, lines) + post)
         == pre + Fragment(Name(k), Lookup(icons, Name(k), ""), Title(k), Strip(Join(lines))) + post
  {
    var src := AlertSource(lead, token, gap, lines);
    var s := pre + src + post;
    Concat3(pre, src, post);
    NoAlertWithoutQuote(s, 0, |pre|);
    NoAlertWithoutQuote(s, |pre| + |src|, |s|);
    PreprocessAlertAt(icons, pre + src + post, |pre|, lead, token, gap, lines, k, |pre| + |src|);
  }
}
