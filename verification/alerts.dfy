/**
 * The alert preprocessing pass: every match of the alert pattern is
 * replaced by an HTML fragment, scanning the text from left to right the
 * way `re.sub` does, and everything else is copied unchanged.
 */
module Alerts {
  import opened Wrappers
  import opened Text
  import opened AlertKinds
  import opened AlertMatch
  import opened AlertBody
  import opened Substitution

  /** The HTML block that replaces an alert. It starts and ends with line
      breaks so that the Markdown converter treats it as a raw HTML block. */
  function Fragment(alertType: string, icon: string, title: string, content: string): string {
    "\n<div class=\"markdown-alert markdown-alert-" + alertType + "\">\n"
    + "<p class=\"markdown-alert-title\">" + icon + title + "</p>\n"
    + "<p>" + content + "</p>\n"
    + "</div>\n\n"
  }

  /** The kind token of a match, as written in the text (group 1). */
  function Token(s: string, m: Match): string
    requires m.kindStart + |Name(m.kind)| <= |s|
  {
    s[m.kindStart..m.kindStart + |Name(m.kind)|]
  }

  /** Every fragment opens with a line break. */
  lemma FragmentOpensWithBreak(alertType: string, icon: string, title: string, content: string)
    ensures |Fragment(alertType, icon, title, content)| > 0
    ensures Fragment(alertType, icon, title, content)[0] == '\n'
  {
    var head := "\n<div class=\"markdown-alert markdown-alert-";
    var f := Fragment(alertType, icon, title, content);
    assert f == head + (f[|head|..]);
    assert f[0] == head[0];
  }

  /** What `replace_alert` returns for a match: the lower-cased token picks
      the icon from `icons` and the title from the title table (falling back
      to no icon and the capitalised token), and the quoted block (group 2)
      becomes the content. The icon table is a parameter: the pass itself
      always uses `AlertIcons`, and nothing proved here depends on the
      markup of the icons. */
  function Replacement(icons: map<string, string>, s: string, m: Match): (r: string)
    requires m.kindStart + |Name(m.kind)| <= |s|
    requires m.bodyStart <= m.end <= |s|
    ensures |r| > 0 && r[0] == '\n'
  {
    var alertType := Lower(Token(s, m));
    var icon := Lookup(icons, alertType, "");
    var title := Lookup(AlertTitles, alertType, Capitalize(alertType));
    var content := ExtractContent(s[m.bodyStart..m.end]);
    FragmentOpensWithBreak(alertType, icon, title, content);
    Fragment(alertType, icon, title, content)
  }

  /** The alert pattern tried at `p`, with `replace_alert` applied to the
      match. */
  function AlertHit(icons: map<string, string>, s: string, p: nat): (r: Option<Hit>)
    requires p <= |s|
    ensures r.Some? ==> p < r.value.end <= |s|
  {
    match MatchAt(s, p)
    case None => None
    case Some(m) => Some(Hit(m.end, Replacement(icons, s, m)))
  }

  /** `AlertHit` on `s` as the matcher `re.sub` scans with. */
  function AlertsIn(icons: map<string, string>, s: string): nat -> Option<Hit> {
    (p: nat) => if p <= |s| then AlertHit(icons, s, p) else None
  }

  lemma AlertsAdvance(icons: map<string, string>, s: string)
    ensures Advances(s, AlertsIn(icons, s))
  {
    forall p: nat | p < |s| && AlertsIn(icons, s)(p).Some?
      ensures p < AlertsIn(icons, s)(p).value.end <= |s|
    {
      assert AlertsIn(icons, s)(p) == AlertHit(icons, s, p);
    }
  }

  /** `alert_pattern.sub(replace_alert, markdown)` with the given icon table. */
  function PreprocessWith(icons: map<string, string>, markdown: string): string {
    AlertsAdvance(icons, markdown);
    Sub(markdown, 0, AlertsIn(icons, markdown))
  }

  /** `preprocess_github_alerts`. */
  function Preprocess(markdown: string): string {
    PreprocessWith(AlertIcons, markdown)
  }

  /** The pattern matches nowhere in `[i, j)`. */
  ghost predicate NoAlertIn(s: string, i: nat, j: nat)
    requires i <= j <= |s|
  {
    forall p: nat :: i <= p < j ==> MatchAt(s, p).None?
  }

  lemma NoAlertNoHit(icons: map<string, string>, s: string, i: nat, j: nat)
    requires i <= j <= |s|
    ensures NoAlertIn(s, i, j) <==> NoHitIn(AlertsIn(icons, s), i, j)
  {
    forall p: nat | i <= p < j ensures MatchAt(s, p).None? <==> AlertsIn(icons, s)(p).None? {
      assert AlertsIn(icons, s)(p) == AlertHit(icons, s, p);
    }
  }

  /** The pass leaves a text unchanged exactly when the alert pattern
      matches nowhere in it (whatever the icon table holds). */
  lemma PreprocessUnchangedIff(icons: map<string, string>, s: string)
    ensures PreprocessWith(icons, s) == s <==> NoAlertIn(s, 0, |s|)
  {
    var at := AlertsIn(icons, s);
    AlertsAdvance(icons, s);
    forall p: nat | p < |s| && at(p).Some?
      ensures |at(p).value.text| > 0 && at(p).value.text[0] != s[p]
    {
      assert at(p) == AlertHit(icons, s, p);
      MatchNeedsQuote(s, p);
    }
    SubUnchangedIff(s, at);
    NoAlertNoHit(icons, s, 0, |s|);
  }

  /** A text none of whose lines opens with `>` passes through unchanged. */
  lemma UnchangedWithoutQuotes(icons: map<string, string>, s: string)
    requires forall p: nat :: LineStart(s, p) && p < |s| ==> s[p] != '>'
    ensures PreprocessWith(icons, s) == s
  {
    forall p: nat | p < |s| ensures MatchAt(s, p).None? {
      if MatchAt(s, p).Some? {
        MatchNeedsQuote(s, p);
      }
    }
    PreprocessUnchangedIff(icons, s);
  }

  /** A text with no alert marker (`>` at a line start, optional
      whitespace, then `[!KIND]`) passes through unchanged. */
  lemma UnchangedWithoutMarkers(icons: map<string, string>, s: string)
    requires forall p: nat, k: Kind, q: nat :: p <= |s| ==> !IsMarker(s, p, k, q)
    ensures PreprocessWith(icons, s) == s
  {
    forall p: nat | p < |s| ensures MatchAt(s, p).None? {
      if MatchAt(s, p).Some? {
        var m := MatchAt(s, p).value;
        assert !IsMarker(s, p, m.kind, m.kindStart);
        MatchAtSound(s, p, m);
      }
    }
    PreprocessUnchangedIff(icons, s);
  }

  /** Wherever the scan stands, it copies the text up to the next alert,
      emits that alert's fragment, and resumes after the alert's body. */
  lemma PreprocessAtNextAlert(icons: map<string, string>, s: string, i: nat, p: nat, m: Match)
    requires i <= p <= |s|
    requires NoAlertIn(s, i, p)
    requires MatchAt(s, p) == Some(m)
    ensures Advances(s, AlertsIn(icons, s))
    ensures Sub(s, i, AlertsIn(icons, s))
         == s[i..p] + Replacement(icons, s, m) + Sub(s, m.end, AlertsIn(icons, s))
  {
    var at := AlertsIn(icons, s);
    AlertsAdvance(icons, s);
    NoAlertNoHit(icons, s, i, p);
    assert at(p) == AlertHit(icons, s, p);
    SubAtFirstHit(s, i, p, at);
  }

  /** The pass splits at the first alert: the text before it is kept, the
      alert becomes its fragment, and the pass goes on after the alert's
      last quoted line. */
  lemma PreprocessAtFirstAlert(icons: map<string, string>, s: string, p: nat, m: Match)
    requires p <= |s|
    requires NoAlertIn(s, 0, p)
    requires MatchAt(s, p) == Some(m)
    ensures PreprocessWith(icons, s)
         == s[..p] + Replacement(icons, s, m) + Sub(s, m.end, AlertsIn(icons, s))
  {
    PreprocessAtNextAlert(icons, s, 0, p, m);
    assert s[0..p] == s[..p];
  }

  /** The fragment of a match uses the kind's lower-case name as CSS class,
      the kind's entry of the icon table and the kind's title: the title
      fallback is never taken. */
  lemma ReplacementShape(icons: map<string, string>, s: string, p: nat, m: Match)
    requires p <= |s|
    requires MatchAt(s, p) == Some(m)
    ensures Replacement(icons, s, m)
         == Fragment(Name(m.kind), Lookup(icons, Name(m.kind), ""), Title(m.kind),
                     ExtractContent(s[m.bodyStart..m.end]))
  {
    MatchAtSound(s, p, m);
    ReplacementOfToken(icons, s, m);
  }

  /** The replacement once the kind token is known to name `m.kind`. */
  lemma ReplacementOfToken(icons: map<string, string>, s: string, m: Match)
    requires KindTokenAt(s, m.kindStart, m.kind)
    requires m.bodyStart <= m.end <= |s|
    ensures Replacement(icons, s, m)
         == Fragment(Name(m.kind), Lookup(icons, Name(m.kind), ""), Title(m.kind),
                     ExtractContent(s[m.bodyStart..m.end]))
  {
    TokenLowersToName(s, m.kindStart, m.kind);
    var alertType := Lower(Token(s, m));
    assert alertType == Name(m.kind);
    TitlesCoverKinds();
    assert Lookup(AlertTitles, alertType, Capitalize(alertType)) == Title(m.kind);
    var content := ExtractContent(s[m.bodyStart..m.end]);
    assert Replacement(icons, s, m)
        == Fragment(alertType, Lookup(icons, alertType, ""), Lookup(AlertTitles, alertType, Capitalize(alertType)), content);
  }
}
