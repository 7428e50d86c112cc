/**
 * Worked cases of the alert pass on small documents.
 *
 * Each case is stated on its literal text and proved by a lemma that takes
 * the text, and the pieces around the alert, as variables equal to the
 * literals: the verifier then reasons about the pieces instead of unfolding
 * the functions on every character of the literal. The same holds for the
 * `"" + f + ""` steps, which join the empty pieces back onto the fragment.
 */
module AlertExamples {
  import opened Wrappers
  import opened Text
  import opened AlertKinds
  import opened AlertMatch
  import opened AlertBody
  import opened Alerts
  import opened AlertSources

  lemma NoteSourceText()
    ensures "" + AlertSource(" ", "NOTE", "", ["Hello"]) + "" == "> [!NOTE]\n> Hello\n"
  {
  }

  lemma NoteWellWritten()
    ensures WellWritten(" ", "NOTE", "", ["Hello"], Note)
  {
    assert Lower("NOTE") == "note";
    assert AllLineFree(["Hello"]) by { assert LineFree("Hello"); }
  }

  lemma NoteTitle()
    ensures Name(Note) == "note" && Title(Note) == "Note"
  {
  }

  lemma TipTitle()
    ensures Name(Tip) == "tip" && Title(Tip) == "Tip"
  {
  }

  lemma HelloStripped()
    ensures Strip(Join(["Hello"])) == "Hello"
  {
    var text := Join(["Hello"]);
    assert text == "Hello";
    StripKeeps(text);
  }

  /** A note alert, alone in the document, becomes the note fragment with
      the content `Hello`. */
  lemma NoteAlert(icons: map<string, string>)
    ensures PreprocessWith(icons, "> [!NOTE]\n> Hello\n")
         == Fragment("note", Lookup(icons, "note", ""), "Note", "Hello")
  {
    NoteSourceText();
    NoteAlertOf(icons, "> [!NOTE]\n> Hello\n", "", "");
    var f := Fragment("note", Lookup(icons, "note", ""), "Note", "Hello");
    assert "" + f + "" == f;
  }

  lemma NoteAlertOf(icons: map<string, string>, s: string, pre: string, post: string)
    requires pre == "" && post == ""
    requires s == pre + AlertSource(" ", "NOTE", "", ["Hello"]) + post
    ensures PreprocessWith(icons, s) == pre + Fragment("note", Lookup(icons, "note", ""), "Note", "Hello") + post
  {
    NoteWellWritten();
    HelloStripped();
    assert NoQuoteIn(pre, 0, |pre|) && NoQuoteIn(post, 0, |post|);
    PreprocessAlertSource(icons, pre, " ", "NOTE", "", ["Hello"], post, Note);
    NoteTitle();
  }

  lemma TipWellWritten()
    ensures WellWritten("", "tIp", "  ", ["  Mind the gap.  "], Tip)
  {
    assert Lower("tIp") == "tip";
    assert AllSpace("  ", 0, 2);
    assert AllLineFree(["  Mind the gap.  "]) by { assert LineFree("  Mind the gap.  "); }
  }

  lemma MindTheGapStripped()
    ensures Strip(Join(["  Mind the gap.  "])) == "Mind the gap."
  {
    var text := Join(["  Mind the gap.  "]);
    assert text == "  " + "Mind the gap." + "  ";
    assert AllSpace("  ", 0, 2);
    StripExact("  ", "Mind the gap.", "  ");
  }

  lemma TipSourceText()
    ensures "Intro\n" + AlertSource("", "tIp", "  ", ["  Mind the gap.  "]) + "Outro"
         == "Intro\n>[!tIp]  \n>   Mind the gap.  \nOutro"
  {
    OneLineSource("", "tIp", "  ", "  Mind the gap.  ");
  }

  /** The kind token is matched in any letter case and the CSS class uses
      its lowercase name; whitespace around the body is stripped; text
      before and after the alert is kept. */
  lemma MixedCaseTip(icons: map<string, string>)
    ensures PreprocessWith(icons, "Intro\n>[!tIp]  \n>   Mind the gap.  \nOutro")
         == "Intro\n" + Fragment("tip", Lookup(icons, "tip", ""), "Tip", "Mind the gap.") + "Outro"
  {
    TipSourceText();
    MixedCaseTipOf(icons, "Intro\n>[!tIp]  \n>   Mind the gap.  \nOutro", "Intro\n", "Outro");
  }

  lemma MixedCaseTipOf(icons: map<string, string>, s: string, pre: string, post: string)
    requires pre == "Intro\n" && post == "Outro"
    requires s == pre + AlertSource("", "tIp", "  ", ["  Mind the gap.  "]) + post
    ensures PreprocessWith(icons, s) == pre + Fragment("tip", Lookup(icons, "tip", ""), "Tip", "Mind the gap.") + post
  {
    TipWellWritten();
    MindTheGapStripped();
    assert NoQuoteIn(pre, 0, |pre|) && NoQuoteIn(post, 0, |post|);
    PreprocessAlertSource(icons, pre, "", "tIp", "  ", ["  Mind the gap.  "], post, Tip);
    TipTitle();
  }

  lemma NoteText()
    ensures AlertSource(" ", "NOTE", "", ["Hello"]) == "> [!NOTE]\n> Hello\n"
  {
    OneLineSource(" ", "NOTE", "", "Hello");
  }

  lemma TipText()
    ensures AlertSource("", "tIp", "  ", ["  Mind the gap.  "]) == ">[!tIp]  \n>   Mind the gap.  \n"
  {
    OneLineSource("", "tIp", "  ", "  Mind the gap.  ");
  }

  /** Two alerts in one document each become their fragment, and the line
      between them is kept. */
  lemma TwoAlerts(icons: map<string, string>)
    ensures PreprocessWith(icons, "> [!NOTE]\n> Hello\n" + "Between\n" + ">[!tIp]  \n>   Mind the gap.  \n" + "Outro")
         == Fragment("note", Lookup(icons, "note", ""), "Note", "Hello") + "Between\n"
            + Fragment("tip", Lookup(icons, "tip", ""), "Tip", "Mind the gap.") + "Outro"
  {
    NoteText();
    TipText();
    var a1 := AlertSource(" ", "NOTE", "", ["Hello"]);
    assert "" + a1 == a1;
    TwoAlertsOf(icons, "" + a1 + "Between\n" + AlertSource("", "tIp", "  ", ["  Mind the gap.  "]) + "Outro",
                "", "Between\n", "Outro");
    var f := Fragment("note", Lookup(icons, "note", ""), "Note", "Hello");
    assert "" + f == f;
  }

  lemma TwoAlertsOf(icons: map<string, string>, s: string, pre: string, mid: string, post: string)
    requires pre == "" && mid == "Between\n" && post == "Outro"
    requires s == pre + AlertSource(" ", "NOTE", "", ["Hello"]) + mid
                  + AlertSource("", "tIp", "  ", ["  Mind the gap.  "]) + post
    ensures PreprocessWith(icons, s)
         == pre + Fragment("note", Lookup(icons, "note", ""), "Note", "Hello")
            + mid + Fragment("tip", Lookup(icons, "tip", ""), "Tip", "Mind the gap.") + post
  {
    NoteWellWritten();
    HelloStripped();
    TipWellWritten();
    MindTheGapStripped();
    assert NoQuoteIn(pre, 0, |pre|) && NoQuoteIn(mid, 0, |mid|) && NoQuoteIn(post, 0, |post|);
    PreprocessTwoAlerts(icons, pre, " ", "NOTE", "", ["Hello"], Note, mid,
                        "", "tIp", "  ", ["  Mind the gap.  "], Tip, post);
    NoteTitle();
    TipTitle();
  }

  /** A second marker inside the body is body text, not a new alert. */
  lemma NestedMarkerIsBody(icons: map<string, string>)
    ensures PreprocessWith(icons, "> [!NOTE]\n> [!TIP]\n")
         == Fragment("note", Lookup(icons, "note", ""), "Note", "[!TIP]")
  {
    NestedSourceText();
    NestedMarkerOf(icons, "> [!NOTE]\n> [!TIP]\n", "", "");
    var f := Fragment("note", Lookup(icons, "note", ""), "Note", "[!TIP]");
    assert "" + f + "" == f;
  }

  lemma NestedSourceText()
    ensures "" + AlertSource(" ", "NOTE", "", ["[!TIP]"]) + "" == "> [!NOTE]\n> [!TIP]\n"
  {
  }

  lemma NestedMarkerOf(icons: map<string, string>, s: string, pre: string, post: string)
    requires pre == "" && post == ""
    requires s == pre + AlertSource(" ", "NOTE", "", ["[!TIP]"]) + post
    ensures PreprocessWith(icons, s) == pre + Fragment("note", Lookup(icons, "note", ""), "Note", "[!TIP]") + post
  {
    var line := "[!TIP]";
    NestedWellWritten(line);
    StripKeeps(line);
    assert Join([line]) == line;
    assert NoQuoteIn(pre, 0, |pre|) && NoQuoteIn(post, 0, |post|);
    PreprocessAlertSource(icons, pre, " ", "NOTE", "", [line], post, Note);
    NoteTitle();
  }

  lemma NestedWellWritten(line: string)
    requires line == "[!TIP]"
    ensures WellWritten(" ", "NOTE", "", [line], Note)
    ensures |line| > 0 && !IsSpace(line[0]) && !IsSpace(line[|line| - 1])
  {
    assert Lower("NOTE") == "note";
    assert AllLineFree([line]) by { assert LineFree(line); }
  }

  /** Blank lines between the marker and the body are swallowed by the
      whitespace after the marker. */
  lemma BlankLineAfterMarker(icons: map<string, string>)
    ensures PreprocessWith(icons, "> [!WARNING]\n\n> Careful\n")
         == Fragment("warning", Lookup(icons, "warning", ""), "Warning", "Careful")
  {
    BlankSourceText();
    BlankLineOf(icons, "> [!WARNING]\n\n> Careful\n", "", "");
    var f := Fragment("warning", Lookup(icons, "warning", ""), "Warning", "Careful");
    assert "" + f + "" == f;
  }

  lemma BlankSourceText()
    ensures "" + AlertSource(" ", "WARNING", "\n", ["Careful"]) + "" == "> [!WARNING]\n\n> Careful\n"
  {
  }

  lemma BlankLineOf(icons: map<string, string>, s: string, pre: string, post: string)
    requires pre == "" && post == ""
    requires s == pre + AlertSource(" ", "WARNING", "\n", ["Careful"]) + post
    ensures PreprocessWith(icons, s) == pre + Fragment("warning", Lookup(icons, "warning", ""), "Warning", "Careful") + post
  {
    var line := "Careful";
    BlankWellWritten(line);
    StripKeeps(line);
    assert Join([line]) == line;
    assert NoQuoteIn(pre, 0, |pre|) && NoQuoteIn(post, 0, |post|);
    PreprocessAlertSource(icons, pre, " ", "WARNING", "\n", [line], post, Warning);
    WarningTitle();
  }

  lemma BlankWellWritten(line: string)
    requires line == "Careful"
    ensures WellWritten(" ", "WARNING", "\n", [line], Warning)
    ensures |line| > 0 && !IsSpace(line[0]) && !IsSpace(line[|line| - 1])
  {
    assert Lower("WARNING") == "warning";
    assert AllSpace("\n", 0, 1);
    assert AllLineFree([line]) by { assert LineFree(line); }
  }

  lemma WarningTitle()
    ensures Name(Warning) == "warning" && Title(Warning) == "Warning"
  {
  }

  /** `[!INFO]` is not one of the five kinds: the quote is left alone. */
  lemma InfoUnchanged(icons: map<string, string>)
    ensures PreprocessWith(icons, "> [!INFO]\n> text\n") == "> [!INFO]\n> text\n"
  {
    InfoUnchangedOf(icons, "> [!INFO]\n> text\n");
  }

  lemma InfoUnchangedOf(icons: map<string, string>, s: string)
    requires s == "> [!INFO]\n> text\n"
    ensures PreprocessWith(icons, s) == s
  {
    forall p: nat | p < |s| ensures MatchAt(s, p).None? {
      if p == 0 {
        InfoNoMatchAtFirstQuote(s);
      } else if p == 10 {
        InfoNoMatchAtSecondQuote(s);
      } else {
        InfoNoMatchElsewhere(s, p);
      }
    }
    PreprocessUnchangedIff(icons, s);
  }

  lemma InfoNoMatchAtFirstQuote(s: string)
    requires s == "> [!INFO]\n> text\n"
    ensures MatchAt(s, 0).None?
  {
    SkipSpacesUnique(s, 1, 2);
    assert s[4..9] == "INFO]";
    InfoIsNoKind(s, 4);
  }

  lemma InfoNoMatchAtSecondQuote(s: string)
    requires s == "> [!INFO]\n> text\n"
    ensures MatchAt(s, 10).None?
  {
    SkipSpacesUnique(s, 11, 12);
  }

  lemma InfoNoMatchElsewhere(s: string, p: nat)
    requires s == "> [!INFO]\n> text\n"
    requires p < |s| && p != 0 && p != 10
    ensures MatchAt(s, p).None?
  {
    assert s[p] != '>';
    if MatchAt(s, p).Some? {
      MatchNeedsQuote(s, p);
    }
  }
}
