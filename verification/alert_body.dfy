/**
 * Turning the captured quoted block of an alert into the text of its
 * content paragraph: drop the quote marker from every line, rejoin the
 * lines, and strip the result.
 */
module AlertBody {
  import opened Text

  /** `re.sub(r"^>\s?", "", line)`: a line that starts with `>` loses that
      `>` and, if one follows, a single whitespace character; the rest of
      the line is kept as it is, and any other line is left alone. */
  function CleanLine(line: string): (r: string)
    ensures |r| <= |line| && line[|line| - |r|..] == r
    ensures |r| < |line| <==> |line| > 0 && line[0] == '>'
    ensures |line| - 2 <= |r|
    ensures |r| == |line| - 2 ==> IsSpace(line[1])
    ensures |r| == |line| - 1 && |r| > 0 ==> !IsSpace(r[0])
  {
    if |line| > 0 && line[0] == '>' then
      if |line| > 1 && IsSpace(line[1]) then line[2..] else line[1..]
    else line
  }

  /** Quoting a line the way alerts are written, `> ` + line. */
  function Quote(line: string): string {
    "> " + line
  }

  /** Removing the quote marker undoes quoting, whatever the line holds
      (a line that itself starts with whitespace keeps it). */
  lemma CleanQuote(line: string)
    ensures CleanLine(Quote(line)) == line
  {
    assert Quote(line)[2..] == line;
  }

  /** A marker written without the space is removed just as well, as long
      as the text does not start with whitespace. */
  lemma CleanBareQuote(line: string)
    requires |line| == 0 || !IsSpace(line[0])
    ensures CleanLine(">" + line) == line
  {
    assert (">" + line)[1..] == line;
  }

  function CleanLines(lines: seq<string>): seq<string> {
    seq(|lines|, i requires 0 <= i < |lines| => CleanLine(lines[i]))
  }

  /** The content paragraph of an alert whose captured quoted block is
      `block`: the cleaned lines joined with line breaks, then stripped. */
  function ExtractContent(block: string): (content: string)
    ensures |content| > 0 ==> !IsSpace(content[0]) && !IsSpace(content[|content| - 1])
  {
    Strip(Join(CleanLines(Split(block))))
  }

  /** The block an alert body of the given lines is written as: each line
      quoted and ended by a line break. */
  function QuoteLines(lines: seq<string>): string {
    if |lines| == 0 then "" else Quote(lines[0]) + "\n" + QuoteLines(lines[1..])
  }

  function QuoteEach(lines: seq<string>): seq<string> {
    seq(|lines|, i requires 0 <= i < |lines| => Quote(lines[i]))
  }

  lemma {:induction false} JoinQuoteEach(lines: seq<string>)
    requires |lines| >= 1
    ensures Join(QuoteEach(lines)) + "\n" == QuoteLines(lines)
    decreases |lines|
  {
    if |lines| > 1 {
      assert QuoteEach(lines)[1..] == QuoteEach(lines[1..]);
      JoinQuoteEach(lines[1..]);
    }
  }

  lemma QuotedPiecesLineFree(lines: seq<string>)
    requires AllLineFree(lines)
    ensures AllLineFree(QuoteEach(lines) + [""])
  {
    var pieces := QuoteEach(lines) + [""];
    forall i | 0 <= i < |pieces| ensures LineFree(pieces[i]) {
      if i < |lines| {
        assert LineFree(lines[i]);
        assert pieces[i] == "> " + lines[i];
        forall k | 0 <= k < |pieces[i]| ensures pieces[i][k] != '\n' {
          if k >= 2 { assert pieces[i][k] == lines[i][k - 2]; }
        }
      }
    }
  }

  /** Splitting a quoted block yields the quoted lines and the empty piece
      after the final line break. */
  lemma SplitQuoteLines(lines: seq<string>)
    requires |lines| >= 1 && AllLineFree(lines)
    ensures Split(QuoteLines(lines)) == QuoteEach(lines) + [""]
  {
    var pieces := QuoteEach(lines) + [""];
    JoinQuoteEach(lines);
    JoinSnoc(QuoteEach(lines), "");
    assert Join(pieces) == QuoteLines(lines);
    QuotedPiecesLineFree(lines);
    SplitJoin(pieces);
  }

  lemma CleanQuoteEach(lines: seq<string>)
    ensures CleanLines(QuoteEach(lines) + [""]) == lines + [""]
  {
    var cleaned := CleanLines(QuoteEach(lines) + [""]);
    forall i | 0 <= i < |lines| ensures cleaned[i] == lines[i] {
      CleanQuote(lines[i]);
    }
  }

  /** Quoting a text line by line and extracting the alert content gives
      back the text, stripped of surrounding whitespace. */
  lemma ExtractQuoteLines(lines: seq<string>)
    requires |lines| >= 1 && AllLineFree(lines)
    ensures ExtractContent(QuoteLines(lines)) == Strip(Join(lines))
  {
    var block := QuoteLines(lines);
    SplitQuoteLines(lines);
    CleanQuoteEach(lines);
    assert CleanLines(Split(block)) == lines + [""];
    JoinSnoc(lines, "");
    assert Join(lines + [""]) == Join(lines) + "\n";
    assert AllSpace("\n", 0, 1);
    StripAppendSpace(Join(lines), "\n");
  }

  /** A text that neither starts nor ends with whitespace is its own
      stripped form. */
  lemma StripKeeps(t: string)
    requires |t| > 0 && !IsSpace(t[0]) && !IsSpace(t[|t| - 1])
    ensures Strip(t) == t
  {
    assert "" + t + "" == t;
    StripExact("", t, "");
  }

  /** A single quoted line yields that line, when it neither starts nor
      ends with whitespace. */
  lemma ExtractOneLine(line: string)
    requires LineFree(line) && |line| > 0 && !IsSpace(line[0]) && !IsSpace(line[|line| - 1])
    ensures ExtractContent(Quote(line) + "\n") == line
  {
    assert QuoteLines([line]) == Quote(line) + "\n";
    assert AllLineFree([line]);
    ExtractQuoteLines([line]);
    assert Join([line]) == line;
    StripKeeps(line);
  }

  /** Two quoted lines yield the lines joined by a line break, when the
      first does not start and the second does not end with whitespace. */
  lemma ExtractTwoLinesOf(l1: string, l2: string)
    requires LineFree(l1) && LineFree(l2) && |l1| > 0 && |l2| > 0
    requires !IsSpace(l1[0]) && !IsSpace(l2[|l2| - 1])
    ensures ExtractContent(Quote(l1) + "\n" + Quote(l2) + "\n") == l1 + "\n" + l2
  {
    var lines := [l1, l2];
    assert lines[1..] == [l2];
    assert QuoteLines([l2]) == Quote(l2) + "\n";
    assert QuoteLines(lines) == Quote(l1) + "\n" + Quote(l2) + "\n";
    assert AllLineFree(lines);
    ExtractQuoteLines(lines);
    assert Join([l2]) == l2;
    assert Join(lines) == l1 + "\n" + l2;
    StripKeeps(l1 + "\n" + l2);
  }

  /** `"> Hello\n"` yields the content `Hello`. */
  lemma ExtractHello(block: string)
    requires block == "> Hello\n"
    ensures ExtractContent(block) == "Hello"
  {
    ExtractOneLine("Hello");
    HelloBlock();
  }

  lemma HelloBlock()
    ensures Quote("Hello") + "\n" == "> Hello\n"
  {
  }

  /** The block quoting `line1` and `line2` yields the content
      `line1\nline2`. */
  lemma ExtractTwoLines(block: string)
    requires block == "> line1\n> line2\n"
    ensures ExtractContent(block) == "line1\nline2"
  {
    var l1, l2 := "line1", "line2";
    TwoLinesBlock(l1, l2, block);
    ExtractTwoLinesOf(l1, l2);
  }

  lemma TwoLinesBlock(l1: string, l2: string, block: string)
    requires l1 == "line1" && l2 == "line2" && block == "> line1\n> line2\n"
    ensures Quote(l1) + "\n" + Quote(l2) + "\n" == block
    ensures l1 + "\n" + l2 == "line1\nline2"
    ensures LineFree(l1) && LineFree(l2) && !IsSpace(l1[0]) && !IsSpace(l2[|l2| - 1])
  {
  }
}
