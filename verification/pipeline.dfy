/**
 * The conversion pipeline of the command line, without its file system
 * and browser effects: Markdown text to the styled HTML document, and the
 * file names a run uses.
 */
module Pipeline {
  import opened Wrappers
  import opened AlertKinds
  import opened Alerts
  import opened Document
  import opened GithubStyle
  import opened Paths

  /** The HTML document for a Markdown text: alerts are rewritten first,
      then the Markdown converter `convert` (not modelled) turns the text
      into an HTML body, which is wrapped in the document template. */
  function StyledHtmlWith(css: string, icons: map<string, string>, convert: string -> string,
                          markdown: string): string
  {
    WrapDocument(css, convert(PreprocessWith(icons, markdown)))
  }

  /** `convert_and_style`, reduced to the text it writes to the temporary
      file. */
  function ConvertAndStyle(convert: string -> string, markdown: string): string {
    StyledHtmlWith(GithubCss, AlertIcons, convert, markdown)
  }

  /** The body of the document is exactly what the converter made of the
      preprocessed text. */
  lemma StyledHtmlBody(css: string, icons: map<string, string>, convert: string -> string, markdown: string)
    ensures UnwrapDocument(css, StyledHtmlWith(css, icons, convert, markdown))
         == Some(convert(PreprocessWith(icons, markdown)))
  {
    UnwrapWrap(css, convert(PreprocessWith(icons, markdown)));
  }

  /** A text without alerts reaches the converter unchanged. */
  lemma StyledHtmlWithoutAlerts(css: string, icons: map<string, string>, convert: string -> string,
                                markdown: string)
    requires NoAlertIn(markdown, 0, |markdown|)
    ensures StyledHtmlWith(css, icons, convert, markdown) == WrapDocument(css, convert(markdown))
  {
    PreprocessUnchangedIff(icons, markdown);
  }

  /** What a run does once its arguments are parsed: stop because the input
      file does not exist, or convert into `pdf` through the temporary file
      `tempHtml`. */
  datatype Run = InputNotFound(message: string) | Convert(pdf: string, tempHtml: string)

  /** The run for an input path and an optional output path; whether the
      input exists is the answer of the file system. */
  function PlanRun(input: string, output: Option<string>, inputExists: bool): (r: Run)
    ensures r.InputNotFound? <==> !inputExists
  {
    if !inputExists then InputNotFound("Error: '" + input + "' not found.")
    else Convert(OutputPath(input, output), TempHtmlName(input))
  }

  /** A missing input stops the run with a message that names the input
      path between quotes. */
  lemma NotFoundNamesInput(input: string, output: Option<string>)
    ensures var r := PlanRun(input, output, false);
      && r.InputNotFound?
      && |r.message| == |input| + 20
      && r.message[..8] == "Error: '"
      && r.message[8..8 + |input|] == input
      && r.message[8 + |input|..] == "' not found."
  {
    var m := PlanRun(input, output, false).message;
    assert m == "Error: '" + input + "' not found.";
  }

  /** With no output path, an existing input is converted into the PDF
      next to it, named after its root, through the temporary file in the
      working directory. */
  lemma DefaultRunConverts(input: string, output: Option<string>)
    requires output.None? || output.value == ""
    ensures PlanRun(input, output, true) == Convert(DefaultOutputPath(input), TempHtmlName(input))
  {
  }

  /** When no output path is given, removing the temporary file never
      removes the PDF: the one ends in `.html`, the other in `.pdf`. */
  lemma DefaultRunKeepsPdf(input: string, output: Option<string>)
    requires output.None? || output.value == ""
    ensures var r := PlanRun(input, output, true);
      r.Convert? && r.pdf != r.tempHtml
  {
    var r := PlanRun(input, output, true);
    var pdf := DefaultOutputPath(input);
    TempHtmlNameShape(input);
    var t := TempHtmlName(input);
    assert pdf[|pdf| - 1] == 'f';
    assert t[|t| - 1] == ".html"[4];
  }

  /** A given, non-empty output path is used as it is. */
  lemma GivenOutputUsed(input: string, output: string)
    requires output != ""
    ensures PlanRun(input, Some(output), true) == Convert(output, TempHtmlName(input))
  {
  }
}
