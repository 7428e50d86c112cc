# md2pdf core, modelled in Dafny

`md2pdf.py` converts a Markdown file into a PDF with GitHub styling. This
project models the pure string transformations at its core.

- **The alert preprocessor** (`preprocess_github_alerts`). One left-to-right
  regular-expression pass finds GitHub-style callouts:
  - a line `> [!NOTE]` (or `TIP`, `IMPORTANT`, `WARNING`, `CAUTION`, in any
    letter case);
  - followed by a run of lines that start with `>`.

  Each callout becomes a fixed HTML `<div>` fragment with the kind's CSS
  class, icon, title and the stripped body text. Everything else is copied
  through unchanged.
- **The icon and title tables**, `ALERT_ICONS` and `ALERT_TITLES`.
- **The document template** (`create_html_document`). It wraps an HTML body
  between a fixed head, which embeds the GitHub stylesheet verbatim, and a
  fixed tail.
- **The conversion pipeline** (`convert_and_style`), reduced to the text it
  writes. The Markdown converter is a function parameter.
- **The file names `main` derives**:
  - the default PDF path `splitext(input)[0] + ".pdf"`, when no output path
    is given;
  - the temporary HTML name `"temp_" + basename(input) + ".html"`;
  - the error message for a missing input.

## Modules

| file | module | what it holds |
|---|---|---|
| `wrappers.dfy` | `Wrappers` | `Option` and `Lookup`, which is `dict.get` with a default |
| `text.dfy` | `Text` | Python's `str.isspace`, `split("\n")`, `"\n".join`, `strip`, `lower` and `capitalize`, restricted to ASCII case |
| `alert_kinds.dfy` | `AlertKinds` | the five kinds, their lowercase names, the two tables, and the case-insensitive kind token |
| `alert_match.dfy` | `AlertMatch` | the alert pattern as a scanner over the text, with a declarative statement of the match proved equal to it |
| `alert_body.dfy` | `AlertBody` | `replace_alert`'s body cleaning: `re.sub(r"^>\s?", "", line)` per line, join, strip |
| `substitution.dfy` | `Substitution` | `re.sub`'s left-to-right, non-overlapping substitution, for any matcher |
| `alerts.dfy` | `Alerts` | the fragment, the replacement for a match, and the whole pass `Preprocess` |
| `alert_sources.dfy` | `AlertSources` | alerts as a writer would type them, and the proof that the pass turns each into its fragment |
| `alert_examples.dfy` | `AlertExamples` | worked cases on concrete texts |
| `github_style.dfy` | `GithubStyle` | the stylesheet text, verbatim |
| `document.dfy` | `Document` | the HTML template |
| `paths.dfy` | `Paths` | POSIX `os.path.basename` and `os.path.splitext`, and the two derived file names |
| `pipeline.dfy` | `Pipeline` | Markdown to styled HTML, and what a run does once its arguments are parsed |

### How the regular expression is read

The pattern is
`^>\s*\[!(NOTE|TIP|IMPORTANT|WARNING|CAUTION)\]\s*\n((?:>.*(?:\n|$))*)`,
with `MULTILINE` and `IGNORECASE`. The scanner follows Python's `re`
semantics:

- `^` matches at the start of the text or just after a `\n`.
- `\s` also matches line breaks. So the whitespace after `>` may run onto
  the next line, and the whitespace after `]` may swallow blank lines.
- Greedy `\s*\n` backtracks to the last line break of the whitespace run
  after `]`. The body starts right after that line break.
- The body is the longest run of lines that begin with `>`. Each line takes
  its `\n`, and the last line may instead end at the end of the text.
- A nested `> [!TIP]` line inside a body is body text. It is not matched
  again.
- `re.sub` tries every position from left to right. After a match it
  resumes at the match's end. Matches are never empty.

`AlertMatch.MatchAtExact` proves that the scanner and the declarative
reading (`IsMatch`) agree exactly.

## Model

| member | source | states |
|---|---|---|
| Text.SkipSpaces | md2pdf.py:369 | `\s*` takes the longest run of whitespace: every skipped character is whitespace and the next one is not |
| Text.SkipSpacesUnique | md2pdf.py:369 | only one position ends a maximal whitespace run, so `\s*` has a single greedy extent |
| Text.Split | md2pdf.py:380 | `split("\n")` yields at least one piece, no piece holds a line break, and joining the pieces with `\n` gives the text back |
| Text.SplitJoin | md2pdf.py:380-385 | splitting the `\n`-join of a non-empty list of line-free pieces gives the pieces back, so on such lists split undoes join (`Join([])` is `""`, which splits to `[""]`) |
| Text.Strip | md2pdf.py:385 | `strip()` returns a piece of its input; only whitespace lies before and after the piece, and neither end of a non-empty result is whitespace |
| Text.StripExact | md2pdf.py:385 | whitespace, then a text not starting or ending with whitespace, then whitespace strips to exactly that text |
| Text.IsSpace | md2pdf.py:369-385 | no contract of its own: it lists exactly the code points of Python's `Py_UNICODE_ISSPACE`, the whitespace class of `\s` and `strip()`: U+0009 to U+000D, U+001C to U+001F, U+0020, U+0085, U+00A0, U+1680, U+2000 to U+200A, U+2028, U+2029, U+202F, U+205F and U+3000 |
| Text.Join | md2pdf.py:385 | no contract of its own: it is `"\n".join`; `Text.SplitJoin` and `Text.Split` make it the inverse of `split("\n")`, and `AlertBody.ExtractQuoteLines` shows what it gives on a body |
| Text.Lower | md2pdf.py:374 | no contract of its own: it lowercases ASCII letters; the token it is applied to always matches a kind name ignoring ASCII case, so this is `.lower()` there, and `AlertKinds.TokenLowersToName` states the result |
| Text.Capitalize | md2pdf.py:388 | no contract of its own: `.capitalize()` on ASCII; `AlertKinds.TitlesAreCapitalisedNames` states that it gives each kind's `ALERT_TITLES` entry, so the fallback agrees with the table |
| Wrappers.Lookup | md2pdf.py:387-388 | no contract of its own: it is `dict.get(key, default)`; `AlertKinds.IconOfKind` states that looking up a kind's name in `ALERT_ICONS` never takes the default, and `Alerts.ReplacementShape` that the title lookup of a match never does |
| Text.StripAppendSpace | md2pdf.py:385 | trailing whitespace does not change what `strip()` returns |
| AlertKinds.Name | md2pdf.py:369 | each kind's lowercase name reads back as that kind, so the five names are distinct |
| AlertKinds.TitlesCoverKinds | md2pdf.py:23-29 | every kind name is a key of `ALERT_TITLES`, and every key names a kind |
| AlertKinds.IconsCoverKinds | md2pdf.py:15-21 | every kind has an entry in `ALERT_ICONS` |
| AlertKinds.IconKeyNamesKind | md2pdf.py:15-21 | every key of `ALERT_ICONS` reads back as a kind whose name it is, so the table holds nothing but the five kinds |
| AlertKinds.IconOfKind | md2pdf.py:15-21 | looking up a kind's name in `ALERT_ICONS` gives that kind's SVG icon, never the `""` default |
| AlertKinds.TitlesAreCapitalisedNames | md2pdf.py:23-29 | the names are lowercase and each title is its name capitalised, so the `capitalize()` fallback would give the same title |
| AlertKinds.KindAt | md2pdf.py:369 | the kind alternation at a position accepts a kind exactly when its name, in any letter case and followed by `]`, is there |
| AlertKinds.KindTokenUnique | md2pdf.py:369 | at most one kind's token followed by `]` can start at a position |
| AlertKinds.TokenLowersToName | md2pdf.py:374 | the matched token, lowercased, is the kind's name; this is the CSS class suffix and the table key |
| AlertKinds.InfoIsNoKind | md2pdf.py:369 | `INFO]` names none of the five kinds |
| AlertMatch.BodyEnd | md2pdf.py:369 | the body run ends at a line boundary; every line it holds begins with `>` and the line after it does not |
| AlertMatch.BodyEndUnique | md2pdf.py:369 | that end is unique, so the body capture is greedy and stops at the first line not starting with `>` |
| AlertMatch.MarkerAtExact | md2pdf.py:369 | `^>\s*\[!KIND\]` matches at a position with a given kind and token start exactly when the position starts a line, holds `>`, then only whitespace, then `[!` and the kind's token with `]` |
| AlertMatch.BreakAfterExact | md2pdf.py:369 | `\s*\n` after `]` succeeds with the body starting at `b` exactly when only whitespace lies up to `b`, `b` follows a `\n`, and no further `\n` comes before the next non-whitespace character |
| AlertMatch.MatchAt | md2pdf.py:368-371 | a match found at `p` has its kind token after `p`, its body after the token, and its body end inside the text; `AlertMatch.MatchAtExact` characterises it completely |
| AlertMatch.MatchAtExact | md2pdf.py:368-371 | the pattern matches at a position with a given match exactly when the marker, the line break and the greedy body hold there |
| AlertMatch.MatchNeedsQuote | md2pdf.py:369 | a match starts only at the beginning of a line that opens with `>` |
| AlertBody.CleanLine | md2pdf.py:379-382 | the cleaned line is a suffix of the line and is shorter exactly when the line starts with `>`; it loses at most two characters, the second only if it is whitespace, and when it loses one, the rest does not start with whitespace |
| AlertBody.CleanQuote | md2pdf.py:379-382 | cleaning `"> " + line` gives back `line`, whatever it holds |
| AlertBody.CleanBareQuote | md2pdf.py:379-382 | cleaning `">" + line` gives back `line` when the line does not start with whitespace |
| AlertBody.ExtractContent | md2pdf.py:376-385 | the content neither starts nor ends with whitespace |
| AlertBody.SplitQuoteLines | md2pdf.py:380 | splitting a quoted block gives the quoted lines and a final empty piece |
| AlertBody.ExtractQuoteLines | md2pdf.py:376-385 | quoting lines with `> ` and extracting the content gives the lines joined by `\n` and stripped |
| AlertBody.ExtractOneLine | md2pdf.py:379-385 | one quoted line yields that line when it does not start or end with whitespace |
| AlertBody.ExtractTwoLinesOf | md2pdf.py:379-385 | two quoted line-free lines, the first not starting and the second not ending with whitespace, yield the two lines joined by `\n` |
| AlertBody.ExtractHello | md2pdf.py:379-385 | the body `> Hello\n` yields the content `Hello` |
| AlertBody.ExtractTwoLines | md2pdf.py:379-385 | the body `> line1\n> line2\n` yields the content `line1\nline2` |
| Substitution.Sub | md2pdf.py:399 | no contract of its own: `Substitution.SubCopies`, `Substitution.SubAtFirstHit` and `Substitution.SubUnchangedIff` characterise it |
| Substitution.NextHit | md2pdf.py:399 | the first position from `i` on where the pattern matches, with no match before it; none when there is none |
| Substitution.SubCopies | md2pdf.py:399 | text in which the pattern matches nowhere is copied unchanged |
| Substitution.SubAtFirstHit | md2pdf.py:399 | substitution keeps the text before the first match, emits its replacement, and resumes at the match's end |
| Substitution.SubUnchangedIff | md2pdf.py:399 | when every replacement differs from the text at its match in the first character, substitution returns the text unchanged exactly when nothing matches |
| Alerts.Fragment | md2pdf.py:391-397 | no contract of its own: `Alerts.FragmentOpensWithBreak` states its opening, and `Alerts.ReplacementShape` which class, icon, title and content it is filled with |
| Alerts.FragmentOpensWithBreak | md2pdf.py:391-397 | every fragment is non-empty and opens with a line break |
| Alerts.Replacement | md2pdf.py:373-397 | every replacement is non-empty and opens with a line break, so it never equals the `>` it replaces; `Alerts.ReplacementShape` states its parts |
| Alerts.Token | md2pdf.py:374 | no contract of its own: it is `match.group(1)`, the token as written; `AlertKinds.TokenLowersToName` states that it lowercases to the kind's name |
| Alerts.AlertHit | md2pdf.py:368-397 | where the pattern matches at a position, the match ends after that position and inside the text; `AlertMatch.MatchAtExact` and `Alerts.ReplacementShape` state which match it is and what it is replaced by |
| Alerts.AlertsAdvance | md2pdf.py:368-371 | every match of the alert pattern is non-empty and lies inside the text |
| Alerts.ReplacementShape | md2pdf.py:373-397 | a match is replaced by the fragment whose class suffix is the kind's lowercase name, and whose icon, title and content are the kind's icon, the kind's `ALERT_TITLES` entry and the extracted body |
| Alerts.PreprocessWith | md2pdf.py:354-399 | no contract of its own: `Alerts.PreprocessUnchangedIff` says when the pass changes nothing, and `Alerts.PreprocessAtNextAlert`, applied from each scan position, carries the pass from one alert to the next, with `AlertSources.TailWithoutAlerts` copying the tail after the last one |
| Alerts.Preprocess | md2pdf.py:354-399 | no contract of its own: it is `Alerts.PreprocessWith` on the real icon table, so every lemma about that applies to it |
| Alerts.PreprocessUnchangedIff | md2pdf.py:354-399 | the pass returns its input unchanged exactly when the alert pattern matches nowhere in it |
| Alerts.UnchangedWithoutQuotes | md2pdf.py:368-399 | a text none of whose lines starts with `>` is returned unchanged |
| Alerts.PreprocessAtFirstAlert | md2pdf.py:368-399 | the pass keeps the text before the first alert, emits that alert's fragment, and carries on after the alert's body |
| Alerts.UnchangedWithoutMarkers | md2pdf.py:368-399 | a text holding no alert marker (`>` at a line start, optional whitespace, `[!`, a kind's name in any case, `]`) is returned unchanged |
| Alerts.PreprocessAtNextAlert | md2pdf.py:368-399 | from any position `i` with no alert before the next one at `p`, the pass keeps `s[i..p]`, emits that alert's fragment, and carries on after the alert's body |
| AlertSources.SourceMatches | md2pdf.py:368-371 | an alert written as `>`, whitespace, `[!token]`, whitespace, a line break and `> `-quoted lines matches where it starts a line, with the token's kind; the body ends after its last quoted line when a line not starting with `>` (or the end) follows |
| AlertSources.SourceBodyText | md2pdf.py:369 | the captured body of such an alert is exactly its quoted lines |
| AlertSources.NoAlertWithoutQuote | md2pdf.py:369 | text holding no `>` holds no alert |
| AlertSources.TailWithoutAlerts | md2pdf.py:399 | a tail in which the alert pattern matches nowhere is copied unchanged |
| AlertSources.FirstAlertAt | md2pdf.py:354-399 | a written alert at a line start, with no alert before it and no quoted line right after it, becomes its fragment, and the pass goes on after it |
| AlertSources.NextAlertAt | md2pdf.py:354-399 | from any position with no alert before it, a written alert at a line start, not followed by a quoted line, becomes its fragment, the text before it is kept, and the pass goes on after it |
| AlertSources.PreprocessAlertAt | md2pdf.py:354-399 | a written alert at a line start, not followed by a quoted line and with the pattern matching nowhere before or after it, becomes its fragment, and the rest of the text is kept |
| AlertSources.PreprocessAlertSource | md2pdf.py:354-399 | `pre + alert + post` becomes `pre + fragment + post`; the fragment carries the kind's lowercase name, its icon and title, and the body lines joined by `\n` and stripped |
| AlertSources.PreprocessTwoAlerts | md2pdf.py:354-399 | `pre + alert1 + mid + alert2 + post` becomes `pre + fragment1 + mid + fragment2 + post` when `pre`, `mid` and `post` hold no `>`, `mid` ends with a line break, and `pre` is empty or ends with one |
| AlertExamples.NoteAlert | md2pdf.py:368-397 | `> [!NOTE]\n> Hello\n` becomes the `note` fragment with title `Note` and content `Hello` |
| AlertExamples.MixedCaseTip | md2pdf.py:368-399 | `>[!tIp]` is recognised, its class is `tip` and its title `Tip`; the body is stripped, and the lines before and after are kept |
| AlertExamples.TwoAlerts | md2pdf.py:368-399 | a note and a tip in one document each become their fragment, and the line between them is kept |
| AlertExamples.NestedMarkerIsBody | md2pdf.py:369 | a `> [!TIP]` line inside a note's body is body text, not a second alert |
| AlertExamples.BlankLineAfterMarker | md2pdf.py:369 | a blank line between the marker and the body is absorbed by `\s*\n` |
| AlertExamples.InfoUnchanged | md2pdf.py:369-370 | `> [!INFO]\n> text\n` is returned unchanged |
| Document.WrapDocument | md2pdf.py:442-456 | the document is the head, then the body untouched, then the tail |
| Document.CreateHtmlDocument | md2pdf.py:430-456 | no contract of its own: it is `Document.WrapDocument` with the GitHub stylesheet, so `Document.UnwrapWrap` and `Document.WrapInjective` apply to it |
| Document.UnwrapWrap | md2pdf.py:442-456 | the body can always be read back from the document |
| Document.WrapUnwrap | md2pdf.py:442-456 | a text with the template's head and tail is the document of the body between them |
| Document.WrapInjective | md2pdf.py:442-456 | two documents are equal exactly when their bodies are |
| Document.DocumentFrame | md2pdf.py:442-456 | every document starts with the doctype line and ends with `</html>` and a line break |
| Paths.NameStart | md2pdf.py:548 | the last path component starts after the last `/`, and holds no `/` |
| Paths.Basename | md2pdf.py:548 | the base name holds no `/` |
| Paths.BasenameSplits | md2pdf.py:548 | the path is a directory part, empty or ending in `/`, followed by the base name |
| Paths.BasenameOfJoin | md2pdf.py:548 | joining a directory part and a name without `/`, then taking the base name, gives the name |
| Paths.ExtStart | md2pdf.py:540 | the cut point of `splitext` lies inside the path; `Paths.SplitExtParts`, `Paths.DefaultOutputReplacesExtension` and `Paths.DefaultOutputAppends` state where it is: at the last dot of the last component unless that component is all dots before it, else at the end |
| Paths.Root | md2pdf.py:540 | no contract of its own: `Paths.SplitExtParts` states that root and extension together are the path |
| Paths.Extension | md2pdf.py:540 | no contract of its own: `Paths.SplitExtParts` states that the extension is empty or one dot-led, dot-free piece of the last component |
| Paths.SplitExtParts | md2pdf.py:540 | root plus extension is the path; the extension is empty or a dot followed by no dot and no `/`; a non-empty extension has something other than dots before it in the last component |
| Paths.DefaultOutputPath | md2pdf.py:540 | the default output ends with `.pdf` and starts with a prefix of the input |
| Paths.DefaultOutputReplacesExtension | md2pdf.py:540 | `stem.ext` becomes `stem.pdf` when `ext` has no dot or `/` and the stem's last component is not all dots |
| Paths.DefaultOutputAppends | md2pdf.py:540 | a path without an extension gets `.pdf` appended |
| Paths.OutputPath | md2pdf.py:540 | a given, non-empty output path is used; a missing or empty one falls back to the default |
| Paths.TempHtmlName | md2pdf.py:548 | no contract of its own: `Paths.TempHtmlNameShape` states its shape |
| Paths.TempHtmlNameShape | md2pdf.py:548 | the temporary name holds no `/`, so it lies in the working directory; it is `temp_`, the input's base name, then `.html` |
| Paths.DefaultOutputOfPlainName | md2pdf.py:540 | `notes.md` gives `notes.pdf` |
| Paths.DefaultOutputKeepsDirectory | md2pdf.py:540 | `docs/readme.md` gives `docs/readme.pdf` |
| Paths.DefaultOutputReplacesLastExtension | md2pdf.py:540 | `archive.tar.gz` gives `archive.tar.pdf` |
| Paths.DefaultOutputOfDotFile | md2pdf.py:540 | `.bashrc` has no extension and gives `.bashrc.pdf` |
| Paths.DefaultOutputOfDottedDirectory | md2pdf.py:540 | a dot in a directory name is no extension: `v1.2/notes` gives `v1.2/notes.pdf` |
| Paths.TempHtmlNameExample | md2pdf.py:548 | `docs/readme.md` gives `temp_readme.md.html` |
| Pipeline.ConvertAndStyle | md2pdf.py:459-484 | no contract of its own: it is the styled document for the GitHub stylesheet and icon table, which `Pipeline.StyledHtmlBody` and `Pipeline.StyledHtmlWithoutAlerts` characterise |
| Pipeline.StyledHtmlBody | md2pdf.py:473-480 | the styled document's body is exactly what the converter made of the preprocessed text |
| Pipeline.StyledHtmlWithoutAlerts | md2pdf.py:473-480 | a text without alerts reaches the converter unchanged |
| Pipeline.PlanRun | md2pdf.py:539-548 | a run stops exactly when the input does not exist, and converts otherwise |
| Pipeline.NotFoundNamesInput | md2pdf.py:542-544 | a missing input stops the run with `Error: '`, the input path and `' not found.` |
| Pipeline.DefaultRunConverts | md2pdf.py:539-548 | with no output path, an existing input is converted into `splitext(input)[0] + ".pdf"` through `temp_` + base name + `.html` |
| Pipeline.DefaultRunKeepsPdf | md2pdf.py:540-556 | with the default output path, the PDF and the temporary file are different files, so removing the temporary file never removes the PDF |
| Pipeline.GivenOutputUsed | md2pdf.py:540 | a given, non-empty output path is the PDF path of the run |

## Left out

- Reading and writing files: the model deals only in the texts involved. This covers `convert_and_style`'s file I/O, `os.path.exists`, which is a parameter of `PlanRun`, and the `finally` removal of the temporary file.
- `install_dependencies`: it runs pip and probes for a browser, which are foreign effects.
- `convert_markdown_to_html`: a wrapper around the external `markdown` library, so the pipeline takes the converter as a function parameter.
- `print_to_pdf`: Playwright browser automation, URL building, timeouts and page margins, all inside an external engine.
- `argparse`, printed messages other than the not-found one, and exit statuses: the model stops at the parsed arguments and the run it plans.
- What the CSS and SVG markup mean: the stylesheet and icons are kept as opaque, verbatim string constants.
- The stylesheet in proofs: it is large, so the template and pass are proved for any stylesheet (`css`) and any icon table (`icons`). `CreateHtmlDocument`, `ConvertAndStyle` and `Preprocess` instantiate them with the real constants.
- Theme profiles, configuration files and logo or branding assembly: `md2pdf.py` has none of these.
- Windows paths: `basename` and `splitext` follow the POSIX rules (`/` only). Drive letters and `\` separators are not modelled.
- `IGNORECASE` beyond ASCII: Python also folds a few non-ASCII letters onto ASCII ones. The dotless `ı`, for instance, matches `i` in `TIP`, and its lowercased token then misses both tables. The model folds ASCII letters only.
- Line endings: `convert_and_style` opens the file in text mode (md2pdf.py:470), so Python turns `\r\n` and a lone `\r` into `\n` before the pass runs. The `markdown` that `Pipeline.ConvertAndStyle` takes is the text after that translation, and the pass itself only ever sees `\n`.
- Lone surrogates: a Python `str` can hold the code points U+D800 to U+DFFF on their own, and Dafny's `char` cannot. Text read as strict UTF-8, as `convert_and_style` reads it, never holds them.
- AlertSources.PreprocessAlertSource: it requires that the text before and after the alert holds no `>`. `AlertSources.PreprocessAlertAt` asks only that the pattern matches nowhere there. For a text with several alerts, `Alerts.PreprocessAtNextAlert` and `AlertSources.NextAlertAt` carry the pass from one alert to the next, starting at any position, and `AlertSources.PreprocessTwoAlerts` states the result for two alerts. No lemma states the result for any number of alerts at once.
- AlertSources.PreprocessAlertSource: its alerts have at least one body line and quote every line with `> `. An empty body or bare `>` lines are covered only by the general `AlertMatch.MatchAtExact` and `Alerts.ReplacementShape`.
