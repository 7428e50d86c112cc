/**
 * The GitHub-like stylesheet embedded into every generated HTML document.
 * Its text is carried as data; the model never looks inside it.
 */
module GithubStyle {
  /** `get_github_css()`: the stylesheet, verbatim (it opens with a line
      break and ends with the indentation before the closing quotes). */
  const GithubCss: string := @"
        /* === BASE STYLES === */
        * {
            box-sizing: border-box;
        }

        html, body {
            margin: 0;
            padding: 0;
            background: #ffffff;
        }

        body {
            font-family: -apple-system, BlinkMacSystemFont, ""Segoe UI"", ""Noto Sans"", Helvetica, Arial, sans-serif, ""Apple Color Emoji"", ""Segoe UI Emoji"";
            font-size: 16px;
            line-height: 1.5;
            color: #1f2328;
            padding: 45px;
            max-width: 900px;
        }

        /* === TYPOGRAPHY === */
        h1, h2, h3, h4, h5, h6 {
            margin-top: 24px;
            margin-bottom: 16px;
            font-weight: 600;
            line-height: 1.25;
            color: #1f2328;
        }

        h1:first-child, h2:first-child, h3:first-child {
            margin-top: 0;
        }

        h1 {
            font-size: 2em;
            border-bottom: 1px solid #d1d9e0;
            padding-bottom: 0.3em;
        }

        h2 {
            font-size: 1.5em;
            border-bottom: 1px solid #d1d9e0;
            padding-bottom: 0.3em;
        }

        h3 { font-size: 1.25em; }
        h4 { font-size: 1em; }
        h5 { font-size: 0.875em; }
        h6 { font-size: 0.85em; color: #656d76; }

        p {
            margin-top: 0;
            margin-bottom: 16px;
        }

        a {
            color: #0969da;
            text-decoration: none;
        }

        a:hover {
            text-decoration: underline;
        }
        
        a code, a tt {
            color: #0969da;
        }
        
        strong, b {
            font-weight: 600;
        }

        em, i {
            font-style: italic;
        }

        /* === CODE BLOCKS === */
        code, tt {
            font-family: ui-monospace, SFMono-Regular, ""SF Mono"", Menlo, Consolas, ""Liberation Mono"", monospace;
            font-size: 85%;
            padding: 0.2em 0.4em;
            margin: 0;
            background-color: #eff1f3;
            border-radius: 6px;
            color: #1f2328;
        }

        pre {
            font-family: ui-monospace, SFMono-Regular, ""SF Mono"", Menlo, Consolas, ""Liberation Mono"", monospace;
            font-size: 85%;
            padding: 16px;
            overflow: auto;
            line-height: 1.45;
            background-color: #f6f8fa;
            border-radius: 6px;
            margin-top: 0;
            margin-bottom: 16px;
        }

        pre code, pre tt {
            display: inline;
            padding: 0;
            margin: 0;
            background-color: transparent;
            border: 0;
            font-size: 100%;
            line-height: inherit;
            word-wrap: normal;
        }

        /* === LISTS === */
        ul, ol {
            padding-left: 2em;
            margin-top: 0;
            margin-bottom: 16px;
        }

        ul {
            list-style-type: disc;
        }

        ol {
            list-style-type: decimal;
        }

        li {
            margin-top: 0.25em;
        }

        li + li {
            margin-top: 0.25em;
        }

        /* Nested lists */
        ul ul, ol ul {
            list-style-type: circle;
            margin-top: 0;
            margin-bottom: 0;
        }

        ul ol, ol ol {
            margin-top: 0;
            margin-bottom: 0;
        }

        li > p {
            margin-top: 16px;
        }

        li > p:first-child {
            margin-top: 0;
        }

        /* === BLOCKQUOTES === */
        blockquote {
            padding: 0 1em;
            color: #656d76;
            border-left: 0.25em solid #d0d7de;
            margin: 0 0 16px 0;
            background: transparent;
        }

        blockquote > :first-child {
            margin-top: 0;
        }

        blockquote > :last-child {
            margin-bottom: 0;
        }

        /* === TABLES === */
        table {
            border-spacing: 0;
            border-collapse: collapse;
            margin-top: 0;
            margin-bottom: 16px;
            display: block;
            width: max-content;
            max-width: 100%;
            overflow: auto;
        }

        th, td {
            padding: 6px 13px;
            border: 1px solid #d0d7de;
        }

        th {
            font-weight: 600;
            background-color: #f6f8fa;
        }

        tr {
            background-color: #ffffff;
        }

        tr:nth-child(2n) {
            background-color: #f6f8fa;
        }

        /* === HORIZONTAL RULE === */
        hr {
            height: 0.25em;
            padding: 0;
            margin: 24px 0;
            background-color: #d0d7de;
            border: 0;
        }

        /* === IMAGES === */
        img {
            max-width: 100%;
            box-sizing: content-box;
        }

        /* === GITHUB ALERTS === */
        .markdown-alert {
            padding: 8px 16px;
            margin-bottom: 16px;
            border-left-width: 4px;
            border-left-style: solid;
            border-radius: 0 6px 6px 0;
            display: block;
        }

        .markdown-alert > :first-child {
            margin-top: 0;
        }

        .markdown-alert > :last-child {
            margin-bottom: 0;
        }

        .markdown-alert p {
            margin-bottom: 8px;
        }

        .markdown-alert p:last-child {
            margin-bottom: 0;
        }

        .markdown-alert-title {
            display: flex;
            align-items: center;
            line-height: 1;
            font-weight: 600;
            margin-bottom: 4px;
        }

        .markdown-alert-title .octicon {
            margin-right: 8px;
            flex-shrink: 0;
            display: inline-block;
            vertical-align: text-bottom;
        }

        /* NOTE (Blue) */
        .markdown-alert-note {
            border-left-color: #0969da;
            background-color: #ddf4ff;
        }
        .markdown-alert-note .markdown-alert-title { color: #0969da; }
        .markdown-alert-note .octicon { fill: #0969da; }

        /* TIP (Green) */
        .markdown-alert-tip {
            border-left-color: #1a7f37;
            background-color: #dafbe1;
        }
        .markdown-alert-tip .markdown-alert-title { color: #1a7f37; }
        .markdown-alert-tip .octicon { fill: #1a7f37; }

        /* IMPORTANT (Purple) */
        .markdown-alert-important {
            border-left-color: #8250df;
            background-color: #fbefff;
        }
        .markdown-alert-important .markdown-alert-title { color: #8250df; }
        .markdown-alert-important .octicon { fill: #8250df; }

        /* WARNING (Yellow/Orange) */
        .markdown-alert-warning {
            border-left-color: #9a6700;
            background-color: #fff8c5;
        }
        .markdown-alert-warning .markdown-alert-title { color: #9a6700; }
        .markdown-alert-warning .octicon { fill: #9a6700; }

        /* CAUTION (Red) */
        .markdown-alert-caution {
            border-left-color: #cf222e;
            background-color: #ffebe9;
        }
        .markdown-alert-caution .markdown-alert-title { color: #cf222e; }
        .markdown-alert-caution .octicon { fill: #cf222e; }
    "
}
