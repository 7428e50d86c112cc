/**
 * The complete HTML document written for the browser: a fixed head that
 * embeds the stylesheet, the converted body, and a fixed tail.
 */
module Document {
  import opened Wrappers
  import opened GithubStyle

  /** Everything before the stylesheet, up to and including `<style>` and
      its line break. */
  const HeadOpen: string :=
    "<!DOCTYPE html>\n<html lang=\"en\">\n<head>\n"
    + "    <meta charset=\"UTF-8\">\n"
    + "    <meta name=\"viewport\" content=\"width=device-width, initial-scale=1.0\">\n"
    + "    <title>Document</title>\n"
    + "    <style>\n"

  /** Everything between the stylesheet and the body. */
  const HeadClose: string := "\n    </style>\n</head>\n<body>\n"

  /** Everything after the body. */
  const Tail: string := "\n</body>\n</html>\n"

  /** The document head around a given stylesheet. */
  function Head(css: string): string {
    HeadOpen + css + HeadClose
  }

  /** The document template filled with a stylesheet and a body: the body
      sits between the head and the tail, untouched. */
  function WrapDocument(css: string, body: string): (doc: string)
    ensures |doc| == |Head(css)| + |body| + |Tail|
    ensures doc[..|Head(css)|] == Head(css)
    ensures doc[|Head(css)|..|doc| - |Tail|] == body
    ensures doc[|doc| - |Tail|..] == Tail
  {
    var doc := Head(css) + body + Tail;
    assert doc[..|Head(css)|] == Head(css);
    assert doc[|Head(css)|..|doc| - |Tail|] == body;
    doc
  }

  /** `create_html_document`: the template filled with the GitHub
      stylesheet. */
  function CreateHtmlDocument(body: string): string {
    WrapDocument(GithubCss, body)
  }

  /** The body of a document made from the template with stylesheet `css`,
      or `None` when the text does not have the template's head and tail. */
  function UnwrapDocument(css: string, doc: string): (r: Option<string>)
    ensures r.Some? ==> |Head(css)| + |r.value| + |Tail| == |doc|
  {
    var head := Head(css);
    if |head| + |Tail| <= |doc| && doc[..|head|] == head && doc[|doc| - |Tail|..] == Tail
    then Some(doc[|head|..|doc| - |Tail|])
    else None
  }

  /** The body can always be read back from a document. */
  lemma UnwrapWrap(css: string, body: string)
    ensures UnwrapDocument(css, WrapDocument(css, body)) == Some(body)
  {
    var doc := WrapDocument(css, body);
    assert |Head(css)| + |Tail| <= |doc|;
  }

  /** A text with the template's head and tail is the document of the body
      between them. */
  lemma WrapUnwrap(css: string, doc: string)
    requires UnwrapDocument(css, doc).Some?
    ensures WrapDocument(css, UnwrapDocument(css, doc).value) == doc
  {
    var head := Head(css);
    var body := UnwrapDocument(css, doc).value;
    assert doc == doc[..|head|] + doc[|head|..|doc| - |Tail|] + doc[|doc| - |Tail|..];
  }

  /** Different bodies give different documents. */
  lemma WrapInjective(css: string, b1: string, b2: string)
    ensures WrapDocument(css, b1) == WrapDocument(css, b2) <==> b1 == b2
  {
    if WrapDocument(css, b1) == WrapDocument(css, b2) {
      UnwrapWrap(css, b1);
      UnwrapWrap(css, b2);
    }
  }

  /** The document starts with the doctype line and ends with the closing
      `html` tag and a line break, whatever the stylesheet and body. */
  lemma DocumentFrame(css: string, body: string)
    ensures var doc := WrapDocument(css, body);
      && doc[..16] == "<!DOCTYPE html>\n"
      && doc[|doc| - 8..] == "</html>\n"
  {
    var doc := WrapDocument(css, body);
    assert Head(css)[..16] == HeadOpen[..16];
    assert doc[..16] == Head(css)[..16];
    assert doc[|doc| - 8..] == Tail[|Tail| - 8..];
  }
}
