/**
 * The file names the command line derives from its input path, with
 * POSIX path rules (`/` is the only separator): the default PDF path and
 * the temporary HTML file name.
 */
module Paths {
  import opened Wrappers
  import opened Text

  /** `s.rfind(c)`: the last index holding `c`, if any. */
  function LastIndex(s: string, c: char): (r: Option<nat>)
    ensures r.Some? ==> r.value < |s| && s[r.value] == c
    ensures forall k :: (if r.Some? then r.value + 1 else 0) <= k < |s| ==> s[k] != c
  {
    LastIndexIn(s, c, 0, |s|)
  }

  /** Where the last path component starts: after the last `/`. */
  function NameStart(p: string): (i: nat)
    ensures i <= |p|
    ensures forall k :: i <= k < |p| ==> p[k] != '/'
    ensures i == 0 || p[i - 1] == '/'
  {
    match LastIndex(p, '/')
    case None => 0
    case Some(k) => k + 1
  }

  /** `os.path.basename`: the text after the last `/`. */
  function Basename(p: string): (name: string)
    ensures '/' !in name
  {
    p[NameStart(p)..]
  }

  /** Only dots in `[i, j)`. */
  predicate AllDots(p: string, i: nat, j: nat)
    requires i <= j <= |p|
  {
    forall k :: i <= k < j ==> p[k] == '.'
  }

  /** Where `os.path.splitext` cuts the extension off: at the last dot of
      the last path component, provided something other than a dot comes
      before it in that component (so `.bashrc` has no extension). */
  function ExtStart(p: string): (i: nat)
    ensures i <= |p|
  {
    var start := NameStart(p);
    match LastIndex(p, '.')
    case None => |p|
    case Some(d) =>
      if start <= d && !AllDots(p, start, d) then d else |p|
  }

  /** `os.path.splitext(p)[0]`. */
  function Root(p: string): string {
    p[..ExtStart(p)]
  }

  /** `os.path.splitext(p)[1]`. */
  function Extension(p: string): string {
    p[ExtStart(p)..]
  }

  /** The default output: the input path with its extension replaced by
      `.pdf` (appended when there is none). */
  function DefaultOutputPath(input: string): (out: string)
    ensures |out| >= 4 && out[|out| - 4..] == ".pdf"
    ensures |out| - 4 <= |input| && out[..|out| - 4] == input[..|out| - 4]
  {
    Root(input) + ".pdf"
  }

  /** The output path used: the one given, unless it is missing or empty,
      which both count as not given. */
  function OutputPath(input: string, output: Option<string>): (out: string)
    ensures output.Some? && output.value != "" ==> out == output.value
    ensures output.None? || output.value == "" ==> out == DefaultOutputPath(input)
  {
    if output.Some? && output.value != "" then output.value else DefaultOutputPath(input)
  }

  /** The temporary HTML file: in the working directory, named after the
      input file. */
  function TempHtmlName(input: string): (name: string)
  {
    "temp_" + Basename(input) + ".html"
  }

  /** The base name is the last component: the path is a directory part,
      empty or ending with `/`, followed by the base name. */
  lemma BasenameSplits(p: string)
    ensures var name := Basename(p);
      && |name| <= |p|
      && p == p[..|p| - |name|] + name
      && (|name| == |p| || p[|p| - |name| - 1] == '/')
  {
    var i := NameStart(p);
    assert p == p[..i] + p[i..];
  }

  /** Joining a directory and a name without `/` and taking the base name
      gives back the name. */
  lemma BasenameOfJoin(dir: string, name: string)
    requires |dir| == 0 || dir[|dir| - 1] == '/'
    requires '/' !in name
    ensures Basename(dir + name) == name
  {
    var p := dir + name;
    assert |dir| > 0 ==> p[|dir| - 1] == '/';
    forall j | |dir| <= j < |p| ensures p[j] != '/' {
      assert p[j] == name[j - |dir|];
    }
    assert NameStart(p) == |dir|;
    assert p[|dir|..] == name;
  }

  /** The two halves of `splitext` put back together give the path; the
      extension is either empty or a dot followed by neither a dot nor a
      `/`, and the root then keeps something other than dots in its last
      component. */
  lemma SplitExtParts(p: string)
    ensures Root(p) + Extension(p) == p
    ensures Extension(p) == "" || (Extension(p)[0] == '.' && '.' !in Extension(p)[1..] && '/' !in Extension(p))
    ensures Extension(p) != "" ==> !AllDots(p, NameStart(p), |Root(p)|)
  {
    var i := ExtStart(p);
    assert p == p[..i] + p[i..];
    if i < |p| {
      var d := LastIndex(p, '.').value;
      assert i == d;
      assert Extension(p)[1..] == p[d + 1..];
      assert Extension(p) == p[NameStart(p)..][d - NameStart(p)..];
    }
  }

  /** A path whose last component has an extension `.ext` (with something
      other than dots before it) gets that extension replaced by `.pdf`. */
  lemma DefaultOutputReplacesExtension(stem: string, ext: string)
    requires '.' !in ext && '/' !in ext
    requires !AllDots(stem, NameStart(stem), |stem|)
    ensures DefaultOutputPath(stem + "." + ext) == stem + ".pdf"
  {
    var p := stem + "." + ext;
    var d := |stem|;
    assert p[d] == '.';
    assert p[d + 1..] == ext;
    LastIndexIs(p, '.', d);
    NameStartOfAppend(stem, "." + ext);
    assert p == stem + ("." + ext);
    var i := NameStart(stem);
    assert !AllDots(p, i, d) by {
      var k :| i <= k < d && stem[k] != '.';
      assert p[k] == stem[k];
    }
    assert Root(p) == stem;
  }

  /** A path without an extension gets `.pdf` appended. */
  lemma DefaultOutputAppends(p: string)
    requires Extension(p) == ""
    ensures DefaultOutputPath(p) == p + ".pdf"
  {
  }

  /** Appending text without `/` keeps the start of the last component. */
  lemma NameStartOfAppend(stem: string, tail: string)
    requires '/' !in tail
    ensures NameStart(stem + tail) == NameStart(stem)
  {
    var p := stem + tail;
    forall k | |stem| <= k < |p| ensures p[k] != '/' {
      assert p[k] == tail[k - |stem|];
    }
    var i := NameStart(stem);
    if i > 0 {
      LastIndexIs(p, '/', i - 1);
    }
  }

  /** The last occurrence of `c` is at `d` when `c` does not follow `d`. */
  lemma LastIndexIs(s: string, c: char, d: nat)
    requires d < |s| && s[d] == c && c !in s[d + 1..]
    ensures LastIndex(s, c) == Some(d)
  {
    forall i | d < i < |s| ensures s[i] != c {
      assert s[i] == s[d + 1..][i - d - 1];
    }
    LastIndexInIs(s, c, 0, |s|, d);
  }

  /** The temporary file lies in the working directory, and its name is
      the input's base name between `temp_` and `.html`. */
  lemma TempHtmlNameShape(input: string)
    ensures var t := TempHtmlName(input);
      && '/' !in t
      && t[..5] == "temp_"
      && t[|t| - 5..] == ".html"
      && t[5..|t| - 5] == Basename(input)
  {
    var t := TempHtmlName(input);
    var name := Basename(input);
    assert t == "temp_" + name + ".html";
    assert t[5..|t| - 5] == name;
    assert forall k :: 0 <= k < |t| ==> t[k] != '/' by {
      forall k | 0 <= k < |t| ensures t[k] != '/' {
        if 5 <= k < |t| - 5 {
          assert t[k] == name[k - 5];
        }
      }
    }
  }

  /** A file in the working directory: `notes.md` becomes `notes.pdf`. */
  lemma DefaultOutputOfPlainName()
    ensures DefaultOutputPath("notes.md") == "notes.pdf"
  {
    var p := "notes.md";
    LastIndexIs(p, '.', 5);
    assert NameStart(p) == 0;
    assert !AllDots(p, 0, 5) by { assert p[0] != '.'; }
    assert Root(p) == p[..5];
  }

  /** The directory is kept: `docs/readme.md` becomes `docs/readme.pdf`. */
  lemma DefaultOutputKeepsDirectory()
    ensures DefaultOutputPath("docs/readme.md") == "docs/readme.pdf"
  {
    var p := "docs/readme.md";
    LastIndexIs(p, '/', 4);
    LastIndexIs(p, '.', 11);
    assert !AllDots(p, 5, 11) by { assert p[5] != '.'; }
    assert Root(p) == p[..11];
  }

  /** Only the last extension is replaced: `archive.tar.gz` becomes
      `archive.tar.pdf`. */
  lemma DefaultOutputReplacesLastExtension()
    ensures DefaultOutputPath("archive.tar.gz") == "archive.tar.pdf"
  {
    var p := "archive.tar.gz";
    LastIndexIs(p, '.', 11);
    assert NameStart(p) == 0;
    assert !AllDots(p, 0, 11) by { assert p[0] != '.'; }
    assert Root(p) == p[..11];
  }

  /** A leading dot is no extension: `.bashrc` becomes `.bashrc.pdf`. */
  lemma DefaultOutputOfDotFile()
    ensures DefaultOutputPath(".bashrc") == ".bashrc.pdf"
  {
  }

  /** A dot in a directory name is no extension: `v1.2/notes` becomes
      `v1.2/notes.pdf`. */
  lemma DefaultOutputOfDottedDirectory()
    ensures DefaultOutputPath("v1.2/notes") == "v1.2/notes.pdf"
  {
    var p := "v1.2/notes";
    LastIndexIs(p, '/', 4);
    LastIndexIs(p, '.', 2);
    assert ExtStart(p) == |p|;
  }

  /** Worked case of the temporary file name: the directory is dropped and
      the extension kept. */
  lemma TempHtmlNameExample()
    ensures TempHtmlName("docs/readme.md") == "temp_readme.md.html"
  {
  }
}
