/**
 * Where the template bundlers write each page. A template under
 * `<src>templates/` is classified by its name (build/bundlers/bundle-templates.js),
 * moved under the package directory, and its extension replaced so that
 * most pages become `<name>/index.html`; a `.html.ejs` template becomes
 * `<name>.html`. The page path handed to the templates is the output
 * path without the package directory and without its first `index.html`.
 *
 * bundle-ejs.js globs every `.ejs` file, which includes the `.md.ejs`
 * ones, and writes those to `<name>.md/index.html`; bundle-markdown.js
 * writes the same templates to `<name>/index.html`.
 */
module TemplatePaths {
  import opened Text

  datatype FileType = Ejs | Markdown | MarkdownEjs

  /** The bundler's choice of processing, by file name. */
  function Classify(path: string): (r: FileType)
    ensures r == MarkdownEjs <==> EndsWith(path, ".md.ejs")
    ensures r == Markdown <==> EndsWith(path, ".md")
  {
    if EndsWith(path, ".md.ejs") then
      assert path[|path| - 1] == 's';
      MarkdownEjs
    else if EndsWith(path, ".md") then Markdown
    else Ejs
  }

  /** `s.replace(/<suffix>$/, r)` for a literal suffix. */
  function ReplaceSuffix(s: string, suffix: string, r: string): (res: string)
    ensures EndsWith(s, suffix) ==> res == s[..|s| - |suffix|] + r
    ensures !EndsWith(s, suffix) ==> res == s
  {
    if EndsWith(s, suffix) then s[..|s| - |suffix|] + r else s
  }

  /** `templatePath.replace(`${dir.src}templates/`, dir.package)` */
  function Relocate(path: string, src: string, package: string): string {
    ReplaceFirst(path, src + "templates/", package)
  }

  /** The output path of an EJS template (bundle-ejs.js, and the EJS case of bundle-templates.js). */
  function EjsOutputPath(path: string, src: string, package: string): string {
    ReplaceSuffix(Relocate(path, src, package), ".ejs", if Contains(path, ".html.ejs") then "" else "/index.html")
  }

  /** The output path of a Markdown template, with or without an EJS pass first. */
  function MarkdownOutputPath(path: string, src: string, package: string, mdEjs: bool): string {
    ReplaceSuffix(Relocate(path, src, package), if mdEjs then ".md.ejs" else ".md", "/index.html")
  }

  /** bundle-templates.js: the output path by file type. */
  function TemplateOutputPath(path: string, src: string, package: string): string {
    match Classify(path)
    case MarkdownEjs => MarkdownOutputPath(path, src, package, true)
    case Markdown => MarkdownOutputPath(path, src, package, false)
    case Ejs => EjsOutputPath(path, src, package)
  }

  /** `outputPath.replace(dir.package, '').replace('index.html', '')` */
  function PagePath(outputPath: string, package: string): string {
    ReplaceFirst(ReplaceFirst(outputPath, package, ""), "index.html", "")
  }

  // ---------------------------------------------------------------------

  lemma ReplaceSuffixOf(a: string, suffix: string, r: string)
    ensures ReplaceSuffix(a + suffix, suffix, r) == a + r
  {
    var s := a + suffix;
    assert s[|s| - |suffix|..] == suffix;
    assert s[..|s| - |suffix|] == a;
  }

  /** The templates directory prefix is swapped for the package directory. */
  lemma RelocateTemplate(src: string, package: string, rest: string)
    ensures Relocate(src + "templates/" + rest, src, package) == package + rest
  {
    assert src + "templates/" + rest == (src + "templates/") + rest;
    ReplaceFirstPrefix(src + "templates/", rest, package);
  }

  /** Moving a template and swapping its extension `ext` for `r`. */
  lemma SwapExtension(src: string, package: string, name: string, ext: string, r: string)
    ensures ReplaceSuffix(Relocate(src + "templates/" + name + ext, src, package), ext, r) == package + name + r
  {
    RelocateTemplate(src, package, name + ext);
    assert src + "templates/" + name + ext == src + "templates/" + (name + ext);
    assert package + (name + ext) == (package + name) + ext;
    ReplaceSuffixOf(package + name, ext, r);
  }

  /** A Markdown template run through EJS first is written to `<name>/index.html`. */
  lemma MarkdownEjsOutput(src: string, package: string, name: string)
    ensures TemplateOutputPath(src + "templates/" + name + ".md.ejs", src, package) == package + name + "/index.html"
  {
    var path := src + "templates/" + name + ".md.ejs";
    assert path[|path| - 7..] == ".md.ejs";
    assert Classify(path) == MarkdownEjs;
    SwapExtension(src, package, name, ".md.ejs", "/index.html");
  }

  /** A plain Markdown template is written to `<name>/index.html`. */
  lemma MarkdownOutput(src: string, package: string, name: string)
    ensures TemplateOutputPath(src + "templates/" + name + ".md", src, package) == package + name + "/index.html"
  {
    var path := src + "templates/" + name + ".md";
    assert path[|path| - 3..] == ".md";
    assert path[|path| - 1] == 'd';
    assert Classify(path) == Markdown;
    SwapExtension(src, package, name, ".md", "/index.html");
  }

  /**
   * A template classed as EJS (so not `<name>.md.ejs`) and not named
   * `.html.ejs` is written to `<name>/index.html`.
   */
  lemma EjsOutput(src: string, package: string, name: string)
    requires Classify(src + "templates/" + name + ".ejs") == Ejs
    requires !Contains(src + "templates/" + name + ".ejs", ".html.ejs")
    ensures TemplateOutputPath(src + "templates/" + name + ".ejs", src, package) == package + name + "/index.html"
  {
    SwapExtension(src, package, name, ".ejs", "/index.html");
  }

  /** A `.html.ejs` template keeps its `.html` name. */
  lemma HtmlTemplateOutput(src: string, package: string, name: string)
    ensures TemplateOutputPath(src + "templates/" + name + ".html.ejs", src, package) == package + name + ".html"
  {
    var path := src + "templates/" + name + ".html.ejs";
    EndsWithAppended(src + "templates/" + name, ".html.ejs");
    HtmlTemplateDropsEjs(path, src, package);
    ExtensionPairs();
    DoubleExtension(src, package, name, ".html", ".ejs", "");
    assert package + name + ".html" + "" == package + name + ".html";
  }

  /** The two double extensions, and the Markdown page name, split at their last `.` or `/`. */
  lemma ExtensionPairs()
    ensures ".html" + ".ejs" == ".html.ejs"
    ensures ".md" + ".ejs" == ".md.ejs"
    ensures ".md" + "/index.html" == ".md/index.html"
  {
  }

  /** Swapping the last extension `ext` of a name with two extensions, `inner` then `ext`. */
  lemma DoubleExtension(src: string, package: string, name: string, inner: string, ext: string, r: string)
    ensures ReplaceSuffix(Relocate(src + "templates/" + name + (inner + ext), src, package), ext, r) == package + name + inner + r
  {
    Regroup(src + "templates/" + name, inner, ext);
    Regroup(src + "templates/", name, inner);
    SwapExtension(src, package, name + inner, ext, r);
    Regroup(package, name, inner);
  }

  /** A path ending in `.html.ejs` is an EJS template whose output only loses the `.ejs`. */
  lemma HtmlTemplateDropsEjs(path: string, src: string, package: string)
    requires EndsWith(path, ".html.ejs")
    ensures TemplateOutputPath(path, src, package) == ReplaceSuffix(Relocate(path, src, package), ".ejs", "")
  {
    HtmlTemplateIsEjs(path);
    HtmlTemplateContains(path);
  }

  /** Neither `.md.ejs` nor `.md` ends a `.html.ejs` path. */
  lemma HtmlTemplateIsEjs(path: string)
    requires EndsWith(path, ".html.ejs")
    ensures Classify(path) == Ejs
  {
    assert path[|path| - 9..][8] == 's' && path[|path| - 9..][4] == 'l';
  }

  /** A path ending in `.html.ejs` contains it. */
  lemma HtmlTemplateContains(path: string)
    requires EndsWith(path, ".html.ejs")
    ensures Contains(path, ".html.ejs")
  {
    assert OccursAt(path, ".html.ejs", |path| - 9);
    ContainsIff(path, ".html.ejs");
  }

  /**
   * bundle-ejs.js also picks up `.md.ejs` templates and writes them to
   * `<name>.md/index.html`, a different file from the one
   * bundle-markdown.js writes for the same template.
   */
  lemma EjsBundlerOnMarkdown(src: string, package: string, name: string)
    requires !Contains(src + "templates/" + name + ".md.ejs", ".html.ejs")
    ensures EjsOutputPath(src + "templates/" + name + ".md.ejs", src, package) == package + name + ".md/index.html"
    ensures MarkdownOutputPath(src + "templates/" + name + ".md.ejs", src, package, true) == package + name + "/index.html"
    ensures package + name + ".md/index.html" != package + name + "/index.html"
  {
    ExtensionPairs();
    DoubleExtension(src, package, name, ".md", ".ejs", "/index.html");
    Regroup(package + name, ".md", "/index.html");
    SwapExtension(src, package, name, ".md.ejs", "/index.html");
    DifferentTails(package + name, ".md/index.html", "/index.html");
  }

  /** `index.html` never straddles a `/`, so it is first found after `<name>/` when `name` lacks it. */
  lemma FirstIndexHtml(name: string)
    requires !Contains(name, "index.html")
    ensures IndexOf(name + "/index.html", "index.html") == |name| + 1
  {
    var s := name + "/index.html";
    var p := "index.html";
    ContainsIff(name, p);
    forall k: nat | k < |name| + 1
      ensures !OccursAt(s, p, k)
    {
      if k + |p| <= |name| {
        assert !OccursAt(name, p, k);
        assert s[k..k + |p|] == name[k..k + |p|];
      } else if k + |p| <= |s| {
        assert s[|name|] == '/';
        assert s[k..k + |p|][|name| - k] == '/';
        assert p[|name| - k] != '/';
      }
    }
    assert s[|name| + 1..|name| + 1 + |p|] == p;
    assert OccursAt(s, p, |name| + 1);
  }

  /** The page path of `<name>/index.html` is `<name>/`. */
  lemma PagePathOfIndex(package: string, name: string)
    requires !Contains(name, "index.html")
    ensures PagePath(package + name + "/index.html", package) == name + "/"
  {
    Regroup(package, name, "/index.html");
    PagePathUnder(package, name + "/index.html");
    IndexHtmlDropped(name);
  }

  /** The page path of an output path under the package directory drops the first `index.html` of the rest. */
  lemma PagePathUnder(package: string, rest: string)
    ensures PagePath(package + rest, package) == ReplaceFirst(rest, "index.html", "")
  {
    ReplaceFirstPrefix(package, rest, "");
    assert "" + rest == rest;
  }

  /** Dropping the first `index.html` from `<name>/index.html` leaves `<name>/`. */
  lemma IndexHtmlDropped(name: string)
    requires !Contains(name, "index.html")
    ensures ReplaceFirst(name + "/index.html", "index.html", "") == name + "/"
  {
    FirstIndexHtml(name);
    var s := name + "/index.html";
    assert s[..|name| + 1] == name + "/";
    assert s[|name| + 1 + 10..] == "";
  }

  /** Without `index.html` in it, the page path is the output path under the package directory. */
  lemma PagePathOfOther(package: string, rest: string)
    requires !Contains(rest, "index.html")
    ensures PagePath(package + rest, package) == rest
  {
    ReplaceFirstPrefix(package, rest, "");
    assert "" + rest == rest;
  }
}
