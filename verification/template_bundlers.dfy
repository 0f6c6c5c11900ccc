/**
 * The three template bundlers: build/bundlers/bundle-ejs.js,
 * bundle-markdown.js and bundle-templates.js. Each globs its templates
 * and walks them in a `for` loop that awaits the render of one template
 * before starting the next. A rendered page is then written
 * asynchronously under its output path; each finished write increments
 * `processed` and, on every write that sees `processed >= glob.length`,
 * publishes templatesMoved. A render that rejects is counted in the
 * `.catch` instead, without any check.
 *
 * `renderTemplate` rejects with no reason, so the bundler's `.catch`
 * never rethrows, even in production: it counts the template and returns
 * `undefined`. The process then ends on an error nobody handles: the
 * `undefined` page handed to `fs.writeFile` makes Node throw in the
 * `mkdirp` callback, and after a failed layout read the `.then` calls
 * `toString` on `undefined`. In production a failed layout read throws
 * inside a detached `.catch` instead: the render never settles and that
 * unhandled rejection ends the process. Once the process has ended the
 * run takes no step.
 *
 * The renderer and the glob are parameters: each `Render` step is given
 * how the awaited render settled.
 */
module TemplateBundlers {
  import opened BuildEvents
  import opened EventBus
  import opened BuildContext
  import opened Joins
  import opened TemplatePaths
  import opened Text
  import opened Wrappers
  import ErrorPage
  import Marked
  import EjsMarkdown

  /**
   * How the awaited render of one template ended: resolved with a page;
   * rejected, which the `.catch` counts before the process ends; or
   * thrown inside `renderTemplate`, which ends the process while the
   * render is still pending.
   */
  datatype Rendered = Resolved(html: string) | Rejected | Thrown

  /** Which of the three scripts is running. */
  datatype Bundler = EjsBundler | MarkdownBundler | TemplatesBundler

  /** The output path each bundler computes for a template. */
  function OutputOf(b: Bundler, path: string, src: string, package: string): string {
    match b
    case EjsBundler => EjsOutputPath(path, src, package)
    case MarkdownBundler => MarkdownOutputPath(path, src, package, EndsWith(path, ".md.ejs"))
    case TemplatesBundler => TemplateOutputPath(path, src, package)
  }

  /**
   * For Markdown templates the bundle-markdown.js path and the
   * bundle-templates.js path agree; for a `.md.ejs` template the
   * bundle-ejs.js path is a different file.
   */
  lemma OutputsAgree(src: string, package: string, name: string)
    ensures OutputOf(MarkdownBundler, src + "templates/" + name + ".md", src, package)
         == OutputOf(TemplatesBundler, src + "templates/" + name + ".md", src, package)
         == package + name + "/index.html"
    ensures OutputOf(MarkdownBundler, src + "templates/" + name + ".md.ejs", src, package)
         == OutputOf(TemplatesBundler, src + "templates/" + name + ".md.ejs", src, package)
         == package + name + "/index.html"
  {
    var md := src + "templates/" + name + ".md";
    var mdEjs := src + "templates/" + name + ".md.ejs";
    MarkdownOutput(src, package, name);
    MarkdownEjsOutput(src, package, name);
    assert md[|md| - 1] == 'd';
    assert !EndsWith(md, ".md.ejs");
    assert mdEjs[|mdEjs| - 7..] == ".md.ejs";
    SwapExtension(src, package, name, ".md", "/index.html");
    SwapExtension(src, package, name, ".md.ejs", "/index.html");
  }

  /**
   * The content a template contributes to its layout, before the layout
   * itself is rendered. `ejs` is `ejs.render` with the template's data
   * (a failure is an exception) and `rewrite` the regular-expression part
   * of `marked.parse`. Markdown with EJS goes through EJS and then
   * Markdown, plain Markdown through Markdown only, EJS through EJS only.
   */
  function TemplateContent(kind: FileType, content: string, ejs: string -> Result<string>, rewrite: string -> string): Result<string> {
    match kind
    case MarkdownEjs =>
      (match ejs(content)
       case Success(rendered) => Success(Marked.ParagraphPass(rewrite(rendered)))
       case Failure(m) => Failure(m))
    case Markdown => Success(Marked.ParagraphPass(rewrite(content)))
    case Ejs => ejs(content)
  }

  /** Plain Markdown never reaches the EJS renderer, and keeps the line count of the rewritten text. */
  lemma MarkdownSkipsEjs(content: string, ejs1: string -> Result<string>, ejs2: string -> Result<string>, rewrite: string -> string)
    ensures TemplateContent(Markdown, content, ejs1, rewrite) == TemplateContent(Markdown, content, ejs2, rewrite)
    ensures TemplateContent(Markdown, content, ejs1, rewrite).Success?
    ensures |SplitOn(TemplateContent(Markdown, content, ejs1, rewrite).value, "\n")| == |SplitOn(rewrite(content), "\n")|
  {
    Marked.LinesPreserved(rewrite(content));
  }

  /**
   * bundle-ejs.js: the text handed to `ejs.render` is the template's
   * content after `processMarkdownInContent`, whose regular-expression
   * rewrites are `rewrite`; it never holds a blank line.
   */
  function EjsBundlerInput(content: string, rewrite: string -> string): (r: string)
    ensures EjsMarkdown.NoBlankLine(r)
  {
    EjsMarkdown.FinishedContentHasNoBlankLine(rewrite(content));
    EjsMarkdown.FinishContent(rewrite(content))
  }

  /**
   * How the render of one template ends. `layout` is the front matter's
   * `layout`, `read` the result of reading that layout file, `content`
   * what `TemplateContent` gives and `page` the rendering of the layout
   * around it. Outside production a template with no layout is rejected
   * at once; a failed layout read rejects, or in production throws
   * inside a detached `.catch`, which ends the process with the promise
   * still pending; once the layout is read the render resolves, to the
   * error page when EJS throws.
   */
  function RenderOutcome(production: bool, layout: Option<string>, read: Result<string>, content: Result<string>, page: string -> Result<string>): (r: Rendered)
    ensures !production && layout.None? ==> r == Rejected
    ensures read.Failure? ==> r == (if production then Thrown else Rejected)
    ensures (production || layout.Some?) && read.Success? ==> r.Resolved?
    ensures (production || layout.Some?) && read.Success? && content.Failure? ==>
      r == Resolved(ErrorPage.ErrorHtml(content.error))
  {
    if !production && layout.None? then Rejected
    else if read.Failure? then (if production then Thrown else Rejected)
    else
      var rendered := if content.Success? then page(content.value) else Failure(content.error);
      Resolved(if rendered.Success? then rendered.value else ErrorPage.ErrorHtml(rendered.error))
  }

  /**
   * Every template before `next` has settled, resolved or rejected, and
   * nothing after it; only resolved pages are written.
   */
  predicate Loop(next: nat, n: nat, html: map<nat, string>, rejected: set<nat>, done: set<nat>) {
    && next <= n
    && (forall i :: i in html ==> i < next)
    && (forall i :: i in rejected ==> i < next && i !in html)
    && (forall i :: 0 <= i < next ==> i in html || i in rejected)
    && (forall i :: i in done ==> i in html)
  }

  lemma LoopResolve(next: nat, n: nat, html: map<nat, string>, rejected: set<nat>, done: set<nat>, page: string)
    requires Loop(next, n, html, rejected, done) && next < n
    ensures Loop(next + 1, n, html[next := page], rejected, done)
  {
  }

  lemma LoopReject(next: nat, n: nat, html: map<nat, string>, rejected: set<nat>, done: set<nat>)
    requires Loop(next, n, html, rejected, done) && next < n
    ensures Loop(next + 1, n, html, rejected + {next}, done)
    ensures next !in rejected && |rejected + {next}| == |rejected| + 1
  {
  }

  class TemplateRun {
    const ctx: Build
    const bundler: Bundler
    /** `templateGlob` (or `markdownGlob`) */
    const paths: seq<string>
    /** `dir.src` and `dir.package` */
    const src: string
    const package: string
    /** The output path of each template, as the bundler computes it in its loop. */
    const outputs: seq<string>
    /** `index`: the template whose render the loop awaits next. */
    var next: nat
    /** The pages whose render resolved, by template index. */
    var html: map<nat, string>
    /** The templates whose render rejected. */
    var rejected: set<nat>
    /** The templates whose page has been written. */
    var done: set<nat>
    /** `processed` */
    var processed: nat
    /** Every file written so far, with its contents. */
    var written: map<string, string>
    /** The writes that published templatesMoved. */
    var firings: nat
    /** The rejections counted at or past the glob size, which publish nothing. */
    ghost var missed: nat
    /** The process has ended on an error nobody handles; the run takes no further step. */
    var ended: bool

    /** No two templates of the glob share an output path. */
    predicate OutputsDistinct() {
      forall i, j :: 0 <= i < j < |outputs| ==> outputs[i] != outputs[j]
    }

    predicate Settled()
      reads this
    {
      |paths| == |outputs| && Loop(next, |paths|, html, rejected, done)
    }

    /** Each finished write put its page at its output path. */
    predicate Pages()
      reads this
    {
      && (forall i :: i in done ==> i < |outputs| && outputs[i] in written)
      && (OutputsDistinct() ==> forall i :: i in done && i in html && i < |outputs| ==> written[outputs[i]] == html[i])
    }

    /** The counter and the publications. */
    ghost predicate Counted()
      reads this
    {
      && processed == |rejected| + |done|
      && firings + missed == Firings(|paths|, processed)
      && firings <= |done|
      && missed <= |rejected|
    }

    /** Nothing is rejected while the process runs, and it ends before any publication. */
    ghost predicate Ending()
      reads this
    {
      && (!ended ==> rejected == {})
      && (ended ==> firings == 0)
    }

    ghost predicate Valid()
      reads this, ctx
    {
      ctx.Valid() && Settled() && Pages() && Counted() && Ending()
    }

    /** The bundler's synchronous prefix: the glob is taken and the loop is about to await its first render. */
    constructor(ctx: Build, bundler: Bundler, glob: seq<string>, src: string, package: string)
      requires ctx.Valid()
      ensures this.ctx == ctx && this.bundler == bundler && paths == glob
      ensures this.src == src && this.package == package
      ensures |outputs| == |glob| && forall i :: 0 <= i < |glob| ==> outputs[i] == OutputOf(bundler, glob[i], src, package)
      ensures next == 0 && html == map[] && rejected == {} && done == {}
      ensures processed == 0 && written == map[] && firings == 0 && !ended
      ensures Valid()
    {
      this.ctx := ctx;
      this.bundler := bundler;
      paths := glob;
      this.src := src;
      this.package := package;
      outputs := seq(|glob|, i requires 0 <= i < |glob| => OutputOf(bundler, glob[i], src, package));
      next := 0;
      html := map[];
      rejected := {};
      done := {};
      processed := 0;
      written := map[];
      firings := 0;
      missed := 0;
      ended := false;
    }

    /**
     * The awaited render of `paths[next]` ended with `r`: a resolved page
     * is handed to the write and the loop moves on; a rejection is counted
     * in the `.catch` and the process ends; a throw ends the process with
     * the loop still awaiting.
     */
    method Render(r: Rendered)
      requires Valid() && !ended && next < |paths|
      modifies this`next, this`html, this`rejected, this`processed, this`missed, this`ended
      ensures r.Resolved? ==> next == old(next) + 1 && html == old(html)[old(next) := r.html] && rejected == {} && processed == old(processed) && !ended
      ensures r.Rejected? ==> next == old(next) + 1 && html == old(html) && rejected == {old(next)} && processed == old(processed) + 1 && ended
      ensures r.Thrown? ==> next == old(next) && html == old(html) && rejected == {} && processed == old(processed) && ended
      ensures Valid()
    {
      match r
      case Resolved(page) => Resolve(page);
      case Rejected => Reject();
      case Thrown =>
        BeforeRender();
        ended := true;
    }

    /** `const html = await renderTemplate(...)` resolved: the write of the page starts. */
    method Resolve(page: string)
      requires Valid() && !ended && next < |paths|
      modifies this`next, this`html
      ensures next == old(next) + 1 && html == old(html)[old(next) := page]
      ensures Valid()
    {
      LoopResolve(next, |paths|, html, rejected, done, page);
      html := html[next := page];
      next := next + 1;
    }

    /**
     * The `.catch` of the render: `processed++`, with no check. The write
     * of `undefined` that follows throws, and the process ends.
     */
    method Reject()
      requires Valid() && !ended && next < |paths|
      modifies this`next, this`rejected, this`processed, this`missed, this`ended
      ensures next == old(next) + 1 && rejected == {old(next)} && processed == old(processed) + 1
      ensures ended && firings == 0
      ensures Valid()
    {
      LoopReject(next, |paths|, html, rejected, done);
      BeforeRender();
      rejected := rejected + {next};
      processed := processed + 1;
      assert Firings(|paths|, processed) == Firings(|paths|, processed - 1) + (if processed >= |paths| then 1 else 0);
      missed := missed + (if processed >= |paths| then 1 else 0);
      next := next + 1;
      ended := true;
    }

    /**
     * While the loop awaits a render, only the pages of earlier templates
     * can have been counted, so the counter is below the glob size and
     * nothing has been published.
     */
    lemma BeforeRender()
      requires Valid() && !ended && next < |paths|
      ensures processed < |paths| && firings == 0 && missed == 0
    {
      IndexSetBound(done, next);
      FiringsCount(|paths|, processed);
    }

    /** The write of template `i`'s page finished: count it and check. */
    method Written(i: nat)
      requires Valid() && !ended && i in html && i !in done
      modifies this`done, this`processed, this`written, this`firings, ctx
      ensures done == old(done) + {i} && processed == old(processed) + 1
      ensures written == old(written)[outputs[i] := html[i]]
      ensures Valid() && ctx.listeners == old(ctx.listeners) && ctx.names == old(ctx.names)
      ensures processed < |paths| ==> ctx.World() == old(ctx.World()) && firings == old(firings)
      ensures processed >= |paths| ==> firings == old(firings) + 1
      ensures processed >= |paths| ==> ctx.World() == Dispatch(old(ctx.World()), ctx.listeners, TemplatesMoved)
    {
      Count(i);
      Check();
    }

    /** `processed++`, after the write of template `i`. */
    method Count(i: nat)
      requires Valid() && i in html && i !in done
      modifies this`done, this`processed, this`written
      ensures done == old(done) + {i} && processed == old(processed) + 1
      ensures written == old(written)[outputs[i] := html[i]]
      ensures ctx.Valid() && Settled() && Pages()
      ensures processed == |rejected| + |done|
      ensures firings + missed + (if processed >= |paths| then 1 else 0) == Firings(|paths|, processed)
      ensures firings + 1 <= |done| && missed <= |rejected|
    {
      Record(i);
      done := done + {i};
      processed := processed + 1;
    }

    /** `fs.writeFile(outputPath, html)` has put the page in place. */
    method Record(i: nat)
      requires Valid() && i in html && i !in done
      modifies this`written
      ensures written == old(written)[outputs[i] := html[i]]
      ensures PagesFor(done + {i})
    {
      written := written[outputs[i] := html[i]];
    }

    /** `Pages` for the set of finished writes `d`. */
    predicate PagesFor(d: set<nat>)
      reads this
    {
      && (forall j :: j in d ==> j < |outputs| && outputs[j] in written)
      && (OutputsDistinct() ==> forall j :: j in d && j in html && j < |outputs| ==> written[outputs[j]] == html[j])
    }

    /** `if (processed >= templateGlob.length) buildEvents.emit(templatesMoved)` */
    method Check()
      requires ctx.Valid()
      modifies this`firings, ctx
      ensures ctx.listeners == old(ctx.listeners) && ctx.names == old(ctx.names) && ctx.Valid()
      ensures processed < |paths| ==> ctx.World() == old(ctx.World()) && firings == old(firings)
      ensures processed >= |paths| ==> firings == old(firings) + 1
      ensures processed >= |paths| ==> ctx.World() == Dispatch(old(ctx.World()), ctx.listeners, TemplatesMoved)
    {
      if processed >= |paths| {
        firings := firings + 1;
        ctx.Emit(TemplatesMoved);
      }
    }

    // -------------------------------------------------------------------

    /** Each template is counted at most once, so the counter never passes the glob size. */
    lemma CounterBounded()
      requires Valid()
      ensures processed <= |paths|
    {
      assert rejected !! done;
      assert |rejected + done| == |rejected| + |done|;
      IndexSetBound(rejected + done, |paths|);
    }

    /** templatesMoved is published at most once, and never for an empty glob. */
    lemma PublishedAtMostOnce()
      requires Valid()
      ensures firings <= 1
      ensures |paths| == 0 ==> firings == 0
    {
      CounterBounded();
      FiringsCount(|paths|, processed);
    }

    /**
     * When every render resolved and every page has been written,
     * templatesMoved has been published exactly once (for a non-empty
     * glob) and, when no two templates share an output path, every page
     * is in place.
     */
    lemma AllWritten()
      requires Valid() && next == |paths| && rejected == {}
      requires forall i :: i in html ==> i in done
      ensures processed == |paths|
      ensures firings == (if |paths| == 0 then 0 else 1)
      ensures OutputsDistinct() ==> forall i :: 0 <= i < |paths| ==> written[outputs[i]] == html[i]
    {
      assert missed == 0 by {
        CounterBounded();
      }
      forall i | 0 <= i < |paths|
        ensures i in done
      {
        assert i in html;
      }
      AllIndicesCounted(done, |paths|);
      CountedOnce(done, |paths|);
    }

    /**
     * templatesMoved is published only when the process is still running,
     * no render failed, the loop has passed the last template and a page
     * has been written for every template.
     */
    lemma PublishedOnlyWhenAllWritten()
      requires Valid() && firings > 0
      ensures !ended && rejected == {}
      ensures next == |paths| && |done| == |paths| == processed
    {
      FiringsCount(|paths|, processed);
      IndexSetBound(done, next);
      CounterBounded();
    }
  }

  /** `bundleEJS(...)` up to its first `await`. */
  method StartBundleEjs(ctx: Build, glob: seq<string>, src: string, package: string) returns (run: TemplateRun)
    requires ctx.Valid()
    modifies ctx
    ensures fresh(run) && run.ctx == ctx && run.bundler == EjsBundler && run.paths == glob
    ensures run.next == 0 && run.processed == 0 && !run.ended && run.Valid()
    ensures ctx.World() == StartTask(old(ctx.World()), BundleEjs)
    ensures ctx.listeners == old(ctx.listeners) && ctx.names == old(ctx.names)
  {
    ctx.Start(BundleEjs);
    run := new TemplateRun(ctx, EjsBundler, glob, src, package);
  }

  /** `bundleMarkdown(...)` up to its first `await`. */
  method StartBundleMarkdown(ctx: Build, glob: seq<string>, src: string, package: string) returns (run: TemplateRun)
    requires ctx.Valid()
    modifies ctx
    ensures fresh(run) && run.ctx == ctx && run.bundler == MarkdownBundler && run.paths == glob
    ensures run.next == 0 && run.processed == 0 && !run.ended && run.Valid()
    ensures ctx.World() == StartTask(old(ctx.World()), BundleMarkdown)
    ensures ctx.listeners == old(ctx.listeners) && ctx.names == old(ctx.names)
  {
    ctx.Start(BundleMarkdown);
    run := new TemplateRun(ctx, MarkdownBundler, glob, src, package);
  }

  /** `bundleTemplates(...)` up to its first `await`; it records no task start of its own. */
  method StartBundleTemplates(ctx: Build, glob: seq<string>, src: string, package: string) returns (run: TemplateRun)
    requires ctx.Valid()
    ensures fresh(run) && run.ctx == ctx && run.bundler == TemplatesBundler && run.paths == glob
    ensures run.next == 0 && run.processed == 0 && !run.ended && run.Valid()
  {
    run := new TemplateRun(ctx, TemplatesBundler, glob, src, package);
  }
}
