/**
 * index.js: the entry point. It reads `--verbose` and `--golden` from the
 * command line, creates the shared configuration, registers the
 * template-bundling gate and the sitemap listener, installs one profile
 * builder, starts the first stage tasks once the output directory has
 * been cleaned, and serves the output on port 3000 outside production.
 */
module Index {
  import opened CompletionFlags
  import opened BuildEvents
  import opened EventBus
  import opened BuildContext
  import opened Wrappers
  import GoldenBuilder

  datatype Profile = Preview | Golden | Production

  /** Which builder index.js installs. */
  function SelectProfile(production: bool, isGoldenBuild: bool): (p: Profile)
    ensures p == Preview <==> !production
    ensures p == Golden <==> production && isGoldenBuild
    ensures p == Production <==> production && !isGoldenBuild
  {
    if !production then Preview
    else if isGoldenBuild then Golden
    else Production
  }

  /** The listeners index.js registers itself, in order. */
  function IndexBindings(): seq<Binding> {
    [ Binding(VideosMoved, ShouldBundleTemplates),
      Binding(ImagesMoved, ShouldBundleTemplates),
      Binding(PageMappingDataCompiled, ShouldBundleTemplates),
      Binding(PageMappingDataCompiled, CompileSitemapHandler),
      Binding(BuildEvents.PreviewReady, LogPreviewReady) ]
  }

  /**
   * The listeners a profile adds. preview-builder.js and prod-builder.js
   * are not part of this model, so their profiles add none here.
   */
  function ProfileBindings(p: Profile): seq<Binding> {
    if p == Golden then GoldenBuilder.GoldenBindings() else []
  }

  /** The flags a profile forces before anything runs. */
  function ProfileFlags(p: Profile): Flags {
    if p == Golden then GoldenBuilder.ForceGolden(Initial()) else Initial()
  }

  /** What the entry point sets up. */
  datatype Startup = Startup(profile: Profile, serverPort: Option<nat>)

  /** Running index.js up to the point where it waits for the clean step. */
  method Launch(argv: seq<string>, production: bool) returns (ctx: Build, s: Startup)
    ensures fresh(ctx) && ctx.Valid()
    ensures ctx.debug == ("--verbose" in argv)
    ensures s.profile == SelectProfile(production, "--golden" in argv)
    ensures s.serverPort == if production then None else Some(3000)
    ensures ctx.listeners == IndexBindings() + ProfileBindings(s.profile)
    ensures ctx.flags == ProfileFlags(s.profile)
    ensures !ctx.exited && ctx.trace == [] && ctx.names == []
  {
    var debug := "--verbose" in argv;
    var isGoldenBuild := "--golden" in argv;
    ctx := new Build(debug);
    ListenIndex(ctx);
    var profile := SelectProfile(production, isGoldenBuild);
    if profile == Golden {
      GoldenBuilder.Install(ctx);
    }
    s := Startup(profile, if production then None else Some(3000));
  }

  /** The five `eventEmitter.on` calls of index.js, in order. */
  method ListenIndex(ctx: Build)
    requires ctx.Valid() && ctx.listeners == []
    modifies ctx
    ensures ctx.listeners == IndexBindings()
    ensures ctx.flags == old(ctx.flags) && ctx.debug == old(ctx.debug) && ctx.exited == old(ctx.exited)
    ensures ctx.trace == old(ctx.trace) && ctx.names == old(ctx.names) && ctx.Valid()
  {
    ctx.On(VideosMoved, ShouldBundleTemplates);
    ctx.On(ImagesMoved, ShouldBundleTemplates);
    ctx.On(PageMappingDataCompiled, ShouldBundleTemplates);
    ctx.On(PageMappingDataCompiled, CompileSitemapHandler);
    ctx.On(BuildEvents.PreviewReady, LogPreviewReady);
  }

  /** The continuation of `clean(configs)`: the first four stage tasks, in order. */
  method AfterClean(ctx: Build)
    modifies ctx
    ensures ctx.World() ==
      StartTask(StartTask(StartTask(StartTask(old(ctx.World()),
        CompilePageMappingData), BundleJs), BundleScss), MoveAssets)
    ensures ctx.listeners == old(ctx.listeners) && ctx.names == old(ctx.names)
  {
    ctx.Start(CompilePageMappingData);
    ctx.Start(BundleJs);
    ctx.Start(BundleScss);
    ctx.Start(MoveAssets);
  }

  /** The index.js listeners of `e`, in order. */
  function IndexHandlers(e: Event): seq<Handler> {
    if e == VideosMoved || e == ImagesMoved then [ShouldBundleTemplates]
    else if e == PageMappingDataCompiled then [ShouldBundleTemplates, CompileSitemapHandler]
    else if e == BuildEvents.PreviewReady then [LogPreviewReady]
    else []
  }

  /** The listeners index.js registers for the events it gates on. */
  lemma IndexBound(e: Event)
    requires e == VideosMoved || e == ImagesMoved || e == PageMappingDataCompiled
    ensures Bound(IndexBindings(), e) == IndexHandlers(e)
  {
    if e == VideosMoved {
    } else if e == ImagesMoved {
    } else {
    }
  }

  lemma IndexWellRanked()
    ensures WellRanked(IndexBindings())
  {
  }

  /** Publishing under the index.js listeners alone calls that event's listeners in order. */
  lemma IndexDispatch(w: World, e: Event)
    requires !w.exited
    requires e == VideosMoved || e == ImagesMoved || e == PageMappingDataCompiled
    ensures Dispatch(w, IndexBindings(), e) ==
      ApplyAll(w.(trace := w.trace + [Emitted(e, w.flags)]), IndexHandlers(e))
  {
    IndexBound(e);
    IndexWellRanked();
    assert Quiet(IndexHandlers(e));
    DispatchQuiet(w, IndexBindings(), e);
  }

  /** The gate's own step: both bundlers start once both move flags are set; no flag changes. */
  lemma GateStep(w: World)
    requires !w.exited
    ensures ApplyAll(w, [ShouldBundleTemplates]) ==
      w.(trace := w.trace +
        if w.flags.imagesAreMoved && w.flags.videosAreMoved
        then [Started(BundleEjs), Started(BundleMarkdown)] else [])
  {
    ApplyOne(w, ShouldBundleTemplates);
    if w.flags.imagesAreMoved && w.flags.videosAreMoved {
      assert ResetFlags(w.flags, BundleEjs) == w.flags;
      assert ResetFlags(w.flags, BundleMarkdown) == w.flags;
    }
  }

  /**
   * The template gate: after `videosMoved` or `imagesMoved`, both template
   * bundlers are started exactly when both move flags are set, and no
   * flag changes.
   */
  lemma BundleGate(w: World, e: Event)
    requires !w.exited && (e == VideosMoved || e == ImagesMoved)
    ensures Dispatch(w, IndexBindings(), e) ==
      w.(trace := w.trace + [Emitted(e, w.flags)] +
        if w.flags.imagesAreMoved && w.flags.videosAreMoved
        then [Started(BundleEjs), Started(BundleMarkdown)] else [])
  {
    IndexDispatch(w, e);
    GateStep(w.(trace := w.trace + [Emitted(e, w.flags)]));
  }

  /**
   * The gate has no once-only guard: with both move flags already set,
   * a second move event starts both bundlers a second time.
   */
  lemma BundlersStartTwice(w: World)
    requires !w.exited && w.flags.imagesAreMoved && w.flags.videosAreMoved
    ensures var w1 := Dispatch(w, IndexBindings(), VideosMoved);
      && w1.trace == w.trace + [Emitted(VideosMoved, w.flags)] + [Started(BundleEjs), Started(BundleMarkdown)]
      && Dispatch(w1, IndexBindings(), ImagesMoved).trace ==
        w1.trace + [Emitted(ImagesMoved, w.flags)] + [Started(BundleEjs), Started(BundleMarkdown)]
  {
    var w1 := Dispatch(w, IndexBindings(), VideosMoved);
    BundleGate(w, VideosMoved);
    BundleGate(w1, ImagesMoved);
  }

  /** The sitemap listener's own step: the call of compileSitemap clears SITE_MAP and nothing else. */
  lemma SitemapStep(w: World)
    requires !w.exited
    ensures ApplyAll(w, [CompileSitemapHandler]) ==
      w.(flags := w.flags.(siteMap := false), trace := w.trace + [Started(CompileSitemap)])
  {
    ApplyOne(w, CompileSitemapHandler);
    ClearOne(w.flags, SiteMap);
  }

  /** The listeners of `pageMappingDataCompiled`: the gate, then the sitemap. */
  lemma PageDataStep(w: World)
    requires !w.exited
    ensures ApplyAll(w, [ShouldBundleTemplates, CompileSitemapHandler]) ==
      w.(flags := w.flags.(siteMap := false),
         trace := w.trace +
           (if w.flags.imagesAreMoved && w.flags.videosAreMoved
            then [Started(BundleEjs), Started(BundleMarkdown)] else []) +
           [Started(CompileSitemap)])
  {
    ApplyTwo(w, ShouldBundleTemplates, CompileSitemapHandler);
    ApplyOne(w, ShouldBundleTemplates);
    GateStep(w);
    SitemapStep(ApplyAll(w, [ShouldBundleTemplates]));
  }

  /**
   * Compiled page data runs the template gate and then starts the
   * sitemap, whose call clears SITE_MAP and nothing else.
   */
  lemma PageDataStartsSitemap(w: World)
    requires !w.exited
    ensures Dispatch(w, IndexBindings(), PageMappingDataCompiled) ==
      w.(flags := w.flags.(siteMap := false),
         trace := w.trace + [Emitted(PageMappingDataCompiled, w.flags)] +
           (if w.flags.imagesAreMoved && w.flags.videosAreMoved
            then [Started(BundleEjs), Started(BundleMarkdown)] else []) +
           [Started(CompileSitemap)])
  {
    IndexDispatch(w, PageMappingDataCompiled);
    PageDataStep(w.(trace := w.trace + [Emitted(PageMappingDataCompiled, w.flags)]));
  }
}
