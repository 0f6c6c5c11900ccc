/**
 * The build's shared event bus and what happens when an event is
 * published. `emit(e)` calls, synchronously and in registration order,
 * every listener registered for `e`; a listener may itself publish an
 * event, which is handled completely before the next listener of `e`
 * runs. `process.exit()` ends everything: no listener runs after it.
 *
 * A listener is one of the handlers that index.js and the profile
 * builders register. Handlers that call a stage task perform only the
 * task's synchronous prefix here (`StartTask`): resetting its flag and
 * recording that it started; the stage task's asynchronous completions are
 * separate steps (the run classes of the stage modules).
 */
module EventBus {
  import opened CompletionFlags
  import opened BuildEvents
  import opened Wrappers

  /** The stage tasks, by the function that starts each. */
  datatype Task =
    | CompilePageMappingData | BundleJs | BundleScss | MoveAssets
    | BundleEjs | BundleMarkdown | CompileSitemap | MinifyJs | MinifyHtml
    | GzipFiles | HashCss | AssetHashing | UpdateCssWithImageHashes
    | OptimizeSvgs | ProcessExternalLinks | MoveImages | MakeFaviconIco
    | LegacyAssetHashing | LegacyHashCss

  /** What an observer of the build can see, in order. */
  datatype Effect =
    | Emitted(event: Event, seen: Flags)   // an event published, with the flags at that moment
    | Started(task: Task)                  // a stage task was called
    | LoggedFlags(seen: Flags)             // check-done printed the flag record
    | Finalised(seen: Flags)               // check-done printed the exit message and ended the process

  datatype World = World(flags: Flags, debug: bool, exited: bool, trace: seq<Effect>)

  /** The listeners the entry point and the profile builders register. */
  datatype Handler =
    | CheckDoneHandler          // checkDone(configs)
    | ShouldBundleTemplates     // index.js: bundle templates once images and videos are moved
    | CompileSitemapHandler     // index.js: compileSitemap(configs)
    | LogPreviewReady           // index.js: a console message
    | MinifyJsHandler           // golden-builder.js: minifyJS(configs)
    | MinifyHtmlHandler         // golden-builder.js: minifyHTML(configs)
    | Reemit(target: Event)     // comparison-builder.js: publish `target`
    | MarkHashingDone           // comparison-builder.js: ASSET_HASH.DONE = true, then publish hashingDone
    | MarkGzipDone              // comparison-builder.js: GZIP = true, then publish gzipDone

  datatype Binding = Binding(event: Event, handler: Handler)

  function InitialWorld(debug: bool): World {
    World(Initial(), debug, false, [])
  }

  /** The flags a task clears when it is called. */
  function TaskResets(t: Task): seq<FlagName> {
    match t
    case BundleScss => [CssIsMinified]
    case CompileSitemap => [SiteMap]
    case MinifyJs => [JsIsMinified]
    case MinifyHtml => [HtmlIsMinified]
    case GzipFiles => [Gzip]
    case HashCss => [AssetHashCss]
    case AssetHashing => [AssetHashImages, AssetHashJs]
    case OptimizeSvgs => [SvgOptimization]
    case ProcessExternalLinks => [FlagName.ExternalLinksProcessed]
    case MoveImages => [ImagesAreMoved, VideosAreMoved]
    case _ => []
  }

  /** Setting each of `ns` to false, in order. */
  function ClearAll(f: Flags, ns: seq<FlagName>): Flags
    decreases |ns|
  {
    if |ns| == 0 then f else ClearAll(Set(f, ns[0], false), ns[1..])
  }

  /** The flag writes a task performs before its first asynchronous step. */
  function ResetFlags(f: Flags, t: Task): Flags {
    ClearAll(f, TaskResets(t))
  }

  lemma ClearOne(f: Flags, n: FlagName)
    ensures ClearAll(f, [n]) == Set(f, n, false)
  {
    assert [n][1..] == [];
  }

  /** Clearing a list of flags clears exactly those and leaves every other flag alone. */
  lemma {:induction false} ClearAllFrame(f: Flags, ns: seq<FlagName>, n: FlagName)
    ensures Get(ClearAll(f, ns), n) == (n !in ns && Get(f, n))
    decreases |ns|
  {
    if |ns| > 0 {
      var g := Set(f, ns[0], false);
      assert ClearAll(f, ns) == ClearAll(g, ns[1..]);
      ClearAllFrame(g, ns[1..], n);
      GetSet(f, ns[0], false, n);
      assert n in ns <==> n == ns[0] || n in ns[1..] by { assert ns == [ns[0]] + ns[1..]; }
    }
  }

  /** Starting a task clears exactly the flags it resets and leaves every other flag alone. */
  lemma ResetOnlyClears(f: Flags, t: Task, n: FlagName)
    ensures n in TaskResets(t) ==> !Get(ResetFlags(f, t), n)
    ensures n !in TaskResets(t) ==> Get(ResetFlags(f, t), n) == Get(f, n)
  {
    ClearAllFrame(f, TaskResets(t), n);
  }

  /** Calling task `t`: its synchronous flag resets, and a record that it started. */
  function StartTask(w: World, t: Task): (r: World)
    ensures r.exited == w.exited && r.debug == w.debug
    ensures r.trace == w.trace + [Started(t)]
    ensures r.flags == ResetFlags(w.flags, t)
  {
    w.(flags := ResetFlags(w.flags, t), trace := w.trace + [Started(t)])
  }

  /** The event a handler publishes, if it publishes one. */
  function Emits(h: Handler): Option<Event> {
    match h
    case Reemit(t) => Some(t)
    case MarkHashingDone => Some(HashingDone)
    case MarkGzipDone => Some(GzipDone)
    case _ => None
  }

  /**
   * A ranking of events that strictly decreases along every
   * publish-inside-a-listener edge the builders create.
   */
  function Rank(e: Event): nat {
    match e
    case GzipDone => 0
    case HashingDone => 1
    case AssetHashJsListed => 2
    case AssetHashCssListed => 3
    case AssetHashImagesListed => 4
    case _ => 5
  }

  /**
   * Every listener that publishes an event publishes one of lower rank:
   * the graph of events publishing events is acyclic, so one `emit`
   * always returns.
   */
  predicate WellRanked(ls: seq<Binding>) {
    forall b :: b in ls ==> RankDescends(b)
  }

  /** A listener that publishes something publishes an event of lower rank than the one it listens to. */
  predicate RankDescends(b: Binding) {
    Emits(b.handler).Some? ==> Rank(Emits(b.handler).value) < Rank(b.event)
  }

  /** Listeners that publish nothing cannot form a cycle. */
  lemma QuietWellRanked(ls: seq<Binding>)
    requires forall b :: b in ls ==> Emits(b.handler).None?
    ensures WellRanked(ls)
  {
  }

  /** The handlers registered for `e`, in registration order. */
  function Bound(ls: seq<Binding>, e: Event): seq<Handler> {
    if |ls| == 0 then []
    else (if ls[0].event == e then [ls[0].handler] else []) + Bound(ls[1..], e)
  }

  /** Every handler called for `e` was registered for `e`. */
  lemma {:induction false} BoundIn(ls: seq<Binding>, e: Event)
    ensures |Bound(ls, e)| <= |ls|
    ensures forall h :: h in Bound(ls, e) ==> Binding(e, h) in ls
    decreases |ls|
  {
    if |ls| > 0 {
      BoundIn(ls[1..], e);
    }
  }

  /** Every handler in `hs` that publishes something publishes an event of lower rank than `e`. */
  predicate Descends(e: Event, hs: seq<Handler>) {
    forall h :: h in hs ==> RankDescends(Binding(e, h))
  }

  lemma BoundDescends(ls: seq<Binding>, e: Event)
    requires WellRanked(ls)
    ensures |Bound(ls, e)| <= |ls| && Descends(e, Bound(ls, e))
  {
    BoundIn(ls, e);
  }

  lemma BoundSingle(b: Binding, e: Event)
    ensures Bound([b], e) == if b.event == e then [b.handler] else []
  {
    assert [b][1..] == [];
  }

  /** Bindings registered one after the other are called one after the other. */
  lemma {:induction false} BoundAppend(a: seq<Binding>, b: seq<Binding>, e: Event)
    ensures Bound(a + b, e) == Bound(a, e) + Bound(b, e)
    decreases |a|
  {
    if |a| > 0 {
      assert (a + b)[1..] == a[1..] + b;
      BoundAppend(a[1..], b, e);
    } else {
      assert a + b == b;
    }
  }

  /** A list with no binding for `e` calls nothing for it. */
  lemma {:induction false} BoundNone(ls: seq<Binding>, e: Event)
    requires forall j :: 0 <= j < |ls| ==> ls[j].event != e
    ensures Bound(ls, e) == []
    decreases |ls|
  {
    if |ls| > 0 {
      assert ls[0].event != e;
      BoundNone(ls[1..], e);
    }
  }

  /** A list whose only binding for `e` is the one at `i` calls just that handler. */
  lemma {:induction false} BoundUnique(ls: seq<Binding>, e: Event, i: nat)
    requires i < |ls| && ls[i].event == e
    requires forall j :: 0 <= j < |ls| && j != i ==> ls[j].event != e
    ensures Bound(ls, e) == [ls[i].handler]
    decreases |ls|
  {
    if i == 0 {
      BoundNone(ls[1..], e);
    } else {
      assert ls[0].event != e;
      BoundUnique(ls[1..], e, i - 1);
    }
  }

  /** `emit(e)` */
  function Dispatch(w: World, ls: seq<Binding>, e: Event): World
    requires WellRanked(ls)
    decreases Rank(e), |ls| + 1
  {
    if w.exited then w
    else
      BoundDescends(ls, e);
      RunHandlers(w.(trace := w.trace + [Emitted(e, w.flags)]), ls, e, Bound(ls, e))
  }

  /** Calling the listeners `hs` of `e` in order, stopping once the process has exited. */
  function RunHandlers(w: World, ls: seq<Binding>, e: Event, hs: seq<Handler>): World
    requires WellRanked(ls) && Descends(e, hs)
    decreases Rank(e), |hs|
  {
    if |hs| == 0 || w.exited then w
    else RunHandlers(Handle(w, ls, e, hs[0]), ls, e, hs[1..])
  }

  /** One listener of `e`. */
  function Handle(w: World, ls: seq<Binding>, e: Event, h: Handler): World
    requires WellRanked(ls) && RankDescends(Binding(e, h))
    decreases Rank(e), 0
  {
    match h
    case Reemit(t) => Dispatch(w, ls, t)
    case MarkHashingDone => Dispatch(w.(flags := Set(w.flags, AssetHashDone, true)), ls, HashingDone)
    case MarkGzipDone => Dispatch(w.(flags := Set(w.flags, Gzip, true)), ls, GzipDone)
    case _ => Apply(w, h)
  }

  /** A listener that publishes nothing. */
  function Apply(w: World, h: Handler): World {
    match h
    case CheckDoneHandler =>
      // configs has no isComparisonBuild property, so only `debug` turns logging on
      var out := CheckDone(w.flags, w.debug, false);
      var w1 := if out.logged then w.(trace := w.trace + [LoggedFlags(w.flags)]) else w;
      if out.exits then w1.(exited := true, trace := w1.trace + [Finalised(w.flags)]) else w1
    case ShouldBundleTemplates =>
      if w.flags.imagesAreMoved && w.flags.videosAreMoved
      then StartTask(StartTask(w, BundleEjs), BundleMarkdown)
      else w
    case CompileSitemapHandler => StartTask(w, CompileSitemap)
    case MinifyJsHandler => StartTask(w, MinifyJs)
    case MinifyHtmlHandler => StartTask(w, MinifyHtml)
    case _ => w
  }

  /** Listeners none of which publishes an event. */
  predicate Quiet(hs: seq<Handler>) {
    forall h :: h in hs ==> Emits(h).None?
  }

  /** Calling publish-free listeners in order, stopping once the process has exited. */
  function ApplyAll(w: World, hs: seq<Handler>): World
    decreases |hs|
  {
    if |hs| == 0 || w.exited then w else ApplyAll(Apply(w, hs[0]), hs[1..])
  }

  lemma {:induction false} RunHandlersQuiet(w: World, ls: seq<Binding>, e: Event, hs: seq<Handler>)
    requires WellRanked(ls) && Quiet(hs) && Descends(e, hs)
    ensures RunHandlers(w, ls, e, hs) == ApplyAll(w, hs)
    decreases |hs|
  {
    if |hs| > 0 && !w.exited {
      assert Emits(hs[0]).None?;
      RunHandlersQuiet(Handle(w, ls, e, hs[0]), ls, e, hs[1..]);
    }
  }

  /** Publishing an event whose listeners publish nothing calls them one after the other. */
  lemma DispatchQuiet(w: World, ls: seq<Binding>, e: Event)
    requires WellRanked(ls) && !w.exited && Quiet(Bound(ls, e))
    ensures Dispatch(w, ls, e) == ApplyAll(w.(trace := w.trace + [Emitted(e, w.flags)]), Bound(ls, e))
  {
    BoundDescends(ls, e);
    RunHandlersQuiet(w.(trace := w.trace + [Emitted(e, w.flags)]), ls, e, Bound(ls, e));
  }

  /** Publishing an event that has a single listener runs just that listener. */
  lemma DispatchOne(w: World, ls: seq<Binding>, e: Event, h: Handler)
    requires WellRanked(ls) && !w.exited && Bound(ls, e) == [h]
    ensures RankDescends(Binding(e, h))
    ensures Dispatch(w, ls, e) == Handle(w.(trace := w.trace + [Emitted(e, w.flags)]), ls, e, h)
  {
    BoundDescends(ls, e);
    assert h in Bound(ls, e);
    var w0 := w.(trace := w.trace + [Emitted(e, w.flags)]);
    assert Dispatch(w, ls, e) == RunHandlers(w0, ls, e, [h]);
    assert [h][1..] == [];
    var w1 := Handle(w0, ls, e, h);
    assert RunHandlers(w0, ls, e, [h]) == RunHandlers(w1, ls, e, []);
  }
  /** Publishing an event whose single listener re-emits `t` publishes `t` next. */
  lemma DispatchReemit(w: World, ls: seq<Binding>, e: Event, t: Event)
    requires WellRanked(ls) && !w.exited && Bound(ls, e) == [Reemit(t)]
    ensures Dispatch(w, ls, e) == Dispatch(w.(trace := w.trace + [Emitted(e, w.flags)]), ls, t)
  {
    DispatchOne(w, ls, e, Reemit(t));
  }


  lemma ApplyOne(w: World, h: Handler)
    ensures ApplyAll(w, [h]) == if w.exited then w else Apply(w, h)
  {
    assert [h][1..] == [];
  }

  lemma ApplyTwo(w: World, h: Handler, h': Handler)
    ensures ApplyAll(w, [h, h']) == if w.exited then w else ApplyAll(Apply(w, h), [h'])
  {
    assert [h, h'][1..] == [h'];
  }

  // ---------------------------------------------------------------------
  // Finalisation happens at most once, and only with every checked flag set.

  function FinalCount(tr: seq<Effect>): nat {
    if |tr| == 0 then 0
    else FinalCount(tr[..|tr| - 1]) + (if tr[|tr| - 1].Finalised? then 1 else 0)
  }

  lemma FinalCountAppend(tr: seq<Effect>, x: Effect)
    ensures FinalCount(tr + [x]) == FinalCount(tr) + (if x.Finalised? then 1 else 0)
  {
    assert (tr + [x])[..|tr|] == tr;
  }

  /** The process has exited exactly when the trace ends with its one finalisation. */
  predicate Consistent(w: World) {
    if w.exited then |w.trace| > 0 && w.trace[|w.trace| - 1].Finalised? && FinalCount(w.trace) == 1
    else FinalCount(w.trace) == 0
  }

  /** Every finalisation saw all eleven checked flags set. */
  predicate FinalisedOnlyWhenDone(tr: seq<Effect>) {
    forall k :: 0 <= k < |tr| && tr[k].Finalised? ==> AllRequired(tr[k].seen)
  }

  /** What every step of the bus guarantees about the world it starts from. */
  predicate Extends(w: World, r: World) {
    && w.trace <= r.trace
    && r.debug == w.debug
    && (w.exited ==> r == w)
    && (Consistent(w) ==> Consistent(r))
    && (FinalisedOnlyWhenDone(w.trace) ==> FinalisedOnlyWhenDone(r.trace))
  }

  lemma ExtendsTrans(a: World, b: World, c: World)
    requires Extends(a, b) && Extends(b, c)
    ensures Extends(a, c)
  {
  }

  lemma AppendStep(w: World, x: Effect)
    requires !w.exited && !x.Finalised?
    ensures Extends(w, w.(trace := w.trace + [x]))
  {
    FinalCountAppend(w.trace, x);
    var r := w.(trace := w.trace + [x]);
    assert forall k :: 0 <= k < |w.trace| ==> r.trace[k] == w.trace[k];
  }

  lemma StartTaskExtends(w: World, t: Task)
    requires !w.exited
    ensures Extends(w, StartTask(w, t))
  {
    AppendStep(w.(flags := ResetFlags(w.flags, t)), Started(t));
  }

  /** Finalising a running process with every checked flag set only appends. */
  lemma FinaliseStep(w: World, seen: Flags)
    requires !w.exited && AllRequired(seen)
    ensures Extends(w, w.(exited := true, trace := w.trace + [Finalised(seen)]))
  {
    FinalCountAppend(w.trace, Finalised(seen));
    var r := w.(exited := true, trace := w.trace + [Finalised(seen)]);
    assert forall k :: 0 <= k < |w.trace| ==> r.trace[k] == w.trace[k];
  }

  /** The check-done listener logs, finalises or both, and only appends. */
  lemma CheckDoneExtends(w: World)
    requires !w.exited
    ensures Extends(w, Apply(w, CheckDoneHandler))
  {
    var out := CheckDone(w.flags, w.debug, false);
    assert out.exits == AllRequired(w.flags);
    var w1 := if out.logged then w.(trace := w.trace + [LoggedFlags(w.flags)]) else w;
    if out.logged {
      AppendStep(w, LoggedFlags(w.flags));
    }
    if out.exits {
      FinaliseStep(w1, w.flags);
      if out.logged {
        ExtendsTrans(w, w1, w1.(exited := true, trace := w1.trace + [Finalised(w.flags)]));
      }
    }
  }

  lemma {:induction false} ApplyExtends(w: World, h: Handler)
    requires !w.exited
    ensures Extends(w, Apply(w, h))
  {
    match h
    case CheckDoneHandler => CheckDoneExtends(w);
    case ShouldBundleTemplates =>
      if w.flags.imagesAreMoved && w.flags.videosAreMoved {
        var w1 := StartTask(w, BundleEjs);
        StartTaskExtends(w, BundleEjs);
        StartTaskExtends(w1, BundleMarkdown);
        ExtendsTrans(w, w1, StartTask(w1, BundleMarkdown));
      }
    case CompileSitemapHandler => StartTaskExtends(w, CompileSitemap);
    case MinifyJsHandler => StartTaskExtends(w, MinifyJs);
    case MinifyHtmlHandler => StartTaskExtends(w, MinifyHtml);
    case LogPreviewReady =>
    case Reemit(_) =>
    case MarkHashingDone =>
    case MarkGzipDone =>
  }

  /**
   * Publishing an event only appends to the trace, does nothing once the
   * process has exited, finalises at most once, and finalises only when
   * check-done saw every checked flag set.
   */
  lemma {:induction false} DispatchExtends(w: World, ls: seq<Binding>, e: Event)
    requires WellRanked(ls)
    ensures Extends(w, Dispatch(w, ls, e))
    decreases Rank(e), |ls| + 1
  {
    if !w.exited {
      var w0 := w.(trace := w.trace + [Emitted(e, w.flags)]);
      AppendStep(w, Emitted(e, w.flags));
      BoundDescends(ls, e);
      RunHandlersExtends(w0, ls, e, Bound(ls, e));
      ExtendsTrans(w, w0, Dispatch(w, ls, e));
    }
  }

  /**
   * The first thing publishing does is record the event with the flags
   * as they are at that moment: whatever a completion wrote before
   * publishing is what every listener of the event sees.
   */
  lemma PublishedFirst(w: World, ls: seq<Binding>, e: Event)
    requires WellRanked(ls) && !w.exited
    ensures var r := Dispatch(w, ls, e);
      |w.trace| < |r.trace| && r.trace[|w.trace|] == Emitted(e, w.flags)
  {
    var w0 := w.(trace := w.trace + [Emitted(e, w.flags)]);
    BoundDescends(ls, e);
    RunHandlersExtends(w0, ls, e, Bound(ls, e));
  }

  lemma {:induction false} RunHandlersExtends(w: World, ls: seq<Binding>, e: Event, hs: seq<Handler>)
    requires WellRanked(ls) && Descends(e, hs)
    ensures Extends(w, RunHandlers(w, ls, e, hs))
    decreases Rank(e), |hs|
  {
    if |hs| > 0 && !w.exited {
      var w1 := Handle(w, ls, e, hs[0]);
      HandleExtends(w, ls, e, hs[0]);
      RunHandlersExtends(w1, ls, e, hs[1..]);
      ExtendsTrans(w, w1, RunHandlers(w, ls, e, hs));
    }
  }

  lemma {:induction false} HandleExtends(w: World, ls: seq<Binding>, e: Event, h: Handler)
    requires WellRanked(ls) && RankDescends(Binding(e, h)) && !w.exited
    ensures Extends(w, Handle(w, ls, e, h))
    decreases Rank(e), 0
  {
    match h
    case Reemit(t) => DispatchExtends(w, ls, t);
    case MarkHashingDone =>
      var w1 := w.(flags := Set(w.flags, AssetHashDone, true));
      DispatchExtends(w1, ls, HashingDone);
    case MarkGzipDone =>
      var w1 := w.(flags := Set(w.flags, Gzip, true));
      DispatchExtends(w1, ls, GzipDone);
    case _ => ApplyExtends(w, h);
  }

  // ---------------------------------------------------------------------
  // Any run of the build: each asynchronous completion writes flags and
  // publishes an event.

  datatype Completion = Completion(flags: Flags, event: Event)

  function Step(w: World, ls: seq<Binding>, c: Completion): World
    requires WellRanked(ls)
  {
    if w.exited then w else Dispatch(w.(flags := c.flags), ls, c.event)
  }

  function Run(w: World, ls: seq<Binding>, cs: seq<Completion>): World
    requires WellRanked(ls)
    decreases |cs|
  {
    if |cs| == 0 then w else Run(Step(w, ls, cs[0]), ls, cs[1..])
  }

  /**
   * Whatever completions arrive, in whatever order, the process
   * finalises at most once, ends up exited exactly when it finalised,
   * and finalises only with every checked flag set.
   */
  lemma {:induction false} RunFinalisesAtMostOnce(debug: bool, ls: seq<Binding>, cs: seq<Completion>)
    requires WellRanked(ls)
    ensures var r := Run(InitialWorld(debug), ls, cs);
      FinalCount(r.trace) <= 1 && (r.exited <==> FinalCount(r.trace) == 1) &&
      FinalisedOnlyWhenDone(r.trace)
  {
    RunExtends(InitialWorld(debug), ls, cs);
  }

  lemma {:induction false} RunExtends(w: World, ls: seq<Binding>, cs: seq<Completion>)
    requires WellRanked(ls)
    ensures Extends(w, Run(w, ls, cs))
    decreases |cs|
  {
    if |cs| > 0 {
      var w1 := Step(w, ls, cs[0]);
      if !w.exited {
        DispatchExtends(w.(flags := cs[0].flags), ls, cs[0].event);
      }
      RunExtends(w1, ls, cs[1..]);
      ExtendsTrans(w, w1, Run(w, ls, cs));
    }
  }

  // ---------------------------------------------------------------------
  // Which listeners write which flags.

  /** The flags a listener writes, directly or through the stage task it calls. */
  function Writes(h: Handler): seq<FlagName> {
    match h
    case ShouldBundleTemplates => TaskResets(BundleEjs) + TaskResets(BundleMarkdown)
    case CompileSitemapHandler => TaskResets(CompileSitemap)
    case MinifyJsHandler => TaskResets(MinifyJs)
    case MinifyHtmlHandler => TaskResets(MinifyHtml)
    case MarkHashingDone => [AssetHashDone]
    case MarkGzipDone => [Gzip]
    case _ => []
  }

  /** No listener in `ls` writes flag `n`. */
  predicate Untouched(ls: seq<Binding>, n: FlagName) {
    forall b :: b in ls ==> n !in Writes(b.handler)
  }

  lemma UntouchedAppend(a: seq<Binding>, b: seq<Binding>, n: FlagName)
    requires Untouched(a, n) && Untouched(b, n)
    ensures Untouched(a + b, n)
  {
  }

  lemma ApplyFrame(w: World, h: Handler, n: FlagName)
    requires n !in Writes(h)
    ensures Get(Apply(w, h).flags, n) == Get(w.flags, n)
  {
    match h
    case ShouldBundleTemplates =>
      ResetOnlyClears(w.flags, BundleEjs, n);
      ResetOnlyClears(ResetFlags(w.flags, BundleEjs), BundleMarkdown, n);
    case CompileSitemapHandler => ResetOnlyClears(w.flags, CompileSitemap, n);
    case MinifyJsHandler => ResetOnlyClears(w.flags, MinifyJs, n);
    case MinifyHtmlHandler => ResetOnlyClears(w.flags, MinifyHtml, n);
    case _ =>
  }

  /** Publishing an event leaves alone every flag that no registered listener writes. */
  lemma {:induction false} DispatchFrame(w: World, ls: seq<Binding>, e: Event, n: FlagName)
    requires WellRanked(ls) && Untouched(ls, n)
    ensures Get(Dispatch(w, ls, e).flags, n) == Get(w.flags, n)
    decreases Rank(e), |ls| + 1
  {
    if !w.exited {
      BoundIn(ls, e);
      RunHandlersFrame(w.(trace := w.trace + [Emitted(e, w.flags)]), ls, e, Bound(ls, e), n);
    }
  }

  lemma {:induction false} RunHandlersFrame(w: World, ls: seq<Binding>, e: Event, hs: seq<Handler>, n: FlagName)
    requires WellRanked(ls) && Untouched(ls, n)
    requires forall h :: h in hs ==> Binding(e, h) in ls
    ensures Get(RunHandlers(w, ls, e, hs).flags, n) == Get(w.flags, n)
    decreases Rank(e), |hs|
  {
    if |hs| > 0 && !w.exited {
      HandleFrame(w, ls, e, hs[0], n);
      RunHandlersFrame(Handle(w, ls, e, hs[0]), ls, e, hs[1..], n);
    }
  }

  lemma {:induction false} HandleFrame(w: World, ls: seq<Binding>, e: Event, h: Handler, n: FlagName)
    requires WellRanked(ls) && Untouched(ls, n) && Binding(e, h) in ls
    ensures Get(Handle(w, ls, e, h).flags, n) == Get(w.flags, n)
    decreases Rank(e), 0
  {
    assert n !in Writes(h);
    match h
    case Reemit(t) => DispatchFrame(w, ls, t, n);
    case MarkHashingDone =>
      DispatchFrame(w.(flags := Set(w.flags, AssetHashDone, true)), ls, HashingDone, n);
      GetSet(w.flags, AssetHashDone, true, n);
    case MarkGzipDone =>
      DispatchFrame(w.(flags := Set(w.flags, Gzip, true)), ls, GzipDone, n);
      GetSet(w.flags, Gzip, true, n);
    case _ => ApplyFrame(w, h, n);
  }
}
