/**
 * The golden build as a whole: the listeners index.js registers followed
 * by those of the golden profile. Which events can end the process, and
 * which cannot because a listener registered earlier clears a checked
 * flag before check-done looks at the record.
 */
module GoldenWiring {
  import opened CompletionFlags
  import opened BuildEvents
  import opened EventBus
  import Index
  import GoldenBuilder

  /** Every listener of a golden build, in registration order. */
  function Wiring(): seq<Binding> {
    Index.IndexBindings() + GoldenBuilder.GoldenBindings()
  }

  lemma WiringQuiet()
    ensures forall b :: b in Wiring() ==> Emits(b.handler).None?
    ensures WellRanked(Wiring())
  {
    IndexQuiet();
    GoldenBuilder.GoldenQuiet();
    QuietAppend(Index.IndexBindings(), GoldenBuilder.GoldenBindings());
    QuietWellRanked(Wiring());
  }

  lemma IndexQuiet()
    ensures forall b :: b in Index.IndexBindings() ==> Emits(b.handler).None?
  {
  }

  lemma QuietAppend(a: seq<Binding>, b: seq<Binding>)
    requires forall x :: x in a ==> Emits(x.handler).None?
    requires forall x :: x in b ==> Emits(x.handler).None?
    ensures forall x :: x in a + b ==> Emits(x.handler).None?
  {
  }

  /** index.js listens to none of the events but these four. */
  lemma IndexSilent(e: Event)
    requires e != VideosMoved && e != ImagesMoved && e != PageMappingDataCompiled && e != BuildEvents.PreviewReady
    ensures Bound(Index.IndexBindings(), e) == []
  {
  }

  /** The minifiers listen to `jsMoved` and `templatesMoved` only. */
  lemma MinifierSilent(e: Event)
    requires e != JsMoved && e != TemplatesMoved
    ensures Bound(GoldenBuilder.MinifierBindings(), e) == []
  {
  }

  /** The flags the golden profile forces, which no listener of a golden build writes. */
  predicate Forced(n: FlagName) {
    n == AssetHashImages || n == AssetHashCss || n == AssetHashJs || n == AssetHashDone || n == Gzip
  }

  lemma IndexUntouched(n: FlagName)
    requires Forced(n)
    ensures Untouched(Index.IndexBindings(), n)
  {
    assert Writes(ShouldBundleTemplates) == [] && Writes(CompileSitemapHandler) == [SiteMap];
  }

  lemma MinifierUntouched(n: FlagName)
    requires Forced(n)
    ensures Untouched(GoldenBuilder.MinifierBindings(), n)
  {
    assert Writes(MinifyJsHandler) == [JsIsMinified] && Writes(MinifyHtmlHandler) == [HtmlIsMinified];
  }

  lemma ForcedUntouched(n: FlagName)
    requires Forced(n)
    ensures Untouched(Wiring(), n)
  {
    IndexUntouched(n);
    MinifierUntouched(n);
    GoldenBuilder.CheckDoneBindingsAllCheckDone();
    GoldenBuilder.AllCheckDoneQuiet(GoldenBuilder.CheckDoneBindings(), n);
    UntouchedAppend(GoldenBuilder.MinifierBindings(), GoldenBuilder.CheckDoneBindings(), n);
    UntouchedAppend(Index.IndexBindings(), GoldenBuilder.GoldenBindings(), n);
  }

  /** The flags the golden profile forces stay set whatever is published. */
  lemma ForcedFlagsKept(w: World, e: Event, n: FlagName)
    requires Forced(n)
    ensures WellRanked(Wiring()) && Get(Dispatch(w, Wiring(), e).flags, n) == Get(w.flags, n)
  {
    WiringQuiet();
    ForcedUntouched(n);
    DispatchFrame(w, Wiring(), e, n);
  }

  /**
   * The listeners of `e` in a golden build: those of index.js, then the
   * profile's minifier, then check-done if the profile lists `e`.
   */
  lemma WiringBound(e: Event)
    ensures Bound(Wiring(), e) ==
      Bound(Index.IndexBindings(), e) + Bound(GoldenBuilder.MinifierBindings(), e) +
      (if Binding(e, CheckDoneHandler) in GoldenBuilder.CheckDoneBindings() then [CheckDoneHandler] else [])
  {
    BoundAppend(Index.IndexBindings(), GoldenBuilder.GoldenBindings(), e);
    GoldenBuilder.GoldenBound(e);
    Regroup(Bound(Wiring(), e), Bound(Index.IndexBindings(), e), Bound(GoldenBuilder.GoldenBindings(), e),
            Bound(GoldenBuilder.MinifierBindings(), e),
            if Binding(e, CheckDoneHandler) in GoldenBuilder.CheckDoneBindings() then [CheckDoneHandler] else []);
  }

  lemma Regroup(x: seq<Handler>, a: seq<Handler>, g: seq<Handler>, b: seq<Handler>, c: seq<Handler>)
    requires x == a + g && g == b + c
    ensures x == a + b + c
  {
  }

  /** The listeners of `e` in a golden build, from those of index.js, the minifier and check-done. */
  lemma WiringParts(e: Event, ri: seq<Handler>, rm: seq<Handler>, rc: seq<Handler>)
    requires Bound(Index.IndexBindings(), e) == ri
    requires Bound(GoldenBuilder.MinifierBindings(), e) == rm
    requires Bound(GoldenBuilder.CheckDoneBindings(), e) == rc
    ensures Bound(Wiring(), e) == ri + rm + rc
  {
    ProfileParts(e, rm, rc);
    IndexThenProfile(e, ri, rm + rc);
    Regroup(Bound(Wiring(), e), ri, rm + rc, rm, rc);
  }

  lemma IndexThenProfile(e: Event, ri: seq<Handler>, rg: seq<Handler>)
    requires Bound(Index.IndexBindings(), e) == ri
    requires Bound(GoldenBuilder.GoldenBindings(), e) == rg
    ensures Bound(Wiring(), e) == ri + rg
  {
    BoundAppend(Index.IndexBindings(), GoldenBuilder.GoldenBindings(), e);
  }

  lemma ProfileParts(e: Event, rm: seq<Handler>, rc: seq<Handler>)
    requires Bound(GoldenBuilder.MinifierBindings(), e) == rm
    requires Bound(GoldenBuilder.CheckDoneBindings(), e) == rc
    ensures Bound(GoldenBuilder.GoldenBindings(), e) == rm + rc
  {
    BoundAppend(GoldenBuilder.MinifierBindings(), GoldenBuilder.CheckDoneBindings(), e);
  }

  /** The events below on which the profile registers check-done: it runs once for each. */
  predicate Checked(e: Event) {
    CheckOnly(e) || e == ImagesMoved || e == VideosMoved || e == JsMoved || e == TemplatesMoved
  }

  lemma CheckDoneFor(e: Event)
    requires Checked(e)
    ensures Bound(GoldenBuilder.CheckDoneBindings(), e) == [CheckDoneHandler]
  {
    CheckDoneListed(e);
    GoldenBuilder.CheckDoneBindingsAscending();
    GoldenBuilder.CheckDoneBindingsAllCheckDone();
    GoldenBuilder.CheckDoneOnce(GoldenBuilder.CheckDoneBindings(), e);
  }

  lemma CheckDoneListed(e: Event)
    requires Checked(e)
    ensures Binding(e, CheckDoneHandler) in GoldenBuilder.CheckDoneBindings()
  {
    var cd := GoldenBuilder.CheckDoneBindings();
    var k :=
      if e == HtmlMinified then 5 else if e == ImagesMoved then 6 else if e == JsMinified then 8
      else if e == JsMoved then 9 else if e == SitemapDone then 12 else if e == StylesMoved then 13
      else if e == TemplatesMoved then 14 else 15;
    assert cd[k] == Binding(e, CheckDoneHandler);
  }

  /** Publishing under the golden wiring calls the event's listeners one after the other. */
  lemma WiringDispatch(w: World, e: Event)
    requires !w.exited
    ensures WellRanked(Wiring())
    ensures Dispatch(w, Wiring(), e) ==
      ApplyAll(w.(trace := w.trace + [Emitted(e, w.flags)]), Bound(Wiring(), e))
  {
    WiringQuiet();
    BoundIn(Wiring(), e);
    DispatchQuiet(w, Wiring(), e);
  }

  /**
   * check-done on its own: it logs the record in verbose mode, ends the
   * process exactly when every checked flag is set, and writes no flag.
   */
  lemma CheckStep(w: World)
    requires !w.exited
    ensures var r := ApplyAll(w, [CheckDoneHandler]);
      && r.flags == w.flags && r.debug == w.debug
      && (r.exited <==> AllRequired(w.flags))
      && r.trace == w.trace + (if w.debug then [LoggedFlags(w.flags)] else [])
                            + (if AllRequired(w.flags) then [Finalised(w.flags)] else [])
  {
    ApplyOne(w, CheckDoneHandler);
  }

  /** The events on which the golden profile runs check-done and nothing else. */
  predicate CheckOnly(e: Event) {
    e == StylesMoved || e == JsMinified || e == HtmlMinified || e == SitemapDone
  }

  lemma CheckOnlyBound(e: Event)
    requires CheckOnly(e)
    ensures Bound(Wiring(), e) == [CheckDoneHandler]
  {
    IndexSilent(e);
    MinifierSilent(e);
    CheckDoneFor(e);
    WiringParts(e, [], [], [CheckDoneHandler]);
  }

  /**
   * When styles are moved or minification or the sitemap finishes, a
   * golden build ends exactly when every checked flag is set, and no
   * flag changes.
   */
  lemma FinalisesOnCompletion(w: World, e: Event)
    requires !w.exited && CheckOnly(e)
    ensures WellRanked(Wiring())
    ensures var r := Dispatch(w, Wiring(), e);
      r.flags == w.flags && (r.exited <==> AllRequired(w.flags))
  {
    WiringDispatch(w, e);
    CheckOnlyBound(e);
    CheckStep(w.(trace := w.trace + [Emitted(e, w.flags)]));
  }

  lemma MoveBound(e: Event)
    requires e == ImagesMoved || e == VideosMoved
    ensures Bound(Wiring(), e) == [ShouldBundleTemplates, CheckDoneHandler]
  {
    MoveParts(e);
  }

  lemma MoveParts(e: Event)
    requires e == ImagesMoved || e == VideosMoved
    ensures Bound(Wiring(), e) == [ShouldBundleTemplates] + [] + [CheckDoneHandler]
  {
    IndexOnMove(e);
    MinifierSilent(e);
    CheckDoneFor(e);
    WiringParts(e, [ShouldBundleTemplates], [], [CheckDoneHandler]);
  }

  lemma IndexOnMove(e: Event)
    requires e == ImagesMoved || e == VideosMoved
    ensures Bound(Index.IndexBindings(), e) == [ShouldBundleTemplates]
  {
    Index.IndexBound(e);
  }

  /**
   * When images or videos are moved, the template gate runs first and
   * writes no flag, so the golden build ends exactly when every checked
   * flag is set.
   */
  lemma FinalisesOnMove(w: World, e: Event)
    requires !w.exited && (e == ImagesMoved || e == VideosMoved)
    ensures WellRanked(Wiring())
    ensures var r := Dispatch(w, Wiring(), e);
      r.flags == w.flags && (r.exited <==> AllRequired(w.flags))
  {
    WiringDispatch(w, e);
    MoveBound(e);
    var w0 := w.(trace := w.trace + [Emitted(e, w.flags)]);
    ApplyTwo(w0, ShouldBundleTemplates, CheckDoneHandler);
    ApplyOne(w0, ShouldBundleTemplates);
    Index.GateStep(w0);
    CheckStep(ApplyAll(w0, [ShouldBundleTemplates]));
  }

  lemma JsMovedBound()
    ensures Bound(Wiring(), JsMoved) == [MinifyJsHandler, CheckDoneHandler]
  {
    MinifiedBound(JsMoved, MinifyJsHandler);
  }

  /** A minifier's call clears its flag, so the check-done that follows cannot end the process. */
  lemma MinifyJsThenCheck(w: World)
    requires !w.exited
    ensures var r := ApplyAll(w, [MinifyJsHandler, CheckDoneHandler]);
      !r.exited && r.flags == w.flags.(jsIsMinified := false)
  {
    ApplyTwo(w, MinifyJsHandler, CheckDoneHandler);
    ApplyOne(w, MinifyJsHandler);
    ClearOne(w.flags, JsIsMinified);
    var w1 := ApplyAll(w, [MinifyJsHandler]);
    assert w1.flags == w.flags.(jsIsMinified := false) && !w1.exited;
    CheckStep(w1);
    CheckDoneExitsIff(w1.flags, false, false);
  }

  /**
   * `jsMoved` never ends a golden build: minifyJS is registered before
   * check-done and its call clears JS_IS_MINIFIED first.
   */
  lemma NeverFinalisesOnJsMoved(w: World)
    requires !w.exited
    ensures WellRanked(Wiring())
    ensures var r := Dispatch(w, Wiring(), JsMoved);
      !r.exited && r.flags == w.flags.(jsIsMinified := false)
  {
    WiringDispatch(w, JsMoved);
    JsMovedBound();
    MinifyJsThenCheck(w.(trace := w.trace + [Emitted(JsMoved, w.flags)]));
  }

  lemma TemplatesMovedBound()
    ensures Bound(Wiring(), TemplatesMoved) == [MinifyHtmlHandler, CheckDoneHandler]
  {
    MinifiedBound(TemplatesMoved, MinifyHtmlHandler);
  }

  /** An event the profile minifies on calls that minifier and then check-done. */
  lemma MinifiedBound(e: Event, h: Handler)
    requires (e == JsMoved && h == MinifyJsHandler) || (e == TemplatesMoved && h == MinifyHtmlHandler)
    ensures Bound(Wiring(), e) == [h, CheckDoneHandler]
  {
    MinifiedParts(e, h);
  }

  lemma MinifiedParts(e: Event, h: Handler)
    requires (e == JsMoved && h == MinifyJsHandler) || (e == TemplatesMoved && h == MinifyHtmlHandler)
    ensures Bound(Wiring(), e) == [] + [h] + [CheckDoneHandler]
  {
    IndexSilent(e);
    MinifierOn(e, h);
    CheckDoneFor(e);
    WiringParts(e, [], [h], [CheckDoneHandler]);
  }

  lemma MinifierOn(e: Event, h: Handler)
    requires (e == JsMoved && h == MinifyJsHandler) || (e == TemplatesMoved && h == MinifyHtmlHandler)
    ensures Bound(GoldenBuilder.MinifierBindings(), e) == [h]
  {
  }

  lemma MinifyHtmlThenCheck(w: World)
    requires !w.exited
    ensures var r := ApplyAll(w, [MinifyHtmlHandler, CheckDoneHandler]);
      !r.exited && r.flags == w.flags.(htmlIsMinified := false)
  {
    ApplyTwo(w, MinifyHtmlHandler, CheckDoneHandler);
    ApplyOne(w, MinifyHtmlHandler);
    ClearOne(w.flags, HtmlIsMinified);
    var w1 := ApplyAll(w, [MinifyHtmlHandler]);
    assert w1.flags == w.flags.(htmlIsMinified := false) && !w1.exited;
    CheckStep(w1);
    CheckDoneExitsIff(w1.flags, false, false);
  }

  /**
   * `templatesMoved` never ends a golden build: minifyHTML is registered
   * before check-done and its call clears HTML_IS_MINIFIED first.
   */
  lemma NeverFinalisesOnTemplatesMoved(w: World)
    requires !w.exited
    ensures WellRanked(Wiring())
    ensures var r := Dispatch(w, Wiring(), TemplatesMoved);
      !r.exited && r.flags == w.flags.(htmlIsMinified := false)
  {
    WiringDispatch(w, TemplatesMoved);
    TemplatesMovedBound();
    MinifyHtmlThenCheck(w.(trace := w.trace + [Emitted(TemplatesMoved, w.flags)]));
  }
}
