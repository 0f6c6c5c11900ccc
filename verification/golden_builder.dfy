/**
 * build/golden-builder.js: the golden profile forces the hashing and gzip
 * flags (those stages do not run in it), minifies JavaScript once it has
 * been moved and HTML once the templates have been moved, and runs
 * check-done after sixteen different events.
 */
module GoldenBuilder {
  import opened CompletionFlags
  import opened BuildEvents
  import opened EventBus
  import opened BuildContext

  /** The flags the profile forces before registering anything. */
  function ForceGolden(f: Flags): Flags {
    f.(assetHash := AssetHash(true, true, true, true), gzip := true)
  }

  /** The two minifier listeners, registered first. */
  function MinifierBindings(): seq<Binding> {
    [ Binding(JsMoved, MinifyJsHandler),
      Binding(TemplatesMoved, MinifyHtmlHandler) ]
  }

  /** check-done after sixteen events, registered next, in this order. */
  function CheckDoneBindings(): seq<Binding> {
    [ Binding(AssetHashCssListed, CheckDoneHandler),
      Binding(AssetHashImagesListed, CheckDoneHandler),
      Binding(AssetHashJsListed, CheckDoneHandler),
      Binding(GzipDone, CheckDoneHandler),
      Binding(HashingDone, CheckDoneHandler),
      Binding(HtmlMinified, CheckDoneHandler),
      Binding(ImagesMoved, CheckDoneHandler),
      Binding(IndexCssForHashing, CheckDoneHandler),
      Binding(JsMinified, CheckDoneHandler),
      Binding(JsMoved, CheckDoneHandler),
      Binding(PageMappingDataCompiled, CheckDoneHandler),
      Binding(BuildEvents.PreviewReady, CheckDoneHandler),
      Binding(SitemapDone, CheckDoneHandler),
      Binding(StylesMoved, CheckDoneHandler),
      Binding(TemplatesMoved, CheckDoneHandler),
      Binding(VideosMoved, CheckDoneHandler) ]
  }

  /** The listeners the profile registers, in order. */
  function GoldenBindings(): seq<Binding> {
    MinifierBindings() + CheckDoneBindings()
  }

  /** The position of an event's `BUILD_EVENTS` key in alphabetical order. */
  function KeyOrder(e: Event): nat {
    match e
    case AssetHashCssListed => 0
    case AssetHashImagesListed => 1
    case AssetHashJsListed => 2
    case ExternalLinksProcessed => 3
    case GzipDone => 4
    case HashingDone => 5
    case HtmlMinified => 6
    case ImagesMoved => 7
    case IndexCssForHashing => 8
    case JsMinified => 9
    case JsMoved => 10
    case PageMappingDataCompiled => 11
    case PreviewReady => 12
    case SitemapDone => 13
    case StylesMoved => 14
    case SvgsOptimized => 15
    case TemplatesMoved => 16
    case VideosMoved => 17
    case LegacyAssetHashCssListed => 18
    case LegacyAssetHashImagesListed => 19
    case LegacyAssetHashJsListed => 20
  }

  /** Listeners registered in strictly increasing key order of their events. */
  predicate Ascending(ls: seq<Binding>) {
    forall i :: 0 < i < |ls| ==> KeyOrder(ls[i - 1].event) < KeyOrder(ls[i].event)
  }

  /** Listeners that are all check-done. */
  predicate AllCheckDone(ls: seq<Binding>) {
    forall b :: b in ls ==> b.handler == CheckDoneHandler
  }

  /** The profile registers check-done in alphabetical order of the event keys. */
  lemma CheckDoneBindingsAscending()
    ensures Ascending(CheckDoneBindings())
  {
  }

  lemma CheckDoneBindingsAllCheckDone()
    ensures AllCheckDone(CheckDoneBindings())
  {
  }

  /** check-done publishes nothing and writes no flag. */
  lemma AllCheckDoneQuiet(ls: seq<Binding>, n: FlagName)
    requires AllCheckDone(ls)
    ensures forall b :: b in ls ==> Emits(b.handler).None?
    ensures Untouched(ls, n)
  {
  }

  /**
   * The listeners of `e` the profile registers: its minifier for `e`, if
   * any, then check-done if the profile lists `e`.
   */
  lemma GoldenBound(e: Event)
    ensures Bound(GoldenBindings(), e) ==
      Bound(MinifierBindings(), e) +
      (if Binding(e, CheckDoneHandler) in CheckDoneBindings() then [CheckDoneHandler] else [])
  {
    BoundAppend(MinifierBindings(), CheckDoneBindings(), e);
    CheckDoneBindingsAscending();
    CheckDoneBindingsAllCheckDone();
    CheckDoneOnce(CheckDoneBindings(), e);
  }

  lemma {:induction false} AscendingHead(ls: seq<Binding>, k: nat)
    requires Ascending(ls) && 0 < k < |ls|
    ensures KeyOrder(ls[0].event) < KeyOrder(ls[k].event)
    decreases k
  {
    if k > 1 {
      AscendingHead(ls, k - 1);
    }
  }

  /**
   * check-done registered on events that are all different, as an
   * ascending list makes them, runs once for each of those events and not
   * at all for any other.
   */
  lemma {:induction false} CheckDoneOnce(ls: seq<Binding>, e: Event)
    requires Ascending(ls) && AllCheckDone(ls)
    ensures Bound(ls, e) == if Binding(e, CheckDoneHandler) in ls then [CheckDoneHandler] else []
    decreases |ls|
  {
    if |ls| > 0 {
      var tl := ls[1..];
      assert Ascending(tl) by {
        forall i | 0 < i < |tl| ensures KeyOrder(tl[i - 1].event) < KeyOrder(tl[i].event) {
          assert tl[i - 1] == ls[i] && tl[i] == ls[i + 1];
        }
      }
      CheckDoneOnce(tl, e);
      assert ls[0] == Binding(ls[0].event, CheckDoneHandler);
      forall k | 0 < k < |ls| ensures ls[k].event != ls[0].event {
        AscendingHead(ls, k);
      }
      assert Binding(e, CheckDoneHandler) in ls <==> e == ls[0].event || Binding(e, CheckDoneHandler) in tl;
    }
  }

  /** None of the profile's listeners publishes an event. */
  lemma GoldenQuiet()
    ensures forall b :: b in GoldenBindings() ==> Emits(b.handler).None?
    ensures WellRanked(GoldenBindings())
  {
    CheckDoneBindingsAllCheckDone();
    AllCheckDoneQuiet(CheckDoneBindings(), Gzip);
    QuietWellRanked(GoldenBindings());
  }

  /** The five flag writes at the top of the profile. */
  method ForceFlags(ctx: Build)
    modifies ctx
    ensures ctx.flags == ForceGolden(old(ctx.flags))
    ensures ctx.exited == old(ctx.exited) && ctx.trace == old(ctx.trace) && ctx.debug == old(ctx.debug)
    ensures ctx.listeners == old(ctx.listeners) && ctx.names == old(ctx.names)
  {
    ctx.SetFlag(AssetHashImages, true);
    ctx.SetFlag(AssetHashCss, true);
    ctx.SetFlag(AssetHashJs, true);
    ctx.SetFlag(AssetHashDone, true);
    ctx.SetFlag(Gzip, true);
  }

  /** `goldenBuilder(configs)` */
  method Install(ctx: Build)
    requires ctx.Valid()
    modifies ctx
    ensures ctx.flags == ForceGolden(old(ctx.flags))
    ensures ctx.listeners == old(ctx.listeners) + GoldenBindings()
    ensures ctx.exited == old(ctx.exited) && ctx.trace == old(ctx.trace) && ctx.debug == old(ctx.debug)
    ensures ctx.names == old(ctx.names) && ctx.Valid()
  {
    ForceFlags(ctx);
    ctx.On(JsMoved, MinifyJsHandler);
    ctx.On(TemplatesMoved, MinifyHtmlHandler);
    assert ctx.listeners == old(ctx.listeners) + MinifierBindings();
    CheckDoneFirstHalf(ctx);
    CheckDoneSecondHalf(ctx);
    assert CheckDoneBindings() == CheckDoneBindings()[..8] + CheckDoneBindings()[8..];
  }

  /** The first eight check-done registrations. */
  method CheckDoneFirstHalf(ctx: Build)
    requires ctx.Valid()
    modifies ctx
    ensures ctx.listeners == old(ctx.listeners) + CheckDoneBindings()[..8]
    ensures ctx.World() == old(ctx.World()) && ctx.names == old(ctx.names) && ctx.Valid()
  {
    ctx.On(AssetHashCssListed, CheckDoneHandler);
    ctx.On(AssetHashImagesListed, CheckDoneHandler);
    ctx.On(AssetHashJsListed, CheckDoneHandler);
    ctx.On(GzipDone, CheckDoneHandler);
    ctx.On(HashingDone, CheckDoneHandler);
    ctx.On(HtmlMinified, CheckDoneHandler);
    ctx.On(ImagesMoved, CheckDoneHandler);
    ctx.On(IndexCssForHashing, CheckDoneHandler);
  }

  /** The last eight check-done registrations. */
  method CheckDoneSecondHalf(ctx: Build)
    requires ctx.Valid()
    modifies ctx
    ensures ctx.listeners == old(ctx.listeners) + CheckDoneBindings()[8..]
    ensures ctx.World() == old(ctx.World()) && ctx.names == old(ctx.names) && ctx.Valid()
  {
    ctx.On(JsMinified, CheckDoneHandler);
    ctx.On(JsMoved, CheckDoneHandler);
    ctx.On(PageMappingDataCompiled, CheckDoneHandler);
    ctx.On(BuildEvents.PreviewReady, CheckDoneHandler);
    ctx.On(SitemapDone, CheckDoneHandler);
    ctx.On(StylesMoved, CheckDoneHandler);
    ctx.On(TemplatesMoved, CheckDoneHandler);
    ctx.On(VideosMoved, CheckDoneHandler);
  }

  /**
   * With the forced flags in place, check-done finalises exactly when the
   * six flags the golden profile still produces are set.
   */
  lemma ForcedFlagsSuffice(f: Flags)
    ensures AllRequired(ForceGolden(f)) <==>
      f.jsIsMinified && f.cssIsMinified && f.htmlIsMinified &&
      f.imagesAreMoved && f.videosAreMoved && f.siteMap
  {
    CheckDoneExitsIff(ForceGolden(f), false, false);
  }
}
