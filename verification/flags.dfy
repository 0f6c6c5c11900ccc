/**
 * The shared completion-flag record (build/constants/completion-flags.js)
 * and the finalisation predicate of build/helpers/check-done.js.
 */
module CompletionFlags {

  /** The nested `ASSET_HASH` group. */
  datatype AssetHash = AssetHash(images: bool, css: bool, js: bool, done: bool)

  /**
   * One field per flag of the record. `svgOptimization` is not in the
   * record as declared: optimize-svgs adds `SVG_OPTIMIZATION` when it
   * runs, and until then every reader sees it as falsy, which is what the
   * initial `false` here stands for.
   */
  datatype Flags = Flags(
    jsIsMinified: bool,
    cssIsMinified: bool,
    htmlIsMinified: bool,
    externalLinksProcessed: bool,
    imagesAreMoved: bool,
    videosAreMoved: bool,
    assetHash: AssetHash,
    siteMap: bool,
    gzip: bool,
    previewReady: bool,
    svgOptimization: bool)

  datatype FlagName =
    | JsIsMinified | CssIsMinified | HtmlIsMinified | ExternalLinksProcessed
    | ImagesAreMoved | VideosAreMoved
    | AssetHashImages | AssetHashCss | AssetHashJs | AssetHashDone
    | SiteMap | Gzip | PreviewReady | SvgOptimization

  /** Every flag starts false. */
  function Initial(): Flags {
    Flags(false, false, false, false, false, false,
          AssetHash(false, false, false, false),
          false, false, false, false)
  }

  function Get(f: Flags, n: FlagName): bool {
    match n
    case JsIsMinified => f.jsIsMinified
    case CssIsMinified => f.cssIsMinified
    case HtmlIsMinified => f.htmlIsMinified
    case ExternalLinksProcessed => f.externalLinksProcessed
    case ImagesAreMoved => f.imagesAreMoved
    case VideosAreMoved => f.videosAreMoved
    case AssetHashImages => f.assetHash.images
    case AssetHashCss => f.assetHash.css
    case AssetHashJs => f.assetHash.js
    case AssetHashDone => f.assetHash.done
    case SiteMap => f.siteMap
    case Gzip => f.gzip
    case PreviewReady => f.previewReady
    case SvgOptimization => f.svgOptimization
  }

  /** A single flag write, `completionFlags.X = v`. */
  function Set(f: Flags, n: FlagName, v: bool): Flags {
    match n
    case JsIsMinified => f.(jsIsMinified := v)
    case CssIsMinified => f.(cssIsMinified := v)
    case HtmlIsMinified => f.(htmlIsMinified := v)
    case ExternalLinksProcessed => f.(externalLinksProcessed := v)
    case ImagesAreMoved => f.(imagesAreMoved := v)
    case VideosAreMoved => f.(videosAreMoved := v)
    case AssetHashImages => f.(assetHash := f.assetHash.(images := v))
    case AssetHashCss => f.(assetHash := f.assetHash.(css := v))
    case AssetHashJs => f.(assetHash := f.assetHash.(js := v))
    case AssetHashDone => f.(assetHash := f.assetHash.(done := v))
    case SiteMap => f.(siteMap := v)
    case Gzip => f.(gzip := v)
    case PreviewReady => f.(previewReady := v)
    case SvgOptimization => f.(svgOptimization := v)
  }

  /** Writing a flag changes that flag and no other. */
  lemma GetSet(f: Flags, n: FlagName, v: bool, m: FlagName)
    ensures Get(Set(f, n, v), m) == if m == n then v else Get(f, m)
  {
    match n
    case JsIsMinified =>
    case CssIsMinified =>
    case HtmlIsMinified =>
    case ExternalLinksProcessed =>
    case ImagesAreMoved =>
    case VideosAreMoved =>
    case AssetHashImages =>
    case AssetHashCss =>
    case AssetHashJs =>
    case AssetHashDone =>
    case SiteMap =>
    case Gzip =>
    case PreviewReady =>
    case SvgOptimization =>
  }

  /** The eleven flags check-done inspects, in its order. */
  const CheckedFlags: seq<FlagName> := [
    JsIsMinified, CssIsMinified, HtmlIsMinified, ImagesAreMoved, VideosAreMoved,
    AssetHashImages, AssetHashCss, AssetHashJs, AssetHashDone, SiteMap, Gzip]

  /** What one call of check-done does: whether it logs the flags and whether it ends the process. */
  datatype CheckOutcome = CheckOutcome(logged: bool, exits: bool)

  /**
   * `checkDone(configs)`: logs the record when `debug` or
   * `isComparisonBuild` is set, returns false while any checked flag is
   * false, and otherwise prints the exit message and ends the process.
   */
  function CheckDone(f: Flags, debug: bool, isComparisonBuild: bool): (r: CheckOutcome)
    ensures r.logged <==> debug || isComparisonBuild
  {
    CheckOutcome(debug || isComparisonBuild, !SomeFalse(f, CheckedFlags))
  }

  /** `names.some(flag => !flag)` over the values of the named flags. */
  predicate SomeFalse(f: Flags, names: seq<FlagName>) {
    |names| > 0 && (!Get(f, names[0]) || SomeFalse(f, names[1..]))
  }

  lemma {:induction false} SomeFalseIff(f: Flags, names: seq<FlagName>)
    ensures SomeFalse(f, names) <==> exists n :: n in names && !Get(f, n)
  {
    if |names| > 0 {
      SomeFalseIff(f, names[1..]);
      assert names == [names[0]] + names[1..];
    }
  }

  /** All eleven checked flags set. */
  predicate AllCheckedSet(f: Flags) {
    f.jsIsMinified && f.cssIsMinified && f.htmlIsMinified &&
    f.imagesAreMoved && f.videosAreMoved &&
    f.assetHash.images && f.assetHash.css && f.assetHash.js && f.assetHash.done &&
    f.siteMap && f.gzip
  }

  lemma AllCheckedSetNoneFalse(f: Flags)
    requires AllCheckedSet(f)
    ensures !SomeFalse(f, CheckedFlags)
  {
    SomeFalseIff(f, CheckedFlags);
    forall n | n in CheckedFlags ensures Get(f, n) {
    }
  }

  lemma SomeFalseWitness(f: Flags, n: FlagName)
    requires n in CheckedFlags && !Get(f, n)
    ensures SomeFalse(f, CheckedFlags)
  {
    SomeFalseIff(f, CheckedFlags);
  }

  /** check-done ends the process exactly when all eleven checked flags are set, whatever is logged. */
  lemma CheckDoneExitsIff(f: Flags, debug: bool, isComparisonBuild: bool)
    ensures CheckDone(f, debug, isComparisonBuild).exits <==> AllCheckedSet(f)
  {
    if AllCheckedSet(f) { AllCheckedSetNoneFalse(f); }
    else if !f.jsIsMinified { SomeFalseWitness(f, JsIsMinified); }
    else if !f.cssIsMinified { SomeFalseWitness(f, CssIsMinified); }
    else if !f.htmlIsMinified { SomeFalseWitness(f, HtmlIsMinified); }
    else if !f.imagesAreMoved { SomeFalseWitness(f, ImagesAreMoved); }
    else if !f.videosAreMoved { SomeFalseWitness(f, VideosAreMoved); }
    else if !f.assetHash.images { SomeFalseWitness(f, AssetHashImages); }
    else if !f.assetHash.css { SomeFalseWitness(f, AssetHashCss); }
    else if !f.assetHash.js { SomeFalseWitness(f, AssetHashJs); }
    else if !f.assetHash.done { SomeFalseWitness(f, AssetHashDone); }
    else if !f.siteMap { SomeFalseWitness(f, SiteMap); }
    else { SomeFalseWitness(f, Gzip); }
  }

  /** The exit condition, named for the rest of the model. */
  predicate AllRequired(f: Flags) {
    CheckDone(f, false, false).exits
  }

  /** A fresh record never satisfies check-done. */
  lemma InitialNotDone()
    ensures !AllRequired(Initial())
    ensures forall n :: !Get(Initial(), n)
  {
    CheckDoneExitsIff(Initial(), false, false);
  }

  /** PREVIEW_READY, EXTERNAL_LINKS_PROCESSED and SVG_OPTIMIZATION never influence finalisation, nor does logging. */
  lemma UncheckedFlagsIrrelevant(f: Flags, debug: bool, comparison: bool, a: bool, b: bool, c: bool)
    ensures CheckDone(f.(previewReady := a, externalLinksProcessed := b, svgOptimization := c), debug, comparison).exits
        == CheckDone(f, false, false).exits
  {
    CheckDoneExitsIff(f.(previewReady := a, externalLinksProcessed := b, svgOptimization := c), debug, comparison);
    CheckDoneExitsIff(f, false, false);
  }

  /** Writing one flag only ever affects finalisation through a checked flag. */
  lemma {:induction false} SetUncheckedKeepsDecision(f: Flags, n: FlagName, v: bool)
    requires n !in CheckedFlags
    ensures AllRequired(Set(f, n, v)) == AllRequired(f)
  {
    assert n == ExternalLinksProcessed || n == PreviewReady || n == SvgOptimization;
    var g := Set(f, n, v);
    assert g == f.(externalLinksProcessed := g.externalLinksProcessed, previewReady := g.previewReady,
                   svgOptimization := g.svgOptimization);
    CheckDoneExitsIff(g, false, false);
    CheckDoneExitsIff(f, false, false);
  }
}
