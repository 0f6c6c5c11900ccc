/**
 * build/comparison-builder.js: a profile that skips hashing and gzip but
 * keeps their completion events flowing. Each move event is relayed down
 * the chain assetHashImagesListed, assetHashCssListed, assetHashJsListed,
 * hashingDone, gzipDone; on the way ASSET_HASH.DONE and then GZIP are set,
 * and check-done runs after gzipDone and sitemapDone.
 */
module ComparisonBuilder {
  import opened CompletionFlags
  import opened BuildEvents
  import opened EventBus
  import opened BuildContext

  /** The listeners the profile registers, in order. */
  function ComparisonBindings(): seq<Binding> {
    [ Binding(ImagesMoved, Reemit(AssetHashImagesListed)),
      Binding(StylesMoved, Reemit(AssetHashCssListed)),
      Binding(JsMoved, Reemit(AssetHashJsListed)),
      Binding(TemplatesMoved, Reemit(AssetHashJsListed)),
      Binding(AssetHashImagesListed, Reemit(AssetHashCssListed)),
      Binding(AssetHashCssListed, Reemit(AssetHashJsListed)),
      Binding(AssetHashJsListed, MarkHashingDone),
      Binding(HashingDone, MarkGzipDone),
      Binding(GzipDone, CheckDoneHandler),
      Binding(SitemapDone, CheckDoneHandler) ]
  }

  /**
   * Every relay publishes an event further down the chain, so the graph
   * of events publishing events is acyclic and every `emit` returns.
   */
  lemma ComparisonWellRanked()
    ensures WellRanked(ComparisonBindings())
  {
  }

  /** `comparisonBuilder(configs)` */
  method Install(ctx: Build)
    requires ctx.Valid()
    modifies ctx
    ensures ctx.listeners == old(ctx.listeners) + ComparisonBindings()
    ensures ctx.World() == old(ctx.World()) && ctx.names == old(ctx.names) && ctx.Valid()
  {
    RelayRegistrations(ctx);
    HashingRegistrations(ctx);
    assert ComparisonBindings() == ComparisonBindings()[..6] + ComparisonBindings()[6..];
  }

  /** The six relays of move and listing events. */
  method RelayRegistrations(ctx: Build)
    requires ctx.Valid()
    modifies ctx
    ensures ctx.listeners == old(ctx.listeners) + ComparisonBindings()[..6]
    ensures ctx.World() == old(ctx.World()) && ctx.names == old(ctx.names) && ctx.Valid()
  {
    ctx.On(ImagesMoved, Reemit(AssetHashImagesListed));
    ctx.On(StylesMoved, Reemit(AssetHashCssListed));
    ctx.On(JsMoved, Reemit(AssetHashJsListed));
    ctx.On(TemplatesMoved, Reemit(AssetHashJsListed));
    ctx.On(AssetHashImagesListed, Reemit(AssetHashCssListed));
    ctx.On(AssetHashCssListed, Reemit(AssetHashJsListed));
  }

  /** The completion markers and the two check-done registrations. */
  method HashingRegistrations(ctx: Build)
    requires ctx.Valid()
    modifies ctx
    ensures ctx.listeners == old(ctx.listeners) + ComparisonBindings()[6..]
    ensures ctx.World() == old(ctx.World()) && ctx.names == old(ctx.names) && ctx.Valid()
  {
    ctx.On(AssetHashJsListed, MarkHashingDone);
    ctx.On(HashingDone, MarkGzipDone);
    ctx.On(GzipDone, CheckDoneHandler);
    ctx.On(SitemapDone, CheckDoneHandler);
  }

  // ---------------------------------------------------------------------
  // One link of the chain at a time. The links are stated for any
  // listener list with the profile's listeners for the chain's events,
  // and `ComparisonBindings()` is shown to have them.

  /** `w` after publishing `e`. */
  function Published(w: World, e: Event): World {
    w.(trace := w.trace + [Emitted(e, w.flags)])
  }

  /** An event the profile only relays: publishing it publishes `next` and nothing else. */
  predicate Relays(e: Event, next: Event) {
    || (e == ImagesMoved && next == AssetHashImagesListed)
    || (e == StylesMoved && next == AssetHashCssListed)
    || (e == JsMoved && next == AssetHashJsListed)
    || (e == TemplatesMoved && next == AssetHashJsListed)
    || (e == AssetHashImagesListed && next == AssetHashCssListed)
    || (e == AssetHashCssListed && next == AssetHashJsListed)
  }

  /** The listeners of the chain's events in the comparison profile. */
  predicate ChainListeners(ls: seq<Binding>) {
    && WellRanked(ls)
    && Bound(ls, GzipDone) == [CheckDoneHandler]
    && Bound(ls, HashingDone) == [MarkGzipDone]
    && Bound(ls, AssetHashJsListed) == [MarkHashingDone]
    && Bound(ls, AssetHashCssListed) == [Reemit(AssetHashJsListed)]
    && Bound(ls, AssetHashImagesListed) == [Reemit(AssetHashCssListed)]
    && Bound(ls, ImagesMoved) == [Reemit(AssetHashImagesListed)]
    && Bound(ls, StylesMoved) == [Reemit(AssetHashCssListed)]
    && Bound(ls, JsMoved) == [Reemit(AssetHashJsListed)]
    && Bound(ls, TemplatesMoved) == [Reemit(AssetHashJsListed)]
  }

  /** The profile registers at most one listener per event. */
  lemma ComparisonEventsDistinct()
    ensures forall i, j :: 0 <= i < j < |ComparisonBindings()| ==>
      ComparisonBindings()[i].event != ComparisonBindings()[j].event
  {
  }

  /** So each registered event has exactly its own binding's listener. */
  lemma ListenerAt(i: nat)
    requires i < |ComparisonBindings()|
    ensures Bound(ComparisonBindings(), ComparisonBindings()[i].event) == [ComparisonBindings()[i].handler]
  {
    ComparisonEventsDistinct();
    BoundUnique(ComparisonBindings(), ComparisonBindings()[i].event, i);
  }

  /** The listeners of the chain's last three events. */
  lemma HashingListeners()
    ensures Bound(ComparisonBindings(), GzipDone) == [CheckDoneHandler]
    ensures Bound(ComparisonBindings(), HashingDone) == [MarkGzipDone]
    ensures Bound(ComparisonBindings(), AssetHashJsListed) == [MarkHashingDone]
  {
    ListenerAt(6); ListenerAt(7); ListenerAt(8);
  }

  /** The listeners of the two listing events the chain relays. */
  lemma ListedListeners()
    ensures Bound(ComparisonBindings(), AssetHashCssListed) == [Reemit(AssetHashJsListed)]
    ensures Bound(ComparisonBindings(), AssetHashImagesListed) == [Reemit(AssetHashCssListed)]
  {
    ListenerAt(4); ListenerAt(5);
  }

  /** The listeners of the four move events. */
  lemma MoveListeners()
    ensures Bound(ComparisonBindings(), ImagesMoved) == [Reemit(AssetHashImagesListed)]
    ensures Bound(ComparisonBindings(), StylesMoved) == [Reemit(AssetHashCssListed)]
    ensures Bound(ComparisonBindings(), JsMoved) == [Reemit(AssetHashJsListed)]
    ensures Bound(ComparisonBindings(), TemplatesMoved) == [Reemit(AssetHashJsListed)]
  {
    ListenerAt(0); ListenerAt(1); ListenerAt(2); ListenerAt(3);
  }

  lemma ComparisonChainListeners()
    ensures ChainListeners(ComparisonBindings())
  {
    ComparisonWellRanked();
    HashingListeners();
    ListedListeners();
    MoveListeners();
  }

  /** check-done after gzipDone: it logs in verbose mode and ends the process exactly when every checked flag is set. */
  lemma GzipDoneLink(w: World, ls: seq<Binding>)
    requires !w.exited && WellRanked(ls) && Bound(ls, GzipDone) == [CheckDoneHandler]
    ensures var r := Dispatch(w, ls, GzipDone);
      && r.flags == w.flags && (r.exited <==> AllRequired(w.flags))
      && r.trace == w.trace + [Emitted(GzipDone, w.flags)]
                  + (if w.debug then [LoggedFlags(w.flags)] else [])
                  + (if AllRequired(w.flags) then [Finalised(w.flags)] else [])
  {
    DispatchOne(w, ls, GzipDone, CheckDoneHandler);
  }

  /** hashingDone sets GZIP and then publishes gzipDone. */
  lemma HashingDoneLink(w: World, ls: seq<Binding>)
    requires !w.exited && WellRanked(ls) && Bound(ls, HashingDone) == [MarkGzipDone]
    ensures Dispatch(w, ls, HashingDone) ==
      Dispatch(Published(w, HashingDone).(flags := w.flags.(gzip := true)), ls, GzipDone)
  {
    DispatchOne(w, ls, HashingDone, MarkGzipDone);
  }

  /** assetHashJsListed sets ASSET_HASH.DONE and then publishes hashingDone. */
  lemma JsListedLink(w: World, ls: seq<Binding>)
    requires !w.exited && WellRanked(ls) && Bound(ls, AssetHashJsListed) == [MarkHashingDone]
    ensures Dispatch(w, ls, AssetHashJsListed) ==
      Dispatch(Published(w, AssetHashJsListed).(flags := w.flags.(assetHash := w.flags.assetHash.(done := true))),
               ls, HashingDone)
  {
    DispatchOne(w, ls, AssetHashJsListed, MarkHashingDone);
  }

  lemma RelayLink(w: World, ls: seq<Binding>, e: Event, next: Event)
    requires !w.exited && ChainListeners(ls) && Relays(e, next)
    ensures Dispatch(w, ls, e) == Dispatch(Published(w, e), ls, next)
  {
    RelayBound(ls, e, next);
    DispatchReemit(w, ls, e, next);
  }

  /** A relayed event's only listener re-emits the next one. */
  lemma RelayBound(ls: seq<Binding>, e: Event, next: Event)
    requires ChainListeners(ls) && Relays(e, next)
    ensures Bound(ls, e) == [Reemit(next)]
  {
  }

  // ---------------------------------------------------------------------
  // The whole chain.

  /** The events a move event is relayed through before assetHashJsListed, itself first. */
  function Relayed(e: Event): seq<Event> {
    if e == ImagesMoved then [ImagesMoved, AssetHashImagesListed, AssetHashCssListed]
    else if e == StylesMoved then [StylesMoved, AssetHashCssListed]
    else [e]
  }

  /** The trace entries of the relays of `e`, all seeing the same flags. */
  function RelayEffects(e: Event, f: Flags): (r: seq<Effect>)
    ensures |r| == |Relayed(e)|
    ensures forall i :: 0 <= i < |r| ==> r[i] == Emitted(Relayed(e)[i], f)
  {
    if e == ImagesMoved then [Emitted(ImagesMoved, f), Emitted(AssetHashImagesListed, f), Emitted(AssetHashCssListed, f)]
    else if e == StylesMoved then [Emitted(StylesMoved, f), Emitted(AssetHashCssListed, f)]
    else [Emitted(e, f)]
  }

  /** `w` after the relays of `e` have been published. */
  function RelayedWorld(w: World, e: Event): World {
    w.(trace := w.trace + RelayEffects(e, w.flags))
  }

  predicate MoveEvent(e: Event) {
    e == ImagesMoved || e == StylesMoved || e == JsMoved || e == TemplatesMoved
  }

  /** The flag record at the end of the chain: ASSET_HASH.DONE and GZIP set, everything else as it was. */
  function ChainFlags(f: Flags): Flags {
    f.(assetHash := f.assetHash.(done := true), gzip := true)
  }

  /** assetHashJsListed reaches gzipDone with ASSET_HASH.DONE and GZIP set. */
  lemma HashingLinks(w: World, ls: seq<Binding>)
    requires !w.exited && WellRanked(ls)
    requires Bound(ls, HashingDone) == [MarkGzipDone]
    requires Bound(ls, AssetHashJsListed) == [MarkHashingDone]
    ensures Dispatch(w, ls, AssetHashJsListed) == Dispatch(HashedWorld(w), ls, GzipDone)
  {
    var w1 := Published(w, AssetHashJsListed).(flags := w.flags.(assetHash := w.flags.assetHash.(done := true)));
    JsListedLink(w, ls);
    HashingDoneLink(w1, ls);
    assert Published(w1, HashingDone).(flags := w1.flags.(gzip := true)) == HashedWorld(w);
  }

  /** The world in which gzipDone is published after assetHashJsListed in `w`. */
  function HashedWorld(w: World): World {
    var f1 := w.flags.(assetHash := w.flags.assetHash.(done := true));
    w.(flags := ChainFlags(w.flags),
       trace := w.trace + [Emitted(AssetHashJsListed, w.flags), Emitted(HashingDone, f1)])
  }

  /** From assetHashJsListed to check-done. */
  lemma HashingTail(w: World, ls: seq<Binding>)
    requires !w.exited && WellRanked(ls)
    requires Bound(ls, GzipDone) == [CheckDoneHandler]
    requires Bound(ls, HashingDone) == [MarkGzipDone]
    requires Bound(ls, AssetHashJsListed) == [MarkHashingDone]
    ensures var r := Dispatch(w, ls, AssetHashJsListed);
      var f1 := w.flags.(assetHash := w.flags.assetHash.(done := true));
      var f2 := ChainFlags(w.flags);
      && r.flags == f2 && (r.exited <==> AllRequired(f2))
      && r.trace == w.trace + [Emitted(AssetHashJsListed, w.flags), Emitted(HashingDone, f1), Emitted(GzipDone, f2)]
                  + (if w.debug then [LoggedFlags(f2)] else [])
                  + (if AllRequired(f2) then [Finalised(f2)] else [])
  {
    var f1 := w.flags.(assetHash := w.flags.assetHash.(done := true));
    var w2 := HashedWorld(w);
    assert w2.flags == ChainFlags(w.flags) && w2.debug == w.debug && !w2.exited;
    assert w2.trace + [Emitted(GzipDone, w2.flags)] ==
      w.trace + [Emitted(AssetHashJsListed, w.flags), Emitted(HashingDone, f1), Emitted(GzipDone, w2.flags)];
    GzipDoneLink(w2, ls);
    HashingLinks(w, ls);
  }

  lemma ImagesRelays(w: World, ls: seq<Binding>)
    requires !w.exited && ChainListeners(ls)
    ensures Dispatch(w, ls, ImagesMoved) == Dispatch(RelayedWorld(w, ImagesMoved), ls, AssetHashJsListed)
  {
    var a := Published(w, ImagesMoved);
    var b := Published(a, AssetHashImagesListed);
    RelayLink(w, ls, ImagesMoved, AssetHashImagesListed);
    RelayLink(a, ls, AssetHashImagesListed, AssetHashCssListed);
    RelayLink(b, ls, AssetHashCssListed, AssetHashJsListed);
    assert Published(b, AssetHashCssListed) == RelayedWorld(w, ImagesMoved);
  }

  lemma StylesRelays(w: World, ls: seq<Binding>)
    requires !w.exited && ChainListeners(ls)
    ensures Dispatch(w, ls, StylesMoved) == Dispatch(RelayedWorld(w, StylesMoved), ls, AssetHashJsListed)
  {
    var a := Published(w, StylesMoved);
    RelayLink(w, ls, StylesMoved, AssetHashCssListed);
    RelayLink(a, ls, AssetHashCssListed, AssetHashJsListed);
    assert Published(a, AssetHashCssListed) == RelayedWorld(w, StylesMoved);
  }

  lemma CodeRelays(w: World, ls: seq<Binding>, e: Event)
    requires !w.exited && ChainListeners(ls) && (e == JsMoved || e == TemplatesMoved)
    ensures Dispatch(w, ls, e) == Dispatch(RelayedWorld(w, e), ls, AssetHashJsListed)
  {
    RelayLink(w, ls, e, AssetHashJsListed);
    assert RelayEffects(e, w.flags) == [Emitted(e, w.flags)];
    assert Published(w, e) == RelayedWorld(w, e);
  }

  /**
   * Each of the four move events runs the whole chain exactly once: the
   * relayed events, one assetHashJsListed, one hashingDone with
   * ASSET_HASH.DONE already set, one gzipDone with GZIP already set, then
   * check-done. Only ASSET_HASH.DONE and GZIP are written: never
   * ASSET_HASH.IMAGES, CSS or JS, nor a move or minify flag.
   */
  lemma MoveRunsChain(w: World, e: Event)
    requires !w.exited && MoveEvent(e)
    ensures WellRanked(ComparisonBindings())
    ensures var r := Dispatch(w, ComparisonBindings(), e);
      var f1 := w.flags.(assetHash := w.flags.assetHash.(done := true));
      var f2 := ChainFlags(w.flags);
      && r.flags == f2 && (r.exited <==> AllRequired(f2))
      && r.trace == w.trace + RelayEffects(e, w.flags)
                  + [Emitted(AssetHashJsListed, w.flags), Emitted(HashingDone, f1), Emitted(GzipDone, f2)]
                  + (if w.debug then [LoggedFlags(f2)] else [])
                  + (if AllRequired(f2) then [Finalised(f2)] else [])
  {
    ComparisonChainListeners();
    ChainFrom(w, ComparisonBindings(), e);
  }

  lemma ChainFrom(w: World, ls: seq<Binding>, e: Event)
    requires !w.exited && MoveEvent(e) && ChainListeners(ls)
    ensures var r := Dispatch(w, ls, e);
      var f1 := w.flags.(assetHash := w.flags.assetHash.(done := true));
      var f2 := ChainFlags(w.flags);
      && r.flags == f2 && (r.exited <==> AllRequired(f2))
      && r.trace == w.trace + RelayEffects(e, w.flags)
                  + [Emitted(AssetHashJsListed, w.flags), Emitted(HashingDone, f1), Emitted(GzipDone, f2)]
                  + (if w.debug then [LoggedFlags(f2)] else [])
                  + (if AllRequired(f2) then [Finalised(f2)] else [])
  {
    if e == ImagesMoved {
      ImagesRelays(w, ls);
    } else if e == StylesMoved {
      StylesRelays(w, ls);
    } else {
      CodeRelays(w, ls, e);
    }
    var v := RelayedWorld(w, e);
    assert v.flags == w.flags && v.debug == w.debug && !v.exited;
    HashingTail(v, ls);
  }

  /** Only ASSET_HASH.DONE and GZIP are written by any listener of the profile. */
  lemma ComparisonWrites(n: FlagName)
    requires n != AssetHashDone && n != Gzip
    ensures Untouched(ComparisonBindings(), n)
  {
    var ls := ComparisonBindings();
    forall i | 0 <= i < |ls| ensures n !in Writes(ls[i].handler) {
      assert ls[i].handler.Reemit? || ls[i].handler in {MarkHashingDone, MarkGzipDone, CheckDoneHandler};
    }
  }

  /** Whatever is published, every flag other than ASSET_HASH.DONE and GZIP keeps its value. */
  lemma ComparisonFrame(w: World, e: Event, n: FlagName)
    requires n != AssetHashDone && n != Gzip
    ensures WellRanked(ComparisonBindings())
    ensures Get(Dispatch(w, ComparisonBindings(), e).flags, n) == Get(w.flags, n)
  {
    ComparisonWellRanked();
    ComparisonWrites(n);
    DispatchFrame(w, ComparisonBindings(), e, n);
  }

  /** check-done is registered for gzipDone and sitemapDone and for no other event. */
  lemma CheckDoneOnlyAfterGzipAndSitemap(e: Event)
    ensures Binding(e, CheckDoneHandler) in ComparisonBindings() <==> e == GzipDone || e == SitemapDone
  {
  }

  // ---------------------------------------------------------------------
  // The listing flags. The relays publish the three listing events but
  // never set ASSET_HASH.IMAGES, CSS or JS, which check-done also
  // requires; in a build whose hashing stages do not run they keep their
  // initial false, so the chain cannot end the process.

  /** The relays leave the three listing flags as they found them, and while one is unset the chain never finalises. */
  lemma ChainNeedsListingFlags(w: World, e: Event)
    requires !w.exited && MoveEvent(e)
    requires !(w.flags.assetHash.images && w.flags.assetHash.css && w.flags.assetHash.js)
    ensures WellRanked(ComparisonBindings())
    ensures var r := Dispatch(w, ComparisonBindings(), e);
      !r.exited && r.flags.assetHash.images == w.flags.assetHash.images
      && r.flags.assetHash.css == w.flags.assetHash.css && r.flags.assetHash.js == w.flags.assetHash.js
  {
    MoveRunsChain(w, e);
    CheckDoneExitsIff(ChainFlags(w.flags), false, false);
  }

  /** A comparison build started from the initial record: the first move event runs the whole chain and the process goes on. */
  lemma InitialChainStalls(debug: bool, e: Event)
    requires MoveEvent(e)
    ensures WellRanked(ComparisonBindings())
    ensures !Dispatch(InitialWorld(debug), ComparisonBindings(), e).exited
  {
    ChainNeedsListingFlags(InitialWorld(debug), e);
  }

  /** The flag writes the profile needs so that skipping hashing also satisfies the listing flags. */
  function ForceListed(f: Flags): Flags {
    f.(assetHash := f.assetHash.(images := true, css := true, js := true))
  }

  /** The profile with the three listing flags forced before anything is registered, as the golden profile forces them. */
  method InstallForcingListed(ctx: Build)
    requires ctx.Valid()
    modifies ctx
    ensures ctx.flags == ForceListed(old(ctx.flags))
    ensures ctx.listeners == old(ctx.listeners) + ComparisonBindings()
    ensures ctx.exited == old(ctx.exited) && ctx.trace == old(ctx.trace) && ctx.debug == old(ctx.debug)
    ensures ctx.names == old(ctx.names) && ctx.Valid()
  {
    ctx.SetFlag(AssetHashImages, true);
    ctx.SetFlag(AssetHashCss, true);
    ctx.SetFlag(AssetHashJs, true);
    Install(ctx);
  }

  /**
   * With the listing flags forced, each move event ends the process
   * exactly when the six flags of the stages that still run are set.
   */
  lemma ForcedChainFinalises(w: World, e: Event)
    requires !w.exited && MoveEvent(e)
    requires w.flags == ForceListed(w.flags)
    ensures WellRanked(ComparisonBindings())
    ensures Dispatch(w, ComparisonBindings(), e).exited <==>
      w.flags.jsIsMinified && w.flags.cssIsMinified && w.flags.htmlIsMinified &&
      w.flags.imagesAreMoved && w.flags.videosAreMoved && w.flags.siteMap
  {
    MoveRunsChain(w, e);
    CheckDoneExitsIff(ChainFlags(w.flags), false, false);
  }
}
