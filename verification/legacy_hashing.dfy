/**
 * The older hashing scripts, build/asset-hashing.js and build/hash-css.js.
 * They record hashed names like the newer ones but join with a counter:
 * each rename callback increments it and, once it is at least the glob
 * size, sets the flag and publishes a string-named event. They reset no
 * flag, and an empty glob has no callback, so its flag is never set.
 * A failed rename throws inside its callback and is never counted.
 */
module LegacyHashing {
  import opened Wrappers
  import OrderedDict
  import opened CompletionFlags
  import opened BuildEvents
  import opened EventBus
  import opened BuildContext
  import opened HashNames
  import opened HashRecords
  import opened Joins
  import AssetHashing

  /** Every completed file was moved to its hashed name. */
  predicate MovedAll(files: seq<string>, hashes: seq<string>, completed: set<nat>, moved: map<string, string>)
    requires |files| == |hashes|
  {
    forall i :: i in completed ==>
      i < |files| && files[i] in moved && moved[files[i]] == HashedName(files[i], hashes[i])
  }

  lemma MovedStep(files: seq<string>, hashes: seq<string>, completed: set<nat>, moved: map<string, string>, i: nat)
    requires |files| == |hashes| && Distinct(files) && i < |files|
    requires MovedAll(files, hashes, completed, moved)
    ensures MovedAll(files, hashes, completed + {i}, moved[files[i] := HashedName(files[i], hashes[i])])
  {
  }

  /** One `glob.forEach` whose rename callbacks count towards `array.length`. */
  class RenameCounter {
    const ctx: Build
    const flag: FlagName
    const event: Event
    const files: seq<string>
    const hashes: seq<string>
    /** `processedJs`, `processedImages` or `processedCss` */
    var processed: nat
    /** Indices of the files whose rename callback has run. */
    var completed: set<nat>
    /** Each completed rename, from old path to new path. */
    var moved: map<string, string>
    /** The callbacks that found the counter reached. */
    var firings: nat

    predicate Valid()
      reads this, ctx
    {
      ctx.Valid() && Own()
    }

    /** The part of the invariant about the counter's own fields. */
    predicate Own()
      reads this
    {
      && |files| == |hashes|
      && Distinct(files)
      && MovedAll(files, hashes, completed, moved)
      && processed == |completed|
      && firings == Firings(|files|, processed)
    }

    constructor(ctx: Build, flag: FlagName, event: Event, glob: seq<string>, hashes: seq<string>)
      requires ctx.Valid() && |glob| == |hashes| && Distinct(glob)
      ensures this.ctx == ctx && this.flag == flag && this.event == event
      ensures files == glob && this.hashes == hashes
      ensures processed == 0 && completed == {} && moved == map[] && firings == 0
      ensures Valid()
    {
      this.ctx := ctx;
      this.flag := flag;
      this.event := event;
      files := glob;
      this.hashes := hashes;
      processed := 0;
      completed := {};
      moved := map[];
      firings := 0;
    }

    /** The rename callback of `files[i]` ran without error: count it, then check. */
    method Renamed(i: nat)
      requires Valid() && i < |files| && i !in completed
      modifies this, ctx
      ensures completed == old(completed) + {i} && processed == old(processed) + 1
      ensures moved == old(moved)[files[i] := HashedName(files[i], hashes[i])]
      ensures Valid() && ctx.listeners == old(ctx.listeners) && ctx.names == old(ctx.names)
      ensures processed < |files| ==> ctx.World() == old(ctx.World()) && firings == old(firings)
      ensures processed >= |files| && !old(ctx.exited) ==>
        ctx.World() == Dispatch(old(ctx.World()).(flags := Set(old(ctx.flags), flag, true)), ctx.listeners, event)
      ensures processed >= |files| && !old(ctx.exited) ==>
        |old(ctx.trace)| < |ctx.trace| && ctx.trace[|old(ctx.trace)|] == Emitted(event, Set(old(ctx.flags), flag, true))
      ensures processed <= |files| && firings == (if processed == |files| then 1 else 0)
    {
      Move(i);
      Count(i);
      Check();
    }

    /** The rename itself: `files[i]` now lives at its hashed name. */
    method Move(i: nat)
      requires |files| == |hashes| && Distinct(files) && i < |files|
      requires MovedAll(files, hashes, completed, moved)
      modifies this`moved
      ensures moved == old(moved)[files[i] := HashedName(files[i], hashes[i])]
      ensures MovedAll(files, hashes, completed + {i}, moved)
    {
      MovedStep(files, hashes, completed, moved, i);
      moved := moved[files[i] := HashedName(files[i], hashes[i])];
    }

    /** `processedX++` */
    method Count(i: nat)
      requires i < |files| && i !in completed && (forall k :: k in completed ==> k < |files|)
      requires processed == |completed| && firings == Firings(|files|, processed)
      modifies this`processed, this`completed
      ensures completed == old(completed) + {i} && processed == old(processed) + 1
      ensures processed == |completed| && processed <= |files|
      ensures Firings(|files|, processed) == (if processed == |files| then 1 else 0)
      ensures firings == Firings(|files|, processed) - (if processed >= |files| then 1 else 0)
    {
      CountedOnce(completed + {i}, |files|);
      completed := completed + {i};
      processed := processed + 1;
    }

    /** `if (processedX >= array.length) { flag = true; emit(event) }` */
    method Check()
      requires ctx.Valid()
      modifies this`firings, ctx
      ensures ctx.listeners == old(ctx.listeners) && ctx.names == old(ctx.names) && ctx.Valid()
      ensures processed < |files| ==> ctx.World() == old(ctx.World()) && firings == old(firings)
      ensures processed >= |files| ==> firings == old(firings) + 1
      ensures processed >= |files| && !old(ctx.exited) ==>
        ctx.World() == Dispatch(old(ctx.World()).(flags := Set(old(ctx.flags), flag, true)), ctx.listeners, event)
      ensures processed >= |files| && !old(ctx.exited) ==>
        |old(ctx.trace)| < |ctx.trace| && ctx.trace[|old(ctx.trace)|] == Emitted(event, Set(old(ctx.flags), flag, true))
    {
      if processed >= |files| {
        firings := firings + 1;
        ctx.Complete(flag, event);
      }
    }
  }

  /** The older gate: minification and image moves, but not video moves. */
  function LegacyGate(f: Flags): bool {
    f.jsIsMinified && f.cssIsMinified && f.htmlIsMinified && f.imagesAreMoved
  }

  /**
   * Whatever passes the newer gate passes the older one, and the older
   * one lets hashing start while videos are still being moved.
   */
  lemma LegacyGateWeaker(f: Flags)
    ensures AssetHashing.Gate(f) ==> LegacyGate(f)
    ensures LegacyGate(f) && !f.videosAreMoved ==> !AssetHashing.Gate(f)
    ensures LegacyGate(f) <==> AssetHashing.Gate(f.(videosAreMoved := true))
  {
  }

  /** The images the older glob matches. */
  const LegacyImageFormats: seq<string> := ["png", "svg", "jpg"]

  /** Every image the older glob hashes, the newer glob hashes too; not the other way round. */
  lemma LegacyFormatsIncluded(path: string)
    ensures AssetHashing.HasFormat(path, LegacyImageFormats) ==> AssetHashing.HasFormat(path, AssetHashing.AssetFormats)
    ensures AssetHashing.HasFormat("a.webp", AssetHashing.AssetFormats) && !AssetHashing.HasFormat("a.webp", LegacyImageFormats)
  {
    StemExtensionOf("a", "webp");
    assert "a.webp" == "a" + ['.'] + "webp";
    assert AssetHashing.AssetFormats[3] == "webp";
  }

  /** build/asset-hashing.js with its two glob results, up to the first callback. */
  method LegacyAssetHashing(ctx: Build, jsGlob: seq<string>, jsHashes: seq<string>,
                            imagesGlob: seq<string>, imageHashes: seq<string>)
    returns (scripts: RenameCounter?, images: RenameCounter?)
    requires ctx.Valid()
    requires |jsGlob| == |jsHashes| && Distinct(jsGlob)
    requires |imagesGlob| == |imageHashes| && Distinct(imagesGlob)
    modifies ctx
    ensures ctx.listeners == old(ctx.listeners) && ctx.Valid()
    ensures ctx.World() == StartTask(old(ctx.World()), EventBus.LegacyAssetHashing)
    ensures ctx.flags == old(ctx.flags)
    ensures !LegacyGate(old(ctx.flags)) ==> scripts == null && images == null && ctx.names == old(ctx.names)
    ensures LegacyGate(old(ctx.flags)) ==>
      ctx.names == RecordAll(RecordAll(old(ctx.names), jsGlob, jsHashes), imagesGlob, imageHashes)
    ensures LegacyGate(old(ctx.flags)) ==> scripts != null && fresh(scripts) && scripts.Valid() && scripts.ctx == ctx
    ensures scripts != null ==> scripts.flag == AssetHashJs && scripts.event == LegacyAssetHashJsListed
    ensures scripts != null ==> scripts.files == jsGlob && scripts.hashes == jsHashes && scripts.completed == {}
    ensures LegacyGate(old(ctx.flags)) ==> images != null && fresh(images) && images.Valid() && images.ctx == ctx
    ensures images != null ==> images.flag == AssetHashImages && images.event == LegacyAssetHashImagesListed
    ensures images != null ==> images.files == imagesGlob && images.hashes == imageHashes && images.completed == {}
  {
    LegacyNeverResets(ctx.flags);
    ctx.Start(EventBus.LegacyAssetHashing);
    if !LegacyGate(ctx.flags) {
      return null, null;
    }
    scripts, images := CountBoth(ctx, jsGlob, jsHashes, imagesGlob, imageHashes);
  }

  /**
   * The two `forEach` calls past the gate, scripts first. Each counter
   * only counts callbacks that have not run yet, so creating both after
   * the names are recorded changes nothing observable.
   */
  method CountBoth(ctx: Build, jsGlob: seq<string>, jsHashes: seq<string>,
                   imagesGlob: seq<string>, imageHashes: seq<string>)
    returns (scripts: RenameCounter, images: RenameCounter)
    requires ctx.Valid()
    requires |jsGlob| == |jsHashes| && Distinct(jsGlob)
    requires |imagesGlob| == |imageHashes| && Distinct(imagesGlob)
    modifies ctx
    ensures ctx.names == RecordAll(RecordAll(old(ctx.names), jsGlob, jsHashes), imagesGlob, imageHashes)
    ensures ctx.World() == old(ctx.World()) && ctx.flags == old(ctx.flags)
    ensures ctx.listeners == old(ctx.listeners) && ctx.Valid()
    ensures fresh(scripts) && scripts.Valid() && scripts.ctx == ctx
    ensures scripts.flag == AssetHashJs && scripts.event == LegacyAssetHashJsListed
    ensures scripts.files == jsGlob && scripts.hashes == jsHashes && scripts.completed == {}
    ensures fresh(images) && images.Valid() && images.ctx == ctx
    ensures images.flag == AssetHashImages && images.event == LegacyAssetHashImagesListed
    ensures images.files == imagesGlob && images.hashes == imageHashes && images.completed == {}
  {
    RecordHashes(ctx, jsGlob, jsHashes);
    RecordHashes(ctx, imagesGlob, imageHashes);
    scripts := new RenameCounter(ctx, AssetHashJs, LegacyAssetHashJsListed, jsGlob, jsHashes);
    images := new RenameCounter(ctx, AssetHashImages, LegacyAssetHashImagesListed, imagesGlob, imageHashes);
  }

  /** build/hash-css.js with its glob result, up to the first callback. */
  method LegacyHashCss(ctx: Build, glob: seq<string>, hashes: seq<string>) returns (css: RenameCounter)
    requires ctx.Valid() && |glob| == |hashes| && Distinct(glob)
    modifies ctx
    ensures ctx.World() == StartTask(old(ctx.World()), EventBus.LegacyHashCss) && ctx.flags == old(ctx.flags)
    ensures ctx.listeners == old(ctx.listeners) && ctx.names == RecordAll(old(ctx.names), glob, hashes)
    ensures fresh(css) && css.Valid() && css.ctx == ctx
    ensures css.flag == AssetHashCss && css.event == LegacyAssetHashCssListed
    ensures css.files == glob && css.hashes == hashes && css.completed == {}
  {
    LegacyNeverResets(ctx.flags);
    ctx.Start(EventBus.LegacyHashCss);
    css := CountGlob(ctx, AssetHashCss, LegacyAssetHashCssListed, glob, hashes);
  }

  /** One `glob.forEach` past its synchronous parts. */
  method CountGlob(ctx: Build, flag: FlagName, event: Event, glob: seq<string>, hashes: seq<string>)
    returns (counter: RenameCounter)
    requires ctx.Valid() && |glob| == |hashes| && Distinct(glob)
    modifies ctx
    ensures ctx.names == RecordAll(old(ctx.names), glob, hashes)
    ensures ctx.World() == old(ctx.World()) && ctx.flags == old(ctx.flags)
    ensures ctx.listeners == old(ctx.listeners) && ctx.Valid()
    ensures fresh(counter) && counter.Valid() && counter.ctx == ctx && counter.flag == flag && counter.event == event
    ensures counter.files == glob && counter.hashes == hashes && counter.completed == {}
  {
    RecordHashes(ctx, glob, hashes);
    counter := new RenameCounter(ctx, flag, event, glob, hashes);
  }

  /** Neither older script resets a flag on entry. */
  lemma LegacyNeverResets(f: Flags)
    ensures ResetFlags(f, EventBus.LegacyAssetHashing) == f && ResetFlags(f, EventBus.LegacyHashCss) == f
  {
  }
}
