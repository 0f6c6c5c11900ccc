/**
 * build/hashing/asset-hashing.js: `assetHashing(configs)` clears
 * ASSET_HASH.IMAGES and ASSET_HASH.JS, then returns unless the three
 * minification flags and both move flags are set. Past that gate it
 * globs the scripts and the images and videos, records every hashed
 * name (all scripts first, then all assets: each `map` runs its
 * callbacks' synchronous parts in turn) and starts two joins: the
 * scripts' one sets ASSET_HASH.JS and publishes assetHashJsListed, the
 * assets' one sets ASSET_HASH.IMAGES and publishes assetHashImagesListed.
 */
module AssetHashing {
  import opened Wrappers
  import OrderedDict
  import opened CompletionFlags
  import opened BuildEvents
  import opened EventBus
  import opened BuildContext
  import opened HashNames
  import opened HashRecords
  import opened RenameJoins

  /** build/constants/file-formats.js */
  const ImageFormats: seq<string> := ["svg", "jpg", "jpeg", "webp", "png"]
  const VideoFormats: seq<string> := ["webm", "mp4"]

  /** The extensions the asset glob matches. */
  const AssetFormats: seq<string> := ImageFormats + VideoFormats

  /** A path whose extension (after its last `.`) is one of `formats`. */
  predicate HasFormat(path: string, formats: seq<string>) {
    '.' in path && Extension(path)[1..] in formats
  }

  /** The flags that must all be set before anything is hashed. */
  const GateFlags: seq<FlagName> := [JsIsMinified, CssIsMinified, HtmlIsMinified, ImagesAreMoved, VideosAreMoved]

  /** The early return's condition, negated: hashing goes ahead. */
  function Gate(f: Flags): bool {
    f.jsIsMinified && f.cssIsMinified && f.htmlIsMinified && f.imagesAreMoved && f.videosAreMoved
  }

  /** Hashing goes ahead exactly when every gate flag is set. */
  lemma GateIff(f: Flags)
    ensures Gate(f) <==> forall i :: 0 <= i < |GateFlags| ==> Get(f, GateFlags[i])
  {
    if !Gate(f) {
      var k := if !f.jsIsMinified then 0 else if !f.cssIsMinified then 1
        else if !f.htmlIsMinified then 2 else if !f.imagesAreMoved then 3 else 4;
      assert !Get(f, GateFlags[k]);
    }
  }

  /** The resets at the top never change the gate's decision: they touch only hashing flags. */
  lemma ResetKeepsGate(f: Flags)
    ensures Gate(ResetFlags(f, EventBus.AssetHashing)) == Gate(f)
  {
    forall i | 0 <= i < |GateFlags|
      ensures Get(ResetFlags(f, EventBus.AssetHashing), GateFlags[i]) == Get(f, GateFlags[i])
    {
      ResetOnlyClears(f, EventBus.AssetHashing, GateFlags[i]);
    }
    GateIff(f);
    GateIff(ResetFlags(f, EventBus.AssetHashing));
  }

  /** Gated out, the call still clears both hashing flags it owns. */
  lemma GatedOutStillClears(f: Flags)
    requires !Gate(f)
    ensures var r := ResetFlags(f, EventBus.AssetHashing);
      !Gate(r) && !r.assetHash.images && !r.assetHash.js && r.assetHash.css == f.assetHash.css
  {
    ResetKeepsGate(f);
    ResetOnlyClears(f, EventBus.AssetHashing, AssetHashImages);
    ResetOnlyClears(f, EventBus.AssetHashing, AssetHashJs);
    ResetOnlyClears(f, EventBus.AssetHashing, AssetHashCss);
  }

  /**
   * The call up to its first `await`. Gated out, nothing is recorded
   * and no join exists; otherwise the name list holds every script,
   * then every asset, and the two joins are pending. Both `map` calls
   * run their synchronous parts before either join can settle, so the
   * joins are created once both lists are recorded.
   */
  method AssetHashing(ctx: Build, jsGlob: seq<string>, jsHashes: seq<string>,
                      assetGlob: seq<string>, assetHashes: seq<string>)
    returns (scripts: RenameJoin?, assets: RenameJoin?)
    requires ctx.Valid()
    requires |jsGlob| == |jsHashes| && Distinct(jsGlob)
    requires |assetGlob| == |assetHashes| && Distinct(assetGlob)
    modifies ctx
    ensures ctx.listeners == old(ctx.listeners) && ctx.Valid()
    ensures ctx.World() == StartTask(old(ctx.World()), EventBus.AssetHashing)
    ensures !Gate(old(ctx.flags)) ==> scripts == null && assets == null && ctx.names == old(ctx.names)
    ensures Gate(old(ctx.flags)) ==>
      ctx.names == RecordAll(RecordAll(old(ctx.names), jsGlob, jsHashes), assetGlob, assetHashes)
    ensures Gate(old(ctx.flags)) ==> scripts != null && fresh(scripts) && scripts.Valid() && scripts.ctx == ctx
    ensures scripts != null ==> scripts.flag == AssetHashJs && scripts.event == AssetHashJsListed
    ensures scripts != null ==> scripts.files == jsGlob && scripts.hashes == jsHashes && scripts.renamed == {} && !scripts.settled
    ensures Gate(old(ctx.flags)) ==> assets != null && fresh(assets) && assets.Valid() && assets.ctx == ctx
    ensures assets != null ==> assets.flag == AssetHashImages && assets.event == AssetHashImagesListed
    ensures assets != null ==> assets.files == assetGlob && assets.hashes == assetHashes && assets.renamed == {} && !assets.settled
  {
    ctx.Start(EventBus.AssetHashing);
    ResetKeepsGate(old(ctx.flags));
    if !Gate(ctx.flags) {
      return null, null;
    }
    ghost var start := ctx.names;
    RecordHashes(ctx, jsGlob, jsHashes);
    ghost var middle := ctx.names;
    RecordHashes(ctx, assetGlob, assetHashes);
    scripts := new RenameJoin(ctx, AssetHashJs, AssetHashJsListed, jsGlob, jsHashes, start);
    assets := new RenameJoin(ctx, AssetHashImages, AssetHashImagesListed, assetGlob, assetHashes, middle);
  }

  /**
   * A script is listed under its hashed name unless an asset of the
   * same path overwrote it; assets always keep theirs.
   */
  lemma ScriptsThenAssets(d: OrderedDict.Dict<string>, jsGlob: seq<string>, jsHashes: seq<string>,
                          assetGlob: seq<string>, assetHashes: seq<string>, i: nat, j: nat)
    requires |jsGlob| == |jsHashes| && Distinct(jsGlob) && i < |jsGlob|
    requires |assetGlob| == |assetHashes| && Distinct(assetGlob) && j < |assetGlob|
    ensures var r := RecordAll(RecordAll(d, jsGlob, jsHashes), assetGlob, assetHashes);
      && OrderedDict.Get(r, assetGlob[j]) == Some(HashedName(assetGlob[j], assetHashes[j]))
      && (jsGlob[i] !in assetGlob ==> OrderedDict.Get(r, jsGlob[i]) == Some(HashedName(jsGlob[i], jsHashes[i])))
  {
    var m := RecordAll(d, jsGlob, jsHashes);
    RecordAllAt(m, assetGlob, assetHashes, j);
    if jsGlob[i] !in assetGlob {
      RecordAllOther(m, assetGlob, assetHashes, jsGlob[i]);
      RecordAllAt(d, jsGlob, jsHashes, i);
    }
  }
}
