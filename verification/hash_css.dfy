/**
 * build/hashing/hash-css.js: `hashCSS(configs)` clears ASSET_HASH.CSS,
 * globs the package's stylesheets, records each one's hashed name and
 * starts its rename; once every rename has resolved it sets
 * ASSET_HASH.CSS and publishes assetHashCssListed.
 */
module HashCss {
  import opened OrderedDict
  import opened CompletionFlags
  import opened BuildEvents
  import opened EventBus
  import opened BuildContext
  import opened HashNames
  import opened HashRecords
  import opened RenameJoins

  /**
   * The call up to its first `await`: the reset, then the synchronous
   * part of every callback of `cssGlob.map`, in glob order. The returned
   * join is the `Promise.all` still pending.
   */
  method HashCss(ctx: Build, glob: seq<string>, hashes: seq<string>) returns (join: RenameJoin)
    requires ctx.Valid() && |glob| == |hashes| && Distinct(glob)
    modifies ctx
    ensures fresh(join) && join.Valid() && join.ctx == ctx
    ensures join.flag == AssetHashCss && join.event == AssetHashCssListed
    ensures join.files == glob && join.hashes == hashes && join.renamed == {} && !join.settled
    ensures join.Listed() == ctx.names == RecordAll(old(ctx.names), glob, hashes)
    ensures ctx.World() == StartTask(old(ctx.World()), EventBus.HashCss) && ctx.listeners == old(ctx.listeners)
  {
    ctx.Start(EventBus.HashCss);
    ghost var before := ctx.names;
    RecordHashes(ctx, glob, hashes);
    join := new RenameJoin(ctx, AssetHashCss, AssetHashCssListed, glob, hashes, before);
  }

  /**
   * After the synchronous part, each stylesheet of the glob is listed
   * under a name that keeps its extension and carries its hash just
   * before it, and paths outside the glob keep their entries.
   */
  lemma ListedStylesheets(before: Dict<string>, glob: seq<string>, hashes: seq<string>, i: nat, other: string)
    requires |glob| == |hashes| && Distinct(glob) && i < |glob|
    requires '.' in glob[i] && '.' !in hashes[i]
    requires other !in glob
    ensures var r := RecordAll(before, glob, hashes);
      && OrderedDict.Get(r, glob[i]).Some?
      && Extension(OrderedDict.Get(r, glob[i]).value) == Extension(glob[i])
      && Stem(OrderedDict.Get(r, glob[i]).value) == Stem(glob[i]) + "-" + hashes[i]
      && OrderedDict.Get(r, other) == OrderedDict.Get(before, other)
  {
    RecordAllAt(before, glob, hashes, i);
    RecordAllOther(before, glob, hashes, other);
    HashedNameExtension(glob[i], hashes[i]);
  }
}
