/**
 * build/bundlers/sitemap.js: `compileSitemap(configs)` clears SITE_MAP,
 * then renders and writes sitemap.json and sitemap.xml in two independent
 * asynchronous branches. Each branch, once its file is written,
 * increments `doneCount` and compares it with two: that comparison sets SITE_MAP and
 * publishes sitemapDone once the count is at least two.
 *
 * Rendering and writing are not modelled: a branch whose render or write
 * fails rethrows inside its promise and never reaches its increment, so
 * it simply has no completion step here.
 */
module Sitemap {
  import opened CompletionFlags
  import opened BuildEvents
  import opened EventBus
  import opened BuildContext
  import opened Joins

  datatype Branch = JsonSitemap | XmlSitemap

  /** The file each branch writes under the package directory. */
  function OutputFile(package: string, b: Branch): string {
    package + (if b == JsonSitemap then "sitemap.json" else "sitemap.xml")
  }

  lemma OutputFilesDistinct(package: string)
    ensures OutputFile(package, JsonSitemap) != OutputFile(package, XmlSitemap)
  {
    var j := OutputFile(package, JsonSitemap);
    var x := OutputFile(package, XmlSitemap);
    assert j[|package| + 8] != x[|package| + 8];
  }

  /** The number of completions `checkForDone` needs. */
  const Needed: nat := 2

  class SitemapRun {
    const ctx: Build
    /** `doneCount` */
    var doneCount: nat
    /** The branches whose file has been written. */
    var finished: set<Branch>
    /** The completions on which `checkForDone` found the count reached. */
    var firings: nat

    predicate Valid()
      reads this, ctx
    {
      ctx.Valid() && doneCount == |finished| && firings == Firings(Needed, doneCount)
    }

    /** `compileSitemap(configs)` up to its first asynchronous step. */
    constructor(ctx: Build)
      requires ctx.Valid()
      modifies ctx
      ensures this.ctx == ctx && finished == {} && doneCount == 0 && firings == 0
      ensures ctx.World() == StartTask(old(ctx.World()), CompileSitemap)
      ensures ctx.listeners == old(ctx.listeners) && ctx.names == old(ctx.names)
      ensures Valid()
    {
      this.ctx := ctx;
      doneCount := 0;
      finished := {};
      firings := 0;
      new;
      ctx.Start(CompileSitemap);
    }

    /** A branch's write resolved: `doneCount++; checkForDone()`. */
    method Written(b: Branch)
      requires Valid() && b !in finished
      modifies this, ctx
      ensures finished == old(finished) + {b} && doneCount == old(doneCount) + 1
      ensures Valid() && ctx.listeners == old(ctx.listeners) && ctx.names == old(ctx.names)
      ensures doneCount < Needed ==> ctx.World() == old(ctx.World()) && firings == old(firings)
      ensures doneCount >= Needed ==> firings == old(firings) + 1
      ensures doneCount >= Needed && !old(ctx.exited) ==>
        ctx.World() == Dispatch(old(ctx.World()).(flags := Set(old(ctx.flags), SiteMap, true)), ctx.listeners, SitemapDone)
      ensures doneCount >= Needed && !old(ctx.exited) ==>
        |old(ctx.trace)| < |ctx.trace| && ctx.trace[|old(ctx.trace)|] == Emitted(SitemapDone, Set(old(ctx.flags), SiteMap, true))
      ensures finished == {JsonSitemap, XmlSitemap} ==> firings == 1
    {
      finished := finished + {b};
      doneCount := doneCount + 1;
      if doneCount >= Needed {
        firings := firings + 1;
        ctx.Complete(SiteMap, SitemapDone);
      }
      assert finished <= {JsonSitemap, XmlSitemap} by {
        forall x | x in finished ensures x in {JsonSitemap, XmlSitemap} {
          assert x.JsonSitemap? || x.XmlSitemap?;
        }
      }
      if finished == {JsonSitemap, XmlSitemap} {
        FiresOnceWhenAllCounted(Needed, doneCount);
      }
    }
  }
}
