/**
 * build/optimize/gzip-files.js: `gzipFiles(configs)` clears GZIP, globs
 * the package's html, xml, css, js, txt and json files, and for each one
 * reads it, compresses, and writes `<file>.gz`. Each finished write
 * increments `processed`; a write that sees `processed` at least the
 * number of files sets GZIP and publishes gzipDone.
 *
 * What is compressed is the path string `file`, not the contents that
 * were read (the read result is ignored). Compression is a parameter.
 */
module GzipFiles {
  import opened CompletionFlags
  import opened BuildEvents
  import opened EventBus
  import opened BuildContext
  import opened Joins
  import opened Text

  /** The name of the compressed copy. */
  function GzName(file: string): (r: string)
    ensures EndsWith(r, ".gz") && StartsWith(r, file) && |r| == |file| + 3
  {
    file + ".gz"
  }

  lemma GzNameInjective(a: string, b: string)
    requires GzName(a) == GzName(b)
    ensures a == b
  {
    assert a == GzName(a)[..|a|];
  }

  /** Every completed file's compressed copy is written, holding the file's path. */
  predicate Recorded(files: seq<string>, completed: set<nat>, written: map<string, string>) {
    forall i :: i in completed && i < |files| ==> GzName(files[i]) in written && written[GzName(files[i])] == files[i]
  }

  lemma RecordedStep(files: seq<string>, completed: set<nat>, written: map<string, string>, i: nat)
    requires Recorded(files, completed, written) && i < |files|
    ensures Recorded(files, completed + {i}, written[GzName(files[i]) := files[i]])
  {
    forall k | k in completed + {i} && k < |files|
      ensures GzName(files[k]) in written[GzName(files[i]) := files[i]]
      ensures written[GzName(files[i]) := files[i]][GzName(files[k])] == files[k]
    {
      if k != i && GzName(files[k]) == GzName(files[i]) {
        GzNameInjective(files[k], files[i]);
      }
    }
  }

  class GzipRun {
    const ctx: Build
    /** `overallGlob` */
    const files: seq<string>
    /** `processed` */
    var processed: nat
    /** Indices of the files whose compressed copy has been written. */
    var completed: set<nat>
    /** Each written `.gz` file with the text that was compressed into it. */
    var written: map<string, string>
    /** The completions that found every file counted. */
    var firings: nat

    predicate Valid()
      reads this, ctx
    {
      && ctx.Valid()
      && (forall i :: i in completed ==> i < |files|)
      && processed == |completed|
      && firings == Firings(|files|, processed)
      && Recorded(files, completed, written)
    }

    /** `gzipFiles(configs)` with the glob result `glob`, up to the first asynchronous step. */
    constructor(ctx: Build, glob: seq<string>)
      requires ctx.Valid()
      modifies ctx
      ensures this.ctx == ctx && files == glob
      ensures processed == 0 && completed == {} && written == map[] && firings == 0
      ensures ctx.World() == StartTask(old(ctx.World()), GzipFiles)
      ensures ctx.listeners == old(ctx.listeners) && ctx.names == old(ctx.names)
      ensures Valid()
    {
      this.ctx := ctx;
      files := glob;
      processed := 0;
      completed := {};
      written := map[];
      firings := 0;
      new;
      ctx.Start(GzipFiles);
    }

    /** The write of `files[i] + ".gz"` finished: count it and check. */
    method Written(i: nat)
      requires Valid() && i < |files| && i !in completed
      modifies this, ctx
      ensures completed == old(completed) + {i} && processed == old(processed) + 1
      ensures written == old(written)[GzName(files[i]) := files[i]]
      ensures Valid() && ctx.listeners == old(ctx.listeners) && ctx.names == old(ctx.names)
      ensures processed < |files| ==> ctx.World() == old(ctx.World()) && firings == old(firings)
      ensures processed >= |files| ==> firings == old(firings) + 1
      ensures processed >= |files| && !old(ctx.exited) ==>
        ctx.World() == Dispatch(old(ctx.World()).(flags := Set(old(ctx.flags), Gzip, true)), ctx.listeners, GzipDone)
      ensures processed >= |files| && !old(ctx.exited) ==>
        |old(ctx.trace)| < |ctx.trace| && ctx.trace[|old(ctx.trace)|] == Emitted(GzipDone, Set(old(ctx.flags), Gzip, true))
      ensures processed <= |files| && firings == (if processed == |files| then 1 else 0)
    {
      Count(i);
      Check();
    }

    /** `processed++`, after recording the written copy. */
    method Count(i: nat)
      requires Valid() && i < |files| && i !in completed
      modifies this
      ensures completed == old(completed) + {i} && processed == old(processed) + 1
      ensures written == old(written)[GzName(files[i]) := files[i]] && firings == old(firings)
      ensures Recorded(files, completed, written) && (forall k :: k in completed ==> k < |files|)
      ensures processed == |completed| && processed <= |files|
      ensures Firings(|files|, processed) == (if processed == |files| then 1 else 0)
      ensures firings == Firings(|files|, processed) - (if processed >= |files| then 1 else 0)
    {
      RecordedStep(files, completed, written, i);
      CountedOnce(completed + {i}, |files|);
      written := written[GzName(files[i]) := files[i]];
      completed := completed + {i};
      processed := processed + 1;
    }

    /** `if (processed >= overallGlob.length) { GZIP = true; emit(gzipDone) }` */
    method Check()
      requires ctx.Valid()
      modifies this`firings, ctx
      ensures ctx.listeners == old(ctx.listeners) && ctx.names == old(ctx.names) && ctx.Valid()
      ensures processed < |files| ==> ctx.World() == old(ctx.World()) && firings == old(firings)
      ensures processed >= |files| ==> firings == old(firings) + 1
      ensures processed >= |files| && !old(ctx.exited) ==>
        ctx.World() == Dispatch(old(ctx.World()).(flags := Set(old(ctx.flags), Gzip, true)), ctx.listeners, GzipDone)
      ensures processed >= |files| && !old(ctx.exited) ==>
        |old(ctx.trace)| < |ctx.trace| && ctx.trace[|old(ctx.trace)|] == Emitted(GzipDone, Set(old(ctx.flags), Gzip, true))
    {
      if processed >= |files| {
        firings := firings + 1;
        ctx.Complete(Gzip, GzipDone);
      }
    }
  }
}
