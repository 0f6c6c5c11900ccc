/**
 * build/optimize/optimize-svgs.js: `optimizeSvgs(configs)` clears
 * SVG_OPTIMIZATION, globs the source SVGs and, synchronously for each one,
 * reads it, optimises it and starts writing the result back to the same
 * path. Each finished write increments `processed`; the write that sees
 * `processed === svgGlob.length` sets SVG_OPTIMIZATION and publishes
 * svgsOptimized. A write error throws in its callback, which then has no
 * step here. The optimiser is a parameter: the optimised text of each file.
 */
module OptimizeSvgs {
  import opened CompletionFlags
  import opened BuildEvents
  import opened EventBus
  import opened BuildContext
  import opened Joins
  import HashRecords

  /** Every completed SVG has been written back to its own path with its optimised text. */
  predicate Rewritten(files: seq<string>, optimized: seq<string>, completed: set<nat>, written: map<string, string>) {
    forall i :: i in completed ==>
      i < |files| && i < |optimized| && files[i] in written && written[files[i]] == optimized[i]
  }

  lemma RewrittenStep(files: seq<string>, optimized: seq<string>, completed: set<nat>, written: map<string, string>, i: nat)
    requires HashRecords.Distinct(files) && |files| == |optimized| && i < |files|
    requires Rewritten(files, optimized, completed, written)
    ensures Rewritten(files, optimized, completed + {i}, written[files[i] := optimized[i]])
  {
  }

  class SvgRun {
    const ctx: Build
    /** `svgGlob` */
    const files: seq<string>
    /** The optimiser's output for each file, computed before any write starts. */
    const optimized: seq<string>
    /** `processed` */
    var processed: nat
    /** Indices of the files whose write has finished. */
    var completed: set<nat>
    /** Each rewritten SVG with its new text. */
    var written: map<string, string>
    /** The completions on which `processed === svgGlob.length` held. */
    var firings: nat

    predicate Valid()
      reads this, ctx
    {
      && ctx.Valid()
      && |files| == |optimized| && HashRecords.Distinct(files)
      && processed == |completed|
      && firings == ExactFirings(|files|, processed)
      && Rewritten(files, optimized, completed, written)
    }

    /** `optimizeSvgs(configs)` with the glob result and the optimiser's outputs, up to the first asynchronous step. */
    constructor(ctx: Build, glob: seq<string>, optimized: seq<string>)
      requires ctx.Valid() && |glob| == |optimized| && HashRecords.Distinct(glob)
      modifies ctx
      ensures this.ctx == ctx && files == glob && this.optimized == optimized
      ensures processed == 0 && completed == {} && written == map[] && firings == 0
      ensures ctx.World() == StartTask(old(ctx.World()), EventBus.OptimizeSvgs)
      ensures ctx.listeners == old(ctx.listeners) && ctx.names == old(ctx.names)
      ensures Valid()
    {
      this.ctx := ctx;
      files := glob;
      this.optimized := optimized;
      processed := 0;
      completed := {};
      written := map[];
      firings := 0;
      new;
      ctx.Start(EventBus.OptimizeSvgs);
    }

    /** The write of `files[i]` finished without error: count it and check. */
    method Written(i: nat)
      requires Valid() && i < |files| && i !in completed
      modifies this, ctx
      ensures completed == old(completed) + {i} && processed == old(processed) + 1
      ensures written == old(written)[files[i] := optimized[i]]
      ensures Valid() && ctx.listeners == old(ctx.listeners) && ctx.names == old(ctx.names)
      ensures processed != |files| ==> ctx.World() == old(ctx.World()) && firings == old(firings)
      ensures processed == |files| ==> firings == old(firings) + 1
      ensures processed == |files| && !old(ctx.exited) ==>
        ctx.World() == Dispatch(old(ctx.World()).(flags := Set(old(ctx.flags), SvgOptimization, true)), ctx.listeners, SvgsOptimized)
      ensures processed == |files| && !old(ctx.exited) ==>
        |old(ctx.trace)| < |ctx.trace| && ctx.trace[|old(ctx.trace)|] == Emitted(SvgsOptimized, Set(old(ctx.flags), SvgOptimization, true))
      ensures processed <= |files| && firings == (if processed == |files| then 1 else 0)
    {
      Count(i);
      Check();
    }

    /** `processed++`, after the write of `files[i]`. */
    method Count(i: nat)
      requires Valid() && i < |files| && i !in completed
      modifies this`processed, this`completed, this`written
      ensures completed == old(completed) + {i} && processed == old(processed) + 1
      ensures written == old(written)[files[i] := optimized[i]]
      ensures Rewritten(files, optimized, completed, written) && processed == |completed| && processed <= |files|
      ensures ExactFirings(|files|, processed) == (if processed == |files| then 1 else 0)
      ensures firings == ExactFirings(|files|, processed) - (if processed == |files| then 1 else 0)
    {
      Record(i);
      Tally(i);
    }

    method Record(i: nat)
      requires Valid() && i < |files| && i !in completed
      modifies this`written
      ensures written == old(written)[files[i] := optimized[i]]
      ensures Rewritten(files, optimized, completed + {i}, written)
    {
      RewrittenStep(files, optimized, completed, written, i);
      written := written[files[i] := optimized[i]];
    }

    method Tally(i: nat)
      requires i < |files| && i !in completed && processed == |completed| && firings == ExactFirings(|files|, processed)
      requires forall k :: k in completed ==> k < |files|
      modifies this`processed, this`completed
      ensures completed == old(completed) + {i} && processed == old(processed) + 1
      ensures processed == |completed| && processed <= |files|
      ensures ExactFirings(|files|, processed) == (if processed == |files| then 1 else 0)
      ensures firings == ExactFirings(|files|, processed) - (if processed == |files| then 1 else 0)
    {
      CountedOnce(completed + {i}, |files|);
      CountedOnce(completed, |files|);
      completed := completed + {i};
      processed := processed + 1;
    }

    /** `if (processed === array.length) { SVG_OPTIMIZATION = true; emit(svgsOptimized) }` */
    method Check()
      requires ctx.Valid()
      modifies this`firings, ctx
      ensures ctx.listeners == old(ctx.listeners) && ctx.names == old(ctx.names) && ctx.Valid()
      ensures processed != |files| ==> ctx.World() == old(ctx.World()) && firings == old(firings)
      ensures processed == |files| ==> firings == old(firings) + 1
      ensures processed == |files| && !old(ctx.exited) ==>
        ctx.World() == Dispatch(old(ctx.World()).(flags := Set(old(ctx.flags), SvgOptimization, true)), ctx.listeners, SvgsOptimized)
      ensures processed == |files| && !old(ctx.exited) ==>
        |old(ctx.trace)| < |ctx.trace| && ctx.trace[|old(ctx.trace)|] == Emitted(SvgsOptimized, Set(old(ctx.flags), SvgOptimization, true))
    {
      if processed == |files| {
        firings := firings + 1;
        ctx.Complete(SvgOptimization, SvgsOptimized);
      }
    }

    /** Once every write has finished, every SVG holds its optimised text and the event was published once. */
    lemma AllWritten()
      requires Valid() && forall i :: 0 <= i < |files| ==> i in completed
      ensures processed == |files|
      ensures forall i :: 0 <= i < |files| ==> written[files[i]] == optimized[i]
      ensures firings == (if |files| == 0 then 0 else 1)
    {
      IndexSetBound(completed, |files|);
      AllIndicesCounted(completed, |files|);
      ExactFiringsCount(|files|, processed);
    }
  }
}
