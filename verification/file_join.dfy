/**
 * `await Promise.all(glob.map(async (file) => { ...; await fs.writeFile(...) }))`
 * followed by a flag write and an event, as in the minifiers and the
 * stylesheet bundler. Each file's promise either resolves after writing
 * its own output path, resolves without a write (an error the callback
 * caught), or rejects (an error it threw). One rejection and the
 * continuation never runs, so the flag stays false and the event is
 * never published; nobody handles that rejection, since `emit` drops the
 * promise the stage returns, so it also ends the process.
 */
module FileJoins {
  import opened CompletionFlags
  import opened BuildEvents
  import opened EventBus
  import opened BuildContext

  class FileJoin {
    const ctx: Build
    const flag: FlagName
    const event: Event
    /** The number of promises `Promise.all` waits for (the glob size). */
    const count: nat
    /** The path promise `i` writes. */
    const paths: seq<string>
    /** Every file written so far, with its new text. */
    var written: map<string, string>
    /** Indices of the promises that have settled. */
    var settled: set<nat>
    /** Indices of the promises that resolved after their write. */
    var wrote: set<nat>
    /** Indices of the promises that resolved without a write. */
    var caught: set<nat>
    /** Whether some promise rejected. */
    var rejected: bool
    /** Whether the `Promise.all` itself has settled. */
    var finished: bool

    /**
     * Only the glob's paths are written, each promise that wrote left its
     * path written, and while nothing rejected every settled promise
     * either wrote or caught its error.
     */
    predicate Valid()
      reads this, ctx
    {
      && ctx.Valid()
      && |paths| == count
      && (forall i :: i in settled ==> i < count)
      && wrote <= settled && caught <= settled
      && (forall i :: i in wrote ==> i < count && paths[i] in written)
      && (forall p :: p in written ==> p in paths)
      && (!rejected ==> settled == wrote + caught)
      && (finished ==> AllSettled())
    }

    /** Every promise has settled. */
    predicate AllSettled()
      reads this
    {
      forall i :: 0 <= i < count ==> i in settled
    }

    constructor(ctx: Build, flag: FlagName, event: Event, paths: seq<string>)
      requires ctx.Valid()
      ensures this.ctx == ctx && this.flag == flag && this.event == event
      ensures this.paths == paths && count == |paths|
      ensures written == map[] && settled == {} && wrote == {} && caught == {}
      ensures !rejected && !finished && Valid()
    {
      this.ctx := ctx;
      this.flag := flag;
      this.event := event;
      this.count := |paths|;
      this.paths := paths;
      written := map[];
      settled := {};
      wrote := {};
      caught := {};
      rejected := false;
      finished := false;
    }

    /** Promise `i` resolved after writing `text` to its path. */
    method Wrote(i: nat, path: string, text: string)
      requires Valid() && !finished && i < count && i !in settled && path == paths[i]
      modifies this`written, this`settled, this`wrote
      ensures written == old(written)[path := text]
      ensures settled == old(settled) + {i} && wrote == old(wrote) + {i}
      ensures Valid()
    {
      written := written[path := text];
      settled := settled + {i};
      wrote := wrote + {i};
    }

    /** Promise `i` resolved without writing: its callback caught an error. */
    method Resolved(i: nat)
      requires Valid() && !finished && i < count && i !in settled
      modifies this`settled, this`caught
      ensures settled == old(settled) + {i} && caught == old(caught) + {i}
      ensures Valid()
    {
      settled := settled + {i};
      caught := caught + {i};
    }

    /** Promise `i` rejected: its callback threw. */
    method Rejected(i: nat)
      requires Valid() && !finished && i < count && i !in settled
      modifies this`settled, this`rejected
      ensures settled == old(settled) + {i} && rejected
      ensures Valid()
    {
      settled := settled + {i};
      rejected := true;
    }

    /**
     * `Promise.all` settles. Resolved, the flag is set and then the event
     * published, with every path written but those whose promise caught
     * its error; rejected, nothing more happens.
     */
    method Finish()
      requires Valid() && AllSettled() && !finished
      modifies this`finished, ctx
      ensures finished && Valid()
      ensures ctx.listeners == old(ctx.listeners) && ctx.names == old(ctx.names)
      ensures rejected || old(ctx.exited) ==> ctx.World() == old(ctx.World())
      ensures !rejected && !old(ctx.exited) ==>
        ctx.World() == Dispatch(old(ctx.World()).(flags := Set(old(ctx.flags), flag, true)), ctx.listeners, event)
      ensures !rejected && !old(ctx.exited) ==>
        |old(ctx.trace)| < |ctx.trace| && ctx.trace[|old(ctx.trace)|] == Emitted(event, Set(old(ctx.flags), flag, true))
      ensures !rejected ==> forall i :: 0 <= i < count && i !in caught ==> paths[i] in written
    {
      finished := true;
      if !rejected {
        AllWritten();
        ctx.Complete(flag, event);
      }
    }

    /**
     * Once `Promise.all` has resolved, every path has been written except
     * those whose promise caught its error.
     */
    lemma AllWritten()
      requires Valid() && AllSettled() && !rejected
      ensures forall i :: 0 <= i < count && i !in caught ==> paths[i] in written
    {
      forall i | 0 <= i < count && i !in caught
        ensures paths[i] in written
      {
        assert i in settled;
      }
    }

    /**
     * In a join whose callbacks catch nothing, as in the two minifiers,
     * the flag and the event come only after every path has been written.
     */
    lemma EveryPathWritten()
      requires Valid() && finished && !rejected && caught == {}
      ensures forall i :: 0 <= i < |paths| ==> paths[i] in written
    {
      AllWritten();
    }
  }
}
