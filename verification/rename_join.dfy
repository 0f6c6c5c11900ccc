/**
 * The asynchronous half of the newer hashing scripts: for every globbed
 * file, `await fs.rename(file, hashedFileName)`, and once all renames
 * have resolved (`await Promise.all(promises)`) one flag is set and one
 * event published. A rename that fails rejects the `Promise.all`, so the
 * flag and the event never come; that run simply has no `Settle` step.
 * Nobody handles that rejection, since `emit` drops the promise the
 * stage returns, so it also ends the process.
 */
module RenameJoins {
  import opened Wrappers
  import opened OrderedDict
  import opened CompletionFlags
  import opened BuildEvents
  import opened EventBus
  import opened BuildContext
  import opened HashNames
  import opened HashRecords

  class RenameJoin {
    const ctx: Build
    /** The flag set once every rename has resolved. */
    const flag: FlagName
    /** The event published right after. */
    const event: Event
    /** The glob result. */
    const files: seq<string>
    /** The content hash of each globbed file. */
    const hashes: seq<string>
    /** The name list the synchronous prefix started from. */
    ghost const before: Dict<string>
    /** Each resolved rename, from old path to new path. */
    var moved: map<string, string>
    /** Indices of the files whose rename has resolved. */
    var renamed: set<nat>
    /** Whether the `Promise.all` continuation has run. */
    var settled: bool

    predicate Valid()
      reads this, ctx
    {
      ctx.Valid() && Own()
    }

    /** The part of the invariant about the join's own fields. */
    predicate Own()
      reads this
    {
      && |files| == |hashes|
      && Distinct(files)
      && (forall i :: i in renamed ==>
            && i < |files|
            && files[i] in moved
            && moved[files[i]] == HashedName(files[i], hashes[i]))
      && (forall p :: p in moved ==> p in files)
    }

    /** The name list as the synchronous prefix left it. */
    ghost function Listed(): Dict<string>
      requires |files| == |hashes|
    {
      RecordAll(before, files, hashes)
    }

    /** Every file of the glob has been renamed. */
    predicate AllRenamed()
      reads this
    {
      forall i :: 0 <= i < |files| ==> i in renamed
    }

    /**
     * The promises of `glob.map(...)`, each past its synchronous part;
     * `before` is the name list those synchronous parts started from.
     */
    constructor(ctx: Build, flag: FlagName, event: Event, glob: seq<string>, hashes: seq<string>, ghost before: Dict<string>)
      requires ctx.Valid() && |glob| == |hashes| && Distinct(glob)
      ensures this.ctx == ctx && this.flag == flag && this.event == event
      ensures files == glob && this.hashes == hashes && this.before == before
      ensures moved == map[] && renamed == {} && !settled
      ensures Valid()
    {
      this.ctx := ctx;
      this.flag := flag;
      this.event := event;
      files := glob;
      this.hashes := hashes;
      this.before := before;
      moved := map[];
      renamed := {};
      settled := false;
    }

    /** `fs.rename(files[i], hashedFileName)` resolved. */
    method Renamed(i: nat)
      requires Valid() && i < |files| && i !in renamed
      modifies this`moved, this`renamed
      ensures renamed == old(renamed) + {i}
      ensures moved == old(moved)[files[i] := HashedName(files[i], hashes[i])]
      ensures Valid()
    {
      moved := moved[files[i] := HashedName(files[i], hashes[i])];
      renamed := renamed + {i};
    }

    /**
     * `await Promise.all(promises)` resolved: every file was moved to the
     * name the name list gives it; the flag is set and the event published.
     * It resolves once, and for an empty glob at once.
     */
    method Settle()
      requires Valid() && AllRenamed() && !settled
      modifies this`settled, ctx
      ensures settled && Valid()
      ensures ctx.listeners == old(ctx.listeners) && ctx.names == old(ctx.names)
      ensures forall i :: 0 <= i < |files| ==>
        files[i] in moved && OrderedDict.Get(Listed(), files[i]) == Some(moved[files[i]])
      ensures old(ctx.exited) ==> ctx.World() == old(ctx.World())
      ensures !old(ctx.exited) ==>
        ctx.World() == Dispatch(old(ctx.World()).(flags := Set(old(ctx.flags), flag, true)), ctx.listeners, event)
      ensures !old(ctx.exited) ==>
        |old(ctx.trace)| < |ctx.trace| && ctx.trace[|old(ctx.trace)|] == Emitted(event, Set(old(ctx.flags), flag, true))
    {
      forall i | 0 <= i < |files|
        ensures files[i] in moved && OrderedDict.Get(Listed(), files[i]) == Some(moved[files[i]])
      {
        RecordAllAt(before, files, hashes, i);
      }
      settled := true;
      ctx.Complete(flag, event);
    }
  }
}
