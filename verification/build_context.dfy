/**
 * The configuration object every build script receives: the shared flag
 * record, the event bus with its listeners, the hashing name list
 * (`hashingFileNameList`), the `debug` setting, and whether the process
 * is still running.
 */
module BuildContext {
  import opened CompletionFlags
  import opened BuildEvents
  import opened EventBus
  import opened OrderedDict

  class Build {
    var flags: Flags
    var debug: bool
    var exited: bool
    /** Everything observable that has happened so far, in order. */
    var trace: seq<Effect>
    var listeners: seq<Binding>
    /** `hashingFileNameList`: original path to hashed path, in insertion order. */
    var names: Dict<string>

    function World(): World
      reads this
    {
      EventBus.World(flags, debug, exited, trace)
    }

    /** The listeners registered so far form an acyclic publishing graph. */
    predicate Valid()
      reads this
    {
      WellRanked(listeners)
    }

    constructor(debug: bool)
      ensures World() == InitialWorld(debug)
      ensures listeners == [] && names == []
      ensures Valid()
    {
      this.flags := Initial();
      this.debug := debug;
      this.exited := false;
      this.trace := [];
      this.listeners := [];
      this.names := [];
    }

    /** `eventEmitter.on(e, handler)` */
    method On(e: Event, h: Handler)
      requires Valid()
      requires RankDescends(Binding(e, h))
      modifies this
      ensures listeners == old(listeners) + [Binding(e, h)]
      ensures flags == old(flags) && debug == old(debug) && exited == old(exited) && trace == old(trace)
      ensures names == old(names)
      ensures Valid()
    {
      listeners := listeners + [Binding(e, h)];
    }

    /** `eventEmitter.emit(e)` */
    method Emit(e: Event)
      requires Valid()
      modifies this
      ensures listeners == old(listeners) && names == old(names) && Valid()
      ensures World() == Dispatch(old(World()), listeners, e)
    {
      var w := Dispatch(World(), listeners, e);
      DispatchExtends(World(), listeners, e);
      flags, exited, trace := w.flags, w.exited, w.trace;
    }

    /** `completionFlags.X = v` */
    method SetFlag(n: FlagName, v: bool)
      modifies this
      ensures flags == Set(old(flags), n, v)
      ensures exited == old(exited) && trace == old(trace) && debug == old(debug)
      ensures listeners == old(listeners) && names == old(names)
    {
      flags := Set(flags, n, v);
    }

    /**
     * The end of a stage task: `completionFlags.X = true`, then
     * `buildEvents.emit(e)`. Once the process has ended nothing happens.
     */
    method Complete(n: FlagName, e: Event)
      requires Valid()
      modifies this
      ensures listeners == old(listeners) && names == old(names) && Valid()
      ensures old(exited) ==> World() == old(World())
      ensures !old(exited) ==> World() == Dispatch(old(World()).(flags := Set(old(flags), n, true)), listeners, e)
      ensures !old(exited) ==> |old(trace)| < |trace| && trace[|old(trace)|] == Emitted(e, Set(old(flags), n, true))
    {
      if !exited {
        SetFlag(n, true);
        PublishedFirst(World(), listeners, e);
        Emit(e);
      }
    }

    /** Calling stage task `t`: its synchronous prefix. */
    method Start(t: Task)
      modifies this
      ensures World() == StartTask(old(World()), t)
      ensures listeners == old(listeners) && names == old(names)
    {
      var w := StartTask(World(), t);
      flags, trace := w.flags, w.trace;
    }

    /** `hashingFileNameList[file] = hashed` */
    method Record(file: string, hashed: string)
      modifies this
      ensures names == Put(old(names), file, hashed)
      ensures World() == old(World()) && listeners == old(listeners)
    {
      names := Put(names, file, hashed);
    }
  }
}
