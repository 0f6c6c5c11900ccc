/**
 * build/optimize/minify-js.js: `minifyJS(configs)` clears JS_IS_MINIFIED,
 * globs the package's scripts and, for each one, reads and minifies it;
 * a minifier error throws, otherwise the code is written back at the
 * same path. Once every write has resolved it sets JS_IS_MINIFIED and
 * publishes jsMinified; a single error and neither happens.
 */
module MinifyJs {
  import opened CompletionFlags
  import opened BuildEvents
  import opened EventBus
  import opened BuildContext
  import opened FileJoins

  /** What `UglifyJS.minify` returns for one script. */
  datatype Minified = Code(code: string) | MinifyError

  /** The call up to its first `await`: the reset and the pending `Promise.all`. */
  method MinifyJs(ctx: Build, glob: seq<string>) returns (join: FileJoin)
    requires ctx.Valid()
    modifies ctx
    ensures ctx.World() == StartTask(old(ctx.World()), EventBus.MinifyJs)
    ensures !ctx.flags.jsIsMinified
    ensures ctx.listeners == old(ctx.listeners) && ctx.names == old(ctx.names)
    ensures fresh(join) && join.Valid() && join.ctx == ctx && join.paths == glob
    ensures join.flag == JsIsMinified && join.event == JsMinified
    ensures join.written == map[] && join.settled == {} && join.wrote == {} && join.caught == {}
    ensures !join.rejected && !join.finished
    ensures |glob| == 0 ==> join.AllSettled()
  {
    ResetOnlyClears(ctx.flags, EventBus.MinifyJs, JsIsMinified);
    ctx.Start(EventBus.MinifyJs);
    join := new FileJoin(ctx, JsIsMinified, JsMinified, glob);
  }

  /** Script `i` was minified: its code is written back, or the error rejects the join. */
  method ScriptDone(join: FileJoin, glob: seq<string>, i: nat, result: Minified)
    requires join.Valid() && !join.finished && join.paths == glob && i < |glob| && i !in join.settled
    modifies join`written, join`settled, join`wrote, join`rejected
    ensures join.settled == old(join.settled) + {i} && join.Valid()
    ensures join.wrote == old(join.wrote) + (if result.Code? then {i} else {})
    ensures result.Code? ==> join.written == old(join.written)[glob[i] := result.code] && join.rejected == old(join.rejected)
    ensures result.MinifyError? ==> join.written == old(join.written) && join.rejected
  {
    match result
    case Code(code) => join.Wrote(i, glob[i], code);
    case MinifyError => join.Rejected(i);
  }
}
