/**
 * build/optimize/minify-html.js: `minifyHTML(configs)` clears
 * HTML_IS_MINIFIED, globs the package's pages and, for each one, reads
 * it, minifies it and writes the result back at the same path. Once every
 * write has resolved it sets HTML_IS_MINIFIED and publishes htmlMinified.
 * The minifier is a parameter: each page's minified text.
 */
module MinifyHtml {
  import opened CompletionFlags
  import opened BuildEvents
  import opened EventBus
  import opened BuildContext
  import opened FileJoins

  /** The call up to its first `await`: the reset and the pending `Promise.all`. */
  method MinifyHtml(ctx: Build, glob: seq<string>) returns (join: FileJoin)
    requires ctx.Valid()
    modifies ctx
    ensures ctx.World() == StartTask(old(ctx.World()), EventBus.MinifyHtml)
    ensures !ctx.flags.htmlIsMinified
    ensures ctx.listeners == old(ctx.listeners) && ctx.names == old(ctx.names)
    ensures fresh(join) && join.Valid() && join.ctx == ctx && join.paths == glob
    ensures join.flag == HtmlIsMinified && join.event == HtmlMinified
    ensures join.written == map[] && join.settled == {} && join.wrote == {} && join.caught == {}
    ensures !join.rejected && !join.finished
    ensures |glob| == 0 ==> join.AllSettled()
  {
    ResetOnlyClears(ctx.flags, EventBus.MinifyHtml, HtmlIsMinified);
    ctx.Start(EventBus.MinifyHtml);
    join := new FileJoin(ctx, HtmlIsMinified, HtmlMinified, glob);
  }

  /** Page `i` was minified and written back over itself. */
  method PageWritten(join: FileJoin, glob: seq<string>, i: nat, minified: string)
    requires join.Valid() && !join.finished && join.paths == glob && i < |glob| && i !in join.settled
    modifies join`written, join`settled, join`wrote
    ensures join.written == old(join.written)[glob[i] := minified]
    ensures join.settled == old(join.settled) + {i} && join.wrote == old(join.wrote) + {i} && join.Valid()
  {
    join.Wrote(i, glob[i], minified);
  }
}
