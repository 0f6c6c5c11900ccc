/**
 * build/bundlers/bundle-scss.js: `bundleSCSS(configs)` clears
 * CSS_IS_MINIFIED and compiles every non-partial stylesheet source to its
 * package path, minifying the output only in production. A compile or
 * write error is rethrown in production and only reported otherwise.
 * Once every file has settled it sets CSS_IS_MINIFIED and publishes
 * stylesMoved. Compiling and minifying are parameters.
 */
module BundleScss {
  import opened Text
  import opened CompletionFlags
  import opened BuildEvents
  import opened EventBus
  import opened BuildContext
  import opened FileJoins

  /** `.replace(/\.scss$/, '.css')` */
  function CssSuffix(s: string): (r: string)
    ensures EndsWith(s, ".scss") ==> r == s[..|s| - 5] + ".css"
    ensures !EndsWith(s, ".scss") ==> r == s
  {
    if EndsWith(s, ".scss") then s[..|s| - 5] + ".css" else s
  }

  /** `scssFilename.replace(dir.src, dir.package).replace(/\.scss$/, '.css')` */
  function OutFile(src: string, package: string, scss: string): string {
    CssSuffix(ReplaceFirst(scss, src, package))
  }

  /**
   * A source `src + rest` compiles to `package + rest` with `.scss`
   * turned into `.css`.
   */
  lemma OutFileOfSource(src: string, package: string, rest: string)
    requires EndsWith(rest, ".scss")
    ensures OutFile(src, package, src + rest) == package + rest[..|rest| - 5] + ".css"
    ensures EndsWith(OutFile(src, package, src + rest), ".css")
  {
    ReplaceFirstPrefix(src, rest, package);
    EndsWithPrefixed(package, rest, ".scss");
    EndsWithAppended(package + rest[..|rest| - 5], ".css");
  }

  /** The package path of each stylesheet source, in glob order. */
  function OutFiles(src: string, package: string, glob: seq<string>): seq<string> {
    seq(|glob|, i requires 0 <= i < |glob| => OutFile(src, package, glob[i]))
  }

  /** What compiling, creating the directory and writing one file gives. */
  datatype Compiled = Css(css: string) | CompileError(message: string)

  /** The call up to its first `await`: the reset and the pending `Promise.all`. */
  method BundleScss(ctx: Build, src: string, package: string, glob: seq<string>) returns (join: FileJoin)
    requires ctx.Valid()
    modifies ctx
    ensures ctx.World() == StartTask(old(ctx.World()), EventBus.BundleScss)
    ensures !ctx.flags.cssIsMinified
    ensures ctx.listeners == old(ctx.listeners) && ctx.names == old(ctx.names)
    ensures fresh(join) && join.Valid() && join.ctx == ctx && join.paths == OutFiles(src, package, glob)
    ensures join.flag == CssIsMinified && join.event == StylesMoved
    ensures join.written == map[] && join.settled == {} && join.wrote == {} && join.caught == {}
    ensures !join.rejected && !join.finished
  {
    ResetOnlyClears(ctx.flags, EventBus.BundleScss, CssIsMinified);
    ctx.Start(EventBus.BundleScss);
    join := new FileJoin(ctx, CssIsMinified, StylesMoved, OutFiles(src, package, glob));
  }

  /**
   * Stylesheet `i` settled. Compiled, it is written to its package path,
   * minified in production (`minified` is what the minifier makes of
   * it). On error the join is rejected in production; otherwise the
   * error is caught and the join goes on.
   */
  method StylesheetDone(join: FileJoin, src: string, package: string, glob: seq<string>, i: nat,
                        production: bool, result: Compiled, minified: string)
    requires join.Valid() && !join.finished && join.paths == OutFiles(src, package, glob)
    requires i < |glob| && i !in join.settled
    modifies join`written, join`settled, join`wrote, join`caught, join`rejected
    ensures join.settled == old(join.settled) + {i} && join.Valid()
    ensures join.wrote == old(join.wrote) + (if result.Css? then {i} else {})
    ensures join.caught == old(join.caught) + (if result.CompileError? && !production then {i} else {})
    ensures result.Css? ==> join.rejected == old(join.rejected)
    ensures result.Css? ==>
      join.written == old(join.written)[OutFile(src, package, glob[i]) := if production then minified else result.css]
    ensures result.CompileError? ==> join.written == old(join.written) && join.rejected == (old(join.rejected) || production)
  {
    match result
    case Css(css) =>
      join.Wrote(i, OutFile(src, package, glob[i]), if production then minified else css);
    case CompileError(_) =>
      if production {
        join.Rejected(i);
      } else {
        join.Resolved(i);
      }
  }
}
