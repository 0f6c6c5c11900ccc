/**
 * build/hashing/update-css-with-image-hashes.js: for every stylesheet of
 * the package, replace each hashed file's package-relative name by its
 * hashed package-relative name, key by key in `Object.keys` order, then
 * write the stylesheet back; once every write has resolved, publish
 * indexCssForHashing. No completion flag is written.
 *
 * The relative name is `key.split(dir.package)[1]`. When the key does not
 * contain the package directory that is `undefined`: `indexOf` then looks
 * for the text "undefined", and `split(undefined)` keeps the text whole,
 * so nothing changes. When the hashed name lacks it, `join(undefined)`
 * joins with `,`.
 */
module UpdateCss {
  import opened Wrappers
  import opened OrderedDict
  import opened Text
  import opened EventBus
  import opened BuildEvents
  import opened BuildContext
  import HashRecords

  /** `s.split(package)[1]`, `undefined` when the package directory does not occur. */
  function Segment(s: string, package: string): (r: Option<string>)
    requires |package| > 0
    ensures r.Some? <==> |SplitOn(s, package)| >= 2
  {
    var parts := SplitOn(s, package);
    if |parts| >= 2 then Some(parts[1]) else None
  }

  /** The one-character strings of `s`: `s.split('')`. */
  function Chars(s: string): (r: seq<string>)
    ensures |r| == |s| && forall i :: 0 <= i < |s| ==> r[i] == [s[i]]
  {
    if |s| == 0 then [] else [[s[0]]] + Chars(s[1..])
  }

  /** `s.split(p).join(r)`; an empty `p` splits between characters. */
  function SplitJoin(s: string, p: string, r: string): string {
    if |p| == 0 then Join(Chars(s), r) else Join(SplitOn(s, p), r)
  }

  /** The separator `join` uses: `,` for `undefined`. */
  function JoinSeparator(o: Option<string>): string {
    if o.Some? then o.value else ","
  }

  /** The body of the `forEach` for one key and its hashed name. */
  function UpdateForKey(contents: string, key: string, hashed: string, package: string): string
    requires |package| > 0
  {
    match Segment(key, package)
    case None => contents
    case Some(name) =>
      if Contains(contents, name) then SplitJoin(contents, name, JoinSeparator(Segment(hashed, package)))
      else contents
  }

  /** The stylesheet after the keys of `names`, in order, each seeing the result of the ones before. */
  function Rewrite(contents: string, names: Dict<string>, package: string): string
    requires |package| > 0
    decreases |names|
  {
    if |names| == 0 then contents
    else
      var n := |names| - 1;
      UpdateForKey(Rewrite(contents, names[..n], package), names[n].0, names[n].1, package)
  }

  /** The key loop of one stylesheet. */
  method RewriteCss(contents: string, names: Dict<string>, package: string) returns (r: string)
    requires |package| > 0
    ensures r == Rewrite(contents, names, package)
  {
    r := contents;
    var i := 0;
    while i < |names|
      invariant 0 <= i <= |names|
      invariant r == Rewrite(contents, names[..i], package)
    {
      r := UpdateForKey(r, names[i].0, names[i].1, package);
      assert names[..i + 1][..i] == names[..i];
      i := i + 1;
    }
    assert names[..i] == names;
  }

  /** Running the keys of `a` and then those of `b` is running the keys of `a + b`. */
  lemma {:induction false} RewriteAppend(contents: string, a: Dict<string>, b: Dict<string>, package: string)
    requires |package| > 0
    ensures Rewrite(contents, a + b, package) == Rewrite(Rewrite(contents, a, package), b, package)
    decreases |b|
  {
    if |b| == 0 {
      assert a + b == a;
    } else {
      var n := |b| - 1;
      assert (a + b)[..|a| + n] == a + b[..n];
      assert (a + b)[|a| + n] == b[n];
      RewriteAppend(contents, a, b[..n], package);
    }
  }

  /** With a separator that does not occur, splitting keeps the text whole. */
  lemma {:induction false} SplitOnAbsent(s: string, p: string)
    requires |p| > 0 && !Contains(s, p)
    ensures SplitOn(s, p) == [s]
    decreases |s|
  {
    if |s| >= |p| {
      assert !OccursAt(s, p, 0);
      assert s[..|p|] != p;
      forall k: nat ensures !OccursAt(s[1..], p, k) {
        assert !OccursAt(s, p, k + 1);
      }
      SplitOnAbsent(s[1..], p);
      assert s == [s[0]] + s[1..];
    }
  }

  /** The relative name of a path inside the package directory is what follows the directory. */
  lemma SegmentOfPackagePath(package: string, rest: string)
    requires |package| > 0 && !Contains(rest, package)
    ensures Segment(package + rest, package) == Some(rest)
  {
    var s := package + rest;
    assert package <= s;
    assert s[|package|..] == rest;
    SplitOnAbsent(rest, package);
  }

  /**
   * For a file `package + name` hashed to `package + hashedName`, one
   * key's step replaces every occurrence of `name` in the stylesheet by
   * `hashedName`, and changes nothing when `name` does not occur.
   */
  lemma UpdateReplacesRelativeName(contents: string, package: string, name: string, hashedName: string)
    requires |package| > 0 && |name| > 0
    requires !Contains(name, package) && !Contains(hashedName, package)
    ensures UpdateForKey(contents, package + name, package + hashedName, package) == ReplaceAll(contents, name, hashedName)
    ensures !Contains(contents, name) ==> UpdateForKey(contents, package + name, package + hashedName, package) == contents
  {
    SegmentOfPackagePath(package, name);
    SegmentOfPackagePath(package, hashedName);
    ReplaceAllIsSplitJoin(contents, name, hashedName);
    if !Contains(contents, name) {
      ReplaceAllAbsent(contents, name, hashedName);
    }
  }

  /** A key whose path lies outside the package directory never changes a stylesheet. */
  lemma OutsideKeyIgnored(contents: string, key: string, hashed: string, package: string)
    requires |package| > 0 && !Contains(key, package)
    ensures UpdateForKey(contents, key, hashed, package) == contents
  {
    SplitOnAbsent(key, package);
  }

  /** Every stylesheet has been written with the text computed for it. */
  predicate WroteAll(files: seq<string>, outputs: seq<string>, done: set<nat>, written: map<string, string>) {
    forall i :: i in done ==>
      i < |files| && i < |outputs| && files[i] in written && written[files[i]] == outputs[i]
  }

  lemma WroteStep(files: seq<string>, outputs: seq<string>, done: set<nat>, written: map<string, string>, i: nat)
    requires HashRecords.Distinct(files) && |files| == |outputs| && i < |files|
    requires WroteAll(files, outputs, done, written)
    ensures WroteAll(files, outputs, done + {i}, written[files[i] := outputs[i]])
  {
  }

  /** The `Promise.all` over the stylesheet writes. */
  class CssWrites {
    const ctx: Build
    const files: seq<string>
    /** The rewritten text of each stylesheet. */
    const outputs: seq<string>
    /** Indices of the stylesheets whose write has resolved. */
    var done: set<nat>
    /** The written files and their new text. */
    var written: map<string, string>
    var settled: bool

    predicate Valid()
      reads this, ctx
    {
      ctx.Valid() && |files| == |outputs| && HashRecords.Distinct(files) && WroteAll(files, outputs, done, written)
    }

    constructor(ctx: Build, files: seq<string>, outputs: seq<string>)
      requires ctx.Valid() && |files| == |outputs| && HashRecords.Distinct(files)
      ensures this.ctx == ctx && this.files == files && this.outputs == outputs
      ensures done == {} && written == map[] && !settled && Valid()
    {
      this.ctx := ctx;
      this.files := files;
      this.outputs := outputs;
      done := {};
      written := map[];
      settled := false;
    }

    /** `fs.writeFile(file, fileContents)` resolved, changed or not. */
    method Wrote(i: nat)
      requires Valid() && i < |files|
      modifies this`done, this`written
      ensures done == old(done) + {i} && written == old(written)[files[i] := outputs[i]]
      ensures Valid()
    {
      WroteStep(files, outputs, done, written, i);
      written := written[files[i] := outputs[i]];
      done := done + {i};
    }

    /**
     * `await Promise.all(promises)` resolved: every stylesheet holds its
     * rewritten text and indexCssForHashing is published, with no flag
     * written first. For an empty glob this happens at once.
     */
    method Settle()
      requires Valid() && !settled && forall i :: 0 <= i < |files| ==> i in done
      modifies this`settled, ctx
      ensures settled && Valid()
      ensures forall i :: 0 <= i < |files| ==> files[i] in written && written[files[i]] == outputs[i]
      ensures ctx.World() == Dispatch(old(ctx.World()), ctx.listeners, IndexCssForHashing)
      ensures ctx.listeners == old(ctx.listeners) && ctx.names == old(ctx.names)
    {
      settled := true;
      ctx.Emit(IndexCssForHashing);
    }
  }

  /**
   * `updateCSSwithImageHashes(configs)` with the glob result and the
   * current text of each stylesheet, up to its first `await`: every
   * stylesheet is rewritten against the name list as it stands.
   */
  method UpdateCssWithImageHashes(ctx: Build, glob: seq<string>, texts: seq<string>, package: string)
    returns (writes: CssWrites)
    requires ctx.Valid() && |glob| == |texts| && HashRecords.Distinct(glob) && |package| > 0
    modifies ctx
    ensures ctx.World() == StartTask(old(ctx.World()), EventBus.UpdateCssWithImageHashes)
    ensures ctx.listeners == old(ctx.listeners) && ctx.names == old(ctx.names)
    ensures fresh(writes) && writes.Valid() && writes.ctx == ctx && writes.files == glob
    ensures |writes.outputs| == |glob|
    ensures forall i :: 0 <= i < |glob| ==> writes.outputs[i] == Rewrite(texts[i], ctx.names, package)
    ensures writes.done == {} && !writes.settled
  {
    ctx.Start(EventBus.UpdateCssWithImageHashes);
    var outputs: seq<string> := [];
    var i := 0;
    while i < |glob|
      invariant 0 <= i <= |glob| && |outputs| == i
      invariant forall k :: 0 <= k < i ==> outputs[k] == Rewrite(texts[k], ctx.names, package)
      modifies {}
    {
      var r := RewriteCss(texts[i], ctx.names, package);
      outputs := outputs + [r];
      i := i + 1;
    }
    writes := new CssWrites(ctx, glob, outputs);
  }
}
