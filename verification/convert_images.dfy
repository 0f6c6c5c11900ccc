/**
 * The image conversion script scripts/convert-images.js: it walks a
 * source directory for raster images, and for each JPEG or PNG writes a
 * WebP and an AVIF copy next to it unless that copy already exists. The
 * directory tree, the files present when the script starts and which
 * conversions throw are parameters; the converters themselves are not
 * part of this model. `avifenc` runs under `execSync`, so an AVIF copy is
 * on disk before the next image is looked at, while the WebP converter's
 * promise is never awaited, so its copy is taken to be absent until the
 * script ends.
 */
module ConvertImages {
  import opened Wrappers
  import opened Text
  import opened NodePath

  /** `webpCandidates` of build/constants/file-formats.js. */
  const WebpCandidates: seq<string> := ["jpg", "png", "jpeg"]

  const ImageExtensions: seq<string> := [".jpg", ".jpeg", ".png", ".gif", ".bmp", ".tiff"]
  const SvgExtensions: seq<string> := [".svg"]

  // ---------------------------------------------------------------------
  // shouldConvert

  /** `shouldConvert(filePath)`: the lower-cased extension, without its dot, is a WebP candidate. */
  function ShouldConvert(filePath: string): bool {
    var e := ToLower(ExtName(filePath));
    (if |e| > 0 then e[1..] else "") in WebpCandidates
  }

  /** A file `<stem>.<ext>` is converted exactly when `ext`, lower-cased, is `jpg`, `png` or `jpeg`. */
  lemma ShouldConvertOf(stem: string, ext: string)
    requires |stem| > 0 && '/' !in stem && '/' !in ext && '.' !in ext && |ext| > 0
    ensures ShouldConvert(stem + "." + ext) <==> ToLower(ext) in WebpCandidates
  {
    ExtNameOf(stem, ext);
    var e := ToLower("." + ext);
    assert e[1..] == ToLower(ext);
  }

  /** A path without any extension is never converted. */
  lemma NoExtensionNotConverted(filePath: string)
    requires ExtName(filePath) == ""
    ensures !ShouldConvert(filePath)
  {
  }

  // ---------------------------------------------------------------------
  // Output paths and the two converters

  /**
   * `inputPath.replace(/\.[^.]+$/, '.' + ext)`: the last `.` and the
   * characters after it, if there is at least one, give way to the new
   * extension; a path with no such tail is left as it is.
   */
  function ReplaceExtension(inputPath: string, ext: string): (r: string)
    ensures '.' !in inputPath ==> r == inputPath
    ensures r == inputPath || EndsWith(r, "." + ext)
  {
    var k := LastIndexOf(inputPath, '.');
    if 0 <= k < |inputPath| - 1 then
      var r := inputPath[..k] + "." + ext;
      assert r[|r| - |"." + ext|..] == "." + ext;
      r
    else inputPath
  }

  /** `<stem>.<old>` becomes `<stem>.<ext>`, whatever dots the stem holds. */
  lemma ReplaceExtensionOf(stem: string, from: string, ext: string)
    requires |from| > 0 && '.' !in from
    ensures ReplaceExtension(stem + "." + from, ext) == stem + "." + ext
  {
    HashNames.LastIndexOfPrefix(stem + ".", from, '.');
    assert (stem + ".")[|stem|] == '.';
    assert (stem + "." + from)[..|stem|] == stem;
  }

  /**
   * `convertToWebP` and `convertToAVIF`: `null` when the output already
   * exists or the conversion throws, the output path otherwise.
   */
  function Convert(inputPath: string, ext: string, existing: set<string>, failing: set<string>): (r: Option<string>)
    ensures r.Some? <==> ReplaceExtension(inputPath, ext) !in existing && inputPath !in failing
    ensures r.Some? ==> r.value == ReplaceExtension(inputPath, ext) && r.value !in existing
  {
    var out := ReplaceExtension(inputPath, ext);
    if out in existing then None
    else if inputPath in failing then None
    else Some(out)
  }

  // ---------------------------------------------------------------------
  // findImageFiles

  /** What `fs.statSync` says of a directory entry. */
  datatype Entry =
    | File(name: string)
    | Directory(name: string, entries: seq<Entry>)
    | Special(name: string)

  /** The test on a file's lower-cased extension. */
  predicate IsImageExtension(ext: string) {
    ext in ImageExtensions && ext !in SvgExtensions
  }

  /** The directories `findImageFiles` descends into. */
  predicate Descends(name: string) {
    !StartsWith(name, ".") && name != "node_modules"
  }

  /** The image files under `dir`, in the order `findImageFiles` pushes them. */
  function ImageFiles(dir: string, items: seq<Entry>): seq<string>
    decreases items, 1
  {
    if |items| == 0 then []
    else ImageFiles(dir, items[..|items| - 1]) + EntryFiles(dir, items[|items| - 1])
  }

  /** What one entry of `dir` adds. */
  function EntryFiles(dir: string, e: Entry): seq<string>
    decreases e, 0
  {
    match e
    case File(n) => if IsImageExtension(ToLower(ExtName(n))) then [dir + "/" + n] else []
    case Directory(n, es) => if Descends(n) then ImageFiles(dir + "/" + n, es) else []
    case Special(_) => []
  }

  /** Names read from a directory: never empty, never holding a `/`. */
  predicate WellNamed(items: seq<Entry>)
    decreases items
  {
    forall i :: 0 <= i < |items| ==>
      && |items[i].name| > 0 && '/' !in items[i].name
      && (items[i].Directory? ==> WellNamed(items[i].entries))
  }

  /** `findImageFiles(dir)`: an absent directory gives nothing. */
  method FindImageFiles(dir: string, listing: Option<seq<Entry>>) returns (files: seq<string>)
    ensures files == if listing.None? then [] else ImageFiles(dir, listing.value)
  {
    files := [];
    if listing.Some? {
      files := ListImageFiles(dir, listing.value);
    }
  }

  /** The `for` loop over the entries of a directory that exists. */
  method ListImageFiles(dir: string, items: seq<Entry>) returns (files: seq<string>)
    ensures files == ImageFiles(dir, items)
    decreases items, 1
  {
    files := [];
    var i := 0;
    while i < |items|
      invariant 0 <= i <= |items|
      invariant files == ImageFiles(dir, items[..i])
    {
      assert items[..i + 1][..i] == items[..i];
      var found := ListEntry(dir, items[i]);
      files := files + found;
      i := i + 1;
    }
    assert items[..i] == items;
  }

  /** The body of the `for` loop for one entry: descend, keep an image file, or skip. */
  method ListEntry(dir: string, e: Entry) returns (files: seq<string>)
    ensures files == EntryFiles(dir, e)
    decreases e, 0
  {
    files := [];
    match e {
      case Directory(n, es) =>
        if Descends(n) {
          files := ListImageFiles(dir + "/" + n, es);
        }
      case File(n) =>
        if IsImageExtension(ToLower(ExtName(n))) {
          files := [dir + "/" + n];
        }
      case Special(_) =>
    }
  }

  /** Every path in `fs` lies under `dir` and carries an image extension other than `.svg`. */
  predicate ImagesUnder(dir: string, fs: seq<string>) {
    forall k :: 0 <= k < |fs| ==> StartsWith(fs[k], dir + "/") && IsImageExtension(ToLower(ExtName(fs[k])))
  }

  lemma ImagesUnderAppend(dir: string, a: seq<string>, b: seq<string>)
    requires ImagesUnder(dir, a) && ImagesUnder(dir, b)
    ensures ImagesUnder(dir, a + b)
  {
    forall k | 0 <= k < |a + b|
      ensures StartsWith((a + b)[k], dir + "/") && IsImageExtension(ToLower(ExtName((a + b)[k])))
    {
      if k < |a| {
        assert (a + b)[k] == a[k];
      } else {
        assert (a + b)[k] == b[k - |a|];
      }
    }
  }

  lemma UnderParent(dir: string, name: string, s: string)
    requires dir + "/" + name + "/" <= s
    ensures dir + "/" <= s
  {
    assert (dir + "/" + name + "/")[..|dir| + 1] == dir + "/";
  }

  lemma ImagesUnderParent(dir: string, name: string, fs: seq<string>)
    requires ImagesUnder(dir + "/" + name, fs)
    ensures ImagesUnder(dir, fs)
  {
    forall k | 0 <= k < |fs| ensures StartsWith(fs[k], dir + "/") {
      UnderParent(dir, name, fs[k]);
    }
  }

  lemma WellNamedPrefix(items: seq<Entry>, n: nat)
    requires WellNamed(items) && n <= |items|
    ensures WellNamed(items[..n])
  {
    forall i | 0 <= i < n ensures items[..n][i] == items[i] { }
  }

  lemma FileFoundIsImage(dir: string, name: string)
    requires |name| > 0 && '/' !in name && IsImageExtension(ToLower(ExtName(name)))
    ensures ImagesUnder(dir, [dir + "/" + name])
  {
    var p := dir + "/" + name;
    assert StartsWith(p, dir + "/") by {
      assert p[..|dir| + 1] == dir + "/";
    }
    assert IsImageExtension(ToLower(ExtName(p))) by {
      ExtNameJoin(dir, name);
      SameExtensionIsImage(p, name);
    }
    OneImageUnder(dir, p);
  }

  lemma SameExtensionIsImage(a: string, b: string)
    requires ExtName(a) == ExtName(b) && IsImageExtension(ToLower(ExtName(b)))
    ensures IsImageExtension(ToLower(ExtName(a)))
  {
  }

  lemma OneImageUnder(dir: string, p: string)
    requires StartsWith(p, dir + "/") && IsImageExtension(ToLower(ExtName(p)))
    ensures ImagesUnder(dir, [p])
  {
  }

  /** Every file found lies under `dir` and carries an image extension other than `.svg`. */
  lemma {:induction false} FoundAreImages(dir: string, items: seq<Entry>)
    requires WellNamed(items)
    ensures ImagesUnder(dir, ImageFiles(dir, items))
    decreases items, 1
  {
    if |items| > 0 {
      var n := |items| - 1;
      WellNamedPrefix(items, n);
      FoundAreImages(dir, items[..n]);
      EntryFoundAreImages(dir, items[n]);
      ImagesUnderAppend(dir, ImageFiles(dir, items[..n]), EntryFiles(dir, items[n]));
    }
  }

  lemma {:induction false} EntryFoundAreImages(dir: string, e: Entry)
    requires |e.name| > 0 && '/' !in e.name
    requires e.Directory? ==> WellNamed(e.entries)
    ensures ImagesUnder(dir, EntryFiles(dir, e))
    decreases e, 0
  {
    match e {
      case File(name) =>
        if IsImageExtension(ToLower(ExtName(name))) {
          FileFoundIsImage(dir, name);
        }
      case Directory(name, es) =>
        if Descends(name) {
          FoundAreImages(dir + "/" + name, es);
          ImagesUnderParent(dir, name, ImageFiles(dir + "/" + name, es));
        }
      case Special(_) =>
    }
  }

  /** Whatever an entry of `dir` contributes is among the files found under `dir`. */
  lemma {:induction false} EntryFilesFound(dir: string, items: seq<Entry>, i: nat, x: string)
    requires i < |items| && x in EntryFiles(dir, items[i])
    ensures x in ImageFiles(dir, items)
    decreases items
  {
    var n := |items| - 1;
    if i < n {
      assert items[..n][i] == items[i];
      EntryFilesFound(dir, items[..n], i, x);
    }
  }

  /** An image file directly inside `dir` is always found. */
  lemma TopLevelImagesFound(dir: string, items: seq<Entry>, i: nat)
    requires i < |items| && items[i].File? && IsImageExtension(ToLower(ExtName(items[i].name)))
    ensures dir + "/" + items[i].name in ImageFiles(dir, items)
  {
    EntryFilesFound(dir, items, i, dir + "/" + items[i].name);
  }

  /** Nothing inside a hidden directory or `node_modules` is ever found. */
  lemma SkippedDirectoryAddsNothing(dir: string, items: seq<Entry>, name: string, es: seq<Entry>)
    requires !Descends(name)
    ensures ImageFiles(dir, items + [Directory(name, es)]) == ImageFiles(dir, items)
  {
    assert (items + [Directory(name, es)])[..|items|] == items;
  }

  // ---------------------------------------------------------------------
  // main

  /** An entry of `convertedFiles`. */
  datatype Converted = Converted(original: string, webp: Option<string>, avif: Option<string>)

  /** The `summary` written to conversion-results.json. */
  datatype Summary = Summary(totalImages: nat, convertedImages: nat, newFiles: nat)

  function Outputs(w: Option<string>, a: Option<string>): seq<string> {
    (if w.Some? then [w.value] else []) + (if a.Some? then [a.value] else [])
  }

  /** What one image file adds to `convertedFiles` and `modifiedFiles`. */
  function Process(f: string, existing: set<string>, webpFailing: set<string>, avifFailing: set<string>): (r: (seq<Converted>, seq<string>))
    ensures !ShouldConvert(f) ==> r == ([], [])
    ensures |r.0| <= 1 && |r.0| <= |r.1| <= 2 * |r.0|
    ensures forall c :: c in r.0 ==> c.original == f && Outputs(c.webp, c.avif) == r.1
    ensures forall m :: m in r.1 ==> m !in existing
  {
    if !ShouldConvert(f) then ([], [])
    else
      var w := Convert(f, "webp", existing, webpFailing);
      var a := Convert(f, "avif", existing, avifFailing);
      var outs := Outputs(w, a);
      if w.Some? || a.Some? then ([Converted(f, w, a)], outs) else ([], outs)
  }

  /**
   * What `fs.existsSync` sees after the entries `cs` were recorded: the
   * files there at the start and every AVIF copy written so far.
   */
  function Seen(existing: set<string>, cs: seq<Converted>): set<string> {
    if |cs| == 0 then existing
    else Seen(existing, cs[..|cs| - 1]) + (if cs[|cs| - 1].avif.Some? then {cs[|cs| - 1].avif.value} else {})
  }

  /** The files seen are those there at the start and the AVIF copies recorded. */
  lemma {:induction false} SeenIff(existing: set<string>, cs: seq<Converted>, x: string)
    ensures x in Seen(existing, cs) <==> x in existing || exists i :: 0 <= i < |cs| && cs[i].avif == Some(x)
  {
    if |cs| > 0 {
      var n := |cs| - 1;
      SeenIff(existing, cs[..n], x);
      if exists i :: 0 <= i < n && cs[..n][i].avif == Some(x) {
        var i :| 0 <= i < n && cs[..n][i].avif == Some(x);
        assert cs[i].avif == Some(x);
      }
      if exists i :: 0 <= i < |cs| && cs[i].avif == Some(x) {
        var i :| 0 <= i < |cs| && cs[i].avif == Some(x);
        if i < n {
          assert cs[..n][i].avif == Some(x);
        }
      }
    }
  }

  /** Adding at most one entry adds its AVIF copy, if any. */
  lemma SeenStep(existing: set<string>, cs: seq<Converted>, step: seq<Converted>)
    requires |step| <= 1
    ensures Seen(existing, cs + step) == Seen(existing, cs) + (if |step| == 1 && step[0].avif.Some? then {step[0].avif.value} else {})
  {
    if |step| == 0 {
      assert cs + step == cs;
    } else {
      assert (cs + step)[..|cs|] == cs;
    }
  }

  /**
   * `convertedFiles` and `modifiedFiles` after the loop over `files`:
   * each image is looked at with the files seen after the images before
   * it.
   */
  function Conversions(files: seq<string>, existing: set<string>, webpFailing: set<string>, avifFailing: set<string>): (seq<Converted>, seq<string>)
  {
    if |files| == 0 then ([], [])
    else
      var before := Conversions(files[..|files| - 1], existing, webpFailing, avifFailing);
      var step := Process(files[|files| - 1], Seen(existing, before.0), webpFailing, avifFailing);
      (before.0 + step.0, before.1 + step.1)
  }

  /** The last file's step of the loop. */
  lemma ConversionsStep(files: seq<string>, existing: set<string>, webpFailing: set<string>, avifFailing: set<string>)
    requires |files| > 0
    ensures var n := |files| - 1;
      var before := Conversions(files[..n], existing, webpFailing, avifFailing);
      var step := Process(files[n], Seen(existing, before.0), webpFailing, avifFailing);
      Conversions(files, existing, webpFailing, avifFailing) == (before.0 + step.0, before.1 + step.1)
  {
  }

  /** The outputs recorded in `convertedFiles`, in order. */
  function AllOutputs(cs: seq<Converted>): seq<string> {
    if |cs| == 0 then [] else AllOutputs(cs[..|cs| - 1]) + Outputs(cs[|cs| - 1].webp, cs[|cs| - 1].avif)
  }

  lemma {:induction false} AllOutputsAppend(a: seq<Converted>, b: seq<Converted>)
    ensures AllOutputs(a + b) == AllOutputs(a) + AllOutputs(b)
    decreases |b|
  {
    if |b| == 0 {
      assert a + b == a;
    } else {
      var ab := a + b;
      assert ab[..|ab| - 1] == a + b[..|b| - 1];
      assert ab[|ab| - 1] == b[|b| - 1];
      AllOutputsAppend(a, b[..|b| - 1]);
    }
  }

  /** The outputs one file's entry records are the files it adds. */
  lemma ProcessOutputs(f: string, existing: set<string>, webpFailing: set<string>, avifFailing: set<string>)
    ensures var step := Process(f, existing, webpFailing, avifFailing);
      AllOutputs(step.0) == step.1
  {
    var step := Process(f, existing, webpFailing, avifFailing);
    if |step.0| == 1 {
      assert step.0[..0] == [];
    }
  }

  /** `modifiedFiles` holds exactly the new files the entries of `convertedFiles` record, in order. */
  lemma {:induction false} ConversionsRecorded(files: seq<string>, existing: set<string>, webpFailing: set<string>, avifFailing: set<string>)
    ensures var (converted, modified) := Conversions(files, existing, webpFailing, avifFailing);
      modified == AllOutputs(converted)
  {
    if |files| > 0 {
      var n := |files| - 1;
      var before := Conversions(files[..n], existing, webpFailing, avifFailing);
      var seen := Seen(existing, before.0);
      var step := Process(files[n], seen, webpFailing, avifFailing);
      ConversionsStep(files, existing, webpFailing, avifFailing);
      ConversionsRecorded(files[..n], existing, webpFailing, avifFailing);
      AllOutputsAppend(before.0, step.0);
      ProcessOutputs(files[n], seen, webpFailing, avifFailing);
    }
  }

  /**
   * Every entry of `convertedFiles` is one of the files found, a
   * conversion candidate, and has at least one new file; no new file
   * existed before.
   */
  lemma {:induction false} ConversionsAreCandidates(files: seq<string>, existing: set<string>, webpFailing: set<string>, avifFailing: set<string>)
    ensures var (converted, modified) := Conversions(files, existing, webpFailing, avifFailing);
      && (forall c :: c in converted ==> c.original in files && ShouldConvert(c.original) && (c.webp.Some? || c.avif.Some?))
      && (forall m :: m in modified ==> m !in existing)
  {
    if |files| > 0 {
      var n := |files| - 1;
      var before := Conversions(files[..n], existing, webpFailing, avifFailing);
      ConversionsAreCandidates(files[..n], existing, webpFailing, avifFailing);
      forall c | c in before.0 ensures c.original in files {
        assert c.original in files[..n];
      }
      var step := Process(files[n], Seen(existing, before.0), webpFailing, avifFailing);
      forall m | m in step.1 ensures m !in existing {
        SeenIff(existing, before.0, m);
      }
    }
  }

  /**
   * The summary's bounds: every record adds one or two new files, so
   * `convertedImages <= newFiles <= 2 * convertedImages`.
   */
  lemma {:induction false} SummaryBounds(files: seq<string>, existing: set<string>, webpFailing: set<string>, avifFailing: set<string>)
    ensures var r := Conversions(files, existing, webpFailing, avifFailing);
      |r.0| <= |r.1| <= 2 * |r.0|
  {
    if |files| > 0 {
      ConversionsStep(files, existing, webpFailing, avifFailing);
      SummaryBounds(files[..|files| - 1], existing, webpFailing, avifFailing);
    }
  }

  /** No two entries record the same AVIF copy. */
  predicate AvifDistinct(cs: seq<Converted>) {
    forall i, j :: 0 <= i < j < |cs| && cs[i].avif.Some? && cs[j].avif.Some? ==> cs[i].avif != cs[j].avif
  }

  /** An entry whose AVIF copy was not seen before keeps the copies distinct. */
  lemma AvifDistinctStep(before: seq<Converted>, step: seq<Converted>, seen: set<string>)
    requires AvifDistinct(before) && |step| <= 1
    requires forall i :: 0 <= i < |before| && before[i].avif.Some? ==> before[i].avif.value in seen
    requires forall c :: c in step && c.avif.Some? ==> c.avif.value !in seen
    ensures AvifDistinct(before + step)
  {
    var cs := before + step;
    forall i, j | 0 <= i < j < |cs| && cs[i].avif.Some? && cs[j].avif.Some?
      ensures cs[i].avif != cs[j].avif
    {
      if j >= |before| {
        assert cs[j] == step[0] && cs[i] == before[i];
      }
    }
  }

  /** An image's AVIF copy, when written, is one `fs.existsSync` did not see. */
  lemma ProcessAvifNew(f: string, seen: set<string>, webpFailing: set<string>, avifFailing: set<string>)
    ensures forall c :: c in Process(f, seen, webpFailing, avifFailing).0 && c.avif.Some? ==> c.avif.value !in seen
  {
  }

  /**
   * No AVIF copy is recorded twice: once `avifenc` has written
   * `<stem>.avif`, a later image with the same stem finds it and skips
   * its AVIF conversion.
   */
  lemma {:induction false} AvifOnce(files: seq<string>, existing: set<string>, webpFailing: set<string>, avifFailing: set<string>)
    ensures AvifDistinct(Conversions(files, existing, webpFailing, avifFailing).0)
  {
    if |files| > 0 {
      var n := |files| - 1;
      var before := Conversions(files[..n], existing, webpFailing, avifFailing);
      var seen := Seen(existing, before.0);
      ConversionsStep(files, existing, webpFailing, avifFailing);
      AvifOnce(files[..n], existing, webpFailing, avifFailing);
      forall i | 0 <= i < |before.0| && before.0[i].avif.Some?
        ensures before.0[i].avif.value in seen
      {
        SeenIff(existing, before.0, before.0[i].avif.value);
      }
      ProcessAvifNew(files[n], seen, webpFailing, avifFailing);
      AvifDistinctStep(before.0, Process(files[n], seen, webpFailing, avifFailing).0, seen);
    }
  }

  /** `jpg` and `png` are plain extensions among the WebP candidates. */
  lemma CandidateExtension(ext: string)
    requires ext == "jpg" || ext == "png"
    ensures |ext| > 0 && '.' !in ext && '/' !in ext && ToLower(ext) in WebpCandidates
  {
    assert ToLower("jpg") == "jpg" && ToLower("png") == "png";
  }

  /** `<stem>.jpg` and `<stem>.png` are candidates whose copies are `<stem>.webp` and `<stem>.avif`. */
  lemma SameStemOutputs(stem: string, ext: string)
    requires |stem| > 0 && '/' !in stem && |ext| > 0 && '.' !in ext && '/' !in ext && ToLower(ext) in WebpCandidates
    ensures ShouldConvert(stem + "." + ext)
    ensures ReplaceExtension(stem + "." + ext, "webp") == stem + ".webp"
    ensures ReplaceExtension(stem + "." + ext, "avif") == stem + ".avif"
  {
    ShouldConvertOf(stem, ext);
    ReplaceExtensionOf(stem, ext, "webp");
    ReplaceExtensionOf(stem, ext, "avif");
    OutputSuffixes();
    Regroup(stem, ".", "webp", ".webp");
    Regroup(stem, ".", "avif", ".avif");
  }

  lemma OutputSuffixes()
    ensures "." + "webp" == ".webp" && "." + "avif" == ".avif"
  {
  }

  lemma Regroup(a: string, b: string, c: string, bc: string)
    requires b + c == bc
    ensures a + b + c == a + bc
  {
  }

  lemma WebpNotAvif(stem: string)
    ensures stem + ".webp" != stem + ".avif"
  {
    assert (stem + ".webp")[|stem| + 1] == 'w';
    assert (stem + ".avif")[|stem| + 1] == 'a';
  }

  /** A candidate whose two copies are both absent, and whose conversions succeed, gets both. */
  lemma ProcessBoth(f: string, w: string, a: string, seen: set<string>)
    requires ShouldConvert(f) && ReplaceExtension(f, "webp") == w && ReplaceExtension(f, "avif") == a
    requires w !in seen && a !in seen
    ensures Process(f, seen, {}, {}) == ([Converted(f, Some(w), Some(a))], [w, a])
  {
    assert Convert(f, "webp", seen, {}) == Some(w);
    assert Convert(f, "avif", seen, {}) == Some(a);
    assert Outputs(Some(w), Some(a)) == [w, a];
  }

  /** A candidate whose AVIF copy is already there gets only the WebP copy. */
  lemma ProcessWebpOnly(f: string, w: string, a: string)
    requires ShouldConvert(f) && ReplaceExtension(f, "webp") == w && ReplaceExtension(f, "avif") == a
    requires w != a
    ensures Process(f, {a}, {}, {}) == ([Converted(f, Some(w), None)], [w])
  {
    assert Convert(f, "webp", {a}, {}) == Some(w);
    assert Convert(f, "avif", {a}, {}) == None;
    assert Outputs(Some(w), None) == [w];
  }

  /**
   * Two candidates whose copies have the same names, in a fresh
   * directory: both get the WebP copy, only the first gets the AVIF copy,
   * and `modifiedFiles` lists the WebP copy twice.
   */
  lemma SameCopies(f1: string, f2: string, w: string, a: string)
    requires ShouldConvert(f1) && ReplaceExtension(f1, "webp") == w && ReplaceExtension(f1, "avif") == a
    requires ShouldConvert(f2) && ReplaceExtension(f2, "webp") == w && ReplaceExtension(f2, "avif") == a
    requires w != a
    ensures Conversions([f1, f2], {}, {}, {}) ==
      ([Converted(f1, Some(w), Some(a))] + [Converted(f2, Some(w), None)], [w, a] + [w])
  {
    var c1, c2 := Converted(f1, Some(w), Some(a)), Converted(f2, Some(w), None);
    FirstOfTwo(f1, w, a);
    SeenAfterFirst(f1, w, a);
    ProcessWebpOnly(f2, w, a);
    SecondStep(f1, f2, ([c1], [w, a]), {a}, ([c2], [w]));
  }

  /** The first image of a fresh directory gets both copies. */
  lemma FirstOfTwo(f1: string, w: string, a: string)
    requires ShouldConvert(f1) && ReplaceExtension(f1, "webp") == w && ReplaceExtension(f1, "avif") == a
    ensures Conversions([f1], {}, {}, {}) == ([Converted(f1, Some(w), Some(a))], [w, a])
  {
    ProcessBoth(f1, w, a, {});
    SingleStep(f1, ([Converted(f1, Some(w), Some(a))], [w, a]));
  }

  /** After the first image, its AVIF copy is seen. */
  lemma SeenAfterFirst(f1: string, w: string, a: string)
    ensures Seen({}, [Converted(f1, Some(w), Some(a))]) == {a}
  {
    assert [Converted(f1, Some(w), Some(a))][..0] == [];
  }

  /** The loop over one file is that file's step. */
  lemma SingleStep(f: string, r: (seq<Converted>, seq<string>))
    requires Process(f, {}, {}, {}) == r
    ensures Conversions([f], {}, {}, {}) == r
  {
    ConversionsStep([f], {}, {}, {});
    assert [f][..0] == [];
    assert Conversions([], {}, {}, {}) == ([], []);
    assert Seen({}, []) == {};
    assert [] + r.0 == r.0 && [] + r.1 == r.1;
  }

  /** The loop over a second file adds that file's step, taken with the files seen after the first. */
  lemma SecondStep(f1: string, f2: string, r1: (seq<Converted>, seq<string>), seen: set<string>, r2: (seq<Converted>, seq<string>))
    requires Conversions([f1], {}, {}, {}) == r1
    requires Seen({}, r1.0) == seen
    requires Process(f2, seen, {}, {}) == r2
    ensures Conversions([f1, f2], {}, {}, {}) == (r1.0 + r2.0, r1.1 + r2.1)
  {
    ConversionsStep([f1, f2], {}, {}, {});
    assert [f1, f2][..1] == [f1];
  }

  /**
   * Two candidates with the same stem, such as `<stem>.jpg` and then
   * `<stem>.png`, in a fresh directory: both get the WebP copy
   * `<stem>.webp`, only the first gets `<stem>.avif`, and `modifiedFiles`
   * lists the WebP copy twice.
   */
  lemma SameStemImages(stem: string, e1: string, e2: string)
    requires |stem| > 0 && '/' !in stem
    requires |e1| > 0 && '.' !in e1 && '/' !in e1 && ToLower(e1) in WebpCandidates
    requires |e2| > 0 && '.' !in e2 && '/' !in e2 && ToLower(e2) in WebpCandidates
    ensures Conversions([stem + "." + e1, stem + "." + e2], {}, {}, {}) ==
      ([Converted(stem + "." + e1, Some(stem + ".webp"), Some(stem + ".avif"))]
         + [Converted(stem + "." + e2, Some(stem + ".webp"), None)],
       [stem + ".webp", stem + ".avif"] + [stem + ".webp"])
  {
    SameStemOutputs(stem, e1);
    SameStemOutputs(stem, e2);
    WebpNotAvif(stem);
    SameCopies(stem + "." + e1, stem + "." + e2, stem + ".webp", stem + ".avif");
  }

  /** One pass of the loop body: skip a non-candidate, else try both conversions. */
  method ProcessFile(f: string, existing: set<string>, webpFailing: set<string>, avifFailing: set<string>)
    returns (converted: seq<Converted>, modified: seq<string>)
    ensures (converted, modified) == Process(f, existing, webpFailing, avifFailing)
  {
    converted, modified := [], [];
    if !ShouldConvert(f) {
      return;
    }
    var w := Convert(f, "webp", existing, webpFailing);
    if w.Some? {
      modified := modified + [w.value];
    }
    ghost var webpPart := modified;
    assert webpPart == if w.Some? then [w.value] else [];
    var a := Convert(f, "avif", existing, avifFailing);
    if a.Some? {
      modified := modified + [a.value];
    }
    assert modified == webpPart + (if a.Some? then [a.value] else []);
    if w.Some? || a.Some? {
      converted := [Converted(f, w, a)];
    }
  }

  /**
   * `main()`: find the images, convert each candidate, and report the
   * summary; with no image found it stops before writing any result.
   */
  method ConvertAll(listing: Option<seq<Entry>>, srcDir: string, existing: set<string>, webpFailing: set<string>, avifFailing: set<string>)
    returns (summary: Option<Summary>, converted: seq<Converted>, modified: seq<string>)
    ensures var images := if listing.None? then [] else ImageFiles(srcDir, listing.value);
      && (converted, modified) == Conversions(images, existing, webpFailing, avifFailing)
      && (summary.None? <==> |images| == 0)
      && (summary.Some? ==> summary.value == Summary(|images|, |converted|, |modified|))
  {
    var imageFiles := FindImageFiles(srcDir, listing);
    converted, modified := [], [];
    summary := None;
    if |imageFiles| == 0 {
      return;
    }
    converted, modified := ConvertEach(imageFiles, existing, webpFailing, avifFailing);
    summary := Some(Summary(|imageFiles|, |converted|, |modified|));
  }

  /** The `for` loop of `main()` over the image files found. */
  method ConvertEach(imageFiles: seq<string>, existing: set<string>, webpFailing: set<string>, avifFailing: set<string>)
    returns (converted: seq<Converted>, modified: seq<string>)
    ensures (converted, modified) == Conversions(imageFiles, existing, webpFailing, avifFailing)
  {
    converted, modified := [], [];
    var onDisk := existing;
    var i := 0;
    while i < |imageFiles|
      invariant 0 <= i <= |imageFiles|
      invariant (converted, modified) == Conversions(imageFiles[..i], existing, webpFailing, avifFailing)
      invariant onDisk == Seen(existing, converted)
    {
      assert imageFiles[..i + 1][..i] == imageFiles[..i];
      ConversionsStep(imageFiles[..i + 1], existing, webpFailing, avifFailing);
      var c, m := ProcessFile(imageFiles[i], onDisk, webpFailing, avifFailing);
      SeenStep(existing, converted, c);
      if |c| == 1 && c[0].avif.Some? {
        onDisk := onDisk + {c[0].avif.value};
      }
      converted := converted + c;
      modified := modified + m;
      i := i + 1;
    }
    assert imageFiles[..i] == imageFiles;
  }
}
