/**
 * The deployment script s3-uploader.js: it compares the S3 bucket's keys
 * with the files under `package/`, deletes the keys that are gone or
 * must always be replaced, uploads the files that are new or must always
 * be replaced (at most ten at a time), and in production invalidates the
 * changed paths in CloudFront. The listing of the bucket, the requests
 * themselves and the file system are not part of this model: the bucket's
 * keys and the local files are parameters, and each request is a step.
 */
module S3Uploader {
  import opened Wrappers
  import opened Text
  import opened NodePath
  import HashNames
  import HashRecords

  // ---------------------------------------------------------------------
  // getContentType and getCacheControl

  /** The extensions `getContentType` names. */
  predicate Known(e: string) {
    e in {".json", ".zip", ".png", ".webp", ".gif", ".mpeg", ".webm", ".mp4", ".jpg", ".jpeg",
          ".html", ".htm", ".txt", ".xml", ".css", ".js", ".svg", ".gz", ".ico", ".mp3"}
  }

  /**
   * `getContentType(fileName)`: the MIME type sent with an upload; exactly
   * the files whose extension the table does not name go out as
   * `application/octet-stream`.
   */
  function ContentType(fileName: string): (r: string)
    ensures r == "application/octet-stream" <==> !Known(ExtName(fileName))
  {
    MimeTypeDefault(ExtName(fileName));
    MimeType(ExtName(fileName))
  }

  /** The `switch` on the extension. */
  function MimeType(e: string): string {
    var x := if |e| > 0 then e[1..] else "";
    if e == ".json" || e == ".zip" then "application/" + x
    else if e == ".png" || e == ".webp" || e == ".gif" then "image/" + x
    else if e == ".mpeg" || e == ".webm" || e == ".mp4" then "video/" + x
    else if e == ".jpg" || e == ".jpeg" then "image/jpeg"
    else if e == ".html" || e == ".htm" then "text/html; charset=UTF-8"
    else if e == ".txt" then "text/plain; charset=UTF-8"
    else if e == ".xml" then "application/xml; charset=UTF-8"
    else if e == ".css" then "text/css; charset=UTF-8"
    else if e == ".js" then "text/javascript; charset=UTF-8"
    else if e == ".svg" then "image/svg+xml"
    else if e == ".gz" then "application/gzip"
    else if e == ".ico" then "image/vnd.microsoft.icon"
    else if e == ".mp3" then "audio/mpeg"
    else "application/octet-stream"
  }

  /** The `switch` falls to `application/octet-stream` exactly for an extension it does not list. */
  lemma MimeTypeDefault(e: string)
    ensures MimeType(e) == "application/octet-stream" <==> !Known(e)
  {
    if e == ".json" || e == ".zip" || e == ".png" || e == ".webp" || e == ".gif" {
      NamedJsonToGif(e);
    } else if e == ".mpeg" || e == ".webm" || e == ".mp4" || e == ".jpg" || e == ".jpeg" {
      NamedMpegToJpeg(e);
    } else if e == ".html" || e == ".htm" || e == ".txt" || e == ".xml" || e == ".css" {
      NamedHtmlToCss(e);
    } else if e == ".js" || e == ".svg" || e == ".gz" || e == ".ico" || e == ".mp3" {
      NamedJsToMp3(e);
    }
  }

  // Each extension the table names, five at a time, gets a type of its own.

  lemma NamedJsonToGif(e: string)
    requires e == ".json" || e == ".zip" || e == ".png" || e == ".webp" || e == ".gif"
    ensures MimeType(e) != "application/octet-stream"
  {
  }

  lemma NamedMpegToJpeg(e: string)
    requires e == ".mpeg" || e == ".webm" || e == ".mp4" || e == ".jpg" || e == ".jpeg"
    ensures MimeType(e) != "application/octet-stream"
  {
  }

  lemma NamedHtmlToCss(e: string)
    requires e == ".html" || e == ".htm" || e == ".txt" || e == ".xml" || e == ".css"
    ensures MimeType(e) != "application/octet-stream"
  {
  }

  lemma NamedJsToMp3(e: string)
    requires e == ".js" || e == ".svg" || e == ".gz" || e == ".ico" || e == ".mp3"
    ensures MimeType(e) != "application/octet-stream"
  {
  }

  const NoCache := "no-cache,no-store"
  const LongCache := "max-age=15552000,public"

  /**
   * `getCacheControl(fileName)`, with its eight cases as written. The four
   * `.<type>.gz` cases can never equal an extension, which holds one `.`,
   * so only the four single extensions turn caching off.
   */
  function CacheControl(fileName: string): (r: string)
    ensures r == NoCache <==> ExtName(fileName) in {".html", ".xml", ".json", ".txt"}
    ensures r == NoCache || r == LongCache
  {
    var e := ExtName(fileName);
    if e == ".html" || e == ".html.gz" || e == ".xml" || e == ".xml.gz" ||
       e == ".json" || e == ".json.gz" || e == ".txt" || e == ".txt.gz"
    then NoCache
    else LongCache
  }

  /**
   * A gzipped page, which the build writes beside each page, is cached
   * for 180 days, whatever directory the uploader's path names it under.
   */
  lemma GzippedPageLongLived(dir: string, name: string)
    requires '/' !in name
    ensures CacheControl(dir + "/" + name + ".html.gz") == LongCache
  {
    var p := name + ".html.gz";
    GzippedName(name);
    ExtNameJoin(dir, p);
    assert dir + "/" + name + ".html.gz" == dir + "/" + p;
  }

  /** The base name `<name>.html.gz` holds no `/` and has the extension `.gz`. */
  lemma GzippedName(name: string)
    requires '/' !in name
    ensures '/' !in name + ".html.gz" && ExtName(name + ".html.gz") == ".gz"
  {
    var p := name + ".html.gz";
    var k := |name| + 5;
    assert p[k..] == ".gz";
    assert forall j :: k < j < |p| ==> p[j] == ".gz"[j - k];
    assert '/' !in p by {
      forall j | 0 <= j < |p| ensures p[j] != '/' {
        if j < |name| { assert p[j] == name[j]; } else { assert p[j] == ".html.gz"[j - |name|]; }
      }
    }
    ExtNameAt(p, k);
  }

  const NoCacheSuffixes: seq<string> := [".html", ".html.gz", ".xml", ".xml.gz", ".json", ".json.gz", ".txt", ".txt.gz"]

  /** Whether `f` ends with one of `suffixes`. */
  predicate EndsWithAny(f: string, suffixes: seq<string>) {
    exists i :: 0 <= i < |suffixes| && EndsWith(f, suffixes[i])
  }

  /** The rule the eight cases evidently intend: match the end of the name, so compressed pages are not cached either. */
  function CacheControlBySuffix(fileName: string): (r: string)
    ensures r == NoCache <==> EndsWithAny(fileName, NoCacheSuffixes)
  {
    if EndsWithAny(fileName, NoCacheSuffixes) then NoCache else LongCache
  }

  /** Under that rule a gzipped page is not cached. */
  lemma GzippedPageNotCached(name: string)
    ensures CacheControlBySuffix(name + ".html.gz") == NoCache
  {
    var f := name + ".html.gz";
    assert EndsWith(f, NoCacheSuffixes[1]);
  }

  // ---------------------------------------------------------------------
  // alwaysSwapFiles and the two lists

  const SwapSuffixes: seq<string> := [".html", ".html.gz", ".xml", ".xml.gz", ".json", ".json.gz", ".txt", ".ico"]

  /** How many of `suffixes` end `f` (the length of the filtered regular-expression list). */
  function MatchCount(f: string, suffixes: seq<string>): (n: nat)
    ensures n <= |suffixes|
    ensures n > 0 <==> EndsWithAny(f, suffixes)
  {
    if |suffixes| == 0 then 0
    else
      var rest := MatchCount(f, suffixes[1..]);
      assert EndsWithAny(f, suffixes) <==> EndsWith(f, suffixes[0]) || EndsWithAny(f, suffixes[1..]) by {
        if EndsWithAny(f, suffixes[1..]) {
          var i :| 0 <= i < |suffixes[1..]| && EndsWith(f, suffixes[1..][i]);
          assert suffixes[1..][i] == suffixes[i + 1];
        }
        if EndsWithAny(f, suffixes) && !EndsWith(f, suffixes[0]) {
          var i :| 0 <= i < |suffixes| && EndsWith(f, suffixes[i]);
          assert suffixes[i] == suffixes[1..][i - 1];
        }
      }
      (if EndsWith(f, suffixes[0]) then 1 else 0) + rest
  }

  /** `alwaysSwapFiles(fileName)`: non-zero for the files that are replaced on every deployment. */
  function AlwaysSwap(f: string): nat {
    MatchCount(f, SwapSuffixes)
  }

  /** A suffix of a key is a suffix of the key's local path. */
  lemma EndsWithAnyPrefixed(pkg: string, k: string, suffixes: seq<string>)
    requires EndsWithAny(k, suffixes)
    ensures EndsWithAny(pkg + k, suffixes)
  {
    var i :| 0 <= i < |suffixes| && EndsWith(k, suffixes[i]);
    var p := pkg + k;
    assert p[|p| - |suffixes[i]|..] == k[|k| - |suffixes[i]|..];
  }

  /** A file under `package/` as the glob lists it. */
  datatype LocalFile = LocalFile(path: string, isDirectory: bool)

  /** `packageGlob.includes(p)` */
  predicate Globbed(glob: seq<LocalFile>, p: string) {
    exists i :: 0 <= i < |glob| && glob[i].path == p
  }

  /** `fileName.replace(dir.package, '')`: the S3 key of a local file. */
  function KeyOf(path: string, pkg: string): string {
    ReplaceFirst(path, pkg, "")
  }

  /** The S3 keys to delete: absent locally, or always replaced. */
  function DeleteList(s3Keys: seq<string>, glob: seq<LocalFile>, pkg: string): (r: seq<string>)
    ensures |r| <= |s3Keys|
    ensures forall k :: k in r <==> k in s3Keys && (!Globbed(glob, pkg + k) || AlwaysSwap(k) > 0)
  {
    if |s3Keys| == 0 then []
    else
      var rest := DeleteList(s3Keys[1..], glob, pkg);
      assert forall k :: k in s3Keys <==> k == s3Keys[0] || k in s3Keys[1..];
      var k := s3Keys[0];
      if !Globbed(glob, pkg + k) || AlwaysSwap(k) > 0 then [k] + rest else rest
  }

  /** The local files to upload: not directories, and absent from S3 or always replaced. */
  function UploadList(s3Keys: seq<string>, glob: seq<LocalFile>, pkg: string): (r: seq<string>)
    ensures |r| <= |glob|
    ensures forall p :: p in r <==>
      LocalFile(p, false) in glob && (KeyOf(p, pkg) !in s3Keys || AlwaysSwap(p) > 0)
  {
    if |glob| == 0 then []
    else
      var rest := UploadList(s3Keys, glob[1..], pkg);
      assert forall f :: f in glob <==> f == glob[0] || f in glob[1..];
      var f := glob[0];
      if !f.isDirectory && (KeyOf(f.path, pkg) !in s3Keys || AlwaysSwap(f.path) > 0) then [f.path] + rest else rest
  }

  /** Every path the glob gives lies under `package/`. */
  predicate UnderPackage(glob: seq<LocalFile>, pkg: string) {
    forall i :: 0 <= i < |glob| ==> StartsWith(glob[i].path, pkg)
  }

  /** The bucket's keys once the deletions and uploads are done. */
  function KeysAfter(s3Keys: seq<string>, glob: seq<LocalFile>, pkg: string): set<string> {
    var deleted := DeleteList(s3Keys, glob, pkg);
    (set k | k in s3Keys && k !in deleted) + (set p | p in UploadList(s3Keys, glob, pkg) :: KeyOf(p, pkg))
  }

  /** Every local file ends up in the bucket under its key. */
  lemma SyncCoversLocalFiles(s3Keys: seq<string>, glob: seq<LocalFile>, pkg: string, k: string)
    requires LocalFile(pkg + k, false) in glob
    ensures k in KeysAfter(s3Keys, glob, pkg)
  {
    ReplaceFirstPrefix(pkg, k, "");
    assert "" + k == k;
    assert KeyOf(pkg + k, pkg) == k;
    var i :| 0 <= i < |glob| && glob[i] == LocalFile(pkg + k, false);
    assert Globbed(glob, pkg + k);
    if k in s3Keys && AlwaysSwap(k) > 0 {
      EndsWithAnyPrefixed(pkg, k, SwapSuffixes);
    }
  }

  /** An uploaded file's path is its package prefix followed by its key. */
  lemma UploadedUnderPackage(s3Keys: seq<string>, glob: seq<LocalFile>, pkg: string, p: string)
    requires UnderPackage(glob, pkg)
    requires p in UploadList(s3Keys, glob, pkg)
    ensures Globbed(glob, pkg + KeyOf(p, pkg))
  {
    var i :| 0 <= i < |glob| && glob[i] == LocalFile(p, false);
    assert StartsWith(glob[i].path, pkg);
    var rest := p[|pkg|..];
    assert pkg + rest == p;
    ReplaceFirstPrefix(pkg, rest, "");
    assert "" + rest == rest;
  }

  /** Every key left in the bucket names something under `package/`. */
  lemma SyncOnlyLocalFiles(s3Keys: seq<string>, glob: seq<LocalFile>, pkg: string, k: string)
    requires UnderPackage(glob, pkg)
    requires k in KeysAfter(s3Keys, glob, pkg)
    ensures Globbed(glob, pkg + k)
  {
    var deleted := DeleteList(s3Keys, glob, pkg);
    var uploads := UploadList(s3Keys, glob, pkg);
    if !(k in s3Keys && k !in deleted) {
      assert k in (set p | p in uploads :: KeyOf(p, pkg));
      var p :| p in uploads && KeyOf(p, pkg) == k;
      UploadedUnderPackage(s3Keys, glob, pkg, p);
    }
  }

  /** A key that must always be replaced is deleted and, when it exists locally, uploaded again. */
  lemma AlwaysSwappedRefreshed(s3Keys: seq<string>, glob: seq<LocalFile>, pkg: string, k: string)
    requires k in s3Keys && AlwaysSwap(k) > 0
    ensures k in DeleteList(s3Keys, glob, pkg)
    ensures LocalFile(pkg + k, false) in glob ==> pkg + k in UploadList(s3Keys, glob, pkg)
  {
    EndsWithAnyPrefixed(pkg, k, SwapSuffixes);
  }

  /** A file present on both sides and not always replaced is left alone. */
  lemma UnchangedFileUntouched(s3Keys: seq<string>, glob: seq<LocalFile>, pkg: string, k: string)
    requires k in s3Keys && LocalFile(pkg + k, false) in glob
    requires AlwaysSwap(k) == 0 && AlwaysSwap(pkg + k) == 0
    ensures k !in DeleteList(s3Keys, glob, pkg)
    ensures pkg + k !in UploadList(s3Keys, glob, pkg)
  {
    ReplaceFirstPrefix(pkg, k, "");
    assert "" + k == k;
    var i :| 0 <= i < |glob| && glob[i] == LocalFile(pkg + k, false);
    assert Globbed(glob, pkg + k);
  }

  // ---------------------------------------------------------------------
  // invalidateCloudFront

  /** `k.startsWith('/') ? k : '/' + k` */
  function Rooted(k: string): (r: string)
    ensures StartsWith(r, "/")
  {
    if StartsWith(k, "/") then k else "/" + k
  }

  /** No two slashes stand next to each other. */
  predicate NoDoubleSlash(t: string) {
    forall i :: 0 <= i < |t| - 1 ==> !(t[i] == '/' && t[i + 1] == '/')
  }

  /** `k.replace(/\/+/g, '/')`: each run of slashes becomes one slash. */
  function CollapseSlashes(s: string): (r: string)
    ensures NoDoubleSlash(r)
    ensures |s| > 0 ==> |r| > 0 && r[0] == s[0]
    ensures '/' !in s ==> r == s
    decreases |s|
  {
    if |s| == 0 then ""
    else if |s| >= 2 && s[0] == '/' && s[1] == '/' then CollapseSlashes(s[1..])
    else
      var t := CollapseSlashes(s[1..]);
      var r := [s[0]] + t;
      assert forall i :: 0 < i < |r| - 1 ==> r[i] == t[i - 1] && r[i + 1] == t[i];
      r
  }

  /** The invalidation path of a changed key. */
  function InvalidationPath(k: string): (r: string)
    ensures StartsWith(r, "/") && NoDoubleSlash(r)
  {
    CollapseSlashes(Rooted(k))
  }

  /** `Array.from(new Set(xs))`: each value once, where it first occurs. */
  function Dedup(xs: seq<string>): (r: seq<string>)
    ensures |r| <= |xs|
    ensures HashRecords.Distinct(r)
    ensures forall x :: x in r <==> x in xs
  {
    if |xs| == 0 then []
    else
      var n := |xs| - 1;
      var d := Dedup(xs[..n]);
      assert forall x :: x in xs <==> x in xs[..n] || x == xs[n];
      if xs[n] in d then d else d + [xs[n]]
  }

  /** The `Paths` of an invalidation batch. */
  datatype InvalidationPaths = InvalidationPaths(quantity: nat, items: seq<string>)

  const MaxPaths := 1000

  /** The changed keys as invalidation paths, each once. */
  function ChangedPaths(keys: seq<string>): (r: seq<string>)
    ensures |r| == |keys| && forall i :: 0 <= i < |keys| ==> r[i] == InvalidationPath(keys[i])
  {
    if |keys| == 0 then [] else [InvalidationPath(keys[0])] + ChangedPaths(keys[1..])
  }

  /** Every changed path is rooted and has no doubled slash. */
  lemma ChangedPathsWellFormed(keys: seq<string>)
    ensures forall x :: x in ChangedPaths(keys) ==> StartsWith(x, "/") && NoDoubleSlash(x)
  {
    var paths := ChangedPaths(keys);
    forall x | x in paths ensures StartsWith(x, "/") && NoDoubleSlash(x) {
      var i :| 0 <= i < |paths| && paths[i] == x;
    }
  }

  /** The wildcard when nothing changed, and at most the first 1000 paths otherwise. */
  function Capped(items: seq<string>): (r: seq<string>)
    ensures 1 <= |r| <= MaxPaths
    ensures |items| == 0 ==> r == ["/*"]
    ensures 0 < |items| <= MaxPaths ==> r == items
    ensures |items| > 0 ==> r <= items
    ensures HashRecords.Distinct(items) ==> HashRecords.Distinct(r)
  {
    if |items| == 0 then ["/*"]
    else if |items| > MaxPaths then items[..MaxPaths]
    else items
  }

  /** The paths `invalidateCloudFront(changedKeys)` sends. */
  function Invalidation(keys: seq<string>): (p: InvalidationPaths)
    ensures p.quantity == |p.items|
    ensures 1 <= |p.items| <= MaxPaths
    ensures HashRecords.Distinct(p.items)
    ensures forall i :: 0 <= i < |p.items| ==> StartsWith(p.items[i], "/") && NoDoubleSlash(p.items[i])
    ensures |keys| == 0 ==> p.items == ["/*"]
  {
    var items := Dedup(ChangedPaths(keys));
    var chosen := Capped(items);
    ChangedPathsWellFormed(keys);
    assert forall i :: 0 <= i < |chosen| ==> chosen[i] == "/*" || chosen[i] in items;
    assert "/*"[0] == '/' && "/*"[1] == '*';
    InvalidationPaths(|chosen|, chosen)
  }

  /** Every item invalidated is the path of a changed key, unless no key changed. */
  lemma InvalidationFromKeys(keys: seq<string>)
    requires |keys| > 0
    ensures forall x :: x in Invalidation(keys).items ==> exists k :: k in keys && InvalidationPath(k) == x
  {
    var paths := ChangedPaths(keys);
    forall x | x in Invalidation(keys).items ensures exists k :: k in keys && InvalidationPath(k) == x {
      assert x in Dedup(paths);
      var i :| 0 <= i < |paths| && paths[i] == x;
      assert keys[i] in keys;
    }
  }

  /** When at most 1000 distinct paths changed, every changed key is invalidated. */
  lemma InvalidationCovers(keys: seq<string>)
    requires |Dedup(ChangedPaths(keys))| <= MaxPaths
    ensures forall k :: k in keys ==> InvalidationPath(k) in Invalidation(keys).items
  {
    var paths := ChangedPaths(keys);
    if |keys| > 0 {
      assert paths[0] in Dedup(paths);
      assert Invalidation(keys).items == Dedup(paths);
      forall k | k in keys ensures InvalidationPath(k) in Dedup(paths) {
        var i :| 0 <= i < |keys| && keys[i] == k;
        assert paths[i] == InvalidationPath(k);
      }
    }
  }

  // ---------------------------------------------------------------------
  // The deployment

  /** `bucketName` */
  function Bucket(production: bool): string {
    if production then "www.briananders.com" else "staging.briananders.com"
  }

  /** `deleteS3Files(list)`: no request at all for an empty list, which resolves to `[]`. */
  datatype DeleteCall = NoRequest | DeleteObjects(keys: seq<string>)

  function DeleteS3Files(keys: seq<string>): (c: DeleteCall)
    ensures c.NoRequest? <==> |keys| == 0
    ensures c.DeleteObjects? ==> c.keys == keys
  {
    if |keys| == 0 then NoRequest else DeleteObjects(keys)
  }

  /** What one deployment asks of S3 and CloudFront, in order. */
  datatype Deployment = Deployment(
    bucket: string, delete: DeleteCall, uploads: seq<string>, invalidation: Option<InvalidationPaths>)

  /** The chain after the bucket listing: delete, upload, then invalidate in production only. */
  function Deploy(production: bool, s3Keys: seq<string>, glob: seq<LocalFile>, pkg: string): (d: Deployment)
    ensures d.bucket == Bucket(production)
    ensures d.uploads == UploadList(s3Keys, glob, pkg)
    ensures d.delete == DeleteS3Files(DeleteList(s3Keys, glob, pkg))
    ensures d.invalidation.Some? <==> production
    ensures production ==> d.invalidation.value == Invalidation(ChangedKeys(s3Keys, glob, pkg))
  {
    var deleted := DeleteList(s3Keys, glob, pkg);
    var uploads := UploadList(s3Keys, glob, pkg);
    Deployment(Bucket(production), DeleteS3Files(deleted), uploads,
               if production then Some(Invalidation(ChangedKeys(s3Keys, glob, pkg))) else None)
  }

  /** `toUploadList.map((p) => p.replace(dir.package, ''))` */
  function UploadKeys(uploads: seq<string>, pkg: string): (r: seq<string>)
    ensures |r| == |uploads| && forall i :: 0 <= i < |uploads| ==> r[i] == KeyOf(uploads[i], pkg)
  {
    if |uploads| == 0 then [] else [KeyOf(uploads[0], pkg)] + UploadKeys(uploads[1..], pkg)
  }

  /** `Array.from(new Set([...s3DeleteList, ...changedUploadKeys]))` */
  function ChangedKeys(s3Keys: seq<string>, glob: seq<LocalFile>, pkg: string): seq<string> {
    Dedup(DeleteList(s3Keys, glob, pkg) + UploadKeys(UploadList(s3Keys, glob, pkg), pkg))
  }

  /** Every deleted key and every uploaded file's key is among the changed keys. */
  lemma ChangedKeysCover(s3Keys: seq<string>, glob: seq<LocalFile>, pkg: string)
    ensures forall k :: k in DeleteList(s3Keys, glob, pkg) ==> k in ChangedKeys(s3Keys, glob, pkg)
    ensures forall p :: p in UploadList(s3Keys, glob, pkg) ==> KeyOf(p, pkg) in ChangedKeys(s3Keys, glob, pkg)
  {
    var uploads := UploadList(s3Keys, glob, pkg);
    MergedCovers(DeleteList(s3Keys, glob, pkg), uploads, pkg);
  }

  lemma MergedCovers(deleted: seq<string>, uploads: seq<string>, pkg: string)
    ensures forall k :: k in deleted ==> k in Dedup(deleted + UploadKeys(uploads, pkg))
    ensures forall p :: p in uploads ==> KeyOf(p, pkg) in Dedup(deleted + UploadKeys(uploads, pkg))
  {
    var keys := UploadKeys(uploads, pkg);
    forall p | p in uploads ensures KeyOf(p, pkg) in keys {
      var i :| 0 <= i < |uploads| && uploads[i] == p;
      assert keys[i] == KeyOf(p, pkg);
    }
  }

  /**
   * In production, when at most 1000 paths changed, every deleted key
   * and every uploaded file's key is invalidated.
   */
  lemma ChangesInvalidated(s3Keys: seq<string>, glob: seq<LocalFile>, pkg: string)
    requires |Dedup(ChangedPaths(ChangedKeys(s3Keys, glob, pkg)))| <= MaxPaths
    ensures var items := Deploy(true, s3Keys, glob, pkg).invalidation.value.items;
      && (forall k :: k in DeleteList(s3Keys, glob, pkg) ==> InvalidationPath(k) in items)
      && (forall p :: p in UploadList(s3Keys, glob, pkg) ==> InvalidationPath(KeyOf(p, pkg)) in items)
  {
    var keys := ChangedKeys(s3Keys, glob, pkg);
    InvalidationCovers(keys);
    ChangedKeysCover(s3Keys, glob, pkg);
  }

  // ---------------------------------------------------------------------
  // uploadFiles

  /** How the promise of `uploadFiles` settles. */
  datatype Settled = Resolved(results: seq<Option<string>>) | Rejected

  function Min(a: int, b: int): int {
    if a < b then a else b
  }

  /**
   * The state of `uploadFiles(fileList, concurrency)`: the next index to
   * start, the number of uploads in flight and the results array. Each
   * upload that finishes is a call of `Complete`, each that fails a call
   * of `Fail`; both run whenever the uploads happen to end.
   */
  class Uploads {
    const files: seq<string>
    const pkg: string
    const concurrency: nat
    var index: nat
    var inFlight: nat
    var results: seq<Option<string>>
    var settled: Option<Settled>
    /** The uploads started and not yet ended: the promises still outstanding. */
    var pending: set<nat>
    /** The uploads that failed; `.catch(reject)` never lowers `inFlight` for them. */
    ghost var failed: set<nat>

    /** The bookkeeping that holds at every step of `schedule()`. */
    ghost predicate Counted()
      reads this
    {
      && |results| == |files|
      && index <= |files|
      && (forall j :: j in pending ==> j < index)
      && (forall j :: j in failed ==> j < index)
      && pending !! failed
      && inFlight == |pending| + |failed|
      && (forall j :: 0 <= j < |files| ==> (results[j].Some? <==> j < index && j !in pending && j !in failed))
      && (forall j :: 0 <= j < |files| && results[j].Some? ==> results[j].value == KeyOf(files[j], pkg))
    }

    ghost predicate Valid()
      reads this
    {
      && Counted()
      && inFlight <= concurrency
      && (inFlight < concurrency ==> index == |files|)
      && (index == |files| && inFlight == 0 ==> settled == Some(Resolved(results)))
      && (settled.Some? && settled.value.Resolved? ==> index == |files| && inFlight == 0)
      && (settled == Some(Rejected) <==> failed != {})
    }

    /** `uploadFiles(fileList, concurrency)`: set up, then the first `schedule()`. */
    constructor (fileList: seq<string>, pkg: string, concurrency: nat)
      ensures Valid()
      ensures files == fileList && this.pkg == pkg && this.concurrency == concurrency
      ensures index == Min(|fileList|, concurrency) && inFlight == index && failed == {}
      ensures forall j: nat :: j in pending <==> j < index
      ensures settled == if |fileList| == 0 then Some(Resolved([])) else None
    {
      files := fileList;
      this.pkg := pkg;
      this.concurrency := concurrency;
      index := 0;
      inFlight := 0;
      results := seq(|fileList|, j => None);
      settled := None;
      pending := {};
      failed := {};
      new;
      if |files| == 0 {
        settled := Some(Resolved(results));
      }
      StartUploads();
    }

    /** The `while` loop of `schedule()`: start uploads until `concurrency` are in flight or none is left. */
    method StartUploads()
      requires Counted() && inFlight <= concurrency
      modifies this
      ensures Counted()
      ensures index == Min(|files|, old(index) + (concurrency - old(inFlight)))
      ensures inFlight == old(inFlight) + (index - old(index))
      ensures forall j :: j in pending <==> j in old(pending) || old(index) <= j < index
      ensures failed == old(failed) && results == old(results) && settled == old(settled)
    {
      while inFlight < concurrency && index < |files|
        invariant Counted()
        invariant old(index) <= index && inFlight <= concurrency
        invariant inFlight == old(inFlight) + (index - old(index))
        invariant forall j :: j in pending <==> j in old(pending) || old(index) <= j < index
        invariant failed == old(failed) && results == old(results) && settled == old(settled)
        decreases |files| - index
      {
        pending := pending + {index};
        index := index + 1;
        inFlight := inFlight + 1;
      }
    }

    /** Upload `i` resolved with its key: store it, lower `inFlight`, and schedule again. */
    method Complete(i: nat)
      requires Valid() && i in pending
      modifies this
      ensures Valid()
      ensures results == old(results)[i := Some(KeyOf(files[i], pkg))]
      ensures forall j :: j in pending <==> (j in old(pending) && j != i) || old(index) <= j < index
      ensures failed == old(failed)
      ensures index == Min(|files|, old(index) + 1)
      ensures inFlight == old(inFlight) - 1 + (index - old(index))
      ensures settled == if old(settled).None? && index == |files| && inFlight == 0 then Some(Resolved(results)) else old(settled)
    {
      results := results[i := Some(KeyOf(files[i], pkg))];
      inFlight := inFlight - 1;
      pending := pending - {i};
      if index >= |files| && inFlight == 0 {
        if settled.None? {
          settled := Some(Resolved(results));
        }
        return;
      }
      StartUploads();
    }

    /** Upload `i` rejected: the promise rejects if it has not settled yet. */
    method Fail(i: nat)
      requires Valid() && i in pending
      modifies this
      ensures Valid()
      ensures pending == old(pending) - {i} && failed == old(failed) + {i}
      ensures index == old(index) && inFlight == old(inFlight) && results == old(results)
      ensures settled == Some(Rejected)
    {
      pending := pending - {i};
      failed := failed + {i};
      if settled.None? {
        settled := Some(Rejected);
      }
    }

    /**
     * When no upload fails and `concurrency` is at least one, completing
     * the uploads in flight, in whatever order they end, resolves the
     * promise with every file's key at its own index.
     */
    method CompleteAll()
      requires Valid() && failed == {} && (concurrency > 0 || |files| == 0)
      modifies this
      ensures Valid() && settled == Some(Resolved(results))
      ensures forall j :: 0 <= j < |files| ==> results[j] == Some(KeyOf(files[j], pkg))
    {
      while pending != {}
        invariant Valid() && failed == {}
        decreases 2 * (|files| - index) + inFlight
      {
        var i :| i in pending;
        Complete(i);
      }
    }

    /** Once the promise resolves, `results[i]` is the key of `fileList[i]` for every `i`. */
    lemma ResolvedResults()
      requires Valid() && settled.Some? && settled.value.Resolved?
      ensures |settled.value.results| == |files|
      ensures forall j :: 0 <= j < |files| ==> settled.value.results[j] == Some(KeyOf(files[j], pkg))
    {
      assert pending == {} && failed == {};
    }

    /** Without a failure, the promise can only stay pending with nothing in flight when `concurrency` is zero. */
    lemma StallsOnlyWithoutConcurrency()
      requires Valid() && pending == {} && failed == {} && settled.None?
      ensures concurrency == 0 && |files| > 0
    {
    }
  }
}
