/**
 * The screenshot utilities of test/screenshots/utils/screenshot-comparison.js:
 * pairing the local and live screenshots of each page and viewport,
 * the size report built from them, and the clean-up that keeps the five
 * newest screenshots of each page and viewport. The directory listing,
 * the file sizes, the filename pattern and the parsing of timestamps are
 * parameters; dates are plain numbers (milliseconds).
 */
module ScreenshotComparison {
  import opened Wrappers
  import opened OrderedDict

  /** The `(local|live)` part of a screenshot's name. */
  datatype Kind = Local | Live

  /** The four groups of `/^(.+)-(.+)-(local|live)-(.+)\.png$/`. */
  datatype Shot = Shot(name: string, viewport: string, kind: Kind, timestamp: string)

  /** The group key `${name}-${viewport}`. */
  function Key(s: Shot): string {
    s.name + "-" + s.viewport
  }

  /** `path.join(dir, file)` for a file name read from `dir`. */
  function PathJoin(dir: string, file: string): string {
    dir + "/" + file
  }

  // ---------------------------------------------------------------------
  // getComparisonFiles

  /** An entry of `grouped`: the first file's name, viewport and timestamp, and a path per kind. */
  datatype Comparison = Comparison(
    name: string, viewport: string, timestamp: string, local: Option<string>, live: Option<string>)

  /** `grouped[key][type] = path`. */
  function WithPath(c: Comparison, kind: Kind, p: string): Comparison {
    match kind
    case Local => c.(local := Some(p))
    case Live => c.(live := Some(p))
  }

  /** `grouped` after the `forEach` over `files`. */
  function Grouped(files: seq<string>, parse: string -> Option<Shot>, dir: string): Dict<Comparison> {
    if |files| == 0 then []
    else
      var g := Grouped(files[..|files| - 1], parse, dir);
      var f := files[|files| - 1];
      match parse(f)
      case None => g
      case Some(s) =>
        var start := Get(g, Key(s));
        var c := if start.Some? then start.value else Comparison(s.name, s.viewport, s.timestamp, None, None);
        Put(g, Key(s), WithPath(c, s.kind, PathJoin(dir, f)))
  }

  /** The first screenshot seen with key `k`. */
  function FirstShot(files: seq<string>, parse: string -> Option<Shot>, k: string): (r: Option<Shot>)
    ensures r.Some? ==> Key(r.value) == k
  {
    if |files| == 0 then None
    else
      var before := FirstShot(files[..|files| - 1], parse, k);
      var s := parse(files[|files| - 1]);
      if before.Some? then before
      else if s.Some? && Key(s.value) == k then s
      else None
  }

  /** The path of the last screenshot of kind `kind` seen with key `k`. */
  function LastPath(files: seq<string>, parse: string -> Option<Shot>, dir: string, k: string, kind: Kind): Option<string> {
    if |files| == 0 then None
    else
      var f := files[|files| - 1];
      var s := parse(f);
      if s.Some? && Key(s.value) == k && s.value.kind == kind then Some(PathJoin(dir, f))
      else LastPath(files[..|files| - 1], parse, dir, k, kind)
  }

  /** The entry of key `k` described without `grouped`: first file's fields, last path of each kind. */
  function Expected(files: seq<string>, parse: string -> Option<Shot>, dir: string, k: string): Option<Comparison> {
    var first := FirstShot(files, parse, k);
    if first.None? then None
    else Some(Comparison(first.value.name, first.value.viewport, first.value.timestamp,
                         LastPath(files, parse, dir, k, Local), LastPath(files, parse, dir, k, Live)))
  }

  /**
   * A group is created by the first matching file of its key, which
   * gives its name, viewport and timestamp; a later file of the same
   * kind overwrites that kind's path; files that do not match are
   * ignored.
   */
  lemma {:induction false} GroupedIsExpected(files: seq<string>, parse: string -> Option<Shot>, dir: string, k: string)
    ensures Get(Grouped(files, parse, dir), k) == Expected(files, parse, dir, k)
  {
    if |files| > 0 {
      var n := |files| - 1;
      var g := Grouped(files[..n], parse, dir);
      GroupedIsExpected(files[..n], parse, dir, k);
      var s := parse(files[n]);
      if s.Some? {
        var start := Get(g, Key(s.value));
        var c := if start.Some? then start.value else Comparison(s.value.name, s.value.viewport, s.value.timestamp, None, None);
        GetPut(g, Key(s.value), WithPath(c, s.value.kind, PathJoin(dir, files[n])), k);
        if Key(s.value) == k && start.None? {
          NoShotNoPath(files[..n], parse, dir, k, Local);
          NoShotNoPath(files[..n], parse, dir, k, Live);
        }
      }
    }
  }

  /** Before the first screenshot of a key there is no path of that key. */
  lemma {:induction false} NoShotNoPath(files: seq<string>, parse: string -> Option<Shot>, dir: string, k: string, kind: Kind)
    requires FirstShot(files, parse, k).None?
    ensures LastPath(files, parse, dir, k, kind).None?
  {
    if |files| > 0 {
      NoShotNoPath(files[..|files| - 1], parse, dir, k, kind);
    }
  }

  /** Each key appears once in `grouped`. */
  lemma {:induction false} GroupedDistinct(files: seq<string>, parse: string -> Option<Shot>, dir: string)
    ensures DistinctKeys(Grouped(files, parse, dir))
  {
    if |files| > 0 {
      var n := |files| - 1;
      var g := Grouped(files[..n], parse, dir);
      GroupedDistinct(files[..n], parse, dir);
      var s := parse(files[n]);
      if s.Some? {
        var start := Get(g, Key(s.value));
        var c := if start.Some? then start.value else Comparison(s.value.name, s.value.viewport, s.value.timestamp, None, None);
        PutDistinct(g, Key(s.value), WithPath(c, s.value.kind, PathJoin(dir, files[n])));
      }
    }
  }

  /** `Object.values(grouped).filter(comp => comp.local && comp.live)` */
  function Paired(values: Dict<Comparison>): (r: seq<Comparison>)
    ensures forall c :: c in r ==> c.local.Some? && c.live.Some?
    ensures forall i :: 0 <= i < |values| && values[i].1.local.Some? && values[i].1.live.Some? ==> values[i].1 in r
    ensures |r| <= |values|
  {
    if |values| == 0 then []
    else
      var rest := Paired(values[1..]);
      var c := values[0].1;
      assert forall i :: 1 <= i < |values| ==> values[i] == values[1..][i - 1];
      if c.local.Some? && c.live.Some? then [c] + rest else rest
  }

  /** `getComparisonFiles()`: nothing when the directory is missing. */
  method GetComparisonFiles(listing: Option<seq<string>>, parse: string -> Option<Shot>, dir: string)
    returns (comparisons: seq<Comparison>)
    ensures comparisons == if listing.None? then [] else Paired(Grouped(listing.value, parse, dir))
  {
    if listing.None? {
      return [];
    }
    var files := listing.value;
    var grouped: Dict<Comparison> := [];
    var i := 0;
    while i < |files|
      invariant 0 <= i <= |files|
      invariant grouped == Grouped(files[..i], parse, dir)
    {
      assert files[..i + 1][..i] == files[..i];
      var f := files[i];
      var m := parse(f);
      if m.Some? {
        var s := m.value;
        var key := Key(s);
        var entry := Get(grouped, key);
        ghost var g := grouped;
        var created := Comparison(s.name, s.viewport, s.timestamp, None, None);
        if entry.None? {
          grouped := Put(grouped, key, created);
          GetPut(g, key, created, key);
        }
        var c := Get(grouped, key).value;
        if entry.None? {
          PutTwice(g, key, created, WithPath(c, s.kind, PathJoin(dir, f)));
        }
        grouped := Put(grouped, key, WithPath(c, s.kind, PathJoin(dir, f)));
      }
      i := i + 1;
    }
    assert files[..i] == files;
    comparisons := Paired(grouped);
  }

  /** A second assignment to a key replaces the first one in place. */
  lemma {:induction false} PutTwice<V>(d: Dict<V>, k: string, v: V, w: V)
    ensures Put(Put(d, k, v), k, w) == Put(d, k, w)
    decreases |d|
  {
    if |d| > 0 && d[0].0 != k {
      PutTwice(d[1..], k, v, w);
    }
  }

  /** Every pair returned has both a local and a live path, and these are the last ones written. */
  lemma PairedPaths(files: seq<string>, parse: string -> Option<Shot>, dir: string, c: Comparison)
    requires c in Paired(Grouped(files, parse, dir))
    ensures exists k :: Expected(files, parse, dir, k) == Some(c)
    ensures c.local.Some? && c.live.Some?
  {
    var g := Grouped(files, parse, dir);
    var i := PairedFrom(g, c);
    GroupedDistinct(files, parse, dir);
    GetAt(g, i);
    GroupedIsExpected(files, parse, dir, g[i].0);
  }

  lemma {:induction false} PairedFrom(values: Dict<Comparison>, c: Comparison) returns (i: nat)
    requires c in Paired(values)
    ensures i < |values| && values[i].1 == c
  {
    var c0 := values[0].1;
    if c0.local.Some? && c0.live.Some? && c == c0 {
      i := 0;
    } else {
      var j := PairedFrom(values[1..], c);
      i := j + 1;
    }
  }

  /** With distinct keys, the entry at position `i` is what its key looks up. */
  lemma {:induction false} GetAt<V>(d: Dict<V>, i: nat)
    requires DistinctKeys(d) && i < |d|
    ensures Get(d, d[i].0) == Some(d[i].1)
    decreases i
  {
    if i > 0 {
      assert d[1..][i - 1] == d[i];
      GetAt(d[1..], i - 1);
    }
  }

  // ---------------------------------------------------------------------
  // getFileSize, getFileSizeDifference and the report

  /** `getFileSize(filePath)`: the size in bytes, 0 when the stat fails. */
  function FileSize(sizes: map<string, nat>, filePath: string): (n: nat)
    ensures filePath !in sizes ==> n == 0
  {
    if filePath in sizes then sizes[filePath] else 0
  }

  /** `getFileSizeDifference(file1, file2).bytes`: the second size minus the first. */
  function SizeDifference(sizes: map<string, nat>, file1: string, file2: string): (d: int)
    ensures FileSize(sizes, file1) + d == FileSize(sizes, file2)
  {
    FileSize(sizes, file2) - FileSize(sizes, file1)
  }

  /** Swapping the files negates the difference. */
  lemma SizeDifferenceSwap(sizes: map<string, nat>, file1: string, file2: string)
    ensures SizeDifference(sizes, file2, file1) == -SizeDifference(sizes, file1, file2)
  {
  }

  /** A row of the comparison report. */
  datatype ReportEntry = ReportEntry(
    name: string, viewport: string, localPath: string, livePath: string,
    localSize: nat, liveSize: nat, bytes: int)

  /** `totalComparisons` and `comparisons` of `generateComparisonReport()`. */
  datatype Report = Report(totalComparisons: nat, comparisons: seq<ReportEntry>)

  function Entry(sizes: map<string, nat>, c: Comparison): ReportEntry
    requires c.local.Some? && c.live.Some?
  {
    ReportEntry(c.name, c.viewport, c.local.value, c.live.value,
                FileSize(sizes, c.local.value), FileSize(sizes, c.live.value),
                SizeDifference(sizes, c.local.value, c.live.value))
  }

  /** The report over the paired comparisons: one row each, in order. */
  function ComparisonReport(sizes: map<string, nat>, comps: seq<Comparison>): (r: Report)
    requires forall c :: c in comps ==> c.local.Some? && c.live.Some?
    ensures r.totalComparisons == |comps| == |r.comparisons|
    ensures forall i :: 0 <= i < |comps| ==>
      && r.comparisons[i].localPath == comps[i].local.value
      && r.comparisons[i].livePath == comps[i].live.value
      && r.comparisons[i].localSize + r.comparisons[i].bytes == r.comparisons[i].liveSize
  {
    Report(|comps|, seq(|comps|, i requires 0 <= i < |comps| => Entry(sizes, comps[i])))
  }

  // ---------------------------------------------------------------------
  // cleanupOldScreenshots

  /** `{ file, timestamp: new Date(timestamp), type }` */
  datatype Item = Item(file: string, time: int, kind: Kind)

  /** How many screenshots of each page and viewport are kept. */
  const Keep := 5

  /** The groups of the clean-up: for each key, its items in listing order. */
  function Groups(files: seq<string>, parse: string -> Option<Shot>, time: string -> int): Dict<seq<Item>> {
    if |files| == 0 then []
    else
      var g := Groups(files[..|files| - 1], parse, time);
      var f := files[|files| - 1];
      match parse(f)
      case None => g
      case Some(s) =>
        var before := Get(g, Key(s));
        var items := if before.Some? then before.value else [];
        Put(g, Key(s), items + [Item(f, time(s.timestamp), s.kind)])
  }

  /** Newest first. */
  predicate NewestFirst(items: seq<Item>) {
    forall i, j :: 0 <= i < j < |items| ==> items[i].time >= items[j].time
  }

  /** Place `x` after every item at least as new: the stable insertion `sort` performs. */
  function Insert(sorted: seq<Item>, x: Item): (r: seq<Item>)
    ensures multiset(r) == multiset(sorted) + multiset{x}
  {
    if |sorted| == 0 then [x]
    else if sorted[0].time >= x.time then
      assert sorted == [sorted[0]] + sorted[1..];
      [sorted[0]] + Insert(sorted[1..], x)
    else
      [x] + sorted
  }

  /** Inserting into a list sorted newest first keeps it sorted. */
  lemma {:induction false} InsertNewestFirst(sorted: seq<Item>, x: Item)
    requires NewestFirst(sorted)
    ensures NewestFirst(Insert(sorted, x))
    decreases |sorted|
  {
    if |sorted| > 0 && sorted[0].time >= x.time {
      var rest := Insert(sorted[1..], x);
      InsertNewestFirst(sorted[1..], x);
      forall y | y in rest ensures y.time <= sorted[0].time {
        assert y in multiset(rest);
        if y != x {
          assert y in sorted[1..];
        }
      }
    }
  }

  /** `group.sort((a, b) => b.timestamp - a.timestamp)`: a permutation of the group. */
  function SortNewest(items: seq<Item>): (r: seq<Item>)
    ensures multiset(r) == multiset(items)
  {
    if |items| == 0 then []
    else
      var n := |items| - 1;
      assert items == items[..n] + [items[n]];
      Insert(SortNewest(items[..n]), items[n])
  }

  /** The sort puts the newest first. */
  lemma {:induction false} SortNewestFirst(items: seq<Item>)
    ensures NewestFirst(SortNewest(items))
  {
    if |items| > 0 {
      var n := |items| - 1;
      SortNewestFirst(items[..n]);
      InsertNewestFirst(SortNewest(items[..n]), items[n]);
    }
  }

  /** `group.slice(5)` after the sort: the files to delete. */
  function ToDelete(group: seq<Item>): seq<Item> {
    var sorted := SortNewest(group);
    if |sorted| > Keep then sorted[Keep..] else []
  }

  /** The items kept: the first five after the sort. */
  function Kept(group: seq<Item>): seq<Item> {
    var sorted := SortNewest(group);
    if |sorted| > Keep then sorted[..Keep] else sorted
  }

  /**
   * The clean-up keeps `min(5, |group|)` items, deletes the rest, and
   * never deletes an item newer than one it keeps.
   */
  lemma Retention(group: seq<Item>)
    ensures |Kept(group)| == if |group| > Keep then Keep else |group|
    ensures multiset(Kept(group) + ToDelete(group)) == multiset(group)
    ensures forall d, k :: d in ToDelete(group) && k in Kept(group) ==> d.time <= k.time
  {
    var sorted := SortNewest(group);
    SortNewestFirst(group);
    assert |sorted| == |multiset(sorted)| == |group|;
    if |sorted| > Keep {
      assert sorted[..Keep] + sorted[Keep..] == sorted;
      forall d, k | d in sorted[Keep..] && k in sorted[..Keep] ensures d.time <= k.time {
        var a :| 0 <= a < Keep && sorted[a] == k;
        var b :| Keep <= b < |sorted| && sorted[b] == d;
        assert sorted[..Keep][a] == sorted[a];
      }
    } else {
      assert sorted + [] == sorted;
    }
  }

  /** The files unlinked for the groups in `values`, in group order. */
  function Deleted(values: Dict<seq<Item>>): seq<string> {
    if |values| == 0 then []
    else
      var n := |values| - 1;
      Deleted(values[..n]) + Files(ToDelete(values[n].1))
  }

  function Files(items: seq<Item>): (r: seq<string>)
    ensures |r| == |items| && forall i :: 0 <= i < |items| ==> r[i] == items[i].file
  {
    if |items| == 0 then [] else [items[0].file] + Files(items[1..])
  }

  /** `cleanupOldScreenshots()`: the files it unlinks, in order. */
  method CleanupOldScreenshots(files: seq<string>, parse: string -> Option<Shot>, time: string -> int)
    returns (unlinked: seq<string>)
    ensures unlinked == Deleted(Groups(files, parse, time))
  {
    var grouped := GroupForCleanup(files, parse, time);
    unlinked := [];
    var j := 0;
    while j < |grouped|
      invariant 0 <= j <= |grouped|
      invariant unlinked == Deleted(grouped[..j])
    {
      assert grouped[..j + 1][..j] == grouped[..j];
      var doomed := ToDelete(grouped[j].1);
      var gone := Unlink(doomed);
      unlinked := unlinked + gone;
      j := j + 1;
    }
    assert grouped[..j] == grouped;
  }

  /** The `forEach` that groups the screenshots by key. */
  method GroupForCleanup(files: seq<string>, parse: string -> Option<Shot>, time: string -> int)
    returns (grouped: Dict<seq<Item>>)
    ensures grouped == Groups(files, parse, time)
  {
    grouped := [];
    var i := 0;
    while i < |files|
      invariant 0 <= i <= |files|
      invariant grouped == Groups(files[..i], parse, time)
    {
      assert files[..i + 1][..i] == files[..i];
      var f := files[i];
      var m := parse(f);
      if m.Some? {
        var s := m.value;
        var before := Get(grouped, Key(s));
        var items := if before.Some? then before.value else [];
        grouped := Put(grouped, Key(s), items + [Item(f, time(s.timestamp), s.kind)]);
      }
      i := i + 1;
    }
    assert files[..i] == files;
  }

  /** `toDelete.forEach(...)`: each file is unlinked in turn; a failure is only logged. */
  method Unlink(doomed: seq<Item>) returns (gone: seq<string>)
    ensures gone == Files(doomed)
  {
    gone := [];
    var k := 0;
    while k < |doomed|
      invariant 0 <= k <= |doomed|
      invariant gone == Files(doomed[..k])
    {
      gone := gone + [doomed[k].file];
      k := k + 1;
    }
    assert doomed[..k] == doomed;
  }
}
