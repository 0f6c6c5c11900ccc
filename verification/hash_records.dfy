/**
 * The step every hashing script performs for each globbed file before
 * its first asynchronous call: `hashingFileNameList[file] = hashedFileName`.
 * The hashes (xxhash of each file's contents) are given, one per file.
 */
module HashRecords {
  import opened Wrappers
  import opened OrderedDict
  import opened HashNames
  import opened BuildContext

  /** The name list after recording `files`, in order, with their `hashes`. */
  function RecordAll(d: Dict<string>, files: seq<string>, hashes: seq<string>): Dict<string>
    requires |files| == |hashes|
    decreases |files|
  {
    if |files| == 0 then d
    else
      var n := |files| - 1;
      Put(RecordAll(d, files[..n], hashes[..n]), files[n], HashedName(files[n], hashes[n]))
  }

  predicate Distinct(files: seq<string>) {
    forall i, j :: 0 <= i < j < |files| ==> files[i] != files[j]
  }

  /** Entries for paths outside the glob are left as they were. */
  lemma {:induction false} RecordAllOther(d: Dict<string>, files: seq<string>, hashes: seq<string>, k: string)
    requires |files| == |hashes| && k !in files
    ensures Get(RecordAll(d, files, hashes), k) == Get(d, k)
    decreases |files|
  {
    if |files| > 0 {
      var n := |files| - 1;
      assert k !in files[..n];
      RecordAllOther(d, files[..n], hashes[..n], k);
      GetPut(RecordAll(d, files[..n], hashes[..n]), files[n], HashedName(files[n], hashes[n]), k);
    }
  }

  /** Every globbed file maps to its hashed name (a glob never lists a path twice). */
  lemma {:induction false} RecordAllAt(d: Dict<string>, files: seq<string>, hashes: seq<string>, i: nat)
    requires |files| == |hashes| && Distinct(files) && i < |files|
    ensures Get(RecordAll(d, files, hashes), files[i]) == Some(HashedName(files[i], hashes[i]))
    decreases |files|
  {
    var n := |files| - 1;
    var prev := RecordAll(d, files[..n], hashes[..n]);
    GetPut(prev, files[n], HashedName(files[n], hashes[n]), files[i]);
    if i < n {
      assert Distinct(files[..n]) by {
        forall a, b | 0 <= a < b < n ensures files[..n][a] != files[..n][b] {
          assert files[..n][a] == files[a] && files[..n][b] == files[b];
        }
      }
      RecordAllAt(d, files[..n], hashes[..n], i);
      assert files[..n][i] == files[i] && hashes[..n][i] == hashes[i];
    }
  }

  /** The synchronous part of mapping over the glob: one name-list entry per file, in glob order. */
  method RecordHashes(ctx: Build, files: seq<string>, hashes: seq<string>)
    requires |files| == |hashes|
    modifies ctx
    ensures ctx.names == RecordAll(old(ctx.names), files, hashes)
    ensures ctx.World() == old(ctx.World()) && ctx.listeners == old(ctx.listeners)
  {
    var i := 0;
    while i < |files|
      invariant 0 <= i <= |files|
      invariant ctx.names == RecordAll(old(ctx.names), files[..i], hashes[..i])
      invariant ctx.World() == old(ctx.World()) && ctx.listeners == old(ctx.listeners)
    {
      RecordAllStep(old(ctx.names), files, hashes, i);
      ctx.Record(files[i], HashedName(files[i], hashes[i]));
      i := i + 1;
    }
    assert files[..i] == files && hashes[..i] == hashes;
  }

  /** Recording one more file of the glob is one more `Put`. */
  lemma RecordAllStep(d: Dict<string>, files: seq<string>, hashes: seq<string>, i: nat)
    requires |files| == |hashes| && i < |files|
    ensures RecordAll(d, files[..i + 1], hashes[..i + 1])
         == Put(RecordAll(d, files[..i], hashes[..i]), files[i], HashedName(files[i], hashes[i]))
  {
    assert files[..i + 1][..i] == files[..i] && hashes[..i + 1][..i] == hashes[..i];
  }
}
