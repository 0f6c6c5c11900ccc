/**
 * The hashed-name rule shared by every hashing script: the text before
 * the last `.`, a `-`, the content hash, then the text from the last `.`
 * on. It is built with `String.prototype.substr`, whose edge cases are
 * modelled as written: a negative length gives the empty string and a
 * negative start counts from the end, so a name with no `.` becomes
 * `-<hash>` followed by its last character.
 *
 * The hash itself (xxhash of the file contents) is a parameter.
 */
module HashNames {
  import opened Text

  /** `s.substr(start)` */
  function SubstrFrom(s: string, start: int): (r: string)
    ensures start >= 0 && start <= |s| ==> r == s[start..]
  {
    if start < 0 then (if |s| + start <= 0 then s else s[|s| + start..])
    else if start >= |s| then ""
    else s[start..]
  }

  /** `s.substr(0, len)` */
  function Prefix(s: string, len: int): (r: string)
    ensures 0 <= len <= |s| ==> r == s[..len]
  {
    if len <= 0 then "" else if len >= |s| then s else s[..len]
  }

  /** `${file.substr(0, file.lastIndexOf('.'))}-${hash}${file.substr(file.lastIndexOf('.'))}` */
  function HashedName(file: string, hash: string): string {
    var i := LastIndexOf(file, '.');
    Prefix(file, i) + "-" + hash + SubstrFrom(file, i)
  }

  /** The part from the last `.` on: the extension with its dot, or "" without a dot. */
  function Extension(file: string): string {
    var i := LastIndexOf(file, '.');
    if i < 0 then "" else file[i..]
  }

  /** The part before the last `.`. */
  function Stem(file: string): string {
    var i := LastIndexOf(file, '.');
    if i < 0 then file else file[..i]
  }

  lemma StemExtension(file: string)
    ensures Stem(file) + Extension(file) == file
    ensures '.' in file ==> |Extension(file)| > 0 && Extension(file)[0] == '.' && '.' !in Extension(file)[1..]
  {
    var i := LastIndexOf(file, '.');
    if i >= 0 {
      assert file[..i] + file[i..] == file;
      forall k | 0 <= k < |file[i..]| - 1 ensures file[i..][1..][k] != '.' {
        assert file[i..][1..][k] == file[i + 1 + k];
      }
    }
  }

  /** With a `.` in the name, the hashed name inserts `-hash` just before the extension. */
  lemma HashedNameSplit(file: string, hash: string)
    requires '.' in file
    ensures HashedName(file, hash) == Stem(file) + "-" + hash + Extension(file)
    ensures Extension(file) != "" && Extension(file)[0] == '.'
  {
    StemExtension(file);
  }

  /** A name with no `.`: the stem is lost and only the last character is kept after the hash. */
  lemma HashedNameNoDot(file: string, hash: string)
    requires '.' !in file && |file| > 0
    ensures HashedName(file, hash) == "-" + hash + [file[|file| - 1]]
  {
  }

  /** The last `.` of `s + t`, when `t` holds none, is the last `.` of `s`. */
  lemma LastIndexOfPrefix(s: string, t: string, c: char)
    requires c !in t
    ensures LastIndexOf(s + t, c) == LastIndexOf(s, c)
  {
    var u := s + t;
    var i := LastIndexOf(u, c);
    var j := LastIndexOf(s, c);
    if j >= 0 {
      assert u[j] == c;
    }
    if i >= 0 {
      assert s[i] == c by {
        if i >= |s| {
          assert false;
        }
      }
    }
  }

  /** In `s + [c] + t` with no `c` in `t`, the last `c` is the one between them. */
  lemma LastIndexOfMiddle(s: string, c: char, t: string)
    requires c !in t
    ensures LastIndexOf(s + [c] + t, c) == |s|
  {
    LastIndexOfPrefix(s + [c], t, c);
  }

  lemma StemExtensionOf(stem: string, rest: string)
    requires '.' !in rest
    ensures Stem(stem + ['.'] + rest) == stem && Extension(stem + ['.'] + rest) == ['.'] + rest
  {
    LastIndexOfMiddle(stem, '.', rest);
    var h := stem + ['.'] + rest;
    assert h[|stem|..] == ['.'] + rest;
    assert h[..|stem|] == stem;
  }

  /** A hashed name keeps the extension of the file. */
  lemma HashedNameExtension(file: string, hash: string)
    requires '.' in file && '.' !in hash
    ensures Extension(HashedName(file, hash)) == Extension(file)
    ensures Stem(HashedName(file, hash)) == Stem(file) + "-" + hash
  {
    HashedNameSplit(file, hash);
    StemExtension(file);
    var ext := Extension(file);
    var stem := Stem(file) + "-" + hash;
    assert ext == ['.'] + ext[1..];
    assert HashedName(file, hash) == stem + ['.'] + ext[1..];
    StemExtensionOf(stem, ext[1..]);
  }

  /** The last `-` of `s + "-" + t`, when `t` holds none, is just before `t`. */
  lemma LastDash(s: string, t: string)
    requires '-' !in t
    ensures LastIndexOf(s + "-" + t, '-') == |s|
  {
    LastIndexOfPrefix(s + "-", t, '-');
    assert s + "-" + t == (s + "-") + t;
  }

  /**
   * Two files with a `.` whose hashes hold neither `.` nor `-` (xxhash
   * values are decimal numbers) get the same hashed name only if they
   * are the same file with the same hash: the name list never maps two
   * files to one name.
   */
  lemma HashedNameInjective(f1: string, h1: string, f2: string, h2: string)
    requires '.' in f1 && '.' in f2
    requires '.' !in h1 && '.' !in h2 && '-' !in h1 && '-' !in h2
    requires HashedName(f1, h1) == HashedName(f2, h2)
    ensures f1 == f2 && h1 == h2
  {
    HashedNameExtension(f1, h1);
    HashedNameExtension(f2, h2);
    DashJoinInjective(Stem(f1), h1, Stem(f2), h2);
    StemExtension(f1);
    StemExtension(f2);
  }

  /** Joining with a `-` is undone at the last `-` when the second part holds none. */
  lemma DashJoinInjective(a1: string, t1: string, a2: string, t2: string)
    requires '-' !in t1 && '-' !in t2 && a1 + "-" + t1 == a2 + "-" + t2
    ensures a1 == a2 && t1 == t2
  {
    LastDash(a1, t1);
    LastDash(a2, t2);
    var s := a1 + "-" + t1;
    assert s[..|a1|] == a1 && s[|a1| + 1..] == t1;
    assert (a2 + "-" + t2)[..|a2|] == a2 && (a2 + "-" + t2)[|a2| + 1..] == t2;
  }
}
