/**
 * The part of Node's `path` module the scripts use on POSIX paths:
 * `basename` and `extname`.
 */
module NodePath {
  import opened Text
  import HashNames

  /** The path without its trailing slashes. */
  function TrimSlashes(p: string): (r: string)
    ensures |r| == 0 || r[|r| - 1] != '/'
  {
    if |p| > 0 && p[|p| - 1] == '/' then TrimSlashes(p[..|p| - 1]) else p
  }

  /** `path.basename(p)`: the part after the last `/`. */
  function BaseName(p: string): string {
    var t := TrimSlashes(p);
    var i := LastIndexOf(t, '/');
    t[i + 1..]
  }

  /**
   * `path.extname(p)`: the base name from its last `.` on; nothing when
   * the base name has no `.`, starts with its only leading `.`, or is `..`.
   * It never holds a second `.`.
   */
  function ExtName(p: string): (e: string)
    ensures e == "" || (e[0] == '.' && '.' !in e[1..])
  {
    var b := BaseName(p);
    var k := LastIndexOf(b, '.');
    if k <= 0 || b == ".." then ""
    else
      NoneAfterLast(b, k, '.');
      b[k..]
  }

  /** What follows the last `c` holds no `c`. */
  lemma NoneAfterLast(s: string, k: nat, c: char)
    requires k < |s| && forall j :: k < j < |s| ==> s[j] != c
    ensures c !in s[k..][1..]
  {
    assert s[k..][1..] == s[k + 1..];
  }

  /** A name whose base name is `<stem>.<ext>` with no `/` and no further `.`. */
  lemma ExtNameOf(name: string, ext: string)
    requires |name| > 0 && '/' !in name && '/' !in ext && '.' !in ext && |ext| > 0
    ensures ExtName(name + "." + ext) == "." + ext
  {
    var p := name + "." + ext;
    var k := |name|;
    assert p[k..] == "." + ext;
    assert forall j :: k < j < |p| ==> p[j] == ext[j - k - 1];
    assert '/' !in p by {
      forall j | 0 <= j < |p| ensures p[j] != '/' {
        if j < k { assert p[j] == name[j]; } else if j > k { assert p[j] == ext[j - k - 1]; }
      }
    }
    ExtNameAt(p, k);
  }

  /** A path with no `/` whose last `.` is at `k`, neither first nor last, has the extension from `k` on. */
  lemma ExtNameAt(p: string, k: nat)
    requires 0 < k && k + 1 < |p| && '/' !in p && p[k] == '.'
    requires forall j :: k < j < |p| ==> p[j] != '.'
    ensures ExtName(p) == p[k..]
  {
    assert p[|p| - 1] != '/';
    assert TrimSlashes(p) == p;
    assert BaseName(p) == p;
    assert LastIndexOf(p, '.') == k;
  }

  /** A name read from a directory keeps its extension once joined under that directory. */
  lemma ExtNameJoin(dir: string, name: string)
    requires |name| > 0 && '/' !in name
    ensures ExtName(dir + "/" + name) == ExtName(name)
  {
    BaseNameJoin(dir, name);
  }

  lemma BaseNameJoin(dir: string, name: string)
    requires |name| > 0 && '/' !in name
    ensures BaseName(dir + "/" + name) == name == BaseName(name)
  {
    var p := dir + "/" + name;
    assert p[|p| - 1] == name[|name| - 1];
    assert TrimSlashes(p) == p;
    assert TrimSlashes(name) == name;
    assert LastIndexOf(name, '/') == -1;
    HashNames.LastIndexOfPrefix(dir + "/", name, '/');
    assert LastIndexOf(dir + "/", '/') == |dir|;
    assert p[|dir| + 1..] == name;
  }
}
