/**
 * The JavaScript string operations the build scripts rely on, over
 * `seq<char>`: prefix and suffix tests, first-occurrence search,
 * `String.prototype.replace` with a string pattern (first occurrence
 * only), `split`/`join` (which together replace every non-overlapping
 * occurrence from left to right), `trim` and `toLowerCase`.
 *
 * Whitespace (`\s`, `trim`) is the six ASCII whitespace characters and
 * lower-casing is ASCII only.
 */
module Text {

  predicate IsSpace(c: char) {
    c == ' ' || c == '\t' || c == '\n' || c == '\r' || c == '\U{000B}' || c == '\U{000C}'
  }

  predicate StartsWith(s: string, p: string) {
    p <= s
  }

  predicate EndsWith(s: string, p: string) {
    |p| <= |s| && s[|s| - |p|..] == p
  }

  /** A string ends with whatever was appended to it last. */
  lemma EndsWithAppended(a: string, b: string)
    ensures EndsWith(a + b, b)
  {
    assert (a + b)[|a|..] == b;
  }

  /** Putting something in front keeps a suffix, and what precedes it grows by the same. */
  lemma EndsWithPrefixed(a: string, b: string, suffix: string)
    requires EndsWith(b, suffix)
    ensures EndsWith(a + b, suffix)
    ensures (a + b)[..|a + b| - |suffix|] == a + b[..|b| - |suffix|]
  {
    assert (a + b)[|a + b| - |suffix|..] == b[|b| - |suffix|..];
  }

  /** A pattern holding a character the text lacks does not occur in it. */
  lemma AbsentCharNotContained(s: string, p: string, i: nat)
    requires i < |p| && p[i] !in s
    ensures !Contains(s, p)
  {
    forall k: nat | k + |p| <= |s|
      ensures !OccursAt(s, p, k)
    {
      assert s[k..k + |p|][i] == s[k + i];
    }
    ContainsIff(s, p);
  }

  /** Two strings that share a prefix and then differ at once are different. */
  lemma DifferentTails(p: string, x: string, y: string)
    requires |x| > 0 && |y| > 0 && x[0] != y[0]
    ensures p + x != p + y
  {
    assert (p + x)[|p|] == x[0] && (p + y)[|p|] == y[0];
  }

  /** Concatenation regroups freely. */
  lemma Regroup(a: string, b: string, c: string)
    ensures a + (b + c) == a + b + c
  {
  }

  /** `p` occurs in `s` starting at index `i`. */
  predicate OccursAt(s: string, p: string, i: nat) {
    i + |p| <= |s| && s[i..i + |p|] == p
  }

  /** First index at or after `from` where `p` occurs, or -1 (`indexOf`). */
  function IndexOfFrom(s: string, p: string, from: nat): (r: int)
    decreases |s| - from
    ensures r == -1 || (from <= r && OccursAt(s, p, r))
    ensures r == -1 ==> forall k: nat :: from <= k ==> !OccursAt(s, p, k)
    ensures r >= 0 ==> forall k: nat :: from <= k < r ==> !OccursAt(s, p, k)
  {
    if from + |p| > |s| then -1
    else if OccursAt(s, p, from) then from
    else IndexOfFrom(s, p, from + 1)
  }

  function IndexOf(s: string, p: string): int {
    IndexOfFrom(s, p, 0)
  }

  /** `includes` */
  predicate Contains(s: string, p: string) {
    IndexOf(s, p) >= 0
  }

  lemma ContainsIff(s: string, p: string)
    ensures Contains(s, p) <==> exists k: nat :: OccursAt(s, p, k)
  {
  }

  /** Index of the last `c` in `s`, or -1 (`lastIndexOf` with a one-character argument). */
  function LastIndexOf(s: string, c: char): (r: int)
    ensures -1 <= r < |s|
    ensures r >= 0 ==> s[r] == c && forall k :: r < k < |s| ==> s[k] != c
    ensures r == -1 ==> forall k :: 0 <= k < |s| ==> s[k] != c
  {
    if |s| == 0 then -1
    else if s[|s| - 1] == c then |s| - 1
    else LastIndexOf(s[..|s| - 1], c)
  }

  /** `s.replace(p, r)` with a string pattern: only the first occurrence changes. */
  function ReplaceFirst(s: string, p: string, r: string): (res: string)
    ensures !Contains(s, p) ==> res == s
    ensures Contains(s, p) ==>
      exists i: nat :: OccursAt(s, p, i) && res == s[..i] + r + s[i + |p|..]
  {
    var i := IndexOf(s, p);
    if i < 0 then s else s[..i] + r + s[i + |p|..]
  }

  /** A pattern that starts the text is found at its start. */
  lemma ReplaceFirstPrefix(p: string, x: string, r: string)
    ensures ReplaceFirst(p + x, p, r) == r + x
  {
    FoundAtStart(p + x, p);
    assert (p + x)[|p|..] == x;
  }

  /** A pattern that starts the text is found at index 0. */
  lemma FoundAtStart(s: string, p: string)
    requires p <= s
    ensures IndexOf(s, p) == 0
  {
    assert s[0..|p|] == p;
  }

  /**
   * `s.split(p).join(r)` for a non-empty `p`, which is also what a
   * global regular-expression replace of a literal does: every
   * occurrence, scanning left to right without overlap.
   */
  function ReplaceAll(s: string, p: string, r: string): string
    requires |p| > 0
    decreases |s|
  {
    if |s| < |p| then s
    else if p <= s then r + ReplaceAll(s[|p|..], p, r)
    else [s[0]] + ReplaceAll(s[1..], p, r)
  }

  /** `s.split(p)` for a non-empty separator. */
  function SplitOn(s: string, p: string): (parts: seq<string>)
    requires |p| > 0
    ensures |parts| >= 1
    decreases |s|
  {
    if |s| < |p| then [s]
    else if p <= s then [""] + SplitOn(s[|p|..], p)
    else
      var rest := SplitOn(s[1..], p);
      [[s[0]] + rest[0]] + rest[1..]
  }

  /** `parts.join(sep)` */
  function Join(parts: seq<string>, sep: string): string {
    if |parts| == 0 then ""
    else if |parts| == 1 then parts[0]
    else parts[0] + sep + Join(parts[1..], sep)
  }

  lemma JoinConsHead(c: char, parts: seq<string>, sep: string)
    requires |parts| >= 1
    ensures Join([[c] + parts[0]] + parts[1..], sep) == [c] + Join(parts, sep)
  {
    var q := [[c] + parts[0]] + parts[1..];
    assert q[1..] == parts[1..];
  }

  /** Replacing every occurrence is splitting and joining with the replacement. */
  lemma {:induction false} ReplaceAllIsSplitJoin(s: string, p: string, r: string)
    requires |p| > 0
    ensures ReplaceAll(s, p, r) == Join(SplitOn(s, p), r)
    decreases |s|
  {
    if |s| < |p| {
    } else if p <= s {
      ReplaceAllIsSplitJoin(s[|p|..], p, r);
      var rest := SplitOn(s[|p|..], p);
      assert ([""] + rest)[1..] == rest;
    } else {
      ReplaceAllIsSplitJoin(s[1..], p, r);
      JoinConsHead(s[0], SplitOn(s[1..], p), r);
    }
  }

  lemma {:induction false} ReplaceAllSelf(s: string, p: string)
    requires |p| > 0
    ensures ReplaceAll(s, p, p) == s
    decreases |s|
  {
    if |s| < |p| {
    } else if p <= s {
      ReplaceAllSelf(s[|p|..], p);
      assert s == s[..|p|] + s[|p|..];
    } else {
      ReplaceAllSelf(s[1..], p);
      assert s == [s[0]] + s[1..];
    }
  }

  /** Splitting and joining again with the same separator gives back the input. */
  lemma SplitJoinRoundTrip(s: string, p: string)
    requires |p| > 0
    ensures Join(SplitOn(s, p), p) == s
  {
    ReplaceAllSelf(s, p);
    ReplaceAllIsSplitJoin(s, p, p);
  }

  /** When the pattern does not occur, replacing every occurrence changes nothing. */
  lemma {:induction false} ReplaceAllAbsent(s: string, p: string, r: string)
    requires |p| > 0 && !Contains(s, p)
    ensures ReplaceAll(s, p, r) == s
    decreases |s|
  {
    if |s| < |p| {
    } else {
      assert !OccursAt(s, p, 0);
      assert s[..|p|] != p;
      assert !(p <= s);
      forall k: nat ensures !OccursAt(s[1..], p, k) {
        assert !OccursAt(s, p, k + 1);
      }
      assert !Contains(s[1..], p);
      ReplaceAllAbsent(s[1..], p, r);
      assert s == [s[0]] + s[1..];
    }
  }

  /** Splitting on one character a text with no such character yields the text. */
  lemma {:induction false} SplitOnCharAbsent(s: string, c: char)
    requires c !in s
    ensures SplitOn(s, [c]) == [s]
    decreases |s|
  {
    if |s| < 1 {
    } else {
      assert !([c] <= s) by { assert s[0] != c; }
      SplitOnCharAbsent(s[1..], c);
      assert s == [s[0]] + s[1..];
    }
  }

  lemma {:induction false} SplitOnCharPrefix(a: string, c: char, t: string)
    requires c !in a
    ensures SplitOn(a + [c] + t, [c]) == [a] + SplitOn(t, [c])
    decreases |a|
  {
    var s := a + [c] + t;
    if |a| == 0 {
      assert [c] <= s;
      assert s[1..] == t;
    } else {
      assert s[0] == a[0] && a[0] != c;
      assert !([c] <= s);
      assert s[1..] == a[1..] + [c] + t;
      SplitOnCharPrefix(a[1..], c, t);
      assert [a[0]] + a[1..] == a;
    }
  }

  /**
   * Joining lines that hold no separator and splitting again gives back
   * the same lines: the number of lines is what the text says it is.
   */
  lemma {:induction false} SplitJoinLines(lines: seq<string>, c: char)
    requires |lines| >= 1
    requires forall i :: 0 <= i < |lines| ==> c !in lines[i]
    ensures SplitOn(Join(lines, [c]), [c]) == lines
    decreases |lines|
  {
    if |lines| == 1 {
      SplitOnCharAbsent(lines[0], c);
    } else {
      SplitJoinLines(lines[1..], c);
      assert Join(lines, [c]) == lines[0] + [c] + Join(lines[1..], [c]);
      SplitOnCharPrefix(lines[0], c, Join(lines[1..], [c]));
      assert [lines[0]] + lines[1..] == lines;
    }
  }

  /** The pieces of a split on one character never hold that character. */
  lemma {:induction false} SplitOnCharParts(s: string, c: char)
    ensures forall i :: 0 <= i < |SplitOn(s, [c])| ==> c !in SplitOn(s, [c])[i]
    decreases |s|
  {
    if |s| >= 1 {
      SplitOnCharParts(s[1..], c);
      if !([c] <= s) {
        assert s[0] != c;
      }
    }
  }

  /** A one-character pattern is contained exactly when the character occurs. */
  lemma ContainsChar(s: string, c: char)
    ensures Contains(s, [c]) <==> c in s
  {
    ContainsIff(s, [c]);
    if c in s {
      var k :| 0 <= k < |s| && s[k] == c;
      assert OccursAt(s, [c], k);
    }
    if Contains(s, [c]) {
      var k: nat :| OccursAt(s, [c], k);
      assert s[k..k + 1][0] == s[k];
    }
  }

  /** Replacing never introduces a character that neither the text nor the replacement holds. */
  lemma {:induction false} ReplaceAllKeepsAbsent(s: string, p: string, r: string, c: char)
    requires |p| > 0 && c !in s && c !in r
    ensures c !in ReplaceAll(s, p, r)
    decreases |s|
  {
    if |s| >= |p| {
      if p <= s {
        ReplaceAllKeepsAbsent(s[|p|..], p, r, c);
      } else {
        ReplaceAllKeepsAbsent(s[1..], p, r, c);
      }
    }
  }

  /** Replacing every occurrence of a character by text without it removes the character. */
  lemma {:induction false} ReplaceAllRemoves(s: string, c: char, r: string)
    requires c !in r
    ensures c !in ReplaceAll(s, [c], r)
    decreases |s|
  {
    if |s| >= 1 {
      if [c] <= s {
        ReplaceAllRemoves(s[1..], c, r);
      } else {
        assert s[0] != c;
        ReplaceAllRemoves(s[1..], c, r);
      }
    }
  }

  function TrimStart(s: string): (r: string)
    ensures |r| <= |s| && r == s[|s| - |r|..]
    ensures |r| > 0 ==> !IsSpace(r[0])
    ensures forall i :: 0 <= i < |s| - |r| ==> IsSpace(s[i])
  {
    if |s| > 0 && IsSpace(s[0]) then
      var r := TrimStart(s[1..]);
      assert forall i :: 1 <= i < |s| - |r| ==> s[i] == s[1..][i - 1];
      r
    else s
  }

  function TrimEnd(s: string): (r: string)
    ensures |r| <= |s| && r == s[..|r|]
    ensures |r| > 0 ==> !IsSpace(r[|r| - 1])
    ensures forall i :: |r| <= i < |s| ==> IsSpace(s[i])
  {
    if |s| > 0 && IsSpace(s[|s| - 1]) then TrimEnd(s[..|s| - 1]) else s
  }

  /** `trim` */
  function Trim(s: string): string {
    TrimEnd(TrimStart(s))
  }

  function LowerChar(c: char): char {
    if 'A' <= c <= 'Z' then (c as int - 'A' as int + 'a' as int) as char else c
  }

  /** `toLowerCase`, ASCII letters only */
  function ToLower(s: string): (r: string)
    ensures |r| == |s|
    ensures forall i :: 0 <= i < |s| ==> r[i] == LowerChar(s[i])
  {
    if |s| == 0 then "" else [LowerChar(s[0])] + ToLower(s[1..])
  }
}
