/**
 * The helper functions that build/helpers/ejs-functions.js hands to every
 * EJS template: cleaning a split URL, finding a page's child pages,
 * tidying attribute values, keeping the last word of a heading with the
 * one before it, and building anchors and images. Reading files,
 * rendering partials, highlighting code and measuring images are not
 * part of this model; an image's measured size is a parameter.
 */
module EjsFunctions {
  import opened Wrappers
  import opened Text
  import opened OrderedDict

  // ---------------------------------------------------------------------
  // squeakyClean

  /** An entry `squeakyClean` removes: `null`, `undefined` (None) or `''`. */
  predicate Blank(e: Option<string>) {
    e.None? || e == Some("")
  }

  /**
   * What the forward pass with `splice` leaves. Removing entry `i` moves
   * the next entry to index `i`, and the loop then steps past it, so an
   * entry directly after a removed one is kept whatever it holds.
   */
  function Cleaned(s: seq<Option<string>>): seq<Option<string>>
    decreases |s|
  {
    if |s| == 0 then []
    else if Blank(s[0]) then (if |s| == 1 then [] else [s[1]] + Cleaned(s[2..]))
    else [s[0]] + Cleaned(s[1..])
  }

  /** `squeakyClean(arr)`: the loop that splices blank entries out of the array. */
  method SqueakyClean(arr: seq<Option<string>>) returns (r: seq<Option<string>>)
    ensures r == Cleaned(arr)
  {
    r := arr;
    var i := 0;
    while i < |r|
      invariant 0 <= i <= |r| + 1
      invariant i <= |r| ==> r[..i] + Cleaned(r[i..]) == Cleaned(arr)
      invariant i == |r| + 1 ==> r == Cleaned(arr)
      decreases |r| + 1 - i
    {
      CleanedStep(r, i);
      if r[i] == None || r[i] == Some("") {
        r := r[..i] + r[i + 1..];
      }
      i := i + 1;
    }
  }

  /** One turn of the loop, on the array as it stands. */
  lemma CleanedStep(r: seq<Option<string>>, i: nat)
    requires i < |r|
    ensures !Blank(r[i]) ==> r[..i] + Cleaned(r[i..]) == r[..i + 1] + Cleaned(r[i + 1..])
    ensures Blank(r[i]) && i + 1 < |r| ==>
      var r' := r[..i] + r[i + 1..];
      r[..i] + Cleaned(r[i..]) == r'[..i + 1] + Cleaned(r'[i + 1..])
    ensures Blank(r[i]) && i + 1 == |r| ==> r[..i] + Cleaned(r[i..]) == r[..i]
  {
    var t := r[i..];
    assert t[0] == r[i];
    if !Blank(r[i]) {
      assert t[1..] == r[i + 1..];
      assert r[..i + 1] == r[..i] + [r[i]];
    } else if i + 1 < |r| {
      var r' := r[..i] + r[i + 1..];
      assert t[1] == r[i + 1] && t[2..] == r[i + 2..];
      assert r'[..i + 1] == r[..i] + [r[i + 1]];
      assert r'[i + 1..] == r[i + 2..];
    }
  }

  /** The entries that are not blank, in order. */
  function Filled(s: seq<Option<string>>): (r: seq<Option<string>>)
    ensures forall e :: e in r ==> !Blank(e)
  {
    if |s| == 0 then [] else (if Blank(s[0]) then [] else [s[0]]) + Filled(s[1..])
  }

  /** No two blank entries stand next to each other. */
  predicate NoBlankPair(s: seq<Option<string>>) {
    forall i :: 0 <= i < |s| - 1 ==> !(Blank(s[i]) && Blank(s[i + 1]))
  }

  /** Every entry that is not blank survives, and the survivors keep their order. */
  lemma {:induction false} CleanedKeepsFilled(s: seq<Option<string>>)
    ensures Filled(Cleaned(s)) == Filled(s)
    decreases |s|
  {
    if |s| == 0 {
    } else if Blank(s[0]) {
      if |s| > 1 {
        CleanedKeepsFilled(s[2..]);
        var c := [s[1]] + Cleaned(s[2..]);
        assert c[1..] == Cleaned(s[2..]);
        assert s[1..][1..] == s[2..];
      }
    } else {
      CleanedKeepsFilled(s[1..]);
      var c := [s[0]] + Cleaned(s[1..]);
      assert c[1..] == Cleaned(s[1..]);
    }
  }

  /** Without two blanks in a row, the pass removes every blank entry. */
  lemma {:induction false} CleanedRemovesIsolatedBlanks(s: seq<Option<string>>)
    requires NoBlankPair(s)
    ensures Cleaned(s) == Filled(s)
    decreases |s|
  {
    if |s| == 0 {
    } else if Blank(s[0]) {
      if |s| > 1 {
        assert !Blank(s[1]);
        assert NoBlankPair(s[2..]) by {
          forall i | 0 <= i < |s[2..]| - 1 ensures !(Blank(s[2..][i]) && Blank(s[2..][i + 1])) {
            assert s[2..][i] == s[i + 2] && s[2..][i + 1] == s[i + 3];
          }
        }
        CleanedRemovesIsolatedBlanks(s[2..]);
        assert s[1..][1..] == s[2..];
      }
    } else {
      assert NoBlankPair(s[1..]) by {
        forall i | 0 <= i < |s[1..]| - 1 ensures !(Blank(s[1..][i]) && Blank(s[1..][i + 1])) {
          assert s[1..][i] == s[i + 1] && s[1..][i + 1] == s[i + 2];
        }
      }
      CleanedRemovesIsolatedBlanks(s[1..]);
    }
  }

  /** Two blanks in a row: the second one survives the pass. */
  lemma {:induction false} SecondBlankSurvives(a: seq<Option<string>>, b: seq<Option<string>>)
    requires forall e :: e in a ==> !Blank(e)
    ensures Cleaned(a + [Some(""), Some("")] + b) == a + [Some("")] + Cleaned(b)
    decreases |a|
  {
    var s := a + [Some(""), Some("")] + b;
    if |a| == 0 {
      assert s[0] == Some("") && s[1] == Some("") && s[2..] == b;
    } else {
      assert s[0] == a[0] && s[1..] == a[1..] + [Some(""), Some("")] + b;
      SecondBlankSurvives(a[1..], b);
    }
  }

  // ---------------------------------------------------------------------
  // getChildPages

  /** `page.url.split('/')` cleaned by `squeakyClean`. */
  function Segments(url: string): seq<Option<string>> {
    var parts := SplitOn(url, "/");
    Cleaned(seq(|parts|, i requires 0 <= i < |parts| => Some(parts[i])))
  }

  /** `indexOf` on the segment list: the first index holding `e`, or -1. */
  function IndexOfEntry(segs: seq<Option<string>>, e: Option<string>): (r: int)
    ensures -1 <= r < |segs|
    ensures r >= 0 ==> segs[r] == e && forall k :: 0 <= k < r ==> segs[k] != e
    ensures r == -1 ==> e !in segs
  {
    if |segs| == 0 then -1
    else if segs[0] == e then 0
    else
      var k := IndexOfEntry(segs[1..], e);
      if k == -1 then -1 else k + 1
  }

  /** The filter of `getChildPages(parentPath)` for one page. */
  predicate IsChild(url: string, parent: string) {
    var segs := Segments(url);
    if parent == "" then |segs| - 1 == 0 && !Contains(url, ".html")
    else
      var k := IndexOfEntry(segs, Some(parent));
      k != -1 && (|segs| - 1) - k == 1
  }

  /**
   * `getChildPages(parentPath)` over the page mapping data; each page is
   * its URL and the rest of its record.
   */
  function ChildPages<T(!new)>(pages: seq<(string, T)>, parent: string): (r: seq<(string, T)>)
    ensures |r| <= |pages|
    ensures forall p :: p in r <==> p in pages && IsChild(p.0, parent)
  {
    if |pages| == 0 then []
    else
      var rest := ChildPages(pages[1..], parent);
      assert forall p :: p in pages <==> p == pages[0] || p in pages[1..];
      if IsChild(pages[0].0, parent) then [pages[0]] + rest else rest
  }

  /**
   * Below a named parent, a page is a child exactly when the first
   * segment equal to the parent is the second-to-last segment.
   */
  lemma ChildIff(url: string, parent: string)
    requires parent != ""
    ensures var segs := Segments(url);
      IsChild(url, parent) <==>
        && |segs| >= 2 && segs[|segs| - 2] == Some(parent)
        && forall k :: 0 <= k < |segs| - 2 ==> segs[k] != Some(parent)
  {
    var segs := Segments(url);
    var k := IndexOfEntry(segs, Some(parent));
    if |segs| >= 2 && segs[|segs| - 2] == Some(parent) && forall j :: 0 <= j < |segs| - 2 ==> segs[j] != Some(parent) {
      assert Some(parent) in segs;
    }
  }

  /** At the root, the children are the pages with one segment and no `.html` in their URL. */
  lemma RootChildIff(url: string)
    ensures IsChild(url, "") <==> |Segments(url)| == 1 && !Contains(url, ".html")
  {
  }

  // ---------------------------------------------------------------------
  // cleanUpString

  /** `str.split(/\s/g)`: the pieces between single whitespace characters. */
  function SplitWhite(t: string): (parts: seq<string>)
    ensures |parts| >= 1
    decreases |t|
  {
    if |t| == 0 then [""]
    else if IsSpace(t[0]) then [""] + SplitWhite(t[1..])
    else
      var rest := SplitWhite(t[1..]);
      [[t[0]] + rest[0]] + rest[1..]
  }

  /** `cleanUpString(str)`: trim both ends, split on whitespace, join with single spaces. */
  function CleanUp(s: string): string {
    Join(SplitWhite(Trim(s)), " ")
  }

  /** Splitting on whitespace and joining with a space turns each whitespace character into a space. */
  lemma {:induction false} SplitWhiteJoin(t: string)
    ensures var r := Join(SplitWhite(t), " ");
      |r| == |t| && forall i :: 0 <= i < |t| ==> r[i] == if IsSpace(t[i]) then ' ' else t[i]
    decreases |t|
  {
    if |t| > 0 {
      SplitWhiteJoin(t[1..]);
      var rest := SplitWhite(t[1..]);
      if IsSpace(t[0]) {
        var q := [""] + rest;
        assert q[1..] == rest;
      } else {
        JoinConsHead(t[0], rest, " ");
      }
    }
  }

  /**
   * The cleaned value has the length of the trimmed text, the same
   * characters, each whitespace character replaced by one space (runs
   * are not collapsed), and no space at either end.
   */
  lemma CleanUpChars(s: string)
    ensures var t := Trim(s); var r := CleanUp(s);
      && |r| == |t|
      && (forall i :: 0 <= i < |t| ==> r[i] == if IsSpace(t[i]) then ' ' else t[i])
      && (|r| > 0 ==> !IsSpace(r[0]) && !IsSpace(r[|r| - 1]))
  {
    var t := Trim(s);
    SplitWhiteJoin(t);
    if |t| > 0 {
      assert TrimStart(s)[0] == t[0];
    }
  }

  /** Cleaning a cleaned value changes nothing. */
  lemma CleanUpIdempotent(s: string)
    ensures CleanUp(CleanUp(s)) == CleanUp(s)
  {
    var r := CleanUp(s);
    CleanUpChars(s);
    assert TrimStart(r) == r;
    assert TrimEnd(r) == r;
    SplitWhiteJoin(r);
    var rr := CleanUp(r);
    assert |rr| == |r|;
    forall i | 0 <= i < |r| ensures rr[i] == r[i] {
      if IsSpace(r[i]) {
        assert r[i] == ' ';
      }
    }
  }

  // ---------------------------------------------------------------------
  // noWidows

  /** Index of the last whitespace character, or -1. */
  function LastSpace(s: string): (r: int)
    ensures -1 <= r < |s|
    ensures r >= 0 ==> IsSpace(s[r]) && forall k :: r < k < |s| ==> !IsSpace(s[k])
    ensures r == -1 ==> forall k :: 0 <= k < |s| ==> !IsSpace(s[k])
  {
    if |s| == 0 then -1
    else if IsSpace(s[|s| - 1]) then |s| - 1
    else LastSpace(s[..|s| - 1])
  }

  /**
   * `/\s([^\s]+)$/` replaced by `&nbsp;$1`: the only whitespace character
   * that can start a match is the last one, and only when at least one
   * character follows it.
   */
  function NbspLastGap(s: string): string {
    var k := LastSpace(s);
    if 0 <= k < |s| - 1 then s[..k] + "&nbsp;" + s[k + 1..] else s
  }

  /** `noWidows(str)`: the last gap becomes `&nbsp;`, then every `__` a space. */
  function NoWidows(s: string): string {
    ReplaceAll(NbspLastGap(s), "__", " ")
  }

  /** A text ending in a word after a whitespace character gets `&nbsp;` in that place. */
  lemma LastGapJoined(a: string, c: char, w: string)
    requires IsSpace(c) && |w| > 0 && forall k :: 0 <= k < |w| ==> !IsSpace(w[k])
    ensures NbspLastGap(a + [c] + w) == a + "&nbsp;" + w
  {
    var s := a + [c] + w;
    var k := LastSpace(s);
    assert IsSpace(s[|a|]);
    forall j | |a| < j < |s| ensures !IsSpace(s[j]) {
      assert s[j] == w[j - |a| - 1];
    }
    assert k == |a|;
    assert s[..k] == a && s[k + 1..] == w;
  }

  /** A text without whitespace, or ending in whitespace, has no last gap to join. */
  lemma NoGapUnchanged(s: string)
    requires (forall k :: 0 <= k < |s| ==> !IsSpace(s[k])) || (|s| > 0 && IsSpace(s[|s| - 1]))
    ensures NbspLastGap(s) == s
  {
  }

  /** The underscore step starts with the text's first character when that character does not start a `__`. */
  lemma UnderscoreHead(s: string)
    requires |s| >= 1 && s[0] != '_'
    ensures |ReplaceAll(s, "__", " ")| >= 1 && ReplaceAll(s, "__", " ")[0] == s[0]
  {
    if |s| >= 2 {
      assert !("__" <= s);
    }
  }

  /** No two underscores stand next to each other. */
  predicate NoUnderscorePair(t: string) {
    forall i :: 0 <= i < |t| - 1 ==> !(t[i] == '_' && t[i + 1] == '_')
  }

  lemma NoUnderscorePairAppend(a: string, b: string)
    requires NoUnderscorePair(a) && NoUnderscorePair(b)
    requires |a| == 0 || |b| == 0 || a[|a| - 1] != '_' || b[0] != '_'
    ensures NoUnderscorePair(a + b)
  {
    var t := a + b;
    forall i | 0 <= i < |t| - 1
      ensures !(t[i] == '_' && t[i + 1] == '_')
    {
      if i + 1 < |a| {
        assert t[i] == a[i] && t[i + 1] == a[i + 1];
      } else if i >= |a| {
        assert t[i] == b[i - |a|] && t[i + 1] == b[i - |a| + 1];
      }
    }
  }

  /** After the underscore step no `__` is left. */
  lemma {:induction false} NoDoubleUnderscore(s: string)
    ensures NoUnderscorePair(ReplaceAll(s, "__", " "))
    decreases |s|
  {
    if |s| < 2 {
    } else if "__" <= s {
      NoDoubleUnderscore(s[2..]);
      NoUnderscorePairAppend(" ", ReplaceAll(s[2..], "__", " "));
    } else {
      NoDoubleUnderscore(s[1..]);
      if s[0] == '_' {
        assert s[1] != '_' by { assert s[..2] != "__"; }
        UnderscoreHead(s[1..]);
      }
      NoUnderscorePairAppend([s[0]], ReplaceAll(s[1..], "__", " "));
    }
  }

  /** What `noWidows` returns holds no `__`, so no double underscore reaches the page. */
  lemma NoWidowsLeavesNoDoubleUnderscore(s: string)
    ensures NoUnderscorePair(NoWidows(s))
  {
    NoDoubleUnderscore(NbspLastGap(s));
  }

  // ---------------------------------------------------------------------
  // link and its variants

  /** An attribute value passed by a template: a string or a boolean. */
  datatype Value = Str(s: string) | Flag(b: bool)

  /** `String(v)` */
  function ToStr(v: Value): string {
    match v
    case Str(s) => s
    case Flag(b) => if b then "true" else "false"
  }

  /** JavaScript truthiness of a looked-up value, `undefined` when absent. */
  predicate Truthy(v: Option<Value>) {
    match v
    case None => false
    case Some(Str(s)) => s != ""
    case Some(Flag(b)) => b
  }

  /** The `locals` object of a link, its keys in insertion order. */
  type Locals = Dict<Value>

  /** `merge(a, b)`: each entry of `b`, in order, assigned onto `a`. */
  function Merge(a: Locals, b: Locals): (r: Locals)
    ensures forall k :: k in Keys(r) <==> k in Keys(a) || k in Keys(b)
    decreases |b|
  {
    if |b| == 0 then a
    else
      var r := Merge(Put(a, b[0].0, b[0].1), b[1..]);
      assert Keys(b) == [b[0].0] + Keys(b[1..]);
      r
  }

  /** After `merge(a, b)` a key holds `b`'s value when `b` sets it, `a`'s otherwise. */
  lemma {:induction false} MergeGet(a: Locals, b: Locals, k: string)
    requires DistinctKeys(b)
    ensures Get(Merge(a, b), k) == if k in Keys(b) then Get(b, k) else Get(a, k)
    decreases |b|
  {
    if |b| > 0 {
      assert DistinctKeys(b[1..]) by {
        forall i, j | 0 <= i < j < |b[1..]| ensures b[1..][i].0 != b[1..][j].0 {
          assert b[1..][i] == b[i + 1] && b[1..][j] == b[j + 1];
        }
      }
      MergeGet(Put(a, b[0].0, b[0].1), b[1..], k);
      GetPut(a, b[0].0, b[0].1, k);
      assert Keys(b) == [b[0].0] + Keys(b[1..]);
      if k == b[0].0 {
        assert k !in Keys(b[1..]) by {
          forall j | 0 <= j < |b[1..]| ensures Keys(b[1..])[j] != k {
            assert b[1..][j] == b[j + 1];
          }
        }
      }
    }
  }

  /** The defaults merged in for an external link. */
  const ExternalDefaults: Locals := [("rel", Str("noopener")), ("target", Str("blank"))]

  /** `locals.external || /^http/.test(locals.href)` */
  predicate External(l: Locals) {
    Truthy(Get(l, "external")) || (Get(l, "href").Some? && StartsWith(ToStr(Get(l, "href").value), "http"))
  }

  /** The class `type` adds, by strict comparison with the four known types. */
  function ClassSuffix(t: Option<Value>): string {
    if t == Some(Str("inline")) then " inline-link"
    else if t == Some(Str("block")) then " block-link"
    else if t == Some(Str("card")) then " card-link"
    else if t == Some(Str("button")) then " button"
    else ""
  }

  /** `if (locals.class === undefined) locals.class = ''` */
  function WithClass(l: Locals): (r: Locals)
    ensures "class" in Keys(r)
  {
    if Get(l, "class").None? then Put(l, "class", Str("")) else l
  }

  /** The object whose keys become the anchor's attributes. */
  function LinkAttributes(l: Locals): Locals {
    var d := WithClass(l);
    AddSuffix(if External(d) then Merge(ExternalDefaults, d) else d)
  }

  /** `${attr}="${cleanUpString(locals[attr])}"` for each key. */
  function AttributeList(l: Locals): (r: seq<string>)
    ensures |r| == |l|
  {
    if |l| == 0 then [] else [l[0].0 + "=\"" + CleanUp(ToStr(l[0].1)) + "\""] + AttributeList(l[1..])
  }

  function Anchor(str: string, attrs: Locals): string {
    "<a itemprop=\"url\" " + Join(AttributeList(attrs), " ") + ">" + str + "</a>"
  }

  /** What `link(str, locals)` returns, or the error it throws. */
  function LinkHtml(str: string, l: Locals): Result<string> {
    if !Truthy(Get(l, "href")) then Failure("externalLink is missing href attribute")
    else Success(Anchor(str, LinkAttributes(l)))
  }

  /**
   * The caller's object after `link`: it gains `class: ''` when it had no
   * class; for a link that is not external it is also the object whose
   * class gets the type's suffix.
   */
  function CallerAfterLink(l: Locals): Locals {
    var d := WithClass(l);
    if External(d) then d else LinkAttributes(l)
  }

  /** A JavaScript object passed by reference. */
  class Attrs {
    var entries: Locals

    constructor (e: Locals)
      ensures entries == e
    {
      entries := e;
    }
  }

  /** `link(str, locals)`, which writes to `locals` as it goes. */
  method Link(str: string, locals: Attrs) returns (r: Result<string>)
    modifies locals
    ensures r == LinkHtml(str, old(locals.entries))
    ensures locals.entries == if r.Failure? then old(locals.entries) else CallerAfterLink(old(locals.entries))
  {
    if !Truthy(Get(locals.entries, "href")) {
      return Failure("externalLink is missing href attribute");
    }
    ghost var l := locals.entries;
    LinkSteps(str, l);
    if Get(locals.entries, "class").None? {
      locals.entries := Put(locals.entries, "class", Str(""));
    }
    var d := locals.entries;
    assert d == WithClass(l);
    if External(d) {
      var merged := new Attrs(Merge(ExternalDefaults, d));
      merged.entries := AddSuffix(merged.entries);
      r := Success(Anchor(str, merged.entries));
      assert locals.entries == d == CallerAfterLink(l);
    } else {
      locals.entries := AddSuffix(d);
      r := Success(Anchor(str, locals.entries));
      assert locals.entries == CallerAfterLink(l);
    }
  }

  /** The steps of `link` on an object with an `href`, one definition at a time. */
  lemma LinkSteps(str: string, l: Locals)
    requires Truthy(Get(l, "href"))
    ensures "class" in Keys(WithClass(l)) && "class" in Keys(Merge(ExternalDefaults, WithClass(l)))
    ensures LinkHtml(str, l) == Success(Anchor(str, LinkAttributes(l)))
    ensures External(WithClass(l)) ==>
      LinkAttributes(l) == AddSuffix(Merge(ExternalDefaults, WithClass(l))) && CallerAfterLink(l) == WithClass(l)
    ensures !External(WithClass(l)) ==>
      LinkAttributes(l) == AddSuffix(WithClass(l)) == CallerAfterLink(l)
  {
  }

  /** `switch (locals.type)`: the class with the type's suffix appended. */
  function AddSuffix(m: Locals): (r: Locals)
    requires "class" in Keys(m)
  {
    var t := ClassSuffix(Get(m, "type"));
    if t == "" then m else Put(m, "class", Str(ToStr(Get(m, "class").value) + t))
  }

  /** `inlineLink`, `cardLink` and `buttonLink`: `link` on `merge({ type }, locals)`, a fresh object. */
  method TypedLink(str: string, kind: string, locals: Locals) returns (r: Result<string>)
    ensures r == LinkHtml(str, Merge([("type", Str(kind))], locals))
  {
    var o := new Attrs(Merge([("type", Str(kind))], locals));
    r := Link(str, o);
  }

  method InlineLink(str: string, locals: Locals) returns (r: Result<string>)
    ensures r == LinkHtml(str, Merge([("type", Str("inline"))], locals))
  {
    r := TypedLink(str, "inline", locals);
  }

  method CardLink(str: string, locals: Locals) returns (r: Result<string>)
    ensures r == LinkHtml(str, Merge([("type", Str("card"))], locals))
  {
    r := TypedLink(str, "card", locals);
  }

  method ButtonLink(str: string, locals: Locals) returns (r: Result<string>)
    ensures r == LinkHtml(str, Merge([("type", Str("button"))], locals))
  {
    r := TypedLink(str, "button", locals);
  }

  /** `blockLink`: an arrow after the text, a block link, and a wrapping span. */
  method BlockLink(str: string, locals: Locals) returns (r: Result<string>)
    ensures var inner := LinkHtml(str + "&nbsp;<b>&gt;</b>", Merge([("type", Str("block"))], locals));
      r == if inner.Failure? then inner else Success("<span class=\"block-link-wrapper\">" + inner.value + "</span>")
  {
    var inner := TypedLink(str + "&nbsp;<b>&gt;</b>", "block", locals);
    if inner.Failure? {
      return inner;
    }
    r := Success("<span class=\"block-link-wrapper\">" + inner.value + "</span>");
  }

  /**
   * The value the anchor gives attribute `k`, read off the caller's
   * object: a class made of the caller's class (or `''`) and the type's
   * suffix; for an external link, `rel` and `target` defaulting to
   * `noopener` and `blank` while the caller's own values win; every other
   * key as the caller set it.
   */
  function ExpectedAttribute(l: Locals, k: string): Option<Value> {
    var base := if Get(l, "class").Some? then Get(l, "class").value else Str("");
    var suffix := ClassSuffix(Get(l, "type"));
    if k == "class" then Some(if suffix == "" then base else Str(ToStr(base) + suffix))
    else if External(l) && k !in Keys(l) then Get(ExternalDefaults, k)
    else Get(l, k)
  }

  /** The class default touches only `class`, and leaves the link external or not. */
  lemma WithClassGet(l: Locals, k: string)
    ensures Get(WithClass(l), k) == if k == "class" && Get(l, "class").None? then Some(Str("")) else Get(l, k)
    ensures External(WithClass(l)) == External(l)
    ensures k in Keys(WithClass(l)) <==> k in Keys(l) || k == "class"
  {
    if Get(l, "class").None? {
      GetPut(l, "class", Str(""), k);
      GetPut(l, "class", Str(""), "external");
      GetPut(l, "class", Str(""), "href");
    }
  }

  /** The defaults merged in for an external link: the caller's keys keep their values. */
  lemma ExternalMergeGet(d: Locals, k: string)
    requires DistinctKeys(d)
    ensures Get(Merge(ExternalDefaults, d), k) == if k in Keys(d) then Get(d, k) else Get(ExternalDefaults, k)
  {
    MergeGet(ExternalDefaults, d, k);
  }

  /** Every attribute of the anchor has the value `ExpectedAttribute` gives it. */
  lemma LinkAttributeValues(l: Locals, k: string)
    requires DistinctKeys(l)
    ensures Get(LinkAttributes(l), k) == ExpectedAttribute(l, k)
  {
    var d := WithClass(l);
    WithClassGet(l, k);
    WithClassGet(l, "type");
    WithClassGet(l, "class");
    if Get(l, "class").None? {
      PutDistinct(l, "class", Str(""));
    }
    var m := if External(d) then Merge(ExternalDefaults, d) else d;
    if External(d) {
      ExternalMergeGet(d, k);
      ExternalMergeGet(d, "type");
      ExternalMergeGet(d, "class");
    }
    assert Get(m, "type") == Get(l, "type");
    var t := ClassSuffix(Get(m, "type"));
    if t != "" {
      GetPut(m, "class", Str(ToStr(Get(m, "class").value) + t), k);
    }
  }

  /** The variants' type is a default: a `type` the caller sets wins. */
  lemma VariantTypeDefault(kind: string, l: Locals)
    requires DistinctKeys(l)
    ensures Get(Merge([("type", Str(kind))], l), "type") == if "type" in Keys(l) then Get(l, "type") else Some(Str(kind))
  {
    MergeGet([("type", Str(kind))], l, "type");
  }

  // ---------------------------------------------------------------------
  // img

  /** An image's size as `sizeOf` measures it. */
  datatype Size = Size(width: nat, height: nat)

  function Digit(d: nat): char
    requires d < 10
  {
    "0123456789"[d]
  }

  /** A number as a template literal prints it. */
  function Decimal(n: nat): string
    decreases n
  {
    if n < 10 then [Digit(n)] else Decimal(n / 10) + [Digit(n % 10)]
  }

  /** `given || measured`: an absent or zero dimension falls back on the measured one. */
  function Dimension(given: Option<nat>, measured: nat): nat {
    if given.Some? && given.value != 0 then given.value else measured
  }

  /** The tag up to the optional class attribute. */
  function ImgOpening(src: string, alt: string, height: nat, width: nat): string {
    "<img src=\"" + src + "\" alt=\"" + alt + "\" height=\"" + Decimal(height) + "\" width=\"" + Decimal(width) + "\" "
  }

  /** `class="…"` for a non-empty class list, nothing otherwise. */
  function ClassAttribute(classes: seq<string>): (r: string)
    ensures r == "" <==> |classes| == 0
  {
    if |classes| > 0 then "class=\"" + Join(classes, " ") + "\"" else ""
  }

  /**
   * `img({ src, alt, classes, width, height })`. It throws when `src` is
   * missing or empty, and when the file at `src` cannot be measured,
   * which it is even when both dimensions are given.
   */
  function Img(src: Option<string>, alt: string, classes: seq<string>, width: Option<nat>, height: Option<nat>,
               measured: Result<Size>): (r: Result<string>)
    ensures r.Failure? <==> src.None? || src == Some("") || measured.Failure?
  {
    if src.None? || src == Some("") then Failure("img is missing src attribute")
    else if measured.Failure? then Failure(measured.error)
    else
      var m := measured.value;
      Success(ImgOpening(src.value, alt, Dimension(height, m.height), Dimension(width, m.width)) +
              ClassAttribute(classes) + " />")
  }

  /** Explicit, non-zero dimensions override the measured size completely. */
  lemma ImgExplicitSize(src: Option<string>, alt: string, classes: seq<string>, w: nat, h: nat, m1: Size, m2: Size)
    requires w != 0 && h != 0
    ensures Img(src, alt, classes, Some(w), Some(h), Success(m1)) == Img(src, alt, classes, Some(w), Some(h), Success(m2))
  {
  }

  /**
   * The `class` attribute appears only for a non-empty class list: the
   * tag without classes ends in ` />` right after the dimensions, and
   * with classes the attribute sits in that place.
   */
  lemma ImgClassAttribute(src: string, alt: string, classes: seq<string>, width: Option<nat>, height: Option<nat>, m: Size)
    requires src != "" && |classes| > 0
    ensures var bare := Img(Some(src), alt, [], width, height, Success(m));
      var full := Img(Some(src), alt, classes, width, height, Success(m));
      && bare.Success? && full.Success? && |bare.value| >= 3
      && bare.value[|bare.value| - 3..] == " />"
      && full.value == bare.value[..|bare.value| - 3] + ClassAttribute(classes) + " />"
  {
    var o := ImgOpening(src, alt, Dimension(height, m.height), Dimension(width, m.width));
    SuffixSwap(o, ClassAttribute(classes));
  }

  lemma SuffixSwap(o: string, c: string)
    ensures var bare := o + "" + " />";
      && |bare| >= 3 && bare[|bare| - 3..] == " />"
      && o + c + " />" == bare[..|bare| - 3] + c + " />"
  {
    var bare := o + "" + " />";
    assert bare[..|bare| - 3] == o;
  }
}
