/**
 * The paragraph pass of the small Markdown parser that
 * build/bundlers/bundle-templates.js and build/bundlers/bundle-markdown.js
 * both define (`marked.parse`). After its regular-expression rewrites
 * (headers, lists, emphasis, code, links, rules), which are not part of
 * this model, the HTML is split into lines and each line is pushed
 * either unchanged, as an empty line, or wrapped in `<p>…</p>`. Two
 * flags carried from line to line say whether the pass is inside a
 * `<pre>` block or a list.
 */
module Marked {
  import opened Text

  /** The flags the pass carries from one line to the next. */
  datatype Scan = Scan(inCode: bool, inList: bool)

  /**
   * `/^<[h|b|u|o|d|p|h][1-6]|^<blockquote|^<li|^<ul|^<hr|^<pre/`: the
   * character class also admits `|`.
   */
  predicate BlockTag(line: string) {
    || (|line| >= 3 && line[0] == '<' && line[1] in "h|buodp" && '1' <= line[2] <= '6')
    || StartsWith(line, "<blockquote") || StartsWith(line, "<li") || StartsWith(line, "<ul")
    || StartsWith(line, "<hr") || StartsWith(line, "<pre")
  }

  /** The flags after reading `line`. */
  function Track(s: Scan, line: string): (r: Scan)
    ensures Contains(line, "<li>") ==> r.inList
    ensures Contains(line, "</pre>") ==> !r.inCode
    ensures Contains(line, "<pre>") && !Contains(line, "</pre>") ==> r.inCode
    ensures !Contains(line, "<pre>") && !Contains(line, "</pre>") ==> r.inCode == s.inCode
  {
    var code := if Contains(line, "</pre>") then false else if Contains(line, "<pre>") then true else s.inCode;
    var list :=
      if Contains(line, "<li>") then true
      else if s.inList && !StartsWith(Trim(line), "<ul>") && !StartsWith(Trim(line), "</ul>") then false
      else s.inList;
    Scan(code, list)
  }

  /** Whether a line is wrapped in a paragraph, given the flags after it. */
  predicate Wrapped(s: Scan, line: string) {
    && Trim(line) != "" && !s.inCode && !BlockTag(line) && !s.inList
    && !StartsWith(line, "<p>") && !StartsWith(line, "<ul>") && !StartsWith(line, "<li>")
  }

  /** What the pass pushes for `line`, given the flags after it. */
  function Push(s: Scan, line: string): string {
    if Trim(line) == "" then ""
    else if s.inCode || BlockTag(line) then line
    else if !s.inList then
      (if !StartsWith(line, "<p>") && !StartsWith(line, "<ul>") && !StartsWith(line, "<li>")
       then "<p>" + line + "</p>"
       else line)
    else line
  }

  /** The flags after the first `k` lines. */
  function ScanAfter(lines: seq<string>, k: nat): Scan
    requires k <= |lines|
  {
    if k == 0 then Scan(false, false) else Track(ScanAfter(lines, k - 1), lines[k - 1])
  }

  /** What the pass pushes for line `i`. */
  function PushAt(lines: seq<string>, i: nat): string
    requires i < |lines|
  {
    Push(ScanAfter(lines, i + 1), lines[i])
  }

  /** The lines the pass produces, one for each line read. */
  function ParagraphLines(lines: seq<string>): (out: seq<string>)
    ensures |out| == |lines|
  {
    seq(|lines|, i requires 0 <= i < |lines| => PushAt(lines, i))
  }

  /** `marked.parse` after its rewrites: split on newlines, push each line, join. */
  function ParagraphPass(html: string): string {
    Join(ParagraphLines(SplitOn(html, "\n")), "\n")
  }

  /** The `for` loop over `lines`, with its two flags. */
  method Paragraphs(lines: seq<string>) returns (out: seq<string>)
    ensures out == ParagraphLines(lines)
  {
    out := [];
    var inCodeBlock := false;
    var inList := false;
    var i := 0;
    while i < |lines|
      invariant 0 <= i <= |lines|
      invariant Scan(inCodeBlock, inList) == ScanAfter(lines, i)
      invariant |out| == i
      invariant forall j :: 0 <= j < i ==> out[j] == PushAt(lines, j)
    {
      inCodeBlock, inList := TrackLine(inCodeBlock, inList, lines[i]);
      assert Scan(inCodeBlock, inList) == ScanAfter(lines, i + 1);
      var pushed := PushLine(inCodeBlock, inList, lines[i]);
      assert pushed == PushAt(lines, i);
      PushedPrefix(lines, out, pushed);
      out := out + [pushed];
      i := i + 1;
    }
  }

  /** Appending what the pass pushes for the next line keeps the output a prefix of the pass's lines. */
  lemma PushedPrefix(lines: seq<string>, out: seq<string>, pushed: string)
    requires |out| < |lines| && pushed == PushAt(lines, |out|)
    requires forall j :: 0 <= j < |out| ==> out[j] == PushAt(lines, j)
    ensures forall j :: 0 <= j < |out| + 1 ==> (out + [pushed])[j] == PushAt(lines, j)
  {
  }

  /** The flag updates at the top of the loop body. */
  method TrackLine(inCodeBlock: bool, inList: bool, line: string) returns (code: bool, list: bool)
    ensures Scan(code, list) == Track(Scan(inCodeBlock, inList), line)
  {
    code, list := inCodeBlock, inList;
    if Contains(line, "<pre>") { code := true; }
    if Contains(line, "</pre>") { code := false; }
    if Contains(line, "<li>") { list := true; }
    if list && !Contains(line, "<li>") && !StartsWith(Trim(line), "<ul>") && !StartsWith(Trim(line), "</ul>") {
      list := false;
    }
  }

  /** The choice of what to push for `line`. */
  method PushLine(inCodeBlock: bool, inList: bool, line: string) returns (pushed: string)
    ensures pushed == Push(Scan(inCodeBlock, inList), line)
  {
    if Trim(line) == "" {
      pushed := "";
    } else if inCodeBlock || BlockTag(line) {
      pushed := line;
    } else if !inList && Trim(line) != "" {
      if !StartsWith(line, "<p>") && !StartsWith(line, "<ul>") && !StartsWith(line, "<li>") {
        pushed := "<p>" + line + "</p>";
      } else {
        pushed := line;
      }
    } else {
      pushed := line;
    }
  }

  // ---------------------------------------------------------------------

  /**
   * Each line is either dropped to an empty line (exactly when it is
   * blank), kept as it is, or wrapped in a paragraph (exactly when
   * `Wrapped` holds).
   */
  lemma PushCases(s: Scan, line: string)
    ensures Push(s, line) == "" <==> Trim(line) == ""
    ensures Wrapped(s, line) ==> Push(s, line) == "<p>" + line + "</p>"
    ensures !Wrapped(s, line) && Trim(line) != "" ==> Push(s, line) == line
  {
  }

  /** A line holding a list item is never wrapped. */
  lemma ListItemKept(lines: seq<string>, i: nat)
    requires i < |lines| && Contains(lines[i], "<li>") && Trim(lines[i]) != ""
    ensures ParagraphLines(lines)[i] == lines[i]
  {
    assert ScanAfter(lines, i + 1).inList;
    PushCases(ScanAfter(lines, i + 1), lines[i]);
  }

  /**
   * Between a line that opens `<pre>` and the next line that closes it,
   * the pass is inside a code block.
   */
  lemma {:induction false} InsideCode(lines: seq<string>, j: nat, i: nat)
    requires j <= i < |lines|
    requires Contains(lines[j], "<pre>")
    requires forall k :: j <= k <= i ==> !Contains(lines[k], "</pre>")
    ensures ScanAfter(lines, i + 1).inCode
    decreases i - j
  {
    assert !Contains(lines[i], "</pre>");
    var s := ScanAfter(lines, i);
    assert ScanAfter(lines, i + 1) == Track(s, lines[i]);
    if j < i {
      InsideCode(lines, j, i - 1);
    }
  }

  /** So no line of a code block is wrapped or altered, except a blank one. */
  lemma CodeBlockKept(lines: seq<string>, j: nat, i: nat)
    requires j <= i < |lines| && Trim(lines[i]) != ""
    requires Contains(lines[j], "<pre>")
    requires forall k :: j <= k <= i ==> !Contains(lines[k], "</pre>")
    ensures ParagraphLines(lines)[i] == lines[i]
  {
    InsideCode(lines, j, i);
    PushCases(ScanAfter(lines, i + 1), lines[i]);
  }

  /**
   * The pass never splits or merges lines: the text it returns has as
   * many lines as the text it was given, and line `i` of the result is
   * line `i` of the input, kept, blanked or wrapped.
   */
  lemma LinesPreserved(html: string)
    ensures var lines := SplitOn(html, "\n");
      && SplitOn(ParagraphPass(html), "\n") == ParagraphLines(lines)
      && |SplitOn(ParagraphPass(html), "\n")| == |lines|
  {
    var lines := SplitOn(html, "\n");
    var out := ParagraphLines(lines);
    SplitOnCharParts(html, '\n');
    forall i | 0 <= i < |out|
      ensures '\n' !in out[i]
    {
      PushCases(ScanAfter(lines, i + 1), lines[i]);
      assert '\n' !in lines[i];
      if Wrapped(ScanAfter(lines, i + 1), lines[i]) {
        assert out[i] == "<p>" + lines[i] + "</p>";
      }
    }
    SplitJoinLines(out, '\n');
  }
}
