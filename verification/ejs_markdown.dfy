/**
 * The last steps of `processMarkdownInContent` in
 * build/bundlers/bundle-ejs.js, which turns the content of an EJS
 * template into HTML before rendering it. Its list, emphasis, code and
 * link rewrites are regular expressions that are not part of this model;
 * what follows them is modelled exactly: a line ending in two spaces
 * gets a `<br>`, every blank-line pair becomes a paragraph break, and
 * text that does not start with a tag and holds no list is wrapped in a
 * paragraph.
 */
module EjsMarkdown {
  import opened Text

  /** `/  \n/g` to `<br>\n`, then `/\n\n/g` to `</p>\n<p>`. */
  function Breaks(s: string): string {
    ReplaceAll(ReplaceAll(s, "  \n", "<br>\n"), "\n\n", "</p>\n<p>")
  }

  /** The wrapping test: the text does not start with a tag and holds no list. */
  predicate NeedsParagraph(s: string) {
    !StartsWith(Trim(s), "<") && !Contains(s, "<ul>") && !Contains(s, "<ol>")
  }

  /** The content after the regular-expression rewrites, through the last steps. */
  function FinishContent(s: string): string {
    var t := Breaks(s);
    if NeedsParagraph(t) then "<p>" + t + "</p>" else t
  }

  /** No two newlines stand next to each other: the text has no blank line. */
  predicate NoBlankLine(t: string) {
    forall i :: 0 <= i < |t| - 1 ==> !(t[i] == '\n' && t[i + 1] == '\n')
  }

  lemma NoBlankLineAppend(a: string, b: string)
    requires NoBlankLine(a) && NoBlankLine(b)
    requires |a| == 0 || |b| == 0 || a[|a| - 1] != '\n' || b[0] != '\n'
    ensures NoBlankLine(a + b)
  {
    var t := a + b;
    forall i | 0 <= i < |t| - 1
      ensures !(t[i] == '\n' && t[i + 1] == '\n')
    {
      if i + 1 < |a| {
        assert t[i] == a[i] && t[i + 1] == a[i + 1];
      } else if i >= |a| {
        assert t[i] == b[i - |a|] && t[i + 1] == b[i - |a| + 1];
      }
    }
  }

  /** A text that does not start with a newline keeps its first character through the paragraph step. */
  lemma BreakHead(s: string)
    requires |s| >= 1 && s[0] != '\n'
    ensures |ReplaceAll(s, "\n\n", "</p>\n<p>")| >= 1 && ReplaceAll(s, "\n\n", "</p>\n<p>")[0] == s[0]
  {
    if |s| >= 2 {
      assert !("\n\n" <= s);
    }
  }

  /** After the paragraph step the text has no blank line. */
  lemma {:induction false} ParagraphStepLeavesNoBlankLine(s: string)
    ensures NoBlankLine(ReplaceAll(s, "\n\n", "</p>\n<p>"))
    decreases |s|
  {
    var r := "</p>\n<p>";
    if |s| < 2 {
    } else if "\n\n" <= s {
      ParagraphStepLeavesNoBlankLine(s[2..]);
      assert NoBlankLine(r) by {
        assert r[3] == '>' && r[4] == '\n' && r[5] == '<';
      }
      NoBlankLineAppend(r, ReplaceAll(s[2..], "\n\n", r));
    } else {
      ParagraphStepLeavesNoBlankLine(s[1..]);
      if s[0] == '\n' {
        assert s[1] != '\n' by { assert s[..2] != "\n\n"; }
        BreakHead(s[1..]);
      }
      NoBlankLineAppend([s[0]], ReplaceAll(s[1..], "\n\n", r));
    }
  }

  /** The content that leaves `processMarkdownInContent` has no blank line. */
  lemma FinishedContentHasNoBlankLine(s: string)
    ensures NoBlankLine(FinishContent(s))
  {
    var t := Breaks(s);
    ParagraphStepLeavesNoBlankLine(ReplaceAll(s, "  \n", "<br>\n"));
    if NeedsParagraph(t) {
      NoBlankLineAppend("<p>", t);
      NoBlankLineAppend("<p>" + t, "</p>");
    }
  }

  /**
   * A single line of plain text, not starting with a tag and holding no
   * list, comes out as one paragraph around the unchanged text.
   */
  lemma SingleLineWrapped(s: string)
    requires '\n' !in s && NeedsParagraph(s)
    ensures FinishContent(s) == "<p>" + s + "</p>"
  {
    AbsentCharNotContained(s, "  \n", 2);
    ReplaceAllAbsent(s, "  \n", "<br>\n");
    AbsentCharNotContained(s, "\n\n", 0);
    ReplaceAllAbsent(s, "\n\n", "</p>\n<p>");
  }
}
