/**
 * The page a template bundler writes in place of a template that failed
 * to render (`handleTemplateError` in build/bundlers/bundle-templates.js,
 * bundle-markdown.js and bundle-ejs.js, which share the same body). The
 * error message is HTML-escaped, its newlines become `<br>` and each
 * pair of whitespace characters becomes two non-breaking spaces; the
 * result sits inside a fixed error page.
 */
module ErrorPage {
  import opened Text

  /** The five character escapes, in the order they are applied. */
  function EscapeHtml(m: string): string {
    ReplaceAll(ReplaceAll(ReplaceAll(ReplaceAll(ReplaceAll(m, "&", "&amp;"), "<", "&lt;"), ">", "&gt;"), "\"", "&quot;"), "'", "&#039;")
  }

  /** `/\s\s/g` replaced by two non-breaking spaces: pairs found left to right, without overlap. */
  function SpacePairs(s: string): string
    decreases |s|
  {
    if |s| == 0 then ""
    else if |s| >= 2 && IsSpace(s[0]) && IsSpace(s[1]) then "&nbsp;&nbsp;" + SpacePairs(s[2..])
    else [s[0]] + SpacePairs(s[1..])
  }

  /** The escaped message as it appears on the page. */
  function EscapeMessage(m: string): string {
    SpacePairs(ReplaceAll(EscapeHtml(m), "\n", "<br>"))
  }

  /** `handleTemplateError(e)`: the page written for an error with message `m`. */
  function ErrorHtml(m: string): string {
    "\n    <html>\n      <head></head>\n      <body>\n        <h1>There was an error.</h1>\n" +
    "        <div style=\"color: red; font-family: monospace;\">\n          " +
    EscapeMessage(m) +
    "\n        </div>\n      </body>\n    </html>"
  }

  /** No two whitespace characters stand next to each other. */
  predicate NoSpacePair(t: string) {
    forall i :: 0 <= i < |t| - 1 ==> !(IsSpace(t[i]) && IsSpace(t[i + 1]))
  }

  /** A character that is neither in the text nor in `&nbsp;` does not appear after the pair step. */
  lemma {:induction false} SpacePairsKeepsAbsent(s: string, c: char)
    requires c !in s && c !in "&nbsp;"
    ensures c !in SpacePairs(s)
    decreases |s|
  {
    if |s| >= 2 && IsSpace(s[0]) && IsSpace(s[1]) {
      SpacePairsKeepsAbsent(s[2..], c);
    } else if |s| > 0 {
      SpacePairsKeepsAbsent(s[1..], c);
    }
  }

  /** The pair step starts with the text's first character unless that character starts a pair. */
  lemma SpacePairsHead(s: string)
    requires |s| >= 1 && !IsSpace(s[0])
    ensures |SpacePairs(s)| >= 1 && SpacePairs(s)[0] == s[0]
  {
  }

  lemma NoSpacePairAppend(a: string, b: string)
    requires NoSpacePair(a) && NoSpacePair(b)
    requires |a| == 0 || |b| == 0 || !IsSpace(a[|a| - 1]) || !IsSpace(b[0])
    ensures NoSpacePair(a + b)
  {
    var t := a + b;
    forall i | 0 <= i < |t| - 1
      ensures !(IsSpace(t[i]) && IsSpace(t[i + 1]))
    {
      if i + 1 < |a| {
        assert t[i] == a[i] && t[i + 1] == a[i + 1];
      } else if i >= |a| {
        assert t[i] == b[i - |a|] && t[i + 1] == b[i - |a| + 1];
      }
    }
  }

  /** After the pair step no two whitespace characters are adjacent. */
  lemma {:induction false} SpacePairsLeavesNoPair(s: string)
    ensures NoSpacePair(SpacePairs(s))
    decreases |s|
  {
    if |s| >= 2 && IsSpace(s[0]) && IsSpace(s[1]) {
      SpacePairsLeavesNoPair(s[2..]);
      NoSpacePairAppend("&nbsp;&nbsp;", SpacePairs(s[2..]));
    } else if |s| > 0 {
      SpacePairsLeavesNoPair(s[1..]);
      if IsSpace(s[0]) && |s| >= 2 {
        SpacePairsHead(s[1..]);
      }
      NoSpacePairAppend([s[0]], SpacePairs(s[1..]));
    }
  }

  /** Text without adjacent whitespace passes the pair step unchanged. */
  lemma {:induction false} SpacePairsIdentity(s: string)
    requires NoSpacePair(s)
    ensures SpacePairs(s) == s
    decreases |s|
  {
    if |s| > 0 {
      assert NoSpacePair(s[1..]) by {
        forall i | 0 <= i < |s[1..]| - 1
          ensures !(IsSpace(s[1..][i]) && IsSpace(s[1..][i + 1]))
        {
          assert s[1..][i] == s[i + 1] && s[1..][i + 1] == s[i + 2];
        }
      }
      SpacePairsIdentity(s[1..]);
      assert [s[0]] + s[1..] == s;
    }
  }

  /**
   * The escaped message holds no quote, no apostrophe and no newline, so
   * it cannot close an attribute or break the page's line, and no two
   * whitespace characters stand next to each other.
   */
  lemma EscapedMessageSafe(m: string)
    ensures var e := EscapeMessage(m);
      '"' !in e && '\'' !in e && '\n' !in e && NoSpacePair(e)
  {
    var s1 := ReplaceAll(m, "&", "&amp;");
    var s2 := ReplaceAll(s1, "<", "&lt;");
    var s3 := ReplaceAll(s2, ">", "&gt;");
    var s4 := ReplaceAll(s3, "\"", "&quot;");
    var s5 := ReplaceAll(s4, "'", "&#039;");
    var s6 := ReplaceAll(s5, "\n", "<br>");
    assert EscapeHtml(m) == s5;
    ReplaceAllRemoves(s3, '"', "&quot;");
    ReplaceAllKeepsAbsent(s4, "'", "&#039;", '"');
    ReplaceAllKeepsAbsent(s5, "\n", "<br>", '"');
    SpacePairsKeepsAbsent(s6, '"');
    ReplaceAllRemoves(s4, '\'', "&#039;");
    ReplaceAllKeepsAbsent(s5, "\n", "<br>", '\'');
    SpacePairsKeepsAbsent(s6, '\'');
    ReplaceAllRemoves(s5, '\n', "<br>");
    SpacePairsKeepsAbsent(s6, '\n');
    SpacePairsLeavesNoPair(s6);
  }

  /** A message with nothing to escape appears on the page as it is. */
  lemma PlainMessageUnchanged(m: string)
    requires '&' !in m && '<' !in m && '>' !in m && '"' !in m && '\'' !in m && '\n' !in m
    requires NoSpacePair(m)
    ensures EscapeMessage(m) == m
  {
    ContainsChar(m, '&');
    ReplaceAllAbsent(m, "&", "&amp;");
    ContainsChar(m, '<');
    ReplaceAllAbsent(m, "<", "&lt;");
    ContainsChar(m, '>');
    ReplaceAllAbsent(m, ">", "&gt;");
    ContainsChar(m, '"');
    ReplaceAllAbsent(m, "\"", "&quot;");
    ContainsChar(m, '\'');
    ReplaceAllAbsent(m, "'", "&#039;");
    ContainsChar(m, '\n');
    ReplaceAllAbsent(m, "\n", "<br>");
    SpacePairsIdentity(m);
  }
}
