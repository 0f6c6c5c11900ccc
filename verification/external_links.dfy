/**
 * build/optimize/process-external-links.js: `processExternalLinks(configs)`
 * clears EXTERNAL_LINKS_PROCESSED, globs the package's HTML files and
 * reads each one. In the read callback every anchor the anchor pattern
 * matches is passed to a replacement callback, which adds an
 * `is-external` attribute to anchors whose href points to another site;
 * the file is written back only when some anchor was changed. Each file
 * is counted once it is finished (after its write, or at once when it
 * was left alone), and the completion that sees `processed ===
 * htmlGlob.length` sets EXTERNAL_LINKS_PROCESSED and publishes
 * externalLinksProcessed.
 *
 * The anchor pattern itself is a regular expression and is not modelled:
 * each file's matches arrive as a sequence of `Anchor`s, and the text
 * the `replace` call produces is a parameter. So is the URL parser's
 * hostname of an href (`None` when `new URL` throws), constrained by
 * `ResolvesAgainstBase` where the parser's base URL decides the result.
 */
module ExternalLinks {
  import opened Wrappers
  import opened Text
  import opened CompletionFlags
  import opened BuildEvents
  import opened EventBus
  import opened BuildContext
  import opened Joins

  /** The hostname `new URL(href, base).hostname` gives, or `None` when it throws. */
  type HostParser = string -> Option<string>

  // ---------------------------------------------------------------------
  // Domains and hostnames

  /** `s.replace(/^www\./, '')` */
  function StripWww(s: string): (r: string)
    ensures StartsWith(s, "www.") ==> s == "www." + r
    ensures !StartsWith(s, "www.") ==> r == s
  {
    if StartsWith(s, "www.") then s[4..] else s
  }

  /** A hostname as the comparison sees it: lower-cased, then one leading `www.` removed. */
  function NormalHost(h: string): string {
    StripWww(ToLower(h))
  }

  /** `s.replace(/^https?:\/\//, '')` */
  function StripScheme(s: string): string {
    if StartsWith(s, "https://") then s[8..]
    else if StartsWith(s, "http://") then s[7..]
    else s
  }

  /** `s.replace(/\/$/, '')` */
  function StripTrailingSlash(s: string): string {
    if EndsWith(s, "/") then s[..|s| - 1] else s
  }

  /** `currentDomain`, from the site's configured domain. */
  function CurrentDomain(domain: string): string {
    StripTrailingSlash(StripScheme(domain))
  }

  /** The domain of a site URL written with either scheme and at most one trailing slash is its host. */
  lemma CurrentDomainOfSiteUrl(host: string, secure: bool, slash: bool)
    requires !EndsWith(host, "/")
    ensures CurrentDomain((if secure then "https://" else "http://") + host + (if slash then "/" else "")) == host
  {
    var scheme := if secure then "https://" else "http://";
    var s := scheme + host + (if slash then "/" else "");
    assert StartsWith(s, scheme);
    assert s[|scheme|..] == host + (if slash then "/" else "");
    if !secure {
      assert !StartsWith(s, "https://") by {
        assert s[4] == ':';
      }
    }
  }

  /** Only one trailing slash is removed. */
  lemma CurrentDomainKeepsSecondSlash(host: string)
    ensures CurrentDomain("https://" + host + "//") == host + "/"
  {
    var s := "https://" + host + "//";
    assert StartsWith(s, "https://");
    assert s[8..] == host + "//";
    assert (host + "//")[..|host| + 1] == host + "/";
  }

  // ---------------------------------------------------------------------
  // isExternalLink

  /** The first early return: empty, a fragment, or a script, mail or phone link. */
  predicate NotAPageLink(href: string) {
    || |href| == 0
    || StartsWith(href, "#") || StartsWith(href, "javascript:")
    || StartsWith(href, "mailto:") || StartsWith(href, "tel:")
  }

  /** The second early return: a root-relative or dot-relative path. */
  predicate Relative(href: string) {
    StartsWith(href, "/") || StartsWith(href, "./") || StartsWith(href, "../")
  }

  /** `isExternalLink(href, currentDomain)` */
  function IsExternalLink(href: string, currentDomain: string, hostname: HostParser): (r: bool)
    ensures NotAPageLink(href) || Relative(href) || hostname(href).None? ==> !r
    ensures r ==> NormalHost(hostname(href).value) != NormalHost(currentDomain)
  {
    if NotAPageLink(href) then false
    else if Relative(href) then false
    else
      match hostname(href)
      case None => false
      case Some(h) => NormalHost(h) != NormalHost(currentDomain)
  }

  /** `toLowerCase` twice is `toLowerCase` once. */
  lemma ToLowerIdempotent(s: string)
    ensures ToLower(ToLower(s)) == ToLower(s)
  {
    var t := ToLower(s);
    assert forall i :: 0 <= i < |s| ==> ToLower(t)[i] == LowerChar(LowerChar(s[i]));
  }

  /** The site's domain is compared case-insensitively. */
  lemma DomainCaseIgnored(href: string, currentDomain: string, hostname: HostParser)
    ensures IsExternalLink(href, ToLower(currentDomain), hostname) == IsExternalLink(href, currentDomain, hostname)
  {
    ToLowerIdempotent(currentDomain);
  }

  lemma ToLowerAppend(a: string, b: string)
    ensures ToLower(a + b) == ToLower(a) + ToLower(b)
  {
    assert forall i :: 0 <= i < |a + b| ==> ToLower(a + b)[i] == (ToLower(a) + ToLower(b))[i];
  }

  /**
   * A link to the site itself, in any letter case and with or without a
   * `www.` prefix, is never external.
   */
  lemma SameSiteNotExternal(href: string, currentDomain: string, hostname: HostParser, www: bool)
    requires hostname(href) == Some((if www then "www." else "") + currentDomain)
    requires !StartsWith(ToLower(currentDomain), "www.")
    ensures !IsExternalLink(href, currentDomain, hostname)
  {
    if www {
      ToLowerAppend("www.", currentDomain);
      assert ToLower("www.") == "www.";
      assert StartsWith(ToLower("www." + currentDomain), "www.");
      assert ToLower("www." + currentDomain)[4..] == ToLower(currentDomain);
    }
  }

  /** A character that may follow the first letter of a URL scheme. */
  predicate SchemeChar(c: char) {
    'a' <= c <= 'z' || 'A' <= c <= 'Z' || '0' <= c <= '9' || c == '+' || c == '-' || c == '.'
  }

  /** `href` starts with a URL scheme: a letter, scheme characters, then `:`. */
  predicate HasScheme(href: string) {
    exists k :: 0 < k < |href| && href[k] == ':' && ('a' <= href[0] <= 'z' || 'A' <= href[0] <= 'Z')
      && forall j :: 0 < j < k ==> SchemeChar(href[j])
  }

  /**
   * An href the URL parser resolves against the base URL's host: no
   * scheme, no leading slash or backslash, and no space or control
   * character (which the parser would strip or remove first).
   */
  predicate BaseRelative(href: string) {
    && |href| > 0 && !HasScheme(href)
    && href[0] != '/' && href[0] != '\\'
    && forall i :: 0 <= i < |href| ==> href[i] > ' '
  }

  /**
   * `isExternalLink` parses with `new URL(href, 'https://example.com')`,
   * so every href resolved against that base has the hostname
   * `example.com`.
   */
  ghost predicate ResolvesAgainstBase(hostname: HostParser) {
    forall href :: BaseRelative(href) ==> hostname(href) == Some("example.com")
  }

  lemma ExampleHost()
    ensures NormalHost("example.com") == "example.com"
  {
    assert ToLower("example.com") == "example.com";
  }

  /**
   * A page-relative href that starts with neither `/`, `./` nor `../` —
   * `about/`, `page.html`, `?q=1` — takes the base URL's host, so it is
   * marked external on every site but example.com.
   */
  lemma BaseRelativeExternal(href: string, currentDomain: string, hostname: HostParser)
    requires ResolvesAgainstBase(hostname)
    requires BaseRelative(href) && !NotAPageLink(href) && !Relative(href)
    ensures IsExternalLink(href, currentDomain, hostname) <==> NormalHost(currentDomain) != "example.com"
  {
    ExampleHost();
  }

  /** `about/` has no scheme. */
  lemma AboutHasNoScheme()
    ensures !HasScheme("about/")
  {
    var s := "about/";
    forall k | 0 < k < |s| && s[k] == ':'
      ensures false
    {
    }
  }

  /** With the source's base URL, the link `about/` is external on any site but example.com. */
  lemma AboutIsExternal(currentDomain: string, hostname: HostParser)
    requires ResolvesAgainstBase(hostname)
    ensures IsExternalLink("about/", currentDomain, hostname) <==> NormalHost(currentDomain) != "example.com"
  {
    AboutHasNoScheme();
    assert !StartsWith("about/", "./") && !StartsWith("about/", "../");
    BaseRelativeExternal("about/", currentDomain, hostname);
  }

  // ---------------------------------------------------------------------
  // The replacement callback

  /** One anchor the pattern matched: the whole match and its four groups. */
  datatype Anchor = Anchor(text: string, beforeHref: string, href: string, afterHref: string, rest: string)

  const Marker: string := "is-external"

  /** The replacement callback changes this anchor. */
  predicate Marks(a: Anchor, currentDomain: string, hostname: HostParser) {
    !Contains(a.text, Marker) && IsExternalLink(a.href, currentDomain, hostname)
  }

  /** The anchor with the attribute added. */
  function Marked(a: Anchor): string {
    "<a " + a.beforeHref + "href=\"" + a.href + "\"" + a.afterHref + " " + Marker + a.rest + ">"
  }

  /** The replacement callback's result for one anchor. */
  function RewriteAnchor(a: Anchor, currentDomain: string, hostname: HostParser): (r: string)
    ensures !Marks(a, currentDomain, hostname) ==> r == a.text
  {
    if Contains(a.text, Marker) then a.text
    else if IsExternalLink(a.href, currentDomain, hostname) then Marked(a)
    else a.text
  }

  lemma ContainsAt(s: string, p: string, k: nat)
    requires OccursAt(s, p, k)
    ensures Contains(s, p)
  {
    ContainsIff(s, p);
  }

  /**
   * A changed anchor carries the marker, so the callback leaves it alone
   * when it is matched again: processing a file twice marks nothing new.
   */
  lemma MarkedStaysMarked(a: Anchor, currentDomain: string, hostname: HostParser, again: Anchor)
    requires Marks(a, currentDomain, hostname) && again.text == RewriteAnchor(a, currentDomain, hostname)
    ensures Contains(RewriteAnchor(a, currentDomain, hostname), Marker)
    ensures !Marks(again, currentDomain, hostname) && RewriteAnchor(again, currentDomain, hostname) == again.text
  {
    var pre := "<a " + a.beforeHref + "href=\"" + a.href + "\"" + a.afterHref + " ";
    var r := Marked(a);
    assert r == pre + Marker + (a.rest + ">");
    assert r[|pre|..|pre| + |Marker|] == Marker;
    ContainsAt(r, Marker, |pre|);
  }

  /** Whether any anchor of a file is changed: the callback's `modified = true`. */
  function Modified(anchors: seq<Anchor>, currentDomain: string, hostname: HostParser): (r: bool)
    ensures r <==> exists j :: 0 <= j < |anchors| && Marks(anchors[j], currentDomain, hostname)
  {
    if |anchors| == 0 then false
    else
      var r' := Modified(anchors[1..], currentDomain, hostname);
      assert r' <==> exists j :: 1 <= j < |anchors| && Marks(anchors[j], currentDomain, hostname) by {
        forall j | 1 <= j < |anchors| ensures anchors[1..][j - 1] == anchors[j] {
        }
      }
      Marks(anchors[0], currentDomain, hostname) || r'
  }

  /** An unmodified file's anchors are all returned as matched: the text is unchanged. */
  lemma UnmodifiedKeepsAnchors(anchors: seq<Anchor>, currentDomain: string, hostname: HostParser)
    requires !Modified(anchors, currentDomain, hostname)
    ensures forall j :: 0 <= j < |anchors| ==> RewriteAnchor(anchors[j], currentDomain, hostname) == anchors[j].text
  {
  }

  // ---------------------------------------------------------------------
  // The run

  /** What has happened to each file so far. */
  predicate Tracked(n: nat, read: map<nat, bool>, pending: map<nat, string>,
                       rewritten: map<nat, string>, completed: set<nat>)
  {
    && (forall i :: i in read ==> i < n)
    && (forall i :: i in pending ==> i in read && read[i] && i !in completed)
    && (forall i :: i in rewritten ==> i in read && read[i] && i in completed)
    && (forall i :: i in completed ==> i in read && (read[i] <==> i in rewritten))
    && (forall i :: i in read && read[i] ==> i in pending || i in completed)
  }

  class LinksRun {
    const ctx: Build
    /** `htmlGlob` */
    const files: seq<string>
    const currentDomain: string
    const hostname: HostParser
    /** Files whose read callback ran, each with its `modified` value. */
    var read: map<nat, bool>
    /** Modified files whose write has started, with the text being written. */
    var pending: map<nat, string>
    /** Modified files whose write has finished, with their new text. */
    var rewritten: map<nat, string>
    /** Files counted by `processed++`. */
    var completed: set<nat>
    /** `processed` */
    var processed: nat
    /** The completions on which `processed === htmlGlob.length` held. */
    var firings: nat

    predicate Valid()
      reads this, ctx
    {
      && ctx.Valid()
      && Tracked(|files|, read, pending, rewritten, completed)
      && processed == |completed|
      && firings == ExactFirings(|files|, processed)
    }

    /** `processExternalLinks(configs)` with the site's domain and the glob result, up to the first asynchronous step. */
    constructor(ctx: Build, domain: string, glob: seq<string>, hostname: HostParser)
      requires ctx.Valid()
      modifies ctx
      ensures this.ctx == ctx && files == glob && currentDomain == CurrentDomain(domain) && this.hostname == hostname
      ensures read == map[] && pending == map[] && rewritten == map[] && completed == {}
      ensures processed == 0 && firings == 0 && Valid()
      ensures ctx.World() == StartTask(old(ctx.World()), EventBus.ProcessExternalLinks)
      ensures ctx.listeners == old(ctx.listeners) && ctx.names == old(ctx.names)
    {
      this.ctx := ctx;
      files := glob;
      currentDomain := CurrentDomain(domain);
      this.hostname := hostname;
      read := map[];
      pending := map[];
      rewritten := map[];
      completed := {};
      processed := 0;
      firings := 0;
      new;
      ctx.Start(EventBus.ProcessExternalLinks);
    }

    /**
     * The read of `files[i]` finished with the anchors `anchors` and the
     * replaced text `output`. A modified file's write starts; an
     * unmodified file is counted at once and the join checked.
     */
    method Read(i: nat, anchors: seq<Anchor>, output: string)
      requires Valid() && i < |files| && i !in read
      modifies this, ctx
      ensures Valid() && ctx.listeners == old(ctx.listeners) && ctx.names == old(ctx.names)
      ensures read == old(read)[i := Modified(anchors, currentDomain, hostname)] && rewritten == old(rewritten)
      ensures Modified(anchors, currentDomain, hostname) ==>
        pending == old(pending)[i := output] && completed == old(completed) && ctx.World() == old(ctx.World())
      ensures !Modified(anchors, currentDomain, hostname) ==>
        pending == old(pending) && completed == old(completed) + {i} && processed == old(processed) + 1
      ensures !Modified(anchors, currentDomain, hostname) && processed != |files| ==> ctx.World() == old(ctx.World())
      ensures !Modified(anchors, currentDomain, hostname) && processed == |files| && !old(ctx.exited) ==>
        ctx.World() == Dispatch(old(ctx.World()).(flags := Set(old(ctx.flags), FlagName.ExternalLinksProcessed, true)),
                                ctx.listeners, BuildEvents.ExternalLinksProcessed)
    {
      var modified := Modified(anchors, currentDomain, hostname);
      if modified {
        StartWrite(i, output);
      } else {
        Unchanged(i);
      }
    }

    /** An unmodified file is counted at once and the join checked. */
    method Unchanged(i: nat)
      requires Valid() && i < |files| && i !in read
      modifies this, ctx
      ensures Valid() && ctx.listeners == old(ctx.listeners) && ctx.names == old(ctx.names)
      ensures read == old(read)[i := false] && rewritten == old(rewritten) && pending == old(pending)
      ensures completed == old(completed) + {i} && processed == old(processed) + 1
      ensures processed != |files| ==> ctx.World() == old(ctx.World())
      ensures processed == |files| && !old(ctx.exited) ==>
        ctx.World() == Dispatch(old(ctx.World()).(flags := Set(old(ctx.flags), FlagName.ExternalLinksProcessed, true)),
                                ctx.listeners, BuildEvents.ExternalLinksProcessed)
    {
      read := read[i := false];
      Count(i);
      Check();
    }

    /** `fs.writeFile(htmlFileName, htmlContent, ...)` for a modified file. */
    method StartWrite(i: nat, output: string)
      requires Valid() && i < |files| && i !in read
      modifies this`read, this`pending
      ensures read == old(read)[i := true] && pending == old(pending)[i := output]
      ensures Valid()
    {
      read := read[i := true];
      pending := pending[i := output];
    }

    /** The write of modified file `i` finished: count it and check. */
    method WriteDone(i: nat)
      requires Valid() && i in pending
      modifies this, ctx
      ensures Valid() && ctx.listeners == old(ctx.listeners) && ctx.names == old(ctx.names)
      ensures read == old(read) && pending == old(pending) - {i} && rewritten == old(rewritten)[i := old(pending)[i]]
      ensures completed == old(completed) + {i} && processed == old(processed) + 1
      ensures processed != |files| ==> ctx.World() == old(ctx.World())
      ensures processed == |files| && !old(ctx.exited) ==>
        ctx.World() == Dispatch(old(ctx.World()).(flags := Set(old(ctx.flags), FlagName.ExternalLinksProcessed, true)),
                                ctx.listeners, BuildEvents.ExternalLinksProcessed)
    {
      rewritten := rewritten[i := pending[i]];
      pending := pending - {i};
      Count(i);
      Check();
    }

    /** `processed++` */
    method Count(i: nat)
      requires i < |files| && i !in completed && i in read && (read[i] <==> i in rewritten) && i !in pending
      requires Tracked(|files|, read, pending, rewritten, completed + {i})
      requires processed == |completed| && firings == ExactFirings(|files|, processed)
      modifies this`processed, this`completed
      ensures completed == old(completed) + {i} && processed == old(processed) + 1
      ensures Tracked(|files|, read, pending, rewritten, completed) && processed == |completed|
      ensures firings == ExactFirings(|files|, processed) - (if processed == |files| then 1 else 0)
    {
      Counted(i);
      completed := completed + {i};
      processed := processed + 1;
    }

    lemma Counted(i: nat)
      requires i < |files| && i !in completed
      requires Tracked(|files|, read, pending, rewritten, completed + {i})
      requires processed == |completed| && firings == ExactFirings(|files|, processed)
      ensures firings == ExactFirings(|files|, processed + 1) - (if processed + 1 == |files| then 1 else 0)
    {
      CountedOnce(completed + {i}, |files|);
      CountedOnce(completed, |files|);
    }

    /** `checkComplete()` */
    method Check()
      requires ctx.Valid()
      modifies this`firings, ctx
      ensures ctx.listeners == old(ctx.listeners) && ctx.names == old(ctx.names) && ctx.Valid()
      ensures processed != |files| ==> ctx.World() == old(ctx.World()) && firings == old(firings)
      ensures processed == |files| ==> firings == old(firings) + 1
      ensures processed == |files| && !old(ctx.exited) ==>
        ctx.World() == Dispatch(old(ctx.World()).(flags := Set(old(ctx.flags), FlagName.ExternalLinksProcessed, true)),
                                ctx.listeners, BuildEvents.ExternalLinksProcessed)
    {
      if processed == |files| {
        firings := firings + 1;
        ctx.Complete(FlagName.ExternalLinksProcessed, BuildEvents.ExternalLinksProcessed);
      }
    }

    /**
     * Once every file is finished, the files written are exactly the
     * modified ones, and the event was published once, or never for an
     * empty glob.
     */
    lemma AllProcessed()
      requires Valid() && forall i :: 0 <= i < |files| ==> i in completed
      ensures processed == |files| && pending == map[]
      ensures forall i :: 0 <= i < |files| ==> (i in rewritten <==> read[i])
      ensures firings == (if |files| == 0 then 0 else 1)
    {
      IndexSetBound(completed, |files|);
      AllIndicesCounted(completed, |files|);
      ExactFiringsCount(|files|, processed);
    }
  }
}
