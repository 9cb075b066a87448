/**
 * `POST /api/extract`: turns a url or a pasted text into an
 * `ExtractedContent`. The fetched page is represented by what the route's
 * DOM queries return; fetching, HTML parsing and the URL parser are
 * parameters.
 */
module Extract {
  import opened Wrappers
  import opened Strings
  import opened Types
  import opened ContentUtils

  // ---------------------------------------------------------------------------
  // The `a || b || c` fallback chains

  /**
   * The first candidate that is present and not empty, or `fallback`. A
   * text query is always a `Some` (the empty text when nothing matched);
   * an attribute query is `None` when the element or attribute is missing.
   */
  function FirstPresent(candidates: seq<Option<string>>, fallback: string): (r: string)
    ensures (forall i :: 0 <= i < |candidates| ==> !Present(candidates[i])) ==> r == fallback
    ensures forall i :: (0 <= i < |candidates| && Present(candidates[i]) &&
      forall j :: 0 <= j < i ==> !Present(candidates[j])) ==> r == candidates[i].value
  {
    if |candidates| == 0 then fallback
    else if Present(candidates[0]) then candidates[0].value
    else
      FirstPresentTail(candidates, fallback);
      FirstPresent(candidates[1..], fallback)
  }

  lemma FirstPresentTail(candidates: seq<Option<string>>, fallback: string)
    requires |candidates| > 0 && !Present(candidates[0])
    ensures forall i :: 1 <= i < |candidates| ==> candidates[1..][i - 1] == candidates[i]
  {
  }

  /** A chain gives its fallback or the value of one of its present candidates. */
  lemma {:induction false} FirstPresentFrom(candidates: seq<Option<string>>, fallback: string)
    ensures FirstPresent(candidates, fallback) == fallback ||
      exists i :: 0 <= i < |candidates| && Present(candidates[i]) && FirstPresent(candidates, fallback) == candidates[i].value
  {
    if |candidates| > 0 && !Present(candidates[0]) {
      FirstPresentFrom(candidates[1..], fallback);
      if FirstPresent(candidates, fallback) != fallback {
        var i :| 0 <= i < |candidates[1..]| && Present(candidates[1..][i]) &&
          FirstPresent(candidates[1..], fallback) == candidates[1..][i].value;
        assert candidates[1..][i] == candidates[i + 1];
      }
    }
  }

  // ---------------------------------------------------------------------------
  // The fetched page

  /** `$(selector)` for a content container: how many elements match, their text, and the first one's HTML. */
  datatype Selection = Selection(count: nat, text: string, html: Option<string>)

  /**
   * The results of the route's DOM queries on the fetched page: the text of
   * `title`, of the first `h1`, `.author`, `[rel="author"]` and `time`; the
   * attributes of the meta tags; the content containers; the body's HTML.
   */
  datatype Page = Page(
    title: string,
    ogTitle: Option<string>,
    h1: string,
    metaDescription: Option<string>,
    ogDescription: Option<string>,
    metaAuthor: Option<string>,
    articleAuthor: Option<string>,
    authorClass: string,
    relAuthor: string,
    publishedTime: Option<string>,
    timeDatetime: Option<string>,
    timeText: string,
    ogImage: Option<string>,
    twitterImage: Option<string>,
    ogSiteName: Option<string>,
    select: string -> Selection,
    body: Option<string>)

  const UNTITLED := "Untitled"

  function Title(p: Page): string {
    FirstPresent([Some(p.title), p.ogTitle, Some(p.h1)], UNTITLED)
  }

  function Description(p: Page): string {
    FirstPresent([p.metaDescription, p.ogDescription], "")
  }

  function Author(p: Page): string {
    FirstPresent([p.metaAuthor, p.articleAuthor, Some(p.authorClass), Some(p.relAuthor)], "")
  }

  function PublishedDate(p: Page): string {
    FirstPresent([p.publishedTime, p.timeDatetime, Some(p.timeText)], "")
  }

  function Image(p: Page): string {
    FirstPresent([p.ogImage, p.twitterImage], "")
  }

  /** `og:site_name`, else the url's host name. */
  function SiteName(p: Page, hostname: string): string {
    FirstPresent([p.ogSiteName], hostname)
  }

  /** The title is the first non-empty of the page title, `og:title` and the first heading, and "Untitled" only when all three are empty. */
  lemma TitleChain(p: Page)
    ensures p.title != "" ==> Title(p) == p.title
    ensures p.title == "" && Present(p.ogTitle) ==> Title(p) == p.ogTitle.value
    ensures p.title == "" && !Present(p.ogTitle) && p.h1 != "" ==> Title(p) == p.h1
    ensures Title(p) == UNTITLED <== p.title == "" && !Present(p.ogTitle) && p.h1 == ""
    ensures Title(p) != ""
  {
    var cs := [Some(p.title), p.ogTitle, Some(p.h1)];
    assert cs[0] == Some(p.title) && cs[1] == p.ogTitle && cs[2] == Some(p.h1);
    FirstPresentFrom(cs, UNTITLED);
  }

  /** The site name is `og:site_name` when the page has a non-empty one, else the host name. */
  lemma SiteNameChain(p: Page, hostname: string)
    ensures Present(p.ogSiteName) ==> SiteName(p, hostname) == p.ogSiteName.value
    ensures !Present(p.ogSiteName) ==> SiteName(p, hostname) == hostname
  {
    assert [p.ogSiteName][0] == p.ogSiteName;
  }

  // ---------------------------------------------------------------------------
  // The main content

  const CONTENT_SELECTORS: seq<string> := [
    "article", "[role=\"main\"]", "main", ".content", ".post-content",
    ".entry-content", ".article-content", "#content", ".main-content"]

  /** Whether `s` replaces a current best `main`: it matched, and its text is longer than `main`'s HTML. */
  predicate Beats(s: Selection, main: string) {
    s.count > 0 && |s.text| > |main|
  }

  /** The HTML the loop keeps for a selection it takes. */
  function Taken(s: Selection): string {
    OrElse(s.html, "")
  }

  /** The loop's `mainContent` after visiting `ss` in order. */
  function ChooseMain(ss: seq<Selection>): (main: string)
    ensures main == "" || exists i :: 0 <= i < |ss| && ss[i].count > 0 && main == Taken(ss[i])
  {
    if ss == [] then ""
    else
      var before := ChooseMain(ss[..|ss| - 1]);
      var last := ss[|ss| - 1];
      if Beats(last, before) then Taken(last)
      else
        assert forall i :: 0 <= i < |ss| - 1 ==> ss[..|ss| - 1][i] == ss[i];
        before
  }

  /** The position of the selection whose HTML the loop kept last, if any. */
  function Winner(ss: seq<Selection>): (w: Option<nat>)
    ensures w.Some? ==> w.value < |ss|
  {
    if ss == [] then None
    else if Beats(ss[|ss| - 1], ChooseMain(ss[..|ss| - 1])) then Some(|ss| - 1)
    else Winner(ss[..|ss| - 1])
  }

  /**
   * The kept HTML is the winner's; the winner beat the best before it, and
   * no later selection beat the winner's HTML. Without a winner nothing
   * matched with a text longer than "".
   */
  lemma {:induction false} WinnerFacts(ss: seq<Selection>)
    ensures Winner(ss).None? ==> ChooseMain(ss) == "" && forall i :: 0 <= i < |ss| ==> !Beats(ss[i], "")
    ensures Winner(ss).Some? ==>
      var w := Winner(ss).value;
      ChooseMain(ss) == Taken(ss[w]) && Beats(ss[w], ChooseMain(ss[..w])) &&
      forall j :: w < j < |ss| ==> !Beats(ss[j], Taken(ss[w]))
  {
    if ss != [] {
      var pre := ss[..|ss| - 1];
      WinnerFacts(pre);
      assert forall i :: 0 <= i < |pre| ==> pre[i] == ss[i];
      if Winner(ss).Some? && Winner(pre).Some? && Winner(ss) == Winner(pre) {
        var w := Winner(pre).value;
        assert pre[..w] == ss[..w];
      }
    }
  }

  /** The first selection that matched with some text is always taken at its turn. */
  lemma FirstMatchTaken(ss: seq<Selection>, k: nat)
    requires k < |ss| && Beats(ss[k], "")
    requires forall i :: 0 <= i < k ==> !Beats(ss[i], "")
    ensures ChooseMain(ss[..k + 1]) == Taken(ss[k])
  {
    WinnerFacts(ss[..k]);
    assert forall i :: 0 <= i < k ==> ss[..k][i] == ss[i];
    assert ss[..k + 1][..k] == ss[..k];
  }

  function Selections(page: Page): (ss: seq<Selection>)
    ensures |ss| == |CONTENT_SELECTORS|
  {
    seq(|CONTENT_SELECTORS|, i requires 0 <= i < |CONTENT_SELECTORS| => page.select(CONTENT_SELECTORS[i]))
  }

  /** The `for` loop over the content selectors. */
  method SelectMainContent(page: Page) returns (main: string)
    ensures main == ChooseMain(Selections(page))
  {
    ghost var ss := Selections(page);
    main := "";
    for i := 0 to |CONTENT_SELECTORS|
      invariant main == ChooseMain(ss[..i])
    {
      var element := page.select(CONTENT_SELECTORS[i]);
      assert ss[..i + 1][..i] == ss[..i];
      if element.count > 0 && |element.text| > |main| {
        main := OrElse(element.html, "");
      }
    }
    assert ss[..|CONTENT_SELECTORS|] == ss;
  }

  const MIN_CONTENT := 100

  /** The main HTML, falling back to the body's when the containers gave less than 100 characters. */
  function MainHtml(page: Page): (html: string)
    ensures |ChooseMain(Selections(page))| >= MIN_CONTENT ==> html == ChooseMain(Selections(page))
    ensures |ChooseMain(Selections(page))| < MIN_CONTENT ==> html == OrElse(page.body, "")
  {
    var main := ChooseMain(Selections(page));
    if main == "" || |main| < MIN_CONTENT then OrElse(page.body, "") else main
  }

  // ---------------------------------------------------------------------------
  // POST

  /** The request body: `url` and `text` as parsed, or what `request.json()` threw. */
  datatype ExtractBody = Fields(url: Option<string>, text: Option<string>) | Unreadable(thrown: Thrown)

  /** What `fetch` gave: a response with its `ok` flag, status text and parsed page, or what it threw. */
  datatype Fetched = Response(ok: bool, statusText: string, page: Page) | FetchFailed(thrown: Thrown)

  const URL_OR_TEXT_REQUIRED := "Either URL or text content is required"
  const USER_TEXT_TITLE := "User Provided Text"
  const USER_INPUT := "User Input"
  const INVALID_URL := "Invalid URL format"
  const FETCH_FAILED := "Failed to fetch content: "
  const NO_CONTENT := "Could not extract meaningful content from the provided URL"
  const EXTRACT_FAILED := "Failed to extract content"

  /** The record for pasted text: its fixed title and author, the request date, the text unchanged. */
  function UserText(text: string, date: string): (e: ExtractedContent)
    ensures e.content == text && e.url.None? && e.metadata.None?
    ensures e.title == USER_TEXT_TITLE && e.author == Some(USER_INPUT) && e.publishedDate == Some(date)
  {
    ExtractedContent(USER_TEXT_TITLE, Some(USER_INPUT), Some(date), text, None, None)
  }

  /**
   * The record for a page: trimmed title, author and description (absent
   * when empty after trimming), the cleaned text and the url.
   */
  function PageRecord(url: string, page: Page, hostname: string): (e: ExtractedContent)
    ensures e.content == ExtractTextContent(MainHtml(page)) && e.url == Some(url)
    ensures e.title == Trim(Title(page)) && Trimmed(e.title)
    ensures e.author.Some? <==> Trim(Author(page)) != ""
    ensures e.author.Some? ==> e.author.value == Trim(Author(page)) && Trimmed(e.author.value)
    ensures e.publishedDate == Defined(PublishedDate(page))
    ensures e.metadata.Some? && e.metadata.value.description == Defined(Trim(Description(page)))
    ensures e.metadata.value.image == Defined(Image(page))
    ensures e.metadata.value.siteName == Defined(SiteName(page, hostname))
  {
    TrimShape(Title(page));
    TrimShape(Author(page));
    ExtractedContent(Trim(Title(page)), Defined(Trim(Author(page))), Defined(PublishedDate(page)),
      ExtractTextContent(MainHtml(page)), Some(url),
      Some(Metadata(Defined(Trim(Description(page))), Defined(Image(page)), Defined(SiteName(page, hostname)))))
  }

  /**
   * `POST /api/extract`. `validUrl` is `isValidUrl`, `fetch` the page
   * request, `hostname` the host of `new URL(url)`, `date` the current time.
   * `fetched` lists the urls the route requested.
   */
  method Post(body: ExtractBody, validUrl: string -> bool, fetch: string -> Fetched,
              hostname: string -> string, date: string)
    returns (response: ApiResponse<ExtractedContent>, fetched: seq<string>)
    ensures body.Unreadable? ==> response == Failure(MessageOr(body.thrown, EXTRACT_FAILED)) && fetched == []
    ensures body.Fields? && !Present(body.url) && !Present(body.text) ==>
      response == Failure(URL_OR_TEXT_REQUIRED) && fetched == []
    ensures body.Fields? && Present(body.text) ==> response == Success(UserText(body.text.value, date)) && fetched == []
    ensures body.Fields? && !Present(body.text) && Present(body.url) && !validUrl(body.url.value) ==>
      response == Failure(INVALID_URL) && fetched == []
    ensures fetched != [] ==>
      body.Fields? && !Present(body.text) && Present(body.url) && validUrl(body.url.value) && fetched == [body.url.value]
    ensures fetched != [] ==>
      var url := body.url.value;
      match fetch(url)
      case FetchFailed(t) => response == Failure(MessageOr(t, EXTRACT_FAILED))
      case Response(ok, statusText, page) =>
        (!ok ==> response == Failure(FETCH_FAILED + statusText)) &&
        (ok && |ExtractTextContent(MainHtml(page))| < MIN_CONTENT ==> response == Failure(NO_CONTENT)) &&
        (ok && |ExtractTextContent(MainHtml(page))| >= MIN_CONTENT ==> response == Success(PageRecord(url, page, hostname(url))))
    ensures body.Fields? && !Present(body.text) && Present(body.url) && validUrl(body.url.value) ==> fetched != []
  {
    fetched := [];
    if body.Unreadable? {
      response := Failure(MessageOr(body.thrown, EXTRACT_FAILED));
      return;
    }
    if !Present(body.url) && !Present(body.text) {
      response := Failure(URL_OR_TEXT_REQUIRED);
      return;
    }
    if Present(body.text) {
      response := Success(UserText(body.text.value, date));
      return;
    }
    var url := body.url.value;
    if !validUrl(url) {
      response := Failure(INVALID_URL);
      return;
    }
    fetched := [url];
    var result := fetch(url);
    if result.FetchFailed? {
      response := Failure(MessageOr(result.thrown, EXTRACT_FAILED));
      return;
    }
    if !result.ok {
      response := Failure(FETCH_FAILED + result.statusText);
      return;
    }
    var page := result.page;
    var main := SelectMainContent(page);
    if main == "" || |main| < MIN_CONTENT {
      main := OrElse(page.body, "");
    }
    var clean := ExtractTextContent(main);
    if clean == "" || |clean| < MIN_CONTENT {
      response := Failure(NO_CONTENT);
      return;
    }
    response := Success(PageRecord(url, page, hostname(url)));
  }

  /** A successful page extraction always carries at least 100 characters of single-spaced, trimmed text. */
  lemma PageContent(url: string, page: Page, hostname: string)
    requires |ExtractTextContent(MainHtml(page))| >= MIN_CONTENT
    ensures var e := PageRecord(url, page, hostname);
      |e.content| >= MIN_CONTENT && SingleSpaced(e.content) && Trimmed(e.content)
  {
    ExtractTextContentNormalised(MainHtml(page));
  }
}
