/**
 * The depth-bounded crawler of Spider/spider.py.
 *
 * The network and the HTML parser are abstracted into a `Web` oracle: a fetch
 * either fails or yields a `Page`, the prettified document together with the
 * `href` values of its anchors in document order. What is left is a small,
 * sequential state machine over two fields, the memory table and the staging
 * buffer (the accumulator) that is flushed into it in batches.
 */
module Crawler {
  import opened Wrappers

  /** One row of the memory table: a fetched address and its prettified document. */
  datatype Record = Record(url: string, content: string)

  /**
   * A successfully fetched and parsed page: the prettified document and the
   * `href` attribute of every anchor, in document order (`None` for an anchor
   * without one).
   */
  datatype Page = Page(content: string, hrefs: seq<Option<string>>)

  /** The network as `get_response` sees it: an address that is not a key fails. */
  type Web = map<string, Page>

  /** The flush threshold the crawler is created with. */
  const AccumulatorMaxSize: nat := 10

  /** `get_response`: the page at `url`, or `None` when the request fails. */
  function Fetch(web: Web, url: string): (r: Option<Page>)
    ensures r.Some? <==> url in web
    ensures r.Some? ==> r.value == web[url]
  {
    if url in web then Some(web[url]) else None
  }

  /** How an f-string renders the base address: an unset base prints as "None". */
  function BaseText(base: Option<string>): string
  {
    match base
    case None => "None"
    case Some(b) => b
  }

  /**
   * `validate_url`: resolves a link target against the base address. The
   * target is never altered, only prefixed, and when the base is an http(s)
   * address so is every result.
   */
  function ValidateUrl(base: Option<string>, href: string): (r: string)
    ensures |href| <= |r| && r[|r| - |href|..] == href
    ensures "http" <= BaseText(base) ==> "http" <= r
  {
    if "http" <= href then href
    else if "//" <= href then "https:" + href
    else if "/" <= href then BaseText(base) + href
    else BaseText(base) + "/" + href
  }

  /** A prefix of a sequence stays a prefix once something is appended. */
  lemma PrefixOfConcat<T>(p: seq<T>, s: seq<T>, t: seq<T>)
    requires p <= s
    ensures p <= s + t
  {
    assert (s + t)[..|p|] == s[..|p|];
  }

  /** A sequence that differs from `p` at some position of both does not start with `p`. */
  lemma NotPrefix<T>(p: seq<T>, s: seq<T>, i: nat)
    requires i < |p| && i < |s| && p[i] != s[i]
    ensures !(p <= s)
  {
  }

  /**
   * Resolving twice is resolving once when the target already starts with
   * "http", or when the base address does: every result then starts with
   * "http" and is returned unchanged by the first rule.
   */
  lemma ValidateUrlIdempotent(base: Option<string>, href: string)
    requires "http" <= href || "http" <= BaseText(base)
    ensures ValidateUrl(base, ValidateUrl(base, href)) == ValidateUrl(base, href)
  {
    var r := ValidateUrl(base, href);
    if "http" <= href {
    } else if "//" <= href {
      assert "https:" <= "https:" + href;
      PrefixOfConcat("http", "https:", href);
    } else if "/" <= href {
      PrefixOfConcat("http", BaseText(base), href);
    } else {
      PrefixOfConcat("http", BaseText(base), "/");
      PrefixOfConcat("http", BaseText(base) + "/", href);
    }
    assert "http" <= r;
  }

  /**
   * Without an http(s) base the resolution is not idempotent: a relative
   * target resolved against "x.com" resolves again to a longer address.
   */
  lemma ValidateUrlNotIdempotentWithoutScheme()
    ensures ValidateUrl(Some("x.com"), "a") == "x.com/a"
    ensures ValidateUrl(Some("x.com"), ValidateUrl(Some("x.com"), "a")) == "x.com/x.com/a"
  {
    NotPrefix("http", "a", 0);
    NotPrefix("//", "a", 0);
    NotPrefix("/", "a", 0);
    NotPrefix("http", "x.com/a", 0);
    NotPrefix("//", "x.com/a", 0);
    NotPrefix("/", "x.com/a", 0);
  }

  /** The four rules on concrete targets resolved against an https base. */
  lemma ValidateUrlExamples()
    ensures ValidateUrl(Some("https://x.com"), "/a") == "https://x.com/a"
    ensures ValidateUrl(Some("https://x.com"), "//cdn.y.com/b") == "https://cdn.y.com/b"
    ensures ValidateUrl(Some("https://x.com"), "c") == "https://x.com/c"
    ensures ValidateUrl(Some("https://x.com"), "http://z.org/d") == "http://z.org/d"
    ensures ValidateUrl(None, "e") == "None/e"
  {
    NotPrefix("http", "/a", 0);
    NotPrefix("//", "/a", 1);
    NotPrefix("http", "//cdn.y.com/b", 0);
    assert "https:" + "//cdn.y.com/b" == "https://cdn.y.com/b";
    NotPrefix("http", "c", 0);
    NotPrefix("//", "c", 0);
    NotPrefix("/", "c", 0);
    NotPrefix("http", "e", 0);
    NotPrefix("//", "e", 0);
    NotPrefix("/", "e", 0);
  }

  /** The crawler's two mutable fields as a value. */
  datatype Store = Store(memory: seq<Record>, accumulator: seq<Record>)

  /** Everything captured so far: the flushed rows followed by the staged ones. */
  function Log(s: Store): seq<Record>
  {
    s.memory + s.accumulator
  }

  /** What a crawl depends on besides its state: the network, the base address, the flush threshold. */
  datatype Crawl = Crawl(web: Web, base: Option<string>, capacity: nat)

  /** The membership test of `spidy_trip`: is `url` in the url column of `rows`? */
  predicate Recorded(url: string, rows: seq<Record>)
  {
    exists i :: 0 <= i < |rows| && rows[i].url == url
  }

  /** A record that a successful fetch of its address produced. */
  predicate Captured(web: Web, rec: Record)
  {
    rec.url in web && web[rec.url].content == rec.content
  }

  /** `update_memory`: the staged rows are appended to memory and the buffer is emptied. */
  function Flush(s: Store): (r: Store)
    ensures Log(r) == Log(s) && r.accumulator == []
  {
    Store(s.memory + s.accumulator, [])
  }

  /** Flushing twice in a row is flushing once. */
  lemma FlushIdempotent(s: Store)
    ensures Flush(Flush(s)) == Flush(s)
    ensures Log(Flush(s)) == Log(s)
  {
    assert Flush(s).memory + [] == Flush(s).memory;
  }

  /** Staging one fetched page, flushing once the buffer reaches the threshold. */
  function Capture(c: Crawl, url: string, page: Page, s: Store): (r: Store)
    ensures Log(r) == Log(s) + [Record(url, page.content)]
    ensures |s.accumulator| < c.capacity ==> |r.accumulator| < c.capacity
  {
    var staged := Store(s.memory, s.accumulator + [Record(url, page.content)]);
    assert Log(staged) == Log(s) + [Record(url, page.content)];
    if |staged.accumulator| >= c.capacity then Flush(staged) else staged
  }

  /** Staging a row below the threshold only appends it to the buffer: memory is untouched. */
  lemma CaptureBelow(c: Crawl, url: string, page: Page, s: Store)
    requires |s.accumulator| + 1 < c.capacity
    ensures Capture(c, url, page, s) == Store(s.memory, s.accumulator + [Record(url, page.content)])
  {
  }

  /** Staging a row that reaches the threshold flushes the buffer with it. */
  lemma CaptureAtThreshold(c: Crawl, url: string, page: Page, s: Store)
    requires |s.accumulator| + 1 >= c.capacity
    ensures Capture(c, url, page, s) == Store(s.memory + s.accumulator + [Record(url, page.content)], [])
  {
  }

  /** `spidy_trip` on values: the state after visiting `url` with `depth` levels left. */
  function Visit(c: Crawl, url: string, depth: nat, s: Store): Store
    decreases depth, 0
  {
    if depth == 0 || Recorded(url, s.memory) then s
    else match Fetch(c.web, url)
      case None => s
      case Some(page) => VisitAll(c, page.hrefs, depth - 1, Capture(c, url, page, s))
  }

  /** The loop over a page's anchors: every non-empty target is resolved and visited in turn. */
  function VisitAll(c: Crawl, hrefs: seq<Option<string>>, depth: nat, s: Store): Store
    decreases depth, 1, |hrefs|
  {
    if hrefs == [] then s
    else
      var next :=
        if hrefs[0].Some? && hrefs[0].value != "" then Visit(c, ValidateUrl(c.base, hrefs[0].value), depth, s)
        else s;
      VisitAll(c, hrefs[1..], depth, next)
  }

  /**
   * How a crawl may change the state: memory only grows at its end, the log of
   * captured rows only grows at its end and every row it gains was captured
   * from the web, and a buffer below the threshold stays below it.
   */
  ghost predicate Grows(c: Crawl, s: Store, r: Store)
  {
    && s.memory <= r.memory
    && Log(s) <= Log(r)
    && (forall k :: |Log(s)| <= k < |Log(r)| ==> Captured(c.web, Log(r)[k]))
    && (|s.accumulator| < c.capacity ==> |r.accumulator| < c.capacity)
  }

  lemma GrowsTransitive(c: Crawl, s: Store, t: Store, u: Store)
    requires Grows(c, s, t) && Grows(c, t, u)
    ensures Grows(c, s, u)
  {
    forall k | |Log(s)| <= k < |Log(u)|
      ensures Captured(c.web, Log(u)[k])
    {
      if k < |Log(t)| {
        assert Log(u)[k] == Log(t)[k];
      }
    }
  }

  /** Staging a fetched page appends exactly its record to the log. */
  lemma CaptureGrows(c: Crawl, url: string, page: Page, s: Store)
    requires url in c.web && c.web[url] == page
    ensures Grows(c, s, Capture(c, url, page, s))
  {
    var r := Capture(c, url, page, s);
    PrefixOfConcat(s.memory, s.memory, s.accumulator + [Record(url, page.content)]);
    PrefixOfConcat(Log(s), Log(s), [Record(url, page.content)]);
    assert Log(r)[|Log(s)|] == Record(url, page.content);
  }

  /** A visit only ever grows the state (see `Grows`). */
  lemma {:induction false} VisitGrows(c: Crawl, url: string, depth: nat, s: Store)
    ensures Grows(c, s, Visit(c, url, depth, s))
    decreases depth, 0
  {
    if depth == 0 || Recorded(url, s.memory) || url !in c.web {
    } else {
      var page := c.web[url];
      var s1 := Capture(c, url, page, s);
      CaptureGrows(c, url, page, s);
      VisitAllGrows(c, page.hrefs, depth - 1, s1);
      GrowsTransitive(c, s, s1, Visit(c, url, depth, s));
    }
  }

  /** Visiting a page's anchors only ever grows the state (see `Grows`). */
  lemma {:induction false} VisitAllGrows(c: Crawl, hrefs: seq<Option<string>>, depth: nat, s: Store)
    ensures Grows(c, s, VisitAll(c, hrefs, depth, s))
    decreases depth, 1, |hrefs|
  {
    if hrefs != [] {
      var next :=
        if hrefs[0].Some? && hrefs[0].value != "" then Visit(c, ValidateUrl(c.base, hrefs[0].value), depth, s)
        else s;
      if hrefs[0].Some? && hrefs[0].value != "" {
        VisitGrows(c, ValidateUrl(c.base, hrefs[0].value), depth, s);
      }
      VisitAllGrows(c, hrefs[1..], depth, next);
      GrowsTransitive(c, s, next, VisitAll(c, hrefs, depth, s));
    }
  }

  /**
   * A visit with depth left, to an address not yet in memory, whose fetch
   * succeeds, records that page first: its row is the next row of the log.
   */
  lemma VisitCaptures(c: Crawl, url: string, depth: nat, s: Store)
    requires depth > 0 && !Recorded(url, s.memory) && url in c.web
    ensures |Log(s)| < |Log(Visit(c, url, depth, s))|
    ensures Log(Visit(c, url, depth, s))[|Log(s)|] == Record(url, c.web[url].content)
  {
    var page := c.web[url];
    var s1 := Capture(c, url, page, s);
    CaptureGrows(c, url, page, s);
    VisitAllGrows(c, page.hrefs, depth - 1, s1);
    assert Log(s1)[|Log(s)|] == Record(url, page.content);
  }

  /** Every row of `rows` was captured from `web`. */
  predicate AllCaptured(web: Web, rows: seq<Record>)
  {
    forall k :: 0 <= k < |rows| ==> Captured(web, rows[k])
  }

  /**
   * If every row so far came from a successful fetch, so does every row after
   * a visit: an address whose fetch fails never reaches the log.
   */
  lemma VisitKeepsCaptured(c: Crawl, url: string, depth: nat, s: Store)
    requires AllCaptured(c.web, Log(s))
    ensures AllCaptured(c.web, Log(Visit(c, url, depth, s)))
  {
    var r := Visit(c, url, depth, s);
    VisitGrows(c, url, depth, s);
    forall k | 0 <= k < |Log(r)| ensures Captured(c.web, Log(r)[k]) {
      if k < |Log(s)| {
        assert Log(r)[k] == Log(s)[k];
      }
    }
  }

  /** A visit that neither skips nor fails stages the page and then follows its anchors. */
  lemma VisitUnfold(c: Crawl, url: string, depth: nat, s: Store)
    requires depth > 0 && !Recorded(url, s.memory) && url in c.web
    ensures Visit(c, url, depth, s) == VisitAll(c, c.web[url].hrefs, depth - 1, Capture(c, url, c.web[url], s))
  {
  }

  /**
   * The staging step of a visit as the method performs it: once the page is
   * staged (and flushed at the threshold), what remains is the anchor loop.
   */
  lemma CaptureStep(c: Crawl, url: string, depth: nat, s: Store, staged: Store)
    requires depth > 0 && !Recorded(url, s.memory) && url in c.web
    requires var st := Store(s.memory, s.accumulator + [Record(url, c.web[url].content)]);
             staged == if |st.accumulator| >= c.capacity then Flush(st) else st
    ensures VisitAll(c, c.web[url].hrefs, depth - 1, staged) == Visit(c, url, depth, s)
  {
    VisitUnfold(c, url, depth, s);
  }

  /** One turn of the anchor loop: the first remaining target is followed, then the rest. */
  lemma VisitAllStep(c: Crawl, hrefs: seq<Option<string>>, i: nat, depth: nat, s: Store)
    requires i < |hrefs|
    ensures VisitAll(c, hrefs[i..], depth, s)
         == VisitAll(c, hrefs[i + 1..], depth,
                     if hrefs[i].Some? && hrefs[i].value != "" then Visit(c, ValidateUrl(c.base, hrefs[i].value), depth, s)
                     else s)
  {
    assert hrefs[i..][0] == hrefs[i];
    assert hrefs[i..][1..] == hrefs[i + 1..];
  }

  /**
   * One turn of the anchor loop as the method performs it: when `after` is
   * the state once the turn's target (if any) has been visited, what remains
   * of the loop from `after` ends where the loop from `before` would.
   */
  lemma LoopTurn(c: Crawl, hrefs: seq<Option<string>>, i: nat, depth: nat, before: Store, after: Store, goal: Store)
    requires i < |hrefs|
    requires VisitAll(c, hrefs[i..], depth, before) == goal
    requires hrefs[i].Some? && hrefs[i].value != "" ==> after == Visit(c, ValidateUrl(c.base, hrefs[i].value), depth, before)
    requires !(hrefs[i].Some? && hrefs[i].value != "") ==> after == before
    ensures VisitAll(c, hrefs[i + 1..], depth, after) == goal
  {
    VisitAllStep(c, hrefs, i, depth, before);
  }

  /**
   * Everything a single visit promises: it is a no-op exactly when it skips
   * the address or the fetch fails; otherwise the page's row comes next in the
   * log; and in every case the state only grows.
   */
  lemma VisitEffects(c: Crawl, url: string, depth: nat, s: Store)
    ensures depth == 0 || Recorded(url, s.memory) || url !in c.web ==> Visit(c, url, depth, s) == s
    ensures depth > 0 && !Recorded(url, s.memory) && url in c.web ==>
              |Log(s)| < |Log(Visit(c, url, depth, s))| &&
              Log(Visit(c, url, depth, s))[|Log(s)|] == Record(url, c.web[url].content)
    ensures Grows(c, s, Visit(c, url, depth, s))
  {
    VisitGrows(c, url, depth, s);
    if depth > 0 && !Recorded(url, s.memory) && url in c.web {
      VisitCaptures(c, url, depth, s);
    }
  }

  /**
   * The crawler object: the memory table, the staging buffer and its
   * threshold, and the base address links are resolved against.
   */
  class Spider {
    var baseUrl: Option<string>
    var memory: seq<Record>
    var accumulator: seq<Record>
    const accumulatorMaxSize: nat

    constructor (baseUrl: Option<string>)
      ensures this.baseUrl == baseUrl
      ensures memory == [] && accumulator == []
      ensures accumulatorMaxSize == AccumulatorMaxSize
    {
      this.baseUrl := baseUrl;
      memory := [];
      accumulator := [];
      accumulatorMaxSize := AccumulatorMaxSize;
    }

    /** The two mutable fields as a value. */
    function State(): Store
      reads this
    {
      Store(memory, accumulator)
    }

    /** What a crawl over `web` by this spider depends on. */
    function Config(web: Web): Crawl
      reads this
    {
      Crawl(web, baseUrl, accumulatorMaxSize)
    }

    /** The staging buffer is below its flush threshold. */
    predicate Bounded()
      reads this
    {
      |accumulator| < accumulatorMaxSize
    }

    /** `set_landing`: changes the base address and nothing else. */
    method SetLanding(baseUrl: Option<string>)
      modifies this`baseUrl
      ensures this.baseUrl == baseUrl
    {
      this.baseUrl := baseUrl;
    }

    /** `update_memory`: moves the staged rows, in order, to the end of memory. */
    method UpdateMemory()
      modifies this`memory, this`accumulator
      ensures memory == old(memory) + old(accumulator) && accumulator == []
      ensures old(accumulator) == [] ==> memory == old(memory)
      ensures Log(State()) == old(Log(State()))
    {
      memory := memory + accumulator;
      accumulator := [];
    }

    /** `save_memory` up to the file write: it flushes the buffer first. */
    method SaveMemory()
      modifies this`memory, this`accumulator
      ensures memory == old(memory) + old(accumulator) && accumulator == []
    {
      UpdateMemory();
    }

    /** `spidy_trip`: visits `url` and, depth first, every page it links to. */
    method SpidyTrip(web: Web, url: string, depth: nat)
      modifies this`memory, this`accumulator
      decreases depth
      ensures State() == Visit(Config(web), url, depth, old(State()))
      ensures depth == 0 || Recorded(url, old(memory)) || url !in web ==>
                memory == old(memory) && accumulator == old(accumulator)
      ensures depth > 0 && !Recorded(url, old(memory)) && url in web ==>
                |old(Log(State()))| < |Log(State())| &&
                Log(State())[|old(Log(State()))|] == Record(url, web[url].content)
      ensures old(memory) <= memory
      ensures old(Bounded()) ==> Bounded()
    {
      ghost var s0 := State();
      ghost var c := Config(web);
      VisitEffects(c, url, depth, s0);
      if depth == 0 || Recorded(url, memory) {
        return;
      }
      var response := Fetch(web, url);
      if response.None? {
        return;
      }
      var page := response.value;
      accumulator := accumulator + [Record(url, page.content)];
      if |accumulator| >= accumulatorMaxSize {
        UpdateMemory();
      }
      ghost var goal := Visit(c, url, depth, s0);
      CaptureStep(c, url, depth, s0, State());
      var threads := page.hrefs;
      for i := 0 to |threads|
        invariant Config(web) == c
        invariant VisitAll(c, threads[i..], depth - 1, State()) == goal
      {
        ghost var before := State();
        var href := threads[i];
        if href.Some? && href.value != "" {
          var nextUrl := ValidateUrl(baseUrl, href.value);
          SpidyTrip(web, nextUrl, depth - 1);
        }
        LoopTurn(c, threads, i, depth - 1, before, State(), goal);
      }
    }
  }

  /** A fresh spider that crawls from `url` and then saves: the rows it writes. */
  function CrawlAndSave(c: Crawl, url: string, depth: nat): seq<Record>
  {
    Flush(Visit(c, url, depth, Store([], []))).memory
  }

  /** The rows saved after a crawl that ends in `s`: its memory, then what is still staged. */
  lemma CrawlAndSaveOf(c: Crawl, url: string, depth: nat, s: Store)
    requires Visit(c, url, depth, Store([], [])) == s
    ensures CrawlAndSave(c, url, depth) == s.memory + s.accumulator
  {
  }
}

/** End-to-end crawls over a three-page site. */
module CrawlerScenarios {
  import opened Wrappers
  import opened Crawler

  const Home := "https://s.com"
  const PageA := "https://s.com/a"
  const PageB := "https://s.com/b"

  /**
   * A site whose home page links to /a and /b (and has an anchor without a
   * target and one with an empty target), and whose /a links back home.
   */
  predicate HasSite(web: Web)
  {
    && Home in web && web[Home] == Page("<home/>", HomeLinks)
    && PageA in web && web[PageA] == Page("<a/>", [Some(Home)])
  }

  /** Page /b of the site: it can be fetched and has no anchors. */
  predicate HasPageB(web: Web)
  {
    PageB in web && web[PageB] == Page("<b/>", [])
  }

  lemma ResolvesLinks()
    ensures ValidateUrl(Some(Home), "/a") == PageA
    ensures ValidateUrl(Some(Home), "/b") == PageB
    ensures ValidateUrl(Some(Home), Home) == Home
  {
    NotPrefix("http", "/a", 0);
    NotPrefix("//", "/a", 1);
    NotPrefix("http", "/b", 0);
    NotPrefix("//", "/b", 1);
  }

  /** The anchors of the home page. */
  const HomeLinks: seq<Option<string>> := [Some("/a"), None, Some(""), Some("/b")]

  /**
   * The loop over the home page's anchors visits /a and then /b: the anchor
   * without a target and the empty target are skipped.
   */
  lemma {:induction false} HomeLoop(c: Crawl, depth: nat, s: Store)
    requires c.base == Some(Home)
    ensures VisitAll(c, HomeLinks, depth, s) == Visit(c, PageB, depth, Visit(c, PageA, depth, s))
  {
    ResolvesLinks();
    var sa := Visit(c, PageA, depth, s);
    VisitAllStep(c, HomeLinks, 0, depth, s);
    VisitAllStep(c, HomeLinks, 1, depth, sa);
    VisitAllStep(c, HomeLinks, 2, depth, sa);
    VisitAllStep(c, HomeLinks, 3, depth, sa);
    assert HomeLinks[4..] == [];
  }

  /** The three addresses of the site are distinct. */
  lemma UrlsDistinct()
    ensures Home != PageA && Home != PageB && PageA != PageB
  {
    assert |Home| != |PageA| && |Home| != |PageB|;
    assert PageA[14] != PageB[14];
  }

  /** The rows the site's pages produce. */
  const RecHome := Record(Home, "<home/>")
  const RecA := Record(PageA, "<a/>")
  const RecB := Record(PageB, "<b/>")

  /** A crawl of the site from its home address. */
  predicate SiteCrawl(c: Crawl)
  {
    HasSite(c.web) && c.base == Some(Home)
  }

  /** A crawl of the whole site whose buffer holds all four rows the crawls below stage. */
  predicate RoomyCrawl(c: Crawl)
  {
    SiteCrawl(c) && c.capacity > 4
  }

  /** A crawl of the whole site that flushes every row as soon as it is staged. */
  predicate EagerCrawl(c: Crawl)
  {
    SiteCrawl(c) && HasPageB(c.web) && c.capacity == 1
  }

  /** The home page, not yet in memory: it is captured, then /a and /b are visited in turn. */
  lemma VisitHome(c: Crawl, depth: nat, s: Store)
    requires depth > 0 && !Recorded(Home, s.memory) && SiteCrawl(c)
    ensures Visit(c, Home, depth, s)
         == Visit(c, PageB, depth - 1, Visit(c, PageA, depth - 1, Capture(c, Home, Page("<home/>", HomeLinks), s)))
  {
    VisitUnfold(c, Home, depth, s);
    HomeLoop(c, depth - 1, Capture(c, Home, c.web[Home], s));
  }

  /** The home page with one level left: it is captured, and its links get no depth. */
  lemma VisitHomeLast(c: Crawl, s: Store)
    requires !Recorded(Home, s.memory) && SiteCrawl(c)
    ensures Visit(c, Home, 1, s) == Capture(c, Home, Page("<home/>", HomeLinks), s)
  {
    VisitHome(c, 1, s);
  }

  /** Page /a, not yet in memory: it is captured, then its back link home is followed. */
  lemma VisitPageA(c: Crawl, depth: nat, s: Store)
    requires depth > 0 && !Recorded(PageA, s.memory) && SiteCrawl(c)
    ensures Visit(c, PageA, depth, s) == Visit(c, Home, depth - 1, Capture(c, PageA, Page("<a/>", [Some(Home)]), s))
  {
    var s' := Capture(c, PageA, c.web[PageA], s);
    ResolvesLinks();
    VisitUnfold(c, PageA, depth, s);
    VisitAllStep(c, [Some(Home)], 0, depth - 1, s');
  }

  /** Page /b, not yet in memory: it has no anchors, so it is captured and nothing else happens. */
  lemma VisitPageB(c: Crawl, depth: nat, s: Store)
    requires depth > 0 && !Recorded(PageB, s.memory) && HasPageB(c.web)
    ensures Visit(c, PageB, depth, s) == Capture(c, PageB, Page("<b/>", []), s)
  {
    VisitUnfold(c, PageB, depth, s);
  }

  /**
   * The first visit of the home page, with room in the buffer: its row is
   * staged, and the crawl ends where visiting /a and then /b from there ends.
   */
  lemma HomeFirst(c: Crawl, depth: nat, afterA: Store, afterB: Store)
    requires depth > 0 && RoomyCrawl(c)
    requires Visit(c, PageA, depth - 1, Store([], [RecHome])) == afterA
    requires Visit(c, PageB, depth - 1, afterA) == afterB
    ensures Visit(c, Home, depth, Store([], [])) == afterB
  {
    VisitHome(c, depth, Store([], []));
    CaptureBelow(c, Home, Page("<home/>", HomeLinks), Store([], []));
    assert [] + [RecHome] == [RecHome];
    assert Capture(c, Home, Page("<home/>", HomeLinks), Store([], [])) == Store([], [RecHome]);
  }

  /**
   * The first visit of the home page with a threshold of one: its row goes
   * straight to memory, and /a and then /b are visited from there.
   */
  lemma HomeFirstFlushed(c: Crawl, depth: nat, afterA: Store, afterB: Store)
    requires depth > 0 && EagerCrawl(c)
    requires Visit(c, PageA, depth - 1, Store([RecHome], [])) == afterA
    requires Visit(c, PageB, depth - 1, afterA) == afterB
    ensures Visit(c, Home, depth, Store([], [])) == afterB
  {
    VisitHome(c, depth, Store([], []));
    CaptureAtThreshold(c, Home, Page("<home/>", HomeLinks), Store([], []));
    assert [] + [] + [RecHome] == [RecHome];
    assert Capture(c, Home, Page("<home/>", HomeLinks), Store([], [])) == Store([RecHome], []);
  }

  /** Page /a after the home page, with no depth left for its back link. */
  lemma PageAAfterHomeLast(c: Crawl)
    requires RoomyCrawl(c)
    ensures Visit(c, PageA, 1, Store([], [RecHome])) == Store([], [RecHome, RecA])
  {
    VisitPageA(c, 1, Store([], [RecHome]));
    CaptureBelow(c, PageA, Page("<a/>", [Some(Home)]), Store([], [RecHome]));
    assert Capture(c, PageA, Page("<a/>", [Some(Home)]), Store([], [RecHome])) == Store([], [RecHome, RecA]);
    assert Visit(c, Home, 0, Store([], [RecHome, RecA])) == Store([], [RecHome, RecA]);
  }

  /** Page /a after the home page, with depth left: the staged home page is visited again. */
  lemma PageAAfterHome(c: Crawl, depth: nat, afterHome: Store)
    requires depth > 0 && RoomyCrawl(c)
    requires Visit(c, Home, depth - 1, Store([], [RecHome, RecA])) == afterHome
    ensures Visit(c, PageA, depth, Store([], [RecHome])) == afterHome
  {
    VisitPageA(c, depth, Store([], [RecHome]));
    CaptureBelow(c, PageA, Page("<a/>", [Some(Home)]), Store([], [RecHome]));
    assert Capture(c, PageA, Page("<a/>", [Some(Home)]), Store([], [RecHome])) == Store([], [RecHome, RecA]);
  }

  /** Page /a after the home page with a threshold of one: memory then holds home and /a. */
  lemma PageAAfterHomeFlushed(c: Crawl, depth: nat, afterHome: Store)
    requires depth > 0 && EagerCrawl(c)
    requires Visit(c, Home, depth - 1, Store([RecHome, RecA], [])) == afterHome
    ensures Visit(c, PageA, depth, Store([RecHome], [])) == afterHome
  {
    assert !Recorded(PageA, [RecHome]);
    VisitPageA(c, depth, Store([RecHome], []));
    CaptureAtThreshold(c, PageA, Page("<a/>", [Some(Home)]), Store([RecHome], []));
    assert [RecHome] + [] + [RecA] == [RecHome, RecA];
    assert Capture(c, PageA, Page("<a/>", [Some(Home)]), Store([RecHome], [])) == Store([RecHome, RecA], []);
  }

  /** The home page again while its first row is only staged: it is captured a second time. */
  lemma HomeAgainLast(c: Crawl)
    requires RoomyCrawl(c)
    ensures Visit(c, Home, 1, Store([], [RecHome, RecA])) == Store([], [RecHome, RecA, RecHome])
  {
    VisitHomeLast(c, Store([], [RecHome, RecA]));
    CaptureBelow(c, Home, Page("<home/>", HomeLinks), Store([], [RecHome, RecA]));
    assert Capture(c, Home, Page("<home/>", HomeLinks), Store([], [RecHome, RecA])) == Store([], [RecHome, RecA, RecHome]);
  }

  /** The home page once its row is in memory: the visit is skipped. */
  lemma HomeSeen(c: Crawl, depth: nat, rows: seq<Record>)
    requires rows != [] && rows[0] == RecHome
    ensures Visit(c, Home, depth, Store(rows, [])) == Store(rows, [])
  {
    assert Recorded(Home, rows) by {
      assert rows[0].url == Home;
    }
  }

  /** Page /b, staged below the threshold after `rows`. */
  lemma PageBStaged(c: Crawl, depth: nat, rows: seq<Record>)
    requires depth > 0 && RoomyCrawl(c) && HasPageB(c.web) && |rows| < 4
    ensures Visit(c, PageB, depth, Store([], rows)) == Store([], rows + [RecB])
  {
    VisitPageB(c, depth, Store([], rows));
    CaptureBelow(c, PageB, Page("<b/>", []), Store([], rows));
  }

  /** Page /b with a threshold of one: its row goes straight to memory after `rows`. */
  lemma PageBFlushed(c: Crawl, depth: nat, rows: seq<Record>)
    requires depth > 0 && EagerCrawl(c) && !Recorded(PageB, rows)
    ensures Visit(c, PageB, depth, Store(rows, [])) == Store(rows + [RecB], [])
  {
    VisitPageB(c, depth, Store(rows, []));
    CaptureAtThreshold(c, PageB, Page("<b/>", []), Store(rows, []));
    assert rows + [] + [RecB] == rows + [RecB];
  }

  /**
   * Depth 2 from the home page: home, /a and /b are each saved once, in
   * visiting order, and the back link from /a is not followed (no depth left).
   */
  lemma CrawlDepthTwo(web: Web)
    requires HasSite(web) && HasPageB(web)
    ensures CrawlAndSave(Crawl(web, Some(Home), AccumulatorMaxSize), Home, 2) == [RecHome, RecA, RecB]
  {
    var c := Crawl(web, Some(Home), AccumulatorMaxSize);
    PageAAfterHomeLast(c);
    PageBStaged(c, 1, [RecHome, RecA]);
    HomeFirst(c, 2, Store([], [RecHome, RecA]), Store([], [RecHome, RecA] + [RecB]));
    CrawlAndSaveOf(c, Home, 2, Store([], [RecHome, RecA] + [RecB]));
    assert [] + ([RecHome, RecA] + [RecB]) == [RecHome, RecA, RecB];
  }

  /** The same crawl when /b cannot be fetched: the crawl goes on and /b is never saved. */
  lemma CrawlSurvivesFailedFetch(web: Web)
    requires HasSite(web) && PageB !in web
    ensures CrawlAndSave(Crawl(web, Some(Home), AccumulatorMaxSize), Home, 2) == [RecHome, RecA]
  {
    var c := Crawl(web, Some(Home), AccumulatorMaxSize);
    PageAAfterHomeLast(c);
    assert Visit(c, PageB, 1, Store([], [RecHome, RecA])) == Store([], [RecHome, RecA]) by {
      assert Fetch(web, PageB) == None;
    }
    HomeFirst(c, 2, Store([], [RecHome, RecA]), Store([], [RecHome, RecA]));
    CrawlAndSaveOf(c, Home, 2, Store([], [RecHome, RecA]));
    assert [] + [RecHome, RecA] == [RecHome, RecA];
  }

  /**
   * Depth 3: the back link from /a is followed while the home page is still
   * staged and not yet in memory, so the home page is fetched and saved twice.
   */
  lemma CrawlDepthThreeSavesHomeTwice(web: Web)
    requires HasSite(web) && HasPageB(web)
    ensures CrawlAndSave(Crawl(web, Some(Home), AccumulatorMaxSize), Home, 3) == [RecHome, RecA, RecHome, RecB]
  {
    var c := Crawl(web, Some(Home), AccumulatorMaxSize);
    HomeAgainLast(c);
    PageAAfterHome(c, 2, Store([], [RecHome, RecA, RecHome]));
    PageBStaged(c, 2, [RecHome, RecA, RecHome]);
    HomeFirst(c, 3, Store([], [RecHome, RecA, RecHome]), Store([], [RecHome, RecA, RecHome] + [RecB]));
    CrawlAndSaveOf(c, Home, 3, Store([], [RecHome, RecA, RecHome] + [RecB]));
    assert [] + ([RecHome, RecA, RecHome] + [RecB]) == [RecHome, RecA, RecHome, RecB];
  }

  /**
   * Depth 3 with a threshold of one: every row is flushed as soon as it is
   * staged, the membership test sees the home page, and nothing is saved twice.
   */
  lemma CrawlDepthThreeFlushingEachRow(web: Web)
    requires HasSite(web) && HasPageB(web)
    ensures CrawlAndSave(Crawl(web, Some(Home), 1), Home, 3) == [RecHome, RecA, RecB]
  {
    var c := Crawl(web, Some(Home), 1);
    HomeSeen(c, 1, [RecHome, RecA]);
    PageAAfterHomeFlushed(c, 2, Store([RecHome, RecA], []));
    assert !Recorded(PageB, [RecHome, RecA]);
    PageBFlushed(c, 2, [RecHome, RecA]);
    HomeFirstFlushed(c, 3, Store([RecHome, RecA], []), Store([RecHome, RecA] + [RecB], []));
    CrawlAndSaveOf(c, Home, 3, Store([RecHome, RecA] + [RecB], []));
    assert [RecHome, RecA] + [RecB] + [] == [RecHome, RecA, RecB];
  }
}
