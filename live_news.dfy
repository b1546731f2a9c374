/** `fetchLiveNews`: choose at most three feed URLs, fetch them through the
    relay, normalise the first ten items of every feed, then sort newest
    first, drop repeated titles and keep fifteen; fall back to a fixed list
    when that yields nothing or any fetch fails. */
module LiveNews {
  import opened Wrappers
  import opened Text
  import opened NewsRanking

  /** A feed of the catalog. */
  datatype Source = Source(id: string, name: string, url: string)

  /** The catalog of selectable feeds, in the order the settings list them. */
  const ApacSources: seq<Source> := [
      Source("abc", "ABC News Australia", "https://www.abc.net.au/news/feed/51120/rss.xml"),
      Source("asahi", "Asahi Shimbun", "https://rss.asahi.com/rss/asahi/newsheadlines.rdf"),
      Source("asia_news", "Asia News", "https://asianews.network/feed/"),
      Source("bangkok_post", "Bangkok Post", "https://www.bangkokpost.com/rss/data/news.xml"),
      Source("bbc_asia", "BBC Asia", "http://feeds.bbci.co.uk/news/world/asia/rss.xml"),
      Source("cna", "Channel NewsAsia (CNA)", "https://www.channelnewsasia.com/api/v1/rss-outbound-feed?_format=xml"),
      Source("guardian_aus", "Guardian Australia", "https://www.theguardian.com/australia-news/rss"),
      Source("indian_express", "Indian Express", "https://indianexpress.com/feed/"),
      Source("island_times", "Island Times", "https://islandtimes.org/feed/"),
      Source("japan_times", "Japan Times", "https://www.japantimes.co.jp/feed/"),
      Source("scmp", "SCMP", "https://www.scmp.com/rss/91/feed"),
      Source("nikkei", "Nikkei Asia", "https://asia.nikkei.com/rss/feed/category/53"),
      Source("reuters_asia", "Reuters Tech", "https://moxie.foxnews.com/google-publisher/tech.xml"),
      Source("thai_pbs", "Thai PBS", "https://www.thaipbs.or.th/rss/news"),
      Source("diplomat", "The Diplomat", "https://thediplomat.com/feed/"),
      Source("hindu", "The Hindu", "https://www.thehindu.com/news/international/feeder/default.rss"),
      Source("xinhua", "Xinhua", "http://www.xinhuanet.com/english/rss/worldrss.xml")
    ]

  /** The feeds used when the caller supplies none. */
  const DefaultUrls: seq<string> := [
      "http://feeds.bbci.co.uk/news/world/asia/rss.xml",
      "https://www.bangkokpost.com/rss/data/news.xml",
      "https://asia.nikkei.com/rss/feed/category/53"
    ]

  /** At most this many feeds are fetched per call. */
  const MaxFeeds := 3
  /** At most this many items of one feed are looked at. */
  const MaxItemsPerFeed := 10
  /** At most this many headlines are returned. */
  const MaxHeadlines := 15

  // ---------------------------------------------------------------------
  // The collaborators the pipeline calls, taken as inputs.

  /** One `<item>` of a parsed feed: the text of its `title`, `link`,
      `pubDate`, `author` and `dc:creator` children, each possibly missing. */
  datatype RawItem = RawItem(
    title: Option<string>,
    link: Option<string>,
    pubDate: Option<string>,
    author: Option<string>,
    creator: Option<string>)

  /** A parsed feed: the text of `channel > title`, if that node exists,
      and every `<item>` in document order. */
  datatype ParsedFeed = ParsedFeed(channelTitle: Option<string>, items: seq<RawItem>)

  /** What parsing a payload gives: a feed, or an exception. */
  datatype ParseOutcome = ParseError | Parsed(feed: ParsedFeed)

  /** What the relay request for one URL gives: a rejected promise, or the
      `contents` field of the relay's answer (missing or empty when there is
      no payload). */
  datatype FetchOutcome = Rejected | Fulfilled(contents: Option<string>)

  /** The foreign parts of one call: the XML parser, `new Date(text)` as a
      timestamp, and the clock (`Date.now()`, `new Date()`). */
  datatype Env = Env(parse: string -> ParseOutcome, parseDate: string -> int, now: nat)

  // ---------------------------------------------------------------------
  // Choosing and addressing the feeds.

  /** `activeUrls && activeUrls.length > 0 ? activeUrls : DEFAULT_URLS`. */
  function UrlsToFetch(activeUrls: Option<seq<string>>): (urls: seq<string>)
    ensures urls != []
    ensures activeUrls.Some? && activeUrls.value != [] ==> urls == activeUrls.value
    ensures activeUrls.None? || activeUrls.value == [] ==> urls == DefaultUrls
  {
    if activeUrls.Some? && |activeUrls.value| > 0 then activeUrls.value else DefaultUrls
  }

  /** `urls.slice(0, 3)`: the first feeds, in order. */
  function FetchSubset(urls: seq<string>): (subset: seq<string>)
    ensures |subset| == Min(MaxFeeds, |urls|)
    ensures subset == urls[..|subset|]
  {
    if |urls| <= MaxFeeds then urls else urls[..MaxFeeds]
  }

  /** The URL with a cache-busting `cb=<now>` query parameter. */
  function FreshUrl(url: string, now: nat): string
  {
    url + (if '?' in url then "&" else "?") + "cb=" + Decimal(now)
  }

  /** The original URL is a prefix of the fresh one, followed by `&` when it
      already has a query (else `?`), then `cb=` and the timestamp, which
      reads back as `now`. */
  lemma FreshUrlParts(url: string, now: nat)
    ensures var busted := FreshUrl(url, now);
      && |busted| > |url| + 4
      && busted[..|url|] == url
      && busted[|url|] == (if '?' in url then '&' else '?')
      && busted[|url| + 1..|url| + 4] == "cb="
      && IsDigits(busted[|url| + 4..])
      && ParseDecimal(busted[|url| + 4..]) == now
      && '?' in busted
  {
    var busted := FreshUrl(url, now);
    DecimalRoundTrip(now);
    assert busted[|url| + 4..] == Decimal(now);
    if '?' !in url {
      assert busted[|url|] == '?';
    }
  }

  /** The relay requests of the fetched feeds, awaited together: the
      `contents` of each answer, in order, or nothing at all as soon as one
      request is rejected (`Promise.all`). */
  function FetchAll(urls: seq<string>, fetch: string -> FetchOutcome, now: nat): (r: Option<seq<Option<string>>>)
    ensures r.None? <==> exists i :: 0 <= i < |urls| && fetch(FreshUrl(urls[i], now)).Rejected?
    ensures r.Some? ==> (|r.value| == |urls| &&
      forall i :: 0 <= i < |urls| ==> fetch(FreshUrl(urls[i], now)) == Fulfilled(r.value[i]))
  {
    if exists i :: 0 <= i < |urls| && fetch(FreshUrl(urls[i], now)).Rejected? then None
    else Some(seq(|urls|, i requires 0 <= i < |urls| => fetch(FreshUrl(urls[i], now)).contents))
  }

  // ---------------------------------------------------------------------
  // Normalisation of one feed.

  /** `titleNode ? titleNode.textContent : 'Global News'`. */
  function FeedTitle(feed: ParsedFeed): string
  {
    if feed.channelTitle.Some? then feed.channelTitle.value else "Global News"
  }

  /** The headline made from one item, if it has both a title and a link. */
  function Normalize(item: RawItem, feedTitle: string, env: Env): (r: Option<NewsItem>)
    ensures r.Some? <==> Truthy(item.title) && Truthy(item.link)
    ensures r.Some? ==> r.value.title == item.title.value && r.value.link == item.link.value
    ensures r.Some? && Truthy(item.pubDate) ==> r.value.pubDate == env.parseDate(item.pubDate.value)
    ensures r.Some? && !Truthy(item.pubDate) ==> r.value.pubDate == env.now
    ensures r.Some? && Truthy(item.author) ==> r.value.source == item.author.value
    ensures r.Some? && !Truthy(item.author) && Truthy(item.creator) ==> r.value.source == item.creator.value
    ensures r.Some? && !Truthy(item.author) && !Truthy(item.creator) ==> r.value.source == feedTitle
  {
    if Truthy(item.title) && Truthy(item.link) then
      var pubDate := if Truthy(item.pubDate) then env.parseDate(item.pubDate.value) else env.now;
      var author := if Truthy(item.author) then item.author else item.creator;
      Some(NewsItem(item.title.value, item.link.value, pubDate, OrElse(author, feedTitle)))
    else None
  }

  /** The headlines of the items that normalise, in order. */
  function NormalizeItems(items: seq<RawItem>, feedTitle: string, env: Env): seq<NewsItem>
    decreases |items|
  {
    if items == [] then []
    else
      var last := Normalize(items[|items| - 1], feedTitle, env);
      NormalizeItems(items[..|items| - 1], feedTitle, env) + (if last.Some? then [last.value] else [])
  }

  /** What one relay answer contributes: nothing for a falsy payload or a
      parse exception, else the normalised first ten items. */
  function FeedNews(contents: Option<string>, env: Env): seq<NewsItem>
  {
    if !Truthy(contents) then []
    else match env.parse(contents.value)
      case ParseError => []
      case Parsed(feed) =>
        NormalizeItems(feed.items[..Min(MaxItemsPerFeed, |feed.items|)], FeedTitle(feed), env)
  }

  /** All answers' headlines, answer after answer. */
  function Merge(answers: seq<Option<string>>, env: Env): seq<NewsItem>
    decreases |answers|
  {
    if answers == [] then []
    else Merge(answers[..|answers| - 1], env) + FeedNews(answers[|answers| - 1], env)
  }

  /** A headline with the two fields a kept item must have. */
  ghost predicate Complete(item: NewsItem)
  {
    item.title != "" && item.link != ""
  }

  /** Every normalised headline comes from one of the items, in number at
      most the number of items, and has a title and a link. */
  lemma {:induction false} NormalizeItemsBounds(items: seq<RawItem>, feedTitle: string, env: Env)
    ensures |NormalizeItems(items, feedTitle, env)| <= |items|
    ensures forall x :: x in NormalizeItems(items, feedTitle, env) ==>
      Complete(x) && exists i :: 0 <= i < |items| && Normalize(items[i], feedTitle, env) == Some(x)
    decreases |items|
  {
    if items != [] {
      var init := items[..|items| - 1];
      NormalizeItemsBounds(init, feedTitle, env);
      forall x | x in NormalizeItems(items, feedTitle, env)
        ensures Complete(x) && exists i :: 0 <= i < |items| && Normalize(items[i], feedTitle, env) == Some(x)
      {
        if x in NormalizeItems(init, feedTitle, env) {
          var i :| 0 <= i < |init| && Normalize(init[i], feedTitle, env) == Some(x);
          assert items[i] == init[i];
        } else {
          assert Normalize(items[|items| - 1], feedTitle, env) == Some(x);
        }
      }
    }
  }

  /** One feed contributes at most ten complete headlines, each made from
      one of its first ten items; a falsy payload or a parse exception
      contributes none. */
  lemma FeedNewsBounds(contents: Option<string>, env: Env)
    ensures |FeedNews(contents, env)| <= MaxItemsPerFeed
    ensures forall x :: x in FeedNews(contents, env) ==> Complete(x)
    ensures !Truthy(contents) || env.parse(contents.value).ParseError? ==> FeedNews(contents, env) == []
    ensures Truthy(contents) && env.parse(contents.value).Parsed? ==>
      var feed := env.parse(contents.value).feed;
      forall x :: x in FeedNews(contents, env) ==>
        exists i :: 0 <= i < Min(MaxItemsPerFeed, |feed.items|) && Normalize(feed.items[i], FeedTitle(feed), env) == Some(x)
  {
    if Truthy(contents) && env.parse(contents.value).Parsed? {
      var feed := env.parse(contents.value).feed;
      var first := feed.items[..Min(MaxItemsPerFeed, |feed.items|)];
      NormalizeItemsBounds(first, FeedTitle(feed), env);
      forall x | x in FeedNews(contents, env)
        ensures exists i :: 0 <= i < |first| && Normalize(feed.items[i], FeedTitle(feed), env) == Some(x)
      {
        var i :| 0 <= i < |first| && Normalize(first[i], FeedTitle(feed), env) == Some(x);
        assert first[i] == feed.items[i];
      }
    }
  }

  /** Normalisation is exact: the k-th headline is made from an item at an
      increasing position, and every item with a title and a link yields
      its headline. */
  lemma {:induction false} NormalizeItemsExact(items: seq<RawItem>, feedTitle: string, env: Env) returns (idx: seq<nat>)
    ensures |idx| == |NormalizeItems(items, feedTitle, env)|
    ensures forall k :: 0 <= k < |idx| ==>
      idx[k] < |items| && Normalize(items[idx[k]], feedTitle, env) == Some(NormalizeItems(items, feedTitle, env)[k])
    ensures forall k, l :: 0 <= k < l < |idx| ==> idx[k] < idx[l]
    ensures forall i :: 0 <= i < |items| && Normalize(items[i], feedTitle, env).Some? ==> i in idx
    decreases |items|
  {
    if items == [] {
      idx := [];
    } else {
      var init := items[..|items| - 1];
      idx := NormalizeItemsExact(init, feedTitle, env);
      assert forall i :: 0 <= i < |init| ==> init[i] == items[i];
      if Normalize(items[|items| - 1], feedTitle, env).Some? {
        idx := idx + [|items| - 1];
      }
    }
  }

  /** A parsed feed contributes, in document order, the headline of each of
      its first ten items that has a title and a link, and nothing else. */
  lemma FeedNewsExact(contents: Option<string>, env: Env) returns (idx: seq<nat>)
    requires Truthy(contents) && env.parse(contents.value).Parsed?
    ensures var feed := env.parse(contents.value).feed;
      && |idx| == |FeedNews(contents, env)|
      && (forall k :: 0 <= k < |idx| ==>
            && idx[k] < Min(MaxItemsPerFeed, |feed.items|)
            && Normalize(feed.items[idx[k]], FeedTitle(feed), env) == Some(FeedNews(contents, env)[k]))
      && (forall k, l :: 0 <= k < l < |idx| ==> idx[k] < idx[l])
      && (forall i :: 0 <= i < Min(MaxItemsPerFeed, |feed.items|) && Normalize(feed.items[i], FeedTitle(feed), env).Some?
            ==> i in idx)
  {
    var feed := env.parse(contents.value).feed;
    var first := feed.items[..Min(MaxItemsPerFeed, |feed.items|)];
    idx := NormalizeItemsExact(first, FeedTitle(feed), env);
    assert forall i :: 0 <= i < |first| ==> first[i] == feed.items[i];
  }

  /** One step of `Merge`: the last answer's headlines come last. */
  lemma MergeLast(answers: seq<Option<string>>, env: Env)
    requires answers != []
    ensures Merge(answers, env) == Merge(answers[..|answers| - 1], env) + FeedNews(answers[|answers| - 1], env)
  {
  }

  lemma {:induction false} MergeAppend(a: seq<Option<string>>, b: seq<Option<string>>, env: Env)
    ensures Merge(a + b, env) == Merge(a, env) + Merge(b, env)
    decreases |b|
  {
    if b == [] {
      assert a + b == a;
    } else {
      var init, last := b[..|b| - 1], b[|b| - 1];
      MergeAppend(a, init, env);
      assert (a + b)[..|a + b| - 1] == a + init && (a + b)[|a + b| - 1] == last;
      MergeLast(a + b, env);
      MergeLast(b, env);
      var m, mi, f := Merge(a, env), Merge(init, env), FeedNews(last, env);
      assert (m + mi) + f == m + (mi + f);
    }
  }

  /** A feed with a falsy payload or a parse exception changes nothing about
      the merged headlines of the other feeds. */
  lemma SkippedFeedContributesNothing(answers: seq<Option<string>>, k: nat, env: Env)
    requires k < |answers|
    requires !Truthy(answers[k]) || env.parse(answers[k].value).ParseError?
    ensures Merge(answers, env) == Merge(answers[..k] + answers[k + 1..], env)
  {
    var before, after := answers[..k], answers[k + 1..];
    FeedNewsBounds(answers[k], env);
    var withK := before + [answers[k]];
    assert answers == withK + after;
    MergeAppend(withK, after, env);
    assert withK[..|withK| - 1] == before;
    assert Merge(withK, env) == Merge(before, env);
    MergeAppend(before, after, env);
  }

  /** Every merged headline is complete. */
  lemma {:induction false} MergeComplete(answers: seq<Option<string>>, env: Env)
    ensures forall x :: x in Merge(answers, env) ==> Complete(x)
    decreases |answers|
  {
    if answers != [] {
      MergeComplete(answers[..|answers| - 1], env);
      FeedNewsBounds(answers[|answers| - 1], env);
    }
  }

  // ---------------------------------------------------------------------
  // The whole call.

  /** A headline of the fallback list: its title, its age in milliseconds
      and its source; its link is always `#`. */
  datatype Canned = Canned(title: string, age: nat, source: string)

  const FallbackHeadlines: seq<Canned> := [
      Canned("ASEAN Finance Ministers agree on cross-border QR payments integration", 0, "ASEAN Briefing"),
      Canned("Thailand's digital economy projected to reach $50B by 2025, driven by e-commerce", 3600000, "Nikkei Asia"),
      Canned("TSMC expansion in Kumamoto officially opens, signaling shift in supply chains", 7200000, "TechCrunch"),
      Canned("Indonesia introduces new tax incentives for EV manufacturing investments", 10800000, "Reuters Tech"),
      Canned("Singapore Central Bank launches quantum computing safety guidelines for financial sector", 14400000, "CNA"),
      Canned("Global central banks hint at synchronized rate cuts in Q3, bolstering emerging markets", 15000000, "Global Macro Insights"),
      Canned("New AI regulations drafted by European Parliament face pushback from tech giants", 18000000, "Tech Policy Daily"),
      Canned("Supply chain resilience: Tech manufacturers diversifying away from single-source dependencies", 21000000, "Supply Chain Review"),
      Canned("Green energy infrastructure investments surging in developing economies, World Bank reports", 25000000, "World Bank Data"),
      Canned("Rising inflation in key Western hubs puts pressure on international trade agreements", 28000000, "Global Trade Watch")
    ]

  /** The list returned when nothing could be aggregated, stamped relative
      to `now`. */
  function Fallback(now: nat): (r: seq<NewsItem>)
  {
    seq(|FallbackHeadlines|, i requires 0 <= i < |FallbackHeadlines| =>
      NewsItem(FallbackHeadlines[i].title, "#", now - FallbackHeadlines[i].age, FallbackHeadlines[i].source))
  }

  lemma FallbackHeadlinesDistinct()
    ensures |FallbackHeadlines| == 10
    ensures forall i, j :: 0 <= i < j < 10 ==> FallbackHeadlines[i].title != FallbackHeadlines[j].title
    ensures forall i, j :: 0 <= i < j < 10 ==> FallbackHeadlines[i].age < FallbackHeadlines[j].age
    ensures forall i :: 0 <= i < 10 ==> FallbackHeadlines[i].title != ""
  {
    var h := FallbackHeadlines;
    assert |h[0].title| == 69 && |h[1].title| == 80 && |h[2].title| == 77 && |h[3].title| == 72;
    assert |h[4].title| == 88 && |h[5].title| == 86 && |h[6].title| == 80 && |h[7].title| == 93;
    assert |h[8].title| == 91 && |h[9].title| == 84;
    assert h[1].title[79] == 'e' && h[6].title[79] == 's';
  }

  /** The fallback has ten complete headlines with distinct titles and
      strictly decreasing timestamps. */
  lemma FallbackWellFormed(now: nat)
    ensures |Fallback(now)| == 10
    ensures DistinctTitles(Fallback(now)) && NewestFirst(Fallback(now))
    ensures forall i, j :: 0 <= i < j < 10 ==> Fallback(now)[i].pubDate > Fallback(now)[j].pubDate
    ensures forall x :: x in Fallback(now) ==> Complete(x)
  {
    FallbackHeadlinesDistinct();
  }

  /** The headlines merged, ranked and deduplicated, before the cap. */
  function Ranked(answers: seq<Option<string>>, env: Env): seq<NewsItem>
  {
    DedupTitles(SortNewestFirst(Merge(answers, env)))
  }

  /** What `fetchLiveNews(activeUrls)` resolves to. */
  function LiveNews(activeUrls: Option<seq<string>>, fetch: string -> FetchOutcome, env: Env): seq<NewsItem>
  {
    var subset := FetchSubset(UrlsToFetch(activeUrls));
    match FetchAll(subset, fetch, env.now)
    case None => Fallback(env.now)
    case Some(answers) =>
      var unique := Ranked(answers, env);
      if |unique| == 0 then Fallback(env.now) else unique[..Min(MaxHeadlines, |unique|)]
  }

  /** The inner loop: for each of a feed's first ten items, push the
      headline if the item has a title and a link. */
  method PushFeedItems(allNews: seq<NewsItem>, items: seq<RawItem>, feedTitle: string, env: Env)
    returns (pushed: seq<NewsItem>)
    ensures pushed == allNews + NormalizeItems(items, feedTitle, env)
  {
    pushed := allNews;
    for j := 0 to |items|
      invariant pushed == allNews + NormalizeItems(items[..j], feedTitle, env)
    {
      assert items[..j + 1][..j] == items[..j];
      var item := Normalize(items[j], feedTitle, env);
      if item.Some? {
        pushed := pushed + [item.value];
      }
    }
    assert items[..|items|] == items;
  }

  /** The loop that fills `allNews`, answer after answer; an answer with a
      falsy payload or a parse exception is skipped. */
  method CollectNews(answers: seq<Option<string>>, env: Env) returns (allNews: seq<NewsItem>)
    ensures allNews == Merge(answers, env)
  {
    allNews := [];
    for i := 0 to |answers|
      invariant allNews == Merge(answers[..i], env)
    {
      assert answers[..i + 1][..i] == answers[..i];
      ghost var before := allNews;
      var contents := answers[i];
      if Truthy(contents) {
        match env.parse(contents.value)
        case ParseError =>
        case Parsed(feed) =>
          allNews := PushFeedItems(allNews, feed.items[..Min(MaxItemsPerFeed, |feed.items|)], FeedTitle(feed), env);
      }
      assert allNews == before + FeedNews(answers[i], env);
    }
    assert answers[..|answers|] == answers;
  }

  /** `fetchLiveNews`, step by step as the source does it. */
  method FetchLiveNews(activeUrls: Option<seq<string>>, fetch: string -> FetchOutcome, env: Env)
    returns (news: seq<NewsItem>)
    ensures news == LiveNews(activeUrls, fetch, env)
  {
    var urlsToFetch := UrlsToFetch(activeUrls);
    var fetchSubset := FetchSubset(urlsToFetch);
    var responses := FetchAll(fetchSubset, fetch, env.now);
    if responses.None? {
      return Fallback(env.now);
    }
    var allNews := CollectNews(responses.value, env);
    allNews := SortNewestFirst(allNews);
    var uniqueNews := DedupByTitle(allNews);
    if |uniqueNews| == 0 {
      return Fallback(env.now);
    }
    news := uniqueNews[..Min(MaxHeadlines, |uniqueNews|)];
  }

  // ---------------------------------------------------------------------
  // What every call guarantees.

  lemma RankedProperties(answers: seq<Option<string>>, env: Env)
    ensures NewestFirst(Ranked(answers, env)) && DistinctTitles(Ranked(answers, env))
    ensures multiset(Ranked(answers, env)) <= multiset(Merge(answers, env))
    ensures forall x :: x in Ranked(answers, env) ==> Complete(x)
  {
    var merged := Merge(answers, env);
    SortNewestFirstCorrect(merged);
    DedupKeepsNewest(SortNewestFirst(merged));
    DedupDistinct(SortNewestFirst(merged));
    DedupSubset(SortNewestFirst(merged));
    MergeComplete(answers, env);
    forall x | x in Ranked(answers, env) ensures Complete(x) {
      assert x in multiset(Ranked(answers, env));
      assert x in multiset(merged);
    }
  }

  lemma PrefixKeeps(s: seq<NewsItem>, n: nat)
    requires n <= |s|
    ensures NewestFirst(s) ==> NewestFirst(s[..n])
    ensures DistinctTitles(s) ==> DistinctTitles(s[..n])
    ensures multiset(s[..n]) <= multiset(s)
  {
    assert s == s[..n] + s[n..];
  }

  /** The result is never empty and never longer than fifteen; it is newest
      first, repeats no title, and every headline has a title and a link. */
  lemma LiveNewsWellFormed(activeUrls: Option<seq<string>>, fetch: string -> FetchOutcome, env: Env)
    ensures 1 <= |LiveNews(activeUrls, fetch, env)| <= MaxHeadlines
    ensures NewestFirst(LiveNews(activeUrls, fetch, env))
    ensures DistinctTitles(LiveNews(activeUrls, fetch, env))
    ensures forall x :: x in LiveNews(activeUrls, fetch, env) ==> Complete(x)
  {
    FallbackWellFormed(env.now);
    var r := FetchAll(FetchSubset(UrlsToFetch(activeUrls)), fetch, env.now);
    if r.Some? {
      var unique := Ranked(r.value, env);
      RankedProperties(r.value, env);
      if |unique| > 0 {
        PrefixKeeps(unique, Min(MaxHeadlines, |unique|));
        var n := Min(MaxHeadlines, |unique|);
        forall x | x in unique[..n] ensures Complete(x) {
          assert x in multiset(unique[..n]);
        }
      }
    }
  }

  /** One rejected request among the fetched feeds discards every other
      feed: the result is the fallback list. */
  lemma LiveNewsRejection(activeUrls: Option<seq<string>>, fetch: string -> FetchOutcome, env: Env, k: nat)
    requires k < |FetchSubset(UrlsToFetch(activeUrls))|
    requires fetch(FreshUrl(FetchSubset(UrlsToFetch(activeUrls))[k], env.now)).Rejected?
    ensures LiveNews(activeUrls, fetch, env) == Fallback(env.now)
  {
  }

  /** When every request is fulfilled and some headline survives, the result
      is the first fifteen ranked headlines, all taken from the merged feeds;
      otherwise it is the fallback list. */
  lemma LiveNewsFromFeeds(activeUrls: Option<seq<string>>, fetch: string -> FetchOutcome, env: Env)
    ensures var r := FetchAll(FetchSubset(UrlsToFetch(activeUrls)), fetch, env.now);
      if r.Some? && Ranked(r.value, env) != [] then
        && LiveNews(activeUrls, fetch, env) <= Ranked(r.value, env)
        && |LiveNews(activeUrls, fetch, env)| == Min(MaxHeadlines, |Ranked(r.value, env)|)
        && multiset(LiveNews(activeUrls, fetch, env)) <= multiset(Merge(r.value, env))
      else LiveNews(activeUrls, fetch, env) == Fallback(env.now)
  {
    var r := FetchAll(FetchSubset(UrlsToFetch(activeUrls)), fetch, env.now);
    if r.Some? && Ranked(r.value, env) != [] {
      var unique := Ranked(r.value, env);
      RankedProperties(r.value, env);
      PrefixKeeps(unique, Min(MaxHeadlines, |unique|));
    }
  }

  /** Only the first three chosen feeds are contacted: two relays that answer
      those alike give the same result, whatever they answer elsewhere. */
  lemma OnlyFirstThreeFetched(activeUrls: Option<seq<string>>, fetch: string -> FetchOutcome,
                              fetch': string -> FetchOutcome, env: Env)
    requires forall u :: u in FetchSubset(UrlsToFetch(activeUrls)) ==> fetch(FreshUrl(u, env.now)) == fetch'(FreshUrl(u, env.now))
    ensures LiveNews(activeUrls, fetch, env) == LiveNews(activeUrls, fetch', env)
  {
    var subset := FetchSubset(UrlsToFetch(activeUrls));
    assert forall i :: 0 <= i < |subset| ==> fetch(FreshUrl(subset[i], env.now)) == fetch'(FreshUrl(subset[i], env.now)) by {
      forall i | 0 <= i < |subset| ensures fetch(FreshUrl(subset[i], env.now)) == fetch'(FreshUrl(subset[i], env.now)) {
        assert subset[i] in subset;
      }
    }
    var a, b := FetchAll(subset, fetch, env.now), FetchAll(subset, fetch', env.now);
    assert a.None? <==> b.None?;
    if a.Some? {
      assert a.value == b.value;
    }
  }
}
