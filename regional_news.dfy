/** The regional headline panels: which window of the live headlines each
    panel shows, and the DEPA panel's own single-query branch. */
module RegionalNews {
  import opened Wrappers
  import opened NewsRanking
  import LiveNews

  /** A panel shows at most this many headlines. */
  const PanelSize := 5

  /** Where a region's window starts in the live headline list: 5 for
      'Global', 10 for 'Thailand', 0 for every other region. */
  function SliceStart(regionName: string): (start: nat)
    ensures regionName == "Global" ==> start == 5
    ensures regionName == "Thailand" ==> start == 10
    ensures regionName != "Global" && regionName != "Thailand" ==> start == 0
  {
    if regionName == "Global" then 5
    else if regionName == "Thailand" then 10
    else 0
  }

  /** `data.slice(start, start + 5)`: a contiguous run of at most five
      headlines, in order, empty once the list is too short. */
  function Window(data: seq<NewsItem>, start: nat): (shown: seq<NewsItem>)
    ensures |shown| == if |data| <= start then 0 else Min(PanelSize, |data| - start)
    ensures forall i :: 0 <= i < |shown| ==> shown[i] == data[start + i]
  {
    if |data| <= start then [] else data[start..Min(start + PanelSize, |data|)]
  }

  // ---------------------------------------------------------------------
  // The DEPA panel queries one news search through a JSON relay.

  /** An entry of the relay's `items` list. */
  datatype FeedEntry = FeedEntry(title: string, link: string, pubDate: string, sourceTitle: Option<string>)

  /** What the DEPA query's promise chain delivers: a failure (network or
      JSON), an answer without `items`, or the items. */
  datatype DepaAnswer = DepaFailed | NoItems | Items(entries: seq<FeedEntry>)

  /** The headline made from one entry; its source falls back to
      'Google News'. */
  function DepaHeadline(e: FeedEntry, parseDate: string -> int): (h: NewsItem)
    ensures h.title == e.title && h.link == e.link && h.pubDate == parseDate(e.pubDate)
    ensures Truthy(e.sourceTitle) ==> h.source == e.sourceTitle.value
    ensures !Truthy(e.sourceTitle) ==> h.source == "Google News"
  {
    NewsItem(e.title, e.link, parseDate(e.pubDate), OrElse(e.sourceTitle, "Google News"))
  }

  /** The DEPA panel's news after one answer: the first five entries mapped
      in order when there are items, the previous news otherwise. */
  function DepaNews(prev: seq<NewsItem>, answer: DepaAnswer, parseDate: string -> int): (news: seq<NewsItem>)
    ensures answer.Items? ==> |news| == Min(PanelSize, |answer.entries|)
    ensures answer.Items? ==> forall i :: 0 <= i < |news| ==> news[i] == DepaHeadline(answer.entries[i], parseDate)
    ensures !answer.Items? ==> news == prev
  {
    match answer
    case Items(entries) =>
      var mapped := seq(|entries|, i requires 0 <= i < |entries| => DepaHeadline(entries[i], parseDate));
      mapped[..Min(PanelSize, |mapped|)]
    case _ => prev
  }

  /** The news a panel holds after one refresh: the DEPA panel uses its own
      query, every other panel a window of `fetchLiveNews(activeUrls)`. */
  function PanelNews(regionName: string, activeUrls: seq<string>, prev: seq<NewsItem>, depa: DepaAnswer,
                     fetch: string -> LiveNews.FetchOutcome, env: LiveNews.Env): seq<NewsItem>
  {
    if regionName == "DEPA" then DepaNews(prev, depa, env.parseDate)
    else Window(LiveNews.LiveNews(Some(activeUrls), fetch, env), SliceStart(regionName))
  }

  /** A window keeps the order and the distinct titles of what it is cut from. */
  lemma WindowKeeps(data: seq<NewsItem>, start: nat)
    ensures NewestFirst(data) ==> NewestFirst(Window(data, start))
    ensures DistinctTitles(data) ==> DistinctTitles(Window(data, start))
    ensures forall x :: x in Window(data, start) ==> x in data
  {
    var w := Window(data, start);
    forall x | x in w ensures x in data {
      var i :| 0 <= i < |w| && w[i] == x;
      assert data[start + i] == x;
    }
  }

  /** A panel never holds more than five headlines; a live panel's are
      newest first, repeat no title and come from the live list. */
  lemma PanelNewsWellFormed(regionName: string, activeUrls: seq<string>, prev: seq<NewsItem>, depa: DepaAnswer,
                            fetch: string -> LiveNews.FetchOutcome, env: LiveNews.Env)
    requires regionName == "DEPA" ==> depa.Items? || |prev| <= PanelSize
    ensures |PanelNews(regionName, activeUrls, prev, depa, fetch, env)| <= PanelSize
    ensures regionName != "DEPA" ==>
      var live := LiveNews.LiveNews(Some(activeUrls), fetch, env);
      && NewestFirst(PanelNews(regionName, activeUrls, prev, depa, fetch, env))
      && DistinctTitles(PanelNews(regionName, activeUrls, prev, depa, fetch, env))
      && (forall x :: x in PanelNews(regionName, activeUrls, prev, depa, fetch, env) ==> x in live)
  {
    if regionName != "DEPA" {
      var live := LiveNews.LiveNews(Some(activeUrls), fetch, env);
      LiveNews.LiveNewsWellFormed(Some(activeUrls), fetch, env);
      WindowKeeps(live, SliceStart(regionName));
    }
  }

  /** Windows at least a panel apart over a list with distinct titles share
      no title. */
  lemma WindowsApart(data: seq<NewsItem>, sa: nat, sb: nat)
    requires DistinctTitles(data)
    requires sa + PanelSize <= sb || sb + PanelSize <= sa
    ensures forall x, y :: x in Window(data, sa) && y in Window(data, sb) ==> x.title != y.title
  {
    var wa, wb := Window(data, sa), Window(data, sb);
    forall x, y | x in wa && y in wb ensures x.title != y.title {
      var i :| 0 <= i < |wa| && wa[i] == x;
      var j :| 0 <= j < |wb| && wb[j] == y;
      assert data[sa + i] == x && data[sb + j] == y;
      assert sa + i < sb + j || sb + j < sa + i;
    }
  }

  /** Each live panel makes its own `fetchLiveNews` call. When the two
      calls resolve to the same list, panels with different offsets never
      show the same headline: the list repeats no title and the windows do
      not overlap. */
  lemma PanelsDisjoint(a: string, b: string, activeUrls: seq<string>, prev: seq<NewsItem>, depa: DepaAnswer,
                       fetchA: string -> LiveNews.FetchOutcome, envA: LiveNews.Env,
                       fetchB: string -> LiveNews.FetchOutcome, envB: LiveNews.Env)
    requires a != "DEPA" && b != "DEPA" && SliceStart(a) != SliceStart(b)
    requires LiveNews.LiveNews(Some(activeUrls), fetchA, envA) == LiveNews.LiveNews(Some(activeUrls), fetchB, envB)
    ensures forall x, y ::
      (x in PanelNews(a, activeUrls, prev, depa, fetchA, envA) && y in PanelNews(b, activeUrls, prev, depa, fetchB, envB))
      ==> x.title != y.title
  {
    var live := LiveNews.LiveNews(Some(activeUrls), fetchA, envA);
    LiveNews.LiveNewsWellFormed(Some(activeUrls), fetchA, envA);
    assert PanelNews(a, activeUrls, prev, depa, fetchA, envA) == Window(live, SliceStart(a));
    assert PanelNews(b, activeUrls, prev, depa, fetchB, envB) == Window(live, SliceStart(b));
    WindowsApart(live, SliceStart(a), SliceStart(b));
  }

  /** When one newer headline reaches the 'Global' panel's call but not the
      'SEA' panel's, the fifth headline of the earlier list is on both panels. */
  lemma SeparateCallsCanRepeat(live: seq<NewsItem>, newer: NewsItem)
    requires |live| >= PanelSize
    ensures live[4] in Window(live, SliceStart("SEA"))
    ensures live[4] in Window([newer] + live, SliceStart("Global"))
  {
    assert Window(live, SliceStart("SEA"))[4] == live[4];
    assert Window([newer] + live, SliceStart("Global"))[0] == ([newer] + live)[5] == live[4];
  }

  /** When the live list is the ten-item fallback, the 'Thailand' panel is
      empty and the 'Global' panel shows its second half. */
  lemma WindowsOfFallback(now: nat)
    ensures Window(LiveNews.Fallback(now), SliceStart("Thailand")) == []
    ensures Window(LiveNews.Fallback(now), SliceStart("Global")) == LiveNews.Fallback(now)[5..]
  {
    LiveNews.FallbackWellFormed(now);
  }
}
