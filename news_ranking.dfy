/** The canonical headline and the two list operations `fetchLiveNews` applies
    to the merged headlines: a stable newest-first sort and the removal of
    repeated titles. */
module NewsRanking {

  /** A normalised headline; `pubDate` is a timestamp in milliseconds. */
  datatype NewsItem = NewsItem(title: string, link: string, pubDate: int, source: string)

  /** Ordered by `pubDate`, newest first. */
  ghost predicate NewestFirst(s: seq<NewsItem>)
  {
    forall i, j :: 0 <= i < j < |s| ==> s[i].pubDate >= s[j].pubDate
  }

  /** No two items share a title (titles are compared exactly). */
  ghost predicate DistinctTitles(s: seq<NewsItem>)
  {
    forall i, j :: 0 <= i < j < |s| ==> s[i].title != s[j].title
  }

  /** The items of `s` whose timestamp is `t`, in order. */
  function WithDate(s: seq<NewsItem>, t: int): seq<NewsItem>
    decreases |s|
  {
    if s == [] then []
    else WithDate(s[..|s| - 1], t) + (if s[|s| - 1].pubDate == t then [s[|s| - 1]] else [])
  }

  // ---------------------------------------------------------------------
  // Sorting: `allNews.sort((a, b) => b.pubDate - a.pubDate)`, which is stable.

  /** Places `x` after every item of the newest-first list `s` that is not
      older than it, so an item sorted later stays behind equal timestamps. */
  function Insert(x: NewsItem, s: seq<NewsItem>): seq<NewsItem>
    decreases |s|
  {
    if s == [] then [x]
    else if s[0].pubDate >= x.pubDate then [s[0]] + Insert(x, s[1..])
    else [x] + s
  }

  /** A stable sort by `pubDate`, newest first. */
  function SortNewestFirst(s: seq<NewsItem>): seq<NewsItem>
    decreases |s|
  {
    if s == [] then [] else Insert(s[|s| - 1], SortNewestFirst(s[..|s| - 1]))
  }

  lemma {:induction false} InsertPermutes(x: NewsItem, s: seq<NewsItem>)
    ensures multiset(Insert(x, s)) == multiset(s) + multiset{x}
    decreases |s|
  {
    if s != [] && s[0].pubDate >= x.pubDate {
      InsertPermutes(x, s[1..]);
      assert s == [s[0]] + s[1..];
    }
  }

  lemma {:induction false} InsertSorted(x: NewsItem, s: seq<NewsItem>)
    requires NewestFirst(s)
    ensures NewestFirst(Insert(x, s))
    decreases |s|
  {
    if s != [] && s[0].pubDate >= x.pubDate {
      InsertSorted(x, s[1..]);
      InsertPermutes(x, s[1..]);
      var r := Insert(x, s);
      forall j | 1 <= j < |r| ensures r[0].pubDate >= r[j].pubDate {
        assert r[j] in multiset(Insert(x, s[1..]));
        assert r[j] in multiset(s[1..]) || r[j] == x;
        if r[j] != x {
          var k :| 0 <= k < |s[1..]| && s[1..][k] == r[j];
          assert s[k + 1] == r[j];
        }
      }
    }
  }

  lemma {:induction false} WithDateAppend(a: seq<NewsItem>, b: seq<NewsItem>, t: int)
    ensures WithDate(a + b, t) == WithDate(a, t) + WithDate(b, t)
    decreases |b|
  {
    if b == [] {
      assert a + b == a;
    } else {
      WithDateAppend(a, b[..|b| - 1], t);
      assert (a + b)[..|a + b| - 1] == a + b[..|b| - 1];
    }
  }

  lemma {:induction false} WithDateNone(s: seq<NewsItem>, t: int)
    requires forall i :: 0 <= i < |s| ==> s[i].pubDate != t
    ensures WithDate(s, t) == []
    decreases |s|
  {
    if s != [] {
      WithDateNone(s[..|s| - 1], t);
    }
  }

  /** Inserting into a sorted list puts `x` behind every item with its timestamp. */
  lemma {:induction false} InsertStable(x: NewsItem, s: seq<NewsItem>, t: int)
    requires NewestFirst(s)
    ensures WithDate(Insert(x, s), t) == WithDate(s, t) + (if x.pubDate == t then [x] else [])
    decreases |s|
  {
    if s == [] {
      assert [x] == [] + [x];
    } else if s[0].pubDate >= x.pubDate {
      InsertStable(x, s[1..], t);
      WithDateAppend([s[0]], Insert(x, s[1..]), t);
      WithDateAppend([s[0]], s[1..], t);
      assert [s[0]] + s[1..] == s;
    } else {
      WithDateAppend([x], s, t);
      assert [x][..0] == [];
      if x.pubDate == t {
        forall i | 0 <= i < |s| ensures s[i].pubDate != t {
          assert i == 0 || s[0].pubDate >= s[i].pubDate;
        }
        WithDateNone(s, t);
      }
    }
  }

  /** The sort's result is newest first. */
  lemma {:induction false} SortSorted(s: seq<NewsItem>)
    ensures NewestFirst(SortNewestFirst(s))
    decreases |s|
  {
    if s != [] {
      SortSorted(s[..|s| - 1]);
      InsertSorted(s[|s| - 1], SortNewestFirst(s[..|s| - 1]));
    }
  }

  /** The sort returns the same items. */
  lemma {:induction false} SortPermutes(s: seq<NewsItem>)
    ensures multiset(SortNewestFirst(s)) == multiset(s)
    decreases |s|
  {
    if s != [] {
      var init, x := s[..|s| - 1], s[|s| - 1];
      SortPermutes(init);
      InsertPermutes(x, SortNewestFirst(init));
      assert s == init + [x];
    }
  }

  /** Items with equal timestamps keep their input order. */
  lemma {:induction false} SortStable(s: seq<NewsItem>, t: int)
    ensures WithDate(SortNewestFirst(s), t) == WithDate(s, t)
    decreases |s|
  {
    if s != [] {
      var init, x := s[..|s| - 1], s[|s| - 1];
      SortStable(init, t);
      SortSorted(init);
      InsertStable(x, SortNewestFirst(init), t);
      assert WithDate(s, t) == WithDate(init, t) + (if x.pubDate == t then [x] else []);
    }
  }

  /** The sort returns the same items, newest first, and items with equal
      timestamps keep their merge order. */
  lemma SortNewestFirstCorrect(s: seq<NewsItem>)
    ensures NewestFirst(SortNewestFirst(s))
    ensures multiset(SortNewestFirst(s)) == multiset(s)
    ensures forall t :: WithDate(SortNewestFirst(s), t) == WithDate(s, t)
  {
    SortSorted(s);
    SortPermutes(s);
    forall t ensures WithDate(SortNewestFirst(s), t) == WithDate(s, t) {
      SortStable(s, t);
    }
  }

  // ---------------------------------------------------------------------
  // Deduplication: keep an item only if no earlier item had its title.

  function TitlesOf(s: seq<NewsItem>): set<string>
  {
    set x | x in s :: x.title
  }

  /** The items of `s` whose title has not appeared before them. */
  function DedupTitles(s: seq<NewsItem>): seq<NewsItem>
    decreases |s|
  {
    if s == [] then []
    else
      var kept := DedupTitles(s[..|s| - 1]);
      if s[|s| - 1].title in TitlesOf(kept) then kept else kept + [s[|s| - 1]]
  }

  /** `s[i]` is the first item of `s` with its title. */
  ghost predicate FirstWithTitle(s: seq<NewsItem>, i: int)
    requires 0 <= i < |s|
  {
    forall j :: 0 <= j < i ==> s[j].title != s[i].title
  }

  /** `r[k] == s[idx[k]]` for strictly increasing positions `idx`. */
  ghost predicate SubsequenceAt(r: seq<NewsItem>, s: seq<NewsItem>, idx: seq<int>)
  {
    && |idx| == |r|
    && (forall k :: 0 <= k < |idx| ==> 0 <= idx[k] < |s| && r[k] == s[idx[k]])
    && (forall k, l :: 0 <= k < l < |idx| ==> idx[k] < idx[l])
  }

  lemma TitlesOfAppend(s: seq<NewsItem>, x: NewsItem)
    ensures TitlesOf(s + [x]) == TitlesOf(s) + {x.title}
  {
    assert forall y :: y in s + [x] <==> y in s || y == x;
  }

  /** Deduplication loses no title. */
  lemma {:induction false} DedupSameTitles(s: seq<NewsItem>)
    ensures TitlesOf(DedupTitles(s)) == TitlesOf(s)
    decreases |s|
  {
    if s != [] {
      var init, x := s[..|s| - 1], s[|s| - 1];
      DedupSameTitles(init);
      assert s == init + [x];
      TitlesOfAppend(init, x);
      if x.title !in TitlesOf(DedupTitles(init)) {
        TitlesOfAppend(DedupTitles(init), x);
      }
    }
  }

  /** The result never repeats a title. */
  lemma {:induction false} DedupDistinct(s: seq<NewsItem>)
    ensures DistinctTitles(DedupTitles(s))
    decreases |s|
  {
    if s != [] {
      var init, x := s[..|s| - 1], s[|s| - 1];
      DedupDistinct(init);
      var kept := DedupTitles(init);
      if x.title !in TitlesOf(kept) {
        forall i | 0 <= i < |kept| ensures kept[i].title != x.title {
          assert kept[i] in kept;
        }
      }
    }
  }

  /** The result is exactly the first item of each title, in input order:
      an order-preserving subsequence whose positions are precisely the
      first occurrences. */
  lemma {:induction false} DedupKeepsFirstOccurrences(s: seq<NewsItem>) returns (idx: seq<int>)
    ensures SubsequenceAt(DedupTitles(s), s, idx)
    ensures forall k :: 0 <= k < |idx| ==> FirstWithTitle(s, idx[k])
    ensures forall i :: 0 <= i < |s| && FirstWithTitle(s, i) ==> i in idx
    decreases |s|
  {
    if s == [] {
      idx := [];
    } else {
      var init := s[..|s| - 1];
      var idx0 := DedupKeepsFirstOccurrences(init);
      FirstWithTitleOfPrefix(s, init);
      var kept := DedupTitles(init);
      if s[|s| - 1].title in TitlesOf(kept) {
        idx := idx0;
        LastNotFirst(s);
        SubsequenceOfPrefix(kept, init, s, idx0);
      } else {
        idx := idx0 + [|init|];
        LastIsFirst(s);
        SubsequenceOfPrefix(kept, init, s, idx0);
        SubsequenceAppend(kept, s, idx0);
      }
      forall k | 0 <= k < |idx| ensures FirstWithTitle(s, idx[k]) {
        if k < |idx0| {
          assert idx[k] == idx0[k] && FirstWithTitle(init, idx0[k]);
        }
      }
      forall i | 0 <= i < |s| && FirstWithTitle(s, i) ensures i in idx {
        if i < |init| {
          assert FirstWithTitle(init, i) && i in idx0;
        }
      }
    }
  }

  lemma SubsequenceOfPrefix(r: seq<NewsItem>, init: seq<NewsItem>, s: seq<NewsItem>, idx: seq<int>)
    requires s != [] && init == s[..|s| - 1]
    requires SubsequenceAt(r, init, idx)
    ensures SubsequenceAt(r, s, idx)
    ensures forall k :: 0 <= k < |idx| ==> idx[k] < |init|
  {
  }

  lemma SubsequenceAppend(r: seq<NewsItem>, s: seq<NewsItem>, idx: seq<int>)
    requires s != [] && SubsequenceAt(r, s, idx)
    requires forall k :: 0 <= k < |idx| ==> idx[k] < |s| - 1
    ensures SubsequenceAt(r + [s[|s| - 1]], s, idx + [|s| - 1])
  {
  }

  lemma FirstWithTitleOfPrefix(s: seq<NewsItem>, init: seq<NewsItem>)
    requires s != [] && init == s[..|s| - 1]
    ensures forall i :: 0 <= i < |init| ==> (FirstWithTitle(s, i) <==> FirstWithTitle(init, i))
  {
  }

  /** A last item whose title was already kept is not a first occurrence. */
  lemma LastNotFirst(s: seq<NewsItem>)
    requires s != [] && s[|s| - 1].title in TitlesOf(DedupTitles(s[..|s| - 1]))
    ensures !FirstWithTitle(s, |s| - 1)
  {
    var init := s[..|s| - 1];
    DedupSameTitles(init);
    var y :| y in init && y.title == s[|s| - 1].title;
    var j :| 0 <= j < |init| && init[j] == y;
    assert s[j].title == s[|s| - 1].title;
  }

  /** A last item whose title was not kept is a first occurrence. */
  lemma LastIsFirst(s: seq<NewsItem>)
    requires s != [] && s[|s| - 1].title !in TitlesOf(DedupTitles(s[..|s| - 1]))
    ensures FirstWithTitle(s, |s| - 1)
  {
    var init := s[..|s| - 1];
    DedupSameTitles(init);
    forall j | 0 <= j < |init| ensures s[j].title != s[|s| - 1].title {
      assert init[j] in init;
    }
  }

  /** Applied to a newest-first list, deduplication keeps the newest item of
      each title, and the result is still newest first. */
  lemma DedupKeepsNewest(s: seq<NewsItem>)
    requires NewestFirst(s)
    ensures NewestFirst(DedupTitles(s))
    ensures forall k, j :: 0 <= k < |DedupTitles(s)| && 0 <= j < |s| && s[j].title == DedupTitles(s)[k].title
              ==> s[j].pubDate <= DedupTitles(s)[k].pubDate
  {
    var idx := DedupKeepsFirstOccurrences(s);
    var r := DedupTitles(s);
    forall k, j | 0 <= k < |r| && 0 <= j < |s| && s[j].title == r[k].title
      ensures s[j].pubDate <= r[k].pubDate
    {
      assert FirstWithTitle(s, idx[k]);
      assert idx[k] <= j;
    }
  }

  /** Every kept item is an item of the input. */
  lemma DedupSubset(s: seq<NewsItem>)
    ensures multiset(DedupTitles(s)) <= multiset(s)
    ensures |DedupTitles(s)| <= |s|
  {
    var idx := DedupKeepsFirstOccurrences(s);
    SubsequenceMultiset(DedupTitles(s), s, idx);
  }

  lemma {:induction false} SubsequenceMultiset(r: seq<NewsItem>, s: seq<NewsItem>, idx: seq<int>)
    requires SubsequenceAt(r, s, idx)
    ensures multiset(r) <= multiset(s) && |r| <= |s|
    decreases |s|
  {
    if r != [] {
      var last := idx[|idx| - 1];
      var s', r', idx' := s[..last], r[..|r| - 1], idx[..|idx| - 1];
      forall k | 0 <= k < |idx'| ensures 0 <= idx'[k] < |s'| && r'[k] == s'[idx'[k]] {
        assert idx[k] < idx[|idx| - 1];
      }
      assert SubsequenceAt(r', s', idx');
      SubsequenceMultiset(r', s', idx');
      assert r == r' + [s[last]];
      assert multiset(r) == multiset(r') + multiset{s[last]};
      assert s == s' + [s[last]] + s[last + 1..];
      assert multiset(s) == multiset(s') + multiset{s[last]} + multiset(s[last + 1..]);
    }
  }

  /** The dedup loop of `fetchLiveNews`: a set of seen titles and a growing
      list of kept items. */
  method DedupByTitle(allNews: seq<NewsItem>) returns (uniqueNews: seq<NewsItem>)
    ensures uniqueNews == DedupTitles(allNews)
  {
    uniqueNews := [];
    var seenTitles: set<string> := {};
    for i := 0 to |allNews|
      invariant uniqueNews == DedupTitles(allNews[..i])
      invariant seenTitles == TitlesOf(uniqueNews)
    {
      var item := allNews[i];
      assert allNews[..i + 1][..i] == allNews[..i];
      if item.title !in seenTitles {
        TitlesOfAppend(uniqueNews, item);
        seenTitles := seenTitles + {item.title};
        uniqueNews := uniqueNews + [item];
      }
    }
    assert allNews[..|allNews|] == allNews;
  }
}
