/** The dashboard's selection state: which map layers and which news feeds
    are on, how a click toggles one, and how the enabled feed ids become the
    URL list handed to the news fetcher. */
module Dashboard {
  import opened Wrappers
  import LiveNews
  import Lists

  /** The layers shown when the dashboard opens. */
  const InitialLayers: seq<string> := ["disasters", "weather", "economy"]

  /** No id occurs twice. */
  ghost predicate NoDuplicates<T>(s: seq<T>)
  {
    forall i, j :: 0 <= i < j < |s| ==> s[i] != s[j]
  }

  /** The ids of a catalog, in catalog order. */
  function CatalogIds(catalog: seq<LiveNews.Source>): (ids: seq<string>)
    ensures |ids| == |catalog|
    ensures forall i :: 0 <= i < |catalog| ==> ids[i] == catalog[i].id
  {
    seq(|catalog|, i requires 0 <= i < |catalog| => catalog[i].id)
  }

  /** The URLs of a catalog, in catalog order. */
  function CatalogUrls(catalog: seq<LiveNews.Source>): (urls: seq<string>)
    ensures |urls| == |catalog|
    ensures forall i :: 0 <= i < |catalog| ==> urls[i] == catalog[i].url
  {
    seq(|catalog|, i requires 0 <= i < |catalog| => catalog[i].url)
  }

  /** The feeds enabled when the dashboard opens: the whole catalog. */
  function InitialSources(): seq<string>
  {
    CatalogIds(LiveNews.ApacSources)
  }

  // ---------------------------------------------------------------------
  // Toggling a layer or a feed.

  /** `s.filter(x => x !== id)`. */
  function Without(s: seq<string>, id: string): seq<string>
    decreases |s|
  {
    if s == [] then []
    else Without(s[..|s| - 1], id) + (if s[|s| - 1] == id then [] else [s[|s| - 1]])
  }

  lemma {:induction false} WithoutAppend(a: seq<string>, b: seq<string>, id: string)
    ensures Without(a + b, id) == Without(a, id) + Without(b, id)
    decreases |b|
  {
    if b == [] {
      assert a + b == a;
    } else {
      WithoutAppend(a, b[..|b| - 1], id);
      assert (a + b)[..|a + b| - 1] == a + b[..|b| - 1];
    }
  }

  /** Filtering removes every occurrence of `id`, keeps the count of every
      other id, and is the identity on a list without `id`. */
  lemma {:induction false} WithoutRemovesAll(s: seq<string>, id: string)
    ensures multiset(Without(s, id)) == multiset(s)[id := 0]
    ensures id !in s ==> Without(s, id) == s
    decreases |s|
  {
    if s != [] {
      var init, last := s[..|s| - 1], s[|s| - 1];
      WithoutRemovesAll(init, id);
      assert s == init + [last];
      assert multiset(s) == multiset(init) + multiset{last};
      if last == id {
        assert Without(s, id) == Without(init, id);
        assert multiset(s)[id := 0] == multiset(init)[id := 0];
      } else {
        assert Without(s, id) == Without(init, id) + [last];
        assert multiset(s)[id := 0] == multiset(init)[id := 0] + multiset{last};
      }
    }
  }

  /** `Without` is the generic filter with the test `x != id`. */
  lemma {:induction false} WithoutIsFilter(s: seq<string>, id: string)
    ensures Without(s, id) == Lists.Filter(s, x => x != id)
    decreases |s|
  {
    if s != [] {
      WithoutIsFilter(s[..|s| - 1], id);
    }
  }

  /** The ids left after filtering keep their relative order: they sit at
      increasing positions of the input, and every id other than `id` is kept. */
  lemma WithoutKeepsOrder(s: seq<string>, id: string) returns (idx: seq<nat>)
    ensures |idx| == |Without(s, id)|
    ensures forall k :: 0 <= k < |idx| ==> idx[k] < |s| && Without(s, id)[k] == s[idx[k]]
    ensures forall k, l :: 0 <= k < l < |idx| ==> idx[k] < idx[l]
    ensures forall i :: 0 <= i < |s| && s[i] != id ==> i in idx
  {
    WithoutIsFilter(s, id);
    idx := Lists.FilterExact(s, x => x != id);
  }

  lemma {:induction false} WithoutKeepsDistinct(s: seq<string>, id: string)
    requires NoDuplicates(s)
    ensures NoDuplicates(Without(s, id))
    decreases |s|
  {
    if s != [] {
      var init, last := s[..|s| - 1], s[|s| - 1];
      WithoutKeepsDistinct(init, id);
      WithoutRemovesAll(init, id);
      if last != id {
        forall i | 0 <= i < |Without(init, id)| ensures Without(init, id)[i] != last {
          var x := Without(init, id)[i];
          assert x in multiset(Without(init, id));
          assert x in multiset(init);
        }
      }
    }
  }

  /** `prev.includes(id) ? prev.filter(x => x !== id) : [...prev, id]`, the
      update both `toggleLayer` and `toggleSource` apply. */
  function Toggle(prev: seq<string>, id: string): (r: seq<string>)
    ensures id in r <==> id !in prev
    ensures forall x :: x != id ==> (multiset(r)[x] == multiset(prev)[x])
    ensures id !in prev ==> r == prev + [id]
    ensures id in prev ==> r == Lists.Filter(prev, x => x != id)
  {
    WithoutRemovesAll(prev, id);
    WithoutIsFilter(prev, id);
    if id in prev then Without(prev, id) else prev + [id]
  }

  /** A list without repeated ids keeps that property under a toggle. */
  lemma TogglePreservesNoDuplicates(prev: seq<string>, id: string)
    requires NoDuplicates(prev)
    ensures NoDuplicates(Toggle(prev, id))
  {
    if id in prev {
      WithoutKeepsDistinct(prev, id);
    }
  }

  /** Toggling twice restores which ids are on; an absent id leaves the list
      exactly as it was, and a present one ends up moved to the end. */
  lemma ToggleTwice(prev: seq<string>, id: string)
    ensures forall x :: x in Toggle(Toggle(prev, id), id) <==> x in prev
    ensures id !in prev ==> Toggle(Toggle(prev, id), id) == prev
    ensures id in prev ==> Toggle(Toggle(prev, id), id) == Without(prev, id) + [id]
  {
    WithoutRemovesAll(prev, id);
    if id !in prev {
      WithoutAppend(prev, [id], id);
      assert Without([id], id) == [];
      assert prev + [id] != [];
    }
    forall x ensures x in Toggle(Toggle(prev, id), id) <==> x in prev {
      assert x in Toggle(Toggle(prev, id), id) <==> x in multiset(Toggle(Toggle(prev, id), id));
      assert x in prev <==> x in multiset(prev);
    }
  }

  /** `setAllSources(enable)`: every catalog id, or none. */
  function SetAllSources(enable: bool): (active: seq<string>)
    ensures enable ==> active == CatalogIds(LiveNews.ApacSources)
    ensures !enable ==> active == []
  {
    if enable then InitialSources() else []
  }

  // ---------------------------------------------------------------------
  // From enabled ids to URLs.

  /** `catalog.find(s => s.id === id)`. */
  function Find(catalog: seq<LiveNews.Source>, id: string): (r: Option<LiveNews.Source>)
    ensures r.Some? ==> r.value in catalog && r.value.id == id
    ensures r.None? <==> forall i :: 0 <= i < |catalog| ==> catalog[i].id != id
    decreases |catalog|
  {
    if catalog == [] then None
    else if catalog[0].id == id then Some(catalog[0])
    else
      var r := Find(catalog[1..], id);
      assert r.None? ==> forall i :: 0 <= i < |catalog| ==> catalog[i].id != id by {
        if r.None? {
          forall i | 0 <= i < |catalog| ensures catalog[i].id != id {
            if i > 0 {
              assert catalog[i] == catalog[1..][i - 1];
            }
          }
        }
      }
      r
  }

  /** `find` returns the first feed with the id. */
  lemma {:induction false} FindFirst(catalog: seq<LiveNews.Source>, i: nat)
    requires i < |catalog|
    requires forall j :: 0 <= j < i ==> catalog[j].id != catalog[i].id
    ensures Find(catalog, catalog[i].id) == Some(catalog[i])
    decreases i
  {
    if i > 0 {
      var rest := catalog[1..];
      forall j | 0 <= j < i - 1 ensures rest[j].id != rest[i - 1].id {
        assert rest[j] == catalog[j + 1];
      }
      FindFirst(rest, i - 1);
    }
  }

  /** `catalog.find(s => s.id === id)?.url` when it is truthy. */
  function UrlFor(catalog: seq<LiveNews.Source>, id: string): (u: Option<string>)
    ensures u.Some? <==> Find(catalog, id).Some? && Find(catalog, id).value.url != ""
    ensures u.Some? ==> u.value == Find(catalog, id).value.url
  {
    var found := Find(catalog, id);
    if found.Some? && found.value.url != "" then Some(found.value.url) else None
  }

  /** `active.map(id => catalog.find(s => s.id === id)?.url).filter(Boolean)`. */
  function ResolveUrls(catalog: seq<LiveNews.Source>, active: seq<string>): seq<string>
    decreases |active|
  {
    if active == [] then []
    else
      var u := UrlFor(catalog, active[|active| - 1]);
      ResolveUrls(catalog, active[..|active| - 1]) + (if u.Some? then [u.value] else [])
  }

  /** The `activeUrls` the dashboard hands to every news panel. */
  function ActiveUrls(active: seq<string>): seq<string>
  {
    ResolveUrls(LiveNews.ApacSources, active)
  }

  /** Resolution never yields more URLs than ids, and every URL belongs to
      a catalog feed whose id is enabled. */
  lemma {:induction false} ResolveUrlsBounds(catalog: seq<LiveNews.Source>, active: seq<string>)
    ensures |ResolveUrls(catalog, active)| <= |active|
    ensures forall u :: u in ResolveUrls(catalog, active) ==>
      u != "" && exists s :: s in catalog && s.id in active && s.url == u
    decreases |active|
  {
    if active != [] {
      var init := active[..|active| - 1];
      ResolveUrlsBounds(catalog, init);
      forall u | u in ResolveUrls(catalog, active)
        ensures u != "" && exists s :: s in catalog && s.id in active && s.url == u
      {
        if u in ResolveUrls(catalog, init) {
          var s :| s in catalog && s.id in init && s.url == u;
          assert s.id in active;
        } else {
          var found := Find(catalog, active[|active| - 1]);
          assert found.value in catalog && found.value.id in active;
        }
      }
    }
  }

  /** Resolution is the generic filter-map with `UrlFor`. */
  lemma {:induction false} ResolveUrlsIsFilterMap(catalog: seq<LiveNews.Source>, active: seq<string>)
    ensures ResolveUrls(catalog, active) == Lists.FilterMap(active, id => UrlFor(catalog, id))
    decreases |active|
  {
    if active != [] {
      ResolveUrlsIsFilterMap(catalog, active[..|active| - 1]);
    }
  }

  /** Resolution is exact: the k-th URL is the truthy `find(...)?.url` of an
      active id at an increasing position, and every active id that has one
      contributes it. */
  lemma ResolveUrlsExact(catalog: seq<LiveNews.Source>, active: seq<string>) returns (idx: seq<nat>)
    ensures |idx| == |ResolveUrls(catalog, active)|
    ensures forall k :: 0 <= k < |idx| ==>
      idx[k] < |active| && UrlFor(catalog, active[idx[k]]) == Some(ResolveUrls(catalog, active)[k])
    ensures forall k, l :: 0 <= k < l < |idx| ==> idx[k] < idx[l]
    ensures forall i :: 0 <= i < |active| && UrlFor(catalog, active[i]).Some? ==> i in idx
  {
    ResolveUrlsIsFilterMap(catalog, active);
    idx := Lists.FilterMapExact(active, id => UrlFor(catalog, id));
  }

  /** Ids occur once in the catalog and every URL is non-empty. */
  ghost predicate WellFormedCatalog(catalog: seq<LiveNews.Source>)
  {
    && (forall i, j :: 0 <= i < j < |catalog| ==> catalog[i].id != catalog[j].id)
    && (forall i :: 0 <= i < |catalog| ==> catalog[i].url != "")
  }

  /** In a well-formed catalog, each entry's own id resolves to its URL. */
  lemma CatalogEntryUrl(catalog: seq<LiveNews.Source>, i: nat)
    requires WellFormedCatalog(catalog) && i < |catalog|
    ensures UrlFor(catalog, catalog[i].id) == Some(catalog[i].url)
  {
    FindFirst(catalog, i);
  }

  /** One step of `ResolveUrls` when the last active id resolves. */
  lemma ResolveUrlsLast(catalog: seq<LiveNews.Source>, active: seq<string>, url: string)
    requires active != [] && UrlFor(catalog, active[|active| - 1]) == Some(url)
    ensures ResolveUrls(catalog, active) == ResolveUrls(catalog, active[..|active| - 1]) + [url]
  {
  }

  /** In a well-formed catalog, resolving ids in catalog order gives every
      URL in catalog order. */
  lemma {:induction false} ResolveCatalogOrder(catalog: seq<LiveNews.Source>, n: nat)
    requires WellFormedCatalog(catalog) && n <= |catalog|
    ensures ResolveUrls(catalog, CatalogIds(catalog)[..n]) == CatalogUrls(catalog)[..n]
    decreases n
  {
    if n > 0 {
      ResolveCatalogOrder(catalog, n - 1);
      var ids := CatalogIds(catalog)[..n];
      assert ids[..n - 1] == CatalogIds(catalog)[..n - 1];
      assert ids[n - 1] == catalog[n - 1].id;
      CatalogEntryUrl(catalog, n - 1);
      ResolveUrlsLast(catalog, ids, catalog[n - 1].url);
      assert CatalogUrls(catalog)[..n] == CatalogUrls(catalog)[..n - 1] + [catalog[n - 1].url];
    }
  }

  /** The length and first letter of each catalog id; no two ids share both. */
  lemma ApacIdShapes()
    ensures |LiveNews.ApacSources| == 17
    ensures var c := LiveNews.ApacSources;
      && |c[0].id| == 3 && c[0].id[0] == 'a'
      && |c[1].id| == 5 && c[1].id[0] == 'a'
      && |c[2].id| == 9 && c[2].id[0] == 'a'
      && |c[3].id| == 12 && c[3].id[0] == 'b'
      && |c[4].id| == 8 && c[4].id[0] == 'b'
      && |c[5].id| == 3 && c[5].id[0] == 'c'
      && |c[6].id| == 12 && c[6].id[0] == 'g'
      && |c[7].id| == 14 && c[7].id[0] == 'i'
      && |c[8].id| == 12 && c[8].id[0] == 'i'
      && |c[9].id| == 11 && c[9].id[0] == 'j'
      && |c[10].id| == 4 && c[10].id[0] == 's'
      && |c[11].id| == 6 && c[11].id[0] == 'n'
      && |c[12].id| == 12 && c[12].id[0] == 'r'
      && |c[13].id| == 8 && c[13].id[0] == 't'
      && |c[14].id| == 8 && c[14].id[0] == 'd'
      && |c[15].id| == 5 && c[15].id[0] == 'h'
      && |c[16].id| == 6 && c[16].id[0] == 'x'
  {
    var c := LiveNews.ApacSources;
    assert |c[0].id| == 3 && c[0].id[0] == 'a' && |c[1].id| == 5 && c[1].id[0] == 'a' && |c[2].id| == 9 && c[2].id[0] == 'a' && |c[3].id| == 12 && c[3].id[0] == 'b';
    assert |c[4].id| == 8 && c[4].id[0] == 'b' && |c[5].id| == 3 && c[5].id[0] == 'c' && |c[6].id| == 12 && c[6].id[0] == 'g' && |c[7].id| == 14 && c[7].id[0] == 'i';
    assert |c[8].id| == 12 && c[8].id[0] == 'i' && |c[9].id| == 11 && c[9].id[0] == 'j' && |c[10].id| == 4 && c[10].id[0] == 's' && |c[11].id| == 6 && c[11].id[0] == 'n';
    assert |c[12].id| == 12 && c[12].id[0] == 'r' && |c[13].id| == 8 && c[13].id[0] == 't' && |c[14].id| == 8 && c[14].id[0] == 'd' && |c[15].id| == 5 && c[15].id[0] == 'h';
    assert |c[16].id| == 6 && c[16].id[0] == 'x';
  }

  /** The catalog has seventeen feeds with distinct ids and non-empty URLs. */
  lemma ApacSourcesWellFormed()
    ensures |LiveNews.ApacSources| == 17
    ensures WellFormedCatalog(LiveNews.ApacSources)
  {
    var c := LiveNews.ApacSources;
    ApacIdShapes();
    ApacUrlsNonEmpty();
    forall i, j | 0 <= i < j < 17 ensures c[i].id != c[j].id {
      assert |c[i].id| != |c[j].id| || c[i].id[0] != c[j].id[0];
    }
  }

  lemma ApacUrlsNonEmpty()
    ensures forall i :: 0 <= i < |LiveNews.ApacSources| ==> LiveNews.ApacSources[i].url != ""
  {
  }

  /** In a well-formed catalog, the ids occur once each and resolving them
      in catalog order gives every URL in catalog order. */
  lemma ResolveCatalog(catalog: seq<LiveNews.Source>)
    requires WellFormedCatalog(catalog)
    ensures NoDuplicates(CatalogIds(catalog))
    ensures ResolveUrls(catalog, CatalogIds(catalog)) == CatalogUrls(catalog)
  {
    ResolveCatalogOrder(catalog, |catalog|);
    assert CatalogIds(catalog)[..|catalog|] == CatalogIds(catalog);
    assert CatalogUrls(catalog)[..|catalog|] == CatalogUrls(catalog);
  }

  /** When the dashboard opens, every catalog feed is enabled, in catalog
      order and once each, and the fetcher gets all seventeen URLs in that
      order; the layers start as disasters, weather and economy. */
  lemma InitialState()
    ensures InitialSources() == CatalogIds(LiveNews.ApacSources)
    ensures NoDuplicates(InitialSources()) && |InitialSources()| == 17
    ensures ActiveUrls(InitialSources()) == CatalogUrls(LiveNews.ApacSources)
    ensures NoDuplicates(InitialLayers) && |InitialLayers| == 3
  {
    ApacSourcesWellFormed();
    ResolveCatalog(LiveNews.ApacSources);
    InitialLayersDistinct();
  }

  lemma InitialLayersDistinct()
    ensures NoDuplicates(InitialLayers) && |InitialLayers| == 3
  {
    var l := InitialLayers;
    assert |l[0]| == 9 && |l[1]| == 7 && |l[2]| == 7 && l[1][0] == 'w' && l[2][0] == 'e';
    forall i, j | 0 <= i < j < 3 ensures l[i] != l[j] {
      assert |l[i]| != |l[j]| || l[i][0] != l[j][0];
    }
  }

  /** Disabling every feed sends an empty list, so the fetcher falls back to
      its three default feeds; enabling every feed sends all seventeen URLs. */
  lemma SetAllSourcesEffect()
    ensures LiveNews.UrlsToFetch(Some(ActiveUrls(SetAllSources(false)))) == LiveNews.DefaultUrls
    ensures ActiveUrls(SetAllSources(true)) == CatalogUrls(LiveNews.ApacSources)
  {
    InitialState();
  }
}
