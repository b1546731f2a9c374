/** The economy layer: 2022 GDP growth from the World Bank indicator API,
    placed at the centre of each country the layer knows. */
module WorldBank {
  import opened Wrappers
  import opened Text
  import opened Geo
  import opened Lists

  /** The `country` object of a record: its id and display name. */
  datatype CountryRef = CountryRef(id: string, name: string)

  /** One record of the answer's data page. */
  datatype Indicator = Indicator(value: Option<real>, countryIso3: string, country: CountryRef)

  /** The request either fails, or answers with `data[1]` present or not. */
  datatype WorldBankAnswer = RequestFailed | Answered(page: Option<seq<Indicator>>)

  /** Country centres, keyed by two-letter code. */
  const IsoCenters: map<string, Point> := map[
      "TH" := Point(100.9925, 15.8700), "VN" := Point(108.2772, 14.0583), "ID" := Point(113.9213, -0.7893),
      "MY" := Point(101.9758, 4.2105), "SG" := Point(103.8198, 1.3521), "PH" := Point(121.7740, 12.8797),
      "CN" := Point(104.1954, 35.8617), "JP" := Point(138.2529, 36.2048), "KR" := Point(127.7669, 35.9078),
      "IN" := Point(78.9629, 20.5937), "US" := Point(-95.7129, 37.0902), "GB" := Point(-3.4359, 55.3781),
      "FR" := Point(2.2137, 46.2276), "DE" := Point(10.4515, 51.1657), "AU" := Point(133.7751, -25.2744),
      "RU" := Point(105.3188, 61.5240), "BR" := Point(-51.9253, -14.2350), "ZA" := Point(22.9375, -30.5595)
    ]

  /** The properties of an economy feature (its `type` is always 'economy'). */
  datatype EconomyProps = EconomyProps(id: string, country: string, growth: real, color: string)

  const StrongGrowth := "#10b981"
  const ModestGrowth := "#3b82f6"
  const Contraction := "#ef4444"

  /** Green above 3 %, blue above 0 % up to 3 %, red at 0 % or below. */
  function GrowthColor(growth: real): (color: string)
    ensures growth > 3.0 ==> color == StrongGrowth
    ensures 0.0 < growth <= 3.0 ==> color == ModestGrowth
    ensures growth <= 0.0 ==> color == Contraction
  {
    if growth > 3.0 then StrongGrowth else if growth > 0.0 then ModestGrowth else Contraction
  }

  /** Which of the three bands a growth rate falls in. */
  function GrowthBand(growth: real): (band: nat)
  {
    if growth > 3.0 then 2 else if growth > 0.0 then 1 else 0
  }

  /** The colour tells the band exactly: two rates share a colour iff they
      share a band, and a higher rate is never in a lower band. */
  lemma GrowthColorBands(a: real, b: real)
    ensures GrowthColor(a) == GrowthColor(b) <==> GrowthBand(a) == GrowthBand(b)
    ensures a <= b ==> GrowthBand(a) <= GrowthBand(b)
  {
    assert StrongGrowth[1] != ModestGrowth[1] && StrongGrowth[1] != Contraction[1] && ModestGrowth[1] != Contraction[1];
  }

  // ---------------------------------------------------------------------
  // The lookup as written: the first two letters of the ISO3 code.

  /** `isoCenters[item.countryiso3code.substring(0, 2)]` is defined and the
      value is not null. */
  predicate Kept(item: Indicator)
  {
    item.value.Some? && Prefix(item.countryIso3, 2) in IsoCenters
  }

  function EconomyFeature(item: Indicator): (f: Feature<EconomyProps>)
    requires Kept(item)
    ensures f.coordinates == IsoCenters[Prefix(item.countryIso3, 2)]
    ensures f.properties == EconomyProps(item.country.id, item.country.name, item.value.value, GrowthColor(item.value.value))
  {
    Feature(IsoCenters[Prefix(item.countryIso3, 2)],
            EconomyProps(item.country.id, item.country.name, item.value.value, GrowthColor(item.value.value)))
  }

  /** `filter(kept).map(...)`, in record order. */
  function EconomyFeatures(page: seq<Indicator>): (fs: seq<Feature<EconomyProps>>)
    ensures |fs| == |Filter(page, Kept)| <= |page|
    ensures forall k :: 0 <= k < |fs| ==> fs[k] == EconomyFeature(Filter(page, Kept)[k])
  {
    var kept := Filter(page, Kept);
    seq(|kept|, k requires 0 <= k < |kept| => EconomyFeature(kept[k]))
  }

  /** `fetchMacroEconomy`. */
  function FetchMacroEconomy(answer: WorldBankAnswer): (fc: FeatureCollection<EconomyProps>)
    ensures answer.RequestFailed? || answer.page.None? ==> fc.features == []
    ensures answer.Answered? && answer.page.Some? ==> fc.features == EconomyFeatures(answer.page.value)
  {
    match answer
    case RequestFailed => Empty()
    case Answered(None) => Empty()
    case Answered(Some(page)) => FeatureCollection(EconomyFeatures(page))
  }

  /** A record is shown iff its value is present and its code's first two
      letters are a key; it is then drawn at that key's centre. */
  lemma EconomyFeaturesExact(page: seq<Indicator>)
    ensures forall f :: f in EconomyFeatures(page) ==> exists r :: r in page && Kept(r) && f == EconomyFeature(r)
    ensures forall r :: r in page && Kept(r) ==> EconomyFeature(r) in EconomyFeatures(page)
  {
    var idx := FilterExact(page, Kept);
    var kept := Filter(page, Kept);
    var fs := EconomyFeatures(page);
    forall f | f in fs ensures exists r :: r in page && Kept(r) && f == EconomyFeature(r) {
      var k :| 0 <= k < |fs| && fs[k] == f;
      assert kept[k] == page[idx[k]] && Kept(kept[k]);
      assert page[idx[k]] in page;
    }
    forall r | r in page && Kept(r) ensures EconomyFeature(r) in fs {
      var i :| 0 <= i < |page| && page[i] == r;
      var k :| 0 <= k < |idx| && idx[k] == i;
      assert fs[k] == EconomyFeature(r);
    }
  }

  /** The first two letters of a three-letter code are not always the
      two-letter code: China ('CHN') and Korea ('KOR') are never drawn,
      and Austria ('AUT') is drawn at the centre of Australia. */
  lemma Iso3PrefixMisplaces(growth: real, who: CountryRef)
    ensures !Kept(Indicator(Some(growth), "CHN", who))
    ensures !Kept(Indicator(Some(growth), "KOR", who))
    ensures Kept(Indicator(Some(growth), "AUT", who))
    ensures EconomyFeature(Indicator(Some(growth), "AUT", who)).coordinates == IsoCenters["AU"]
    ensures FetchMacroEconomy(Answered(Some([Indicator(Some(growth), "CHN", who)]))).features == []
  {
    assert Prefix("CHN", 2) == "CH";
    assert Prefix("KOR", 2) == "KO";
    assert Prefix("AUT", 2) == "AU";
    FilterNone([Indicator(Some(growth), "CHN", who)], Kept);
  }

  // ---------------------------------------------------------------------
  // The lookup as evidently intended: the full three-letter code names
  // one of the countries whose centre the layer knows.

  /** The three-letter code of each country with a centre. */
  const Iso3ToIso2: map<string, string> := map[
      "THA" := "TH", "VNM" := "VN", "IDN" := "ID", "MYS" := "MY", "SGP" := "SG", "PHL" := "PH",
      "CHN" := "CN", "JPN" := "JP", "KOR" := "KR", "IND" := "IN", "USA" := "US", "GBR" := "GB",
      "FRA" := "FR", "DEU" := "DE", "AUS" := "AU", "RUS" := "RU", "BRA" := "BR", "ZAF" := "ZA"
    ]

  /** Every code of the table leads to a centre. */
  lemma Iso3TableHasCenters()
    ensures forall c :: c in Iso3ToIso2 ==> Iso3ToIso2[c] in IsoCenters
  {
  }

  /** Each Asian centre is the image of its own three-letter code. */
  lemma AsianCentersReached(k: string)
    requires k in {"TH", "VN", "ID", "MY", "SG", "PH", "CN", "JP", "KR"}
    ensures exists c :: c in Iso3ToIso2 && Iso3ToIso2[c] == k
  {
    if k == "TH" {
      assert Iso3ToIso2["THA"] == k;
    } else if k == "VN" {
      assert Iso3ToIso2["VNM"] == k;
    } else if k == "ID" {
      assert Iso3ToIso2["IDN"] == k;
    } else if k == "MY" {
      assert Iso3ToIso2["MYS"] == k;
    } else if k == "SG" {
      assert Iso3ToIso2["SGP"] == k;
    } else if k == "PH" {
      assert Iso3ToIso2["PHL"] == k;
    } else if k == "CN" {
      assert Iso3ToIso2["CHN"] == k;
    } else if k == "JP" {
      assert Iso3ToIso2["JPN"] == k;
    } else {
      assert Iso3ToIso2["KOR"] == k;
    }
  }

  /** Each other centre is the image of its own three-letter code. */
  lemma OtherCentersReached(k: string)
    requires k in {"IN", "US", "GB", "FR", "DE", "AU", "RU", "BR", "ZA"}
    ensures exists c :: c in Iso3ToIso2 && Iso3ToIso2[c] == k
  {
    if k == "IN" {
      assert Iso3ToIso2["IND"] == k;
    } else if k == "US" {
      assert Iso3ToIso2["USA"] == k;
    } else if k == "GB" {
      assert Iso3ToIso2["GBR"] == k;
    } else if k == "FR" {
      assert Iso3ToIso2["FRA"] == k;
    } else if k == "DE" {
      assert Iso3ToIso2["DEU"] == k;
    } else if k == "AU" {
      assert Iso3ToIso2["AUS"] == k;
    } else if k == "RU" {
      assert Iso3ToIso2["RUS"] == k;
    } else if k == "BR" {
      assert Iso3ToIso2["BRA"] == k;
    } else {
      assert Iso3ToIso2["ZAF"] == k;
    }
  }

  /** Every centre is reached by some code of the table. */
  lemma Iso3TableCoversCenters()
    ensures forall k :: k in IsoCenters ==> exists c :: c in Iso3ToIso2 && Iso3ToIso2[c] == k
  {
    forall k | k in IsoCenters ensures exists c :: c in Iso3ToIso2 && Iso3ToIso2[c] == k {
      if k in {"TH", "VN", "ID", "MY", "SG", "PH", "CN", "JP", "KR"} {
        AsianCentersReached(k);
      } else {
        OtherCentersReached(k);
      }
    }
  }

  predicate KeptByIso3(item: Indicator)
  {
    item.value.Some? && item.countryIso3 in Iso3ToIso2 && Iso3ToIso2[item.countryIso3] in IsoCenters
  }

  function EconomyFeatureByIso3(item: Indicator): (f: Feature<EconomyProps>)
    requires KeptByIso3(item)
    ensures f.coordinates == IsoCenters[Iso3ToIso2[item.countryIso3]]
    ensures f.properties == EconomyProps(item.country.id, item.country.name, item.value.value, GrowthColor(item.value.value))
  {
    Feature(IsoCenters[Iso3ToIso2[item.countryIso3]],
            EconomyProps(item.country.id, item.country.name, item.value.value, GrowthColor(item.value.value)))
  }

  function EconomyFeaturesByIso3(page: seq<Indicator>): (fs: seq<Feature<EconomyProps>>)
    ensures |fs| == |Filter(page, KeptByIso3)| <= |page|
    ensures forall k :: 0 <= k < |fs| ==> fs[k] == EconomyFeatureByIso3(Filter(page, KeptByIso3)[k])
  {
    var kept := Filter(page, KeptByIso3);
    seq(|kept|, k requires 0 <= k < |kept| => EconomyFeatureByIso3(kept[k]))
  }

  /** `fetchMacroEconomy` with the lookup by the full three-letter code. */
  function FetchMacroEconomyByIso3(answer: WorldBankAnswer): (fc: FeatureCollection<EconomyProps>)
    ensures answer.RequestFailed? || answer.page.None? ==> fc.features == []
    ensures answer.Answered? && answer.page.Some? ==> fc.features == EconomyFeaturesByIso3(answer.page.value)
  {
    match answer
    case RequestFailed => Empty()
    case Answered(None) => Empty()
    case Answered(Some(page)) => FeatureCollection(EconomyFeaturesByIso3(page))
  }

  /** With the full code, every record with a value of a country in the
      table is drawn, at that country's own centre; no other record is. */
  lemma ByIso3ShowsEveryKnownCountry(page: seq<Indicator>)
    ensures forall r :: r in page && r.value.Some? && r.countryIso3 in Iso3ToIso2 ==>
      exists f :: f in EconomyFeaturesByIso3(page) && f.coordinates == IsoCenters[Iso3ToIso2[r.countryIso3]]
                  && f.properties.id == r.country.id && f.properties.growth == r.value.value
    ensures forall f :: f in EconomyFeaturesByIso3(page) ==>
      exists r :: r in page && r.value.Some? && r.countryIso3 in Iso3ToIso2 && f == EconomyFeatureByIso3(r)
  {
    Iso3TableHasCenters();
    Iso3TableCoversCenters();
    var idx := FilterExact(page, KeptByIso3);
    var kept := Filter(page, KeptByIso3);
    var fs := EconomyFeaturesByIso3(page);
    forall r | r in page && r.value.Some? && r.countryIso3 in Iso3ToIso2
      ensures exists f :: f in fs && f.coordinates == IsoCenters[Iso3ToIso2[r.countryIso3]]
                          && f.properties.id == r.country.id && f.properties.growth == r.value.value
    {
      var i :| 0 <= i < |page| && page[i] == r;
      var k :| 0 <= k < |idx| && idx[k] == i;
      assert fs[k] == EconomyFeatureByIso3(r);
      assert fs[k] in fs;
    }
    forall f | f in fs ensures exists r :: r in page && r.value.Some? && r.countryIso3 in Iso3ToIso2 && f == EconomyFeatureByIso3(r) {
      var k :| 0 <= k < |fs| && fs[k] == f;
      assert kept[k] == page[idx[k]] && KeptByIso3(kept[k]);
      assert page[idx[k]] in page;
    }
  }

  /** The corrected lookup draws China, Korea and Australia at their own
      centres and leaves Austria out. */
  lemma ByIso3Places(growth: real, who: CountryRef)
    ensures KeptByIso3(Indicator(Some(growth), "CHN", who))
    ensures EconomyFeatureByIso3(Indicator(Some(growth), "CHN", who)).coordinates == IsoCenters["CN"]
    ensures KeptByIso3(Indicator(Some(growth), "KOR", who))
    ensures EconomyFeatureByIso3(Indicator(Some(growth), "KOR", who)).coordinates == IsoCenters["KR"]
    ensures !KeptByIso3(Indicator(Some(growth), "AUT", who))
  {
  }
}
