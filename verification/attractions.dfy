/** The attractions page: the category tabs and search box over the ride
    list, the wait-time and intensity badges, and its embedded map, whose
    filters are fixed. */
module AttractionsPage {
  import opened Common
  import opened Text
  import opened Park
  import opened MapView

  /** The tab that lists every category. */
  const AllCategories: string := "tutte"

  /** The query found, ignoring case, in the name, description, location or
      any tag of the attraction. */
  predicate MatchesQuery(a: Attraction, query: string)
  {
    MatchesText(a.name, query)
    || MatchesText(a.description, query)
    || MatchesText(a.location, query)
    || exists i :: 0 <= i < |a.tags| && MatchesText(a.tags[i], query)
  }

  /** Whether an attraction is listed: its category is the active one (or
      every category is), and the query is empty or matches. */
  predicate Listed(a: Attraction, category: string, query: string)
  {
    if category != AllCategories && a.category != category then false
    else if query != "" then MatchesQuery(a, query)
    else true
  }

  /** The attractions listed under a tab and a query, in backend order. */
  function FilteredAttractions(attractions: seq<Attraction>, category: string, query: string): (r: seq<Attraction>)
    ensures IsSublist(r, attractions)
    ensures forall a :: a in r <==>
      a in attractions
      && (category == AllCategories || a.category == category)
      && (query == "" || MatchesQuery(a, query))
  {
    FilterMembers(attractions, (a: Attraction) => Listed(a, category, query));
    Filter(attractions, (a: Attraction) => Listed(a, category, query))
  }

  /** Filtering the listed attractions again lists them unchanged. */
  lemma FilteredAttractionsIdempotent(attractions: seq<Attraction>, category: string, query: string)
    ensures FilteredAttractions(FilteredAttractions(attractions, category, query), category, query)
      == FilteredAttractions(attractions, category, query)
  {
    FilterIdempotent(attractions, (a: Attraction) => Listed(a, category, query));
  }

  /** A category tab lists a subset of what the all-categories tab lists. */
  lemma CategoryTabNarrows(attractions: seq<Attraction>, category: string, query: string)
    ensures forall a :: a in FilteredAttractions(attractions, category, query) ==>
      a in FilteredAttractions(attractions, AllCategories, query)
  {
  }

  /** Without a query, the all-categories tab lists every attraction. */
  lemma NoQueryListsEverything(attractions: seq<Attraction>)
    ensures FilteredAttractions(attractions, AllCategories, "") == attractions
  {
    FilterKeepsAll(attractions, (a: Attraction) => Listed(a, AllCategories, ""));
  }

  /** A category no attraction has lists nothing. */
  lemma UnknownCategoryListsNothing(attractions: seq<Attraction>, category: string, query: string)
    requires category != AllCategories
    requires forall a :: a in attractions ==> a.category != category
    ensures FilteredAttractions(attractions, category, query) == []
  {
    FilterNone(attractions, (a: Attraction) => Listed(a, category, query));
  }

  /** Typing the query in upper or lower case lists the same attractions. */
  lemma QueryCaseIgnored(a: Attraction, category: string, query: string)
    ensures Listed(a, category, ToLower(query)) == Listed(a, category, query)
  {
    assert |ToLower(query)| == |query|;
    MatchesTextCaseInsensitive(a.name, query);
    MatchesTextCaseInsensitive(a.description, query);
    MatchesTextCaseInsensitive(a.location, query);
    forall i | 0 <= i < |a.tags|
      ensures MatchesText(a.tags[i], ToLower(query)) == MatchesText(a.tags[i], query)
    {
      MatchesTextCaseInsensitive(a.tags[i], query);
    }
  }

  /** A ride with nothing but a name, category and wait time. */
  function Ride(id: int, name: string, category: string, waitTime: int): Attraction
  {
    Attraction(id, name, "", category, waitTime, "", "", None, 0.0, [], None)
  }

  /** A single "Tornado" ride in the adrenaline category is found by a
      partial, differently cased name and hidden by the water tab. */
  lemma TornadoExample()
    ensures var rides := [Ride(1, "Tornado", "adrenalina", 45)];
      FilteredAttractions(rides, AllCategories, "TORN") == rides
      && FilteredAttractions(rides, "acqua", "") == []
  {
    var rides := [Ride(1, "Tornado", "adrenalina", 45)];
    TornadoMatchesTorn();
    assert Listed(rides[0], AllCategories, "TORN");
    FilterKeepsAll(rides, (a: Attraction) => Listed(a, AllCategories, "TORN"));
    UnknownCategoryListsNothing(rides, "acqua", "");
  }

  lemma TornadoMatchesTorn()
    ensures MatchesText("Tornado", "TORN")
  {
    LowerTorn();
    LowerTornado();
    assert "torn" <= "tornado";
  }

  lemma LowerTorn()
    ensures ToLower("TORN") == "torn"
  {
    var r := ToLower("TORN");
    assert r[0] == 't' && r[1] == 'o' && r[2] == 'r' && r[3] == 'n';
  }

  lemma LowerTornado()
    ensures ToLower("Tornado") == "tornado"
  {
    var r := ToLower("Tornado");
    assert r[0] == 't' && r[1] == 'o' && r[2] == 'r' && r[3] == 'n';
    assert r[4] == 'a' && r[5] == 'd' && r[6] == 'o';
  }

  /** The intensity badge of a ride. */
  datatype IntensityBadge = Mild | Moderate | Intense

  /** Low intensity ("Bassa") is mild, medium ("Media") is moderate, and
      every other value, unknown ones included, is intense. */
  function IntensityBand(intensity: string): (r: IntensityBadge)
    ensures r == Mild <==> intensity == "Bassa"
    ensures r == Moderate <==> intensity == "Media"
  {
    if intensity == "Bassa" then Mild
    else if intensity == "Media" then Moderate
    else Intense
  }

  /** The page's embedded map never changes its filters (every category on,
      popular-only off), so it shows exactly the markers matching the search. */
  lemma FixedMapFiltersAreSearchOnly(points: seq<MapPoint>, query: string)
    ensures forall p :: p in FilteredPoints(points, query, AllOn, false) <==>
      p in points && PointMatchesSearch(p, query)
  {
  }
}
