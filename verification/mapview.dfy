/** The park map: attractions, shows and a few fixed service points merged
    into one list of map points, narrowed by a search box, five category
    toggles and a "popular only" switch. */
module MapView {
  import opened Common
  import opened Text
  import opened Park

  /** What a map point stands for; also the key of its category toggle. */
  datatype PointCategory = AttractionKind | RestaurantKind | ServiceKind | ShowKind | ShopKind

  /** A marker on the map. Shows and service points carry no wait time. */
  datatype MapPoint = MapPoint(
    id: int,
    name: string,
    description: string,
    category: PointCategory,
    subcategory: string,
    position: Position,
    waitTime: Option<int>,
    rating: real,
    popular: bool)

  /** An attraction is marked popular above this popularity score. */
  const PopularityThreshold: real := 4.5

  /** The position the markers fall back to when the backend has none. */
  const Origin: Position := Position(0.0, 0.0)

  /** The marker of an attraction. */
  function AttractionMarker(a: Attraction): (p: MapPoint)
    ensures p.category == AttractionKind && p.id == a.id && p.subcategory == a.category
    ensures p.popular <==> a.popularity > PopularityThreshold
    ensures p.waitTime == Some(a.waitTime)
    ensures a.position.Some? ==> p.position == a.position.value
    ensures a.position.None? ==> p.position == Origin
  {
    MapPoint(a.id, a.name, a.description, AttractionKind, a.category,
             a.position.GetOr(Origin), Some(a.waitTime), a.popularity,
             a.popularity > PopularityThreshold)
  }

  /** The marker of a show. */
  function ShowMarker(s: Show): (p: MapPoint)
    ensures p.category == ShowKind && p.id == s.id && p.subcategory == s.category
    ensures p.popular == s.popular
    ensures p.waitTime.None?
    ensures s.position.Some? ==> p.position == s.position.value
    ensures s.position.None? ==> p.position == Origin
  {
    MapPoint(s.id, s.name, s.description, ShowKind, s.category,
             s.position.GetOr(Origin), None, s.rating, s.popular)
  }

  /** The café, the first-aid post and the nursery, never marked popular. */
  const FixedPoints: seq<MapPoint> := [
    MapPoint(6, "Caffè del Parco", "Caffetteria e pasticceria con prodotti freschi",
             RestaurantKind, "caffetteria", Position(40.0, 35.0), None, 4.2, false),
    MapPoint(7, "Infermeria", "Punto di primo soccorso per emergenze mediche",
             ServiceKind, "pronto-soccorso", Position(45.0, 55.0), None, 5.0, false),
    MapPoint(8, "Nursery", "Area dedicata alla cura dei bambini piccoli",
             ServiceKind, "bambini", Position(55.0, 65.0), None, 4.8, false)
  ]

  /** Every marker: attractions, then shows, then the fixed points. */
  function MapPoints(attractions: seq<Attraction>, shows: seq<Show>): (r: seq<MapPoint>)
    ensures |r| == |attractions| + |shows| + |FixedPoints|
    ensures forall i :: 0 <= i < |attractions| ==> r[i] == AttractionMarker(attractions[i])
    ensures forall j :: 0 <= j < |shows| ==> r[|attractions| + j] == ShowMarker(shows[j])
    ensures r[|attractions| + |shows|..] == FixedPoints
  {
    seq(|attractions|, i requires 0 <= i < |attractions| => AttractionMarker(attractions[i]))
    + seq(|shows|, j requires 0 <= j < |shows| => ShowMarker(shows[j]))
    + FixedPoints
  }

  /** The badge of a marker's wait time: gray when there is none or it is
      zero, the usual bands otherwise. */
  function MarkerWaitBadge(minutes: Option<int>): (r: WaitBadge)
    ensures r == Gray <==> minutes.None? || minutes.value == 0
    ensures minutes.Some? && minutes.value != 0 ==> r == WaitBand(minutes.value)
  {
    match minutes
    case None => Gray
    case Some(m) => if m == 0 then Gray else WaitBand(m)
  }

  /** The five category toggles. */
  datatype Toggles = Toggles(attractions: bool, restaurants: bool, services: bool, shows: bool, shops: bool)

  const AllOn: Toggles := Toggles(true, true, true, true, true)
  const AllOff: Toggles := Toggles(false, false, false, false, false)

  /** The toggle governing a category. */
  function IsOn(f: Toggles, c: PointCategory): bool
  {
    match c
    case AttractionKind => f.attractions
    case RestaurantKind => f.restaurants
    case ServiceKind => f.services
    case ShowKind => f.shows
    case ShopKind => f.shops
  }

  /** Ticking or unticking one category checkbox. */
  function HandleFilterChange(f: Toggles, key: PointCategory, value: bool): (r: Toggles)
    ensures IsOn(r, key) == value
    ensures forall c :: c != key ==> IsOn(r, c) == IsOn(f, c)
  {
    match key
    case AttractionKind => f.(attractions := value)
    case RestaurantKind => f.(restaurants := value)
    case ServiceKind => f.(services := value)
    case ShowKind => f.(shows := value)
    case ShopKind => f.(shops := value)
  }

  /** "Select all" and "deselect all" set every toggle to one value. */
  lemma SelectAllAndDeselectAll()
    ensures forall c :: IsOn(AllOn, c) && !IsOn(AllOff, c)
  {
  }

  /** The search box: an empty query, or the query in the name, the
      description or the subcategory, ignoring case. */
  predicate PointMatchesSearch(p: MapPoint, query: string)
  {
    query == ""
    || MatchesText(p.name, query)
    || MatchesText(p.description, query)
    || MatchesText(p.subcategory, query)
  }

  /** The category check as the page writes it: one disjunct per toggle. */
  predicate MatchesFilter(f: Toggles, p: MapPoint)
  {
    (f.attractions && p.category == AttractionKind)
    || (f.restaurants && p.category == RestaurantKind)
    || (f.services && p.category == ServiceKind)
    || (f.shows && p.category == ShowKind)
    || (f.shops && p.category == ShopKind)
  }

  /** A point passes the category check exactly when its own toggle is on. */
  lemma MatchesFilterIff(f: Toggles, p: MapPoint)
    ensures MatchesFilter(f, p) <==> IsOn(f, p.category)
  {
  }

  /** Whether a marker is shown. */
  predicate Shown(p: MapPoint, query: string, f: Toggles, popularOnly: bool)
  {
    if popularOnly && !p.popular then false
    else PointMatchesSearch(p, query) && MatchesFilter(f, p)
  }

  /** The markers on screen, in their original order. */
  function FilteredPoints(points: seq<MapPoint>, query: string, f: Toggles, popularOnly: bool): (r: seq<MapPoint>)
    ensures IsSublist(r, points)
    ensures forall p :: p in r <==>
      p in points && (popularOnly ==> p.popular) && PointMatchesSearch(p, query) && IsOn(f, p.category)
  {
    FilterMembers(points, (p: MapPoint) => Shown(p, query, f, popularOnly));
    Filter(points, (p: MapPoint) => Shown(p, query, f, popularOnly))
  }

  /** With every toggle off nothing is shown. */
  lemma AllOffShowsNothing(points: seq<MapPoint>, query: string, popularOnly: bool)
    ensures FilteredPoints(points, query, AllOff, popularOnly) == []
  {
    FilterNone(points, (p: MapPoint) => Shown(p, query, AllOff, popularOnly));
  }

  /** "Reset filters" (empty search, every toggle on, popular-only off)
      shows every marker. */
  lemma ResetShowsEverything(points: seq<MapPoint>)
    ensures FilteredPoints(points, "", AllOn, false) == points
  {
    var keep := (p: MapPoint) => Shown(p, "", AllOn, false);
    assert AllSatisfy(points, keep) by {
      forall i | 0 <= i < |points| ensures keep(points[i]) {
        MatchesFilterIff(AllOn, points[i]);
      }
    }
    FilterKeepsAll(points, keep);
  }

  /** Filtering what is already filtered changes nothing. */
  lemma FilteredPointsIdempotent(points: seq<MapPoint>, query: string, f: Toggles, popularOnly: bool)
    ensures FilteredPoints(FilteredPoints(points, query, f, popularOnly), query, f, popularOnly)
      == FilteredPoints(points, query, f, popularOnly)
  {
    FilterIdempotent(points, (p: MapPoint) => Shown(p, query, f, popularOnly));
  }

  /** With "popular only" on, the fixed points disappear and what remains is
      popular attractions (score above the threshold) and popular shows. */
  lemma PopularOnlyKeepsPopularSources(attractions: seq<Attraction>, shows: seq<Show>, query: string, f: Toggles)
    ensures var r := FilteredPoints(MapPoints(attractions, shows), query, f, true);
      forall p :: p in r ==>
        p !in FixedPoints
        && ((exists i :: 0 <= i < |attractions| && p == AttractionMarker(attractions[i]) && attractions[i].popularity > PopularityThreshold)
            || (exists j :: 0 <= j < |shows| && p == ShowMarker(shows[j]) && shows[j].popular))
  {
    var r := FilteredPoints(MapPoints(attractions, shows), query, f, true);
    forall p | p in r
      ensures p !in FixedPoints
      ensures (exists i :: 0 <= i < |attractions| && p == AttractionMarker(attractions[i]) && attractions[i].popularity > PopularityThreshold)
            || (exists j :: 0 <= j < |shows| && p == ShowMarker(shows[j]) && shows[j].popular)
    {
      PopularPointSource(attractions, shows, p);
    }
  }

  /** A popular marker is no fixed point: it comes from a popular attraction
      or a popular show. */
  lemma PopularPointSource(attractions: seq<Attraction>, shows: seq<Show>, p: MapPoint)
    requires p in MapPoints(attractions, shows) && p.popular
    ensures p !in FixedPoints
    ensures (exists i :: 0 <= i < |attractions| && p == AttractionMarker(attractions[i]) && attractions[i].popularity > PopularityThreshold)
            || (exists j :: 0 <= j < |shows| && p == ShowMarker(shows[j]) && shows[j].popular)
  {
    var all := MapPoints(attractions, shows);
    var k :| 0 <= k < |all| && all[k] == p;
    if k < |attractions| {
      assert p == AttractionMarker(attractions[k]);
    } else if k < |attractions| + |shows| {
      assert p == ShowMarker(shows[k - |attractions|]);
    }
  }
}
