/** The shows page: the time-of-day tabs over each show's schedule, the
    search box, the favourites list and the featured strip. */
module ShowsPage {
  import opened Common
  import opened Text
  import opened Park

  /** The page's tabs: every show, the three parts of the day, favourites. */
  datatype Tab = All | Morning | Afternoon | Evening | Favorites

  /** `time.split(":")[0]`: the text before the first colon, or all of it. */
  function BeforeColon(time: string): (r: string)
    ensures r <= time
    ensures ':' !in r
  {
    match FirstIndexOf(time, ':')
    case Some(k) => time[..k]
    case None => time
  }

  /** The hour of a show time as `Number.parseInt` reads it; `None` for
      `NaN`, which fails every comparison. */
  function ParseHour(time: string): Option<int>
  {
    ParseIntJs(BeforeColon(time))
  }

  predicate IsMorning(time: string)
  {
    match ParseHour(time)
    case Some(h) => h < 12
    case None => false
  }

  predicate IsAfternoon(time: string)
  {
    match ParseHour(time)
    case Some(h) => 12 <= h < 18
    case None => false
  }

  predicate IsEvening(time: string)
  {
    match ParseHour(time)
    case Some(h) => h >= 18
    case None => false
  }

  /** A time with a readable hour falls in exactly one part of the day; a
      time without one falls in none. */
  lemma PartsOfDayPartition(time: string)
    ensures ParseHour(time).Some? ==>
      (IsMorning(time) && !IsAfternoon(time) && !IsEvening(time))
      || (!IsMorning(time) && IsAfternoon(time) && !IsEvening(time))
      || (!IsMorning(time) && !IsAfternoon(time) && IsEvening(time))
    ensures ParseHour(time).None? ==> !IsMorning(time) && !IsAfternoon(time) && !IsEvening(time)
  {
  }

  /** A time written as digits, a colon and anything after it has the hour
      those digits spell, leading zeros included. */
  lemma ParseHourOfDigits(hour: string, rest: string)
    requires |hour| > 0 && forall i :: 0 <= i < |hour| ==> IsDigit(hour[i])
    ensures ParseHour(hour + ":" + rest) == Some(Positional(hour, 10) as int)
  {
    assert ':' !in hour by {
      forall i | 0 <= i < |hour| ensures hour[i] != ':' {
        assert IsDigit(hour[i]);
      }
    }
    FirstIndexOfJoin(hour, ':', rest);
    assert (hour + ":" + rest)[..|hour|] == hour;
    ParseIntJsDigits(hour, "");
    assert hour + "" == hour;
  }

  /** A time built from a rendered hour reads back as that hour. */
  lemma ParseHourOfRendered(h: nat, rest: string)
    ensures ParseHour(NatToString(h) + ":" + rest) == Some(h as int)
  {
    ParseHourOfDigits(NatToString(h), rest);
    NatToStringValue(h);
  }

  /** The tabs that narrow a show's schedule. */
  predicate IsPartOfDay(tab: Tab)
  {
    tab == Morning || tab == Afternoon || tab == Evening
  }

  /** Whether a time is kept under a tab; the other tabs keep every time. */
  predicate TimeInTab(tab: Tab, time: string)
  {
    match tab
    case Morning => IsMorning(time)
    case Afternoon => IsAfternoon(time)
    case Evening => IsEvening(time)
    case _ => true
  }

  /** The times shown on a show's card under a tab. */
  function GetFilteredTimes(show: Show, tab: Tab): (r: seq<string>)
    ensures IsSublist(r, show.times)
    ensures !IsPartOfDay(tab) ==> r == show.times
    ensures forall t :: t in r <==> t in show.times && TimeInTab(tab, t)
  {
    if IsPartOfDay(tab) then
      FilterMembers(show.times, (t: string) => TimeInTab(tab, t));
      Filter(show.times, (t: string) => TimeInTab(tab, t))
    else
      IsSublistRefl(show.times);
      show.times
  }

  /** The three part-of-day tabs split a schedule of readable times: every
      time is shown under exactly one of them. */
  lemma TimeTabsCoverSchedule(show: Show, t: string)
    requires t in show.times && ParseHour(t).Some?
    ensures (t in GetFilteredTimes(show, Morning) && t !in GetFilteredTimes(show, Afternoon) && t !in GetFilteredTimes(show, Evening))
      || (t !in GetFilteredTimes(show, Morning) && t in GetFilteredTimes(show, Afternoon) && t !in GetFilteredTimes(show, Evening))
      || (t !in GetFilteredTimes(show, Morning) && t !in GetFilteredTimes(show, Afternoon) && t in GetFilteredTimes(show, Evening))
  {
    PartsOfDayPartition(t);
    assert t in GetFilteredTimes(show, Morning) <==> IsMorning(t);
    assert t in GetFilteredTimes(show, Afternoon) <==> IsAfternoon(t);
    assert t in GetFilteredTimes(show, Evening) <==> IsEvening(t);
  }

  /** The search box: an empty query, or the query found case-insensitively
      in the name, the description or the category. */
  predicate ShowMatchesSearch(show: Show, query: string)
  {
    query == ""
    || MatchesText(show.name, query)
    || MatchesText(show.description, query)
    || MatchesText(show.category, query)
  }

  /** The empty query matches every show (it is found in every text too). */
  lemma EmptyQueryMatchesAll(show: Show)
    ensures ShowMatchesSearch(show, "")
    ensures MatchesText(show.name, "")
  {
    IncludesEmpty(ToLower(show.name));
  }

  /** Whether a show is listed under a tab, search aside. */
  predicate ShowInTab(show: Show, tab: Tab, favorites: seq<int>)
  {
    match tab
    case All => true
    case Favorites => show.id in favorites
    case _ => exists i :: 0 <= i < |show.times| && TimeInTab(tab, show.times[i])
  }

  /** The list of shows under the search box and the tab. */
  function FilteredShows(shows: seq<Show>, query: string, tab: Tab, favorites: seq<int>): (r: seq<Show>)
    ensures IsSublist(r, shows)
    ensures forall s :: s in r <==> s in shows && ShowMatchesSearch(s, query) && ShowInTab(s, tab, favorites)
  {
    FilterMembers(shows, (s: Show) => ShowMatchesSearch(s, query) && ShowInTab(s, tab, favorites));
    Filter(shows, (s: Show) => ShowMatchesSearch(s, query) && ShowInTab(s, tab, favorites))
  }

  /** Under a part-of-day tab a matching show is listed exactly when its card
      would show at least one time. */
  lemma ListedIffCardHasTimes(shows: seq<Show>, query: string, tab: Tab, favorites: seq<int>, show: Show)
    requires IsPartOfDay(tab)
    requires show in shows && ShowMatchesSearch(show, query)
    ensures show in FilteredShows(shows, query, tab, favorites) <==> GetFilteredTimes(show, tab) != []
  {
    InTabIffCardHasTimes(show, tab, favorites);
    assert show in FilteredShows(shows, query, tab, favorites) <==> ShowInTab(show, tab, favorites);
  }

  lemma InTabIffCardHasTimes(show: Show, tab: Tab, favorites: seq<int>)
    requires IsPartOfDay(tab)
    ensures ShowInTab(show, tab, favorites) <==> GetFilteredTimes(show, tab) != []
  {
    var times := GetFilteredTimes(show, tab);
    if times != [] {
      assert times[0] in times;
      var i :| 0 <= i < |show.times| && show.times[i] == times[0];
      assert TimeInTab(tab, show.times[i]);
    }
    if ShowInTab(show, tab, favorites) {
      var i :| 0 <= i < |show.times| && TimeInTab(tab, show.times[i]);
      assert show.times[i] in times;
    }
  }

  /** The favourites tab lists exactly the matching favourite shows. */
  lemma FavoritesTabListsFavorites(shows: seq<Show>, query: string, favorites: seq<int>)
    ensures forall s :: s in FilteredShows(shows, query, Favorites, favorites) <==>
      s in shows && s.id in favorites && ShowMatchesSearch(s, query)
  {
  }

  /** Re-applying the same search and tab changes nothing. */
  lemma FilteredShowsIdempotent(shows: seq<Show>, query: string, tab: Tab, favorites: seq<int>)
    ensures FilteredShows(FilteredShows(shows, query, tab, favorites), query, tab, favorites)
      == FilteredShows(shows, query, tab, favorites)
  {
    FilterIdempotent(shows, (s: Show) => ShowMatchesSearch(s, query) && ShowInTab(s, tab, favorites));
  }

  /** With the empty query, the first tab lists every show. */
  lemma AllTabEmptyQueryListsEverything(shows: seq<Show>, favorites: seq<int>)
    ensures FilteredShows(shows, "", All, favorites) == shows
  {
    var p := (s: Show) => ShowMatchesSearch(s, "") && ShowInTab(s, All, favorites);
    FilterKeepsAll(shows, p);
  }

  /** The heart button on a show: adds its id to the favourites or removes it. */
  function ToggleFavorite(favorites: seq<int>, id: int): (r: seq<int>)
    ensures (id in r) <==> (id !in favorites)
    ensures forall other :: other != id ==> (other in r <==> other in favorites)
  {
    Toggle(favorites, id)
  }

  /** Toggling a favourite twice leaves the favourites tab as it was. */
  lemma ToggleFavoriteTwice(shows: seq<Show>, query: string, favorites: seq<int>, id: int)
    ensures FilteredShows(shows, query, Favorites, ToggleFavorite(ToggleFavorite(favorites, id), id))
      == FilteredShows(shows, query, Favorites, favorites)
  {
    var twice := ToggleFavorite(ToggleFavorite(favorites, id), id);
    assert forall s: Show :: s.id in twice <==> s.id in favorites;
    FilterSameOn(shows,
      (s: Show) => ShowMatchesSearch(s, query) && ShowInTab(s, Favorites, twice),
      (s: Show) => ShowMatchesSearch(s, query) && ShowInTab(s, Favorites, favorites));
  }

  /** The featured strip: the first three popular shows. */
  function Featured(shows: seq<Show>): (r: seq<Show>)
    ensures |r| <= 3
    ensures r <= Filter(shows, (s: Show) => s.popular)
    ensures forall s :: s in r ==> s in shows && s.popular
  {
    FilterMembers(shows, (s: Show) => s.popular);
    Take(Filter(shows, (s: Show) => s.popular), 3)
  }

  /** The strip holds three shows whenever at least three are popular, and
      every popular show when there are fewer. */
  lemma FeaturedSize(shows: seq<Show>)
    ensures var popular := Filter(shows, (s: Show) => s.popular);
      |Featured(shows)| == if |popular| < 3 then |popular| else 3
    ensures var popular := Filter(shows, (s: Show) => s.popular);
      |popular| < 3 ==> forall s :: s in shows && s.popular ==> s in Featured(shows)
  {
    FilterMembers(shows, (s: Show) => s.popular);
  }
}
