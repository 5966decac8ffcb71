/** The visit planner page: an ordered itinerary of attractions and shows,
    its total duration and the two catalogue searches feeding it. */
module Planner {
  import opened Common
  import opened Text
  import opened Park

  datatype ItemKind = AttractionItem | ShowItem

  /** The `type` tag as the page spells it. */
  function KindName(k: ItemKind): string
  {
    match k
    case AttractionItem => "attraction"
    case ShowItem => "show"
  }

  /** The catalogue fields an itinerary entry copies from its attraction or
      show. `duration` and `waitTime` are what `Number()` makes of them
      (`None` for `NaN` or a missing field). */
  datatype Source = Source(
    id: int,
    name: string,
    description: string,
    location: string,
    duration: Option<int>,
    waitTime: Option<int>,
    category: string)

  /** One itinerary entry: a copy of its source plus the entry's own kind,
      composite id and, for shows, the chosen start time. */
  datatype PlannerItem = PlannerItem(
    id: int,
    name: string,
    description: string,
    location: string,
    duration: Option<int>,
    waitTime: Option<int>,
    kind: ItemKind,
    category: string,
    plannerId: string,
    time: Option<string>)

  function AttractionSource(a: Attraction): Source
  {
    Source(a.id, a.name, a.description, a.location, a.duration, Some(a.waitTime), a.category)
  }

  /** Shows carry no wait time. */
  function ShowSource(s: Show): Source
  {
    Source(s.id, s.name, s.description, s.location, Some(s.duration), None, s.category)
  }

  // ---------------------------------------------------------------------
  // Composite planner ids
  // ---------------------------------------------------------------------

  /** `${type}-${item.id}-${Date.now()}`; the clock reading is an input. */
  function PlannerId(k: ItemKind, id: int, timestamp: nat): string
  {
    KindName(k) + "-" + IntToString(id) + "-" + NatToString(timestamp)
  }

  /** A composite id starts with the kind name and a dash, and ends with a
      dash and the clock reading's digits. */
  lemma PlannerIdShape(k: ItemKind, id: int, timestamp: nat)
    ensures var r := PlannerId(k, id, timestamp);
      |r| > |KindName(k)| + 1 + |NatToString(timestamp)|
      && r[..|KindName(k)| + 1] == KindName(k) + "-"
      && r[|r| - |NatToString(timestamp)| - 1..] == "-" + NatToString(timestamp)
  {
    var tail := NatToString(timestamp);
    assert PlannerId(k, id, timestamp) == (KindName(k) + "-") + IntToString(id) + ("-" + tail);
    FramedEnds(KindName(k) + "-", IntToString(id), "-" + tail);
  }

  /** Framing a non-empty middle keeps both ends readable by position. */
  lemma FramedEnds(head: string, middle: string, tail: string)
    requires |middle| > 0
    ensures var r := head + middle + tail;
      |r| > |head| + |tail| && r[..|head|] == head && r[|r| - |tail|..] == tail
  {
    var r := head + middle + tail;
    assert r[..|head|] == head;
    assert r[|r| - |tail|..] == tail;
  }

  /** Reads `<id>-<timestamp>`, splitting at the last dash (a negative id
      brings a dash of its own). */
  function ParseIdAndStamp(rest: string): Option<(int, nat)>
  {
    match LastIndexOf(rest, '-')
    case Some(dash) =>
      var id := ParseSignedInt(rest[..dash]);
      var ts := ParseNat(rest[dash + 1..]);
      if id.Some? && ts.Some? then Some((id.value, ts.value)) else None
    case None => None
  }

  /** Tags a parsed source id and timestamp with the kind its prefix named. */
  function WithKind(k: ItemKind, parsed: Option<(int, nat)>): Option<(ItemKind, int, nat)>
  {
    if parsed.Some? then Some((k, parsed.value.0, parsed.value.1)) else None
  }

  /** Reads a composite id back into its kind, source id and timestamp. */
  function ParsePlannerId(pid: string): Option<(ItemKind, int, nat)>
  {
    if "attraction-" <= pid then WithKind(AttractionItem, ParseIdAndStamp(pid[|"attraction-"|..]))
    else if "show-" <= pid then WithKind(ShowItem, ParseIdAndStamp(pid[|"show-"|..]))
    else None
  }

  lemma IdAndStampRoundTrip(id: int, timestamp: nat)
    ensures ParseIdAndStamp(IntToString(id) + "-" + NatToString(timestamp)) == Some((id, timestamp))
  {
    var idText := IntToString(id);
    var tsText := NatToString(timestamp);
    var rest := idText + "-" + tsText;
    assert '-' !in tsText;
    LastIndexOfJoin(idText, '-', tsText);
    assert rest[..|idText|] == idText;
    assert rest[|idText| + 1..] == tsText;
    IntRoundTrip(id);
    NatRoundTrip(timestamp);
  }

  lemma KindPrefix(k: ItemKind, rest: string)
    ensures var pid := KindName(k) + "-" + rest;
            (k == AttractionItem ==> "attraction-" <= pid && pid[|"attraction-"|..] == rest) &&
            (k == ShowItem ==> !("attraction-" <= pid) && "show-" <= pid && pid[|"show-"|..] == rest)
  {
    var pid := KindName(k) + "-" + rest;
    if k == ShowItem {
      assert pid[0] == 's';
    }
  }

  /** A composite id determines the kind, source id and timestamp it was
      built from. */
  lemma PlannerIdRoundTrip(k: ItemKind, id: int, timestamp: nat)
    ensures ParsePlannerId(PlannerId(k, id, timestamp)) == Some((k, id, timestamp))
  {
    var rest := IntToString(id) + "-" + NatToString(timestamp);
    var pid := PlannerId(k, id, timestamp);
    assert pid == KindName(k) + "-" + rest;
    KindPrefix(k, rest);
    IdAndStampRoundTrip(id, timestamp);
    assert WithKind(k, ParseIdAndStamp(rest)) == Some((k, id, timestamp));
  }

  /** Entries added at different instants, or for different sources, never
      share a composite id. The clock itself is not assumed to tick between
      two additions. */
  lemma PlannerIdInjective(k1: ItemKind, id1: int, t1: nat, k2: ItemKind, id2: int, t2: nat)
    requires (k1, id1, t1) != (k2, id2, t2)
    ensures PlannerId(k1, id1, t1) != PlannerId(k2, id2, t2)
  {
    PlannerIdRoundTrip(k1, id1, t1);
    PlannerIdRoundTrip(k2, id2, t2);
  }

  // ---------------------------------------------------------------------
  // Adding and removing entries
  // ---------------------------------------------------------------------

  /** `addToPlanner`: appends one entry at the end. An empty time string is
      stored as no time, as `time || undefined` does. */
  function AddToPlanner(items: seq<PlannerItem>, src: Source, k: ItemKind,
                        time: Option<string>, timestamp: nat): (r: seq<PlannerItem>)
    ensures |r| == |items| + 1
    ensures r[..|items|] == items
    ensures r[|items|].plannerId == PlannerId(k, src.id, timestamp)
    ensures r[|items|].kind == k
    ensures r[|items|].time.Some? <==> time.Some? && time.value != ""
    ensures r[|items|].time.Some? ==> r[|items|].time == time
    ensures r[|items|].id == src.id && r[|items|].duration == src.duration
    ensures r[|items|].waitTime == src.waitTime
  {
    var t := if time.Some? && time.value != "" then time else None;
    items + [PlannerItem(src.id, src.name, src.description, src.location, src.duration,
                         src.waitTime, k, src.category, PlannerId(k, src.id, timestamp), t)]
  }

  /** The attraction card's button adds the attraction with no time. */
  function AddAttraction(items: seq<PlannerItem>, a: Attraction, timestamp: nat): (r: seq<PlannerItem>)
    ensures |r| == |items| + 1 && r[..|items|] == items
    ensures r[|items|].kind == AttractionItem && r[|items|].time == None
  {
    AddToPlanner(items, AttractionSource(a), AttractionItem, None, timestamp)
  }

  /** Each of a show's time buttons adds the show at that time. */
  function AddShowAt(items: seq<PlannerItem>, s: Show, time: string, timestamp: nat): (r: seq<PlannerItem>)
    ensures |r| == |items| + 1 && r[..|items|] == items
    ensures r[|items|].kind == ShowItem
    ensures time != "" ==> r[|items|].time == Some(time)
  {
    AddToPlanner(items, ShowSource(s), ShowItem, Some(time), timestamp)
  }

  /** `removeFromPlanner`: keeps the entries whose composite id differs. */
  function RemoveFromPlanner(items: seq<PlannerItem>, pid: string): (r: seq<PlannerItem>)
    ensures forall it :: it in r <==> it in items && it.plannerId != pid
    ensures IsSublist(r, items)
  {
    FilterMembers(items, (it: PlannerItem) => it.plannerId != pid);
    Filter(items, (it: PlannerItem) => it.plannerId != pid)
  }

  /** No two entries share a composite id. */
  ghost predicate DistinctIds(items: seq<PlannerItem>)
  {
    forall i, j :: 0 <= i < j < |items| ==> items[i].plannerId != items[j].plannerId
  }

  function Ids(items: seq<PlannerItem>): (r: seq<string>)
    ensures |r| == |items|
    ensures forall i :: 0 <= i < |items| ==> r[i] == items[i].plannerId
  {
    if |items| == 0 then [] else [items[0].plannerId] + Ids(items[1..])
  }

  /** Removing an id no entry carries changes nothing. */
  lemma RemoveAbsent(items: seq<PlannerItem>, pid: string)
    requires pid !in Ids(items)
    ensures RemoveFromPlanner(items, pid) == items
  {
    var p := (it: PlannerItem) => it.plannerId != pid;
    forall i | 0 <= i < |items|
      ensures p(items[i])
    {
      assert Ids(items)[i] == items[i].plannerId;
    }
    FilterKeepsAll(items, p);
  }

  /** With distinct ids, removing the id of entry `i` deletes exactly that
      entry and keeps the others in order. */
  lemma RemovePresent(items: seq<PlannerItem>, i: nat)
    requires DistinctIds(items)
    requires i < |items|
    ensures RemoveFromPlanner(items, items[i].plannerId) == items[..i] + items[i + 1..]
    ensures |RemoveFromPlanner(items, items[i].plannerId)| == |items| - 1
  {
    var pid := items[i].plannerId;
    var p := (it: PlannerItem) => it.plannerId != pid;
    var pre, post := items[..i], items[i + 1..];
    assert items == pre + [items[i]] + post;
    assert AllSatisfy(pre, p) by {
      forall j | 0 <= j < |pre| ensures p(pre[j]) {
        assert pre[j] == items[j];
      }
    }
    assert AllSatisfy(post, p) by {
      forall j | 0 <= j < |post| ensures p(post[j]) {
        assert post[j] == items[i + 1 + j];
      }
    }
    FilterDropsOne(pre, items[i], post, p);
  }

  /** Removing the entry just added undoes the addition, provided its id is
      new. */
  lemma AddThenRemove(items: seq<PlannerItem>, src: Source, k: ItemKind,
                      time: Option<string>, timestamp: nat)
    requires PlannerId(k, src.id, timestamp) !in Ids(items)
    ensures RemoveFromPlanner(AddToPlanner(items, src, k, time, timestamp),
                              PlannerId(k, src.id, timestamp)) == items
  {
    var pid := PlannerId(k, src.id, timestamp);
    var r := AddToPlanner(items, src, k, time, timestamp);
    var p := (it: PlannerItem) => it.plannerId != pid;
    assert r == items + [r[|items|]];
    FilterAppend(items, [r[|items|]], p);
    RemoveAbsent(items, pid);
  }

  /** The same attraction added twice at different instants gives two
      entries; removing the later one leaves exactly the earlier one. */
  lemma RemoveOneOfTwins(items: seq<PlannerItem>, a: Attraction, t1: nat, t2: nat)
    requires t1 != t2
    requires PlannerId(AttractionItem, a.id, t1) !in Ids(items)
    requires PlannerId(AttractionItem, a.id, t2) !in Ids(items)
    ensures RemoveFromPlanner(AddAttraction(AddAttraction(items, a, t1), a, t2),
                              PlannerId(AttractionItem, a.id, t2))
            == AddAttraction(items, a, t1)
  {
    var once := AddAttraction(items, a, t1);
    PlannerIdInjective(AttractionItem, a.id, t1, AttractionItem, a.id, t2);
    assert Ids(once) == Ids(items) + [PlannerId(AttractionItem, a.id, t1)];
    AddThenRemove(once, AttractionSource(a), AttractionItem, None, t2);
  }

  // ---------------------------------------------------------------------
  // Total time
  // ---------------------------------------------------------------------

  /** One entry's minutes: its duration, plus its wait for attractions;
      missing or non-numeric values count as zero. */
  function ItemMinutes(it: PlannerItem): int
  {
    it.duration.GetOr(0) + (if it.kind == AttractionItem then it.waitTime.GetOr(0) else 0)
  }

  /** The `totalTime` fold over the itinerary, left to right. */
  function TotalTime(items: seq<PlannerItem>): int
  {
    if |items| == 0 then 0
    else TotalTime(items[..|items| - 1]) + ItemMinutes(items[|items| - 1])
  }

  /** An itinerary whose entries all take some non-negative time has a
      non-negative total, and the empty itinerary takes none. */
  lemma {:induction false} TotalTimeNonNegative(items: seq<PlannerItem>)
    requires forall i :: 0 <= i < |items| ==> ItemMinutes(items[i]) >= 0
    ensures TotalTime(items) >= 0
    ensures |items| == 0 ==> TotalTime(items) == 0
  {
    if |items| > 0 {
      var front := items[..|items| - 1];
      assert forall i :: 0 <= i < |front| ==> front[i] == items[i];
      TotalTimeNonNegative(front);
    }
  }

  /** The total of a concatenation is the sum of the totals. */
  lemma {:induction false} TotalTimeAppend(xs: seq<PlannerItem>, ys: seq<PlannerItem>)
    ensures TotalTime(xs + ys) == TotalTime(xs) + TotalTime(ys)
    decreases |ys|
  {
    if |ys| == 0 {
      assert xs + ys == xs;
    } else {
      var ys' := ys[..|ys| - 1];
      assert (xs + ys)[..|xs + ys| - 1] == xs + ys';
      TotalTimeAppend(xs, ys');
    }
  }

  /** Adding an entry adds its minutes to the total. */
  lemma TotalTimeAfterAdd(items: seq<PlannerItem>, src: Source, k: ItemKind,
                          time: Option<string>, timestamp: nat)
    ensures TotalTime(AddToPlanner(items, src, k, time, timestamp))
            == TotalTime(items) + src.duration.GetOr(0)
               + (if k == AttractionItem then src.waitTime.GetOr(0) else 0)
  {
    var r := AddToPlanner(items, src, k, time, timestamp);
    assert r[..|r| - 1] == items;
  }

  /** With distinct ids, removing entry `i` subtracts its minutes. */
  lemma TotalTimeAfterRemove(items: seq<PlannerItem>, i: nat)
    requires DistinctIds(items)
    requires i < |items|
    ensures TotalTime(RemoveFromPlanner(items, items[i].plannerId))
            == TotalTime(items) - ItemMinutes(items[i])
  {
    var pre, x, post := items[..i], items[i], items[i + 1..];
    RemovePresent(items, i);
    assert RemoveFromPlanner(items, x.plannerId) == pre + post;
    assert items == pre + [x] + post;
    TotalTimeSplit(pre, x, post);
    TotalTimeAppend(pre, post);
  }

  /** The total around one entry is the totals on each side plus its minutes. */
  lemma TotalTimeSplit(pre: seq<PlannerItem>, x: PlannerItem, post: seq<PlannerItem>)
    ensures TotalTime(pre + [x] + post) == TotalTime(pre) + ItemMinutes(x) + TotalTime(post)
  {
    TotalTimeAppend(pre + [x], post);
    TotalTimeAppend(pre, [x]);
    assert [x][..0] == [];
  }

  /** The worked example: a 5-minute ride with a 45-minute queue and a
      30-minute show with no wait field take 80 minutes, shown "1h 20min". */
  lemma TotalTimeExample(pa: string, ps: string)
    ensures var items := [
              PlannerItem(1, "Tornado", "", "", Some(5), Some(45), AttractionItem, "adrenalina", pa, None),
              PlannerItem(2, "Parata", "", "", Some(30), None, ShowItem, "parata", ps, Some("15:00"))];
            TotalTime(items) == 80 && FormatTime(TotalTime(items)) == "1h 20min"
  {
    var items := [
      PlannerItem(1, "Tornado", "", "", Some(5), Some(45), AttractionItem, "adrenalina", pa, None),
      PlannerItem(2, "Parata", "", "", Some(30), None, ShowItem, "parata", ps, Some("15:00"))];
    assert ItemMinutes(items[0]) == 50;
    assert ItemMinutes(items[1]) == 30;
    assert TotalTime(items[..1]) == 50 by {
      assert items[..1][..0] == [];
    }
    assert TotalTime(items) == 80;
    assert NatToString(1) == "1";
    assert NatToString(20) == "20" by {
      assert NatToString(2) == "2";
    }
  }

  // ---------------------------------------------------------------------
  // formatTime
  // ---------------------------------------------------------------------

  /** ECMAScript's `a % 60`, which truncates toward zero: the remainder
      takes the sign of `a`. */
  function JsRem60(a: int): (r: int)
    ensures a >= 0 ==> 0 <= r < 60
    ensures a < 0 ==> -60 < r <= 0
    ensures (a - r) % 60 == 0
  {
    if a >= 0 then a % 60 else -((-a) % 60)
  }

  /** `formatTime`: `"Xh Ymin"` from an hour up, `"Y min"` below, and
      `"0 min"` for zero. Hours use `Math.floor`, minutes the truncating
      `%`. */
  function FormatTime(minutes: int): (r: string)
    ensures |r| >= 3 && r[|r| - 3..] == "min"
  {
    if minutes == 0 then "0 min"
    else
      var hours := minutes / 60;
      var mins := JsRem60(minutes);
      if hours > 0 then IntToString(hours) + "h " + IntToString(mins) + "min"
      else IntToString(mins) + " min"
  }

  /** A rendered integer holds digits and at most a sign, never an `h`. */
  lemma NoHourMarkInNumber(i: int)
    ensures 'h' !in IntToString(i)
  {
    var r := IntToString(i);
    forall k | 0 <= k < |r| ensures r[k] != 'h' {
      if i < 0 && k > 0 {
        assert r[k] == r[1..][k - 1];
      }
    }
  }

  /** The text carries an hours part exactly for totals of an hour or more;
      shorter and negative totals are shown in minutes alone. */
  lemma HoursShownIffAnHour(minutes: int)
    ensures 'h' in FormatTime(minutes) <==> minutes >= 60
  {
    var hours := minutes / 60;
    var mins := JsRem60(minutes);
    NoHourMarkInNumber(hours);
    NoHourMarkInNumber(mins);
    if minutes == 0 {
      assert FormatTime(minutes) == "0 min";
    } else if hours > 0 {
      var r := IntToString(hours) + "h " + IntToString(mins) + "min";
      assert r[|IntToString(hours)|] == 'h';
    } else {
      var r := IntToString(mins) + " min";
      assert forall k :: 0 <= k < |r| ==> r[k] in IntToString(mins) || r[k] in " min";
    }
  }

  /** Reads a formatted duration back into minutes. */
  function ParseFormattedTime(s: string): Option<int>
  {
    if |s| >= 4 && s[|s| - 4..] == " min" then
      ParseSignedInt(s[..|s| - 4])
    else if |s| >= 3 && s[|s| - 3..] == "min" then
      ParseHoursPart(s[..|s| - 3])
    else None
  }

  /** Reads `"Xh Y"`, the text before a trailing `min`, into minutes. */
  function ParseHoursPart(body: string): Option<int>
  {
    match FirstIndexOf(body, 'h')
    case None => None
    case Some(k) => ReadHoursAt(body, k)
  }

  /** Reads the hours before index `k` and the minutes after `h `. */
  function ReadHoursAt(body: string, k: nat): Option<int>
    requires k < |body|
  {
    if k + 1 < |body| && body[k + 1] == ' ' then
      var hours := ParseNat(body[..k]);
      var mins := ParseNat(body[k + 2..]);
      if hours.Some? && mins.Some? then Some(hours.value * 60 + mins.value) else None
    else None
  }

  /** Every non-negative total reads back from its formatted text, so the
      display never conflates two totals. */
  lemma FormatTimeRoundTrip(minutes: nat)
    ensures ParseFormattedTime(FormatTime(minutes)) == Some(minutes)
  {
    if minutes < 60 {
      FormatShortRoundTrip(minutes);
    } else {
      FormatLongRoundTrip(minutes);
    }
  }

  /** Below an hour the total is shown as `"Y min"`, zero as `"0 min"`. */
  lemma FormatShortRoundTrip(minutes: nat)
    requires minutes < 60
    ensures FormatTime(minutes) == NatToString(minutes) + " min"
    ensures minutes == 0 ==> FormatTime(minutes) == "0 min"
    ensures ParseFormattedTime(FormatTime(minutes)) == Some(minutes)
  {
    FormatShortShape(minutes);
    ParseMinutesOnly(minutes);
  }

  lemma FormatShortShape(minutes: nat)
    requires minutes < 60
    ensures FormatTime(minutes) == NatToString(minutes) + " min"
  {
    if minutes == 0 {
      assert NatToString(0) == "0";
    } else {
      assert JsRem60(minutes) == minutes;
    }
  }

  /** Any `"Y min"` text reads back as `Y` minutes. */
  lemma ParseMinutesOnly(m: nat)
    ensures ParseFormattedTime(NatToString(m) + " min") == Some(m)
  {
    var d := NatToString(m);
    var s := d + " min";
    assert s[|s| - 4..] == " min";
    assert s[..|s| - 4] == d;
    IntRoundTrip(m);
  }

  /** From an hour up the total is shown as `"Xh Ymin"`: whole hours, then
      the minutes left over. */
  lemma FormatLongRoundTrip(minutes: nat)
    requires minutes >= 60
    ensures FormatTime(minutes) == NatToString(minutes / 60) + "h " + NatToString(minutes % 60) + "min"
    ensures ParseFormattedTime(FormatTime(minutes)) == Some(minutes)
  {
    FormatLongShape(minutes);
    LongTextReadsBack(minutes);
  }

  lemma LongTextReadsBack(minutes: nat)
    ensures ParseFormattedTime(NatToString(minutes / 60) + "h " + NatToString(minutes % 60) + "min")
            == Some(minutes)
  {
    var h, m := minutes / 60, minutes % 60;
    ParseHoursAndMinutes(h, m);
    assert h * 60 + m == minutes;
  }

  lemma FormatLongShape(minutes: nat)
    requires minutes >= 60
    ensures FormatTime(minutes) == NatToString(minutes / 60) + "h " + NatToString(minutes % 60) + "min"
  {
    assert JsRem60(minutes) == minutes % 60;
    assert minutes / 60 > 0;
  }

  /** Any `"Xh Ymin"` text reads back as `60 * X + Y` minutes. */
  lemma ParseHoursAndMinutes(h: nat, m: nat)
    ensures ParseFormattedTime(NatToString(h) + "h " + NatToString(m) + "min") == Some(h * 60 + m)
  {
    var hs := NatToString(h);
    var ms := NatToString(m);
    var body := hs + "h " + ms;
    var s := body + "min";
    assert s == hs + "h " + ms + "min";
    assert s[..|s| - 3] == body;
    assert s[|s| - 3..] == "min";
    assert s[|s| - 4] == ms[|ms| - 1];
    assert s[|s| - 4..] != " min";
    ParseHoursPartOf(h, m);
  }

  lemma ParseHoursPartOf(h: nat, m: nat)
    ensures ParseHoursPart(NatToString(h) + "h " + NatToString(m)) == Some(h * 60 + m)
  {
    var hs := NatToString(h);
    var ms := NatToString(m);
    NoHourMarkInNumber(h);
    HoursBodySplit(hs, ms);
    NatRoundTrip(h);
    NatRoundTrip(m);
    ParseHoursPartAt(hs + "h " + ms, |hs|, h, m);
  }

  /** In `<hs>h <ms>` with no `h` inside `hs`, the first `h` follows `hs`
      and a space follows it. */
  lemma HoursBodySplit(hs: string, ms: string)
    requires 'h' !in hs
    ensures var body := hs + "h " + ms;
      FirstIndexOf(body, 'h') == Some(|hs|) && |hs| + 1 < |body| && body[|hs| + 1] == ' '
      && body[..|hs|] == hs && body[|hs| + 2..] == ms
  {
    var body := hs + ['h'] + (" " + ms);
    assert hs + "h " + ms == body;
    FirstIndexOfJoin(hs, 'h', " " + ms);
    assert body[|hs| + 1] == ' ';
    assert body[..|hs|] == hs;
    assert body[|hs| + 2..] == ms;
  }

  /** `ParseHoursPart` splits at the first `h` and reads both sides. */
  lemma ParseHoursPartAt(body: string, k: nat, h: nat, m: nat)
    requires FirstIndexOf(body, 'h') == Some(k) && k + 1 < |body| && body[k + 1] == ' '
    requires ParseNat(body[..k]) == Some(h) && ParseNat(body[k + 2..]) == Some(m)
    ensures ParseHoursPart(body) == Some(h * 60 + m)
  {
    assert ParseHoursPart(body) == ReadHoursAt(body, k);
  }

  // ---------------------------------------------------------------------
  // Catalogue searches
  // ---------------------------------------------------------------------

  /** The planner's text search over name, location and description. */
  predicate MatchesSearch(name: string, location: string, description: string, query: string)
  {
    query == "" || MatchesText(name, query) || MatchesText(location, query) ||
    MatchesText(description, query)
  }

  /** An attraction passes the search and the category selector, where
      `"tutte"` selects every category. */
  predicate AttractionPasses(a: Attraction, query: string, categoryFilter: string)
  {
    MatchesSearch(a.name, a.location, a.description, query) &&
    (categoryFilter == "tutte" || a.category == categoryFilter)
  }

  /** `filteredAttractions`. */
  function FilteredAttractions(attractions: seq<Attraction>, query: string,
                               categoryFilter: string): (r: seq<Attraction>)
    ensures forall a :: a in r <==> a in attractions && AttractionPasses(a, query, categoryFilter)
    ensures IsSublist(r, attractions)
  {
    FilterMembers(attractions, (a: Attraction) => AttractionPasses(a, query, categoryFilter));
    Filter(attractions, (a: Attraction) => AttractionPasses(a, query, categoryFilter))
  }

  /** `filteredShows`: only the text search, no category test. */
  function FilteredShows(shows: seq<Show>, query: string): (r: seq<Show>)
    ensures forall s :: s in r <==> s in shows && MatchesSearch(s.name, s.location, s.description, query)
    ensures IsSublist(r, shows)
  {
    FilterMembers(shows, (s: Show) => MatchesSearch(s.name, s.location, s.description, query));
    Filter(shows, (s: Show) => MatchesSearch(s.name, s.location, s.description, query))
  }

  /** Both searches are idempotent. */
  lemma PlannerFiltersIdempotent(attractions: seq<Attraction>, shows: seq<Show>,
                                 query: string, categoryFilter: string)
    ensures FilteredAttractions(FilteredAttractions(attractions, query, categoryFilter), query, categoryFilter)
            == FilteredAttractions(attractions, query, categoryFilter)
    ensures FilteredShows(FilteredShows(shows, query), query) == FilteredShows(shows, query)
  {
    FilterIdempotent(attractions, (a: Attraction) => AttractionPasses(a, query, categoryFilter));
    FilterIdempotent(shows, (s: Show) => MatchesSearch(s.name, s.location, s.description, query));
  }

  /** The "reset filters" state (empty query, `"tutte"`) lists every
      attraction. */
  lemma ResetFiltersShowsAll(attractions: seq<Attraction>)
    ensures FilteredAttractions(attractions, "", "tutte") == attractions
  {
    FilterKeepsAll(attractions, (a: Attraction) => AttractionPasses(a, "", "tutte"));
  }
}
