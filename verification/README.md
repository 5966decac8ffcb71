# parco_front in Dafny

A model of the front-end logic of an amusement-park web site: the pages
where visitors browse attractions and shows, plan a visit, look at the park
map and buy tickets. Every computation the pages write inline is written
here as a pure function over immutable records and sequences, and the
properties the pages rely on are proved about them. The covered logic is:

- **Visit planner.** Add and remove itinerary entries by their composite
  id, compute the total duration, format minutes as `"Xh Ymin"`, and run
  the two catalogue searches.
- **Ticket checkout.** The head-count steppers; the ticket, extras and
  grand totals; the extras toggle; the ticket-holder form; the payment
  form; and the four-step wizard with its guards. All of these run on the
  shared ticket session.
- **Shows page.** Time-of-day tabs over each schedule, search, favourites
  and the featured strip.
- **Attractions page.** Category tabs and search, and the wait-time and
  intensity badges.
- **Map.** Attractions, shows and three fixed service points merged into
  markers, then filtered by search, category toggles and "popular only".
- **Home page.** The booking widget's estimate, steppers and buy guard,
  and the hero carousel.

Modules, one per page or component, plus shared ones:

| module | file | models |
|---|---|---|
| `Common` | common.dfy | optional values, `filter`, `find`, `slice(0, n)`, the add-or-remove toggle |
| `Text` | text.dfy | ASCII `toLowerCase`, `includes`, `trim`, decimal rendering, `parseInt`, `indexOf` |
| `Park` | park.dfy | the catalogue records and the wait-time bands |
| `Planner` | planner.dfy | the planner page |
| `TicketSession` | session.dfy | the ticket context provider |
| `Quantity` | quantity.dfy | the head-count steppers shared by the home and ticket pages |
| `HolderForm` | holders.dfy | the ticket-holder form |
| `Checkout` | checkout.dfy | the ticket page: prices, payment form, wizard |
| `ShowsPage` | shows.dfy | the shows page |
| `MapView` | mapview.dfy | the map page and its markers |
| `AttractionsPage` | attractions.dfy | the attractions page |
| `Home` | home.dfy | the home page |

Conventions:

- Prices are integer cents.
- Popularity and rating are `real`.
- The visit date is an opaque value; only whether one is set matters.
- The clock reading used in planner ids is an input and is never assumed
  to differ between two calls.
- JavaScript's `Number(x) || 0` is an `Option<int>` read with a default
  of 0.
- `parseInt` is modelled as the language standard defines it (section
  19.2.5 of ECMA-262): it skips leading white space, reads an optional
  sign and a `0x` prefix, and yields `None` for `NaN`.

The children "minus" button is the one place where the code and its evident
intent part ways (see Findings). The ticket wizard and the home widget in
this model use the corrected stepper. The code as written is modelled
beside it, with the counterexample.

The itinerary caption promises that entries can be reordered, but the
planner page has no reorder operation. None is modelled.

## Model

| member | source | states |
|---|---|---|
| Common.Toggle | src/app/biglietti/page.tsx:189-197 | toggling removes a present id (every copy), appends an absent one at the end, and leaves the membership of every other id unchanged |
| Common.ToggleKeepsDistinct | src/app/biglietti/page.tsx:189-197 | a selection without duplicates stays without duplicates under toggling |
| Common.ToggleTwice | src/app/spettacoli/page.tsx:369-377 | toggling the same id twice restores the membership of every id |
| Common.ToggleRemovesOne | src/app/biglietti/page.tsx:192-193 | toggling off an id that occurs once deletes exactly that occurrence, keeping the rest in order |
| Common.Find | src/app/biglietti/page.tsx:169 | `find` returns the first element of the list satisfying the test, and nothing exactly when no element does |
| Common.FindIndex | src/app/biglietti/page.tsx:169 | the position found satisfies the test and is the first such position |
| Common.Filter | src/app/planner/page.tsx:138-158 | `filter` keeps an ordered sub-list of its input, never longer than it |
| Common.Take | src/app/spettacoli/page.tsx:916 | `slice(0, n)` is a prefix of the list: of length n when the list is long enough, the whole list when it is not |
| Common.FilterMembers | src/app/planner/page.tsx:138-158 | an element survives `filter` exactly when it was in the input and passes the test |
| Common.FilterIdempotent | src/app/planner/page.tsx:138-158 | filtering twice with the same test equals filtering once |
| Common.FilterKeepsAll | src/app/planner/page.tsx:138-148 | `filter` returns its input unchanged exactly when every element passes |
| Common.FilterAppend | src/app/planner/page.tsx:126-128 | filtering a concatenation is concatenating the filtered parts |
| Common.FilterDropsOne | src/app/planner/page.tsx:126-128 | filtering out one failing element between passing ones deletes just it |
| Common.FilterKeepsDistinct | src/app/biglietti/page.tsx:191-192 | filtering a list without duplicates gives a list without duplicates |
| Common.FilterSameOn | src/app/spettacoli/page.tsx:349-351 | two tests that agree on every element filter a list alike |
| Text.ToLower | src/app/planner/page.tsx:141-143 | lower-casing keeps the length and lower-cases each character (ASCII letters only) |
| Text.ToLowerIdempotent | src/app/planner/page.tsx:141-143 | lower-casing twice is lower-casing once |
| Text.IncludesIff | src/app/planner/page.tsx:141-143 | `includes` holds exactly when the needle occurs at some index of the text |
| Text.MatchesTextBounds | src/app/planner/page.tsx:141-143 | the case-insensitive search: the empty query matches every field, and a matching query is never longer than the field |
| Text.MatchesTextCaseInsensitive | src/app/planner/page.tsx:141-143 | the case-insensitive search gives the same answer for a query and its lower-cased form |
| Text.TrimStart | src/components/custom-components/TicketHolderForm.tsx:34-36 | the result is a suffix of the input that starts with a non-white-space character, and only white space was dropped |
| Text.TrimEnd | src/components/custom-components/TicketHolderForm.tsx:34-36 | the result is a prefix of the input that ends with a non-white-space character, and only white space was dropped |
| Text.IsFilledIff | src/components/custom-components/TicketHolderForm.tsx:34-36 | `s.trim() !== ""` holds exactly when some character of `s` is not ECMAScript white space |
| Text.NatToString | src/app/planner/page.tsx:120 | a rendered number is non-empty, all digits, with no leading zero |
| Text.NatToStringValue | src/app/planner/page.tsx:120 | the digits of a rendered number spell that number |
| Text.NatRoundTrip | src/app/planner/page.tsx:120 | reading a rendered natural number gives it back |
| Text.IntRoundTrip | src/app/planner/page.tsx:120 | reading a rendered integer, negative ones included, gives it back |
| Text.NatToStringInjective | src/app/planner/page.tsx:120 | two different numbers never render the same |
| Text.ParseIntJsDigits | src/app/spettacoli/page.tsx:242 | `parseInt` of a digit run followed by a non-digit (other than an `x` after a lone `0`, which starts hexadecimal) reads the run's decimal value, leading zeros included |
| Text.ParseIntJsUnsigned | src/app/spettacoli/page.tsx:242 | `parseInt` of text whose first visible character is not `-` never yields a negative number |
| Text.ParseUnsignedJs | src/app/spettacoli/page.tsx:242 | after the sign, a number is read only when the text starts with a digit |
| Text.ParseIntJs | src/app/spettacoli/page.tsx:242 | `parseInt` yields a number only when the first non-white-space character is a sign or a digit, and `NaN` otherwise |
| Text.FirstIndexOf | src/app/spettacoli/page.tsx:242 | the first occurrence of a character, or none when it does not occur |
| Text.FirstIndexOfJoin | src/app/spettacoli/page.tsx:242 | in `a + c + b` with no `c` in `a` the first `c` is right after `a` |
| Text.LastIndexOfJoin | src/app/planner/page.tsx:120 | in `a + c + b` with no `c` in `b` the last `c` is right before `b` |
| Park.WaitBand | src/app/attrazioni/page.tsx:77-81 | a wait is green up to 15 minutes, red above 30, yellow in between, never gray |
| Park.WaitBandMonotone | src/app/attrazioni/page.tsx:77-81 | a longer wait never gets a milder badge |
| Planner.PlannerIdRoundTrip | src/app/planner/page.tsx:120 | the composite id `type-id-timestamp` decodes back to its kind, source id and timestamp |
| Planner.PlannerIdShape | src/app/planner/page.tsx:120 | the composite id starts with the kind name and a dash and ends with a dash and the clock reading's digits |
| Planner.IdAndStampRoundTrip | src/app/planner/page.tsx:120 | the `id-timestamp` tail decodes back, a negative id's own dash included |
| Planner.KindPrefix | src/app/planner/page.tsx:120 | the type prefix of a composite id identifies its kind |
| Planner.PlannerIdInjective | src/app/planner/page.tsx:120 | entries differing in kind, source id or timestamp never share a composite id |
| Planner.AddToPlanner | src/app/planner/page.tsx:116-124 | adding appends exactly one entry at the end, keeps earlier entries in order, and sets the kind and composite id; an empty time string is stored as no time |
| Planner.AddAttraction | src/app/planner/page.tsx:399 | an attraction is added with no time |
| Planner.AddShowAt | src/app/planner/page.tsx:484 | a show is added with the chosen time |
| Planner.RemoveFromPlanner | src/app/planner/page.tsx:126-128 | removal keeps exactly the entries whose composite id differs, in their original order |
| Planner.Ids | src/app/planner/page.tsx:564-565 | the list of composite ids, one per entry |
| Planner.RemoveAbsent | src/app/planner/page.tsx:126-128 | removing an id no entry carries changes nothing |
| Planner.RemovePresent | src/app/planner/page.tsx:126-128 | with distinct ids, removing entry i's id deletes exactly entry i, so the length drops by one |
| Planner.AddThenRemove | src/app/planner/page.tsx:116-128 | removing a just-added entry whose id is new undoes the addition |
| Planner.RemoveOneOfTwins | src/app/planner/page.tsx:116-128 | the same attraction added at two instants gives two entries, and removing the later leaves the earlier |
| Planner.TotalTimeAppend | src/app/planner/page.tsx:131-135 | the total of a concatenation is the sum of the totals |
| Planner.TotalTimeNonNegative | src/app/planner/page.tsx:131-135 | the empty itinerary totals zero, and an itinerary whose entries take no negative time never totals below zero |
| Planner.TotalTimeAfterAdd | src/app/planner/page.tsx:131-135 | adding an entry adds its duration, plus its wait for attractions only; missing values count as zero |
| Planner.TotalTimeAfterRemove | src/app/planner/page.tsx:131-135 | with distinct ids, removing an entry subtracts its minutes |
| Planner.TotalTimeExample | src/app/planner/page.tsx:131-135 | a 5-minute ride with a 45-minute queue plus a 30-minute show total 80 minutes, shown as "1h 20min" |
| Planner.JsRem60 | src/app/planner/page.tsx:101 | the truncating `% 60` takes the sign of its operand and differs from it by a multiple of 60 |
| Planner.FormatTime | src/app/planner/page.tsx:98-103 | every formatted duration ends in `min` |
| Planner.HoursShownIffAnHour | src/app/planner/page.tsx:98-103 | the text has an hours part exactly for totals of an hour or more; shorter and negative totals are shown in minutes alone |
| Planner.FormatTimeRoundTrip | src/app/planner/page.tsx:98-103 | every non-negative total reads back from its formatted text, so no two totals display alike |
| Planner.FormatShortRoundTrip | src/app/planner/page.tsx:98-103 | a total under an hour is shown as `"Y min"`, zero as `"0 min"`, and reads back |
| Planner.FormatLongRoundTrip | src/app/planner/page.tsx:98-103 | a total of an hour or more is shown as `"Xh Ymin"`, whole hours then the remaining minutes, and reads back |
| Planner.FilteredAttractions | src/app/planner/page.tsx:138-148 | an attraction is listed exactly when the query is empty or found in its name, location or description, and the category is "tutte" or its own; order is kept |
| Planner.FilteredShows | src/app/planner/page.tsx:151-158 | a show is listed exactly when the query is empty or found in its name, location or description, with no category test; order is kept |
| Planner.PlannerFiltersIdempotent | src/app/planner/page.tsx:138-158 | applying either search twice equals applying it once |
| Planner.ResetFiltersShowsAll | src/app/planner/page.tsx:419-420 | the reset state (empty query, "tutte") lists every attraction |
| TicketSession.Apply | src/providers/TicketProvider.tsx:47-59 | each setter writes its own field and changes no other field |
| TicketSession.Initial | src/providers/TicketProvider.tsx:35-44 | the provider starts with no date, one adult, no children, the "standard" tier and no holders |
| TicketSession.NoChangedFields | src/providers/TicketProvider.tsx:35-44 | a session is determined by its five fields |
| TicketSession.LastWriteWins | src/providers/TicketProvider.tsx:47-59 | two calls of the same setter leave the later value |
| TicketSession.SettersCommute | src/providers/TicketProvider.tsx:47-59 | setters of different fields commute |
| TicketSession.ApplyShownIsIdentity | src/providers/TicketProvider.tsx:47-59 | writing back the value a field holds changes nothing |
| Quantity.ChangeQuantity | src/app/biglietti/page.tsx:102-108 | increase steps up by one but never above 10; decrease steps down by one but never below 1; counts in [0,10] land in [1,10] |
| Quantity.PressAdults | src/app/biglietti/page.tsx:530-542 | an adults button moves the count by exactly one, or not at all at its bound, keeping it in [1,10] |
| Quantity.PressChildrenAsWritten | src/app/biglietti/page.tsx:557-568 | the children buttons as written: plus steps up to 10, but minus from any positive count never goes below 1 |
| Quantity.ChildrenAsWrittenNeverReachZero | src/app/biglietti/page.tsx:220-222 | as written, no sequence of presses brings a positive children count back to zero |
| Quantity.ChildrenAsWrittenMinusDoesNotUndoPlus | src/app/biglietti/page.tsx:557-568 | as written, plus then minus from zero children leaves one child |
| Quantity.PressChildren | src/app/biglietti/page.tsx:557-568 | the intended children buttons move the count by exactly one, or not at all at 0 and 10, keeping it in [0,10] |
| Quantity.ChildrenMinusUndoesPlus | src/app/biglietti/page.tsx:557-568 | with the intended stepper, minus undoes plus from every count below 10, zero included |
| Quantity.ChildrenPlusUndoesMinus | src/app/biglietti/page.tsx:557-568 | with the intended stepper, plus undoes minus from every positive count |
| Quantity.AdultsStepsAreInverse | src/app/biglietti/page.tsx:530-542 | minus undoes plus and plus undoes minus on the adults stepper inside its bounds |
| Quantity.PressesStayInRange | src/app/page.tsx:444-486 | any series of presses keeps adults in [1,10] and children in [0,10] |
| HolderForm.Repeat | src/components/custom-components/TicketHolderForm.tsx:50-57 | the push loop yields n copies of the entry, none for a non-positive n |
| HolderForm.InitialHolders | src/components/custom-components/TicketHolderForm.tsx:48-67 | the form starts with one blank adult entry per adult followed by one blank child entry per child |
| HolderForm.FreshFormHasOneEntryPerTicket | src/components/custom-components/TicketHolderForm.tsx:48-67 | for non-negative counts the fresh form has adults + children entries, adults first |
| HolderForm.WithField | src/components/custom-components/TicketHolderForm.tsx:24-27 | updating one field of an entry sets it and keeps the other fields and the ticket type |
| HolderForm.HandleInputChange | src/components/custom-components/TicketHolderForm.tsx:22-29 | typing changes only the chosen field of the chosen entry; the length and every other entry stay the same |
| HolderForm.IsFormValid | src/components/custom-components/TicketHolderForm.tsx:31-38 | a valid form never has an empty name, surname or date of birth |
| HolderForm.IsFormValidIff | src/components/custom-components/TicketHolderForm.tsx:31-38 | the form is valid exactly when it has adults + children entries and every field of every entry has a non-white-space character |
| HolderForm.FreshFormInvalid | src/components/custom-components/TicketHolderForm.tsx:31-67 | a freshly built form for at least one ticket is never valid |
| HolderForm.TwoAdultsOneChild | src/components/custom-components/TicketHolderForm.tsx:32 | with two adults and one child, complete entries are accepted exactly when there are three |
| HolderForm.OneBlankFieldBlocks | src/components/custom-components/TicketHolderForm.tsx:33-37 | a single blank or white-space-only field blocks the whole form |
| HolderForm.Submit | src/components/custom-components/TicketHolderForm.tsx:40-45 | submit stores the entries in the session and moves on exactly when the form is valid; otherwise nothing changes |
| Checkout.TicketTotalOfListedTier | src/app/biglietti/page.tsx:169-178 | with unique tier ids, the ticket line is the chosen tier's price times the adults |
| Checkout.TicketTotal | src/app/biglietti/page.tsx:169-178 | the ticket line is some listed tier's price times the adults when the selected tier is listed, and zero when it is not |
| Checkout.TicketTotalOfUnknownTier | src/app/biglietti/page.tsx:178 | a tier the backend does not list costs nothing |
| Checkout.ExtraPrice | src/app/biglietti/page.tsx:172-175 | an extra costs the price of a listed extra with its id, or zero when no listed extra has it |
| Checkout.ExtrasTotal | src/app/biglietti/page.tsx:172-175 | with non-negative listed prices the extras total is never negative |
| Checkout.UnlistedExtraIsFree | src/app/biglietti/page.tsx:172-175 | an id the backend does not list costs zero and adds nothing to the extras total |
| Checkout.ExtrasTotalAppend | src/app/biglietti/page.tsx:172-175 | the extras total of a concatenation is the sum of the totals |
| Checkout.ExtraToggleTotal | src/app/biglietti/page.tsx:172-197 | toggling an extra adds its price when absent and subtracts it when present |
| Checkout.TotalPrice | src/app/biglietti/page.tsx:178-179 | with non-negative prices and adults the order total is never negative |
| Checkout.ChildrenAreNotCharged | src/app/biglietti/page.tsx:178-179 | the order total does not depend on the number of children |
| Checkout.UpdatePayment | src/app/biglietti/page.tsx:181-187 | typing into one payment input sets that field and keeps the other five |
| Checkout.IsPaymentValidIff | src/app/biglietti/page.tsx:208-217 | the payment form is valid exactly when none of its six fields is empty |
| Checkout.PaymentAcceptsBlanks | src/app/biglietti/page.tsx:208-217 | unlike the holder form, payment fields are not trimmed, so a single space passes; the blank form does not |
| Checkout.Next | src/app/biglietti/page.tsx:280-889 | after completion nothing changes; the step moves only 1→2, 2→1, 2→3, 3→4 or 4→3; date, counts and tier change only on step 1, extras only on step 2, the stored holders only when step 3 moves on, and completion needs a valid payment form on step 4 |
| Checkout.OpenSatisfiesInv | src/app/biglietti/page.tsx:126-135 | the checkout opens in a state meeting the wizard invariant on any session with counts in range |
| Checkout.InitialCountsInRange | src/providers/TicketProvider.tsx:35-44 | the provider's initial session (one adult, no children) has counts in range |
| Checkout.NextPreservesInv | src/app/biglietti/page.tsx:280-889 | every event keeps: a date is set past step 1, the session holds a valid holder list on step 4, and a completed order has a valid payment form |
| Checkout.RunPreservesInv | src/app/biglietti/page.tsx:280-889 | every series of events keeps the wizard invariant |
| Checkout.CompletedOrderIsConsistent | src/app/biglietti/page.tsx:199-204 | whatever the visitor does, a completed order has a date, exactly adults + children complete holders and a filled-in payment form |
| Checkout.ContinueNeedsDate | src/app/biglietti/page.tsx:576-578 | step 1 moves on exactly when a date is chosen |
| Checkout.ExtrasStepMoves | src/app/biglietti/page.tsx:650-655 | on step 2 continue always opens step 3 on a blank holder form with one entry per ticket, and back always returns to step 1 |
| Checkout.SubmitAdvancesIff | src/app/biglietti/page.tsx:688 | step 3 moves on exactly when the holder form is valid, storing its entries |
| Checkout.CompleteOrderIff | src/app/biglietti/page.tsx:199-204 | on step 4 the order completes exactly when every payment field is non-empty |
| Checkout.BackToHoldersClearsForm | src/app/biglietti/page.tsx:872 | going back from payment remounts the holder form blank, so it must be filled in again |
| Checkout.ChildAddedAndRemoved | src/app/biglietti/page.tsx:557-568 | with the corrected children stepper, adding a child and removing it on step 1 restores the state (the page as written leaves one child; see Findings) |
| ShowsPage.BeforeColon | src/app/spettacoli/page.tsx:242 | `split(":")[0]` is a prefix of the time with no colon in it |
| ShowsPage.PartsOfDayPartition | src/app/spettacoli/page.tsx:239-260 | a time with a readable hour is morning, afternoon or evening, exactly one; an unreadable one is none |
| ShowsPage.ParseHourOfDigits | src/app/spettacoli/page.tsx:242 | a time of the form digits-colon-anything has the hour the digits spell |
| ShowsPage.ParseHourOfRendered | src/app/spettacoli/page.tsx:242 | a time built from a rendered hour reads back as that hour |
| ShowsPage.GetFilteredTimes | src/app/spettacoli/page.tsx:239-260 | a card shows every time under the non-time tabs, and under a time tab exactly the times in that part of the day, in order |
| ShowsPage.TimeTabsCoverSchedule | src/app/spettacoli/page.tsx:239-260 | each readable time of a show appears under exactly one of the three time tabs |
| ShowsPage.EmptyQueryMatchesAll | src/app/spettacoli/page.tsx:314-318 | the empty query matches every show, and is found in every text |
| ShowsPage.FilteredShows | src/app/spettacoli/page.tsx:312-354 | a show is listed exactly when the search (name, description, category) and the tab both accept it; order is kept |
| ShowsPage.ListedIffCardHasTimes | src/app/spettacoli/page.tsx:322-348 | under a time tab a matching show is listed exactly when its card would show at least one time |
| ShowsPage.FavoritesTabListsFavorites | src/app/spettacoli/page.tsx:349-351 | the favourites tab lists exactly the matching shows whose id is a favourite |
| ShowsPage.FilteredShowsIdempotent | src/app/spettacoli/page.tsx:312-354 | applying the same search and tab twice equals applying them once |
| ShowsPage.AllTabEmptyQueryListsEverything | src/app/spettacoli/page.tsx:321 | with no query the first tab lists every show |
| ShowsPage.ToggleFavorite | src/app/spettacoli/page.tsx:369-377 | the heart button flips the show's favourite status and no other |
| ShowsPage.ToggleFavoriteTwice | src/app/spettacoli/page.tsx:369-377 | toggling a favourite twice leaves the favourites tab as it was |
| ShowsPage.Featured | src/app/spettacoli/page.tsx:914-916 | the featured strip is a prefix of the popular shows in list order, at most three long |
| ShowsPage.FeaturedSize | src/app/spettacoli/page.tsx:914-916 | the strip holds three shows when at least three are popular, and every popular show otherwise |
| MapView.AttractionMarker | src/app/mappa/page.tsx:115-133 | an attraction becomes an attraction marker with its category as subcategory, its wait time, position (0,0) when missing, and popular exactly when popularity exceeds 4.5 |
| MapView.ShowMarker | src/app/mappa/page.tsx:136-153 | a show becomes a show marker with no wait time and the show's own popular flag |
| MapView.MapPoints | src/app/mappa/page.tsx:156-198 | the markers are the attractions', then the shows', then the three fixed points; the length is the sum of the list lengths plus 3 |
| MapView.MarkerWaitBadge | src/app/mappa/page.tsx:201-206 | a missing or zero wait is gray; any other wait gets the usual band |
| MapView.HandleFilterChange | src/app/mappa/page.tsx:267-272 | ticking a category sets exactly that toggle |
| MapView.SelectAllAndDeselectAll | src/app/mappa/page.tsx:440-467 | select all turns every toggle on; deselect all turns every toggle off |
| MapView.MatchesFilterIff | src/app/mappa/page.tsx:244-249 | a marker passes the category check exactly when its own category's toggle is on |
| MapView.FilteredPoints | src/app/mappa/page.tsx:232-252 | a marker is shown exactly when it is popular (if popular-only is on), matches the search over name, description and subcategory, and its category is on; order is kept |
| MapView.AllOffShowsNothing | src/app/mappa/page.tsx:457-467 | with every toggle off no marker is shown |
| MapView.ResetShowsEverything | src/app/mappa/page.tsx:777-787 | after "reset filters" every marker is shown |
| MapView.FilteredPointsIdempotent | src/app/mappa/page.tsx:232-252 | filtering the shown markers again changes nothing |
| MapView.PopularOnlyKeepsPopularSources | src/app/mappa/page.tsx:234-236 | with popular-only on, no fixed point is shown, and every shown marker is a popular attraction or show |
| AttractionsPage.FilteredAttractions | src/app/attrazioni/page.tsx:144-160 | an attraction is listed exactly when the tab is "tutte" or its category, and the query is empty or found in its name, description, location or a tag; order is kept |
| AttractionsPage.FilteredAttractionsIdempotent | src/app/attrazioni/page.tsx:144-160 | filtering the listed attractions again changes nothing |
| AttractionsPage.CategoryTabNarrows | src/app/attrazioni/page.tsx:145-147 | a category tab lists a subset of what "tutte" lists |
| AttractionsPage.NoQueryListsEverything | src/app/attrazioni/page.tsx:149-159 | with no query, "tutte" lists every attraction |
| AttractionsPage.UnknownCategoryListsNothing | src/app/attrazioni/page.tsx:145-147 | a category no attraction has lists nothing |
| AttractionsPage.QueryCaseIgnored | src/app/attrazioni/page.tsx:150-156 | the query's letter case does not change what is listed |
| AttractionsPage.TornadoExample | src/app/attrazioni/page.tsx:144-160 | a "Tornado" ride is found by "TORN" and hidden by the "acqua" tab |
| AttractionsPage.IntensityBand | src/app/attrazioni/page.tsx:83-87 | "Bassa" is mild, "Media" moderate, any other text intense |
| AttractionsPage.FixedMapFiltersAreSearchOnly | src/app/attrazioni/page.tsx:136-143 | the page's map, whose toggles stay on and popular-only off, shows exactly the markers matching the search |
| Home.NextSlide | src/app/page.tsx:69-71 | the carousel moves to the next slide and wraps from the fourth to the first, staying in [0,4) |
| Home.Advance | src/app/page.tsx:67-74 | any number of ticks keeps the slide index in [0,4) |
| Home.AdvanceIsModular | src/app/page.tsx:69-71 | after n ticks the slide is n further on, modulo 4 |
| Home.CarouselIsPeriodic | src/app/page.tsx:69-71 | four ticks return to the same slide and fewer never do |
| Home.Slide | src/app/page.tsx:339 | a tick moves one slide on; a dot click shows the slide of that dot; the index stays in [0,4) |
| Home.DotThenTicks | src/app/page.tsx:339 | a dot click does not reset the timer: n ticks after picking slide i the carousel shows slide (i + n) mod 4 |
| Home.EstimateCents | src/app/page.tsx:142 | the estimate, 2990 cents per adult plus 1990 per child, is never negative for non-negative counts |
| Home.EstimateSteps | src/app/page.tsx:142 | one more child adds 1990 cents and one more adult 2990 |
| Home.Press | src/app/page.tsx:145-158 | buy leads to the checkout exactly when a date is set and changes nothing; the other controls change only the date or counts and keep counts in range |
| Home.BuyNeedsDate | src/app/page.tsx:154-158 | without a date buy never leads on; after picking one it always does |

## Left out

- Data fetching through the data provider, with its loading and error flags and the race between the four initial fetches: asynchronous I/O. Each collection is an input.
- PDF export of the itinerary: rendering through a PDF library.
- QR codes and ticket ids on the confirmation view: they come from `Math.random` and a QR library.
- The calendar's rule against past dates: it reads the wall clock. Any date may be picked in the model.
- Date formatting, the planner's own name and date fields, the Leaflet map, detail panels, animations, icons and CSS classes other than the badge colours.
- Non-numeric values: float prices and `toFixed` rounding, and `NaN` durations beyond "missing counts as zero". Prices are integer cents.
- The home page's estimate (29.90 and 19.90 per person) is computed in cents.
- Lower-casing applies to ASCII letters only; other characters are left unchanged.
- HolderForm.HandleInputChange: requires an index inside the form. The page only calls it for entries it renders, so a write past the end, which would grow the array, is not modelled.
- Planner.FormatTimeRoundTrip: stated for non-negative totals only. A negative total formats lossily, because of floor division and the truncating remainder.
- Reordering the itinerary: no such operation exists in the planner page.
- Checkout.Next: its children minus button uses the corrected stepper, not the page's `Math.max(current - 1, 1)`; the code as written is `Quantity.PressChildrenAsWritten`.
- Home.Press: its children minus button uses the corrected stepper, not the page's `Math.max(current - 1, 1)`; the code as written is `Quantity.PressChildrenAsWritten`.
- Checkout.IsPaymentValid: a predicate with no contract of its own; what it accepts is stated by `Checkout.IsPaymentValidIff`.

## Findings

| source | as written | input that shows it | evidently intended | confidence | as-written member | corrected member |
|---|---|---|---|---|---|---|
| src/app/biglietti/page.tsx:555-558 | the children minus button is disabled only at 0, but calls the shared handler, which floors at 1 (`Math.max(current - 1, 1)`, lines 102-108); the home page's button at src/app/page.tsx:475-476 does the same through lines 145-151 | children = 0: press plus (1), then minus: the count stays 1, and no press ever returns it to 0 | minus steps down to 0 children, as the button's own guard expects | not executed | Quantity.PressChildrenAsWritten | Quantity.PressChildren |

The as-written behaviour is exhibited by `Quantity.ChildrenAsWrittenMinusDoesNotUndoPlus` and `Quantity.ChildrenAsWrittenNeverReachZero`. The corrected stepper's property is `Quantity.ChildrenMinusUndoesPlus` (minus undoes plus from 0), and the wizard's `Checkout.ChildAddedAndRemoved` relies on it.
