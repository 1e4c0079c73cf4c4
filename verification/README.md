# Verified model of the booking platform's hard logic

A Dafny model of the parts of the platform whose correctness depends on state, order or arithmetic:
the sliding-window rate limiter, the shared token refresh, the forward-only migrator, the city-list
codecs and the catalogue's synchronisation with the address bar, the booking form with its slots,
and several smaller cores (ES256 signature encoding, the phone field, the dashboard figures, the
sitemap shards, the masters' fetch, the restoring of a session).

`dafny verify dfyconfig.toml` checks the whole project.

## How it is organised

| file | what it models |
|---|---|
| `RateLimiter.dfy` | the limiter class, the event loop's timers, runs of checks and firings, and a limiter that never forgets |
| `TokenRefresh.dfy` | `fetchAPI` and `tryRefreshToken` as the code between awaits (class `Client`) and every interleaving of it |
| `Migrations.dfy` | `Up`, the plan loop, crashes between executing and recording, file numbers |
| `CityLists.dfy`, `Cities.dfy`, `CitiesHttp.dfy` | normalised lists of cities, the field of the internal protocol, the query string |
| `CityComparison.dfy`, `CatalogSync.dfy` | comparing lists of cities, the effects between address and fields, what follows an edit, the `Catalog` component |
| `CatalogSettling.dfy` | when address and fields settle, over any run of edits, links and arrivals |
| `BookingSlotTime.dfy`, `BookingForm.dfy`, `SlotAvailability.dfy` | clock arithmetic, the form's cascade of effects, the stale-reply protection |
| `Es256.dfy`, `PhoneInput.dfy`, `OwnerDashboard.dfy`, `Sitemap.dfy`, `MastersCatalog.dfy`, `AuthStore.dfy` | the smaller cores |
| `Text.dfy`, `Wrappers.dfy` | trimming, joining and splitting; optional values |

Code that changes state is a class or a loop; each method is tied to a function of the old state, and
the theorems are about those functions over whole runs. Protocols are runs of events: `IsRun` or
`LegalRun` says which event may follow which, and a theorem about every run is a theorem about every
interleaving. Steps that another process or the network decides are parameters of the events.

Assumptions about the surroundings, all visible in the definitions: one nondecreasing clock for the
limiter; microtasks are drained before the next network reply is delivered (`TokenRefresh.Quiet`);
React flushes the effects of one render before it starts the next, so the state a layout effect sets is
seen only by the effects of the next render; a newer router request replaces one still on its way
(`CatalogSync.State`); `URLSearchParams` keeps pairs in
order and percent-encoding loses nothing; lower-casing is an arbitrary function; `sort.Slice` leaves
the files in some order that respects their numbers; `ecdsa.Verify` is an arbitrary predicate.

## What the proofs turned up

- **Rate limiter.** Node.js runs a timer whose delay exceeds 2^31 - 1 ms after 1 ms. Forgetting idle
  addresses is therefore invisible, and the window bound holds, if and only if
  `2 * windowMs <= 0x7fffffff` or nothing is ever allowed (`InvisibleIffTimerFits`, `BoundIffTimerFits`).
- **Migrations.** The comment at `pkg/dbmigrate/dbmigrate.go:103-105` says files without a number come
  last; that holds exactly for numbers below 2^30 (`UnnumberedComeLast`).
- **City lists.** Splitting what was joined, and parsing what was packed, gives the list back if and only if
  no name that is kept contains a separator (`SplitAfterJoin`, `PackRoundTrip`).
- **Catalogue.** An edit of the fields is always over after two arrivals of addresses, and the number of
  `router.replace` calls is known exactly (`EditIsAnswered`, `OneRound`, `TwoReplaceCalls`). But the render in which an
  address arrives compares it with the old fields, so an address that arrives by a link or by Back, or one whose
  edit was taken back, settles if and only if it agrees with the fields before the load, is there already, or a
  hub's city steps in (`SettlesIffAgrees`). Otherwise the page goes back and forth between two addresses for ever
  (`LinkCycles`, `TakingBackCycles`). Whatever the names, seven arrivals decide it (`SevenArrivalsDecide`). A name
  with `|` can leave the page done while address and fields disagree, by edits alone (`SeparatorsStrand`), and so can
  a link to the address that is already there (`LinkStrands`). Those two are the
  only ways: in every run, a page that is done disagrees with its address if and only if a link took the place of
  what its fields asked for, with no edit and no new address since, or its cities cannot be packed and ask for the
  address they have (`DonePageAgrees`).
- **Sitemap.** With the shard id a number, as the source declares it: venue page 0 has the id of the static
  shard, so the first 45,000 venues are in no shard (`FirstVenuesMissing`). If the listing honours the requested page size, the collectors stop at 20,000
  slugs, so no venue is listed at all (`NoVenueIsEverListed`). The layout described at
  `frontend/src/app/sitemap.ts:41-44` is not the one the code uses; the model follows the code.
- **Slots.** A reply that lands between a render with a new key and the flush of its effects shows the
  old key's slots; that is the only way to see stale slots (`StaleExactlyWhenTainted`, `LateReplyShows`). Choosing
  the same day again sends a request without turning loading on (`RefetchIsSilent`, `LoadingExactlyWhenArmed`).
- **Dashboard.** Receiving one venue's list again is harmless exactly when no other list says something
  newer of its bookings (`RepeatedList`); receiving everything again always is (`MergeIdempotent`).
- **Phone.** `displayPhoneFromStored` is documented for +7, 8 or bare digits; ten bare digits that begin
  with 7 or 8 lose one, because that digit is taken for the country's (`ThreeSpellings`).
- **Session.** Bootstrap ends with a user if and only if it ends with a token, except when the profile
  request's own refresh is answered with a blank token (`BootstrapIsWhole`).

## Model

| member | source | states |
|---|---|---|
| `RateLimiting.RateLimiter.Check` | frontend/src/lib/rate-limit.ts:43-73 | the answer and the whole new state (entries and timers) of one request, from the old state |
| `RateLimiting.RateLimiter.EntryFor` | frontend/src/lib/rate-limit.ts:47-57 | a new address gets an empty entry and one cleanup timer of its own; a known one is untouched |
| `RateLimiting.RateLimiter.Admit` | frontend/src/lib/rate-limit.ts:65-70 | the request is recorded and the entry's old timer replaced by a new one |
| `RateLimiting.RateLimiter.Fire` | frontend/src/lib/rate-limit.ts:49-52 | a timer that fires deletes exactly its own address |
| `RateLimiting.EvictionInvisible` | frontend/src/lib/rate-limit.ts:43-73 | in every run of checks and firings, every answer equals that of a limiter keeping the full log, with one live timer per entry and none without |
| `RateLimiting.CheckKeepsTimersMatch` | frontend/src/lib/rate-limit.ts:47-70 | a check keeps one live timer per entry and no timer without one |
| `RateLimiting.EveryTimerIsDue` | frontend/src/lib/rate-limit.ts:47-70 | in every run each entry has exactly one live timer, due one delay after the last request let through, or after the entry's creation if there was none |
| `RateLimiting.AtMostMaxPerWindow` | frontend/src/lib/rate-limit.ts:61-63 | in every run, for every address and instant, at most maxRequests are accepted in the window ending there |
| `RateLimiting.RefusedExactlyWhenFull` | frontend/src/lib/rate-limit.ts:61-63 | a request is refused if and only if its own window already holds the limit |
| `RateLimiting.WindowIsKept` | frontend/src/lib/rate-limit.ts:58-59 | after a check only timestamps of the current window are remembered for that address |
| `RateLimiting.AnswerFromAccepted` | frontend/src/lib/rate-limit.ts:43-73 | an answer depends only on the accepted requests of that address |
| `RateLimiting.NoInterference` | frontend/src/lib/rate-limit.ts:43-73 | an address is answered as by a fresh limiter that sees no other address and fires no timer |
| `RateLimiting.InvisibleIffTimerFits` | frontend/src/lib/rate-limit.ts:49-52 | forgetting is invisible in all runs if and only if the delay fits the runtime's timers or nothing is allowed |
| `RateLimiting.BoundIffTimerFits` | frontend/src/lib/rate-limit.ts:67-70 | the window bound holds in all runs under exactly the same condition |
| `RateLimiting.ForgetfulRunOverfills` | frontend/src/lib/rate-limit.ts:67-70 | otherwise a concrete legal run accepts one request too many in one window |
| `TokenRefresh.Client.HandleReply` | frontend/src/lib/api.ts:168-182 | a 401 joins the refresh in flight or starts one; any other reply, or `skipAuthRefresh`, ends the call |
| `TokenRefresh.Client.ResumeAfterRefresh` | frontend/src/lib/api.ts:182-183 | the caller goes on to its retry or to its logout, by the refresh it awaited |
| `TokenRefresh.Client.HandleRetryReply` | frontend/src/lib/api.ts:200-206 | a second 401 leads to a logout and never to another refresh |
| `TokenRefresh.Client.FinishLogout` | frontend/src/store/auth.ts:172-180 | the store is cleared when the logout awaited by the call is over |
| `TokenRefresh.Client.SetTokens` | frontend/src/store/auth.ts:159-170 | the refresh stores the new token once the cookie request is over, and then succeeds |
| `TokenRefresh.Client.FinishRefreshLogout` | frontend/src/lib/api.ts:113-118 | a refused refresh clears the store and fails |
| `TokenRefresh.Client.ClearRefreshPromise` | frontend/src/lib/api.ts:178-180 | the `finally` clears the shared promise |
| `TokenRefresh.InvAlways` | frontend/src/lib/api.ts:101-234 | every interleaving keeps single flight, the store's floors, each call's history and its link to the refresh it awaited |
| `TokenRefresh.OneRefreshAtATime` | frontend/src/lib/api.ts:176-182 | the shared promise is set exactly while one refresh is in flight, and a `finally` clears only its own |
| `TokenRefresh.JoinersAgree` | frontend/src/lib/api.ts:176-183 | calls that awaited the same refresh saw the same outcome |
| `TokenRefresh.CallContract` | frontend/src/lib/api.ts:141-234 | at most two sends, all of the own path, at most one refresh; a retry only after success and with no token or a strictly later one; session_expired exactly after one own logout; none of this with `skipAuthRefresh` |
| `TokenRefresh.CallStory` | frontend/src/lib/api.ts:168-233 | over the events of any run: a refresh is awaited if and only if the first reply was a 401 not to be skipped, a retry sent only after a success, the call returned if and only if one of its requests was answered well, and how it ends otherwise |
| `TokenRefresh.FlightStory` | frontend/src/lib/api.ts:107-128 | over the events of any run: which replies lead a refresh to its logout, its body, its cookie request and its end, and when it succeeds |
| `TokenRefresh.StoreHolds` | frontend/src/store/auth.ts:159-180 | over the events of any run: the store holds the last token it was given, unless it was cleared since |
| `TokenRefresh.BearersAreHeld` | frontend/src/lib/api.ts:148-190 | each request carries exactly the token the store held when it was sent |
| `TokenRefresh.SessionIsOver` | frontend/src/lib/api.ts:200-223 | after session_expired any token ever found in the store is newer than those the call sent |
| `TokenRefresh.OldTokensNeverReturn` | frontend/src/lib/api.ts:107-128 | a token from before a refresh succeeded or logged out never comes back |
| `TokenRefresh.NoCallIsStuck` | frontend/src/lib/api.ts:141-234 | in every reachable state an unfinished call, or the refresh it awaits, can step |
| `TokenRefresh.CallWorkIsBounded` | frontend/src/lib/api.ts:141-234 | a call takes at most eight steps in any run |
| `TokenRefresh.FlightWorkIsBounded` | frontend/src/lib/api.ts:107-128 | a refresh takes at most four |
| `Migrations.ListMigrations` | pkg/dbmigrate/dbmigrate.go:57-66 | the `.up.sql` files that are not directories, in order |
| `Migrations.ListedNames` | pkg/dbmigrate/dbmigrate.go:58-66 | a file is listed if and only if it is no directory and its name ends in .up.sql; a .down.sql never is |
| `Migrations.DownFilesStay` | pkg/dbmigrate/dbmigrate.go:58-100 | no .down.sql is ever executed |
| `Migrations.DirectoryIsApplied` | pkg/dbmigrate/dbmigrate.go:53-100 | from directory entries to executions, for every order the sort may leave: only migration files, smaller numbers recorded first, all recorded on success |
| `Migrations.Up` | pkg/dbmigrate/dbmigrate.go:71-100 | history, records and success of one run, from the old database, the files and what befalls each of them |
| `Migrations.MigrateAll` | services/migrator/cmd/main.go:64-79 | the state of all databases after the plan, stopping for good at the first failure |
| `Migrations.OnlyGrows` | pkg/dbmigrate/dbmigrate.go:71-100 | a run never removes an execution or a record |
| `Migrations.GoingOnMeansRecorded` | pkg/dbmigrate/dbmigrate.go:71-99 | as long as a run goes on, every non-empty file met is recorded |
| `Migrations.RunInOrder` | pkg/dbmigrate/dbmigrate.go:67-99 | every execution of a run saw every earlier non-empty file recorded and itself not |
| `Migrations.SmallerNumbersFirst` | pkg/dbmigrate/dbmigrate.go:67-69 | no file is executed before every non-empty file with a smaller number is recorded, whatever order equal numbers are left in |
| `Migrations.RerunIsNoOp` | pkg/dbmigrate/dbmigrate.go:24-28 | a successful run records every non-empty file, and no rerun, with whatever faults, changes anything |
| `Migrations.QuietRunSucceeds` | pkg/dbmigrate/dbmigrate.go:71-100 | from any state a run without faults succeeds |
| `Migrations.SuccessIs` | pkg/dbmigrate/dbmigrate.go:71-100 | a run succeeds if and only if at every file nothing goes wrong that the file still needs, and then records the names of the non-empty files and no others |
| `Migrations.EmptyFilesStay` | pkg/dbmigrate/dbmigrate.go:86-89 | a file of nothing but spaces is never executed |
| `Migrations.RunLaw` | pkg/dbmigrate/dbmigrate.go:91-97 | over one run, executions gained equal records gained plus cuts between executing and recording |
| `Migrations.ExecutionLaw` | pkg/dbmigrate/dbmigrate.go:91-97 | over any history of runs, executions of a file = its cuts, plus one if it is recorded; so recorded files were executed |
| `Migrations.NumberedFile` | pkg/dbmigrate/dbmigrate.go:106-116 | a file counts as its decimal number, however padded |
| `Migrations.NumberRange` | pkg/dbmigrate/dbmigrate.go:111-115 | signs count, and a number outside 64 bits is none |
| `Migrations.UnnumberedComeLast` | pkg/dbmigrate/dbmigrate.go:103-115 | an unnumbered file sorts after a numbered one if and only if the number is below 2^30 |
| `Migrations.NamedFile` | pkg/dbmigrate/dbmigrate.go:106-116 | a name without an underscore, or that does not begin like a number, is unnumbered |
| `Migrations.DirectoriesInOrder` | services/migrator/cmd/main.go:64-79 | every execution in a database saw all non-empty files of that database's earlier directories recorded |
| `Migrations.PlanStart` | services/migrator/cmd/main.go:34-41 | the order of the plan's first four directories |
| `Migrations.PlanBelongs` | services/migrator/cmd/main.go:34-49 | every database of the plan gets its own service's files, and only venue_db and support_db another's |
| `Migrations.CrmAfterVenue` | services/migrator/cmd/main.go:30-40 | in any run of the plan no crm file is executed before every non-empty venue file is recorded |
| `CityLists.Dedupe` | frontend/src/lib/cities-http.ts:8-20 | the loop yields the trimmed, non-empty names that are first of their lower-cased kind, in order |
| `CityLists.FirstsFrom` | frontend/src/lib/cities-http.ts:8-20 | every kept name is the trimmed first occurrence of an entry |
| `CityLists.FirstsNormal` | pkg/cities/join.go:12-23 | the result is trimmed, non-empty and without case-insensitive repeats |
| `CityLists.FirstsOfNormal` | pkg/cities/join.go:41-52 | a normalised list is left alone |
| `CityLists.NoCityIsLost` | pkg/cities/join.go:12-23 | once an entry is read its city is in the list under some spelling, and later entries only come behind |
| `Cities.Join` | pkg/cities/join.go:9-28 | the field is the kept names joined by the separator |
| `Cities.Split` | pkg/cities/join.go:31-54 | the list a field stands for, with the shortcut for one name |
| `Cities.SplitIsNormal` | pkg/cities/join.go:31-54 | any field splits into a normalised list of separator-free names |
| `Cities.ShortcutAgrees` | pkg/cities/join.go:36-38 | the shortcut agrees with the general loop |
| `Cities.SplitAfterJoin` | pkg/cities/join.go:9-54 | splitting what was joined gives exactly the normalised list if and only if no kept name contains the separator |
| `Cities.JoinSplitJoin` | pkg/cities/join.go:9-54 | a second round trip changes nothing if and only if the kept names, cut at every separator in them, are a normalised list already; for separator-free names always |
| `Cities.SplitJoinSplit` | pkg/cities/join.go:9-54 | the list of any field whatever survives the round trip |
| `Cities.FieldOfNames` | pkg/cities/join.go:6-28 | the separator is U+001E: names without it are written and read as they are |
| `Cities.SplitLosesNothing` | pkg/cities/join.go:41-52 | no piece of any field is lost |
| `CitiesHttp.PackCitiesForQuery` | frontend/src/lib/cities-http.ts:23-27 | two or more distinct cities are packed; fewer are not |
| `CitiesHttp.ParseCities` | frontend/src/lib/cities-http.ts:30-40 | the cities an address names, with both separators and the repeated parameter |
| `CitiesHttp.ParsedIsNormal` | frontend/src/lib/cities-http.ts:30-40 | whatever the address, the cities parsed from it are normalised |
| `CitiesHttp.PackRoundTrip` | frontend/src/lib/cities-http.ts:23-40 | a packed list is read back exactly if and only if its names contain neither separator |
| `CitiesHttp.SingleRoundTrip` | frontend/src/lib/cities-http.ts:39-39 | one city is read back exactly, separators and all |
| `CitiesHttp.PackedIs` | frontend/src/lib/cities-http.ts:23-27 | two or more normalised cities are joined by a bar, fewer are not packed |
| `CitiesHttp.BothLinksAreRead` | frontend/src/lib/cities-http.ts:34-38 | links with a bar and old links with U+001E are read alike, whatever else is in the address |
| `CitiesHttp.RepeatedCityIsRead` | frontend/src/lib/cities-http.ts:39-39 | repeated city parameters are read in order |
| `CityComparison.SameCityListsIsMultisetEquality` | frontend/src/components/banya/catalog-section.tsx:72-77 | sorting and comparing decides equality of the lower-cased names as multisets |
| `CatalogSync.CatalogStableSearchKey` | frontend/src/components/banya/catalog-section.tsx:48-56 | the address without the framework's keys, in order |
| `CatalogSync.NoiseIsNotRead` | frontend/src/components/banya/catalog-section.tsx:45-56 | dropping those keys changes nothing that is read |
| `CatalogSync.NoiseIsDropped` | frontend/src/components/banya/catalog-section.tsx:46-56 | exactly the pairs under the two framework keys are dropped |
| `CatalogSync.Catalog.LoadFromUrl` | frontend/src/components/banya/catalog-section.tsx:160-169 | the fields as the address has them, or the hub's city |
| `CatalogSync.Catalog.SyncUrl` | frontend/src/components/banya/catalog-section.tsx:172-189 | another address is asked for exactly when address and fields disagree, namely the one the fields ask for |
| `CatalogSync.Catalog.Open` | frontend/src/components/banya/catalog-section.tsx:103-110 | the page as it opens, after the effects of its first two renders |
| `CatalogSync.Catalog.ReceiveAddress` | frontend/src/components/banya/catalog-section.tsx:160-189 | the arrival of an address: its render's effects compare it with the old fields, the next render's with the loaded ones; new state and calls |
| `CatalogSync.Catalog.Settle` | frontend/src/components/banya/catalog-section.tsx:160-189 | after an edit, with nothing on its way that the edit does not replace, the effects stop after at most two arrivals; new state and exact number of calls |
| `CatalogSync.Catalog.CommitCityDraft` | frontend/src/components/banya/catalog-section.tsx:285-293 | the draft is added once, case-insensitively, and the list stays normalised |
| `CatalogSync.Catalog.RemoveCity` | frontend/src/components/banya/catalog-section.tsx:256-261 | exactly the city's chip goes, and the list stays normalised |
| `CatalogSync.Catalog.ClearAllFilters` | frontend/src/components/banya/catalog-section.tsx:273-283 | query and draft are emptied and the cities are the hub's |
| `CatalogSync.WithoutNormal` | frontend/src/components/banya/catalog-section.tsx:256-261 | what remains is every other city, normalised |
| `CatalogSync.WrittenRoundTrip` | frontend/src/components/banya/catalog-section.tsx:179-188 | fields whose cities are normalised and packable come back exactly from the address they ask for, with the query trimmed |
| `CatalogSync.AskedSays` | frontend/src/components/banya/catalog-section.tsx:179-186 | the parameters of the written address, in so many words |
| `CatalogSync.ComparedIs` | frontend/src/components/banya/catalog-section.tsx:172-189 | nothing is asked for if and only if the trimmed query is the address's and the lower-cased cities are as a multiset; otherwise an address with that query and those cities |
| `CatalogSync.ArrivalLoads` | frontend/src/components/banya/catalog-section.tsx:160-169 | what an arrival leaves in the fields |
| `CatalogSync.ArrivedIs` | frontend/src/components/banya/catalog-section.tsx:160-189 | where any arrival leads: nothing pending if the new address agrees with the old fields, otherwise their address, or the hub's |
| `CatalogSync.ArrivalIsSilent` | frontend/src/components/banya/catalog-section.tsx:160-189 | when the address the fields asked for arrives, the old fields make no further call if and only if there is at most one city or no name has a separator |
| `CatalogSync.EditIsAnswered` | frontend/src/components/banya/catalog-section.tsx:160-189 | whatever the names, an edit is over after two arrivals, with the exact number of calls |
| `CatalogSync.OneRound` | frontend/src/components/banya/masters-catalog-section.tsx:100-127 | without a hub an edit costs one call if and only if its cities can be packed or the address is there already, and never more than two |
| `CatalogSync.TwoReplaceCalls` | frontend/src/components/banya/catalog-section.tsx:172-189 | with a hub it costs at most two calls if and only if its cities can be packed, or are not read back as nothing, or the address is there already, and never more than three |
| `CatalogSync.TwoRounds` | frontend/src/components/banya/catalog-section.tsx:160-189 | two arrivals are always enough, and one is exactly when the edit's own call was the only one |
| `CatalogSync.ChoiceSurvives` | frontend/src/components/banya/catalog-section.tsx:160-189 | a normalised choice of packable cities is exactly what fields and address agree on at the end |
| `CatalogSettling.SettlesIffAgrees` | frontend/src/components/banya/catalog-section.tsx:160-189 | for packable names, an address on its way from anywhere settles if and only if it is there already, agrees with the old fields, or the hub steps in |
| `CatalogSettling.SevenArrivalsDecide` | frontend/src/components/banya/catalog-section.tsx:160-189 | for all names and addresses: what seven arrivals do not settle never settles |
| `CatalogSettling.WritingCleans` | frontend/src/components/banya/catalog-section.tsx:179-188 | an address written once holds no old separator in its names, twice no separator |
| `CatalogSettling.UnsettledAlternates` | frontend/src/components/banya/catalog-section.tsx:160-189 | for all names and addresses: a page that never settles goes back and forth between the same two addresses from the seventh arrival on |
| `CatalogSettling.LinkCycles` | frontend/src/components/banya/masters-catalog-section.tsx:100-127 | a link from one city to another, for any two cities, is followed by an endless two-cycle |
| `CatalogSettling.TakingBackCycles` | frontend/src/components/banya/masters-catalog-section.tsx:100-127 | so is an edit taken back before its address arrives |
| `CatalogSettling.LinkStrands` | frontend/src/components/banya/masters-catalog-section.tsx:100-127 | a link to the address already there, while an edit is on its way, leaves the page done and in disagreement |
| `CatalogSettling.DonePageAgrees` | frontend/src/components/banya/catalog-section.tsx:160-189 | in every run, links included, a page that is done agrees with its address if and only if the last word on its fields was not lost to a link, and its cities can be packed or do not ask for the address they have |
| `CatalogSettling.DoneAndTidyAgrees` | frontend/src/components/banya/catalog-section.tsx:160-189 | its corollary without the law on lower-casing: in a run without navigation a done page with packable cities agrees |
| `CatalogSettling.EditAsks` | frontend/src/components/banya/catalog-section.tsx:172-189 | in every run, when an edit asks for another address, and with which query and cities |
| `CatalogSettling.SeparatorsStrand` | frontend/src/components/banya/catalog-section.tsx:172-189 | a run of three edits and an arrival ends done and in disagreement, because of a separator in a name |
| `BookingSlotTime.EndTimeOptionsThirtyMinutes` | frontend/src/lib/booking-slot-time.ts:33-45 | the offered ends: every half hour after the start, before midnight, at most twelve hours |
| `BookingSlotTime.DefaultEndTimeForDuration` | frontend/src/lib/booking-slot-time.ts:47-61 | the loop finds the option at the index arithmetic gives |
| `BookingSlotTime.DefaultIsShortestLongEnough` | frontend/src/lib/booking-slot-time.ts:55-60 | the default is the least option as long as is preferred, or of twelve hours when more is, or else the last |
| `BookingSlotTime.ClockRoundTrip` | frontend/src/lib/booking-slot-time.ts:3-19 | a formatted clock time parses to its minutes |
| `BookingSlotTime.ClocksAre` | frontend/src/lib/booking-slot-time.ts:3-19 | which clock times are valid, for all digits |
| `BookingSlotTime.OptionsAre` | frontend/src/lib/booking-slot-time.ts:33-45 | the options in minutes, and how many there are |
| `BookingSlotTime.ParsersAgree` | frontend/src/lib/booking-slot-time.ts:3-70 | the strict pattern and the lenient field parser agree wherever the pattern matches |
| `BookingSlotTime.LengthToClock` | frontend/src/lib/booking-slot-time.ts:64-70 | the length from a valid start to any clock time |
| `BookingSlotTime.ValidEndsAreTheOptions` | frontend/src/hooks/use-venue-booking-form.ts:124-128 | a clock time makes the slot valid if and only if it is one of the offered ends |
| `BookingSlotTime.OptionsAreValid` | frontend/src/hooks/use-venue-booking-form.ts:124-130 | every offered end makes the slot valid |
| `BookingSlotTime.WhenThereAreOptions` | frontend/src/lib/booking-slot-time.ts:33-45 | an end is offered exactly for valid starts before half past eleven at night |
| `BookingForm.MaxSlotMinutesForSelectedServices` | frontend/src/hooks/use-venue-booking-form.ts:19-32 | the loop over the selected packages |
| `BookingForm.LongestIsMaximum` | frontend/src/hooks/use-venue-booking-form.ts:24-30 | its accumulator is half an hour or the longest of the known packages |
| `BookingForm.PackageIs` | frontend/src/lib/types.ts:682-684 | a package's minutes are those of the first service of its id, under either name, or two hours |
| `BookingForm.MinutesCover` | frontend/src/hooks/use-venue-booking-form.ts:19-32 | the minutes returned are those of the longest known package, between half an hour and twelve hours, and two hours for none |
| `BookingForm.DurationIs` | frontend/src/hooks/use-venue-booking-form.ts:106-115 | the duration asked for, by slot, packages or default |
| `BookingForm.DurationIsSent` | frontend/src/lib/api.ts:461-467 | whatever is chosen and selected, the duration is in range, so the request always carries it |
| `BookingForm.OnlyInRange` | frontend/src/lib/api.ts:461-467 | a duration is sent if and only if it is between 30 and 720 |
| `BookingForm.BookingHook.RunEndEffects` | frontend/src/hooks/use-venue-booking-form.ts:167-189 | what the two effects on the end time leave in it, both reading the render's values |
| `BookingForm.BookingHook.RunRender` | frontend/src/hooks/use-venue-booking-form.ts:92-196 | one render with its reset and all its effects |
| `BookingForm.BookingHook.Settle` | frontend/src/hooks/use-venue-booking-form.ts:92-196 | renders follow one another to a quiet form |
| `BookingForm.RenderWorks` | frontend/src/hooks/use-venue-booking-form.ts:167-196 | every render that changes the form lowers a measure (venue to handle, time set, end to correct, request to make) |
| `BookingForm.CascadeEnds` | frontend/src/hooks/use-venue-booking-form.ts:167-196 | from any form the cascade ends, within fifteen renders |
| `BookingForm.FormAlways` | frontend/src/hooks/use-venue-booking-form.ts:92-196 | after every run of actions and replies the form is quiet and its invariants hold |
| `BookingForm.SettledForm` | frontend/src/hooks/use-venue-booking-form.ts:120-196 | then a set end belongs to the start and makes the slot valid, a set start is on offer unless loading, and loading means a request for the current key |
| `BookingForm.EndFollowsChoice` | frontend/src/hooks/use-venue-booking-form.ts:167-189 | choosing a start on offer, or other packages, keeps the start and sets the default end, which the correction never overrides |
| `BookingForm.EndFitsPackages` | frontend/src/hooks/use-venue-booking-form.ts:167-189 | in minutes: the end covers the selected packages if an offered end does, none that does is earlier, and else it is the last |
| `BookingForm.PickedEndStays` | frontend/src/hooks/use-venue-booking-form.ts:180-189 | an end that belongs to the start is kept when it is picked |
| `BookingForm.EndGoesWithStart` | frontend/src/hooks/use-venue-booking-form.ts:167-196 | when the start goes, by choice or because it is no longer on offer, the end goes too |
| `BookingForm.ActionsTakeHold` | frontend/src/hooks/use-venue-booking-form.ts:83-104 | the venue, date and packages an action sets are there at the end, and no other action changes them |
| `BookingForm.NewKeyIsAsked` | frontend/src/hooks/use-slot-availability.ts:39-68 | whenever an action leads to another key, no old slots are shown and a request for it is outstanding |
| `BookingForm.ArrivalResets` | frontend/src/hooks/use-venue-booking-form.ts:92-104 | another venue empties the selection; another address drops a past date and no other |
| `BookingForm.AtMostTwoReplies` | frontend/src/hooks/use-venue-booking-form.ts:192-196 | a reply that keeps the start is the last; one that drops it is followed by at most one more |
| `SlotAvailability.SlotHook.RenderWith` | frontend/src/hooks/use-slot-availability.ts:39-45 | a render with another key clears the slots and arms the loading flag |
| `SlotAvailability.SlotHook.FlushEffects` | frontend/src/hooks/use-slot-availability.ts:47-68 | the flush retires the previous request and starts the next |
| `SlotAvailability.SlotHook.HandleReply` | frontend/src/hooks/use-slot-availability.ts:52-63 | only the active request's reply touches the page |
| `SlotAvailability.StaleExactlyWhenTainted` | frontend/src/hooks/use-slot-availability.ts:39-68 | in every run slots of another key are shown if and only if the list was last changed by a reply landing between a render and its effects |
| `SlotAvailability.SlotsAreCurrent` | frontend/src/hooks/use-slot-availability.ts:39-68 | without such a reply the slots are always empty or for the current key |
| `SlotAvailability.SlotsAreTheAnswer` | frontend/src/hooks/use-slot-availability.ts:52-63 | over the events of any run: the slots shown are those the newest request was answered with for the key shown |
| `SlotAvailability.LateReplyShows` | frontend/src/hooks/use-slot-availability.ts:39-68 | a concrete run in which such a reply shows |
| `SlotAvailability.LoadingIsHonest` | frontend/src/hooks/use-slot-availability.ts:41-63 | once effects have run, loading means an active unanswered request for the current key |
| `SlotAvailability.LoadingExactlyWhenArmed` | frontend/src/hooks/use-slot-availability.ts:39-63 | in every run loading is on if and only if a render changed the key to a present one and no active request was answered since |
| `SlotAvailability.RefetchIsSilent` | frontend/src/hooks/use-slot-availability.ts:47-68 | a concrete run in which a request is outstanding and loading is off |
| `Es256.EncodeRS` | pkg/auth/jwt.go:235-243 | the buffer is both numbers, each right-aligned in 32 bytes |
| `Es256.VerifyES256` | pkg/auth/jwt.go:211-231 | the verdict is that of the length check and the curve; the re-encoding never changes it |
| `Es256.FixedOfValue` | pkg/auth/jwt.go:233-243 | every 32-byte half, leading zeros included, is the encoding of its value |
| `Es256.ValueOfFixed` | pkg/auth/jwt.go:233-243 | every number below 2^256 is the value of its encoding |
| `Es256.EncodeDecode` | pkg/auth/jwt.go:207-218 | decoding an encoded pair gives back both numbers |
| `Es256.DecodeInjective` | pkg/auth/jwt.go:214-218 | two signatures of 64 bytes with the same numbers are the same |
| `Es256.BigEndian` | pkg/auth/jwt.go:217-218 | the first byte is the most significant |
| `Es256.BytesFit` | pkg/auth/jwt.go:237-241 | the slice bounds are in range exactly for numbers below 2^256 |
| `PhoneInput.FormatPhone` | frontend/src/components/banya/phone-input.tsx:6-22 | the pieces pushed and joined are the country code and the groups present |
| `PhoneInput.FormattedDigits` | frontend/src/components/banya/phone-input.tsx:6-22 | whatever is formatted holds 7 and the subscriber's first ten digits, or nothing, in at most 18 characters |
| `PhoneInput.ShownDigits` | frontend/src/components/banya/phone-input.tsx:45-59 | the digits the field keeps of any input |
| `PhoneInput.ShownIdempotent` | frontend/src/components/banya/phone-input.tsx:45-59 | feeding the field its own content changes nothing |
| `PhoneInput.StoredIsTyped` | frontend/src/components/banya/phone-input.tsx:105-118 | a stored number is shown as if it had been typed |
| `PhoneInput.SaveAndDisplay` | frontend/src/components/banya/phone-input.tsx:98-118 | saving what is shown and showing it again restores it, complete or not |
| `PhoneInput.DisplayAndSave` | frontend/src/components/banya/phone-input.tsx:98-118 | every stored +7 and ten digits survives being shown and saved |
| `PhoneInput.ThreeSpellings` | frontend/src/components/banya/phone-input.tsx:104-118 | a stored leading 8 is shown like +7; bare ten digits are if and only if they begin with neither 7 nor 8 |
| `PhoneInput.NumberLooks` | frontend/src/components/banya/phone-input.tsx:11-21 | the brackets, spaces and dashes shown after each digit typed |
| `OwnerDashboard.MergeOwnerVenueBookings` | frontend/src/components/banya/owner-dashboard-section.tsx:119-132 | the nested loops and the sort give the merged list |
| `OwnerDashboard.ByIdIs` | frontend/src/components/banya/owner-dashboard-section.tsx:122-127 | the map has each id once, in order of first appearance, with the last booking of that id |
| `OwnerDashboard.MergeKeepsEachIdOnce` | frontend/src/components/banya/owner-dashboard-section.tsx:122-128 | its values are exactly those bookings |
| `OwnerDashboard.MergedIsSorted` | frontend/src/components/banya/owner-dashboard-section.tsx:128-131 | the result is newest first and holds exactly those values |
| `OwnerDashboard.SortIsStable` | frontend/src/components/banya/owner-dashboard-section.tsx:128-131 | bookings created at the same time keep their order |
| `OwnerDashboard.MergeIdempotent` | frontend/src/components/banya/owner-dashboard-section.tsx:119-132 | receiving all results twice changes nothing |
| `OwnerDashboard.RepeatedList` | frontend/src/components/banya/owner-dashboard-section.tsx:119-132 | receiving one list twice changes nothing if and only if it says last what the whole says last |
| `OwnerDashboard.BookingsTodayByVenue` | frontend/src/components/banya/owner-dashboard-section.tsx:160-172 | the counts after the two loops |
| `OwnerDashboard.CountsConserved` | frontend/src/components/banya/owner-dashboard-section.tsx:134-172 | the per-venue counts sum to today's bookings, and each is its own venue's |
| `OwnerDashboard.EveryVenueIsCounted` | frontend/src/components/banya/owner-dashboard-section.tsx:166-166 | every venue has its count, even without a booking |
| `OwnerDashboard.OneMoreBooking` | frontend/src/components/banya/owner-dashboard-section.tsx:115-147 | what one more booking adds to each figure, by status, date and month |
| `OwnerDashboard.SortingKeepsFigures` | frontend/src/components/banya/owner-dashboard-section.tsx:134-147 | sorting does not touch the figures |
| `OwnerDashboard.RevenueCountsEachIdOnce` | frontend/src/components/banya/owner-dashboard-section.tsx:144-146 | the month's revenue counts every id once, at its last reported state |
| `Sitemap.CollectSlugs` | frontend/src/lib/seo-index-urls.ts:24-61 | the loop ends within 200 requests and returns the distinct slugs of the pages read |
| `Sitemap.DistinctIs` | frontend/src/lib/seo-index-urls.ts:33-35 | nothing twice, nothing empty, nothing lost |
| `Sitemap.PagesRead` | frontend/src/lib/seo-index-urls.ts:28-39 | which pages are read and where reading stops, in numbers |
| `Sitemap.CollectedIs` | frontend/src/lib/seo-index-urls.ts:33-40 | the slugs collected are those of the pages read that are not empty |
| `Sitemap.GenerateSitemaps` | frontend/src/app/sitemap.ts:62-81 | the ids of all shards |
| `Sitemap.DecodeInvertsEncode` | frontend/src/app/sitemap.ts:50-58 | decoding inverts encoding if and only if the page is below 2^30 |
| `Sitemap.OnlyCollision` | frontend/src/app/sitemap.ts:23-52 | an encoded id is the static one if and only if it is venue page 0 |
| `Sitemap.StaticListedTwice` | frontend/src/app/sitemap.ts:71-78 | the static shard's id is listed twice, once for the venues' first page |
| `Sitemap.MastersAllListed` | frontend/src/app/sitemap.ts:94-147 | the master shards concatenated are the list of masters, for any length |
| `Sitemap.CollectedMastersOnce` | frontend/src/app/sitemap.ts:137-147 | every collected master slug is listed exactly once |
| `Sitemap.FirstVenuesMissing` | frontend/src/app/sitemap.ts:62-135 | the venue shards list the venues without the first 45,000, so all of them only when there are none |
| `Sitemap.FortyFiveThousandMissing` | frontend/src/app/sitemap.ts:25-36 | in numbers: exactly the venues after the first 45,000 are listed |
| `Sitemap.ShardsFit` | frontend/src/app/sitemap.ts:122-147 | no shard lists more than 45,000 addresses, and id 0 is the static shard |
| `Sitemap.NoVenueIsEverListed` | frontend/src/lib/seo-index-urls.ts:24-41 | with pages of the requested size there are at most 20,000 slugs and no venue is listed |
| `MastersCatalog.Catalog.BeginFetch` | frontend/src/components/banya/masters-catalog-section.tsx:129-132 | a fetch takes the next generation and turns loading on |
| `MastersCatalog.Catalog.ResumeFetch` | frontend/src/components/banya/masters-catalog-section.tsx:159-181 | a resumed fetch touches the page only if its generation is current |
| `MastersCatalog.NeverOlder` | frontend/src/components/banya/masters-catalog-section.tsx:129-184 | the displayed generation never goes back, and the data shown is what that generation delivered |
| `MastersCatalog.NewestIsShown` | frontend/src/components/banya/masters-catalog-section.tsx:129-184 | the newest generation is shown exactly when its fetch has delivered |
| `MastersCatalog.LoadingIsExact` | frontend/src/components/banya/masters-catalog-section.tsx:129-198 | after the mount effects loading is on exactly while the current generation's fetch is outstanding |
| `AuthStore.Store.LoadLegacySession` | frontend/src/store/auth.ts:18-45 | what is migrated, and what is left in local storage |
| `AuthStore.Store.SilentRefresh` | frontend/src/store/auth.ts:105-119 | the cookie is spent only without a token and never on the callback page |
| `AuthStore.Store.Bootstrap` | frontend/src/store/auth.ts:83-135 | the three steps in order, with `hydrated` untouched until they are over |
| `AuthStore.BootstrapIsWhole` | frontend/src/store/auth.ts:83-135 | from a ready store, a token that counts at the end if and only if a user, unless one refresh reply was blank |
| `AuthStore.CookieSignsIn` | frontend/src/store/auth.ts:105-132 | with only a good cookie, its token and its profile are the session at the end |
| `AuthStore.LegacySignsIn` | frontend/src/store/auth.ts:90-132 | a legacy token is taken over with its stored user, or with the profile's |
| `AuthStore.MemorySignsIn` | frontend/src/store/auth.ts:86-132 | a session in memory is kept, and completed by the profile |
| `AuthStore.NobodySignsIn` | frontend/src/store/auth.ts:83-135 | when nothing brings a token, nobody is signed in |
| `AuthStore.StorageAfter` | frontend/src/store/auth.ts:31-42 | nothing else in local storage is touched, and a stored user without a token goes |
| `AuthStore.MemoryWins` | frontend/src/store/auth.ts:86-95 | local storage never replaces a session in memory |
| `AuthStore.NoTokenLeftBehind` | frontend/src/store/auth.ts:39-42 | no access or refresh token is left in local storage if and only if there was none or no session in memory kept it from being swept |
| `AuthStore.CallbackIsLeftAlone` | frontend/src/store/auth.ts:105-119 | on the callback page the silent refresh changes nothing, and a store without a session stays as it is unless there is a legacy token |
| `Text.TrimTrims` | pkg/cities/join.go:13-13 | trimming gives a trimmed piece of the original and is idempotent |
| `Text.TrimDropsSpaces` | pkg/cities/join.go:13-13 | trimming takes spaces off both ends and nothing else |
| `Text.SpacesDiffer` | frontend/src/lib/cities-http.ts:12-12 | Go and JavaScript trim the same characters but for two |
| `Text.SplitJoined` | pkg/cities/join.go:27-41 | splitting a join of separator-free names gives them back |

## Left out

- Services, gateways and their storage (ledger, payouts, outbox, booking, moderation), networking, caching and messaging: plumbing around libraries.
- The server-side branch of `fetchAPI`, request bodies and headers other than the bearer token, and a caller's own `Authorization` header.
- The direct call of `bootstrap` to `/api/auth/refresh` in the single-flight theorem: it does not go through `refreshPromise`; it is a parameter of `AuthStore`.
- `login` and `hydrate`: they store what they are given; `login` appears in `TokenRefresh` as a token written by someone else.
- BookingForm.SettledForm: a commit and its effects are one step here; a reply that lands between them is modelled in `SlotAvailability`.
- BookingForm.EndFollowsChoice: no reply arrives between the action and the end of the cascade.
- The price hint and `handleBook` of the booking form: sums and one request.
- CatalogSync.ChoiceSurvives: no other input comes between the edit and the end; what then can happen is in `CatalogSettling`.
- CatalogSync.EditIsAnswered: the hub's city has no surrounding spaces, as all names in `frontend/src/lib/seo-city-hubs.ts` are written.
- CatalogSync.ArrivalIsSilent: lower-casing is taken neither to make nor to remove a separator.
- The 400 ms delay of the query field: the model starts from the delayed query.
- TokenRefresh.CallContract: network errors of a first send end the call; timeouts of `fetch` are not told apart from them.
- Database locks, several migrators at once, and SQL that takes effect only in part: one file is one step that happens or does not.
- Choosing between the nested and the flat migrations directory, and reading settings from the environment.
- CityLists.Dedupe: strings are sequences of characters; invalid UTF-8 and the tables of `ToLower` and `toLowerCase` are not modelled.
- Curve arithmetic, hashing, base64 and JSON.
- Sitemap.DecodeInvertsEncode: page numbers of 2^31 and more, where the shift and the bitwise operators of JavaScript turn negative.
- Sitemap.FirstVenuesMissing: the shard id reaches `sitemap` as the number the source declares; a framework version that hands it over in another form is not modelled.
- Sitemap.MastersAllListed: the same assumption on the shard id.
- Sitemap.CollectedMastersOnce: the same assumption on the shard id.
- Sitemap.NoVenueIsEverListed: the same assumption on the shard id.
- Time zones, invalid dates in `created_at`, and the average rating, which is floating point.
- AuthStore.BootstrapIsWhole: user ids that are not strings, exceptions thrown by local storage, and logins or logouts meanwhile.
- Focus, blur and key handlers of the phone field.
- Markup, styles, SEO texts, analytics, maps, and helpers that are settled by reading one branch.
