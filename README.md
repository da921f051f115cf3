# Couple app store, audio player and navigation guard in Dafny

This project models the client-side logic of a relationship-tracking web app.
It covers three pieces of that app.

- **The couple/events store** (`src/composables/useCoupleData.js`). It holds the cached couple
  profile, the local event list and the two database collections behind them (`couples`,
  `events`). It provides:
  - profile lookup (partner one wins over partner two),
  - profile creation with defaults,
  - the partial-update merge and the birthday reconciler,
  - adding events (push, then sort by date) and deleting them (filter by id),
  - the days-together count.
- **The audio player** (`src/composables/useAudioPlayer.js`). Its state is whether an audio element
  is bound, whether it is playing, and the url last set. The model covers play, pause, toggle,
  track switching and the three listener callbacks.
- **The navigation guard** (`src/router/index.js`). This is the route table's
  `requiresAuth`/`requiresGuest` flags and the rule applied before each navigation. That rule uses
  the `redirectAfterLogin` session-storage entry as a one-shot return path after login.

Modules, one file each:

| file | module | what it holds |
|---|---|---|
| `common.dfy` | `Common` | `Option`, and the JavaScript `s \|\| ''` default |
| `dates.dfy` | `Dates` | calendar dates, the current instant, days since 1970-01-01, millisecond timestamps, JavaScript's `new Date(y, m, d)` normalisation, `YYYY-MM-DD` parsing |
| `event_list.dfy` | `EventList` | the event record, the filter used by deletes, and the stable sort by date |
| `birthdays.dfy` | `Birthdays` | the next-birthday computation and one reconciler pass (delete same-titled birthday events, insert a fresh one) |
| `couple_store.dfy` | `CoupleData` | profile fields as a map, lookup, creation, merge, the two-partner reconciler, days together, and the `CoupleStore` class whose methods update the collections, the cache and the local list |
| `audio_player.dfy` | `Audio` | the `AudioPlayer` class, and two client methods showing what callers can rely on |
| `router.dfy` | `Router` | the route table, the pure guard rule `Decide`, and the `NavigationGuard` class holding the session-storage entry |

Dates are calendar triples. The current instant is a parameter: today's date plus the milliseconds
since its midnight. Event dates, the first day together and `createdAt` are millisecond timestamps.
The local time zone is taken to be UTC.

The model follows the code, including these points where its behaviour is easy to misread:

- The reconciler runs only for a *truthy* birthday field. A birthday given as `''` triggers nothing.
- The reconciler compares this year's midnight with the current *instant*. A birthday falling today
  therefore moves to next year once that midnight has passed (`BirthdayTodayRollsForward`).
- A February 29 birthday becomes March 1 in a common year, and `setFullYear` keeps that March 1.
  So, seen in a common year after March 1, it is placed on March 1 of the next year, even when that
  year is a leap year (`LeapDayBirthdayExample`), and also when it is not (`LeapDayIntoCommonYearExample`). A February 29 birthday moved to next year is always placed on March 1
  (`NextBirthdayMonthDay`).
- The name used for a partner's birthday is always the partner's name in the merged profile
  (`ResolvedNameIsMergedName`). A missing name is rendered `undefined`, as JavaScript's template
  literal does.
- An update that only renames a partner leaves the events untouched. The code's branch for that
  case is empty.

## Model

| member | source | states |
|---|---|---|
| `Common.OrEmpty` | src/composables/useCoupleData.js:74-78 | a missing or empty optional string becomes `''`, any other string is kept |
| `Dates.LocalDate` | src/composables/useCoupleData.js:113 | `new Date(y, m, d)` for a four-digit year `y` lands in year `y` on a valid date, with the day count carried past the month's end (February 29 in a common year is March 1) |
| `Dates.ParseIsoDate` | src/composables/useCoupleData.js:111 | a string gives a date exactly when it has the `YYYY-MM-DD` shape and its digits spell a valid calendar date, and that date is the one the digits spell |
| `Dates.ParseFormatRoundTrip` | src/composables/useCoupleData.js:111 | reading a date written as `YYYY-MM-DD` gives the date back, and a string that reads as a date is that date written as `YYYY-MM-DD` |
| `Dates.ParseIsoDateExample` | src/composables/useCoupleData.js:111 | `1990-03-15` is March 15, 1990; `1990-02-30` and `15/03/1990` are invalid dates |
| `Birthdays.BirthdayTitle` | src/composables/useCoupleData.js:142 | the event title is the partner's name followed by `'s Birthday` |
| `Birthdays.BirthdayTitleInjective` | src/composables/useCoupleData.js:132 | two names that give the same title are the same name, so the query selects exactly one partner's events |
| `Birthdays.BirthdayMessage` | src/composables/useCoupleData.js:145 | the description is `Happy Birthday `, the name, `! ` and the four characters the source text holds after it |
| `Birthdays.ThisYearsBirthday` | src/composables/useCoupleData.js:113 | the birthday's month and day in the current year; a February 29 in a common year becomes March 1 |
| `Birthdays.NextBirthday` | src/composables/useCoupleData.js:111-117 | the next birthday is in this year or the next, in the next exactly when this year's midnight is strictly before now, equal to this year's occurrence otherwise, and its midnight is never before the current instant |
| `Birthdays.NextBirthdayMonthDay` | src/composables/useCoupleData.js:113-116 | the next birthday keeps the birthday's month and day; only February 29 may become March 1: always when moved to next year, and in this year exactly when it is a common year |
| `Birthdays.BirthdayTodayRollsForward` | src/composables/useCoupleData.js:115-117 | a birthday falling today, after today's midnight, is placed next year |
| `Birthdays.PassedBirthdayExample` | src/composables/useCoupleData.js:111-117 | 1990-03-15 seen on 2024-06-01 gives 2025-03-15 |
| `Birthdays.UpcomingBirthdayExample` | src/composables/useCoupleData.js:111-117 | 1990-03-15 seen on 2024-01-01 gives 2024-03-15 |
| `Birthdays.LeapDayBirthdayExample` | src/composables/useCoupleData.js:113-117 | 2000-02-29 seen on 2023-06-01 gives 2024-03-01, not 2024-02-29 |
| `Birthdays.LeapDayIntoCommonYearExample` | src/composables/useCoupleData.js:113-117 | 2000-02-29 seen on 2021-06-01 gives 2022-03-01 |
| `Birthdays.BirthdayEvent` | src/composables/useCoupleData.js:140-147 | the inserted event is a `birthday` event of the couple titled `<name>'s Birthday`, dated at the next birthday's midnight, never before now, with the `Happy Birthday <name>! …` description and the current instant as `createdAt` |
| `Birthdays.ManageBirthdayEvent` | src/composables/useCoupleData.js:107-150 | a pass completes exactly when the birthday is a date |
| `Birthdays.FailedPassStillDeletes` | src/composables/useCoupleData.js:111-149 | a pass whose birthday is not a date fails after deleting every birthday event of that name for the couple |
| `Birthdays.ReconcileExactlyOne` | src/composables/useCoupleData.js:127-149 | after a pass exactly one event of the couple has type `birthday` and that title: the fresh one |
| `Birthdays.ReconcileLeavesOthers` | src/composables/useCoupleData.js:127-137 | every event with another couple id, type or title is kept, in order, whether or not the pass completes |
| `Birthdays.ReconcileIdempotent` | src/composables/useCoupleData.js:127-149 | running the pass twice with the same inputs gives what one run gives |
| `Birthdays.ReconcileKeepsOtherNames` | src/composables/useCoupleData.js:128-133 | a pass under another name leaves this name's birthday events as they are |
| `EventList.Keep` | src/composables/useCoupleData.js:281 | the filter keeps exactly the elements passing the test, and no more copies than there were |
| `EventList.KeepConcat` | src/composables/useCoupleData.js:281 | the filter works part by part, so the kept events stay in their original relative order |
| `EventList.KeepSorted` | src/composables/useCoupleData.js:281 | filtering a list sorted by date leaves it sorted |
| `EventList.InsertByDate` | src/composables/useCoupleData.js:260-263 | inserting adds exactly the one event: one longer, the same multiset plus the event |
| `EventList.InsertByDateSorted` | src/composables/useCoupleData.js:260-263 | inserting into a list sorted by date keeps it sorted |
| `EventList.SortByDate` | src/composables/useCoupleData.js:263 | the sort returns a permutation of its input, sorted ascending by date |
| `EventList.SortSortedIsIdentity` | src/composables/useCoupleData.js:263 | sorting an already sorted list changes nothing |
| `CoupleData.Snapshot` | src/composables/useCoupleData.js:48 | the cached profile is the document's fields plus its id; a stored `id` field wins |
| `CoupleData.FirstWith` | src/composables/useCoupleData.js:43-51 | the first document, in query order, naming the user in the given slot, or none when no document does |
| `CoupleData.FindProfile` | src/composables/useCoupleData.js:46-57 | none exactly when no profile names the user in either slot; a partner-one match wins; any result is a profile naming the user |
| `CoupleData.NewProfileFields` | src/composables/useCoupleData.js:72-81 | a new profile has the creator as partner one, both given names, `''` for a missing partner two and photos, the first day at midnight and the creation time |
| `CoupleData.CreatedProfileIsFound` | src/composables/useCoupleData.js:72-84 | after creation, the creator's lookup finds a profile naming them as partner one |
| `CoupleData.Merge` | src/composables/useCoupleData.js:103 | every key of the update takes the update's value; every other cached key keeps its value; no other key appears |
| `CoupleData.Truthy` | src/composables/useCoupleData.js:106 | a field is truthy when present and neither `''` nor `null`; any timestamp is truthy |
| `CoupleData.TemplateText` | src/composables/useCoupleData.js:142 | a string shows as itself, a missing field as `undefined`, `null` as `null`, a timestamp as `Timestamp(seconds=…` |
| `CoupleData.ResolvedName` | src/composables/useCoupleData.js:154 | the update's non-empty name wins; otherwise the profile's name, or `undefined` when it has none |
| `CoupleData.ResolvedNameIsMergedName` | src/composables/useCoupleData.js:154 | `data.name \|\| merged.name` is the merged profile's name |
| `CoupleData.BirthdayDate` | src/composables/useCoupleData.js:111 | a birthday field gives a date exactly when it is a `YYYY-MM-DD` string spelling a valid date, and that date; a timestamp or `null` gives none |
| `CoupleData.BirthdayStringExample` | src/composables/useCoupleData.js:111-117 | a birthday saved as `1990-03-15` is next celebrated on 2025-03-15 when seen on 2024-06-01, and on 2024-03-15 when seen on 2024-01-01 |
| `CoupleData.ReconcileBirthdays` | src/composables/useCoupleData.js:106-179 | an update without a truthy birthday leaves the events unchanged; the reconciler succeeds exactly when every truthy birthday is a date |
| `CoupleData.Partner1BirthdayReconciled` | src/composables/useCoupleData.js:152-156 | a valid partner-one birthday leaves exactly one event with partner one's title, unless partner two shares the name |
| `CoupleData.Partner2BirthdayReconciled` | src/composables/useCoupleData.js:158-161 | a valid partner-two birthday, after a completed partner-one pass, leaves exactly one event with partner two's title |
| `CoupleData.SharedNameKeepsPartner2Only` | src/composables/useCoupleData.js:152-161 | when both partners share a name, partner two's pass deletes partner one's new event and only partner two's remains |
| `CoupleData.Partner1EventsUntouched` | src/composables/useCoupleData.js:152-161 | an update without a truthy `partner1Birthday` leaves partner one's birthday events as they were, unless partner two's pass runs under the same name |
| `CoupleData.Partner2EventsUntouched` | src/composables/useCoupleData.js:152-161 | an update without a truthy `partner2Birthday` leaves partner two's birthday events as they were, unless partner one's pass runs under the same name |
| `CoupleData.ReconcileBirthdaysLeavesOthers` | src/composables/useCoupleData.js:106-162 | events that are not birthday events of either partner's name survive the update in order |
| `CoupleData.NewEvent` | src/composables/useCoupleData.js:246-253 | the stored event carries the form's title and type, the date at midnight, the creation time, and `''` for a missing description |
| `CoupleData.PushThenSortInserts` | src/composables/useCoupleData.js:260-263 | pushing onto a sorted list and sorting places the event after all events dated no later |
| `CoupleData.CeilDays` | src/composables/useCoupleData.js:297 | the day count is the least whole number of days covering the difference |
| `CoupleData.DaysTogether` | src/composables/useCoupleData.js:291-300 | 0 without a profile or first day; otherwise the ceiling of the absolute difference in days; no value when the first day is a string |
| `CoupleData.DaysTogetherExample` | src/composables/useCoupleData.js:291-300 | together since 2020-01-01, on 2024-01-01 the count is 1461 |
| `CoupleData.CoupleStore.constructor` | src/composables/useCoupleData.js:22-24 | the store starts with no cached profile and an empty (sorted) event list |
| `CoupleData.CoupleStore.GetCoupleData` | src/composables/useCoupleData.js:28-64 | caches and returns the lookup result and changes no collection |
| `CoupleData.CoupleStore.CreateCoupleProfile` | src/composables/useCoupleData.js:67-93 | appends the new profile and caches it, or changes nothing when the first day is not a date |
| `CoupleData.CoupleStore.UpdateCoupleProfile` | src/composables/useCoupleData.js:96-188 | fails and changes nothing for an unknown id; otherwise merges into the document and the cache and applies the reconciler to the events |
| `CoupleData.CoupleStore.GetEvents` | src/composables/useCoupleData.js:212-235 | the local list becomes the couple's events, sorted by date |
| `CoupleData.CoupleStore.AddEvent` | src/composables/useCoupleData.js:238-274 | stores the event and the local list grows by exactly it, stays sorted and holds all prior events; nothing changes for an invalid date |
| `CoupleData.CoupleStore.DeleteEvent` | src/composables/useCoupleData.js:277-288 | removes every event with that id from the collection and the list, keeping the rest in order and sorted |
| `Audio.AudioPlayer.constructor` | src/composables/useAudioPlayer.js:4-6 | no element, not playing, no current url |
| `Audio.AudioPlayer.Bind` | src/composables/useAudioPlayer.js:4 | the page's element binding decides whether an element is present |
| `Audio.AudioPlayer.Play` | src/composables/useAudioPlayer.js:26-35 | no-op without an element; otherwise playing exactly when the element's play succeeded, and a failure is not propagated |
| `Audio.AudioPlayer.Pause` | src/composables/useAudioPlayer.js:37-41 | no-op without an element; otherwise not playing |
| `Audio.AudioPlayer.TogglePlay` | src/composables/useAudioPlayer.js:9-24 | no-op without an element; a playing player stops; a stopped one plays exactly when play succeeded |
| `Audio.AudioPlayer.SetTrack` | src/composables/useAudioPlayer.js:43-68 | no-op without an element or url; a new url sets the source and current url, loads once and plays; the same url never loads and plays only when not playing |
| `Audio.AudioPlayer.SetupAudioListeners` | src/composables/useAudioPlayer.js:70-90 | listeners are attached exactly when there is an element |
| `Audio.AudioPlayer.OnPlayEvent` | src/composables/useAudioPlayer.js:74-77 | the play listener marks the player playing |
| `Audio.AudioPlayer.OnPauseEvent` | src/composables/useAudioPlayer.js:80-83 | the pause listener marks the player not playing |
| `Audio.AudioPlayer.OnEndedEvent` | src/composables/useAudioPlayer.js:86-89 | the ended listener marks the player not playing |
| `Audio.SetTrackTwiceLoadsOnce` | src/composables/useAudioPlayer.js:47-67 | two `setTrack` calls with the same url load at most once, and exactly once for a new url |
| `Audio.RetryAfterFailedPlay` | src/composables/useAudioPlayer.js:49-66 | after a failed play of a new track the url is current, so a retry plays without loading again |
| `Router.RouteTableFlags` | src/router/index.js:10-47 | only `/login` requires a guest, every other route requires a user, and no route has both flags |
| `Router.Decide` | src/router/index.js:61-76 | a protected route without a user stores the path and goes to `/login`; a guest route with a user goes to a non-empty saved path and clears it, else to `/`; everything else proceeds with storage untouched |
| `Router.RedirectIsOneShot` | src/router/index.js:65-73 | the saved path is used once; the next guest-route visit with a user goes to `/` |
| `Router.ReturnAfterLogin` | src/router/index.js:61-70 | after a bounce from a protected page, the next signed-in visit to `/login` goes to the saved page and clears the entry |
| `Router.ProtectedVisitKeepsEntry` | src/router/index.js:61-76 | after a bounce, a signed-in visit to a protected page proceeds and leaves the saved page stored |
| `Router.RedirectsSettle` | src/router/index.js:61-76 | the guard's own targets do not redirect again: a guest may stay on `/login`, a user on `/` |
| `Router.NavigationGuard.constructor` | src/router/index.js:63 | the guard starts from the session's current storage entry |
| `Router.NavigationGuard.BeforeEach` | src/router/index.js:55-77 | no decision and no storage change until the session is known; then the target and new storage entry are those of `Decide` |

## Left out

- Database calls (`getDocs`, `addDoc`, `deleteDoc`, `updateDoc`, `setDoc`) are updates of a
  collection field. Their failures (network, permissions) are not modelled. Only the errors the
  app's own code raises are: an unknown profile id and an invalid date.
- The order in which a query returns documents is the order of the collection sequence.
- The generated document ids are parameters (`newId`, `id1`, `id2`). The database makes them unique.
- The reconciler's parallel deletes (`Promise.all`) are one sequential delete-all.
- `CoupleData.CoupleStore.GetEvents`: the database's `orderBy('date')` breaks ties by document id.
  The model breaks them by collection order.
- An invalid date string makes the model stop with `InvalidDate`. For a birthday this happens after
  that partner's deletes. For `addEvent` and `createCoupleProfile` it happens before any write. How
  the database SDK treats a JavaScript invalid date is not part of this model.
- Only `YYYY-MM-DD` strings are dates. Other formats that browsers parse are not modelled.
- `Dates.ParseIsoDate`: a day past the month's end (`1990-02-30`) is an invalid date, as ECMAScript's date-time string format requires. Some engines (V8) accept days up to 31 and roll them into the next month; that behaviour is not modelled.
- `Dates.LocalDate`: JavaScript's `new Date(y, m, d)` maps a year from 0 to 99 to 1900 + `y`. The model keeps the year as given, so it holds for a current year of 100 or later, which a real clock always gives.
- The time zone is assumed to be UTC, so there is no daylight saving and no shift between a
  date-only string parsed as UTC and local midnight.
- The `Timestamp` range limit (years 1 to 9999) is not modelled.
- `createdAt` (`Timestamp.now()`) is the millisecond value of the current instant parameter.
- The `loading` flags are not modelled. They are true only while a call is awaited.
- Vue reactivity and console logging are not modelled.
- `subscribeToCoupleData` and `subscribeToEvents` are left out. They are real-time listeners, and
  their snapshots may overwrite local optimistic updates concurrently.
- `uploadProfilePicture` is left out. It is a disabled stub that only shows a browser alert and
  returns `''`.
- `createCoupleProfile` with a missing partner name is not modelled. The database rejects
  `undefined` field values, and the model's input carries both names as strings.
- `false` and `0` field values are not modelled. `null` is, as `Value.Null`, and is falsy.
- Dotted field paths in an update (`updateDoc` with `"a.b"` keys) are plain keys in the model.
- `src/composables/useAuth.js` is not part of this model. The guard receives the session state
  (still pending, or whether a user is signed in) as a parameter.
- Vue Router's path matching is not modelled. A navigation's destination carries the flags of the
  route it matched.
- The native audio element's playback and loading are reduced to a success/failure parameter for
  `play()`. `load()` never throws, so the catch at src/composables/useAudioPlayer.js:58-61 is not
  reachable in the model.
- Listener callbacks are tied to the player, not to one element instance. Re-binding a different
  element after `setupAudioListeners` is not modelled.
- `EventList.SortByDate`: stability holds by construction (an event goes after equal dates), but
  no lemma states it on its own.
