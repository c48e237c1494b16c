# StreamFlow radio: a verified model of the station service and the UI state rules

StreamFlow is a browser radio player. Its station service
(`services/radioService.ts`) does four things:

- it asks the mirrors of a public radio directory for stations and takes the first mirror that answers;
- it filters and normalises the records it gets back;
- it keeps results in an expiring `localStorage` cache;
- it exposes two queries: stations by tag, and stations by UUID (the favourites list).

Around it, the UI files hold small state rules: playlist navigation, paging, favourites, the sleep timer and the language choice (`App.tsx`); chat presence, blocking, invitations, messages and search (`components/ChatPanel.tsx`); the first-start profile form (`components/ProfileSetup.tsx`); and the walkthrough overlay (`components/TutorialOverlay.tsx`).

The Dafny modules follow those files.

| module | models |
|---|---|
| `Wrappers` | `Option` and `Result` |
| `JsText` | the JavaScript string built-ins used: `includes`, `startsWith`, `toLowerCase`, `trim`, `toString`, `parseInt(..) \|\| 0`, `join`, `Math.min` |
| `RadioTypes` | the station record (`RadioStation`) and the JSON payload a mirror returns |
| `VoteSort` | the stable sort by votes, descending, that ends `filterStations` |
| `StationFilter` | `filterStations`: its loop as a method, with a specification function and the lemmas about it |
| `StationCache` | `getFromCache` / `setToCache` on a `LocalStorage` object |
| `MirrorRace` | `promiseAny` and `fetchAcrossMirrorsFast` |
| `UuidOrder` | the default string order of `Array.prototype.sort` and the in-place `uuids.sort()` |
| `StationQueries` | `fetchStationsByTag` and `fetchStationsByUuids` |
| `Locale` | the interface languages (`Language` in `types.ts`) |
| `IdLists` | the toggle updater shared by the favourites and the chat block list |
| `Player` | the main screen's state (`App.tsx`) |
| `Profile` | the profile form |
| `Chat` | the chat panel's state |
| `Tutorial` | the walkthrough's step counter |

Inputs that the code reads from the outside world are parameters of the model:

- **The network.** A mirror request's settlement (`Fulfilled(body)` or `Rejected`) is an input. The settlements are given in the order their handlers run. A precondition says that every request sent settles exactly once.
- **The clock.** `Date.now()` is a parameter. The tag and UUID queries take separate read and write times.
- **The storage.** A `localStorage.setItem` that throws is the `writeSucceeds = false` argument. Unparsable stored text is the `Unparsable` item.
- **Chat randomness.** Which participant a random presence event draws is an argument.
- **Timers.** Every timer firing (trickle, sleep timer) is one method call.

## Model

| member | source | states |
|---|---|---|
| `StationCache.GetFromCache` | services/radioService.ts:13-28 | returns the stored data only while the entry is younger than 30 minutes; an expired or unparsable entry is removed; an empty item is left alone |
| `StationCache.SetToCache` | services/radioService.ts:30-35 | stores `{data, now}` under the prefixed key; a failed write changes nothing and does not fail |
| `StationCache.StorageKeyInjective` | services/radioService.ts:15 | distinct cache keys have distinct prefixed storage keys |
| `StationCache.CacheRoundTrip` | services/radioService.ts:13-35 | a read less than 1 800 000 ms after a successful write returns exactly the written list and removes nothing |
| `StationCache.CacheExpiry` | services/radioService.ts:18-22 | a read at or after the TTL returns nothing and removes the prefixed key |
| `StationCache.CorruptEntryEvicted` | services/radioService.ts:23-25 | an unparsable item reads as nothing and only that key is removed |
| `StationCache.CacheKeysIndependent` | services/radioService.ts:13-35 | a read changes no other key, and a write under one key does not change what another key reads |
| `MirrorRace.PromiseAny` | services/radioService.ts:37-54 | the loop over settlements, with its rejection counter, yields the first fulfilled value; it rejects with "All mirrors failed" when the counter reaches the input count, and at once on no inputs |
| `MirrorRace.AnyResolvesIffSomeFulfilled` | services/radioService.ts:46 | the combinator resolves exactly when some input fulfils |
| `MirrorRace.AnyResolvesWithFirst` | services/radioService.ts:46 | the resolved value is that of the first fulfilled input; every earlier input was rejected |
| `MirrorRace.AnyRejectsIffAllRejected` | services/radioService.ts:40-50 | "All mirrors failed" exactly when there are inputs and all rejected; "No promises provided" exactly on no inputs |
| `MirrorRace.MirrorRequests` | services/radioService.ts:59-64 | one request per mirror, in mirror order |
| `MirrorRace.MirrorRequestShape` | services/radioService.ts:57-64 | each request is `<base>/<path>`, followed by `?<params>` exactly when the parameters are not empty |
| `MirrorRace.FetchAcrossMirrorsFast` | services/radioService.ts:56-84 | the result is the first mirror body, or "Station source unavailable" when the race rejects |
| `MirrorRace.MirrorResultFirstAnswer` | services/radioService.ts:78-83 | the race succeeds exactly when some mirror answered, with the first answer; with no mirrors it always fails |
| `StationFilter.FilterStations` | services/radioService.ts:86-117 | the indexed loop with its `continue`s, the name-to-record map and its key order equals `Normalize`, the admitted, deduplicated and sorted list |
| `StationFilter.KeysAgree` | services/radioService.ts:108-111 | the map's key order lists each surviving name once; its keys are exactly the surviving names; each kept record carries its key and is one of the survivors |
| `StationFilter.SurvivorsAreAdmitted` | services/radioService.ts:89-107 | a record passes the loop's tests exactly when it is a station with a URL whose fifth character is 's' and a browser-playable codec or URL |
| `StationFilter.FilterKeepsAdmittedRecords` | services/radioService.ts:87-107 | a non-array payload gives `[]`; otherwise the output is no longer than the input and each output record is an unchanged input station passing every test |
| `StationFilter.FilterRequiresFifthCharS` | services/radioService.ts:94-97 | every output URL has more than four characters and 's' at index 4 |
| `StationFilter.FilterNamesUnique` | services/radioService.ts:108-111 | no two output records share a name |
| `StationFilter.KeptIsMaximal` | services/radioService.ts:108-111 | for every name, the kept record has at least the votes of every surviving record with that name |
| `StationFilter.KeptIsFirstMaximal` | services/radioService.ts:108-111 | the kept record is a survivor, and every earlier survivor with the same name has strictly fewer votes, so ties keep the first |
| `StationFilter.DeduplicatedBest` | services/radioService.ts:108-116 | each deduplicated record is the first survivor of maximal votes among those of its name |
| `StationFilter.DeduplicatedCoversNames` | services/radioService.ts:108-116 | every surviving name is represented in the output |
| `StationFilter.FilterKeepsBestPerName` | services/radioService.ts:108-116 | for an array payload, every surviving name appears, and each output record is the first maximal-vote survivor of its name |
| `StationFilter.FilterOrdersByVotes` | services/radioService.ts:115-116 | the output is non-increasing in votes, and records of equal votes keep their first-seen name order |
| `VoteSort.SortByVotesCorrect` | services/radioService.ts:115-116 | the sort's result is non-increasing in votes, a permutation of its input, and stable per vote value |
| `VoteSort.SortByVotesMembers` | services/radioService.ts:115-116 | the sort keeps length and membership |
| `UuidOrder.LessEqTotal` | services/radioService.ts:139 | the default string order compares any two strings |
| `UuidOrder.LessEqAntisymmetric` | services/radioService.ts:139 | two strings that sort before each other are equal |
| `UuidOrder.LessEqTransitive` | services/radioService.ts:139 | the order is transitive |
| `UuidOrder.SortStringsCorrect` | services/radioService.ts:139 | sorting yields a sorted permutation of its input |
| `UuidOrder.SortedUnique` | services/radioService.ts:139 | a multiset of strings has only one sorted arrangement |
| `UuidOrder.SortIgnoresOrder` | services/radioService.ts:139-140 | permutations of one list sort to the same sequence |
| `UuidOrder.SortInPlace` | services/radioService.ts:139 | the caller's array is rearranged in place into sorted order |
| `StationQueries.FetchStationsByTag` | services/radioService.ts:119-135 | on a cache hit, returns the cached list without racing. On a miss, races `bytag/<tag>` with the fixed query, slices the filtered list to `limit` and caches exactly that list. On failure, returns `[]` and writes nothing |
| `StationQueries.SliceToPrefix` | services/radioService.ts:130 | the slice is a prefix, no longer than `limit`, and keeps order and distinct names |
| `StationQueries.TagQueryOnMiss` | services/radioService.ts:125-131 | on a miss, the tag result has at most `limit` admitted records from the answer, sorted by votes, one per name; a second query within the TTL returns that same list from the cache |
| `StationQueries.TagQueryOnFailure` | services/radioService.ts:132-134 | when every mirror fails, the result is `[]` and nothing is cached |
| `StationQueries.FetchStationsByUuids` | services/radioService.ts:137-154 | empty input returns `[]` without touching the cache. Otherwise the array is sorted in place and names the cache key, and the first 15 sorted UUIDs are raced. If all lookups answer, the flattened bodies are filtered and cached; if any fails, the result is `[]` |
| `StationQueries.FetchAllLookups` | services/radioService.ts:144-147 | the loop over the lookups fails exactly when `Promise.all` would, and otherwise collects every body in lookup order |
| `StationQueries.AllBodiesAllOrNothing` | services/radioService.ts:144-147 | `Promise.all` fails exactly when some lookup fails, and otherwise keeps every body in lookup order |
| `StationQueries.FlatMembers` | services/radioService.ts:148 | an element of `flat()` is an element of an array body or a non-array body itself |
| `StationQueries.FavoritesShareCacheEntry` | services/radioService.ts:139-141 | two UUID lists with the same members, in any order, have the same key, result and storage effect |
| `StationQueries.UuidsQueryOnMiss` | services/radioService.ts:144-150 | on a miss with every lookup answered, the result is admitted, sorted, one per name, and each record comes from one lookup's body |
| `StationQueries.UuidsQueryOnFailure` | services/radioService.ts:151-153 | if any lookup fails, the result is `[]` and nothing is cached |
| `JsText.TrimEmpty` | components/ProfileSetup.tsx:103 | `trim()` is empty exactly when the text is white space only |
| `JsText.ParseIntOfNatToString` | components/ProfileSetup.tsx:107 | `parseInt` of a printed natural number gives that number back |
| `Player.FindIndex` | App.tsx:256 | the first index with the UUID, or -1 exactly when no station has it |
| `Player.NextIndex` | App.tsx:257 | index 0 when not found or at the end, otherwise the following index; always in range |
| `Player.PrevIndex` | App.tsx:264 | the last index when not found or at index 0, otherwise the preceding index; always in range |
| `Player.NextPrevInverse` | App.tsx:254-266 | previous after next, and next after previous, return to a found index |
| `Player.PreviousAfterNextReturns` | App.tsx:254-266 | with distinct UUIDs, next then previous returns to the station that was playing |
| `Player.Player.NextStation` | App.tsx:254-259 | does nothing on an empty list; otherwise plays and buffers the station at `NextIndex` of the current one. Only the playing station and its two flags may change |
| `Player.Player.PreviousStation` | App.tsx:261-266 | does nothing on an empty list; otherwise plays and buffers the station at `PrevIndex` of the current one. Only the playing station and its two flags may change |
| `Player.Player.PlayStation` | App.tsx:219-230 | the station becomes current, playing and buffering; no other field may change |
| `IdLists.Without` | App.tsx:283 | the filter removes every copy of the id and keeps everything else |
| `IdLists.WithoutSingle` | App.tsx:283 | on one element, the filter keeps it exactly when it differs from the id |
| `IdLists.WithoutConcat` | App.tsx:283 | the filter distributes over concatenation, so it keeps the order and the copies of the other ids |
| `IdLists.Toggled` | App.tsx:282-284 | the id's membership flips, all other ids are kept, and an absent id is appended at the end |
| `IdLists.ToggleTwice` | App.tsx:282-284 | toggling twice restores every id's membership, and the exact list when the id was absent |
| `Player.Player.ToggleFavorite` | App.tsx:282-284 | toggles the favourite and saves the new list under 'streamflow_favorites' (corrected; see Findings). Only these two fields may change |
| `Player.Player.ToggleFavoriteAsWritten` | App.tsx:282-284 | toggles the favourite in memory only; the saved list and every other field are unchanged |
| `Player.ToggledFavoriteMissingFromView` | App.tsx:240-243 | as written: with nothing saved, a station just marked favourite is in the list, yet the Favorites view queries nothing |
| `Player.ToggledFavoriteShownInView` | App.tsx:240-243 | with the list saved on toggle, the Favorites view queries exactly the marked station |
| `Player.FavoritesViewQueriesSaved` | App.tsx:240-243 | a saved list makes the Favorites view query exactly that list, or nothing when it is empty |
| `Player.Player.RestoreFavorites` | App.tsx:269-270 | a saved list becomes the favourites; nothing saved keeps them; unparsable text is reported as a parse failure. Only the favourites may change, and `visibleCount >= 0` is kept |
| `Player.VisiblePrefix` | App.tsx:312 | the visible stations are the prefix of length min(visibleCount, n) |
| `Player.Player.LoadMore` | App.tsx:381-384 | `visibleCount` becomes min(prev + 10, n), never past the list's end, and grows while the list has more; no other field may change |
| `Player.Player.TrickleTick` | App.tsx:143-150 | only while not loading, with more stations than shown and fewer than 15 shown: `visibleCount` grows to min(prev + 5, n); otherwise nothing changes. No other field may change |
| `Player.SleepTick` | App.tsx:156-163 | no timer or at most one minute left gives no timer; otherwise one minute less, still at least one |
| `Player.SleepRunsOut` | App.tsx:152-169 | a timer of k minutes reads k - j after j ticks and is gone after exactly k |
| `Player.Player.SleepTimerTick` | App.tsx:155-164 | applies the tick; when the timer ends, playback is paused. Only the timer and the playing flag may change |
| `Player.BrowserLanguageOfTag` | App.tsx:273-277 | a browser tag made of a language's code and any region selects that language |
| `Player.BrowserLanguageNeedsPrefix` | App.tsx:273-277 | a language other than English is chosen only when the first two letters, lower-cased, are its code |
| `Player.Player.DetectLanguage` | App.tsx:273-278 | the interface language becomes the one the browser tag selects; no other field may change |
| `Player.PlanLoad` | App.tsx:240-247 | tag mode queries the category id with limit 50. Favourites mode queries the saved ids only when the list is non-empty, fails on unparsable text, and otherwise queries nothing |
| `Player.Player.LoadCategory` | App.tsx:232-252 | resets the selection and `visibleCount` to 5 and returns the plan. With no query the load ends with `[]`; on a parse failure it ends with the list kept; a query leaves it loading. Playback, favourites, the timer and the language cannot change |
| `Player.Player.FinishLoad` | App.tsx:248-250 | the list is replaced, loading ends, and with autoplay the first station of a non-empty list plays and buffers; otherwise playback is unchanged. Only these fields may change |
| `Player.Player.constructor` | App.tsx:106-125 | starts empty and loading, showing 5, with the first genre selected |
| `Profile.AgesAreEighteenToEighty` | components/ProfileSetup.tsx:22 | the picker offers 63 ages, "18" to "80", ascending by one |
| `Profile.FindCountry` | components/ProfileSetup.tsx:85 | finds a country of that name, or none exactly when no country has it |
| `Profile.CitiesIn` | components/ProfileSetup.tsx:84-87 | the cities of the country with that name, or `["Other"]` when no country has it; never empty when every country has cities |
| `Profile.AvailableCities` | components/ProfileSetup.tsx:84-87 | the city list offered for the chosen country over the twelve countries of the form, never empty |
| `Profile.CorrectedCity` | components/ProfileSetup.tsx:89-91 | the result is always an offered city, and an offered city is kept |
| `Profile.CorrectionIdempotent` | components/ProfileSetup.tsx:89-91 | correcting twice is correcting once |
| `Profile.ProfileForm.CorrectCity` | components/ProfileSetup.tsx:89-91 | after the effect the city is one the chosen country offers; only the city may change |
| `Profile.SubmittedProfile` | components/ProfileSetup.tsx:101-126 | no profile exactly when the name is blank; otherwise the entered name, place, gender and avatar are kept |
| `Profile.SubmittedAgeFromPicker` | components/ProfileSetup.tsx:104-125 | a picked age arrives as its number, lies within the profile's 18-80 filter and prints back to the picked text |
| `Profile.ProfileForm.Submit` | components/ProfileSetup.tsx:101-126 | `onComplete` receives the submitted profile, and nothing for a blank name |
| `Profile.ProfileForm.constructor` | components/ProfileSetup.tsx:76-79 | the form opens on age 25, Moscow, Russia, with the city offered by the country |
| `Chat.EmojiOnlyMeans` | components/ChatPanel.tsx:56-62 | emoji-only exactly when the text is not blank, has no Latin letter, digit or Cyrillic letter, and trims to at most three symbols |
| `Chat.WithoutLogin` | components/ChatPanel.tsx:127 | the filter drops exactly the participants with that login |
| `Chat.WithoutLoginSingle` | components/ChatPanel.tsx:127 | on one participant, the filter keeps it exactly when its login differs |
| `Chat.WithoutLoginConcat` | components/ChatPanel.tsx:127 | the filter distributes over concatenation, so it keeps the order and the copies of the others |
| `Chat.PresenceStep` | components/ChatPanel.tsx:122-129 | an absent login is prepended and the list cut to 15; a present login is removed entirely; a list of at most 15 stays so |
| `Chat.ArrivalThenDeparture` | components/ChatPanel.tsx:122-129 | below the cap, an arrival followed by the same participant's departure restores the list |
| `Chat.ChatPanel.PresenceEvent` | components/ChatPanel.tsx:115-130 | when search mode was off the presence updater is applied, keeping at most 15 online; in search mode nothing changes. Only the online list may change |
| `Chat.ChatPanel.Join` | components/ChatPanel.tsx:103-112 | once, and only with a name, the listener becomes the single online participant: the name, the lower-cased name as login, the avatar or the default avatar, and the age, country and city of the profile. Only the online list and the sent-welcome flag may change |
| `Chat.SearchPool` | components/ChatPanel.tsx:136-145 | keeps exactly the pool participants matching name or login, age text and country or city |
| `Chat.SearchPoolSingle` | components/ChatPanel.tsx:136-145 | on one participant, the search keeps it exactly when it matches |
| `Chat.SearchPoolConcat` | components/ChatPanel.tsx:136-145 | the search distributes over concatenation, so it keeps the pool's order and copies |
| `Chat.EmptySearchShowsAll` | components/ChatPanel.tsx:136-145 | an empty search shows the whole pool in order |
| `Chat.ChatPanel.HandleInvite` | components/ChatPanel.tsx:147-168 | one's own login is ignored; a blocked login raises the alert and changes nothing; otherwise the participant becomes the partner and exactly one system notice is appended. Only the partner and the messages may change |
| `Chat.ChatPanel.ToggleBlock` | components/ChatPanel.tsx:170-183 | an empty login changes nothing; otherwise the login's block flips, and a partner with that login is left. Only the block list and the partner may change |
| `Chat.BlockThenUnblock` | components/ChatPanel.tsx:172-179 | blocking and toggling again restores the block list exactly |
| `Chat.ChatPanel.SendMessage` | components/ChatPanel.tsx:220-234 | with no content nothing changes. Otherwise exactly one message from "me", addressed to the partner's login or to nobody, is appended, the input is cleared and the emoji picker closed. Only these three fields may change |
| `Chat.Visible` | components/ChatPanel.tsx:236-245 | keeps exactly the messages shown for the partner: system messages only without a partner; with one, messages to or from that login; without one, messages with no recipient |
| `Chat.VisibleSingle` | components/ChatPanel.tsx:236-245 | on one message, the view keeps it exactly when it is visible |
| `Chat.VisibleConcat` | components/ChatPanel.tsx:236-245 | the view distributes over concatenation, so it keeps the order and copies of the shown messages |
| `Chat.SentMessageShown` | components/ChatPanel.tsx:220-245 | a message one sends is shown in the view it was sent from |
| `Chat.InviteNoticeOnlyInHub` | components/ChatPanel.tsx:156-168 | the dialog notice is hidden while its dialog is open and shown in the hub |
| `Chat.ChatPanel.ToggleSearch` | components/ChatPanel.tsx:276 | search mode flips and any dialog is left; no other field may change |
| `Chat.ChatPanel.constructor` | components/ChatPanel.tsx:69-85 | the panel starts with the one system greeting in the panel's language (Russian for `ru`, English otherwise), nobody online, no partner, no blocks, empty input, the emoji picker and search closed, empty search fields, and no welcome sent |
| `Tutorial.StepAfterNext` | components/TutorialOverlay.tsx:53 | Next moves one step on, except on the last step; it stays in 0-4 |
| `Tutorial.BackUndoesNext` | components/TutorialOverlay.tsx:44-53 | after Next, Back is offered and returns to the step before |
| `Tutorial.NextWalksToLastStep` | components/TutorialOverlay.tsx:53 | k presses of Next from a step reach min(step + k, 4) |
| `Tutorial.Counter` | components/TutorialOverlay.tsx:36 | the counter reads "Step k / 5" with k the one-based step |
| `Tutorial.PrimaryButton` | components/TutorialOverlay.tsx:56 | the caption is "got it" exactly on the last step |
| `Tutorial.Walkthrough.constructor` | components/TutorialOverlay.tsx:14 | the overlay starts on step 0 when it is mounted |
| `Tutorial.Walkthrough.Next` | components/TutorialOverlay.tsx:52-56 | advances below the last step; on the last step it requests closing and keeps the step |
| `Tutorial.Walkthrough.Back` | components/TutorialOverlay.tsx:44-50 | offered only past step 0; goes back exactly one step, keeping 0 <= step <= 4 |

## Left out

- Real network I/O is not modelled: `fetch`, `AbortController`, the 2000 ms timeout, HTTP status checks and `response.json()`. Each mirror request is an abstract settlement instead.
- `MirrorRace.FetchAcrossMirrorsFast` requires every mirror request to settle exactly once (`SettlesEachOnce`). The source clears the 2000 ms timer before `response.json()` (services/radioService.ts:68-70), so a body that stalls after the headers is no longer aborted. The race can then hang instead of failing with "All mirrors failed"; a hanging race is not modelled.
- Real promise interleaving is not modelled. The settlement order is an input. In JavaScript a rejection handler runs one microtask later than a fulfilment handler; the model takes the order in which the handlers run.
- The `errors` array of `promiseAny` is not modelled. It is filled but never read.
- `console.warn` is not modelled.
- The mirror list `RADIO_BROWSER_MIRRORS` is a parameter. Its constants file is not part of this model.
- `JSON.stringify` and `JSON.parse` are not modelled. A stored item is a well-formed entry, empty text, or `Unparsable`.
- An item that parses but lacks a numeric `timestamp` or an array `data` is not modelled. The catch removes an entry that fails to parse, and a `null` entry throws and is removed likewise, but one that parses with `data` missing falls through to a fetch.
- A `localStorage.getItem` or `removeItem` that throws is not modelled.
- Strings are sequences of code points, while JavaScript strings are UTF-16. Lengths, `charCodeAt(4)` and the sort order differ only for characters outside the Basic Multilingual Plane.
- `toLowerCase` is modelled for ASCII letters only.
- `parseInt` is modelled for decimal digits only. Hexadecimal prefixes and fractional or non-finite `limit` values are not modelled.
- `uuids.sort()` is modelled by its effect (the array holds its sorted permutation), not by the engine's algorithm. The order compares code points.
- The `localeCompare` ordering of `COUNTRIES_DATA` is not modelled. Lookups go by name and the names are distinct, so the model keeps the source's listed order.
- `App.tsx`: the audio element, `AudioContext` and analyser, the idle timer, theming, visualiser settings, volume, localised category names and all JSX are not modelled. The trickle and sleep timers themselves are not modelled: each firing is one method call.
- `App.tsx`: a saved 'streamflow_favorites' text that parses to anything but an array is not modelled, `null` included. In the source, `null` makes `favUuids.length` throw in the favourites load (App.tsx:242-243) and sets the favourites to `null` at start-up (App.tsx:270).
- `App.tsx`: the `async` gap of `loadCategory` is split into `LoadCategory` (before the query) and `FinishLoad` (after it).
- `ChatPanel.tsx`: the `Math.random` presence simulation, the listener-count random walk, `MediaRecorder`, `getUserMedia`, `FileReader`, audio playback and scrolling are not modelled.
- `ChatPanel.tsx`: `Date.now()` message ids and timestamps, the `read` and `isUserMessage` flags and the blocked-user `alert` text are not modelled. The alert is a boolean result.
- `ProfileSetup.tsx`: the `DrumPicker` scroll arithmetic, avatar file reading and JSX are not modelled.
- `components/ToolsPanel.tsx`, `components/MusicDownloader.tsx` and `components/ManualModal.tsx` are not part of this model. They hold floating-point slider maths, a disabled download stub and static text.
- The default `limit` of 30 of `fetchStationsByTag` (services/radioService.ts:119) is not modelled as a constant. `FetchStationsByTag` takes the limit as an argument, and its only caller (App.tsx:246) passes 50.
- `TutorialOverlay.tsx`: the overlay stays mounted (App.tsx:431) and its step is never reset, so a reopened walkthrough resumes on the step where it was closed. The model covers one mounting; closing and reopening are not modelled.
- `Tutorial.Walkthrough.Back` requires `step > 0`, because the Back button is rendered only then. The handler itself does not check.

## Findings

| source | as written | input that shows it | evidently intended | confidence | as-written member | corrected member |
|---|---|---|---|---|---|---|
| App.tsx:282-284 | `toggleFavorite` changes only the in-memory list. No code writes 'streamflow_favorites', yet the Favorites view (App.tsx:241) and start-up (App.tsx:269) read it | on a browser with nothing saved, mark any station as a favourite, then open Favorites: the view queries nothing and shows no stations | the list is saved under 'streamflow_favorites' whenever it changes, so the Favorites view shows the marked stations | medium, not executed | `Player.ToggledFavoriteMissingFromView` | `Player.ToggledFavoriteShownInView` |
