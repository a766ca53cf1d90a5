# narrr-search: a Dafny model of the search client's core

narrr-search is a Nostr client that runs NIP-50 full-text searches against a set of
relays. This project models its core:

- **The provider state** of `app/contexts/NostrContext.tsx`. This covers:
  - the relay registry and its two upserts;
  - seeding the default relays;
  - replacing them with the user's preferred relays;
  - loading the contact list (who the user follows);
  - login and logout;
  - the search request and its sort modes;
  - the unused three-tier ranking comparator;
  - the profile cache and the batched profile requests.
- **The result list** of `components/SearchResults.tsx`. This covers:
  - the label each result gets;
  - the author name and the timestamp text on each card;
  - the hashtag chips;
  - the choice of view, including the `initialized` latch.
- **The relay panel** of `components/RelayStatus.tsx`. This covers the chip text, the chip colours, the heading and the empty-list message.

The React state hooks of the provider become the fields of the class
`Provider.NostrProvider`. Each operation that calls `setX` becomes a method that
modifies exactly those fields. The registry invariant is that no relay has two
entries (`RegistryValid`). Every operation except `updateRelayStatus` preserves it,
and the model shows a concrete input on which that one breaks it.

Everything the source obtains from NDK, the NIP-07 browser extension or the relays is
passed in as a parameter or an outcome datatype. This covers:

- whether `ndk.connect()` resolves;
- what `signer.user()` yields;
- the relay list and its JSON text;
- the kind-3 contact-list events;
- the search fetch, where a failure stands for the timeout or any other error;
- each profile fetch.

The default relay list is a parameter as well. The production and development lists
are the constants `Relays.ProductionDefaults` and `Relays.DevelopmentDefaults`.

Decisions of note:

- **Sorting:** every comparator in the source orders by a key compared
  lexicographically, and `Array.prototype.sort` is stable. So all of them are one
  stable sort by rank (`Ranking.SortBy`), proved to be:
  - a permutation of its input;
  - ordered by rank;
  - stable.
- **`sortBy` in `searchNostr`:** the search form calls `searchNostr(query)` with one
  argument (components/SearchComponent.tsx:25). `sortBy` is therefore undefined and no
  sort branch runs. `sortBy` is an `Option<string>`, and `Search.FormSearchKeepsFetchOrder`
  proves the fetched order is kept.
- **`stopSearch`:** it aborts an `AbortController` whose signal is passed to no fetch.
  `StopSearch` therefore only clears `isSearching`. `StopThenSettle` shows that results
  arriving after a stop are still stored.
- **`logout`:** it resets the registry to the default URLs as written. Seeding, by
  contrast, normalises and deduplicates them. `logout` also leaves `isUsingCustomRelays`,
  `rawRelayList` and the profile cache untouched.
- **Blank query:** the blank-query exit of `searchNostr` returns before the
  `try`/`finally`, so it leaves `isSearching` as it was.
- **One request per search:** `searchNostr` makes a single `fetchEvents` call raced
  against a 10-second timeout. There are no per-relay subscriptions, no generation
  counters, no deduplication by id and no separate "no connectivity" outcome; any error,
  the timeout included, leaves the results empty.

## Model

| member | source | states |
|---|---|---|
| Text.Trim | app/contexts/NostrContext.tsx:521 | `trim()`: the slice of the input with only whitespace around it, starting and ending with non-whitespace; empty exactly when the input is all whitespace |
| Text.StripTrailingSlashes | app/contexts/NostrContext.tsx:193 | `replace(/\/+$/, '')`: a prefix of the input that does not end in '/', all removed characters being '/' |
| Text.StripIgnoresTrailingSlashes | app/contexts/NostrContext.tsx:193 | URLs differing only in trailing slashes normalise to the same string |
| Collections.Dedup | app/contexts/NostrContext.tsx:273 | `Array.from(new Set(xs))`: duplicate-free, with exactly the elements of the input (order in `DedupFirstOccurrenceOrder`) |
| Collections.DedupFirstOccurrenceOrder | app/contexts/NostrContext.tsx:273 | the Set lists its elements in the order of their first occurrences in the input |
| Collections.DedupSnoc | app/contexts/NostrContext.tsx:351 | adding to an insertion-ordered Set appends the element only when it is new |
| Collections.DedupOfDistinct | app/contexts/NostrContext.tsx:273 | a list without duplicates is its own Set order |
| Collections.IndexOf | app/contexts/NostrContext.tsx:199 | `findIndex`: -1 exactly when absent, otherwise the first matching position |
| Events.LikeCount | app/contexts/NostrContext.tsx:601-602 | 0 exactly when no tag is `['p', _, _, 'like']`, the tag count exactly when all are; at most the tag count |
| Events.LikeCountAppend | app/contexts/NostrContext.tsx:601-602 | the count distributes over concatenation, so with the single-tag case it is the number of like tags |
| Relays.TrackRelay | app/contexts/NostrContext.tsx:189-217 | the upsert keyed by the normalised URL, in its four cases: an empty URL changes nothing; a known relay gets the new connected/status and keeps its URL, the other entries and the length; an unknown one is appended normalised; it is not appended while custom relays are in use |
| Relays.TrackPreservesUniqueKeys | app/contexts/NostrContext.tsx:189-217 | tracking never gives a relay a second entry |
| Relays.TrackThenLookup | app/contexts/NostrContext.tsx:189-217 | after tracking, the relay's entry carries the tracked connected/status, unless it was unknown and custom relays are in use |
| Relays.TrackKnownLookup | app/contexts/NostrContext.tsx:193-206 | tracking a known relay updates its own entry to the tracked connected/status, whether or not custom relays are in use |
| Relays.TrackNewLookup | app/contexts/NostrContext.tsx:207-214 | without custom relays, tracking an unknown relay appends an entry carrying the tracked connected/status |
| Relays.TrackIgnoresTrailingSlashes | app/contexts/NostrContext.tsx:193-199 | an event for a URL with extra trailing slashes leaves the same registry as one for the URL without them |
| Relays.UpdateRelayStatus | app/contexts/NostrContext.tsx:725-746 | the exact-URL upsert: a match is replaced by `{url, status == CONNECTED, status}`, the other entries unchanged; an unknown URL is appended |
| Relays.UpdateRelayStatusKeepsUrlsDistinct | app/contexts/NostrContext.tsx:725-746 | exact URLs stay distinct and the URL is present afterwards |
| Relays.UpdateRelayStatusCanDuplicateKeys | app/contexts/NostrContext.tsx:728 | without normalisation "wss://a/" gets a second entry beside "wss://a" |
| Relays.SeededEntries | app/contexts/NostrContext.tsx:273-279 | the seeded registry has at most one entry per default URL (its exact contents in `SeededEntriesShape`) |
| Relays.SeededEntriesShape | app/contexts/NostrContext.tsx:273-279 | seeding gives one fresh CONNECTING entry per distinct normalised default URL and nothing else |
| Relays.LogoutMatchesSeedWhenNormalised | app/contexts/NostrContext.tsx:483-487 | the logout reset equals the seeding when the defaults are already normalised and distinct |
| Relays.ProductionLogoutMatchesSeed | app/contexts/NostrContext.tsx:23-33 | for the production defaults, logout restores exactly the seeded registry |
| Relays.ProductionDefaultsNormalised | app/contexts/NostrContext.tsx:23-33 | no production default ends with a slash, so normalising leaves each unchanged |
| Relays.ProductionDefaultsDistinct | app/contexts/NostrContext.tsx:23-33 | the production defaults are seven different URLs |
| Relays.LogoutKeepsTrailingSlash | app/contexts/NostrContext.tsx:483-487 | a default with a trailing slash is restored as written, unlike seeding |
| Relays.KeyUrls | app/contexts/NostrContext.tsx:349-351 | every URL taken from the keys comes from a key starting with "wss://", normalised |
| Relays.ValueUrls | app/contexts/NostrContext.tsx:358-366 | every URL taken from the values comes from a string `url` field starting with "wss://", normalised |
| Relays.KeyUrlsComplete | app/contexts/NostrContext.tsx:349-351 | every key starting with "wss://" contributes its normalised form |
| Relays.ValueUrlsComplete | app/contexts/NostrContext.tsx:358-366 | every string `url` field starting with "wss://" contributes its normalised form |
| Relays.WssPresence | app/contexts/NostrContext.tsx:348-367 | the keys give a URL exactly when some key starts with "wss://", the values exactly when some `url` field does |
| Relays.PreferredUrls | app/contexts/NostrContext.tsx:348-367 | the Set is duplicate-free and empty exactly when neither a key nor a `url` field starts with "wss://" |
| Relays.CollectKeyUrls | app/contexts/NostrContext.tsx:348-351 | the key loop fills the Set with the distinct normalised "wss://" keys in first-seen order |
| Relays.CollectValueUrls | app/contexts/NostrContext.tsx:354-367 | the value loop fills the Set with the distinct normalised "wss://" `url` fields in first-seen order |
| Relays.CollectPreferredUrls | app/contexts/NostrContext.tsx:348-367 | the values are consulted only when the keys give no URL |
| Relays.PreferredUrlsShape | app/contexts/NostrContext.tsx:348-367 | the preferred URLs are distinct and normalised; each comes from a "wss://" key when one exists, and otherwise from a "wss://" `url` field |
| Relays.PreferredUrlsComplete | app/contexts/NostrContext.tsx:348-367 | conversely, every "wss://" key is among the preferred URLs, and so is every "wss://" `url` field when no key qualifies |
| Relays.PreferredList | app/contexts/NostrContext.tsx:374-383 | one entry per preferred URL, in order: the first existing entry with that normalised URL, or a fresh CONNECTING one |
| Relays.PreferredListKeys | app/contexts/NostrContext.tsx:374-386 | the replacement registry's keys are exactly the preferred URLs, in order |
| Relays.PreferredRegistryUniqueKeys | app/contexts/NostrContext.tsx:348-386 | the replacement registry has one entry per relay |
| Follows.ContactListFilter | app/contexts/NostrContext.tsx:402 | the contact-list filter asks for kind-3 events by the user's key only |
| Follows.NewestIsUnique | app/contexts/NostrContext.tsx:408-410 | the contact list that the descending sort puts first is one well-defined event |
| Follows.NewestIndex | app/contexts/NostrContext.tsx:408-410 | -1 exactly when there is no event; otherwise the event with the greatest timestamp, the earliest in fetch order on ties |
| Follows.CollectFollows | app/contexts/NostrContext.tsx:414-419 | the follow set is exactly the non-empty `tag[1]` of the 'p' tags |
| Follows.FollowSetFromFetch | app/contexts/NostrContext.tsx:404-430 | follows are those of the newest contact list, and empty when there is none or the fetch fails; no key is empty |
| Ranking.Tier | app/contexts/NostrContext.tsx:494-510 | the comparator's tiers: 0 exactly for the user's own key, 1 exactly for other followed keys |
| Ranking.RankOf | app/contexts/NostrContext.tsx:492-514 | the rank each comparator orders by: a tier in 0..2 under `sortSearchResults`, and a single key (minor part 0) under the other orders; `Compare` ties it to the comparators |
| Ranking.Compare | app/contexts/NostrContext.tsx:492-610 | each comparator of the source is non-positive exactly when the first event's rank is no later, and 0 exactly when the ranks are equal |
| Ranking.SortBy | app/contexts/NostrContext.tsx:492 | a sorted copy is a permutation of the input |
| Ranking.InsertSorted | app/contexts/NostrContext.tsx:492 | inserting into a sorted list keeps it sorted |
| Ranking.SortBySorted | app/contexts/NostrContext.tsx:492 | the output of the sort is ordered by rank |
| Ranking.SortByStable | app/contexts/NostrContext.tsx:492 | elements of equal rank keep their input order |
| Ranking.SortSearchResults | app/contexts/NostrContext.tsx:491-515 | a permutation with own notes, then followed notes, then the rest, newer first within a tier, a missing `created_at` counting as 0 |
| Ranking.OwnNotesFirst | app/contexts/NostrContext.tsx:494-499 | with a user present, no other author's note precedes one of the user's |
| Ranking.TierDominatesRecency | app/contexts/NostrContext.tsx:491-515 | own t=100, followed t=500 and other t=999 come out in that order, whatever the input order |
| Ranking.ApplySortMode | app/contexts/NostrContext.tsx:598-612 | a permutation: 'web-of-trust' by like count descending, 'recent' newest first, 'oldest' oldest first, any other or undefined mode keeps the fetched order |
| Ranking.WebOfTrustKeepsFetchOrderOnTies | app/contexts/NostrContext.tsx:598-604 | notes with equal like counts keep the relays' order |
| Ranking.SecondaryOrder | app/contexts/NostrContext.tsx:605-612 | for notes at t=100 and t=200, 'recent' puts 200 first and 'oldest' puts 100 first |
| Search.IsBlank | app/contexts/NostrContext.tsx:521 | `!query.trim()` holds exactly when the query is empty or all whitespace |
| Search.SearchFilter | app/contexts/NostrContext.tsx:546-562 | `{kinds: [1], search, limit: 100}`, with `authors: [pubkey]` exactly when scoped to one's own notes and a non-empty active key exists |
| Search.SettledResults | app/contexts/NostrContext.tsx:567-626 | any failure (the timeout included) gives no results; otherwise a permutation of the fetched events |
| Search.FormSearchKeepsFetchOrder | components/SearchComponent.tsx:25 | a search started by the form, with `sortBy` undefined, shows the notes in fetch order |
| Profiles.LoadedProfiles | app/contexts/NostrContext.tsx:664-671 | the cache entries a run of fetches adds: one per successfully fetched key, holding that key's user |
| Profiles.AuthorKeys | app/contexts/NostrContext.tsx:688-692 | the events' keys, none of them empty (the empty-key guard) |
| Profiles.AuthorKeysSound | app/contexts/NostrContext.tsx:688-692 | every author key is the key of some event |
| Profiles.AuthorKeysComplete | app/contexts/NostrContext.tsx:688-692 | every event with a non-empty key contributes it |
| Profiles.KeepNeeded | app/contexts/NostrContext.tsx:696-698 | the filter keeps exactly the uncached keys other than the user's own, and keeps them distinct |
| Profiles.KeepNeededAppend | app/contexts/NostrContext.tsx:696-698 | the filter keeps the keys' order: filtering a concatenation concatenates the filtered parts |
| Profiles.CollectAuthors | app/contexts/NostrContext.tsx:688-692 | the `forEach` fills the Set with the non-empty keys in first-seen order |
| Profiles.PlanProfileFetch | app/contexts/NostrContext.tsx:688-698 | the requested keys are distinct, and are exactly the non-empty author keys that are neither cached nor the user's own |
| Profiles.BatchAt | app/contexts/NostrContext.tsx:713-714 | `slice(i, i + 20)` is a non-empty run of at most 20 consecutive keys, shorter only at the end |
| Provider.AfterRelayFetch | app/contexts/NostrContext.tsx:338-395 | a rejection only clears the flag; a loaded list stores its JSON; a null list keeps the registry and the flag; otherwise the registry is replaced exactly when the flag is set |
| Provider.CustomRelaysIffPreferred | app/contexts/NostrContext.tsx:344-390 | the flag is set exactly when a loaded list has a key or a `url` field starting with "wss://", or a null list keeps it set; the replacement registry's keys are then the preferred URLs |
| Provider.RelayFetchKeepsUniqueKeys | app/contexts/NostrContext.tsx:338-395 | fetching the relay list never gives a relay two entries |
| Provider.ResetKeepsUniqueKeys | app/contexts/NostrContext.tsx:483-487 | a reset to defaults that are distinct once normalised keeps one entry per relay |
| Provider.DefaultListsDistinct | app/contexts/NostrContext.tsx:23-33 | both built-in default lists are distinct once normalised |
| Provider.NostrProvider.constructor | app/contexts/NostrContext.tsx:110-122 | the initial hook values: no NDK, no user, loading, no results, an empty registry, no follows, an empty cache |
| Provider.NostrProvider.Connect | app/contexts/NostrContext.tsx:269-280 | once connected, NDK is ready, the registry is the seeded defaults, the flag is clear and the invariant holds |
| Provider.NostrProvider.FetchUserRelays | app/contexts/NostrContext.tsx:323-396 | the relay fields become `AfterRelayFetch` of their old values, and the invariant is kept |
| Provider.NostrProvider.FetchUserContactList | app/contexts/NostrContext.tsx:399-431 | sends the kind-3 filter for the user and sets follows to the newest list's follow set |
| Provider.NostrProvider.SignIn | app/contexts/NostrContext.tsx:292-302 | the user is set and logged in, then the relay list and the contact list are applied |
| Provider.NostrProvider.AutoLogin | app/contexts/NostrContext.tsx:287-308 | with an extension that yields a user, a sign-in; otherwise nothing changes |
| Provider.NostrProvider.Initialize | app/contexts/NostrContext.tsx:221-318 | loading ends in every case; a failed connect changes nothing else; a successful one seeds the registry and then auto-logs in |
| Provider.NostrProvider.Login | app/contexts/NostrContext.tsx:434-466 | nothing without NDK; otherwise a sign-in when the extension yields a user, and nothing but the loading flag otherwise; loading ends |
| Provider.NostrProvider.Logout | app/contexts/NostrContext.tsx:468-488 | no user, logged out, no results, no follows, and the registry reset to the defaults as written; nothing else changes |
| Provider.NostrProvider.TrackConnectedRelays | app/contexts/NostrContext.tsx:189-217 | the registry becomes `TrackRelay` of the old one under the current flag, and the invariant is kept |
| Provider.NostrProvider.UpdateRelayStatus | app/contexts/NostrContext.tsx:725-746 | the registry becomes the exact-URL upsert of the old one |
| Provider.NostrProvider.BeginSearch | app/contexts/NostrContext.tsx:518-562 | a blank query clears the results only; without NDK nothing changes; otherwise searching starts with no results, the trimmed query and the search filter |
| Provider.NostrProvider.SettleSearch | app/contexts/NostrContext.tsx:567-630 | the stored results equal the returned ones, and searching ends |
| Provider.NostrProvider.SearchNostr | app/contexts/NostrContext.tsx:518-631 | `searchNostr` end to end: no results for a blank query or without NDK; otherwise the settled results, stored and returned, and searching has ended |
| Provider.NostrProvider.StopSearch | app/contexts/NostrContext.tsx:634-639 | only `isSearching` changes, to false |
| Provider.NostrProvider.StopThenSettle | app/contexts/NostrContext.tsx:533-535 | a stop between the start and the settling of a search does not keep its results out |
| Provider.NostrProvider.GetProfile | app/contexts/NostrContext.tsx:642-678 | null without NDK; the user for their own key; the cached user without a fetch; a fetched user is cached and returned; a failed fetch returns null and caches nothing |
| Provider.NostrProvider.FetchOne | app/contexts/NostrContext.tsx:715-717 | one `getProfile` on an uncached key that is not the user's adds that key's entry exactly when its fetch succeeds |
| Provider.NostrProvider.FetchBatch | app/contexts/NostrContext.tsx:715-717 | one batch adds exactly the entries of its successful fetches |
| Provider.NostrProvider.FetchInBatches | app/contexts/NostrContext.tsx:710-718 | the batches are consecutive, of 20 except the last, and together cover the requested keys once each in order |
| Provider.NostrProvider.FetchNextBatch | app/contexts/NostrContext.tsx:712-717 | the turn at `i` fetches `slice(i, i + 20)`, and the cache then holds the successful fetches of every key up to the batch's end |
| Provider.NostrProvider.RequestAuthorProfiles | app/contexts/NostrContext.tsx:687-718 | requests each distinct non-empty, uncached author key other than the user's, in batches; the cache grows by exactly the successful fetches and stays keyed by pubkey |
| Provider.NostrProvider.FetchProfilesForAuthors | app/contexts/NostrContext.tsx:681-722 | requests the planned keys in those batches; the cache grows by exactly the successful fetches |
| SearchResultsView.GetResultType | components/SearchResults.tsx:77-84 | YOUR_NOTE exactly for the present user's key, FOLLOWED_USER exactly for other followed keys, GLOBAL_NOTE otherwise |
| SearchResultsView.ResultTypeIsTier | components/SearchResults.tsx:77-84 | the three labels are the ranking comparator's tiers, in order |
| SearchResultsView.GetAuthorName | components/SearchResults.tsx:57-66 | a truthy display name, else a truthy name, else the first 8 npub characters, "..." and the last 4; "UNKNOWN_USER" when encoding the npub throws; never empty |
| SearchResultsView.GetTimeAgo | components/SearchResults.tsx:68-75 | "TIMESTAMP_UNKNOWN" for a missing or zero `created_at`, otherwise the formatter's text or "TIMESTAMP_ERROR" |
| SearchResultsView.UnknownTimestampSortsAsZero | components/SearchResults.tsx:70 | a card shows an unknown time exactly for the notes the sorts place at time 0 |
| SearchResultsView.HashtagChips | components/SearchResults.tsx:126-134 | every chip comes from a 't' tag, there are no more chips than tags, and each chip starts with '#' |
| SearchResultsView.HashtagChipsComplete | components/SearchResults.tsx:126-134 | every 't' tag gives a chip |
| SearchResultsView.HashtagChipsAppend | components/SearchResults.tsx:126-134 | the filter keeps tag order: the chips of joined tag lists are the joined chips |
| SearchResultsView.HashtagChipsSingle | components/SearchResults.tsx:126-134 | a single tag gives `#tag[1]` exactly when it is a 't' tag |
| SearchResultsView.ResultsView.OnSearchResultsChanged | components/SearchResults.tsx:14-21 | the shown results mirror the provider's, and the latch is set once they are non-empty |
| SearchResultsView.ResultsView.Replay | components/SearchResults.tsx:14-21 | after a run of updates the latch is `InitializedAfter` of them and the last update is shown |
| SearchResultsView.InitializedAfter | components/SearchResults.tsx:18-20 | the latch is set exactly when some update was non-empty |
| SearchResultsView.LatchNeverReverts | components/SearchResults.tsx:18-20 | once set, the latch stays set |
| SearchResultsView.SelectDisplay | components/SearchResults.tsx:23-55 | nothing when logged out; the loader exactly when searching with nothing shown; NO_RESULTS exactly when idle, empty and latched; the list, its count equal to its length, exactly when there are results |
| SearchResultsView.NoResultsOnlyAfterResults | components/SearchResults.tsx:42-51 | NO_RESULTS appears only after an earlier update brought results |
| RelayStatusView.FormatRelayUrl | components/RelayStatus.tsx:9-11 | a suffix of the URL, exactly 6 characters shorter when it begins with "wss://" in any case, and unchanged otherwise |
| RelayStatusView.UppercaseSchemeIsStripped | components/RelayStatus.tsx:10 | "WSS://a" becomes "a" |
| RelayStatusView.OnlyLeadingSchemeIsStripped | components/RelayStatus.tsx:10 | "wss://wss://a" becomes "wss://a", and "ws://a" is left unchanged |
| RelayStatusView.ChipColorOf | components/RelayStatus.tsx:30-45 | green exactly when connected, red exactly when not connected and in error, gray otherwise |
| RelayStatusView.RelayPanel | components/RelayStatus.tsx:13-54 | hidden exactly when logged out; the "Your Preferred Relays:" heading exactly with custom relays; "No relays connected" exactly for an empty registry; otherwise one chip per entry in order, with its formatted URL and colour |
| RelayStatusView.SeededPanelIsGray | components/RelayStatus.tsx:30-45 | a freshly seeded registry shows only gray chips |

## Left out

- NDK, the relays, the NIP-07 extension, date-fns and `JSON.stringify` are not part of
  this model. What they return or throw is a parameter.
- The relay-pool listener wiring (app/contexts/NostrContext.tsx:253-266) is left out;
  `TrackConnectedRelays` is the transition those listeners call.
- React closures and batching are left out. A function that reads state through a
  stale closure is modelled as reading the current field. Examples:
  - `isUsingCustomRelays` in the pool listeners;
  - `relays` in `fetchUserRelays`;
  - `profileCache` and `user` in `getProfile`.
- The development build's branch of `fetchUserRelays` (app/contexts/NostrContext.tsx:326-336)
  is left out. The defaults are a parameter.
- localStorage persistence of the login (app/contexts/NostrContext.tsx:165-186) is left
  out, and so are the URL `?q` effects (app/contexts/NostrContext.tsx:128-157).
  - `wasLoggedIn` does not affect the auto-login condition, which reduces to "an
    extension is present".
- The 10-second `Promise.race` timeout is the `SearchFailed` outcome.
- `searchNostr`'s `!events` branch is left out: `fetchEvents` resolves to a Set, so it
  cannot be taken.
- Concurrency is left out:
  - the `Promise.all` inside a profile batch runs its requests one after another here;
  - concurrent searches are not modelled.
- The `AbortController` is left out. Its signal reaches no fetch, so it has no effect.
- `activeSubscription` in `logout` is left out. It is never set, so its `stop()` branch
  cannot run.
- `setCurrentQuery`, exported as a plain setter, is left out. `isLoading` is modelled
  only where login and initialisation set it.
- The order of `Object.keys` and `Object.values` over the relay list is an input: the
  list of (key, value) properties in enumeration order.
- Ranking.ApplySortMode: a missing `created_at` counts as 0. The source's `created_at!`
  subtraction gives NaN there, and the resulting order is implementation-defined.
- Follows.NewestIndex: a missing `created_at` counts as 0, for the same reason.
- Ranking.SortSearchResults: its unused `sortBy` parameter is not modelled. The user
  and the follow set are explicit parameters.
- Relay state: `RelayState.Errored` stands for whatever status compares equal to
  `'error'`. Whether NDK's status enum ever produces such a value is outside this model.
- SearchResultsView.GetAuthorName: `event.author` is an optional user, and an npub whose
  encoding throws is `None`. How NDK builds the author is outside this model.
- JSX and CSS are left out: the card highlight classes, the animation delays, `alert`
  and console logging.
- `fetchProfilesForAuthors`, `updateRelayStatus` and `sortSearchResults` are never
  called in this repository. They are modelled as written.
- components/LoginButton.tsx, components/SearchComponent.tsx (except its one-argument
  call), components/MainContent.tsx and the files under app/ other than the provider
  are layout and are not part of this model.
