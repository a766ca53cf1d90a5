/**
 * The provider's state (app/contexts/NostrContext.tsx, `NostrProviderContent`): the
 * React state hooks become the fields of one object, and every `setX` the fields a
 * method modifies. What the network, the NIP-07 extension and NDK answer is passed in.
 */
module Provider {
  import opened Wrappers
  import opened Text
  import opened Collections
  import opened Events
  import opened Relays
  import opened Follows
  import opened Search
  import opened Profiles

  /** What `getRelayListForUser` does: it rejects, or yields a list (maybe null) and its JSON text. */
  datatype RelayListFetch =
    | RelayListFailed
    | RelayListLoaded(list: Option<seq<RelayListProperty>>, json: string)

  /** The three fields `fetchUserRelays` may write. */
  datatype RelaySettings = RelaySettings(relays: seq<RelayEntry>, custom: bool, raw: Option<string>)

  /**
   * The effect of `fetchUserRelays` (production build): a rejection only clears the
   * custom-relay flag; a loaded list is stored as JSON and, when it names "wss://" URLs,
   * replaces the registry and sets the flag, and otherwise only clears the flag.
   */
  function AfterRelayFetch(s: RelaySettings, fetch: RelayListFetch): (t: RelaySettings)
    ensures fetch.RelayListFailed? ==> t == s.(custom := false)
    ensures fetch.RelayListLoaded? ==> t.raw == Some(fetch.json)
    ensures fetch.RelayListLoaded? && fetch.list.None? ==> t.relays == s.relays && t.custom == s.custom
    ensures fetch.RelayListLoaded? && fetch.list.Some? ==>
              t.relays == if t.custom then PreferredList(s.relays, PreferredUrls(fetch.list.value)) else s.relays
  {
    match fetch
    case RelayListFailed => s.(custom := false)
    case RelayListLoaded(None, json) => s.(raw := Some(json))
    case RelayListLoaded(Some(props), json) =>
      var urls := PreferredUrls(props);
      if |urls| > 0 then RelaySettings(PreferredList(s.relays, urls), true, Some(json))
      else RelaySettings(s.relays, false, Some(json))
  }

  /**
   * The custom-relay flag ends up set exactly when a loaded relay list has a key, or a
   * `url` field, starting with "wss://", or when a null list leaves an already set flag
   * alone; after a replacement the registry holds exactly the preferred URLs, in order.
   */
  lemma CustomRelaysIffPreferred(s: RelaySettings, fetch: RelayListFetch)
    ensures var t := AfterRelayFetch(s, fetch);
            && (t.custom <==>
                  fetch.RelayListLoaded? &&
                  (if fetch.list.Some? then HasWssKey(fetch.list.value) || HasWssUrl(fetch.list.value) else s.custom))
            && (fetch.RelayListLoaded? && fetch.list.Some? && t.custom ==>
                  Keys(t.relays) == PreferredUrls(fetch.list.value))
  {
    if fetch.RelayListLoaded? && fetch.list.Some? {
      PreferredUrlsShape(fetch.list.value);
      PreferredListKeys(s.relays, PreferredUrls(fetch.list.value));
    }
  }

  /** Whatever the answer, `fetchUserRelays` never gives one relay two entries. */
  lemma RelayFetchKeepsUniqueKeys(s: RelaySettings, fetch: RelayListFetch)
    requires UniqueKeys(s.relays)
    ensures UniqueKeys(AfterRelayFetch(s, fetch).relays)
  {
    if fetch.RelayListLoaded? && fetch.list.Some? {
      PreferredRegistryUniqueKeys(s.relays, fetch.list.value);
    }
  }

  /** Default URLs that are distinct once normalised give a reset registry with one entry per relay. */
  lemma ResetKeepsUniqueKeys(defaults: seq<string>)
    requires Distinct(StripAll(defaults))
    ensures UniqueKeys(FreshEntries(defaults))
  {
    assert Keys(FreshEntries(defaults)) == StripAll(defaults);
  }

  /** Both built-in default lists are distinct once normalised. */
  lemma DefaultListsDistinct()
    ensures Distinct(StripAll(ProductionDefaults)) && Distinct(StripAll(DevelopmentDefaults))
  {
    ProductionLogoutMatchesSeed();
    SeededEntriesShape(ProductionDefaults);
    assert Keys(SeededEntries(ProductionDefaults)) == StripAll(ProductionDefaults);
  }

  /** A snapshot of the sign-in related fields of the provider. */
  datatype SessionState = SessionState(user: Option<NUser>, isLoggedIn: bool, relays: seq<RelayEntry>, custom: bool,
                                       raw: Option<string>, follows: set<string>)

  /** The key of the logged-in user, if any. */
  function SelfKey(user: Option<NUser>): (k: Option<string>)
    ensures k.Some? <==> user.Some?
    ensures k.Some? ==> k.value == user.value.pubkey
  {
    if user.Some? then Some(user.value.pubkey) else None
  }

  class NostrProvider {
    var ndkReady: bool
    var user: Option<NUser>
    var isLoggedIn: bool
    var isLoading: bool
    var searchResults: seq<Event>
    var isSearching: bool
    var relays: seq<RelayEntry>
    var rawRelayList: Option<string>
    var isUsingCustomRelays: bool
    var userFollows: set<string>
    var profileCache: map<string, NUser>
    var currentQuery: string

    /** The registry invariant: no relay has two entries. */
    predicate RegistryValid()
      reads this
    {
      UniqueKeys(relays)
    }

    /** The fields a sign-in or a relay-list fetch may write. */
    function Session(): SessionState
      reads this
    {
      SessionState(user, isLoggedIn, relays, isUsingCustomRelays, rawRelayList, userFollows)
    }

    /** The cache invariant: every cached user is filed under its own key. */
    predicate CacheValid()
      reads this
    {
      forall k :: k in profileCache ==> profileCache[k].pubkey == k
    }

    /** The initial values of the state hooks. */
    constructor ()
      ensures !ndkReady && user == None && !isLoggedIn && isLoading
      ensures searchResults == [] && !isSearching && relays == [] && rawRelayList == None
      ensures !isUsingCustomRelays && userFollows == {} && profileCache == map[] && currentQuery == ""
      ensures RegistryValid() && CacheValid()
    {
      ndkReady := false;
      user := None;
      isLoggedIn := false;
      isLoading := true;
      searchResults := [];
      isSearching := false;
      relays := [];
      rawRelayList := None;
      isUsingCustomRelays := false;
      userFollows := {};
      profileCache := map[];
      currentQuery := "";
    }

    /**
     * The mount effect once `ndk.connect()` resolved: NDK is ready and the registry is
     * seeded with the default URLs, normalised and deduplicated.
     */
    method Connect(defaults: seq<string>)
      modifies this`ndkReady, this`relays, this`isUsingCustomRelays
      ensures ndkReady && !isUsingCustomRelays
      ensures relays == SeededEntries(defaults)
      ensures RegistryValid()
    {
      ndkReady := true;
      relays := SeededEntries(defaults);
      SeededEntriesShape(defaults);
      isUsingCustomRelays := false;
    }

    /** `fetchUserRelays`: the relay list decides the registry and the custom-relay flag. */
    method FetchUserRelays(fetch: RelayListFetch)
      modifies this`relays, this`isUsingCustomRelays, this`rawRelayList
      ensures RelaySettings(relays, isUsingCustomRelays, rawRelayList)
           == AfterRelayFetch(RelaySettings(old(relays), old(isUsingCustomRelays), old(rawRelayList)), fetch)
      ensures old(RegistryValid()) ==> RegistryValid()
    {
      if RegistryValid() {
        RelayFetchKeepsUniqueKeys(RelaySettings(relays, isUsingCustomRelays, rawRelayList), fetch);
      }
      match fetch {
        case RelayListFailed =>
          isUsingCustomRelays := false;
        case RelayListLoaded(list, json) =>
          rawRelayList := Some(json);
          if list.Some? {
            var urls := CollectPreferredUrls(list.value);
            if |urls| > 0 {
              isUsingCustomRelays := true;
              relays := PreferredList(relays, urls);
            } else {
              isUsingCustomRelays := false;
            }
          }
      }
    }

    /** `fetchUserContactList`: the follow set of the newest kind-3 event, empty when there is none. */
    method FetchUserContactList(pubkey: string, fetch: ContactListFetch) returns (filter: Filter)
      modifies this`userFollows
      ensures filter == ContactListFilter(pubkey)
      ensures IsFollowSetOf(fetch, userFollows)
      ensures forall u :: u in userFollows ==> u != ""
    {
      filter := ContactListFilter(pubkey);
      userFollows := FollowSetFromFetch(fetch);
    }

    /** A successful NIP-07 sign-in, shared by the auto-login and `login`. */
    method SignIn(signed: NUser, relayFetch: RelayListFetch, contactFetch: ContactListFetch)
      modifies this`user, this`isLoggedIn, this`relays, this`isUsingCustomRelays, this`rawRelayList, this`userFollows
      ensures user == Some(signed) && isLoggedIn
      ensures RelaySettings(relays, isUsingCustomRelays, rawRelayList)
           == AfterRelayFetch(RelaySettings(old(relays), old(isUsingCustomRelays), old(rawRelayList)), relayFetch)
      ensures IsFollowSetOf(contactFetch, userFollows)
      ensures old(RegistryValid()) ==> RegistryValid()
    {
      user := Some(signed);
      isLoggedIn := true;
      FetchUserRelays(relayFetch);
      var filter := FetchUserContactList(signed.pubkey, contactFetch);
    }

    /**
     * The mount effect: connect, seed the registry, sign in through the extension when
     * one is present (`signed` is what `signer.user()` yields, None when it rejects),
     * and finish loading whatever happened.
     */
    method Initialize(defaults: seq<string>, connects: bool, extension: bool, signed: Option<NUser>,
                      relayFetch: RelayListFetch, contactFetch: ContactListFetch)
      modifies this`ndkReady, this`user, this`isLoggedIn, this`isLoading, this`relays,
               this`isUsingCustomRelays, this`rawRelayList, this`userFollows
      ensures !isLoading
      ensures !connects ==> ndkReady == old(ndkReady) && Session() == old(Session())
      ensures connects ==> ndkReady
      ensures connects && !(extension && signed.Some?) ==>
                Session() == old(Session()).(relays := SeededEntries(defaults), custom := false)
      ensures connects && extension && signed.Some? ==>
                && user == signed && isLoggedIn && IsFollowSetOf(contactFetch, userFollows)
                && RelaySettings(relays, isUsingCustomRelays, rawRelayList)
                   == AfterRelayFetch(RelaySettings(SeededEntries(defaults), false, old(rawRelayList)), relayFetch)
      ensures connects || old(RegistryValid()) ==> RegistryValid()
    {
      if connects {
        Connect(defaults);
        AutoLogin(extension, signed, relayFetch, contactFetch);
      }
      isLoading := false;
    }

    /** The auto-login of the mount effect, run once NDK is connected and the registry seeded. */
    method AutoLogin(extension: bool, signed: Option<NUser>, relayFetch: RelayListFetch, contactFetch: ContactListFetch)
      modifies this`user, this`isLoggedIn, this`relays, this`isUsingCustomRelays, this`rawRelayList, this`userFollows
      ensures !(extension && signed.Some?) ==> Session() == old(Session())
      ensures extension && signed.Some? ==>
                && user == signed && isLoggedIn && IsFollowSetOf(contactFetch, userFollows)
                && RelaySettings(relays, isUsingCustomRelays, rawRelayList)
                   == AfterRelayFetch(RelaySettings(old(relays), old(isUsingCustomRelays), old(rawRelayList)), relayFetch)
      ensures old(RegistryValid()) ==> RegistryValid()
    {
      if extension && signed.Some? {
        SignIn(signed.value, relayFetch, contactFetch);
      }
    }

    /**
     * `login`: nothing without NDK; otherwise sign in through the extension, or (no
     * extension, or the signer rejects) change nothing but the loading flag.
     */
    method Login(extension: bool, signed: Option<NUser>, relayFetch: RelayListFetch, contactFetch: ContactListFetch)
      modifies this`user, this`isLoggedIn, this`isLoading, this`relays, this`isUsingCustomRelays,
               this`rawRelayList, this`userFollows
      ensures !ndkReady ==> isLoading == old(isLoading)
      ensures ndkReady ==> !isLoading
      ensures !(ndkReady && extension && signed.Some?) ==> Session() == old(Session())
      ensures ndkReady && extension && signed.Some? ==>
                && user == signed && isLoggedIn && IsFollowSetOf(contactFetch, userFollows)
                && RelaySettings(relays, isUsingCustomRelays, rawRelayList)
                   == AfterRelayFetch(RelaySettings(old(relays), old(isUsingCustomRelays), old(rawRelayList)), relayFetch)
      ensures old(RegistryValid()) ==> RegistryValid()
    {
      if !ndkReady {
        return;
      }
      isLoading := true;
      if extension && signed.Some? {
        SignIn(signed.value, relayFetch, contactFetch);
      }
      isLoading := false;
    }

    /**
     * `logout`: signed out, no results, no follows, and the registry reset to the default
     * URLs as written. The custom-relay flag, the raw relay list and the profile cache stay.
     */
    method Logout(defaults: seq<string>)
      modifies this`user, this`isLoggedIn, this`searchResults, this`userFollows, this`relays
      ensures user == None && !isLoggedIn && searchResults == [] && userFollows == {}
      ensures relays == FreshEntries(defaults)
      ensures Distinct(StripAll(defaults)) ==> RegistryValid()
    {
      user := None;
      isLoggedIn := false;
      searchResults := [];
      userFollows := {};
      relays := FreshEntries(defaults);
      if Distinct(StripAll(defaults)) {
        ResetKeepsUniqueKeys(defaults);
      }
    }

    /** `trackConnectedRelays` with the flag as the provider currently holds it. */
    method TrackConnectedRelays(url: string, connected: bool, status: RelayState)
      modifies this`relays
      ensures relays == TrackRelay(old(relays), isUsingCustomRelays, url, connected, status)
      ensures old(RegistryValid()) ==> RegistryValid()
    {
      if old(RegistryValid()) {
        TrackPreservesUniqueKeys(relays, isUsingCustomRelays, url, connected, status);
      }
      relays := TrackRelay(relays, isUsingCustomRelays, url, connected, status);
    }

    /** `updateRelayStatus`: the exact-URL upsert. It can break the registry invariant. */
    method UpdateRelayStatus(url: string, status: RelayState)
      modifies this`relays
      ensures relays == Relays.UpdateRelayStatus(old(relays), url, status)
    {
      relays := Relays.UpdateRelayStatus(relays, url, status);
    }

    /**
     * The part of `searchNostr` before the fetch: a blank query clears the results; without
     * NDK nothing happens; otherwise the search starts and the filter to send is returned.
     */
    method BeginSearch(query: string, showOnlyMyStuff: bool, activePubkey: Option<string>)
      returns (filter: Option<Filter>)
      modifies this`searchResults, this`isSearching, this`currentQuery
      ensures filter.Some? <==> !IsBlank(query) && ndkReady
      ensures IsBlank(query) ==>
                searchResults == [] && isSearching == old(isSearching) && currentQuery == old(currentQuery)
      ensures !IsBlank(query) && !ndkReady ==>
                searchResults == old(searchResults) && isSearching == old(isSearching) && currentQuery == old(currentQuery)
      ensures filter.Some? ==>
                && isSearching && searchResults == [] && currentQuery == Trim(query)
                && filter.value == SearchFilter(Trim(query), showOnlyMyStuff, activePubkey)
    {
      if IsBlank(query) {
        searchResults := [];
        return None;
      }
      if !ndkReady {
        return None;
      }
      isSearching := true;
      searchResults := [];
      var searchQuery := Trim(query);
      currentQuery := searchQuery;
      filter := Some(SearchFilter(searchQuery, showOnlyMyStuff, activePubkey));
    }

    /** The part of `searchNostr` after the fetch settles: store the (sorted) results and stop searching. */
    method SettleSearch(fetch: SearchFetch, sortBy: Option<string>) returns (results: seq<Event>)
      modifies this`searchResults, this`isSearching
      ensures results == SettledResults(fetch, sortBy) && searchResults == results && !isSearching
    {
      results := SettledResults(fetch, sortBy);
      searchResults := results;
      isSearching := false;
    }

    /** `searchNostr` from start to end; `fetch` is how the race between the fetch and the timeout ends. */
    method SearchNostr(query: string, sortBy: Option<string>, showOnlyMyStuff: bool, activePubkey: Option<string>,
                       fetch: SearchFetch)
      returns (filter: Option<Filter>, results: seq<Event>)
      modifies this`searchResults, this`isSearching, this`currentQuery
      ensures filter.None? ==> results == [] && isSearching == old(isSearching) && currentQuery == old(currentQuery)
      ensures IsBlank(query) ==> filter.None? && searchResults == []
      ensures !IsBlank(query) && !ndkReady ==> filter.None? && searchResults == old(searchResults)
      ensures !IsBlank(query) && ndkReady ==>
                && filter == Some(SearchFilter(Trim(query), showOnlyMyStuff, activePubkey))
                && currentQuery == Trim(query) && !isSearching
                && results == SettledResults(fetch, sortBy) && searchResults == results
    {
      filter := BeginSearch(query, showOnlyMyStuff, activePubkey);
      if filter.None? {
        return filter, [];
      }
      results := SettleSearch(fetch, sortBy);
    }

    /** `stopSearch`: only the searching flag drops; the abort signal reaches no fetch. */
    method StopSearch()
      modifies this`isSearching
      ensures !isSearching
    {
      isSearching := false;
    }

    /**
     * Stopping a search does not cancel it: when the fetch settles afterwards, its results
     * are stored all the same.
     */
    method StopThenSettle(query: string, sortBy: Option<string>, showOnlyMyStuff: bool, activePubkey: Option<string>,
                          fetch: SearchFetch)
      requires ndkReady && !IsBlank(query)
      modifies this`searchResults, this`isSearching, this`currentQuery
      ensures searchResults == SettledResults(fetch, sortBy) && !isSearching
    {
      var filter := BeginSearch(query, showOnlyMyStuff, activePubkey);
      StopSearch();
      var results := SettleSearch(fetch, sortBy);
    }

    /**
     * `getProfile`: null without NDK; the logged-in user for their own key; the cached
     * user for a cached key; otherwise the fetched user, now cached, or null when the fetch throws.
     */
    method GetProfile(pubkey: string, fetch: ProfileFetch) returns (r: Option<NUser>)
      modifies this`profileCache
      ensures !ndkReady ==> r == None && profileCache == old(profileCache)
      ensures ndkReady && user.Some? && user.value.pubkey == pubkey ==> r == user && profileCache == old(profileCache)
      ensures ndkReady && SelfKey(user) != Some(pubkey) && pubkey in old(profileCache) ==>
                r == Some(old(profileCache)[pubkey]) && profileCache == old(profileCache)
      ensures ndkReady && SelfKey(user) != Some(pubkey) && pubkey !in old(profileCache) ==>
                if fetch.ProfileLoaded?
                then r == Some(FetchedUser(pubkey, fetch)) && profileCache == old(profileCache)[pubkey := r.value]
                else r == None && profileCache == old(profileCache)
      ensures old(CacheValid()) ==> CacheValid() && (r.Some? ==> r.value.pubkey == pubkey)
    {
      if !ndkReady {
        return None;
      }
      if user.Some? && user.value.pubkey == pubkey {
        return user;
      }
      if pubkey in profileCache {
        return Some(profileCache[pubkey]);
      }
      if fetch.ProfileFailed? {
        return None;
      }
      var fetched := FetchedUser(pubkey, fetch);
      profileCache := profileCache[pubkey := fetched];
      r := Some(fetched);
    }

    /** One `getProfile` of the batch, for a key that is neither cached nor the user's own. */
    method FetchOne(key: string, fetchFor: string -> ProfileFetch, ghost base: map<string, NUser>,
                    ghost before: seq<string>)
      requires ndkReady && SelfKey(user) != Some(key) && key !in base && key !in before
      requires profileCache == base + LoadedProfiles(before, fetchFor)
      modifies this`profileCache
      ensures profileCache == base + LoadedProfiles(before + [key], fetchFor)
    {
      CacheStep(base, before, key, fetchFor);
      ghost var cache := profileCache;
      var r := GetProfile(key, fetchFor(key));
      CacheGrows(base, before, key, fetchFor, cache, profileCache);
    }

    /**
     * The `Promise.all` over one batch: every key of the batch is requested through
     * `getProfile`, one after the other.
     */
    method FetchBatch(batch: seq<string>, fetchFor: string -> ProfileFetch, ghost base: map<string, NUser>,
                      ghost before: seq<string>)
      requires ndkReady && Distinct(batch)
      requires profileCache == base + LoadedProfiles(before, fetchFor)
      requires forall j :: 0 <= j < |batch| ==> batch[j] !in base && SelfKey(user) != Some(batch[j]) && batch[j] !in before
      modifies this`profileCache
      ensures profileCache == base + LoadedProfiles(before + batch, fetchFor)
    {
      var k := 0;
      while k < |batch|
        invariant 0 <= k <= |batch|
        invariant profileCache == base + LoadedProfiles(before + batch[..k], fetchFor)
      {
        var key := batch[k];
        ghost var prefix := before + batch[..k];
        assert key !in batch[..k];
        assert key !in prefix;
        assert before + batch[..k + 1] == prefix + [key];
        FetchOne(key, fetchFor, base, prefix);
        k := k + 1;
      }
      assert batch[..k] == batch;
    }

    /**
     * `fetchProfilesForAuthors`: plan the keys to request, then request them in batches of
     * 20, in order; each successful fetch adds one cache entry.
     */
    method FetchProfilesForAuthors(events: seq<Event>, fetchFor: string -> ProfileFetch)
      returns (requested: seq<string>, batches: seq<seq<string>>)
      modifies this`profileCache
      ensures !ndkReady || events == [] ==> requested == [] && profileCache == old(profileCache)
      ensures ndkReady && events != [] ==>
                requested == KeepNeeded(Dedup(AuthorKeys(events)), old(profileCache).Keys, SelfKey(user))
      ensures Flatten(batches) == requested
      ensures Batched(batches)
      ensures profileCache == old(profileCache) + LoadedProfiles(requested, fetchFor)
      ensures old(CacheValid()) ==> CacheValid()
    {
      if !ndkReady || |events| == 0 {
        return [], [];
      }
      requested, batches := RequestAuthorProfiles(events, fetchFor);
    }

    /** The planning and batching that `fetchProfilesForAuthors` does once NDK is ready and there are events. */
    method RequestAuthorProfiles(events: seq<Event>, fetchFor: string -> ProfileFetch)
      returns (requested: seq<string>, batches: seq<seq<string>>)
      requires ndkReady
      modifies this`profileCache
      ensures requested == KeepNeeded(Dedup(AuthorKeys(events)), old(profileCache).Keys, SelfKey(user))
      ensures Flatten(batches) == requested
      ensures Batched(batches)
      ensures profileCache == old(profileCache) + LoadedProfiles(requested, fetchFor)
      ensures old(CacheValid()) ==> CacheValid()
    {
      var self := SelfKey(user);
      requested := PlanProfileFetch(events, profileCache.Keys, self);
      forall j | 0 <= j < |requested| ensures requested[j] !in profileCache && SelfKey(user) != Some(requested[j]) {
        assert NeedsFetch(requested[j], profileCache.Keys, self);
      }
      batches := FetchInBatches(requested, fetchFor);
    }

    /** One turn of the batching loop: the next `slice(i, i + batchSize)`, fetched. */
    method FetchNextBatch(requested: seq<string>, i: nat, fetchFor: string -> ProfileFetch, ghost base: map<string, NUser>)
      returns (batch: seq<string>)
      requires ndkReady && Distinct(requested) && i < |requested|
      requires forall j :: 0 <= j < |requested| ==> requested[j] !in base && SelfKey(user) != Some(requested[j])
      requires profileCache == base + LoadedProfiles(requested[..i], fetchFor)
      modifies this`profileCache
      ensures batch == BatchAt(requested, i)
      ensures profileCache == base + LoadedProfiles(requested[..i + |batch|], fetchFor)
    {
      batch := BatchAt(requested, i);
      BatchUnseen(requested, i, batch);
      FetchBatch(batch, fetchFor, base, requested[..i]);
      assert requested[..i] + batch == requested[..i + |batch|];
    }

    /** The batching loop: `for (let i = 0; i < authors.length; i += batchSize)` over `slice(i, i + batchSize)`. */
    method FetchInBatches(requested: seq<string>, fetchFor: string -> ProfileFetch) returns (batches: seq<seq<string>>)
      requires ndkReady && Distinct(requested)
      requires forall j :: 0 <= j < |requested| ==> requested[j] !in profileCache && SelfKey(user) != Some(requested[j])
      modifies this`profileCache
      ensures Flatten(batches) == requested
      ensures Batched(batches)
      ensures profileCache == old(profileCache) + LoadedProfiles(requested, fetchFor)
      ensures old(CacheValid()) ==> CacheValid()
    {
      batches := [];
      var i := 0;
      ghost var done := 0;
      while i < |requested|
        invariant 0 <= done <= |requested| && 0 <= i
        invariant i < |requested| ==> done == i && forall b :: 0 <= b < |batches| ==> |batches[b]| == BatchSize
        invariant i >= |requested| ==> done == |requested|
        invariant Flatten(batches) == requested[..done]
        invariant Batched(batches)
        invariant profileCache == old(profileCache) + LoadedProfiles(requested[..done], fetchFor)
      {
        var batch := FetchNextBatch(requested, i, fetchFor, old(profileCache));
        BatchStep(requested, i, batches, batch);
        batches := batches + [batch];
        done := i + |batch|;
        i := i + BatchSize;
      }
      assert requested[..done] == requested;
      if old(CacheValid()) {
        LoadedKeepsKeys(old(profileCache), requested, fetchFor);
      }
    }
  }
}
