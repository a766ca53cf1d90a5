/**
 * The search request of `searchNostr` (app/contexts/NostrContext.tsx): the blank-query
 * guard, the NIP-01 filter carrying the NIP-50 `search` field, and what the results
 * become once the relays answer, fail or time out.
 */
module Search {
  import opened Wrappers
  import opened Text
  import opened Events
  import opened Ranking

  /** Kind-1 events are text notes. */
  const TextNoteKind: int := 1
  const SearchLimit: int := 100

  /** `!query.trim()`: the query is empty or all whitespace. */
  predicate IsBlank(query: string): (b: bool)
    ensures b <==> forall i :: 0 <= i < |query| ==> IsWhitespace(query[i])
  {
    Trim(query) == []
  }

  /**
   * `{kinds: [1], search, limit: 100}`, plus `authors: [pubkey]` only when the search
   * is scoped to the user's own notes and NDK knows an active user with a non-empty key.
   */
  function SearchFilter(searchQuery: string, showOnlyMyStuff: bool, activePubkey: Option<string>): (f: Filter)
    ensures f.kinds == [TextNoteKind] && f.search == Some(searchQuery) && f.limit == Some(SearchLimit)
    ensures f.authors.Some? <==> showOnlyMyStuff && activePubkey.Some? && activePubkey.value != ""
    ensures f.authors.Some? ==> f.authors.value == [activePubkey.value]
  {
    var scope := if showOnlyMyStuff then activePubkey else None;
    var authors := if scope.Some? && scope.value != "" then Some([scope.value]) else None;
    Filter([TextNoteKind], authors, Some(searchQuery), Some(SearchLimit))
  }

  /**
   * What `Promise.race([ndk.fetchEvents(filter), timeout])` settles to: the fetched
   * events in `Array.from` order, or a rejection (the 10-second timeout or a fetch error).
   */
  datatype SearchFetch = SearchFailed | SearchFetched(events: seq<Event>)

  /**
   * The array `searchNostr` stores and returns once the fetch settles: empty on any
   * error, otherwise the fetched events in the order the sort mode gives.
   */
  function SettledResults(fetch: SearchFetch, sortBy: Option<string>): (r: seq<Event>)
    ensures fetch.SearchFailed? ==> r == []
    ensures fetch.SearchFetched? ==> multiset(r) == multiset(fetch.events)
  {
    match fetch
    case SearchFailed => []
    case SearchFetched(events) => if |events| == 0 then [] else ApplySortMode(events, sortBy)
  }

  /**
   * The search form calls `searchNostr(query)` with `sortBy` undefined: no sort branch
   * runs and the notes are shown in the order the relays returned them.
   */
  lemma FormSearchKeepsFetchOrder(events: seq<Event>)
    ensures SettledResults(SearchFetched(events), None) == events
  {
  }
}
