/**
 * The result list (components/SearchResults.tsx): the label of each result, the author
 * and time shown on its card, its hashtag chips, and which of the four views is shown.
 */
module SearchResultsView {
  import opened Wrappers
  import opened Events
  import opened Ranking

  /** The label `getResultType` puts on a result. */
  datatype ResultType = YourNote | FollowedUser | GlobalNote

  function ResultTypeLabel(t: ResultType): string {
    match t
    case YourNote => "YOUR_NOTE"
    case FollowedUser => "FOLLOWED_USER"
    case GlobalNote => "GLOBAL_NOTE"
  }

  /**
   * `getResultType`: the user's own note when a user is present and the keys match,
   * otherwise a followed author's note, otherwise a global note.
   */
  function GetResultType(pubkey: string, self: Option<string>, follows: set<string>): (t: ResultType)
    ensures t == YourNote <==> self == Some(pubkey)
    ensures t == FollowedUser <==> self != Some(pubkey) && pubkey in follows
    ensures t == GlobalNote <==> self != Some(pubkey) && pubkey !in follows
  {
    if self.Some? && pubkey == self.value then YourNote
    else if pubkey in follows then FollowedUser
    else GlobalNote
  }

  /** The labels are the tiers of the ranking comparator, in the same order. */
  lemma ResultTypeIsTier(pubkey: string, self: Option<string>, follows: set<string>)
    ensures var t := GetResultType(pubkey, self, follows);
            Tier(pubkey, self, follows) == match t case YourNote => 0 case FollowedUser => 1 case GlobalNote => 2
  {
  }

  /** A truthy string field: present and non-empty. */
  predicate Truthy(s: Option<string>) {
    s.Some? && s.value != ""
  }

  /** `npub.slice(0, 8)`: the first eight characters, or all of a shorter string. */
  function Head8(s: string): (r: string)
    ensures |r| == if |s| < 8 then |s| else 8
    ensures r == s[..|r|]
  {
    if |s| < 8 then s else s[..8]
  }

  /** `npub.slice(-4)`: the last four characters, or all of a shorter string. */
  function Last4(s: string): (r: string)
    ensures |r| == if |s| < 4 then |s| else 4
    ensures r == s[|s| - |r|..]
  {
    if |s| < 4 then s else s[|s| - 4..]
  }

  /**
   * `getAuthorName` for an event whose `author` is `author`: the profile's display name,
   * else its name, else the shortened npub. Without an author both halves are the string
   * "undefined"; when encoding the npub throws the name is "UNKNOWN_USER".
   */
  function GetAuthorName(author: Option<NUser>): (r: string)
    ensures author.Some? && author.value.profile.Some? && Truthy(author.value.profile.value.displayName) ==>
              r == author.value.profile.value.displayName.value
    ensures author.Some? && author.value.profile.Some? && !Truthy(author.value.profile.value.displayName)
            && Truthy(author.value.profile.value.name) ==>
              r == author.value.profile.value.name.value
    ensures author.None? ==> r == "undefined...undefined"
    ensures author.Some? && !(author.value.profile.Some? &&
              (Truthy(author.value.profile.value.displayName) || Truthy(author.value.profile.value.name))) ==>
              if author.value.npub.None? then r == "UNKNOWN_USER"
              else
                var npub := author.value.npub.value;
                && r == Head8(npub) + "..." + Last4(npub)
                && (|npub| >= 8 ==> |r| == 15 && r[..8] == npub[..8] && r[11..] == npub[|npub| - 4..])
    ensures r != ""
  {
    match author
    case None => "undefined" + "..." + "undefined"
    case Some(u) =>
      if u.profile.Some? && Truthy(u.profile.value.displayName) then u.profile.value.displayName.value
      else if u.profile.Some? && Truthy(u.profile.value.name) then u.profile.value.name.value
      else if u.npub.None? then "UNKNOWN_USER"
      else Head8(u.npub.value) + "..." + Last4(u.npub.value)
  }

  /**
   * `getTimeAgo`: "TIMESTAMP_UNKNOWN" for a falsy `created_at` (undefined or 0), otherwise
   * the formatter's text (`formatted`), or "TIMESTAMP_ERROR" when the formatter throws.
   */
  function GetTimeAgo(createdAt: Option<int>, formatted: Option<string>): (r: string)
    ensures r == "TIMESTAMP_UNKNOWN" <==> createdAt.None? || createdAt.value == 0 || formatted == Some("TIMESTAMP_UNKNOWN")
    ensures createdAt.Some? && createdAt.value != 0 ==>
              r == if formatted.Some? then formatted.value else "TIMESTAMP_ERROR"
  {
    if createdAt.None? || createdAt.value == 0 then "TIMESTAMP_UNKNOWN"
    else if formatted.None? then "TIMESTAMP_ERROR"
    else formatted.value
  }

  /**
   * A note shown with an unknown timestamp is exactly one the sort modes place at time 0,
   * for any formatter that answers with a real relative time.
   */
  lemma UnknownTimestampSortsAsZero(e: Event, formatted: Option<string>)
    requires formatted != Some("TIMESTAMP_UNKNOWN")
    ensures GetTimeAgo(e.createdAt, formatted) == "TIMESTAMP_UNKNOWN" <==> CreatedOrZero(e) == 0
  {
  }

  /** A hashtag tag: `tag[0] === 't'`. */
  predicate IsHashtag(t: Tag) {
    TagIs(t, 0, "t")
  }

  /** The chip text `#{tag[1]}`; an undefined `tag[1]` renders as nothing. */
  function ChipText(t: Tag): string {
    "#" + (if |t| > 1 then t[1] else "")
  }

  /** The hashtag chips of a card: `tags.filter(tag => tag[0] === 't')`, each shown as `#` and its value. */
  function HashtagChips(tags: seq<Tag>): (r: seq<string>)
    ensures |r| <= |tags|
    ensures forall c :: c in r ==> exists t :: t in tags && IsHashtag(t) && c == ChipText(t)
    ensures forall i :: 0 <= i < |r| ==> |r[i]| > 0 && r[i][0] == '#'
  {
    if tags == [] then []
    else
      var rest := HashtagChips(tags[1..]);
      assert forall t :: t in tags[1..] ==> t in tags;
      (if IsHashtag(tags[0]) then [ChipText(tags[0])] else []) + rest
  }

  /** Every 't' tag gives a chip. */
  lemma {:induction false} HashtagChipsComplete(tags: seq<Tag>, t: Tag)
    requires t in tags && IsHashtag(t)
    ensures ChipText(t) in HashtagChips(tags)
  {
    if t != tags[0] {
      assert t in tags[1..];
      HashtagChipsComplete(tags[1..], t);
    }
  }

  /** The chips of two runs of tags are the chips of each, in order: the filter keeps the tag order. */
  lemma {:induction false} HashtagChipsAppend(a: seq<Tag>, b: seq<Tag>)
    ensures HashtagChips(a + b) == HashtagChips(a) + HashtagChips(b)
  {
    if a == [] {
      assert a + b == b;
    } else {
      assert (a + b)[0] == a[0];
      assert (a + b)[1..] == a[1..] + b;
      HashtagChipsAppend(a[1..], b);
    }
  }

  /** One tag gives one chip when it is a hashtag, and none otherwise. */
  lemma HashtagChipsSingle(t: Tag)
    ensures HashtagChips([t]) == if IsHashtag(t) then [ChipText(t)] else []
  {
  }

  /**
   * The state the component keeps: `displayResults` mirrors the provider's results, and
   * `initialized` latches once they have been non-empty.
   */
  class ResultsView {
    var displayResults: seq<Event>
    var initialized: bool

    constructor ()
      ensures displayResults == [] && !initialized
    {
      displayResults := [];
      initialized := false;
    }

    /** The effect run when `searchResults` changes. */
    method OnSearchResultsChanged(searchResults: seq<Event>)
      modifies this
      ensures displayResults == searchResults
      ensures initialized == (old(initialized) || |searchResults| > 0)
    {
      displayResults := searchResults;
      if |searchResults| > 0 && !initialized {
        initialized := true;
      }
    }

    /** The view after a run of result updates from a fresh component. */
    method Replay(updates: seq<seq<Event>>)
      requires displayResults == [] && !initialized
      modifies this
      ensures initialized == InitializedAfter(updates)
      ensures displayResults == if updates == [] then [] else updates[|updates| - 1]
    {
      var i := 0;
      while i < |updates|
        invariant 0 <= i <= |updates|
        invariant initialized == InitializedAfter(updates[..i])
        invariant displayResults == if i == 0 then [] else updates[i - 1]
      {
        assert updates[..i + 1][..i] == updates[..i];
        OnSearchResultsChanged(updates[i]);
        i := i + 1;
      }
      assert updates[..i] == updates;
    }
  }

  /** The latch after a run of updates: set exactly when one of them was non-empty. */
  function InitializedAfter(updates: seq<seq<Event>>): (b: bool)
    ensures b <==> exists i :: 0 <= i < |updates| && |updates[i]| > 0
  {
    if updates == [] then false
    else
      var last := updates[|updates| - 1];
      var before := updates[..|updates| - 1];
      assert forall i :: 0 <= i < |before| ==> before[i] == updates[i];
      InitializedAfter(before) || |last| > 0
  }

  /** Once set, the latch stays set whatever updates follow. */
  lemma {:induction false} LatchNeverReverts(before: seq<seq<Event>>, after: seq<seq<Event>>)
    requires InitializedAfter(before)
    ensures InitializedAfter(before + after)
  {
    var i :| 0 <= i < |before| && |before[i]| > 0;
    assert (before + after)[i] == before[i];
  }

  /** What the component renders. */
  datatype Display =
    | Nothing                                        // null
    | Loader                                         // SEARCHING NOSTR NETWORK...
    | NoResults                                      // SEARCH_COMPLETE: NO_RESULTS
    | ResultList(count: nat, searchingBadge: bool)   // RESULTS[count], with SEARCHING... while searching

  /**
   * The render's choice, in priority order: nothing when logged out; the loader while
   * searching with nothing to show; "no results" once a search has shown results; nothing
   * before any search; the list otherwise.
   */
  function SelectDisplay(isLoggedIn: bool, isSearching: bool, displayResults: seq<Event>, initialized: bool)
    : (d: Display)
    ensures d == Nothing <==> !isLoggedIn || (|displayResults| == 0 && !isSearching && !initialized)
    ensures d == Loader <==> isLoggedIn && isSearching && |displayResults| == 0
    ensures d == NoResults <==> isLoggedIn && !isSearching && |displayResults| == 0 && initialized
    ensures d.ResultList? <==> isLoggedIn && |displayResults| > 0
    ensures d.ResultList? ==> d.count == |displayResults| && d.searchingBadge == isSearching
  {
    if !isLoggedIn then Nothing
    else if isSearching && |displayResults| == 0 then Loader
    else if |displayResults| == 0 && initialized then NoResults
    else if |displayResults| == 0 then Nothing
    else ResultList(|displayResults|, isSearching)
  }

  /** "No results" is only ever shown after some earlier update brought results. */
  lemma NoResultsOnlyAfterResults(isSearching: bool, updates: seq<seq<Event>>)
    requires updates != []
    ensures SelectDisplay(true, isSearching, updates[|updates| - 1], InitializedAfter(updates)) == NoResults ==>
              exists i :: 0 <= i < |updates| - 1 && |updates[i]| > 0
  {
  }
}
