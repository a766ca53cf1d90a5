/**
 * The follow set (`fetchUserContactList`, app/contexts/NostrContext.tsx): the newest
 * NIP-02 contact list of the user, reduced to the keys of its 'p' tags.
 */
module Follows {
  import opened Wrappers
  import opened Events

  /** NIP-02 contact lists are kind-3 events. */
  const ContactListKind: int := 3

  /** `{ kinds: [3], authors: [pubkey] }`. */
  function ContactListFilter(pubkey: string): (f: Filter)
    ensures f.kinds == [ContactListKind] && f.authors == Some([pubkey])
    ensures f.search == None && f.limit == None
  {
    Filter([ContactListKind], Some([pubkey]), None, None)
  }

  /**
   * `k` is the event the stable descending sort puts first: its timestamp is the
   * greatest, and every earlier event in fetch order is strictly older.
   */
  ghost predicate IsNewestAt(events: seq<Event>, k: int) {
    && 0 <= k < |events|
    && (forall j :: 0 <= j < |events| ==> CreatedOrZero(events[j]) <= CreatedOrZero(events[k]))
    && (forall j :: 0 <= j < k ==> CreatedOrZero(events[j]) < CreatedOrZero(events[k]))
  }

  /** At most one event is the newest. */
  lemma NewestIsUnique(events: seq<Event>, k1: int, k2: int)
    requires IsNewestAt(events, k1)
    requires 0 <= k2 < |events| && k2 != k1
    ensures !IsNewestAt(events, k2)
  {
    if k2 < k1 {
      assert CreatedOrZero(events[k2]) < CreatedOrZero(events[k1]);
    } else {
      assert CreatedOrZero(events[k2]) <= CreatedOrZero(events[k1]);
    }
  }

  /** `Array.from(contactListEvents).sort((a, b) => b.created_at - a.created_at)[0]`, as an index (-1 for none). */
  method NewestIndex(events: seq<Event>) returns (k: int)
    ensures k == -1 <==> events == []
    ensures events != [] ==> IsNewestAt(events, k)
  {
    if events == [] {
      return -1;
    }
    k := 0;
    var i := 1;
    while i < |events|
      invariant 1 <= i <= |events|
      invariant 0 <= k < i
      invariant forall j :: 0 <= j < i ==> CreatedOrZero(events[j]) <= CreatedOrZero(events[k])
      invariant forall j :: 0 <= j < k ==> CreatedOrZero(events[j]) < CreatedOrZero(events[k])
    {
      if CreatedOrZero(events[i]) > CreatedOrZero(events[k]) {
        k := i;
      }
      i := i + 1;
    }
  }

  /** `tag[0] === 'p' && tag[1]`: a 'p' tag with a non-empty second element. */
  predicate IsFollowTag(t: Tag) {
    |t| >= 2 && t[0] == "p" && t[1] != ""
  }

  /** The followed keys named by a contact list's tags. */
  function FollowKeys(tags: seq<Tag>): set<string> {
    set i | 0 <= i < |tags| && IsFollowTag(tags[i]) :: tags[i][1]
  }

  /** The `forEach` loop that fills `followedPubkeys`. */
  method CollectFollows(tags: seq<Tag>) returns (follows: set<string>)
    ensures follows == FollowKeys(tags)
  {
    follows := {};
    var i := 0;
    while i < |tags|
      invariant 0 <= i <= |tags|
      invariant follows == set j | 0 <= j < i && IsFollowTag(tags[j]) :: tags[j][1]
    {
      if IsFollowTag(tags[i]) {
        follows := follows + {tags[i][1]};
      }
      i := i + 1;
    }
  }

  /** The outcome of fetching the user's kind-3 events: the events in fetch order, or a failure. */
  datatype ContactListFetch = ContactListFailed | ContactListLoaded(events: seq<Event>)

  /**
   * The follow set `fetchUserContactList` stores: the follow keys of the newest contact
   * list, and the empty set when there is none or the fetch failed.
   */
  ghost predicate IsFollowSetOf(fetch: ContactListFetch, follows: set<string>) {
    match fetch
    case ContactListFailed => follows == {}
    case ContactListLoaded(events) =>
      if events == [] then follows == {}
      else exists k :: IsNewestAt(events, k) && follows == FollowKeys(events[k].tags)
  }

  /** The whole of `fetchUserContactList` past the fetch. */
  method FollowSetFromFetch(fetch: ContactListFetch) returns (follows: set<string>)
    ensures IsFollowSetOf(fetch, follows)
    ensures forall u :: u in follows ==> u != ""
  {
    match fetch
    case ContactListFailed =>
      follows := {};
    case ContactListLoaded(events) =>
      var k := NewestIndex(events);
      if k >= 0 {
        follows := CollectFollows(events[k].tags);
      } else {
        follows := {};
      }
  }
}
