/** The Nostr values the client handles: events (NIP-01) with their tags, and users with profiles. */
module Events {
  import opened Wrappers

  /** A tag is an array of strings, `tag[0]` being its name. */
  type Tag = seq<string>

  /** An NDKEvent as far as the client reads it. `createdAt` is None when `created_at` is undefined. */
  datatype Event = Event(id: string, pubkey: string, createdAt: Option<int>, content: string, tags: seq<Tag>)

  /** `created_at || 0`: a missing timestamp reads as 0. */
  function CreatedOrZero(e: Event): int {
    if e.createdAt.Some? then e.createdAt.value else 0
  }

  /** `tag[i] === v`; false when the tag has no element `i` (it is undefined). */
  predicate TagIs(t: Tag, i: nat, v: string) {
    i < |t| && t[i] == v
  }

  /** The tags `searchNostr` counts as likes: `tag[0] === 'p' && tag[3] === 'like'`. */
  predicate IsLikeTag(t: Tag) {
    TagIs(t, 0, "p") && TagIs(t, 3, "like")
  }

  /** `tags.filter(IsLikeTag).length`. */
  function LikeCount(tags: seq<Tag>): (n: nat)
    ensures n <= |tags|
    ensures n == 0 <==> forall i :: 0 <= i < |tags| ==> !IsLikeTag(tags[i])
    ensures n == |tags| <==> forall i :: 0 <= i < |tags| ==> IsLikeTag(tags[i])
  {
    if tags == [] then 0
    else
      var rest := LikeCount(tags[1..]);
      assert forall i :: 1 <= i < |tags| ==> tags[i] == tags[1..][i - 1];
      (if IsLikeTag(tags[0]) then 1 else 0) + rest
  }

  /** Counting likes distributes over concatenation: with the single-tag case above, the count is the number of like tags. */
  lemma {:induction false} LikeCountAppend(a: seq<Tag>, b: seq<Tag>)
    ensures LikeCount(a + b) == LikeCount(a) + LikeCount(b)
  {
    if a != [] {
      assert (a + b)[0] == a[0] && (a + b)[1..] == a[1..] + b;
      LikeCountAppend(a[1..], b);
    } else {
      assert a + b == b;
    }
  }

  /** The profile fields the client shows; None is an undefined field. */
  datatype ProfileFields = ProfileFields(displayName: Option<string>, name: Option<string>)

  /**
   * An NDKUser: its hex public key, its bech32 `npub` (None when encoding the key
   * throws) and its fetched profile (None while none is loaded).
   */
  datatype NUser = NUser(pubkey: string, npub: Option<string>, profile: Option<ProfileFields>)

  /**
   * A NIP-01 subscription filter as the client builds it; an absent field is None.
   * `search` is the NIP-50 full-text field.
   */
  datatype Filter = Filter(kinds: seq<int>, authors: Option<seq<string>>, search: Option<string>, limit: Option<int>)
}
