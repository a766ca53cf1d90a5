/**
 * Profile resolution (app/contexts/NostrContext.tsx, `getProfile` and
 * `fetchProfilesForAuthors`): which author keys get fetched, in which batches, and
 * what a fetch adds to the profile cache.
 */
module Profiles {
  import opened Wrappers
  import opened Events
  import opened Collections

  /** Profiles are requested at most this many at a time. */
  const BatchSize: nat := 20

  /** What `ndkUser.fetchProfile()` does for one key: it loads (an npub and maybe profile fields) or throws. */
  datatype ProfileFetch = ProfileLoaded(npub: Option<string>, profile: Option<ProfileFields>) | ProfileFailed

  /** The NDKUser a successful fetch for `pubkey` leaves behind. */
  function FetchedUser(pubkey: string, fetch: ProfileFetch): (u: NUser)
    requires fetch.ProfileLoaded?
    ensures u.pubkey == pubkey
  {
    NUser(pubkey, fetch.npub, fetch.profile)
  }

  /** The cache entries a run of fetches adds: one per key whose fetch succeeded. */
  function LoadedProfiles(keys: seq<string>, fetchFor: string -> ProfileFetch): (m: map<string, NUser>)
    ensures forall k :: k in m <==> k in keys && fetchFor(k).ProfileLoaded?
    ensures forall k :: k in m ==> m[k] == FetchedUser(k, fetchFor(k))
  {
    map k | k in keys && fetchFor(k).ProfileLoaded? :: FetchedUser(k, fetchFor(k))
  }

  /** Entries loaded by key keep a cache whose every entry is filed under its own key that way. */
  lemma LoadedKeepsKeys(base: map<string, NUser>, keys: seq<string>, fetchFor: string -> ProfileFetch)
    requires forall k :: k in base ==> base[k].pubkey == k
    ensures var m := base + LoadedProfiles(keys, fetchFor); forall k :: k in m ==> m[k].pubkey == k
  {
  }

  /** One more request adds its user to the cache entries exactly when it succeeds. */
  lemma LoadedProfilesSnoc(keys: seq<string>, x: string, fetchFor: string -> ProfileFetch)
    ensures LoadedProfiles(keys + [x], fetchFor) ==
            if fetchFor(x).ProfileLoaded? then LoadedProfiles(keys, fetchFor)[x := FetchedUser(x, fetchFor(x))]
            else LoadedProfiles(keys, fetchFor)
  {
  }

  /** A cache grown by one fresh request: the new key was absent and the entry appears when the fetch succeeds. */
  lemma CacheStep(base: map<string, NUser>, before: seq<string>, x: string, fetchFor: string -> ProfileFetch)
    requires x !in base && x !in before
    ensures x !in base + LoadedProfiles(before, fetchFor)
    ensures base + LoadedProfiles(before + [x], fetchFor) ==
            if fetchFor(x).ProfileLoaded? then (base + LoadedProfiles(before, fetchFor))[x := FetchedUser(x, fetchFor(x))]
            else base + LoadedProfiles(before, fetchFor)
  {
    LoadedProfilesSnoc(before, x, fetchFor);
  }

  /** The cache after one fresh request is the cache of the longer request list. */
  lemma CacheGrows(base: map<string, NUser>, before: seq<string>, x: string, fetchFor: string -> ProfileFetch,
                   cache: map<string, NUser>, next: map<string, NUser>)
    requires x !in base && x !in before && cache == base + LoadedProfiles(before, fetchFor)
    requires next == if fetchFor(x).ProfileLoaded? then cache[x := FetchedUser(x, fetchFor(x))] else cache
    ensures next == base + LoadedProfiles(before + [x], fetchFor)
  {
    CacheStep(base, before, x, fetchFor);
  }

  /** A key `fetchProfilesForAuthors` requests: non-empty, not cached, and not the logged-in user's. */
  predicate NeedsFetch(k: string, cached: set<string>, self: Option<string>) {
    k != "" && k !in cached && self != Some(k)
  }

  /** The events' non-empty author keys, in order (duplicates kept). */
  function AuthorKeys(events: seq<Event>): (r: seq<string>)
    ensures forall k :: k in r ==> k != ""
  {
    if events == [] then []
    else
      var e := events[|events| - 1];
      AuthorKeys(events[..|events| - 1]) + (if e.pubkey != "" then [e.pubkey] else [])
  }

  /** Every author key is the key of some event. */
  lemma {:induction false} AuthorKeysSound(events: seq<Event>, k: string)
    requires k in AuthorKeys(events)
    ensures exists e :: e in events && e.pubkey == k
  {
    var e := events[|events| - 1];
    var p := events[..|events| - 1];
    if k in AuthorKeys(p) {
      AuthorKeysSound(p, k);
      var w :| w in p && w.pubkey == k;
      assert w in events;
    } else {
      assert e.pubkey == k;
    }
  }

  /** Every event with a non-empty key contributes that key. */
  lemma {:induction false} AuthorKeysComplete(events: seq<Event>, e: Event)
    requires e in events && e.pubkey != ""
    ensures e.pubkey in AuthorKeys(events)
  {
    var p := events[..|events| - 1];
    if e != events[|events| - 1] {
      assert events == p + [events[|events| - 1]];
      assert e in p;
      AuthorKeysComplete(p, e);
    }
  }

  /** `Array.from(authorPubkeys).filter(...)`: the keys that need a fetch, order kept. */
  function KeepNeeded(keys: seq<string>, cached: set<string>, self: Option<string>): (r: seq<string>)
    ensures forall k :: k in r <==> k in keys && NeedsFetch(k, cached, self)
    ensures Distinct(keys) ==> Distinct(r)
  {
    if keys == [] then []
    else
      var rest := KeepNeeded(keys[1..], cached, self);
      assert forall k :: k in keys <==> k == keys[0] || k in keys[1..];
      assert Distinct(keys) ==> keys[0] !in keys[1..];
      (if NeedsFetch(keys[0], cached, self) then [keys[0]] else []) + rest
  }

  /** The filter keeps the order of the keys: filtering a concatenation concatenates the filtered parts. */
  lemma {:induction false} KeepNeededAppend(a: seq<string>, b: seq<string>, cached: set<string>, self: Option<string>)
    ensures KeepNeeded(a + b, cached, self) == KeepNeeded(a, cached, self) + KeepNeeded(b, cached, self)
  {
    if a == [] {
      assert a + b == b;
    } else {
      assert (a + b)[0] == a[0] && (a + b)[1..] == a[1..] + b;
      KeepNeededAppend(a[1..], b, cached, self);
      var h := if NeedsFetch(a[0], cached, self) then [a[0]] else [];
      var x, y := KeepNeeded(a[1..], cached, self), KeepNeeded(b, cached, self);
      assert KeepNeeded(a + b, cached, self) == h + (x + y);
      assert KeepNeeded(a, cached, self) == h + x;
      ConcatAssoc(h, x, y);
    }
  }

  /** The requested keys are exactly the non-empty, uncached, foreign author keys. */
  lemma PlannedKeys(events: seq<Event>, cached: set<string>, self: Option<string>)
    ensures var keys := KeepNeeded(Dedup(AuthorKeys(events)), cached, self);
            forall k :: k in keys <==>
              NeedsFetch(k, cached, self) && exists e :: e in events && e.pubkey == k
  {
    var a := AuthorKeys(events);
    var d := Dedup(a);
    forall k ensures k in d <==> k in a {
      if k in d {
        var m :| 0 <= m < |d| && d[m] == k;
      }
      if k in a {
        var m :| 0 <= m < |a| && a[m] == k;
      }
    }
    forall e | e in events && e.pubkey != "" ensures e.pubkey in a {
      AuthorKeysComplete(events, e);
    }
    forall k | k in a ensures exists e :: e in events && e.pubkey == k {
      AuthorKeysSound(events, k);
    }
  }

  /** The `forEach` that fills `authorPubkeys`: the non-empty author keys, once each, in first-seen order. */
  method CollectAuthors(events: seq<Event>) returns (authors: seq<string>)
    ensures authors == Dedup(AuthorKeys(events))
  {
    authors := [];
    var i := 0;
    while i < |events|
      invariant 0 <= i <= |events|
      invariant authors == Dedup(AuthorKeys(events[..i]))
    {
      var pubkey := events[i].pubkey;
      AuthorsStep(events, i, authors);
      if pubkey != "" && pubkey !in authors {
        authors := authors + [pubkey];
      }
      i := i + 1;
    }
    assert events[..i] == events;
  }

  /** One more event adds its key to the collected authors when it has one not seen yet. */
  lemma AuthorsStep(events: seq<Event>, i: nat, authors: seq<string>)
    requires i < |events| && authors == Dedup(AuthorKeys(events[..i]))
    ensures Dedup(AuthorKeys(events[..i + 1]))
      == if events[i].pubkey != "" && events[i].pubkey !in authors then authors + [events[i].pubkey] else authors
  {
    var keys := AuthorKeys(events[..i]);
    assert events[..i + 1][..i] == events[..i] && events[..i + 1][i] == events[i];
    if events[i].pubkey != "" {
      assert AuthorKeys(events[..i + 1]) == keys + [events[i].pubkey];
      DedupSnoc(keys, events[i].pubkey);
    } else {
      assert AuthorKeys(events[..i + 1]) == keys;
    }
  }

  /**
   * The keys `fetchProfilesForAuthors` requests: each author key once, in order of first
   * appearance, keeping only those that are non-empty, uncached and not the user's own.
   */
  method PlanProfileFetch(events: seq<Event>, cached: set<string>, self: Option<string>) returns (keys: seq<string>)
    ensures keys == KeepNeeded(Dedup(AuthorKeys(events)), cached, self)
    ensures Distinct(keys)
    ensures forall k :: k in keys <==>
              NeedsFetch(k, cached, self) && exists e :: e in events && e.pubkey == k
  {
    var authors := CollectAuthors(events);
    keys := KeepNeeded(authors, cached, self);
    PlannedKeys(events, cached, self);
  }

  /** Every batch holds between 1 and `BatchSize` keys, and only the last may be short. */
  predicate Batched(batches: seq<seq<string>>) {
    && (forall b :: 0 <= b < |batches| ==> 0 < |batches[b]| <= BatchSize)
    && (forall b :: 0 <= b < |batches| - 1 ==> |batches[b]| == BatchSize)
  }

  /** The next batch holds keys of `keys` that come after everything already batched. */
  lemma BatchUnseen(keys: seq<string>, i: nat, batch: seq<string>)
    requires Distinct(keys) && i + |batch| <= |keys| && batch == keys[i..i + |batch|]
    ensures forall j :: 0 <= j < |batch| ==> batch[j] in keys && batch[j] !in keys[..i]
  {
    forall j | 0 <= j < |batch| ensures batch[j] in keys && batch[j] !in keys[..i] {
      assert batch[j] == keys[i + j];
    }
  }

  /** Appending the next batch extends the batched prefix and keeps the batches well formed. */
  lemma BatchStep(keys: seq<string>, i: nat, batches: seq<seq<string>>, batch: seq<string>)
    requires i + |batch| <= |keys| && batch == keys[i..i + |batch|] && Flatten(batches) == keys[..i]
    requires Batched(batches) && forall b :: 0 <= b < |batches| ==> |batches[b]| == BatchSize
    requires 0 < |batch| <= BatchSize
    ensures keys[..i] + batch == keys[..i + |batch|]
    ensures Flatten(batches + [batch]) == keys[..i + |batch|]
    ensures Batched(batches + [batch])
  {
    FlattenSnoc(batches, batch);
    BatchedSnoc(batches, batch);
    assert keys[..i + |batch|] == keys[..i] + batch;
  }

  /** A further batch keeps the batches well formed when every batch so far is full. */
  lemma BatchedSnoc(batches: seq<seq<string>>, batch: seq<string>)
    requires Batched(batches) && forall b :: 0 <= b < |batches| ==> |batches[b]| == BatchSize
    requires 0 < |batch| <= BatchSize
    ensures Batched(batches + [batch])
  {
  }

  /** The batch of `authors.slice(i, i + batchSize)` for one turn of the batching loop. */
  function BatchAt(keys: seq<string>, i: nat): (b: seq<string>)
    requires i < |keys|
    ensures 0 < |b| <= BatchSize && i + |b| <= |keys|
    ensures b == keys[i..i + |b|]
    ensures |b| < BatchSize ==> i + |b| == |keys|
  {
    if i + BatchSize <= |keys| then keys[i..i + BatchSize] else keys[i..]
  }
}
