/**
 * Result ordering (app/contexts/NostrContext.tsx): the three-tier comparator of
 * `sortSearchResults` and the three sort modes of `searchNostr`. Every comparator
 * orders by a rank compared lexicographically, and `Array.prototype.sort` is stable,
 * so all of them are one stable sort by rank.
 */
module Ranking {
  import opened Wrappers
  import opened Events

  /** A sort key; a smaller rank comes first. */
  datatype Rank = Rank(major: int, minor: int)

  predicate RankLe(a: Rank, b: Rank) {
    a.major < b.major || (a.major == b.major && a.minor <= b.minor)
  }

  /** The comparators of the source, each as the rank it orders by. */
  datatype Order =
    | Tiered(self: Option<string>, follows: set<string>)  // sortSearchResults
    | MostLiked                                            // 'web-of-trust'
    | Newest                                               // 'recent'
    | Oldest                                               // 'oldest'

  /** The tier of an author: 0 for the logged-in user, 1 for a followed key, 2 for everyone else. */
  function Tier(pubkey: string, self: Option<string>, follows: set<string>): (t: nat)
    ensures t <= 2
    ensures t == 0 <==> self == Some(pubkey)
    ensures t == 1 <==> self != Some(pubkey) && pubkey in follows
  {
    if self == Some(pubkey) then 0 else if pubkey in follows then 1 else 2
  }

  /** The rank an event has under a comparator; `Compare` below shows that ranks order events as the comparator does. */
  function RankOf(o: Order, e: Event): (r: Rank)
    ensures o.Tiered? ==> 0 <= r.major <= 2
    ensures !o.Tiered? ==> r.minor == 0
  {
    match o
    case Tiered(self, follows) => Rank(Tier(e.pubkey, self, follows), -CreatedOrZero(e))
    case MostLiked => Rank(-(LikeCount(e.tags) as int), 0)
    case Newest => Rank(-CreatedOrZero(e), 0)
    case Oldest => Rank(CreatedOrZero(e), 0)
  }

  /**
   * The comparators as the source writes them: negative when `a` goes first, positive
   * when `b` does. `a` ranks no later than `b` exactly when the comparator is not
   * positive, and the two ranks are equal exactly when it returns 0.
   */
  function Compare(o: Order, a: Event, b: Event): (c: int)
    ensures c <= 0 <==> RankLe(RankOf(o, a), RankOf(o, b))
    ensures c == 0 <==> RankOf(o, a) == RankOf(o, b)
  {
    match o
    case Tiered(self, follows) =>
      if self.Some? && a.pubkey == self.value && b.pubkey != self.value then -1
      else if self.Some? && a.pubkey != self.value && b.pubkey == self.value then 1
      else
        var aIsFollowed := a.pubkey in follows;
        var bIsFollowed := b.pubkey in follows;
        if aIsFollowed && !bIsFollowed then -1
        else if !aIsFollowed && bIsFollowed then 1
        else CreatedOrZero(b) - CreatedOrZero(a)
    case MostLiked => LikeCount(b.tags) as int - LikeCount(a.tags) as int
    case Newest => CreatedOrZero(b) - CreatedOrZero(a)
    case Oldest => CreatedOrZero(a) - CreatedOrZero(b)
  }

  ghost predicate SortedBy(s: seq<Event>, o: Order) {
    forall i, j :: 0 <= i < j < |s| ==> RankLe(RankOf(o, s[i]), RankOf(o, s[j]))
  }

  /** Places `x` before the first element it does not rank after. */
  function Insert(x: Event, s: seq<Event>, o: Order): (r: seq<Event>)
    ensures multiset(r) == multiset(s) + multiset{x}
    ensures |r| == |s| + 1
  {
    if s == [] then [x]
    else if RankLe(RankOf(o, x), RankOf(o, s[0])) then [x] + s
    else
      assert s == [s[0]] + s[1..];
      [s[0]] + Insert(x, s[1..], o)
  }

  /** A stable sort by rank: what `Array.prototype.sort` computes with a consistent comparator. */
  function SortBy(s: seq<Event>, o: Order): (r: seq<Event>)
    ensures multiset(r) == multiset(s)
    ensures |r| == |s|
  {
    if s == [] then []
    else
      assert s == [s[0]] + s[1..];
      Insert(s[0], SortBy(s[1..], o), o)
  }

  /** A sorted sequence stays sorted under a head that ranks no later than any of its elements. */
  lemma SortedCons(h: Event, t: seq<Event>, o: Order)
    requires SortedBy(t, o)
    requires forall y :: y in t ==> RankLe(RankOf(o, h), RankOf(o, y))
    ensures SortedBy([h] + t, o)
  {
    var r := [h] + t;
    forall i, j | 0 <= i < j < |r| ensures RankLe(RankOf(o, r[i]), RankOf(o, r[j])) {
      assert r[j] == t[j - 1] && r[j] in t;
      if i > 0 {
        assert r[i] == t[i - 1];
      }
    }
  }

  /** In a sorted sequence the head ranks no later than anything in the tail. */
  lemma HeadRanksFirst(s: seq<Event>, o: Order, y: Event)
    requires SortedBy(s, o) && s != [] && y in s[1..]
    ensures RankLe(RankOf(o, s[0]), RankOf(o, y))
  {
    var m :| 0 <= m < |s[1..]| && s[1..][m] == y;
    assert s[m + 1] == y;
  }

  lemma {:induction false} InsertSorted(x: Event, s: seq<Event>, o: Order)
    requires SortedBy(s, o)
    ensures SortedBy(Insert(x, s, o), o)
  {
    if s == [] {
    } else if RankLe(RankOf(o, x), RankOf(o, s[0])) {
      SortedCons(x, s, o);
    } else {
      var t := Insert(x, s[1..], o);
      assert SortedBy(s[1..], o);
      InsertSorted(x, s[1..], o);
      forall y | y in t ensures RankLe(RankOf(o, s[0]), RankOf(o, y)) {
        assert y in multiset(t);
        if y != x {
          assert y in multiset(s[1..]);
          HeadRanksFirst(s, o, y);
        }
      }
      SortedCons(s[0], t, o);
    }
  }

  /** The sort's output is ordered by rank. */
  lemma {:induction false} SortBySorted(s: seq<Event>, o: Order)
    ensures SortedBy(SortBy(s, o), o)
  {
    if s != [] {
      SortBySorted(s[1..], o);
      InsertSorted(s[0], SortBy(s[1..], o), o);
    }
  }

  /** The elements of `s` of rank `k`, in order. */
  function WithRank(s: seq<Event>, o: Order, k: Rank): seq<Event> {
    if s == [] then []
    else (if RankOf(o, s[0]) == k then [s[0]] else []) + WithRank(s[1..], o, k)
  }

  lemma WithRankCons(h: Event, t: seq<Event>, o: Order, k: Rank)
    ensures WithRank([h] + t, o, k) == (if RankOf(o, h) == k then [h] else []) + WithRank(t, o, k)
  {
    assert ([h] + t)[0] == h && ([h] + t)[1..] == t;
  }

  lemma {:induction false} InsertWithRank(x: Event, s: seq<Event>, o: Order, k: Rank)
    ensures WithRank(Insert(x, s, o), o, k) == (if RankOf(o, x) == k then [x] else []) + WithRank(s, o, k)
  {
    if s == [] {
    } else if RankLe(RankOf(o, x), RankOf(o, s[0])) {
      WithRankCons(x, s, o, k);
    } else {
      InsertWithRank(x, s[1..], o, k);
      InsertPastHead(x, s, o, k);
    }
  }

  /** The inductive step of `InsertWithRank` when `x` goes after the head. */
  lemma InsertPastHead(x: Event, s: seq<Event>, o: Order, k: Rank)
    requires s != [] && !RankLe(RankOf(o, x), RankOf(o, s[0]))
    requires WithRank(Insert(x, s[1..], o), o, k) == (if RankOf(o, x) == k then [x] else []) + WithRank(s[1..], o, k)
    ensures WithRank(Insert(x, s, o), o, k) == (if RankOf(o, x) == k then [x] else []) + WithRank(s, o, k)
  {
    var t := Insert(x, s[1..], o);
    WithRankCons(s[0], t, o, k);
    // x ranks after s[0], so at most one of them has rank k.
    assert RankOf(o, x) != RankOf(o, s[0]);
    SwapWhenOneEmpty(if RankOf(o, s[0]) == k then [s[0]] else [], if RankOf(o, x) == k then [x] else [],
                     WithRank(s[1..], o, k));
  }

  lemma SwapWhenOneEmpty<T>(a: seq<T>, b: seq<T>, rest: seq<T>)
    requires a == [] || b == []
    ensures a + (b + rest) == b + (a + rest)
  {
    if a == [] {
      assert a + (b + rest) == b + rest == b + (a + rest);
    } else {
      assert a + (b + rest) == a + rest == b + (a + rest);
    }
  }

  /** Stability: elements of equal rank keep their input order. */
  lemma {:induction false} SortByStable(s: seq<Event>, o: Order, k: Rank)
    ensures WithRank(SortBy(s, o), o, k) == WithRank(s, o, k)
  {
    if s != [] {
      SortByStable(s[1..], o, k);
      InsertWithRank(s[0], SortBy(s[1..], o), o, k);
    }
  }

  /**
   * `sortSearchResults`: a sorted copy in which, with a user present, the user's own
   * notes come first, then notes by followed keys, then the rest; within a tier newer
   * notes first, a missing `created_at` counting as 0. The `sortBy` argument of the
   * source is ignored by its body and is not modelled.
   */
  function SortSearchResults(results: seq<Event>, self: Option<string>, follows: set<string>): (r: seq<Event>)
    ensures multiset(r) == multiset(results)
    ensures forall i, j :: 0 <= i < j < |r| ==>
              && Tier(r[i].pubkey, self, follows) <= Tier(r[j].pubkey, self, follows)
              && (Tier(r[i].pubkey, self, follows) == Tier(r[j].pubkey, self, follows) ==>
                    CreatedOrZero(r[i]) >= CreatedOrZero(r[j]))
  {
    SortBySorted(results, Tiered(self, follows));
    SortBy(results, Tiered(self, follows))
  }

  /** The tiers are those `getResultType` labels: the own notes of a present user precede all others. */
  lemma OwnNotesFirst(results: seq<Event>, self: string, follows: set<string>, i: int, j: int)
    requires 0 <= i < j < |results|
    ensures var r := SortSearchResults(results, Some(self), follows);
            r[j].pubkey == self ==> r[i].pubkey == self
  {
  }

  /**
   * The worked example of the ranking: the user's note at t=100, a followed author's at
   * t=500 and a stranger's at t=999 come out in that order, whatever the input order.
   */
  lemma TierDominatesRecency(input: seq<Event>, self: string, followed: string, other: string)
    requires self != followed && self != other && followed != other
    requires multiset(input) == multiset{Event("id1", self, Some(100), "", []),
                                         Event("id2", followed, Some(500), "", []),
                                         Event("id3", other, Some(999), "", [])}
    ensures SortSearchResults(input, Some(self), {followed}) == [Event("id1", self, Some(100), "", []),
                                                                 Event("id2", followed, Some(500), "", []),
                                                                 Event("id3", other, Some(999), "", [])]
  {
    var e1 := Event("id1", self, Some(100), "", []);
    var e2 := Event("id2", followed, Some(500), "", []);
    var e3 := Event("id3", other, Some(999), "", []);
    var r := SortSearchResults(input, Some(self), {followed});
    ThreeTiers(self, followed, other);
    assert multiset{e1, e2, e3} == multiset([e1, e2, e3]);
    OneNotePerTier(r, e1, e2, e3, Some(self), {followed});
  }

  lemma ThreeTiers(self: string, followed: string, other: string)
    requires self != followed && self != other && followed != other
    ensures Tier(self, Some(self), {followed}) == 0
    ensures Tier(followed, Some(self), {followed}) == 1
    ensures Tier(other, Some(self), {followed}) == 2
  {
  }

  /** Three notes in three different tiers, ordered by tier, stand in tier order. */
  lemma OneNotePerTier(r: seq<Event>, e1: Event, e2: Event, e3: Event, self: Option<string>, follows: set<string>)
    requires multiset(r) == multiset([e1, e2, e3])
    requires Tier(e1.pubkey, self, follows) == 0 && Tier(e2.pubkey, self, follows) == 1
    requires Tier(e3.pubkey, self, follows) == 2
    requires forall i, j :: 0 <= i < j < |r| ==> Tier(r[i].pubkey, self, follows) <= Tier(r[j].pubkey, self, follows)
    ensures r == [e1, e2, e3]
  {
    assert |r| == 3 by { assert |multiset(r)| == 3; }
    assert e1 in multiset(r) && e2 in multiset(r) && e3 in multiset(r);
    var i1 :| 0 <= i1 < 3 && r[i1] == e1;
    var i2 :| 0 <= i2 < 3 && r[i2] == e2;
    var i3 :| 0 <= i3 < 3 && r[i3] == e3;
    assert i1 < i2 < i3;
  }

  /**
   * `searchNostr`'s sort step: 'web-of-trust' by like count, most first; 'recent' newest
   * first; 'oldest' oldest first; any other or undefined `sortBy` keeps the fetched order.
   */
  function ApplySortMode(events: seq<Event>, sortBy: Option<string>): (r: seq<Event>)
    ensures multiset(r) == multiset(events)
    ensures sortBy != Some("web-of-trust") && sortBy != Some("recent") && sortBy != Some("oldest") ==> r == events
    ensures sortBy == Some("web-of-trust") ==>
              forall i, j :: 0 <= i < j < |r| ==> LikeCount(r[i].tags) >= LikeCount(r[j].tags)
    ensures sortBy == Some("recent") ==>
              forall i, j :: 0 <= i < j < |r| ==> CreatedOrZero(r[i]) >= CreatedOrZero(r[j])
    ensures sortBy == Some("oldest") ==>
              forall i, j :: 0 <= i < j < |r| ==> CreatedOrZero(r[i]) <= CreatedOrZero(r[j])
  {
    if sortBy == Some("web-of-trust") then SortBySorted(events, MostLiked); SortBy(events, MostLiked)
    else if sortBy == Some("recent") then SortBySorted(events, Newest); SortBy(events, Newest)
    else if sortBy == Some("oldest") then SortBySorted(events, Oldest); SortBy(events, Oldest)
    else events
  }

  /** Under 'web-of-trust', notes with equally many likes keep the order the relays returned them in. */
  lemma WebOfTrustKeepsFetchOrderOnTies(events: seq<Event>, likes: nat)
    ensures WithRank(ApplySortMode(events, Some("web-of-trust")), MostLiked, Rank(-(likes as int), 0))
         == WithRank(events, MostLiked, Rank(-(likes as int), 0))
  {
    SortByStable(events, MostLiked, Rank(-(likes as int), 0));
  }

  /** Two notes of one author at t=100 and t=200: 'recent' puts 200 first and 'oldest' puts 100 first. */
  lemma SecondaryOrder(a: Event, b: Event)
    requires a.createdAt == Some(100) && b.createdAt == Some(200)
    ensures ApplySortMode([a, b], Some("recent")) == [b, a]
    ensures ApplySortMode([a, b], Some("oldest")) == [a, b]
  {
    assert a != b;
    var r := ApplySortMode([a, b], Some("recent"));
    PairOrder(r, a, b);
    var q := ApplySortMode([a, b], Some("oldest"));
    PairOrder(q, a, b);
  }

  /** A permutation of two distinct elements is one of their two orders. */
  lemma PairOrder<T>(r: seq<T>, a: T, b: T)
    requires a != b && multiset(r) == multiset([a, b])
    ensures r == [a, b] || r == [b, a]
  {
    assert |r| == 2 by { assert |multiset(r)| == 2; }
    assert r[0] in multiset(r) && r[1] in multiset(r);
    assert a in multiset(r) && b in multiset(r);
  }
}
