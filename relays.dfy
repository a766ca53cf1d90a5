/**
 * The relay registry kept by the provider (app/contexts/NostrContext.tsx): a list of
 * `{url, connected, status}` entries updated by connection events, seeded with the
 * default relays and replaced by the user's NIP-65 relay list.
 * Every update here is the pure updater handed to `setRelays`.
 */
module Relays {
  import opened Text
  import opened Collections

  /**
   * NDKRelayStatus as far as the client distinguishes it: CONNECTING, CONNECTED,
   * the value RelayStatus.tsx compares with 'error', and any other status.
   */
  datatype RelayState = Connecting | Connected | Errored | OtherState(code: nat)

  datatype RelayEntry = RelayEntry(url: string, connected: bool, status: RelayState)

  /** DEFAULT_RELAY_URLS of a production build. */
  const ProductionDefaults: seq<string> := [
    "wss://relay.nostr.band",
    "wss://relay.nostrcheck.me",
    "wss://relay.noswhere.com",
    "wss://bnc.netsec.vip",
    "wss://relay.snort.social",
    "wss://relay.damus.io",
    "wss://relay.primal.net"
  ]

  /** DEFAULT_RELAY_URLS of a development build. */
  const DevelopmentDefaults: seq<string> := ["wss://relay.nostr.band"]

  /** The registry key of an entry: its URL with trailing slashes removed. */
  function Key(e: RelayEntry): string {
    StripTrailingSlashes(e.url)
  }

  function Keys(relays: seq<RelayEntry>): (ks: seq<string>)
    ensures |ks| == |relays| && forall i :: 0 <= i < |relays| ==> ks[i] == Key(relays[i])
  {
    seq(|relays|, i requires 0 <= i < |relays| => Key(relays[i]))
  }

  function Urls(relays: seq<RelayEntry>): (us: seq<string>)
    ensures |us| == |relays| && forall i :: 0 <= i < |relays| ==> us[i] == relays[i].url
  {
    seq(|relays|, i requires 0 <= i < |relays| => relays[i].url)
  }

  /** No two entries share a normalised URL. */
  predicate UniqueKeys(relays: seq<RelayEntry>) {
    Distinct(Keys(relays))
  }

  /** A not-yet-connected entry, as every seeding and replacement creates it. */
  function FreshEntry(url: string): RelayEntry {
    RelayEntry(url, false, Connecting)
  }

  function FreshEntries(urls: seq<string>): (r: seq<RelayEntry>)
    ensures |r| == |urls| && forall i :: 0 <= i < |urls| ==> r[i] == FreshEntry(urls[i])
  {
    seq(|urls|, i requires 0 <= i < |urls| => FreshEntry(urls[i]))
  }

  function StripAll(urls: seq<string>): (r: seq<string>)
    ensures |r| == |urls| && forall i :: 0 <= i < |urls| ==> r[i] == StripTrailingSlashes(urls[i])
  {
    seq(|urls|, i requires 0 <= i < |urls| => StripTrailingSlashes(urls[i]))
  }

  // ---------------------------------------------------------------------------
  // trackConnectedRelays
  // ---------------------------------------------------------------------------

  /**
   * The relay-pool callback's update: an upsert keyed by the URL with trailing
   * slashes removed. A known relay gets the new `connected`/`status` and keeps its
   * URL; an unknown one is appended in normalised form unless the registry holds the
   * user's preferred list (`custom`); an empty URL changes nothing.
   */
  function TrackRelay(prev: seq<RelayEntry>, custom: bool, url: string, connected: bool, status: RelayState)
    : (next: seq<RelayEntry>)
    ensures url == "" ==> next == prev
    ensures url != "" && StripTrailingSlashes(url) in Keys(prev) ==>
              var i := IndexOf(Keys(prev), StripTrailingSlashes(url));
              && |next| == |prev|
              && next[i].url == prev[i].url && next[i].connected == connected && next[i].status == status
              && forall j :: 0 <= j < |prev| && j != i ==> next[j] == prev[j]
    ensures url != "" && StripTrailingSlashes(url) !in Keys(prev) && custom ==> next == prev
    ensures url != "" && StripTrailingSlashes(url) !in Keys(prev) && !custom ==>
              next == prev + [RelayEntry(StripTrailingSlashes(url), connected, status)]
  {
    if url == "" then prev
    else
      var key := StripTrailingSlashes(url);
      var i := IndexOf(Keys(prev), key);
      if i >= 0 then prev[i := prev[i].(connected := connected, status := status)]
      else if custom then prev
      else prev + [RelayEntry(key, connected, status)]
  }

  /** Tracking a connection event never makes two entries share a normalised URL. */
  lemma TrackPreservesUniqueKeys(prev: seq<RelayEntry>, custom: bool, url: string, connected: bool, status: RelayState)
    requires UniqueKeys(prev)
    ensures UniqueKeys(TrackRelay(prev, custom, url, connected, status))
  {
    var next := TrackRelay(prev, custom, url, connected, status);
    var key := StripTrailingSlashes(url);
    if url != "" && key in Keys(prev) {
      assert Keys(next) == Keys(prev);
    } else if url != "" && !custom {
      StripIdempotent(url);
      assert Keys(next) == Keys(prev) + [key];
    }
  }

  /**
   * After tracking a non-empty URL that is known, or while not in preferred mode,
   * the entry found under that URL's key carries the reported state.
   */
  lemma TrackThenLookup(prev: seq<RelayEntry>, custom: bool, url: string, connected: bool, status: RelayState)
    requires url != ""
    requires StripTrailingSlashes(url) in Keys(prev) || !custom
    ensures var next := TrackRelay(prev, custom, url, connected, status);
            var i := IndexOf(Keys(next), StripTrailingSlashes(url));
            0 <= i && next[i].connected == connected && next[i].status == status
  {
    if StripTrailingSlashes(url) in Keys(prev) {
      TrackKnownLookup(prev, custom, url, connected, status);
    } else {
      TrackNewLookup(prev, url, connected, status);
    }
  }

  lemma TrackKnownLookup(prev: seq<RelayEntry>, custom: bool, url: string, connected: bool, status: RelayState)
    requires url != "" && StripTrailingSlashes(url) in Keys(prev)
    ensures var next := TrackRelay(prev, custom, url, connected, status);
            var i := IndexOf(Keys(next), StripTrailingSlashes(url));
            0 <= i && next[i].connected == connected && next[i].status == status
  {
    var next := TrackRelay(prev, custom, url, connected, status);
    var i := IndexOf(Keys(prev), StripTrailingSlashes(url));
    assert Keys(next) == Keys(prev) by {
      forall j | 0 <= j < |prev| ensures Keys(next)[j] == Keys(prev)[j] {
        assert Key(next[j]) == Key(prev[j]);
      }
    }
  }

  lemma TrackNewLookup(prev: seq<RelayEntry>, url: string, connected: bool, status: RelayState)
    requires url != "" && StripTrailingSlashes(url) !in Keys(prev)
    ensures var next := TrackRelay(prev, false, url, connected, status);
            var i := IndexOf(Keys(next), StripTrailingSlashes(url));
            0 <= i && next[i].connected == connected && next[i].status == status
  {
    var key := StripTrailingSlashes(url);
    StripIdempotent(url);
    var ks := Keys(prev) + [key];
    assert Keys(TrackRelay(prev, false, url, connected, status)) == ks;
    assert ks[|prev|] == key && ks[..|prev|] == Keys(prev);
    assert IndexOf(ks, key) == |prev|;
  }

  /** "wss://r.example/" and "wss://r.example" address the same registry entry. */
  lemma TrackIgnoresTrailingSlashes(prev: seq<RelayEntry>, custom: bool, url: string, n: nat,
                                    connected: bool, status: RelayState)
    requires url != ""
    ensures TrackRelay(prev, custom, url + seq(n, _ => '/'), connected, status)
         == TrackRelay(prev, custom, url, connected, status)
  {
    StripIgnoresTrailingSlashes(url, n);
  }

  // ---------------------------------------------------------------------------
  // updateRelayStatus (defined in the provider but never called)
  // ---------------------------------------------------------------------------

  /**
   * The second upsert: keyed by the exact URL (no normalisation); the entry becomes
   * `{url, connected: status === CONNECTED, status}`, appended when the URL is new.
   */
  function UpdateRelayStatus(prev: seq<RelayEntry>, url: string, status: RelayState): (next: seq<RelayEntry>)
    ensures url in Urls(prev) ==>
              var i := IndexOf(Urls(prev), url);
              && |next| == |prev|
              && next[i] == RelayEntry(url, status == Connected, status)
              && forall j :: 0 <= j < |prev| && j != i ==> next[j] == prev[j]
    ensures url !in Urls(prev) ==> next == prev + [RelayEntry(url, status == Connected, status)]
  {
    var entry := RelayEntry(url, status == Connected, status);
    var i := IndexOf(Urls(prev), url);
    if i >= 0 then prev[i := entry] else prev + [entry]
  }

  /** Keyed by the exact URL, the update keeps URLs distinct and always leaves the URL present. */
  lemma UpdateRelayStatusKeepsUrlsDistinct(prev: seq<RelayEntry>, url: string, status: RelayState)
    requires Distinct(Urls(prev))
    ensures var next := UpdateRelayStatus(prev, url, status);
            Distinct(Urls(next)) && url in Urls(next)
  {
    var next := UpdateRelayStatus(prev, url, status);
    if url in Urls(prev) {
      var i := IndexOf(Urls(prev), url);
      assert Urls(next) == Urls(prev);
    } else {
      assert Urls(next) == Urls(prev) + [url];
    }
  }

  /**
   * Without normalisation the second upsert can give one relay two entries: a status
   * for "wss://a/" does not match the entry "wss://a".
   */
  lemma UpdateRelayStatusCanDuplicateKeys()
    ensures !UniqueKeys(UpdateRelayStatus([FreshEntry("wss://a")], "wss://a/", Connected))
  {
    var next := UpdateRelayStatus([FreshEntry("wss://a")], "wss://a/", Connected);
    assert "wss://a/"[..|"wss://a/"| - 1] == "wss://a";
    assert Keys(next)[0] == Keys(next)[1];
  }

  // ---------------------------------------------------------------------------
  // Default seeding and logout
  // ---------------------------------------------------------------------------

  /** The registry after NDK connects: the default URLs normalised and deduplicated, each fresh. */
  function SeededEntries(defaults: seq<string>): (r: seq<RelayEntry>)
    ensures |r| <= |defaults|
  {
    FreshEntries(Dedup(StripAll(defaults)))
  }

  /** Seeding yields one fresh entry per distinct normalised default URL, and nothing else. */
  lemma SeededEntriesShape(defaults: seq<string>)
    ensures var r := SeededEntries(defaults);
            && UniqueKeys(r)
            && (forall i :: 0 <= i < |r| ==> r[i] == FreshEntry(Key(r[i])))
            && (forall i :: 0 <= i < |defaults| ==> StripTrailingSlashes(defaults[i]) in Keys(r))
            && (forall i :: 0 <= i < |r| ==> Key(r[i]) in StripAll(defaults))
  {
    var d := Dedup(StripAll(defaults));
    var r := SeededEntries(defaults);
    forall i | 0 <= i < |d| ensures StripTrailingSlashes(d[i]) == d[i] {
      assert d[i] in StripAll(defaults);
      var k :| 0 <= k < |defaults| && StripAll(defaults)[k] == d[i];
      StripIdempotent(defaults[k]);
    }
    assert Keys(r) == d;
  }

  /**
   * `logout` resets to the default URLs as written, without the normalisation and
   * deduplication of seeding; the two agree when the defaults are already normalised
   * and distinct.
   */
  lemma {:induction false} LogoutMatchesSeedWhenNormalised(defaults: seq<string>)
    requires Distinct(defaults)
    requires forall i :: 0 <= i < |defaults| ==> StripTrailingSlashes(defaults[i]) == defaults[i]
    ensures FreshEntries(defaults) == SeededEntries(defaults)
  {
    assert StripAll(defaults) == defaults;
    DedupOfDistinct(defaults);
  }

  /** For the production defaults logout restores exactly the seeded registry. */
  lemma ProductionLogoutMatchesSeed()
    ensures FreshEntries(ProductionDefaults) == SeededEntries(ProductionDefaults)
  {
    ProductionDefaultsNormalised();
    ProductionDefaultsDistinct();
    LogoutMatchesSeedWhenNormalised(ProductionDefaults);
  }

  /** No production default ends with a slash. */
  lemma ProductionDefaultsNormalised()
    ensures forall i :: 0 <= i < |ProductionDefaults| ==> StripTrailingSlashes(ProductionDefaults[i]) == ProductionDefaults[i]
  {
    forall i | 0 <= i < |ProductionDefaults|
      ensures StripTrailingSlashes(ProductionDefaults[i]) == ProductionDefaults[i]
    {
      var u := ProductionDefaults[i];
      assert u[|u| - 1] != '/';
    }
  }

  /** The production defaults name seven different relays. */
  lemma ProductionDefaultsDistinct()
    ensures Distinct(ProductionDefaults)
  {
  }

  /** A default written with a trailing slash is seeded normalised but restored as written by logout. */
  lemma LogoutKeepsTrailingSlash()
    ensures FreshEntries(["wss://a/"]) != SeededEntries(["wss://a/"])
  {
    assert "wss://a/"[..|"wss://a/"| - 1] == "wss://a";
    assert StripAll(["wss://a/"]) == ["wss://a"];
    assert SeededEntries(["wss://a/"])[0].url == "wss://a";
  }

  // ---------------------------------------------------------------------------
  // fetchUserRelays: URL extraction and replacement
  // ---------------------------------------------------------------------------

  /** A property value of the relay-list object: an object with a string `url`, or anything else. */
  datatype RelayListValue = UrlObject(url: string) | OtherValue

  /** One enumerable property of the relay-list object, in `Object.keys` order. */
  datatype RelayListProperty = RelayListProperty(key: string, value: RelayListValue)

  const WssScheme: string := "wss://"

  /** The keys that start with "wss://", normalised, in order (duplicates kept). */
  function KeyUrls(props: seq<RelayListProperty>): (r: seq<string>)
    ensures |r| <= |props|
    ensures forall u :: u in r ==> exists p :: p in props && StartsWith(p.key, WssScheme) && u == StripTrailingSlashes(p.key)
  {
    if props == [] then []
    else
      var p := props[|props| - 1];
      assert forall q :: q in props[..|props| - 1] ==> q in props;
      KeyUrls(props[..|props| - 1]) + (if StartsWith(p.key, WssScheme) then [StripTrailingSlashes(p.key)] else [])
  }

  /** The string `url` fields of object values that start with "wss://", normalised, in order. */
  function ValueUrls(props: seq<RelayListProperty>): (r: seq<string>)
    ensures |r| <= |props|
    ensures forall u :: u in r ==> exists p :: p in props && p.value.UrlObject? && StartsWith(p.value.url, WssScheme)
                                               && u == StripTrailingSlashes(p.value.url)
  {
    if props == [] then []
    else
      var p := props[|props| - 1];
      assert forall q :: q in props[..|props| - 1] ==> q in props;
      ValueUrls(props[..|props| - 1])
        + (if p.value.UrlObject? && StartsWith(p.value.url, WssScheme) then [StripTrailingSlashes(p.value.url)] else [])
  }

  /** Every key that starts with "wss://" contributes its normalised form. */
  lemma {:induction false} KeyUrlsComplete(props: seq<RelayListProperty>, p: RelayListProperty)
    requires p in props && StartsWith(p.key, WssScheme)
    ensures StripTrailingSlashes(p.key) in KeyUrls(props)
  {
    var init := props[..|props| - 1];
    assert props == init + [props[|props| - 1]];
    if p != props[|props| - 1] {
      KeyUrlsComplete(init, p);
    }
  }

  /** Every string `url` field that starts with "wss://" contributes its normalised form. */
  lemma {:induction false} ValueUrlsComplete(props: seq<RelayListProperty>, p: RelayListProperty)
    requires p in props && p.value.UrlObject? && StartsWith(p.value.url, WssScheme)
    ensures StripTrailingSlashes(p.value.url) in ValueUrls(props)
  {
    var init := props[..|props| - 1];
    assert props == init + [props[|props| - 1]];
    if p != props[|props| - 1] {
      ValueUrlsComplete(init, p);
    }
  }

  /** Some key of the relay-list object starts with "wss://". */
  predicate HasWssKey(props: seq<RelayListProperty>) {
    exists p :: p in props && StartsWith(p.key, WssScheme)
  }

  /** Some property value is an object whose string `url` starts with "wss://". */
  predicate HasWssUrl(props: seq<RelayListProperty>) {
    exists p :: p in props && p.value.UrlObject? && StartsWith(p.value.url, WssScheme)
  }

  /** The keys give a URL exactly when one qualifies, and likewise the `url` fields. */
  lemma WssPresence(props: seq<RelayListProperty>)
    ensures KeyUrls(props) != [] <==> HasWssKey(props)
    ensures ValueUrls(props) != [] <==> HasWssUrl(props)
  {
    if HasWssKey(props) {
      var p :| p in props && StartsWith(p.key, WssScheme);
      KeyUrlsComplete(props, p);
    }
    if HasWssUrl(props) {
      var p :| p in props && p.value.UrlObject? && StartsWith(p.value.url, WssScheme);
      ValueUrlsComplete(props, p);
    }
    if KeyUrls(props) != [] {
      assert KeyUrls(props)[0] in KeyUrls(props);
    }
    if ValueUrls(props) != [] {
      assert ValueUrls(props)[0] in ValueUrls(props);
    }
  }

  /**
   * The set of preferred URLs: from the keys, or from the `url` fields when the keys give
   * none; it is empty exactly when neither a key nor a `url` field starts with "wss://".
   */
  function PreferredUrls(props: seq<RelayListProperty>): (r: seq<string>)
    ensures Distinct(r)
    ensures r != [] <==> HasWssKey(props) || HasWssUrl(props)
  {
    WssPresence(props);
    var fromKeys := Dedup(KeyUrls(props));
    if |fromKeys| > 0 then fromKeys else Dedup(ValueUrls(props))
  }

  /** The two `forEach` loops that fill `userRelayUrls` (a Set, hence insertion-ordered and duplicate-free). */
  method CollectPreferredUrls(props: seq<RelayListProperty>) returns (urls: seq<string>)
    ensures urls == PreferredUrls(props)
  {
    urls := CollectKeyUrls(props);
    if |urls| == 0 {
      urls := CollectValueUrls(props);
    }
  }

  /** The first loop: keys starting with "wss://", normalised, into the Set. */
  method CollectKeyUrls(props: seq<RelayListProperty>) returns (urls: seq<string>)
    ensures urls == Dedup(KeyUrls(props))
  {
    urls := [];
    var i := 0;
    while i < |props|
      invariant 0 <= i <= |props|
      invariant urls == Dedup(KeyUrls(props[..i]))
    {
      var key := props[i].key;
      assert props[..i + 1][..i] == props[..i] && props[..i + 1][i] == props[i];
      if StartsWith(key, WssScheme) {
        var u := StripTrailingSlashes(key);
        assert KeyUrls(props[..i + 1]) == KeyUrls(props[..i]) + [u];
        DedupSnoc(KeyUrls(props[..i]), u);
        if u !in urls {
          urls := urls + [u];
        }
      } else {
        assert KeyUrls(props[..i + 1]) == KeyUrls(props[..i]);
      }
      i := i + 1;
    }
    assert props[..i] == props;
  }

  /** The fallback loop: string `url` fields starting with "wss://", normalised, into the Set. */
  method CollectValueUrls(props: seq<RelayListProperty>) returns (urls: seq<string>)
    ensures urls == Dedup(ValueUrls(props))
  {
    urls := [];
    var i := 0;
    while i < |props|
      invariant 0 <= i <= |props|
      invariant urls == Dedup(ValueUrls(props[..i]))
    {
      var value := props[i].value;
      assert props[..i + 1][..i] == props[..i] && props[..i + 1][i] == props[i];
      if value.UrlObject? && StartsWith(value.url, WssScheme) {
        var u := StripTrailingSlashes(value.url);
        assert ValueUrls(props[..i + 1]) == ValueUrls(props[..i]) + [u];
        DedupSnoc(ValueUrls(props[..i]), u);
        if u !in urls {
          urls := urls + [u];
        }
      } else {
        assert ValueUrls(props[..i + 1]) == ValueUrls(props[..i]);
      }
      i := i + 1;
    }
    assert props[..i] == props;
  }

  /**
   * The preferred URLs are distinct, have no trailing slash, and each comes from a
   * "wss://" key, or from a "wss://" `url` field when no key qualified.
   */
  lemma PreferredUrlsShape(props: seq<RelayListProperty>)
    ensures var urls := PreferredUrls(props);
            && Distinct(urls)
            && (forall i :: 0 <= i < |urls| ==> StripTrailingSlashes(urls[i]) == urls[i])
            && (HasWssKey(props) ==> forall u :: u in urls ==> u in KeyUrls(props))
            && (!HasWssKey(props) ==> forall u :: u in urls ==> u in ValueUrls(props))
  {
    WssPresence(props);
    var urls := PreferredUrls(props);
    forall i | 0 <= i < |urls| ensures StripTrailingSlashes(urls[i]) == urls[i] {
      if |Dedup(KeyUrls(props))| > 0 {
        assert urls[i] in KeyUrls(props);
        var p :| p in props && StartsWith(p.key, WssScheme) && urls[i] == StripTrailingSlashes(p.key);
        StripIdempotent(p.key);
      } else {
        assert urls[i] in ValueUrls(props);
        var p :| p in props && p.value.UrlObject? && StartsWith(p.value.url, WssScheme)
                 && urls[i] == StripTrailingSlashes(p.value.url);
        StripIdempotent(p.value.url);
      }
    }
  }

  /**
   * Every qualifying key is among the preferred URLs, normalised; when no key qualifies,
   * so is every qualifying `url` field.
   */
  lemma PreferredUrlsComplete(props: seq<RelayListProperty>, p: RelayListProperty)
    requires p in props
    ensures StartsWith(p.key, WssScheme) ==> StripTrailingSlashes(p.key) in PreferredUrls(props)
    ensures !HasWssKey(props) && p.value.UrlObject? && StartsWith(p.value.url, WssScheme) ==>
              StripTrailingSlashes(p.value.url) in PreferredUrls(props)
  {
    WssPresence(props);
    if StartsWith(p.key, WssScheme) {
      KeyUrlsComplete(props, p);
    }
    if !HasWssKey(props) && p.value.UrlObject? && StartsWith(p.value.url, WssScheme) {
      ValueUrlsComplete(props, p);
    }
  }

  /**
   * The replacement registry: one entry per preferred URL, in order, reusing the first
   * existing entry with that normalised URL and creating a fresh one otherwise.
   */
  function PreferredList(existing: seq<RelayEntry>, urls: seq<string>): (r: seq<RelayEntry>)
    ensures |r| == |urls|
    ensures forall i :: 0 <= i < |urls| ==>
              if urls[i] in Keys(existing)
              then r[i] in existing && Key(r[i]) == urls[i]
                   && r[i] == existing[IndexOf(Keys(existing), urls[i])]
              else r[i] == FreshEntry(urls[i])
  {
    seq(|urls|, i requires 0 <= i < |urls| =>
      var j := IndexOf(Keys(existing), urls[i]);
      if j >= 0 then existing[j] else FreshEntry(urls[i]))
  }

  /** Replacing by normalised, distinct URLs gives a registry whose keys are exactly those URLs. */
  lemma PreferredListKeys(existing: seq<RelayEntry>, urls: seq<string>)
    requires forall i :: 0 <= i < |urls| ==> StripTrailingSlashes(urls[i]) == urls[i]
    ensures Keys(PreferredList(existing, urls)) == urls
  {
  }

  /** The registry that `fetchUserRelays` installs has unique keys and keeps known relays' state. */
  lemma PreferredRegistryUniqueKeys(existing: seq<RelayEntry>, props: seq<RelayListProperty>)
    ensures UniqueKeys(PreferredList(existing, PreferredUrls(props)))
  {
    PreferredUrlsShape(props);
    PreferredListKeys(existing, PreferredUrls(props));
  }
}
