/** The relay panel (components/RelayStatus.tsx): chip labels, chip colours, heading and empty state. */
module RelayStatusView {
  import opened Text
  import opened Relays

  /** `/^wss:\/\//i`: "wss://" at the start, its letters in either case. */
  predicate HasWssPrefix(url: string) {
    && |url| >= 6
    && (url[0] == 'w' || url[0] == 'W')
    && (url[1] == 's' || url[1] == 'S')
    && (url[2] == 's' || url[2] == 'S')
    && url[3..6] == "://"
  }

  /** `formatRelayUrl`: the URL without one leading "wss://", matched case-insensitively. */
  function FormatRelayUrl(url: string): (r: string)
    ensures |r| <= |url| && r == url[|url| - |r|..]
    ensures HasWssPrefix(url) <==> |r| == |url| - 6
    ensures !HasWssPrefix(url) ==> r == url
  {
    if HasWssPrefix(url) then url[6..] else url
  }

  /** The prefix is matched in any letter case. */
  lemma UppercaseSchemeIsStripped()
    ensures FormatRelayUrl("WSS://a") == "a"
  {
  }

  /** Only the leading occurrence goes: the pattern is anchored and not global. */
  lemma OnlyLeadingSchemeIsStripped()
    ensures FormatRelayUrl("wss://wss://a") == "wss://a"
    ensures FormatRelayUrl("ws://a") == "ws://a"
  {
    assert HasWssPrefix("wss://wss://a");
    assert !HasWssPrefix("ws://a") by { assert "ws://a"[2] == ':'; }
  }

  /** The colour of a relay chip and of its dot. */
  datatype ChipColor = Green | Red | Gray

  /** Green when connected, whatever the status; red when not connected and in error; gray otherwise. */
  function ChipColorOf(connected: bool, status: RelayState): (c: ChipColor)
    ensures c == Green <==> connected
    ensures c == Red <==> !connected && status == Errored
    ensures c == Gray <==> !connected && status != Errored
  {
    if connected then Green else if status == Errored then Red else Gray
  }

  datatype Chip = Chip(caption: string, color: ChipColor)

  datatype PanelBody = NoRelays | Chips(chips: seq<Chip>)

  /** The rendered panel; Hidden is `null`. */
  datatype Panel = Hidden | Shown(heading: string, body: PanelBody)

  /**
   * The component: nothing when logged out; otherwise the heading for the preferred or the
   * default list, and one chip per registry entry in order, or "No relays connected".
   */
  function RelayPanel(isLoggedIn: bool, custom: bool, relays: seq<RelayEntry>): (p: Panel)
    ensures p.Hidden? <==> !isLoggedIn
    ensures p.Shown? ==> (p.heading == "Your Preferred Relays:" <==> custom)
    ensures p.Shown? && !custom ==> p.heading == "Default Relays:"
    ensures p.Shown? ==> (p.body.NoRelays? <==> relays == [])
    ensures p.Shown? && p.body.Chips? ==>
              && |p.body.chips| == |relays|
              && forall i :: 0 <= i < |relays| ==>
                   p.body.chips[i] == Chip(FormatRelayUrl(relays[i].url), ChipColorOf(relays[i].connected, relays[i].status))
  {
    if !isLoggedIn then Hidden
    else
      var heading := if custom then "Your Preferred Relays:" else "Default Relays:";
      if |relays| > 0 then
        Shown(heading, Chips(seq(|relays|, i requires 0 <= i < |relays| =>
          Chip(FormatRelayUrl(relays[i].url), ChipColorOf(relays[i].connected, relays[i].status)))))
      else Shown(heading, NoRelays)
  }

  /** A seeded registry shows only gray chips: every fresh entry is connecting. */
  lemma SeededPanelIsGray(custom: bool, defaults: seq<string>)
    ensures var p := RelayPanel(true, custom, SeededEntries(defaults));
            p.Shown? && p.body.Chips? ==> forall i :: 0 <= i < |p.body.chips| ==> p.body.chips[i].color == Gray
  {
    SeededEntriesShape(defaults);
  }
}
