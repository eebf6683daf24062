/** What a poll writes, column by column, told from the observations and from the router's
    rows themselves. */
module PollColumns {
  import opened Text
  import opened Aggregates
  import opened AggregateLaws
  import opened Presence
  import Durations

  // ---- Stored texts and times ----

  /** The text between the blanks around it. */
  ghost predicate Core(core: string, text: string) {
    Trimmed(core) && core != ""
    && exists front, back :: AllSpace(front) && AllSpace(back) && text == front + core + back
  }

  /** A column holds the text without its surrounding blanks, and nothing for a blank text. */
  ghost predicate TextColumn(stored: Option<string>, text: string) {
    match stored
    case None => AllSpace(text)
    case Some(core) => Core(core, text)
  }

  lemma {:induction false} LeftSplit(s: string)
    ensures exists front :: AllSpace(front) && s == front + TrimLeft(s)
  {
    if s != "" && IsSpace(s[0]) {
      LeftSplit(s[1..]);
      var front :| AllSpace(front) && s[1..] == front + TrimLeft(s[1..]);
      assert AllSpace([s[0]] + front) && s == [s[0]] + front + TrimLeft(s);
    } else {
      assert AllSpace("") && s == "" + TrimLeft(s);
    }
  }

  lemma {:induction false} RightSplit(s: string)
    ensures exists back :: AllSpace(back) && s == TrimRight(s) + back
  {
    if s != "" && IsSpace(s[|s| - 1]) {
      var n := |s| - 1;
      RightSplit(s[..n]);
      var back :| AllSpace(back) && s[..n] == TrimRight(s[..n]) + back;
      assert AllSpace(back + [s[n]]) && s == TrimRight(s) + (back + [s[n]]);
    } else {
      assert AllSpace("") && s == TrimRight(s) + "";
    }
  }

  lemma TrimIsCore(s: string)
    ensures !Blank(s) ==> Core(Trim(s), s)
    ensures Blank(s) <==> AllSpace(s)
  {
    BlankExactly(s);
    TrimIsTrimmed(s);
    LeftSplit(s);
    RightSplit(TrimLeft(s));
    var front :| AllSpace(front) && s == front + TrimLeft(s);
    var back :| AllSpace(back) && TrimLeft(s) == Trim(s) + back;
    assert s == front + Trim(s) + back;
  }

  lemma StoredText(s: string)
    ensures TextColumn(TextOrNone(s), s)
  {
    hide Trim, Core, AllSpace;
    TrimIsCore(s);
  }

  /** Durations are stored as the nearest number of seconds, halves up, without a sign. */
  predicate SecondsColumn(stored: Option<int>, d: Option<int>) {
    && (stored.None? <==> d.None?)
    && (d.Some? && -9_223_372_036_000_000_000 <= d.value <= 9_223_372_036_000_000_000 ==>
          var size := if d.value < 0 then -d.value else d.value;
          -1_000_000_000 < 2 * (stored.value * 1_000_000_000 - size) <= 1_000_000_000)
  }

  lemma StoredSeconds(d: Option<int>)
    ensures SecondsColumn(Seconds(d), d)
  {
    if d.Some? && -9_223_372_036_000_000_000 <= d.value <= 9_223_372_036_000_000_000 { NearestSecond(d.value); }
  }

  lemma NearestSecond(d: int)
    requires -9_223_372_036_000_000_000 <= d <= 9_223_372_036_000_000_000
    ensures -1_000_000_000 < 2 * (SecondsOf(d) * 1_000_000_000 - Abs(d)) <= 1_000_000_000
  {
    var q, r := Abs(d) / 1_000_000_000, Abs(d) % 1_000_000_000;
    assert Abs(d) == q * 1_000_000_000 + r;
    assert q <= 9_223_372_036 && (q == 9_223_372_036 ==> r == 0);
  }

  // ---- The row of a device that was seen ----

  /** Address, subnet and sighting are the observed ones, or else those stored before. */
  lemma SeenRow(t: Tables, observed: Observations, mac: string, now: int, hard: int)
    requires mac in observed
    ensures var (o, after) := (observed[mac], Polled(t, observed, now, hard).states);
            && mac in after
            && var (s, before) := (after[mac], Get(t.states, mac));
            && (s.online <==> o.status == Online)
            && s.sources == o.sources && s.updatedAt == now
            && (o.status != Unset ==> s.status == o.status)
            && (if AllSpace(o.reason) then s.reason == "no_signal" else Core(s.reason, o.reason))
            && s.lastSeenAt == (if o.lastSeenAt.Some? then o.lastSeenAt
                                else if before.Some? then before.value.lastSeenAt else None)
            && s.lastIp == (if o.ip != "" then Some(o.ip) else if before.Some? then before.value.lastIp else None)
            && s.lastSubnet == (if o.lastSubnet != "" then Some(o.lastSubnet)
                                else if before.Some? then before.value.lastSubnet else None)
  {
    hide Trim, Core, AllSpace, DetailsOf;
    TrimIsCore(observed[mac].reason);
  }

  lemma SeenDetails(t: Tables, observed: Observations, mac: string, now: int, hard: int)
    requires mac in observed
    ensures mac in Polled(t, observed, now, hard).states
    ensures Polled(t, observed, now, hard).states[mac].details == DetailsOf(observed[mac])
  {
    hide DetailsOf, Trim;
  }

  /** All other columns are the observed ones: texts without blanks, durations in seconds. */
  lemma DetailColumns(t: Tables, observed: Observations, mac: string, now: int, hard: int)
    requires mac in observed
    ensures mac in Polled(t, observed, now, hard).states
    ensures var (o, d) := (observed[mac], Polled(t, observed, now, hard).states[mac].details);
            && TextColumn(d.hostName, o.hostName) && TextColumn(d.iface, o.iface)
            && TextColumn(d.bridge, o.bridge) && TextColumn(d.ssid, o.ssid)
            && TextColumn(d.dhcpServer, o.dhcpServer) && TextColumn(d.dhcpStatus, o.dhcpStatus)
            && TextColumn(d.wifiDriver, o.wifiDriver) && TextColumn(d.wifiInterface, o.wifiInterface)
            && TextColumn(d.wifiAuthType, o.wifiAuthType) && TextColumn(d.bridgePort, o.bridgePort)
            && TextColumn(d.arpIp, o.arpIp) && TextColumn(d.arpInterface, o.arpInterface)
            && SecondsColumn(d.dhcpLastSeenSec, o.dhcpLastSeen)
            && SecondsColumn(d.wifiLastActSec, o.wifiLastActivity) && SecondsColumn(d.wifiUptimeSec, o.wifiUptime)
            && d.wifiSignal == o.wifiSignal && d.arpComplete == o.arpComplete && d.bridgeVlan == o.bridgeVlan
  {
    hide TextOrNone, Seconds, TextColumn, SecondsColumn, Polled;
    var o := observed[mac];
    SeenDetails(t, observed, mac, now, hard);
    StoredText(o.hostName);
    StoredText(o.iface);
    StoredText(o.bridge);
    StoredText(o.ssid);
    StoredText(o.dhcpServer);
    StoredText(o.dhcpStatus);
    StoredText(o.wifiDriver);
    StoredText(o.wifiInterface);
    StoredText(o.wifiAuthType);
    StoredText(o.bridgePort);
    StoredText(o.arpIp);
    StoredText(o.arpInterface);
    StoredSeconds(o.dhcpLastSeen);
    StoredSeconds(o.wifiLastActivity);
    StoredSeconds(o.wifiUptime);
  }

  /** A registered device that was not seen goes offline after the threshold, and before that
      is idle if anything was ever known of it; the texts say why. All else stays. */
  lemma AwayRow(t: Tables, observed: Observations, mac: string, now: int, hard: int)
    requires mac !in observed && mac in t.states && mac in t.registered
    ensures var (before, after) := (t.states[mac], Polled(t, observed, now, hard).states);
            && mac in after
            && var s := after[mac];
            var traced := before.lastSeenAt.Some? || before.lastIp.Some? || before.details.hostName.Some?
                          || before.details.dhcpStatus.Some? || before.details.wifiInterface.Some?
                          || before.details.arpIp.Some? || before.details.bridgePort.Some?
                          || before.details.bridge.Some?;
            && !s.online && s.sources == [] && s.updatedAt == now
            && (if before.lastSeenAt.Some? && now - before.lastSeenAt.value > hard then
                  s.status == Offline && s.reason == "no_signal;offline_hard_threshold_exceeded"
                else if traced then
                  s.status == IdleRecent && s.reason == "no_current_signal;historical_trace_present"
                else s.status == Unknown && s.reason == "no_signal")
            && s == before.(online := false, sources := [], updatedAt := now, status := s.status, reason := s.reason)
  {
    hide Trim;
    PlainReason("no_signal;offline_hard_threshold_exceeded");
    PlainReason("no_current_signal;historical_trace_present");
    PlainReason("no_signal");
  }

  lemma PlainReason(reason: string)
    requires Trimmed(reason)
    ensures Trim(reason) == reason
  {
    TrimIsTrimmed(reason);
  }

  // ---- The name and the vendor ----

  /** The name of a device that was seen: the host name it gives; else the name it has,
      unless that is blank or a generated placeholder, which the new generated name replaces.
      Its vendor: the one looked up if known, else the one it has, if any. */
  lemma SeenName(t: Tables, observed: Observations, mac: string, now: int, hard: int)
    requires mac in observed
    ensures var (o, after) := (observed[mac], Polled(t, observed, now, hard).cache);
            && mac in after
            && var (named, known) :=
                 (after[mac].generatedName, if mac in t.cache then t.cache[mac].generatedName else "");
            var (vendor, before) := (after[mac].vendor, if mac in t.cache then t.cache[mac].vendor else "");
            && (if !AllSpace(o.hostName) then Core(named, o.hostName)
                else if AllSpace(known) || "Device-" <= known then named == o.generated
                else named == known)
            && (if o.vendor !in ["", "Unknown"] then vendor == o.vendor
                else vendor == if AllSpace(before) then o.vendor else before)
  {
    hide Trim, Core, AllSpace, NextState;
    TrimIsCore(observed[mac].hostName);
    if mac in t.cache {
      TrimIsCore(t.cache[mac].generatedName);
      TrimIsCore(t.cache[mac].vendor);
    }
    TrimIsCore("");
  }

  // ---- From the router's table to the stored row ----

  /** One poll from end to end: the address and the host name that the last lease of a device
      gives are in its row, and the host name is the device's name. */
  lemma LeaseReachesTheRow(e: Setting, s: Snapshot, t: Tables, mac: string, now: int, hard: int, k: nat)
    requires mac in AllMacs(s) && k < |Mine(s.dhcp, mac)|
    ensures var (l, after) := (Mine(s.dhcp, mac)[k], Polled(t, Aggregated(e, s), now, hard));
            && mac in after.states && mac in after.cache
            && (l.address != "" && (forall j | k < j < |Mine(s.dhcp, mac)| :: Mine(s.dhcp, mac)[j].address == "")
                ==> after.states[mac].lastIp == Some(l.address))
            && (!AllSpace(l.hostName)
                && (forall j | k < j < |Mine(s.dhcp, mac)| :: Mine(s.dhcp, mac)[j].hostName == "")
                ==> Core(after.cache[mac].generatedName, l.hostName)
                    && TextColumn(after.states[mac].details.hostName, l.hostName))
  {
    hide Mine, Macs, Observed, Polled, Core, TextColumn, AllSpace, Age;
    var observed := Aggregated(e, s);
    LeaseColumnsTold(e, s, mac, k);
    SeenRow(t, observed, mac, now, hard);
    SeenName(t, observed, mac, now, hard);
    DetailColumns(t, observed, mac, now, hard);
    EmptyIsSpace();
  }

  lemma EmptyIsSpace()
    ensures AllSpace("")
  {}

  // ---- Registrations ----

  /** A registration stores what it is given without surrounding blanks, and blanks count as
      not given: such columns stay as they were. */
  lemma RegistrationColumns(known: Option<Registered>, i: Input, now: int)
    ensures var r := Upserted(known, i, now);
            && r.updatedAt == now && r.createdAt == (if known.Some? then known.value.createdAt else now)
            && (if i.name.Some? && !AllSpace(i.name.value) then r.name.Some? && Core(r.name.value, i.name.value)
                else r.name == if known.Some? then known.value.name else None)
            && (if i.icon.Some? && !AllSpace(i.icon.value) then r.icon.Some? && Core(r.icon.value, i.icon.value)
                else r.icon == if known.Some? then known.value.icon else None)
            && (if i.comment.Some? && !AllSpace(i.comment.value)
                then r.comment.Some? && Core(r.comment.value, i.comment.value)
                else r.comment == if known.Some? then known.value.comment else None)
  {
    hide Trim, Core, AllSpace;
    if i.name.Some? { TrimIsCore(i.name.value); }
    if i.icon.Some? { TrimIsCore(i.icon.value); }
    if i.comment.Some? { TrimIsCore(i.comment.value); }
  }
}
