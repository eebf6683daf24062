/** What each column of an observation says, told from the rows of the device. */
module AggregateLaws {
  import opened Text
  import opened Aggregates
  import Durations

  /** Ages that lie in the past and fit a duration. */
  predicate PastAge(age: Option<int>) {
    age.Some? ==> 0 <= age.value <= Durations.MAX_INT64
  }

  /** With ages in the past no device was last seen after the snapshot was taken. */
  lemma NeverSeenLater(e: Setting, s: Snapshot, mac: string)
    requires mac in AllMacs(s)
    requires forall l | l in Mine(s.dhcp, mac) :: PastAge(Age(e, l.lastSeen, s.now))
    requires forall r | r in Mine(s.wifi, mac) :: PastAge(Age(e, r.lastActivity, s.now))
    ensures Aggregated(e, s)[mac].lastSeenAt.Some? ==> Aggregated(e, s)[mac].lastSeenAt.value <= s.now
  {
    hide Mine, Macs, Age, AnyComplete, Aggregated, AllMacs;
    var (ls, rs) := (Mine(s.dhcp, mac), Mine(s.wifi, mac));
    LastSeenRule(e, s, mac, 0);
    if rs != [] {
      assert rs[0] in rs;
    } else if exists j :: 0 <= j < |ls| && Age(e, ls[j].lastSeen, s.now).Some? {
      var k := FirstAged(e, s.now, ls);
      LastSeenRule(e, s, mac, k);
      assert ls[k] in ls;
    }
  }

  lemma {:induction false} FirstAged(e: Setting, now: int, ls: seq<Lease>) returns (k: nat)
    requires exists j :: 0 <= j < |ls| && Age(e, ls[j].lastSeen, now).Some?
    ensures k < |ls| && Age(e, ls[k].lastSeen, now).Some? && forall j | 0 <= j < k :: Age(e, ls[j].lastSeen, now).None?
  {
    hide Age;
    k := 0;
    while Age(e, ls[k].lastSeen, now).None?
      invariant k < |ls| && forall j | 0 <= j < k :: Age(e, ls[j].lastSeen, now).None?
      decreases |ls| - k
    {
      k := k + 1;
    }
  }

  /** A sighting given as a point in time is that point, and one given as a duration lies that
      far back: `text` is what the first Wi-Fi row says, or without one the first lease. */
  lemma SightingTold(e: Setting, s: Snapshot, mac: string, text: string)
    requires mac in AllMacs(s) && (Mine(s.wifi, mac) != [] || Mine(s.dhcp, mac) != [])
    requires text == if Mine(s.wifi, mac) != [] then Mine(s.wifi, mac)[0].lastActivity
                     else Mine(s.dhcp, mac)[0].lastSeen
    ensures var seen := Aggregated(e, s)[mac].lastSeenAt;
            && (!AllSpace(text) && e.timestamp(Trim(text)).Some?
                && s.now - Durations.MAX_INT64 <= e.timestamp(Trim(text)).value <= s.now
                ==> seen == e.timestamp(Trim(text)))
            && (forall w: nat, d: nat, h: nat, m: nat, n: nat
                  | text == Durations.CompactText(w, d, h, m, n) && e.timestamp(text) == None
                    && 0 < ((((7 * w + d) * 24 + h) * 60 + m) * 60 + n) * 1_000_000_000 <= Durations.MAX_INT64 ::
                  seen == Some(s.now - ((((7 * w + d) * 24 + h) * 60 + m) * 60 + n) * 1_000_000_000))
  {
    hide Mine, Macs, Observed, Age, AnyComplete, AllSpace, Trim, Durations.CompactText;
    LastSeenRule(e, s, mac, 0);
    if !AllSpace(text) && e.timestamp(Trim(text)).Some? && e.timestamp(Trim(text)).value <= s.now {
      StampRead(e, text, s.now, e.timestamp(Trim(text)).value);
    }
    forall w: nat, d: nat, h: nat, m: nat, n: nat
      | text == Durations.CompactText(w, d, h, m, n) && e.timestamp(text) == None
        && 0 < ((((7 * w + d) * 24 + h) * 60 + m) * 60 + n) * 1_000_000_000 <= Durations.MAX_INT64
      ensures Age(e, text, s.now) == Some(((((7 * w + d) * 24 + h) * 60 + m) * 60 + n) * 1_000_000_000)
    {
      CompactRead(e, s.now, w, d, h, m, n);
    }
  }

  lemma StampRead(e: Setting, text: string, now: int, x: int)
    requires !AllSpace(text) && e.timestamp(Trim(text)) == Some(x) && x <= now
    ensures Age(e, text, now) == Some(now - x)
  {
    hide Trim, Durations.DurationOf;
    BlankExactly(text);
  }

  lemma CompactRead(e: Setting, now: int, w: nat, d: nat, h: nat, m: nat, n: nat)
    requires e.timestamp(Durations.CompactText(w, d, h, m, n)) == None
    requires 0 < ((((7 * w + d) * 24 + h) * 60 + m) * 60 + n) * 1_000_000_000 <= Durations.MAX_INT64
    ensures Age(e, Durations.CompactText(w, d, h, m, n), now)
         == Some(((((7 * w + d) * 24 + h) * 60 + m) * 60 + n) * 1_000_000_000)
  {
    hide Trim, Durations.DurationOf, Durations.CompactText;
    Durations.CompactDecimals(w, d, h, m, n);
    CompactTrimmed(w, d, h, m, n);
    TrimIsTrimmed(Durations.CompactText(w, d, h, m, n));
  }

  lemma CompactTrimmed(w: nat, d: nat, h: nat, m: nat, n: nat)
    ensures Trimmed(Durations.CompactText(w, d, h, m, n)) && Durations.CompactText(w, d, h, m, n) != ""
  {
    hide Durations.Decimal, Durations.ValueOf;
    Durations.DecimalReads(w);
    var (digits, text) := (Durations.Decimal(w), Durations.CompactText(w, d, h, m, n));
    assert digits[0] in digits && Durations.Digit(digits[0]);
    assert text[0] == digits[0] && text[|text| - 1] == 's';
  }

  /** An ARP row is complete by its mark or by a letter c among its flags. */
  lemma CompleteExactly(n: Neighbour)
    ensures Complete(n) <==> n.complete || exists i :: 0 <= i < |n.flags| && n.flags[i] in "cC"
  {
    var flags := Upper(n.flags);
    ContainsExactly(flags, "C");
    if i: int :| PartAt(flags, "C", i) { assert flags[i] == flags[i..i + 1][0]; }
    forall i | 0 <= i < |n.flags| && n.flags[i] in "cC" ensures PartAt(flags, "C", i) {
      assert flags[i..i + 1] == [flags[i]];
    }
  }

  lemma JoinTwo(a: string, b: string)
    ensures Join([a, b]) == a + ";" + b
  {
    assert [a, b][1..] == [b];
  }

  lemma JoinThree(a: string, b: string, c: string)
    ensures Join([a, b, c]) == a + ";" + b + ";" + c
  {
    assert [a, b, c][1..] == [b, c];
    JoinTwo(b, c);
    assert a + ";" + (b + ";" + c) == a + ";" + b + ";" + c;
  }

  /** The reason in words, with and without a lease that is bound, recently or not. */
  function ReasonText(wifi: bool, lease: Option<bool>, arp: bool): string {
    match (wifi, lease, arp)
    case (true, Some(true), true) => "wifi_active" + ";" + "dhcp_bound_recent" + ";" + "arp_complete"
    case (true, Some(false), true) => "wifi_active" + ";" + "arp_complete" + ";" + "dhcp_bound_stale"
    case (true, None, true) => "wifi_active" + ";" + "arp_complete"
    case (true, Some(true), false) => "wifi_active" + ";" + "dhcp_bound_recent"
    case (true, Some(false), false) => "wifi_active" + ";" + "dhcp_bound_stale"
    case (true, None, false) => "wifi_active"
    case (false, Some(true), true) => "dhcp_bound_recent" + ";" + "arp_complete"
    case (false, Some(false), true) => "arp_complete" + ";" + "dhcp_bound_stale"
    case (false, None, true) => "arp_complete"
    case (false, Some(true), false) => "dhcp_bound_recent"
    case (false, Some(false), false) => "dhcp_bound_stale"
    case (false, None, false) => "trace_present"
  }

  lemma ReasonInWords(e: Setting, o: Observation)
    requires AnyTrace(o)
    ensures ReasonOf(e, o)
         == ReasonText(WifiActive(e, o), if DhcpBound(o) then Some(DhcpRecent(e, o)) else None, ArpValid(o))
  {
    hide WifiActive, DhcpBound, ArpValid, AnyTrace, Join;
    OneReason("wifi_active");
    OneReason("dhcp_bound_recent");
    OneReason("arp_complete");
    OneReason("dhcp_bound_stale");
    JoinTwo("wifi_active", "dhcp_bound_recent");
    JoinTwo("wifi_active", "arp_complete");
    JoinTwo("wifi_active", "dhcp_bound_stale");
    JoinTwo("dhcp_bound_recent", "arp_complete");
    JoinTwo("arp_complete", "dhcp_bound_stale");
    JoinThree("wifi_active", "dhcp_bound_recent", "arp_complete");
    JoinThree("wifi_active", "arp_complete", "dhcp_bound_stale");
    Reasons(WifiActive(e, o), DhcpRecent(e, o), ArpValid(o), DhcpBound(o) && !DhcpRecent(e, o));
  }

  lemma OneReason(a: string)
    ensures Join([a]) == a
  {}

  lemma Reasons(wifi: bool, recent: bool, arp: bool, stale: bool)
    requires !(recent && stale)
    ensures (if wifi then ["wifi_active"] else []) + (if recent then ["dhcp_bound_recent"] else [])
              + (if arp then ["arp_complete"] else []) + (if stale then ["dhcp_bound_stale"] else [])
         == if wifi && arp && recent then ["wifi_active", "dhcp_bound_recent", "arp_complete"]
            else if wifi && arp && stale then ["wifi_active", "arp_complete", "dhcp_bound_stale"]
            else if wifi && arp then ["wifi_active", "arp_complete"]
            else if wifi && recent then ["wifi_active", "dhcp_bound_recent"]
            else if wifi && stale then ["wifi_active", "dhcp_bound_stale"]
            else if arp && recent then ["dhcp_bound_recent", "arp_complete"]
            else if arp && stale then ["arp_complete", "dhcp_bound_stale"]
            else if wifi then ["wifi_active"]
            else if recent then ["dhcp_bound_recent"]
            else if arp then ["arp_complete"]
            else if stale then ["dhcp_bound_stale"]
            else []
  {}

  /** Status and reason, told from the device's rows: an active Wi-Fi registration, a bound
      lease that is recent or stale, a complete ARP entry. */
  predicate StatusTold(e: Setting, now: int, ls: seq<Lease>, rs: seq<Registration>, ns: seq<Neighbour>,
                       o: Observation)
  {
    var wifi := rs != [] && !Blank(rs[|rs| - 1].iface)
                && (LastActivity(e, now, rs).None? || LastActivity(e, now, rs).value <= e.wifiIdle);
    var bound := ls != [] && Lower(Trim(ls[|ls| - 1].status)) == "bound";
    var recent := LastLeaseAge(e, now, ls).Some? && LastLeaseAge(e, now, ls).value <= e.dhcpRecent;
    var arp := AnyComplete(ns) && !Blank(ns[|ns| - 1].address);
    && o.status == (if wifi || (bound && recent) || arp then Online else IdleRecent)
    && o.reason == ReasonText(wifi, if bound then Some(recent) else None, arp)
  }

  /** Every observation has the status and the reason its rows tell. */
  lemma StatusAndReasonTold(e: Setting, s: Snapshot, mac: string)
    requires mac in AllMacs(s)
    ensures StatusTold(e, s.now, Mine(s.dhcp, mac), Mine(s.wifi, mac), Mine(s.arp, mac), Aggregated(e, s)[mac])
  {
    hide Mine, Macs, Merged, WifiActive, DhcpRecent, ArpValid, DhcpBound, AnyTrace, Finish, ReasonText;
    hide LastActivity, LastLeaseAge, AnyComplete, Blank, Lower, Trim, Observed;
    var ls, rs, ns, hs := Mine(s.dhcp, mac), Mine(s.wifi, mac), Mine(s.arp, mac), Mine(s.bridge, mac);
    var o := Merged(e, s.now, mac, ls, rs, ns, hs);
    FinishedFrom(e, s, mac);
    SourcesAreTheTables(e, s, mac);
    FinishTold(e, mac, o);
    OnlineWasSeen(e, s, mac);
    WifiRule(e, s.now, mac, ls, rs, ns, hs);
    DhcpRule(e, s.now, mac, ls, rs, ns, hs);
    BoundRule(e, s.now, mac, ls, rs, ns, hs);
    ArpRule(e, s.now, mac, ls, rs, ns, hs);
    RecentIsBound(e, o);
  }

  lemma FinishedFrom(e: Setting, s: Snapshot, mac: string)
    requires mac in AllMacs(s)
    ensures mac in Aggregated(e, s)
    ensures Aggregated(e, s)[mac] == Finish(e, mac,
      Merged(e, s.now, mac, Mine(s.dhcp, mac), Mine(s.wifi, mac), Mine(s.arp, mac), Mine(s.bridge, mac)))
  {
    hide Merged, Mine, Macs, Finish;
  }

  lemma FinishTold(e: Setting, mac: string, o: Observation)
    ensures Finish(e, mac, o).sources == o.sources
    ensures o.sources != [] ==>
              && Finish(e, mac, o).reason
                 == ReasonText(WifiActive(e, o), if DhcpBound(o) then Some(DhcpRecent(e, o)) else None, ArpValid(o))
              && Finish(e, mac, o).status
                 == if WifiActive(e, o) || DhcpRecent(e, o) || ArpValid(o) then Online else IdleRecent
  {
    hide GeneratedName, Blank, Lower, Trim, Join, ReasonOf, ReasonText;
    var vendor := e.vendor(mac);
    var named := o.(vendor := vendor, generated := GeneratedName(mac, vendor));
    if o.sources != [] { ReasonInWords(e, named); }
  }

  lemma BoundRule(e: Setting, now: int, mac: string,
                  ls: seq<Lease>, rs: seq<Registration>, ns: seq<Neighbour>, hs: seq<Host>)
    ensures DhcpBound(Merged(e, now, mac, ls, rs, ns, hs)) <==>
            ls != [] && Lower(Trim(ls[|ls| - 1].status)) == "bound"
  {
    hide Lower, Trim, LastLeaseAge;
    StatusTwice(if ls == [] then "" else ls[|ls| - 1].status);
    EmptyIsUnbound();
  }

  lemma RecentIsBound(e: Setting, o: Observation)
    ensures DhcpRecent(e, o) ==> DhcpBound(o)
  {
    hide DhcpBound;
  }

  /** The columns that the latest row of a table decides. */
  lemma LatestColumns(e: Setting, s: Snapshot, mac: string)
    requires mac in AllMacs(s)
    ensures var ls, rs, ns, hs := Mine(s.dhcp, mac), Mine(s.wifi, mac), Mine(s.arp, mac), Mine(s.bridge, mac);
            var o := Aggregated(e, s)[mac];
            && o.mac == mac && o.vendor == e.vendor(mac)
            && (ls != [] ==> o.dhcpServer == ls[|ls| - 1].server && o.dhcpStatus == Lower(Trim(ls[|ls| - 1].status)))
            && (rs != [] ==> o.wifiDriver == rs[|rs| - 1].driver && o.wifiInterface == rs[|rs| - 1].iface
                             && o.ssid == rs[|rs| - 1].ssid && o.wifiAuthType == rs[|rs| - 1].authType)
            && (ns != [] ==> o.arpIp == ns[|ns| - 1].address && o.arpInterface == ns[|ns| - 1].iface)
            && (hs != [] ==> o.bridge == hs[|hs| - 1].bridge && o.bridgePort == hs[|hs| - 1].iface)
            && (o.arpComplete <==> exists n | n in ns :: Complete(n))
  {
    hide Mine, Macs, Observed, Lower, Trim, Complete;
    hide LastSeen, SourcesOf, IpOf, SubnetOf, DhcpHostName, IfaceOf, LastLeaseAge, LastActivity, LastUptime;
    hide LastSignal, LastVlan;
    ObservedColumns(e, s, mac);
  }

  /** The columns that more than one row may fill, as searches of the rows. */
  lemma SearchedColumns(e: Setting, s: Snapshot, mac: string)
    requires mac in AllMacs(s)
    ensures var ls, rs, ns, hs := Mine(s.dhcp, mac), Mine(s.wifi, mac), Mine(s.arp, mac), Mine(s.bridge, mac);
            var o := Aggregated(e, s)[mac];
            && o.ip == IpOf(ls, ns) && o.lastSubnet == SubnetOf(e, ls, ns) && o.hostName == DhcpHostName(ls)
            && o.iface == IfaceOf(rs, ns, hs) && o.dhcpLastSeen == LastLeaseAge(e, s.now, ls)
            && o.wifiLastActivity == LastActivity(e, s.now, rs) && o.wifiUptime == LastUptime(e, s.now, rs)
            && o.wifiSignal == LastSignal(rs) && o.bridgeVlan == LastVlan(hs)
  {
    hide Mine, Macs, Observed, Lower, Trim, AnyComplete;
    hide LastSeen, SourcesOf, IpOf, SubnetOf, DhcpHostName, IfaceOf, LastLeaseAge, LastActivity, LastUptime;
    hide LastSignal, LastVlan;
    ObservedColumns(e, s, mac);
  }

  /** The columns that the latest row which fills them decides, `k` being that row. */
  lemma LeaseColumnsTold(e: Setting, s: Snapshot, mac: string, k: nat)
    requires mac in AllMacs(s) && k < |Mine(s.dhcp, mac)|
    ensures var (ls, o) := (Mine(s.dhcp, mac), Aggregated(e, s)[mac]);
            && (ls[k].address != "" && (forall j | k < j < |ls| :: ls[j].address == "") ==> o.ip == ls[k].address)
            && (ls[k].address != "" && e.subnet(ls[k].address) != ""
                && (forall j | k < j < |ls| :: ls[j].address == "" || e.subnet(ls[j].address) == "")
                ==> o.lastSubnet == e.subnet(ls[k].address))
            && (ls[k].hostName != "" && (forall j | k < j < |ls| :: ls[j].hostName == "")
                ==> o.hostName == ls[k].hostName)
            && (Age(e, ls[k].lastSeen, s.now).Some?
                && (forall j | k < j < |ls| :: Age(e, ls[j].lastSeen, s.now).None?)
                ==> o.dhcpLastSeen == Age(e, ls[k].lastSeen, s.now))
  {
    hide Mine, Macs, Age, Observed, IpOf, SubnetOf, DhcpHostName, LastLeaseAge;
    SearchedColumns(e, s, mac);
    LeaseAddress(e, Mine(s.dhcp, mac), Mine(s.arp, mac), k);
    LeaseDetails(e, s.now, Mine(s.dhcp, mac), k);
  }

  lemma LeaseAddress(e: Setting, ls: seq<Lease>, ns: seq<Neighbour>, k: nat)
    requires k < |ls|
    ensures ls[k].address != "" && (forall j | k < j < |ls| :: ls[j].address == "") ==> IpOf(ls, ns) == ls[k].address
    ensures ls[k].address != "" && e.subnet(ls[k].address) != ""
            && (forall j | k < j < |ls| :: ls[j].address == "" || e.subnet(ls[j].address) == "")
            ==> SubnetOf(e, ls, ns) == e.subnet(ls[k].address)
  {
    hide First, Last;
    LastIsLast(ls, (l: Lease) => Written(l.address));
    LastIsLast(ls, (l: Lease) => if l.address == "" then None else Written(e.subnet(l.address)));
  }

  lemma LeaseDetails(e: Setting, now: int, ls: seq<Lease>, k: nat)
    requires k < |ls|
    ensures ls[k].hostName != "" && (forall j | k < j < |ls| :: ls[j].hostName == "")
            ==> DhcpHostName(ls) == ls[k].hostName
    ensures Age(e, ls[k].lastSeen, now).Some? && (forall j | k < j < |ls| :: Age(e, ls[j].lastSeen, now).None?)
            ==> LastLeaseAge(e, now, ls) == Age(e, ls[k].lastSeen, now)
  {
    hide Age, Last;
    LastIsLast(ls, (l: Lease) => Written(l.hostName));
    LastIsLast(ls, (l: Lease) => Age(e, l.lastSeen, now));
  }

  lemma RegistrationColumnsTold(e: Setting, s: Snapshot, mac: string, k: nat)
    requires mac in AllMacs(s) && k < |Mine(s.wifi, mac)|
    ensures var (rs, o) := (Mine(s.wifi, mac), Aggregated(e, s)[mac]);
            && (!Blank(rs[k].iface) && (forall j | 0 <= j < k :: Blank(rs[j].iface)) ==> o.iface == rs[k].iface)
            && (Age(e, rs[k].lastActivity, s.now).Some?
                && (forall j | k < j < |rs| :: Age(e, rs[j].lastActivity, s.now).None?)
                ==> o.wifiLastActivity == Age(e, rs[k].lastActivity, s.now))
            && (Age(e, rs[k].uptime, s.now).Some? && (forall j | k < j < |rs| :: Age(e, rs[j].uptime, s.now).None?)
                ==> o.wifiUptime == Age(e, rs[k].uptime, s.now))
            && (SignalOf(rs[k].signal).Some? && (forall j | k < j < |rs| :: SignalOf(rs[j].signal).None?)
                ==> o.wifiSignal == SignalOf(rs[k].signal))
  {
    hide Mine, Macs, Age, Observed, Blank, SignalOf, First, Last;
    var rs := Mine(s.wifi, mac);
    SearchedColumns(e, s, mac);
    FirstIsFirst(rs, (r: Registration) => if Blank(r.iface) then None else Some(r.iface));
    LastIsLast(rs, (r: Registration) => Age(e, r.lastActivity, s.now));
    LastIsLast(rs, (r: Registration) => Age(e, r.uptime, s.now));
    LastIsLast(rs, (r: Registration) => SignalOf(r.signal));
  }

  /** ARP rows and bridge rows fill only what the earlier tables left open. */
  lemma FallbackColumns(e: Setting, s: Snapshot, mac: string, k: nat)
    requires mac in AllMacs(s)
    ensures var ls, rs, ns, hs := Mine(s.dhcp, mac), Mine(s.wifi, mac), Mine(s.arp, mac), Mine(s.bridge, mac);
            var o := Aggregated(e, s)[mac];
            && (k < |ns| && ns[k].address != "" && (forall j | 0 <= j < k :: ns[j].address == "")
                && (forall j | 0 <= j < |ls| :: ls[j].address == "")
                ==> o.ip == ns[k].address && o.lastSubnet == e.subnet(ns[k].address))
            && (k < |ns| && ns[k].iface != "" && (forall j | 0 <= j < k :: ns[j].iface == "")
                && (forall j | 0 <= j < |rs| :: Blank(rs[j].iface))
                ==> o.iface == ns[k].iface)
            && (k < |hs| && hs[k].iface != "" && (forall j | 0 <= j < k :: hs[j].iface == "")
                && (forall j | 0 <= j < |rs| :: Blank(rs[j].iface)) && (forall j | 0 <= j < |ns| :: ns[j].iface == "")
                ==> o.iface == hs[k].iface)
            && (k < |hs| && VlanOf(hs[k].vid).Some? && (forall j | k < j < |hs| :: VlanOf(hs[j].vid).None?)
                ==> o.bridgeVlan == VlanOf(hs[k].vid))
  {
    hide Mine, Macs, Observed, Blank, VlanOf, IpOf, SubnetOf, IfaceOf, LastVlan;
    SearchedColumns(e, s, mac);
    var ls, rs, ns, hs := Mine(s.dhcp, mac), Mine(s.wifi, mac), Mine(s.arp, mac), Mine(s.bridge, mac);
    FallbackAddress(e, ls, ns, k);
    FallbackInterface(rs, ns, hs, k);
    LatestVlan(hs, k);
  }

  lemma FallbackAddress(e: Setting, ls: seq<Lease>, ns: seq<Neighbour>, k: nat)
    ensures k < |ns| && ns[k].address != "" && (forall j | 0 <= j < k :: ns[j].address == "")
            && (forall j | 0 <= j < |ls| :: ls[j].address == "")
            ==> IpOf(ls, ns) == ns[k].address && SubnetOf(e, ls, ns) == e.subnet(ns[k].address)
  {
    hide First, Last;
    LastIsLast(ls, (l: Lease) => Written(l.address));
    FirstIsFirst(ns, (n: Neighbour) => Written(n.address));
  }

  lemma FallbackInterface(rs: seq<Registration>, ns: seq<Neighbour>, hs: seq<Host>, k: nat)
    ensures k < |ns| && ns[k].iface != "" && (forall j | 0 <= j < k :: ns[j].iface == "")
            && (forall j | 0 <= j < |rs| :: Blank(rs[j].iface))
            ==> IfaceOf(rs, ns, hs) == ns[k].iface
    ensures k < |hs| && hs[k].iface != "" && (forall j | 0 <= j < k :: hs[j].iface == "")
            && (forall j | 0 <= j < |rs| :: Blank(rs[j].iface)) && (forall j | 0 <= j < |ns| :: ns[j].iface == "")
            ==> IfaceOf(rs, ns, hs) == hs[k].iface
  {
    hide First, Blank;
    FirstIsFirst(rs, (r: Registration) => if Blank(r.iface) then None else Some(r.iface));
    FirstIsFirst(ns, (n: Neighbour) => Written(n.iface));
    FirstIsFirst(hs, (h: Host) => Written(h.iface));
  }

  lemma LatestVlan(hs: seq<Host>, k: nat)
    ensures k < |hs| && VlanOf(hs[k].vid).Some? && (forall j | k < j < |hs| :: VlanOf(hs[j].vid).None?)
            ==> LastVlan(hs) == VlanOf(hs[k].vid)
  {
    hide Last, VlanOf;
    LastIsLast(hs, (h: Host) => VlanOf(h.vid));
  }

  /** Signals are read with and without their unit and VLANs as plain numbers, blanks around
      the number not counting. */
  lemma NumbersAreRead(front: string, x: int, back: string)
    requires -Durations.MAX_INT64 - 1 <= x <= Durations.MAX_INT64 && AllSpace(front) && AllSpace(back)
    ensures SignalOf(front + Durations.SignedDecimal(x) + back) == Some(x)
    ensures SignalOf(front + Durations.SignedDecimal(x) + back + "dBm") == Some(x)
    ensures VlanOf(front + Durations.SignedDecimal(x) + back) == Some(x)
  {
    hide Durations.Atoi, Durations.SignedDecimal, Trim, Lower;
    var number := Durations.SignedDecimal(x);
    var text := front + number + back;
    Durations.AtoiReadsDecimals(x);
    NumberText(x);
    TrimExactly(front, number, back);
    LowerText(front, number, back);
    assert (text + "dbm")[..|text|] == text && (text + "dbm")[|text|..] == "dbm";
    if back == "" {
      assert text[|text| - 1] == number[|number| - 1];
    } else {
      assert text[|text| - 1] == back[|back| - 1];
    }
    SuffixEnd(text);
  }

  lemma LowerText(front: string, number: string, back: string)
    requires AllSpace(front) && AllSpace(back) && Lower(number) == number
    ensures Lower(front + number + back) == front + number + back
    ensures Lower(front + number + back + "dBm") == front + number + back + "dbm"
  {
    var text := front + number + back;
    forall i | 0 <= i < |text| ensures LowerChar(text[i]) == text[i] {
      if |front| <= i < |front| + |number| { assert Lower(number)[i - |front|] == LowerChar(text[i]); }
    }
    assert Lower(text) == text;
    forall i | 0 <= i < |text + "dBm"| ensures LowerChar((text + "dBm")[i]) == (text + "dbm")[i] {
      if i < |text| { assert (text + "dBm")[i] == text[i]; }
    }
  }

  lemma SuffixEnd(text: string)
    ensures HasSuffix(text, "dbm") ==> text[|text| - 1] == 'm'
  {
    if HasSuffix(text, "dbm") { assert text[|text| - 3..][2] == text[|text| - 1]; }
  }

  lemma NumberText(x: int)
    ensures var text := Durations.SignedDecimal(x);
            Trimmed(text) && Lower(text) == text && text != "" && Durations.Digit(text[|text| - 1])
  {
    hide Durations.Decimal, Durations.ValueOf;
    var n := if x < 0 then -x else x;
    Durations.DecimalReads(n);
    var (digits, text) := (Durations.Decimal(n), Durations.SignedDecimal(x));
    assert forall i | 0 <= i < |digits| :: digits[i] in digits;
    assert Durations.Digit(digits[|digits| - 1]) && text[|text| - 1] == digits[|digits| - 1];
    assert Durations.Digit(digits[0]);
  }

  lemma {:induction false} ColonsGone(s: string)
    ensures ':' !in WithoutColons(s) && (':' !in s ==> WithoutColons(s) == s)
    ensures forall c | c != ':' :: c in s <==> c in WithoutColons(s)
  {
    if s != "" {
      ColonsGone(s[1..]);
      assert s == [s[0]] + s[1..];
    }
  }

  lemma {:induction false} ColonsGoneInParts(a: string, b: string)
    ensures WithoutColons(a + b) == WithoutColons(a) + WithoutColons(b)
  {
    if a == "" {
      assert a + b == b;
    } else {
      assert (a + b)[0] == a[0] && (a + b)[1..] == a[1..] + b by { hide WithoutColons; }
      ColonsGoneInParts(a[1..], b);
      var kept := if a[0] == ':' then "" else [a[0]];
      assert kept + WithoutColons(a[1..]) + WithoutColons(b) == kept + (WithoutColons(a[1..]) + WithoutColons(b)) by {
        hide WithoutColons;
      }
    }
  }

  /** A generated name is the vendor, or "Device", and the last four characters of the MAC. */
  lemma GeneratedNameTold(front: string, x: string, y: string, vendor: string)
    requires |x| == 2 && |y| == 2 && ':' !in x && ':' !in y
    ensures GeneratedName(front + ":" + x + ":" + y, vendor)
         == (if vendor == "Unknown" then "Device" else vendor) + "-" + x + y
  {
    hide WithoutColons;
    var mac := front + ":" + x + ":" + y;
    ColonsGoneInParts(front + ":" + x + ":", y);
    ColonsGoneInParts(front + ":" + x, ":");
    ColonsGoneInParts(front + ":", x);
    ColonsGoneInParts(front, ":");
    ColonsGone(x);
    ColonsGone(y);
    ColonsGone(":");
    OneColon();
    var s := WithoutColons(mac);
    assert s == WithoutColons(front) + x + y;
    assert s[|s| - 4..] == x + y;
    assert (if vendor == "Unknown" then "Device" else vendor) + "-" + (x + y)
        == (if vendor == "Unknown" then "Device" else vendor) + "-" + x + y;
  }

  lemma OneColon()
    ensures WithoutColons(":") == ""
  {}
}
