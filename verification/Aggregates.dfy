/** Merging one router snapshot into one observation per device
    (addon/internal/aggregator/aggregator.go). The snapshot's own clock reading is `now`;
    the subnet matcher, the vendor table and timestamp parsing are parameters. Times and
    durations are nanoseconds. */
module Aggregates {
  import opened Text
  import Durations

  /** A row of a router table: the device it is about, and the rest of its columns. */
  datatype Row<+T> = Row(mac: string, info: T)

  datatype Lease = Lease(address: string, hostName: string, server: string, status: string, lastSeen: string)

  datatype Registration = Registration(
    driver: string, iface: string, ssid: string, authType: string,
    lastActivity: string, uptime: string, signal: string)

  datatype Neighbour = Neighbour(address: string, iface: string, flags: string, complete: bool)

  datatype Host = Host(bridge: string, iface: string, vid: string)

  datatype Snapshot = Snapshot(
    now: int, dhcp: seq<Row<Lease>>, wifi: seq<Row<Registration>>,
    arp: seq<Row<Neighbour>>, bridge: seq<Row<Host>>)

  /** What the aggregator is built with; "" is the matcher's answer for no subnet. */
  datatype Setting = Setting(
    timestamp: string -> Option<int>, subnet: string -> string, vendor: string -> string,
    wifiIdle: int, dhcpRecent: int)

  datatype Source = Dhcp | WiFi | Arp | Bridge

  /** Unset is the zero value before a status is computed. */
  datatype Status = Unset | Online | IdleRecent | Offline | Unknown

  datatype Observation = Observation(
    mac: string, ip: string, hostName: string, iface: string, bridge: string, ssid: string,
    online: bool, lastSeenAt: Option<int>, sources: seq<Source>, lastSubnet: string,
    vendor: string, generated: string,
    dhcpServer: string, dhcpStatus: string, dhcpLastSeen: Option<int>,
    wifiDriver: string, wifiInterface: string, wifiLastActivity: Option<int>,
    wifiUptime: Option<int>, wifiAuthType: string, wifiSignal: Option<int>,
    arpIp: string, arpInterface: string, arpComplete: bool,
    bridgePort: string, bridgeVlan: Option<int>,
    status: Status, reason: string)

  // ---- One row merged into one observation ----

  /** An observation under construction, and the priority its last-seen time was set with. */
  datatype Cell = Cell(obs: Observation, priority: Option<int>)

  function Fresh(mac: string): Observation {
    Observation(mac, "", "", "", "", "", false, None, [], "", "", "",
                "", "", None, "", "", None, None, "", None, "", "", false, "", None, Unset, "")
  }

  function SetLastSeen(c: Cell, time: int, priority: int): (merged: Cell)
    ensures c.priority.Some? ==> merged.priority.Some?
  {
    if c.priority.None? || priority < c.priority.value || c.obs.lastSeenAt.None?
    then Cell(c.obs.(lastSeenAt := Some(time)), Some(priority))
    else c
  }

  function AppendSource(sources: seq<Source>, s: Source): seq<Source> {
    if s in sources then sources else sources + [s]
  }

  function Age(e: Setting, text: string, now: int): Option<int> {
    Durations.AgeOf(e.timestamp, text, now)
  }

  /** `now.Add(-age)`, the negation in 64 bits. */
  function Before(now: int, age: int): int {
    now + Durations.Wrap(-age)
  }

  function Keep(value: string, kept: string): string {
    if value != "" then value else kept
  }

  function Or<T>(value: Option<T>, kept: Option<T>): Option<T> {
    if value.Some? then value else kept
  }

  function MergeLease(e: Setting, now: int, c: Cell, l: Lease): (merged: Cell)
    ensures c.priority.Some? ==> merged.priority.Some?
  {
    var o := c.obs.(sources := AppendSource(c.obs.sources, Dhcp));
    var o := if l.address == "" then o
             else o.(ip := l.address, lastSubnet := Keep(e.subnet(l.address), o.lastSubnet));
    var o := o.(hostName := Keep(l.hostName, o.hostName), dhcpServer := l.server, dhcpStatus := Lower(Trim(l.status)));
    match Age(e, l.lastSeen, now)
    case None => Cell(o, c.priority)
    case Some(age) => SetLastSeen(Cell(o.(dhcpLastSeen := Some(age)), c.priority), Before(now, age), 2)
  }

  /** parseSignal */
  function SignalOf(text: string): Option<int> {
    Durations.Atoi(Trim(TrimSuffix(Lower(text), "dbm")))
  }

  /** parseVLAN */
  function VlanOf(text: string): Option<int> {
    Durations.Atoi(Trim(text))
  }

  function MergeRegistration(e: Setting, now: int, c: Cell, r: Registration): (merged: Cell)
    ensures c.priority.Some? ==> merged.priority.Some?
  {
    var o := c.obs.(sources := AppendSource(c.obs.sources, WiFi));
    var o := o.(wifiDriver := r.driver, wifiInterface := r.iface, ssid := r.ssid, wifiAuthType := r.authType,
                iface := if !Blank(o.iface) then o.iface else if !Blank(r.iface) then r.iface else "");
    var age := Age(e, r.lastActivity, now);
    var o := o.(wifiLastActivity := Or(age, o.wifiLastActivity));
    var seen := SetLastSeen(Cell(o, c.priority), if age.Some? then Before(now, age.value) else now, 1);
    seen.(obs := seen.obs.(wifiUptime := Or(Age(e, r.uptime, now), seen.obs.wifiUptime),
                           wifiSignal := Or(SignalOf(r.signal), seen.obs.wifiSignal)))
  }

  predicate Complete(n: Neighbour) {
    n.complete || Contains(Upper(n.flags), "C")
  }

  function MergeNeighbour(e: Setting, now: int, c: Cell, n: Neighbour): (merged: Cell)
    ensures c.priority.Some? ==> merged.priority.Some?
  {
    var o := c.obs.(sources := AppendSource(c.obs.sources, Arp), arpIp := n.address, arpInterface := n.iface);
    var o := if o.iface == "" then o.(iface := n.iface) else o;
    var o := if Complete(n) then o.(arpComplete := true) else o;
    var o := if o.ip == "" && n.address != ""
             then o.(ip := n.address, lastSubnet := Keep(e.subnet(n.address), o.lastSubnet)) else o;
    if o.arpComplete then SetLastSeen(Cell(o, c.priority), now, 3) else Cell(o, c.priority)
  }

  function MergeHost(now: int, c: Cell, h: Host): (merged: Cell)
    ensures c.priority.Some? ==> merged.priority.Some?
  {
    var o := c.obs.(sources := AppendSource(c.obs.sources, Bridge), bridge := h.bridge, bridgePort := h.iface);
    var o := if o.iface == "" then o.(iface := h.iface) else o;
    SetLastSeen(Cell(o.(bridgeVlan := Or(VlanOf(h.vid), o.bridgeVlan)), c.priority), now, 4)
  }

  // ---- Status ----

  /** strings.ReplaceAll(s, ":", "") */
  function WithoutColons(s: string): string {
    if s == "" then "" else (if s[0] == ':' then "" else [s[0]]) + WithoutColons(s[1..])
  }

  function GeneratedName(mac: string, vendor: string): string {
    var s := WithoutColons(mac);
    var suffix := if |s| >= 4 then s[|s| - 4..] else s;
    (if vendor == "Unknown" then "Device" else vendor) + "-" + suffix
  }

  predicate WifiActive(e: Setting, o: Observation) {
    !Blank(o.wifiInterface) && (o.wifiLastActivity.None? || o.wifiLastActivity.value <= e.wifiIdle)
  }

  predicate DhcpBound(o: Observation) {
    Lower(Trim(o.dhcpStatus)) == "bound"
  }

  predicate DhcpRecent(e: Setting, o: Observation) {
    DhcpBound(o) && o.dhcpLastSeen.Some? && o.dhcpLastSeen.value <= e.dhcpRecent
  }

  predicate ArpValid(o: Observation) {
    o.arpComplete && !Blank(o.arpIp)
  }

  predicate AnyTrace(o: Observation) {
    || |o.sources| > 0 || !Blank(o.ip) || !Blank(o.hostName) || !Blank(o.dhcpStatus)
    || !Blank(o.wifiInterface) || !Blank(o.arpIp) || !Blank(o.bridgePort)
  }

  function StatusOf(e: Setting, o: Observation): Status {
    if WifiActive(e, o) || DhcpRecent(e, o) || ArpValid(o) then Online
    else if DhcpBound(o) || AnyTrace(o) then IdleRecent
    else Unknown
  }

  function Join(parts: seq<string>): string {
    if parts == [] then "" else if |parts| == 1 then parts[0] else parts[0] + ";" + Join(parts[1..])
  }

  function ReasonOf(e: Setting, o: Observation): string {
    var reasons :=
      (if WifiActive(e, o) then ["wifi_active"] else [])
      + (if DhcpRecent(e, o) then ["dhcp_bound_recent"] else [])
      + (if ArpValid(o) then ["arp_complete"] else [])
      + (if DhcpBound(o) && !DhcpRecent(e, o) then ["dhcp_bound_stale"] else []);
    if reasons != [] then Join(reasons) else if AnyTrace(o) then "trace_present" else "no_signal"
  }

  function Finish(e: Setting, mac: string, o: Observation): Observation {
    var vendor := e.vendor(mac);
    var o := o.(vendor := vendor, generated := GeneratedName(mac, vendor));
    o.(status := StatusOf(e, o), online := StatusOf(e, o) == Online, reason := ReasonOf(e, o))
  }

  // ---- What a device's rows say, column by column ----

  /** The last value a column offers. */
  function Last<T, U>(rows: seq<T>, column: T -> Option<U>): Option<U> {
    if rows == [] then None
    else if column(rows[|rows| - 1]).Some? then column(rows[|rows| - 1])
    else Last(rows[..|rows| - 1], column)
  }

  /** The first value a column offers. */
  function First<T, U>(rows: seq<T>, column: T -> Option<U>): Option<U> {
    if rows == [] then None
    else if First(rows[..|rows| - 1], column).Some? then First(rows[..|rows| - 1], column)
    else column(rows[|rows| - 1])
  }

  function Written(s: string): Option<string> {
    if s == "" then None else Some(s)
  }

  function Filled(s: Option<string>): string {
    if s.Some? then s.value else ""
  }

  function DhcpAddress(ls: seq<Lease>): Option<string> {
    Last(ls, (l: Lease) => Written(l.address))
  }

  function DhcpSubnet(e: Setting, ls: seq<Lease>): string {
    Filled(Last(ls, (l: Lease) => if l.address == "" then None else Written(e.subnet(l.address))))
  }

  function DhcpHostName(ls: seq<Lease>): string {
    Filled(Last(ls, (l: Lease) => Written(l.hostName)))
  }

  function LastLeaseAge(e: Setting, now: int, ls: seq<Lease>): Option<int> {
    Last(ls, (l: Lease) => Age(e, l.lastSeen, now))
  }

  function FirstLeaseAge(e: Setting, now: int, ls: seq<Lease>): Option<int> {
    First(ls, (l: Lease) => Age(e, l.lastSeen, now))
  }

  function LastActivity(e: Setting, now: int, rs: seq<Registration>): Option<int> {
    Last(rs, (r: Registration) => Age(e, r.lastActivity, now))
  }

  function LastUptime(e: Setting, now: int, rs: seq<Registration>): Option<int> {
    Last(rs, (r: Registration) => Age(e, r.uptime, now))
  }

  function LastSignal(rs: seq<Registration>): Option<int> {
    Last(rs, (r: Registration) => SignalOf(r.signal))
  }

  function WifiIface(rs: seq<Registration>): Option<string> {
    First(rs, (r: Registration) => if Blank(r.iface) then None else Some(r.iface))
  }

  function ArpAddress(ns: seq<Neighbour>): Option<string> {
    First(ns, (n: Neighbour) => Written(n.address))
  }

  function ArpIface(ns: seq<Neighbour>): Option<string> {
    First(ns, (n: Neighbour) => Written(n.iface))
  }

  predicate AnyComplete(ns: seq<Neighbour>) {
    exists n | n in ns :: Complete(n)
  }

  function HostIface(hs: seq<Host>): Option<string> {
    First(hs, (h: Host) => Written(h.iface))
  }

  function LastVlan(hs: seq<Host>): Option<int> {
    Last(hs, (h: Host) => VlanOf(h.vid))
  }

  /** When the device was last seen: the first Wi-Fi row's time if any, else the first DHCP
      row with a readable age, else now if an ARP row is complete or a bridge row exists. */
  function LastSeen(e: Setting, now: int, ls: seq<Lease>, rs: seq<Registration>, ns: seq<Neighbour>, hs: seq<Host>)
    : Option<int>
  {
    if rs != [] then
      var age := Age(e, rs[0].lastActivity, now);
      Some(if age.Some? then Before(now, age.value) else now)
    else if FirstLeaseAge(e, now, ls).Some? then Some(Before(now, FirstLeaseAge(e, now, ls).value))
    else if AnyComplete(ns) || hs != [] then Some(now)
    else None
  }

  function Priority(e: Setting, now: int, ls: seq<Lease>, rs: seq<Registration>, ns: seq<Neighbour>, hs: seq<Host>)
    : Option<int>
  {
    if rs != [] then Some(1)
    else if FirstLeaseAge(e, now, ls).Some? then Some(2)
    else if AnyComplete(ns) then Some(3)
    else if hs != [] then Some(4)
    else None
  }

  function Listed(present: bool, s: Source): seq<Source> {
    if present then [s] else []
  }

  function SourcesOf(ls: seq<Lease>, rs: seq<Registration>, ns: seq<Neighbour>, hs: seq<Host>): seq<Source> {
    Listed(ls != [], Dhcp) + Listed(rs != [], WiFi) + Listed(ns != [], Arp) + Listed(hs != [], Bridge)
  }

  function IpOf(ls: seq<Lease>, ns: seq<Neighbour>): string {
    if DhcpAddress(ls).Some? then DhcpAddress(ls).value else Filled(ArpAddress(ns))
  }

  function SubnetOf(e: Setting, ls: seq<Lease>, ns: seq<Neighbour>): string {
    if DhcpAddress(ls).Some? then DhcpSubnet(e, ls)
    else if ArpAddress(ns).Some? then e.subnet(ArpAddress(ns).value)
    else ""
  }

  function IfaceOf(rs: seq<Registration>, ns: seq<Neighbour>, hs: seq<Host>): string {
    if WifiIface(rs).Some? then WifiIface(rs).value
    else if ArpIface(ns).Some? then ArpIface(ns).value
    else Filled(HostIface(hs))
  }

  /** The observation of a device as a function of its own rows, each field on its own. */
  function Merged(e: Setting, now: int, mac: string,
                  ls: seq<Lease>, rs: seq<Registration>, ns: seq<Neighbour>, hs: seq<Host>): Observation
  {
    var lease := if ls == [] then Lease("", "", "", "", "") else ls[|ls| - 1];
    var reg := if rs == [] then Registration("", "", "", "", "", "", "") else rs[|rs| - 1];
    var arp := if ns == [] then Neighbour("", "", "", false) else ns[|ns| - 1];
    var host := if hs == [] then Host("", "", "") else hs[|hs| - 1];
    Fresh(mac).(
    ip := IpOf(ls, ns), hostName := DhcpHostName(ls), iface := IfaceOf(rs, ns, hs),
    bridge := host.bridge, ssid := reg.ssid, lastSeenAt := LastSeen(e, now, ls, rs, ns, hs),
    sources := SourcesOf(ls, rs, ns, hs), lastSubnet := SubnetOf(e, ls, ns),
    dhcpServer := lease.server, dhcpStatus := Lower(Trim(lease.status)), dhcpLastSeen := LastLeaseAge(e, now, ls),
    wifiDriver := reg.driver, wifiInterface := reg.iface, wifiLastActivity := LastActivity(e, now, rs),
    wifiUptime := LastUptime(e, now, rs), wifiAuthType := reg.authType, wifiSignal := LastSignal(rs),
    arpIp := arp.address, arpInterface := arp.iface, arpComplete := AnyComplete(ns),
    bridgePort := host.iface, bridgeVlan := LastVlan(hs))
  }

  function MergedCell(e: Setting, now: int, mac: string,
                      ls: seq<Lease>, rs: seq<Registration>, ns: seq<Neighbour>, hs: seq<Host>): Cell
  {
    Cell(Merged(e, now, mac, ls, rs, ns, hs), Priority(e, now, ls, rs, ns, hs))
  }

  lemma Appended<T>(rows: seq<T>, x: T)
    ensures (rows + [x])[..|rows|] == rows && (rows + [x])[|rows|] == x && |rows + [x]| == |rows| + 1
  {}

  lemma LeaseColumns(e: Setting, now: int, ls: seq<Lease>, l: Lease)
    ensures DhcpAddress(ls + [l]) == Or(Written(l.address), DhcpAddress(ls))
    ensures DhcpHostName(ls + [l]) == Keep(l.hostName, DhcpHostName(ls))
    ensures LastLeaseAge(e, now, ls + [l]) == Or(Age(e, l.lastSeen, now), LastLeaseAge(e, now, ls))
    ensures FirstLeaseAge(e, now, ls + [l]) == Or(FirstLeaseAge(e, now, ls), Age(e, l.lastSeen, now))
    ensures DhcpSubnet(e, ls + [l]) == if l.address == "" then DhcpSubnet(e, ls)
      else Keep(e.subnet(l.address), DhcpSubnet(e, ls))
  {
    hide Age;
    Appended(ls, l);
  }

  lemma RegistrationColumns(e: Setting, now: int, rs: seq<Registration>, r: Registration)
    ensures LastActivity(e, now, rs + [r]) == Or(Age(e, r.lastActivity, now), LastActivity(e, now, rs))
    ensures LastUptime(e, now, rs + [r]) == Or(Age(e, r.uptime, now), LastUptime(e, now, rs))
    ensures LastSignal(rs + [r]) == Or(SignalOf(r.signal), LastSignal(rs))
    ensures WifiIface(rs + [r]) == Or(WifiIface(rs), if Blank(r.iface) then None else Some(r.iface))
  {
    hide Age, SignalOf, Blank;
    Appended(rs, r);
  }

  lemma NeighbourColumns(ns: seq<Neighbour>, n: Neighbour)
    ensures ArpAddress(ns + [n]) == Or(ArpAddress(ns), Written(n.address))
    ensures ArpIface(ns + [n]) == Or(ArpIface(ns), Written(n.iface))
    ensures AnyComplete(ns + [n]) <==> AnyComplete(ns) || Complete(n)
  {
    hide Complete;
    Appended(ns, n);
    assert n in ns + [n];
    assert forall m :: m in ns + [n] <==> m in ns || m == n;
  }

  lemma HostColumns(hs: seq<Host>, h: Host)
    ensures HostIface(hs + [h]) == Or(HostIface(hs), Written(h.iface))
    ensures LastVlan(hs + [h]) == Or(VlanOf(h.vid), LastVlan(hs))
  {
    hide VlanOf;
    Appended(hs, h);
  }

  lemma NoRows(e: Setting, now: int)
    ensures DhcpAddress([]) == None && DhcpHostName([]) == "" && DhcpSubnet(e, []) == ""
    ensures LastLeaseAge(e, now, []) == None && FirstLeaseAge(e, now, []) == None
    ensures LastActivity(e, now, []) == None && LastUptime(e, now, []) == None && LastSignal([]) == None
    ensures WifiIface([]) == None && ArpAddress([]) == None && ArpIface([]) == None && !AnyComplete([])
    ensures HostIface([]) == None && LastVlan([]) == None
  {}

  /** What a column offers is written, and without an address there is no subnet. */
  lemma {:induction false} LeaseFacts(e: Setting, ls: seq<Lease>)
    ensures DhcpAddress(ls) != Some("")
    ensures DhcpAddress(ls).None? ==> DhcpSubnet(e, ls) == ""
  {
    if ls != [] {
      var n := |ls| - 1;
      LeaseFacts(e, ls[..n]);
      LeaseColumns(e, 0, ls[..n], ls[n]);
      assert ls[..n] + [ls[n]] == ls;
    }
  }

  lemma {:induction false} RegistrationFacts(rs: seq<Registration>)
    ensures WifiIface(rs).Some? ==> !Blank(WifiIface(rs).value)
  {
    hide Blank;
    if rs != [] { RegistrationFacts(rs[..|rs| - 1]); }
  }

  lemma {:induction false} NeighbourFacts(ns: seq<Neighbour>)
    ensures ArpAddress(ns) != Some("") && ArpIface(ns) != Some("")
  {
    if ns != [] { NeighbourFacts(ns[..|ns| - 1]); }
  }

  lemma {:induction false} HostFacts(hs: seq<Host>)
    ensures HostIface(hs) != Some("")
  {
    if hs != [] { HostFacts(hs[..|hs| - 1]); }
  }

  /** Each pass adds its source once, after those of the earlier passes. */
  lemma SourceSteps(ls: seq<Lease>, rs: seq<Registration>, ns: seq<Neighbour>, hs: seq<Host>)
    ensures forall l: Lease :: AppendSource(SourcesOf(ls, [], [], []), Dhcp) == SourcesOf(ls + [l], [], [], [])
    ensures forall r: Registration :: AppendSource(SourcesOf(ls, rs, [], []), WiFi) == SourcesOf(ls, rs + [r], [], [])
    ensures forall n: Neighbour :: AppendSource(SourcesOf(ls, rs, ns, []), Arp) == SourcesOf(ls, rs, ns + [n], [])
    ensures forall h: Host :: AppendSource(SourcesOf(ls, rs, ns, hs), Bridge) == SourcesOf(ls, rs, ns, hs + [h])
  {}

  lemma BlankEmpty()
    ensures Blank("")
  {}

  /** One more lease, before the other passes have started. */
  lemma LeaseStep(e: Setting, now: int, mac: string, ls: seq<Lease>, l: Lease)
    ensures MergeLease(e, now, MergedCell(e, now, mac, ls, [], [], []), l)
         == MergedCell(e, now, mac, ls + [l], [], [], [])
  {
    hide Age, Lower, Trim, First, Last, DhcpAddress, DhcpHostName, DhcpSubnet, LastLeaseAge, FirstLeaseAge,
         LastActivity, LastUptime, LastSignal, WifiIface, ArpAddress, ArpIface, HostIface, LastVlan,
         AnyComplete, Before,
         AppendSource, SourcesOf;
    Appended(ls, l);
    NoRows(e, now);
    SourceSteps(ls, [], [], []);
    LeaseFacts(e, ls);
    LeaseColumns(e, now, ls, l);
  }

  lemma RegistrationStep(e: Setting, now: int, mac: string, ls: seq<Lease>, rs: seq<Registration>, r: Registration)
    ensures MergeRegistration(e, now, MergedCell(e, now, mac, ls, rs, [], []), r)
         == MergedCell(e, now, mac, ls, rs + [r], [], [])
  {
    hide Age, Lower, Trim, First, Last, DhcpAddress, DhcpHostName, DhcpSubnet, LastLeaseAge, FirstLeaseAge, Blank,
         SignalOf,
         LastActivity, LastUptime, LastSignal, WifiIface, ArpAddress, ArpIface, HostIface, LastVlan,
         AnyComplete, Before,
         AppendSource, SourcesOf;
    Appended(rs, r);
    NoRows(e, now);
    BlankEmpty();
    SourceSteps(ls, rs, [], []);
    RegistrationFacts(rs);
    RegistrationColumns(e, now, rs, r);
    assert rs != [] ==> (rs + [r])[0] == rs[0];
  }

  /** An ARP address counts only where no lease gave one, and only the first of them. */
  lemma AddressStep(e: Setting, ls: seq<Lease>, ns: seq<Neighbour>, n: Neighbour)
    ensures var fills := IpOf(ls, ns) == "" && n.address != "";
            && IpOf(ls, ns + [n]) == (if fills then n.address else IpOf(ls, ns))
            && SubnetOf(e, ls, ns + [n])
               == (if fills then Keep(e.subnet(n.address), SubnetOf(e, ls, ns)) else SubnetOf(e, ls, ns))
  {
    hide DhcpAddress, DhcpSubnet, ArpAddress;
    LeaseFacts(e, ls);
    NeighbourFacts(ns);
    NeighbourColumns(ns, n);
  }

  /** A complete ARP entry gives a last-seen time only where there is none. */
  lemma SightingStep(e: Setting, now: int, ls: seq<Lease>, rs: seq<Registration>, ns: seq<Neighbour>, n: Neighbour)
    ensures var (seen, priority) := (LastSeen(e, now, ls, rs, ns, []), Priority(e, now, ls, rs, ns, []));
            var sets := AnyComplete(ns + [n]) && priority.None?;
            && (seen.None? <==> priority.None?) && (priority.Some? ==> priority.value <= 3)
            && LastSeen(e, now, ls, rs, ns + [n], []) == (if sets then Some(now) else seen)
            && Priority(e, now, ls, rs, ns + [n], []) == (if sets then Some(3) else priority)
  {
    hide Age, FirstLeaseAge, AnyComplete, Before;
    NeighbourColumns(ns, n);
  }

  lemma NeighbourStep(e: Setting, now: int, mac: string, ls: seq<Lease>, rs: seq<Registration>,
        ns: seq<Neighbour>, n: Neighbour)
    ensures MergeNeighbour(e, now, MergedCell(e, now, mac, ls, rs, ns, []), n)
         == MergedCell(e, now, mac, ls, rs, ns + [n], [])
  {
    hide Age, Lower, Trim, First, Last, DhcpAddress, DhcpHostName, DhcpSubnet, LastLeaseAge, FirstLeaseAge, Complete,
         Blank, IpOf, SubnetOf, Keep,
         LastActivity, LastUptime, LastSignal, WifiIface, ArpAddress, ArpIface, HostIface, LastVlan,
         AnyComplete, Before,
         AppendSource, SourcesOf, LastSeen, Priority;
    Appended(ns, n);
    NoRows(e, now);
    BlankEmpty();
    SourceSteps(ls, rs, ns, []);
    AddressStep(e, ls, ns, n);
    SightingStep(e, now, ls, rs, ns, n);
    RegistrationFacts(rs);
    NeighbourFacts(ns);
    NeighbourColumns(ns, n);
  }

  lemma HostStep(e: Setting, now: int, mac: string,
                 ls: seq<Lease>, rs: seq<Registration>, ns: seq<Neighbour>, hs: seq<Host>, h: Host)
    ensures MergeHost(now, MergedCell(e, now, mac, ls, rs, ns, hs), h)
         == MergedCell(e, now, mac, ls, rs, ns, hs + [h])
  {
    hide Age, Lower, Trim, First, Last, DhcpAddress, DhcpHostName, DhcpSubnet, LastLeaseAge, FirstLeaseAge, VlanOf,
         Blank,
         LastActivity, LastUptime, LastSignal, WifiIface, ArpAddress, ArpIface, HostIface, LastVlan,
         AnyComplete, Before,
         AppendSource, SourcesOf;
    Appended(hs, h);
    BlankEmpty();
    SourceSteps(ls, rs, ns, hs);
    RegistrationFacts(rs);
    NeighbourFacts(ns);
    HostFacts(hs);
    HostColumns(hs, h);
  }

  // ---- The four passes ----

  /** The rows about one device, in order. */
  function Mine<T>(rows: seq<Row<T>>, mac: string): seq<T> {
    if rows == [] then []
    else
      var last := rows[|rows| - 1];
      Mine(rows[..|rows| - 1], mac) + (if last.mac == mac then [last.info] else [])
  }

  function Macs<T>(rows: seq<Row<T>>): set<string> {
    set k | 0 <= k < |rows| :: rows[k].mac
  }

  function AllMacs(s: Snapshot): set<string> {
    Macs(s.dhcp) + Macs(s.wifi) + Macs(s.arp) + Macs(s.bridge)
  }

  function Observed(e: Setting, s: Snapshot, mac: string): Observation {
    Finish(e, mac, Merged(e, s.now, mac, Mine(s.dhcp, mac), Mine(s.wifi, mac), Mine(s.arp, mac), Mine(s.bridge, mac)))
  }

  /** What `Aggregate` returns. */
  function Aggregated(e: Setting, s: Snapshot): map<string, Observation> {
    map mac | mac in AllMacs(s) :: Observed(e, s, mac)
  }

  /** getObservation, with the priority recorded for the device. */
  function At(result: map<string, Observation>, priorities: map<string, int>, mac: string): Cell {
    Cell(if mac in result then result[mac] else Fresh(mac), if mac in priorities then Some(priorities[mac]) else None)
  }

  function Noted(priorities: map<string, int>, mac: string, priority: Option<int>): map<string, int> {
    if priority.Some? then priorities[mac := priority.value] else priorities
  }

  function CellOf(e: Setting, now: int, mac: string,
      ls: seq<Row<Lease>>, rs: seq<Row<Registration>>, ns: seq<Row<Neighbour>>, hs: seq<Row<Host>>): Cell
  {
    MergedCell(e, now, mac, Mine(ls, mac), Mine(rs, mac), Mine(ns, mac), Mine(hs, mac))
  }

  /** The two maps hold, for every device, what its rows so far say. */
  ghost predicate Tracks(e: Setting, now: int, result: map<string, Observation>, priorities: map<string, int>,
      ls: seq<Row<Lease>>, rs: seq<Row<Registration>>, ns: seq<Row<Neighbour>>, hs: seq<Row<Host>>)
  {
    && result.Keys == Macs(ls) + Macs(rs) + Macs(ns) + Macs(hs)
    && forall mac :: At(result, priorities, mac) == CellOf(e, now, mac, ls, rs, ns, hs)
  }

  lemma OneMoreRow<T>(rows: seq<Row<T>>, row: Row<T>)
    ensures Macs(rows + [row]) == Macs(rows) + {row.mac}
  {
    var more := rows + [row];
    forall mac ensures mac in Macs(more) <==> mac in Macs(rows) || mac == row.mac {
      if mac in Macs(rows) {
        var k :| 0 <= k < |rows| && rows[k].mac == mac;
        assert more[k].mac == mac;
      }
      if mac == row.mac { assert more[|rows|].mac == mac; }
    }
  }

  lemma MineGrows<T>(rows: seq<Row<T>>, row: Row<T>, mac: string)
    ensures Mine(rows + [row], mac) == if mac == row.mac then Mine(rows, mac) + [row.info] else Mine(rows, mac)
  {
    Appended(rows, row);
  }

  lemma NotedAt(result: map<string, Observation>, priorities: map<string, int>, mac: string, cell: Cell)
    requires At(result, priorities, mac).priority.Some? ==> cell.priority.Some?
    ensures At(result[mac := cell.obs], Noted(priorities, mac, cell.priority), mac) == cell
    ensures forall m | m != mac ::
      At(result[mac := cell.obs], Noted(priorities, mac, cell.priority), m) == At(result, priorities, m)
  {}

  lemma NothingTracked(e: Setting, now: int)
    ensures Tracks(e, now, map[], map[], [], [], [], [])
  {
    NoRows(e, now);
    forall mac ensures At(map[], map[], mac) == CellOf(e, now, mac, [], [], [], []) {}
  }

  lemma LeaseTracked(e: Setting, now: int, result: map<string, Observation>, priorities: map<string, int>,
                     ls: seq<Row<Lease>>, row: Row<Lease>)
    requires Tracks(e, now, result, priorities, ls, [], [], [])
    ensures var cell := MergeLease(e, now, At(result, priorities, row.mac), row.info);
            Tracks(e, now, result[row.mac := cell.obs], Noted(priorities, row.mac, cell.priority),
                   ls + [row], [], [], [])
  {
    hide MergeLease, MergedCell, Mine, Macs, At, Noted;
    var cell := MergeLease(e, now, At(result, priorities, row.mac), row.info);
    OneMoreRow(ls, row);
    NotedAt(result, priorities, row.mac, cell);
    forall mac ensures At(result[row.mac := cell.obs], Noted(priorities, row.mac, cell.priority), mac)
                     == CellOf(e, now, mac, ls + [row], [], [], []) {
      MineGrows(ls, row, mac);
      assert At(result, priorities, mac) == CellOf(e, now, mac, ls, [], [], []);
      if mac == row.mac {
        NoneMine(mac);
        LeaseStep(e, now, row.mac, Mine(ls, row.mac), row.info);
      }
    }
  }

  lemma NoneMine(mac: string)
    ensures Mine<Lease>([], mac) == [] && Mine<Registration>([], mac) == []
    ensures Mine<Neighbour>([], mac) == [] && Mine<Host>([], mac) == []
  {}

  lemma RegistrationTracked(e: Setting, now: int, result: map<string, Observation>, priorities: map<string, int>,
                            ls: seq<Row<Lease>>, rs: seq<Row<Registration>>, row: Row<Registration>)
    requires Tracks(e, now, result, priorities, ls, rs, [], [])
    ensures var cell := MergeRegistration(e, now, At(result, priorities, row.mac), row.info);
            Tracks(e, now, result[row.mac := cell.obs], Noted(priorities, row.mac, cell.priority),
                   ls, rs + [row], [], [])
  {
    hide MergeRegistration, MergedCell, Mine, Macs, At, Noted;
    var cell := MergeRegistration(e, now, At(result, priorities, row.mac), row.info);
    OneMoreRow(rs, row);
    NotedAt(result, priorities, row.mac, cell);
    forall mac ensures At(result[row.mac := cell.obs], Noted(priorities, row.mac, cell.priority), mac)
                     == CellOf(e, now, mac, ls, rs + [row], [], []) {
      MineGrows(rs, row, mac);
      assert At(result, priorities, mac) == CellOf(e, now, mac, ls, rs, [], []);
      if mac == row.mac {
        NoneMine(mac);
        RegistrationStep(e, now, row.mac, Mine(ls, row.mac), Mine(rs, row.mac), row.info);
      }
    }
  }

  lemma NeighbourTracked(e: Setting, now: int, result: map<string, Observation>, priorities: map<string, int>,
                         ls: seq<Row<Lease>>, rs: seq<Row<Registration>>, ns: seq<Row<Neighbour>>, row: Row<Neighbour>)
    requires Tracks(e, now, result, priorities, ls, rs, ns, [])
    ensures var cell := MergeNeighbour(e, now, At(result, priorities, row.mac), row.info);
            Tracks(e, now, result[row.mac := cell.obs], Noted(priorities, row.mac, cell.priority),
                   ls, rs, ns + [row], [])
  {
    hide MergeNeighbour, MergedCell, Mine, Macs, At, Noted;
    var cell := MergeNeighbour(e, now, At(result, priorities, row.mac), row.info);
    OneMoreRow(ns, row);
    NotedAt(result, priorities, row.mac, cell);
    forall mac ensures At(result[row.mac := cell.obs], Noted(priorities, row.mac, cell.priority), mac)
                     == CellOf(e, now, mac, ls, rs, ns + [row], []) {
      MineGrows(ns, row, mac);
      assert At(result, priorities, mac) == CellOf(e, now, mac, ls, rs, ns, []);
      if mac == row.mac {
        NoneMine(mac);
        NeighbourStep(e, now, row.mac, Mine(ls, row.mac), Mine(rs, row.mac), Mine(ns, row.mac), row.info);
      }
    }
  }

  lemma HostTracked(e: Setting, now: int, result: map<string, Observation>, priorities: map<string, int>,
                    ls: seq<Row<Lease>>, rs: seq<Row<Registration>>, ns: seq<Row<Neighbour>>, hs: seq<Row<Host>>,
                    row: Row<Host>)
    requires Tracks(e, now, result, priorities, ls, rs, ns, hs)
    ensures var cell := MergeHost(now, At(result, priorities, row.mac), row.info);
            Tracks(e, now, result[row.mac := cell.obs], Noted(priorities, row.mac, cell.priority),
                   ls, rs, ns, hs + [row])
  {
    hide MergeHost, MergedCell, Mine, Macs, At, Noted;
    var cell := MergeHost(now, At(result, priorities, row.mac), row.info);
    OneMoreRow(hs, row);
    NotedAt(result, priorities, row.mac, cell);
    forall mac ensures At(result[row.mac := cell.obs], Noted(priorities, row.mac, cell.priority), mac)
                     == CellOf(e, now, mac, ls, rs, ns, hs + [row]) {
      MineGrows(hs, row, mac);
      assert At(result, priorities, mac) == CellOf(e, now, mac, ls, rs, ns, hs);
      if mac == row.mac {
        NoneMine(mac);
        HostStep(e, now, row.mac, Mine(ls, row.mac), Mine(rs, row.mac), Mine(ns, row.mac), Mine(hs, row.mac), row.info);
      }
    }
  }

  method DhcpPass(e: Setting, now: int, rows: seq<Row<Lease>>)
    returns (result: map<string, Observation>, priorities: map<string, int>)
    ensures Tracks(e, now, result, priorities, rows, [], [], [])
  {
    hide Tracks, MergeLease, At, Noted;
    result, priorities := map[], map[];
    NothingTracked(e, now);
    for k := 0 to |rows|
      invariant Tracks(e, now, result, priorities, rows[..k], [], [], [])
    {
      var row := rows[k];
      var cell := MergeLease(e, now, At(result, priorities, row.mac), row.info);
      LeaseTracked(e, now, result, priorities, rows[..k], row);
      result, priorities := result[row.mac := cell.obs], Noted(priorities, row.mac, cell.priority);
      assert rows[..k + 1] == rows[..k] + [row];
    }
    assert rows[..|rows|] == rows;
  }

  method WifiPass(e: Setting, now: int, before: map<string, Observation>, known: map<string, int>,
                  ghost ls: seq<Row<Lease>>, rows: seq<Row<Registration>>)
    returns (result: map<string, Observation>, priorities: map<string, int>)
    requires Tracks(e, now, before, known, ls, [], [], [])
    ensures Tracks(e, now, result, priorities, ls, rows, [], [])
  {
    hide Tracks, MergeRegistration, At, Noted;
    result, priorities := before, known;
    for k := 0 to |rows|
      invariant Tracks(e, now, result, priorities, ls, rows[..k], [], [])
    {
      var row := rows[k];
      var cell := MergeRegistration(e, now, At(result, priorities, row.mac), row.info);
      RegistrationTracked(e, now, result, priorities, ls, rows[..k], row);
      result, priorities := result[row.mac := cell.obs], Noted(priorities, row.mac, cell.priority);
      assert rows[..k + 1] == rows[..k] + [row];
    }
    assert rows[..|rows|] == rows;
  }

  method ArpPass(e: Setting, now: int, before: map<string, Observation>, known: map<string, int>,
                 ghost ls: seq<Row<Lease>>, ghost rs: seq<Row<Registration>>, rows: seq<Row<Neighbour>>)
    returns (result: map<string, Observation>, priorities: map<string, int>)
    requires Tracks(e, now, before, known, ls, rs, [], [])
    ensures Tracks(e, now, result, priorities, ls, rs, rows, [])
  {
    hide Tracks, MergeNeighbour, At, Noted;
    result, priorities := before, known;
    for k := 0 to |rows|
      invariant Tracks(e, now, result, priorities, ls, rs, rows[..k], [])
    {
      var row := rows[k];
      var cell := MergeNeighbour(e, now, At(result, priorities, row.mac), row.info);
      NeighbourTracked(e, now, result, priorities, ls, rs, rows[..k], row);
      result, priorities := result[row.mac := cell.obs], Noted(priorities, row.mac, cell.priority);
      assert rows[..k + 1] == rows[..k] + [row];
    }
    assert rows[..|rows|] == rows;
  }

  method BridgePass(e: Setting, now: int, before: map<string, Observation>, known: map<string, int>,
                    ghost ls: seq<Row<Lease>>, ghost rs: seq<Row<Registration>>, ghost ns: seq<Row<Neighbour>>,
                    rows: seq<Row<Host>>)
    returns (result: map<string, Observation>, priorities: map<string, int>)
    requires Tracks(e, now, before, known, ls, rs, ns, [])
    ensures Tracks(e, now, result, priorities, ls, rs, ns, rows)
  {
    hide Tracks, MergeHost, At, Noted;
    result, priorities := before, known;
    for k := 0 to |rows|
      invariant Tracks(e, now, result, priorities, ls, rs, ns, rows[..k])
    {
      var row := rows[k];
      var cell := MergeHost(now, At(result, priorities, row.mac), row.info);
      HostTracked(e, now, result, priorities, ls, rs, ns, rows[..k], row);
      result, priorities := result[row.mac := cell.obs], Noted(priorities, row.mac, cell.priority);
      assert rows[..k + 1] == rows[..k] + [row];
    }
    assert rows[..|rows|] == rows;
  }

  /** The last loop runs over the map in whatever order. */
  method FinishAll(e: Setting, merged: map<string, Observation>) returns (result: map<string, Observation>)
    ensures result == map mac | mac in merged :: Finish(e, mac, merged[mac])
  {
    hide Finish;
    result := merged;
    var todo := merged.Keys;
    while todo != {}
      invariant todo <= merged.Keys == result.Keys
      invariant forall mac | mac in merged ::
        result[mac] == if mac in todo then merged[mac] else Finish(e, mac, merged[mac])
    {
      var mac :| mac in todo;
      result := result[mac := Finish(e, mac, result[mac])];
      todo := todo - {mac};
    }
  }

  method Aggregate(e: Setting, s: Snapshot) returns (result: map<string, Observation>)
    ensures result == Aggregated(e, s)
  {
    hide Tracks, Merged, Finish, Macs, Mine;
    var found, priorities := DhcpPass(e, s.now, s.dhcp);
    found, priorities := WifiPass(e, s.now, found, priorities, s.dhcp, s.wifi);
    found, priorities := ArpPass(e, s.now, found, priorities, s.dhcp, s.wifi, s.arp);
    found, priorities := BridgePass(e, s.now, found, priorities, s.dhcp, s.wifi, s.arp, s.bridge);
    TrackedAll(e, s, found, priorities);
    result := FinishAll(e, found);
  }

  lemma TrackedAll(e: Setting, s: Snapshot, found: map<string, Observation>, priorities: map<string, int>)
    requires Tracks(e, s.now, found, priorities, s.dhcp, s.wifi, s.arp, s.bridge)
    ensures found.Keys == AllMacs(s)
    ensures forall mac | mac in found ::
      found[mac] == Merged(e, s.now, mac, Mine(s.dhcp, mac), Mine(s.wifi, mac), Mine(s.arp, mac), Mine(s.bridge, mac))
  {
    hide Merged, Mine, Macs, Priority;
    forall mac | mac in found ensures found[mac]
      == Merged(e, s.now, mac, Mine(s.dhcp, mac), Mine(s.wifi, mac), Mine(s.arp, mac), Mine(s.bridge, mac))
    {
      assert At(found, priorities, mac).obs == found[mac];
    }
  }

  // ---- What follows ----

  /** `First` and `Last` are what their names say. */
  lemma {:induction false} FirstIsFirst<T, U>(rows: seq<T>, column: T -> Option<U>)
    ensures First(rows, column).None? <==> forall k | 0 <= k < |rows| :: column(rows[k]).None?
    ensures forall k | 0 <= k < |rows| && column(rows[k]).Some? && (forall j | 0 <= j < k :: column(rows[j]).None?) ::
      First(rows, column) == column(rows[k])
  {
    if rows != [] {
      var front := rows[..|rows| - 1];
      FirstIsFirst(front, column);
      assert forall j | 0 <= j < |front| :: front[j] == rows[j];
    }
  }

  lemma {:induction false} LastIsLast<T, U>(rows: seq<T>, column: T -> Option<U>)
    ensures Last(rows, column).None? <==> forall k | 0 <= k < |rows| :: column(rows[k]).None?
    ensures forall k | 0 <= k < |rows| && column(rows[k]).Some?
      && (forall j | k < j < |rows| :: column(rows[j]).None?) ::
      Last(rows, column) == column(rows[k])
  {
    if rows != [] {
      var front := rows[..|rows| - 1];
      LastIsLast(front, column);
      assert forall j | 0 <= j < |front| :: front[j] == rows[j];
    }
  }

  lemma NoMacs<T>(rows: seq<Row<T>>)
    requires rows == []
    ensures Macs(rows) == {}
  {}

  lemma {:induction false} MineIsEmpty<T>(rows: seq<Row<T>>, mac: string)
    ensures Mine(rows, mac) == [] <==> mac !in Macs(rows)
  {
    hide Macs;
    if rows == [] {
      NoMacs(rows);
    } else {
      var front := rows[..|rows| - 1];
      MineIsEmpty(front, mac);
      OneMoreRow(front, rows[|rows| - 1]);
      MineGrows(front, rows[|rows| - 1], mac);
      assert front + [rows[|rows| - 1]] == rows;
    }
  }

  /** An observation depends on the device's own rows and their order, and on nothing else. */
  lemma OnlyOwnRowsMatter(e: Setting, s: Snapshot, t: Snapshot, mac: string)
    requires s.now == t.now && Mine(s.dhcp, mac) == Mine(t.dhcp, mac) && Mine(s.wifi, mac) == Mine(t.wifi, mac)
    requires Mine(s.arp, mac) == Mine(t.arp, mac) && Mine(s.bridge, mac) == Mine(t.bridge, mac)
    ensures mac in Aggregated(e, s) <==> mac in Aggregated(e, t)
    ensures mac in Aggregated(e, s) ==> Aggregated(e, s)[mac] == Aggregated(e, t)[mac]
  {
    hide Merged, Finish, Mine, Macs;
    MineIsEmpty(s.dhcp, mac);
    MineIsEmpty(t.dhcp, mac);
    MineIsEmpty(s.wifi, mac);
    MineIsEmpty(t.wifi, mac);
    MineIsEmpty(s.arp, mac);
    MineIsEmpty(t.arp, mac);
    MineIsEmpty(s.bridge, mac);
    MineIsEmpty(t.bridge, mac);
  }

  function CutRows<T>(rows: seq<Row<T>>, mac: string): seq<Row<T>> {
    if rows == [] then []
    else
      var last := rows[|rows| - 1];
      CutRows(rows[..|rows| - 1], mac) + (if last.mac == mac then [last] else [])
  }

  /** The snapshot with the rows of one device only. */
  function Cut(s: Snapshot, mac: string): Snapshot {
    Snapshot(s.now, CutRows(s.dhcp, mac), CutRows(s.wifi, mac), CutRows(s.arp, mac), CutRows(s.bridge, mac))
  }

  lemma {:induction false} CutKeepsMine<T>(rows: seq<Row<T>>, mac: string)
    ensures Mine(CutRows(rows, mac), mac) == Mine(rows, mac)
    ensures Macs(CutRows(rows, mac)) <= {mac}
  {
    if rows != [] {
      var front, last := rows[..|rows| - 1], rows[|rows| - 1];
      CutKeepsMine(front, mac);
      if last.mac == mac {
        OneMoreRow(CutRows(front, mac), last);
        MineGrows(CutRows(front, mac), last, mac);
      } else {
        assert CutRows(rows, mac) == CutRows(front, mac);
      }
    }
  }

  /** Aggregating a whole snapshot and aggregating each device's rows alone give the same
      observation, and only devices with rows get one. */
  lemma Locality(e: Setting, s: Snapshot, mac: string)
    ensures Aggregated(e, Cut(s, mac)) == if mac in AllMacs(s) then map[mac := Aggregated(e, s)[mac]] else map[]
  {
    hide Merged, Finish, Mine, Macs, CutRows, Observed;
    CutKeepsMine(s.dhcp, mac);
    CutKeepsMine(s.wifi, mac);
    CutKeepsMine(s.arp, mac);
    CutKeepsMine(s.bridge, mac);
    OnlyOwnRowsMatter(e, s, Cut(s, mac), mac);
    assert AllMacs(Cut(s, mac)) <= {mac};
  }

  function Rank(s: Source): int {
    match s case Dhcp => 0 case WiFi => 1 case Arp => 2 case Bridge => 3
  }

  predicate InOrder(sources: seq<Source>) {
    forall i, j | 0 <= i < j < |sources| :: Rank(sources[i]) < Rank(sources[j])
  }

  lemma OneMoreSource(sources: seq<Source>, present: bool, s: Source)
    requires InOrder(sources) && forall x | x in sources :: Rank(x) < Rank(s)
    ensures InOrder(sources + Listed(present, s))
    ensures forall x :: x in sources + Listed(present, s) <==> x in sources || (present && x == s)
  {}

  lemma SourcesInOrder(ls: seq<Lease>, rs: seq<Registration>, ns: seq<Neighbour>, hs: seq<Host>)
    ensures var sources := SourcesOf(ls, rs, ns, hs);
            && InOrder(sources)
            && (Dhcp in sources <==> ls != []) && (WiFi in sources <==> rs != [])
            && (Arp in sources <==> ns != []) && (Bridge in sources <==> hs != [])
  {
    hide InOrder, Listed;
    var a := Listed(ls != [], Dhcp);
    FirstSource(ls != [], Dhcp);
    OneMoreSource(a, rs != [], WiFi);
    var b := a + Listed(rs != [], WiFi);
    OneMoreSource(b, ns != [], Arp);
    OneMoreSource(b + Listed(ns != [], Arp), hs != [], Bridge);
  }

  lemma FirstSource(present: bool, s: Source)
    ensures InOrder(Listed(present, s)) && forall x :: x in Listed(present, s) <==> present && x == s
  {}

  /** The sources of an observation are in the fixed order dhcp, wifi, arp, bridge, never
      repeated, and are exactly the tables with a row of the device. */
  lemma SourcesAreTheTables(e: Setting, s: Snapshot, mac: string)
    requires mac in AllMacs(s)
    ensures var sources := Aggregated(e, s)[mac].sources;
            && sources != [] && InOrder(sources)
            && (Dhcp in sources <==> mac in Macs(s.dhcp)) && (WiFi in sources <==> mac in Macs(s.wifi))
            && (Arp in sources <==> mac in Macs(s.arp)) && (Bridge in sources <==> mac in Macs(s.bridge))
  {
    hide Mine, Macs, StatusOf, ReasonOf, GeneratedName, LastSeen, SourcesOf, InOrder;
    MineIsEmpty(s.dhcp, mac);
    MineIsEmpty(s.wifi, mac);
    MineIsEmpty(s.arp, mac);
    MineIsEmpty(s.bridge, mac);
    SourcesInOrder(Mine(s.dhcp, mac), Mine(s.wifi, mac), Mine(s.arp, mac), Mine(s.bridge, mac));
  }

  /** An observed device is ONLINE or IDLE_RECENT; if ONLINE it has a last-seen time. */
  lemma OnlineWasSeen(e: Setting, s: Snapshot, mac: string)
    requires mac in AllMacs(s)
    ensures var o := Aggregated(e, s)[mac];
            && (o.status == Online || o.status == IdleRecent)
            && (o.online <==> o.status == Online)
            && (o.online ==> o.lastSeenAt.Some?)
  {
    hide Mine, Macs, ReasonOf, GeneratedName, Age, Trim, Lower, SourcesOf;
    var ls, rs, ns, hs := Mine(s.dhcp, mac), Mine(s.wifi, mac), Mine(s.arp, mac), Mine(s.bridge, mac);
    SourcesAreTheTables(e, s, mac);
    BlankEmptyTrim();
    AgesAgree(e, s.now, ls);
    var o := Merged(e, s.now, mac, ls, rs, ns, hs);
    assert Aggregated(e, s)[mac].sources == o.sources;
  }

  lemma BlankEmptyTrim()
    ensures Trim("") == ""
  {}

  /** Some lease has a readable age, or none has. */
  lemma {:induction false} AgesAgree(e: Setting, now: int, ls: seq<Lease>)
    ensures FirstLeaseAge(e, now, ls).Some? <==> LastLeaseAge(e, now, ls).Some?
  {
    hide Age;
    if ls != [] { AgesAgree(e, now, ls[..|ls| - 1]); }
  }

  /** Seen now without a readable age, else that long ago; an age of all 64 bits but the sign
      wraps on negation and is left out here. */
  predicate SeenAgo(seen: Option<int>, now: int, age: Option<int>) {
    match age
    case None => seen == Some(now)
    case Some(a) => -Durations.MAX_INT64 <= a <= Durations.MAX_INT64 ==> seen == Some(now - a)
  }

  /** Finishing an observation fills in the vendor, the generated name and the status, no more. */
  lemma ObservedColumns(e: Setting, s: Snapshot, mac: string)
    requires mac in AllMacs(s)
    ensures var o := Aggregated(e, s)[mac];
            o == Merged(e, s.now, mac, Mine(s.dhcp, mac), Mine(s.wifi, mac), Mine(s.arp, mac), Mine(s.bridge, mac))
                 .(vendor := e.vendor(mac), generated := o.generated,
                   status := o.status, online := o.online, reason := o.reason)
  {
    hide Mine, Macs, Merged, GeneratedName, StatusOf, ReasonOf;
  }

  /** When an observed device was last seen, told from its rows: the first Wi-Fi row decides;
      without one the first lease with a readable age; without either, now if an ARP row is
      complete or a bridge row exists, and never otherwise. */
  lemma LastSeenRule(e: Setting, s: Snapshot, mac: string, k: nat)
    requires mac in AllMacs(s)
    ensures var ls, rs, ns, hs := Mine(s.dhcp, mac), Mine(s.wifi, mac), Mine(s.arp, mac), Mine(s.bridge, mac);
            var seen := Aggregated(e, s)[mac].lastSeenAt;
            && (rs != [] ==> SeenAgo(seen, s.now, Age(e, rs[0].lastActivity, s.now)))
            && (rs == [] && k < |ls| && Age(e, ls[k].lastSeen, s.now).Some?
                && (forall j | 0 <= j < k :: Age(e, ls[j].lastSeen, s.now).None?)
                ==> SeenAgo(seen, s.now, Age(e, ls[k].lastSeen, s.now)))
            && (rs == [] && (forall j | 0 <= j < |ls| :: Age(e, ls[j].lastSeen, s.now).None?)
                ==> seen == if AnyComplete(ns) || hs != [] then Some(s.now) else None)
  {
    hide Mine, Macs, Observed, Merged, LastSeen, Age, First, Last, AnyComplete, SeenAgo;
    var ls, rs, ns, hs := Mine(s.dhcp, mac), Mine(s.wifi, mac), Mine(s.arp, mac), Mine(s.bridge, mac);
    assert Aggregated(e, s)[mac].lastSeenAt == LastSeen(e, s.now, ls, rs, ns, hs) by {
      ObservedColumns(e, s, mac);
      SeenColumn(e, s.now, mac, ls, rs, ns, hs);
    }
    if rs != [] {
      SeenOnWifi(e, s.now, ls, rs, ns, hs);
    } else {
      FirstIsFirst(ls, (l: Lease) => Age(e, l.lastSeen, s.now));
      SeenElsewhere(e, s.now, ls, ns, hs);
    }
  }

  lemma SeenColumn(e: Setting, now: int, mac: string,
                   ls: seq<Lease>, rs: seq<Registration>, ns: seq<Neighbour>, hs: seq<Host>)
    ensures Merged(e, now, mac, ls, rs, ns, hs).lastSeenAt == LastSeen(e, now, ls, rs, ns, hs)
  {
    hide LastSeen, IpOf, DhcpHostName, IfaceOf, SourcesOf, SubnetOf, LastActivity, LastUptime, LastSignal, LastVlan;
    hide LastLeaseAge, Lower, Trim, AnyComplete;
  }

  lemma SeenOnWifi(e: Setting, now: int,
                   ls: seq<Lease>, rs: seq<Registration>, ns: seq<Neighbour>, hs: seq<Host>)
    requires rs != []
    ensures SeenAgo(LastSeen(e, now, ls, rs, ns, hs), now, Age(e, rs[0].lastActivity, now))
  {
    hide Age;
  }

  lemma SeenElsewhere(e: Setting, now: int, ls: seq<Lease>, ns: seq<Neighbour>, hs: seq<Host>)
    ensures FirstLeaseAge(e, now, ls).Some? ==>
              SeenAgo(LastSeen(e, now, ls, [], ns, hs), now, FirstLeaseAge(e, now, ls))
    ensures FirstLeaseAge(e, now, ls).None? ==>
              LastSeen(e, now, ls, [], ns, hs) == if AnyComplete(ns) || hs != [] then Some(now) else None
  {
    hide FirstLeaseAge, AnyComplete;
  }

  /** ONLINE, told from the router's rows: an active Wi-Fi registration, a recent bound lease,
      or a complete ARP entry. The columns come from the latest row that has them, so the
      interface and the activity that count may stem from different rows. */
  lemma OnlineExactly(e: Setting, s: Snapshot, mac: string)
    requires mac in AllMacs(s)
    ensures var ls, rs, ns := Mine(s.dhcp, mac), Mine(s.wifi, mac), Mine(s.arp, mac);
            Aggregated(e, s)[mac].online <==>
              || (rs != [] && !Blank(rs[|rs| - 1].iface)
                  && (LastActivity(e, s.now, rs).None? || LastActivity(e, s.now, rs).value <= e.wifiIdle))
              || (ls != [] && Lower(Trim(ls[|ls| - 1].status)) == "bound"
                  && LastLeaseAge(e, s.now, ls).Some? && LastLeaseAge(e, s.now, ls).value <= e.dhcpRecent)
              || (AnyComplete(ns) && !Blank(ns[|ns| - 1].address))
  {
    hide Mine, Macs, Merged, Finish, WifiActive, DhcpRecent, ArpValid;
    hide LastActivity, LastLeaseAge, AnyComplete, Blank, Lower, Trim;
    var ls, rs, ns, hs := Mine(s.dhcp, mac), Mine(s.wifi, mac), Mine(s.arp, mac), Mine(s.bridge, mac);
    var o := Merged(e, s.now, mac, ls, rs, ns, hs);
    FinishOnline(e, mac, o);
    WifiRule(e, s.now, mac, ls, rs, ns, hs);
    DhcpRule(e, s.now, mac, ls, rs, ns, hs);
    ArpRule(e, s.now, mac, ls, rs, ns, hs);
  }

  lemma FinishOnline(e: Setting, mac: string, o: Observation)
    ensures Finish(e, mac, o).online <==> WifiActive(e, o) || DhcpRecent(e, o) || ArpValid(o)
  {
    hide GeneratedName, Blank, Lower, Trim, Join;
  }

  lemma WifiRule(e: Setting, now: int, mac: string,
                 ls: seq<Lease>, rs: seq<Registration>, ns: seq<Neighbour>, hs: seq<Host>)
    ensures WifiActive(e, Merged(e, now, mac, ls, rs, ns, hs)) <==>
            rs != [] && !Blank(rs[|rs| - 1].iface)
            && (LastActivity(e, now, rs).None? || LastActivity(e, now, rs).value <= e.wifiIdle)
  {
    hide Blank, LastActivity;
    BlankEmpty();
  }

  lemma DhcpRule(e: Setting, now: int, mac: string,
                 ls: seq<Lease>, rs: seq<Registration>, ns: seq<Neighbour>, hs: seq<Host>)
    ensures DhcpRecent(e, Merged(e, now, mac, ls, rs, ns, hs)) <==>
            ls != [] && Lower(Trim(ls[|ls| - 1].status)) == "bound"
            && LastLeaseAge(e, now, ls).Some? && LastLeaseAge(e, now, ls).value <= e.dhcpRecent
  {
    hide Lower, Trim, LastLeaseAge;
    StatusTwice(if ls == [] then "" else ls[|ls| - 1].status);
    EmptyIsUnbound();
  }

  lemma ArpRule(e: Setting, now: int, mac: string,
                ls: seq<Lease>, rs: seq<Registration>, ns: seq<Neighbour>, hs: seq<Host>)
    ensures ArpValid(Merged(e, now, mac, ls, rs, ns, hs)) <==> AnyComplete(ns) && !Blank(ns[|ns| - 1].address)
  {
    hide Blank, Complete;
    BlankEmpty();
  }

  lemma StatusTwice(s: string)
    ensures Lower(Trim(Lower(Trim(s)))) == Lower(Trim(s))
  {
    hide Lower, Trim;
    LowerTrim(Trim(s));
    TrimIsTrimmed(s);
    LowerTwice(Trim(s));
  }

  lemma EmptyIsUnbound()
    ensures Lower(Trim("")) != "bound"
  {}

  lemma LowerTwice(s: string)
    ensures Lower(Lower(s)) == Lower(s)
  {}
}
