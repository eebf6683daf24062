/** What a poll leaves in the device tables (addon/internal/services/device/service.go and
    presence.go, over the upserts and deletes of addon/internal/storage/repository.go).
    Tables are maps from MACs to rows; clock readings are parameters. */
module Presence {
  import opened Text
  import opened Aggregates
  import Durations

  /** The columns `applyObservationToState` overwrites as a whole. */
  datatype Details = Details(
    hostName: Option<string>, iface: Option<string>, bridge: Option<string>, ssid: Option<string>,
    dhcpServer: Option<string>, dhcpStatus: Option<string>, dhcpLastSeenSec: Option<int>,
    wifiDriver: Option<string>, wifiInterface: Option<string>, wifiLastActSec: Option<int>,
    wifiUptimeSec: Option<int>, wifiAuthType: Option<string>, wifiSignal: Option<int>,
    arpIp: Option<string>, arpInterface: Option<string>, arpComplete: bool,
    bridgePort: Option<string>, bridgeVlan: Option<int>)

  datatype State = State(
    online: bool, lastSeenAt: Option<int>, connectedSinceAt: Option<int>,
    lastIp: Option<string>, lastSubnet: Option<string>, details: Details,
    status: Status, reason: string, sources: seq<Source>, updatedAt: int)

  datatype Registered = Registered(
    name: Option<string>, icon: Option<string>, comment: Option<string>, createdAt: int, updatedAt: int)

  /** No first-seen time stands for a stored text that is no timestamp. */
  datatype CacheRow = CacheRow(firstSeenAt: Option<int>, vendor: string, generatedName: string)

  datatype Tables = Tables(
    states: map<string, State>, registered: map<string, Registered>, cache: map<string, CacheRow>)

  function Get<T>(table: map<string, T>, mac: string): Option<T> {
    if mac in table then Some(table[mac]) else None
  }

  // ---- One row ----

  /** strPtrOrNil */
  function TextOrNone(s: string): Option<string> {
    if Blank(s) then None else Some(Trim(s))
  }

  function Abs(x: int): nat { if x < 0 then -x else x }

  /** durationToSeconds: the nearest second, halves away from zero, without its sign. A
      rounding beyond 64 bits stops at the largest duration. */
  function SecondsOf(d: int): nat {
    var q, r := Abs(d) / Durations.SECOND, Abs(d) % Durations.SECOND;
    if 2 * r < Durations.SECOND || (q + 1) * Durations.SECOND > Durations.MAX_INT64 then q else q + 1
  }

  function Seconds(d: Option<int>): Option<int> {
    if d.Some? then Some(SecondsOf(d.value)) else None
  }

  function DetailsOf(o: Observation): Details {
    Details(TextOrNone(o.hostName), TextOrNone(o.iface), TextOrNone(o.bridge), TextOrNone(o.ssid),
            TextOrNone(o.dhcpServer), TextOrNone(o.dhcpStatus), Seconds(o.dhcpLastSeen),
            TextOrNone(o.wifiDriver), TextOrNone(o.wifiInterface), Seconds(o.wifiLastActivity),
            Seconds(o.wifiUptime), TextOrNone(o.wifiAuthType), o.wifiSignal,
            TextOrNone(o.arpIp), TextOrNone(o.arpInterface), o.arpComplete,
            TextOrNone(o.bridgePort), o.bridgeVlan)
  }

  function NoDetails(): Details {
    Details(None, None, None, None, None, None, None, None, None, None, None, None, None, None, None, false, None, None)
  }

  function EmptyState(now: int): State {
    State(false, None, None, None, None, NoDetails(), Unknown, "no_signal", [], now)
  }

  /** hasAnyHistoricalTrace */
  predicate EverTraced(s: State) {
    || s.lastSeenAt.Some? || s.lastIp.Some? || s.details.hostName.Some? || s.details.dhcpStatus.Some?
    || s.details.wifiInterface.Some? || s.details.arpIp.Some? || s.details.bridgePort.Some? || s.details.bridge.Some?
  }

  /** deriveStatusWithoutObservation */
  function AwayStatus(s: State, now: int, hard: int): (Status, string) {
    if s.lastSeenAt.Some? && now - s.lastSeenAt.value > hard then
      (Offline, "no_signal;offline_hard_threshold_exceeded")
    else if EverTraced(s) then (IdleRecent, "no_current_signal;historical_trace_present")
    else (Unknown, "no_signal")
  }

  /** The row of a device the poll saw. */
  function Seen(prev: Option<State>, o: Observation, now: int): State {
    var s := if prev.Some? then prev.value else EmptyState(now);
    var online := o.status == Online;
    State(
      online,
      if o.lastSeenAt.Some? then o.lastSeenAt else s.lastSeenAt,
      if online && !(prev.Some? && prev.value.online) then Some(now) else s.connectedSinceAt,
      if o.ip != "" then Some(o.ip) else s.lastIp,
      if o.lastSubnet != "" then Some(o.lastSubnet) else s.lastSubnet,
      DetailsOf(o), o.status, o.reason, o.sources, now)
  }

  /** The row of a registered device the poll did not see. */
  function Away(prev: State, now: int, hard: int): State {
    var status := AwayStatus(prev, now, hard);
    prev.(online := false, sources := [], status := status.0, reason := status.1, updatedAt := now)
  }

  /** defaultConnectionStatus and defaultStatusReason, applied on writing. */
  function Stored(s: State): State {
    s.(status := if s.status == Unset then Unknown else s.status,
       reason := if Blank(s.reason) then "no_signal" else Trim(s.reason))
  }

  function NextCache(prev: Option<CacheRow>, o: Observation, now: int): CacheRow {
    var c := if prev.Some? then prev.value else CacheRow(Some(now), "", "");
    var vendor := if o.vendor != "" && o.vendor != "Unknown" then o.vendor
                  else if Blank(c.vendor) then o.vendor else c.vendor;
    var name := if !Blank(o.hostName) then Trim(o.hostName)
                else if Blank(c.generatedName) || "Device-" <= c.generatedName then o.generated
                else c.generatedName;
    // the upsert leaves the first-seen time of an existing row alone
    CacheRow(c.firstSeenAt, vendor, name)
  }

  // ---- One poll ----

  type Observations = map<string, Observation>

  function NextState(t: Tables, observed: Observations, mac: string, now: int, hard: int): State
    requires mac in observed || mac in t.states
  {
    Stored(if mac in observed then Seen(Get(t.states, mac), observed[mac], now) else Away(t.states[mac], now, hard))
  }

  /** Neither registered nor seen any more. */
  function Dropped(t: Tables, observed: Observations): set<string> {
    t.states.Keys - t.registered.Keys - observed.Keys
  }

  /** The tables after a poll. */
  function Polled(t: Tables, observed: Observations, now: int, hard: int): Tables {
    Tables(
      map mac | mac in t.states.Keys * t.registered.Keys + observed.Keys :: NextState(t, observed, mac, now, hard),
      t.registered,
      map mac | mac in t.cache.Keys + observed.Keys - Dropped(t, observed) ::
        if mac in observed then NextCache(Get(t.cache, mac), observed[mac], now) else t.cache[mac])
  }

  /** nullable */
  function Given(s: Option<string>): Option<string> {
    if s.Some? && !Blank(s.value) then Some(Trim(s.value)) else None
  }

  /** The registration columns a user sends. */
  datatype Input = Input(name: Option<string>, icon: Option<string>, comment: Option<string>)

  /** UpsertRegistered */
  function Upserted(known: Option<Registered>, i: Input, now: int): Registered {
    match known
    case None => Registered(Given(i.name), Given(i.icon), Given(i.comment), now, now)
    case Some(r) => Registered(Or(Given(i.name), r.name), Or(Given(i.icon), r.icon), Or(Given(i.comment), r.comment),
                               r.createdAt, now)
  }

  /** PatchRegistered, on an existing row. */
  function Patched(r: Registered, i: Input, now: int): Registered {
    if i == Input(None, None, None) then r
    else Registered(Or(i.name, r.name), Or(i.icon, r.icon), Or(i.comment, r.comment), r.createdAt, now)
  }

  /** The rows to write and the MACs to delete, as far as `done` goes. */
  ghost predicate Gathered(t: Tables, observed: Observations, now: int, hard: int, done: set<string>,
                           pending: map<string, State>, rows: map<string, CacheRow>, deleted: set<string>)
  {
    && deleted == Dropped(t, observed) * done
    && pending.Keys == done - Dropped(t, observed)
    && rows.Keys == observed.Keys * done
    && (forall mac | mac in pending ::
       (mac in observed || mac in t.states) && pending[mac] == NextState(t, observed, mac, now, hard))
    && (forall mac | mac in rows :: rows[mac] == NextCache(Get(t.cache, mac), observed[mac], now))
  }

  lemma NothingGathered(t: Tables, observed: Observations, now: int, hard: int, done: set<string>)
    requires done == {}
    ensures Gathered(t, observed, now, hard, done, map[], map[], {})
  {}

  lemma GatherSeen(t: Tables, observed: Observations, now: int, hard: int, done: set<string>,
                   pending: map<string, State>, rows: map<string, CacheRow>, deleted: set<string>, mac: string)
    requires Gathered(t, observed, now, hard, done, pending, rows, deleted) && mac !in done && mac in observed
    ensures Gathered(t, observed, now, hard, done + {mac}, pending[mac := NextState(t, observed, mac, now, hard)],
                     rows[mac := NextCache(Get(t.cache, mac), observed[mac], now)], deleted)
  {
    hide NextState, NextCache, Get;
  }

  lemma GatherAway(t: Tables, observed: Observations, now: int, hard: int, done: set<string>,
                   pending: map<string, State>, rows: map<string, CacheRow>, deleted: set<string>, mac: string)
    requires Gathered(t, observed, now, hard, done, pending, rows, deleted) && mac !in done
    requires mac !in observed && mac in t.states && mac in t.registered
    ensures Gathered(t, observed, now, hard, done + {mac}, pending[mac := NextState(t, observed, mac, now, hard)],
                     rows, deleted)
  {
    hide NextState, NextCache, Get;
  }

  lemma GatherDropped(t: Tables, observed: Observations, now: int, hard: int, done: set<string>,
                      pending: map<string, State>, rows: map<string, CacheRow>, deleted: set<string>, mac: string)
    requires Gathered(t, observed, now, hard, done, pending, rows, deleted) && mac !in done
    requires mac !in observed && mac in t.states && mac !in t.registered
    ensures Gathered(t, observed, now, hard, done + {mac}, pending, rows, deleted + {mac})
  {
    hide NextState, NextCache, Get;
  }

  /** The MACs come in whatever order the map yields them. */
  method Gather(t: Tables, observed: Observations, now: int, hard: int)
    returns (pending: map<string, State>, rows: map<string, CacheRow>, deleted: set<string>)
    ensures Gathered(t, observed, now, hard, t.states.Keys + observed.Keys, pending, rows, deleted)
  {
    hide Seen, Away, Stored, NextCache, NextState, Gathered;
    pending, rows, deleted := map[], map[], {};
    var all := t.states.Keys + observed.Keys;
    var todo := all;
    NothingGathered(t, observed, now, hard, all - todo);
    while todo != {}
      invariant todo <= all
      invariant Gathered(t, observed, now, hard, all - todo, pending, rows, deleted)
    {
      var mac :| mac in todo;
      ghost var done := all - todo;
      todo := todo - {mac};
      assert all - todo == done + {mac};
      if mac !in t.registered && mac !in observed {
        GatherDropped(t, observed, now, hard, done, pending, rows, deleted, mac);
        deleted := deleted + {mac};
      } else if mac in observed {
        GatherSeen(t, observed, now, hard, done, pending, rows, deleted, mac);
        pending := pending[mac := NextState(t, observed, mac, now, hard)];
        rows := rows[mac := NextCache(Get(t.cache, mac), observed[mac], now)];
      } else {
        GatherAway(t, observed, now, hard, done, pending, rows, deleted, mac);
        pending := pending[mac := NextState(t, observed, mac, now, hard)];
      }
    }
    assert all - todo == all;
  }

  lemma WritesArePolled(t: Tables, observed: Observations, now: int, hard: int,
                        pending: map<string, State>, rows: map<string, CacheRow>, deleted: set<string>)
    requires Gathered(t, observed, now, hard, t.states.Keys + observed.Keys, pending, rows, deleted)
    ensures Tables(t.states + pending - deleted, t.registered, t.cache + rows - deleted)
      == Polled(t, observed, now, hard)
    ensures deleted == {}
      ==> t.states + pending - deleted == t.states + pending && t.cache + rows - deleted == t.cache + rows
  {
    hide NextState, NextCache, Polled;
    StatesArePolled(t, observed, now, hard, pending, rows, deleted);
    CacheIsPolled(t, observed, now, hard, pending, rows, deleted);
    assert Polled(t, observed, now, hard).registered == t.registered by { RegisteredStay(t, observed, now, hard); }
  }

  lemma RegisteredStay(t: Tables, observed: Observations, now: int, hard: int)
    ensures Polled(t, observed, now, hard).registered == t.registered
  {}

  lemma StatesArePolled(t: Tables, observed: Observations, now: int, hard: int,
                        pending: map<string, State>, rows: map<string, CacheRow>, deleted: set<string>)
    requires Gathered(t, observed, now, hard, t.states.Keys + observed.Keys, pending, rows, deleted)
    ensures t.states + pending - deleted == Polled(t, observed, now, hard).states
  {
    hide NextState, NextCache, Get;
  }

  lemma CacheIsPolled(t: Tables, observed: Observations, now: int, hard: int,
                      pending: map<string, State>, rows: map<string, CacheRow>, deleted: set<string>)
    requires Gathered(t, observed, now, hard, t.states.Keys + observed.Keys, pending, rows, deleted)
    ensures t.cache + rows - deleted == Polled(t, observed, now, hard).cache
  {
    hide NextState, NextCache, Get;
  }

  class DeviceService {
    var states: map<string, State>
    var registered: map<string, Registered>
    var cache: map<string, CacheRow>
    const hard: int

    ghost function Value(): Tables reads this { Tables(states, registered, cache) }

    constructor (hard: int)
      ensures Value() == Tables(map[], map[], map[]) && this.hard == hard
    {
      states, registered, cache := map[], map[], map[];
      this.hard := hard;
    }

    method PersistSnapshot(observed: Observations, now: int)
      modifies this
      ensures Value() == Polled(old(Value()), observed, now, hard)
    {
      hide Polled, NextState, NextCache, Gathered;
      ghost var t := Value();
      var pending, rows, deleted := Gather(Tables(states, registered, cache), observed, now, hard);
      states := states + pending;
      cache := cache + rows;
      if deleted != {} {
        states := states - deleted;
        cache := cache - deleted;
      }
      WritesArePolled(t, observed, now, hard, pending, rows, deleted);
    }

    /** Without a snapshot (no configuration, or a failing router) nothing changes. */
    method PollOnce(e: Setting, fetched: Option<Snapshot>, now: int) returns (ok: bool)
      modifies this
      ensures ok == fetched.Some?
      ensures Value() == if ok then Polled(old(Value()), Aggregated(e, fetched.value), now, hard) else old(Value())
    {
      hide Polled, Aggregated;
      ok := fetched.Some?;
      if ok {
        var observed := Aggregate(e, fetched.value);
        PersistSnapshot(observed, now);
      }
    }

    method RegisterDevice(mac: string, i: Input, now: int)
      modifies this`registered
      ensures registered == old(registered)[mac := Upserted(Get(old(registered), mac), i, now)]
    {
      registered := registered[mac := Upserted(Get(registered, mac), i, now)];
    }

    /** An empty patch of an unknown device goes through; any other is "not found". */
    method PatchDevice(mac: string, i: Input, now: int) returns (ok: bool)
      modifies this`registered
      ensures ok == (mac in old(registered) || i == Input(None, None, None))
      ensures registered == if mac in old(registered) then old(registered)[mac := Patched(old(registered)[mac], i, now)]
                            else old(registered)
    {
      if i == Input(None, None, None) {
        return true;
      }
      ok := mac in registered;
      if ok {
        registered := registered[mac := Patched(registered[mac], i, now)];
      }
    }
  }
}
