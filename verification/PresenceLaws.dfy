/** What holds of the device tables over every run of polls and registrations. */
module PresenceLaws {
  import opened Text
  import opened Aggregates
  import opened Presence

  datatype Event =
    | Poll(observed: Observations, now: int)
    | Register(mac: string, input: Input, now: int)
    | Patch(mac: string, input: Input, now: int)

  function After(t: Tables, e: Event, hard: int): Tables {
    match e
    case Poll(observed, now) => Polled(t, observed, now, hard)
    case Register(mac, input, now) => t.(registered :=
      t.registered[mac := Upserted(Get(t.registered, mac), input, now)])
    case Patch(mac, input, now) =>
      if mac in t.registered
        then t.(registered := t.registered[mac := Presence.Patched(t.registered[mac], input, now)]) else t
  }

  function Run(t: Tables, events: seq<Event>, hard: int): Tables {
    if events == [] then t else After(Run(t, events[..|events| - 1], hard), events[|events| - 1], hard)
  }

  function Empty(): Tables { Tables(map[], map[], map[]) }

  // ---- Table agreement ----

  /** A poll keeps the registered and the observed devices, in both tables alike. */
  lemma PollKeepsTablesAligned(t: Tables, observed: Observations, now: int, hard: int)
    requires t.cache.Keys == t.states.Keys
    ensures var after := Polled(t, observed, now, hard);
            after.states.Keys == t.states.Keys * t.registered.Keys + observed.Keys == after.cache.Keys
  {
    hide NextState, NextCache, Get;
  }

  lemma {:induction false} TablesAgree(events: seq<Event>, hard: int)
    ensures Run(Empty(), events, hard).states.Keys == Run(Empty(), events, hard).cache.Keys
  {
    hide Polled;
    if events != [] {
      var front, last := events[..|events| - 1], events[|events| - 1];
      TablesAgree(front, hard);
      if last.Poll? { PollKeepsTablesAligned(Run(Empty(), front, hard), last.observed, last.now, hard); }
    }
  }

  /** After every run from an empty database a poll leaves, in both tables, the registered
      ones of the devices that were there and the observed ones, and no others. */
  lemma PollDecidesMembership(events: seq<Event>, observed: Observations, now: int, hard: int)
    ensures var before, after := Run(Empty(), events, hard), Run(Empty(), events + [Poll(observed, now)], hard);
            && after.states.Keys == before.states.Keys * before.registered.Keys + observed.Keys
            && after.cache.Keys == after.states.Keys
  {
    hide Polled;
    TablesAgree(events, hard);
    PollKeepsTablesAligned(Run(Empty(), events, hard), observed, now, hard);
    var longer := events + [Poll(observed, now)];
    assert longer[..|longer| - 1] == events;
  }

  // ---- The same poll again ----

  lemma SeenTwice(prev: Option<State>, o: Observation, now: int)
    ensures Stored(Seen(Some(Stored(Seen(prev, o, now))), o, now)) == Stored(Seen(prev, o, now))
  {
    hide DetailsOf, Trim;
  }

  lemma AwayTwice(prev: State, now: int, later: int, hard: int)
    ensures Stored(Away(Stored(Away(prev, now, hard)), later, hard)) == Stored(Away(prev, later, hard))
  {
    hide Trim;
  }

  lemma CacheTwice(prev: Option<CacheRow>, o: Observation, now: int)
    ensures NextCache(Some(NextCache(prev, o, now)), o, now) == NextCache(prev, o, now)
  {
    hide Trim;
    TrimIsTrimmed(o.hostName);
  }

  lemma StatesTwice(t: Tables, observed: Observations, now: int, hard: int)
    ensures Polled(Polled(t, observed, now, hard), observed, now, hard).states == Polled(t, observed, now, hard).states
  {
    hide Seen, Away, Stored, NextCache;
    var once := Polled(t, observed, now, hard);
    var twice := Polled(once, observed, now, hard);
    forall mac | mac in once.states ensures twice.states[mac] == once.states[mac] {
      if mac in observed {
        SeenTwice(Get(t.states, mac), observed[mac], now);
      } else {
        AwayTwice(t.states[mac], now, now, hard);
      }
    }
    assert twice.states.Keys == once.states.Keys;
  }

  /** Repeating a poll with the same observations and the same time changes nothing. */
  lemma SamePollTwice(t: Tables, observed: Observations, now: int, hard: int)
    ensures Polled(Polled(t, observed, now, hard), observed, now, hard) == Polled(t, observed, now, hard)
  {
    hide NextState, NextCache;
    StatesTwice(t, observed, now, hard);
    var once := Polled(t, observed, now, hard);
    var twice := Polled(once, observed, now, hard);
    forall mac | mac in once.cache && mac in observed ensures twice.cache[mac] == once.cache[mac] {
      CacheTwice(Get(t.cache, mac), observed[mac], now);
    }
    assert twice.cache.Keys == once.cache.Keys;
    assert twice.cache == once.cache;
  }

  // ---- Online ----

  predicate OnlineAt(e: Event, mac: string) {
    e.Poll? && mac in e.observed && e.observed[mac].status == Online
  }

  predicate LastPollOnline(events: seq<Event>, mac: string) {
    events != [] &&
    var last := events[|events| - 1];
    if last.Poll? then OnlineAt(last, mac) else LastPollOnline(events[..|events| - 1], mac)
  }

  predicate RowOnline(t: Tables, mac: string) {
    mac in t.states && t.states[mac].online
  }

  lemma PollSetsOnline(t: Tables, observed: Observations, now: int, hard: int, mac: string)
    ensures RowOnline(Polled(t, observed, now, hard), mac) <==> OnlineAt(Poll(observed, now), mac)
  {
    hide DetailsOf, Trim, NextCache;
  }

  /** A row is online exactly when the latest poll saw the device ONLINE. */
  lemma {:induction false} OnlineAfter(events: seq<Event>, hard: int, mac: string)
    ensures RowOnline(Run(Empty(), events, hard), mac) <==> LastPollOnline(events, mac)
  {
    hide Polled;
    if events != [] {
      var front, last := events[..|events| - 1], events[|events| - 1];
      OnlineAfter(front, hard, mac);
      if last.Poll? { PollSetsOnline(Run(Empty(), front, hard), last.observed, last.now, hard, mac); }
    }
  }

  ghost predicate FlagMatchesStatus(t: Tables) {
    forall mac | mac in t.states ::
      (t.states[mac].online <==> t.states[mac].status == Online) && t.states[mac].status != Unset
  }

  lemma PollMatchesStatus(t: Tables, observed: Observations, now: int, hard: int)
    ensures FlagMatchesStatus(Polled(t, observed, now, hard))
  {
    hide DetailsOf, Trim, NextCache, EverTraced;
  }

  /** After any run, a row is online exactly when its status is ONLINE. */
  lemma {:induction false} OnlineMeansStatusOnline(events: seq<Event>, hard: int)
    ensures FlagMatchesStatus(Run(Empty(), events, hard))
  {
    hide Polled;
    if events != [] {
      var front, last := events[..|events| - 1], events[|events| - 1];
      OnlineMeansStatusOnline(front, hard);
      if last.Poll? { PollMatchesStatus(Run(Empty(), front, hard), last.observed, last.now, hard); }
    }
  }

  /** Event `k` is the poll that began the unbroken run of online polls which still lasts. */
  ghost predicate Began(events: seq<Event>, mac: string, k: int) {
    && 0 <= k < |events| && OnlineAt(events[k], mac)
    && (forall j | k < j < |events| && events[j].Poll? :: OnlineAt(events[j], mac))
    && !LastPollOnline(events[..k], mac)
  }

  lemma {:induction false} SomePollBegan(events: seq<Event>, mac: string) returns (k: int)
    requires LastPollOnline(events, mac)
    ensures Began(events, mac, k)
  {
    var n := |events| - 1;
    var front := events[..n];
    if LastPollOnline(front, mac) {
      k := SomePollBegan(front, mac);
      assert front[..k] == events[..k];
      assert forall j | k < j < n :: front[j] == events[j];
    } else {
      k := n;
    }
  }

  lemma PollKeepsSince(t: Tables, observed: Observations, now: int, hard: int, mac: string)
    requires OnlineAt(Poll(observed, now), mac)
    ensures mac in Polled(t, observed, now, hard).states
    ensures Polled(t, observed, now, hard).states[mac].connectedSinceAt
      == if RowOnline(t, mac) then t.states[mac].connectedSinceAt else Some(now)
  {
    hide DetailsOf, Trim, NextCache;
  }

  lemma {:induction false} SinceTheBeginning(events: seq<Event>, hard: int, mac: string, k: int)
    requires Began(events, mac, k)
    ensures RowOnline(Run(Empty(), events, hard), mac)
    ensures Run(Empty(), events, hard).states[mac].connectedSinceAt == Some(events[k].now)
  {
    hide Polled;
    var n := |events| - 1;
    var front, last := events[..n], events[n];
    if last.Poll? {
      PollKeepsSince(Run(Empty(), front, hard), last.observed, last.now, hard, mac);
      PollSetsOnline(Run(Empty(), front, hard), last.observed, last.now, hard, mac);
    }
    if k < n {
      assert front[..k] == events[..k];
      assert forall j | k <= j < n :: front[j] == events[j];
      SinceTheBeginning(front, hard, mac, k);
    } else {
      OnlineAfter(front, hard, mac);
    }
  }

  /** An online row carries the time of the poll that began its current unbroken run of
      online polls, and a row is online exactly while such a run lasts. */
  lemma ConnectedSinceTheRunBegan(events: seq<Event>, hard: int, mac: string)
    ensures RowOnline(Run(Empty(), events, hard), mac) <==> exists k :: Began(events, mac, k)
    ensures forall k | Began(events, mac, k) ::
      mac in Run(Empty(), events, hard).states
      && Run(Empty(), events, hard).states[mac].connectedSinceAt == Some(events[k].now)
  {
    hide Run, OnlineAt, LastPollOnline;
    OnlineAfter(events, hard, mac);
    if RowOnline(Run(Empty(), events, hard), mac) {
      var k := SomePollBegan(events, mac);
    }
    forall k | Began(events, mac, k)
      ensures RowOnline(Run(Empty(), events, hard), mac)
      ensures Run(Empty(), events, hard).states[mac].connectedSinceAt == Some(events[k].now)
    {
      SinceTheBeginning(events, hard, mac, k);
    }
  }

  // ---- A device that stays away ----

  /** The time of the latest poll. */
  function LastPoll(events: seq<Event>): Option<int> {
    if events == [] then None
    else if events[|events| - 1].Poll? then Some(events[|events| - 1].now)
    else LastPoll(events[..|events| - 1])
  }

  predicate NeverSeen(events: seq<Event>, mac: string) {
    forall k | 0 <= k < |events| && events[k].Poll? :: mac !in events[k].observed
  }

  lemma PollLeavesAway(t: Tables, observed: Observations, now: int, hard: int, mac: string)
    requires mac in t.states && mac in t.registered && mac !in observed
    ensures var after := Polled(t, observed, now, hard);
            && mac in after.states && mac in after.registered
            && after.states[mac] == Stored(Away(t.states[mac], now, hard))
  {
    hide Away, Stored, NextCache;
  }

  /** While a registered device goes unseen its row is the old one, with the status that the
      time of the latest poll alone decides. */
  lemma {:induction false} FrozenWhileAway(t: Tables, events: seq<Event>, hard: int, mac: string)
    requires mac in t.states && mac in t.registered && NeverSeen(events, mac)
    ensures mac in Run(t, events, hard).states && mac in Run(t, events, hard).registered
    ensures Run(t, events, hard).states[mac]
      == if LastPoll(events).Some? then Stored(Away(t.states[mac], LastPoll(events).value, hard)) else t.states[mac]
  {
    hide Polled, Away, Stored;
    if events != [] {
      var front, last := events[..|events| - 1], events[|events| - 1];
      assert forall k | 0 <= k < |front| :: front[k] == events[k];
      FrozenWhileAway(t, front, hard, mac);
      if last.Poll? {
        PollLeavesAway(Run(t, front, hard), last.observed, last.now, hard, mac);
        if LastPoll(front).Some? { AwayTwice(t.states[mac], LastPoll(front).value, last.now, hard); }
      }
    }
  }

  /** OFFLINE exactly when the last sighting is longer ago than the hard threshold; the
      sighting, the address, the subnet and the connection time stay as they were. */
  lemma OfflineExactlyAfterThreshold(t: Tables, events: seq<Event>, hard: int, mac: string)
    requires mac in t.states && mac in t.registered && NeverSeen(events, mac) && LastPoll(events).Some?
    ensures mac in Run(t, events, hard).states
    ensures var row, was := Run(t, events, hard).states[mac], t.states[mac];
            && (row.status == Offline <==> was.lastSeenAt.Some? && LastPoll(events).value - was.lastSeenAt.value > hard)
            && (row.status == IdleRecent <==> row.status != Offline && EverTraced(was))
            && (row.status == Unknown <==> row.status != Offline && !EverTraced(was))
            && !row.online && row.lastSeenAt == was.lastSeenAt && row.connectedSinceAt == was.connectedSinceAt
            && row.lastIp == was.lastIp && row.lastSubnet == was.lastSubnet && row.details == was.details
  {
    hide Run, LastPoll, Trim;
    FrozenWhileAway(t, events, hard, mac);
  }

  predicate ClockRuns(events: seq<Event>) {
    forall i, j | 0 <= i < j < |events| && events[i].Poll? && events[j].Poll? :: events[i].now <= events[j].now
  }

  lemma {:induction false} LastPollIsAPoll(events: seq<Event>) returns (k: int)
    requires LastPoll(events).Some?
    ensures 0 <= k < |events| && events[k].Poll? && events[k].now == LastPoll(events).value
    ensures forall j | k < j < |events| :: !events[j].Poll?
  {
    var n := |events| - 1;
    if events[n].Poll? { k := n; } else { k := LastPollIsAPoll(events[..n]); }
  }

  lemma {:induction false} APollIsThere(events: seq<Event>, k: int)
    requires 0 <= k < |events| && events[k].Poll?
    ensures LastPoll(events).Some?
  {
    var n := |events| - 1;
    if !events[n].Poll? { APollIsThere(events[..n], k); }
  }

  lemma LastPollGrows(events: seq<Event>, i: nat)
    requires ClockRuns(events) && i <= |events| && LastPoll(events[..i]).Some?
    ensures LastPoll(events).Some? && LastPoll(events[..i]).value <= LastPoll(events).value
  {
    hide LastPoll;
    var a := LastPollIsAPoll(events[..i]);
    APollIsThere(events, a);
    var b := LastPollIsAPoll(events);
    assert events[..i][a] == events[a];
  }

  /** Under a clock that does not go back, a device that stays away never leaves OFFLINE, and
      otherwise keeps the status it got from the first poll without it. */
  lemma OfflineIsFinal(t: Tables, events: seq<Event>, hard: int, mac: string, i: nat)
    requires mac in t.states && mac in t.registered && NeverSeen(events, mac) && ClockRuns(events)
    requires i <= |events| && LastPoll(events[..i]).Some?
    ensures mac in Run(t, events[..i], hard).states && mac in Run(t, events, hard).states
    ensures var before, after := Run(t, events[..i], hard).states[mac].status, Run(t, events, hard).states[mac].status;
            after == before || (before == IdleRecent && after == Offline)
  {
    hide Run, LastPoll, EverTraced, ClockRuns;
    assert forall k | 0 <= k < i :: events[..i][k] == events[k];
    LastPollGrows(events, i);
    SightingIsATrace(t.states[mac]);
    OfflineExactlyAfterThreshold(t, events[..i], hard, mac);
    OfflineExactlyAfterThreshold(t, events, hard, mac);
  }

  lemma SightingIsATrace(s: State)
    ensures s.lastSeenAt.Some? ==> EverTraced(s)
  {}

  // ---- Registrations ----

  /** The time of the first registration of the device. */
  function FirstRegistered(events: seq<Event>, mac: string): Option<int> {
    if events == [] then None
    else
      var front, last := events[..|events| - 1], events[|events| - 1];
      if FirstRegistered(front, mac).Some? then FirstRegistered(front, mac)
      else if last.Register? && last.mac == mac then Some(last.now) else None
  }

  /** The last value a user gave in a column: a registration takes trimmed, non-blank values,
      a patch takes any value but only of a device that is registered. */
  function LastEntered(events: seq<Event>, mac: string, column: Input -> Option<string>): Option<string> {
    if events == [] then None
    else
      var front, last := events[..|events| - 1], events[|events| - 1];
      if last.Register? && last.mac == mac && Given(column(last.input)).Some? then Given(column(last.input))
      else if last.Patch? && last.mac == mac && FirstRegistered(front, mac).Some? && column(last.input).Some?
      then column(last.input)
      else LastEntered(front, mac, column)
  }

  /** The time of the last registration, or patch with a value, of the device. */
  function LastTouched(events: seq<Event>, mac: string): Option<int> {
    if events == [] then None
    else
      var front, last := events[..|events| - 1], events[|events| - 1];
      if last.Register? && last.mac == mac then Some(last.now)
      else if last.Patch? && last.mac == mac && FirstRegistered(front, mac).Some?
        && last.input != Input(None, None, None)
      then Some(last.now)
      else LastTouched(front, mac)
  }

  function NameColumn(i: Input): Option<string> { i.name }
  function IconColumn(i: Input): Option<string> { i.icon }
  function CommentColumn(i: Input): Option<string> { i.comment }

  /** Over every run from an empty database a device is registered exactly if it was ever
      registered; its creation time is that of the first registration, and each column holds
      the last value the user gave there for this device, whatever happened to others. */
  lemma {:induction false} RegistrationsRemember(events: seq<Event>, hard: int, mac: string)
    ensures var registered := Run(Empty(), events, hard).registered;
            && (mac in registered <==> FirstRegistered(events, mac).Some?)
            && (mac in registered ==>
                  && Some(registered[mac].createdAt) == FirstRegistered(events, mac)
                  && Some(registered[mac].updatedAt) == LastTouched(events, mac)
                  && registered[mac].name == LastEntered(events, mac, NameColumn)
                  && registered[mac].icon == LastEntered(events, mac, IconColumn)
                  && registered[mac].comment == LastEntered(events, mac, CommentColumn))
  {
    hide Polled, Given;
    if events != [] {
      var front, last := events[..|events| - 1], events[|events| - 1];
      RegistrationsRemember(front, hard, mac);
      NeverEntered(front, mac, NameColumn);
      NeverEntered(front, mac, IconColumn);
      NeverEntered(front, mac, CommentColumn);
      if last.Poll? { RegisteredStay(Run(Empty(), front, hard), last.observed, last.now, hard); }
    }
  }

  lemma {:induction false} NeverEntered(events: seq<Event>, mac: string, column: Input -> Option<string>)
    ensures FirstRegistered(events, mac).None? ==> LastEntered(events, mac, column) == None
  {
    hide Given;
    if events != [] { NeverEntered(events[..|events| - 1], mac, column); }
  }

  // ---- What a registered device's rows remember ----

  /** The last value that the polls which saw the device offer in a column. */
  function LastGiven<T>(events: seq<Event>, mac: string, column: Observation -> Option<T>): Option<T> {
    if events == [] then None
    else
      var last := events[|events| - 1];
      if last.Poll? && mac in last.observed && column(last.observed[mac]).Some? then column(last.observed[mac])
      else LastGiven(events[..|events| - 1], mac, column)
  }

  function IpColumn(o: Observation): Option<string> { Written(o.ip) }
  function SubnetColumn(o: Observation): Option<string> { Written(o.lastSubnet) }
  function TimeColumn(o: Observation): Option<int> { o.lastSeenAt }
  function DetailsColumn(o: Observation): Option<Details> { Some(DetailsOf(o)) }

  /** The row holds the last given address, subnet, sighting and details, else those of `was`. */
  predicate Remembers(row: State, was: State, events: seq<Event>, mac: string) {
    && row.lastIp == Or(LastGiven(events, mac, IpColumn), was.lastIp)
    && row.lastSubnet == Or(LastGiven(events, mac, SubnetColumn), was.lastSubnet)
    && row.lastSeenAt == Or(LastGiven(events, mac, TimeColumn), was.lastSeenAt)
    && Some(row.details) == Or(LastGiven(events, mac, DetailsColumn), Some(was.details))
  }

  lemma RememberedStep(t: Tables, observed: Observations, now: int, hard: int, mac: string)
    requires mac in t.states && (mac in t.registered || mac in observed)
    ensures var after := Polled(t, observed, now, hard);
            && mac in after.states
            && var row, before := after.states[mac], t.states[mac];
               if mac in observed then
                 && row.lastIp == Or(IpColumn(observed[mac]), before.lastIp)
                 && row.lastSubnet == Or(SubnetColumn(observed[mac]), before.lastSubnet)
                 && row.lastSeenAt == Or(TimeColumn(observed[mac]), before.lastSeenAt)
                 && row.details == DetailsOf(observed[mac])
               else
                 && row.lastIp == before.lastIp && row.lastSubnet == before.lastSubnet
                 && row.lastSeenAt == before.lastSeenAt && row.details == before.details
  {
    hide DetailsOf, Trim, NextCache, EverTraced;
  }

  /** Over every run, the row of a registered device remembers the last address, subnet and
      sighting that any poll gave, and the details of the latest poll that saw it. */
  lemma {:induction false} RegisteredRowsRemember(t: Tables, events: seq<Event>, hard: int, mac: string)
    requires mac in t.states && mac in t.registered
    ensures mac in Run(t, events, hard).states && mac in Run(t, events, hard).registered
    ensures Remembers(Run(t, events, hard).states[mac], t.states[mac], events, mac)
  {
    hide Polled, IpColumn, SubnetColumn, DetailsOf;
    if events != [] {
      var front, last := events[..|events| - 1], events[|events| - 1];
      RegisteredRowsRemember(t, front, hard, mac);
      if last.Poll? {
        RegisteredStay(Run(t, front, hard), last.observed, last.now, hard);
        RememberedStep(Run(t, front, hard), last.observed, last.now, hard, mac);
      }
    }
  }

  predicate KnownVendor(v: string) { !Blank(v) && v != "Unknown" }

  predicate ProperName(name: string) { !Blank(name) && !("Device-" <= name) }

  lemma CacheStep(t: Tables, observed: Observations, now: int, hard: int, mac: string)
    requires mac in t.cache && (mac in t.registered || mac in observed)
    ensures mac in Polled(t, observed, now, hard).cache
    ensures Polled(t, observed, now, hard).cache[mac]
      == if mac in observed then NextCache(Some(t.cache[mac]), observed[mac], now) else t.cache[mac]
  {
    hide NextCache, NextState;
  }

  /** Polls without a host name and without a known vendor never take a registered device's
      proper name or known vendor away; only a name that looks generated can change. */
  lemma {:induction false} NamesAreNotLost(t: Tables, events: seq<Event>, hard: int, mac: string)
    requires mac in t.cache && mac in t.registered
    requires forall k | 0 <= k < |events| && events[k].Poll? && mac in events[k].observed ::
      Blank(events[k].observed[mac].hostName) && events[k].observed[mac].vendor in {"", "Unknown"}
    ensures mac in Run(t, events, hard).cache && mac in Run(t, events, hard).registered
    ensures var row, was := Run(t, events, hard).cache[mac], t.cache[mac];
            && (ProperName(was.generatedName) ==> row.generatedName == was.generatedName)
            && (KnownVendor(was.vendor) ==> row.vendor == was.vendor)
            && row.firstSeenAt == was.firstSeenAt
  {
    hide Polled, Trim;
    if events != [] {
      var front, last := events[..|events| - 1], events[|events| - 1];
      assert forall k | 0 <= k < |front| :: front[k] == events[k];
      NamesAreNotLost(t, front, hard, mac);
      if last.Poll? {
        RegisteredStay(Run(t, front, hard), last.observed, last.now, hard);
        CacheStep(Run(t, front, hard), last.observed, last.now, hard, mac);
      }
    }
  }

  lemma CacheBirth(t: Tables, observed: Observations, now: int, hard: int, mac: string)
    requires mac in Polled(t, observed, now, hard).cache
    ensures mac in t.cache ==> Polled(t, observed, now, hard).cache[mac].firstSeenAt == t.cache[mac].firstSeenAt
    ensures mac !in t.cache ==> Polled(t, observed, now, hard).cache[mac].firstSeenAt == Some(now)
  {
    hide NextState, Trim;
  }

  /** A first-seen time is that of the poll which created the row. */
  lemma {:induction false} FirstSeenAtCreation(events: seq<Event>, hard: int, mac: string, k: nat)
    requires k < |events| && mac !in Run(Empty(), events[..k], hard).cache
    requires forall j | k < j <= |events| :: mac in Run(Empty(), events[..j], hard).cache
    ensures events[k].Poll? && mac in Run(Empty(), events, hard).cache
    ensures Run(Empty(), events, hard).cache[mac].firstSeenAt == Some(events[k].now)
  {
    hide Polled;
    var n := |events| - 1;
    var front, last := events[..n], events[n];
    assert events[..n + 1] == events;
    if k < n {
      assert front[..k] == events[..k];
      forall j | k < j <= n ensures mac in Run(Empty(), front[..j], hard).cache { assert front[..j] == events[..j]; }
      FirstSeenAtCreation(front, hard, mac, k);
    }
    if last.Poll? { CacheBirth(Run(Empty(), front, hard), last.observed, last.now, hard, mac); }
  }

  // ---- Polls of router snapshots ----

  ghost predicate FromRouter(e: Setting, observed: Observations) {
    exists s :: observed == Aggregated(e, s)
  }

  lemma SeenOnlineHasTime(e: Setting, observed: Observations, mac: string)
    requires FromRouter(e, observed) && mac in observed && observed[mac].status == Online
    ensures observed[mac].lastSeenAt.Some?
  {
    hide Observed;
    var s :| observed == Aggregated(e, s);
    OnlineWasSeen(e, s, mac);
  }

  lemma PollKeepsTime(t: Tables, observed: Observations, now: int, hard: int, mac: string)
    requires OnlineAt(Poll(observed, now), mac) && observed[mac].lastSeenAt.Some?
    ensures mac in Polled(t, observed, now, hard).states
    ensures Polled(t, observed, now, hard).states[mac].lastSeenAt == observed[mac].lastSeenAt
  {
    hide DetailsOf, Trim, NextCache;
  }

  /** When every poll aggregates a router snapshot, every online row has a last-seen time. */
  lemma {:induction false} OnlineRowsWereSeen(e: Setting, events: seq<Event>, hard: int, mac: string)
    requires forall k | 0 <= k < |events| && events[k].Poll? :: FromRouter(e, events[k].observed)
    requires RowOnline(Run(Empty(), events, hard), mac)
    ensures Run(Empty(), events, hard).states[mac].lastSeenAt.Some?
  {
    hide Polled, FromRouter;
    if events != [] {
      var front, last := events[..|events| - 1], events[|events| - 1];
      if last.Poll? {
        assert FromRouter(e, last.observed);
        PollSetsOnline(Run(Empty(), front, hard), last.observed, last.now, hard, mac);
        SeenOnlineHasTime(e, last.observed, mac);
        PollKeepsTime(Run(Empty(), front, hard), last.observed, last.now, hard, mac);
      } else {
        assert forall k | 0 <= k < |front| :: front[k] == events[k];
        OnlineRowsWereSeen(e, front, hard, mac);
      }
    }
  }
}
