/** The device list of the API (addon/internal/services/device/service.go over
    MergeDeviceViews of addon/internal/storage/repository.go): merging three tables in map
    order, filtering, and sorting into one determined order. */
module Listing {
  import opened Text
  import Aggregates
  import opened Presence

  datatype Kind = New | Known

  datatype View = View(
    mac: string, name: string, vendor: string, icon: Option<string>, comment: Option<string>, kind: Kind,
    online: bool, lastSeenAt: Option<int>, connectedSinceAt: Option<int>,
    lastIp: Option<string>, lastSubnet: Option<string>, details: Details,
    connection: Aggregates.Status, reason: string, sources: seq<Aggregates.Source>,
    createdAt: Option<int>, updatedAt: int, firstSeenAt: Option<int>)

  datatype Filter = Filter(status: string, online: Option<bool>, query: string)

  function All(t: Tables): set<string> {
    t.states.Keys + t.registered.Keys
  }

  function NameOf(t: Tables, mac: string): string {
    if mac in t.registered && t.registered[mac].name.Some? && !Blank(t.registered[mac].name.value)
    then t.registered[mac].name.value
    else if mac in t.cache then t.cache[mac].generatedName else ""
  }

  /** The merged row of a device; `reading` is the clock when the loop reaches it, used only
      for a device without a state row. */
  function ViewOf(t: Tables, mac: string, reading: int): (v: View)
    ensures v.mac == mac
  {
    var s := if mac in t.states then Stored(t.states[mac]) else EmptyState(reading);
    var cache := if mac in t.cache then t.cache[mac] else CacheRow(None, "", "");
    var reg := Get(t.registered, mac);
    View(mac, NameOf(t, mac), if cache.vendor == "" then "Unknown" else cache.vendor,
         if reg.Some? then reg.value.icon else None, if reg.Some? then reg.value.comment else None,
         if reg.Some? then Known else New,
         s.online, s.lastSeenAt, s.connectedSinceAt, s.lastIp, s.lastSubnet, s.details,
         s.status, s.reason, s.sources,
         if reg.Some? then Some(reg.value.createdAt) else None, s.updatedAt, cache.firstSeenAt)
  }

  predicate MatchesQuery(v: View, query: string) {
    || Contains(Lower(v.name), query) || Contains(Lower(v.mac), query) || Contains(Lower(v.vendor), query)
    || (v.lastIp.Some? && Contains(Lower(v.lastIp.value), query))
  }

  predicate Passes(v: View, f: Filter) {
    var status, query := Lower(Trim(f.status)), Lower(Trim(f.query));
    && (status == "new" ==> v.kind == New)
    && (status == "registered" ==> v.kind == Known)
    && (f.online.Some? ==> v.online == f.online.value)
    && (query != "" ==> MatchesQuery(v, query))
  }

  // ---- The order ----

  function StatusRank(v: View): int {
    if v.kind == New then 0 else 1
  }

  /** primarySortTime */
  function SortTime(v: View): int {
    if v.kind == Known && v.createdAt.Some? then v.createdAt.value
    else if v.kind == New && v.firstSeenAt.Some? then v.firstSeenAt.value
    else v.updatedAt
  }

  /** The comparator of the sort. */
  predicate Before(a: View, b: View) {
    if StatusRank(a) != StatusRank(b) then StatusRank(a) < StatusRank(b)
    else if SortTime(a) != SortTime(b) then SortTime(a) > SortTime(b)
    else if Lower(a.name) != Lower(b.name) then Less(Lower(a.name), Lower(b.name))
    else Less(a.mac, b.mac)
  }

  lemma LessIsStrict(a: string, b: string, c: string)
    ensures !(Less(a, b) && Less(b, a))
    ensures a != b ==> Less(a, b) || Less(b, a)
    ensures Less(a, b) && Less(b, c) ==> Less(a, c)
  {
    AtMostTotal(a, b);
    AtMostTotal(b, c);
    if Less(a, b) && Less(b, c) { AtMostTransitive(a, b, c); }
  }

  /** The comparator is a strict total order on views of different devices. */
  lemma BeforeIsATotalOrder(a: View, b: View, c: View)
    ensures !Before(a, a) && !(Before(a, b) && Before(b, a))
    ensures a.mac != b.mac ==> Before(a, b) || Before(b, a)
    ensures Before(a, b) && Before(b, c) ==> Before(a, c)
  {
    hide Lower, AtMost, SortTime;
    LessIsStrict(a.mac, b.mac, c.mac);
    LessIsStrict(Lower(a.name), Lower(b.name), Lower(c.name));
  }

  ghost predicate InOrder(items: seq<View>) {
    forall i, j | 0 <= i < j < |items| :: Before(items[i], items[j])
  }

  function Insert(v: View, items: seq<View>): seq<View> {
    if items == [] || Before(v, items[0]) then [v] + items else [items[0]] + Insert(v, items[1..])
  }

  /** Stands for the library's stable sort. */
  function Sorted(items: seq<View>): seq<View> {
    if items == [] then [] else Insert(items[0], Sorted(items[1..]))
  }

  ghost predicate Distinct(items: seq<View>) {
    forall i, j | 0 <= i < j < |items| :: items[i].mac != items[j].mac
  }

  lemma {:induction false} InsertKeepsOrder(v: View, items: seq<View>)
    requires InOrder(items) && forall x | x in items :: x.mac != v.mac
    ensures InOrder(Insert(v, items))
    ensures forall x :: x in Insert(v, items) <==> x == v || x in items
  {
    hide Before;
    if items == [] {
    } else if Before(v, items[0]) {
      forall j | 0 <= j < |items| ensures Before(v, items[j]) { BeforeIsATotalOrder(v, items[0], items[j]); }
    } else {
      var rest := Insert(v, items[1..]);
      BeforeIsATotalOrder(v, items[0], v);
      assert items == [items[0]] + items[1..];
      InsertKeepsOrder(v, items[1..]);
      forall j | 0 <= j < |rest| ensures Before(items[0], rest[j]) {
        assert rest[j] in rest;
        if rest[j] != v {
          var k :| 0 <= k < |items[1..]| && items[1..][k] == rest[j];
          assert items[k + 1] == rest[j];
        }
      }
    }
  }

  lemma {:induction false} SortedIsInOrder(items: seq<View>)
    requires Distinct(items)
    ensures InOrder(Sorted(items))
    ensures forall x :: x in Sorted(items) <==> x in items
  {
    hide Before;
    if items != [] {
      var rest := items[1..];
      assert items == [items[0]] + rest;
      SortedIsInOrder(rest);
      forall x | x in Sorted(rest) ensures x.mac != items[0].mac {
        var k :| 0 <= k < |rest| && rest[k] == x;
        assert items[k + 1] == x;
      }
      InsertKeepsOrder(items[0], Sorted(rest));
    }
  }

  // ---- The operations ----

  /** One row per device, in whatever order the map yields them; `clock(i)` is the time at
      which the loop makes its i-th row. */
  method MergeDeviceViews(t: Tables, clock: nat -> int) returns (items: seq<View>)
    ensures Distinct(items)
    ensures forall i | 0 <= i < |items| :: items[i].mac in All(t) && items[i] == ViewOf(t, items[i].mac, clock(i))
    ensures forall mac | mac in All(t) :: HasMac(items, mac)
  {
    hide ViewOf;
    items := [];
    var todo := All(t);
    while todo != {}
      invariant todo <= All(t) && Distinct(items)
      invariant forall i | 0 <= i < |items| ::
        items[i].mac in All(t) - todo && items[i] == ViewOf(t, items[i].mac, clock(i))
      invariant forall mac | mac in All(t) - todo :: HasMac(items, mac)
    {
      var mac :| mac in todo;
      var v := ViewOf(t, mac, clock(|items|));
      MacsGrow(items, v);
      items := items + [v];
      todo := todo - {mac};
    }
  }

  ghost predicate HasMac(items: seq<View>, mac: string) {
    exists i | 0 <= i < |items| :: items[i].mac == mac
  }

  lemma MacsGrow(items: seq<View>, v: View)
    ensures HasMac(items + [v], v.mac) && forall mac | HasMac(items, mac) :: HasMac(items + [v], mac)
  {
    var more := items + [v];
    assert more[|items|].mac == v.mac;
    forall mac | HasMac(items, mac) ensures HasMac(more, mac) {
      var i :| 0 <= i < |items| && items[i].mac == mac;
      assert more[i].mac == mac;
    }
  }

  /** The rows that pass, in their order. */
  function Filtered(items: seq<View>, f: Filter): seq<View> {
    if items == [] then []
    else
      var last := items[|items| - 1];
      Filtered(items[..|items| - 1], f) + (if Passes(last, f) then [last] else [])
  }

  method FilterViews(items: seq<View>, f: Filter) returns (result: seq<View>)
    ensures result == Filtered(items, f)
  {
    hide Passes;
    result := [];
    for k := 0 to |items|
      invariant result == Filtered(items[..k], f)
    {
      assert items[..k + 1][..k] == items[..k];
      if Passes(items[k], f) {
        result := result + [items[k]];
      }
    }
    assert items[..|items|] == items;
  }

  /** Filtering keeps exactly the rows that pass, and no row twice. */
  lemma {:induction false} FilteredRows(items: seq<View>, f: Filter)
    ensures forall v :: v in Filtered(items, f) <==> v in items && Passes(v, f)
    ensures Distinct(items) ==> Distinct(Filtered(items, f))
  {
    hide Passes;
    if items != [] {
      var front, last := items[..|items| - 1], items[|items| - 1];
      FilteredRows(front, f);
      assert items == front + [last];
      if Distinct(items) {
        forall v | v in Filtered(front, f) ensures v.mac != last.mac {
          var k :| 0 <= k < |front| && front[k] == v;
          assert items[k] == v;
        }
      }
    }
  }

  /** The list a request must get: in the comparator's order, one current view for every
      device of the state and registration tables that passes the filter, and no other. */
  ghost predicate IsListing(t: Tables, f: Filter, list: seq<View>) {
    && InOrder(list)
    && (forall i | 0 <= i < |list| :: list[i] == ViewOf(t, list[i].mac, list[i].updatedAt))
    && (forall mac :: HasMac(list, mac) <==> mac in All(t) && Passes(ViewOf(t, mac, 0), f))
  }

  lemma ReadingShowsOnlyInUpdated(t: Tables, mac: string, a: int, b: int)
    ensures ViewOf(t, mac, ViewOf(t, mac, a).updatedAt) == ViewOf(t, mac, a)
    ensures ViewOf(t, mac, a).(updatedAt := 0) == ViewOf(t, mac, b).(updatedAt := 0)
    ensures mac in t.states ==> ViewOf(t, mac, a) == ViewOf(t, mac, b)
  {
    hide NameOf, Trim;
  }

  lemma ReadingNeverMatters(t: Tables, f: Filter, mac: string, a: int, b: int)
    requires mac in All(t)
    ensures Passes(ViewOf(t, mac, a), f) == Passes(ViewOf(t, mac, b), f)
    ensures StatusRank(ViewOf(t, mac, a)) == StatusRank(ViewOf(t, mac, b))
    ensures SortTime(ViewOf(t, mac, a)) == SortTime(ViewOf(t, mac, b))
    ensures ViewOf(t, mac, a).name == ViewOf(t, mac, b).name
  {
    hide NameOf, Trim, Lower, Contains;
  }

  method ListDevices(t: Tables, f: Filter, clock: nat -> int) returns (list: seq<View>)
    ensures IsListing(t, f, list)
  {
    hide ViewOf, Passes, Before, Sorted, Filtered;
    var items := MergeDeviceViews(t, clock);
    var filtered := FilterViews(items, f);
    FilteredRows(items, f);
    SortedIsInOrder(filtered);
    list := Sorted(filtered);
    forall i | 0 <= i < |list| ensures list[i] == ViewOf(t, list[i].mac, list[i].updatedAt) {
      assert list[i] in list;
      var k :| 0 <= k < |items| && items[k] == list[i];
      ReadingShowsOnlyInUpdated(t, items[k].mac, clock(k), 0);
    }
    forall mac ensures HasMac(list, mac) <==> mac in All(t) && Passes(ViewOf(t, mac, 0), f) {
      if HasMac(list, mac) {
        var i :| 0 <= i < |list| && list[i].mac == mac;
        assert list[i] in list;
        var k :| 0 <= k < |items| && items[k] == list[i];
        ReadingNeverMatters(t, f, mac, clock(k), 0);
      }
      if mac in All(t) && Passes(ViewOf(t, mac, 0), f) {
        var k :| 0 <= k < |items| && items[k].mac == mac;
        ReadingNeverMatters(t, f, mac, clock(k), 0);
        assert items[k] in list;
        var i :| 0 <= i < |list| && list[i] == items[k];
        assert list[i].mac == mac;
      }
    }
  }

  // ---- There is only one list ----

  predicate SameButUpdated(t: Tables, a: View, b: View) {
    a.(updatedAt := 0) == b.(updatedAt := 0) && (a.mac in t.states ==> a == b)
  }

  lemma OrderIgnoresReadings(t: Tables, f: Filter, a: string, b: string, i: int, j: int, k: int, l: int)
    requires a in All(t) && b in All(t)
    ensures Before(ViewOf(t, a, i), ViewOf(t, b, j)) == Before(ViewOf(t, a, k), ViewOf(t, b, l))
  {
    hide ViewOf, Lower, SortTime, StatusRank, Passes;
    ReadingNeverMatters(t, f, a, i, k);
    ReadingNeverMatters(t, f, b, j, l);
  }

  ghost predicate MacsInOrder(t: Tables, macs: seq<string>) {
    forall i, j | 0 <= i < j < |macs| :: Before(ViewOf(t, macs[i], 0), ViewOf(t, macs[j], 0))
  }

  /** A set of devices has one order. */
  lemma {:induction false} OrderIsUnique(t: Tables, a: seq<string>, b: seq<string>)
    requires MacsInOrder(t, a) && MacsInOrder(t, b) && forall mac :: mac in a <==> mac in b
    ensures a == b
  {
    hide Before, ViewOf;
    if a != [] { assert a[0] in a; }
    if b != [] { assert b[0] in b; }
    if a != [] {
      SameHead(t, a, b);
      forall mac ensures mac in a[1..] <==> mac in b[1..] {
        SameTail(t, a, b, mac);
        SameTail(t, b, a, mac);
      }
      OrderIsUnique(t, a[1..], b[1..]);
      assert a == [a[0]] + a[1..] && b == [b[0]] + b[1..];
    }
  }

  lemma SameHead(t: Tables, a: seq<string>, b: seq<string>)
    requires MacsInOrder(t, a) && MacsInOrder(t, b) && a != [] && b != [] && a[0] in b && b[0] in a
    ensures a[0] == b[0]
  {
    hide Before, ViewOf;
    var i :| 0 <= i < |a| && a[i] == b[0];
    var j :| 0 <= j < |b| && b[j] == a[0];
    BeforeIsATotalOrder(ViewOf(t, a[0], 0), ViewOf(t, b[0], 0), ViewOf(t, a[0], 0));
  }

  lemma SameTail(t: Tables, a: seq<string>, b: seq<string>, mac: string)
    requires MacsInOrder(t, a) && a != [] && b != [] && a[0] == b[0] && forall m :: m in a <==> m in b
    ensures mac in a[1..] ==> mac in b[1..]
  {
    hide Before, ViewOf;
    if mac in a[1..] {
      var i :| 0 <= i < |a[1..]| && a[1..][i] == mac;
      assert a[i + 1] == mac;
      BeforeIsATotalOrder(ViewOf(t, a[0], 0), ViewOf(t, mac, 0), ViewOf(t, mac, 0));
      assert mac in b;
      var j :| 0 <= j < |b| && b[j] == mac;
      assert b[1..][j - 1] == mac;
    }
  }

  function MacsOf(list: seq<View>): seq<string> {
    seq(|list|, i requires 0 <= i < |list| => list[i].mac)
  }

  lemma ListingOrdersMacs(t: Tables, f: Filter, list: seq<View>)
    requires IsListing(t, f, list)
    ensures MacsInOrder(t, MacsOf(list))
    ensures forall mac :: mac in MacsOf(list) <==> mac in All(t) && Passes(ViewOf(t, mac, 0), f)
  {
    hide Before, ViewOf, Passes, All;
    var macs := MacsOf(list);
    forall i | 0 <= i < |list| ensures macs[i] in All(t) { assert HasMac(list, list[i].mac); }
    forall i, j | 0 <= i < j < |macs| ensures Before(ViewOf(t, macs[i], 0), ViewOf(t, macs[j], 0)) {
      OrderIgnoresReadings(t, f, macs[i], macs[j], list[i].updatedAt, list[j].updatedAt, 0, 0);
    }
    forall mac ensures mac in macs <==> HasMac(list, mac) {
      if HasMac(list, mac) {
        var i :| 0 <= i < |list| && list[i].mac == mac;
        assert macs[i] == mac;
      }
      if mac in macs {
        var i :| 0 <= i < |macs| && macs[i] == mac;
        assert list[i].mac == mac;
      }
    }
  }

  /** Whatever the map order and the clock, a request gets the same devices in the same order
      with the same data; only the update time of a device without a state row, which is the
      clock reading itself, can differ. */
  lemma ListingIsUnique(t: Tables, f: Filter, a: seq<View>, b: seq<View>)
    requires IsListing(t, f, a) && IsListing(t, f, b)
    ensures |a| == |b| && forall i | 0 <= i < |a| :: SameButUpdated(t, a[i], b[i])
  {
    hide Before, ViewOf, Passes, MacsInOrder, All;
    ListingOrdersMacs(t, f, a);
    ListingOrdersMacs(t, f, b);
    OrderIsUnique(t, MacsOf(a), MacsOf(b));
    assert |a| == |MacsOf(a)| == |MacsOf(b)| == |b|;
    forall i | 0 <= i < |a| ensures SameButUpdated(t, a[i], b[i]) {
      assert MacsOf(a)[i] == MacsOf(b)[i];
      ReadingShowsOnlyInUpdated(t, a[i].mac, a[i].updatedAt, b[i].updatedAt);
    }
  }

  // ---- The order and the contents, on the columns ----

  /** In a listing new devices come first; among registered ones the later created, among new
      ones the later first seen (or, without such a time, updated); then names, then MACs. */
  lemma ListedInThisOrder(t: Tables, f: Filter, list: seq<View>, i: nat, j: nat)
    requires IsListing(t, f, list) && i < j < |list|
    ensures var (a, b) := (list[i], list[j]);
            && (b.kind == New ==> a.kind == New)
            && (a.kind == Known ==> a.createdAt.Some? && b.createdAt.Some? && a.createdAt.value >= b.createdAt.value)
            && (a.kind == New && b.kind == New && a.firstSeenAt.Some? && b.firstSeenAt.Some? ==>
                  a.firstSeenAt.value >= b.firstSeenAt.value)
            && (a.kind == New && b.kind == New && a.firstSeenAt.None? && b.firstSeenAt.None? ==>
                  a.updatedAt >= b.updatedAt)
            && (a.kind == New && b.kind == New && a.firstSeenAt.Some? && b.firstSeenAt.None? ==>
                  a.firstSeenAt.value >= b.updatedAt)
            && (a.kind == New && b.kind == New && a.firstSeenAt.None? && b.firstSeenAt.Some? ==>
                  a.updatedAt >= b.firstSeenAt.value)
            && (a.kind == b.kind && a.createdAt == b.createdAt && a.firstSeenAt == b.firstSeenAt
                && (a.kind == Known || a.firstSeenAt.Some? || a.updatedAt == b.updatedAt) ==>
                  if Lower(a.name) == Lower(b.name) then (exists k :: LowerAt(a.mac, b.mac, k))
                  else exists k :: LowerAt(Lower(a.name), Lower(b.name), k))
  {
    hide Lower, Less, LowerAt, ViewOf;
    var (a, b) := (list[i], list[j]);
    KnownWereCreated(t, a.mac, a.updatedAt);
    KnownWereCreated(t, b.mac, b.updatedAt);
    LessExactly(Lower(a.name), Lower(b.name));
    LessExactly(a.mac, b.mac);
  }

  lemma KnownWereCreated(t: Tables, mac: string, reading: int)
    ensures ViewOf(t, mac, reading).kind == Known <==> ViewOf(t, mac, reading).createdAt.Some?
  {}

  /** Which devices a request lists: the status it asks for, the online flag it asks for, and
      a search text that stands, letter case aside, in name, MAC, vendor or address. */
  lemma ListedWhen(v: View, f: Filter)
    ensures Passes(v, f) <==>
            && (Lower(Trim(f.status)) == "new" ==> v.kind == New)
            && (Lower(Trim(f.status)) == "registered" ==> v.kind == Known)
            && (f.online == Some(true) ==> v.online) && (f.online == Some(false) ==> !v.online)
            && var q := Lower(Trim(f.query));
               q == "" || (exists i :: PartAt(Lower(v.name), q, i)) || (exists i :: PartAt(Lower(v.mac), q, i))
               || (exists i :: PartAt(Lower(v.vendor), q, i))
               || (v.lastIp.Some? && exists i :: PartAt(Lower(v.lastIp.value), q, i))
  {
    hide Lower, Trim, Contains, PartAt;
    var q := Lower(Trim(f.query));
    ContainsExactly(Lower(v.name), q);
    ContainsExactly(Lower(v.mac), q);
    ContainsExactly(Lower(v.vendor), q);
    if v.lastIp.Some? { ContainsExactly(Lower(v.lastIp.value), q); }
  }

  /** A request that filters nothing lists every device of the two tables, and one that asks
      for the registered ones lists every registered device. */
  lemma EveryDeviceIsListed(t: Tables, list: seq<View>, mac: string)
    ensures IsListing(t, Filter("", None, ""), list) && (mac in t.states || mac in t.registered) ==> HasMac(list, mac)
    ensures IsListing(t, Filter("registered", None, ""), list) && mac in t.registered ==> HasMac(list, mac)
  {
    assert Lower(Trim("")) == "";
    Spelled("registered");
    assert Lower("registered") == "registered" && "registered"[0] != "new"[0];
  }

  lemma Spelled(word: string)
    requires Trimmed(word)
    ensures Trim(word) == word
  {
    TrimIsTrimmed(word);
  }

  /** What a listed device shows of the three tables. */
  lemma ListedColumns(t: Tables, f: Filter, list: seq<View>, i: nat)
    requires IsListing(t, f, list) && i < |list|
    ensures var v := list[i];
            && (v.mac in t.registered || v.mac in t.states)
            && (v.kind == Known <==> v.mac in t.registered)
            && (v.mac in t.registered ==>
                  var reg := t.registered[v.mac];
                  && v.createdAt == Some(reg.createdAt) && v.icon == reg.icon && v.comment == reg.comment
                  && (reg.name.Some? && !AllSpace(reg.name.value) ==> v.name == reg.name.value))
            && (v.mac in t.cache ==>
                  var cached := t.cache[v.mac];
                  && v.firstSeenAt == cached.firstSeenAt
                  && v.vendor == (if cached.vendor == "" then "Unknown" else cached.vendor)
                  && ((v.mac !in t.registered || t.registered[v.mac].name.None?) ==> v.name == cached.generatedName))
            && (v.mac in t.states ==>
                  var row := t.states[v.mac];
                  && v.online == row.online && v.lastSeenAt == row.lastSeenAt && v.lastIp == row.lastIp
                  && v.connectedSinceAt == row.connectedSinceAt && v.lastSubnet == row.lastSubnet
                  && v.details == row.details && v.sources == row.sources && v.updatedAt == row.updatedAt
                  && (row.status != Aggregates.Unset ==> v.connection == row.status))
            && (v.mac !in t.states ==> !v.online && v.connection == Aggregates.Unknown && v.lastSeenAt == None)
  {
    hide Passes, Trim, Lower;
    assert HasMac(list, list[i].mac);
    if list[i].mac in t.registered && t.registered[list[i].mac].name.Some? {
      BlankExactly(t.registered[list[i].mac].name.value);
    }
  }
}
