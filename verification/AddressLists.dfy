/** The typed address-list operations of the client: look up, then act, each command on
    top of the at-least-once `Run`. */
module AddressLists {
  import opened Text
  import opened Devices
  import opened Transport
  import Words

  datatype Status = Fine | Invalid | Failure

  ghost function PrintWords(list: string): seq<string> {
    Words.Encoded(map["?list" := list, ".proplist" := ".id,list,address"])
  }

  ghost function AddWords(list: string, address: string): seq<string> {
    Words.Encoded(map["list" := list, "address" := address])
  }

  ghost function RemoveWords(id: string): seq<string> {
    Words.Encoded(map[".id" := id])
  }

  /** The ids that `findAddressIDs` takes from the rows of a lookup. */
  function IdsIn(rows: seq<Words.Params>, list: string, address: string): seq<string> {
    if rows == [] then []
    else
      var front := IdsIn(rows[..|rows| - 1], list, address);
      var row := rows[|rows| - 1];
      if Trim(Field(row, "list")) != list || !SameTarget(Field(row, "address"), address)
        || Trim(Field(row, ".id")) == ""
      then front
      else front + [Trim(Field(row, ".id"))]
  }

  /** Rows of a reply; None for a device error or no reply at all. */
  function RowsOf(r: Outcome): Option<seq<Words.Params>> {
    match r
    case Replied(Rows(rows)) => Some(rows)
    case Replied(Done) => Some([])
    case _ => None
  }

  // ---- The operations as functions ----

  ghost function FindIds(net: Net, list: string, address: string): (Net, Option<seq<string>>) {
    var (after, r) := Run(net, ListPrint, PrintWords(list));
    match RowsOf(r)
    case None => (after, None)
    case Some(rows) => (after, Some(IdsIn(rows, list, address)))
  }

  ghost function Exists(net: Net, rawList: string, rawAddress: string): (Net, Option<bool>) {
    var list, address := Trim(rawList), Trim(rawAddress);
    if list == "" || address == "" then (net, Some(false))
    else
      var (after, ids) := FindIds(net, list, address);
      (after, if ids.None? then None else Some(ids.value != []))
  }

  ghost function Add(net: Net, rawList: string, rawAddress: string): (Net, Status) {
    var list, address := Trim(rawList), Trim(rawAddress);
    if list == "" || address == "" then (net, Invalid)
    else
      var (looked, present) := Exists(net, list, address);
      if present.None? then (looked, Failure)
      else if present.value then (looked, Fine)
      else
        var (after, r) := Run(looked, ListAdd, AddWords(list, address));
        (after, if Accepted(r, AlreadyHave) then Fine else Failure)
  }

  /** Success, or a device error that says there was nothing left to do. */
  predicate Accepted(r: Outcome, harmless: TrapKind) {
    match r
    case Replied(Trap(kind)) => kind == harmless
    case Replied(_) => true
    case Failed => false
  }

  ghost function RemoveIds(net: Net, ids: seq<string>): (Net, Status)
    decreases |ids|
  {
    if ids == [] then (net, Fine)
    else
      var (after, r) := Run(net, ListRemove, RemoveWords(ids[0]));
      if Accepted(r, NoSuchItem) then RemoveIds(after, ids[1..]) else (after, Failure)
  }

  ghost function Remove(net: Net, rawList: string, rawAddress: string): (Net, Status) {
    var list, address := Trim(rawList), Trim(rawAddress);
    if list == "" || address == "" then (net, Invalid)
    else
      var (looked, ids) := FindIds(net, list, address);
      if ids.None? then (looked, Failure) else RemoveIds(looked, ids.value)
  }

  // ---- The methods ----

  method FindAddressIds(c: Client, list: string, address: string) returns (ids: Option<seq<string>>)
    modifies c
    ensures (c.net, ids) == FindIds(old(c.net), list, address)
  {
    hide Run;
    var words := Words.MapParams(map["?list" := list, ".proplist" := ".id,list,address"]);
    var r := c.RunCommand(ListPrint, words);
    var rows := RowsOf(r);
    if rows.None? { return None; }
    var found: seq<string> := [];
    for i := 0 to |rows.value|
      invariant found == IdsIn(rows.value[..i], list, address)
    {
      var row := rows.value[i];
      assert rows.value[..i + 1][..i] == rows.value[..i];
      if Trim(Field(row, "list")) != list { continue; }
      if !SameTarget(Field(row, "address"), address) { continue; }
      var id := Trim(Field(row, ".id"));
      if id != "" { found := found + [id]; }
    }
    assert rows.value[..|rows.value|] == rows.value;
    ids := Some(found);
  }

  method AddressExists(c: Client, rawList: string, rawAddress: string) returns (r: Option<bool>)
    modifies c
    ensures (c.net, r) == Exists(old(c.net), rawList, rawAddress)
  {
    hide FindIds;
    var list, address := Trim(rawList), Trim(rawAddress);
    if list == "" || address == "" { return Some(false); }
    var ids := FindAddressIds(c, list, address);
    r := if ids.None? then None else Some(ids.value != []);
  }

  method AddAddressToList(c: Client, rawList: string, rawAddress: string) returns (s: Status)
    modifies c
    ensures (c.net, s) == Add(old(c.net), rawList, rawAddress)
  {
    hide Run, Exists;
    var list, address := Trim(rawList), Trim(rawAddress);
    if list == "" { return Invalid; }
    if address == "" { return Invalid; }
    var present := AddressExists(c, list, address);
    if present.None? { return Failure; }
    if present.value { return Fine; }
    var words := Words.MapParams(map["list" := list, "address" := address]);
    var r := c.RunCommand(ListAdd, words);
    s := if Accepted(r, AlreadyHave) then Fine else Failure;
  }

  method RemoveAddressFromList(c: Client, rawList: string, rawAddress: string) returns (s: Status)
    modifies c
    ensures (c.net, s) == Remove(old(c.net), rawList, rawAddress)
  {
    hide Run, FindIds;
    var list, address := Trim(rawList), Trim(rawAddress);
    if list == "" { return Invalid; }
    if address == "" { return Invalid; }
    var ids := FindAddressIds(c, list, address);
    if ids.None? { return Failure; }
    var i := 0;
    while i < |ids.value|
      invariant 0 <= i <= |ids.value|
      invariant RemoveIds(c.net, ids.value[i..]) == Remove(old(c.net), rawList, rawAddress)
    {
      var words := Words.MapParams(map[".id" := ids.value[i]]);
      var r := c.RunCommand(ListRemove, words);
      if !Accepted(r, NoSuchItem) { return Failure; }
      i := i + 1;
    }
    s := Fine;
  }

  // ---- Each command's effect, retries included ----

  lemma {:induction false} RepeatedPrint(d: Device, words: seq<string>, k: nat)
    ensures Repeated(d, ListPrint, words, k) == d
  {
    if k > 0 { RepeatedPrint(d, words, k - 1); }
  }

  lemma PrintEffect(net: Net, list: string)
    ensures var (after, r) := Run(net, ListPrint, PrintWords(list));
            && after.device == net.device
            && (r.Replied? ==> r.reply == Rows(EntryRows(net.device.entries, list)))
  {
    hide Run;
    var words := PrintWords(list);
    var (after, r) := Run(net, ListPrint, words);
    RunIsAtLeastOnce(net, ListPrint, words);
    var k: nat :| && k <= 4 && after.device == Repeated(net.device, ListPrint, words, k)
                  && (r.Replied? ==>
                     k > 0 && r.reply == Answer(Repeated(net.device, ListPrint, words, k - 1), ListPrint, words).1);
    RepeatedPrint(net.device, words, k);
    if k > 0 { RepeatedPrint(net.device, words, k - 1); }
    WiresArrive(map["?list" := list, ".proplist" := ".id,list,address"]);
  }

  /** The device's answer to an add. */
  lemma AddAnswer(d: Device, list: string, address: string)
    ensures Answer(d, ListAdd, AddWords(list, address)) ==
            (d.(entries := WithEntry(d.entries, list, address)),
             if Contained(d.entries, list, address) then Trap(AlreadyHave) else Done)
    ensures Contained(WithEntry(d.entries, list, address), list, address)
  {
    WiresArrive(map["list" := list, "address" := address]);
    if !Contained(d.entries, list, address) {
      var e := Entry(FreshId(d.entries), list, address);
      assert e in WithEntry(d.entries, list, address) && Matches(e, list, address);
    }
  }

  lemma {:induction false} RepeatedAdd(d: Device, list: string, address: string, k: nat)
    ensures Repeated(d, ListAdd, AddWords(list, address), k + 1) == d.(entries := WithEntry(d.entries, list, address))
  {
    hide Answer;
    AddAnswer(d, list, address);
    if k > 0 {
      RepeatedAdd(d, list, address, k - 1);
      AddAnswer(Repeated(d, ListAdd, AddWords(list, address), k), list, address);
    } else {
      assert Repeated(d, ListAdd, AddWords(list, address), 0) == d;
    }
  }

  /** However often the command is retried, at most one entry is added, and exactly that
      when the client gets an answer. */
  lemma AddEffect(net: Net, list: string, address: string)
    ensures var (after, r) := Run(net, ListAdd, AddWords(list, address));
            var added := net.device.(entries := WithEntry(net.device.entries, list, address));
            && (after.device == net.device || after.device == added)
            && (r.Replied? ==> after.device == added && Accepted(r, AlreadyHave))
  {
    hide Run, Answer;
    var words := AddWords(list, address);
    var (after, r) := Run(net, ListAdd, words);
    RunIsAtLeastOnce(net, ListAdd, words);
    var k: nat :| && k <= 4 && after.device == Repeated(net.device, ListAdd, words, k)
                  && (r.Replied? ==>
                     k > 0 && r.reply == Answer(Repeated(net.device, ListAdd, words, k - 1), ListAdd, words).1);
    if k > 0 {
      RepeatedAdd(net.device, list, address, k - 1);
      AddAnswer(Repeated(net.device, ListAdd, words, k - 1), list, address);
    } else {
      assert Repeated(net.device, ListAdd, words, 0) == net.device;
    }
  }

  lemma RemoveAnswer(d: Device, id: string)
    ensures var (after, reply) := Answer(d, ListRemove, RemoveWords(id));
            && after == d.(entries := WithoutId(d.entries, id))
            && (reply == Done || reply == Trap(NoSuchItem))
  {
    hide Words.Encoded, Words.Decoded;
    WiresArrive(map[".id" := id]);
    if !exists e | e in d.entries :: e.id == id { NothingToRemove(d.entries, id); }
  }

  lemma {:induction false} NothingToRemove(entries: seq<Entry>, id: string)
    requires !exists e | e in entries :: e.id == id
    ensures WithoutId(entries, id) == entries
  {
    if entries != [] {
      var front, last := entries[..|entries| - 1], entries[|entries| - 1];
      assert entries == front + [last];
      assert last in entries;
      NothingToRemove(front, id);
    }
  }

  lemma {:induction false} RepeatedRemove(d: Device, id: string, k: nat)
    ensures Repeated(d, ListRemove, RemoveWords(id), k + 1) == d.(entries := WithoutId(d.entries, id))
  {
    hide Answer;
    RemoveAnswer(d, id);
    if k > 0 {
      RepeatedRemove(d, id, k - 1);
      RemoveAnswer(Repeated(d, ListRemove, RemoveWords(id), k), id);
      NothingToRemove(WithoutId(d.entries, id), id);
    } else {
      assert Repeated(d, ListRemove, RemoveWords(id), 0) == d;
    }
  }

  lemma RemoveEffect(net: Net, id: string)
    ensures var (after, r) := Run(net, ListRemove, RemoveWords(id));
            var removed := net.device.(entries := WithoutId(net.device.entries, id));
            && (after.device == net.device || after.device == removed)
            && (r.Replied? ==> after.device == removed && Accepted(r, NoSuchItem))
  {
    hide Run, Answer;
    var words := RemoveWords(id);
    var (after, r) := Run(net, ListRemove, words);
    RunIsAtLeastOnce(net, ListRemove, words);
    var k: nat :| && k <= 4 && after.device == Repeated(net.device, ListRemove, words, k)
                  && (r.Replied? ==>
                     k > 0 && r.reply == Answer(Repeated(net.device, ListRemove, words, k - 1), ListRemove, words).1);
    if k > 0 {
      RepeatedRemove(net.device, id, k - 1);
      RemoveAnswer(Repeated(net.device, ListRemove, words, k - 1), id);
    } else {
      assert Repeated(net.device, ListRemove, words, 0) == net.device;
    }
  }

  // ---- Lookup ----

  /** The lookup finds the ids of the matching entries, all of them when ids are proper. */
  lemma {:induction false} LookupFinds(entries: seq<Entry>, list: string, address: string)
    requires Trimmed(list)
    ensures forall id | id in IdsIn(EntryRows(entries, list), list, address) ::
              exists e | e in entries :: Matches(e, list, address) && Trim(e.id) == id
    ensures forall e | e in entries && Matches(e, list, address) && IdOk(e.id) ::
              e.id in IdsIn(EntryRows(entries, list), list, address)
  {
    if entries != [] {
      var front, last := entries[..|entries| - 1], entries[|entries| - 1];
      assert entries == front + [last];
      LookupFinds(front, list, address);
      TrimIsTrimmed(last.id);
      TrimIsTrimmed(list);
      if last.list == list {
        var rows := EntryRows(front, list);
        assert (rows + [EntryRow(last)])[..|rows|] == rows;
      }
    }
  }

  /** A lookup changes nothing, and what it finds is there. */
  lemma ExistsIsSound(net: Net, rawList: string, rawAddress: string)
    ensures Exists(net, rawList, rawAddress).0.device == net.device
    ensures Exists(net, rawList, rawAddress).1 == Some(true) ==>
              Contained(net.device.entries, Trim(rawList), Trim(rawAddress))
  {
    hide Run, IdsIn;
    var list, address := Trim(rawList), Trim(rawAddress);
    TrimIsTrimmed(rawList);
    PrintEffect(net, list);
    LookupFinds(net.device.entries, list, address);
    if Exists(net, rawList, rawAddress).1 == Some(true) {
      var ids := IdsIn(EntryRows(net.device.entries, list), list, address);
      assert ids[0] in ids;
      var e :| e in net.device.entries && Matches(e, list, address) && Trim(e.id) == ids[0];
    }
  }

  /** With proper ids a successful lookup is the truth about membership. */
  lemma ExistsIsTruth(net: Net, rawList: string, rawAddress: string)
    requires EntriesOk(net.device.entries)
    ensures Exists(net, rawList, rawAddress).0.device == net.device
    ensures Exists(net, rawList, rawAddress).1.Some? && Trim(rawList) != "" && Trim(rawAddress) != "" ==>
              Exists(net, rawList, rawAddress).1.value == Contained(net.device.entries, Trim(rawList), Trim(rawAddress))
  {
    hide FindIds, EntriesOk;
    ExistsIsSound(net, rawList, rawAddress);
    var list, address := Trim(rawList), Trim(rawAddress);
    TrimIsTrimmed(rawList);
    LookupIsComplete(net, list, address);
    if Contained(net.device.entries, list, address) && FindIds(net, list, address).1.Some? {
      var e :| e in net.device.entries && Matches(e, list, address);
      assert e.id in FindIds(net, list, address).1.value;
    }
  }

  // ---- Main results ----

  /** The entries matching (list, address). */
  function Matching(entries: seq<Entry>, list: string, address: string): seq<Entry> {
    if entries == [] then []
    else
      var front := Matching(entries[..|entries| - 1], list, address);
      var last := entries[|entries| - 1];
      if Matches(last, list, address) then front + [last] else front
  }

  lemma {:induction false} MatchingMembers(entries: seq<Entry>, list: string, address: string)
    ensures forall e :: e in Matching(entries, list, address) <==> e in entries && Matches(e, list, address)
  {
    if entries != [] {
      var front, last := entries[..|entries| - 1], entries[|entries| - 1];
      assert entries == front + [last];
      MatchingMembers(front, list, address);
    }
  }

  /** For every plan of faults: `AddAddressToList` never changes an existing entry and adds
      at most one; when it returns no error the matching entries number max(1, before). */
  lemma AddHasOneEffect(net: Net, rawList: string, rawAddress: string)
    ensures var (after, s) := Add(net, rawList, rawAddress);
            var (before, list, address) := (net.device.entries, Trim(rawList), Trim(rawAddress));
            && (after.device == net.device || after.device == net.device.(entries := WithEntry(before, list, address)))
            && Others(after.device.entries, list, address) == Others(before, list, address)
            && (s == Fine ==>
                  && after.device.entries == WithEntry(before, list, address)
                  && |Matching(after.device.entries, list, address)|
                     == if |Matching(before, list, address)| == 0 then 1 else |Matching(before, list, address)|)
  {
    hide Run, Answer, Exists, Others, Matching, WithEntry, Contained;
    var list, address := Trim(rawList), Trim(rawAddress);
    var before := net.device.entries;
    OneMoreEntry(before, list, address);
    TrimIsTrimmed(rawList);
    TrimIsTrimmed(rawAddress);
    if list != "" && address != "" {
      ExistsIsSound(net, list, address);
      AddEffect(Exists(net, list, address).0, list, address);
      AlreadyThere(before, list, address);
    }
  }

  lemma AlreadyThere(entries: seq<Entry>, list: string, address: string)
    ensures Contained(entries, list, address) ==> WithEntry(entries, list, address) == entries
  {}

  lemma OneMoreEntry(entries: seq<Entry>, list: string, address: string)
    ensures Others(WithEntry(entries, list, address), list, address) == Others(entries, list, address)
    ensures |Matching(WithEntry(entries, list, address), list, address)|
            == if Contained(entries, list, address) then |Matching(entries, list, address)|
               else |Matching(entries, list, address)| + 1
    ensures !Contained(entries, list, address) <==> |Matching(entries, list, address)| == 0
  {
    MatchingMembers(entries, list, address);
    var e := Entry(FreshId(entries), list, address);
    assert (entries + [e])[..|entries|] == entries;
    if Contained(entries, list, address) {
      var x :| x in entries && Matches(x, list, address);
      assert x in Matching(entries, list, address);
    } else if Matching(entries, list, address) != [] {
      assert Matching(entries, list, address)[0] in Matching(entries, list, address);
    }
  }

  /** Every entry whose id is listed matches. */
  ghost predicate OnlyMatching(entries: seq<Entry>, ids: seq<string>, list: string, address: string) {
    forall e | e in entries && e.id in ids :: Matches(e, list, address)
  }

  lemma {:induction false} OthersWithoutId(entries: seq<Entry>, id: string, list: string, address: string)
    requires forall e | e in entries && e.id == id :: Matches(e, list, address)
    ensures Others(WithoutId(entries, id), list, address) == Others(entries, list, address)
  {
    if entries != [] {
      var front, last := entries[..|entries| - 1], entries[|entries| - 1];
      assert entries == front + [last];
      OthersWithoutId(front, id, list, address);
      if last.id != id {
        var kept := WithoutId(front, id);
        assert (kept + [last])[..|kept|] == kept;
      }
    }
  }

  lemma {:induction false} RemoveIdsEffect(net: Net, ids: seq<string>, list: string, address: string)
    requires EntriesOk(net.device.entries) && OnlyMatching(net.device.entries, ids, list, address)
    ensures var (after, s) := RemoveIds(net, ids);
            && EntriesOk(after.device.entries)
            && after.device.tables == net.device.tables
            && Others(after.device.entries, list, address) == Others(net.device.entries, list, address)
            && (forall e | e in after.device.entries :: e in net.device.entries)
            && (s == Fine ==> forall e | e in after.device.entries :: e.id !in ids)
    decreases |ids|
  {
    hide Run, EntriesOk, Others, WithoutId;
    if ids != [] {
      var (after, r) := Run(net, ListRemove, RemoveWords(ids[0]));
      RemoveEffect(net, ids[0]);
      WithoutIdOk(net.device.entries, ids[0]);
      OthersWithoutId(net.device.entries, ids[0], list, address);
      if Accepted(r, NoSuchItem) {
        RemoveIdsEffect(after, ids[1..], list, address);
        assert ids == [ids[0]] + ids[1..];
      }
    }
  }

  lemma {:induction false} OthersOfUnmatched(entries: seq<Entry>, list: string, address: string)
    requires forall e | e in entries :: !Matches(e, list, address)
    ensures Others(entries, list, address) == entries
  {
    if entries != [] {
      var front, last := entries[..|entries| - 1], entries[|entries| - 1];
      assert entries == front + [last];
      assert last in entries;
      OthersOfUnmatched(front, list, address);
    }
  }

  lemma LookupIsComplete(net: Net, list: string, address: string)
    requires Trimmed(list) && EntriesOk(net.device.entries)
    ensures FindIds(net, list, address).0.device == net.device
    ensures FindIds(net, list, address).1.Some? ==>
              && OnlyMatching(net.device.entries, FindIds(net, list, address).1.value, list, address)
              && forall e | e in net.device.entries && Matches(e, list, address) ::
                   e.id in FindIds(net, list, address).1.value
  {
    hide Run;
    PrintEffect(net, list);
    var entries := net.device.entries;
    LookupFinds(entries, list, address);
    var found := FindIds(net, list, address).1;
    if found.Some? {
      forall e | e in entries && e.id in found.value ensures Matches(e, list, address) {
        var x :| x in entries && Matches(x, list, address) && Trim(x.id) == e.id;
        TrimIsTrimmed(x.id);
        SameIdSameEntry(entries, x, e);
      }
    }
  }

  lemma SameIdSameEntry(entries: seq<Entry>, x: Entry, y: Entry)
    requires EntriesOk(entries) && x in entries && y in entries && x.id == y.id
    ensures x == y
  {
    var i :| 0 <= i < |entries| && entries[i] == x;
    var j :| 0 <= j < |entries| && entries[j] == y;
    assert i == j;
  }

  /** For every plan of faults: `RemoveAddressFromList` leaves every other entry where it
      was; when it returns no error exactly the other entries remain. */
  lemma RemoveHasOneEffect(net: Net, rawList: string, rawAddress: string)
    requires EntriesOk(net.device.entries)
    ensures var (after, s) := Remove(net, rawList, rawAddress);
            var (before, list, address) := (net.device.entries, Trim(rawList), Trim(rawAddress));
            && EntriesOk(after.device.entries)
            && after.device.tables == net.device.tables
            && Others(after.device.entries, list, address) == Others(before, list, address)
            && (s == Fine ==> after.device.entries == Others(before, list, address))
  {
    hide FindIds, RemoveIds, EntriesOk;
    var list, address := Trim(rawList), Trim(rawAddress);
    TrimIsTrimmed(rawList);
    if list != "" && address != "" {
      LookupIsComplete(net, list, address);
      var (looked, ids) := FindIds(net, list, address);
      if ids.Some? {
        RemoveIdsEffect(looked, ids.value, list, address);
        var (after, s) := RemoveIds(looked, ids.value);
        if s == Fine {
          OthersOfUnmatched(after.device.entries, list, address);
        }
      }
    }
  }

  /** Removing undoes a successful adding, and adding a successful removing, as far as
      membership goes; the other entries are the same throughout. */
  lemma AddThenRemove(net: Net, list: string, address: string)
    requires EntriesOk(net.device.entries)
    requires Add(net, list, address).1 == Fine
    requires Remove(Add(net, list, address).0, list, address).1 == Fine
    ensures Remove(Add(net, list, address).0, list, address).0.device.entries
            == Others(net.device.entries, Trim(list), Trim(address))
  {
    hide Add, Remove;
    AddHasOneEffect(net, list, address);
    WithEntryOk(net.device.entries, Trim(list), Trim(address));
    RemoveHasOneEffect(Add(net, list, address).0, list, address);
  }

  /** A list or an address of nothing but blanks is refused before anything is sent, and is
      never a member. */
  lemma BlankIsRefused(net: Net, list: string, address: string)
    requires AllSpace(list) || AllSpace(address)
    ensures Add(net, list, address) == (net, Invalid) && Remove(net, list, address) == (net, Invalid)
    ensures Exists(net, list, address) == (net, Some(false))
  {
    hide Run, Trim;
    BlankExactly(list);
    BlankExactly(address);
  }
}
