/** The RouterOS device at the other end of the wire: firewall address lists and rule
    tables, and its answer to each command the backend sends. Commands arrive as words. */
module Devices {
  import opened Text
  import Words

  datatype Entry = Entry(id: string, list: string, address: string)

  datatype Rule = Rule(id: string, comment: string, disabled: bool)

  datatype Device = Device(entries: seq<Entry>, tables: map<string, seq<Rule>>)

  datatype Path = ListPrint | ListAdd | ListRemove | RulePrint(table: string) | RuleSet(table: string)

  /** The classes of device error the backend tells apart by their text. */
  datatype TrapKind = AlreadyHave | NoSuchItem | Refused

  datatype Reply = Done | Rows(rows: seq<Words.Params>) | Trap(kind: TrapKind)

  function Field(row: Words.Params, key: string): string {
    if key in row then row[key] else ""
  }

  /** `normalizeAddressTarget` */
  function NormalAddress(address: string): string {
    TrimSuffix(Trim(Lower(address)), "/32")
  }

  /** `equalAddressTarget` */
  predicate SameTarget(a: string, b: string) {
    NormalAddress(a) == NormalAddress(b)
  }

  predicate Matches(e: Entry, list: string, address: string) {
    e.list == list && SameTarget(e.address, address)
  }

  predicate Contained(entries: seq<Entry>, list: string, address: string) {
    exists e | e in entries :: Matches(e, list, address)
  }

  /** The entries that are not (list, address). */
  function Others(entries: seq<Entry>, list: string, address: string): (r: seq<Entry>)
    ensures forall e :: e in r <==> e in entries && !Matches(e, list, address)
  {
    if entries == [] then []
    else
      var front := Others(entries[..|entries| - 1], list, address);
      var last := entries[|entries| - 1];
      assert entries == entries[..|entries| - 1] + [last];
      if Matches(last, list, address) then front else front + [last]
  }

  /** An id no entry has: longer than all of them. */
  function FreshId(entries: seq<Entry>): (id: string)
    ensures id != "" && Trimmed(id)
    ensures forall e | e in entries :: |e.id| < |id|
  {
    if entries == [] then "*"
    else
      var front := FreshId(entries[..|entries| - 1]);
      var last := entries[|entries| - 1];
      assert entries == entries[..|entries| - 1] + [last];
      if |last.id| < |front| then front else seq(|last.id| + 1, _ => '*')
  }

  /** One (list, address) entry more, unless there is one. */
  function WithEntry(entries: seq<Entry>, list: string, address: string): seq<Entry> {
    if Contained(entries, list, address) then entries
    else entries + [Entry(FreshId(entries), list, address)]
  }

  function WithoutId(entries: seq<Entry>, id: string): (r: seq<Entry>)
    ensures forall e :: e in r <==> e in entries && e.id != id
  {
    if entries == [] then []
    else
      var front := WithoutId(entries[..|entries| - 1], id);
      var last := entries[|entries| - 1];
      assert entries == entries[..|entries| - 1] + [last];
      if last.id == id then front else front + [last]
  }

  /** Every rule with the id gets the flag. */
  function WithFlag(rules: seq<Rule>, id: string, disabled: bool): (r: seq<Rule>)
    ensures |r| == |rules|
    ensures forall i | 0 <= i < |rules| ::
              r[i] == if rules[i].id == id then rules[i].(disabled := disabled) else rules[i]
  {
    seq(|rules|, i requires 0 <= i < |rules| =>
      if rules[i].id == id then rules[i].(disabled := disabled) else rules[i])
  }

  function EntryRow(e: Entry): Words.Params {
    map[".id" := e.id, "list" := e.list, "address" := e.address]
  }

  function RuleRow(r: Rule): Words.Params {
    map[".id" := r.id, "comment" := r.comment, "disabled" := if r.disabled then "true" else "false"]
  }

  function EntryRows(entries: seq<Entry>, list: string): seq<Words.Params> {
    if entries == [] then []
    else
      var front := EntryRows(entries[..|entries| - 1], list);
      var last := entries[|entries| - 1];
      if last.list == list then front + [EntryRow(last)] else front
  }

  function RuleRows(rules: seq<Rule>): (rows: seq<Words.Params>)
    ensures |rows| == |rules| && forall i | 0 <= i < |rules| :: rows[i] == RuleRow(rules[i])
  {
    seq(|rules|, i requires 0 <= i < |rules| => RuleRow(rules[i]))
  }

  /** `boolFromWord` */
  predicate BoolFromWord(word: string) {
    Lower(Trim(word)) in ["true", "yes", "on", "enabled"]
  }

  /** `boolToWord` */
  function BoolToWord(b: bool): string {
    if b then "yes" else "no"
  }

  /** What the device does with a command, and what it answers. */
  function Answer(d: Device, path: Path, words: seq<string>): (Device, Reply) {
    var params := Words.Decoded(words);
    match path
    case ListPrint => (d, Rows(EntryRows(d.entries, Field(params, "?list"))))
    case ListAdd =>
      var list, address := Field(params, "list"), Field(params, "address");
      if Contained(d.entries, list, address) then (d, Trap(AlreadyHave))
      else (d.(entries := WithEntry(d.entries, list, address)), Done)
    case ListRemove =>
      var id := Field(params, ".id");
      if exists e | e in d.entries :: e.id == id then (d.(entries := WithoutId(d.entries, id)), Done)
      else (d, Trap(NoSuchItem))
    case RulePrint(table) =>
      if table in d.tables then (d, Rows(RuleRows(d.tables[table]))) else (d, Trap(Refused))
    case RuleSet(table) =>
      var id, flag := Field(params, ".id"), BoolFromWord(Field(params, "disabled"));
      if table !in d.tables then (d, Trap(Refused))
      else if exists r | r in d.tables[table] :: r.id == id then
        (d.(tables := d.tables[table := WithFlag(d.tables[table], id, flag)]), Done)
      else (d, Trap(NoSuchItem))
  }

  /** A command carried out `k` times. */
  function Repeated(d: Device, path: Path, words: seq<string>, k: nat): Device {
    if k == 0 then d else Answer(Repeated(d, path, words, k - 1), path, words).0
  }

  // ---- Ids ----

  predicate IdOk(id: string) {
    id != "" && Trimmed(id)
  }

  ghost predicate EntriesOk(entries: seq<Entry>) {
    && (forall e | e in entries :: IdOk(e.id))
    && (forall i, j | 0 <= i < j < |entries| :: entries[i].id != entries[j].id)
  }

  ghost predicate RulesOk(rules: seq<Rule>) {
    && (forall r | r in rules :: IdOk(r.id))
    && (forall i, j | 0 <= i < j < |rules| :: rules[i].id != rules[j].id)
  }

  /** Ids are non-blank and unique within their table, as on a real device. */
  ghost predicate DeviceOk(d: Device) {
    EntriesOk(d.entries) && forall t | t in d.tables :: RulesOk(d.tables[t])
  }

  lemma WithEntryOk(entries: seq<Entry>, list: string, address: string)
    requires EntriesOk(entries)
    ensures EntriesOk(WithEntry(entries, list, address))
  {
    var after := WithEntry(entries, list, address);
    forall i, j | 0 <= i < j < |after| ensures after[i].id != after[j].id {
      assert j < |entries| || entries[i] in entries;
    }
  }

  lemma {:induction false} WithoutIdOk(entries: seq<Entry>, id: string)
    requires EntriesOk(entries)
    ensures EntriesOk(WithoutId(entries, id))
  {
    hide IdOk;
    if entries != [] {
      var front := entries[..|entries| - 1];
      var last := entries[|entries| - 1];
      assert entries == front + [last];
      WithoutIdOk(front, id);
      var r := WithoutId(front, id);
      forall i | 0 <= i < |r| ensures r[i].id != last.id {
        assert r[i] in r && r[i] in front;
      }
    }
  }

  lemma WithFlagOk(rules: seq<Rule>, id: string, disabled: bool)
    requires RulesOk(rules)
    ensures RulesOk(WithFlag(rules, id, disabled))
  {
    var r := WithFlag(rules, id, disabled);
    forall x | x in r ensures IdOk(x.id) {
      var i :| 0 <= i < |r| && r[i] == x;
      assert rules[i] in rules;
    }
  }

  /** No command breaks the uniqueness of ids. */
  lemma AnswerKeepsIds(d: Device, path: Path, words: seq<string>)
    requires DeviceOk(d)
    ensures DeviceOk(Answer(d, path, words).0)
  {
    var params := Words.Decoded(words);
    match path
    case ListPrint =>
    case RulePrint(_) =>
    case ListAdd => WithEntryOk(d.entries, Field(params, "list"), Field(params, "address"));
    case ListRemove => WithoutIdOk(d.entries, Field(params, ".id"));
    case RuleSet(table) =>
      if table in d.tables {
        WithFlagOk(d.tables[table], Field(params, ".id"), BoolFromWord(Field(params, "disabled")));
      }
  }

  lemma {:induction false} RepeatedKeepsIds(d: Device, path: Path, words: seq<string>, k: nat)
    requires DeviceOk(d)
    ensures DeviceOk(Repeated(d, path, words, k))
  {
    if k > 0 {
      RepeatedKeepsIds(d, path, words, k - 1);
      AnswerKeepsIds(Repeated(d, path, words, k - 1), path, words);
    }
  }

  // ---- Reading words back ----

  lemma FlagWords(b: bool)
    ensures BoolFromWord(BoolToWord(b)) == b
    ensures BoolFromWord(if b then "true" else "false") == b
  {
    TrimIsTrimmed("yes"); TrimIsTrimmed("no"); TrimIsTrimmed("true"); TrimIsTrimmed("false");
    assert Lower("yes") == "yes" && Lower("no") == "no" && Lower("true") == "true" && Lower("false") == "false";
    assert "yes" in ["true", "yes", "on", "enabled"] && "true" in ["true", "yes", "on", "enabled"];
    assert "no" !in ["true", "yes", "on", "enabled"] by { assert "no"[0] != "on"[0]; }
    assert "false" !in ["true", "yes", "on", "enabled"];
  }

  /** The address-list commands use keys that the wire carries unchanged. */
  lemma WiresArrive(params: Words.Params)
    requires forall k | k in params :: k in {"list", "address", ".id", "disabled", "?list", ".proplist"}
    ensures Words.Decoded(Words.Encoded(params)) == params
  {
    hide Words.Encoded, Words.Decoded;
    Words.RoundTripExactly(params);
    assert Words.WireKey("list") && Words.WireKey("address") && Words.WireKey(".id");
    assert Words.WireKey("disabled") && Words.WireKey("?list") && Words.WireKey(".proplist");
  }
}
