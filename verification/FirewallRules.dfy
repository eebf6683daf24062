/** Enabling and disabling firewall rules of one table, by id and by comment. */
module FirewallRules {
  import opened Text
  import opened Devices
  import opened Transport
  import opened AddressLists
  import Words

  function NormalTable(table: string): string {
    Lower(Trim(table))
  }

  ghost function RulePrintWords(): seq<string> {
    Words.Encoded(map[".proplist" := ".id,chain,action,comment,disabled"])
  }

  ghost function RuleSetWords(id: string, disabled: bool): seq<string> {
    Words.Encoded(map[".id" := id, "disabled" := BoolToWord(disabled)])
  }

  /** The rules `listFirewallRulesByTable` takes from a reply: trimmed, blank ids dropped. */
  function RulesIn(rows: seq<Words.Params>): seq<Rule> {
    if rows == [] then []
    else
      var front := RulesIn(rows[..|rows| - 1]);
      var row := rows[|rows| - 1];
      var id := Trim(Field(row, ".id"));
      if id == "" then front
      else front + [Rule(id, Trim(Field(row, "comment")), BoolFromWord(Field(row, "disabled")))]
  }

  // ---- The operations as functions ----

  ghost function ListRules(net: Net, rawTable: string): (Net, Option<seq<Rule>>) {
    var table := NormalTable(rawTable);
    if table == "" then (net, None)
    else
      var (after, r) := Run(net, RulePrint(table), RulePrintWords());
      match RowsOf(r)
      case None => (after, None)
      case Some(rows) => (after, Some(RulesIn(rows)))
  }

  /** None: not found, or not read. */
  ghost function GetById(net: Net, table: string, rawId: string): (Net, Option<bool>) {
    var (after, rules) := ListRules(net, table);
    (after, if rules.None? then None else EnabledById(rules.value, Trim(rawId)))
  }

  function EnabledById(rules: seq<Rule>, id: string): Option<bool> {
    if rules == [] then None
    else if rules[0].id == id then Some(!rules[0].disabled)
    else EnabledById(rules[1..], id)
  }

  function IdsByComment(rules: seq<Rule>, comment: string): seq<string> {
    if rules == [] then []
    else
      var front := IdsByComment(rules[..|rules| - 1], comment);
      var last := rules[|rules| - 1];
      if Trim(last.comment) == comment then front + [last.id] else front
  }

  function EnabledByComment(rules: seq<Rule>, comment: string): Option<bool> {
    if IdsByComment(rules, comment) == [] then None
    else Some(forall r | r in rules :: Trim(r.comment) == comment ==> !r.disabled)
  }

  ghost function GetByComment(net: Net, table: string, rawComment: string): (Net, Option<bool>) {
    var (after, rules) := ListRules(net, table);
    (after, if rules.None? then None else EnabledByComment(rules.value, Trim(rawComment)))
  }

  ghost function SetRule(net: Net, table: string, rawId: string, disabled: bool): (Net, Outcome) {
    Run(net, RuleSet(table), RuleSetWords(Trim(rawId), disabled))
  }

  predicate Succeeded(r: Outcome) {
    r.Replied? && !r.reply.Trap?
  }

  ghost function SetById(net: Net, rawTable: string, rawId: string, disabled: bool): (Net, Status) {
    var (after, r) := SetRule(net, NormalTable(rawTable), rawId, disabled);
    (after, if Succeeded(r) then Fine else Failure)
  }

  ghost function SetIds(net: Net, table: string, ids: seq<string>, disabled: bool): (Net, Status)
    decreases |ids|
  {
    if ids == [] then (net, Fine)
    else
      var (after, r) := SetRule(net, table, ids[0], disabled);
      if Accepted(r, NoSuchItem) then SetIds(after, table, ids[1..], disabled) else (after, Failure)
  }

  ghost function SetByComment(net: Net, rawTable: string, rawComment: string, disabled: bool): (Net, Status) {
    var (listed, rules) := ListRules(net, rawTable);
    if rules.None? then (listed, Failure)
    else
      var ids := IdsByComment(rules.value, Trim(rawComment));
      if ids == [] then (listed, Failure) else SetIds(listed, NormalTable(rawTable), ids, disabled)
  }

  // ---- The methods ----

  method ListFirewallRulesByTable(c: Client, rawTable: string) returns (rules: Option<seq<Rule>>)
    modifies c
    ensures (c.net, rules) == ListRules(old(c.net), rawTable)
  {
    hide Run;
    var table := NormalTable(rawTable);
    if table == "" { return None; }
    var words := Words.MapParams(map[".proplist" := ".id,chain,action,comment,disabled"]);
    var r := c.RunCommand(RulePrint(table), words);
    var rows := RowsOf(r);
    if rows.None? { return None; }
    var found: seq<Rule> := [];
    for i := 0 to |rows.value|
      invariant found == RulesIn(rows.value[..i])
    {
      var row := rows.value[i];
      assert rows.value[..i + 1][..i] == rows.value[..i];
      var id := Trim(Field(row, ".id"));
      if id == "" { continue; }
      found := found + [Rule(id, Trim(Field(row, "comment")), BoolFromWord(Field(row, "disabled")))];
    }
    assert rows.value[..|rows.value|] == rows.value;
    rules := Some(found);
  }

  method GetFirewallRuleEnabled(c: Client, table: string, rawId: string) returns (r: Option<bool>)
    modifies c
    ensures (c.net, r) == GetById(old(c.net), table, rawId)
  {
    hide ListRules;
    var rules := ListFirewallRulesByTable(c, table);
    if rules.None? { return None; }
    var id := Trim(rawId);
    var i := 0;
    while i < |rules.value|
      invariant 0 <= i <= |rules.value|
      invariant EnabledById(rules.value[i..], id) == EnabledById(rules.value, id)
    {
      if rules.value[i].id == id { return Some(!rules.value[i].disabled); }
      i := i + 1;
    }
    r := None;
  }

  method RulesByComment(c: Client, table: string, comment: string) returns (ids: Option<seq<string>>,
        ghost rules: Option<seq<Rule>>, enabled: bool)
    modifies c
    ensures (c.net, rules) == ListRules(old(c.net), table)
    ensures ids == if rules.None? then None else Some(IdsByComment(rules.value, Trim(comment)))
    ensures ids.Some? && ids.value != [] ==> Some(enabled) == EnabledByComment(rules.value, Trim(comment))
  {
    hide ListRules;
    var listed := ListFirewallRulesByTable(c, table);
    rules := listed;
    if listed.None? { return None, listed, false; }
    var matches: seq<string> := [];
    enabled := true;
    for i := 0 to |listed.value|
      invariant matches == IdsByComment(listed.value[..i], Trim(comment))
      invariant enabled <==> forall r | r in listed.value[..i] :: Trim(r.comment) == Trim(comment) ==> !r.disabled
    {
      var rule := listed.value[i];
      assert listed.value[..i + 1] == listed.value[..i] + [rule];
      assert listed.value[..i + 1][..i] == listed.value[..i];
      if Trim(rule.comment) == Trim(comment) {
        matches := matches + [rule.id];
        if rule.disabled { enabled := false; }
      }
    }
    assert listed.value[..|listed.value|] == listed.value;
    ids := Some(matches);
  }

  method GetFirewallRulesEnabledByComment(c: Client, table: string, comment: string) returns (r: Option<bool>)
    modifies c
    ensures (c.net, r) == GetByComment(old(c.net), table, comment)
  {
    hide ListRules;
    var ids, rules, enabled := RulesByComment(c, table, comment);
    if ids.None? || ids.value == [] { return None; }
    r := Some(enabled);
  }

  method SetFirewallRuleDisabledInTable(c: Client, table: string, rawId: string, disabled: bool) returns (r: Outcome)
    modifies c
    ensures (c.net, r) == SetRule(old(c.net), table, rawId, disabled)
  {
    hide Run;
    var words := Words.MapParams(map[".id" := Trim(rawId), "disabled" := BoolToWord(disabled)]);
    r := c.RunCommand(RuleSet(table), words);
  }

  method SetFirewallRuleDisabled(c: Client, table: string, id: string, disabled: bool) returns (s: Status)
    modifies c
    ensures (c.net, s) == SetById(old(c.net), table, id, disabled)
  {
    hide SetRule;
    var r := SetFirewallRuleDisabledInTable(c, NormalTable(table), id, disabled);
    s := if Succeeded(r) then Fine else Failure;
  }

  method SetFirewallRulesDisabledByComment(c: Client, table: string, comment: string,
        disabled: bool) returns (s: Status)
    modifies c
    ensures (c.net, s) == SetByComment(old(c.net), table, comment, disabled)
  {
    hide ListRules, SetRule;
    var ids, rules, enabled := RulesByComment(c, table, comment);
    if ids.None? || ids.value == [] { return Failure; }
    var i := 0;
    while i < |ids.value|
      invariant 0 <= i <= |ids.value|
      invariant SetIds(c.net, NormalTable(table), ids.value[i..], disabled)
        == SetByComment(old(c.net), table, comment, disabled)
    {
      var r := SetFirewallRuleDisabledInTable(c, NormalTable(table), ids.value[i], disabled);
      if !Accepted(r, NoSuchItem) { return Failure; }
      i := i + 1;
    }
    s := Fine;
  }

  // ---- What the device says about rules ----

  function RulesOf(d: Device, table: string): seq<Rule> {
    if table in d.tables then d.tables[table] else []
  }

  /** Is the rule with this id enabled? */
  ghost function RuleTruth(d: Device, table: string, id: string): Option<bool> {
    EnabledById(RulesOf(d, table), id)
  }

  /** Are all rules with this comment enabled? None when there are none. */
  ghost function CommentTruth(d: Device, table: string, comment: string): Option<bool> {
    if exists r | r in RulesOf(d, table) :: Trim(r.comment) == comment
    then Some(forall r | r in RulesOf(d, table) :: Trim(r.comment) == comment ==> !r.disabled)
    else None
  }

  // ---- Reading ----

  lemma {:induction false} RepeatedRulePrint(d: Device, table: string, words: seq<string>, k: nat)
    ensures Repeated(d, RulePrint(table), words, k) == d
  {
    if k > 0 { RepeatedRulePrint(d, table, words, k - 1); }
  }

  lemma RulePrintEffect(net: Net, table: string)
    ensures var (after, r) := Run(net, RulePrint(table), RulePrintWords());
            && after.device == net.device
            && (RowsOf(r).Some? ==> table in net.device.tables && RowsOf(r).value == RuleRows(net.device.tables[table]))
  {
    hide Run, RuleRows;
    var words := RulePrintWords();
    var (after, r) := Run(net, RulePrint(table), words);
    RunIsAtLeastOnce(net, RulePrint(table), words);
    var k: nat :| && k <= 4 && after.device == Repeated(net.device, RulePrint(table), words, k)
                  && (r.Replied? ==>
                     k > 0 && r.reply == Answer(Repeated(net.device, RulePrint(table), words, k - 1),
                                                RulePrint(table), words).1);
    RepeatedRulePrint(net.device, table, words, k);
    if k > 0 { RepeatedRulePrint(net.device, table, words, k - 1); }
  }

  /** A listed rule is the device's rule with its comment trimmed. */
  function Seen(r: Rule): Rule {
    r.(comment := Trim(r.comment))
  }

  lemma RowIsSeen(rows: seq<Words.Params>, r: Rule)
    requires IdOk(r.id)
    ensures RulesIn(rows + [RuleRow(r)]) == RulesIn(rows) + [Seen(r)]
  {
    hide BoolFromWord;
    TrimIsTrimmed(r.id);
    FlagWords(r.disabled);
    RuleRowFields(r);
    assert (rows + [RuleRow(r)])[..|rows|] == rows;
  }

  lemma {:induction false} RulesAreSeen(rules: seq<Rule>)
    requires forall r | r in rules :: IdOk(r.id)
    ensures |RulesIn(RuleRows(rules))| == |rules|
    ensures forall i | 0 <= i < |rules| :: RulesIn(RuleRows(rules))[i] == Seen(rules[i])
  {
    hide RulesIn, Seen, RuleRow;
    if rules == [] {
      NoRulesSeen();
    } else {
      var front, last := rules[..|rules| - 1], rules[|rules| - 1];
      assert last in rules && forall r | r in front :: r in rules;
      RulesAreSeen(front);
      assert RuleRows(rules) == RuleRows(front) + [RuleRow(last)];
      RowIsSeen(RuleRows(front), last);
    }
  }

  lemma NoRulesSeen()
    ensures RulesIn(RuleRows([])) == []
  {}

  lemma RuleRowFields(r: Rule)
    ensures Field(RuleRow(r), ".id") == r.id && Field(RuleRow(r), "comment") == r.comment
    ensures Field(RuleRow(r), "disabled") == if r.disabled then "true" else "false"
  {}

  lemma ListRulesIsTruth(net: Net, rawTable: string)
    requires DeviceOk(net.device)
    ensures var (after, rules) := ListRules(net, rawTable);
            && after.device == net.device
            && (rules.Some? ==>
                  var actual := RulesOf(net.device, NormalTable(rawTable));
                  && NormalTable(rawTable) in net.device.tables
                  && |rules.value| == |actual| && forall i | 0 <= i < |actual| :: rules.value[i] == Seen(actual[i]))
  {
    hide Run, RuleRows, RulesIn;
    var table := NormalTable(rawTable);
    RulePrintEffect(net, table);
    if table in net.device.tables { RulesAreSeen(net.device.tables[table]); }
  }

  lemma {:induction false} EnabledByIdSeen(rules: seq<Rule>, seen: seq<Rule>, id: string)
    requires |seen| == |rules| && forall i | 0 <= i < |rules| :: seen[i] == Seen(rules[i])
    ensures EnabledById(seen, id) == EnabledById(rules, id)
  {
    if rules != [] {
      EnabledByIdSeen(rules[1..], seen[1..], id);
    }
  }

  /** Reading a rule by id tells the truth and changes nothing. */
  lemma GetByIdIsTruth(net: Net, table: string, id: string)
    requires DeviceOk(net.device)
    ensures GetById(net, table, id).0.device == net.device
    ensures GetById(net, table, id).1.Some? ==>
              GetById(net, table, id).1 == RuleTruth(net.device, NormalTable(table), Trim(id))
  {
    hide ListRules;
    ListRulesIsTruth(net, table);
    var rules := ListRules(net, table).1;
    if rules.Some? { EnabledByIdSeen(RulesOf(net.device, NormalTable(table)), rules.value, Trim(id)); }
  }

  lemma {:induction false} IdsByCommentMembers(rules: seq<Rule>, comment: string)
    ensures forall id ::
      id in IdsByComment(rules, comment) <==> exists r | r in rules :: r.id == id && Trim(r.comment) == comment
  {
    if rules != [] {
      var front, last := rules[..|rules| - 1], rules[|rules| - 1];
      assert rules == front + [last];
      IdsByCommentMembers(front, comment);
    }
  }

  /** The ids found by comment are those of the device's rules with that comment. */
  lemma IdsByCommentSeen(rules: seq<Rule>, seen: seq<Rule>, comment: string)
    requires |seen| == |rules| && forall i | 0 <= i < |rules| :: seen[i] == Seen(rules[i])
    ensures forall r | r in rules && Trim(r.comment) == comment :: r.id in IdsByComment(seen, comment)
    ensures forall id | id in IdsByComment(seen, comment) ::
      exists r | r in rules :: r.id == id && Trim(r.comment) == comment
  {
    IdsByCommentMembers(seen, comment);
    forall r | r in rules && Trim(r.comment) == comment
      ensures r.id in IdsByComment(seen, comment)
    {
      var i :| 0 <= i < |rules| && rules[i] == r;
      TrimIsTrimmed(r.comment);
      assert seen[i] in seen;
    }
    forall id | id in IdsByComment(seen, comment)
      ensures exists r | r in rules :: r.id == id && Trim(r.comment) == comment
    {
      var x :| x in seen && x.id == id && Trim(x.comment) == comment;
      var i :| 0 <= i < |seen| && seen[i] == x;
      TrimIsTrimmed(rules[i].comment);
      assert rules[i] in rules;
    }
  }

  /** Reading rules by comment tells the truth and changes nothing. */
  lemma GetByCommentIsTruth(net: Net, table: string, comment: string)
    requires DeviceOk(net.device)
    ensures GetByComment(net, table, comment).0.device == net.device
    ensures GetByComment(net, table, comment).1.Some? ==>
              GetByComment(net, table, comment).1 == CommentTruth(net.device, NormalTable(table), Trim(comment))
  {
    hide ListRules, IdsByComment;
    ListRulesIsTruth(net, table);
    var rules := ListRules(net, table).1;
    if rules.Some? && GetByComment(net, table, comment).1.Some? {
      var actual := RulesOf(net.device, NormalTable(table));
      IdsByCommentSeen(actual, rules.value, Trim(comment));
      SeenAgreement(actual, rules.value, Trim(comment));
      var ids := IdsByComment(rules.value, Trim(comment));
      assert ids[0] in ids;
    }
  }

  lemma SeenAgreement(rules: seq<Rule>, seen: seq<Rule>, comment: string)
    requires |seen| == |rules| && forall i | 0 <= i < |rules| :: seen[i] == Seen(rules[i])
    ensures (forall r | r in seen :: Trim(r.comment) == comment ==> !r.disabled)
            <==> (forall r | r in rules :: Trim(r.comment) == comment ==> !r.disabled)
  {
    forall i | 0 <= i < |rules| ensures Trim(seen[i].comment) == Trim(rules[i].comment) {
      TrimIsTrimmed(rules[i].comment);
    }
    if forall r | r in seen :: Trim(r.comment) == comment ==> !r.disabled {
      forall r | r in rules ensures Trim(r.comment) == comment ==> !r.disabled {
        var i :| 0 <= i < |rules| && rules[i] == r;
        assert seen[i] in seen;
      }
    }
    if forall r | r in rules :: Trim(r.comment) == comment ==> !r.disabled {
      forall r | r in seen ensures Trim(r.comment) == comment ==> !r.disabled {
        var i :| 0 <= i < |seen| && seen[i] == r;
        assert rules[i] in rules;
      }
    }
  }

  // ---- Writing ----

  ghost function Flagged(d: Device, table: string, id: string, disabled: bool): Device {
    if table in d.tables then d.(tables := d.tables[table := WithFlag(d.tables[table], id, disabled)]) else d
  }

  lemma RuleSetAnswer(d: Device, table: string, id: string, disabled: bool)
    ensures var (after, reply) := Answer(d, RuleSet(table), RuleSetWords(id, disabled));
            && after == Flagged(d, table, id, disabled)
            && (reply == Done <==> exists r | r in RulesOf(d, table) :: r.id == id)
            && (reply == Done || reply == Trap(NoSuchItem) || reply == Trap(Refused))
  {
    hide Words.Encoded, Words.Decoded;
    WiresArrive(map[".id" := id, "disabled" := BoolToWord(disabled)]);
    FlagWords(disabled);
    if table in d.tables && !exists r | r in d.tables[table] :: r.id == id {
      NothingToFlag(d.tables[table], id, disabled);
    }
  }

  lemma NothingToFlag(rules: seq<Rule>, id: string, disabled: bool)
    requires !exists r | r in rules :: r.id == id
    ensures WithFlag(rules, id, disabled) == rules
  {
    forall i | 0 <= i < |rules| ensures WithFlag(rules, id, disabled)[i] == rules[i] {
      assert rules[i] in rules;
    }
  }

  lemma FlagTwice(d: Device, table: string, id: string, disabled: bool)
    ensures Flagged(Flagged(d, table, id, disabled), table, id, disabled) == Flagged(d, table, id, disabled)
    ensures (exists r | r in RulesOf(Flagged(d, table, id, disabled), table) :: r.id == id)
            <==> (exists r | r in RulesOf(d, table) :: r.id == id)
  {
    hide IdOk;
    if table in d.tables {
      var rules := d.tables[table];
      var once := WithFlag(rules, id, disabled);
      assert WithFlag(once, id, disabled) == once;
      if exists r | r in rules :: r.id == id {
        var r :| r in rules && r.id == id;
        var i :| 0 <= i < |rules| && rules[i] == r;
        assert once[i] in once;
      }
      if exists r | r in once :: r.id == id {
        var r :| r in once && r.id == id;
        var i :| 0 <= i < |once| && once[i] == r;
        assert rules[i] in rules;
      }
      assert d.tables[table := once][table := once] == d.tables[table := once];
    }
  }

  lemma {:induction false} RepeatedRuleSet(d: Device, table: string, id: string, disabled: bool, k: nat)
    ensures Repeated(d, RuleSet(table), RuleSetWords(id, disabled), k + 1) == Flagged(d, table, id, disabled)
  {
    hide Answer, Flagged;
    RuleSetAnswer(d, table, id, disabled);
    if k > 0 {
      RepeatedRuleSet(d, table, id, disabled, k - 1);
      RuleSetAnswer(Repeated(d, RuleSet(table), RuleSetWords(id, disabled), k), table, id, disabled);
      FlagTwice(d, table, id, disabled);
    } else {
      assert Repeated(d, RuleSet(table), RuleSetWords(id, disabled), 0) == d;
    }
  }

  /** Retries of one set leave the flag either set or untouched; success means set. */
  lemma SetRuleEffect(net: Net, table: string, rawId: string, disabled: bool)
    ensures var (after, r) := SetRule(net, table, rawId, disabled);
            var flagged := Flagged(net.device, table, Trim(rawId), disabled);
            && (after.device == net.device || after.device == flagged)
            && (r.Replied? ==> after.device == flagged)
            && (Succeeded(r) ==> exists x | x in RulesOf(net.device, table) :: x.id == Trim(rawId))
  {
    hide Run, Answer, Flagged, RulesOf;
    var id := Trim(rawId);
    var words := RuleSetWords(id, disabled);
    var path := RuleSet(table);
    var (after, r) := Run(net, path, words);
    RunIsAtLeastOnce(net, path, words);
    var k: nat :| && k <= 4 && after.device == Repeated(net.device, path, words, k)
                  && (r.Replied? ==>
                     k > 0 && r.reply == Answer(Repeated(net.device, path, words, k - 1), path, words).1);
    if k > 0 {
      RepeatedRuleSet(net.device, table, id, disabled, k - 1);
      RuleSetAnswer(Repeated(net.device, path, words, k - 1), table, id, disabled);
      if k > 1 {
        RepeatedRuleSet(net.device, table, id, disabled, k - 2);
        FlagTwice(net.device, table, id, disabled);
      } else {
        assert Repeated(net.device, path, words, 0) == net.device;
      }
    } else {
      assert Repeated(net.device, path, words, 0) == net.device;
    }
  }

  /** Only the flags of rules satisfying `ids` differ, and those only towards the new flag. */
  ghost predicate FlagsWithin(before: Device, after: Device, table: string, ids: set<string>, disabled: bool) {
    && after.entries == before.entries
    && after.tables.Keys == before.tables.Keys
    && (forall t | t in before.tables && t != table :: after.tables[t] == before.tables[t])
    && |RulesOf(after, table)| == |RulesOf(before, table)|
    && forall i | 0 <= i < |RulesOf(before, table)| ::
         || RulesOf(after, table)[i] == RulesOf(before, table)[i]
         || (RulesOf(before, table)[i].id in ids
            && RulesOf(after, table)[i] == RulesOf(before, table)[i].(disabled := disabled))
  }

  ghost predicate AllFlagged(d: Device, table: string, ids: set<string>, disabled: bool) {
    forall r | r in RulesOf(d, table) :: r.id in ids ==> r.disabled == disabled
  }

  lemma FlagStep(before: Device, table: string, id: string, disabled: bool)
    ensures FlagsWithin(before, Flagged(before, table, id, disabled), table, {id}, disabled)
    ensures AllFlagged(Flagged(before, table, id, disabled), table, {id}, disabled)
    ensures FlagsWithin(before, before, table, {id}, disabled)
  {}

  lemma FlagsCompose(a: Device, b: Device, c: Device, table: string, first: set<string>, later: set<string>,
        disabled: bool)
    requires FlagsWithin(a, b, table, first, disabled) && FlagsWithin(b, c, table, later, disabled)
    ensures FlagsWithin(a, c, table, first + later, disabled)
    ensures AllFlagged(b, table, first, disabled) && AllFlagged(c, table, later, disabled) ==>
              AllFlagged(c, table, first + later, disabled)
  {
    if AllFlagged(b, table, first, disabled) && AllFlagged(c, table, later, disabled) {
      forall r | r in RulesOf(c, table) && r.id in first + later
        ensures r.disabled == disabled
      {
        var i :| 0 <= i < |RulesOf(c, table)| && RulesOf(c, table)[i] == r;
        assert RulesOf(b, table)[i] in RulesOf(b, table);
      }
    }
  }

  function Elements(ids: seq<string>): set<string> {
    set id | id in ids
  }

  lemma {:induction false} SetIdsEffect(net: Net, table: string, ids: seq<string>, disabled: bool)
    requires forall id | id in ids :: Trimmed(id)
    ensures var (after, s) := SetIds(net, table, ids, disabled);
            && FlagsWithin(net.device, after.device, table, Elements(ids), disabled)
            && (s == Fine ==> AllFlagged(after.device, table, Elements(ids), disabled))
    decreases |ids|
  {
    hide SetRule, Flagged, FlagsWithin, AllFlagged;
    NoFlags(net.device, table, disabled);
    if ids == [] {
      assert Elements(ids) == {};
    } else {
      var (after, r) := SetRule(net, table, ids[0], disabled);
      assert ids[0] in ids;
      TrimIsTrimmed(ids[0]);
      SetRuleEffect(net, table, ids[0], disabled);
      FlagStep(net.device, table, ids[0], disabled);
      assert ids == [ids[0]] + ids[1..];
      assert Elements(ids) == {ids[0]} + Elements(ids[1..]);
      if Accepted(r, NoSuchItem) {
        SetIdsEffect(after, table, ids[1..], disabled);
        FlagsCompose(net.device, after.device, SetIds(after, table, ids[1..], disabled).0.device, table, {ids[0]},
          Elements(ids[1..]), disabled);
      } else {
        NoMoreFlags(after.device, table, Elements(ids[1..]), disabled);
        FlagsCompose(net.device, after.device, after.device, table, {ids[0]}, Elements(ids[1..]), disabled);
      }
    }
  }

  lemma NoFlags(d: Device, table: string, disabled: bool)
    ensures FlagsWithin(d, d, table, {}, disabled) && AllFlagged(d, table, {}, disabled)
  {}

  lemma NoMoreFlags(d: Device, table: string, ids: set<string>, disabled: bool)
    ensures FlagsWithin(d, d, table, ids, disabled)
  {}

  /** The ids of the rules with a comment. */
  ghost function CommentIds(d: Device, table: string, comment: string): set<string> {
    set r | r in RulesOf(d, table) && Trim(r.comment) == comment :: r.id
  }

  /** For every plan of faults: setting by comment touches only flags of rules with that
      comment; success means that there are some and all have the flag. */
  lemma SetByCommentEffect(net: Net, table: string, comment: string, disabled: bool)
    requires DeviceOk(net.device)
    ensures var (after, s) := SetByComment(net, table, comment, disabled);
            && FlagsWithin(net.device, after.device, NormalTable(table),
               CommentIds(net.device, NormalTable(table), Trim(comment)), disabled)
            && (s == Fine ==> CommentTruth(after.device, NormalTable(table), Trim(comment)) == Some(!disabled))
  {
    hide ListRules, SetIds, IdsByComment, FlagsWithin, AllFlagged, CommentTruth;
    ListRulesIsTruth(net, table);
    var (listed, rules) := ListRules(net, table);
    var t, k := NormalTable(table), Trim(comment);
    NoMoreFlags(net.device, t, CommentIds(net.device, t, k), disabled);
    if rules.Some? {
      var actual := RulesOf(net.device, t);
      IdsByCommentSeen(actual, rules.value, k);
      var ids := IdsByComment(rules.value, k);
      ProperIds(net.device, t, k, ids);
      SetIdsEffect(listed, t, ids, disabled);
      if ids != [] && SetIds(listed, t, ids, disabled).1 == Fine {
        assert ids[0] in Elements(ids);
        AllFlaggedIsTruth(net.device, SetIds(listed, t, ids, disabled).0.device, t, k, disabled);
      }
    }
  }

  lemma ProperIds(d: Device, table: string, comment: string, ids: seq<string>)
    requires DeviceOk(d)
    requires forall r | r in RulesOf(d, table) && Trim(r.comment) == comment :: r.id in ids
    requires forall id | id in ids :: exists r | r in RulesOf(d, table) :: r.id == id && Trim(r.comment) == comment
    ensures Elements(ids) == CommentIds(d, table, comment)
    ensures forall id | id in ids :: Trimmed(id)
  {
    forall id | id in ids ensures Trimmed(id) && id in CommentIds(d, table, comment) {
      var r :| r in RulesOf(d, table) && r.id == id && Trim(r.comment) == comment;
    }
  }

  lemma AllFlaggedIsTruth(before: Device, after: Device, table: string, comment: string, disabled: bool)
    requires var ids := CommentIds(before, table, comment);
             ids != {} && FlagsWithin(before, after, table, ids, disabled) && AllFlagged(after, table, ids, disabled)
    ensures CommentTruth(after, table, comment) == Some(!disabled)
  {
    hide Trim;
    var id :| id in CommentIds(before, table, comment);
    var r :| r in RulesOf(before, table) && Trim(r.comment) == comment && r.id == id;
    var i :| 0 <= i < |RulesOf(before, table)| && RulesOf(before, table)[i] == r;
    assert RulesOf(after, table)[i] in RulesOf(after, table);
    forall x | x in RulesOf(after, table) && Trim(x.comment) == comment
      ensures x.disabled == disabled
    {
      var j :| 0 <= j < |RulesOf(after, table)| && RulesOf(after, table)[j] == x;
      var y := RulesOf(before, table)[j];
      assert y in RulesOf(before, table) && y.id == x.id && y.comment == x.comment;
      assert x.id in CommentIds(before, table, comment);
    }
  }

  /** For every plan of faults: setting by id touches only that rule's flag; success means
      that it exists and has the flag. */
  lemma SetByIdEffect(net: Net, table: string, id: string, disabled: bool)
    requires DeviceOk(net.device)
    ensures var (after, s) := SetById(net, table, id, disabled);
            && FlagsWithin(net.device, after.device, NormalTable(table), {Trim(id)}, disabled)
            && (s == Fine ==> RuleTruth(after.device, NormalTable(table), Trim(id)) == Some(!disabled))
  {
    hide SetRule, FlagsWithin, RuleTruth, Flagged;
    var t := NormalTable(table);
    SetRuleEffect(net, t, id, disabled);
    FlagStep(net.device, t, Trim(id), disabled);
    if SetById(net, table, id, disabled).1 == Fine {
      FlaggedRuleTruth(net.device, t, Trim(id), disabled);
    }
  }

  lemma FlaggedRuleTruth(d: Device, table: string, id: string, disabled: bool)
    requires exists x | x in RulesOf(d, table) :: x.id == id
    ensures RuleTruth(Flagged(d, table, id, disabled), table, id) == Some(!disabled)
  {
    FlaggedEnabled(d.tables[table], id, disabled);
  }

  lemma {:induction false} FlaggedEnabled(rules: seq<Rule>, id: string, disabled: bool)
    requires exists x | x in rules :: x.id == id
    ensures EnabledById(WithFlag(rules, id, disabled), id) == Some(!disabled)
  {
    if rules[0].id != id {
      var x :| x in rules && x.id == id;
      assert x in rules[1..];
      FlaggedEnabled(rules[1..], id, disabled);
      assert WithFlag(rules, id, disabled)[1..] == WithFlag(rules[1..], id, disabled);
    }
  }

  /** Flag changes keep ids unique. */
  lemma FlagsKeepIds(before: Device, after: Device, table: string, ids: set<string>, disabled: bool)
    requires DeviceOk(before) && FlagsWithin(before, after, table, ids, disabled)
    ensures DeviceOk(after)
  {
    forall t | t in after.tables ensures RulesOk(after.tables[t]) {
      if t == table {
        forall r | r in after.tables[t] ensures IdOk(r.id) {
          var i :| 0 <= i < |after.tables[t]| && after.tables[t][i] == r;
          assert RulesOf(before, t)[i] in before.tables[t];
        }
      }
    }
  }
}
