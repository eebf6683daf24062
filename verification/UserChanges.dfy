/** Without faults a user's change always goes through, and so it always stands. */
module UserChanges {
  import opened Text
  import opened Devices
  import opened Transport
  import opened AddressLists
  import opened FirewallRules
  import opened Adapters
  import opened Templates
  import opened Engine
  import opened SyncLaws

  lemma CleanAdd(net: Net, list: string, address: string)
    requires net.plan == [] && Trim(list) != "" && Trim(address) != ""
    ensures Add(net, list, address).1 == Fine && Add(net, list, address).0.plan == []
  {
    hide Run, Exists, AddWords, Answer;
    TrimIsTrimmed(list);
    TrimIsTrimmed(address);
    CleanLookup(net, Trim(list), Trim(address));
    var looked := Exists(net, Trim(list), Trim(address)).0;
    CleanRun(looked, ListAdd, AddWords(Trim(list), Trim(address)));
    AddAnswer(looked.device, Trim(list), Trim(address));
  }

  lemma {:induction false} CleanRemoveIds(net: Net, ids: seq<string>)
    requires net.plan == []
    ensures RemoveIds(net, ids).1 == Fine && RemoveIds(net, ids).0.plan == []
    decreases |ids|
  {
    hide Run, RemoveWords, Answer;
    if ids != [] {
      CleanRun(net, ListRemove, RemoveWords(ids[0]));
      RemoveAnswer(net.device, ids[0]);
      CleanRemoveIds(Run(net, ListRemove, RemoveWords(ids[0])).0, ids[1..]);
    }
  }

  lemma CleanRemove(net: Net, list: string, address: string)
    requires net.plan == [] && Trim(list) != "" && Trim(address) != ""
    ensures Remove(net, list, address).1 == Fine && Remove(net, list, address).0.plan == []
  {
    hide Run, RemoveIds, PrintWords;
    CleanRun(net, ListPrint, PrintWords(Trim(list)));
    var (looked, ids) := FindIds(net, Trim(list), Trim(address));
    assert ids.Some? && looked.plan == [];
    CleanRemoveIds(looked, ids.value);
  }

  lemma {:induction false} ListedIds(rules: seq<Rule>, id: string)
    ensures EnabledById(rules, id).Some? <==> exists r | r in rules :: r.id == id
  {
    if rules != [] {
      ListedIds(rules[1..], id);
      assert rules[0] in rules;
      assert rules == [rules[0]] + rules[1..];
    }
  }

  lemma CleanSetById(net: Net, table: string, id: string, disabled: bool)
    requires net.plan == [] && RuleTruth(net.device, NormalTable(table), Trim(id)).Some?
    ensures SetById(net, table, id, disabled).1 == Fine && SetById(net, table, id, disabled).0.plan == []
  {
    hide Run, RuleSetWords, Answer, RulesOf;
    CleanRun(net, RuleSet(NormalTable(table)), RuleSetWords(Trim(id), disabled));
    RuleSetAnswer(net.device, NormalTable(table), Trim(id), disabled);
    ListedIds(RulesOf(net.device, NormalTable(table)), Trim(id));
  }

  lemma KnownTable(d: Device, table: string, id: string, disabled: bool)
    requires table in d.tables
    ensures Answer(d, RuleSet(table), RuleSetWords(id, disabled)).1 != Trap(Refused)
    ensures table in Answer(d, RuleSet(table), RuleSetWords(id, disabled)).0.tables
  {}

  lemma {:induction false} CleanSetIds(net: Net, table: string, ids: seq<string>, disabled: bool)
    requires net.plan == [] && table in net.device.tables
    ensures SetIds(net, table, ids, disabled).1 == Fine && SetIds(net, table, ids, disabled).0.plan == []
    decreases |ids|
  {
    hide Run, RuleSetWords, Answer;
    if ids != [] {
      var id := Trim(ids[0]);
      CleanRun(net, RuleSet(table), RuleSetWords(id, disabled));
      RuleSetAnswer(net.device, table, id, disabled);
      KnownTable(net.device, table, id, disabled);
      CleanSetIds(SetRule(net, table, ids[0], disabled).0, table, ids[1..], disabled);
    }
  }

  lemma CleanSetByComment(net: Net, table: string, comment: string, disabled: bool)
    requires net.plan == [] && DeviceOk(net.device) && NormalTable(table) != ""
    requires CommentTruth(net.device, NormalTable(table), Trim(comment)).Some?
    ensures SetByComment(net, table, comment, disabled).1 == Fine
    ensures SetByComment(net, table, comment, disabled).0.plan == []
  {
    hide ListRules, SetIds, DeviceOk;
    assert NormalTable(table) in net.device.tables;
    CleanListRules(net, table);
    ListRulesIsTruth(net, table);
    var (listed, rules) := ListRules(net, table);
    var actual := RulesOf(net.device, NormalTable(table));
    IdsByCommentSeen(actual, rules.value, Trim(comment));
    var r :| r in actual && Trim(r.comment) == Trim(comment);
    assert r.id in IdsByComment(rules.value, Trim(comment));
    CleanSetIds(listed, NormalTable(table), IdsByComment(rules.value, Trim(comment)), disabled);
  }

  lemma TableKnown(params: Params)
    requires RuleMatchValid(DeviceScope, params)
    ensures NormalTable(StringParam(params, "table").value) != ""
  {
    TrimIsTrimmed("filter");
    TrimIsTrimmed("nat");
    TrimIsTrimmed("mangle");
    TrimIsTrimmed("raw");
  }

  /** Without faults an action whose fact the device knows succeeds. */
  lemma CleanExecute(net: Net, kind: ActionKind, target: Target, params: Params)
    requires net.plan == [] && DeviceOk(net.device)
    requires ActionFact(kind, target, params).Some?
    requires var f := ActionFact(kind, target, params).value.0; f.Member? || Truth(net.device, f).Some?
    ensures Execute(net, kind, target, params).1 && Execute(net, kind, target, params).0.plan == []
  {
    hide Add, Remove, SetById, SetByComment, RuleTruth, CommentTruth, DeviceOk, NormalTable, ResolveAddress;
    StringParamTrimmed(params, "list");
    StringParamTrimmed(params, "rule_id");
    StringParamTrimmed(params, "comment");
    if kind == AddressListMembership {
      ResolvedNotBlank(target, params);
      CleanAdd(net, StringParam(params, "list").value, ResolveAddress(target, params).value);
      CleanRemove(net, StringParam(params, "list").value, ResolveAddress(target, params).value);
    } else {
      var table, disabled := StringParam(params, "table").value, StringParam(params, "mode") == Some("disable");
      TableKnown(params);
      if StringParam(params, "match_by") == Some("id") {
        CleanSetById(net, table, StringParam(params, "rule_id").value, disabled);
      } else {
        CleanSetByComment(net, table, StringParam(params, "comment").value, disabled);
      }
    }
  }

  lemma OneCleanAction(net: Net, reg: Registry, target: Target, a: ActionInstance)
    requires a.typeId in reg.actions && ActionValid(reg.actions[a.typeId], target.scope, a.params)
    requires Execute(net, reg.actions[a.typeId], target, a.params).1
    ensures RunActions(net, reg, true, target, [a]).1 == []
    ensures RunActions(net, reg, true, target, [a]).0 == Execute(net, reg.actions[a.typeId], target, a.params).0
  {
    hide Execute, ActionValid;
    assert [a][..0] == [] && RunActions(net, reg, true, target, []) == (net, []);
    assert RunActions(net, reg, true, target, [a])
      == (ActionStep(net, reg, true, target, a).0, [] + ActionStep(net, reg, true, target, a).1);
  }

  /** Without faults, on a configured add-on, setting one of the two paired states gives no
      warning, as long as the device knows the rule in question. */
  lemma CleanSetSucceeds(w: World, t: Template, st: SyncTarget, f: Fact, value: bool, ref: Ref, capability: string,
        state: string)
    requires Proper(w) && Pairs(w, t, st, f) && w.configured && w.net.plan == []
    requires f.Member? || Truth(w.net.device, f).Some?
    requires NormalRef(ref) == st.ref && Trim(capability) == t.id && Trim(state) == Mapped(t.sync.value, value)
    ensures SetState(w, ref, capability, state).1 == Ok([]) && SetState(w, ref, capability, state).0.net.plan == []
  {
    hide DeviceOk, Execute, ActionFact, SourceFact, Truth, Current, RunActions;
    TrimIsTrimmed(state);
    SyncTargetRef(w.devices, NormalScope(t.scope), st);
    AdmitsSyncTarget(w, t, st, Trim(state));
    AdmitDependsOnNames(w, ref, capability, state, st.ref, t.id, Trim(state));
    assert SetsTo(w, t, st, f, value);
    var a := t.states[Trim(state)].actions[0];
    assert t.states[Trim(state)].actions == [a];
    CleanExecute(w.net, w.registry.actions[a.typeId], st.target, a.params);
    FactIsValid(w.registry.actions[a.typeId], st.target, a.params);
    OneCleanAction(w.net, w.registry, st.target, a);
  }

  lemma FactIsValid(kind: ActionKind, target: Target, params: Params)
    requires ActionFact(kind, target, params).Some?
    ensures ActionValid(kind, target.scope, params)
  {}

  /** The change and everything after it, unconditionally: set one of the paired states on a
      healthy router, let any number of syncs follow, and row and router hold that state. */
  lemma HealthySetStands(w: World, t: Template, st: SyncTarget, f: Fact, value: bool, ref: Ref, capability: string,
        state: string, n: nat)
    requires Proper(w) && Pairs(w, t, st, f) && NoOtherWriter(w, t, st, f) && w.configured && w.net.plan == []
    requires f.Member? || Truth(w.net.device, f).Some?
    requires NormalRef(ref) == st.ref && Trim(capability) == t.id && Trim(state) == Mapped(t.sync.value, value)
    requires Current(w.rows, KeyOf(st.ref, t.id), t.defaultState) != Row(true, Trim(state))
    ensures Holds(SyncTimes(SetState(w, ref, capability, state).0, n), t, st, f, value)
  {
    hide *;
    CleanSetSucceeds(w, t, st, f, value, ref, capability, state);
    SyncNeverUndoesAUserChange(w, t, st, f, value, ref, capability, state, n);
  }
}
