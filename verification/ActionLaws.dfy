/** What setting a state does to the device, for whole lists of actions: each action's fact
    holds afterwards or a warning names the action. */
module ActionLaws {
  import opened Text
  import opened Devices
  import opened Transport
  import opened AddressLists
  import opened FirewallRules
  import opened Adapters
  import opened Templates
  import opened Engine
  import opened SyncLaws
  import opened UserChanges

  /** The fact an action of a template sets; None if its type is not registered, its
      parameters are refused or its address does not resolve. */
  function FactOf(reg: Registry, target: Target, a: ActionInstance): Option<(Fact, bool)> {
    if a.typeId in reg.actions then ActionFact(reg.actions[a.typeId], target, a.params) else None
  }

  /** The warnings name actions of the list, in its order and each at most once. */
  ghost predicate NamesInOrder(warnings: seq<Warning>, actions: seq<ActionInstance>) {
    if warnings == [] then true
    else if actions == [] then false
    else
      var (w, a) := (warnings[|warnings| - 1], actions[|actions| - 1]);
      || NamesInOrder(warnings, actions[..|actions| - 1])
      || (w.actionId == a.id && w.typeId == a.typeId
          && NamesInOrder(warnings[..|warnings| - 1], actions[..|actions| - 1]))
  }

  /** Why an action was not even sent to the device. */
  function Refusal(reg: Registry, configured: bool, target: Target, a: ActionInstance): Option<Cause> {
    if a.typeId !in reg.actions then Some(NotRegistered)
    else if !ActionValid(reg.actions[a.typeId], target.scope, a.params) then Some(InvalidParams)
    else if !configured then Some(NotConfigured)
    else if FactOf(reg, target, a).None? then Some(ExecutionFailed)
    else None
  }

  // ---- One more action ----

  lemma OneMoreAction(net: Net, reg: Registry, configured: bool, target: Target, actions: seq<ActionInstance>)
    requires actions != []
    ensures var (before, warnings) := RunActions(net, reg, configured, target, actions[..|actions| - 1]);
            var (after, more) := ActionStep(before, reg, configured, target, actions[|actions| - 1]);
            RunActions(net, reg, configured, target, actions) == (after, warnings + more)
  {
    hide ActionStep;
  }

  /** One action: sent if nothing refuses it, then its fact has its value or it failed. */
  lemma StepOutcome(net: Net, reg: Registry, configured: bool, target: Target, a: ActionInstance)
    requires DeviceOk(net.device)
    ensures var (after, warnings) := ActionStep(net, reg, configured, target, a);
            match Refusal(reg, configured, target, a)
            case Some(cause) => after == net && warnings == [Warning(a.id, a.typeId, cause)]
            case None =>
              var (f, value) := FactOf(reg, target, a).value;
              && WriteEffect(net.device, after.device, f)
              && (|| (warnings == [] && Truth(after.device, f) == Some(value))
                  || warnings == [Warning(a.id, a.typeId, ExecutionFailed)])
  {
    hide Execute, ActionFact, ActionValid, WriteEffect, Truth, DeviceOk;
    if a.typeId in reg.actions {
      ExecuteSetsItsFact(net, reg.actions[a.typeId], target, a.params);
      OnlyValidHasFact(reg.actions[a.typeId], target, a.params);
    }
  }

  lemma OnlyValidHasFact(kind: ActionKind, target: Target, params: Params)
    ensures ActionFact(kind, target, params).Some? ==> ActionValid(kind, target.scope, params)
  {}

  // ---- The whole list ----

  lemma {:induction false} RunOutcome(net: Net, reg: Registry, configured: bool, target: Target,
                                      actions: seq<ActionInstance>, i: nat)
    requires DeviceOk(net.device) && i < |actions|
    ensures var (after, warnings) := RunActions(net, reg, configured, target, actions);
            var (a, refusal) := (actions[i], Refusal(reg, configured, target, actions[i]));
            && (refusal.Some? ==> Warning(a.id, a.typeId, refusal.value) in warnings)
            && (refusal.None? && Spares(actions[i + 1..], reg, target, FactOf(reg, target, a).value.0) ==>
                  || Truth(after.device, FactOf(reg, target, a).value.0) == Some(FactOf(reg, target, a).value.1)
                  || Warning(a.id, a.typeId, ExecutionFailed) in warnings)
  {
    hide ActionStep, RunActions, Refusal, FactOf, DeviceOk, Truth, Spares;
    var front, last := actions[..|actions| - 1], actions[|actions| - 1];
    OneMoreAction(net, reg, configured, target, actions);
    ActionsKeepIds(net, reg, configured, target, front);
    var (before, warnings) := RunActions(net, reg, configured, target, front);
    StepOutcome(before, reg, configured, target, last);
    if i < |front| {
      RunOutcome(net, reg, configured, target, front, i);
      NotRefused(reg, configured, target, actions[i]);
      if Refusal(reg, configured, target, actions[i]).None?
        && Spares(actions[i + 1..], reg, target, FactOf(reg, target, actions[i]).value.0)
      {
        assert actions[i + 1..] == front[i + 1..] + [last];
        SparesParts(front[i + 1..], last, reg, target, FactOf(reg, target, actions[i]).value.0);
        StepSpares(before, reg, configured, target, last, FactOf(reg, target, actions[i]).value.0);
      }
    }
  }

  lemma NotRefused(reg: Registry, configured: bool, target: Target, a: ActionInstance)
    ensures Refusal(reg, configured, target, a).None? ==> FactOf(reg, target, a).Some?
  {
    hide FactOf, ActionValid;
  }

  lemma SparesParts(front: seq<ActionInstance>, last: ActionInstance, reg: Registry, target: Target, f: Fact)
    requires Spares(front + [last], reg, target, f)
    ensures Spares(front, reg, target, f)
    ensures FactOf(reg, target, last).Some? ==> Independent(FactOf(reg, target, last).value.0, f)
  {
    hide ActionFact, Independent;
    assert last in front + [last] && forall a | a in front :: a in front + [last];
  }

  lemma StepSpares(net: Net, reg: Registry, configured: bool, target: Target, a: ActionInstance, f: Fact)
    requires DeviceOk(net.device)
    requires FactOf(reg, target, a).Some? ==> Independent(FactOf(reg, target, a).value.0, f)
    ensures Truth(ActionStep(net, reg, configured, target, a).0.device, f) == Truth(net.device, f)
  {
    hide ActionStep, FactOf, DeviceOk, Truth;
    StepOutcome(net, reg, configured, target, a);
  }

  lemma {:induction false} RunNames(net: Net, reg: Registry, configured: bool, target: Target,
                                    actions: seq<ActionInstance>)
    requires DeviceOk(net.device)
    ensures NamesInOrder(RunActions(net, reg, configured, target, actions).1, actions)
  {
    hide ActionStep, Refusal, FactOf, DeviceOk, Truth, WriteEffect;
    if actions != [] {
      var front, last := actions[..|actions| - 1], actions[|actions| - 1];
      RunNames(net, reg, configured, target, front);
      ActionsKeepIds(net, reg, configured, target, front);
      var (before, warnings) := RunActions(net, reg, configured, target, front);
      StepOutcome(before, reg, configured, target, last);
      var more := ActionStep(before, reg, configured, target, last).1;
      if more != [] {
        assert (warnings + more)[..|warnings + more| - 1] == warnings;
      } else {
        assert warnings + more == warnings;
      }
    }
  }

  // ---- Setting a state ----

  /** A set that passes its checks and has something to do. */
  ghost predicate Acts(w: World, ref: Ref, capability: string, state: string, t: Template, target: Target) {
    && DeviceOk(w.net.device)
    && Admit(w, ref, capability, state) == Ok((t, target)) && Trim(state) in t.states
    && Current(w.rows, KeyOf(NormalRef(ref), Trim(capability)), t.defaultState) != Row(true, Trim(state))
  }

  lemma SetIsRun(w: World, ref: Ref, capability: string, state: string, t: Template, target: Target)
    requires Acts(w, ref, capability, state, t, target)
    ensures var (net, warnings) :=
              RunActions(w.net, w.registry, w.configured, target, t.states[Trim(state)].actions);
            SetState(w, ref, capability, state)
              == (w.(net := net, rows := w.rows[KeyOf(NormalRef(ref), Trim(capability)) := Row(true, Trim(state))]),
                  Ok(warnings))
  {
    hide RunActions, Admit, Current, Trim, NormalRef, DeviceOk;
  }

  /** Setting a state, whatever faults it meets, stores the state and runs all its actions:
      the fact an action sets has the value afterwards, unless a warning names the action or
      a later action of the list writes that fact or one it depends on. So of two actions on
      one fact the later success decides. An action that cannot be sent is named with the
      reason, and the warnings come in the order of the actions. */
  lemma EveryActionTakesEffect(w: World, ref: Ref, capability: string, state: string, t: Template, target: Target,
                               i: nat)
    requires Acts(w, ref, capability, state, t, target) && i < |t.states[Trim(state)].actions|
    ensures var actions := t.states[Trim(state)].actions;
            var (after, r) := SetState(w, ref, capability, state);
            var (a, refusal) := (actions[i], Refusal(w.registry, w.configured, target, actions[i]));
            && r.Ok? && NamesInOrder(r.value, actions)
            && after.rows == w.rows[KeyOf(NormalRef(ref), Trim(capability)) := Row(true, Trim(state))]
            && (refusal.Some? ==> Warning(a.id, a.typeId, refusal.value) in r.value)
            && (refusal.None? && Spares(actions[i + 1..], w.registry, target, FactOf(w.registry, target, a).value.0) ==>
                  || Truth(after.net.device, FactOf(w.registry, target, a).value.0)
                     == Some(FactOf(w.registry, target, a).value.1)
                  || Warning(a.id, a.typeId, ExecutionFailed) in r.value)
  {
    hide RunActions, Refusal, FactOf, Truth, Spares, Acts, SetState, NamesInOrder, Trim, NormalRef, KeyOf;
    ActsOk(w, ref, capability, state, t, target);
    SetIsRun(w, ref, capability, state, t, target);
    RunOutcome(w.net, w.registry, w.configured, target, t.states[Trim(state)].actions, i);
    RunNames(w.net, w.registry, w.configured, target, t.states[Trim(state)].actions);
  }

  lemma ActsOk(w: World, ref: Ref, capability: string, state: string, t: Template, target: Target)
    requires Acts(w, ref, capability, state, t, target)
    ensures DeviceOk(w.net.device) && Trim(state) in t.states
  {}

  // ---- Without faults ----

  /** The same rules, whatever their flags. */
  ghost predicate SameRules(a: Device, b: Device) {
    && a.tables.Keys == b.tables.Keys
    && forall t | t in a.tables ::
         && |a.tables[t]| == |b.tables[t]|
         && forall i | 0 <= i < |a.tables[t]| ::
              b.tables[t][i].id == a.tables[t][i].id && b.tables[t][i].comment == a.tables[t][i].comment
  }

  lemma {:induction false} SameIds(a: seq<Rule>, b: seq<Rule>, id: string)
    requires |a| == |b| && forall i | 0 <= i < |a| :: b[i].id == a[i].id
    ensures EnabledById(a, id).Some? <==> EnabledById(b, id).Some?
  {
    if a != [] { SameIds(a[1..], b[1..], id); }
  }

  /** Lists need no knowing; a rule, or a comment of rules, stays known. */
  lemma SameRulesKnown(a: Device, b: Device, f: Fact)
    requires SameRules(a, b)
    ensures Truth(a, f).Some? <==> Truth(b, f).Some?
  {
    hide Trim, EnabledById;
    match f
    case Member(_, _) =>
    case RuleOn(table, id) =>
      SameIds(RulesOf(a, table), RulesOf(b, table), id);
    case CommentOn(table, comment) =>
      var x, y := RulesOf(a, table), RulesOf(b, table);
      if r :| r in x && Trim(r.comment) == comment {
        var i :| 0 <= i < |x| && x[i] == r;
        assert y[i] in y;
      }
      if r :| r in y && Trim(r.comment) == comment {
        var i :| 0 <= i < |y| && y[i] == r;
        assert x[i] in x;
      }
  }

  lemma FlagsKeepRules(before: Device, after: Device, table: string, ids: set<string>, disabled: bool)
    requires FlagsWithin(before, after, table, ids, disabled)
    ensures SameRules(before, after)
  {}

  /** No action adds, removes or renames a rule. */
  lemma ExecuteKeepsRules(net: Net, kind: ActionKind, target: Target, params: Params)
    requires DeviceOk(net.device)
    ensures SameRules(net.device, Execute(net, kind, target, params).0.device)
  {
    hide Add, Remove, SetById, SetByComment, DeviceOk, FlagsWithin, ActionValid, ResolveAddress, StringParam, SameRules;
    TablesAlone(net.device, net.device);
    if ActionValid(kind, target.scope, params) {
      match kind
      case AddressListMembership =>
        if ResolveAddress(target, params).Some? {
          ValidParams(kind, target.scope, params);
          var list, address := StringParam(params, "list").value, ResolveAddress(target, params).value;
          EntriesAreOk(net.device);
          AddHasOneEffect(net, list, address);
          RemoveHasOneEffect(net, list, address);
          TablesAlone(net.device, Add(net, list, address).0.device);
          TablesAlone(net.device, Remove(net, list, address).0.device);
        }
      case FirewallRuleToggle =>
        ValidParams(kind, target.scope, params);
        var table, disabled := StringParam(params, "table").value, StringParam(params, "mode") == Some("disable");
        if StringParam(params, "match_by") == Some("id") {
          var id := StringParam(params, "rule_id").value;
          SetByIdEffect(net, table, id, disabled);
          FlagsKeepRules(net.device, SetById(net, table, id, disabled).0.device, NormalTable(table), {Trim(id)},
            disabled);
        } else {
          var comment := StringParam(params, "comment").value;
          SetByCommentEffect(net, table, comment, disabled);
          FlagsKeepRules(net.device, SetByComment(net, table, comment, disabled).0.device, NormalTable(table),
            CommentIds(net.device, NormalTable(table), Trim(comment)), disabled);
        }
    }
  }

  lemma TablesAlone(a: Device, b: Device)
    requires a.tables == b.tables
    ensures SameRules(a, b)
  {}

  lemma EntriesAreOk(d: Device)
    requires DeviceOk(d)
    ensures EntriesOk(d.entries)
  {}

  lemma ValidParams(kind: ActionKind, scope: Scope, params: Params)
    requires ActionValid(kind, scope, params)
    ensures kind == AddressListMembership ==> StringParam(params, "list").Some?
    ensures kind == FirewallRuleToggle ==> StringParam(params, "table").Some?
    ensures kind == FirewallRuleToggle && StringParam(params, "match_by") == Some("id") ==>
              StringParam(params, "rule_id").Some?
    ensures kind == FirewallRuleToggle && StringParam(params, "match_by") != Some("id") ==>
              StringParam(params, "comment").Some?
  {
    hide StringParam;
  }

  /** The device knows the fact of every action of the list, and nothing refuses any. */
  ghost predicate AllKnown(d: Device, reg: Registry, target: Target, actions: seq<ActionInstance>) {
    forall a | a in actions ::
      FactOf(reg, target, a).Some?
        && (FactOf(reg, target, a).value.0.Member? || Truth(d, FactOf(reg, target, a).value.0).Some?)
  }

  lemma {:induction false} CleanRunSucceeds(net: Net, reg: Registry, target: Target, actions: seq<ActionInstance>)
    requires net.plan == [] && DeviceOk(net.device) && AllKnown(net.device, reg, target, actions)
    ensures var (after, warnings) := RunActions(net, reg, true, target, actions);
            warnings == [] && after.plan == [] && DeviceOk(after.device)
            && AllKnown(after.device, reg, target, actions)
    ensures forall a | a in actions :: Refusal(reg, true, target, a).None?
    decreases |actions|
  {
    hide ActionStep, RunActions, FactOf, Execute, DeviceOk, Truth, SameRules, ActionValid;
    if actions == [] {
      NoActions(net, reg, true, target);
    } else {
      var front, last := actions[..|actions| - 1], actions[|actions| - 1];
      assert last in actions && forall a | a in front :: a in actions;
      CleanRunSucceeds(net, reg, target, front);
      var before := RunActions(net, reg, true, target, front).0;
      OneMoreAction(net, reg, true, target, actions);
      RunKeepsRules(net, reg, true, target, front);
      SameRulesKnown(net.device, before.device, FactOf(reg, target, last).value.0);
      CleanStep(before, reg, target, last);
      RunKeepsRules(net, reg, true, target, actions);
      var after := RunActions(net, reg, true, target, actions).0;
      forall a | a in actions
        ensures FactOf(reg, target, a).value.0.Member? || Truth(after.device, FactOf(reg, target, a).value.0).Some?
      {
        SameRulesKnown(net.device, after.device, FactOf(reg, target, a).value.0);
      }
      assert forall a | a in actions :: a in front || a == last;
    }
  }

  lemma NoActions(net: Net, reg: Registry, configured: bool, target: Target)
    ensures RunActions(net, reg, configured, target, []) == (net, [])
  {}

  lemma {:induction false} RunKeepsRules(net: Net, reg: Registry, configured: bool, target: Target,
                                         actions: seq<ActionInstance>)
    requires DeviceOk(net.device)
    ensures SameRules(net.device, RunActions(net, reg, configured, target, actions).0.device)
  {
    hide Execute, DeviceOk, SameRules, ActionValid;
    if actions == [] {
      TablesAlone(net.device, net.device);
    } else {
      var front, last := actions[..|actions| - 1], actions[|actions| - 1];
      RunKeepsRules(net, reg, configured, target, front);
      ActionsKeepIds(net, reg, configured, target, front);
      var before := RunActions(net, reg, configured, target, front).0;
      var after := RunActions(net, reg, configured, target, actions).0;
      TablesAlone(before.device, before.device);
      if last.typeId in reg.actions { ExecuteKeepsRules(before, reg.actions[last.typeId], target, last.params); }
      SameRulesCompose(net.device, before.device, after.device);
    }
  }

  lemma SameRulesCompose(a: Device, b: Device, c: Device)
    requires SameRules(a, b) && SameRules(b, c)
    ensures SameRules(a, c)
  {}

  lemma CleanStep(net: Net, reg: Registry, target: Target, a: ActionInstance)
    requires net.plan == [] && DeviceOk(net.device) && FactOf(reg, target, a).Some?
    requires FactOf(reg, target, a).value.0.Member? || Truth(net.device, FactOf(reg, target, a).value.0).Some?
    ensures var (after, warnings) := ActionStep(net, reg, true, target, a);
            warnings == [] && after.plan == [] && DeviceOk(after.device)
    ensures Refusal(reg, true, target, a).None?
  {
    hide Execute, ActionFact, ActionValid, Truth, DeviceOk;
    OnlyValidHasFact(reg.actions[a.typeId], target, a.params);
    CleanExecute(net, reg.actions[a.typeId], target, a.params);
    StepKeepsIds(net, reg, target, a);
  }

  lemma StepKeepsIds(net: Net, reg: Registry, target: Target, a: ActionInstance)
    requires DeviceOk(net.device)
    ensures DeviceOk(ActionStep(net, reg, true, target, a).0.device)
  {
    hide Execute, ActionFact, ActionValid, Truth, DeviceOk;
    if a.typeId in reg.actions { ExecuteSetsItsFact(net, reg.actions[a.typeId], target, a.params); }
  }

  /** Without faults, on a configured add-on, a set whose actions all resolve to facts the
      device knows gives no warning, and all those facts have their values, the last action
      on a fact deciding. */
  lemma CleanSetRunsEveryAction(w: World, ref: Ref, capability: string, state: string, t: Template, target: Target)
    requires Acts(w, ref, capability, state, t, target) && w.configured && w.net.plan == []
    requires AllKnown(w.net.device, w.registry, target, t.states[Trim(state)].actions)
    ensures var actions := t.states[Trim(state)].actions;
            var (after, r) := SetState(w, ref, capability, state);
            && r == Ok([]) && after.net.plan == []
            && after.rows == w.rows[KeyOf(NormalRef(ref), Trim(capability)) := Row(true, Trim(state))]
            && forall i | 0 <= i < |actions|
                 && Spares(actions[i + 1..], w.registry, target, FactOf(w.registry, target, actions[i]).value.0) ::
                 Truth(after.net.device, FactOf(w.registry, target, actions[i]).value.0)
                   == Some(FactOf(w.registry, target, actions[i]).value.1)
  {
    hide RunActions, Refusal, FactOf, Truth, Spares, Acts, SetState, NamesInOrder, Trim, NormalRef, KeyOf, DeviceOk;
    ActsOk(w, ref, capability, state, t, target);
    var actions := t.states[Trim(state)].actions;
    SetIsRun(w, ref, capability, state, t, target);
    CleanRunSucceeds(w.net, w.registry, target, actions);
    forall i | 0 <= i < |actions|
        && Spares(actions[i + 1..], w.registry, target, FactOf(w.registry, target, actions[i]).value.0)
      ensures Truth(SetState(w, ref, capability, state).0.net.device, FactOf(w.registry, target, actions[i]).value.0)
           == Some(FactOf(w.registry, target, actions[i]).value.1)
    {
      assert actions[i] in actions;
      RunOutcome(w.net, w.registry, w.configured, target, actions, i);
    }
  }

  // ---- Independent actions ----

  /** No two actions of the list write one fact, or facts that depend on one another. */
  ghost predicate PairwiseIndependent(reg: Registry, target: Target, actions: seq<ActionInstance>) {
    forall i, j | 0 <= i < j < |actions| && FactOf(reg, target, actions[i]).Some?
                  && FactOf(reg, target, actions[j]).Some? ::
      Independent(FactOf(reg, target, actions[j]).value.0, FactOf(reg, target, actions[i]).value.0)
  }

  lemma LaterActionsSpare(reg: Registry, target: Target, actions: seq<ActionInstance>, i: nat)
    requires PairwiseIndependent(reg, target, actions) && i < |actions| && FactOf(reg, target, actions[i]).Some?
    ensures Spares(actions[i + 1..], reg, target, FactOf(reg, target, actions[i]).value.0)
  {
    hide ActionFact, Independent;
    var (later, f) := (actions[i + 1..], FactOf(reg, target, actions[i]).value.0);
    forall a | a in later && a.typeId in reg.actions
      ensures var written := ActionFact(reg.actions[a.typeId], target, a.params);
              written.Some? ==> Independent(written.value.0, f)
    {
      var j :| 0 <= j < |later| && later[j] == a;
      assert actions[i + 1 + j] == a;
      assert FactOf(reg, target, a) == ActionFact(reg.actions[a.typeId], target, a.params);
    }
  }

  /** When no two actions of a state meet in one fact, all their facts hold after a set, but
      for those of actions that the warnings name; under any faults. */
  lemma AllFactsHold(w: World, ref: Ref, capability: string, state: string, t: Template, target: Target)
    requires Acts(w, ref, capability, state, t, target)
    requires Trim(state) in t.states
    requires PairwiseIndependent(w.registry, target, t.states[Trim(state)].actions)
    ensures var (after, r) := SetState(w, ref, capability, state);
            && r.Ok?
            && forall a | a in t.states[Trim(state)].actions && FactOf(w.registry, target, a).Some? ::
                 || Truth(after.net.device, FactOf(w.registry, target, a).value.0)
                    == Some(FactOf(w.registry, target, a).value.1)
                 || Warning(a.id, a.typeId, ExecutionFailed) in r.value
                 || Warning(a.id, a.typeId, NotConfigured) in r.value
  {
    hide RunActions, Refusal, FactOf, Truth, Spares, Acts, SetState, NamesInOrder, Trim, NormalRef, KeyOf;
    hide PairwiseIndependent;
    var actions := t.states[Trim(state)].actions;
    ActsOk(w, ref, capability, state, t, target);
    SetIsRun(w, ref, capability, state, t, target);
    var (after, r) := SetState(w, ref, capability, state);
    forall a | a in actions && FactOf(w.registry, target, a).Some?
      ensures || Truth(after.net.device, FactOf(w.registry, target, a).value.0)
                 == Some(FactOf(w.registry, target, a).value.1)
              || Warning(a.id, a.typeId, ExecutionFailed) in r.value
              || Warning(a.id, a.typeId, NotConfigured) in r.value
    {
      var i :| 0 <= i < |actions| && actions[i] == a;
      RefusedOnlyUnconfigured(w.registry, w.configured, target, a);
      LaterActionsSpare(w.registry, target, actions, i);
      EveryActionTakesEffect(w, ref, capability, state, t, target, i);
    }
  }

  lemma RefusedOnlyUnconfigured(reg: Registry, configured: bool, target: Target, a: ActionInstance)
    requires FactOf(reg, target, a).Some?
    ensures Refusal(reg, configured, target, a) == if configured then None else Some(NotConfigured)
  {
    hide ActionFact, ActionValid;
    OnlyValidHasFact(reg.actions[a.typeId], target, a.params);
  }

  /** The same without faults: no warning, and every fact holds. */
  lemma AllFactsHoldWithoutFaults(w: World, ref: Ref, capability: string, state: string, t: Template, target: Target)
    requires Acts(w, ref, capability, state, t, target) && w.configured && w.net.plan == []
    requires Trim(state) in t.states
    requires PairwiseIndependent(w.registry, target, t.states[Trim(state)].actions)
    requires AllKnown(w.net.device, w.registry, target, t.states[Trim(state)].actions)
    ensures var (after, r) := SetState(w, ref, capability, state);
            && r == Ok([])
            && forall a | a in t.states[Trim(state)].actions ::
                 Truth(after.net.device, FactOf(w.registry, target, a).value.0)
                   == Some(FactOf(w.registry, target, a).value.1)
  {
    hide Acts, SetState, RunActions, FactOf, Truth, Spares, Trim, NormalRef, KeyOf, PairwiseIndependent;
    CleanSetRunsEveryAction(w, ref, capability, state, t, target);
    var actions := t.states[Trim(state)].actions;
    forall a | a in actions
      ensures Truth(SetState(w, ref, capability, state).0.net.device, FactOf(w.registry, target, a).value.0)
           == Some(FactOf(w.registry, target, a).value.1)
    {
      var i :| 0 <= i < |actions| && actions[i] == a;
      LaterActionsSpare(w.registry, target, actions, i);
    }
  }

  // ---- Triggered syncs ----

  /** The device says `value` of the fact that the template's source reads, the row is enabled
      and in another state than the one mapped, and the sync is to run the state's actions. */
  ghost predicate Pending(w: World, t: Template, st: SyncTarget, f: Fact, value: bool) {
    && Proper(w) && t in w.templates && st in SyncTargets(w.devices, NormalScope(t.scope))
    && t.sync.Some? && t.sync.value.enabled && !InternalTruth(t.sync.value.mode)
    && t.sync.value.sourceType in w.registry.sources
    && SourceFact(w.registry.sources[t.sync.value.sourceType], st.target, t.sync.value.sourceParams) == Some(f)
    && Truth(w.net.device, f) == Some(value)
    && var (state, current) := (Trim(if value then t.sync.value.whenTrue else t.sync.value.whenFalse),
                                Current(w.rows, KeyOf(st.ref, t.id), t.defaultState));
       state != "" && state in t.states && current.enabled && current.state != state
  }

  /** A sync with triggers runs all actions of the state it moves a row to. */
  lemma TriggeredSyncActs(w: World, t: Template, st: SyncTarget, f: Fact, value: bool)
    requires Pending(w, t, st, f, value) && t.sync.value.triggerActions && w.configured && w.net.plan == []
    requires var state := Trim(if value then t.sync.value.whenTrue else t.sync.value.whenFalse);
             AllKnown(w.net.device, w.registry, st.target, t.states[state].actions)
    ensures var s := t.sync.value;
            var state := Trim(if value then s.whenTrue else s.whenFalse);
            var (after, errors) := SyncOne(w, t, s, w.registry.sources[s.sourceType], st);
            && errors == [] && after.net.plan == []
            && after.rows == w.rows[KeyOf(st.ref, t.id) := Row(true, state)]
            && ActionsDone(after.net.device, w.registry, st.target, t.states[state].actions)
  {
    hide SetState, FactOf, Truth, Spares, SourceFact, Read, DeviceOk, SyncTargets, KeyOf, NormalRef, Admit, Current;
    hide SourceValid, AllKnown, InternalTruth;
    var s := t.sync.value;
    var kind := w.registry.sources[s.sourceType];
    var state := Trim(if value then s.whenTrue else s.whenFalse);
    TrimIsTrimmed(if value then s.whenTrue else s.whenFalse);
    CleanRead(w.net, kind, st.target, s.sourceParams);
    FactNeedsValidSource(kind, st.target, s.sourceParams);
    var read := w.(net := Read(w.net, kind, st.target, s.sourceParams).0);
    SyncTargetRef(w.devices, NormalScope(t.scope), st);
    AdmitsSyncTarget(read, t, st, state);
    assert Trim(t.id) == t.id;
    assert Acts(read, st.ref, t.id, state, t, st.target);
    CleanSetRunsEveryAction(read, st.ref, t.id, state, t, st.target);
  }

  /** A sync with triggers that is to move a row to an undeclared state reports that for the
      row, and changes neither rows nor router. */
  lemma TriggeredSyncNeedsTheState(w: World, t: Template, st: SyncTarget, f: Fact, value: bool)
    requires Proper(w) && t in w.templates && st in SyncTargets(w.devices, NormalScope(t.scope)) && w.net.plan == []
    requires t.sync.Some? && !InternalTruth(t.sync.value.mode) && t.sync.value.triggerActions
    requires t.sync.value.sourceType in w.registry.sources
    requires SourceFact(w.registry.sources[t.sync.value.sourceType], st.target, t.sync.value.sourceParams) == Some(f)
    requires Truth(w.net.device, f) == Some(value)
    requires var (state, current) := (Trim(if value then t.sync.value.whenTrue else t.sync.value.whenFalse),
                                      Current(w.rows, KeyOf(st.ref, t.id), t.defaultState));
             state != "" && state !in t.states && current.enabled && current.state != state
    ensures var s := t.sync.value;
            var (after, errors) := SyncOne(w, t, s, w.registry.sources[s.sourceType], st);
            && errors == [SyncError(t.id, Some(st.ref), ApplyFailed(UnknownState))]
            && after.rows == w.rows && after.net.device == w.net.device
  {
    hide Truth, SourceFact, Read, DeviceOk, SyncTargets, KeyOf, NormalRef, Admit, Current, RunActions;
    hide SourceValid, InternalTruth;
    var s := t.sync.value;
    var kind := w.registry.sources[s.sourceType];
    TrimIsTrimmed(if value then s.whenTrue else s.whenFalse);
    CleanRead(w.net, kind, st.target, s.sourceParams);
    FactNeedsValidSource(kind, st.target, s.sourceParams);
    var read := w.(net := Read(w.net, kind, st.target, s.sourceParams).0);
    SyncTargetRef(w.devices, NormalScope(t.scope), st);
    AdmitsSyncTarget(read, t, st, Trim(if value then s.whenTrue else s.whenFalse));
  }

  lemma FactNeedsValidSource(kind: SourceKind, target: Target, params: Params)
    ensures SourceFact(kind, target, params).Some? ==> SourceValid(kind, target.scope, params)
  {}

  /** Each action's fact has its value, unless a later action meets it. */
  ghost predicate ActionsDone(d: Device, reg: Registry, target: Target, actions: seq<ActionInstance>) {
    forall i | 0 <= i < |actions| && FactOf(reg, target, actions[i]).Some?
               && Spares(actions[i + 1..], reg, target, FactOf(reg, target, actions[i]).value.0) ::
      Truth(d, FactOf(reg, target, actions[i]).value.0) == Some(FactOf(reg, target, actions[i]).value.1)
  }

  /** A whole sync of one capability with one target: the row moves and the actions are done. */
  lemma TriggeredSyncOfOneRow(w: World, t: Template, st: SyncTarget, f: Fact, value: bool)
    requires Pending(w, t, st, f, value) && t.sync.value.triggerActions && w.configured && w.net.plan == []
    requires w.templates == [t] && (NormalScope(t.scope) == GlobalScope || |w.devices| == 1)
    requires var state := Trim(if value then t.sync.value.whenTrue else t.sync.value.whenFalse);
             AllKnown(w.net.device, w.registry, st.target, t.states[state].actions)
    ensures var state := Trim(if value then t.sync.value.whenTrue else t.sync.value.whenFalse);
            var (after, errors) := Synced(w);
            && errors == Some([])
            && after.rows == w.rows[KeyOf(st.ref, t.id) := Row(true, state)]
            && ActionsDone(after.net.device, w.registry, st.target, t.states[state].actions)
  {
    hide SyncOne, AllKnown, ActionsDone, Truth, SourceFact, DeviceOk, Current, KeyOf, Trim;
    TriggeredSyncActs(w, t, st, f, value);
    var s := t.sync.value;
    var targets := SyncTargets(w.devices, NormalScope(t.scope));
    assert targets == [st];
    OneTarget(w, t, s, w.registry.sources[s.sourceType], st);
    OneTemplate(w, t);
  }

  lemma OneTarget(w: World, t: Template, s: Sync, kind: SourceKind, st: SyncTarget)
    ensures SyncEach(w, t, s, kind, [st]) == SyncOne(w, t, s, kind, st)
  {
    hide SyncOne;
    assert [st][..0] == [] && SyncEach(w, t, s, kind, []) == (w, []);
    assert [] + SyncOne(w, t, s, kind, st).1 == SyncOne(w, t, s, kind, st).1;
  }

  lemma OneTemplate(w: World, t: Template)
    ensures SyncAll(w, [t]) == SyncTemplate(w, t)
  {
    hide SyncTemplate;
    assert [t][..0] == [] && SyncAll(w, []) == (w, []);
    assert [] + SyncTemplate(w, t).1 == SyncTemplate(w, t).1;
  }
}
