/** What validating a template before storing it buys for every later run. */
module ValidationLaws {
  import opened Text
  import opened Devices
  import opened Transport
  import opened AddressLists
  import opened FirewallRules
  import opened Adapters
  import opened Templates
  import opened Engine
  import opened SyncLaws

  /** What `CreateCapability` and `UpdateCapability` let into the store. */
  ghost predicate Stored(t: Template, reg: Registry) {
    Normalized(t) == t && Valid(t, reg)
  }

  lemma ScopeTwice(scope: string)
    ensures NormalScope(ScopeText(NormalScope(scope))) == NormalScope(scope)
  {
    TrimIsTrimmed("global");
    TrimIsTrimmed("device");
    assert "global"[0] != "device"[0];
  }

  lemma ModeTwice()
    ensures InternalTruth("internal_truth") && !InternalTruth("external_truth")
  {
    TrimIsTrimmed("internal_truth");
    TrimIsTrimmed("external_truth");
    assert Lower("internal_truth") == "internal_truth" && Lower("external_truth") == "external_truth";
    assert "internal_truth"[0] != "external_truth"[0];
  }

  lemma StatesTwice(t: Template)
    ensures Normalized(Normalized(t)).states == Normalized(t).states
  {
    hide Trim;
    forall k | k in t.states ensures NormalState(NormalState(t.states[k])) == NormalState(t.states[k]) {
      TrimIsTrimmed(t.states[k].title);
    }
  }

  /** Normalising is done once and for all. */
  lemma NormalizedTwice(t: Template)
    ensures Normalized(Normalized(t)) == Normalized(t)
  {
    hide Trim, InternalTruth, NormalScope, NormalState;
    TrimIsTrimmed(t.id);
    TrimIsTrimmed(t.title);
    TrimIsTrimmed(t.defaultState);
    ScopeTwice(t.scope);
    ModeTwice();
    StatesTwice(t);
  }

  /** Normalising changes nothing that a sync or a set looks at: the same scope, default state
      and truth mode, the same actions for each state. */
  lemma NormalizedActsAlike(t: Template)
    ensures var n := Normalized(t);
            && NormalScope(n.scope) == NormalScope(t.scope) && Trim(n.defaultState) == Trim(t.defaultState)
            && n.states.Keys == t.states.Keys
            && (forall k | k in t.states :: n.states[k].actions == t.states[k].actions)
            && (n.sync.Some? <==> t.sync.Some?)
            && (t.sync.Some? ==>
                  && n.sync.value == t.sync.value.(mode := n.sync.value.mode)
                  && InternalTruth(n.sync.value.mode) == InternalTruth(t.sync.value.mode))
  {
    hide Trim, InternalTruth, NormalScope;
    ScopeTwice(t.scope);
    ModeTwice();
    TrimIsTrimmed(t.defaultState);
  }

  /** A sync of the normalised template is a sync of the template itself, errors included. */
  lemma NormalizedSyncsAlike(w: World, t: Template)
    requires Trim(t.id) == t.id
    ensures SyncTemplate(w, Normalized(t)) == SyncTemplate(w, t)
  {
    hide Trim, InternalTruth, NormalScope, Normalized, SyncEach, SyncTargets;
    NormalizedActsAlike(t);
    NormalNames(t);
    if t.sync.Some? && t.sync.value.sourceType in w.registry.sources {
      var targets := SyncTargets(w.devices, NormalScope(t.scope));
      AlikeEach(w, t, w.registry.sources[t.sync.value.sourceType], targets);
    }
  }

  lemma NormalNames(t: Template)
    ensures Normalized(t).id == Trim(t.id) && Normalized(t).title == Trim(t.title)
    ensures Normalized(t).control == t.control
            || (t.control == Control(Switch, [])
                && Normalized(t).control == Control(Switch, [ControlOption("on", "On"), ControlOption("off", "Off")]))
  {
    hide Trim, InternalTruth, NormalScope;
  }

  lemma {:induction false} AlikeEach(w: World, t: Template, kind: SourceKind, targets: seq<SyncTarget>)
    requires Trim(t.id) == t.id && t.sync.Some? && Normalized(t).sync.Some?
    ensures SyncEach(w, Normalized(t), Normalized(t).sync.value, kind, targets)
         == SyncEach(w, t, t.sync.value, kind, targets)
  {
    hide SyncOne, Normalized, Trim;
    if targets != [] {
      AlikeEach(w, t, kind, targets[..|targets| - 1]);
      AlikeOne(SyncEach(w, t, t.sync.value, kind, targets[..|targets| - 1]).0, t, kind, targets[|targets| - 1]);
    }
  }

  lemma AlikeOne(w: World, t: Template, kind: SourceKind, st: SyncTarget)
    requires Trim(t.id) == t.id && t.sync.Some? && Normalized(t).sync.Some?
    ensures SyncOne(w, Normalized(t), Normalized(t).sync.value, kind, st) == SyncOne(w, t, t.sync.value, kind, st)
  {
    hide Normalized, Trim, InternalTruth, NormalScope, Read, SetState, SourceValid, KeyOf;
    NormalizedActsAlike(t);
    NormalNames(t);
  }

  // ---- Runs ----

  /** A request to the service, a periodic sync, or a change of the surroundings: another
      device state, another device list, other faults to come. */
  datatype Request =
    | Patch(ref: Ref, capability: string, state: Option<string>, enabled: Option<bool>)
    | SyncNow
    | Surroundings(device: Device, devices: seq<View>, plan: seq<Event>, configured: bool)

  ghost function Step(w: World, r: Request): World {
    match r
    case Patch(ref, capability, state, enabled) => Patched(w, ref, capability, state, enabled).0
    case SyncNow => Synced(w).0
    case Surroundings(device, devices, plan, configured) =>
      w.(net := w.net.(device := device, plan := plan), devices := devices, configured := configured)
  }

  ghost function Steps(w: World, requests: seq<Request>): World {
    if requests == [] then w else Step(Steps(w, requests[..|requests| - 1]), requests[|requests| - 1])
  }

  /** The template is in the store, next to any others. */
  ghost predicate Hosts(w: World, t: Template, reg: Registry) {
    t in w.templates && DistinctIds(w.templates) && TrimmedIds(w.templates) && w.registry == reg
  }

  /** Every stored state of the capability is one of its declared states. */
  ghost predicate Declared(rows: map<Key, Row>, t: Template) {
    forall key | key in rows && key.capability == t.id :: rows[key].state in t.states
  }

  /** What a sync without triggers would store is declared: checkable on the template. */
  predicate MappingDeclared(t: Template) {
    t.sync.Some? && t.sync.value.enabled && !InternalTruth(t.sync.value.mode) && !t.sync.value.triggerActions ==>
      && (Mapped(t.sync.value, true) != "" ==> Mapped(t.sync.value, true) in t.states)
      && (Mapped(t.sync.value, false) != "" ==> Mapped(t.sync.value, false) in t.states)
  }

  /** Templates and registry stay; the rows stay declared. */
  ghost predicate Sound(w: World, t: Template, reg: Registry) {
    Hosts(w, t, reg) && Declared(w.rows, t)
  }

  lemma SetStateSound(w: World, t: Template, reg: Registry, ref: Ref, capability: string, state: string)
    requires Sound(w, t, reg)
    ensures Sound(SetState(w, ref, capability, state).0, t, reg)
  {
    hide RunActions, TargetOf, Trim, Current;
    TemplateFindsItself(w.templates, t);
  }

  lemma EnabledSound(w: World, t: Template, reg: Registry, ref: Ref, capability: string, enabled: bool)
    requires Sound(w, t, reg) && t.defaultState in t.states
    ensures Sound(Enabled(w, ref, capability, enabled).0, t, reg)
  {
    hide TargetOf, Trim;
    TemplateFindsItself(w.templates, t);
    FoundHasId(w.templates, Trim(capability));
  }

  lemma {:induction false} FoundHasId(templates: seq<Template>, id: string)
    ensures FindTemplate(templates, id).Some?
      ==> FindTemplate(templates, id).value.id == id && FindTemplate(templates, id).value in templates
  {
    if templates != [] && templates[0].id != id {
      FoundHasId(templates[1..], id);
    }
  }

  lemma SyncOneSound(w: World, t: Template, reg: Registry, u: Template, kind: SourceKind, st: SyncTarget)
    requires Sound(w, t, reg) && u in w.templates && u.sync.Some? && u.sync.value.enabled
    requires MappingDeclared(t)
    ensures Sound(SyncOne(w, u, u.sync.value, kind, st).0, t, reg)
    ensures SyncOne(w, u, u.sync.value, kind, st).0.templates == w.templates
  {
    hide Read, SetState, Current, SourceValid, Mapped, InternalTruth, Trim;
    var s := u.sync.value;
    var (net, value) := Read(w.net, kind, st.target, s.sourceParams);
    TemplateFindsItself(w.templates, t);
    TemplateFindsItself(w.templates, u);
    if value.Some? {
      SetStateSound(w.(net := net), t, reg, st.ref, u.id, Mapped(s, value.value));
      SetStateKeepsTemplates(w.(net := net), st.ref, u.id, Mapped(s, value.value));
    }
  }

  lemma SetStateKeepsTemplates(w: World, ref: Ref, capability: string, state: string)
    ensures SetState(w, ref, capability, state).0.templates == w.templates
  {}

  lemma {:induction false} SyncEachSound(w: World, t: Template, reg: Registry, u: Template, kind: SourceKind,
        targets: seq<SyncTarget>)
    requires Sound(w, t, reg) && u in w.templates && u.sync.Some? && u.sync.value.enabled && MappingDeclared(t)
    ensures Sound(SyncEach(w, u, u.sync.value, kind, targets).0, t, reg)
    ensures SyncEach(w, u, u.sync.value, kind, targets).0.templates == w.templates
  {
    hide SyncOne, Sound, MappingDeclared;
    if targets != [] {
      SyncEachSound(w, t, reg, u, kind, targets[..|targets| - 1]);
      SyncOneSound(SyncEach(w, u, u.sync.value, kind, targets[..|targets| - 1]).0, t, reg, u, kind,
        targets[|targets| - 1]);
    }
  }

  lemma {:induction false} SyncAllSound(w: World, t: Template, reg: Registry, templates: seq<Template>)
    requires Sound(w, t, reg) && MappingDeclared(t) && forall u | u in templates :: u in w.templates
    ensures Sound(SyncAll(w, templates).0, t, reg)
    ensures SyncAll(w, templates).0.templates == w.templates
  {
    hide SyncEach, Sound, MappingDeclared;
    if templates != [] {
      var front, u := templates[..|templates| - 1], templates[|templates| - 1];
      assert u in templates && forall x | x in front :: x in templates;
      SyncAllSound(w, t, reg, front);
      var before := SyncAll(w, front).0;
      if u.sync.Some? && u.sync.value.enabled && u.sync.value.sourceType in before.registry.sources {
        SyncEachSound(before, t, reg, u, before.registry.sources[u.sync.value.sourceType],
          SyncTargets(before.devices, NormalScope(u.scope)));
      }
    }
  }

  lemma StepSound(w: World, t: Template, reg: Registry, r: Request)
    requires Sound(w, t, reg) && MappingDeclared(t) && t.defaultState in t.states
    ensures Sound(Step(w, r), t, reg)
  {
    hide SetState, Enabled, SyncAll, MappingDeclared;
    match r
    case Patch(ref, capability, state, enabled) =>
      if state.Some? { SetStateSound(w, t, reg, ref, capability, state.value); }
      if enabled.Some? {
        EnabledSound(w, t, reg, ref, capability, enabled.value);
        if state.Some? {
          EnabledSound(SetState(w, ref, capability, state.value).0, t, reg, ref, capability, enabled.value);
        }
      }
    case SyncNow => SyncAllSound(w, t, reg, w.templates);
    case Surroundings(_, _, _, _) =>
  }

  lemma {:induction false} StepsSound(w: World, t: Template, reg: Registry, requests: seq<Request>)
    requires Sound(w, t, reg) && MappingDeclared(t) && t.defaultState in t.states
    ensures Sound(Steps(w, requests), t, reg)
  {
    hide Step, Sound, MappingDeclared;
    if requests != [] {
      StepsSound(w, t, reg, requests[..|requests| - 1]);
      StepSound(Steps(w, requests[..|requests| - 1]), t, reg, requests[|requests| - 1]);
    }
  }

  // ---- The mapping condition is necessary ----

  function Laptop(): View {
    View("A", Some("1"))
  }

  /** A target of the scope that every parameter resolves on. */
  function SampleTarget(scope: Scope): SyncTarget {
    if scope == GlobalScope then SyncTarget(Ref(GlobalScope, ""), Target(GlobalScope, None)) else DeviceTarget(Laptop())
  }

  lemma SampleResolves(kind: SourceKind, scope: Scope, params: Params)
    requires SourceValid(kind, scope, params)
    ensures SourceFact(kind, SampleTarget(scope).target, params).Some?
    ensures SampleTarget(scope).target.scope == scope
  {
    TrimIsTrimmed("1");
    TrimIsTrimmed("A");
  }

  /** A device on which the fact has the wanted value. */
  ghost function DeviceWith(f: Fact, address: string, value: bool): Device {
    match f
    case Member(list, _) => Device(if value then [Entry("*", list, address)] else [], map[])
    case RuleOn(table, id) => Device([], map[table := [Rule(id, "", !value)]])
    case CommentOn(table, comment) => Device([], map[table := [Rule("*", comment, !value)]])
  }

  lemma DeviceWithHasTruth(f: Fact, address: string, value: bool)
    requires f.Member? ==> NormalAddress(address) == f.address
    requires f.RuleOn? ==> IdOk(f.id)
    requires f.CommentOn? ==> Trim(f.comment) == f.comment
    ensures DeviceOk(DeviceWith(f, address, value)) && Truth(DeviceWith(f, address, value), f) == Some(value)
  {
    var d := DeviceWith(f, address, value);
    match f
    case Member(list, key) => if value { assert Entry("*", list, address) in d.entries; }
    case RuleOn(table, id) => assert RulesOf(d, table) == [Rule(id, "", !value)];
    case CommentOn(table, comment) =>
      assert RulesOf(d, table) == [Rule("*", comment, !value)];
      assert Rule("*", comment, !value) in RulesOf(d, table);
  }

  lemma FactIsRealizable(kind: SourceKind, target: Target, params: Params, value: bool) returns (d: Device)
    requires SourceFact(kind, target, params).Some?
    ensures DeviceOk(d) && Truth(d, SourceFact(kind, target, params).value) == Some(value)
  {
    hide ResolveAddress, NormalAddress, DeviceOk, Truth, DeviceWith;
    var f := SourceFact(kind, target, params).value;
    StringParamTrimmed(params, "rule_id");
    StringParamTrimmed(params, "comment");
    if f.RuleOn? { TrimIsTrimmed(f.id); }
    var address := if f.Member? then ResolveAddress(target, params).value else "";
    DeviceWithHasTruth(f, address, value);
    d := DeviceWith(f, address, value);
  }

  /** The world that holds only this template, on a device where the source reads `value`. */
  ghost function LoneWorld(t: Template, reg: Registry, d: Device): World {
    World(Net(d, [], 0, 0, [], []), [t], if NormalScope(t.scope) == GlobalScope then []
      else [Laptop()], map[], reg, true)
  }

  lemma LoneTargets(t: Template, reg: Registry, d: Device)
    ensures SyncTargets(LoneWorld(t, reg, d).devices, NormalScope(t.scope)) == [SampleTarget(NormalScope(t.scope))]
  {}

  lemma LoneSync(t: Template, reg: Registry, d: Device)
    requires t.sync.Some? && t.sync.value.enabled && t.sync.value.sourceType in reg.sources
    ensures var w := LoneWorld(t, reg, d);
            Synced(w).0 == SyncOne(w, t, t.sync.value, reg.sources[t.sync.value.sourceType],
              SampleTarget(NormalScope(t.scope))).0
  {
    hide SyncOne, SyncTargets;
    var w := LoneWorld(t, reg, d);
    LoneTargets(t, reg, d);
    var st := SampleTarget(NormalScope(t.scope));
    var kind := reg.sources[t.sync.value.sourceType];
    assert [st][..0] == [] && [t][..0] == [];
    assert SyncEach(w, t, t.sync.value, kind, []) == (w, []);
    assert SyncEach(w, t, t.sync.value, kind, [st]).0 == SyncOne(w, t, t.sync.value, kind, st).0;
    assert SyncAll(w, []) == (w, []);
    assert SyncAll(w, [t]).0 == SyncTemplate(w, t).0;
  }

  /** A valid template whose mapping is undeclared has a run that stores an undeclared state. */
  lemma UndeclaredMappingEscapes(t: Template, reg: Registry, value: bool) returns (w: World)
    requires Stored(t, reg) && t.sync.Some? && t.sync.value.enabled
    requires !InternalTruth(t.sync.value.mode) && !t.sync.value.triggerActions
    requires Mapped(t.sync.value, value) != "" && Mapped(t.sync.value, value) !in t.states
    ensures Sound(w, t, reg) && !Declared(Synced(w).0.rows, t)
  {
    hide Read, SourceFact, SourceValid, DeviceOk, Truth, SourceTruth, SyncAll, SyncOne, Mapped, Normalized,
         StateAccepted,
         IdFrom, InternalTruth;
    var s := t.sync.value;
    var st := SampleTarget(NormalScope(t.scope));
    ValidParts(t, reg);
    var kind := reg.sources[s.sourceType];
    SampleResolves(kind, NormalScope(t.scope), s.sourceParams);
    var d := FactIsRealizable(kind, st.target, s.sourceParams, value);
    w := LoneWorld(t, reg, d);
    TruthOfFact(d, kind, st.target, s.sourceParams);
    LoneSync(t, reg, d);
    assert Current(w.rows, KeyOf(st.ref, t.id), t.defaultState) == Row(true, t.defaultState);
    StoresItsMapping(w, t, kind, st, value);
    assert w.rows == map[];
  }

  /** A readable source whose mapping differs from the current state makes a sync store the
      mapping, declared or not. */
  lemma StoresItsMapping(w: World, t: Template, kind: SourceKind, st: SyncTarget, value: bool)
    requires w.net.plan == [] && DeviceOk(w.net.device) && t.sync.Some?
      && Current(w.rows, KeyOf(st.ref, t.id), t.defaultState).enabled
    requires !InternalTruth(t.sync.value.mode) && !t.sync.value.triggerActions
    requires SourceTruth(w.net.device, kind, st.target, t.sync.value.sourceParams) == Some(value)
    requires Mapped(t.sync.value, value) != ""
      && Mapped(t.sync.value, value) != Current(w.rows, KeyOf(st.ref, t.id), t.defaultState).state
    ensures SyncOne(w, t, t.sync.value, kind, st).0.rows
      == w.rows[KeyOf(st.ref, t.id) := Row(true, Mapped(t.sync.value, value))]
  {
    hide Read, DeviceOk, SourceTruth, Mapped, InternalTruth, Current, SourceValid, SetState;
    CleanRead(w.net, kind, st.target, t.sync.value.sourceParams);
    InvalidHasNoTruth(w.net.device, kind, st.target, t.sync.value.sourceParams);
  }

  lemma TruthOfFact(d: Device, kind: SourceKind, target: Target, params: Params)
    ensures SourceFact(kind, target, params).Some?
      ==> SourceTruth(d, kind, target, params) == Truth(d, SourceFact(kind, target, params).value)
  {}

  lemma ValidParts(t: Template, reg: Registry)
    requires Stored(t, reg)
    ensures Trim(t.id) == t.id && Trim(t.defaultState) == t.defaultState && t.defaultState in t.states
    ensures ControlValues(t.control).Some? && forall v | v in ControlValues(t.control).value :: v in t.states
    ensures forall k | k in t.states :: StateAccepted(k, t.states[k], NormalScope(t.scope), reg)
    ensures t.sync.Some? && t.sync.value.enabled ==>
              && t.sync.value.sourceType in reg.sources
              && SourceValid(reg.sources[t.sync.value.sourceType], NormalScope(t.scope), t.sync.value.sourceParams)
              && (Trim(t.sync.value.whenTrue) != "" ==> t.sync.value.whenTrue in t.states)
              && (Trim(t.sync.value.whenFalse) != "" ==> t.sync.value.whenFalse in t.states)
  {
    hide Trim, IdFrom, StateAccepted, SourceValid, ControlValues, Lower;
    assert Normalized(t).id == t.id && Normalized(t).defaultState == t.defaultState;
  }

  // ---- Main results ----

  /** A validated template keeps every stored state declared, over all runs of patches, syncs
      and changes of the surroundings, exactly when its non-blank mapped states are declared
      once trimmed (or no sync writes them unchecked). */
  lemma StatesStayDeclaredExactly(t: Template, reg: Registry)
    requires Stored(t, reg)
    ensures MappingDeclared(t) <==>
            forall w, requests :: Sound(w, t, reg) ==> Declared(Steps(w, requests).rows, t)
  {
    hide Sound, Steps, Stored, Mapped, Declared;
    ValidParts(t, reg);
    if MappingDeclared(t) {
      forall w, requests | Sound(w, t, reg) ensures Declared(Steps(w, requests).rows, t) {
        StepsSound(w, t, reg, requests);
        SoundIsDeclared(Steps(w, requests), t, reg);
      }
    } else {
      var value := Mapped(t.sync.value, true) != "" && Mapped(t.sync.value, true) !in t.states;
      var w := UndeclaredMappingEscapes(t, reg, value);
      OneSync(w);
      assert !Declared(Steps(w, [SyncNow]).rows, t);
    }
  }

  lemma SoundIsDeclared(w: World, t: Template, reg: Registry)
    requires Sound(w, t, reg)
    ensures Declared(w.rows, t)
  {}

  lemma OneSync(w: World)
    ensures Steps(w, [SyncNow]) == Synced(w).0
  {
    assert [SyncNow][..0] == [];
    assert Steps(w, []) == w;
  }

  /** State ids without surrounding blanks are enough: then every run of patches, syncs and
      changes of the surroundings keeps every stored state declared. */
  lemma TrimmedStateIdsSuffice(t: Template, reg: Registry, w: World, requests: seq<Request>)
    requires Stored(t, reg) && (forall k | k in t.states :: Trim(k) == k) && Sound(w, t, reg)
    ensures Declared(Steps(w, requests).rows, t)
  {
    hide Sound, Steps, Stored, Declared;
    ValidParts(t, reg);
    StepsSound(w, t, reg, requests);
    SoundIsDeclared(Steps(w, requests), t, reg);
  }

  /** Setting any option of a validated template's control is never an unknown state. */
  lemma ControlOptionsAreKnown(w: World, t: Template, ref: Ref, capability: string, option: ControlOption)
    requires Hosts(w, t, w.registry) && Stored(t, w.registry)
    requires Trim(capability) == t.id && option in t.control.options
    ensures SetState(w, ref, capability, option.value).1 != Err(UnknownState)
  {
    hide RunActions, TargetOf, Stored, StateAccepted, Current, Normalized, Trim, ControlValues;
    ValidParts(t, w.registry);
    TemplateFindsItself(w.templates, t);
    OptionIsControlValue(t.control, option);
  }

  lemma OptionIsControlValue(c: Control, option: ControlOption)
    requires ControlValues(c).Some? && option in c.options
    ensures Trim(option.value) in ControlValues(c).value
  {
    hide Trim;
    var i :| 0 <= i < |c.options| && c.options[i] == option;
    var values := ControlValues(c).value;
    if c.kind == Select {
      assert values[i] == Trim(option.value);
    } else {
      TrimIsTrimmed("on");
      TrimIsTrimmed("off");
      TwoOptions(c.options, i);
      assert values == ["on", "off"] && values[0] == "on" && values[1] == "off";
    }
  }

  lemma TwoOptions(options: seq<ControlOption>, i: nat)
    requires |options| == 2 && OptionIn(options, "on") && OptionIn(options, "off") && i < 2
    ensures options[i].value == "on" || options[i].value == "off"
  {
    var a :| a in options && a.value == "on";
    var b :| b in options && b.value == "off";
    assert "on" != "off" by { assert |"on"| != |"off"|; }
  }

  /** A warning that validation should have ruled out. */
  predicate Avoidable(c: Cause) {
    c == NotRegistered || c == InvalidParams
  }

  lemma {:induction false} AcceptedActionsWarn(net: Net, reg: Registry, configured: bool, target: Target,
        actions: seq<ActionInstance>)
    requires forall a | a in actions :: ActionAccepted(a, target.scope, reg)
    ensures forall warning | warning in RunActions(net, reg, configured, target, actions).1 :: !Avoidable(warning.cause)
  {
    hide Execute, ActionValid;
    if actions != [] {
      var front, a := actions[..|actions| - 1], actions[|actions| - 1];
      assert a in actions && forall x | x in front :: x in actions;
      AcceptedActionsWarn(net, reg, configured, target, front);
    }
  }

  /** Setting a state of a validated template never warns of an unregistered action type or
      of refused parameters, whatever the target and the faults. */
  lemma ValidatedActionsNeverMisfit(w: World, t: Template, ref: Ref, capability: string, state: string)
    requires Hosts(w, t, w.registry) && Stored(t, w.registry) && Trim(capability) == t.id
    ensures SetState(w, ref, capability, state).1.Ok? ==>
              forall warning | warning in SetState(w, ref, capability, state).1.value :: !Avoidable(warning.cause)
  {
    hide RunActions, Stored, Current, FindDevice, NormalId, Trim, ActionAccepted;
    ValidParts(t, w.registry);
    TemplateFindsItself(w.templates, t);
    match Admit(w, ref, capability, state)
    case Err(_) =>
    case Ok((u, target)) =>
      assert u == t && target.scope == NormalScope(t.scope);
      assert StateAccepted(Trim(state), t.states[Trim(state)], NormalScope(t.scope), w.registry);
      AcceptedActionsWarn(w.net, w.registry, w.configured, target, t.states[Trim(state)].actions);
  }

  predicate SourceFault(e: SyncError, capability: string) {
    e.capability == capability && (e.cause == SourceMissing || e.cause == SourceInvalid)
  }

  lemma {:induction false} SyncEachFaults(w: World, t: Template, kind: SourceKind, targets: seq<SyncTarget>,
        capability: string)
    requires t.sync.Some?
    requires t.id != capability || forall st | st in targets ::
      SourceValid(kind, st.target.scope, t.sync.value.sourceParams)
    ensures forall e | e in SyncEach(w, t, t.sync.value, kind, targets).1 :: !SourceFault(e, capability)
  {
    hide Read, SetState, Current, SourceValid, Mapped;
    if targets != [] {
      var front, st := targets[..|targets| - 1], targets[|targets| - 1];
      assert st in targets && forall x | x in front :: x in targets;
      SyncEachFaults(w, t, kind, front, capability);
    }
  }

  lemma {:induction false} SyncAllFaults(w: World, templates: seq<Template>, t: Template, reg: Registry)
    requires Stored(t, reg) && w.registry == reg && t in w.templates && DistinctIds(w.templates)
    requires forall u | u in templates :: u in w.templates
    ensures SyncAll(w, templates).0.registry == reg
    ensures forall e | e in SyncAll(w, templates).1 :: !SourceFault(e, t.id)
  {
    hide SyncEach, Stored, SourceValid, SyncTargets;
    if templates != [] {
      var front, u := templates[..|templates| - 1], templates[|templates| - 1];
      assert u in templates && forall x | x in front :: x in templates;
      SyncAllFaults(w, front, t, reg);
      var before := SyncAll(w, front).0;
      TemplateFindsItself(w.templates, t);
      TemplateFindsItself(w.templates, u);
      ValidParts(t, reg);
      if u.sync.Some? && u.sync.value.enabled && u.sync.value.sourceType in reg.sources {
        var targets := SyncTargets(before.devices, NormalScope(u.scope));
        var kind := reg.sources[u.sync.value.sourceType];
        forall st | st in targets ensures st.target.scope == NormalScope(u.scope) {
          SyncTargetRef(before.devices, NormalScope(u.scope), st);
        }
        SyncEachFaults(before, u, kind, targets, t.id);
        SyncEachKeepsRegistry(before, u, kind, targets);
      }
    }
  }

  lemma {:induction false} SyncEachKeepsRegistry(w: World, t: Template, kind: SourceKind, targets: seq<SyncTarget>)
    requires t.sync.Some?
    ensures SyncEach(w, t, t.sync.value, kind, targets).0.registry == w.registry
  {
    hide Read, Current, SourceValid, Mapped, RunActions, Admit;
    if targets != [] {
      SyncEachKeepsRegistry(w, t, kind, targets[..|targets| - 1]);
    }
  }

  /** A sync never reports a missing or misconfigured source for a validated template. */
  lemma ValidatedSourcesNeverMisfit(w: World, t: Template)
    requires Hosts(w, t, w.registry) && Stored(t, w.registry)
    ensures Synced(w).1.Some? ==> forall e | e in Synced(w).1.value :: !SourceFault(e, t.id)
  {
    hide SyncAll, Stored, SourceFault;
    SyncAllFaults(w, w.templates, t, w.registry);
  }

  // ---- What validation asks for ----

  /** Lower-case letters and digits, and after the first part of an id underscores too. */
  predicate PartOk(s: string, first: bool) {
    forall c | c in s :: 'a' <= c <= 'z' || '0' <= c <= '9' || (!first && c == '_')
  }

  function Dots(tails: seq<string>): string {
    if tails == [] then "" else "." + tails[0] + Dots(tails[1..])
  }

  /** A text is a part and dotted parts after it. */
  ghost predicate Splits(s: string, first: bool, some: bool, part: string, tails: seq<string>) {
    && s == part + Dots(tails) && PartOk(part, first) && (some || part != "") && (first ==> tails != [])
    && forall t | t in tails :: t != "" && PartOk(t, false)
  }

  lemma {:induction false} ScannedSplits(s: string, first: bool, some: bool)
    returns (part: string, tails: seq<string>)
    requires IdFrom(s, first, some)
    ensures Splits(s, first, some, part, tails)
  {
    if s == "" {
      part, tails := "", [];
    } else if s[0] == '.' {
      var p, ts := ScannedSplits(s[1..], false, false);
      part, tails := "", [p] + ts;
      assert tails[1..] == ts && s == "." + s[1..];
    } else {
      var p, ts := ScannedSplits(s[1..], first, true);
      part, tails := [s[0]] + p, ts;
      assert s == [s[0]] + s[1..];
    }
  }

  lemma {:induction false} SplitsScan(s: string, first: bool, some: bool, part: string, tails: seq<string>)
    requires Splits(s, first, some, part, tails)
    ensures IdFrom(s, first, some)
    decreases |s|
  {
    if part != "" {
      assert part[0] in part && forall c | c in part[1..] :: c in part;
      assert s[1..] == part[1..] + Dots(tails);
      SplitsScan(s[1..], first, true, part[1..], tails);
    } else if tails != [] {
      assert tails[0] in tails && forall t | t in tails[1..] :: t in tails;
      assert s[1..] == tails[0] + Dots(tails[1..]);
      SplitsScan(s[1..], false, false, tails[0], tails[1..]);
    }
  }

  /** The id pattern: a first part, then at least one dotted part. */
  lemma IdPatternExactly(id: string)
    ensures IdFrom(id, true, false) <==> exists head, tails :: Splits(id, true, false, head, tails)
  {
    if IdFrom(id, true, false) {
      var head, tails := ScannedSplits(id, true, false);
    }
    forall head, tails | Splits(id, true, false, head, tails) ensures IdFrom(id, true, false) {
      SplitsScan(id, true, false, head, tails);
    }
  }

  /** A switch has the states on and off and no other options; a select has at least two
      options, non-blank and distinct without their blanks, and each is a state. */
  predicate ControlFits(c: Control, states: map<string, StateConfig>) {
    match c.kind
    case Switch =>
      && "on" in states && "off" in states
      && (c.options == [] || (|c.options| == 2 && OptionIn(c.options, "on") && OptionIn(c.options, "off")))
    case Select =>
      && |c.options| >= 2
      && (forall i | 0 <= i < |c.options| :: !Blank(c.options[i].value) && Trim(c.options[i].value) in states)
      && (forall i, j | 0 <= i < j < |c.options| :: Trim(c.options[i].value) != Trim(c.options[j].value))
    case OtherControl => false
  }

  predicate SyncFits(s: Sync, states: map<string, StateConfig>, scope: Scope, reg: Registry) {
    && !Blank(s.sourceType) && s.sourceType in reg.sources
    && SourceValid(reg.sources[s.sourceType], scope, s.sourceParams)
    && (Blank(s.whenTrue) || s.whenTrue in states) && (Blank(s.whenFalse) || s.whenFalse in states)
    && Lower(Trim(s.mode)) in ["", "external_truth", "internal_truth"]
  }

  lemma ControlExactly(c: Control, states: map<string, StateConfig>)
    ensures ControlFits(c, states)
      <==> ControlValues(c).Some? && forall v | v in ControlValues(c).value :: v in states
  {
    hide Trim;
    match c.kind
    case Switch =>
      assert "on" in ["on", "off"] && "off" in ["on", "off"];
      assert forall v | v in ["on", "off"] :: v == "on" || v == "off";
    case Select =>
      var values := TrimmedValues(c.options);
      assert forall i | 0 <= i < |values| :: values[i] in values;
    case OtherControl =>
  }

  /** A template is accepted exactly when all of this holds, whatever the order of the checks
      and of the state map. */
  lemma ValidExactly(t: Template, reg: Registry)
    ensures Valid(t, reg) <==>
            var scope := if Trim(t.scope) == "global" then GlobalScope else DeviceScope;
            && (exists head, tails :: Splits(Trim(t.id), true, false, head, tails))
            && !Blank(t.title) && Trim(t.scope) in ["", "device", "global"]
            && !Blank(t.defaultState) && t.defaultState in t.states
            && ControlFits(t.control, t.states)
            && (forall k | k in t.states :: !Blank(k)
                  && forall a | a in t.states[k].actions ::
                       a.typeId in reg.actions && ActionValid(reg.actions[a.typeId], scope, a.params))
            && (t.sync.Some? && t.sync.value.enabled ==> SyncFits(t.sync.value, t.states, scope, reg))
            && (t.expose.enabled ==>
                  (Trim(t.expose.entityType) == "switch" || Trim(t.expose.entityType) == "select")
                  && !Blank(t.expose.entitySuffix))
  {
    hide Trim, IdFrom, Splits, ControlValues, ControlFits, ActionValid, SourceValid, Lower;
    IdPatternExactly(Trim(t.id));
    ControlExactly(t.control, t.states);
    if Trim(t.id) == "" { BlankIdRefused(); }
  }

  lemma BlankIdRefused()
    ensures !IdFrom("", true, false)
  {}
}
