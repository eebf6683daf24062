/** Capability templates: normalisation and the validation done before one is stored. */
module Templates {
  import opened Text
  import opened Adapters

  datatype ActionInstance = ActionInstance(id: string, typeId: string, params: Params)

  datatype StateConfig = StateConfig(title: string, actions: seq<ActionInstance>)

  datatype ControlOption = ControlOption(value: string, title: string)

  datatype ControlType = Switch | Select | OtherControl

  datatype Control = Control(kind: ControlType, options: seq<ControlOption>)

  datatype Sync = Sync(
    enabled: bool, sourceType: string, sourceParams: Params,
    whenTrue: string, whenFalse: string, mode: string, triggerActions: bool)

  datatype Expose = Expose(enabled: bool, entityType: string, entitySuffix: string)

  datatype Template = Template(
    id: string, title: string, scope: string, control: Control,
    states: map<string, StateConfig>, defaultState: string, sync: Option<Sync>, expose: Expose)

  /** The registered action and state-source types. */
  datatype Registry = Registry(actions: map<string, ActionKind>, sources: map<string, SourceKind>)

  /** `NormalizeCapabilityScope` */
  function NormalScope(scope: string): Scope {
    if Trim(scope) == "global" then GlobalScope else DeviceScope
  }

  function ScopeText(scope: Scope): string {
    if scope == GlobalScope then "global" else "device"
  }

  predicate InternalTruth(mode: string) {
    Lower(Trim(mode)) == "internal_truth"
  }

  // ---- normalizeTemplate ----

  function NormalState(s: StateConfig): StateConfig {
    s.(title := Trim(s.title))
  }

  function Normalized(t: Template): Template {
    t.(id := Trim(t.id), title := Trim(t.title), scope := ScopeText(NormalScope(t.scope)),
       defaultState := Trim(t.defaultState),
       control := if t.control.kind == Switch && t.control.options == []
                  then Control(Switch, [ControlOption("on", "On"), ControlOption("off", "Off")]) else t.control,
       states := map k | k in t.states :: NormalState(t.states[k]),
       sync := if t.sync.None? then None
               else Some(t.sync.value.(mode := if InternalTruth(t.sync.value.mode) then "internal_truth"
                 else "external_truth")))
  }

  method NormalizeTemplate(t: Template) returns (r: Template)
    ensures r == Normalized(t)
  {
    hide Trim, NormalState;
    r := t.(id := Trim(t.id), title := Trim(t.title), scope := ScopeText(NormalScope(t.scope)), defaultState :=
      Trim(t.defaultState));
    if r.control.kind == Switch && r.control.options == [] {
      r := r.(control := Control(Switch, [ControlOption("on", "On"), ControlOption("off", "Off")]));
    }
    var left := t.states.Keys;
    var states := t.states;
    while left != {}
      invariant left <= t.states.Keys && states.Keys == t.states.Keys
      invariant forall k | k in t.states :: states[k] == if k in left then t.states[k] else NormalState(t.states[k])
      decreases left
    {
      var k :| k in left;
      states := states[k := NormalState(states[k])];
      left := left - {k};
    }
    assert states == map k | k in t.states :: NormalState(t.states[k]);
    r := r.(states := states);
    if r.sync.Some? {
      r := r.(sync := Some(r.sync.value.(mode := if InternalTruth(r.sync.value.mode) then "internal_truth"
        else "external_truth")));
    }
  }

  // ---- validateControl ----

  predicate OptionIn(options: seq<ControlOption>, value: string) {
    exists o | o in options :: o.value == value
  }

  function TrimmedValues(options: seq<ControlOption>): (values: seq<string>)
    ensures |values| == |options|
    ensures forall i | 0 <= i < |options| :: values[i] == Trim(options[i].value)
  {
    seq(|options|, i requires 0 <= i < |options| => Trim(options[i].value))
  }

  predicate AllDistinct(values: seq<string>) {
    forall i, j | 0 <= i < j < |values| :: values[i] != values[j]
  }

  /** The states a control can ask for; None when the control is refused. */
  function ControlValues(c: Control): Option<seq<string>> {
    match c.kind
    case Switch =>
      if c.options == [] || (|c.options| == 2 && OptionIn(c.options, "on") && OptionIn(c.options, "off"))
      then Some(["on", "off"]) else None
    case Select =>
      var values := TrimmedValues(c.options);
      if |values| >= 2 && "" !in values && AllDistinct(values) then Some(values) else None
    case OtherControl => None
  }

  method ValidateControl(c: Control) returns (r: Option<seq<string>>)
    ensures r == ControlValues(c)
  {
    hide Trim;
    match c.kind {
      case Switch =>
        if c.options == [] { return Some(["on", "off"]); }
        if |c.options| != 2 { return None; }
        if !OptionIn(c.options, "on") || !OptionIn(c.options, "off") { return None; }
        return Some(["on", "off"]);
      case Select =>
        if |c.options| < 2 { return None; }
        var values: seq<string> := [];
        var seen: set<string> := {};
        for i := 0 to |c.options|
          invariant values == TrimmedValues(c.options)[..i]
          invariant "" !in values && AllDistinct(values) && forall v :: v in seen <==> v in values
        {
          var value := Trim(c.options[i].value);
          assert TrimmedValues(c.options)[i] == value;
          if value == "" { return None; }
          if value in seen {
            var j :| 0 <= j < |values| && values[j] == value;
            assert TrimmedValues(c.options)[j] == TrimmedValues(c.options)[i];
            return None;
          }
          seen := seen + {value};
          values := values + [value];
        }
        assert TrimmedValues(c.options)[..|c.options|] == TrimmedValues(c.options);
        return Some(values);
      case OtherControl => return None;
    }
  }

  // ---- validateTemplate ----

  /** `^[a-z0-9]+(\.[a-z0-9_]+)+$`, scanned from inside a part that has `some` characters. */
  predicate IdFrom(s: string, first: bool, some: bool) {
    if s == "" then !first && some
    else if s[0] == '.' then some && IdFrom(s[1..], false, false)
    else ('a' <= s[0] <= 'z' || '0' <= s[0] <= '9' || (!first && s[0] == '_')) && IdFrom(s[1..], first, true)
  }

  datatype Problem =
    | IdRequired | IdPattern | LabelRequired | ScopeUnknown | StatesRequired | DefaultRequired
    | ControlRefused | OptionUndeclared | DefaultUndeclared | StateRefused
    | SourceRequired | SourceUnknown | SourceRefused | WhenTrueUndeclared | WhenFalseUndeclared | ModeUnknown
    | EntityTypeUnknown | EntitySuffixRequired

  predicate ActionAccepted(a: ActionInstance, scope: Scope, reg: Registry) {
    a.typeId in reg.actions && ActionValid(reg.actions[a.typeId], scope, a.params)
  }

  predicate StateAccepted(id: string, s: StateConfig, scope: Scope, reg: Registry) {
    Trim(id) != "" && forall a | a in s.actions :: ActionAccepted(a, scope, reg)
  }

  function SyncProblem(s: Sync, states: map<string, StateConfig>, scope: Scope, reg: Registry): Option<Problem> {
    if Trim(s.sourceType) == "" then Some(SourceRequired)
    else if s.sourceType !in reg.sources then Some(SourceUnknown)
    else if !SourceValid(reg.sources[s.sourceType], scope, s.sourceParams) then Some(SourceRefused)
    else if Trim(s.whenTrue) != "" && s.whenTrue !in states then Some(WhenTrueUndeclared)
    else if Trim(s.whenFalse) != "" && s.whenFalse !in states then Some(WhenFalseUndeclared)
    else if Lower(Trim(s.mode)) !in ["", "external_truth", "internal_truth"] then Some(ModeUnknown)
    else None
  }

  function ExposeProblem(e: Expose): Option<Problem> {
    if !e.enabled then None
    else if Trim(e.entityType) != "switch" && Trim(e.entityType) != "select" then Some(EntityTypeUnknown)
    else if Trim(e.entitySuffix) == "" then Some(EntitySuffixRequired)
    else None
  }

  /** The first reason to refuse a template; the order of the state map never matters,
      since all its failures are one problem here. */
  function ProblemOf(t: Template, reg: Registry): Option<Problem> {
    var scope := NormalScope(t.scope);
    if Trim(t.id) == "" then Some(IdRequired)
    else if !IdFrom(Trim(t.id), true, false) then Some(IdPattern)
    else if Trim(t.title) == "" then Some(LabelRequired)
    else if Trim(t.scope) !in ["", "device", "global"] then Some(ScopeUnknown)
    else if t.states == map[] then Some(StatesRequired)
    else if Trim(t.defaultState) == "" then Some(DefaultRequired)
    else if ControlValues(t.control).None? then Some(ControlRefused)
    else if exists v | v in ControlValues(t.control).value :: v !in t.states then Some(OptionUndeclared)
    else if t.defaultState !in t.states then Some(DefaultUndeclared)
    else if exists k | k in t.states :: !StateAccepted(k, t.states[k], scope, reg) then Some(StateRefused)
    else if t.sync.Some? && t.sync.value.enabled && SyncProblem(t.sync.value, t.states, scope, reg).Some?
      then SyncProblem(t.sync.value, t.states, scope, reg)
    else ExposeProblem(t.expose)
  }

  predicate Valid(t: Template, reg: Registry) {
    ProblemOf(t, reg).None?
  }
}
