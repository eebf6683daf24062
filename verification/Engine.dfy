/** The automation engine: setting a capability's state runs its actions and stores the
    state; a sync reads each capability's source and moves the stored state to the truth.
    The whole world of the engine is one value, and every operation a function on it. */
module Engine {
  import opened Text
  import opened Transport
  import opened Adapters
  import opened Templates

  /** Primary keys of the two capability state tables. */
  datatype Key = DeviceKey(device: string, capability: string) | GlobalKey(capability: string)

  datatype Row = Row(enabled: bool, state: string)

  datatype Ref = Ref(scope: Scope, deviceId: string)

  datatype World = World(
    net: Net, templates: seq<Template>, devices: seq<View>, rows: map<Key, Row>, registry: Registry, configured: bool)

  datatype Cause = NotRegistered | InvalidParams | NotConfigured | ExecutionFailed

  datatype Warning = Warning(actionId: string, typeId: string, cause: Cause)

  datatype SetError =
    | DeviceIdRequired | StateRequired | CapabilityNotFound | ScopeMismatch
    | UnknownState | DeviceNotFound | NothingToPatch

  type SetResult = Result<seq<Warning>, SetError>

  datatype SyncCause = SourceMissing | SourceInvalid | ReadFailed | ApplyFailed(error: SetError)

  /** The target is the one the error text names; a missing source concerns no single target. */
  datatype SyncError = SyncError(capability: string, target: Option<Ref>, cause: SyncCause)

  // ---- Names ----

  function ColonChar(c: char): char {
    if c == '-' then ':' else c
  }

  function ColonDashes(s: string): (r: string)
    ensures |r| == |s|
  {
    seq(|s|, i requires 0 <= i < |s| => ColonChar(s[i]))
  }

  /** `normalizeDeviceID` */
  function NormalId(raw: string): string {
    ColonDashes(Trim(Upper(raw)))
  }

  function WithoutSpaces(s: string): string {
    if s == "" then ""
    else if s[0] == ' ' then WithoutSpaces(s[1..])
    else [s[0]] + WithoutSpaces(s[1..])
  }

  /** `normalizeMAC` of the device service */
  function NormalMac(raw: string): string {
    Upper(ColonDashes(WithoutSpaces(Trim(raw))))
  }

  function KeyOf(ref: Ref, capability: string): Key {
    if ref.scope == GlobalScope then GlobalKey(capability) else DeviceKey(ref.deviceId, capability)
  }

  function FindTemplate(templates: seq<Template>, id: string): Option<Template> {
    if templates == [] then None
    else if templates[0].id == id then Some(templates[0])
    else FindTemplate(templates[1..], id)
  }

  function FindDevice(devices: seq<View>, mac: string): Option<View> {
    if devices == [] then None
    else if Upper(devices[0].mac) == Upper(NormalMac(mac)) then Some(devices[0])
    else FindDevice(devices[1..], mac)
  }

  /** `currentCapabilityState`: a missing row means enabled in the default state. */
  function Current(rows: map<Key, Row>, key: Key, defaultState: string): Row {
    if key !in rows then Row(true, Trim(defaultState))
    else Row(rows[key].enabled, if Trim(rows[key].state) == "" then Trim(defaultState) else Trim(rows[key].state))
  }

  // ---- executeStateActions ----

  function WarningFor(a: ActionInstance, cause: Cause): seq<Warning> {
    [Warning(a.id, a.typeId, cause)]
  }

  ghost function ActionStep(net: Net, reg: Registry, configured: bool, target: Target, a: ActionInstance): (Net,
        seq<Warning>) {
    if a.typeId !in reg.actions then (net, WarningFor(a, NotRegistered))
    else if !ActionValid(reg.actions[a.typeId], target.scope, a.params) then (net, WarningFor(a, InvalidParams))
    else if !configured then (net, WarningFor(a, NotConfigured))
    else
      var (after, ok) := Execute(net, reg.actions[a.typeId], target, a.params);
      (after, if ok then [] else WarningFor(a, ExecutionFailed))
  }

  ghost function RunActions(net: Net, reg: Registry, configured: bool, target: Target,
        actions: seq<ActionInstance>): (Net, seq<Warning>) {
    if actions == [] then (net, [])
    else
      var (before, warnings) := RunActions(net, reg, configured, target, actions[..|actions| - 1]);
      var (after, more) := ActionStep(before, reg, configured, target, actions[|actions| - 1]);
      (after, warnings + more)
  }

  // ---- SetCapabilityState ----

  /** The target of a normalised reference; None when the device is unknown. */
  function TargetOf(devices: seq<View>, ref: Ref): Option<Target> {
    if ref.scope == GlobalScope then Some(Target(GlobalScope, None))
    else if FindDevice(devices, ref.deviceId).None? then None
    else Some(Target(DeviceScope, FindDevice(devices, ref.deviceId)))
  }

  function NormalRef(ref: Ref): Ref {
    Ref(ref.scope, if ref.scope == GlobalScope then "" else NormalId(ref.deviceId))
  }

  /** The checks before anything happens: the template and the target, or an error. */
  function Admit(w: World, rawRef: Ref, rawCapability: string, rawState: string): Result<(Template, Target), SetError> {
    var ref, capability, state := NormalRef(rawRef), Trim(rawCapability), Trim(rawState);
    if ref.scope == DeviceScope && ref.deviceId == "" then Err(DeviceIdRequired)
    else if state == "" then Err(StateRequired)
    else
      match FindTemplate(w.templates, capability)
      case None => Err(CapabilityNotFound)
      case Some(t) =>
        if NormalScope(t.scope) != ref.scope then Err(ScopeMismatch)
        else if state !in t.states then Err(UnknownState)
        else
          match TargetOf(w.devices, ref)
          case None => Err(DeviceNotFound)
          case Some(target) => Ok((t, target))
  }

  ghost function SetState(w: World, rawRef: Ref, rawCapability: string, rawState: string): (World, SetResult) {
    var key, state := KeyOf(NormalRef(rawRef), Trim(rawCapability)), Trim(rawState);
    match Admit(w, rawRef, rawCapability, rawState)
    case Err(e) => (w, Err(e))
    case Ok((t, target)) =>
      if Current(w.rows, key, t.defaultState) == Row(true, state) then (w, Ok([]))
      else
        var actions := if state in t.states then t.states[state].actions else [];
        var (net, warnings) := RunActions(w.net, w.registry, w.configured, target, actions);
        (w.(net := net, rows := w.rows[key := Row(true, state)]), Ok(warnings))
  }

  // ---- SyncOnce ----

  datatype SyncTarget = SyncTarget(ref: Ref, target: Target)

  /** `syncTargets`: one global target, or one per listed device. */
  function SyncTargets(devices: seq<View>, scope: Scope): seq<SyncTarget> {
    if scope == GlobalScope then [SyncTarget(Ref(GlobalScope, ""), Target(GlobalScope, None))]
    else seq(|devices|, i requires 0 <= i < |devices| => DeviceTarget(devices[i]))
  }

  function DeviceTarget(v: View): SyncTarget {
    SyncTarget(Ref(DeviceScope, NormalId(v.mac)), Target(DeviceScope, Some(v)))
  }

  function Mapped(s: Sync, value: bool): string {
    Trim(if value then s.whenTrue else s.whenFalse)
  }

  ghost function SyncOne(w: World, t: Template, s: Sync, kind: SourceKind, st: SyncTarget): (World, seq<SyncError>) {
    var key := KeyOf(st.ref, t.id);
    var current := Current(w.rows, key, t.defaultState);
    if !current.enabled || InternalTruth(s.mode) then (w, [])
    else if !SourceValid(kind, st.target.scope, s.sourceParams) then (w, [SyncError(t.id, Some(st.ref), SourceInvalid)])
    else
      var (net, value) := Read(w.net, kind, st.target, s.sourceParams);
      var read := w.(net := net);
      if value.None? then (read, [SyncError(t.id, Some(st.ref), ReadFailed)])
      else
        var state := Mapped(s, value.value);
        if state == "" || state == current.state then (read, [])
        else if !s.triggerActions then (read.(rows := read.rows[key := Row(current.enabled, state)]), [])
        else
          match SetState(read, st.ref, t.id, state)
          case (after, Ok(_)) => (after, [])
          case (after, Err(e)) => (after, [SyncError(t.id, Some(st.ref), ApplyFailed(e))])
  }

  ghost function SyncEach(w: World, t: Template, s: Sync, kind: SourceKind, targets: seq<SyncTarget>): (World,
        seq<SyncError>) {
    if targets == [] then (w, [])
    else
      var (before, errors) := SyncEach(w, t, s, kind, targets[..|targets| - 1]);
      var (after, more) := SyncOne(before, t, s, kind, targets[|targets| - 1]);
      (after, errors + more)
  }

  ghost function SyncTemplate(w: World, t: Template): (World, seq<SyncError>) {
    if t.sync.None? || !t.sync.value.enabled then (w, [])
    else if t.sync.value.sourceType !in w.registry.sources then (w, [SyncError(t.id, None, SourceMissing)])
    else SyncEach(w, t, t.sync.value, w.registry.sources[t.sync.value.sourceType],
      SyncTargets(w.devices, NormalScope(t.scope)))
  }

  ghost function SyncAll(w: World, templates: seq<Template>): (World, seq<SyncError>) {
    if templates == [] then (w, [])
    else
      var (before, errors) := SyncAll(w, templates[..|templates| - 1]);
      var (after, more) := SyncTemplate(before, templates[|templates| - 1]);
      (after, errors + more)
  }

  /** None: the add-on is not configured and nothing was read. */
  ghost function Synced(w: World): (World, Option<seq<SyncError>>) {
    if !w.configured then (w, None)
    else
      var (after, errors) := SyncAll(w, w.templates);
      (after, Some(errors))
  }

  // ---- Enabling, and the service's patch ----

  function Enabled(w: World, rawRef: Ref, rawCapability: string, enabled: bool): (World, Option<SetError>) {
    var ref, capability := NormalRef(rawRef), Trim(rawCapability);
    if TargetOf(w.devices, ref).None? then (w, Some(DeviceNotFound))
    else
      match FindTemplate(w.templates, capability)
      case None => (w, Some(CapabilityNotFound))
      case Some(t) =>
        if NormalScope(t.scope) != ref.scope then (w, Some(ScopeMismatch))
        else
          var key := KeyOf(ref, capability);
          var state := if key in w.rows && Trim(w.rows[key].state) != "" then w.rows[key].state else t.defaultState;
          (w.(rows := w.rows[key := Row(enabled, state)]), None)
  }

  /** `PatchDeviceCapability` and its global twin: the state first, then the flag. */
  ghost function Patched(w: World, ref: Ref, capability: string, state: Option<string>,
        enabled: Option<bool>): (World, SetResult) {
    if state.None? && enabled.None? then (w, Err(NothingToPatch))
    else
      var (changed, r) := if state.Some? then SetState(w, ref, capability, state.value) else (w, Ok([]));
      if r.Err? || enabled.None? then (changed, r)
      else
        var (after, e) := Enabled(changed, ref, capability, enabled.value);
        (after, if e.Some? then Err(e.value) else r)
  }

  // ---- The engine ----

  class AutomationEngine {
    const client: Client
    var templates: seq<Template>
    var devices: seq<View>
    var rows: map<Key, Row>
    var registry: Registry
    var configured: bool

    constructor (client: Client, templates: seq<Template>, devices: seq<View>, rows: map<Key, Row>,
          registry: Registry, configured: bool)
      ensures this.client == client
      ensures WorldState() == World(client.net, templates, devices, rows, registry, configured)
    {
      this.client := client;
      this.templates, this.devices, this.rows := templates, devices, rows;
      this.registry, this.configured := registry, configured;
    }

    ghost function WorldState(): World
      reads this, client
    {
      World(client.net, templates, devices, rows, registry, configured)
    }

    method ExecuteStateActions(target: Target, actions: seq<ActionInstance>) returns (warnings: seq<Warning>)
      modifies client
      ensures (client.net, warnings) == RunActions(old(client.net), registry, configured, target, actions)
    {
      hide Execute, ActionValid;
      warnings := [];
      for i := 0 to |actions|
        invariant (client.net, warnings) == RunActions(old(client.net), registry, configured, target, actions[..i])
      {
        var a := actions[i];
        assert actions[..i + 1][..i] == actions[..i];
        if a.typeId !in registry.actions {
          warnings := warnings + WarningFor(a, NotRegistered);
          continue;
        }
        if !ActionValid(registry.actions[a.typeId], target.scope, a.params) {
          warnings := warnings + WarningFor(a, InvalidParams);
          continue;
        }
        if !configured {
          warnings := warnings + WarningFor(a, NotConfigured);
          continue;
        }
        var ok := ExecuteAction(client, registry.actions[a.typeId], target, a.params);
        warnings := warnings + if ok then [] else WarningFor(a, ExecutionFailed);
      }
      assert actions[..|actions|] == actions;
    }

    method SetCapabilityState(rawRef: Ref, rawCapability: string, rawState: string) returns (r: SetResult)
      modifies this`rows, client
      ensures (WorldState(), r) == SetState(old(WorldState()), rawRef, rawCapability, rawState)
    {
      hide RunActions, Current;
      var ref := NormalRef(rawRef);
      if ref.scope == DeviceScope && ref.deviceId == "" { return Err(DeviceIdRequired); }
      var capability, state := Trim(rawCapability), Trim(rawState);
      if state == "" { return Err(StateRequired); }
      var found := FindTemplate(templates, capability);
      if found.None? { return Err(CapabilityNotFound); }
      var t := found.value;
      if NormalScope(t.scope) != ref.scope { return Err(ScopeMismatch); }
      if state !in t.states { return Err(UnknownState); }
      var target := TargetOf(devices, ref);
      if target.None? { return Err(DeviceNotFound); }
      var key := KeyOf(ref, capability);
      var current := Current(rows, key, t.defaultState);
      if current.enabled && current.state == state { return Ok([]); }
      var warnings := ExecuteStateActions(target.value, t.states[state].actions);
      rows := rows[key := Row(true, state)];
      r := Ok(warnings);
    }

    method SyncOneTarget(t: Template, s: Sync, kind: SourceKind, st: SyncTarget) returns (errors: seq<SyncError>)
      modifies this`rows, client
      ensures (WorldState(), errors) == SyncOne(old(WorldState()), t, s, kind, st)
    {
      hide Read, SetState, Current, SourceValid;
      var key := KeyOf(st.ref, t.id);
      var current := Current(rows, key, t.defaultState);
      if !current.enabled { return []; }
      if InternalTruth(s.mode) { return []; }
      if !SourceValid(kind, st.target.scope, s.sourceParams) { return [SyncError(t.id, Some(st.ref), SourceInvalid)]; }
      var value := ReadSource(client, kind, st.target, s.sourceParams);
      if value.None? { return [SyncError(t.id, Some(st.ref), ReadFailed)]; }
      var state := Mapped(s, value.value);
      if state == "" || state == current.state { return []; }
      if !s.triggerActions {
        rows := rows[key := Row(current.enabled, state)];
        return [];
      }
      var r := SetCapabilityState(st.ref, t.id, state);
      errors := if r.Err? then [SyncError(t.id, Some(st.ref), ApplyFailed(r.error))] else [];
    }

    method SyncOneTemplate(t: Template) returns (errors: seq<SyncError>)
      modifies this`rows, client
      ensures (WorldState(), errors) == SyncTemplate(old(WorldState()), t)
    {
      hide SyncOne;
      if t.sync.None? || !t.sync.value.enabled { return []; }
      if t.sync.value.sourceType !in registry.sources { return [SyncError(t.id, None, SourceMissing)]; }
      var kind := registry.sources[t.sync.value.sourceType];
      var targets := SyncTargets(devices, NormalScope(t.scope));
      errors := [];
      for i := 0 to |targets|
        invariant (WorldState(), errors) == SyncEach(old(WorldState()), t, t.sync.value, kind, targets[..i])
      {
        assert targets[..i + 1][..i] == targets[..i];
        var more := SyncOneTarget(t, t.sync.value, kind, targets[i]);
        errors := errors + more;
      }
      assert targets[..|targets|] == targets;
    }

    method SyncOnce() returns (r: Option<seq<SyncError>>)
      modifies this`rows, client
      ensures (WorldState(), r) == Synced(old(WorldState()))
    {
      hide SyncTemplate;
      if !configured { return None; }
      var errors: seq<SyncError> := [];
      for i := 0 to |templates|
        invariant (WorldState(), errors) == SyncAll(old(WorldState()), templates[..i])
      {
        assert templates[..i + 1][..i] == templates[..i];
        var more := SyncOneTemplate(templates[i]);
        errors := errors + more;
      }
      assert templates[..|templates|] == templates;
      r := Some(errors);
    }

    method SetCapabilityEnabled(rawRef: Ref, rawCapability: string, enabled: bool) returns (e: Option<SetError>)
      modifies this`rows
      ensures (WorldState(), e) == Enabled(old(WorldState()), rawRef, rawCapability, enabled)
    {
      hide Trim;
      var ref, capability := NormalRef(rawRef), Trim(rawCapability);
      if TargetOf(devices, ref).None? { return Some(DeviceNotFound); }
      var found := FindTemplate(templates, capability);
      if found.None? { return Some(CapabilityNotFound); }
      var t := found.value;
      if NormalScope(t.scope) != ref.scope { return Some(ScopeMismatch); }
      var key := KeyOf(ref, capability);
      var current := if key in rows then rows[key] else Row(true, t.defaultState);
      current := current.(enabled := enabled);
      if Trim(current.state) == "" { current := current.(state := t.defaultState); }
      rows := rows[key := current];
      e := None;
    }

    method PatchCapability(ref: Ref, capability: string, state: Option<string>,
          enabled: Option<bool>) returns (r: SetResult)
      modifies this`rows, client
      ensures (WorldState(), r) == Patched(old(WorldState()), ref, capability, state, enabled)
    {
      hide SetState, Enabled;
      if state.None? && enabled.None? { return Err(NothingToPatch); }
      r := Ok([]);
      if state.Some? {
        r := SetCapabilityState(ref, capability, state.value);
        if r.Err? { return r; }
      }
      if enabled.Some? {
        var e := SetCapabilityEnabled(ref, capability, enabled.value);
        if e.Some? { return Err(e.value); }
      }
    }
  }
}
