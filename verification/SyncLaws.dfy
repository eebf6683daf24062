/** Laws of whole syncs: what a sync never touches, that it never undoes a user's change,
    and that it converges. */
module SyncLaws {
  import opened Text
  import opened Devices
  import opened Transport
  import opened AddressLists
  import opened FirewallRules
  import opened Adapters
  import opened Templates
  import opened Engine

  // ---- The stored world ----

  /** Device rows carry normalised, distinct hardware addresses. */
  ghost predicate CanonicalDevices(devices: seq<View>) {
    && (forall v | v in devices :: v.mac != "" && NormalId(v.mac) == v.mac && NormalMac(v.mac) == v.mac)
    && (forall i, j | 0 <= i < j < |devices| :: devices[i].mac != devices[j].mac)
  }

  ghost predicate TrimmedIds(templates: seq<Template>) {
    forall t | t in templates :: Trim(t.id) == t.id
  }

  ghost predicate DistinctIds(templates: seq<Template>) {
    forall i, j | 0 <= i < j < |templates| :: templates[i].id != templates[j].id
  }

  ghost predicate Proper(w: World) {
    DeviceOk(w.net.device) && TrimmedIds(w.templates) && DistinctIds(w.templates) && CanonicalDevices(w.devices)
  }

  ghost predicate SameSetup(w: World, v: World) {
    w.templates == v.templates && w.devices == v.devices && w.registry == v.registry && w.configured == v.configured
  }

  lemma UpperTwice(s: string)
    ensures Upper(Upper(s)) == Upper(s)
  {}

  lemma MapsTail(s: string)
    requires s != ""
    ensures Upper(s)[1..] == Upper(s[1..])
    ensures ColonDashes(s)[1..] == ColonDashes(s[1..])
  {}

  lemma MapsFront(s: string)
    requires s != ""
    ensures Upper(s)[..|s| - 1] == Upper(s[..|s| - 1])
    ensures ColonDashes(s)[..|s| - 1] == ColonDashes(s[..|s| - 1])
  {}

  lemma {:induction false} UpperTrimLeft(s: string)
    ensures Upper(TrimLeft(s)) == TrimLeft(Upper(s)) && ColonDashes(TrimLeft(s)) == TrimLeft(ColonDashes(s))
  {
    if s != "" && IsSpace(s[0]) {
      UpperTrimLeft(s[1..]);
      MapsTail(s);
    }
  }

  lemma {:induction false} UpperTrimRight(s: string)
    ensures Upper(TrimRight(s)) == TrimRight(Upper(s)) && ColonDashes(TrimRight(s)) == TrimRight(ColonDashes(s))
  {
    if s != "" && IsSpace(s[|s| - 1]) {
      UpperTrimRight(s[..|s| - 1]);
      MapsFront(s);
    }
  }

  lemma TrimCommutes(s: string)
    ensures Upper(Trim(s)) == Trim(Upper(s)) && ColonDashes(Trim(s)) == Trim(ColonDashes(s))
  {
    UpperTrimLeft(s);
    UpperTrimRight(TrimLeft(s));
  }

  lemma NormalIdTwice(s: string)
    ensures NormalId(NormalId(s)) == NormalId(s)
  {
    var t := Trim(Upper(s));
    TrimIsTrimmed(Upper(s));
    TrimCommutes(Upper(s));
    UpperTwice(s);
    assert Upper(t) == t;
    assert Upper(ColonDashes(t)) == ColonDashes(t) by {
      forall i | 0 <= i < |t| ensures UpperChar(ColonDashes(t)[i]) == ColonDashes(t)[i] {
        assert UpperChar(t[i]) == Upper(t)[i];
      }
    }
    TrimCommutes(t);
    assert ColonDashes(ColonDashes(t)) == ColonDashes(t);
  }

  lemma {:induction false} FindsItself(devices: seq<View>, v: View)
    requires CanonicalDevices(devices) && v in devices
    ensures FindDevice(devices, v.mac) == Some(v)
  {
    var u := devices[0];
    assert u in devices;
    UpperTwice(ColonDashes(WithoutSpaces(Trim(v.mac))));
    UpperTwice(ColonDashes(WithoutSpaces(Trim(u.mac))));
    if u.mac != v.mac {
      assert v in devices[1..];
      FindsItself(devices[1..], v);
    } else {
      var i :| 0 <= i < |devices| && devices[i] == v;
    }
  }

  lemma {:induction false} TemplateFindsItself(templates: seq<Template>, t: Template)
    requires DistinctIds(templates) && t in templates
    ensures FindTemplate(templates, t.id) == Some(t)
  {
    if templates[0].id != t.id {
      assert t in templates[1..];
      TemplateFindsItself(templates[1..], t);
    } else {
      var i :| 0 <= i < |templates| && templates[i] == t;
    }
  }

  /** A target of a sync is a normal reference of the template's scope. */
  lemma SyncTargetRef(devices: seq<View>, scope: Scope, st: SyncTarget)
    requires st in SyncTargets(devices, scope)
    ensures NormalRef(st.ref) == st.ref && st.ref.scope == scope && st.target.scope == scope
  {
    if scope == DeviceScope {
      var i :| 0 <= i < |devices| && st == DeviceTarget(devices[i]);
      NormalIdTwice(devices[i].mac);
    }
  }

  lemma SyncTargetResolves(devices: seq<View>, scope: Scope, st: SyncTarget)
    requires CanonicalDevices(devices) && st in SyncTargets(devices, scope)
    ensures TargetOf(devices, st.ref) == Some(st.target)
    ensures scope == DeviceScope ==> st.ref.deviceId != ""
    ensures forall other | other in SyncTargets(devices, scope) && other.ref == st.ref :: other == st
  {
    hide NormalId, NormalMac, FindDevice;
    if scope == DeviceScope {
      var i :| 0 <= i < |devices| && st == DeviceTarget(devices[i]);
      assert devices[i] in devices;
      FindsItself(devices, devices[i]);
      forall other | other in SyncTargets(devices, scope) && other.ref == st.ref ensures other == st {
        var j :| 0 <= j < |devices| && other == DeviceTarget(devices[j]);
        assert devices[j] in devices;
      }
    }
  }

  // ---- What actions spare ----

  /** No action, run against the target, sets a fact that could interfere with `f`. */
  ghost predicate Spares(actions: seq<ActionInstance>, reg: Registry, target: Target, f: Fact) {
    forall a | a in actions && a.typeId in reg.actions ::
      var written := ActionFact(reg.actions[a.typeId], target, a.params);
      written.Some? ==> Independent(written.value.0, f)
  }

  lemma {:induction false} ActionsKeepIds(net: Net, reg: Registry, configured: bool, target: Target,
        actions: seq<ActionInstance>)
    requires DeviceOk(net.device)
    ensures DeviceOk(RunActions(net, reg, configured, target, actions).0.device)
  {
    hide Execute, DeviceOk, ActionFact, Truth;
    if actions != [] {
      var front, a := actions[..|actions| - 1], actions[|actions| - 1];
      ActionsKeepIds(net, reg, configured, target, front);
      var before := RunActions(net, reg, configured, target, front).0;
      if a.typeId in reg.actions { ExecuteSetsItsFact(before, reg.actions[a.typeId], target, a.params); }
    }
  }

  lemma {:induction false} ActionsSpare(net: Net, reg: Registry, configured: bool, target: Target,
        actions: seq<ActionInstance>, f: Fact)
    requires DeviceOk(net.device) && Spares(actions, reg, target, f)
    ensures Truth(RunActions(net, reg, configured, target, actions).0.device, f) == Truth(net.device, f)
  {
    hide Execute, DeviceOk, ActionFact, Truth;
    if actions != [] {
      var front, a := actions[..|actions| - 1], actions[|actions| - 1];
      assert a in actions && forall x | x in front :: x in actions;
      ActionsKeepIds(net, reg, configured, target, front);
      ActionsSpare(net, reg, configured, target, front, f);
      var before := RunActions(net, reg, configured, target, front).0;
      if a.typeId in reg.actions { ExecuteSetsItsFact(before, reg.actions[a.typeId], target, a.params); }
    }
  }

  // ---- One step of a sync ----

  /** A step writes at most its own row, and only if that was enabled and not internal. */
  ghost predicate OwnRowOnly(w: World, after: World, key: Key, s: Sync, defaultState: string) {
    || after.rows == w.rows
    || (&& Current(w.rows, key, defaultState).enabled && !InternalTruth(s.mode)
        && key in after.rows && after.rows[key].enabled && after.rows == w.rows[key := after.rows[key]])
  }

  lemma SyncOneEffect(w: World, t: Template, s: Sync, kind: SourceKind, st: SyncTarget)
    requires DeviceOk(w.net.device) && Trim(t.id) == t.id && NormalRef(st.ref) == st.ref
    ensures var after := SyncOne(w, t, s, kind, st).0;
            SameSetup(w, after) && DeviceOk(after.net.device)
              && OwnRowOnly(w, after, KeyOf(st.ref, t.id), s, t.defaultState)
    ensures !s.triggerActions ==> SyncOne(w, t, s, kind, st).0.net.device == w.net.device
  {
    hide Read, DeviceOk, SourceValid, Mapped, SetState, Trim, Truth, SourceFact;
    ReadTellsTheTruth(w.net, kind, st.target, s.sourceParams);
    var (net, value) := Read(w.net, kind, st.target, s.sourceParams);
    if value.Some? {
      SetStateEffect(w.(net := net), st.ref, t.id, Mapped(s, value.value));
    }
  }

  lemma SetStateEffect(w: World, ref: Ref, capability: string, state: string)
    requires DeviceOk(w.net.device)
    ensures var (after, r) := SetState(w, ref, capability, state);
            var key := KeyOf(NormalRef(ref), Trim(capability));
            && SameSetup(w, after) && DeviceOk(after.net.device)
            && (after.rows == w.rows || after.rows == w.rows[key := Row(true, Trim(state))])
  {
    hide DeviceOk, RunActions, Trim, Current;
    match Admit(w, ref, capability, state)
    case Err(_) =>
    case Ok((t, target)) =>
      var actions := if Trim(state) in t.states then t.states[Trim(state)].actions else [];
      ActionsKeepIds(w.net, w.registry, w.configured, target, actions);
  }

  // ---- Frame ----

  predicate Flag(rows: map<Key, Row>, key: Key) {
    key !in rows || rows[key].enabled
  }

  predicate SameAt(a: map<Key, Row>, b: map<Key, Row>, key: Key) {
    if key in a then key in b && a[key] == b[key] else key !in b
  }

  /** Effective enabled flags stand, and so do disabled rows and rows of other capabilities
      than those listed. */
  ghost predicate Framed(w: World, after: World, touched: set<string>) {
    && SameSetup(w, after) && DeviceOk(after.net.device)
    && forall key ::
         && Flag(after.rows, key) == Flag(w.rows, key)
         && ((key.capability !in touched || !Flag(w.rows, key)) ==> SameAt(w.rows, after.rows, key))
  }

  lemma FramedCompose(a: World, b: World, c: World, first: set<string>, later: set<string>)
    requires Framed(a, b, first) && Framed(b, c, later)
    ensures Framed(a, c, first + later)
  {
    hide DeviceOk;
    forall key
      ensures Flag(c.rows, key) == Flag(a.rows, key)
      ensures (key.capability !in first + later || !Flag(a.rows, key)) ==> SameAt(a.rows, c.rows, key)
    {
      assert Flag(b.rows, key) == Flag(a.rows, key) && Flag(c.rows, key) == Flag(b.rows, key);
    }
  }

  lemma OwnRowFramed(w: World, after: World, st: SyncTarget, t: Template, s: Sync)
    requires SameSetup(w, after) && DeviceOk(after.net.device)
    requires OwnRowOnly(w, after, KeyOf(st.ref, t.id), s, t.defaultState)
    ensures Framed(w, after, if InternalTruth(s.mode) then {} else {t.id})
  {
    hide DeviceOk, Trim;
  }

  lemma {:induction false} SyncEachFramed(w: World, t: Template, s: Sync, kind: SourceKind, targets: seq<SyncTarget>)
    requires DeviceOk(w.net.device) && Trim(t.id) == t.id && forall st | st in targets :: NormalRef(st.ref) == st.ref
    ensures Framed(w, SyncEach(w, t, s, kind, targets).0, if InternalTruth(s.mode) then {} else {t.id})
  {
    hide SyncOne, OwnRowOnly, Framed, DeviceOk, NormalRef, Trim;
    var own := if InternalTruth(s.mode) then {} else {t.id};
    if targets == [] {
      FramedSelf(w, own);
    } else {
      var front, st := targets[..|targets| - 1], targets[|targets| - 1];
      assert st in targets && forall x | x in front :: x in targets;
      SyncEachFramed(w, t, s, kind, front);
      var before := SyncEach(w, t, s, kind, front).0;
      FramedKeepsIds(w, before, own);
      SyncOneEffect(before, t, s, kind, st);
      var after := SyncOne(before, t, s, kind, st).0;
      OwnRowFramed(before, after, st, t, s);
      FramedCompose(w, before, after, own, own);
      assert own + own == own;
    }
  }

  lemma FramedSelf(w: World, touched: set<string>)
    requires DeviceOk(w.net.device)
    ensures Framed(w, w, touched)
  {}

  lemma FramedKeepsIds(w: World, after: World, touched: set<string>)
    requires Framed(w, after, touched)
    ensures DeviceOk(after.net.device) && SameSetup(w, after)
  {}

  /** The capabilities whose rows a sync may write: those with external truth. */
  ghost function Writable(templates: seq<Template>): set<string> {
    set t | t in templates && t.sync.Some? && t.sync.value.enabled && !InternalTruth(t.sync.value.mode) :: t.id
  }

  lemma {:induction false} SyncAllFramed(w: World, templates: seq<Template>)
    requires DeviceOk(w.net.device) && TrimmedIds(templates)
    ensures Framed(w, SyncAll(w, templates).0, Writable(templates))
  {
    hide SyncEach, Framed, DeviceOk, Trim, Writable, SyncTargets;
    FramedSelf(w, Writable(templates));
    if templates != [] {
      var front, t := templates[..|templates| - 1], templates[|templates| - 1];
      assert t in templates && forall x | x in front :: x in templates;
      SyncAllFramed(w, front);
      var before := SyncAll(w, front).0;
      FramedKeepsIds(w, before, Writable(front));
      var own := Writable([t]);
      SyncTemplateFramed(before, t);
      FramedCompose(w, before, SyncTemplate(before, t).0, Writable(front), own);
      WritableSplit(templates);
    }
  }

  lemma WritableSplit(templates: seq<Template>)
    requires templates != []
    ensures Writable(templates) == Writable(templates[..|templates| - 1]) + Writable([templates[|templates| - 1]])
  {
    assert templates == templates[..|templates| - 1] + [templates[|templates| - 1]];
  }

  lemma SyncTemplateFramed(w: World, t: Template)
    requires DeviceOk(w.net.device) && Trim(t.id) == t.id
    ensures Framed(w, SyncTemplate(w, t).0, Writable([t]))
  {
    hide SyncEach, Framed, DeviceOk, Trim, SyncTargets, NormalRef;
    FramedSelf(w, Writable([t]));
    if t.sync.Some? && t.sync.value.enabled && t.sync.value.sourceType in w.registry.sources {
      var s := t.sync.value;
      var targets := SyncTargets(w.devices, NormalScope(t.scope));
      forall st | st in targets ensures NormalRef(st.ref) == st.ref {
        SyncTargetRef(w.devices, NormalScope(t.scope), st);
      }
      SyncEachFramed(w, t, s, w.registry.sources[s.sourceType], targets);
      assert Writable([t]) == if InternalTruth(s.mode) then {} else {t.id};
    }
  }

  /** For all templates, devices and plans of faults: a sync alters no disabled row, no row of
      a capability without external truth, and no effective enabled flag. */
  lemma SyncFrame(w: World, key: Key)
    requires DeviceOk(w.net.device) && TrimmedIds(w.templates)
    ensures var after := Synced(w).0;
            && Flag(after.rows, key) == Flag(w.rows, key)
            && (!Flag(w.rows, key) ==> SameAt(w.rows, after.rows, key))
            && (key.capability !in Writable(w.templates) ==> SameAt(w.rows, after.rows, key))
  {
    hide SyncAll;
    SyncAllFramed(w, w.templates);
  }

  // ---- A user's change stands ----

  /** The template maps true and false to two states, whose single actions set exactly the
      fact that its source reads, to true and to false. */
  ghost predicate Pairs(w: World, t: Template, st: SyncTarget, f: Fact) {
    && t in w.templates && st in SyncTargets(w.devices, NormalScope(t.scope))
    && t.sync.Some? && t.sync.value.enabled && t.sync.value.sourceType in w.registry.sources
    && SourceFact(w.registry.sources[t.sync.value.sourceType], st.target, t.sync.value.sourceParams) == Some(f)
    && Mapped(t.sync.value, true) != Mapped(t.sync.value, false)
    && SetsTo(w, t, st, f, true) && SetsTo(w, t, st, f, false)
  }

  ghost predicate SetsTo(w: World, t: Template, st: SyncTarget, f: Fact, value: bool)
    requires t.sync.Some?
  {
    var state := Mapped(t.sync.value, value);
    && state != "" && state in t.states && |t.states[state].actions| == 1
    && var a := t.states[state].actions[0];
       a.typeId in w.registry.actions
         && ActionFact(w.registry.actions[a.typeId], st.target, a.params) == Some((f, value))
  }

  /** No other capability or target that a sync may act for writes the fact. */
  ghost predicate NoOtherWriter(w: World, t: Template, st: SyncTarget, f: Fact) {
    forall u, other, value |
      && u in w.templates && u.sync.Some? && u.sync.value.triggerActions
      && other in SyncTargets(w.devices, NormalScope(u.scope))
      && (u != t || other != st)
      && Mapped(u.sync.value, value) in u.states ::
        Spares(u.states[Mapped(u.sync.value, value)].actions, w.registry, other.target, f)
  }

  /** The row and the device agree on the value. */
  ghost predicate Holds(w: World, t: Template, st: SyncTarget, f: Fact, value: bool)
    requires t.sync.Some?
  {
    var key := KeyOf(st.ref, t.id);
    && key in w.rows && w.rows[key] == Row(true, Mapped(t.sync.value, value))
    && Truth(w.net.device, f) == Some(value)
  }

  lemma AdmitsSyncTarget(w: World, t: Template, st: SyncTarget, state: string)
    requires Proper(w) && t in w.templates && st in SyncTargets(w.devices, NormalScope(t.scope)) && Trim(state) == state
    ensures Admit(w, st.ref, t.id, state) ==
            if state == "" then Err(StateRequired) else if state !in t.states then Err(UnknownState)
              else Ok((t, st.target))
  {
    hide DeviceOk;
    SyncTargetRef(w.devices, NormalScope(t.scope), st);
    SyncTargetResolves(w.devices, NormalScope(t.scope), st);
    TemplateFindsItself(w.templates, t);
  }

  lemma AdmitDependsOnNames(w: World, ref: Ref, capability: string, state: string, ref2: Ref, capability2: string,
        state2: string)
    requires NormalRef(ref) == NormalRef(ref2) && Trim(capability) == Trim(capability2) && Trim(state) == Trim(state2)
    ensures Admit(w, ref, capability, state) == Admit(w, ref2, capability2, state2)
    ensures SetState(w, ref, capability, state) == SetState(w, ref2, capability2, state2)
  {
    hide Trim;
    assert ref.scope == ref2.scope;
  }

  lemma OneActionNoWarning(net: Net, reg: Registry, configured: bool, target: Target, a: ActionInstance)
    requires RunActions(net, reg, configured, target, [a]).1 == []
    ensures a.typeId in reg.actions && Execute(net, reg.actions[a.typeId], target, a.params).1
    ensures RunActions(net, reg, configured, target, [a]).0 == Execute(net, reg.actions[a.typeId], target, a.params).0
  {
    hide Execute;
    assert [a][..0] == [] && RunActions(net, reg, configured, target, []) == (net, []);
    assert RunActions(net, reg, configured, target, [a])
      == (ActionStep(net, reg, configured, target, a).0, [] + ActionStep(net, reg, configured, target, a).1);
  }

  /** A set that runs its action without warning makes row and device agree. */
  lemma SetEstablishes(w: World, t: Template, st: SyncTarget, f: Fact, value: bool, ref: Ref, capability: string,
        state: string)
    requires Proper(w) && Pairs(w, t, st, f)
    requires NormalRef(ref) == st.ref && Trim(capability) == t.id && Trim(state) == Mapped(t.sync.value, value)
    requires Current(w.rows, KeyOf(st.ref, t.id), t.defaultState) != Row(true, Trim(state))
    requires SetState(w, ref, capability, state).1 == Ok([])
    ensures var after := SetState(w, ref, capability, state).0;
            SameSetup(w, after) && DeviceOk(after.net.device) && Holds(after, t, st, f, value)
  {
    hide DeviceOk, Execute, ActionFact, SourceFact, Truth, Current, RunActions;
    TrimIsTrimmed(state);
    SyncTargetRef(w.devices, NormalScope(t.scope), st);
    AdmitsSyncTarget(w, t, st, Trim(state));
    AdmitDependsOnNames(w, ref, capability, state, st.ref, t.id, Trim(state));
    SetStateEffect(w, ref, capability, state);
    assert SetsTo(w, t, st, f, value);
    var a := t.states[Trim(state)].actions[0];
    assert t.states[Trim(state)].actions == [a];
    OneActionNoWarning(w.net, w.registry, w.configured, st.target, a);
    ExecuteSetsItsFact(w.net, w.registry.actions[a.typeId], st.target, a.params);
  }

  lemma SyncOneAtHome(w: World, t: Template, st: SyncTarget, f: Fact, value: bool)
    requires Proper(w) && Pairs(w, t, st, f) && Holds(w, t, st, f, value)
    ensures var after := SyncOne(w, t, t.sync.value, w.registry.sources[t.sync.value.sourceType], st).0;
            after.rows == w.rows && after.net.device == w.net.device
  {
    hide DeviceOk, Read, SourceFact, Truth, SourceValid, SetState, ActionFact, SyncTargets;
    var s := t.sync.value;
    var kind := w.registry.sources[s.sourceType];
    ReadTellsTheTruth(w.net, kind, st.target, s.sourceParams);
    TrimIsTrimmed(if value then s.whenTrue else s.whenFalse);
  }

  lemma SyncOneElsewhere(w: World, u: Template, other: SyncTarget, f: Fact)
    requires Proper(w) && u in w.templates && u.sync.Some? && u.sync.value.sourceType in w.registry.sources
    requires other in SyncTargets(w.devices, NormalScope(u.scope))
    requires u.sync.value.triggerActions ==>
               forall value | Mapped(u.sync.value, value) in u.states ::
                 Spares(u.states[Mapped(u.sync.value, value)].actions, w.registry, other.target, f)
    ensures var after := SyncOne(w, u, u.sync.value, w.registry.sources[u.sync.value.sourceType], other).0;
            Truth(after.net.device, f) == Truth(w.net.device, f)
  {
    hide DeviceOk, Read, SourceFact, Truth, SourceValid, Spares, RunActions, Current;
    var s := u.sync.value;
    var kind := w.registry.sources[s.sourceType];
    ReadTellsTheTruth(w.net, kind, other.target, s.sourceParams);
    var (net, read) := Read(w.net, kind, other.target, s.sourceParams);
    if read.Some? {
      var v := w.(net := net);
      var state := Mapped(s, read.value);
      TrimIsTrimmed(if read.value then s.whenTrue else s.whenFalse);
      AdmitsSyncTarget(v, u, other, state);
      if s.triggerActions && state in u.states {
        ActionsSpare(v.net, v.registry, v.configured, other.target, u.states[state].actions, f);
      }
    }
  }

  /** What every step of a sync keeps. */
  ghost predicate Kept(w: World, t: Template, st: SyncTarget, f: Fact, value: bool) {
    Proper(w) && Pairs(w, t, st, f) && NoOtherWriter(w, t, st, f) && Holds(w, t, st, f, value)
  }

  lemma KeptTransfers(w: World, after: World, t: Template, st: SyncTarget, f: Fact, value: bool)
    requires Kept(w, t, st, f, value)
    requires SameSetup(w, after) && DeviceOk(after.net.device) && Truth(after.net.device, f) == Truth(w.net.device, f)
    requires SameAt(w.rows, after.rows, KeyOf(st.ref, t.id))
    ensures Kept(after, t, st, f, value)
  {
    hide DeviceOk, Truth, Spares, SourceFact, ActionFact, Mapped;
    assert SetsTo(after, t, st, f, true) && SetsTo(after, t, st, f, false);
  }

  lemma DistinctKeys(w: World, t: Template, st: SyncTarget, u: Template, other: SyncTarget)
    requires Proper(w) && t in w.templates && u in w.templates
    requires st in SyncTargets(w.devices, NormalScope(t.scope)) && other in SyncTargets(w.devices, NormalScope(u.scope))
    requires u != t || other != st
    ensures KeyOf(st.ref, t.id) != KeyOf(other.ref, u.id)
  {
    hide DeviceOk;
    TemplateFindsItself(w.templates, t);
    TemplateFindsItself(w.templates, u);
    SyncTargetRef(w.devices, NormalScope(t.scope), st);
    SyncTargetRef(w.devices, NormalScope(u.scope), other);
    SyncTargetResolves(w.devices, NormalScope(t.scope), st);
  }

  lemma SyncOneKeeps(w: World, t: Template, st: SyncTarget, f: Fact, value: bool, u: Template, other: SyncTarget)
    requires Kept(w, t, st, f, value) && u in w.templates && other in SyncTargets(w.devices, NormalScope(u.scope))
    requires u.sync.Some? && u.sync.value.sourceType in w.registry.sources
    ensures Kept(SyncOne(w, u, u.sync.value, w.registry.sources[u.sync.value.sourceType], other).0, t, st, f, value)
  {
    hide DeviceOk, SyncOne, Truth, Spares, SourceFact, ActionFact, Mapped;
    var after := SyncOne(w, u, u.sync.value, w.registry.sources[u.sync.value.sourceType], other).0;
    SyncTargetRef(w.devices, NormalScope(u.scope), other);
    SyncOneEffect(w, u, u.sync.value, w.registry.sources[u.sync.value.sourceType], other);
    if u == t && other == st {
      SyncOneAtHome(w, t, st, f, value);
    } else {
      SyncOneElsewhere(w, u, other, f);
      DistinctKeys(w, t, st, u, other);
    }
    KeptTransfers(w, after, t, st, f, value);
  }

  lemma {:induction false} SyncEachKeeps(w: World, t: Template, st: SyncTarget, f: Fact, value: bool, u: Template,
        targets: seq<SyncTarget>)
    requires Kept(w, t, st, f, value) && u in w.templates
    requires forall x | x in targets :: x in SyncTargets(w.devices, NormalScope(u.scope))
    requires u.sync.Some? && u.sync.value.sourceType in w.registry.sources
    ensures var after := SyncEach(w, u, u.sync.value, w.registry.sources[u.sync.value.sourceType], targets).0;
            Kept(after, t, st, f, value) && SameSetup(w, after)
  {
    hide SyncOne, Kept, SyncTargets;
    if targets != [] {
      var front, last := targets[..|targets| - 1], targets[|targets| - 1];
      assert last in targets && forall x | x in front :: x in targets;
      SyncEachKeeps(w, t, st, f, value, u, front);
      var before := SyncEach(w, u, u.sync.value, w.registry.sources[u.sync.value.sourceType], front).0;
      SyncOneKeeps(before, t, st, f, value, u, last);
      KeptIsProper(before, t, st, f, value);
      SyncTargetRef(w.devices, NormalScope(u.scope), last);
      SyncOneEffect(before, u, u.sync.value, w.registry.sources[u.sync.value.sourceType], last);
    }
  }

  lemma KeptIsProper(w: World, t: Template, st: SyncTarget, f: Fact, value: bool)
    requires Kept(w, t, st, f, value)
    ensures DeviceOk(w.net.device) && TrimmedIds(w.templates)
  {}

  lemma {:induction false} SyncAllKeeps(w: World, t: Template, st: SyncTarget, f: Fact, value: bool,
        templates: seq<Template>)
    requires Kept(w, t, st, f, value) && forall u | u in templates :: u in w.templates
    ensures Kept(SyncAll(w, templates).0, t, st, f, value) && SameSetup(w, SyncAll(w, templates).0)
  {
    hide SyncEach, Kept, SyncTargets;
    if templates != [] {
      var front, u := templates[..|templates| - 1], templates[|templates| - 1];
      assert u in templates && forall x | x in front :: x in templates;
      SyncAllKeeps(w, t, st, f, value, front);
      var before := SyncAll(w, front).0;
      if u.sync.Some? && u.sync.value.enabled && u.sync.value.sourceType in before.registry.sources {
        SyncEachKeeps(before, t, st, f, value, u, SyncTargets(before.devices, NormalScope(u.scope)));
      }
    }
  }

  /** `n` syncs in a row, each with faults of its own. */
  ghost function SyncTimes(w: World, n: nat): World {
    if n == 0 then w else Synced(SyncTimes(w, n - 1)).0
  }

  lemma {:induction false} SyncTimesKeeps(w: World, t: Template, st: SyncTarget, f: Fact, value: bool, n: nat)
    requires Kept(w, t, st, f, value)
    ensures Kept(SyncTimes(w, n), t, st, f, value)
  {
    hide Kept, SyncAll;
    if n > 0 {
      SyncTimesKeeps(w, t, st, f, value, n - 1);
      var before := SyncTimes(w, n - 1);
      SyncAllKeeps(before, t, st, f, value, before.templates);
    }
  }

  /** Sync never undoes a user's change: after a set that ran its action without warning,
      any number of syncs, under any faults, leave the row and the device as set, as long as
      no other capability or target acts on the same fact. */
  lemma SyncNeverUndoesAUserChange(
      w: World, t: Template, st: SyncTarget, f: Fact, value: bool, ref: Ref, capability: string, state: string, n: nat)
    requires Proper(w) && Pairs(w, t, st, f) && NoOtherWriter(w, t, st, f)
    requires NormalRef(ref) == st.ref && Trim(capability) == t.id && Trim(state) == Mapped(t.sync.value, value)
    requires Current(w.rows, KeyOf(st.ref, t.id), t.defaultState) != Row(true, Trim(state))
    requires SetState(w, ref, capability, state).1 == Ok([])
    ensures Holds(SyncTimes(SetState(w, ref, capability, state).0, n), t, st, f, value)
  {
    hide SetState, DeviceOk, Truth, Spares, SourceFact, ActionFact, Mapped, Current;
    SetEstablishes(w, t, st, f, value, ref, capability, state);
    var after := SetState(w, ref, capability, state).0;
    assert SetsTo(after, t, st, f, true) && SetsTo(after, t, st, f, false);
    assert Kept(after, t, st, f, value);
    SyncTimesKeeps(after, t, st, f, value, n);
  }

  // ---- Convergence ----

  ghost predicate TriggersOff(templates: seq<Template>) {
    forall t | t in templates && t.sync.Some? :: !t.sync.value.triggerActions
  }

  /** What a source would read of the device itself. */
  ghost function SourceTruth(d: Device, kind: SourceKind, target: Target, params: Params): Option<bool> {
    if SourceFact(kind, target, params).None? then None else Truth(d, SourceFact(kind, target, params).value)
  }

  lemma CleanListRules(net: Net, table: string)
    requires net.plan == [] && DeviceOk(net.device) && NormalTable(table) != ""
      && NormalTable(table) in net.device.tables
    ensures ListRules(net, table).1.Some? && ListRules(net, table).0.plan == []
  {
    CleanRun(net, RulePrint(NormalTable(table)), RulePrintWords());
  }

  lemma CleanRulesRead(net: Net, table: string, id: string, comment: string)
    requires net.plan == [] && DeviceOk(net.device) && NormalTable(table) != ""
    requires Trim(id) == id && Trim(comment) == comment
    ensures RuleTruth(net.device, NormalTable(table), id).Some? ==> GetById(net, table, id).1.Some?
    ensures CommentTruth(net.device, NormalTable(table), comment).Some? ==> GetByComment(net, table, comment).1.Some?
  {
    hide ListRules;
    if NormalTable(table) in net.device.tables {
      CleanListRules(net, table);
      ListRulesIsTruth(net, table);
      var seen := ListRules(net, table).1.value;
      var actual := RulesOf(net.device, NormalTable(table));
      EnabledByIdSeen(actual, seen, id);
      IdsByCommentSeen(actual, seen, comment);
      if exists r | r in actual :: Trim(r.comment) == comment {
        var r :| r in actual && Trim(r.comment) == comment;
        assert r.id in IdsByComment(seen, comment);
      }
    }
  }

  lemma CleanLookup(net: Net, list: string, address: string)
    requires net.plan == []
    ensures Exists(net, list, address).1.Some? && Exists(net, list, address).0.plan == []
  {
    hide Run;
    CleanRun(net, ListPrint, PrintWords(Trim(list)));
  }

  lemma ReadKeepsNoTrouble(net: Net, kind: SourceKind, target: Target, params: Params)
    requires net.plan == []
    ensures Read(net, kind, target, params).0.plan == []
  {
    hide Run, Exists, ResolveAddress;
    if SourceValid(kind, target.scope, params) {
      if kind == AddressListContains {
        var address := ResolveAddress(target, params);
        if address.Some? { CleanLookup(net, StringParam(params, "list").value, address.value); }
      } else {
        CleanRun(net, RulePrint(NormalTable(StringParam(params, "table").value)), RulePrintWords());
      }
    }
  }

  /** Without trouble a source reads exactly the truth about its fact. */
  lemma CleanRead(net: Net, kind: SourceKind, target: Target, params: Params)
    requires net.plan == [] && DeviceOk(net.device)
    ensures Read(net, kind, target, params).1 == SourceTruth(net.device, kind, target, params)
    ensures Read(net, kind, target, params).0.plan == [] && Read(net, kind, target, params).0.device == net.device
  {
    hide Exists, GetById, GetByComment, ResolveAddress, RuleTruth, CommentTruth, DeviceOk, NormalAddress;
    ReadKeepsNoTrouble(net, kind, target, params);
    ReadTellsTheTruth(net, kind, target, params);
    StringParamTrimmed(params, "table");
    StringParamTrimmed(params, "rule_id");
    StringParamTrimmed(params, "comment");
    if SourceValid(kind, target.scope, params) {
      if kind == AddressListContains {
        var address := ResolveAddress(target, params);
        if address.Some? { CleanLookup(net, StringParam(params, "list").value, address.value); }
      } else {
        var table := StringParam(params, "table").value;
        if StringParam(params, "match_by") == Some("id") {
          CleanRulesRead(net, table, StringParam(params, "rule_id").value, "");
        } else {
          CleanRulesRead(net, table, "", StringParam(params, "comment").value);
        }
      }
    }
  }

  /** An enabled row with external truth and a readable, mapped source has the mapped state. */
  ghost predicate Settled(w: World, t: Template, st: SyncTarget) {
    t.sync.Some? && t.sync.value.enabled && t.sync.value.sourceType in w.registry.sources ==>
      var s := t.sync.value;
      var current := Current(w.rows, KeyOf(st.ref, t.id), t.defaultState);
      var truth := SourceTruth(w.net.device, w.registry.sources[s.sourceType], st.target, s.sourceParams);
      current.enabled && !InternalTruth(s.mode) && truth.Some? && Mapped(s, truth.value) != "" ==>
        current.state == Mapped(s, truth.value)
  }

  predicate OneRow(before: map<Key, Row>, after: map<Key, Row>, key: Key) {
    after == before || (key in after && after == before[key := after[key]])
  }

  /** Between two steps of a sync without triggers. */
  ghost predicate Calm(w: World) {
    Proper(w) && TriggersOff(w.templates)
  }

  /** Settled, or left as it was because its source could not be read, which takes a fault
      and is reported for this very row. */
  ghost predicate Outcome(w: World, after: World, errors: seq<SyncError>, t: Template, st: SyncTarget) {
    || Settled(after, t, st)
    || (&& w.net.plan != [] && SyncError(t.id, Some(st.ref), ReadFailed) in errors
        && SameAt(w.rows, after.rows, KeyOf(st.ref, t.id)))
  }

  /** What a sync without triggers leaves alone. */
  ghost predicate Undisturbed(w: World, after: World) {
    SameSetup(w, after) && after.net.device == w.net.device && (w.net.plan == [] ==> after.net.plan == [])
  }

  lemma SyncOneSettles(w: World, t: Template, st: SyncTarget)
    requires DeviceOk(w.net.device) && t.sync.Some? && !t.sync.value.triggerActions
    requires t.sync.value.sourceType in w.registry.sources
    ensures var (after, errors) := SyncOne(w, t, t.sync.value, w.registry.sources[t.sync.value.sourceType], st);
            && Outcome(w, after, errors, t, st) && Undisturbed(w, after)
            && OneRow(w.rows, after.rows, KeyOf(st.ref, t.id))
  {
    hide Read, SourceTruth, SourceValid, DeviceOk, SetState, InternalTruth, Mapped, Trim, KeyOf;
    var s := t.sync.value;
    var kind := w.registry.sources[s.sourceType];
    ValueReadIsTruth(w.net, kind, st.target, s.sourceParams);
    InvalidHasNoTruth(w.net.device, kind, st.target, s.sourceParams);
    MappedIsTrimmed(s);
    var (after, errors) := SyncOne(w, t, s, kind, st);
    if Read(w.net, kind, st.target, s.sourceParams).1.Some? {
      assert Settled(after, t, st);
    } else if errors != [] {
      assert errors[0] in errors;
    }
  }

  lemma MappedIsTrimmed(s: Sync)
    ensures forall value :: Trim(Mapped(s, value)) == Mapped(s, value)
  {
    TrimIsTrimmed(s.whenTrue);
    TrimIsTrimmed(s.whenFalse);
  }

  lemma ValueReadIsTruth(net: Net, kind: SourceKind, target: Target, params: Params)
    requires DeviceOk(net.device)
    ensures var (after, value) := Read(net, kind, target, params);
            && after.device == net.device && (net.plan == [] ==> after.plan == [])
            && (value.Some? || net.plan == [] ==> value == SourceTruth(net.device, kind, target, params))
  {
    hide Read, DeviceOk, Truth, SourceFact;
    ReadTellsTheTruth(net, kind, target, params);
    if net.plan == [] { CleanRead(net, kind, target, params); }
  }

  lemma InvalidHasNoTruth(d: Device, kind: SourceKind, target: Target, params: Params)
    ensures !SourceValid(kind, target.scope, params) ==> SourceTruth(d, kind, target, params) == None
  {}

  /** A step for another row changes no outcome, and its errors only join the list. */
  lemma OtherRowKeepsOutcome(w: World, before: World, after: World, t: Template, st: SyncTarget, key: Key,
                             errors: seq<SyncError>, more: seq<SyncError>)
    requires Outcome(w, before, errors, t, st) && Undisturbed(before, after)
    requires OneRow(before.rows, after.rows, key) && key != KeyOf(st.ref, t.id)
    ensures Outcome(w, after, errors + more, t, st)
  {
    hide SourceTruth, Mapped, Trim;
  }

  /** A step for its own row, reached with that row still as at the start. */
  lemma OwnRowOutcome(w: World, before: World, after: World, t: Template, st: SyncTarget,
                      errors: seq<SyncError>, more: seq<SyncError>)
    requires Outcome(before, after, more, t, st) && Undisturbed(w, before)
    requires SameAt(w.rows, before.rows, KeyOf(st.ref, t.id))
    ensures Outcome(w, after, errors + more, t, st)
  {
    hide Settled;
  }

  ghost predicate AllDone(w: World, after: World, errors: seq<SyncError>, t: Template, targets: seq<SyncTarget>) {
    forall st | st in targets :: Outcome(w, after, errors, t, st)
  }

  ghost predicate AllDistinctTargets(targets: seq<SyncTarget>) {
    forall i, j | 0 <= i < j < |targets| :: targets[i] != targets[j]
  }

  lemma {:induction false} SyncEachSettles(w: World, t: Template, targets: seq<SyncTarget>)
    requires Calm(w) && t in w.templates && t.sync.Some? && t.sync.value.sourceType in w.registry.sources
    requires AllDistinctTargets(targets)
    requires forall st | st in targets :: st in SyncTargets(w.devices, NormalScope(t.scope))
    ensures var (after, errors) := SyncEach(w, t, t.sync.value, w.registry.sources[t.sync.value.sourceType], targets);
            && Undisturbed(w, after) && AllDone(w, after, errors, t, targets)
            && (forall key: Key | key.capability != t.id :: SameAt(w.rows, after.rows, key))
            && (forall x | x in SyncTargets(w.devices, NormalScope(t.scope)) && x !in targets ::
                  SameAt(w.rows, after.rows, KeyOf(x.ref, t.id)))
  {
    hide SyncOne, Outcome, DeviceOk, CanonicalDevices, SyncTargets;
    if targets != [] {
      var front, st := targets[..|targets| - 1], targets[|targets| - 1];
      assert targets == front + [st] && st !in front;
      SyncEachSettles(w, t, front);
      var kind := w.registry.sources[t.sync.value.sourceType];
      var (before, errors) := SyncEach(w, t, t.sync.value, kind, front);
      SyncOneSettles(before, t, st);
      var (after, more) := SyncOne(before, t, t.sync.value, kind, st);
      OwnRowOutcome(w, before, after, t, st, errors, more);
      forall x | x in SyncTargets(w.devices, NormalScope(t.scope)) && x != st
        ensures x in front ==> Outcome(w, after, errors + more, t, x)
        ensures SameAt(before.rows, after.rows, KeyOf(x.ref, t.id))
      {
        DistinctKeys(before, t, x, t, st);
        if x in front { OtherRowKeepsOutcome(w, before, after, t, x, KeyOf(st.ref, t.id), errors, more); }
      }
    }
  }

  ghost predicate TemplatesDone(w: World, after: World, errors: seq<SyncError>, templates: seq<Template>) {
    forall t | t in templates && t.sync.Some? && t.sync.value.enabled
      && t.sync.value.sourceType in w.registry.sources ::
      AllDone(w, after, errors, t, SyncTargets(w.devices, NormalScope(t.scope)))
  }

  lemma SyncTargetsDiffer(devices: seq<View>, scope: Scope)
    requires CanonicalDevices(devices)
    ensures AllDistinctTargets(SyncTargets(devices, scope))
  {
    hide NormalId, NormalMac;
    var targets := SyncTargets(devices, scope);
    forall i, j | 0 <= i < j < |targets| ensures targets[i] != targets[j] {
      assert targets[i].target.device == Some(devices[i]) && targets[j].target.device == Some(devices[j]);
    }
  }

  lemma SyncTemplateSettles(w: World, t: Template)
    requires Calm(w) && t in w.templates
    ensures var (after, errors) := SyncTemplate(w, t);
            && Undisturbed(w, after) && TemplatesDone(w, after, errors, [t])
            && forall key: Key | key.capability != t.id :: SameAt(w.rows, after.rows, key)
  {
    hide SyncEach, DeviceOk, CanonicalDevices, SyncTargets, AllDone, AllDistinctTargets;
    if t.sync.Some? && t.sync.value.enabled && t.sync.value.sourceType in w.registry.sources {
      SyncTargetsDiffer(w.devices, NormalScope(t.scope));
      SyncEachSettles(w, t, SyncTargets(w.devices, NormalScope(t.scope)));
    }
  }

  /** Another template's turn changes no outcome. */
  lemma OtherTemplateKeepsOutcome(w: World, before: World, after: World, t: Template, st: SyncTarget, touched: string,
                                  errors: seq<SyncError>, more: seq<SyncError>)
    requires Outcome(w, before, errors, t, st) && Undisturbed(before, after) && t.id != touched
    requires forall key: Key | key.capability != touched :: SameAt(before.rows, after.rows, key)
    ensures Outcome(w, after, errors + more, t, st)
  {
    hide SourceTruth, Mapped, Trim;
    assert SameAt(before.rows, after.rows, KeyOf(st.ref, t.id));
  }

  lemma {:induction false} SyncAllSettles(w: World, templates: seq<Template>)
    requires Calm(w) && DistinctIds(templates) && forall t | t in templates :: t in w.templates
    ensures var (after, errors) := SyncAll(w, templates);
            && Undisturbed(w, after) && TemplatesDone(w, after, errors, templates)
            && forall key: Key | (forall t | t in templates :: t.id != key.capability) ::
               SameAt(w.rows, after.rows, key)
    ensures Calm(SyncAll(w, templates).0)
  {
    hide SyncTemplate, AllDone, DeviceOk, CanonicalDevices, SyncTargets;
    if templates != [] {
      var front, t := templates[..|templates| - 1], templates[|templates| - 1];
      assert templates == front + [t];
      assert t in templates && forall x | x in front :: x in templates && x.id != t.id;
      SyncAllSettles(w, front);
      var (before, errors) := SyncAll(w, front);
      OneMoreTemplateDone(w, before, front, t, errors);
    }
  }

  lemma OneMoreTemplateDone(w: World, before: World, front: seq<Template>, t: Template, errors: seq<SyncError>)
    requires Calm(before) && t in before.templates && Undisturbed(w, before) && TemplatesDone(w, before, errors, front)
    requires forall x | x in front :: x.id != t.id
    requires forall key: Key | (forall x | x in front :: x.id != key.capability) :: SameAt(w.rows, before.rows, key)
    ensures var (after, more) := SyncTemplate(before, t);
            && Undisturbed(w, after) && TemplatesDone(w, after, errors + more, front + [t])
            && forall key: Key | (forall x | x in front + [t] :: x.id != key.capability) ::
               SameAt(w.rows, after.rows, key)
  {
    hide SyncTemplate, Outcome, Calm, SyncTargets;
    SyncTemplateSettles(before, t);
    var (after, more) := SyncTemplate(before, t);
    forall x | x in front + [t] && x.sync.Some? && x.sync.value.enabled && x.sync.value.sourceType in w.registry.sources
      ensures AllDone(w, after, errors + more, x, SyncTargets(w.devices, NormalScope(x.scope)))
    {
      var targets := SyncTargets(w.devices, NormalScope(x.scope));
      assert if x in front then AllDone(w, before, errors, x, targets) else AllDone(before, after, more, t, targets);
      forall st | st in targets ensures Outcome(w, after, errors + more, x, st) {
        if x in front {
          OtherTemplateKeepsOutcome(w, before, after, x, st, t.id, errors, more);
        } else {
          OwnRowOutcome(w, before, after, t, st, errors, more);
        }
      }
    }
    assert t in front + [t];
  }

  /** With triggers off, and whatever faults a sync meets: it reads and writes no more than
      its rows, and every enabled row with external truth and a non-blank mapping is
      afterwards in the state mapped from the router's truth, unless reading its source
      failed, which the sync reports for that row and leaves the row as it was. */
  lemma SyncConverges(w: World)
    requires Calm(w) && w.configured
    ensures var (after, errors) := Synced(w);
            Undisturbed(w, after) && TemplatesDone(w, after, errors.value, w.templates)
  {
    hide SyncAll, TemplatesDone;
    SyncAllSettles(w, w.templates);
  }

  ghost predicate AllSettled(w: World, t: Template, targets: seq<SyncTarget>) {
    forall st | st in targets :: Settled(w, t, st)
  }

  ghost predicate TemplatesSettled(w: World, templates: seq<Template>) {
    forall t | t in templates :: AllSettled(w, t, SyncTargets(w.devices, NormalScope(t.scope)))
  }

  /** Without faults there is no exception. */
  lemma CleanSyncConverges(w: World)
    requires Calm(w) && w.configured && w.net.plan == []
    ensures TemplatesSettled(Synced(w).0, w.templates)
  {
    hide SyncAll, Settled, SyncTargets;
    SyncConverges(w);
    var (after, errors) := Synced(w);
    forall t, st | t in w.templates && st in SyncTargets(after.devices, NormalScope(t.scope))
      ensures Settled(after, t, st)
    {
      if t.sync.Some? && t.sync.value.enabled && t.sync.value.sourceType in w.registry.sources {
        assert AllDone(w, after, errors.value, t, SyncTargets(w.devices, NormalScope(t.scope)));
      } else {
        NothingToSettle(after, t, st);
      }
    }
  }

  lemma NothingToSettle(w: World, t: Template, st: SyncTarget)
    requires !(t.sync.Some? && t.sync.value.enabled && t.sync.value.sourceType in w.registry.sources)
    ensures Settled(w, t, st)
  {}

  lemma SettledSyncOneWritesNothing(w: World, t: Template, st: SyncTarget)
    requires DeviceOk(w.net.device) && Settled(w, t, st)
    requires t.sync.Some? && t.sync.value.enabled && t.sync.value.sourceType in w.registry.sources
    ensures var after := SyncOne(w, t, t.sync.value, w.registry.sources[t.sync.value.sourceType], st).0;
            after.rows == w.rows && after.net.device == w.net.device && SameSetup(w, after)
  {
    hide Read, DeviceOk, SetState, SourceValid, Truth, SourceFact, Mapped;
    ReadTellsTheTruth(w.net, w.registry.sources[t.sync.value.sourceType], st.target, t.sync.value.sourceParams);
  }

  /** Nothing but the transport's counters and plan changed. */
  ghost predicate Unwritten(w: World, after: World) {
    SameSetup(w, after) && after.rows == w.rows && after.net.device == w.net.device
  }

  lemma SettledTransfers(w: World, after: World, t: Template, st: SyncTarget)
    requires Settled(w, t, st) && Unwritten(w, after)
    ensures Settled(after, t, st)
  {}

  lemma {:induction false} SettledSyncEach(w: World, t: Template, targets: seq<SyncTarget>)
    requires DeviceOk(w.net.device) && AllSettled(w, t, targets)
    requires t.sync.Some? && t.sync.value.enabled && t.sync.value.sourceType in w.registry.sources
    ensures Unwritten(w, SyncEach(w, t, t.sync.value, w.registry.sources[t.sync.value.sourceType], targets).0)
  {
    hide SyncOne, Settled, DeviceOk;
    if targets != [] {
      var front, st := targets[..|targets| - 1], targets[|targets| - 1];
      assert st in targets && forall x | x in front :: x in targets;
      SettledSyncEach(w, t, front);
      var before := SyncEach(w, t, t.sync.value, w.registry.sources[t.sync.value.sourceType], front).0;
      SettledTransfers(w, before, t, st);
      SettledSyncOneWritesNothing(before, t, st);
    }
  }

  lemma {:induction false} SettledSyncAll(w: World, templates: seq<Template>)
    requires DeviceOk(w.net.device) && TemplatesSettled(w, templates)
    ensures Unwritten(w, SyncAll(w, templates).0)
  {
    hide SyncEach, Settled, DeviceOk, SyncTargets;
    if templates != [] {
      var front, t := templates[..|templates| - 1], templates[|templates| - 1];
      assert t in templates && forall x | x in front :: x in templates;
      SettledSyncAll(w, front);
      var before := SyncAll(w, front).0;
      if t.sync.Some? && t.sync.value.enabled && t.sync.value.sourceType in before.registry.sources {
        var targets := SyncTargets(before.devices, NormalScope(t.scope));
        forall st | st in targets ensures Settled(before, t, st) { SettledTransfers(w, before, t, st); }
        SettledSyncEach(before, t, targets);
      }
    }
  }

  /** In a settled world a sync writes nothing, whatever faults it meets. */
  lemma SettledSyncWritesNothing(w: World)
    requires DeviceOk(w.net.device) && TemplatesSettled(w, w.templates)
    ensures Unwritten(w, Synced(w).0)
  {
    hide SyncAll, TemplatesSettled, DeviceOk;
    SettledSyncAll(w, w.templates);
  }

  // ---- The second sync, row by row ----

  lemma SettledRowStays(w: World, t: Template, st: SyncTarget, u: Template, other: SyncTarget)
    requires Calm(w) && Settled(w, t, st) && t in w.templates && u in w.templates
    requires t.sync.Some? && t.sync.value.enabled && t.sync.value.sourceType in w.registry.sources
    requires u.sync.Some? && u.sync.value.enabled && u.sync.value.sourceType in w.registry.sources
    requires st in SyncTargets(w.devices, NormalScope(t.scope)) && other in SyncTargets(w.devices, NormalScope(u.scope))
    ensures var after := SyncOne(w, u, u.sync.value, w.registry.sources[u.sync.value.sourceType], other).0;
            Undisturbed(w, after) && Settled(after, t, st) && SameAt(w.rows, after.rows, KeyOf(st.ref, t.id))
  {
    hide SyncOne, DeviceOk, CanonicalDevices, SyncTargets, SourceTruth, Mapped, Trim, NormalScope;
    SyncOneSettles(w, u, other);
    if u == t && other == st {
      SettledSyncOneWritesNothing(w, t, st);
    } else {
      DistinctKeys(w, t, st, u, other);
    }
  }

  ghost predicate RowStays(w: World, after: World, t: Template, st: SyncTarget) {
    Undisturbed(w, after) && Settled(after, t, st) && SameAt(w.rows, after.rows, KeyOf(st.ref, t.id))
  }

  ghost predicate RowOf(w: World, t: Template, st: SyncTarget) {
    && t in w.templates && t.sync.Some? && t.sync.value.enabled && t.sync.value.sourceType in w.registry.sources
    && st in SyncTargets(w.devices, NormalScope(t.scope))
  }

  lemma {:induction false} SyncEachKeepsSettledRow(w: World, t: Template, st: SyncTarget, u: Template,
                                                   targets: seq<SyncTarget>)
    requires Calm(w) && Settled(w, t, st) && RowOf(w, t, st) && forall x | x in targets :: RowOf(w, u, x)
    requires u.sync.Some? && u.sync.value.sourceType in w.registry.sources
    ensures RowStays(w, SyncEach(w, u, u.sync.value, w.registry.sources[u.sync.value.sourceType], targets).0, t, st)
  {
    hide SyncOne, Settled, DeviceOk, CanonicalDevices, SyncTargets, NormalScope;
    if targets != [] {
      var front, x := targets[..|targets| - 1], targets[|targets| - 1];
      assert x in targets && forall y | y in front :: y in targets;
      SyncEachKeepsSettledRow(w, t, st, u, front);
      SettledRowStays(SyncEach(w, u, u.sync.value, w.registry.sources[u.sync.value.sourceType], front).0, t, st, u, x);
    }
  }

  lemma {:induction false} SyncAllKeepsSettledRow(w: World, t: Template, st: SyncTarget, templates: seq<Template>)
    requires Calm(w) && Settled(w, t, st) && RowOf(w, t, st) && forall u | u in templates :: u in w.templates
    ensures RowStays(w, SyncAll(w, templates).0, t, st)
  {
    hide SyncEach, Settled, DeviceOk, CanonicalDevices, SyncTargets, NormalScope;
    if templates != [] {
      var front, u := templates[..|templates| - 1], templates[|templates| - 1];
      assert u in templates && forall x | x in front :: x in templates;
      SyncAllKeepsSettledRow(w, t, st, front);
      var before := SyncAll(w, front).0;
      if u.sync.Some? && u.sync.value.enabled && u.sync.value.sourceType in before.registry.sources {
        SyncEachKeepsSettledRow(before, t, st, u, SyncTargets(before.devices, NormalScope(u.scope)));
      }
    }
  }

  /** Two syncs of an unchanged router, each with faults of its own: the second writes at most
      rows whose source the first could not read. */
  lemma SecondSyncWritesOnlyUnreadRows(w: World, plan: seq<Event>, t: Template, st: SyncTarget)
    requires Calm(w) && w.configured && RowOf(w, t, st)
    requires SyncError(t.id, Some(st.ref), ReadFailed) !in Synced(w).1.value
    ensures var first := Synced(w).0;
            var again := first.(net := first.net.(plan := plan));
            SameAt(again.rows, Synced(again).0.rows, KeyOf(st.ref, t.id)) && Synced(again).0.net.device == w.net.device
  {
    hide SyncAll, Settled, SyncTargets, DeviceOk, CanonicalDevices;
    SyncConverges(w);
    var (first, errors) := Synced(w);
    assert AllDone(w, first, errors.value, t, SyncTargets(w.devices, NormalScope(t.scope)));
    var again := first.(net := first.net.(plan := plan));
    SettledTransfers(first, again, t, st);
    SyncAllKeepsSettledRow(again, t, st, again.templates);
  }
}
