/** What the stored capability rows say after a set, a switch of the flag and a sync. */
module RowLaws {
  import opened Text
  import opened Devices
  import opened Transport
  import opened Adapters
  import opened Templates
  import opened Engine
  import opened SyncLaws
  import opened ActionLaws
  import opened Spellings

  // ---- The checks of a set ----

  lemma {:induction false} FoundExactly(templates: seq<Template>, id: string)
    ensures FindTemplate(templates, id).None? <==> forall t | t in templates :: t.id != id
    ensures FindTemplate(templates, id).Some? ==>
              FindTemplate(templates, id).value in templates && FindTemplate(templates, id).value.id == id
  {
    if templates != [] {
      FoundExactly(templates[1..], id);
      assert templates[0] in templates && templates == [templates[0]] + templates[1..];
    }
  }

  lemma {:induction false} DeviceFoundExactly(devices: seq<View>, mac: string)
    ensures FindDevice(devices, mac).None? <==> forall v | v in devices :: Upper(v.mac) != Upper(NormalMac(mac))
  {
    hide NormalMac, Upper;
    if devices != [] {
      DeviceFoundExactly(devices[1..], mac);
      assert devices[0] in devices && devices == [devices[0]] + devices[1..];
    }
  }

  lemma CanonicalIsUpper(devices: seq<View>, v: View)
    requires CanonicalDevices(devices) && v in devices
    ensures Upper(v.mac) == v.mac
  {
    UpperTwice(ColonDashes(WithoutSpaces(Trim(v.mac))));
  }

  lemma BlankId(raw: string)
    ensures NormalId(raw) == "" <==> Blank(raw)
  {
    hide Trim;
    TrimCommutes(raw);
  }

  /** The errors of a set in the order of its checks, on whatever is sent; an error changes
      nothing at all. The capability is the template named, `t`. */
  lemma SetChecks(w: World, ref: Ref, capability: string, state: string, t: Template)
    requires Proper(w)
    ensures var (after, r) := SetState(w, ref, capability, state);
            && (r.Err? ==> after == w)
            && (if ref.scope == DeviceScope && Blank(ref.deviceId) then r == Err(DeviceIdRequired)
                else if Blank(state) then r == Err(StateRequired)
                else if forall u | u in w.templates :: u.id != Trim(capability) then r == Err(CapabilityNotFound)
                else
                  t in w.templates && t.id == Trim(capability) ==>
                    if (Trim(t.scope) == "global") != (ref.scope == GlobalScope) then r == Err(ScopeMismatch)
                    else if Trim(state) !in t.states then r == Err(UnknownState)
                    else if ref.scope == DeviceScope
                            && forall v | v in w.devices :: v.mac != NormalMac(NormalId(ref.deviceId))
                    then r == Err(DeviceNotFound)
                    else r.Ok?)
  {
    hide Trim, DeviceOk, RunActions, Current, NormalMac, NormalId, Upper, FindDevice;
    BlankId(ref.deviceId);
    FoundExactly(w.templates, Trim(capability));
    if t in w.templates && t.id == Trim(capability) { TemplateFindsItself(w.templates, t); }
    if ref.scope == DeviceScope { KnownDevice(w.devices, NormalId(ref.deviceId)); }
  }

  lemma KnownDevice(devices: seq<View>, id: string)
    requires CanonicalDevices(devices)
    ensures FindDevice(devices, id).None? <==> forall v | v in devices :: v.mac != NormalMac(id)
  {
    hide CanonicalDevices, FindDevice, WithoutSpaces, ColonDashes, Trim;
    DeviceFoundExactly(devices, id);
    UpperTwice(ColonDashes(WithoutSpaces(Trim(id))));
    forall v | v in devices ensures Upper(v.mac) == v.mac { CanonicalIsUpper(devices, v); }
  }

  /** Distinct hardware addresses in the stored form make a proper device list. */
  lemma StoredDevicesAreCanonical(devices: seq<View>)
    requires forall v | v in devices :: StoredMac(v.mac)
    requires forall i, j | 0 <= i < j < |devices| :: devices[i].mac != devices[j].mac
    ensures CanonicalDevices(devices)
  {
    hide NormalId, NormalMac;
    forall v | v in devices ensures NormalId(v.mac) == v.mac && NormalMac(v.mac) == v.mac {
      assert "" + v.mac + "" == v.mac;
      OneDevice("", v.mac, "", v.mac);
    }
  }

  /** However a user types the address of a device, its row and its view are found. */
  lemma AnySpellingReachesTheDevice(devices: seq<View>, v: View, front: string, typed: string, back: string,
                                    capability: string)
    requires CanonicalDevices(devices) && v in devices && StoredMac(v.mac)
    requires AllSpace(front) && AllSpace(back) && SpelledAs(typed, v.mac)
    ensures var ref := NormalRef(Ref(DeviceScope, front + typed + back));
            && KeyOf(ref, capability) == DeviceKey(v.mac, capability)
            && TargetOf(devices, ref) == Some(Target(DeviceScope, Some(v)))
  {
    hide NormalId, NormalMac, CanonicalDevices, FindDevice;
    OneDevice(front, typed, back, v.mac);
    FindsItself(devices, v);
  }

  // ---- The flag ----

  /** Switching the flag: exactly the addressed row changes, nothing is sent to the router,
      and the state stored before stays; a row without a state gets the default one. It fails
      for an unknown device, an unknown capability or another scope, changing nothing. */
  lemma SwitchKeepsState(w: World, ref: Ref, capability: string, enabled: bool)
    ensures var (after, e) := Enabled(w, ref, capability, enabled);
            var key := KeyOf(NormalRef(ref), Trim(capability));
            && after.net == w.net && SameSetup(w, after)
            && (e.Some? ==> after == w)
            && (e.None? ==>
                  && key in after.rows && after.rows[key].enabled == enabled
                  && (forall other | other != key :: SameAt(w.rows, after.rows, other))
                  && (key in w.rows && !Blank(w.rows[key].state) ==> after.rows[key].state == w.rows[key].state)
                  && (key !in w.rows || Blank(w.rows[key].state) ==>
                        exists t | t in w.templates && t.id == Trim(capability) ::
                          after.rows[key].state == t.defaultState))
  {
    hide Trim, TargetOf, NormalRef, KeyOf;
    FoundExactly(w.templates, Trim(capability));
  }

  /** Off and on again, with any number of syncs in between under any faults: the row is
      back in the state it had, and the syncs never touched it. */
  lemma OffAndOnAgain(w: World, ref: Ref, capability: string, n: nat)
    requires DeviceOk(w.net.device) && TrimmedIds(w.templates) && Enabled(w, ref, capability, false).1.None?
    ensures var (off, key) := (Enabled(w, ref, capability, false).0, KeyOf(NormalRef(ref), Trim(capability)));
            var later := SyncTimes(off, n);
            var (on, e) := Enabled(later, ref, capability, true);
            && key in later.rows && later.rows[key] == off.rows[key]
            && e.None? && key in on.rows && on.rows[key].enabled
            && (key in w.rows && !Blank(w.rows[key].state) ==> on.rows[key] == Row(true, w.rows[key].state))
  {
    hide Enabled, DeviceOk, NormalRef, KeyOf, SyncTimes;
    var off := Enabled(w, ref, capability, false).0;
    var key := KeyOf(NormalRef(ref), Trim(capability));
    SwitchKeepsState(w, ref, capability, false);
    DisabledStands(off, key, n);
    var later := SyncTimes(off, n);
    SwitchDependsOnSetup(w, later, ref, capability);
    SwitchKeepsState(later, ref, capability, true);
  }

  lemma {:induction false} DisabledStands(w: World, key: Key, n: nat)
    requires DeviceOk(w.net.device) && TrimmedIds(w.templates) && key in w.rows && !w.rows[key].enabled
    ensures var later := SyncTimes(w, n);
            key in later.rows && later.rows[key] == w.rows[key] && SameSetup(w, later) && DeviceOk(later.net.device)
  {
    hide SyncAll, DeviceOk, Writable;
    if n > 0 {
      DisabledStands(w, key, n - 1);
      var before := SyncTimes(w, n - 1);
      SyncAllFramed(before, before.templates);
      SyncFrame(before, key);
    }
  }

  lemma SwitchDependsOnSetup(w: World, v: World, ref: Ref, capability: string)
    requires SameSetup(w, v)
    ensures Enabled(w, ref, capability, false).1 == Enabled(v, ref, capability, true).1
  {
    hide Trim, NormalRef, TargetOf, FindTemplate;
  }

  // ---- State and flag in one patch ----

  /** A patch with a state and a flag: the state's actions run, with their warnings, and the
      row holds both; so a state set together with the flag off is stored, yet switched off. */
  lemma PatchSetsBoth(w: World, ref: Ref, capability: string, state: string, enabled: bool,
                      t: Template, target: Target)
    requires Acts(w, ref, capability, state, t, target)
    ensures var (after, r) := Engine.Patched(w, ref, capability, Some(state), Some(enabled));
            var (changed, warnings) := SetState(w, ref, capability, state);
            && r == warnings && r.Ok? && after.net == changed.net
            && after.rows == w.rows[KeyOf(NormalRef(ref), Trim(capability)) := Row(enabled, Trim(state))]
  {
    hide RunActions, Acts, Current, KeyOf, Enabled, DeviceOk;
    ActsOk(w, ref, capability, state, t, target);
    SetIsRun(w, ref, capability, state, t, target);
    AdmittedState(w, ref, capability, state, t, target);
    var changed := SetState(w, ref, capability, state).0;
    SwitchAfterSet(changed, ref, capability, enabled, t);
    SwitchKeepsState(changed, ref, capability, enabled);
    var (after, key) := (Enabled(changed, ref, capability, enabled).0, KeyOf(NormalRef(ref), Trim(capability)));
    TrimIsTrimmed(state);
    assert after.rows[key].state == Trim(state);
    SameButOne(w.rows, changed.rows, after.rows, key);
  }

  lemma SameButOne(a: map<Key, Row>, b: map<Key, Row>, c: map<Key, Row>, key: Key)
    requires key in b && key in c && b == a[key := b[key]] && forall other | other != key :: SameAt(b, c, other)
    ensures c == a[key := c[key]]
  {
    assert forall k :: k in c <==> k in a[key := c[key]] by {
      forall k ensures k in c <==> k in a[key := c[key]] { assert k != key ==> SameAt(b, c, k); }
    }
    forall k | k in c ensures c[k] == a[key := c[key]][k] { assert k != key ==> SameAt(b, c, k); }
  }

  lemma AdmittedState(w: World, ref: Ref, capability: string, state: string, t: Template, target: Target)
    requires Acts(w, ref, capability, state, t, target)
    ensures Trim(state) != "" && FindTemplate(w.templates, Trim(capability)) == Some(t)
    ensures NormalScope(t.scope) == NormalRef(ref).scope && TargetOf(w.devices, NormalRef(ref)).Some?
  {
    hide Trim, Current, DeviceOk, FindTemplate, TargetOf, KeyOf;
  }

  lemma SwitchAfterSet(w: World, ref: Ref, capability: string, enabled: bool, t: Template)
    requires FindTemplate(w.templates, Trim(capability)) == Some(t)
    requires NormalScope(t.scope) == NormalRef(ref).scope && TargetOf(w.devices, NormalRef(ref)).Some?
    ensures Enabled(w, ref, capability, enabled).1.None?
  {
    hide Trim, NormalRef, TargetOf, FindTemplate;
  }

  /** A patch that fails on its state leaves the flag alone, and an empty one is refused. */
  lemma PatchStopsAtTheState(w: World, ref: Ref, capability: string, state: Option<string>, enabled: Option<bool>)
    ensures state.None? && enabled.None? ==>
              Engine.Patched(w, ref, capability, state, enabled) == (w, Err(NothingToPatch))
    ensures state.Some? && SetState(w, ref, capability, state.value).1.Err? ==>
              Engine.Patched(w, ref, capability, state, enabled)
                == (w, Err(SetState(w, ref, capability, state.value).1.error))
  {
    hide RunActions, Current, Admit;
  }

  // ---- Rows after a sync ----

  /** The row is in the state: stored so, or without a stored state and so by default. */
  predicate InState(rows: map<Key, Row>, key: Key, state: string, defaultState: string) {
    if key !in rows || Blank(rows[key].state) then Trim(defaultState) == state else Trim(rows[key].state) == state
  }

  lemma CurrentTold(rows: map<Key, Row>, key: Key, defaultState: string)
    ensures Current(rows, key, defaultState).enabled <==> key in rows ==> rows[key].enabled
    ensures forall state ::
              Current(rows, key, defaultState).state == state <==> InState(rows, key, state, defaultState)
  {
    hide Trim;
  }

  /** A set acts unless the row is enabled and in the state already. */
  lemma ActsExactly(w: World, ref: Ref, capability: string, state: string, t: Template, target: Target)
    requires DeviceOk(w.net.device) && Admit(w, ref, capability, state) == Ok((t, target))
    ensures var key := KeyOf(NormalRef(ref), Trim(capability));
            var there := (key in w.rows ==> w.rows[key].enabled) && InState(w.rows, key, Trim(state), t.defaultState);
            && (Acts(w, ref, capability, state, t, target) <==> !there)
            && (there ==> SetState(w, ref, capability, state) == (w, Ok([])))
  {
    hide Trim, DeviceOk, RunActions, NormalRef, KeyOf, TargetOf, FindTemplate, Current, InState;
    CurrentTold(w.rows, KeyOf(NormalRef(ref), Trim(capability)), t.defaultState);
  }

  /** Setting the same state again does nothing, even if the first set had warnings: what
      failed is not tried again. */
  lemma SetAgainDoesNothing(w: World, ref: Ref, capability: string, state: string)
    requires DeviceOk(w.net.device) && SetState(w, ref, capability, state).1.Ok?
    ensures var after := SetState(w, ref, capability, state).0;
            SetState(after, ref, capability, state) == (after, Ok([]))
  {
    hide Trim, DeviceOk, RunActions, NormalRef, KeyOf, TargetOf, FindTemplate, Current, Admit;
    var (t, target) := Admit(w, ref, capability, state).value;
    var (after, key) := (SetState(w, ref, capability, state).0, KeyOf(NormalRef(ref), Trim(capability)));
    AdmitIgnoresRows(w, after, ref, capability, state);
    StateNotBlank(w, ref, capability, state);
    TrimIsTrimmed(state);
    assert after == w || (key in after.rows && after.rows[key] == Row(true, Trim(state)));
    CurrentRow(after.rows, key, Trim(state), t.defaultState);
  }

  lemma AdmitIgnoresRows(w: World, v: World, ref: Ref, capability: string, state: string)
    requires w.templates == v.templates && w.devices == v.devices
    ensures Admit(w, ref, capability, state) == Admit(v, ref, capability, state)
  {
    hide Trim, NormalRef, TargetOf, FindTemplate;
  }

  lemma StateNotBlank(w: World, ref: Ref, capability: string, state: string)
    requires Admit(w, ref, capability, state).Ok?
    ensures Trim(state) != ""
  {
    hide Trim, NormalRef, TargetOf, FindTemplate;
  }

  lemma CurrentRow(rows: map<Key, Row>, key: Key, state: string, defaultState: string)
    requires state != "" && Trim(state) == state
    ensures key in rows && rows[key] == Row(true, state) ==> Current(rows, key, defaultState) == Row(true, state)
  {
    hide Trim;
  }

  /** What a template's sync is about when it follows the router. */
  ghost predicate Follows(w: World, t: Template, target: Target, f: Fact) {
    && t in w.templates && t.sync.Some? && t.sync.value.enabled
    && t.sync.value.sourceType in w.registry.sources
    && Lower(Trim(t.sync.value.mode)) != "internal_truth"
    && SourceFact(w.registry.sources[t.sync.value.sourceType], target, t.sync.value.sourceParams) == Some(f)
  }

  /** A sync, whatever it meets, leaves the rows of a capability alone that has no sync, whose
      sync is off, or whose mode spells internal truth. */
  lemma SyncLeavesInternalRows(w: World, key: Key)
    requires DeviceOk(w.net.device) && TrimmedIds(w.templates)
    requires forall t | t in w.templates && t.id == key.capability ::
               t.sync.None? || !t.sync.value.enabled || Lower(Trim(t.sync.value.mode)) == "internal_truth"
    ensures SameAt(w.rows, Synced(w).0.rows, key)
  {
    hide Synced, DeviceOk, Trim, Lower;
    SyncFrame(w, key);
    assert forall t | t in w.templates && t.id == key.capability ::
      t.sync.Some? && t.sync.value.enabled ==> InternalTruth(t.sync.value.mode);
    assert key.capability !in Writable(w.templates);
  }

  /** After a fault-free sync without triggers, for every device and every capability that
      follows a fact about it: where the router says true the row is in the state for true,
      where it says false in the state for false; unless it is switched off or no state is
      named. Rows that do not exist yet count as enabled and in the default state. */
  lemma SyncMovesDeviceRows(w: World, t: Template, v: View, f: Fact, value: bool)
    requires Calm(w) && w.configured && w.net.plan == [] && v in w.devices && Trim(t.scope) != "global"
    requires Follows(w, t, Target(DeviceScope, Some(v)), f) && Truth(w.net.device, f) == Some(value)
    requires DeviceKey(v.mac, t.id) in w.rows ==> w.rows[DeviceKey(v.mac, t.id)].enabled
    requires !Blank(if value then t.sync.value.whenTrue else t.sync.value.whenFalse)
    ensures InState(Synced(w).0.rows, DeviceKey(v.mac, t.id),
                    Trim(if value then t.sync.value.whenTrue else t.sync.value.whenFalse), t.defaultState)
  {
    hide NormalId, NormalMac, DeviceOk;
    var i :| 0 <= i < |w.devices| && w.devices[i] == v;
    var st := DeviceTarget(v);
    assert SyncTargets(w.devices, DeviceScope)[i] == st;
    SyncMovesRow(w, t, st, f, value);
  }

  lemma SyncMovesGlobalRow(w: World, t: Template, f: Fact, value: bool)
    requires Calm(w) && w.configured && w.net.plan == [] && Trim(t.scope) == "global"
    requires Follows(w, t, Target(GlobalScope, None), f) && Truth(w.net.device, f) == Some(value)
    requires GlobalKey(t.id) in w.rows ==> w.rows[GlobalKey(t.id)].enabled
    requires !Blank(if value then t.sync.value.whenTrue else t.sync.value.whenFalse)
    ensures InState(Synced(w).0.rows, GlobalKey(t.id),
                    Trim(if value then t.sync.value.whenTrue else t.sync.value.whenFalse), t.defaultState)
  {
    var st := SyncTarget(Ref(GlobalScope, ""), Target(GlobalScope, None));
    assert SyncTargets(w.devices, GlobalScope)[0] == st;
    SyncMovesRow(w, t, st, f, value);
  }

  lemma SyncMovesRow(w: World, t: Template, st: SyncTarget, f: Fact, value: bool)
    requires Calm(w) && w.configured && w.net.plan == [] && st in SyncTargets(w.devices, NormalScope(t.scope))
    requires Follows(w, t, st.target, f) && Truth(w.net.device, f) == Some(value)
    requires var key := KeyOf(st.ref, t.id); key in w.rows ==> w.rows[key].enabled
    requires !Blank(if value then t.sync.value.whenTrue else t.sync.value.whenFalse)
    ensures InState(Synced(w).0.rows, KeyOf(st.ref, t.id),
                    Trim(if value then t.sync.value.whenTrue else t.sync.value.whenFalse), t.defaultState)
  {
    hide Synced, Truth, SourceFact, DeviceOk, Current, Trim, SyncTargets, KeyOf, Writable, InState, TemplatesDone;
    var (after, key) := (Synced(w).0, KeyOf(st.ref, t.id));
    SyncConverges(w);
    CleanSyncConverges(w);
    SyncFrame(w, key);
    CurrentTold(after.rows, key, t.defaultState);
    assert AllSettled(after, t, SyncTargets(after.devices, NormalScope(t.scope)));
    assert Settled(after, t, st);
  }

  // ---- What a sync reports ----

  lemma {:induction false} ErrorsAreKept(w: World, templates: seq<Template>, i: nat)
    requires i < |templates|
    ensures forall e | e in SyncTemplate(SyncAll(w, templates[..i]).0, templates[i]).1 :: e in SyncAll(w, templates).1
    decreases |templates|
  {
    hide SyncTemplate;
    if i < |templates| - 1 {
      var front := templates[..|templates| - 1];
      ErrorsAreKept(w, front, i);
      assert front[..i] == templates[..i];
    }
  }

  lemma {:induction false} TargetErrorsAreKept(w: World, t: Template, s: Sync, kind: SourceKind,
                                               targets: seq<SyncTarget>, i: nat)
    requires i < |targets|
    ensures forall e | e in SyncOne(SyncEach(w, t, s, kind, targets[..i]).0, t, s, kind, targets[i]).1 ::
              e in SyncEach(w, t, s, kind, targets).1
    decreases |targets|
  {
    hide SyncOne;
    if i < |targets| - 1 {
      var front := targets[..|targets| - 1];
      TargetErrorsAreKept(w, t, s, kind, front, i);
      assert front[..i] == targets[..i];
    }
  }

  /** A sync whose source type is not registered is reported, whatever else happens. */
  lemma MissingSourceIsReported(w: World, t: Template)
    requires DeviceOk(w.net.device) && TrimmedIds(w.templates) && w.configured && t in w.templates
    requires t.sync.Some? && t.sync.value.enabled && t.sync.value.sourceType !in w.registry.sources
    ensures SyncError(t.id, None, SourceMissing) in Synced(w).1.value
  {
    hide SyncAll, SyncEach, DeviceOk, Writable;
    var i :| 0 <= i < |w.templates| && w.templates[i] == t;
    var before := SyncAll(w, w.templates[..i]).0;
    assert forall u | u in w.templates[..i] :: u in w.templates;
    SyncAllFramed(w, w.templates[..i]);
    assert SyncTemplate(before, t).1 == [SyncError(t.id, None, SourceMissing)];
    ErrorsAreKept(w, w.templates, i);
  }

  /** So is a source with refused parameters, for each target whose row is enabled. */
  lemma MisfitSourceIsReported(w: World, t: Template, st: SyncTarget)
    requires DeviceOk(w.net.device) && TrimmedIds(w.templates) && w.configured && t in w.templates
    requires t.sync.Some? && t.sync.value.enabled && t.sync.value.sourceType in w.registry.sources
    requires Lower(Trim(t.sync.value.mode)) != "internal_truth" && st in SyncTargets(w.devices, NormalScope(t.scope))
    requires !SourceValid(w.registry.sources[t.sync.value.sourceType], st.target.scope, t.sync.value.sourceParams)
    requires Flag(w.rows, KeyOf(st.ref, t.id))
    ensures SyncError(t.id, Some(st.ref), SourceInvalid) in Synced(w).1.value
  {
    hide SyncAll, DeviceOk, Writable, SourceValid, SyncTargets, KeyOf, Trim, Lower, SyncOne, NormalRef, Current;
    var (s, kind) := (t.sync.value, w.registry.sources[t.sync.value.sourceType]);
    var i :| 0 <= i < |w.templates| && w.templates[i] == t;
    var before := SyncAll(w, w.templates[..i]).0;
    assert forall u | u in w.templates[..i] :: u in w.templates;
    SyncAllFramed(w, w.templates[..i]);
    var targets := SyncTargets(w.devices, NormalScope(t.scope));
    var j :| 0 <= j < |targets| && targets[j] == st;
    forall x | x in targets ensures NormalRef(x.ref) == x.ref { SyncTargetRef(w.devices, NormalScope(t.scope), x); }
    assert forall x | x in targets[..j] :: x in targets;
    SyncEachFramed(before, t, s, kind, targets[..j]);
    MisfitOne(SyncEach(before, t, s, kind, targets[..j]).0, t, s, kind, st);
    TargetErrorsAreKept(before, t, s, kind, targets, j);
    assert SyncTemplate(before, t) == SyncEach(before, t, s, kind, targets);
    ErrorsAreKept(w, w.templates, i);
  }

  lemma MisfitOne(w: World, t: Template, s: Sync, kind: SourceKind, st: SyncTarget)
    requires Flag(w.rows, KeyOf(st.ref, t.id)) && !SourceValid(kind, st.target.scope, s.sourceParams)
    requires Lower(Trim(s.mode)) != "internal_truth"
    ensures SyncOne(w, t, s, kind, st) == (w, [SyncError(t.id, Some(st.ref), SourceInvalid)])
  {
    hide Read, SetState, Trim, Lower, SourceValid, Current, KeyOf;
    CurrentTold(w.rows, KeyOf(st.ref, t.id), t.defaultState);
  }

  /** Without faults and triggers, a fact the router does not know (no such rule, no address
      to look for) is reported for each target whose row is enabled. */
  lemma UnknownFactIsReported(w: World, t: Template, st: SyncTarget)
    requires Calm(w) && w.configured && w.net.plan == [] && t in w.templates
    requires t.sync.Some? && t.sync.value.enabled && t.sync.value.sourceType in w.registry.sources
    requires Lower(Trim(t.sync.value.mode)) != "internal_truth" && st in SyncTargets(w.devices, NormalScope(t.scope))
    requires var (kind, params) := (w.registry.sources[t.sync.value.sourceType], t.sync.value.sourceParams);
             SourceValid(kind, st.target.scope, params)
             && SourceTruth(w.net.device, kind, st.target, params).None?
    requires Flag(w.rows, KeyOf(st.ref, t.id))
    ensures SyncError(t.id, Some(st.ref), ReadFailed) in Synced(w).1.value
  {
    hide SyncAll, DeviceOk, SourceValid, SyncTargets, KeyOf, Trim, Lower, SyncOne, NormalRef, Current, SourceTruth;
    hide CanonicalDevices, TemplatesDone, AllDone, Writable;
    var (s, kind) := (t.sync.value, w.registry.sources[t.sync.value.sourceType]);
    var i :| 0 <= i < |w.templates| && w.templates[i] == t;
    var before := SyncAll(w, w.templates[..i]).0;
    assert forall u | u in w.templates[..i] :: u in w.templates;
    SyncAllFramed(w, w.templates[..i]);
    SyncAllSettles(w, w.templates[..i]);
    var targets := SyncTargets(w.devices, NormalScope(t.scope));
    SyncTargetsDiffer(w.devices, NormalScope(t.scope));
    var j :| 0 <= j < |targets| && targets[j] == st;
    forall x | x in targets ensures NormalRef(x.ref) == x.ref { SyncTargetRef(w.devices, NormalScope(t.scope), x); }
    assert forall x | x in targets[..j] :: x in targets;
    SyncEachFramed(before, t, s, kind, targets[..j]);
    SyncEachSettles(before, t, targets[..j]);
    UnreadOne(SyncEach(before, t, s, kind, targets[..j]).0, t, s, kind, st);
    TargetErrorsAreKept(before, t, s, kind, targets, j);
    assert SyncTemplate(before, t) == SyncEach(before, t, s, kind, targets);
    ErrorsAreKept(w, w.templates, i);
  }

  lemma UnreadOne(w: World, t: Template, s: Sync, kind: SourceKind, st: SyncTarget)
    requires Flag(w.rows, KeyOf(st.ref, t.id)) && SourceValid(kind, st.target.scope, s.sourceParams)
    requires Lower(Trim(s.mode)) != "internal_truth" && w.net.plan == [] && DeviceOk(w.net.device)
    requires SourceTruth(w.net.device, kind, st.target, s.sourceParams).None?
    ensures SyncError(t.id, Some(st.ref), ReadFailed) in SyncOne(w, t, s, kind, st).1
  {
    hide Read, SetState, Trim, Lower, SourceValid, Current, KeyOf, SourceTruth, DeviceOk;
    CurrentTold(w.rows, KeyOf(st.ref, t.id), t.defaultState);
    CleanRead(w.net, kind, st.target, s.sourceParams);
    assert SyncOne(w, t, s, kind, st).1 == [SyncError(t.id, Some(st.ref), ReadFailed)];
  }
}
