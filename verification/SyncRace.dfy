/** The periodic sync and the request handlers share no lock
    (addon/internal/services/automation/engine/engine.go:167-220). Here one step of a sync is
    taken apart into reading the row, reading the router and writing, with anything a request
    does to the world in between. */
module SyncRace {
  import opened Text
  import opened Devices
  import opened Transport
  import opened AddressLists
  import opened FirewallRules
  import opened Adapters
  import opened Templates
  import opened Engine
  import opened SyncLaws
  import opened UserChanges

  /** What the sync holds between its steps: a row, then also the value it read. */
  datatype Pc =
    | Out
    | RowRead(t: Template, st: SyncTarget, current: Row)
    | ValueRead(t: Template, st: SyncTarget, current: Row, value: bool)

  datatype State = State(w: World, pc: Pc)

  datatype Choice = Begin(t: Template, st: SyncTarget) | Advance

  /** A row that a sync visits. */
  ghost predicate Visited(w: World, t: Template, st: SyncTarget) {
    && t in w.templates && t.sync.Some? && t.sync.value.enabled && t.sync.value.sourceType in w.registry.sources
    && st in SyncTargets(w.devices, NormalScope(t.scope))
  }

  ghost function Started(w: World, t: Template, st: SyncTarget): Pc {
    var current := Current(w.rows, KeyOf(st.ref, t.id), t.defaultState);
    if !Visited(w, t, st) || !current.enabled || InternalTruth(t.sync.value.mode) then Out else RowRead(t, st, current)
  }

  /** The state that the value read asks for, unless it is none or the one of the row read. */
  function Decided(t: Template, current: Row, value: bool): Option<string>
    requires t.sync.Some?
  {
    var state := Mapped(t.sync.value, value);
    if state == "" || state == current.state then None else Some(state)
  }

  /** The decision is stored over whatever the row has become, or set like a user's. */
  ghost function Written(w: World, t: Template, st: SyncTarget, current: Row, value: bool): World
    requires t.sync.Some?
  {
    match Decided(t, current, value)
    case None => w
    case Some(state) =>
      if t.sync.value.triggerActions then SetState(w, st.ref, t.id, state).0
      else w.(rows := w.rows[KeyOf(st.ref, t.id) := Row(current.enabled, state)])
  }

  ghost predicate Well(s: State) {
    && Proper(s.w)
    && (!s.pc.Out? ==> Visited(s.w, s.pc.t, s.pc.st) && s.pc.current.enabled && !InternalTruth(s.pc.t.sync.value.mode))
  }

  ghost function Step(s: State, c: Choice): State
    requires Well(s)
  {
    match c
    case Begin(t, st) => if s.pc.Out? then State(s.w, Started(s.w, t, st)) else s
    case Advance =>
      match s.pc
      case Out => s
      case RowRead(t, st, current) =>
        var kind := s.w.registry.sources[t.sync.value.sourceType];
        if !SourceValid(kind, st.target.scope, t.sync.value.sourceParams) then State(s.w, Out)
        else
          var (net, value) := Read(s.w.net, kind, st.target, t.sync.value.sourceParams);
          State(s.w.(net := net), if value.None? then Out else ValueRead(t, st, current, value.value))
      case ValueRead(t, st, current, value) => State(Written(s.w, t, st, current, value), Out)
  }

  lemma StepKeepsSetup(s: State, c: Choice)
    requires Well(s)
    ensures SameSetup(s.w, Step(s, c).w) && DeviceOk(Step(s, c).w.net.device)
  {
    hide DeviceOk, Read, SetState, Started, SourceValid, Decided, CanonicalDevices;
    match s.pc
    case RowRead(t, st, _) =>
      ReadTellsTheTruth(s.w.net, s.w.registry.sources[t.sync.value.sourceType], st.target, t.sync.value.sourceParams);
    case ValueRead(t, st, current, value) =>
      if Decided(t, current, value).Some? { SetStateEffect(s.w, st.ref, t.id, Decided(t, current, value).value); }
    case Out =>
  }

  lemma StepKeepsWell(s: State, c: Choice)
    requires Well(s)
    ensures Well(Step(s, c))
  {
    hide DeviceOk, Read, SetState, SourceValid, Decided, CanonicalDevices, SyncTargets, InternalTruth, Current;
    StepKeepsSetup(s, c);
  }

  ghost function Run(s: State, schedule: seq<Choice>): (r: State)
    requires Well(s)
    ensures Well(r)
  {
    if schedule == [] then s
    else
      var before := Run(s, schedule[..|schedule| - 1]);
      StepKeepsWell(before, schedule[|schedule| - 1]);
      Step(before, schedule[|schedule| - 1])
  }

  // ---- Undisturbed it is the sync of before ----

  lemma {:induction false} RunConcat(s: State, first: seq<Choice>, later: seq<Choice>)
    requires Well(s)
    ensures Run(s, first + later) == Run(Run(s, first), later)
  {
    hide Step, Well;
    if later == [] {
      assert first + later == first;
    } else {
      var n := |later| - 1;
      RunConcat(s, first, later[..n]);
      assert (first + later)[..|first + later| - 1] == first + later[..n];
    }
  }

  function Undisturbed3(t: Template, st: SyncTarget): seq<Choice> {
    [Begin(t, st), Advance, Advance]
  }

  lemma ThreeSteps(s: State, a: Choice, b: Choice, c: Choice)
    requires Well(s)
    ensures Well(Step(s, a)) && Well(Step(Step(s, a), b))
    ensures Run(s, [a, b, c]) == Step(Step(Step(s, a), b), c)
  {
    hide Step, Well;
    StepKeepsWell(s, a);
    StepKeepsWell(Step(s, a), b);
    assert [a, b, c][..2] == [a, b] && [a, b][..1] == [a] && [a][..0] == [];
    assert Run(s, []) == s && Run(s, [a]) == Step(s, a) && Run(s, [a, b]) == Step(Step(s, a), b);
  }

  /** The three steps in a row are one step of the sync. */
  lemma ThreeStepsAreOne(w: World, t: Template, st: SyncTarget)
    requires Proper(w) && Visited(w, t, st)
    ensures Run(State(w, Out), Undisturbed3(t, st))
         == State(SyncOne(w, t, t.sync.value, w.registry.sources[t.sync.value.sourceType], st).0, Out)
  {
    hide Proper, Visited, Read, SetState, SourceValid, Current, InternalTruth, Mapped, Run;
    ThreeSteps(State(w, Out), Begin(t, st), Advance, Advance);
  }

  lemma {:induction false} RunKeepsSetup(s: State, schedule: seq<Choice>)
    requires Well(s)
    ensures SameSetup(s.w, Run(s, schedule).w)
  {
    hide Step, Well;
    if schedule != [] {
      RunKeepsSetup(s, schedule[..|schedule| - 1]);
      StepKeepsSetup(Run(s, schedule[..|schedule| - 1]), schedule[|schedule| - 1]);
    }
  }

  lemma {:induction false} EachIsASchedule(w: World, t: Template, targets: seq<SyncTarget>)
        returns (schedule: seq<Choice>)
    requires Proper(w) && forall st | st in targets :: Visited(w, t, st)
    requires t.sync.Some? && t.sync.value.sourceType in w.registry.sources
    ensures Run(State(w, Out), schedule)
         == State(SyncEach(w, t, t.sync.value, w.registry.sources[t.sync.value.sourceType], targets).0, Out)
  {
    hide Step, SyncOne, Proper, SyncTargets;
    schedule := [];
    if targets != [] {
      var front, st := targets[..|targets| - 1], targets[|targets| - 1];
      assert st in targets && forall x | x in front :: x in targets;
      var first := EachIsASchedule(w, t, front);
      RunKeepsSetup(State(w, Out), first);
      ThreeStepsAreOne(Run(State(w, Out), first).w, t, st);
      RunConcat(State(w, Out), first, Undisturbed3(t, st));
      schedule := first + Undisturbed3(t, st);
    }
  }

  lemma {:induction false} AllIsASchedule(w: World, templates: seq<Template>) returns (schedule: seq<Choice>)
    requires Proper(w) && forall t | t in templates :: t in w.templates
    ensures Run(State(w, Out), schedule) == State(SyncAll(w, templates).0, Out)
  {
    hide Step, SyncEach, Proper, SyncTargets;
    schedule := [];
    if templates != [] {
      var front, t := templates[..|templates| - 1], templates[|templates| - 1];
      assert t in templates && forall x | x in front :: x in templates;
      schedule := AllIsASchedule(w, front);
      RunKeepsSetup(State(w, Out), schedule);
      var before := Run(State(w, Out), schedule).w;
      if t.sync.Some? && t.sync.value.enabled && t.sync.value.sourceType in before.registry.sources {
        var more := EachIsASchedule(before, t, SyncTargets(before.devices, NormalScope(t.scope)));
        RunConcat(State(w, Out), schedule, more);
        schedule := schedule + more;
      }
    }
  }

  /** Every whole sync is one of the schedules considered here. */
  lemma SyncIsASchedule(w: World) returns (schedule: seq<Choice>)
    requires Proper(w) && w.configured
    ensures Run(State(w, Out), schedule) == State(Synced(w).0, Out)
  {
    hide Run, SyncAll;
    schedule := AllIsASchedule(w, w.templates);
  }

  // ---- Enabled flags ----

  /** What the decision puts into the row: with triggers only a declared state. */
  function Stores(t: Template, current: Row, value: bool): Option<string>
    requires t.sync.Some?
  {
    var state := Decided(t, current, value);
    if state.Some? && t.sync.value.triggerActions && state.value !in t.states then None else state
  }

  /** What the sync step under way will store if nothing more happens. */
  ghost function Pending(s: State): Option<string>
    requires Well(s)
  {
    match s.pc
    case Out => None
    case RowRead(t, st, current) =>
      var kind := s.w.registry.sources[t.sync.value.sourceType];
      var value := Read(s.w.net, kind, st.target, t.sync.value.sourceParams).1;
      if !SourceValid(kind, st.target.scope, t.sync.value.sourceParams) || value.None? then None
      else Stores(t, current, value.value)
    case ValueRead(t, _, current, value) => Stores(t, current, value)
  }

  function HandKey(pc: Pc): Key
    requires !pc.Out?
  {
    KeyOf(pc.st.ref, pc.t.id)
  }

  predicate HandFlag(s: State) {
    s.pc.Out? || Flag(s.w.rows, HandKey(s.pc))
  }

  ghost predicate FlagsStand(a: World, b: World) {
    forall key :: Flag(a.rows, key) == Flag(b.rows, key)
  }

  /** The writing step touches one row, and enables it if it stores anything. */
  lemma WriteEffect(w: World, t: Template, st: SyncTarget, current: Row, value: bool)
    requires Proper(w) && Visited(w, t, st) && current.enabled
    ensures var (after, key) := (Written(w, t, st, current, value), KeyOf(st.ref, t.id));
            && (forall k | k != key :: SameAt(w.rows, after.rows, k))
            && (Stores(t, current, value).None? ==> after.rows == w.rows)
            && (Flag(after.rows, key) <==> Flag(w.rows, key) || Stores(t, current, value).Some?)
  {
    hide DeviceOk, RunActions, CanonicalDevices, SyncTargets, Trim, NormalScope;
    TrimIsTrimmed(t.sync.value.whenTrue);
    TrimIsTrimmed(t.sync.value.whenFalse);
    AdmitsSyncTarget(w, t, st, Mapped(t.sync.value, value));
    SyncTargetRef(w.devices, NormalScope(t.scope), st);
    TrimmedId(w, t);
  }

  lemma TrimmedId(w: World, t: Template)
    requires Proper(w) && t in w.templates
    ensures Trim(t.id) == t.id
  {}

  lemma FlagStep(s: State, c: Choice)
    requires Well(s) && (Pending(s).None? || HandFlag(s))
    ensures FlagsStand(s.w, Step(s, c).w)
    ensures Well(Step(s, c)) && (Pending(Step(s, c)).None? || HandFlag(Step(s, c)))
  {
    hide DeviceOk, Read, SetState, SourceValid, CanonicalDevices, SyncTargets, Mapped, Stores, Written, InternalTruth,
         Trim;
    StepKeepsWell(s, c);
    if s.pc.ValueRead? && c.Advance? {
      WriteEffect(s.w, s.pc.t, s.pc.st, s.pc.current, s.pc.value);
      forall key ensures Flag(s.w.rows, key) == Flag(Step(s, c).w.rows, key) {
        assert key != HandKey(s.pc) ==> SameAt(s.w.rows, Step(s, c).w.rows, key);
      }
    }
  }

  lemma {:induction false} FlagRun(s: State, schedule: seq<Choice>)
    requires Well(s) && (Pending(s).None? || HandFlag(s))
    ensures FlagsStand(s.w, Run(s, schedule).w)
    ensures Pending(Run(s, schedule)).None? || HandFlag(Run(s, schedule))
  {
    hide Step, Well, Pending;
    if schedule != [] {
      FlagRun(s, schedule[..|schedule| - 1]);
      FlagStep(Run(s, schedule[..|schedule| - 1]), schedule[|schedule| - 1]);
    }
  }

  /** A sync interrupted by requests never changes an enabled flag afterwards, exactly when the
      row in its hand is still enabled or it will store nothing: a disable that lands between
      the row's reading and its writing is lost just when the sync decides to write. */
  lemma FlagsStandExactly(s: State)
    requires Well(s)
    ensures (forall schedule :: FlagsStand(s.w, Run(s, schedule).w)) <==> Pending(s).None? || HandFlag(s)
  {
    hide Step, Well, Pending, HandFlag, FlagsStand, Run;
    if Pending(s).None? || HandFlag(s) {
      forall schedule ensures FlagsStand(s.w, Run(s, schedule).w) { FlagRun(s, schedule); }
    } else {
      var schedule := DisableIsLost(s);
    }
  }

  lemma OneStep(s: State, c: Choice)
    requires Well(s)
    ensures Run(s, [c]) == Step(s, c)
  {
    hide Step, Well;
    assert [c][..0] == [];
    assert Run(s, []) == s;
  }

  lemma DisableIsLost(s: State) returns (schedule: seq<Choice>)
    requires Well(s) && Pending(s).Some? && !HandFlag(s)
    ensures !FlagsStand(s.w, Run(s, schedule).w)
  {
    hide DeviceOk, Read, SetState, SourceValid, CanonicalDevices, SyncTargets, Mapped, Stores, Written, InternalTruth,
         Trim, Run;
    var key := HandKey(s.pc);
    StepKeepsWell(s, Advance);
    OneStep(s, Advance);
    if s.pc.ValueRead? {
      schedule := [Advance];
      WriteEffect(s.w, s.pc.t, s.pc.st, s.pc.current, s.pc.value);
      assert Flag(Run(s, schedule).w.rows, key) != Flag(s.w.rows, key);
    } else {
      var read := Step(s, Advance);
      schedule := [Advance] + [Advance];
      RunConcat(s, [Advance], [Advance]);
      OneStep(read, Advance);
      WriteEffect(read.w, read.pc.t, read.pc.st, read.pc.current, read.pc.value);
      assert Flag(Run(s, schedule).w.rows, key) != Flag(s.w.rows, key);
    }
  }

  // ---- A user's change ----

  /** The sync is not about to write the other state because of a value read before. */
  predicate Harmless(s: State, t: Template, st: SyncTarget, value: bool)
    requires t.sync.Some?
  {
    s.pc.ValueRead? && s.pc.t == t && s.pc.st == st && s.pc.value != value ==>
      Decided(t, s.pc.current, s.pc.value).None?
  }

  lemma ReadKeeps(s: State, t: Template, st: SyncTarget, f: Fact, value: bool)
    requires Well(s) && Kept(s.w, t, st, f, value) && s.pc.RowRead?
    ensures var after := Step(s, Advance); Kept(after.w, t, st, f, value) && Harmless(after, t, st, value)
  {
    hide DeviceOk, Read, SourceValid, CanonicalDevices, SyncTargets, Mapped, Decided, Truth, SourceFact, Spares,
         ActionFact;
    var kind := s.w.registry.sources[s.pc.t.sync.value.sourceType];
    ReadTellsTheTruth(s.w.net, kind, s.pc.st.target, s.pc.t.sync.value.sourceParams);
    KeptTransfers(s.w, Step(s, Advance).w, t, st, f, value);
  }

  lemma WriteAtHomeKeeps(s: State, t: Template, st: SyncTarget, f: Fact, value: bool)
    requires Well(s) && Kept(s.w, t, st, f, value) && Harmless(s, t, st, value)
    requires s.pc.ValueRead? && s.pc.t == t && s.pc.st == st
    ensures Step(s, Advance).w == s.w
  {
    hide DeviceOk, CanonicalDevices, SyncTargets, Truth, SourceFact, Spares, ActionFact, RunActions, Trim,
         NormalScope, Read,
         SourceValid, Started, NormalRef, FindTemplate;
    TrimIsTrimmed(t.sync.value.whenTrue);
    TrimIsTrimmed(t.sync.value.whenFalse);
    SyncTargetRef(s.w.devices, NormalScope(t.scope), st);
    AdmitsSyncTarget(s.w, t, st, Mapped(t.sync.value, value));
    TrimmedId(s.w, t);
  }

  lemma WriteElsewhereKeeps(s: State, t: Template, st: SyncTarget, f: Fact, value: bool)
    requires Well(s) && Kept(s.w, t, st, f, value) && s.pc.ValueRead? && (s.pc.t != t || s.pc.st != st)
    ensures Kept(Step(s, Advance).w, t, st, f, value)
  {
    hide DeviceOk, CanonicalDevices, SyncTargets, Truth, SourceFact, Spares, ActionFact, RunActions, Trim,
         NormalScope, Pairs,
         Holds, Current;
    var u, other, after := s.pc.t, s.pc.st, Step(s, Advance).w;
    var state := Mapped(u.sync.value, s.pc.value);
    TrimIsTrimmed(u.sync.value.whenTrue);
    TrimIsTrimmed(u.sync.value.whenFalse);
    StepKeepsSetup(s, Advance);
    PairsIsVisited(s.w, t, st, f);
    DistinctKeys(s.w, t, st, u, other);
    WriteEffect(s.w, u, other, s.pc.current, s.pc.value);
    AdmitsSyncTarget(s.w, u, other, state);
    if u.sync.value.triggerActions && state in u.states {
      ActionsSpare(s.w.net, s.w.registry, s.w.configured, other.target, u.states[state].actions, f);
    }
    KeptTransfers(s.w, after, t, st, f, value);
  }

  lemma PairsIsVisited(w: World, t: Template, st: SyncTarget, f: Fact)
    requires Pairs(w, t, st, f)
    ensures Visited(w, t, st) && Mapped(t.sync.value, true) != Mapped(t.sync.value, false)
    ensures forall value :: Mapped(t.sync.value, value) != "" && Mapped(t.sync.value, value) in t.states
  {
    assert SetsTo(w, t, st, f, true) && SetsTo(w, t, st, f, false);
  }

  lemma ChangeStep(s: State, c: Choice, t: Template, st: SyncTarget, f: Fact, value: bool)
    requires Well(s) && Kept(s.w, t, st, f, value) && Harmless(s, t, st, value)
    ensures var after := Step(s, c); Well(after) && Kept(after.w, t, st, f, value) && Harmless(after, t, st, value)
  {
    hide Kept, Well, Written, Decided, Read, SourceValid;
    StepKeepsWell(s, c);
    if c.Advance? {
      match s.pc
      case Out =>
      case RowRead(_, _, _) => ReadKeeps(s, t, st, f, value);
      case ValueRead(u, other, _, _) =>
        if u == t && other == st {
          WriteAtHomeKeeps(s, t, st, f, value);
        } else {
          WriteElsewhereKeeps(s, t, st, f, value);
        }
    }
  }

  lemma {:induction false} ChangeRun(s: State, schedule: seq<Choice>, t: Template, st: SyncTarget, f: Fact, value: bool)
    requires Well(s) && Kept(s.w, t, st, f, value) && Harmless(s, t, st, value)
    ensures var after := Run(s, schedule); Kept(after.w, t, st, f, value) && Harmless(after, t, st, value)
  {
    hide Kept, Well, Step, Harmless;
    if schedule != [] {
      ChangeRun(s, schedule[..|schedule| - 1], t, st, f, value);
      ChangeStep(Run(s, schedule[..|schedule| - 1]), schedule[|schedule| - 1], t, st, f, value);
    }
  }

  lemma StaleWriteUndoes(s: State, t: Template, st: SyncTarget, f: Fact, value: bool)
    requires Well(s) && Kept(s.w, t, st, f, value) && !Harmless(s, t, st, value)
    ensures !Holds(Step(s, Advance).w, t, st, f, value)
  {
    hide DeviceOk, CanonicalDevices, SyncTargets, Truth, SourceFact, Spares, ActionFact, RunActions, Trim, NormalScope;
    TrimIsTrimmed(t.sync.value.whenTrue);
    TrimIsTrimmed(t.sync.value.whenFalse);
    PairsIsVisited(s.w, t, st, f);
    SyncTargetRef(s.w.devices, NormalScope(t.scope), st);
    AdmitsSyncTarget(s.w, t, st, Mapped(t.sync.value, s.pc.value));
    TrimmedId(s.w, t);
  }

  /** A change that lands while a sync is under way stands through every further sync step,
      exactly when that sync has not already read the opposite value for this very row and
      decided on it. */
  lemma ChangeStandsExactly(s: State, t: Template, st: SyncTarget, f: Fact, value: bool)
    requires Well(s) && Kept(s.w, t, st, f, value)
    ensures (forall schedule :: Holds(Run(s, schedule).w, t, st, f, value)) <==> Harmless(s, t, st, value)
  {
    hide Well, Step, Harmless, Holds, Run;
    if Harmless(s, t, st, value) {
      forall schedule ensures Holds(Run(s, schedule).w, t, st, f, value) { ChangeRun(s, schedule, t, st, f, value); }
    } else {
      OneStep(s, Advance);
      StaleWriteUndoes(s, t, st, f, value);
    }
  }

  /** The world in which a sync goes on after a request set a state. */
  ghost function AfterSet(s: State, ref: Ref, capability: string, state: string): State {
    State(SetState(s.w, ref, capability, state).0, s.pc)
  }

  /** So a set in the middle of a sync, at whatever point, stands for good exactly then. */
  lemma SetAmidSyncStandsExactly(s: State, t: Template, st: SyncTarget, f: Fact, value: bool,
                                 ref: Ref, capability: string, state: string)
    requires Well(s) && Pairs(s.w, t, st, f) && NoOtherWriter(s.w, t, st, f)
    requires NormalRef(ref) == st.ref && Trim(capability) == t.id && Trim(state) == Mapped(t.sync.value, value)
    requires Current(s.w.rows, KeyOf(st.ref, t.id), t.defaultState) != Row(true, Trim(state))
    requires SetState(s.w, ref, capability, state).1 == Ok([])
    ensures Well(AfterSet(s, ref, capability, state))
    ensures (forall schedule :: Holds(Run(AfterSet(s, ref, capability, state), schedule).w, t, st, f, value))
            <==> Harmless(s, t, st, value)
  {
    hide SetState, DeviceOk, CanonicalDevices, Truth, Spares, SourceFact, ActionFact, Mapped, Current, Run, Holds,
         Trim, SyncTargets,
         NormalScope, Decided;
    SetEstablishes(s.w, t, st, f, value, ref, capability, state);
    var after := AfterSet(s, ref, capability, state);
    assert SetsTo(after.w, t, st, f, true) && SetsTo(after.w, t, st, f, false);
    ChangeStandsExactly(after, t, st, f, value);
  }

  // ---- Both losses happen ----

  /** A row set to "true" on a router that says otherwise, which a sync has just read. */
  ghost predicate Drifted(w: World, t: Template, st: SyncTarget, f: Fact) {
    && Proper(w) && Pairs(w, t, st, f) && NoOtherWriter(w, t, st, f) && w.configured && w.net.plan == []
    && f.Member? && !InternalTruth(t.sync.value.mode)
    && Current(w.rows, KeyOf(st.ref, t.id), t.defaultState) == Row(true, Mapped(t.sync.value, true))
    && Truth(w.net.device, f) == Some(false)
  }

  /** The sync has read row and router, and is about to write. */
  lemma ReadsTheDrift(w: World, t: Template, st: SyncTarget, f: Fact) returns (s: State)
    requires Drifted(w, t, st, f)
    ensures Well(State(w, Out)) && s == Run(State(w, Out), [Begin(t, st), Advance])
    ensures s.pc == ValueRead(t, st, Row(true, Mapped(t.sync.value, true)), false)
    ensures Drifted(s.w, t, st, f) && s.w.rows == w.rows && SameSetup(w, s.w)
  {
    hide DeviceOk, Read, CanonicalDevices, SyncTargets, SourceFact, Truth, Spares, ActionFact, InternalTruth, Current,
         Mapped;
    var s0 := State(w, Out);
    var kind := w.registry.sources[t.sync.value.sourceType];
    CleanRead(w.net, kind, st.target, t.sync.value.sourceParams);
    PairsIsVisited(w, t, st, f);
    FactIsRead(kind, st.target, t.sync.value.sourceParams, w.net.device, f);
    StepKeepsWell(s0, Begin(t, st));
    RunConcat(s0, [Begin(t, st)], [Advance]);
    OneStep(s0, Begin(t, st));
    OneStep(Step(s0, Begin(t, st)), Advance);
    s := Step(Step(s0, Begin(t, st)), Advance);
    assert [Begin(t, st)] + [Advance] == [Begin(t, st), Advance];
    assert SetsTo(w, t, st, f, true) && SetsTo(w, t, st, f, false);
    assert SetsTo(s.w, t, st, f, true) && SetsTo(s.w, t, st, f, false);
  }

  lemma FactIsRead(kind: SourceKind, target: Target, params: Params, d: Device, f: Fact)
    requires SourceFact(kind, target, params) == Some(f)
    ensures SourceValid(kind, target.scope, params) && SourceTruth(d, kind, target, params) == Truth(d, f)
  {}

  /** A user who switches the drifted row off and on again between the sync's reading and its
      writing, each time with success, finds it off afterwards. */
  lemma StaleReadUndoesASet(w: World, t: Template, st: SyncTarget, f: Fact) returns (s: State)
    requires Drifted(w, t, st, f)
    ensures Well(State(w, Out))
    ensures var read := Run(State(w, Out), [Begin(t, st), Advance]);
            var (off, on) := (Mapped(t.sync.value, false), Mapped(t.sync.value, true));
            && SetState(read.w, st.ref, t.id, off).1 == Ok([])
            && SetState(AfterSet(read, st.ref, t.id, off).w, st.ref, t.id, on).1 == Ok([])
            && s == AfterSet(AfterSet(read, st.ref, t.id, off), st.ref, t.id, on)
    ensures Well(s) && Holds(s.w, t, st, f, true) && !Holds(Run(s, [Advance]).w, t, st, f, true)
  {
    hide DeviceOk, CanonicalDevices, SyncTargets, SourceFact, Truth, Spares, ActionFact, InternalTruth, Run, SetState,
         Trim,
         NormalScope, NormalRef, Current;
    var read := ReadsTheDrift(w, t, st, f);
    var (off, on) := (Mapped(t.sync.value, false), Mapped(t.sync.value, true));
    MappedIsTrimmed(t.sync.value);
    PairsIsVisited(w, t, st, f);
    SyncTargetRef(w.devices, NormalScope(t.scope), st);
    TrimmedId(w, t);
    var first := SetsAmid(read, t, st, f, false);
    RowIsCurrent(first.w, t, st, f, false);
    s := SetsAmid(first, t, st, f, true);
    OneStep(s, Advance);
    StaleWriteUndoes(s, t, st, f, true);
  }

  lemma RowIsCurrent(w: World, t: Template, st: SyncTarget, f: Fact, value: bool)
    requires t.sync.Some? && Holds(w, t, st, f, value) && Mapped(t.sync.value, value) != ""
    ensures Current(w.rows, KeyOf(st.ref, t.id), t.defaultState) == Row(true, Mapped(t.sync.value, value))
  {
    hide Trim, Truth;
    MappedIsTrimmed(t.sync.value);
  }

  /** A successful set, with the sync where it was. */
  lemma SetsAmid(s: State, t: Template, st: SyncTarget, f: Fact, value: bool) returns (after: State)
    requires Well(s) && Pairs(s.w, t, st, f) && NoOtherWriter(s.w, t, st, f) && s.w.configured && s.w.net.plan == []
      && f.Member?
    requires Current(s.w.rows, KeyOf(st.ref, t.id), t.defaultState) != Row(true, Mapped(t.sync.value, value))
    ensures SetState(s.w, st.ref, t.id, Mapped(t.sync.value, value)).1 == Ok([])
    ensures after == AfterSet(s, st.ref, t.id, Mapped(t.sync.value, value))
    ensures Well(after) && Kept(after.w, t, st, f, value) && after.w.net.plan == [] && after.w.configured
  {
    hide SetState, DeviceOk, CanonicalDevices, Truth, Spares, SourceFact, ActionFact, Current, Trim, SyncTargets,
         NormalScope, NormalRef;
    MappedIsTrimmed(t.sync.value);
    SyncTargetRef(s.w.devices, NormalScope(t.scope), st);
    TrimmedId(s.w, t);
    var state := Mapped(t.sync.value, value);
    CleanSetSucceeds(s.w, t, st, f, value, st.ref, t.id, state);
    SetEstablishes(s.w, t, st, f, value, st.ref, t.id, state);
    after := AfterSet(s, st.ref, t.id, state);
    assert SetsTo(after.w, t, st, f, true) && SetsTo(after.w, t, st, f, false);
  }

  lemma DisableSucceeds(w: World, t: Template, st: SyncTarget)
    requires Proper(w) && Visited(w, t, st)
    ensures var (after, e) := Enabled(w, st.ref, t.id, false);
            && e == None && SameSetup(w, after) && after.net == w.net && !Flag(after.rows, KeyOf(st.ref, t.id))
  {
    hide DeviceOk, CanonicalDevices, SyncTargets, Trim, NormalScope, NormalRef, TargetOf, FindTemplate;
    SyncTargetRef(w.devices, NormalScope(t.scope), st);
    SyncTargetResolves(w.devices, NormalScope(t.scope), st);
    TrimmedId(w, t);
    TemplateFindsItself(w.templates, t);
  }

  /** A user who disables the drifted row in between finds it enabled afterwards. */
  lemma InterruptedDisableIsLost(w: World, t: Template, st: SyncTarget, f: Fact) returns (s: State)
    requires Drifted(w, t, st, f)
    ensures Well(State(w, Out))
    ensures var read := Run(State(w, Out), [Begin(t, st), Advance]);
            Enabled(read.w, st.ref, t.id, false) == (s.w, None) && s.pc == read.pc
    ensures Well(s) && !Flag(s.w.rows, KeyOf(st.ref, t.id)) && Flag(Run(s, [Advance]).w.rows, KeyOf(st.ref, t.id))
  {
    hide DeviceOk, CanonicalDevices, SyncTargets, SourceFact, Truth, Spares, ActionFact, InternalTruth, Run, Trim,
         NormalScope, NormalRef, Current, Mapped, Enabled, Written;
    var read := ReadsTheDrift(w, t, st, f);
    PairsIsVisited(w, t, st, f);
    DisableSucceeds(read.w, t, st);
    s := State(Enabled(read.w, st.ref, t.id, false).0, read.pc);
    OneStep(s, Advance);
    WriteEffect(s.w, t, st, s.pc.current, false);
  }
}
