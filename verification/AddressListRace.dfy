/** Any number of threads adding to and removing from address lists through one client,
    over a reliable transport. A schedule picks, step by step, the thread that moves; each
    RouterOS command is one step. The lock spans look-up and change. */
module AddressListRace {
  import opened Text
  import opened Devices
  import opened AddressLists

  type Tid = int

  datatype Op = AddOp(list: string, address: string) | RemoveOp(list: string, address: string)

  /** Where a thread is inside `AddAddressToList` or `RemoveAddressFromList`. */
  datatype Pc =
    | Idle
    | Waiting(op: Op)
    | Holding(op: Op)
    | Looked(op: Op, present: bool)
    | Removing(op: Op, ids: seq<string>)
    | Leaving(op: Op)

  /** `locked` is false in a variant of the client without the mutex; `rejects` tells
      whether the device itself refuses duplicates. */
  datatype Setup = Setup(locked: bool, rejects: bool)

  datatype State = State(entries: seq<Entry>, holder: Option<Tid>, threads: map<Tid, Pc>, log: seq<Op>)

  datatype Choice = Call(tid: Tid, op: Op) | Advance(tid: Tid)

  function PcOf(s: State, tid: Tid): Pc {
    if tid in s.threads then s.threads[tid] else Idle
  }

  function At(s: State, tid: Tid, pc: Pc): State {
    s.(threads := s.threads[tid := pc])
  }

  function IdsOf(entries: seq<Entry>, list: string, address: string): seq<string> {
    if entries == [] then []
    else
      var front := IdsOf(entries[..|entries| - 1], list, address);
      var last := entries[|entries| - 1];
      if Matches(last, list, address) then front + [last.id] else front
  }

  function DeviceAdd(entries: seq<Entry>, op: Op, rejects: bool): seq<Entry> {
    if rejects && Contained(entries, op.list, op.address) then entries
    else entries + [Entry(FreshId(entries), op.list, op.address)]
  }

  /** The chosen thread makes its next step; a step that is not enabled changes nothing. */
  function Step(setup: Setup, s: State, c: Choice): State {
    match c
    case Call(tid, op) => if PcOf(s, tid) == Idle then At(s, tid, Waiting(op)) else s
    case Advance(tid) =>
      match PcOf(s, tid)
      case Idle => s
      case Waiting(op) =>
        if setup.locked && s.holder.Some? then s else At(s, tid, Holding(op)).(holder := Some(tid))
      case Holding(op) =>
        At(s, tid, if op.AddOp? then Looked(op, Contained(s.entries, op.list, op.address))
                   else Removing(op, IdsOf(s.entries, op.list, op.address)))
      case Looked(op, present) =>
        At(s, tid, Leaving(op)).(entries := if present then s.entries else DeviceAdd(s.entries, op, setup.rejects))
      case Removing(op, ids) =>
        if ids == [] then At(s, tid, Leaving(op))
        else At(s, tid, Removing(op, ids[1..])).(entries := WithoutId(s.entries, ids[0]))
      case Leaving(op) => At(s, tid, Idle).(holder := None, log := s.log + [op])
  }

  function Run(setup: Setup, s: State, schedule: seq<Choice>): State {
    if schedule == [] then s
    else Step(setup, Run(setup, s, schedule[..|schedule| - 1]), schedule[|schedule| - 1])
  }

  function Start(entries: seq<Entry>): State {
    State(entries, None, map[], [])
  }

  // ---- The atomic operations ----

  function Apply(entries: seq<Entry>, op: Op): seq<Entry> {
    if op.AddOp? then WithEntry(entries, op.list, op.address) else Others(entries, op.list, op.address)
  }

  function Serial(entries: seq<Entry>, log: seq<Op>): seq<Entry> {
    if log == [] then entries else Apply(Serial(entries, log[..|log| - 1]), log[|log| - 1])
  }

  // ---- The invariant ----

  predicate InLock(pc: Pc) {
    pc.Holding? || pc.Looked? || pc.Removing? || pc.Leaving?
  }

  /** How far the holder has got from the serial state `base`. */
  ghost predicate Progress(entries: seq<Entry>, base: seq<Entry>, pc: Pc) {
    match pc
    case Holding(_) => entries == base
    case Looked(op, present) => op.AddOp? && entries == base && present == Contained(entries, op.list, op.address)
    case Removing(op, ids) =>
      && op.RemoveOp?
      && Others(entries, op.list, op.address) == Others(base, op.list, op.address)
      && OnlyMatching(entries, ids, op.list, op.address)
      && forall e | e in entries && Matches(e, op.list, op.address) :: e.id in ids
    case Leaving(op) => entries == Apply(base, op)
    case _ => false
  }

  ghost predicate Invariant(s: State, first: seq<Entry>) {
    && EntriesOk(s.entries)
    && (forall tid :: InLock(PcOf(s, tid)) <==> s.holder == Some(tid))
    && (if s.holder.None? then s.entries == Serial(first, s.log)
        else Progress(s.entries, Serial(first, s.log), PcOf(s, s.holder.value)))
  }

  lemma {:induction false} IdsOfMembers(entries: seq<Entry>, list: string, address: string)
    ensures forall id ::
      id in IdsOf(entries, list, address) <==> exists e | e in entries :: Matches(e, list, address) && e.id == id
  {
    if entries != [] {
      var front, last := entries[..|entries| - 1], entries[|entries| - 1];
      assert entries == front + [last];
      IdsOfMembers(front, list, address);
    }
  }

  lemma LookupStarts(entries: seq<Entry>, op: Op)
    requires EntriesOk(entries) && op.RemoveOp?
    ensures Progress(entries, entries, Removing(op, IdsOf(entries, op.list, op.address)))
  {
    hide EntriesOk;
    var ids := IdsOf(entries, op.list, op.address);
    IdsOfMembers(entries, op.list, op.address);
    forall e | e in entries && e.id in ids ensures Matches(e, op.list, op.address) {
      var x :| x in entries && Matches(x, op.list, op.address) && x.id == e.id;
      SameIdSameEntry(entries, x, e);
    }
  }

  lemma RemovalProceeds(entries: seq<Entry>, base: seq<Entry>, op: Op, ids: seq<string>)
    requires EntriesOk(entries) && ids != [] && Progress(entries, base, Removing(op, ids))
    ensures EntriesOk(WithoutId(entries, ids[0])) && Progress(WithoutId(entries, ids[0]), base, Removing(op, ids[1..]))
  {
    hide EntriesOk;
    WithoutIdOk(entries, ids[0]);
    OthersWithoutId(entries, ids[0], op.list, op.address);
    assert ids == [ids[0]] + ids[1..];
  }

  lemma RemovalEnds(entries: seq<Entry>, base: seq<Entry>, op: Op)
    requires Progress(entries, base, Removing(op, []))
    ensures entries == Apply(base, op)
  {
    OthersOfUnmatched(entries, op.list, op.address);
  }

  lemma InsertionEnds(entries: seq<Entry>, op: Op, present: bool, rejects: bool)
    requires EntriesOk(entries) && op.AddOp? && present == Contained(entries, op.list, op.address)
    ensures (if present then entries else DeviceAdd(entries, op, rejects)) == Apply(entries, op)
    ensures EntriesOk(Apply(entries, op))
  {
    WithEntryOk(entries, op.list, op.address);
  }

  lemma StepKeeps(setup: Setup, s: State, c: Choice, first: seq<Entry>)
    requires setup.locked && Invariant(s, first)
    ensures Invariant(Step(setup, s, c), first)
  {
    hide EntriesOk, Apply, Others, Contained, DeviceAdd, IdsOf, OnlyMatching, WithoutId;
    var after := Step(setup, s, c);
    var base := Serial(first, s.log);
    if c.Advance? {
      match PcOf(s, c.tid)
      case Idle =>
      case Waiting(op) =>
      case Holding(op) => if op.RemoveOp? { LookupStarts(s.entries, op); }
      case Looked(op, present) => InsertionEnds(s.entries, op, present, setup.rejects);
      case Removing(op, ids) =>
        if ids == [] { RemovalEnds(s.entries, base, op); } else { RemovalProceeds(s.entries, base, op, ids); }
      case Leaving(op) =>
        assert (s.log + [op])[..|s.log|] == s.log;
    }
    forall tid ensures InLock(PcOf(after, tid)) <==> after.holder == Some(tid) {
      assert InLock(PcOf(s, tid)) <==> s.holder == Some(tid);
      assert InLock(PcOf(s, c.tid)) <==> s.holder == Some(c.tid);
    }
  }

  lemma {:induction false} RunKeeps(setup: Setup, entries: seq<Entry>, schedule: seq<Choice>)
    requires setup.locked && EntriesOk(entries)
    ensures Invariant(Run(setup, Start(entries), schedule), entries)
  {
    hide Step, EntriesOk;
    if schedule != [] {
      RunKeeps(setup, entries, schedule[..|schedule| - 1]);
      StepKeeps(setup, Run(setup, Start(entries), schedule[..|schedule| - 1]), schedule[|schedule| - 1], entries);
    }
  }

  /** Every interleaving is serial: whenever nobody is inside, the entries are the result of
      the completed operations, one after the other in lock order. */
  lemma InterleavingsAreSerial(setup: Setup, entries: seq<Entry>, schedule: seq<Choice>)
    requires setup.locked && EntriesOk(entries)
    ensures var s := Run(setup, Start(entries), schedule);
            s.holder.None? ==> s.entries == Serial(entries, s.log)
  {
    RunKeeps(setup, entries, schedule);
  }

  // ---- No deadlock ----

  /** The thread moves `n` times while the others stand still. */
  function Advances(setup: Setup, s: State, tid: Tid, n: nat): State
    decreases n
  {
    if n == 0 then s else Advances(setup, Step(setup, s, Advance(tid)), tid, n - 1)
  }

  function Stage(pc: Pc): nat {
    match pc
    case Idle => 0
    case Leaving(_) => 1
    case Looked(_, _) => 2
    case Removing(_, _) => 2
    case Holding(_) => 3
    case Waiting(_) => 4
  }

  function Left(pc: Pc): nat {
    if pc.Removing? then |pc.ids| else 0
  }

  /** A thread that holds the lock, or finds it free, comes to the end of its call. */
  lemma {:induction false} CallEnds(setup: Setup, s: State, tid: Tid) returns (n: nat)
    requires PcOf(s, tid) != Idle && (PcOf(s, tid).Waiting? ==> s.holder.None?)
    ensures var r := Advances(setup, s, tid, n);
            && PcOf(r, tid) == Idle && r.holder == None && r.log == s.log + [PcOf(s, tid).op]
            && forall other | other != tid :: PcOf(r, other) == PcOf(s, other)
    decreases Stage(PcOf(s, tid)), Left(PcOf(s, tid))
  {
    hide Contained, IdsOf, DeviceAdd, WithoutId;
    var next := Step(setup, s, Advance(tid));
    if PcOf(s, tid).Leaving? {
      n := 1;
      assert Advances(setup, next, tid, 0) == next;
    } else {
      var m := CallEnds(setup, next, tid);
      n := m + 1;
    }
  }

  lemma {:induction false} AdvancesKeep(setup: Setup, s: State, tid: Tid, n: nat, first: seq<Entry>)
    requires setup.locked && Invariant(s, first)
    ensures Invariant(Advances(setup, s, tid, n), first)
    decreases n
  {
    hide Invariant, Step;
    if n > 0 {
      StepKeeps(setup, s, Advance(tid), first);
      AdvancesKeep(setup, Step(setup, s, Advance(tid)), tid, n - 1, first);
    }
  }

  lemma HolderIsInside(s: State, first: seq<Entry>)
    requires Invariant(s, first)
    ensures s.holder.Some? ==> InLock(PcOf(s, s.holder.value))
    ensures s.holder.None? ==> s.entries == Serial(first, s.log)
  {
    hide Serial, Progress, EntriesOk;
    if s.holder.Some? { assert InLock(PcOf(s, s.holder.value)); }
  }

  /** From every interleaving each call can still come to its end, after the call that holds
      the lock, if any; it then is the last of the log, and the entries are the log's. */
  lemma EveryCallCanFinish(setup: Setup, entries: seq<Entry>, schedule: seq<Choice>, tid: Tid)
    requires setup.locked && EntriesOk(entries) && PcOf(Run(setup, Start(entries), schedule), tid) != Idle
    ensures var s := Run(setup, Start(entries), schedule);
            var first := if s.holder.Some? then s.holder.value else tid;
            exists m: nat, n: nat ::
              var r := Advances(setup, Advances(setup, s, first, m), tid, n);
              && PcOf(r, tid) == Idle && r.entries == Serial(entries, r.log)
              && r.log != [] && r.log[|r.log| - 1] == PcOf(s, tid).op
  {
    hide Advances, Step, Serial, Run, Invariant;
    var s := Run(setup, Start(entries), schedule);
    RunKeeps(setup, entries, schedule);
    HolderIsInside(s, entries);
    var first := if s.holder.Some? then s.holder.value else tid;
    var m: nat := 0;
    assert Advances(setup, s, first, 0) == s by { NoMoves(setup, s, first); }
    if s.holder.Some? && s.holder != Some(tid) { m := CallEnds(setup, s, first); }
    var free := Advances(setup, s, first, m);
    AdvancesKeep(setup, s, first, m, entries);
    var n := CallEnds(setup, free, tid);
    AdvancesKeep(setup, free, tid, n, entries);
    var r := Advances(setup, free, tid, n);
    HolderIsInside(r, entries);
    assert r.log == free.log + [PcOf(s, tid).op];
  }

  lemma NoMoves(setup: Setup, s: State, tid: Tid)
    ensures Advances(setup, s, tid, 0) == s
  {}

  // ---- No second entry ----

  function Bound(entries: seq<Entry>, list: string, address: string): nat {
    if |Matching(entries, list, address)| == 0 then 1 else |Matching(entries, list, address)|
  }

  lemma {:induction false} RemovalNeverAdds(entries: seq<Entry>, id: string, list: string, address: string)
    ensures |Matching(WithoutId(entries, id), list, address)| <= |Matching(entries, list, address)|
  {
    if entries != [] {
      var front, last := entries[..|entries| - 1], entries[|entries| - 1];
      RemovalNeverAdds(front, id, list, address);
      var kept := WithoutId(front, id);
      assert (kept + [last])[..|kept|] == kept;
    }
  }

  lemma AppendCounts(entries: seq<Entry>, e: Entry, list: string, address: string)
    ensures |Matching(entries + [e], list, address)|
            == |Matching(entries, list, address)| + if Matches(e, list, address) then 1 else 0
  {
    assert (entries + [e])[..|entries|] == entries;
  }

  lemma InsertionCounts(s: State, op: Op, rejects: bool, list: string, address: string)
    requires op.AddOp? && !Contained(s.entries, op.list, op.address)
    ensures |Matching(DeviceAdd(s.entries, op, rejects), list, address)| <= 1
         || |Matching(DeviceAdd(s.entries, op, rejects), list, address)| <= |Matching(s.entries, list, address)|
  {
    var e := Entry(FreshId(s.entries), op.list, op.address);
    AppendCounts(s.entries, e, list, address);
    if Matches(e, list, address) {
      forall x | x in s.entries ensures !Matches(x, list, address) {
        assert Matches(x, op.list, op.address) <==> Matches(x, list, address);
      }
      OneMoreEntry(s.entries, list, address);
    }
  }

  lemma {:induction false} RunIsBounded(setup: Setup, entries: seq<Entry>, schedule: seq<Choice>, list: string,
        address: string)
    requires setup.locked && EntriesOk(entries)
    ensures |Matching(Run(setup, Start(entries), schedule).entries, list, address)| <= Bound(entries, list, address)
  {
    hide EntriesOk, Matching, DeviceAdd, Others, Contained;
    if schedule != [] {
      var front, c := schedule[..|schedule| - 1], schedule[|schedule| - 1];
      RunIsBounded(setup, entries, front, list, address);
      RunKeeps(setup, entries, front);
      var s := Run(setup, Start(entries), front);
      if c.Advance? {
        match PcOf(s, c.tid)
        case Looked(op, present) =>
          assert InLock(PcOf(s, c.tid));
          if !present { InsertionCounts(s, op, setup.rejects, list, address); }
        case Removing(op, ids) => if ids != [] { RemovalNeverAdds(s.entries, ids[0], list, address); }
        case _ =>
      }
    }
  }

  /** In every interleaving of any number of threads no entry is ever doubled, even on a
      device that would accept duplicates: a key has at most max(1, before) entries. */
  lemma NeverASecondEntry(setup: Setup, entries: seq<Entry>, schedule: seq<Choice>, list: string, address: string)
    requires setup.locked && EntriesOk(entries)
    ensures |Matching(Run(setup, Start(entries), schedule).entries, list, address)| <= Bound(entries, list, address)
  {
    RunIsBounded(setup, entries, schedule, list, address);
  }

  /** Without the lock two threads can both look before either adds. */
  function RaceSchedule(op: Op): seq<Choice> {
    [Call(0, op), Call(1, op), Advance(0), Advance(1), Advance(0), Advance(1), Advance(0), Advance(1)]
  }

  lemma RunSteps(setup: Setup, s: State, front: seq<Choice>, c: Choice)
    ensures Run(setup, s, front + [c]) == Step(setup, Run(setup, s, front), c)
  {
    assert (front + [c])[..|front|] == front;
  }

  /** The lock is needed: without it, and on a device that accepts duplicates, one address
      can be added twice. */
  lemma WithoutLockEntriesDouble(list: string, address: string)
    ensures |Matching(Run(Setup(false, false), Start([]), RaceSchedule(AddOp(list, address))).entries, list, address)|
      == 2
  {
    hide FreshId, NormalAddress;
    var op := AddOp(list, address);
    var setup := Setup(false, false);
    var r := RaceSchedule(op);
    var s0 := Start([]);
    assert r[..0] == [] && r[..1] == r[..0] + [r[0]] && r[..2] == r[..1] + [r[1]] && r[..3] == r[..2] + [r[2]];
    assert r[..4] == r[..3] + [r[3]] && r[..5] == r[..4] + [r[4]] && r[..6] == r[..5] + [r[5]];
    assert r[..7] == r[..6] + [r[6]] && r == r[..7] + [r[7]];
    RunSteps(setup, s0, r[..0], r[0]); RunSteps(setup, s0, r[..1], r[1]);
    RunSteps(setup, s0, r[..2], r[2]); RunSteps(setup, s0, r[..3], r[3]);
    RunSteps(setup, s0, r[..4], r[4]); RunSteps(setup, s0, r[..5], r[5]);
    RunSteps(setup, s0, r[..6], r[6]); RunSteps(setup, s0, r[..7], r[7]);
    assert Run(setup, s0, r[..6]) == State([], Some(1), map[0 := Looked(op, false), 1 := Looked(op, false)], []);
    var e := Entry(FreshId([]), list, address);
    var s7 := Run(setup, s0, r[..7]);
    assert s7.entries == [] + [e] && PcOf(s7, 1) == Looked(op, false);
    AppendCounts([], e, list, address);
    AppendCounts([e], Entry(FreshId([e]), list, address), list, address);
    assert [] + [e] == [e];
  }
}
