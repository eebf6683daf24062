/** The pool of clients shared by all requests: any number of concurrent `getClient` and
    `Close` calls of one manager (addon/internal/routeros/client.go:279-330). Looking into
    the pool, publishing a new client (which closes the loser while it holds the lock),
    emptying the pool, creating a client and closing one are single steps. Clients are
    numbered in the order they were created. */
module ClientPool {
  import opened Text

  type Tid = int
  type Key = string
  type Cid = nat

  datatype Pc =
    | Idle
    | Looking(key: Key)
    | Creating(key: Key)
    | Publishing(key: Key, c: Cid)
    | Emptying
    | Draining(left: set<Cid>)

  /** `made[c]` is the configuration client `c` was created for. */
  datatype State = State(
    pool: map<Key, Cid>, made: seq<Key>, closed: set<Cid>, returned: seq<(Key, Cid)>, threads: map<Tid, Pc>)

  /** `ok` tells whether a creation succeeds, `pick` which client a drain closes next. */
  datatype Choice = CallGet(tid: Tid, key: Key) | CallClose(tid: Tid) | Advance(tid: Tid, ok: bool, pick: Cid)

  function PcOf(s: State, tid: Tid): Pc {
    if tid in s.threads then s.threads[tid] else Idle
  }

  datatype Moved = Moved(pc: Pc, s: State)

  /** Where a step takes its thread, and what it does to the rest. */
  function Act(s: State, pc: Pc, ok: bool, pick: Cid): Moved {
    match pc
    case Idle => Moved(Idle, s)
    case Looking(key) =>
      if key in s.pool then Moved(Idle, s.(returned := s.returned + [(key, s.pool[key])])) else Moved(Creating(key), s)
    case Creating(key) =>
      if ok then Moved(Publishing(key, |s.made|), s.(made := s.made + [key])) else Moved(Idle, s)
    case Publishing(key, c) =>
      if key in s.pool
      then Moved(Idle, s.(closed := s.closed + {c}, returned := s.returned + [(key, s.pool[key])]))
      else Moved(Idle, s.(pool := s.pool[key := c], returned := s.returned + [(key, c)]))
    case Emptying => Moved(Draining(s.pool.Values), s.(pool := map[]))
    case Draining(left) =>
      if left == {} then Moved(Idle, s)
      else if pick in left then Moved(Draining(left - {pick}), s.(closed := s.closed + {pick}))
      else Moved(pc, s)
  }

  function Step(s: State, c: Choice): State {
    match c
    case CallGet(tid, key) => if PcOf(s, tid) == Idle then s.(threads := s.threads[tid := Looking(key)]) else s
    case CallClose(tid) => if PcOf(s, tid) == Idle then s.(threads := s.threads[tid := Emptying]) else s
    case Advance(tid, ok, pick) =>
      var moved := Act(s, PcOf(s, tid), ok, pick);
      moved.s.(threads := s.threads[tid := moved.pc])
  }

  function Run(s: State, schedule: seq<Choice>): State {
    if schedule == [] then s else Step(Run(s, schedule[..|schedule| - 1]), schedule[|schedule| - 1])
  }

  function Start(): State { State(map[], [], {}, [], map[]) }

  // ---- The invariant ----

  /** The clients a thread alone is responsible for. */
  function Held(pc: Pc): set<Cid> {
    match pc
    case Publishing(_, c) => {c}
    case Draining(left) => left
    case _ => {}
  }

  function HeldBy(s: State, tid: Tid): set<Cid> {
    Held(PcOf(s, tid))
  }

  predicate Pooled(s: State, c: Cid) {
    c < |s.made| && s.made[c] in s.pool && s.pool[s.made[c]] == c
  }

  ghost predicate HasHolder(s: State, c: Cid) {
    exists tid :: c in HeldBy(s, tid)
  }

  ghost predicate PoolIsSound(s: State) {
    && (forall key | key in s.pool :: s.pool[key] < |s.made| && s.made[s.pool[key]] == key && s.pool[key] !in s.closed)
    && (forall c | c in s.closed :: c < |s.made|)
  }

  /** Created, and neither closed nor in the pool. */
  predicate Free(s: State, cs: set<Cid>) {
    forall c | c in cs :: c < |s.made| && c !in s.closed && !Pooled(s, c)
  }

  ghost predicate HeldApart(s: State) {
    && (forall tid :: Free(s, HeldBy(s, tid)))
    && (forall t, u | t != u :: HeldBy(s, t) !! HeldBy(s, u))
  }

  ghost predicate KeysMatch(s: State) {
    forall tid | PcOf(s, tid).Publishing? :: PcOf(s, tid).c < |s.made| && s.made[PcOf(s, tid).c] == PcOf(s, tid).key
  }

  ghost predicate NoneLost(s: State) {
    forall c: Cid | c < |s.made| :: c in s.closed || Pooled(s, c) || HasHolder(s, c)
  }

  ghost predicate Invariant(s: State) {
    PoolIsSound(s) && HeldApart(s) && KeysMatch(s) && NoneLost(s)
  }

  ghost predicate OnlyMoved(s: State, after: State, tid: Tid) {
    forall t | t != tid :: PcOf(after, t) == PcOf(s, t)
  }

  lemma StepIsLocal(s: State, c: Choice)
    ensures OnlyMoved(s, Step(s, c), c.tid)
    ensures c.Advance? ==>
      var moved := Act(s, PcOf(s, c.tid), c.ok, c.pick);
      PcOf(Step(s, c), c.tid) == moved.pc && Step(s, c) == moved.s.(threads := Step(s, c).threads)
    ensures !c.Advance? && Step(s, c) != s ==>
      HeldBy(Step(s, c), c.tid) == HeldBy(s, c.tid) && !PcOf(Step(s, c), c.tid).Publishing?
    ensures !c.Advance? ==> Step(s, c) == s.(threads := Step(s, c).threads)
  {
    hide Act;
  }

  lemma OthersAsBefore(s: State, after: State, tid: Tid)
    requires OnlyMoved(s, after, tid)
    ensures forall t | t != tid :: HeldBy(after, t) == HeldBy(s, t)
  {}

  /** The holders other than `tid` hold what they held. */
  lemma OthersHold(s: State, after: State, tid: Tid, c: Cid)
    requires OnlyMoved(s, after, tid) && HasHolder(s, c) && c !in HeldBy(s, tid)
    ensures HasHolder(after, c)
  {
    var t :| c in HeldBy(s, t);
    assert c in HeldBy(after, t);
  }

  lemma ItHolds(s: State, tid: Tid, c: Cid)
    requires c in HeldBy(s, tid)
    ensures HasHolder(s, c)
  {}

  /** What the moving thread must see to for the clients in hand to stay apart. */
  lemma StillApart(s: State, after: State, tid: Tid)
    requires HeldApart(s) && OnlyMoved(s, after, tid) && |s.made| <= |after.made|
    requires Free(after, HeldBy(after, tid))
    requires forall c | c in HeldBy(after, tid) :: c in HeldBy(s, tid) || forall t :: c !in HeldBy(s, t)
    requires forall t, c | t != tid && c in HeldBy(s, t) :: c !in after.closed && !Pooled(after, c)
    ensures HeldApart(after)
  {
    hide PcOf, Held, Pooled;
    OthersAsBefore(s, after, tid);
    forall t | t != tid ensures HeldBy(after, tid) !! HeldBy(s, t) {
      assert HeldBy(s, tid) !! HeldBy(s, t);
      forall c | c in HeldBy(after, tid) ensures c !in HeldBy(s, t) {}
    }
    forall t, u | t != u ensures HeldBy(after, t) !! HeldBy(after, u) {
      if t == tid {
        assert HeldBy(after, tid) !! HeldBy(s, u) && HeldBy(after, u) == HeldBy(s, u);
      } else if u == tid {
        assert HeldBy(after, tid) !! HeldBy(s, t) && HeldBy(after, t) == HeldBy(s, t);
      } else {
        assert HeldBy(s, t) !! HeldBy(s, u) && HeldBy(after, t) == HeldBy(s, t) && HeldBy(after, u) == HeldBy(s, u);
      }
    }
    forall t ensures Free(after, HeldBy(after, t)) {
      if t != tid { assert Free(s, HeldBy(s, t)) && HeldBy(after, t) == HeldBy(s, t); }
    }
  }

  ghost predicate SameShared(s: State, after: State) {
    after.pool == s.pool && after.made == s.made && after.closed == s.closed
  }

  lemma NothingMoves(s: State, after: State, tid: Tid)
    requires Invariant(s) && OnlyMoved(s, after, tid) && SameShared(s, after)
    requires HeldBy(after, tid) == HeldBy(s, tid) && (PcOf(after, tid).Publishing? ==> PcOf(after, tid) == PcOf(s, tid))
    ensures Invariant(after)
  {
    hide PcOf, Held;
    assert forall t :: HeldBy(after, t) == HeldBy(s, t);
    forall c: Cid ensures Pooled(after, c) == Pooled(s, c) {}
    StillApart(s, after, tid);
    forall c: Cid | c < |after.made| && c !in after.closed && !Pooled(after, c) ensures HasHolder(after, c) {
      assert HasHolder(s, c);
    }
  }

  lemma CreationKeeps(s: State, after: State, tid: Tid, key: Key)
    requires Invariant(s) && OnlyMoved(s, after, tid) && HeldBy(s, tid) == {}
    requires after.pool == s.pool && after.made == s.made + [key] && after.closed == s.closed
    requires PcOf(after, tid) == Publishing(key, |s.made|)
    ensures Invariant(after)
  {
    hide PcOf;
    OthersAsBefore(s, after, tid);
    forall c: Cid | c < |s.made| ensures Pooled(after, c) == Pooled(s, c) {}
    StillApart(s, after, tid);
    forall c: Cid | c < |after.made| && c !in after.closed && !Pooled(after, c) ensures HasHolder(after, c) {
      if c == |s.made| { ItHolds(after, tid, c); } else { OthersHold(s, after, tid, c); }
    }
  }

  lemma PublicationKeeps(s: State, after: State, tid: Tid, key: Key, x: Cid)
    requires Invariant(s) && OnlyMoved(s, after, tid) && PcOf(s, tid) == Publishing(key, x) && PcOf(after, tid) == Idle
    requires after.made == s.made && after.closed == s.closed && key !in s.pool && after.pool == s.pool[key := x]
    ensures Invariant(after)
  {
    hide PcOf;
    OthersAsBefore(s, after, tid);
    assert x in HeldBy(s, tid);
    forall c: Cid | c < |s.made| ensures Pooled(after, c) <==> Pooled(s, c) || c == x {}
    forall t | t != tid ensures x !in HeldBy(s, t) { assert HeldBy(s, t) !! HeldBy(s, tid); }
    StillApart(s, after, tid);
    forall c: Cid | c < |after.made| && c !in after.closed && !Pooled(after, c) ensures HasHolder(after, c) {
      OthersHold(s, after, tid, c);
    }
  }

  /** The loser of a race, and each drained client, is closed by its holder. */
  lemma ClosingKeeps(s: State, after: State, tid: Tid, x: Cid)
    requires Invariant(s) && OnlyMoved(s, after, tid) && x in HeldBy(s, tid)
    requires HeldBy(after, tid) == HeldBy(s, tid) - {x} && !PcOf(after, tid).Publishing?
    requires after.made == s.made && after.pool == s.pool && after.closed == s.closed + {x}
    ensures Invariant(after)
  {
    hide PcOf, Held;
    forall c: Cid | c < |s.made| ensures Pooled(after, c) == Pooled(s, c) {}
    OthersAsBefore(s, after, tid);
    forall t | t != tid ensures x !in HeldBy(s, t) { assert HeldBy(s, t) !! HeldBy(s, tid); }
    StillApart(s, after, tid);
    forall c: Cid | c < |after.made| && c !in after.closed && !Pooled(after, c) ensures HasHolder(after, c) {
      if c in HeldBy(s, tid) { ItHolds(after, tid, c); } else { OthersHold(s, after, tid, c); }
    }
  }

  lemma EmptyingKeeps(s: State, after: State, tid: Tid)
    requires Invariant(s) && OnlyMoved(s, after, tid) && HeldBy(s, tid) == {}
    requires after.made == s.made && after.pool == map[] && after.closed == s.closed
    requires PcOf(after, tid) == Draining(s.pool.Values)
    ensures Invariant(after)
  {
    hide PcOf;
    OthersAsBefore(s, after, tid);
    forall c ensures c in s.pool.Values <==> Pooled(s, c) {
      if c in s.pool.Values { var key :| key in s.pool && s.pool[key] == c; }
    }
    StillApart(s, after, tid);
    forall c: Cid | c < |after.made| && c !in after.closed && !Pooled(after, c) ensures HasHolder(after, c) {
      if Pooled(s, c) { ItHolds(after, tid, c); } else { OthersHold(s, after, tid, c); }
    }
  }

  lemma AdvanceKeeps(s: State, c: Choice)
    requires Invariant(s) && c.Advance?
    ensures Invariant(Step(s, c))
  {
    hide Step, PcOf, Invariant, OnlyMoved;
    var after := Step(s, c);
    StepIsLocal(s, c);
    match PcOf(s, c.tid)
    case Creating(key) => if c.ok { CreationKeeps(s, after, c.tid, key); } else { NothingMoves(s, after, c.tid); }
    case Publishing(key, x) =>
      if key in s.pool { ClosingKeeps(s, after, c.tid, x); } else { PublicationKeeps(s, after, c.tid, key, x); }
    case Emptying => EmptyingKeeps(s, after, c.tid);
    case Draining(left) =>
      if c.pick in left { ClosingKeeps(s, after, c.tid, c.pick); } else { NothingMoves(s, after, c.tid); }
    case _ => NothingMoves(s, after, c.tid);
  }

  lemma StepKeeps(s: State, c: Choice)
    requires Invariant(s)
    ensures Invariant(Step(s, c))
  {
    hide Step, PcOf, Invariant, OnlyMoved, Held;
    if c.Advance? {
      AdvanceKeeps(s, c);
    } else {
      StepIsLocal(s, c);
      if Step(s, c) != s { NothingMoves(s, Step(s, c), c.tid); }
    }
  }

  lemma {:induction false} RunKeeps(schedule: seq<Choice>)
    ensures Invariant(Run(Start(), schedule))
  {
    hide Step;
    if schedule == [] {
      assert forall tid :: PcOf(Start(), tid) == Idle;
    } else {
      RunKeeps(schedule[..|schedule| - 1]);
      StepKeeps(Run(Start(), schedule[..|schedule| - 1]), schedule[|schedule| - 1]);
    }
  }

  // ---- Main results ----

  datatype Place = InPool | InHand | Shut

  ghost predicate In(s: State, c: Cid, place: Place) {
    match place
    case InPool => Pooled(s, c)
    case InHand => HasHolder(s, c)
    case Shut => c in s.closed
  }

  /** In every interleaving each client ever created is in exactly one place: in the pool
      under its own configuration, in the hands of one thread, or closed. */
  lemma ClientsAreConserved(schedule: seq<Choice>, c: Cid)
    requires c < |Run(Start(), schedule).made|
    ensures exists place :: In(Run(Start(), schedule), c, place)
    ensures forall p, q | In(Run(Start(), schedule), c, p) && In(Run(Start(), schedule), c, q) :: p == q
    ensures forall t, u | c in HeldBy(Run(Start(), schedule), t) && c in HeldBy(Run(Start(), schedule), u) :: t == u
  {
    hide Run, PcOf, Held;
    RunKeeps(schedule);
    var s := Run(Start(), schedule);
    assert In(s, c, if c in s.closed then Shut else if Pooled(s, c) then InPool else InHand);
  }

  predicate NeverClosed(schedule: seq<Choice>) {
    forall k | 0 <= k < |schedule| :: !schedule[k].CallClose?
  }

  ghost predicate Shared(s: State) {
    && (forall r | r in s.returned :: r.0 in s.pool && s.pool[r.0] == r.1)
    && (forall tid :: !PcOf(s, tid).Emptying? && !PcOf(s, tid).Draining?)
  }

  lemma StepShares(s: State, c: Choice)
    requires Shared(s) && !c.CallClose?
    ensures Shared(Step(s, c))
  {
    forall tid ensures !PcOf(Step(s, c), tid).Emptying? && !PcOf(Step(s, c), tid).Draining? {
      assert !PcOf(s, tid).Emptying? && !PcOf(s, tid).Draining?;
    }
  }

  lemma {:induction false} RunShares(schedule: seq<Choice>)
    requires NeverClosed(schedule)
    ensures Shared(Run(Start(), schedule))
  {
    hide Step;
    if schedule == [] {
      assert forall tid :: PcOf(Start(), tid) == Idle;
    } else {
      RunShares(schedule[..|schedule| - 1]);
      StepShares(Run(Start(), schedule[..|schedule| - 1]), schedule[|schedule| - 1]);
    }
  }

  /** Until the manager is closed, all calls for one configuration, however they interleave,
      return one and the same client, and that client is open and in the pool. */
  lemma OneClientPerConfiguration(schedule: seq<Choice>, a: (Key, Cid), b: (Key, Cid))
    requires NeverClosed(schedule)
    requires a in Run(Start(), schedule).returned && b in Run(Start(), schedule).returned && a.0 == b.0
    ensures a.1 == b.1 && Pooled(Run(Start(), schedule), a.1) && a.1 !in Run(Start(), schedule).closed
  {
    hide Run, PcOf;
    RunShares(schedule);
    RunKeeps(schedule);
  }
}
