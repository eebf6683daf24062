/** The connection slot of one client under any number of concurrent `Run` and `Close`
    calls. A schedule moves one thread at a time; reading or swapping the slot (which the
    read-write lock makes atomic), taking a lock, one dial, one command and one close are
    single steps. Connections are numbered in the order they were dialled. */
module ConnectionSlot {
  import opened Text
  import Transport

  type Tid = int
  type Conn = int

  const RUN_ATTEMPTS := Transport.RUN_ATTEMPTS
  const DIAL_ATTEMPTS := Transport.DIAL_ATTEMPTS

  /** Where a thread is; `n` counts the attempts of `Run`, `d` those of `connect`. */
  datatype Pc =
    | Idle
    | RunStart                          // Run: closed?
    | CheckClosed(n: int)               // connect: closed?
    | CheckSlot(n: int)                 // connect: connected?
    | WaitMutex(n: int)                 // connect: take the connect lock
    | Recheck(n: int)                   // connect: connected by now?
    | Dialing(n: int, d: int)
    | DialSleep(n: int, d: int)
    | Installing(n: int, c: Conn)       // connect: about to put c into the slot
    | Unlocking(n: int)                 // connect: about to give the lock back
    | Fetch(n: int)                     // Run: read the slot
    | WaitRun(n: int, c: Conn)          // Run: take the command lock
    | Sending(n: int, c: Conn)          // Run: command under way on c
    | Disconnecting(n: int)             // disconnect: empty the slot
    | ClosingOld(n: int, c: Conn)       // disconnect: about to close c
    | Backoff(n: int)
    | CloseStart                        // Close: first caller?
    | CloseSwap                         // Close: empty the slot
    | ClosingLast(c: Conn)              // Close: about to close c

  datatype State = State(
    slot: Option<Conn>, mutex: Option<Tid>, runner: Option<Tid>, closed: bool,
    next: Conn, log: seq<Conn>, threads: map<Tid, Pc>)

  /** How the step of a thread turns out where that is not the client's choice. */
  datatype Luck = Good | Retryable | Fatal

  datatype Choice = CallRun(tid: Tid) | CallClose(tid: Tid) | Advance(tid: Tid, luck: Luck)

  function PcOf(s: State, tid: Tid): Pc {
    if tid in s.threads then s.threads[tid] else Idle
  }

  function At(s: State, tid: Tid, pc: Pc): State {
    s.(threads := s.threads[tid := pc])
  }

  /** `continue` of the retry loop. */
  function NextAttempt(n: int): Pc {
    if n >= RUN_ATTEMPTS then Idle else CheckClosed(n + 1)
  }

  /** Where a step takes its thread, and what it does to everything but the threads. */
  datatype Moved = Moved(pc: Pc, s: State)

  function Act(s: State, tid: Tid, pc: Pc, luck: Luck): Moved {
    match pc
    case Idle => Moved(Idle, s)
    case RunStart => Moved(if s.closed then Idle else CheckClosed(1), s)
    case CheckClosed(n) => Moved(if s.closed then Backoff(n) else CheckSlot(n), s)
    case CheckSlot(n) => Moved(if s.slot.Some? then Fetch(n) else WaitMutex(n), s)
    case WaitMutex(n) => if s.mutex.Some? then Moved(pc, s) else Moved(Recheck(n), s.(mutex := Some(tid)))
    case Recheck(n) => Moved(if s.slot.Some? then Unlocking(n) else Dialing(n, 1), s)
    case Dialing(n, d) =>
      if luck == Good then Moved(Installing(n, s.next), s.(next := s.next + 1))
      else if d >= DIAL_ATTEMPTS then Moved(Backoff(n), s.(mutex := None))
      else Moved(DialSleep(n, d), s)
    case DialSleep(n, d) =>
      if luck == Good then Moved(Dialing(n, d + 1), s) else Moved(Backoff(n), s.(mutex := None))
    case Installing(n, c) => Moved(Unlocking(n), s.(slot := Some(c)))
    case Unlocking(n) => Moved(Fetch(n), s.(mutex := None))
    case Fetch(n) => Moved(if s.slot.None? then NextAttempt(n) else WaitRun(n, s.slot.value), s)
    case WaitRun(n, c) => if s.runner.Some? then Moved(pc, s) else Moved(Sending(n, c), s.(runner := Some(tid)))
    case Sending(n, c) => Moved(if luck == Retryable then Disconnecting(n) else Idle, s.(runner := None))
    case Disconnecting(n) =>
      Moved(if s.slot.Some? then ClosingOld(n, s.slot.value) else Backoff(n), s.(slot := None))
    case ClosingOld(n, c) => Moved(Backoff(n), s.(log := s.log + [c]))
    case Backoff(n) => Moved(if luck == Good then NextAttempt(n) else Idle, s)
    case CloseStart => if s.closed then Moved(Idle, s) else Moved(CloseSwap, s.(closed := true))
    case CloseSwap => Moved(if s.slot.Some? then ClosingLast(s.slot.value) else Idle, s.(slot := None))
    case ClosingLast(c) => Moved(Idle, s.(log := s.log + [c]))
  }

  function Move(s: State, tid: Tid, luck: Luck): State {
    var moved := Act(s, tid, PcOf(s, tid), luck);
    At(moved.s, tid, moved.pc)
  }

  function Step(s: State, c: Choice): State {
    match c
    case CallRun(tid) => if PcOf(s, tid) == Idle then At(s, tid, RunStart) else s
    case CallClose(tid) => if PcOf(s, tid) == Idle then At(s, tid, CloseStart) else s
    case Advance(tid, luck) => Move(s, tid, luck)
  }

  function Run(s: State, schedule: seq<Choice>): State
    decreases |schedule|
  {
    if schedule == [] then s else Run(Step(s, schedule[0]), schedule[1..])
  }

  /** `New` returns with its first connection in the slot. */
  function Start(): State {
    State(Some(0), None, None, false, 1, [], map[])
  }

  // ---- The invariant ----

  predicate InMutex(pc: Pc) {
    pc.Recheck? || pc.Dialing? || pc.DialSleep? || pc.Installing? || pc.Unlocking?
  }

  /** The connection the thread alone is responsible for. */
  function Owned(pc: Pc): Option<Conn> {
    if pc.Installing? || pc.ClosingOld? || pc.ClosingLast? then Some(pc.c) else None
  }

  function OwnedBy(s: State, tid: Tid): Option<Conn> {
    Owned(PcOf(s, tid))
  }

  ghost predicate NoRepeats(log: seq<Conn>) {
    forall i, j | 0 <= i < j < |log| :: log[i] != log[j]
  }

  ghost predicate HasOwner(s: State, c: Conn) {
    exists tid :: OwnedBy(s, tid) == Some(c)
  }

  ghost predicate Known(s: State) {
    && s.next >= 0
    && (s.slot.Some? ==> 0 <= s.slot.value < s.next)
    && (forall c | c in s.log :: 0 <= c < s.next)
    && (forall tid | OwnedBy(s, tid).Some? :: 0 <= OwnedBy(s, tid).value < s.next)
  }

  ghost predicate Apart(s: State) {
    && NoRepeats(s.log)
    && (s.slot.Some? ==> s.slot.value !in s.log)
    && (forall tid | OwnedBy(s, tid).Some? :: OwnedBy(s, tid).value !in s.log && OwnedBy(s, tid) != s.slot)
    && (forall t, u | t != u && OwnedBy(s, t).Some? :: OwnedBy(s, t) != OwnedBy(s, u))
  }

  ghost predicate NoneLost(s: State) {
    forall c | 0 <= c < s.next :: s.slot == Some(c) || c in s.log || HasOwner(s, c)
  }

  /** Every dialled connection is in exactly one place. */
  ghost predicate Conserved(s: State) {
    Known(s) && Apart(s) && NoneLost(s)
  }

  ghost predicate MutexHeld(s: State) {
    forall tid :: InMutex(PcOf(s, tid)) <==> s.mutex == Some(tid)
  }

  ghost predicate RunnerHeld(s: State) {
    forall tid :: PcOf(s, tid).Sending? <==> s.runner == Some(tid)
  }

  predicate FoundEmpty(pc: Pc) {
    pc.Dialing? || pc.DialSleep? || pc.Installing?
  }

  /** Whoever dials or installs found the slot empty, and it stays so. */
  ghost predicate EmptyWhileDialing(s: State) {
    forall tid :: FoundEmpty(PcOf(s, tid)) ==> s.slot == None
  }

  ghost predicate Invariant(s: State) {
    MutexHeld(s) && RunnerHeld(s) && EmptyWhileDialing(s) && Conserved(s)
  }

  ghost predicate OnlyMoved(s: State, after: State, tid: Tid) {
    forall t | t != tid :: PcOf(after, t) == PcOf(s, t)
  }

  ghost predicate OnlyOwnerMoved(s: State, after: State, tid: Tid) {
    forall t | t != tid :: OwnedBy(after, t) == OwnedBy(s, t)
  }

  lemma MoveIsLocal(s: State, tid: Tid, luck: Luck)
    ensures OnlyMoved(s, Move(s, tid, luck), tid)
  {
    hide Act;
    ActLeavesThreads(s, tid, PcOf(s, tid), luck);
  }

  lemma ActLeavesThreads(s: State, tid: Tid, pc: Pc, luck: Luck)
    ensures Act(s, tid, pc, luck).s.threads == s.threads
  {}

  lemma MovedTo(s: State, tid: Tid, luck: Luck)
    ensures var moved := Act(s, tid, PcOf(s, tid), luck);
            var after := Move(s, tid, luck);
            && PcOf(after, tid) == moved.pc && after.slot == moved.s.slot && after.mutex == moved.s.mutex
            && after.runner == moved.s.runner && after.closed == moved.s.closed
            && after.next == moved.s.next && after.log == moved.s.log
  {
    hide Act;
  }

  lemma OwnersAreLocal(s: State, after: State, tid: Tid)
    requires OnlyMoved(s, after, tid)
    ensures OnlyOwnerMoved(s, after, tid)
  {
    hide PcOf, Owned;
  }

  /** An owner other than `tid` still owns what it did. */
  lemma OwnersStay(s: State, after: State, tid: Tid, c: Conn)
    requires OnlyOwnerMoved(s, after, tid) && HasOwner(s, c) && OwnedBy(s, tid) != Some(c)
    ensures HasOwner(after, c)
  {
    hide OwnedBy;
    var t :| OwnedBy(s, t) == Some(c);
    assert OwnedBy(after, t) == Some(c);
  }

  /** A step that moves no connection keeps them all in place. */
  lemma SameOwners(s: State, after: State, tid: Tid)
    requires Conserved(s) && after.slot == s.slot && after.log == s.log && after.next == s.next
    requires OnlyOwnerMoved(s, after, tid) && OwnedBy(after, tid) == OwnedBy(s, tid)
    ensures Conserved(after)
  {
    hide OwnedBy;
    assert forall t :: OwnedBy(after, t) == OwnedBy(s, t);
    forall c | 0 <= c < after.next && after.slot != Some(c) && c !in after.log ensures HasOwner(after, c) {
      assert HasOwner(s, c);
    }
  }

  /** A successful dial: the new connection belongs to the dialler. */
  lemma DialConserves(s: State, after: State, tid: Tid)
    requires Conserved(s) && after.slot == s.slot && after.log == s.log && after.next == s.next + 1
    requires OnlyOwnerMoved(s, after, tid) && OwnedBy(s, tid) == None && OwnedBy(after, tid) == Some(s.next)
    ensures Conserved(after)
  {
    hide OwnedBy, HasOwner;
    forall c | 0 <= c < after.next && after.slot != Some(c) && c !in after.log ensures HasOwner(after, c) {
      if c == s.next { ItOwns(after, tid, c); } else { OwnersStay(s, after, tid, c); }
    }
  }

  lemma ItOwns(s: State, tid: Tid, c: Conn)
    requires OwnedBy(s, tid) == Some(c)
    ensures HasOwner(s, c)
  {
    hide OwnedBy;
  }

  /** Installing into the empty slot. */
  lemma InstallConserves(s: State, after: State, tid: Tid, x: Conn)
    requires Conserved(s) && s.slot == None && after.slot == Some(x) && after.log == s.log && after.next == s.next
    requires OnlyOwnerMoved(s, after, tid) && OwnedBy(s, tid) == Some(x) && OwnedBy(after, tid) == None
    ensures Conserved(after)
  {
    hide OwnedBy, HasOwner;
    forall c | 0 <= c < after.next && after.slot != Some(c) && c !in after.log ensures HasOwner(after, c) {
      OwnersStay(s, after, tid, c);
    }
  }

  /** Emptying the slot: its connection, if any, belongs to the thread that did. */
  lemma DetachConserves(s: State, after: State, tid: Tid)
    requires Conserved(s) && after.slot == None && after.log == s.log && after.next == s.next
    requires OnlyOwnerMoved(s, after, tid) && OwnedBy(s, tid) == None && OwnedBy(after, tid) == s.slot
    ensures Conserved(after)
  {
    hide OwnedBy, HasOwner;
    forall c | 0 <= c < after.next && after.slot != Some(c) && c !in after.log ensures HasOwner(after, c) {
      if s.slot == Some(c) { ItOwns(after, tid, c); } else { OwnersStay(s, after, tid, c); }
    }
  }

  /** Closing a detached connection, once. */
  lemma CloseConserves(s: State, after: State, tid: Tid, x: Conn)
    requires Conserved(s) && after.slot == s.slot && after.log == s.log + [x] && after.next == s.next
    requires OnlyOwnerMoved(s, after, tid) && OwnedBy(s, tid) == Some(x) && OwnedBy(after, tid) == None
    ensures Conserved(after)
  {
    hide OwnedBy, HasOwner;
    forall c ensures c in after.log <==> c in s.log || c == x {}
    forall c | 0 <= c < after.next && after.slot != Some(c) && c !in after.log ensures HasOwner(after, c) {
      OwnersStay(s, after, tid, c);
    }
  }

  lemma CallKeeps(s: State, c: Choice)
    requires Invariant(s) && !c.Advance?
    ensures Invariant(Step(s, c))
  {
    var after := Step(s, c);
    if PcOf(s, c.tid) == Idle {
      CallKeepsLocks(s, c);
      CallConserves(s, c);
    }
  }

  lemma CallConserves(s: State, c: Choice)
    requires Conserved(s) && !c.Advance? && PcOf(s, c.tid) == Idle
    ensures Conserved(Step(s, c))
  {
    hide Conserved;
    var after := Step(s, c);
    assert OnlyMoved(s, after, c.tid);
    OwnersAreLocal(s, after, c.tid);
    SameOwners(s, after, c.tid);
  }

  lemma CallKeepsLocks(s: State, c: Choice)
    requires MutexHeld(s) && RunnerHeld(s) && EmptyWhileDialing(s) && !c.Advance? && PcOf(s, c.tid) == Idle
    ensures MutexHeld(Step(s, c)) && RunnerHeld(Step(s, c)) && EmptyWhileDialing(Step(s, c))
  {
    var after := Step(s, c);
    forall t ensures (InMutex(PcOf(after, t)) <==> after.mutex == Some(t))
        && (PcOf(after, t).Sending? <==> after.runner == Some(t))
           && (FoundEmpty(PcOf(after, t)) ==> after.slot == None) {
      assert InMutex(PcOf(s, t)) <==> s.mutex == Some(t);
    }
  }

  /** What a step does with connections. */
  datatype Transfer = Nothing | Dialled | Put | Taken | Shut

  function TransferOf(pc: Pc, luck: Luck): Transfer {
    match pc
    case Dialing(_, _) => if luck == Good then Dialled else Nothing
    case Installing(_, _) => Put
    case Disconnecting(_) => Taken
    case CloseSwap => Taken
    case ClosingOld(_, _) => Shut
    case ClosingLast(_) => Shut
    case _ => Nothing
  }

  predicate Transferred(k: Transfer, s: State, own: Option<Conn>, after: State, owns: Option<Conn>) {
    match k
    case Nothing => after.slot == s.slot && after.log == s.log && after.next == s.next && owns == own
    case Dialled =>
      after.slot == s.slot && after.log == s.log && after.next == s.next + 1 && own == None && owns == Some(s.next)
    case Put =>
      after.slot == own && own.Some? && after.log == s.log && after.next == s.next && owns == None
    case Taken => after.slot == None && after.log == s.log && after.next == s.next && own == None && owns == s.slot
    case Shut =>
      own.Some? && after.slot == s.slot && after.log == s.log + [own.value] && after.next == s.next && owns == None
  }

  lemma ActTransfers(s: State, tid: Tid, pc: Pc, luck: Luck)
    ensures var moved := Act(s, tid, pc, luck);
            Transferred(TransferOf(pc, luck), s, Owned(pc), moved.s, Owned(moved.pc))
  {}

  lemma TransferConserves(k: Transfer, s: State, after: State, tid: Tid)
    requires Conserved(s) && OnlyOwnerMoved(s, after, tid) && (k == Put ==> s.slot == None)
    requires Transferred(k, s, OwnedBy(s, tid), after, OwnedBy(after, tid))
    ensures Conserved(after)
  {
    hide Conserved, OnlyOwnerMoved, OwnedBy;
    match k
    case Nothing => SameOwners(s, after, tid);
    case Dialled => DialConserves(s, after, tid);
    case Put => InstallConserves(s, after, tid, OwnedBy(s, tid).value);
    case Taken => DetachConserves(s, after, tid);
    case Shut => CloseConserves(s, after, tid, OwnedBy(s, tid).value);
  }

  lemma MoveConserves(s: State, tid: Tid, luck: Luck)
    requires Conserved(s) && (FoundEmpty(PcOf(s, tid)) ==> s.slot == None)
    ensures Conserved(Move(s, tid, luck))
  {
    hide Conserved, OnlyMoved, OnlyOwnerMoved, Move, PcOf, Act, Owned;
    MoveIsLocal(s, tid, luck);
    OwnersAreLocal(s, Move(s, tid, luck), tid);
    MovedTo(s, tid, luck);
    ActTransfers(s, tid, PcOf(s, tid), luck);
    TransferConserves(TransferOf(PcOf(s, tid), luck), s, Move(s, tid, luck), tid);
  }

  /** What one step does to the locks, seen from the thread that moves. */
  lemma OwnLocks(s: State, tid: Tid, pc: Pc, luck: Luck)
    requires InMutex(pc) <==> s.mutex == Some(tid)
    requires pc.Sending? <==> s.runner == Some(tid)
    ensures var moved := Act(s, tid, pc, luck);
            && (InMutex(moved.pc) <==> moved.s.mutex == Some(tid))
            && (moved.pc.Sending? <==> moved.s.runner == Some(tid))
            && (moved.s.mutex == s.mutex || (s.mutex in {None, Some(tid)} && moved.s.mutex in {None, Some(tid)}))
            && (moved.s.runner == s.runner || (s.runner in {None, Some(tid)} && moved.s.runner in {None, Some(tid)}))
  {}

  /** The slot is filled only by an installer, which then stops counting as one. */
  lemma SlotEffect(s: State, tid: Tid, pc: Pc, luck: Luck)
    requires FoundEmpty(pc) ==> s.slot == None
    ensures var moved := Act(s, tid, pc, luck);
            && (moved.s.slot.Some? ==> s.slot.Some? || pc.Installing?)
            && (FoundEmpty(moved.pc) ==> moved.s.slot == None)
  {}

  lemma MoveKeepsLocks(s: State, tid: Tid, luck: Luck)
    requires MutexHeld(s) && RunnerHeld(s) && EmptyWhileDialing(s)
    ensures var after := Move(s, tid, luck); MutexHeld(after) && RunnerHeld(after) && EmptyWhileDialing(after)
  {
    hide Move, PcOf, Act;
    var after := Move(s, tid, luck);
    MoveIsLocal(s, tid, luck);
    MovedTo(s, tid, luck);
    OwnLocks(s, tid, PcOf(s, tid), luck);
    SlotEffect(s, tid, PcOf(s, tid), luck);
    forall t ensures InMutex(PcOf(after, t)) <==> after.mutex == Some(t) {
      assert InMutex(PcOf(s, t)) <==> s.mutex == Some(t);
    }
    forall t ensures PcOf(after, t).Sending? <==> after.runner == Some(t) {
      assert PcOf(s, t).Sending? <==> s.runner == Some(t);
    }
    forall t | FoundEmpty(PcOf(after, t)) ensures after.slot == None {
      assert InMutex(PcOf(s, t)) <==> s.mutex == Some(t);
      assert FoundEmpty(PcOf(s, t)) ==> s.slot == None;
    }
  }

  lemma StepKeeps(s: State, c: Choice)
    requires Invariant(s)
    ensures Invariant(Step(s, c))
  {
    match c
    case Advance(tid, luck) => AdvanceKeeps(s, tid, luck);
    case _ => CallKeeps(s, c);
  }

  lemma AdvanceKeeps(s: State, tid: Tid, luck: Luck)
    requires Invariant(s)
    ensures Invariant(Move(s, tid, luck))
  {
    hide Move, PcOf, Conserved, MutexHeld, RunnerHeld;
    MoveConserves(s, tid, luck);
    MoveKeepsLocks(s, tid, luck);
  }

  lemma {:induction false} RunKeeps(s: State, schedule: seq<Choice>)
    requires Invariant(s)
    ensures Invariant(Run(s, schedule))
    decreases |schedule|
  {
    hide Step, Invariant;
    if schedule != [] {
      StepKeeps(s, schedule[0]);
      RunKeeps(Step(s, schedule[0]), schedule[1..]);
    }
  }

  lemma StartIsGood()
    ensures Invariant(Start())
  {
    assert forall tid :: PcOf(Start(), tid) == Idle;
  }

  // ---- Main results ----

  datatype Place = Installed | Current | Detached | Closed

  ghost predicate In(s: State, c: Conn, place: Place) {
    match place
    case Installed => exists tid :: OwnedBy(s, tid) == Some(c) && PcOf(s, tid).Installing?
    case Current => s.slot == Some(c)
    case Detached => exists tid :: OwnedBy(s, tid) == Some(c) && !PcOf(s, tid).Installing?
    case Closed => c in s.log
  }

  /** In every interleaving each dialled connection is in exactly one place: being
      installed, current, detached for closing, or closed; and nothing is closed twice. */
  lemma ConnectionsAreConserved(schedule: seq<Choice>, c: Conn)
    requires 0 <= c < Run(Start(), schedule).next
    ensures NoRepeats(Run(Start(), schedule).log)
    ensures exists place :: In(Run(Start(), schedule), c, place)
    ensures forall p, q | In(Run(Start(), schedule), c, p) && In(Run(Start(), schedule), c, q) :: p == q
  {
    hide Run, NoRepeats;
    StartIsGood();
    RunKeeps(Start(), schedule);
    ExactlyOnePlace(Run(Start(), schedule), c);
  }

  lemma ExactlyOnePlace(s: State, c: Conn)
    requires Conserved(s) && 0 <= c < s.next
    ensures exists place :: In(s, c, place)
    ensures forall p, q | In(s, c, p) && In(s, c, q) :: p == q
  {
    if s.slot == Some(c) {
      assert In(s, c, Current);
    } else if c in s.log {
      assert In(s, c, Closed);
    } else {
      assert HasOwner(s, c);
      var tid :| OwnedBy(s, tid) == Some(c);
      assert In(s, c, if PcOf(s, tid).Installing? then Installed else Detached);
    }
  }

  /** `connect` never overwrites a live connection: the slot is empty when it installs. */
  lemma InstallNeverOverwrites(schedule: seq<Choice>, tid: Tid)
    requires PcOf(Run(Start(), schedule), tid).Installing?
    ensures Run(Start(), schedule).slot == None
  {
    hide Run;
    StartIsGood();
    RunKeeps(Start(), schedule);
  }

  /** Commands never overlap, and neither do two dials. */
  lemma CommandsAndDialsAreExclusive(schedule: seq<Choice>, t: Tid, u: Tid)
    requires t != u
    ensures var s := Run(Start(), schedule);
            && !(PcOf(s, t).Sending? && PcOf(s, u).Sending?)
            && !(PcOf(s, t).Dialing? && PcOf(s, u).Dialing?)
  {
    hide Run;
    StartIsGood();
    RunKeeps(Start(), schedule);
    var s := Run(Start(), schedule);
    assert InMutex(PcOf(s, t)) <==> s.mutex == Some(t);
    assert InMutex(PcOf(s, u)) <==> s.mutex == Some(u);
  }

  // ---- After Close ----

  /** The thread has passed the closed check of `connect` and may still install. */
  predicate MayInstall(pc: Pc) {
    pc.CheckSlot? || pc.WaitMutex? || pc.Recheck? || pc.Dialing? || pc.DialSleep? || pc.Installing?
  }

  ghost predicate Quiet(s: State) {
    s.closed && s.slot == None && forall tid :: !MayInstall(PcOf(s, tid))
  }

  lemma QuietStaysQuiet(s: State, c: Choice)
    requires Quiet(s)
    ensures Quiet(Step(s, c))
  {
    var after := Step(s, c);
    forall tid ensures !MayInstall(PcOf(after, tid)) {
      assert !MayInstall(PcOf(s, tid)) && !MayInstall(PcOf(s, c.tid));
    }
  }

  lemma {:induction false} QuietForever(s: State, schedule: seq<Choice>)
    requires Quiet(s)
    ensures Quiet(Run(s, schedule))
    decreases |schedule|
  {
    hide Step, Quiet;
    if schedule != [] {
      QuietStaysQuiet(s, schedule[0]);
      QuietForever(Step(s, schedule[0]), schedule[1..]);
    }
  }

  function Remaining(pc: Pc): nat {
    match pc
    case CheckSlot(_) => 6
    case WaitMutex(_) => 5
    case Recheck(_) => 4
    case DialSleep(_, _) => 3
    case Dialing(_, _) => 2
    case Installing(_, _) => 1
    case _ => 0
  }

  /** A thread that may install, undisturbed and with the lock free or its own, does. */
  lemma {:induction false} UndisturbedInstalls(s: State, tid: Tid) returns (schedule: seq<Choice>)
    requires MayInstall(PcOf(s, tid)) && s.slot == None && (s.mutex == None || s.mutex == Some(tid))
    requires PcOf(s, tid).WaitMutex? || PcOf(s, tid).CheckSlot? ==> s.mutex == None
    ensures Run(s, schedule).slot.Some?
    decreases Remaining(PcOf(s, tid))
  {
    var c := Advance(tid, Good);
    var after := Step(s, c);
    if PcOf(s, tid).Installing? {
      schedule := [c];
      assert Run(s, [c]) == Run(after, []);
    } else {
      var rest := UndisturbedInstalls(after, tid);
      schedule := [c] + rest;
      assert Run(s, schedule) == Run(after, rest);
    }
  }

  lemma SomeoneInstalls(s: State, tid: Tid) returns (schedule: seq<Choice>)
    requires Invariant(s) && s.slot == None && MayInstall(PcOf(s, tid))
    ensures Run(s, schedule).slot.Some?
  {
    hide Conserved, Run;
    assert InMutex(PcOf(s, tid)) <==> s.mutex == Some(tid);
    if s.mutex.None? || s.mutex == Some(tid) {
      schedule := UndisturbedInstalls(s, tid);
    } else {
      var h := s.mutex.value;
      assert InMutex(PcOf(s, h)) <==> s.mutex == Some(h);
      if PcOf(s, h).Unlocking? {
        var c := Advance(h, Good);
        var rest := UndisturbedInstalls(Step(s, c), tid);
        schedule := [c] + rest;
        FirstStep(s, c, rest);
      } else {
        schedule := UndisturbedInstalls(s, h);
      }
    }
  }

  lemma FirstStep(s: State, c: Choice, rest: seq<Choice>)
    ensures Run(s, [c] + rest) == Run(Step(s, c), rest)
  {}

  /** Once closed with an empty slot, a later connection can appear exactly when some thread
      had already passed the closed check of `connect`. */
  lemma ClosedClientReconnectsExactly(before: seq<Choice>)
    requires Run(Start(), before).closed && Run(Start(), before).slot == None
    ensures (exists later :: Run(Run(Start(), before), later).slot.Some?)
            <==> exists tid :: MayInstall(PcOf(Run(Start(), before), tid))
  {
    hide Run, MayInstall;
    StartIsGood();
    RunKeeps(Start(), before);
    var s := Run(Start(), before);
    if exists tid :: MayInstall(PcOf(s, tid)) {
      var tid :| MayInstall(PcOf(s, tid));
      var later := SomeoneInstalls(s, tid);
    } else {
      forall later ensures Run(s, later).slot == None { QuietForever(s, later); }
    }
  }

  // ---- Such a late connection is real ----

  /** A schedule and where it leads from the start. */
  datatype Trace = Trace(schedule: seq<Choice>, s: State)

  ghost predicate Real(x: Trace) {
    Run(Start(), x.schedule) == x.s
  }

  function Extended(x: Trace, c: Choice): Trace {
    Trace(x.schedule + [c], Step(x.s, c))
  }

  lemma {:induction false} RunSnoc(s: State, schedule: seq<Choice>, c: Choice)
    ensures Run(s, schedule + [c]) == Step(Run(s, schedule), c)
    decreases |schedule|
  {
    hide Step;
    if schedule == [] {
      assert Run(s, [c]) == Run(Step(s, c), []);
    } else {
      RunSnoc(Step(s, schedule[0]), schedule[1..], c);
      assert (schedule + [c])[1..] == schedule[1..] + [c];
    }
  }

  /** The same thread moves along one program counter after another. */
  lemma Moves(x: Trace, tid: Tid, luck: Luck) returns (y: Trace)
    requires Real(x)
    ensures Real(y) && y == Extended(x, Advance(tid, luck))
  {
    y := Extended(x, Advance(tid, luck));
    RunSnoc(Start(), x.schedule, Advance(tid, luck));
  }

  /** Thread 1 loses its connection to a retryable fault, disconnects, waits and passes the
      closed check of its second attempt. */
  lemma PassesTheCheck() returns (x: Trace)
    ensures Real(x) && PcOf(x.s, 1) == CheckSlot(2) && PcOf(x.s, 2) == Idle
    ensures x.s.slot == None && !x.s.closed && x.s.log == [0]
  {
    hide Run, Real;
    x := LosesItsConnection();
    x := Moves(x, 1, Good);
    assert PcOf(x.s, 1) == ClosingOld(1, 0);
    x := Moves(x, 1, Good);
    x := Moves(x, 1, Good);
    x := Moves(x, 1, Good);
    assert PcOf(x.s, 1) == CheckSlot(2);
  }

  lemma LosesItsConnection() returns (x: Trace)
    ensures Real(x) && PcOf(x.s, 1) == Disconnecting(1) && PcOf(x.s, 2) == Idle
    ensures x.s.slot == Some(0) && !x.s.closed && x.s.log == []
  {
    hide Run, Real;
    x := FirstCall();
    x := Moves(x, 1, Good);
    x := Moves(x, 1, Good);
    x := Moves(x, 1, Good);
    assert PcOf(x.s, 1) == Fetch(1);
    x := Moves(x, 1, Good);
    x := Moves(x, 1, Good);
    assert PcOf(x.s, 1) == Sending(1, 0);
    x := Moves(x, 1, Retryable);
  }

  lemma TraceRuns(x: Trace)
    requires Real(x)
    ensures Run(Start(), x.schedule) == x.s
  {}

  lemma FirstCall() returns (x: Trace)
    ensures Real(x) && x.s == Step(Start(), CallRun(1))
  {
    x := Extended(Trace([], Start()), CallRun(1));
    RunSnoc(Start(), [], CallRun(1));
  }

  /** Then another thread closes the client to the end, and the first still connects: a
      connection outlives `Close`. */
  lemma ConnectionAfterClose() returns (before: seq<Choice>, later: seq<Choice>)
    ensures var s := Run(Start(), before);
            && s.closed && s.slot == None && PcOf(s, 2) == Idle && MayInstall(PcOf(s, 1))
            && Run(s, later).slot.Some?
  {
    hide Run, Real;
    var x := PassesTheCheck();
    x := Calls(x);
    x := Moves(x, 2, Good);
    assert PcOf(x.s, 2) == CloseSwap && PcOf(x.s, 1) == CheckSlot(2);
    x := Moves(x, 2, Good);
    before := x.schedule;
    TraceRuns(x);
    StartIsGood();
    RunKeeps(Start(), before);
    later := SomeoneInstalls(x.s, 1);
  }

  lemma Calls(x: Trace) returns (y: Trace)
    requires Real(x)
    ensures Real(y) && y == Extended(x, CallClose(2))
  {
    y := Extended(x, CallClose(2));
    RunSnoc(Start(), x.schedule, CallClose(2));
  }
}
