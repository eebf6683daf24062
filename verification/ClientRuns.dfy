/** A thread of the connection-slot machine, amid any number of others, is one `Run` of the
    transport loop: what the others make it see are the answers of its plan. */
module ClientRuns {
  import opened Text
  import opened Devices
  import T = Transport
  import C = ConnectionSlot

  /** A command under way: what it sends, and the thread that sends it. */
  datatype Call = Call(path: Path, words: seq<string>)

  /** A thread with the waits its two loops have reached. */
  datatype Local = Local(pc: C.Pc, backoff: nat, dialBackoff: nat)

  predicate PcOk(pc: C.Pc) {
    match pc
    case Dialing(n, d) => 1 <= n <= T.RUN_ATTEMPTS && 1 <= d <= T.DIAL_ATTEMPTS
    case DialSleep(n, d) => 1 <= n <= T.RUN_ATTEMPTS && 1 <= d < T.DIAL_ATTEMPTS
    case CheckClosed(n) => 1 <= n <= T.RUN_ATTEMPTS
    case CheckSlot(n) => 1 <= n <= T.RUN_ATTEMPTS
    case WaitMutex(n) => 1 <= n <= T.RUN_ATTEMPTS
    case Recheck(n) => 1 <= n <= T.RUN_ATTEMPTS
    case Installing(n, _) => 1 <= n <= T.RUN_ATTEMPTS
    case Unlocking(n) => 1 <= n <= T.RUN_ATTEMPTS
    case Fetch(n) => 1 <= n <= T.RUN_ATTEMPTS
    case WaitRun(n, _) => 1 <= n <= T.RUN_ATTEMPTS
    case Sending(n, _) => 1 <= n <= T.RUN_ATTEMPTS
    case Disconnecting(n) => 1 <= n <= T.RUN_ATTEMPTS
    case ClosingOld(n, _) => 1 <= n <= T.RUN_ATTEMPTS
    case Backoff(n) => 1 <= n <= T.RUN_ATTEMPTS
    case _ => true
  }

  // ---- The rest of a run ----

  /** From the command on. */
  function SendFrom(net: T.Net, call: Call, n: nat, backoff: nat): T.Net
    requires 1 <= n <= T.RUN_ATTEMPTS
  {
    var fate := T.Head(net.plan).fate;
    var sent := T.Sent(net, call.path, call.words, fate);
    if fate.Dropped? then T.SleepThenRun(sent, call.path, call.words, n, backoff).0 else sent
  }

  /** From reading the slot on. */
  function FetchFrom(net: T.Net, call: Call, n: nat, backoff: nat): T.Net
    requires 1 <= n <= T.RUN_ATTEMPTS
  {
    var seen := net.(plan := T.Tail(net.plan));
    if T.Head(net.plan).trouble then T.RunFrom(seen, call.path, call.words, n + 1, backoff).0
    else SendFrom(seen, call, n, backoff)
  }

  /** From the end of `connect` on. */
  function ConnectedFrom(up: (T.Net, bool), call: Call, n: nat, backoff: nat): T.Net
    requires 1 <= n <= T.RUN_ATTEMPTS
  {
    if up.1 then FetchFrom(up.0, call, n, backoff) else T.SleepThenRun(up.0, call.path, call.words, n, backoff).0
  }

  function RecheckFrom(net: T.Net, call: Call, n: nat, backoff: nat): T.Net
    requires 1 <= n <= T.RUN_ATTEMPTS
  {
    var seen := net.(plan := T.Tail(net.plan));
    if !T.Head(net.plan).trouble then FetchFrom(seen, call, n, backoff)
    else ConnectedFrom(T.DialFrom(seen, 1, 150), call, n, backoff)
  }

  function CheckSlotFrom(net: T.Net, call: Call, n: nat, backoff: nat): T.Net
    requires 1 <= n <= T.RUN_ATTEMPTS
  {
    var seen := net.(plan := T.Tail(net.plan));
    if !T.Head(net.plan).trouble then FetchFrom(seen, call, n, backoff) else RecheckFrom(seen, call, n, backoff)
  }

  function DialSleepFrom(net: T.Net, call: Call, n: nat, backoff: nat, d: nat, dialBackoff: nat): T.Net
    requires 1 <= n <= T.RUN_ATTEMPTS && 1 <= d < T.DIAL_ATTEMPTS
  {
    var slept := net.(plan := T.Tail(net.plan), dialWaits := net.dialWaits + [dialBackoff]);
    if T.Head(net.plan).trouble then ConnectedFrom((slept, false), call, n, backoff)
    else ConnectedFrom(T.DialFrom(slept, d + 1, T.NextBackoff(dialBackoff)), call, n, backoff)
  }

  /** What the transport loop makes of the rest of a run. */
  function Resume(net: T.Net, call: Call, l: Local): T.Net
    requires PcOk(l.pc)
  {
    match l.pc
    case RunStart => T.Run(net, call.path, call.words).0
    case CheckClosed(n) => T.RunFrom(net, call.path, call.words, n, l.backoff).0
    case CheckSlot(n) => CheckSlotFrom(net, call, n, l.backoff)
    case WaitMutex(n) => RecheckFrom(net, call, n, l.backoff)
    case Recheck(n) => RecheckFrom(net, call, n, l.backoff)
    case Dialing(n, d) => ConnectedFrom(T.DialFrom(net, d, l.dialBackoff), call, n, l.backoff)
    case DialSleep(n, d) => DialSleepFrom(net, call, n, l.backoff, d, l.dialBackoff)
    case Installing(n, _) => FetchFrom(net, call, n, l.backoff)
    case Unlocking(n) => FetchFrom(net, call, n, l.backoff)
    case Fetch(n) => FetchFrom(net, call, n, l.backoff)
    case WaitRun(n, _) => SendFrom(net, call, n, l.backoff)
    case Sending(n, _) => SendFrom(net, call, n, l.backoff)
    case Disconnecting(n) => T.SleepThenRun(net, call.path, call.words, n, l.backoff).0
    case ClosingOld(n, _) => T.SleepThenRun(net, call.path, call.words, n, l.backoff).0
    case Backoff(n) => T.SleepThenRun(net, call.path, call.words, n, l.backoff).0
    case _ => net
  }

  // ---- One step ----

  function Trouble(b: bool): seq<T.Event> { [T.Event(b, T.Answered)] }

  /** Whether the device acted on a lost command is not the slot's concern. */
  function FateOf(luck: C.Luck): T.Fate {
    match luck case Good => T.Answered case Retryable => T.Dropped(false) case Fatal => T.Broken(false)
  }

  /** The answer of the plan that a step stands for, if it stands for one. */
  function Asked(s: C.State, pc: C.Pc, luck: C.Luck): seq<T.Event> {
    match pc
    case RunStart => Trouble(s.closed)
    case CheckClosed(_) => Trouble(s.closed)
    case CheckSlot(_) => Trouble(s.slot.None?)
    case Recheck(_) => Trouble(s.slot.None?)
    case Dialing(_, _) => Trouble(luck != C.Good)
    case DialSleep(_, _) => Trouble(luck != C.Good)
    case Fetch(_) => Trouble(s.slot.None?)
    case Sending(_, _) => [T.Event(false, FateOf(luck))]
    case Backoff(n) => if n >= T.RUN_ATTEMPTS then [] else Trouble(luck != C.Good)
    case _ => []
  }

  /** What the step does to the counters, the waits and the device. */
  function Counted(net: T.Net, call: Call, l: Local, luck: C.Luck): T.Net {
    match l.pc
    case Dialing(_, _) => net.(dials := net.dials + 1)
    case DialSleep(_, _) => net.(dialWaits := net.dialWaits + [l.dialBackoff])
    case Sending(_, _) =>
      net.(execs := net.execs + 1, device := if luck == C.Good then Answer(net.device, call.path, call.words).0
        else net.device)
    case Backoff(n) => if n >= T.RUN_ATTEMPTS then net else net.(runWaits := net.runWaits + [l.backoff])
    case _ => net
  }

  function Moved(s: C.State, tid: C.Tid, l: Local, luck: C.Luck): Local {
    var pc := C.Act(s, tid, l.pc, luck).pc;
    Local(pc,
          if l.pc.RunStart? then 120 else if l.pc.Backoff? then T.NextBackoff(l.backoff) else l.backoff,
          if l.pc.Recheck? then 150 else if l.pc.DialSleep? then T.NextBackoff(l.dialBackoff) else l.dialBackoff)
  }

  lemma Prefixed(e: T.Event, rest: seq<T.Event>)
    ensures T.Head([e] + rest) == e && T.Tail([e] + rest) == rest
  {}

  lemma MovedIsOk(s: C.State, tid: C.Tid, l: Local, luck: C.Luck)
    requires PcOk(l.pc)
    ensures PcOk(Moved(s, tid, l, luck).pc)
  {}

  ghost predicate Resumes(s: C.State, tid: C.Tid, net: T.Net, call: Call, l: Local, luck: C.Luck)
    requires PcOk(l.pc) && PcOk(Moved(s, tid, l, luck).pc)
  {
    Resume(net.(plan := Asked(s, l.pc, luck) + net.plan), call, l)
    == Resume(Counted(net, call, l, luck), call, Moved(s, tid, l, luck))
  }

  lemma ConnectStep(s: C.State, tid: C.Tid, net: T.Net, call: Call, l: Local, luck: C.Luck)
    requires l.pc.CheckClosed? || l.pc.CheckSlot? || l.pc.Recheck?
    requires PcOk(l.pc) && PcOk(Moved(s, tid, l, luck).pc)
    ensures Resumes(s, tid, net, call, l, luck)
  {
    hide Answer, T.DialFrom, T.SleepThenRun;
    Prefixed(Asked(s, l.pc, luck)[0], net.plan);
  }

  lemma DialStep(s: C.State, tid: C.Tid, net: T.Net, call: Call, l: Local, luck: C.Luck)
    requires l.pc.Dialing? || l.pc.DialSleep?
    requires PcOk(l.pc) && PcOk(Moved(s, tid, l, luck).pc)
    ensures Resumes(s, tid, net, call, l, luck)
  {
    hide Answer, FetchFrom, T.SleepThenRun;
    Prefixed(Asked(s, l.pc, luck)[0], net.plan);
  }

  lemma RunStep(s: C.State, tid: C.Tid, net: T.Net, call: Call, l: Local, luck: C.Luck)
    requires l.pc.RunStart? || l.pc.Fetch? || l.pc.Sending? || l.pc.Backoff?
    requires PcOk(l.pc) && PcOk(Moved(s, tid, l, luck).pc)
    ensures Resumes(s, tid, net, call, l, luck)
  {
    hide Answer, T.Connect;
    var asked := Asked(s, l.pc, luck);
    if asked == [] { assert asked + net.plan == net.plan; } else { Prefixed(asked[0], net.plan); }
  }

  /** A step that asks nothing. */
  lemma SilentStep(s: C.State, tid: C.Tid, net: T.Net, call: Call, l: Local, luck: C.Luck)
    requires PcOk(l.pc) && PcOk(Moved(s, tid, l, luck).pc)
    requires Asked(s, l.pc, luck) == [] && !l.pc.Backoff?
    ensures Resumes(s, tid, net, call, l, luck)
  {
    hide Answer, T.RunFrom, T.SleepThenRun, T.DialFrom, SendFrom, FetchFrom, RecheckFrom;
    assert [] + net.plan == net.plan;
  }

  /** One step of the thread is one step of the loop. */
  lemma StepResumes(s: C.State, tid: C.Tid, net: T.Net, call: Call, l: Local, luck: C.Luck)
    requires PcOk(l.pc)
    ensures PcOk(Moved(s, tid, l, luck).pc)
    ensures Resume(net.(plan := Asked(s, l.pc, luck) + net.plan), call, l)
         == Resume(Counted(net, call, l, luck), call, Moved(s, tid, l, luck))
  {
    hide Resume, Counted, C.Act;
    MovedIsOk(s, tid, l, luck);
    match l.pc
    case CheckClosed(_) => ConnectStep(s, tid, net, call, l, luck);
    case CheckSlot(_) => ConnectStep(s, tid, net, call, l, luck);
    case Recheck(_) => ConnectStep(s, tid, net, call, l, luck);
    case Dialing(_, _) => DialStep(s, tid, net, call, l, luck);
    case DialSleep(_, _) => DialStep(s, tid, net, call, l, luck);
    case RunStart => RunStep(s, tid, net, call, l, luck);
    case Fetch(_) => RunStep(s, tid, net, call, l, luck);
    case Sending(_, _) => RunStep(s, tid, net, call, l, luck);
    case Backoff(_) => RunStep(s, tid, net, call, l, luck);
    case _ => SilentStep(s, tid, net, call, l, luck);
  }

  // ---- A whole run, amid the others ----

  /** The thread takes only steps of the run it is in. */
  predicate OneRun(schedule: seq<C.Choice>, tid: C.Tid) {
    forall k | 0 <= k < |schedule| && schedule[k].tid == tid :: schedule[k].Advance?
  }

  /** The plan that the other threads and luck amount to, in order. */
  function Answers(s: C.State, schedule: seq<C.Choice>, tid: C.Tid): seq<T.Event>
    decreases |schedule|
  {
    if schedule == [] then []
    else
      var c := schedule[0];
      (if c.Advance? && c.tid == tid then Asked(s, C.PcOf(s, tid), c.luck) else [])
      + Answers(C.Step(s, c), schedule[1..], tid)
  }

  function Follow(s: C.State, schedule: seq<C.Choice>, tid: C.Tid, net: T.Net, call: Call, l: Local): (T.Net, Local)
    decreases |schedule|
  {
    if schedule == [] then (net, l)
    else
      var c := schedule[0];
      if c.Advance? && c.tid == tid
      then Follow(C.Step(s, c), schedule[1..], tid, Counted(net, call, l, c.luck), call, Moved(s, tid, l, c.luck))
      else Follow(C.Step(s, c), schedule[1..], tid, net, call, l)
  }

  lemma PcAfter(s: C.State, tid: C.Tid, c: C.Choice)
    ensures c.tid != tid ==> C.PcOf(C.Step(s, c), tid) == C.PcOf(s, tid)
    ensures c.Advance? && c.tid == tid ==> C.PcOf(C.Step(s, c), tid) == C.Act(s, tid, C.PcOf(s, tid), c.luck).pc
  {
    hide C.Act;
    if c.Advance? {
      C.MovedTo(s, c.tid, c.luck);
      C.MoveIsLocal(s, c.tid, c.luck);
    }
  }

  lemma {:induction false} RunResumes(s: C.State, schedule: seq<C.Choice>, tid: C.Tid, net: T.Net, call: Call, l: Local)
    requires PcOk(l.pc) && l.pc == C.PcOf(s, tid) && OneRun(schedule, tid)
    ensures var (after, now) := Follow(s, schedule, tid, net, call, l);
            && now.pc == C.PcOf(C.Run(s, schedule), tid) && PcOk(now.pc) && after.plan == net.plan
            && Resume(net.(plan := Answers(s, schedule, tid) + net.plan), call, l) == Resume(after, call, now)
    decreases |schedule|
  {
    hide Resume, Asked, C.Step, C.Act, PcOk;
    if schedule == [] {
      assert [] + net.plan == net.plan;
    } else {
      var c, later := schedule[0], schedule[1..];
      var next := C.Step(s, c);
      assert forall k | 0 <= k < |later| :: later[k] == schedule[k + 1];
      PcAfter(s, tid, c);
      if c.tid == tid {
        var more := Answers(next, later, tid);
        var asked := Asked(s, l.pc, c.luck);
        StepResumes(s, tid, net.(plan := more + net.plan), call, l, c.luck);
        CountsIgnorePlan(net, more + net.plan, call, l, c.luck);
        RunResumes(next, later, tid, Counted(net, call, l, c.luck), call, Moved(s, tid, l, c.luck));
        assert (asked + more) + net.plan == asked + (more + net.plan);
      } else {
        RunResumes(next, later, tid, net, call, l);
        assert [] + Answers(next, later, tid) == Answers(next, later, tid);
      }
    }
  }

  lemma CountsIgnorePlan(net: T.Net, plan: seq<T.Event>, call: Call, l: Local, luck: C.Luck)
    ensures Counted(net.(plan := plan), call, l, luck) == Counted(net, call, l, luck).(plan := plan)
    ensures Counted(net, call, l, luck).plan == net.plan
  {
    hide Answer;
  }

  /** How often the thread stood at a program counter of the kind and moved on. */
  function Sends(s: C.State, schedule: seq<C.Choice>, tid: C.Tid): nat
    decreases |schedule|
  {
    if schedule == [] then 0
    else
      (if schedule[0].Advance? && schedule[0].tid == tid && C.PcOf(s, tid).Sending? then 1 else 0)
      + Sends(C.Step(s, schedule[0]), schedule[1..], tid)
  }

  function Dials(s: C.State, schedule: seq<C.Choice>, tid: C.Tid): nat
    decreases |schedule|
  {
    if schedule == [] then 0
    else
      (if schedule[0].Advance? && schedule[0].tid == tid && C.PcOf(s, tid).Dialing? then 1 else 0)
      + Dials(C.Step(s, schedule[0]), schedule[1..], tid)
  }

  lemma {:induction false} FollowCounts(s: C.State, schedule: seq<C.Choice>, tid: C.Tid, net: T.Net, call: Call,
        l: Local)
    requires l.pc == C.PcOf(s, tid) && OneRun(schedule, tid)
    ensures var after := Follow(s, schedule, tid, net, call, l).0;
            after.execs == net.execs + Sends(s, schedule, tid) && after.dials == net.dials + Dials(s, schedule, tid)
    decreases |schedule|
  {
    hide C.Step, C.Act, Answer;
    if schedule != [] {
      var c, later := schedule[0], schedule[1..];
      assert forall k | 0 <= k < |later| :: later[k] == schedule[k + 1];
      PcAfter(s, tid, c);
      if c.tid == tid {
        FollowCounts(C.Step(s, c), later, tid, Counted(net, call, l, c.luck), call, Moved(s, tid, l, c.luck));
      } else {
        FollowCounts(C.Step(s, c), later, tid, net, call, l);
      }
    }
  }

  /** In every interleaving a finished `Run` of a thread is the transport's `Run` against the
      plan of the answers it got: the same commands and dials, the whole plan used up. */
  lemma EveryRunIsATransportRun(s: C.State, schedule: seq<C.Choice>, tid: C.Tid, d: Device, call: Call)
    requires C.PcOf(s, tid) == C.RunStart && OneRun(schedule, tid) && C.PcOf(C.Run(s, schedule), tid) == C.Idle
    ensures var after := T.Run(T.Net(d, Answers(s, schedule, tid), 0, 0, [], []), call.path, call.words).0;
            after.execs == Sends(s, schedule, tid) && after.dials == Dials(s, schedule, tid) && after.plan == []
  {
    hide T.Run, C.Run, Answers, Sends, Dials, Follow;
    var net, l := T.Net(d, [], 0, 0, [], []), Local(C.RunStart, 0, 0);
    RunResumes(s, schedule, tid, net, call, l);
    FollowCounts(s, schedule, tid, net, call, l);
    assert Answers(s, schedule, tid) + [] == Answers(s, schedule, tid);
  }

  /** So the bounds of one `Run` hold amid any number of others. */
  lemma BudgetAmidOthers(s: C.State, schedule: seq<C.Choice>, tid: C.Tid)
    requires C.PcOf(s, tid) == C.RunStart && OneRun(schedule, tid) && C.PcOf(C.Run(s, schedule), tid) == C.Idle
    ensures Sends(s, schedule, tid) <= 4 && Dials(s, schedule, tid) <= 20
  {
    hide T.Run, C.Run, Answers, Sends, Dials;
    var call := Call(ListPrint, []);
    EveryRunIsATransportRun(s, schedule, tid, Device([], map[]), call);
    T.RunBudget(T.Net(Device([], map[]), Answers(s, schedule, tid), 0, 0, [], []), call.path, call.words);
  }
}
