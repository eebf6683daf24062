/** One `Client.Run`: an at-least-once retry loop over a reconnect loop. Whatever the
    client cannot decide (is it closed, is a connection there, does a dial succeed, is a
    sleep cancelled, what becomes of a command) is answered by a plan, an arbitrary list of
    events; other goroutines act through the same answers. */
module Transport {
  import opened Text
  import opened Devices

  /** The fate of one command on the wire. `Dropped` is an error that `isRetryableError`
      accepts, `Broken` one it does not; `applied` tells whether the device had acted. */
  datatype Fate = Answered | Dropped(applied: bool) | Broken(applied: bool)

  datatype Event = Event(trouble: bool, fate: Fate)

  datatype Net = Net(device: Device, plan: seq<Event>, execs: nat, dials: nat, dialWaits: seq<nat>, runWaits: seq<nat>)

  /** A reply of the device, its traps included, or none. */
  datatype Outcome = Replied(reply: Reply) | Failed

  const RUN_ATTEMPTS: nat := 4
  const DIAL_ATTEMPTS: nat := 5

  /** The next event; an exhausted plan has no more trouble. */
  function Head(plan: seq<Event>): Event {
    if plan == [] then Event(false, Answered) else plan[0]
  }

  function Tail(plan: seq<Event>): (rest: seq<Event>)
  {
    if plan == [] then [] else plan[1..]
  }

  /** `nextBackoff`, in milliseconds */
  function NextBackoff(current: nat): nat {
    if current * 2 > 2000 then 2000 else current * 2
  }

  // ---- The loops as functions ----

  function DialFrom(net: Net, attempt: nat, backoff: nat): (Net, bool)
    requires 1 <= attempt <= DIAL_ATTEMPTS
    decreases DIAL_ATTEMPTS - attempt
  {
    var dialled := net.(plan := Tail(net.plan), dials := net.dials + 1);
    if !Head(net.plan).trouble then (dialled, true)
    else if attempt == DIAL_ATTEMPTS then (dialled, false)
    else
      var slept := dialled.(plan := Tail(dialled.plan), dialWaits := dialled.dialWaits + [backoff]);
      if Head(dialled.plan).trouble then (slept, false)
      else DialFrom(slept, attempt + 1, NextBackoff(backoff))
  }

  /** `connect`: closed? connected? connected once the lock is held? else dial. */
  function Connect(net: Net): (Net, bool) {
    var p1 := Tail(net.plan);
    if Head(net.plan).trouble then (net.(plan := p1), false)
    else if !Head(p1).trouble then (net.(plan := Tail(p1)), true)
    else
      var p2 := Tail(p1);
      if !Head(p2).trouble then (net.(plan := Tail(p2)), true)
      else DialFrom(net.(plan := Tail(p2)), 1, 150)
  }

  function RunFrom(net: Net, path: Path, words: seq<string>, attempt: nat, backoff: nat): (Net, Outcome)
    requires 1 <= attempt <= RUN_ATTEMPTS + 1
    decreases RUN_ATTEMPTS + 1 - attempt
  {
    if attempt > RUN_ATTEMPTS then (net, Failed)
    else
      var (up, ok) := Connect(net);
      if !ok then SleepThenRun(up, path, words, attempt, backoff)
      else
        var seen := up.(plan := Tail(up.plan));
        if Head(up.plan).trouble then RunFrom(seen, path, words, attempt + 1, backoff)
        else
          var fate := Head(seen.plan).fate;
          var sent := Sent(seen, path, words, fate);
          match fate
          case Answered => (sent, Replied(Answer(seen.device, path, words).1))
          case Broken(_) => (sent, Failed)
          case Dropped(_) => SleepThenRun(sent, path, words, attempt, backoff)
  }

  /** The device acts unless the command was lost on its way. */
  function Sent(net: Net, path: Path, words: seq<string>, fate: Fate): Net {
    var acted := fate.Answered? || fate.applied;
    net.(plan := Tail(net.plan), execs := net.execs + 1,
         device := if acted then Answer(net.device, path, words).0 else net.device)
  }

  function SleepThenRun(net: Net, path: Path, words: seq<string>, attempt: nat, backoff: nat): (Net, Outcome)
    requires 1 <= attempt <= RUN_ATTEMPTS
    decreases RUN_ATTEMPTS + 1 - attempt, 0
  {
    if attempt == RUN_ATTEMPTS then (net, Failed)
    else
      var slept := net.(plan := Tail(net.plan), runWaits := net.runWaits + [backoff]);
      if Head(net.plan).trouble then (slept, Failed)
      else RunFrom(slept, path, words, attempt + 1, NextBackoff(backoff))
  }

  function Run(net: Net, path: Path, words: seq<string>): (Net, Outcome) {
    var open := net.(plan := Tail(net.plan));
    if Head(net.plan).trouble then (open, Failed) else RunFrom(open, path, words, 1, 120)
  }

  // ---- The client ----

  class Client {
    var net: Net

    constructor (device: Device, plan: seq<Event>)
      ensures net == Net(device, plan, 0, 0, [], [])
    {
      net := Net(device, plan, 0, 0, [], []);
    }

    method Ask() returns (e: Event)
      modifies this
      ensures e == Head(old(net).plan) && net == old(net).(plan := Tail(old(net).plan))
    {
      e := Head(net.plan);
      net := net.(plan := Tail(net.plan));
    }

    method Dial() returns (ok: bool)
      modifies this
      ensures (net, ok) == DialFrom(old(net), 1, 150)
    {
      var backoff: nat := 150;
      var attempt: nat := 1;
      while true
        invariant 1 <= attempt <= DIAL_ATTEMPTS
        invariant DialFrom(net, attempt, backoff) == DialFrom(old(net), 1, 150)
        decreases DIAL_ATTEMPTS - attempt
      {
        net := net.(dials := net.dials + 1);
        var dial := Ask();
        if !dial.trouble { return true; }
        if attempt == DIAL_ATTEMPTS { return false; }
        net := net.(dialWaits := net.dialWaits + [backoff]);
        var sleep := Ask();
        if sleep.trouble { return false; }
        backoff := NextBackoff(backoff);
        attempt := attempt + 1;
      }
    }

    method ConnectOnce() returns (ok: bool)
      modifies this
      ensures (net, ok) == Connect(old(net))
    {
      var closed := Ask();
      if closed.trouble { return false; }
      var missing := Ask();
      if !missing.trouble { return true; }
      var stillMissing := Ask();
      if !stillMissing.trouble { return true; }
      ok := Dial();
    }

    /** One attempt of `Run` on a connection: sends the command and learns its fate. */
    method Send(path: Path, words: seq<string>) returns (fate: Fate, reply: Reply)
      modifies this
      ensures fate == Head(old(net).plan).fate && net == Sent(old(net), path, words, fate)
      ensures reply == Answer(old(net).device, path, words).1
    {
      var e := Ask();
      fate := e.fate;
      var (acted, answer) := Answer(net.device, path, words);
      reply := answer;
      net := net.(execs := net.execs + 1, device := if fate.Answered? || fate.applied then acted else net.device);
    }

    method RunCommand(path: Path, words: seq<string>) returns (r: Outcome)
      modifies this
      ensures (net, r) == Run(old(net), path, words)
    {
      hide Answer, Connect, Sent, NextBackoff;
      var closed := Ask();
      if closed.trouble { return Failed; }

      var backoff: nat := 120;
      var attempt: nat := 1;
      while attempt <= RUN_ATTEMPTS
        invariant 1 <= attempt <= RUN_ATTEMPTS + 1
        invariant RunFrom(net, path, words, attempt, backoff) == Run(old(net), path, words)
      {
        var ok := ConnectOnce();
        if ok {
          var gone := Ask();
          if gone.trouble {
            attempt := attempt + 1;
            continue;
          }
          var fate, reply := Send(path, words);
          match fate {
            case Answered => return Replied(reply);
            case Broken(_) => return Failed;
            case Dropped(_) =>
          }
        }
        if attempt == RUN_ATTEMPTS { return Failed; }
        net := net.(runWaits := net.runWaits + [backoff]);
        var sleep := Ask();
        if sleep.trouble { return Failed; }
        backoff := NextBackoff(backoff);
        attempt := attempt + 1;
      }
      r := Failed;
    }
  }

  // ---- At least once ----

  /** The device has carried the command out some number of times up to four; a reply is
      the one to the last of them. */
  ghost predicate AtLeastOnce(before: Device, after: Device, path: Path, words: seq<string>, r: Outcome, bound: nat) {
    exists k: nat | k <= bound ::
      && after == Repeated(before, path, words, k)
      && (r.Replied? ==> k > 0 && r.reply == Answer(Repeated(before, path, words, k - 1), path, words).1)
  }

  lemma DialLeavesDevice(net: Net, attempt: nat, backoff: nat)
    requires 1 <= attempt <= DIAL_ATTEMPTS
    ensures DialFrom(net, attempt, backoff).0.device == net.device
    decreases DIAL_ATTEMPTS - attempt
  {}

  lemma ConnectLeavesDevice(net: Net)
    ensures Connect(net).0.device == net.device
  {
    var p2 := Tail(Tail(net.plan));
    DialLeavesDevice(net.(plan := Tail(p2)), 1, 150);
  }

  lemma {:induction false} RepeatedFirst(d: Device, path: Path, words: seq<string>, k: nat)
    ensures Repeated(Answer(d, path, words).0, path, words, k) == Repeated(d, path, words, k + 1)
  {
    hide Answer;
    if k > 0 { RepeatedFirst(d, path, words, k - 1); }
  }

  lemma OneMore(before: Device, mid: Device, after: Device, path: Path, words: seq<string>, r: Outcome, bound: nat)
    requires mid == before || mid == Answer(before, path, words).0
    requires AtLeastOnce(mid, after, path, words, r, bound)
    ensures AtLeastOnce(before, after, path, words, r, bound + 1)
  {
    hide Answer;
    var k: nat :| k <= bound && after == Repeated(mid, path, words, k)
      && (r.Replied? ==> k > 0 && r.reply == Answer(Repeated(mid, path, words, k - 1), path, words).1);
    if mid == before {
      assert after == Repeated(before, path, words, k);
    } else {
      RepeatedFirst(before, path, words, k);
      if k > 0 { RepeatedFirst(before, path, words, k - 1); }
      assert after == Repeated(before, path, words, k + 1);
    }
  }

  lemma Untouched(d: Device, path: Path, words: seq<string>)
    ensures AtLeastOnce(d, d, path, words, Failed, 0)
  {
    assert d == Repeated(d, path, words, 0);
  }

  lemma {:induction false} RunFromAtLeastOnce(net: Net, path: Path, words: seq<string>, attempt: nat, backoff: nat)
    requires 1 <= attempt <= RUN_ATTEMPTS + 1
    ensures var (after, r) := RunFrom(net, path, words, attempt, backoff);
            AtLeastOnce(net.device, after.device, path, words, r, RUN_ATTEMPTS + 1 - attempt)
    decreases RUN_ATTEMPTS + 1 - attempt
  {
    hide Answer, AtLeastOnce, Connect;
    var bound := RUN_ATTEMPTS + 1 - attempt;
    Untouched(net.device, path, words);
    Weaken(net.device, net.device, path, words, Failed, 0, bound);
    if attempt <= RUN_ATTEMPTS {
      ConnectLeavesDevice(net);
      var (up, ok) := Connect(net);
      if !ok {
        SleepThenRunAtLeastOnce(up, path, words, attempt, backoff);
        Weaken(net.device, SleepThenRun(up, path, words, attempt, backoff).0.device, path, words,
               SleepThenRun(up, path, words, attempt, backoff).1, bound - 1, bound);
      } else {
        var seen := up.(plan := Tail(up.plan));
        if Head(up.plan).trouble {
          RunFromAtLeastOnce(seen, path, words, attempt + 1, backoff);
          var (after, r) := RunFrom(seen, path, words, attempt + 1, backoff);
          Weaken(net.device, after.device, path, words, r, bound - 1, bound);
        } else {
          var fate := Head(seen.plan).fate;
          var sent := Sent(seen, path, words, fate);
          if fate.Dropped? {
            SleepThenRunAtLeastOnce(sent, path, words, attempt, backoff);
            var (after, r) := SleepThenRun(sent, path, words, attempt, backoff);
            OneMore(net.device, sent.device, after.device, path, words, r, bound - 1);
          } else {
            OneExecution(net.device, path, words, bound);
          }
        }
      }
    }
  }

  lemma SleepThenRunAtLeastOnce(net: Net, path: Path, words: seq<string>, attempt: nat, backoff: nat)
    requires 1 <= attempt <= RUN_ATTEMPTS
    ensures var (after, r) := SleepThenRun(net, path, words, attempt, backoff);
            AtLeastOnce(net.device, after.device, path, words, r, RUN_ATTEMPTS - attempt)
    decreases RUN_ATTEMPTS + 1 - attempt, 0
  {
    hide Answer, AtLeastOnce, RunFrom;
    Untouched(net.device, path, words);
    Weaken(net.device, net.device, path, words, Failed, 0, RUN_ATTEMPTS - attempt);
    if attempt < RUN_ATTEMPTS {
      var slept := net.(plan := Tail(net.plan), runWaits := net.runWaits + [backoff]);
      RunFromAtLeastOnce(slept, path, words, attempt + 1, NextBackoff(backoff));
    }
  }

  lemma OneExecution(d: Device, path: Path, words: seq<string>, bound: nat)
    requires bound >= 1
    ensures AtLeastOnce(d, Answer(d, path, words).0, path, words, Replied(Answer(d, path, words).1), bound)
    ensures AtLeastOnce(d, Answer(d, path, words).0, path, words, Failed, bound)
    ensures AtLeastOnce(d, d, path, words, Failed, bound)
  {
    hide Answer;
    assert Repeated(d, path, words, 0) == d;
    assert Repeated(d, path, words, 1) == Answer(d, path, words).0;
  }

  lemma Weaken(before: Device, after: Device, path: Path, words: seq<string>, r: Outcome, low: nat, high: nat)
    requires AtLeastOnce(before, after, path, words, r, low) && low <= high
    ensures AtLeastOnce(before, after, path, words, r, high)
  {}

  /** For every plan: the effect of one `Run` is that of up to four executions, and a reply
      means at least one, the reply being that of the last. */
  lemma RunIsAtLeastOnce(net: Net, path: Path, words: seq<string>)
    ensures var (after, r) := Run(net, path, words);
            AtLeastOnce(net.device, after.device, path, words, r, RUN_ATTEMPTS)
  {
    hide Answer, AtLeastOnce, RunFrom;
    Untouched(net.device, path, words);
    Weaken(net.device, net.device, path, words, Failed, 0, RUN_ATTEMPTS);
    RunFromAtLeastOnce(net.(plan := Tail(net.plan)), path, words, 1, 120);
  }

  /** Without trouble a command is executed once and answered. */
  lemma CleanRun(net: Net, path: Path, words: seq<string>)
    requires net.plan == []
    ensures Run(net, path, words) ==
            (net.(device := Answer(net.device, path, words).0, execs := net.execs + 1),
             Replied(Answer(net.device, path, words).1))
  {
    hide Answer;
    assert Connect(net) == (net, true);
  }

  // ---- Budgets ----

  function Total(waits: seq<nat>): nat {
    if waits == [] then 0 else Total(waits[..|waits| - 1]) + waits[|waits| - 1]
  }

  /** `n` waits, each the doubled previous one capped at two seconds. */
  function Doubling(first: nat, n: nat): seq<nat>
    decreases n
  {
    if n == 0 then [] else [first] + Doubling(NextBackoff(first), n - 1)
  }

  lemma NoWaits(waits: seq<nat>, first: nat)
    ensures waits == waits + Doubling(first, 0)
  {}

  lemma DoublingStep(waits: seq<nat>, first: nat, n: nat)
    ensures waits + [first] + Doubling(NextBackoff(first), n) == waits + Doubling(first, n + 1)
    ensures n == 0 ==> waits + [first] == waits + Doubling(first, 1)
  {
    assert Doubling(first, n + 1) == [first] + Doubling(NextBackoff(first), n);
  }

  lemma {:induction false} DialBudget(net: Net, attempt: nat, backoff: nat)
    requires 1 <= attempt <= DIAL_ATTEMPTS
    ensures var after := DialFrom(net, attempt, backoff).0;
            && after.execs == net.execs && after.runWaits == net.runWaits
            && after.dials <= net.dials + DIAL_ATTEMPTS + 1 - attempt
            && exists n: nat | n <= DIAL_ATTEMPTS - attempt :: after.dialWaits == net.dialWaits + Doubling(backoff, n)
    decreases DIAL_ATTEMPTS - attempt
  {
    hide NextBackoff;
    var after := DialFrom(net, attempt, backoff).0;
    NoWaits(net.dialWaits, backoff);
    var dialled := net.(plan := Tail(net.plan), dials := net.dials + 1);
    if Head(net.plan).trouble && attempt < DIAL_ATTEMPTS {
      var slept := dialled.(plan := Tail(dialled.plan), dialWaits := dialled.dialWaits + [backoff]);
      if Head(dialled.plan).trouble {
        DoublingStep(net.dialWaits, backoff, 0);
      } else {
        DialBudget(slept, attempt + 1, NextBackoff(backoff));
        var n: nat :| n <= DIAL_ATTEMPTS - attempt - 1
          && after.dialWaits == slept.dialWaits + Doubling(NextBackoff(backoff), n);
        DoublingStep(net.dialWaits, backoff, n);
      }
    }
  }

  lemma {:induction false} TotalConcat(a: seq<nat>, b: seq<nat>)
    ensures Total(a + b) == Total(a) + Total(b)
  {
    if b == [] {
      assert a + b == a;
    } else {
      TotalConcat(a, b[..|b| - 1]);
      assert (a + b)[..|a + b| - 1] == a + b[..|b| - 1];
    }
  }

  lemma DoublingTable()
    ensures Doubling(150, 0) == [] && Doubling(150, 1) == [150] && Doubling(150, 2) == [150, 300]
    ensures Doubling(150, 3) == [150, 300, 600] && Doubling(150, 4) == [150, 300, 600, 1200]
    ensures Doubling(120, 0) == [] && Doubling(120, 1) == [120] && Doubling(120, 2) == [120, 240]
    ensures Doubling(120, 3) == [120, 240, 480]
    ensures Total([150, 300, 600, 1200]) == 2250 && Total([120, 240, 480]) == 840
  {
    FourDoubled(150, 300, 600, 1200);
    FourDoubled(120, 240, 480, 960);
    TotalOf4(150, 300, 600, 1200);
    TotalOf3(120, 240, 480);
  }

  lemma FourDoubled(a: nat, b: nat, c: nat, d: nat)
    requires b == NextBackoff(a) && c == NextBackoff(b) && d == NextBackoff(c)
    ensures Doubling(a, 0) == [] && Doubling(a, 1) == [a] && Doubling(a, 2) == [a, b]
    ensures Doubling(a, 3) == [a, b, c] && Doubling(a, 4) == [a, b, c, d]
  {
    hide NextBackoff;
    assert Doubling(b, 1) == [b] && Doubling(c, 1) == [c] && Doubling(d, 1) == [d];
    assert Doubling(b, 2) == [b, c] && Doubling(c, 2) == [c, d];
    assert Doubling(b, 3) == [b, c, d];
  }

  lemma TotalOf3(a: nat, b: nat, c: nat)
    ensures Total([a, b, c]) == a + b + c && Total([a, b]) == a + b && Total([a]) == a
  {
    assert [a][..0] == [];
    assert Total([a]) == a;
    assert [a, b][..1] == [a];
    assert Total([a, b]) == a + b;
    assert [a, b, c][..2] == [a, b];
  }

  lemma TotalOf4(a: nat, b: nat, c: nat, d: nat)
    ensures Total([a, b, c, d]) == a + b + c + d
  {
    TotalOf3(a, b, c);
    assert [a, b, c, d][..3] == [a, b, c];
  }

  lemma DialWaitBound(n: nat)
    requires n <= 4
    ensures Total(Doubling(150, n)) <= 2250
  {
    DoublingTable();
    TotalOf3(150, 300, 600);
    hide Doubling;
    if n == 0 { assert Total(Doubling(150, 0)) == 0; }
    else if n == 1 { assert Total(Doubling(150, 1)) == 150; }
    else if n == 2 { assert Total(Doubling(150, 2)) == 450; }
    else if n == 3 { assert Total(Doubling(150, 3)) == 1050; }
    else { assert Total(Doubling(150, 4)) == 2250; }
  }

  lemma ConnectBudget(net: Net)
    ensures var after := Connect(net).0;
            && after.execs == net.execs && after.runWaits == net.runWaits
            && after.dials <= net.dials + DIAL_ATTEMPTS
            && Total(after.dialWaits) <= Total(net.dialWaits) + 2250
  {
    hide Total, Doubling;
    var p2 := Tail(Tail(net.plan));
    var start := net.(plan := Tail(p2));
    var after := DialFrom(start, 1, 150).0;
    DialBudget(start, 1, 150);
    var n: nat :| n <= 4 && after.dialWaits == start.dialWaits + Doubling(150, n);
    TotalConcat(start.dialWaits, Doubling(150, n));
    DialWaitBound(n);
  }

  /** What is left of the budget before an attempt. */
  ghost predicate WithinBudget(before: Net, after: Net, attempts: nat, backoff: nat) {
    && after.execs <= before.execs + attempts
    && after.dials <= before.dials + DIAL_ATTEMPTS * attempts
    && Total(after.dialWaits) <= Total(before.dialWaits) + 2250 * attempts
    && exists n: nat | n < attempts || n == 0 :: after.runWaits == before.runWaits + Doubling(backoff, n)
  }

  lemma {:induction false} RunFromBudget(net: Net, path: Path, words: seq<string>, attempt: nat, backoff: nat)
    requires 1 <= attempt <= RUN_ATTEMPTS + 1
    ensures WithinBudget(net, RunFrom(net, path, words, attempt, backoff).0, RUN_ATTEMPTS + 1 - attempt, backoff)
    decreases RUN_ATTEMPTS + 1 - attempt
  {
    hide Answer, Connect, Total;
    var after := RunFrom(net, path, words, attempt, backoff).0;
    NoWaits(net.runWaits, backoff);
    if attempt <= RUN_ATTEMPTS {
      ConnectBudget(net);
      var (up, ok) := Connect(net);
      var seen := up.(plan := Tail(up.plan));
      if !ok {
        SleepThenRunBudget(up, path, words, attempt, backoff);
      } else if Head(up.plan).trouble {
        RunFromBudget(seen, path, words, attempt + 1, backoff);
      } else if Head(seen.plan).fate.Dropped? {
        SleepThenRunBudget(Sent(seen, path, words, Head(seen.plan).fate), path, words, attempt, backoff);
      }
    }
  }

  lemma SleepThenRunBudget(net: Net, path: Path, words: seq<string>, attempt: nat, backoff: nat)
    requires 1 <= attempt <= RUN_ATTEMPTS
    ensures var after := SleepThenRun(net, path, words, attempt, backoff).0;
            && after.execs <= net.execs + RUN_ATTEMPTS - attempt
            && after.dials <= net.dials + DIAL_ATTEMPTS * (RUN_ATTEMPTS - attempt)
            && Total(after.dialWaits) <= Total(net.dialWaits) + 2250 * (RUN_ATTEMPTS - attempt)
            && exists n: nat | n <= RUN_ATTEMPTS - attempt :: after.runWaits == net.runWaits + Doubling(backoff, n)
    decreases RUN_ATTEMPTS + 1 - attempt, 0
  {
    hide Answer, RunFrom, Total;
    var after := SleepThenRun(net, path, words, attempt, backoff).0;
    NoWaits(net.runWaits, backoff);
    if attempt < RUN_ATTEMPTS {
      var slept := net.(plan := Tail(net.plan), runWaits := net.runWaits + [backoff]);
      if Head(net.plan).trouble {
        DoublingStep(net.runWaits, backoff, 0);
      } else {
        RunFromBudget(slept, path, words, attempt + 1, NextBackoff(backoff));
        var n: nat :| (n < RUN_ATTEMPTS - attempt || n == 0)
          && after.runWaits == slept.runWaits + Doubling(NextBackoff(backoff), n);
        DoublingStep(net.runWaits, backoff, n);
      }
    }
  }

  /** For every plan one `Run` executes at most 4 commands, dials at most 20 times and asks
      for at most 9840 ms of sleep; its own waits are a beginning of 120, 240, 480. */
  lemma RunBudget(net: Net, path: Path, words: seq<string>)
    ensures var after := Run(net, path, words).0;
            && after.execs <= net.execs + 4
            && after.dials <= net.dials + 20
            && (exists n: nat | n <= 3 :: after.runWaits == net.runWaits + [120, 240, 480][..n])
            && Total(after.dialWaits) + Total(after.runWaits) <= Total(net.dialWaits) + Total(net.runWaits) + 9840
  {
    hide Answer, RunFrom, Total, Doubling;
    var open := net.(plan := Tail(net.plan));
    var after := Run(net, path, words).0;
    DoublingTable();
    assert [120, 240, 480][..0] == [];
    if Head(net.plan).trouble {
      assert net.runWaits == net.runWaits + [120, 240, 480][..0];
    } else {
      RunFromBudget(open, path, words, 1, 120);
      var n: nat :| (n < 4 || n == 0) && after.runWaits == open.runWaits + Doubling(120, n);
      assert Doubling(120, n) == [120, 240, 480][..n] by { assert n == 0 || n == 1 || n == 2 || n == 3; }
      TotalConcat(open.runWaits, Doubling(120, n));
      RunWaitBound(n);
    }
  }

  lemma RunWaitBound(n: nat)
    requires n <= 3
    ensures Total(Doubling(120, n)) <= 840
  {
    DoublingTable();
    TotalOf3(120, 240, 480);
    hide Doubling;
    if n == 0 { assert Total(Doubling(120, 0)) == 0; }
    else if n == 1 { assert Total(Doubling(120, 1)) == 120; }
    else if n == 2 { assert Total(Doubling(120, 2)) == 360; }
    else { assert Total(Doubling(120, 3)) == 840; }
  }

  // ---- The bounds are reached ----

  /** Dials `left` times in vain, every sleep between them granted. */
  function DialsInVain(left: nat): seq<Event> {
    if left == 0 then []
    else if left == 1 then [Event(true, Answered)]
    else [Event(true, Answered), Event(false, Answered)] + DialsInVain(left - 1)
  }

  /** Open client, no connection, none once the lock is held, then five failed dials. */
  function ConnectsInVain(): seq<Event> {
    [Event(false, Answered), Event(true, Answered), Event(true, Answered)] + DialsInVain(DIAL_ATTEMPTS)
  }

  function RunsInVain(attempts: nat): seq<Event> {
    if attempts == 0 then []
    else if attempts == 1 then ConnectsInVain()
    else ConnectsInVain() + [Event(false, Answered)] + RunsInVain(attempts - 1)
  }

  lemma {:induction false} VainDials(net: Net, attempt: nat, backoff: nat, rest: seq<Event>)
    requires 1 <= attempt <= DIAL_ATTEMPTS
    requires net.plan == DialsInVain(DIAL_ATTEMPTS + 1 - attempt) + rest
    ensures DialFrom(net, attempt, backoff) ==
            (net.(plan := rest, dials := net.dials + DIAL_ATTEMPTS + 1 - attempt,
                  dialWaits := net.dialWaits + Doubling(backoff, DIAL_ATTEMPTS - attempt)), false)
    decreases DIAL_ATTEMPTS - attempt
  {
    hide NextBackoff, Doubling;
    var dialled := net.(plan := Tail(net.plan), dials := net.dials + 1);
    if attempt == DIAL_ATTEMPTS {
      assert net.plan == [Event(true, Answered)] + rest;
      NoWaits(net.dialWaits, backoff);
    } else {
      var later := DialsInVain(DIAL_ATTEMPTS - attempt) + rest;
      assert net.plan == [Event(true, Answered), Event(false, Answered)] + later;
      var slept := dialled.(plan := later, dialWaits := dialled.dialWaits + [backoff]);
      VainDials(slept, attempt + 1, NextBackoff(backoff), rest);
      DoublingStep(net.dialWaits, backoff, DIAL_ATTEMPTS - attempt - 1);
    }
  }

  lemma VainConnect(net: Net, rest: seq<Event>)
    requires net.plan == ConnectsInVain() + rest
    ensures Connect(net) ==
            (net.(plan := rest, dials := net.dials + 5, dialWaits := net.dialWaits + Doubling(150, 4)), false)
  {
    hide DialFrom, DialsInVain, Doubling;
    var later := DialsInVain(DIAL_ATTEMPTS) + rest;
    assert net.plan == [Event(false, Answered), Event(true, Answered), Event(true, Answered)] + later;
    VainDials(net.(plan := later), 1, 150, rest);
    assert Tail(Tail(Tail(net.plan))) == later;
  }

  lemma {:induction false} VainRun(net: Net, path: Path, words: seq<string>, attempt: nat, backoff: nat)
    requires 1 <= attempt <= RUN_ATTEMPTS
    requires net.plan == RunsInVain(RUN_ATTEMPTS + 1 - attempt)
    ensures var (after, r) := RunFrom(net, path, words, attempt, backoff);
            && r == Failed && after.dials == net.dials + 5 * (RUN_ATTEMPTS + 1 - attempt)
            && Total(after.dialWaits) == Total(net.dialWaits) + 2250 * (RUN_ATTEMPTS + 1 - attempt)
            && after.runWaits == net.runWaits + Doubling(backoff, RUN_ATTEMPTS - attempt)
    decreases RUN_ATTEMPTS - attempt
  {
    hide NextBackoff, Total, Connect, ConnectsInVain, Answer;
    DoublingTable();
    TotalConcat(net.dialWaits, Doubling(150, 4));
    if attempt == RUN_ATTEMPTS {
      assert net.plan == ConnectsInVain() + [];
      VainConnect(net, []);
      NoWaits(net.runWaits, backoff);
    } else {
      var later := RunsInVain(RUN_ATTEMPTS - attempt);
      assert net.plan == ConnectsInVain() + ([Event(false, Answered)] + later);
      VainConnect(net, [Event(false, Answered)] + later);
      var up := Connect(net).0;
      var slept := up.(plan := later, runWaits := up.runWaits + [backoff]);
      VainRun(slept, path, words, attempt + 1, NextBackoff(backoff));
      DoublingStep(net.runWaits, backoff, RUN_ATTEMPTS - attempt - 1);
    }
  }

  /** Against a router that never answers a dial, one `Run` spends the whole budget. */
  lemma BudgetIsReached(net: Net, path: Path, words: seq<string>)
    requires net.plan == [Event(false, Answered)] + RunsInVain(4)
    ensures var (after, r) := Run(net, path, words);
            && r == Failed && after.dials == net.dials + 20
            && Total(after.dialWaits) + Total(after.runWaits) == Total(net.dialWaits) + Total(net.runWaits) + 9840
  {
    hide RunFrom, Total, RunsInVain;
    var open := net.(plan := RunsInVain(4));
    VainRun(open, path, words, 1, 120);
    DoublingTable();
    TotalConcat(net.runWaits, Doubling(120, 3));
  }

  // ---- Retries ----

  const CALM: Event := Event(false, Answered)

  /** What an open, connected client meets when one command after the other is dropped, the
      device having acted or not, and then one is answered. */
  function Retried(drops: seq<bool>): seq<Event> {
    if drops == [] then [CALM, CALM, CALM, CALM]
    else [CALM, CALM, CALM, Event(false, Dropped(drops[0])), CALM] + Retried(drops[1..])
  }

  function Count(drops: seq<bool>): nat {
    if drops == [] then 0 else (if drops[0] then 1 else 0) + Count(drops[1..])
  }

  lemma {:induction false} RepeatedShift(d: Device, path: Path, words: seq<string>, k: nat)
    ensures Repeated(Answer(d, path, words).0, path, words, k) == Repeated(d, path, words, k + 1)
  {
    hide Answer;
    if k > 0 { RepeatedShift(d, path, words, k - 1); }
  }

  lemma Connected(net: Net, rest: seq<Event>)
    requires net.plan == [CALM, CALM] + rest
    ensures Connect(net) == (net.(plan := rest), true)
  {
    assert net.plan[1..] == [CALM] + rest && ([CALM] + rest)[1..] == rest;
  }

  lemma OneAnswer(net: Net, path: Path, words: seq<string>, attempt: nat, backoff: nat)
    requires 1 <= attempt <= RUN_ATTEMPTS && net.plan == [CALM, CALM, CALM, CALM]
    ensures RunFrom(net, path, words, attempt, backoff)
         == (net.(plan := [], execs := net.execs + 1, device := Answer(net.device, path, words).0),
             Replied(Answer(net.device, path, words).1))
  {
    hide Answer, Connect, SleepThenRun;
    assert net.plan == [CALM, CALM] + [CALM, CALM];
    Connected(net, [CALM, CALM]);
    assert [CALM, CALM][1..] == [CALM] && [CALM][1..] == [];
  }

  lemma OneDrop(net: Net, path: Path, words: seq<string>, attempt: nat, backoff: nat, applied: bool, rest: seq<Event>)
    requires 1 <= attempt < RUN_ATTEMPTS
    requires net.plan == [CALM, CALM, CALM, Event(false, Dropped(applied)), CALM] + rest
    ensures var sent := Sent(net, path, words, Dropped(applied));
            RunFrom(net, path, words, attempt, backoff)
              == RunFrom(sent.(plan := rest, runWaits := sent.runWaits + [backoff]), path, words, attempt + 1,
                         NextBackoff(backoff))
  {
    hide Answer, Connect;
    var sleep := [CALM] + rest;
    var fate := [Event(false, Dropped(applied))] + sleep;
    assert net.plan == [CALM, CALM] + ([CALM] + fate);
    Connected(net, [CALM] + fate);
    assert ([CALM] + fate)[1..] == fate && fate[1..] == sleep && sleep[1..] == rest;
  }

  lemma {:induction false} RetryRounds(net: Net, path: Path, words: seq<string>, attempt: nat, backoff: nat,
                                       drops: seq<bool>)
    requires 1 <= attempt && attempt + |drops| <= RUN_ATTEMPTS && net.plan == Retried(drops)
    ensures var (after, r) := RunFrom(net, path, words, attempt, backoff);
            && r == Replied(Answer(Repeated(net.device, path, words, Count(drops)), path, words).1)
            && after.device == Repeated(net.device, path, words, Count(drops) + 1)
            && after.execs == net.execs + |drops| + 1 && after.dials == net.dials
            && after.runWaits == net.runWaits + Doubling(backoff, |drops|)
    decreases |drops|
  {
    hide Answer, RunFrom;
    if drops == [] {
      NoWaits(net.runWaits, backoff);
      OneAnswer(net, path, words, attempt, backoff);
    } else {
      var rest := Retried(drops[1..]);
      var sent := Sent(net, path, words, Dropped(drops[0]));
      var slept := sent.(plan := rest, runWaits := sent.runWaits + [backoff]);
      assert net.plan == [CALM, CALM, CALM, Event(false, Dropped(drops[0])), CALM] + rest;
      OneDrop(net, path, words, attempt, backoff, drops[0], rest);
      RetryRounds(slept, path, words, attempt + 1, NextBackoff(backoff), drops[1..]);
      DoublingStep(net.runWaits, backoff, |drops| - 1);
      RepeatedShift(net.device, path, words, Count(drops[1..]));
      RepeatedShift(net.device, path, words, Count(drops[1..]) + 1);
    }
  }

  /** Up to three dropped commands are sent again, each after its doubled wait, and the fourth
      answer still counts; every drop the device had acted on makes it act once more. */
  lemma RetriedUntilAnswered(net: Net, path: Path, words: seq<string>, drops: seq<bool>)
    requires |drops| < RUN_ATTEMPTS && net.plan == [CALM] + Retried(drops)
    ensures var (after, r) := Run(net, path, words);
            && r == Replied(Answer(Repeated(net.device, path, words, Count(drops)), path, words).1)
            && after.device == Repeated(net.device, path, words, Count(drops) + 1)
            && after.execs == net.execs + |drops| + 1
            && after.runWaits == net.runWaits + [120, 240, 480][..|drops|]
  {
    hide Answer, RunFrom;
    assert net.plan[1..] == Retried(drops);
    RetryRounds(net.(plan := Retried(drops)), path, words, 1, 120, drops);
    FirstWaits(|drops|);
  }

  lemma FirstWaits(n: nat)
    requires n <= 3
    ensures Doubling(120, n) == [120, 240, 480][..n]
  {
    assert Doubling(480, 0) == [] && Doubling(240, 0) == [];
    assert Doubling(480, 1) == [480] && Doubling(240, 1) == [240] && Doubling(240, 2) == [240, 480];
    assert Doubling(120, 1) == [120] && Doubling(120, 2) == [120, 240] && Doubling(120, 3) == [120, 240, 480];
  }

  /** An error that is not worth a retry ends the run at once, and a closed client sends
      nothing at all. */
  lemma BrokenEndsTheRun(net: Net, path: Path, words: seq<string>, applied: bool, rest: seq<Event>)
    ensures net.plan == [CALM, CALM, CALM, CALM, Event(false, Broken(applied))] + rest ==>
              var (after, r) := Run(net, path, words);
              && r == Failed && after.execs == net.execs + 1 && after.runWaits == net.runWaits
              && after.device == if applied then Answer(net.device, path, words).0 else net.device
    ensures net.plan != [] && net.plan[0].trouble ==>
              Run(net, path, words) == (net.(plan := net.plan[1..]), Failed)
  {
    hide Answer, Connect, SleepThenRun;
    var fate := [Event(false, Broken(applied))] + rest;
    if net.plan == [CALM, CALM, CALM, CALM, Event(false, Broken(applied))] + rest {
      var open := net.(plan := [CALM, CALM] + ([CALM] + fate));
      assert net.plan[1..] == open.plan;
      Connected(open, [CALM] + fate);
      assert ([CALM] + fate)[1..] == fate && fate[1..] == rest;
    }
  }
}
