/** The memory gate told by the events of a run: what a job read before it was let in
    or turned away, who was notified, and that every job can come and go. */
module MemoryGateHistory {
  import opened Prelude
  import opened MemoryGateProtocol

  lemma ExecLast(s: State, run: seq<Event>, e: Event)
    requires Exec(s, run + [e]).Some?
    ensures Exec(s, run).Some? && Enabled(Exec(s, run).value, e)
    ensures Exec(s, run + [e]) == Some(Next(Exec(s, run).value, e))
    decreases |run|
  {
    if run == [] {
      assert run + [e] == [e] && [e][1..] == [];
      assert Exec(Next(s, e), []) == Some(Next(s, e));
    } else {
      assert (run + [e])[1..] == run[1..] + [e];
      ExecLast(Next(s, run[0]), run[1..], e);
    }
  }

  /** The live readings task `t` took last, and its estimate from when it asked. */
  function LastReadings(run: seq<Event>, t: nat): Option<(Option<nat>, Option<nat>)> {
    if run == [] then None
    else
      match run[|run| - 1]
      case Load(u, rss, available) =>
        if u == t then Some((rss, available)) else LastReadings(run[..|run| - 1], t)
      case _ => LastReadings(run[..|run| - 1], t)
  }

  function LastEstimate(run: seq<Event>, t: nat): nat {
    if run == [] then 0
    else
      match run[|run| - 1]
      case Admit(u, est) => if u == t then est else LastEstimate(run[..|run| - 1], t)
      case _ => LastEstimate(run[..|run| - 1], t)
  }

  /** A task about to swap remembers what its job is and what it read. */
  lemma {:induction false} SwapperRemembers(ceiling: nat, floor: nat, tasks: nat, run: seq<Event>, t: nat)
    requires Exec(Init(ceiling, floor, tasks), run).Some?
    requires t < |Exec(Init(ceiling, floor, tasks), run).value.tasks|
    ensures var task := Exec(Init(ceiling, floor, tasks), run).value.tasks[t];
      && (!task.Idle? && !task.Notifying? ==> task.est == LastEstimate(run, t))
      && (task.Swapping? ==> LastReadings(run, t) == Some((task.rss, task.available)))
    decreases |run|
  {
    if run != [] {
      var before, e := run[..|run| - 1], run[|run| - 1];
      assert run == before + [e];
      ExecLast(Init(ceiling, floor, tasks), before, e);
      var s := Exec(Init(ceiling, floor, tasks), before).value;
      Frame(s, e);
      SwapperRemembers(ceiling, floor, tasks, before, t);
    }
  }

  /** The last event of a run admitted job `t`. */
  ghost predicate JustAdmitted(s: State, e: Event, s': State) {
    e.Swap? && e.t < |s.tasks| && e.t < |s'.tasks| && s.tasks[e.t].Swapping? && s'.tasks[e.t].Reserved?
  }

  /** A job admitted beside another leaves the ceiling and the host floor what the
      readings it took last say they need. */
  lemma AdmissionLeavesRoom(ceiling: nat, floor: nat, tasks: nat, run: seq<Event>, e: Event)
    requires 0 < ceiling < U64_MAX
    requires Exec(Init(ceiling, floor, tasks), run + [e]).Some?
    requires Exec(Init(ceiling, floor, tasks), run).Some?
    requires JustAdmitted(Exec(Init(ceiling, floor, tasks), run).value, e,
                          Exec(Init(ceiling, floor, tasks), run + [e]).value)
    ensures var s := Exec(Init(ceiling, floor, tasks), run).value;
      var est, readings := LastEstimate(run, e.t), LastReadings(run, e.t);
      s.reserved != 0 ==>
        && readings.Some?
        && s.reserved + est <= ceiling
        && (readings.value.0.Some? ==> readings.value.0.value + est <= ceiling)
        && (floor != 0 && readings.value.1.Some? ==> readings.value.1.value >= est + floor)
  {
    InitInv(ceiling, floor, tasks);
    RunInv(Init(ceiling, floor, tasks), run);
    ExecLast(Init(ceiling, floor, tasks), run, e);
    SwapperRemembers(ceiling, floor, tasks, run, e.t);
  }

  /** Looking at the counter, a job is parked exactly when somebody is charged and it
      would exceed the ceiling by reservations or by live use, or not leave the host
      its floor; and for the first of these reasons that applies. */
  lemma LookDecides(ceiling: nat, floor: nat, tasks: nat, run: seq<Event>, t: nat,
                    rss: Option<nat>, available: Option<nat>)
    requires 0 < ceiling < U64_MAX
    requires Exec(Init(ceiling, floor, tasks), run).Some?
    requires Enabled(Exec(Init(ceiling, floor, tasks), run).value, Load(t, rss, available))
    ensures var s := Exec(Init(ceiling, floor, tasks), run).value;
      var task := Next(s, Load(t, rss, available)).tasks[t];
      var est := LastEstimate(run, t);
      var tooMuch := s.reserved + est > ceiling;
      var tooLarge := rss.Some? && rss.value + est > ceiling;
      var tooLow := floor != 0 && available.Some? && available.value < est + floor;
      && (task.Parked? <==> s.reserved > 0 && (tooMuch || tooLarge || tooLow))
      && (task.Parked? ==>
            task.why == if tooMuch then ByReservations else if tooLarge then ByRss else ByHost)
  {
    InitInv(ceiling, floor, tasks);
    RunInv(Init(ceiling, floor, tasks), run);
    SwapperRemembers(ceiling, floor, tasks, run, t);
  }

  // ---------------------------------------------------------- notifications

  /** Whether task `t` was notified, or woke, gave up or got in, since it registered. */
  function Notified(run: seq<Event>, t: nat): bool {
    if run == [] then true
    else
      var before := run[..|run| - 1];
      match run[|run| - 1]
      case Register(u) => u != t && Notified(before, t)
      case Notify(_) => true
      case _ => Notified(before, t)
  }

  function Ids(run: seq<Event>): nat {
    if run == [] then 0
    else Ids(run[..|run| - 1]) + if run[|run| - 1].TakeId? then 1 else 0
  }

  predicate OnWaiterList(task: Task) {
    task.Registered? || task.Swapping? || task.Parked?
  }

  lemma {:induction false} WaitersRecall(ceiling: nat, floor: nat, tasks: nat, run: seq<Event>, t: nat)
    requires Exec(Init(ceiling, floor, tasks), run).Some?
    ensures var s := Exec(Init(ceiling, floor, tasks), run).value;
      && s.nextId == Ids(run)
      && (t in s.waiters <==> t < |s.tasks| && OnWaiterList(s.tasks[t]) && !Notified(run, t))
    decreases |run|
  {
    if run != [] {
      var before, e := run[..|run| - 1], run[|run| - 1];
      assert run == before + [e];
      ExecLast(Init(ceiling, floor, tasks), before, e);
      var s := Exec(Init(ceiling, floor, tasks), before).value;
      Frame(s, e);
      WaitersRecall(ceiling, floor, tasks, before, t);
    }
  }

  lemma ExecOne(s: State, e: Event)
    requires Enabled(s, e)
    ensures Exec(s, [e]) == Some(Next(s, e))
  {
    assert [e][1..] == [];
    assert Exec(Next(s, e), []) == Some(Next(s, e));
  }

  /** Without the timer a waiting job moves on exactly when it has been notified since
      it registered; ids are handed out one by one. */
  lemma WokenIffNotified(ceiling: nat, floor: nat, tasks: nat, run: seq<Event>, t: nat)
    requires Exec(Init(ceiling, floor, tasks), run).Some?
    requires t < |Exec(Init(ceiling, floor, tasks), run).value.tasks|
    requires Exec(Init(ceiling, floor, tasks), run).value.tasks[t].Parked?
    ensures Exec(Init(ceiling, floor, tasks), run + [Wake(t, false)]).Some? <==> Notified(run, t)
    ensures Exec(Init(ceiling, floor, tasks), run + [Wake(t, true)]).Some?
    ensures Exec(Init(ceiling, floor, tasks), run).value.nextId == Ids(run)
  {
    WaitersRecall(ceiling, floor, tasks, run, t);
    var s := Exec(Init(ceiling, floor, tasks), run).value;
    ExecConcat(Init(ceiling, floor, tasks), run, [Wake(t, false)]);
    ExecConcat(Init(ceiling, floor, tasks), run, [Wake(t, true)]);
    ExecOne(s, Wake(t, true));
    if t !in s.waiters {
      ExecOne(s, Wake(t, false));
    }
  }

  // ------------------------------------------------------------ coming and going

  lemma ExecCons(s: State, e: Event, run: seq<Event>)
    requires Enabled(s, e)
    ensures Exec(s, [e] + run) == Exec(Next(s, e), run)
  {
    assert ([e] + run)[1..] == run;
  }

  /** Steps task `t` is from being idle, if it alone moves. */
  function Distance(s: State, t: nat): nat
    requires t < |s.tasks|
  {
    match s.tasks[t]
    case Idle => 0
    case Asking(_) => 9
    case Registered(_) => 8
    case Swapping(_, seen, _, _) => if seen == s.reserved then 6 else 7
    case Parked(_, _) => 1
    case Reserved(_) => 5
    case Named(_, _) => 4
    case Running(_, _) => 3
    case Removing(_, _) => 2
    case Notifying => 1
  }

  function Onward(t: nat, task: Task): Event {
    match task
    case Asking(_) => Register(t)
    case Registered(_) => Load(t, None, None)
    case Swapping(_, _, _, _) => Swap(t, false)
    case Parked(_, _) => GiveUp(t)
    case Reserved(_) => TakeId(t)
    case Named(_, _) => Push(t)
    case Running(_, _) => Subtract(t)
    case Removing(_, _) => Remove(t)
    case _ => Notify(t)
  }

  lemma OnwardStep(s: State, t: nat)
    requires t < |s.tasks| && !s.tasks[t].Idle?
    ensures var e := Onward(t, s.tasks[t]);
      && Enabled(s, e) && Next(s, e).tasks == s.tasks[t := Next(s, e).tasks[t]]
      && Distance(Next(s, e), t) < Distance(s, t)
  {
    Frame(s, Onward(t, s.tasks[t]));
  }

  /** Any task can go on until it is idle, all by itself. */
  lemma {:induction false} TaskCanEnd(s: State, t: nat) returns (run: seq<Event>)
    requires Inv(s) && t < |s.tasks|
    ensures Exec(s, run).Some? && Inv(Exec(s, run).value)
    ensures Exec(s, run).value.tasks == s.tasks[t := Idle]
    ensures Exec(s, run).value.ceiling == s.ceiling && Exec(s, run).value.floor == s.floor
    decreases Distance(s, t)
  {
    run := [];
    if s.tasks[t].Idle? {
      assert s.tasks[t := Idle] == s.tasks;
    } else {
      var e := Onward(t, s.tasks[t]);
      OnwardStep(s, t);
      StepInv(s, e);
      run := TaskCanEnd(Next(s, e), t);
      ExecCons(s, e, run);
      run := [e] + run;
    }
  }

  lemma {:induction false} TasksCanEnd(s: State, k: nat) returns (run: seq<Event>)
    requires Inv(s) && k <= |s.tasks| && forall t :: 0 <= t < k ==> s.tasks[t].Idle?
    ensures Exec(s, run).Some? && Inv(Exec(s, run).value) && |Exec(s, run).value.tasks| == |s.tasks|
    ensures forall t :: 0 <= t < |s.tasks| ==> Exec(s, run).value.tasks[t].Idle?
    ensures Exec(s, run).value.ceiling == s.ceiling && Exec(s, run).value.floor == s.floor
    decreases |s.tasks| - k
  {
    run := [];
    if k < |s.tasks| {
      run := TaskCanEnd(s, k);
      var rest := TasksCanEnd(Exec(s, run).value, k + 1);
      ExecConcat(s, run, rest);
      run := run + rest;
    }
  }

  lemma AllIdle(s: State)
    requires Inv(s) && forall t :: 0 <= t < |s.tasks| ==> s.tasks[t].Idle?
    ensures s.reserved == 0 && s.inflight == []
  {
    SumZero(s.Charges());
    SomeEntry(s.inflight);
  }

  lemma SomeEntry(entries: seq<Entry>)
    ensures entries == [] || exists entry :: entry in entries
  {
    if entries != [] {
      assert entries[0] in entries;
    }
  }

  /** Every reachable state can come to rest: all jobs gone, nothing reserved, the list
      and the waiter list empty. */
  lemma EverythingCanEnd(ceiling: nat, floor: nat, tasks: nat, run: seq<Event>)
    returns (more: seq<Event>)
    requires 0 < ceiling < U64_MAX
    requires Exec(Init(ceiling, floor, tasks), run).Some?
    ensures var s := Exec(Init(ceiling, floor, tasks), run).value;
      && Exec(s, more).Some?
      && Exec(s, more).value.reserved == 0 && Exec(s, more).value.inflight == []
      && Exec(s, more).value.waiters == {}
      && forall t :: 0 <= t < |Exec(s, more).value.tasks| ==> Exec(s, more).value.tasks[t].Idle?
  {
    InitInv(ceiling, floor, tasks);
    RunInv(Init(ceiling, floor, tasks), run);
    var s := Exec(Init(ceiling, floor, tasks), run).value;
    more := TasksCanEnd(s, 0);
    AllIdle(Exec(s, more).value);
    ExecConcat(Init(ceiling, floor, tasks), run, more);
    forall t: nat ensures t !in Exec(s, more).value.waiters {
      WaitersRecall(ceiling, floor, tasks, run + more, t);
    }
  }

  /** From every reachable state any idle task can have a job of any estimate admitted
      and listed, whatever the live readings. */
  lemma AnyJobCanBeAdmitted(ceiling: nat, floor: nat, tasks: nat, run: seq<Event>, t: nat, est: nat,
                            rss: Option<nat>, available: Option<nat>)
    returns (more: seq<Event>)
    requires 0 < ceiling < U64_MAX && 0 < est <= U64_MAX
    requires Exec(Init(ceiling, floor, tasks), run).Some?
    requires t < |Exec(Init(ceiling, floor, tasks), run).value.tasks|
    ensures var s := Exec(Init(ceiling, floor, tasks), run).value;
      && Exec(s, more).Some?
      && t < |Exec(s, more).value.tasks|
      && Exec(s, more).value.tasks[t].Running?
      && Exec(s, more).value.reserved == est
      && Exec(s, more).value.inflight == [Entry(Exec(s, more).value.tasks[t].id, est)]
  {
    InitInv(ceiling, floor, tasks);
    RunInv(Init(ceiling, floor, tasks), run);
    var s := Exec(Init(ceiling, floor, tasks), run).value;
    var drain := TasksCanEnd(s, 0);
    var idle := Exec(s, drain).value;
    AllIdle(idle);
    more := AdmitAlone(idle, t, est, rss, available);
    ExecConcat(s, drain, more);
    more := drain + more;
  }

  lemma AdmitAlone(s: State, t: nat, est: nat, rss: Option<nat>, available: Option<nat>)
    returns (run: seq<Event>)
    requires t < |s.tasks| && s.tasks[t].Idle? && s.reserved == 0 && s.inflight == []
    requires 0 < est <= U64_MAX
    ensures Exec(s, run).Some? && t < |Exec(s, run).value.tasks|
    ensures Exec(s, run).value.tasks[t] == Running(est, s.nextId)
    ensures Exec(s, run).value.reserved == est
    ensures Exec(s, run).value.inflight == [Entry(s.nextId, est)]
  {
    var s1 := Next(s, Admit(t, est));
    var s2 := Next(s1, Register(t));
    var s3 := Next(s2, Load(t, rss, available));
    var s4 := Next(s3, Swap(t, false));
    var s5 := Next(s4, TakeId(t));
    run := [Push(t)];
    ExecOne(s5, Push(t));
    ExecCons(s4, TakeId(t), run);
    run := [TakeId(t)] + run;
    ExecCons(s3, Swap(t, false), run);
    run := [Swap(t, false)] + run;
    ExecCons(s2, Load(t, rss, available), run);
    run := [Load(t, rss, available)] + run;
    ExecCons(s1, Register(t), run);
    run := [Register(t)] + run;
    ExecCons(s, Admit(t, est), run);
    run := [Admit(t, est)] + run;
  }
}
