/** The byte budget that downloaded inputs share from the moment they are
    requested until the last clone of the payload is dropped, as a protocol
    between any number of tasks.

    One event is one atomic operation on the shared counter or on the waiter
    list, together with the task-local work around it. In particular the
    subtraction that releases bytes and the `notify_waiters` that announces it
    are different events, so every state between the two is reachable. */
module InputBudgetProtocol {
  import opened Prelude

  // ---------------------------------------------------------------- tasks

  /** Where one task stands. A task holds at most one reservation at a time. */
  datatype Task =
    | Idle
      /** At the top of the loop in `reserve`. `again` marks the second, larger
          request that follows a response longer than the hint. */
    | Asking(need: nat, again: bool)
      /** On the waiter list, about to test the counter. */
    | Registered(need: nat, again: bool)
      /** The test failed; waiting for a notification. */
    | Parked(need: nat, again: bool)
      /** Holding `held` bytes of budget, waiting for response headers. */
    | Fetching(held: nat, again: bool)
      /** Streaming the body into a buffer of `cap` bytes, `len` of them used. */
    | Filling(held: nat, cap: nat, len: nat)
      /** A blocking thread hashes a clone of the buffer and owns the
          reservation; `caller` says whether the download is still awaited. */
    | Hashing(held: nat, cap: nat, caller: bool)
      /** Handed over; `clones` owners of the buffer are alive. */
    | Staged(held: nat, cap: nat, clones: nat)
      /** The buffer is gone, the reservation is about to be released. */
    | Freed(held: nat)
      /** Released bytes but not yet called `notify_waiters`; then `next`. */
    | Notifying(next: Task)
  {
    /** Budget this task is charged for. */
    function Charge(): nat {
      match this
      case Idle => 0
      case Asking(_, _) => 0
      case Registered(_, _) => 0
      case Parked(_, _) => 0
      case Fetching(held, _) => held
      case Filling(held, _, _) => held
      case Hashing(held, _, _) => held
      case Staged(held, _, _) => held
      case Freed(held) => held
      case Notifying(next) => next.Charge()
    }

    /** Bytes of buffer this task keeps allocated. */
    function Memory(): nat {
      match this
      case Filling(_, cap, _) => cap
      case Hashing(_, cap, _) => cap
      case Staged(_, cap, _) => cap
      case Notifying(next) => next.Memory()
      case _ => 0
    }

    /** Inside `reserve`, between the call and its return. */
    predicate Waiting() {
      Asking? || Registered? || Parked?
    }

    ghost predicate Valid(limit: nat) {
      match this
      case Idle => true
      case Asking(need, _) => need <= limit
      case Registered(need, _) => need <= limit
      case Parked(need, _) => need <= limit
      case Fetching(_, _) => true
      case Filling(held, cap, len) => len <= cap <= held
      case Hashing(held, cap, _) => cap <= held
      case Staged(held, cap, clones) => cap <= held && clones > 0
      case Freed(_) => true
      case Notifying(next) => (next.Idle? || next.Asking? || next.Hashing?) && next.Valid(limit)
    }
  }

  datatype State = State(
    limit: nat,           // the budget
    maxBytes: nat,        // most bytes one in-memory body may have
    used: nat,            // the shared counter
    waiters: set<nat>,    // registered tasks not notified since
    tasks: seq<Task>)
  {
    function Charges(): seq<nat> {
      seq(|tasks|, i requires 0 <= i < |tasks| => tasks[i].Charge())
    }

    function Memories(): seq<nat> {
      seq(|tasks|, i requires 0 <= i < |tasks| => tasks[i].Memory())
    }

    predicate Releasing() {
      exists u :: 0 <= u < |tasks| && tasks[u].Notifying?
    }
  }

  function Init(limit: nat, maxBytes: nat, tasks: nat): State {
    State(limit, maxBytes, 0, {}, seq(tasks, _ => Idle))
  }

  // ------------------------------------------------------ buffer capacity

  function Doubled(p: nat, times: nat): nat
    decreases times
  {
    if times == 0 then p else Doubled(2 * p, times - 1)
  }

  /** The smallest doubling of `p` that is at least `n`. */
  function PowerAtLeast(n: nat, p: nat): (r: nat)
    requires p > 0
    ensures r >= n && r >= p
    ensures p < 2 * n ==> r < 2 * n
    ensures exists times: nat :: r == Doubled(p, times)
    decreases n - p
  {
    if p >= n then
      assert p == Doubled(p, 0);
      p
    else
      var r := PowerAtLeast(n, 2 * p);
      assert exists times: nat :: r == Doubled(p, times) by {
        var times: nat :| r == Doubled(2 * p, times);
        assert r == Doubled(p, times + 1);
      }
      r
  }

  function NextPowerOfTwo(n: nat): nat {
    PowerAtLeast(n, 1)
  }

  /** The capacity after making room for `needed` bytes: geometric growth, but
      never past the limit on the body. */
  function Grow(cap: nat, needed: nat, limit: nat): nat {
    if needed > cap then Min(NextPowerOfTwo(needed), limit) else cap
  }

  // --------------------------------------------------------------- events

  datatype Event =
    | Begin(t: nat, hint: Option<nat>)              // download_input, up to reserve
    | Register(t: nat)                              // notified() and enable()
    | Try(t: nat)                                   // the atomic check-and-add
    | Wake(t: nat)                                  // the notification arrived
    | GiveUp(t: nat)                                // cancelled while parked
    | Respond(t: nat, length: Option<nat>)          // response headers arrived
    | Chunk(t: nat, n: nat)                         // n more body bytes
    | Fail(t: nat)                                  // request, body or cancellation
    | EndBody(t: nat)                               // trim the buffer and the charge
    | Abandon(t: nat)                               // cancelled while hashing
    | Hashed(t: nat, matches: bool)                 // the blocking hash returned
    | Clone(t: nat)
    | DropClone(t: nat)
    | Release(t: nat)                               // fetch_sub of the whole charge
    | Notify(t: nat)                                // notify_waiters

  predicate Enabled(s: State, e: Event) {
    e.t < |s.tasks| &&
    var task := s.tasks[e.t];
    match e
    case Begin(_, _) => task.Idle?
    case Register(_) => task.Asking?
    case Try(_) => task.Registered?
    case Wake(t) => task.Parked? && t !in s.waiters
    case GiveUp(_) => task.Parked?
    case Respond(_, _) => task.Fetching?
    case Chunk(_, _) => task.Filling?
    case Fail(_) => task.Fetching? || task.Filling?
    case EndBody(_) => task.Filling?
    case Abandon(_) => task.Hashing? && task.caller
    case Hashed(_, _) => task.Hashing?
    case Clone(_) => task.Staged?
    case DropClone(_) => task.Staged? && task.clones > 0
    case Release(_) => task.Freed?
    case Notify(_) => task.Notifying?
  }

  function Request(limit: nat, need: nat, again: bool): Task {
    if need <= limit then Asking(need, again) else Idle
  }

  function Put(s: State, t: nat, task: Task): State
    requires t < |s.tasks|
  {
    s.(tasks := s.tasks[t := task])
  }

  /** Give back `n` bytes; the notification is still to come. */
  function GiveBack(s: State, t: nat, n: nat, next: Task): State
    requires t < |s.tasks|
  {
    Put(s, t, Notifying(next)).(used := FetchSub(s.used, n))
  }

  function AfterTry(s: State, t: nat): State
    requires Enabled(s, Try(t))
  {
    var Registered(need, again) := s.tasks[t];
    if s.used + need <= s.limit then
      Put(s, t, Fetching(need, again)).(used := s.used + need, waiters := s.waiters - {t})
    else
      Put(s, t, Parked(need, again))
  }

  function AfterRespond(s: State, t: nat, length: Option<nat>): State
    requires Enabled(s, Respond(t, length))
  {
    var Fetching(held, again) := s.tasks[t];
    var required := Min(if length.Some? then length.value else s.maxBytes, s.maxBytes);
    if !again && held < required then
      GiveBack(s, t, held, Request(s.limit, required, true))
    else if length.Some? && length.value > held then
      GiveBack(s, t, held, Idle)
    else
      Put(s, t, Filling(held, if length.Some? then length.value else 0, 0))
  }

  function AfterChunk(s: State, t: nat, n: nat): State
    requires Enabled(s, Chunk(t, n))
  {
    var Filling(held, cap, len) := s.tasks[t];
    if len + n > held then Put(s, t, Freed(held))
    else Put(s, t, Filling(held, Grow(cap, len + n, held), len + n))
  }

  function Next(s: State, e: Event): State
    requires Enabled(s, e)
  {
    var t := e.t;
    var task := s.tasks[t];
    match e
    case Begin(_, hint) =>
      Put(s, t, Request(s.limit, Min(if hint.Some? then hint.value else s.maxBytes, s.maxBytes), false))
    case Register(_) =>
      Put(s, t, Registered(task.need, task.again)).(waiters := s.waiters + {t})
    case Try(_) => AfterTry(s, t)
    case Wake(_) => Put(s, t, Asking(task.need, task.again))
    case GiveUp(_) => Put(s, t, Idle).(waiters := s.waiters - {t})
    case Respond(_, length) => AfterRespond(s, t, length)
    case Chunk(_, n) => AfterChunk(s, t, n)
    case Fail(_) => Put(s, t, Freed(task.held))
    case EndBody(_) =>
      GiveBack(s, t, SatSub(task.held, task.len), Hashing(task.len, task.len, true))
    case Abandon(_) => Put(s, t, task.(caller := false))
    case Hashed(_, matches) =>
      if matches && task.caller then Put(s, t, Staged(task.held, task.cap, 1))
      else GiveBack(s, t, task.held, Idle)
    case Clone(_) => Put(s, t, task.(clones := task.clones + 1))
    case DropClone(_) =>
      if task.clones == 1 then Put(s, t, Freed(task.held))
      else Put(s, t, task.(clones := task.clones - 1))
    case Release(_) => GiveBack(s, t, task.held, Idle)
    case Notify(_) => Put(s, t, task.next).(waiters := {})
  }

  /** The state after a whole run, if every event was enabled in its turn. */
  function Exec(s: State, run: seq<Event>): Option<State>
    decreases |run|
  {
    if run == [] then Some(s)
    else if Enabled(s, run[0]) then Exec(Next(s, run[0]), run[1..])
    else None
  }

  // ------------------------------------------------------------ invariant

  ghost predicate WellFormed(s: State) {
    && (forall t :: 0 <= t < |s.tasks| ==> s.tasks[t].Valid(s.limit))
    && (forall t :: t in s.waiters ==>
          t < |s.tasks| && (s.tasks[t].Registered? || s.tasks[t].Parked?))
  }

  ghost predicate Accounted(s: State) {
    s.used == Sum(s.Charges()) && s.used <= s.limit
  }

  /** A task that failed its check and has not been notified since either still
      does not fit, or someone is about to notify it. */
  ghost predicate NoLostWakeup(s: State) {
    forall t :: 0 <= t < |s.tasks| && s.tasks[t].Parked? && t in s.waiters ==>
      s.used + s.tasks[t].need > s.limit || s.Releasing()
  }

  ghost predicate Inv(s: State) {
    WellFormed(s) && Accounted(s) && NoLostWakeup(s)
  }

  lemma InitInv(limit: nat, maxBytes: nat, tasks: nat)
    ensures Inv(Init(limit, maxBytes, tasks))
  {
    SumZero(Init(limit, maxBytes, tasks).Charges());
  }

  /** Replacing one task moves the ledger by that task's charge alone. */
  lemma PutCharges(s: State, t: nat, task: Task)
    requires t < |s.tasks|
    ensures Sum(Put(s, t, task).Charges()) + s.tasks[t].Charge() == Sum(s.Charges()) + task.Charge()
    ensures s.tasks[t].Charge() <= Sum(s.Charges())
  {
    assert Put(s, t, task).Charges() == s.Charges()[t := task.Charge()];
    SumUpdate(s.Charges(), t, task.Charge());
    SumAtLeast(s.Charges(), t);
  }

  /** An event touches its own task only. */
  lemma Frame(s: State, e: Event)
    requires Enabled(s, e)
    ensures Next(s, e).limit == s.limit && Next(s, e).maxBytes == s.maxBytes
    ensures Next(s, e).tasks == s.tasks[e.t := Next(s, e).tasks[e.t]]
    ensures Next(s, e).waiters <= s.waiters + {e.t}
  {
  }

  /** The counter follows the charge of the event's task. */
  lemma UsedFollows(s: State, e: Event)
    requires Enabled(s, e) && s.tasks[e.t].Valid(s.limit) && s.tasks[e.t].Charge() <= s.used <= s.limit
    ensures Next(s, e).used + s.tasks[e.t].Charge() == s.used + Next(s, e).tasks[e.t].Charge()
    ensures Next(s, e).used <= s.limit
  {
  }

  lemma StepAccounted(s: State, e: Event)
    requires Inv(s) && Enabled(s, e)
    ensures Accounted(Next(s, e))
  {
    var s' := Next(s, e);
    Frame(s, e);
    PutCharges(s, e.t, s'.tasks[e.t]);
    assert s'.Charges() == Put(s, e.t, s'.tasks[e.t]).Charges();
    assert s.tasks[e.t].Valid(s.limit);
    UsedFollows(s, e);
  }

  lemma TaskValid(s: State, e: Event)
    requires Enabled(s, e) && s.tasks[e.t].Valid(s.limit)
    ensures Next(s, e).tasks[e.t].Valid(s.limit)
  {
  }

  lemma StepWellFormed(s: State, e: Event)
    requires Inv(s) && Enabled(s, e)
    ensures WellFormed(Next(s, e))
  {
    Frame(s, e);
    assert s.tasks[e.t].Valid(s.limit);
    TaskValid(s, e);
    var s' := Next(s, e);
    var task := s'.tasks[e.t];
    assert e.t in s'.waiters ==> task.Registered? || task.Parked?;
  }

  lemma StepWakeups(s: State, e: Event)
    requires Inv(s) && Enabled(s, e)
    ensures NoLostWakeup(Next(s, e))
  {
    var s' := Next(s, e);
    forall t | 0 <= t < |s'.tasks| && s'.tasks[t].Parked? && t in s'.waiters
      ensures s'.used + s'.tasks[t].need > s'.limit || s'.Releasing()
    {
      if s'.tasks[e.t].Notifying? {
      } else if t != e.t {
        assert s.tasks[t].Parked? && t in s.waiters;
        if s.Releasing() {
          var u :| 0 <= u < |s.tasks| && s.tasks[u].Notifying?;
          assert u != e.t ==> s'.tasks[u].Notifying?;
        } else {
          assert s'.used >= s.used;
        }
      }
    }
  }

  /** Every interleaving of any number of downloads keeps the invariant. */
  lemma {:induction false} RunInv(s: State, run: seq<Event>)
    requires Inv(s) && Exec(s, run).Some?
    ensures Inv(Exec(s, run).value)
    ensures Exec(s, run).value.limit == s.limit && Exec(s, run).value.maxBytes == s.maxBytes
    decreases |run|
  {
    if run != [] {
      Frame(s, run[0]);
      StepWellFormed(s, run[0]);
      StepAccounted(s, run[0]);
      StepWakeups(s, run[0]);
      RunInv(Next(s, run[0]), run[1..]);
    }
  }

  // ------------------------------------------------------------- theorems

  /** In every reachable state the counter is the sum of the live reservations,
      stays within the limit, and covers every buffer byte still allocated:
      task by task and in total. */
  lemma ChargeFollowsBytes(limit: nat, maxBytes: nat, tasks: nat, run: seq<Event>)
    requires Exec(Init(limit, maxBytes, tasks), run).Some?
    ensures var s := Exec(Init(limit, maxBytes, tasks), run).value;
      && s.used == Sum(s.Charges()) <= s.limit
      && Sum(s.Memories()) <= s.used
      && (forall t :: 0 <= t < |s.tasks| ==> s.tasks[t].Memory() <= s.tasks[t].Charge())
  {
    InitInv(limit, maxBytes, tasks);
    RunInv(Init(limit, maxBytes, tasks), run);
    var s := Exec(Init(limit, maxBytes, tasks), run).value;
    forall t | 0 <= t < |s.tasks| ensures s.tasks[t].Memory() <= s.tasks[t].Charge() {
      assert s.tasks[t].Valid(s.limit);
      if s.tasks[t].Notifying? {
        assert s.tasks[t].next.Valid(s.limit);
      }
    }
    SumMonotone(s.Memories(), s.Charges());
  }

  /** A request that failed its check and waits un-notified still does not fit, or
      somebody who has given bytes back is about to notify it. */
  lemma NoWakeupIsLost(limit: nat, maxBytes: nat, tasks: nat, run: seq<Event>, t: nat)
    requires Exec(Init(limit, maxBytes, tasks), run).Some?
    requires var s := Exec(Init(limit, maxBytes, tasks), run).value;
      t < |s.tasks| && s.tasks[t].Parked? && t in s.waiters
    ensures var s := Exec(Init(limit, maxBytes, tasks), run).value;
      || s.used + s.tasks[t].need > s.limit
      || exists u :: 0 <= u < |s.tasks| && s.tasks[u].Notifying? && Enabled(s, Notify(u))
                     && t !in Next(s, Notify(u)).waiters
  {
    InitInv(limit, maxBytes, tasks);
    RunInv(Init(limit, maxBytes, tasks), run);
    var s := Exec(Init(limit, maxBytes, tasks), run).value;
    if s.Releasing() {
      var u :| 0 <= u < |s.tasks| && s.tasks[u].Notifying?;
      assert Enabled(s, Notify(u));
    }
  }

  /** A task inside `reserve` holds nothing, so whoever keeps an un-notified
      waiter out is somebody who is not waiting. */
  lemma NoHoldAndWait(limit: nat, maxBytes: nat, tasks: nat, run: seq<Event>, t: nat)
    returns (holder: nat)
    requires Exec(Init(limit, maxBytes, tasks), run).Some?
    requires var s := Exec(Init(limit, maxBytes, tasks), run).value;
      t < |s.tasks| && s.tasks[t].Parked? && t in s.waiters && !s.Releasing()
    ensures var s := Exec(Init(limit, maxBytes, tasks), run).value;
      && (forall u :: 0 <= u < |s.tasks| && s.tasks[u].Waiting() ==> s.tasks[u].Charge() == 0)
      && holder < |s.tasks| && s.tasks[holder].Charge() > 0 && !s.tasks[holder].Waiting()
      && s.used + s.tasks[t].need > s.limit
  {
    InitInv(limit, maxBytes, tasks);
    RunInv(Init(limit, maxBytes, tasks), run);
    var s := Exec(Init(limit, maxBytes, tasks), run).value;
    assert s.tasks[t].Valid(s.limit);
    holder := SumPositive(s.Charges());
  }

  lemma {:induction false} ExecConcat(s: State, a: seq<Event>, b: seq<Event>)
    requires Exec(s, a).Some?
    ensures Exec(s, a + b) == Exec(Exec(s, a).value, b)
    decreases |a|
  {
    if a == [] {
      assert a + b == b;
    } else {
      assert (a + b)[1..] == a[1..] + b;
      ExecConcat(Next(s, a[0]), a[1..], b);
    }
  }

  /** Steps a task still needs before it holds nothing and owes no notification. */
  function Rank(task: Task): nat {
    match task
    case Fetching(_, _) => 3
    case Filling(_, _, _) => 3
    case Freed(_) => 2
    case Hashing(_, _, _) => 2
    case Staged(_, _, clones) => 2 + clones
    case Notifying(next) => 1 + Rank(next)
    case _ => 0
  }

  function Finish(t: nat, task: Task): Event {
    match task
    case Freed(_) => Release(t)
    case Hashing(_, _, _) => Hashed(t, false)
    case Staged(_, _, _) => DropClone(t)
    case Notifying(_) => Notify(t)
    case _ => Fail(t)
  }

  function Ranks(s: State): seq<nat> {
    seq(|s.tasks|, i requires 0 <= i < |s.tasks| => Rank(s.tasks[i]))
  }

  lemma FinishStep(s: State, u: nat)
    requires Inv(s) && u < |s.tasks| && Rank(s.tasks[u]) > 0
    ensures Enabled(s, Finish(u, s.tasks[u]))
    ensures var s' := Next(s, Finish(u, s.tasks[u]));
      && Inv(s')
      && Sum(Ranks(s')) < Sum(Ranks(s))
      && |s'.tasks| == |s.tasks| && s'.limit == s.limit && s'.maxBytes == s.maxBytes
      && (forall v :: 0 <= v < |s.tasks| && v != u ==> s'.tasks[v] == s.tasks[v])
  {
    assert s.tasks[u].Valid(s.limit);
    var e := Finish(u, s.tasks[u]);
    var s' := Next(s, e);
    StepWellFormed(s, e);
    StepAccounted(s, e);
    StepWakeups(s, e);
    assert Ranks(s') == Ranks(s)[u := Rank(s'.tasks[u])];
    SumUpdate(Ranks(s), u, Rank(s'.tasks[u]));
  }

  /** An event that only finishes something. */
  predicate Finishes(e: Event) {
    e.Release? || e.Hashed? || e.DropClone? || e.Notify? || e.Fail?
  }

  /** Everyone who holds budget or owes a notification can finish, without
      touching a task that does neither. */
  lemma {:induction false} Drain(s: State, t: nat) returns (run: seq<Event>)
    requires Inv(s) && t < |s.tasks| && Rank(s.tasks[t]) == 0
    ensures Exec(s, run).Some? && forall e :: e in run ==> Finishes(e) && e.t != t
    ensures var s' := Exec(s, run).value;
      && Inv(s') && |s'.tasks| == |s.tasks| && s'.limit == s.limit && s'.maxBytes == s.maxBytes
      && s'.tasks[t] == s.tasks[t] && s'.used == 0 && !s'.Releasing()
      && (forall u :: 0 <= u < |s'.tasks| ==> Rank(s'.tasks[u]) == 0)
    decreases Sum(Ranks(s))
  {
    if Sum(Ranks(s)) == 0 {
      forall u | 0 <= u < |s.tasks| ensures Rank(s.tasks[u]) == 0 {
        SumAtLeast(Ranks(s), u);
      }
      SumZero(s.Charges());
      run := [];
    } else {
      var u := SumPositive(Ranks(s));
      var e := Finish(u, s.tasks[u]);
      FinishStep(s, u);
      assert u != t;
      run := Drain(Next(s, e), t);
      assert ([e] + run)[1..] == run;
      run := [e] + run;
    }
  }

  /** No reachable state is a dead end for a parked request: some continuation
      grants it. The wake-up it needs cannot have been lost. */
  lemma ParkedRequestCanBeGranted(limit: nat, maxBytes: nat, tasks: nat, run: seq<Event>, t: nat)
    returns (more: seq<Event>)
    requires Exec(Init(limit, maxBytes, tasks), run).Some?
    requires var s := Exec(Init(limit, maxBytes, tasks), run).value;
      t < |s.tasks| && s.tasks[t].Parked?
    ensures var s := Exec(Init(limit, maxBytes, tasks), run).value;
      && Exec(s, more).Some?
      && t < |Exec(s, more).value.tasks|
      && Exec(s, more).value.tasks[t] == Fetching(s.tasks[t].need, s.tasks[t].again)
  {
    InitInv(limit, maxBytes, tasks);
    RunInv(Init(limit, maxBytes, tasks), run);
    var s := Exec(Init(limit, maxBytes, tasks), run).value;
    var drain := Drain(s, t);
    var s1 := Exec(s, drain).value;
    assert s1.tasks[t].Valid(s1.limit);
    assert t !in s1.waiters;
    var grant := [Wake(t), Register(t), Try(t)];
    var s2 := Next(s1, Wake(t));
    var s3 := Next(s2, Register(t));
    assert grant[1..] == [Register(t), Try(t)] && grant[1..][1..] == [Try(t)] && [Try(t)][1..] == [];
    assert Exec(s3, [Try(t)]) == Exec(Next(s3, Try(t)), []);
    assert Exec(s2, grant[1..]) == Exec(s3, [Try(t)]);
    assert Exec(s1, grant) == Exec(s2, grant[1..]);
    ExecConcat(s, drain, grant);
    more := drain + grant;
  }
}
