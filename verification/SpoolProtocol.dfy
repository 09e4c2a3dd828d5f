/** The disk-spool budget under every interleaving of downloads whose
    reservations grow while the body streams.

    One event is one atomic operation on the shared counter, or one local step
    that changes a task's file. A payload is refused before it reserves anything
    unless it is within the per-job cap. Growing a reservation is two attempts on the
    counter followed by a separate store of the new size, so a reservation that
    has been counted but not yet recorded is a state of its own. */
module SpoolProtocol {
  import opened Prelude

  const MAX_JOB_BYTES: nat := 16 * 1024 * 1024 * 1024
  const GROW_STEP: nat := 64 * 1024 * 1024

  /** The closure inside the atomic update of the counter. */
  predicate Admits(used: nat, size: nat, budget: nat) {
    used == 0 || SatAdd(used, size) <= budget
  }

  /** The free-space probe, when the platform has one. */
  predicate DiskAllows(free: Option<nat>, size: nat, headroom: nat) {
    free.Some? ==> free.value >= SatAdd(size, headroom)
  }

  /** How far a growing reservation would like to reach. */
  function Stepped(written: nat): (r: nat)
    ensures written <= U64_MAX ==> written <= r
  {
    Min(SatAdd(written, GROW_STEP), Max(MAX_JOB_BYTES, written))
  }

  // ---------------------------------------------------------------- tasks

  /** `size` is the recorded reservation and `disk` the bytes in the file. */
  datatype Task =
    | Idle
    | Writing(size: nat, disk: nat)                   // between chunks
    | Growing(size: nat, disk: nat, written: nat)     // about to try the step
    | Refused(size: nat, disk: nat, written: nat)     // about to try the exact size
    | Grown(size: nat, disk: nat, written: nat, grabbed: nat) // counted, not recorded
    | Storing(size: nat, disk: nat, written: nat)     // the chunk reaches the disk
    | Staged(size: nat, disk: nat)                    // download complete
    | Deleted(size: nat)                              // file removed, not yet released
  {
    function Charge(): nat {
      match this
      case Idle => 0
      case Grown(size, _, _, grabbed) => size + grabbed
      case _ => size
    }

    function OnDisk(): nat {
      match this
      case Idle => 0
      case Deleted(_) => 0
      case _ => disk
    }

    ghost predicate Valid() {
      match this
      case Idle => true
      case Writing(size, disk) => disk <= size <= MAX_JOB_BYTES && size > 0
      case Growing(size, disk, written) => disk <= size < written <= MAX_JOB_BYTES && size > 0
      case Refused(size, disk, written) => disk <= size < written <= MAX_JOB_BYTES && size > 0
      case Grown(size, disk, written, grabbed) =>
        disk <= size < written <= size + grabbed <= MAX_JOB_BYTES && size > 0
      case Storing(size, disk, written) => disk <= written <= size <= MAX_JOB_BYTES && size > 0
      case Staged(size, disk) => disk <= size <= MAX_JOB_BYTES && size > 0
      case Deleted(size) => 0 < size <= MAX_JOB_BYTES
    }
  }

  datatype State = State(budget: nat, headroom: nat, used: nat, tasks: seq<Task>) {
    function Charges(): seq<nat> {
      seq(|tasks|, i requires 0 <= i < |tasks| => tasks[i].Charge())
    }

    function Files(): seq<nat> {
      seq(|tasks|, i requires 0 <= i < |tasks| => tasks[i].OnDisk())
    }
  }

  function Init(budget: nat, headroom: nat, tasks: nat): State {
    State(budget, headroom, 0, seq(tasks, _ => Idle))
  }

  // --------------------------------------------------------------- events

  datatype Event =
    | Reserve(t: nat, bytes: nat, free: Option<nat>)
    | Chunk(t: nat, n: nat)
    | TryStep(t: nat, free: Option<nat>)
    | TryExact(t: nat, free: Option<nat>)
    | Record(t: nat)
    | Write(t: nat, n: nat)
    | Finish(t: nat)
    | Delete(t: nat)
    | Release(t: nat)

  predicate Enabled(s: State, e: Event) {
    e.t < |s.tasks| &&
    var task := s.tasks[e.t];
    match e
    case Reserve(_, bytes, _) => task.Idle? && 0 < bytes <= MAX_JOB_BYTES
    case Chunk(_, _) => task.Writing?
    case TryStep(_, _) => task.Growing?
    case TryExact(_, _) => task.Refused?
    case Record(_) => task.Grown?
    case Write(_, n) => task.Storing? && task.disk + n <= task.written
    case Finish(_) => task.Writing?
    case Delete(_) => task.Writing? || task.Storing? || task.Staged?
    case Release(_) => task.Deleted?
  }

  function Put(s: State, t: nat, task: Task): State
    requires t < |s.tasks|
  {
    s.(tasks := s.tasks[t := task])
  }

  /** Atomically count `bytes` more, or leave the counter alone. */
  function TryAdd(s: State, t: nat, bytes: nat, free: Option<nat>, yes: Task, no: Task): State
    requires t < |s.tasks|
  {
    if DiskAllows(free, bytes, s.headroom) && Admits(s.used, bytes, s.budget)
    then Put(s, t, yes).(used := SatAdd(s.used, bytes))
    else Put(s, t, no)
  }

  function AfterChunk(task: Task, n: nat): Task
    requires task.Writing?
  {
    var written := task.disk + n;
    if written > MAX_JOB_BYTES then Deleted(task.size)
    else if written <= task.size then Storing(task.size, task.disk, written)
    else Growing(task.size, task.disk, written)
  }

  function Next(s: State, e: Event): State
    requires Enabled(s, e)
  {
    var t := e.t;
    var task := s.tasks[t];
    match e
    case Reserve(_, bytes, free) => TryAdd(s, t, bytes, free, Writing(bytes, 0), Idle)
    case Chunk(_, n) => Put(s, t, AfterChunk(task, n))
    case TryStep(_, free) =>
      var more := SatSub(Stepped(task.written), task.size);
      TryAdd(s, t, more, free, Grown(task.size, task.disk, task.written, more),
        Refused(task.size, task.disk, task.written))
    case TryExact(_, free) =>
      var more := SatSub(task.written, task.size);
      TryAdd(s, t, more, free, Grown(task.size, task.disk, task.written, more), Deleted(task.size))
    case Record(_) => Put(s, t, Storing(task.size + task.grabbed, task.disk, task.written))
    case Write(_, n) =>
      var disk := task.disk + n;
      Put(s, t, if disk == task.written then Writing(task.size, disk)
                else Storing(task.size, disk, task.written))
    case Finish(_) => Put(s, t, Staged(task.size, task.disk))
    case Delete(_) => Put(s, t, Deleted(task.size))
    case Release(_) => Put(s, t, Idle).(used := FetchSub(s.used, task.size))
  }

  function Exec(s: State, run: seq<Event>): Option<State>
    decreases |run|
  {
    if run == [] then Some(s)
    else if Enabled(s, run[0]) then Exec(Next(s, run[0]), run[1..])
    else None
  }

  // ------------------------------------------------------------ invariant

  ghost predicate WellFormed(s: State) {
    forall t :: 0 <= t < |s.tasks| ==> s.tasks[t].Valid()
  }

  ghost predicate Accounted(s: State) {
    s.used == Sum(s.Charges())
  }

  /** No total the counter is asked to hold saturates: the budget stops it first, or
      there are too few payloads to get there. */
  predicate Exact(budget: nat, tasks: nat) {
    budget < U64_MAX || tasks * MAX_JOB_BYTES <= U64_MAX
  }

  /** The idle hatch lets one reservation overshoot, and only while alone. */
  ghost predicate Alone(s: State) {
    s.used > s.budget ==>
      exists t :: 0 <= t < |s.tasks| && s.tasks[t].Charge() == s.used
  }

  ghost predicate Inv(s: State) {
    WellFormed(s) && Accounted(s) && Alone(s)
  }

  lemma InitInv(budget: nat, headroom: nat, tasks: nat)
    ensures Inv(Init(budget, headroom, tasks))
  {
    SumZero(Init(budget, headroom, tasks).Charges());
  }

  lemma PutCharges(s: State, t: nat, task: Task)
    requires t < |s.tasks|
    ensures Sum(Put(s, t, task).Charges()) + s.tasks[t].Charge() == Sum(s.Charges()) + task.Charge()
    ensures s.tasks[t].Charge() <= Sum(s.Charges())
  {
    assert Put(s, t, task).Charges() == s.Charges()[t := task.Charge()];
    SumUpdate(s.Charges(), t, task.Charge());
    SumAtLeast(s.Charges(), t);
  }

  lemma StepWellFormed(s: State, e: Event)
    requires WellFormed(s) && Enabled(s, e)
    ensures WellFormed(Next(s, e))
    ensures Next(s, e).budget == s.budget
    ensures Next(s, e).tasks == s.tasks[e.t := Next(s, e).tasks[e.t]]
  {
    assert s.tasks[e.t].Valid();
  }

  /** All payloads together are within the cap for each. */
  lemma ChargesAtMost(s: State)
    requires WellFormed(s)
    ensures Sum(s.Charges()) <= |s.tasks| * MAX_JOB_BYTES
  {
    forall t | 0 <= t < |s.tasks| ensures s.Charges()[t] <= MAX_JOB_BYTES {
      assert s.tasks[t].Valid();
    }
    SumAtMost(s.Charges(), MAX_JOB_BYTES);
  }

  lemma StepAccounted(s: State, e: Event)
    requires Inv(s) && Enabled(s, e) && Exact(s.budget, |s.tasks|)
    ensures Accounted(Next(s, e)) && WellFormed(Next(s, e))
  {
    var s' := Next(s, e);
    StepWellFormed(s, e);
    ChargesAtMost(s');
    assert s.tasks[e.t].Valid();
    PutCharges(s, e.t, s'.tasks[e.t]);
    assert s'.Charges() == Put(s, e.t, s'.tasks[e.t]).Charges();
  }

  lemma StepAlone(s: State, e: Event)
    requires Inv(s) && Enabled(s, e) && Exact(s.budget, |s.tasks|)
    ensures Alone(Next(s, e))
  {
    var s' := Next(s, e);
    assert s.tasks[e.t].Valid();
    StepAccounted(s, e);
    if s'.used > s'.budget {
      if s.used == 0 {
        PutCharges(s, e.t, s'.tasks[e.t]);
        assert s'.Charges() == Put(s, e.t, s'.tasks[e.t]).Charges();
        assert s'.tasks[e.t].Charge() == s'.used;
      } else {
        PutCharges(s, e.t, s.tasks[e.t]);
        assert s'.used <= s.used;
        var t :| 0 <= t < |s.tasks| && s.tasks[t].Charge() == s.used;
        if t != e.t {
          SumAtLeastTwo(s.Charges(), t, e.t);
        }
        assert s'.tasks[t].Charge() == s'.used;
      }
    }
  }

  lemma {:induction false} RunInv(s: State, run: seq<Event>)
    requires Inv(s) && Exact(s.budget, |s.tasks|) && Exec(s, run).Some?
    ensures Inv(Exec(s, run).value) && Exec(s, run).value.budget == s.budget
    decreases |run|
  {
    if run != [] {
      StepWellFormed(s, run[0]);
      StepAccounted(s, run[0]);
      StepAlone(s, run[0]);
      RunInv(Next(s, run[0]), run[1..]);
    }
  }

  // ------------------------------------------------------------- theorems

  /** In every reachable state: no file is larger than its own reservation, the
      files together are within the counter, and the counter passes the budget
      only when a single reservation is all of it. */
  lemma BytesStayCharged(budget: nat, headroom: nat, tasks: nat, run: seq<Event>)
    requires Exact(budget, tasks)
    requires Exec(Init(budget, headroom, tasks), run).Some?
    ensures var s := Exec(Init(budget, headroom, tasks), run).value;
      && s.used == Sum(s.Charges())
      && Sum(s.Files()) <= s.used
      && (forall t :: 0 <= t < |s.tasks| ==> s.tasks[t].OnDisk() <= s.tasks[t].Charge())
      && (s.used > budget ==>
            exists t :: 0 <= t < |s.tasks| && s.tasks[t].Charge() > 0
              && forall u :: 0 <= u < |s.tasks| && u != t ==> s.tasks[u].Charge() == 0)
  {
    InitInv(budget, headroom, tasks);
    RunInv(Init(budget, headroom, tasks), run);
    var s := Exec(Init(budget, headroom, tasks), run).value;
    forall t | 0 <= t < |s.tasks| ensures s.tasks[t].OnDisk() <= s.tasks[t].Charge() {
      assert s.tasks[t].Valid();
    }
    SumMonotone(s.Files(), s.Charges());
    if s.used > budget {
      var t :| 0 <= t < |s.tasks| && s.tasks[t].Charge() == s.used;
      forall u | 0 <= u < |s.tasks| && u != t ensures s.tasks[u].Charge() == 0 {
        SumAtLeastTwo(s.Charges(), t, u);
      }
    }
  }

  /** The budget turns a new payload away only while another one is charged, so
      an idle spool takes any payload the disk can hold. */
  lemma RefusalNeedsCompany(budget: nat, headroom: nat, tasks: nat, run: seq<Event>,
                            t: nat, bytes: nat, free: Option<nat>)
    returns (holder: nat)
    requires Exact(budget, tasks)
    requires Exec(Init(budget, headroom, tasks), run).Some?
    requires var s := Exec(Init(budget, headroom, tasks), run).value;
      && Enabled(s, Reserve(t, bytes, free)) && DiskAllows(free, bytes, s.headroom)
      && Next(s, Reserve(t, bytes, free)).tasks[t].Idle?
    ensures var s := Exec(Init(budget, headroom, tasks), run).value;
      holder < |s.tasks| && holder != t && s.tasks[holder].Charge() > 0
  {
    InitInv(budget, headroom, tasks);
    RunInv(Init(budget, headroom, tasks), run);
    holder := SumPositive(Exec(Init(budget, headroom, tasks), run).value.Charges());
  }

  ghost predicate AlwaysAccounted(budget: nat, headroom: nat, tasks: nat) {
    forall run: seq<Event> ::
      Exec(Init(budget, headroom, tasks), run).Some? ==>
        Accounted(Exec(Init(budget, headroom, tasks), run).value)
  }

  /** The first `k` tasks hold the largest payload there is. */
  function Packed(headroom: nat, tasks: nat, k: nat): State
    requires k <= tasks
  {
    State(U64_MAX, headroom, Min(k * MAX_JOB_BYTES, U64_MAX),
      seq(tasks, t => if t < k then Writing(MAX_JOB_BYTES, 0) else Idle))
  }

  lemma PackOne(headroom: nat, tasks: nat, k: nat)
    requires k < tasks
    ensures Enabled(Packed(headroom, tasks, k), Reserve(k, MAX_JOB_BYTES, None))
    ensures Next(Packed(headroom, tasks, k), Reserve(k, MAX_JOB_BYTES, None))
      == Packed(headroom, tasks, k + 1)
  {
    var s, s' := Packed(headroom, tasks, k), Packed(headroom, tasks, k + 1);
    assert s'.tasks == s.tasks[k := Writing(MAX_JOB_BYTES, 0)];
  }

  lemma {:induction false} PackRest(headroom: nat, tasks: nat, k: nat) returns (run: seq<Event>)
    requires k <= tasks
    ensures Exec(Packed(headroom, tasks, k), run) == Some(Packed(headroom, tasks, tasks))
    decreases tasks - k
  {
    run := [];
    if k < tasks {
      var e := Reserve(k, MAX_JOB_BYTES, None);
      PackOne(headroom, tasks, k);
      run := PackRest(headroom, tasks, k + 1);
      assert ([e] + run)[1..] == run;
      run := [e] + run;
    }
  }

  lemma {:induction false} SumConstant(xs: seq<nat>, v: nat)
    requires forall i :: 0 <= i < |xs| ==> xs[i] == v
    ensures Sum(xs) == |xs| * v
  {
    if xs != [] {
      SumConstant(xs[1..], v);
      assert |xs| * v == v + (|xs| - 1) * v;
    }
  }

  /** The saturating counter is exact on every run just when the budget is not the
      largest `u64` itself, which the configuration does saturate to, or at most
      2^30 - 1 payloads can be spooled at once: beyond that many, of 16 GiB each,
      several share one saturated total. */
  lemma ExactBelowTheTop(budget: nat, headroom: nat, tasks: nat)
    requires budget <= U64_MAX
    ensures AlwaysAccounted(budget, headroom, tasks) <==> Exact(budget, tasks)
    ensures Exact(U64_MAX, tasks) <==> tasks < 0x4000_0000
  {
    if Exact(budget, tasks) {
      forall run: seq<Event> | Exec(Init(budget, headroom, tasks), run).Some?
        ensures Accounted(Exec(Init(budget, headroom, tasks), run).value)
      {
        BytesStayCharged(budget, headroom, tasks, run);
      }
    } else {
      var run := PackRest(headroom, tasks, 0);
      assert Packed(headroom, tasks, 0) == Init(budget, headroom, tasks);
      SumConstant(Packed(headroom, tasks, tasks).Charges(), MAX_JOB_BYTES);
    }
  }
}
