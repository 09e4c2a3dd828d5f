/** The memory admission gate under every interleaving of its weak
    compare-and-swap loop, registrations, releases and re-polls.

    One event is one atomic operation on `reserved`, on the in-flight list (its
    lock held), or on the waiter list. What a task computes between two atomic
    operations is folded into the first: after loading `reserved` it already
    knows whether it will be refused or try the swap. */
module MemoryGateProtocol {
  import opened Prelude

  /** Why a job is not admitted right now. */
  datatype Refusal = ByReservations | ByRss | ByHost

  /** The three checks against one observed value of `reserved`; a value of zero
      passes them all, whatever the live readings say. */
  function Check(ceiling: nat, floor: nat, reserved: nat, est: nat,
                 rss: Option<nat>, available: Option<nat>): Option<Refusal> {
    if reserved == 0 then None
    else if SatAdd(reserved, est) > ceiling then Some(ByReservations)
    else if rss.Some? && SatAdd(rss.value, est) > ceiling then Some(ByRss)
    else if floor != 0 && available.Some? && SatSub(available.value, est) < floor then Some(ByHost)
    else None
  }

  // ---------------------------------------------------------------- tasks

  datatype Task =
    | Idle
    | Asking(est: nat)                 // top of the loop in admit
    | Registered(est: nat)             // on the waiter list, readings not yet taken
      /** Passed the checks against `seen`; about to swap. */
    | Swapping(est: nat, seen: nat, rss: Option<nat>, available: Option<nat>)
    | Parked(est: nat, why: Refusal)   // waiting for a release or the re-poll timer
    | Reserved(est: nat)               // counted, no id yet
    | Named(est: nat, id: nat)         // has an id, not yet on the in-flight list
    | Running(est: nat, id: nat)       // holds the guard
    | Removing(est: nat, id: nat)      // subtracted, still on the in-flight list
    | Notifying                        // about to call notify_waiters
  {
    /** Reserved by a job that has not released. */
    function Charge(): nat {
      match this
      case Reserved(est) => est
      case Named(est, _) => est
      case Running(est, _) => est
      case _ => 0
    }

    /** Reserved, but not yet on the in-flight list. */
    function Unlisted(): nat {
      match this
      case Reserved(est) => est
      case Named(est, _) => est
      case _ => 0
    }

    /** Released, but still on the in-flight list. */
    function Lingering(): nat {
      if Removing? then est else 0
    }

    predicate Listed() {
      Running? || Removing?
    }

    predicate HasId() {
      Named? || Running? || Removing?
    }

    predicate Releasing() {
      Removing? || Notifying?
    }
  }

  datatype Entry = Entry(id: nat, est: nat)

  datatype State = State(
    ceiling: nat,
    floor: nat,             // host memory to leave alone, 0 = no host check
    reserved: nat,
    nextId: nat,
    inflight: seq<Entry>,
    waiters: set<nat>,
    tasks: seq<Task>)
  {
    function Charges(): seq<nat> {
      seq(|tasks|, i requires 0 <= i < |tasks| => tasks[i].Charge())
    }

    function Unlisted(): seq<nat> {
      seq(|tasks|, i requires 0 <= i < |tasks| => tasks[i].Unlisted())
    }

    function Lingering(): seq<nat> {
      seq(|tasks|, i requires 0 <= i < |tasks| => tasks[i].Lingering())
    }

    predicate Releasing() {
      exists u :: 0 <= u < |tasks| && tasks[u].Releasing()
    }
  }

  function Estimates(entries: seq<Entry>): nat {
    if entries == [] then 0 else entries[0].est + Estimates(entries[1..])
  }

  /** `Vec::retain` with the released id filtered out. */
  function Without(entries: seq<Entry>, id: nat): seq<Entry> {
    if entries == [] then []
    else if entries[0].id == id then Without(entries[1..], id)
    else [entries[0]] + Without(entries[1..], id)
  }

  function Init(ceiling: nat, floor: nat, tasks: nat): State {
    State(ceiling, floor, 0, 0, [], {}, seq(tasks, _ => Idle))
  }

  // --------------------------------------------------------------- events

  datatype Event =
    | Admit(t: nat, estimate: nat)
    | Register(t: nat)
    | Load(t: nat, rss: Option<nat>, available: Option<nat>)
    | Swap(t: nat, spurious: bool)
    | Wake(t: nat, timer: bool)
    | GiveUp(t: nat)                  // the waiting future is dropped
    | TakeId(t: nat)
    | Push(t: nat)
    | Subtract(t: nat)
    | Remove(t: nat)
    | Notify(t: nat)

  predicate Enabled(s: State, e: Event) {
    e.t < |s.tasks| &&
    var task := s.tasks[e.t];
    match e
    case Admit(_, estimate) => task.Idle? && 0 < estimate <= U64_MAX
    case Register(_) => task.Asking?
    case Load(_, _, _) => task.Registered?
    case Swap(_, _) => task.Swapping?
    case Wake(t, timer) => task.Parked? && (timer || t !in s.waiters)
    case GiveUp(_) => task.Parked?
    case TakeId(_) => task.Reserved?
    case Push(_) => task.Named?
    case Subtract(_) => task.Running?
    case Remove(_) => task.Removing?
    case Notify(_) => task.Notifying?
  }

  function Put(s: State, t: nat, task: Task): State
    requires t < |s.tasks|
  {
    s.(tasks := s.tasks[t := task])
  }

  /** What a task does with a value of `reserved` it has just read. */
  function Decide(s: State, est: nat, rss: Option<nat>, available: Option<nat>): Task {
    var refusal := Check(s.ceiling, s.floor, s.reserved, est, rss, available);
    if refusal.Some? then Parked(est, refusal.value)
    else Swapping(est, s.reserved, rss, available)
  }

  function AfterSwap(s: State, t: nat, spurious: bool): State
    requires t < |s.tasks| && s.tasks[t].Swapping?
  {
    var Swapping(est, seen, rss, available) := s.tasks[t];
    if s.reserved == seen && !spurious then
      Put(s, t, Reserved(est)).(reserved := SatAdd(seen, est), waiters := s.waiters - {t})
    else
      Put(s, t, Decide(s, est, rss, available))
  }

  function Next(s: State, e: Event): State
    requires Enabled(s, e)
  {
    var t := e.t;
    var task := s.tasks[t];
    match e
    case Admit(_, estimate) => Put(s, t, Asking(estimate))
    case Register(_) => Put(s, t, Registered(task.est)).(waiters := s.waiters + {t})
    case Load(_, rss, available) => Put(s, t, Decide(s, task.est, rss, available))
    case Swap(_, spurious) => AfterSwap(s, t, spurious)
    case Wake(_, _) => Put(s, t, Asking(task.est)).(waiters := s.waiters - {t})
    case GiveUp(_) => Put(s, t, Idle).(waiters := s.waiters - {t})
    case TakeId(_) => Put(s, t, Named(task.est, s.nextId)).(nextId := s.nextId + 1)
    case Push(_) =>
      Put(s, t, Running(task.est, task.id)).(inflight := s.inflight + [Entry(task.id, task.est)])
    case Subtract(_) =>
      Put(s, t, Removing(task.est, task.id)).(reserved := SatSub(s.reserved, task.est))
    case Remove(_) => Put(s, t, Notifying).(inflight := Without(s.inflight, task.id))
    case Notify(_) => Put(s, t, Idle).(waiters := {})
  }

  function Exec(s: State, run: seq<Event>): Option<State>
    decreases |run|
  {
    if run == [] then Some(s)
    else if Enabled(s, run[0]) then Exec(Next(s, run[0]), run[1..])
    else None
  }

  // ------------------------------------------------------------ invariant

  /** The gate is on, and its ceiling is a size no host has. */
  ghost predicate Configured(s: State) {
    0 < s.ceiling < U64_MAX
  }

  ghost predicate Accounted(s: State) {
    && s.reserved == Sum(s.Charges())
    && Estimates(s.inflight) + Sum(s.Unlisted()) == s.reserved + Sum(s.Lingering())
  }

  ghost predicate UniqueIds(s: State) {
    && (forall t, u :: 0 <= t < u < |s.tasks| && s.tasks[t].HasId() && s.tasks[u].HasId() ==>
          s.tasks[t].id != s.tasks[u].id)
    && (forall t :: 0 <= t < |s.tasks| && s.tasks[t].HasId() ==> s.tasks[t].id < s.nextId)
  }

  ghost predicate ListedBy(s: State, t: nat, entry: Entry) {
    t < |s.tasks| && s.tasks[t].Listed() && s.tasks[t].id == entry.id && s.tasks[t].est == entry.est
  }

  /** The in-flight list is exactly the tasks that belong on it. */
  ghost predicate ListMatches(s: State) {
    && (forall i, j :: 0 <= i < j < |s.inflight| ==> s.inflight[i].id != s.inflight[j].id)
    && (forall entry :: entry in s.inflight ==> exists t :: ListedBy(s, t, entry))
    && (forall t :: 0 <= t < |s.tasks| && s.tasks[t].Listed() ==>
          Entry(s.tasks[t].id, s.tasks[t].est) in s.inflight)
  }

  /** What a job checked against a live charge has to leave free. */
  ghost predicate Affordable(s: State, seen: nat, est: nat, rss: Option<nat>, available: Option<nat>) {
    && seen + est <= s.ceiling
    && (rss.Some? ==> rss.value + est <= s.ceiling)
    && (s.floor != 0 && available.Some? ==> available.value >= est + s.floor)
  }

  ghost predicate WellFormed(s: State) {
    forall t :: 0 <= t < |s.tasks| ==>
      match s.tasks[t]
      case Idle => true
      case Notifying => true
      case Swapping(est, seen, rss, available) =>
        0 < est <= U64_MAX && (seen == 0 || Affordable(s, seen, est, rss, available))
      case task => 0 < task.est <= U64_MAX
  }

  /** The idle hatch overshoots the ceiling only for a job that is alone. */
  ghost predicate Alone(s: State) {
    s.reserved > s.ceiling ==>
      exists t :: 0 <= t < |s.tasks| && s.tasks[t].Charge() == s.reserved
  }

  /** A parked task that has not been notified was refused while somebody was
      charged, and unless that has been released it still would be. */
  ghost predicate NoLostWakeup(s: State) {
    forall t :: 0 <= t < |s.tasks| && s.tasks[t].Parked? && t in s.waiters ==>
      || s.Releasing()
      || (s.reserved > 0
          && (s.tasks[t].why.ByReservations? ==> s.reserved + s.tasks[t].est > s.ceiling))
  }

  ghost predicate Inv(s: State) {
    && Configured(s)
    && Accounted(s)
    && UniqueIds(s)
    && ListMatches(s)
    && WellFormed(s)
    && Alone(s)
    && NoLostWakeup(s)
  }

  lemma InitInv(ceiling: nat, floor: nat, tasks: nat)
    requires 0 < ceiling < U64_MAX
    ensures Inv(Init(ceiling, floor, tasks))
  {
    var s := Init(ceiling, floor, tasks);
    SumZero(s.Charges());
    SumZero(s.Unlisted());
    SumZero(s.Lingering());
  }

  // ------------------------------------------------------- in-flight list

  lemma {:induction false} EstimatesAppend(entries: seq<Entry>, entry: Entry)
    ensures Estimates(entries + [entry]) == Estimates(entries) + entry.est
  {
    if entries == [] {
      assert entries + [entry] == [entry];
      assert Estimates([entry]) == entry.est + Estimates([]);
    } else {
      assert (entries + [entry])[1..] == entries[1..] + [entry];
      EstimatesAppend(entries[1..], entry);
    }
  }

  lemma {:induction false} WithoutAbsent(entries: seq<Entry>, id: nat)
    requires forall entry :: entry in entries ==> entry.id != id
    ensures Without(entries, id) == entries
  {
    if entries != [] {
      WithoutAbsent(entries[1..], id);
    }
  }

  /** Removing an id takes out its one entry and keeps all others in place. */
  lemma {:induction false} WithoutOne(entries: seq<Entry>, entry: Entry)
    requires entry in entries
    requires forall i, j :: 0 <= i < j < |entries| ==> entries[i].id != entries[j].id
    ensures Estimates(Without(entries, entry.id)) + entry.est == Estimates(entries)
    ensures forall e :: e in Without(entries, entry.id) <==> e in entries && e != entry
    ensures var rest := Without(entries, entry.id);
      forall i, j :: 0 <= i < j < |rest| ==> rest[i].id != rest[j].id
  {
    var tail := entries[1..];
    if entries[0].id == entry.id {
      assert entries[0] == entry;
      forall e | e in tail ensures e.id != entry.id {
        var k :| 0 <= k < |tail| && tail[k] == e;
        assert entries[k + 1] == e;
      }
      WithoutAbsent(tail, entry.id);
    } else {
      assert entry in tail;
      WithoutOne(tail, entry);
      forall e | e in Without(tail, entry.id) ensures e.id != entries[0].id {
        var k :| 0 <= k < |tail| && tail[k] == e;
        assert entries[k + 1] == e;
      }
    }
  }

  // ----------------------------------------------------------------- steps

  lemma PutSums(s: State, t: nat, task: Task)
    requires t < |s.tasks|
    ensures var s' := Put(s, t, task);
      && Sum(s'.Charges()) + s.tasks[t].Charge() == Sum(s.Charges()) + task.Charge()
      && Sum(s'.Unlisted()) + s.tasks[t].Unlisted() == Sum(s.Unlisted()) + task.Unlisted()
      && Sum(s'.Lingering()) + s.tasks[t].Lingering() == Sum(s.Lingering()) + task.Lingering()
      && s.tasks[t].Charge() <= Sum(s.Charges())
  {
    var s' := Put(s, t, task);
    assert s'.Charges() == s.Charges()[t := task.Charge()];
    assert s'.Unlisted() == s.Unlisted()[t := task.Unlisted()];
    assert s'.Lingering() == s.Lingering()[t := task.Lingering()];
    SumUpdate(s.Charges(), t, task.Charge());
    SumUpdate(s.Unlisted(), t, task.Unlisted());
    SumUpdate(s.Lingering(), t, task.Lingering());
    SumAtLeast(s.Charges(), t);
  }

  /** An event touches its own task only. */
  lemma Frame(s: State, e: Event)
    requires Enabled(s, e)
    ensures Next(s, e).ceiling == s.ceiling && Next(s, e).floor == s.floor
    ensures Next(s, e).tasks == s.tasks[e.t := Next(s, e).tasks[e.t]]
  {
  }

  lemma StepIds(s: State, e: Event)
    requires Inv(s) && Enabled(s, e)
    ensures UniqueIds(Next(s, e))
  {
    Frame(s, e);
    var task := Next(s, e).tasks[e.t];
    assert task.HasId() && !e.TakeId? ==> s.tasks[e.t].HasId() && s.tasks[e.t].id == task.id;
  }

  /** Whoever is on the list and is not the acting task stays there. */
  lemma StillListed(s: State, e: Event, entry: Entry)
    requires Inv(s) && Enabled(s, e) && entry in s.inflight
    requires e.Remove? ==> entry.id != s.tasks[e.t].id
    ensures exists t :: ListedBy(Next(s, e), t, entry)
  {
    Frame(s, e);
    var t :| ListedBy(s, t, entry);
    assert ListedBy(Next(s, e), t, entry);
  }

  lemma StepPush(s: State, e: Event)
    requires Inv(s) && Enabled(s, e) && e.Push?
    ensures ListMatches(Next(s, e))
    ensures Estimates(Next(s, e).inflight) == Estimates(s.inflight) + s.tasks[e.t].est
  {
    var s' := Next(s, e);
    var entry := Entry(s.tasks[e.t].id, s.tasks[e.t].est);
    EstimatesAppend(s.inflight, entry);
    forall x | x in s.inflight ensures x.id != entry.id && exists t :: ListedBy(s', t, x) {
      var t :| ListedBy(s, t, x);
      assert t != e.t;
      StillListed(s, e, x);
    }
    assert ListedBy(s', e.t, entry);
  }

  lemma StepRemove(s: State, e: Event)
    requires Inv(s) && Enabled(s, e) && e.Remove?
    ensures ListMatches(Next(s, e))
    ensures Estimates(Next(s, e).inflight) + s.tasks[e.t].est == Estimates(s.inflight)
  {
    var s' := Next(s, e);
    var entry := Entry(s.tasks[e.t].id, s.tasks[e.t].est);
    WithoutOne(s.inflight, entry);
    forall x | x in s'.inflight ensures exists t :: ListedBy(s', t, x) {
      var t :| ListedBy(s, t, x);
      assert t != e.t;
      StillListed(s, e, x);
    }
  }

  lemma StepList(s: State, e: Event)
    requires Inv(s) && Enabled(s, e)
    ensures ListMatches(Next(s, e))
  {
    if e.Push? {
      StepPush(s, e);
    } else if e.Remove? {
      StepRemove(s, e);
    } else {
      var s' := Next(s, e);
      Frame(s, e);
      assert s'.inflight == s.inflight;
      forall x | x in s'.inflight ensures exists t :: ListedBy(s', t, x) {
        StillListed(s, e, x);
      }
    }
  }

  lemma StepWellFormed(s: State, e: Event)
    requires Inv(s) && Enabled(s, e)
    ensures WellFormed(Next(s, e))
  {
    Frame(s, e);
  }

  lemma StepAccounted(s: State, e: Event)
    requires Inv(s) && Enabled(s, e)
    ensures Accounted(Next(s, e))
  {
    var s' := Next(s, e);
    Frame(s, e);
    var p := Put(s, e.t, s'.tasks[e.t]);
    assert s'.Charges() == p.Charges() && s'.Unlisted() == p.Unlisted()
      && s'.Lingering() == p.Lingering();
    PutSums(s, e.t, s'.tasks[e.t]);
    OwnAccount(s, e);
  }

  /** What an event does to the counter and the list is what it does to its task. */
  lemma OwnAccount(s: State, e: Event)
    requires Inv(s) && Enabled(s, e)
    requires s.tasks[e.t].Charge() <= s.reserved
    ensures var was, task, s' := s.tasks[e.t], Next(s, e).tasks[e.t], Next(s, e);
      && s'.reserved + was.Charge() == s.reserved + task.Charge()
      && Estimates(s'.inflight) + task.Unlisted() + was.Lingering() + was.Charge()
        == Estimates(s.inflight) + was.Unlisted() + task.Lingering() + task.Charge()
  {
    if e.Push? {
      StepPush(s, e);
    } else if e.Remove? {
      StepRemove(s, e);
    }
  }

  lemma StepAlone(s: State, e: Event)
    requires Inv(s) && Enabled(s, e)
    ensures Alone(Next(s, e))
  {
    var s' := Next(s, e);
    StepAccounted(s, e);
    PutSums(s, e.t, s'.tasks[e.t]);
    assert s'.Charges() == Put(s, e.t, s'.tasks[e.t]).Charges();
    if s'.reserved > s'.ceiling {
      if s.reserved == 0 {
        assert s'.tasks[e.t].Charge() == s'.reserved;
      } else {
        assert s'.reserved <= s.reserved;
        var t :| 0 <= t < |s.tasks| && s.tasks[t].Charge() == s.reserved;
        if t != e.t {
          SumAtLeastTwo(s.Charges(), t, e.t);
        }
        assert s'.tasks[t].Charge() == s'.reserved;
      }
    }
  }

  lemma StepWakeups(s: State, e: Event)
    requires Inv(s) && Enabled(s, e)
    ensures NoLostWakeup(Next(s, e))
  {
    var s' := Next(s, e);
    forall t | 0 <= t < |s'.tasks| && s'.tasks[t].Parked? && t in s'.waiters
      ensures s'.Releasing() || (s'.reserved > 0
        && (s'.tasks[t].why.ByReservations? ==> s'.reserved + s'.tasks[t].est > s'.ceiling))
    {
      if s'.tasks[e.t].Releasing() {
      } else if t != e.t {
        if s.Releasing() {
          var u :| 0 <= u < |s.tasks| && s.tasks[u].Releasing();
          assert u != e.t ==> s'.tasks[u].Releasing();
        } else {
          assert s'.reserved >= s.reserved;
        }
      }
    }
  }

  lemma StepInv(s: State, e: Event)
    requires Inv(s) && Enabled(s, e)
    ensures Inv(Next(s, e)) && Next(s, e).ceiling == s.ceiling && Next(s, e).floor == s.floor
  {
    Frame(s, e);
    StepIds(s, e);
    StepList(s, e);
    StepWellFormed(s, e);
    StepAccounted(s, e);
    StepAlone(s, e);
    StepWakeups(s, e);
  }

  /** Every interleaving keeps the invariant. */
  lemma {:induction false} RunInv(s: State, run: seq<Event>)
    requires Inv(s) && Exec(s, run).Some?
    ensures Inv(Exec(s, run).value)
    ensures Exec(s, run).value.ceiling == s.ceiling && Exec(s, run).value.floor == s.floor
    decreases |run|
  {
    if run != [] {
      StepInv(s, run[0]);
      RunInv(Next(s, run[0]), run[1..]);
    }
  }

  // ------------------------------------------------------------- theorems

  /** In every reachable state the counter is what live jobs reserved; it equals
      the in-flight list plus the reserved-but-unlisted minus the
      released-but-listed; and it passes the ceiling only for a job alone. */
  lemma ReservedIsLive(ceiling: nat, floor: nat, tasks: nat, run: seq<Event>)
    requires 0 < ceiling < U64_MAX
    requires Exec(Init(ceiling, floor, tasks), run).Some?
    ensures var s := Exec(Init(ceiling, floor, tasks), run).value;
      && s.reserved == Sum(s.Charges())
      && Estimates(s.inflight) + Sum(s.Unlisted()) == s.reserved + Sum(s.Lingering())
      && (s.reserved > ceiling ==>
            exists t :: 0 <= t < |s.tasks| && s.tasks[t].Charge() > 0
              && forall u :: 0 <= u < |s.tasks| && u != t ==> s.tasks[u].Charge() == 0)
      && (forall t :: 0 <= t < |s.tasks| && s.tasks[t].Running? ==>
            s.tasks[t].est <= s.reserved)
  {
    InitInv(ceiling, floor, tasks);
    RunInv(Init(ceiling, floor, tasks), run);
    var s := Exec(Init(ceiling, floor, tasks), run).value;
    if s.reserved > ceiling {
      var t := LoneJob(s);
    }
    forall t | 0 <= t < |s.tasks| && s.tasks[t].Running? ensures s.tasks[t].est <= s.reserved {
      SumAtLeast(s.Charges(), t);
    }
  }

  /** Past the ceiling one job is charged, and no other. */
  lemma LoneJob(s: State) returns (t: nat)
    requires Inv(s) && s.reserved > s.ceiling
    ensures t < |s.tasks| && s.tasks[t].Charge() > 0
    ensures forall u :: 0 <= u < |s.tasks| && u != t ==> s.tasks[u].Charge() == 0
  {
    t :| 0 <= t < |s.tasks| && s.tasks[t].Charge() == s.reserved;
    forall u | 0 <= u < |s.tasks| && u != t ensures s.tasks[u].Charge() == 0 {
      SumAtLeastTwo(s.Charges(), t, u);
    }
  }

  /** The step that refuses a job happens while another job is charged. */
  lemma RefusalNeedsCompany(ceiling: nat, floor: nat, tasks: nat, run: seq<Event>, e: Event)
    returns (holder: nat)
    requires 0 < ceiling < U64_MAX
    requires Exec(Init(ceiling, floor, tasks), run).Some?
    requires var s := Exec(Init(ceiling, floor, tasks), run).value;
      (e.Load? || e.Swap?) && Enabled(s, e) && Next(s, e).tasks[e.t].Parked?
    ensures var s := Exec(Init(ceiling, floor, tasks), run).value;
      holder < |s.tasks| && holder != e.t && s.tasks[holder].Charge() > 0
  {
    InitInv(ceiling, floor, tasks);
    RunInv(Init(ceiling, floor, tasks), run);
    holder := SumPositive(Exec(Init(ceiling, floor, tasks), run).value.Charges());
  }

  /** A job refused for reservations that waits un-notified would still be refused,
      or a release is on its way to notify it; nobody waits beside an empty gate. */
  lemma NoWakeupIsLost(ceiling: nat, floor: nat, tasks: nat, run: seq<Event>, t: nat)
    requires 0 < ceiling < U64_MAX
    requires Exec(Init(ceiling, floor, tasks), run).Some?
    requires var s := Exec(Init(ceiling, floor, tasks), run).value;
      t < |s.tasks| && s.tasks[t].Parked? && t in s.waiters && !s.Releasing()
    ensures var s := Exec(Init(ceiling, floor, tasks), run).value;
      && (exists u :: 0 <= u < |s.tasks| && u != t && s.tasks[u].Charge() > 0)
      && (s.tasks[t].why.ByReservations? ==> s.reserved + s.tasks[t].est > ceiling)
  {
    InitInv(ceiling, floor, tasks);
    RunInv(Init(ceiling, floor, tasks), run);
    var u := SumPositive(Exec(Init(ceiling, floor, tasks), run).value.Charges());
  }

  /** With nothing reserved, a job that asks and is left undisturbed is admitted,
      whatever its estimate and whatever the live readings. */
  lemma IdleGateAdmits(ceiling: nat, floor: nat, tasks: nat, run: seq<Event>, t: nat,
                       rss: Option<nat>, available: Option<nat>)
    requires 0 < ceiling < U64_MAX
    requires Exec(Init(ceiling, floor, tasks), run).Some?
    requires var s := Exec(Init(ceiling, floor, tasks), run).value;
      && t < |s.tasks| && s.tasks[t].Parked?
      && (forall u :: 0 <= u < |s.tasks| ==> s.tasks[u].Charge() == 0)
    ensures var s := Exec(Init(ceiling, floor, tasks), run).value;
      var more := [Wake(t, true), Register(t), Load(t, rss, available), Swap(t, false)];
      && Exec(s, more).Some?
      && t < |Exec(s, more).value.tasks|
      && Exec(s, more).value.tasks[t] == Reserved(s.tasks[t].est)
      && Exec(s, more).value.reserved == s.tasks[t].est
  {
    InitInv(ceiling, floor, tasks);
    RunInv(Init(ceiling, floor, tasks), run);
    var s := Exec(Init(ceiling, floor, tasks), run).value;
    SumZero(s.Charges());
    var more := [Wake(t, true), Register(t), Load(t, rss, available), Swap(t, false)];
    var s1 := Next(s, more[0]);
    var s2 := Next(s1, more[1]);
    var s3 := Next(s2, more[2]);
    var s4 := Next(s3, more[3]);
    assert more[3..][1..] == [] && more[2..][1..] == more[3..] && more[1..][1..] == more[2..];
    assert Exec(s4, []) == Some(s4);
    assert Exec(s3, more[3..]) == Some(s4);
    assert Exec(s2, more[2..]) == Some(s4);
    assert Exec(s1, more[1..]) == Some(s4);
    assert Exec(s, more) == Some(s4);
  }

  // --------------------------------------------------------------- progress

  lemma {:induction false} ExecConcat(s: State, a: seq<Event>, b: seq<Event>)
    requires Exec(s, a).Some?
    ensures Exec(s, a + b) == Exec(Exec(s, a).value, b)
    decreases |a|
  {
    if a == [] {
      assert a + b == b;
    } else {
      assert (a + b)[1..] == a[1..] + b;
      ExecConcat(Next(s, a[0]), a[1..], b);
    }
  }

  /** Steps a task still needs before nothing is charged for it. */
  function Rank(task: Task): nat {
    match task
    case Reserved(_) => 3
    case Named(_, _) => 2
    case Running(_, _) => 1
    case _ => 0
  }

  function Finish(t: nat, task: Task): Event {
    match task
    case Reserved(_) => TakeId(t)
    case Named(_, _) => Push(t)
    case _ => Subtract(t)
  }

  function Ranks(s: State): seq<nat> {
    seq(|s.tasks|, i requires 0 <= i < |s.tasks| => Rank(s.tasks[i]))
  }

  lemma FinishStep(s: State, u: nat)
    requires u < |s.tasks| && Rank(s.tasks[u]) > 0
    ensures Enabled(s, Finish(u, s.tasks[u]))
    ensures var s' := Next(s, Finish(u, s.tasks[u]));
      s'.tasks == s.tasks[u := s'.tasks[u]] && Sum(Ranks(s')) < Sum(Ranks(s))
  {
    var s' := Next(s, Finish(u, s.tasks[u]));
    assert Ranks(s') == Ranks(s)[u := Rank(s'.tasks[u])];
    SumUpdate(Ranks(s), u, Rank(s'.tasks[u]));
  }

  /** Every job that is charged can run to its release, without touching a parked one. */
  lemma {:induction false} Drain(s: State, t: nat) returns (run: seq<Event>)
    requires Inv(s) && t < |s.tasks| && s.tasks[t].Parked?
    ensures Exec(s, run).Some?
    ensures var s' := Exec(s, run).value;
      && t < |s'.tasks| && s'.tasks[t] == s.tasks[t]
      && (forall u :: 0 <= u < |s'.tasks| ==> s'.tasks[u].Charge() == 0)
    decreases Sum(Ranks(s))
  {
    run := [];
    if Sum(Ranks(s)) == 0 {
      forall u | 0 <= u < |s.tasks| ensures s.tasks[u].Charge() == 0 {
        SumAtLeast(Ranks(s), u);
      }
    } else {
      var u := SumPositive(Ranks(s));
      var e := Finish(u, s.tasks[u]);
      FinishStep(s, u);
      StepInv(s, e);
      run := Drain(Next(s, e), t);
      assert ([e] + run)[1..] == run;
      run := [e] + run;
    }
  }

  /** No reachable state is a dead end for a parked job: some continuation admits it,
      whatever its estimate and the live readings. */
  lemma ParkedJobCanBeAdmitted(ceiling: nat, floor: nat, tasks: nat, run: seq<Event>, t: nat,
                               rss: Option<nat>, available: Option<nat>)
    returns (more: seq<Event>)
    requires 0 < ceiling < U64_MAX
    requires Exec(Init(ceiling, floor, tasks), run).Some?
    requires var s := Exec(Init(ceiling, floor, tasks), run).value;
      t < |s.tasks| && s.tasks[t].Parked?
    ensures var s := Exec(Init(ceiling, floor, tasks), run).value;
      && Exec(s, more).Some?
      && t < |Exec(s, more).value.tasks|
      && Exec(s, more).value.tasks[t] == Reserved(s.tasks[t].est)
  {
    InitInv(ceiling, floor, tasks);
    RunInv(Init(ceiling, floor, tasks), run);
    var s := Exec(Init(ceiling, floor, tasks), run).value;
    var drain := Drain(s, t);
    ExecConcat(Init(ceiling, floor, tasks), run, drain);
    IdleGateAdmits(ceiling, floor, tasks, run + drain, t, rss, available);
    more := [Wake(t, true), Register(t), Load(t, rss, available), Swap(t, false)];
    ExecConcat(s, drain, more);
    more := drain + more;
  }
}
