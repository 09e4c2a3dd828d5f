/** Where claimed jobs are: being downloaded, in the channel, in the reorder
    window, just received by a slot, or done with. Every move takes one job out
    of one container and puts it into another; nothing here knows about counters
    or notifications. */
module StagingLedger {
  import opened Prelude
  import ReorderWindow

  type Job = nat

  /** What to count: every job, or the occurrences of one. */
  type Interest = Option<Job>

  function Weight(job: Job, c: Interest): nat {
    if c.None? || c.value == job then 1 else 0
  }

  function Tally(jobs: seq<Job>, c: Interest): nat {
    if jobs == [] then 0 else Weight(jobs[0], c) + Tally(jobs[1..], c)
  }

  datatype Stage =
    | Queued      // waiting at the download gate
    | Active      // downloading under a permit
    | Landed      // downloaded, not yet sent
    | Crashed     // panicked, not yet noticed
    | Out         // sent, lost or dropped

  /** One download task of staging task `batch`. */
  datatype Download = Download(job: Job, batch: nat, stage: Stage) {
    function Pending(c: Interest): nat {
      if stage.Out? then 0 else Weight(job, c)
    }
  }

  datatype Slot =
    | Free
    | Holding(job: Job)   // received, its depth not yet returned
    | Announcing          // depth returned, not yet announced
    | Gone                // told that no more work is coming
  {
    function Held(c: Interest): nat {
      if Holding? then Weight(job, c) else 0
    }
  }

  function Pending(downloads: seq<Download>, c: Interest): nat {
    if downloads == [] then 0 else downloads[0].Pending(c) + Pending(downloads[1..], c)
  }

  function Held(slots: seq<Slot>, c: Interest): nat {
    if slots == [] then 0 else slots[0].Held(c) + Held(slots[1..], c)
  }

  function Actives(downloads: seq<Download>): nat {
    if downloads == [] then 0
    else (if downloads[0].stage.Active? then 1 else 0) + Actives(downloads[1..])
  }

  datatype Ledger = Ledger(
    downloads: seq<Download>,
    channel: seq<Job>,
    window: seq<Job>,
    slots: seq<Slot>,
    claimed: seq<Job>,      // every job ever accepted from the server
    dispatched: seq<Job>,
    lost: seq<Job>,         // its download panicked
    abandoned: seq<Job>)    // dropped by a stop or a closed receiver
  {
    /** Claimed and neither dispatched, lost nor abandoned. */
    function Staged(c: Interest): nat {
      Pending(downloads, c) + Tally(channel, c) + Tally(window, c) + Held(slots, c)
    }

    function Finished(c: Interest): nat {
      Tally(dispatched, c) + Tally(lost, c) + Tally(abandoned, c)
    }

    /** Every claimed job is in exactly one place. */
    ghost predicate Conserved() {
      forall c: Interest :: Tally(claimed, c) == Staged(c) + Finished(c)
    }

    /** Jobs whose depth has not been given back. */
    function Depth(): nat {
      Staged(None) + Tally(abandoned, None)
    }
  }

  function Empty(slots: nat): Ledger {
    Ledger([], [], [], seq(slots, _ => Free), [], [], [], [])
  }

  function Fresh(jobs: seq<Job>, batch: nat): seq<Download> {
    seq(|jobs|, i requires 0 <= i < |jobs| => Download(jobs[i], batch, Queued))
  }

  // ----------------------------------------------------------------- moves

  datatype Move =
    | Stay
    | Accept(jobs: seq<Job>, batch: nat)
    | Advance(d: nat, stage: Stage)      // one stage of a download to the next
    | Deliver(d: nat)                    // sent into the channel
    | Lose(d: nat)
    | Drop(d: nat)
    | DropHead                           // the channel dies with its receiver
    | DropAt(at: nat)                    // and so does the window
    | Sweep                              // head of the channel into the window
    | ReceiveHead(i: nat)
    | ReceiveAt(i: nat, at: nat)
    | Dispatch(i: nat)
    | Turn(i: nat, slot: Slot)           // a slot without a job changes state

  predicate Possible(l: Ledger, m: Move) {
    match m
    case Stay => true
    case Accept(_, _) => true
    case Advance(d, stage) => d < |l.downloads| && !l.downloads[d].stage.Out? && !stage.Out?
    case Deliver(d) => d < |l.downloads| && !l.downloads[d].stage.Out?
    case Lose(d) => d < |l.downloads| && !l.downloads[d].stage.Out?
    case Drop(d) => d < |l.downloads| && !l.downloads[d].stage.Out?
    case DropHead => l.channel != []
    case DropAt(at) => at < |l.window|
    case Sweep => l.channel != []
    case ReceiveHead(i) => i < |l.slots| && l.slots[i].Free? && l.channel != []
    case ReceiveAt(i, at) => i < |l.slots| && l.slots[i].Free? && at < |l.window|
    case Dispatch(i) => i < |l.slots| && l.slots[i].Holding?
    case Turn(i, slot) => i < |l.slots| && !l.slots[i].Holding? && !slot.Holding?
  }

  function SetStage(l: Ledger, d: nat, stage: Stage): Ledger
    requires d < |l.downloads|
  {
    l.(downloads := l.downloads[d := l.downloads[d].(stage := stage)])
  }

  function Apply(l: Ledger, m: Move): Ledger
    requires Possible(l, m)
  {
    match m
    case Stay => l
    case Accept(jobs, batch) =>
      l.(downloads := l.downloads + Fresh(jobs, batch), claimed := l.claimed + jobs)
    case Advance(d, stage) => SetStage(l, d, stage)
    case Deliver(d) => SetStage(l, d, Out).(channel := l.channel + [l.downloads[d].job])
    case Lose(d) => SetStage(l, d, Out).(lost := l.lost + [l.downloads[d].job])
    case Drop(d) => SetStage(l, d, Out).(abandoned := l.abandoned + [l.downloads[d].job])
    case DropHead =>
      l.(channel := l.channel[1..], abandoned := l.abandoned + [l.channel[0]])
    case DropAt(at) =>
      l.(window := ReorderWindow.SwapRemove(l.window, at),
         abandoned := l.abandoned + [l.window[at]])
    case Sweep => l.(channel := l.channel[1..], window := l.window + [l.channel[0]])
    case ReceiveHead(i) =>
      l.(channel := l.channel[1..], slots := l.slots[i := Holding(l.channel[0])])
    case ReceiveAt(i, at) =>
      l.(window := ReorderWindow.SwapRemove(l.window, at), slots := l.slots[i := Holding(l.window[at])])
    case Dispatch(i) =>
      l.(slots := l.slots[i := Announcing], dispatched := l.dispatched + [l.slots[i].job])
    case Turn(i, slot) => l.(slots := l.slots[i := slot])
  }

  // ------------------------------------------------------ container lemmas

  lemma {:induction false} TallyConcat(a: seq<Job>, b: seq<Job>, c: Interest)
    ensures Tally(a + b, c) == Tally(a, c) + Tally(b, c)
  {
    if a == [] {
      assert a + b == b;
    } else {
      assert (a + b)[1..] == a[1..] + b;
      TallyConcat(a[1..], b, c);
    }
  }

  lemma TallyAppend(a: seq<Job>, job: Job, c: Interest)
    ensures Tally(a + [job], c) == Tally(a, c) + Weight(job, c)
  {
    TallyConcat(a, [job], c);
    assert Tally([job], c) == Weight(job, c) + Tally([], c);
  }

  lemma {:induction false} TallyUpdate(a: seq<Job>, i: nat, job: Job, c: Interest)
    requires i < |a|
    ensures Tally(a[i := job], c) + Weight(a[i], c) == Tally(a, c) + Weight(job, c)
  {
    if i == 0 {
      assert a[0 := job][1..] == a[1..];
    } else {
      assert a[i := job][1..] == a[1..][i - 1 := job];
      TallyUpdate(a[1..], i - 1, job, c);
    }
  }

  lemma TallySwapRemove(a: seq<Job>, i: nat, c: Interest)
    requires i < |a|
    ensures Tally(ReorderWindow.SwapRemove(a, i), c) + Weight(a[i], c) == Tally(a, c)
  {
    var last := |a| - 1;
    var swapped := a[i := a[last]];
    TallyUpdate(a, i, a[last], c);
    assert swapped == swapped[..last] + [swapped[last]];
    TallyAppend(swapped[..last], swapped[last], c);
  }

  /** Counting every job gives the length; counting one gives its multiplicity. */
  lemma {:induction false} TallyMeaning(a: seq<Job>, c: Interest)
    ensures Tally(a, c) == if c.None? then |a| else multiset(a)[c.value]
  {
    if a != [] {
      assert a == [a[0]] + a[1..];
      assert multiset(a) == multiset{a[0]} + multiset(a[1..]);
      TallyMeaning(a[1..], c);
    }
  }

  lemma {:induction false} PendingUpdate(downloads: seq<Download>, d: nat, next: Download, c: Interest)
    requires d < |downloads|
    ensures Pending(downloads[d := next], c) + downloads[d].Pending(c)
      == Pending(downloads, c) + next.Pending(c)
    ensures downloads[d].Pending(c) <= Pending(downloads, c)
  {
    if d == 0 {
      assert downloads[0 := next][1..] == downloads[1..];
    } else {
      assert downloads[d := next][1..] == downloads[1..][d - 1 := next];
      PendingUpdate(downloads[1..], d - 1, next, c);
    }
  }

  lemma {:induction false} FreshPending(jobs: seq<Job>, batch: nat, c: Interest)
    ensures Pending(Fresh(jobs, batch), c) == Tally(jobs, c)
    ensures Actives(Fresh(jobs, batch)) == 0
  {
    if jobs != [] {
      assert Fresh(jobs, batch)[1..] == Fresh(jobs[1..], batch);
      FreshPending(jobs[1..], batch, c);
    }
  }

  lemma {:induction false} PendingConcat(a: seq<Download>, b: seq<Download>, c: Interest)
    ensures Pending(a + b, c) == Pending(a, c) + Pending(b, c)
    ensures Actives(a + b) == Actives(a) + Actives(b)
  {
    if a == [] {
      assert a + b == b;
    } else {
      assert (a + b)[1..] == a[1..] + b;
      PendingConcat(a[1..], b, c);
    }
  }

  lemma {:induction false} HeldUpdate(slots: seq<Slot>, i: nat, next: Slot, c: Interest)
    requires i < |slots|
    ensures Held(slots[i := next], c) + slots[i].Held(c) == Held(slots, c) + next.Held(c)
    ensures slots[i].Held(c) <= Held(slots, c)
  {
    if i == 0 {
      assert slots[0 := next][1..] == slots[1..];
    } else {
      assert slots[i := next][1..] == slots[1..][i - 1 := next];
      HeldUpdate(slots[1..], i - 1, next, c);
    }
  }

  lemma {:induction false} HeldNone(slots: seq<Slot>, c: Interest)
    requires forall i :: 0 <= i < |slots| ==> !slots[i].Holding?
    ensures Held(slots, c) == 0
  {
    if slots != [] {
      HeldNone(slots[1..], c);
    }
  }

  lemma {:induction false} ActivesUpdate(downloads: seq<Download>, d: nat, next: Download)
    requires d < |downloads|
    ensures Actives(downloads[d := next]) + (if downloads[d].stage.Active? then 1 else 0)
      == Actives(downloads) + if next.stage.Active? then 1 else 0
  {
    if d == 0 {
      assert downloads[0 := next][1..] == downloads[1..];
    } else {
      assert downloads[d := next][1..] == downloads[1..][d - 1 := next];
      ActivesUpdate(downloads[1..], d - 1, next);
    }
  }

  lemma {:induction false} FindActive(downloads: seq<Download>) returns (d: nat)
    requires Actives(downloads) > 0
    ensures d < |downloads| && downloads[d].stage.Active?
  {
    if downloads[0].stage.Active? {
      d := 0;
    } else {
      d := FindActive(downloads[1..]);
      d := d + 1;
    }
  }

  // ---------------------------------------------------------- conservation

  /** How a move changes the depth in use. */
  function Change(m: Move): int {
    match m
    case Accept(jobs, _) => |jobs|
    case Lose(_) => -1
    case Dispatch(_) => -1
    case _ => 0
  }

  /** How a move changes the number of downloads holding a permit. */
  function PermitChange(l: Ledger, m: Move): int
    requires Possible(l, m)
  {
    match m
    case Advance(d, stage) =>
      (if stage.Active? then 1 else 0) - if l.downloads[d].stage.Active? then 1 else 0
    case Deliver(d) => if l.downloads[d].stage.Active? then -1 else 0
    case Lose(d) => if l.downloads[d].stage.Active? then -1 else 0
    case Drop(d) => if l.downloads[d].stage.Active? then -1 else 0
    case _ => 0
  }

  /** The books of one kind of job, before and after a move: what is claimed, what
      is still staged and what is finished change together. */
  ghost predicate Balanced(l: Ledger, m: Move, c: Interest)
    requires Possible(l, m)
  {
    var l' := Apply(l, m);
    && Tally(l'.claimed, c) - Tally(l.claimed, c)
         == l'.Staged(c) + l'.Finished(c) - l.Staged(c) - l.Finished(c)
    && (c.None? ==> l'.Depth() == l.Depth() + Change(m))
  }

  lemma DownloadMove(l: Ledger, m: Move, c: Interest)
    requires Possible(l, m) && (m.Advance? || m.Deliver? || m.Lose? || m.Drop?)
    ensures Balanced(l, m, c)
  {
    var job := l.downloads[m.d].job;
    PendingUpdate(l.downloads, m.d, Apply(l, m).downloads[m.d], c);
    TallyAppend(l.channel, job, c);
    TallyAppend(l.lost, job, c);
    TallyAppend(l.abandoned, job, c);
  }

  lemma AcceptMove(l: Ledger, jobs: seq<Job>, batch: nat, c: Interest)
    ensures Balanced(l, Accept(jobs, batch), c)
    ensures Actives(Apply(l, Accept(jobs, batch)).downloads) == Actives(l.downloads)
  {
    PendingConcat(l.downloads, Fresh(jobs, batch), c);
    FreshPending(jobs, batch, c);
    TallyConcat(l.claimed, jobs, c);
    TallyMeaning(jobs, None);
  }

  lemma QueueMove(l: Ledger, m: Move, c: Interest)
    requires Possible(l, m) && (m.DropHead? || m.DropAt? || m.Sweep?)
    ensures Balanced(l, m, c)
  {
    if m.DropAt? {
      TallySwapRemove(l.window, m.at, c);
      TallyAppend(l.abandoned, l.window[m.at], c);
    } else {
      TallyAppend(l.window, l.channel[0], c);
      TallyAppend(l.abandoned, l.channel[0], c);
    }
  }

  lemma SlotMove(l: Ledger, m: Move, c: Interest)
    requires Possible(l, m) && (m.ReceiveHead? || m.ReceiveAt? || m.Dispatch? || m.Turn?)
    ensures Balanced(l, m, c)
  {
    HeldUpdate(l.slots, m.i, Apply(l, m).slots[m.i], c);
    if m.ReceiveAt? {
      TallySwapRemove(l.window, m.at, c);
    } else if m.Dispatch? {
      TallyAppend(l.dispatched, l.slots[m.i].job, c);
    }
  }

  lemma MoveBalanced(l: Ledger, m: Move, c: Interest)
    requires Possible(l, m)
    ensures Balanced(l, m, c)
  {
    if m.Accept? {
      AcceptMove(l, m.jobs, m.batch, c);
    } else if m.Advance? || m.Deliver? || m.Lose? || m.Drop? {
      DownloadMove(l, m, c);
    } else if m.DropHead? || m.DropAt? || m.Sweep? {
      QueueMove(l, m, c);
    } else if !m.Stay? {
      SlotMove(l, m, c);
    }
  }

  /** No move loses, invents or duplicates a job, and only accepting, losing and
      dispatching one changes the depth. */
  lemma MoveConserves(l: Ledger, m: Move)
    requires Possible(l, m) && l.Conserved()
    ensures Apply(l, m).Conserved()
    ensures Apply(l, m).Depth() == l.Depth() + Change(m)
    ensures Actives(Apply(l, m).downloads) == Actives(l.downloads) + PermitChange(l, m)
  {
    var l' := Apply(l, m);
    forall c: Interest ensures Tally(l'.claimed, c) == l'.Staged(c) + l'.Finished(c) {
      MoveBalanced(l, m, c);
      assert Tally(l.claimed, c) == l.Staged(c) + l.Finished(c);
    }
    MoveBalanced(l, m, None);
    if m.Accept? {
      AcceptMove(l, m.jobs, m.batch, None);
    } else if m.Advance? || m.Deliver? || m.Lose? || m.Drop? {
      ActivesUpdate(l.downloads, m.d, l'.downloads[m.d]);
    }
  }

  /** With no depth in use, nothing is staged anywhere. */
  lemma NoDepthNothingStaged(l: Ledger)
    requires l.Depth() == 0
    ensures l.channel == [] && l.window == [] && l.abandoned == []
    ensures forall d :: 0 <= d < |l.downloads| ==> l.downloads[d].stage.Out?
    ensures forall i :: 0 <= i < |l.slots| ==> !l.slots[i].Holding?
  {
    TallyMeaning(l.channel, None);
    TallyMeaning(l.window, None);
    TallyMeaning(l.abandoned, None);
    forall d | 0 <= d < |l.downloads| ensures l.downloads[d].stage.Out? {
      PendingUpdate(l.downloads, d, l.downloads[d], None);
    }
    forall i | 0 <= i < |l.slots| ensures !l.slots[i].Holding? {
      HeldUpdate(l.slots, i, l.slots[i], None);
    }
  }
}
