/** A worker told to exit when the server has nothing left: it can always come to that
    end, and only such a worker can. */
module EmptyExit {
  import opened Prelude
  import opened StagingLedger
  import opened StagingProtocol

  /** Neither stopped nor closed, and the producer still at work. */
  predicate AtWork(s: State) {
    !s.stopped && !s.closed && !s.producer.Returned?
  }

  predicate Undisturbed(run: seq<Event>) {
    Stop !in run && Close !in run
  }

  // ---------------------------------------------------------- what is left

  /** Steps a download still needs until its job is dispatched or lost. */
  function DownloadToil(d: Download): nat {
    match d.stage
    case Queued => 8
    case Active => 7
    case Landed => 6
    case Crashed => 2
    case Out => 0
  }

  function SlotToil(slot: Slot): nat {
    match slot
    case Holding(_) => 3
    case Announcing => 1
    case _ => 0
  }

  function PhaseToil(phase: Phase): nat {
    if phase.LossTaken? then 1 else 0
  }

  function DownloadToils(downloads: seq<Download>): seq<nat> {
    seq(|downloads|, d requires 0 <= d < |downloads| => DownloadToil(downloads[d]))
  }

  function SlotToils(slots: seq<Slot>): seq<nat> {
    seq(|slots|, i requires 0 <= i < |slots| => SlotToil(slots[i]))
  }

  function PhaseToils(phases: seq<Phase>): seq<nat> {
    seq(|phases|, b requires 0 <= b < |phases| => PhaseToil(phases[b]))
  }

  function Left(s: State): nat {
    Sum(DownloadToils(s.ledger.downloads)) + Sum(SlotToils(s.ledger.slots)) + Sum(PhaseToils(s.phases))
    + 5 * |s.ledger.channel| + 4 * |s.ledger.window|
  }

  lemma DownloadToilSum(downloads: seq<Download>, d: nat, download: Download)
    requires d < |downloads|
    ensures Sum(DownloadToils(downloads[d := download])) + DownloadToil(downloads[d])
         == Sum(DownloadToils(downloads)) + DownloadToil(download)
  {
    assert DownloadToils(downloads[d := download]) == DownloadToils(downloads)[d := DownloadToil(download)];
    SumUpdate(DownloadToils(downloads), d, DownloadToil(download));
  }

  lemma SlotToilSum(slots: seq<Slot>, i: nat, slot: Slot)
    requires i < |slots|
    ensures Sum(SlotToils(slots[i := slot])) + SlotToil(slots[i]) == Sum(SlotToils(slots)) + SlotToil(slot)
  {
    assert SlotToils(slots[i := slot]) == SlotToils(slots)[i := SlotToil(slot)];
    SumUpdate(SlotToils(slots), i, SlotToil(slot));
  }

  lemma PhaseToilSum(phases: seq<Phase>, b: nat, phase: Phase)
    requires b < |phases|
    ensures Sum(PhaseToils(phases[b := phase])) + PhaseToil(phases[b]) == Sum(PhaseToils(phases)) + PhaseToil(phase)
  {
    assert PhaseToils(phases[b := phase]) == PhaseToils(phases)[b := PhaseToil(phase)];
    SumUpdate(PhaseToils(phases), b, PhaseToil(phase));
  }

  // ----------------------------------------------------------------- moves

  predicate Drains(e: Event) {
    || e.Start? || e.Land? || e.Send? || e.Reclaim? || e.AnnounceLoss?
    || e.SweepOne? || e.Receive? || e.Unstage? || e.Announce?
  }

  lemma DownloadDrains(s: State, e: Event)
    requires AtWork(s) && Enabled(s, e) && (e.Start? || e.Land? || e.Send? || e.Reclaim?)
    ensures Left(Next(s, e)) < Left(s)
  {
    DownloadToilSum(s.ledger.downloads, e.d, Next(s, e).ledger.downloads[e.d]);
    LossToil(s, e);
  }

  /** Taking a loss owes one announcement. */
  lemma LossToil(s: State, e: Event)
    requires AtWork(s) && Enabled(s, e) && (e.Start? || e.Land? || e.Send? || e.Reclaim?)
    ensures Sum(PhaseToils(Next(s, e).phases)) <= Sum(PhaseToils(s.phases)) + if e.Reclaim? then 1 else 0
  {
    if e.Reclaim? {
      PhaseToilSum(s.phases, s.ledger.downloads[e.d].batch, LossTaken);
    }
  }

  lemma SlotDrains(s: State, e: Event)
    requires AtWork(s) && Enabled(s, e) && (e.Receive? || e.Unstage? || e.Announce?)
    ensures Left(Next(s, e)) < Left(s)
  {
    SlotToilSum(s.ledger.slots, e.i, Next(s, e).ledger.slots[e.i]);
  }

  lemma OtherDrains(s: State, e: Event)
    requires AtWork(s) && Enabled(s, e) && (e.AnnounceLoss? || e.SweepOne?)
    ensures Left(Next(s, e)) < Left(s)
  {
    if e.AnnounceLoss? {
      PhaseToilSum(s.phases, e.b, Joining);
    }
  }

  lemma DrainStep(s: State, e: Event)
    requires AtWork(s) && Enabled(s, e) && Drains(e)
    ensures AtWork(Next(s, e)) && Left(Next(s, e)) < Left(s)
    ensures Next(s, e).exitIfEmpty == s.exitIfEmpty
  {
    if e.Start? || e.Land? || e.Send? || e.Reclaim? {
      DownloadDrains(s, e);
    } else if e.Receive? || e.Unstage? || e.Announce? {
      SlotDrains(s, e);
    } else {
      OtherDrains(s, e);
    }
    AtWorkStays(s, e);
  }

  lemma AtWorkStays(s: State, e: Event)
    requires AtWork(s) && Enabled(s, e) && Drains(e)
    ensures !Control(s, e).producer.Returned?
  {
    if Control(s, e).producer.Returned? {
      ReturnFrame(s, e);
    }
  }

  /** A download that is not out can go on, or the one whose permit it waits for. */
  lemma SomeDownload(s: State, d: nat) returns (e: Event)
    requires Inv(s) && AtWork(s) && d < |s.ledger.downloads| && !s.ledger.downloads[d].stage.Out?
    requires forall b :: 0 <= b < |s.phases| ==> !s.phases[b].LossTaken?
    ensures Enabled(s, e) && Drains(e)
  {
    assert s.phases[s.ledger.downloads[d].batch].Joining?;
    match s.ledger.downloads[d].stage
    case Landed => e := Send(d);
    case Crashed => e := Reclaim(d);
    case Active => e := Land(d);
    case Queued =>
      if s.gate > 0 {
        e := Start(d);
      } else {
        var other := FindActive(s.ledger.downloads);
        e := Land(other);
      }
  }

  /** A staged job always has a slot to go to. */
  lemma SomeSlot(s: State) returns (e: Event)
    requires Inv(s) && AtWork(s) && (s.ledger.channel != [] || s.ledger.window != [])
    requires forall i :: 0 <= i < |s.ledger.slots| ==>
      !s.ledger.slots[i].Holding? && !s.ledger.slots[i].Announcing?
    ensures Enabled(s, e) && Drains(e)
  {
    assert Tally(s.ledger.claimed, None) == s.ledger.Staged(None) + s.ledger.Finished(None);
    TallyMeaning(s.ledger.claimed, None);
    TallyMeaning(s.ledger.channel, None);
    TallyMeaning(s.ledger.window, None);
    assert s.ledger.slots[0].Free?;
    e := if s.ledger.channel != [] && !s.fifo then SweepOne else Receive(0, 0);
  }

  /** While anything is left, something moves. */
  lemma SomeDrain(s: State) returns (e: Event)
    requires Inv(s) && AtWork(s) && Left(s) > 0
    ensures Enabled(s, e) && Drains(e)
  {
    if b :| 0 <= b < |s.phases| && s.phases[b].LossTaken? {
      e := AnnounceLoss(b);
    } else if i :| 0 <= i < |s.ledger.slots| && s.ledger.slots[i].Holding? {
      e := Unstage(i);
    } else if i :| 0 <= i < |s.ledger.slots| && s.ledger.slots[i].Announcing? {
      e := Announce(i);
    } else if d :| 0 <= d < |s.ledger.downloads| && !s.ledger.downloads[d].stage.Out? {
      e := SomeDownload(s, d);
    } else {
      SumZero(DownloadToils(s.ledger.downloads));
      SumZero(SlotToils(s.ledger.slots));
      SumZero(PhaseToils(s.phases));
      e := SomeSlot(s);
    }
  }

  // ------------------------------------------------------------------ runs

  lemma UndisturbedCons(e: Event, run: seq<Event>)
    requires Undisturbed(run) && !e.Stop? && !e.Close?
    ensures Undisturbed([e] + run)
  {
  }

  /** `run` leads on, undisturbed, to the producer's return. */
  ghost predicate Returns(s: State, run: seq<Event>) {
    Undisturbed(run) && Exec(s, run).Some? && Exec(s, run).value.producer.Returned?
  }

  lemma ReturnsAfter(s: State, e: Event, run: seq<Event>)
    requires Enabled(s, e) && !e.Stop? && !e.Close? && Returns(Next(s, e), run)
    ensures Returns(s, [e] + run)
  {
    ExecCons(s, e, run);
    UndisturbedCons(e, run);
  }

  /** With nothing left no depth is in use. */
  lemma NothingLeft(s: State)
    requires Inv(s) && AtWork(s) && Left(s) == 0
    ensures s.outstanding == 0 && !s.Announcing()
  {
    forall d | 0 <= d < |s.ledger.downloads| ensures s.ledger.downloads[d].stage.Out? {
      SumAtLeast(DownloadToils(s.ledger.downloads), d);
    }
    forall i | 0 <= i < |s.ledger.slots|
      ensures !s.ledger.slots[i].Holding? && !s.ledger.slots[i].Announcing?
    {
      SumAtLeast(SlotToils(s.ledger.slots), i);
    }
    forall b | 0 <= b < |s.phases| ensures !s.phases[b].LossTaken? {
      SumAtLeast(PhaseToils(s.phases), b);
    }
    PendingNone(s.ledger.downloads, None);
    HeldNone(s.ledger.slots, None);
    assert s.ledger.Depth() == 0;
  }

  /** An idle producer asks, hears that there is nothing, and returns. */
  lemma IdleReturns(s: State) returns (run: seq<Event>)
    requires Inv(s) && AtWork(s) && Left(s) == 0 && s.exitIfEmpty && s.target > 0
    ensures Returns(s, run)
  {
    NothingLeft(s);
    match s.producer
    case Polling(_) =>
      run := [ClaimNothing];
      ExecOne(s, ClaimNothing);
    case Top =>
      run := [ReadRoom, ClaimNothing];
      ExecTwo(s, ReadRoom, ClaimNothing);
    case Full =>
      run := [ReadRoom, ClaimNothing];
      ExecTwo(Next(s, AwaitRoom), ReadRoom, ClaimNothing);
      ReturnsAfter(s, AwaitRoom, run);
      run := [AwaitRoom] + run;
  }

  lemma {:induction false} DrainReturns(s: State) returns (run: seq<Event>)
    requires Inv(s) && AtWork(s) && s.exitIfEmpty && s.target > 0
    ensures Returns(s, run)
    decreases Left(s)
  {
    if Left(s) == 0 {
      run := IdleReturns(s);
    } else {
      var e := SomeDrain(s);
      StepInv(s, e);
      DrainStep(s, e);
      run := DrainReturns(Next(s, e));
      ReturnsAfter(s, e, run);
      run := [e] + run;
    }
  }

  lemma {:induction false} StaysUndisturbed(s: State, run: seq<Event>)
    requires !s.stopped && !s.closed && Undisturbed(run) && Exec(s, run).Some?
    ensures !Exec(s, run).value.stopped && !Exec(s, run).value.closed
    ensures Exec(s, run).value.exitIfEmpty == s.exitIfEmpty
    decreases |run|
  {
    if run != [] {
      StaysUndisturbed(Next(s, run[0]), run[1..]);
    }
  }

  /** From any reachable state, left alone, the producer can come to return exactly
      when it was told to exit when empty and has room to ask at all: whatever is
      downloading, queued or being handed over can be finished first. */
  lemma ReturnsIffToldTo(target: nat, width: nat, exitIfEmpty: bool, fifo: bool, run: seq<Event>)
    requires Exec(Init(target, width, exitIfEmpty, fifo), run).Some?
    requires AtWork(Exec(Init(target, width, exitIfEmpty, fifo), run).value)
    ensures (exists more: seq<Event> ::
               Returns(Exec(Init(target, width, exitIfEmpty, fifo), run).value, more))
      <==> exitIfEmpty && target > 0
  {
    InitInv(target, width, exitIfEmpty, fifo);
    RunInv(Init(target, width, exitIfEmpty, fifo), run);
    RunKeepsConfig(Init(target, width, exitIfEmpty, fifo), run);
    var s := Exec(Init(target, width, exitIfEmpty, fifo), run).value;
    if exitIfEmpty && target > 0 {
      var more := DrainReturns(s);
    } else {
      forall more: seq<Event> ensures !Returns(s, more) {
        if Undisturbed(more) && Exec(s, more).Some? {
          RunInv(s, more);
          StaysUndisturbed(s, more);
        }
      }
    }
  }
}
