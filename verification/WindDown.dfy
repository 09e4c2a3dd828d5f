/** How the pipeline ends. A stop takes everything with it, whatever the server or a
    download does meanwhile; a producer that returned by itself leaves nothing that
    cannot come to its end. */
module WindDown {
  import opened Prelude
  import opened StagingLedger
  import opened StagingProtocol

  /** The producer is gone, every burst has ended, no download is left and every slot
      has been told to leave. */
  predicate Over(s: State) {
    && s.producer.Returned?
    && (forall b :: 0 <= b < |s.phases| ==> s.phases[b].Ended?)
    && (forall d :: 0 <= d < |s.ledger.downloads| ==> s.ledger.downloads[d].stage.Out?)
    && (forall i :: 0 <= i < |s.ledger.slots| ==> s.ledger.slots[i].Gone?)
  }

  predicate SlotWinds(e: Event) {
    e.Unstage? || e.Announce? || e.Leave?
  }

  /** Ends something: nothing is claimed, no download advances, no slot takes a job. */
  predicate Winds(e: Event) {
    BurstEvent(e) || e.Discard? || SlotWinds(e)
  }

  predicate AllWind(run: seq<Event>) {
    forall k :: 0 <= k < |run| ==> Winds(run[k])
  }

  // ---------------------------------------------------------- what is left

  function BurstWork(phase: Phase): nat {
    match phase
    case LossTaken => 5
    case Joining => 4
    case Failing => 3
    case Closing(_) => 2
    case Leaving(_) => 1
    case Ended(_) => 0
  }

  function SlotWork(slot: Slot): nat {
    match slot
    case Holding(_) => 3
    case Announcing => 2
    case Free => 1
    case Gone => 0
  }

  function BurstWorks(phases: seq<Phase>): seq<nat> {
    seq(|phases|, b requires 0 <= b < |phases| => BurstWork(phases[b]))
  }

  function SlotWorks(slots: seq<Slot>): seq<nat> {
    seq(|slots|, i requires 0 <= i < |slots| => SlotWork(slots[i]))
  }

  function DownloadWorks(downloads: seq<Download>): seq<nat> {
    seq(|downloads|, d requires 0 <= d < |downloads| => if downloads[d].stage.Out? then 0 else 1)
  }

  function Work(s: State): nat {
    Sum(BurstWorks(s.phases)) + Sum(SlotWorks(s.ledger.slots)) + Sum(DownloadWorks(s.ledger.downloads))
  }

  lemma BurstLess(phases: seq<Phase>, b: nat, phase: Phase)
    requires b < |phases| && BurstWork(phase) < BurstWork(phases[b])
    ensures Sum(BurstWorks(phases[b := phase])) < Sum(BurstWorks(phases))
  {
    assert BurstWorks(phases[b := phase]) == BurstWorks(phases)[b := BurstWork(phase)];
    SumUpdate(BurstWorks(phases), b, BurstWork(phase));
  }

  lemma SlotLess(slots: seq<Slot>, i: nat, slot: Slot)
    requires i < |slots| && SlotWork(slot) < SlotWork(slots[i])
    ensures Sum(SlotWorks(slots[i := slot])) < Sum(SlotWorks(slots))
  {
    assert SlotWorks(slots[i := slot]) == SlotWorks(slots)[i := SlotWork(slot)];
    SumUpdate(SlotWorks(slots), i, SlotWork(slot));
  }

  lemma DownloadLess(downloads: seq<Download>, d: nat)
    requires d < |downloads| && !downloads[d].stage.Out?
    ensures Sum(DownloadWorks(downloads[d := downloads[d].(stage := Out)])) < Sum(DownloadWorks(downloads))
  {
    assert DownloadWorks(downloads[d := downloads[d].(stage := Out)]) == DownloadWorks(downloads)[d := 0];
    SumUpdate(DownloadWorks(downloads), d, 0);
  }

  // ----------------------------------------------------------------- steps

  /** The producer is gone, and either a stop releases the slots or nothing is left for
      them to take. */
  ghost predicate Ending(s: State) {
    && Inv(s) && s.producer.Returned?
    && (s.stopped || (s.ledger.channel == [] && s.ledger.window == []))
  }

  /** What winding down leaves alone. */
  predicate Kept(s: State, r: State) {
    && r.ledger.claimed == s.ledger.claimed && r.ledger.lost == s.ledger.lost
    && r.ledger.channel == s.ledger.channel && r.ledger.window == s.ledger.window
    && r.stopped == s.stopped && r.closed == s.closed
  }

  /** A step of a burst moves that burst on, and nothing else. */
  lemma BurstFrame(s: State, e: Event)
    requires Enabled(s, e) && BurstEvent(e)
    ensures Control(s, e).phases == s.phases[e.b := Control(s, e).phases[e.b]]
    ensures BurstWork(Control(s, e).phases[e.b]) < BurstWork(s.phases[e.b])
  {
    if e.Drain? {
      assert Control(s, e) == SetPhase(s, e.b, Closing(s.phases[e.b].Joining?));
    } else if e.Complete? {
      assert Control(s, e) == SetPhase(s, e.b, Ended(s.phases[e.b].accepted));
    } else if e.Abort? {
      assert Control(s, e) == SetPhase(s, e.b, Failing);
    } else {
      AnnounceFrame(s, e);
    }
  }

  lemma AnnounceFrame(s: State, e: Event)
    requires Enabled(s, e) && (e.AnnounceLoss? || e.AnnounceEnd?)
    ensures Control(s, e).phases == s.phases[e.b := Control(s, e).phases[e.b]]
    ensures BurstWork(Control(s, e).phases[e.b]) < BurstWork(s.phases[e.b])
  {
  }

  lemma BurstStep(s: State, e: Event)
    requires Enabled(s, e) && BurstEvent(e)
    ensures Kept(s, Next(s, e)) && Work(Next(s, e)) < Work(s)
  {
    BurstFrame(s, e);
    BurstLess(s.phases, e.b, Control(s, e).phases[e.b]);
  }

  lemma SlotStep(s: State, e: Event)
    requires Enabled(s, e) && SlotWinds(e)
    ensures Kept(s, Next(s, e)) && Work(Next(s, e)) < Work(s)
  {
    SlotLess(s.ledger.slots, e.i, Next(s, e).ledger.slots[e.i]);
  }

  lemma DiscardStep(s: State, d: nat)
    requires Enabled(s, Discard(d))
    ensures Kept(s, Next(s, Discard(d))) && Work(Next(s, Discard(d))) < Work(s)
  {
    DownloadLess(s.ledger.downloads, d);
  }

  lemma WindStep(s: State, e: Event)
    requires Ending(s) && Enabled(s, e) && Winds(e)
    ensures Ending(Next(s, e)) && Kept(s, Next(s, e)) && Work(Next(s, e)) < Work(s)
  {
    StepInv(s, e);
    ReturnedStays(s, e);
    if BurstEvent(e) {
      BurstStep(s, e);
    } else if SlotWinds(e) {
      SlotStep(s, e);
    } else {
      DiscardStep(s, e.d);
    }
  }

  /** A burst that has not ended can take a step towards it. */
  lemma SomeBurstStep(s: State, b: nat) returns (e: Event)
    requires Ending(s) && b < |s.phases| && !s.phases[b].Ended?
    ensures Enabled(s, e) && Winds(e)
  {
    match s.phases[b]
    case LossTaken => e := AnnounceLoss(b);
    case Joining => e := Abort(b);
    case Closing(_) => e := AnnounceEnd(b);
    case Leaving(_) => e := Complete(b);
    case Failing =>
      if s.Drained(b) {
        e := Drain(b);
      } else {
        var d :| 0 <= d < |s.ledger.downloads| && s.ledger.downloads[d].batch == b
          && !s.ledger.downloads[d].stage.Out?;
        e := Discard(d);
      }
  }

  /** With every burst ended, so can a slot. */
  lemma SomeSlotStep(s: State, i: nat) returns (e: Event)
    requires Ending(s) && i < |s.ledger.slots| && !s.ledger.slots[i].Gone?
    requires forall b :: 0 <= b < |s.phases| ==> s.phases[b].Ended?
    ensures Enabled(s, e) && Winds(e)
  {
    match s.ledger.slots[i]
    case Holding(_) => e := Unstage(i);
    case Announcing => e := Announce(i);
    case Free => e := Leave(i);
  }

  /** Until all is over there is a step to take. */
  lemma SomeStep(s: State) returns (e: Event)
    requires Ending(s) && !Over(s)
    ensures Enabled(s, e) && Winds(e)
  {
    if b :| 0 <= b < |s.phases| && !s.phases[b].Ended? {
      e := SomeBurstStep(s, b);
    } else {
      assert forall d :: 0 <= d < |s.ledger.downloads| ==> s.ledger.downloads[d].stage.Out?;
      var i :| 0 <= i < |s.ledger.slots| && !s.ledger.slots[i].Gone?;
      e := SomeSlotStep(s, i);
    }
  }

  /** `more` winds everything down. */
  ghost predicate EndsBy(s: State, more: seq<Event>) {
    && AllWind(more) && Exec(s, more).Some?
    && Over(Exec(s, more).value) && Ending(Exec(s, more).value) && Kept(s, Exec(s, more).value)
  }

  lemma EndsAfter(s: State, e: Event, more: seq<Event>)
    requires Enabled(s, e) && Winds(e) && Kept(s, Next(s, e)) && EndsBy(Next(s, e), more)
    ensures EndsBy(s, [e] + more)
  {
    ExecCons(s, e, more);
  }

  /** From here everything can end without anybody's help. */
  lemma {:induction false} Ends(s: State) returns (more: seq<Event>)
    requires Ending(s)
    ensures EndsBy(s, more)
    decreases Work(s)
  {
    more := [];
    if !Over(s) {
      var e := SomeStep(s);
      WindStep(s, e);
      more := Ends(Next(s, e));
      EndsAfter(s, e, more);
      more := [e] + more;
    }
  }

  // ------------------------------------------------------------- theorems

  predicate Stops(e: Event) {
    e.Stop? || e.ClaimFails? || e.Quit?
  }

  /** An idle producer sees the stop at once. */
  lemma IdleQuits(s: State) returns (first: seq<Event>)
    requires Inv(s) && s.stopped && !s.producer.Polling?
    ensures forall k :: 0 <= k < |first| ==> Stops(first[k])
    ensures Exec(s, first).Some? && Ending(Exec(s, first).value)
    ensures Exec(s, first).value.ledger == s.ledger
  {
    if s.producer.Returned? {
      first := [];
    } else {
      first := [Quit];
      ExecOne(s, Quit);
      StepInv(s, Quit);
    }
  }

  /** A busy one sees it once its claim has failed. */
  lemma StoppedQuits(s: State) returns (first: seq<Event>)
    requires Inv(s) && s.stopped
    ensures forall k :: 0 <= k < |first| ==> Stops(first[k])
    ensures Exec(s, first).Some? && Ending(Exec(s, first).value)
    ensures Exec(s, first).value.ledger == s.ledger
  {
    if s.producer.Polling? {
      StepInv(s, ClaimFails);
      assert Next(s, ClaimFails) == s.(producer := Top);
      first := IdleQuits(s.(producer := Top));
      ExecCons(s, ClaimFails, first);
      first := [ClaimFails] + first;
    } else {
      first := IdleQuits(s);
    }
  }

  /** In every reachable state a stop can take everything with it: the producer, every
      burst, download and slot, although the server answers nothing, no download gets
      any further and no staged job is taken up. */
  lemma StopEndsEverything(target: nat, width: nat, exitIfEmpty: bool, fifo: bool, run: seq<Event>)
    returns (more: seq<Event>)
    requires Exec(Init(target, width, exitIfEmpty, fifo), run).Some?
    ensures var s := Exec(Init(target, width, exitIfEmpty, fifo), run).value;
      && (forall k :: 0 <= k < |more| ==> Stops(more[k]) || Winds(more[k]))
      && Exec(s, more).Some? && Over(Exec(s, more).value)
      && Exec(s, more).value.ledger.claimed == s.ledger.claimed
      && Exec(s, more).value.ledger.lost == s.ledger.lost
  {
    InitInv(target, width, exitIfEmpty, fifo);
    RunInv(Init(target, width, exitIfEmpty, fifo), run);
    var s := Exec(Init(target, width, exitIfEmpty, fifo), run).value;
    StepInv(s, Stop);
    var first := StoppedQuits(Next(s, Stop));
    var rest := Ends(Exec(Next(s, Stop), first).value);
    ExecConcat(Next(s, Stop), first, rest);
    ExecCons(s, Stop, first + rest);
    more := [Stop] + (first + rest);
  }

  /** Once a producer has returned by itself, everything else can end without a stop, and
      by then every job ever claimed was dispatched or lost. */
  lemma ReturnEndsEverything(target: nat, width: nat, exitIfEmpty: bool, fifo: bool,
                             run: seq<Event>, job: Job)
    returns (more: seq<Event>)
    requires Exec(Init(target, width, exitIfEmpty, fifo), run).Some?
    requires var s := Exec(Init(target, width, exitIfEmpty, fifo), run).value;
      s.producer.Returned? && !s.stopped && !s.closed
    ensures var s := Exec(Init(target, width, exitIfEmpty, fifo), run).value;
      && AllWind(more) && Exec(s, more).Some? && Over(Exec(s, more).value)
      && var l := Exec(s, more).value.ledger;
         multiset(l.claimed)[job] == multiset(l.dispatched)[job] + multiset(l.lost)[job]
  {
    InitInv(target, width, exitIfEmpty, fifo);
    RunInv(Init(target, width, exitIfEmpty, fifo), run);
    ReturnLeavesNothingStaged(target, width, exitIfEmpty, fifo, run);
    var s := Exec(Init(target, width, exitIfEmpty, fifo), run).value;
    more := Ends(s);
    AllHandedOut(Exec(s, more).value, job);
  }

  lemma AllHandedOut(s: State, job: Job)
    requires Inv(s) && Over(s) && s.ledger.channel == [] && s.ledger.window == []
    requires !s.stopped && !s.closed
    ensures multiset(s.ledger.claimed)[job]
         == multiset(s.ledger.dispatched)[job] + multiset(s.ledger.lost)[job]
  {
    var l := s.ledger;
    assert Tally(l.claimed, Some(job)) == l.Staged(Some(job)) + l.Finished(Some(job));
    PendingNone(l.downloads, Some(job));
    HeldNone(l.slots, Some(job));
    TallyMeaning(l.claimed, Some(job));
    TallyMeaning(l.dispatched, Some(job));
    TallyMeaning(l.lost, Some(job));
  }
}
