/** Whatever the server hands out can be served: claimed as it is, downloaded and
    dispatched, after everything staged before it. */
module BurstService {
  import opened Prelude
  import opened StagingLedger
  import opened StagingProtocol
  import opened EmptyExit

  // ---------------------------------------------------------------- drains

  /** No download has crashed without having been taken out. */
  predicate NoneCrashed(l: Ledger) {
    forall d :: 0 <= d < |l.downloads| ==> !l.downloads[d].stage.Crashed?
  }

  /** Draining claims nothing, undoes no dispatch and lets nothing crash. */
  lemma DrainFrame(s: State, e: Event)
    requires Enabled(s, e) && Drains(e)
    ensures var l, l' := s.ledger, Next(s, e).ledger;
      && l'.claimed == l.claimed && l.dispatched <= l'.dispatched
      && (NoneCrashed(l) ==> NoneCrashed(l') && l'.lost == l.lost)
  {
  }

  /** Everything staged can be finished, losing nothing that has not crashed yet. */
  lemma {:induction false} DrainAll(s: State) returns (run: seq<Event>)
    requires Inv(s) && AtWork(s)
    ensures Undisturbed(run) && Exec(s, run).Some?
    ensures var f := Exec(s, run).value;
      && Inv(f) && AtWork(f) && Left(f) == 0 && f.target == s.target && f.width == s.width
      && f.ledger.claimed == s.ledger.claimed && s.ledger.dispatched <= f.ledger.dispatched
      && (NoneCrashed(s.ledger) ==> f.ledger.lost == s.ledger.lost)
    decreases Left(s)
  {
    run := [];
    if Left(s) > 0 {
      var e := SomeDrain(s);
      StepInv(s, e);
      DrainStep(s, e);
      DrainFrame(s, e);
      run := DrainAll(Next(s, e));
      ExecCons(s, e, run);
      UndisturbedCons(e, run);
      run := [e] + run;
    }
  }

  // ----------------------------------------------------------------- claims

  /** Nothing is left, and the producer is about to look for room. */
  ghost predicate Idle(s: State) {
    Inv(s) && AtWork(s) && Left(s) == 0 && s.producer.Top?
  }

  /** An idle producer can always come round to looking for room. */
  lemma ComesRound(s: State) returns (run: seq<Event>)
    requires Inv(s) && AtWork(s) && Left(s) == 0 && s.target > 0
    ensures Undisturbed(run) && Exec(s, run).Some?
    ensures var f := Exec(s, run).value;
      Idle(f) && f.ledger == s.ledger && f.target == s.target && f.width == s.width
  {
    NothingLeft(s);
    if s.producer.Top? {
      run := [];
    } else {
      var e := if s.producer.Polling? then ClaimFails else AwaitRoom;
      run := [e];
      StepInv(s, e);
      ExecOne(s, e);
      assert Next(s, e).ledger == s.ledger && Next(s, e).phases == s.phases;
    }
  }

  /** A producer that looks for room asks for as much as the target depth leaves and
      the slots allow; of what the server then hands out it takes that many from the
      front, each to be downloaded once, and goes on. */
  lemma ClaimTakesWhatFits(s: State, jobs: seq<Job>)
    requires s.producer.Top? && !s.stopped && s.outstanding < s.target
    ensures Exec(s, [ReadRoom, Claim(jobs)]).Some?
    ensures var f := Exec(s, [ReadRoom, Claim(jobs)]).value;
      var n := Min(|jobs|, Min(s.target - s.outstanding, s.width));
      && f.producer.Top? && f.outstanding == s.outstanding + n
      && f.ledger == s.ledger.(
           claimed := s.ledger.claimed + jobs[..n],
           downloads := s.ledger.downloads
             + seq(n, k requires 0 <= k < n => Download(jobs[k], |s.phases|, Queued)))
  {
    var room := Min(s.target - s.outstanding, s.width);
    assert Next(s, ReadRoom) == s.(producer := Polling(room));
    ExecTwo(s, ReadRoom, Claim(jobs));
    var n := Min(|jobs|, room);
    assert Fresh(jobs[..n], |s.phases|)
        == seq(n, k requires 0 <= k < n => Download(jobs[k], |s.phases|, Queued));
  }

  /** A burst that fits is taken whole, in order. */
  lemma ClaimsWhole(s: State, jobs: seq<Job>)
    requires Idle(s) && 0 < |jobs| <= s.target && |jobs| <= s.width
    ensures Exec(s, [ReadRoom, Claim(jobs)]).Some?
    ensures var f := Exec(s, [ReadRoom, Claim(jobs)]).value;
      && Inv(f) && AtWork(f) && f.target == s.target && f.width == s.width
      && f.ledger.claimed == s.ledger.claimed + jobs && f.ledger.lost == s.ledger.lost
      && f.ledger.dispatched == s.ledger.dispatched && NoneCrashed(f.ledger)
  {
    NothingLeft(s);
    NoDepthNothingStaged(s.ledger);
    ClaimTakesWhatFits(s, jobs);
    RunInv(s, [ReadRoom, Claim(jobs)]);
    StaysUndisturbed(s, [ReadRoom, Claim(jobs)]);
    assert jobs[..|jobs|] == jobs;
  }

  // --------------------------------------------------------------- theorem

  /** With nothing left, every claimed job was dispatched or lost. */
  lemma NothingMissing(s: State, job: Job)
    requires Inv(s) && AtWork(s) && Left(s) == 0
    ensures multiset(s.ledger.claimed)[job]
         == multiset(s.ledger.dispatched)[job] + multiset(s.ledger.lost)[job]
  {
    NothingLeft(s);
    var l := s.ledger;
    NoDepthNothingStaged(l);
    assert Tally(l.claimed, Some(job)) == l.Staged(Some(job)) + l.Finished(Some(job));
    PendingNone(l.downloads, Some(job));
    HeldNone(l.slots, Some(job));
    TallyMeaning(l.claimed, Some(job));
    TallyMeaning(l.dispatched, Some(job));
    TallyMeaning(l.lost, Some(job));
  }

  lemma DispatchedGrows(a: seq<Job>, b: seq<Job>, job: Job)
    requires a <= b
    ensures multiset(a)[job] <= multiset(b)[job]
  {
    assert b == a + b[|a|..];
  }

  /** Between two moments with nothing left, what was claimed was dispatched. */
  lemma Served(s: State, f: State, jobs: seq<Job>, job: Job)
    requires Inv(s) && AtWork(s) && Left(s) == 0 && Inv(f) && AtWork(f) && Left(f) == 0
    requires f.ledger.claimed == s.ledger.claimed + jobs && f.ledger.lost == s.ledger.lost
    ensures multiset(f.ledger.dispatched)[job] == multiset(s.ledger.dispatched)[job] + multiset(jobs)[job]
  {
    NothingMissing(s, job);
    NothingMissing(f, job);
  }

  /** Undisturbed runs follow one another. */
  lemma Follow(s: State, a: seq<Event>, b: seq<Event>)
    requires Undisturbed(a) && Exec(s, a).Some?
    requires Undisturbed(b) && Exec(Exec(s, a).value, b).Some?
    ensures Undisturbed(a + b) && Exec(s, a + b) == Exec(Exec(s, a).value, b)
  {
    ExecConcat(s, a, b);
  }

  /** With nothing left, a burst is claimed and then drained. */
  lemma ServeFirst(s: State, jobs: seq<Job>, job: Job) returns (more: seq<Event>)
    requires Idle(s) && 0 < |jobs| <= s.target && |jobs| <= s.width
    ensures Undisturbed(more) && Exec(s, more).Some?
    ensures var f := Exec(s, more).value;
      && f.outstanding == 0 && f.ledger.claimed == s.ledger.claimed + jobs
      && multiset(f.ledger.dispatched)[job] == multiset(s.ledger.dispatched)[job] + multiset(jobs)[job]
  {
    ClaimsWhole(s, jobs);
    var claimed := Exec(s, [ReadRoom, Claim(jobs)]).value;
    more := DrainAll(claimed);
    var f := Exec(claimed, more).value;
    NothingLeft(f);
    Served(s, f, jobs, job);
    Follow(s, [ReadRoom, Claim(jobs)], more);
    more := [ReadRoom, Claim(jobs)] + more;
  }

  /** What is staged is finished first. */
  lemma ServeBurst(s: State, jobs: seq<Job>, job: Job) returns (more: seq<Event>)
    requires Inv(s) && AtWork(s) && 0 < |jobs| <= s.target && |jobs| <= s.width
    ensures Undisturbed(more) && Exec(s, more).Some?
    ensures var f := Exec(s, more).value;
      && f.outstanding == 0 && f.ledger.claimed == s.ledger.claimed + jobs
      && multiset(f.ledger.dispatched)[job] >= multiset(s.ledger.dispatched)[job] + multiset(jobs)[job]
  {
    var drain := DrainAll(s);
    var s1 := Exec(s, drain).value;
    var round := ComesRound(s1);
    more := ServeFirst(Exec(s1, round).value, jobs, job);
    DispatchedGrows(s.ledger.dispatched, s1.ledger.dispatched, job);
    Follow(s1, round, more);
    Follow(s, drain, round + more);
    more := drain + (round + more);
  }

  /** From every reachable state at work, any burst within the target depth and the
      number of slots can be claimed whole and dispatched to its last job, with
      nothing staged left behind. */
  lemma AnyBurstCanBeServed(target: nat, width: nat, exitIfEmpty: bool, fifo: bool,
                            run: seq<Event>, jobs: seq<Job>, job: Job)
    returns (more: seq<Event>)
    requires Exec(Init(target, width, exitIfEmpty, fifo), run).Some?
    requires AtWork(Exec(Init(target, width, exitIfEmpty, fifo), run).value)
    requires 0 < |jobs| <= target && |jobs| <= width
    ensures var s := Exec(Init(target, width, exitIfEmpty, fifo), run).value;
      && Undisturbed(more) && Exec(s, more).Some?
      && var f := Exec(s, more).value;
         && f.outstanding == 0 && f.ledger.claimed == s.ledger.claimed + jobs
         && multiset(f.ledger.dispatched)[job]
              >= multiset(s.ledger.dispatched)[job] + multiset(jobs)[job]
  {
    InitInv(target, width, exitIfEmpty, fifo);
    RunInv(Init(target, width, exitIfEmpty, fifo), run);
    more := ServeBurst(Exec(Init(target, width, exitIfEmpty, fifo), run).value, jobs, job);
  }

  // ----------------------------------------------------------------- sleep

  lemma {:induction false} ExecLast(s: State, run: seq<Event>, e: Event)
    requires Exec(s, run + [e]).Some?
    ensures Exec(s, run).Some? && Enabled(Exec(s, run).value, e)
    ensures Exec(s, run + [e]) == Some(Next(Exec(s, run).value, e))
    decreases |run|
  {
    if run == [] {
      assert run + [e] == [e];
      ExecOne(s, e);
    } else {
      assert (run + [e])[1..] == run[1..] + [e];
      ExecLast(Next(s, run[0]), run[1..], e);
    }
  }

  /** Whether the producer sleeps: it awaited a notification, none was in store, and
      since then nobody sent one and no stop got it to quit. */
  function Asleep(run: seq<Event>): bool
    decreases |run|
  {
    if run == [] then false
    else
      var before := run[..|run| - 1];
      match run[|run| - 1]
      case AwaitRoom => !Stored(before)
      case Announce(_) => false
      case AnnounceLoss(_) => false
      case AnnounceEnd(_) => false
      case Quit => false
      case _ => Asleep(before)
  }

  /** Whether a notification is in store: however many were sent to a producer awake
      since it last awaited one, they count as one. */
  function Stored(run: seq<Event>): bool
    decreases |run|
  {
    if run == [] then false
    else
      var before := run[..|run| - 1];
      match run[|run| - 1]
      case AwaitRoom => false
      case Announce(_) => Stored(before) || !Asleep(before)
      case AnnounceLoss(_) => Stored(before) || !Asleep(before)
      case AnnounceEnd(_) => Stored(before) || !Asleep(before)
      case _ => Stored(before)
  }

  /** What one more event adds to the history. */
  lemma SleepHistory(before: seq<Event>, e: Event)
    ensures Asleep(before + [e]) ==
      if e.AwaitRoom? then !Stored(before) else !Announces(e) && !e.Quit? && Asleep(before)
    ensures Stored(before + [e]) ==
      if e.AwaitRoom? then false else Stored(before) || (Announces(e) && !Asleep(before))
  {
    assert (before + [e])[..|before|] == before;
  }

  /** In every reachable state the producer sleeps, and a notification is in store, as
      the notifications sent so far say. */
  lemma {:induction false} SleepsUnlessNotified(target: nat, width: nat, exitIfEmpty: bool, fifo: bool,
                                                run: seq<Event>)
    requires Exec(Init(target, width, exitIfEmpty, fifo), run).Some?
    ensures var s := Exec(Init(target, width, exitIfEmpty, fifo), run).value;
      s.producer.Parked? == Asleep(run) && s.permit == Stored(run)
    decreases |run|
  {
    if run != [] {
      var before, e := run[..|run| - 1], run[|run| - 1];
      assert run == before + [e];
      ExecLast(Init(target, width, exitIfEmpty, fifo), before, e);
      SleepsUnlessNotified(target, width, exitIfEmpty, fifo, before);
      SleepStep(Exec(Init(target, width, exitIfEmpty, fifo), before).value, e);
      SleepHistory(before, e);
    }
  }

  lemma SleepStep(s: State, e: Event)
    requires Enabled(s, e)
    ensures var r := Control(s, e);
      && r.producer.Parked? ==
           (if e.AwaitRoom? then !s.permit else !Announces(e) && !e.Quit? && s.producer.Parked?)
      && r.permit ==
           (if e.AwaitRoom? then false else s.permit || (Announces(e) && !s.producer.Parked?))
  {
    if !ProducerEvent(e) && !DownloadEvent(e) && !Announces(e) {
      assert Control(s, e).producer == s.producer && Control(s, e).permit == s.permit;
    }
  }
}
