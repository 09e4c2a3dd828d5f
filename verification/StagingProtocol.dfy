/** The pipeline that keeps jobs staged ahead of the analysis slots, as a
    protocol: one producer claims bursts and spawns a staging task per burst, the
    downloads of all bursts share one gate, finished downloads go through the
    channel and the reorder window to the slots, and every slot that takes a job
    gives its depth back.

    Giving depth back and announcing it with `notify_one` are two events, so are
    a slot's receiving a job and its giving the depth back, and so are a staging
    task's last notification and its completion. */
module StagingProtocol {
  import opened Prelude
  import opened StagingLedger

  /** Progress of the staging task of one burst. */
  datatype Phase =
    | Joining                     // waiting for its next download
    | LossTaken                   // gave back a lost download's depth, not announced
    | Failing                     // dropping its remaining downloads
    | Closing(accepted: bool)     // no downloads left, about to notify
    | Leaving(accepted: bool)     // has notified, not yet completed
    | Ended(accepted: bool)

  datatype Producer =
    | Top
    | Full                        // saw no room, about to await the notification
    | Parked
    | Polling(count: nat)
    | Returned

  datatype State = State(
    target: nat,
    width: nat,                   // slots; also burst size and download permits
    exitIfEmpty: bool,
    fifo: bool,
    outstanding: nat,
    permit: bool,                 // a stored notify_one
    stopped: bool,
    closed: bool,                 // the receiving side is gone
    producer: Producer,
    gate: nat,                    // free download permits
    phases: seq<Phase>,
    ledger: Ledger)
  {
    /** Depth was given back and its `notify_one` is still to come. */
    predicate Announcing() {
      || (exists i :: 0 <= i < |ledger.slots| && ledger.slots[i].Announcing?)
      || (exists b :: 0 <= b < |phases| && phases[b].LossTaken?)
    }

    predicate SendersGone() {
      producer.Returned? && SendersGoneButProducer()
    }

    /** Every staging task has completed; only the producer still has a sender. */
    predicate SendersGoneButProducer() {
      forall b :: 0 <= b < |phases| ==> phases[b].Ended?
    }

    /** Burst `b` has no download left to account for. */
    predicate Drained(b: nat) {
      forall d :: 0 <= d < |ledger.downloads| && ledger.downloads[d].batch == b ==>
        ledger.downloads[d].stage.Out?
    }
  }

  function Init(target: nat, width: nat, exitIfEmpty: bool, fifo: bool): State {
    State(target, width, exitIfEmpty, fifo, 0, false, false, false, Top, width, [], Empty(width))
  }

  // --------------------------------------------------------------- events

  datatype Event =
      // the producer
    | ReadRoom
    | AwaitRoom
    | ClaimNothing
    | ClaimFails
    | Claim(jobs: seq<Job>)
    | Reap(b: nat)
    | Quit                  // it notices the stop
      // one download of a burst
    | Start(d: nat)
    | Land(d: nat)
    | Crash(d: nat)
    | Send(d: nat)
    | Reclaim(d: nat)
    | Discard(d: nat)
      // one burst
    | AnnounceLoss(b: nat)
    | Drain(b: nat)
    | AnnounceEnd(b: nat)
    | Complete(b: nat)
    | Abort(b: nat)         // dropped together with the producer
      // the slots
    | SweepOne
    | Receive(i: nat, at: nat)
    | Unstage(i: nat)
    | Announce(i: nat)
    | Leave(i: nat)
      // the surroundings
    | Stop
    | Close
    | CloseHead
    | CloseAt(at: nat)

  /** Where the event moves a job, if anywhere. */
  function MoveOf(s: State, e: Event): Move {
    match e
    case Claim(jobs) =>
      Accept(if s.producer.Polling? then jobs[..Min(|jobs|, s.producer.count)] else [], |s.phases|)
    case Start(d) => Advance(d, Active)
    case Land(d) => Advance(d, Landed)
    case Crash(d) => Advance(d, Crashed)
    case Send(d) => if s.closed then Drop(d) else Deliver(d)
    case Reclaim(d) => Lose(d)
    case Discard(d) => Drop(d)
    case SweepOne => Sweep
    case Receive(i, at) => if s.fifo then ReceiveHead(i) else ReceiveAt(i, at)
    case Unstage(i) => Dispatch(i)
    case Announce(i) => Turn(i, Free)
    case Leave(i) => Turn(i, Gone)
    case CloseHead => DropHead
    case CloseAt(at) => DropAt(at)
    case _ => Stay
  }

  predicate InStage(s: State, d: nat, stage: Stage, phase: Phase) {
    && d < |s.ledger.downloads| && s.ledger.downloads[d].stage == stage
    && s.ledger.downloads[d].batch < |s.phases| && s.phases[s.ledger.downloads[d].batch] == phase
  }

  /** Whatever its staging task is doing meanwhile, the download goes on until it is
      dropped. */
  predicate Underway(s: State, d: nat, stage: Stage) {
    && d < |s.ledger.downloads| && s.ledger.downloads[d].stage == stage
    && s.ledger.downloads[d].batch < |s.phases| && Waiting(s.phases[s.ledger.downloads[d].batch])
  }

  /** The staging task still has downloads to wait for or to drop. */
  predicate Waiting(phase: Phase) {
    phase.Joining? || phase.LossTaken? || phase.Failing?
  }

  predicate InPhase(s: State, b: nat, phase: Phase) {
    b < |s.phases| && s.phases[b] == phase
  }

  predicate Allowed(s: State, e: Event) {
    match e
    case ReadRoom => s.producer.Top? && !s.stopped
    case AwaitRoom => s.producer.Full?
    case ClaimNothing => s.producer.Polling?
    case ClaimFails => s.producer.Polling?
    case Claim(_) => s.producer.Polling?
    case Reap(b) => s.producer.Top? && b < |s.phases| && s.phases[b].Ended?
    case Quit => s.stopped && (s.producer.Top? || s.producer.Full? || s.producer.Parked?)
    case Start(d) => Underway(s, d, Queued) && s.gate > 0
    case Land(d) => Underway(s, d, Active)
    case Crash(d) => Underway(s, d, Active)
    case Send(d) => InStage(s, d, StagingLedger.Landed, Joining)
    case Reclaim(d) => InStage(s, d, Crashed, Joining)
    case Discard(d) =>
      && d < |s.ledger.downloads| && !s.ledger.downloads[d].stage.Out?
      && InPhase(s, s.ledger.downloads[d].batch, Failing)
    case AnnounceLoss(b) => InPhase(s, b, LossTaken)
    case Drain(b) => (InPhase(s, b, Joining) || InPhase(s, b, Failing)) && s.Drained(b)
    case AnnounceEnd(b) => b < |s.phases| && s.phases[b].Closing?
    case Complete(b) => b < |s.phases| && s.phases[b].Leaving?
    case Abort(b) => s.producer.Returned? && InPhase(s, b, Joining)
    case SweepOne => !s.fifo && !s.closed
    case Receive(_, _) => !s.closed
    case Unstage(_) => true
    case Announce(i) => i < |s.ledger.slots| && s.ledger.slots[i].Announcing?
    case Leave(i) =>
      && i < |s.ledger.slots| && s.ledger.slots[i].Free?
      && (s.stopped || (s.ledger.channel == [] && s.ledger.window == [] && s.SendersGone()))
    case Stop => true
    case Close => true
    case CloseHead => s.closed
    case CloseAt(_) => s.closed
  }

  predicate Enabled(s: State, e: Event) {
    Allowed(s, e) && Possible(s.ledger, MoveOf(s, e))
  }

  function SetPhase(s: State, b: nat, phase: Phase): State
    requires b < |s.phases|
  {
    s.(phases := s.phases[b := phase])
  }

  /** `notify_one`: wake the parked producer, or leave one permit behind. */
  function NotifyOne(s: State): State {
    if s.producer.Parked? then s.(producer := Top) else s.(permit := true)
  }

  /** What an event leaves alone, whoever's it is. */
  predicate SameSetup(s: State, r: State) {
    && r.target == s.target && r.width == s.width && r.exitIfEmpty == s.exitIfEmpty && r.fifo == s.fifo
    && r.ledger == s.ledger
  }

  predicate ProducerEvent(e: Event) {
    e.ReadRoom? || e.AwaitRoom? || e.ClaimNothing? || e.ClaimFails? || e.Claim? || e.Reap? || e.Quit?
  }

  predicate DownloadEvent(e: Event) {
    e.Start? || e.Land? || e.Crash? || e.Send? || e.Reclaim? || e.Discard?
  }

  predicate BurstEvent(e: Event) {
    e.AnnounceLoss? || e.Drain? || e.AnnounceEnd? || e.Complete? || e.Abort?
  }

  function ProducerControl(s: State, e: Event): (r: State)
    requires ProducerEvent(e) && Enabled(s, e)
    ensures SameSetup(s, r) && r.stopped == s.stopped && r.closed == s.closed
  {
    match e
    case ReadRoom =>
      var room := SatSub(s.target, s.outstanding);
      s.(producer := if room == 0 then Full else Polling(Min(room, s.width)))
    case AwaitRoom =>
      if s.permit then s.(producer := Top, permit := false) else s.(producer := Parked)
    case ClaimNothing =>
      s.(producer := if s.exitIfEmpty && s.outstanding == 0 then Returned else Top)
    case ClaimFails => s.(producer := Top)
    case Claim(jobs) =>
      s.(producer := Top, outstanding := s.outstanding + Min(|jobs|, s.producer.count),
         phases := s.phases + [Joining])
    case Reap(b) => s.(producer := if s.phases[b].accepted then Top else Returned)
    case Quit => s.(producer := Returned)
  }

  function DownloadControl(s: State, e: Event): (r: State)
    requires DownloadEvent(e) && Enabled(s, e)
    ensures SameSetup(s, r) && r.stopped == s.stopped && r.closed == s.closed
  {
    match e
    case Start(_) => s.(gate := s.gate - 1)
    case Land(_) => s.(gate := s.gate + 1)
    case Crash(_) => s.(gate := s.gate + 1)
    case Send(d) => if s.closed then SetPhase(s, s.ledger.downloads[d].batch, Failing) else s
    case Reclaim(d) =>
      SetPhase(s, s.ledger.downloads[d].batch, LossTaken)
        .(outstanding := FetchSub(s.outstanding, 1))
    case Discard(d) => s.(gate := s.gate + if s.ledger.downloads[d].stage.Active? then 1 else 0)
  }

  function BurstControl(s: State, e: Event): (r: State)
    requires BurstEvent(e) && Enabled(s, e)
    ensures SameSetup(s, r) && r.stopped == s.stopped && r.closed == s.closed
  {
    match e
    case AnnounceLoss(b) => NotifyOne(SetPhase(s, b, Joining))
    case Drain(b) => SetPhase(s, b, Closing(s.phases[b].Joining?))
    case AnnounceEnd(b) => NotifyOne(SetPhase(s, b, Leaving(s.phases[b].accepted)))
    case Complete(b) => SetPhase(s, b, Ended(s.phases[b].accepted))
    case Abort(b) => SetPhase(s, b, Failing)
  }

  /** The event's effect on everything but the whereabouts of jobs. */
  function Control(s: State, e: Event): (r: State)
    requires Enabled(s, e)
    ensures SameSetup(s, r)
    ensures r.stopped == (s.stopped || e.Stop?) && r.closed == (s.closed || e.Close?)
  {
    if ProducerEvent(e) then ProducerControl(s, e)
    else if DownloadEvent(e) then DownloadControl(s, e)
    else if BurstEvent(e) then BurstControl(s, e)
    else
      match e
      case Unstage(_) => s.(outstanding := FetchSub(s.outstanding, 1))
      case Announce(_) => NotifyOne(s)
      case Stop => s.(stopped := true)
      case Close => s.(closed := true)
      case _ => s
  }

  function Next(s: State, e: Event): State
    requires Enabled(s, e)
  {
    Control(s, e).(ledger := Apply(s.ledger, MoveOf(s, e)))
  }

  function Exec(s: State, run: seq<Event>): Option<State>
    decreases |run|
  {
    if run == [] then Some(s)
    else if Enabled(s, run[0]) then Exec(Next(s, run[0]), run[1..])
    else None
  }

  // ------------------------------------------------------------------ runs

  lemma {:induction false} ExecConcat(s: State, a: seq<Event>, b: seq<Event>)
    requires Exec(s, a).Some?
    ensures Exec(s, a + b) == Exec(Exec(s, a).value, b)
    decreases |a|
  {
    if a == [] {
      assert a + b == b;
    } else {
      assert (a + b)[1..] == a[1..] + b;
      ExecConcat(Next(s, a[0]), a[1..], b);
    }
  }

  lemma ExecOne(s: State, e: Event)
    requires Enabled(s, e)
    ensures Exec(s, [e]) == Some(Next(s, e))
  {
    assert [e][1..] == [];
    assert Exec(Next(s, e), []) == Some(Next(s, e));
  }

  lemma ExecTwo(s: State, e: Event, f: Event)
    requires Enabled(s, e) && Enabled(Next(s, e), f)
    ensures Exec(s, [e, f]) == Some(Next(Next(s, e), f))
  {
    ExecOne(Next(s, e), f);
    assert [e, f][1..] == [f];
  }

  lemma ExecCons(s: State, e: Event, run: seq<Event>)
    requires Enabled(s, e)
    ensures Exec(s, [e] + run) == Exec(Next(s, e), run)
  {
    assert ([e] + run)[1..] == run;
  }

  // ------------------------------------------------------------ invariant

  ghost predicate Accounted(s: State) {
    && s.ledger.Conserved()
    && s.outstanding == s.ledger.Depth()
    && s.gate + Actives(s.ledger.downloads) == s.width
  }

  /** Depth is reserved before it is used, and never past the target. */
  ghost predicate Bounded(s: State) {
    && s.outstanding <= s.target
    && (s.producer.Polling? ==> s.outstanding + s.producer.count <= s.target)
  }

  /** A producer asleep on free room, or about to be, has a wake-up coming. */
  ghost predicate Awake(s: State) {
    && (s.producer.Full? ==> s.outstanding >= s.target || s.Announcing() || s.permit)
    && (s.producer.Parked? ==> !s.permit && (s.outstanding >= s.target || s.Announcing()))
  }

  ghost predicate Refusing(phase: Phase) {
    phase.Failing? || ((phase.Closing? || phase.Leaving? || phase.Ended?) && !phase.accepted)
  }

  /** Jobs are abandoned only by a stop or a closed receiver; failing that, the
      producer returns only when nothing is staged. */
  ghost predicate Orderly(s: State) {
    && (s.ledger.abandoned != [] ==> s.stopped || s.closed)
    && (forall b :: 0 <= b < |s.phases| && Refusing(s.phases[b]) ==>
          s.stopped || s.closed || s.producer.Returned?)
    && (s.producer.Returned? && !s.stopped && !s.closed ==>
          s.exitIfEmpty && s.outstanding == 0 && s.target > 0)
  }

  /** Every download still pending belongs to a burst still waiting for it. */
  ghost predicate Attended(s: State) {
    forall d :: 0 <= d < |s.ledger.downloads| ==>
      var download := s.ledger.downloads[d];
      && download.batch < |s.phases|
      && (!download.stage.Out? ==> Waiting(s.phases[download.batch]))
  }

  /** Nothing is claimed that no download permit could ever serve, and whoever gives
      depth back stands for a claim of some width. */
  ghost predicate Manned(s: State) {
    && (s.producer.Polling? ==> s.producer.count <= s.width && s.target > 0)
    && (s.ledger.downloads != [] || s.ledger.claimed != [] ==> s.width > 0)
    && (forall b :: 0 <= b < |s.phases| && s.phases[b].LossTaken? ==> s.ledger.downloads != [])
    && |s.ledger.slots| == s.width
    && (s.fifo ==> s.ledger.window == [])
    && (forall i :: 0 <= i < |s.ledger.slots| && s.ledger.slots[i].Gone? ==>
          s.stopped || s.producer.Returned?)
  }

  ghost predicate Inv(s: State) {
    Accounted(s) && Bounded(s) && Awake(s) && Orderly(s) && Attended(s) && Manned(s)
  }

  lemma InitInv(target: nat, width: nat, exitIfEmpty: bool, fifo: bool)
    ensures Inv(Init(target, width, exitIfEmpty, fifo))
  {
    forall c: Interest ensures Held(Empty(width).slots, c) == 0 {
      HeldNone(Empty(width).slots, c);
    }
  }

  // ----------------------------------------------------------------- steps

  /** The counters follow the moves. */
  lemma ControlCounts(s: State, e: Event)
    requires Enabled(s, e) && s.outstanding + Change(MoveOf(s, e)) >= 0
    ensures Control(s, e).outstanding == s.outstanding + Change(MoveOf(s, e))
    ensures Control(s, e).gate == s.gate - PermitChange(s.ledger, MoveOf(s, e))
    ensures Control(s, e).target == s.target && Control(s, e).width == s.width
  {
    ControlDepth(s, e);
    ControlPermits(s, e);
  }

  lemma ControlPermits(s: State, e: Event)
    requires Enabled(s, e)
    ensures Control(s, e).gate == s.gate - PermitChange(s.ledger, MoveOf(s, e))
    ensures Control(s, e).target == s.target && Control(s, e).width == s.width
  {
    match e
    case Start(_) =>
    case Land(_) =>
    case Crash(_) =>
    case Send(_) =>
    case Reclaim(_) =>
    case Discard(_) =>
    case _ =>
  }

  lemma ControlDepth(s: State, e: Event)
    requires Enabled(s, e) && s.outstanding + Change(MoveOf(s, e)) >= 0
    ensures Control(s, e).outstanding == s.outstanding + Change(MoveOf(s, e))
  {
    match e
    case Claim(jobs) => assert |jobs[..Min(|jobs|, s.producer.count)]| == Min(|jobs|, s.producer.count);
    case Start(_) =>
    case Land(_) =>
    case Crash(_) =>
    case Send(_) =>
    case Reclaim(_) =>
    case Discard(_) =>
    case Unstage(_) =>
    case _ =>
  }

  lemma StepAccounted(s: State, e: Event)
    requires Accounted(s) && Enabled(s, e)
    ensures Accounted(Next(s, e))
    ensures Next(s, e).outstanding == s.outstanding + Change(MoveOf(s, e))
  {
    MoveConserves(s.ledger, MoveOf(s, e));
    ControlCounts(s, e);
  }

  lemma StepBounded(s: State, e: Event)
    requires Accounted(s) && Bounded(s) && Enabled(s, e)
    ensures Bounded(Next(s, e))
    ensures !e.Claim? ==> Next(s, e).outstanding <= s.outstanding
  {
    StepAccounted(s, e);
    ControlCounts(s, e);
    PollFrame(s, e);
    ClaimSize(s, e);
  }

  /** A claim takes no more than was asked for; nothing else adds to the depth. */
  lemma ClaimSize(s: State, e: Event)
    requires Enabled(s, e)
    ensures Change(MoveOf(s, e)) <= if e.Claim? then s.producer.count else 0
  {
  }

  lemma SlotStillAnnouncing(s: State, e: Event, i: nat)
    requires Enabled(s, e) && !e.Announce?
    requires i < |s.ledger.slots| && s.ledger.slots[i].Announcing?
    ensures i < |Next(s, e).ledger.slots| && Next(s, e).ledger.slots[i].Announcing?
  {
  }

  predicate PhaseEvent(e: Event) {
    e.Claim? || e.Send? || e.Reclaim? || e.AnnounceLoss? || e.Drain? || e.AnnounceEnd? || e.Complete? || e.Abort?
  }

  lemma PhasesStay(s: State, e: Event)
    requires Enabled(s, e) && !PhaseEvent(e)
    ensures Control(s, e).phases == s.phases
  {
  }

  lemma LossStillTaken(s: State, e: Event, b: nat)
    requires Enabled(s, e) && !e.AnnounceLoss?
    requires b < |s.phases| && s.phases[b].LossTaken?
    ensures b < |Next(s, e).phases| && Next(s, e).phases[b].LossTaken?
  {
    if !PhaseEvent(e) {
      PhasesStay(s, e);
    }
  }

  lemma StillAnnouncing(s: State, e: Event)
    requires Enabled(s, e) && s.Announcing() && !e.Announce? && !e.AnnounceLoss?
    ensures Next(s, e).Announcing()
  {
    if i :| 0 <= i < |s.ledger.slots| && s.ledger.slots[i].Announcing? {
      SlotStillAnnouncing(s, e, i);
    } else {
      var b :| 0 <= b < |s.phases| && s.phases[b].LossTaken?;
      LossStillTaken(s, e, b);
    }
  }

  predicate Announces(e: Event) {
    e.Announce? || e.AnnounceLoss? || e.AnnounceEnd?
  }

  /** How the producer comes to sleep: only by looking for room and finding no stored
      notification. An announcement leaves it awake, or with one stored. */
  lemma SleepFrame(s: State, e: Event)
    requires Enabled(s, e)
    ensures var r := Control(s, e);
      && (r.producer.Full? ==> s.producer.Full? || (e.ReadRoom? && s.outstanding >= s.target))
      && (r.producer.Parked? ==> s.producer.Parked? || (e.AwaitRoom? && s.producer.Full? && !s.permit))
      && (r.producer.Parked? ==> !Announces(e) && (r.permit ==> s.permit))
      && (r.producer.Full? && (s.permit || Announces(e)) ==> r.permit)
  {
    if !ProducerEvent(e) && !DownloadEvent(e) && !Announces(e) {
      assert Control(s, e).producer == s.producer && Control(s, e).permit == s.permit;
    }
  }

  /** Room that appears is about to be announced. */
  lemma RoomIsAnnounced(s: State, e: Event)
    requires Accounted(s) && Bounded(s) && Enabled(s, e) && !Announces(e)
    requires s.outstanding >= s.target || s.Announcing()
    ensures Next(s, e).outstanding >= s.target || Next(s, e).Announcing()
  {
    StepAccounted(s, e);
    if s.Announcing() {
      StillAnnouncing(s, e);
    } else if e.Unstage? {
      assert Next(s, e).ledger.slots[e.i].Announcing?;
    } else if e.Reclaim? {
      assert Next(s, e).phases[s.ledger.downloads[e.d].batch].LossTaken?;
    }
  }

  lemma StepAwake(s: State, e: Event)
    requires Inv(s) && Enabled(s, e)
    ensures Awake(Next(s, e))
  {
    SleepFrame(s, e);
    if !Announces(e) && (s.outstanding >= s.target || s.Announcing()) {
      RoomIsAnnounced(s, e);
    }
  }

  /** A burst turns away its jobs only when its receiver or its producer is gone. */
  lemma RefusalFrame(s: State, e: Event)
    requires Enabled(s, e)
    ensures forall b :: 0 <= b < |Control(s, e).phases| && Refusing(Control(s, e).phases[b]) ==>
      (b < |s.phases| && Refusing(s.phases[b])) || s.closed || s.producer.Returned?
  {
    if !PhaseEvent(e) {
      PhasesStay(s, e);
    }
  }

  /** How a producer comes to have returned. */
  lemma ReturnFrame(s: State, e: Event)
    requires Enabled(s, e) && Control(s, e).producer.Returned?
    ensures s.producer.Returned? || (e.Quit? && s.stopped)
      || (e.ClaimNothing? && s.producer.Polling? && s.exitIfEmpty && s.outstanding == 0)
      || (e.Reap? && Refusing(s.phases[e.b]))
    ensures s.producer.Returned? ==> !e.Claim?
  {
    match e
    case ReadRoom =>
    case AwaitRoom =>
    case ClaimNothing =>
    case ClaimFails =>
    case Claim(_) =>
    case Reap(_) =>
    case Quit =>
    case AnnounceLoss(_) =>
    case AnnounceEnd(_) =>
    case Announce(_) =>
    case _ => assert Control(s, e).producer == s.producer;
  }

  /** Stopping, closing and returning are for good, and the configuration stays. */
  lemma FlagsFrame(s: State, e: Event)
    requires Enabled(s, e)
    ensures s.stopped ==> Control(s, e).stopped
    ensures s.closed ==> Control(s, e).closed
    ensures s.producer.Returned? ==> Control(s, e).producer.Returned?
    ensures Control(s, e).exitIfEmpty == s.exitIfEmpty
  {
    if s.producer.Returned? {
      ReturnedStays(s, e);
    }
  }

  lemma ReturnedStays(s: State, e: Event)
    requires Enabled(s, e) && s.producer.Returned?
    ensures Control(s, e).producer.Returned?
  {
    if !(e.AnnounceLoss? || e.AnnounceEnd? || e.Announce?) {
      assert Control(s, e).producer == s.producer || e.Quit?;
    }
  }

  lemma StepReturned(s: State, e: Event)
    requires Inv(s) && Enabled(s, e)
    ensures var s' := Next(s, e);
      s'.producer.Returned? && !s'.stopped && !s'.closed ==>
        s'.exitIfEmpty && s'.outstanding == 0 && s'.target > 0
  {
    StepBounded(s, e);
    FlagsFrame(s, e);
    if Control(s, e).producer.Returned? {
      ReturnFrame(s, e);
    }
  }

  lemma StepAbandoned(s: State, e: Event)
    requires Inv(s) && Enabled(s, e)
    ensures Next(s, e).ledger.abandoned != [] ==> Next(s, e).stopped || Next(s, e).closed
  {
    if e.Discard? {
      assert Refusing(s.phases[s.ledger.downloads[e.d].batch]);
      if s.outstanding == 0 {
        NoDepthNothingStaged(s.ledger);
      }
    }
  }

  lemma StepOrderly(s: State, e: Event)
    requires Inv(s) && Enabled(s, e)
    ensures Orderly(Next(s, e))
  {
    RefusalFrame(s, e);
    StepReturned(s, e);
    StepAbandoned(s, e);
    FlagsFrame(s, e);
  }

  /** Bursts keep their place, and only a claim appends one. */
  lemma PhaseFrame(s: State, e: Event)
    requires Enabled(s, e)
    ensures |s.phases| <= |Control(s, e).phases|
    ensures e.Claim? ==>
      |Control(s, e).phases| == |s.phases| + 1 && Control(s, e).phases[|s.phases|] == Joining
    ensures forall b :: 0 <= b < |s.phases| && Waiting(s.phases[b]) ==>
      Waiting(Control(s, e).phases[b]) || (e.Drain? && e.b == b)
  {
    if !PhaseEvent(e) {
      PhasesStay(s, e);
    }
  }

  /** Downloads keep their burst, and only a claim appends some. */
  lemma DownloadFrame(s: State, e: Event)
    requires Enabled(s, e)
    ensures var old', new' := s.ledger.downloads, Next(s, e).ledger.downloads;
      && |old'| <= |new'|
      && (!e.Claim? ==> |old'| == |new'|)
      && (forall d :: 0 <= d < |old'| ==>
            new'[d].batch == old'[d].batch && (old'[d].stage.Out? ==> new'[d].stage.Out?))
      && (forall d :: |old'| <= d < |new'| ==> new'[d].batch == |s.phases|)
  {
  }

  lemma StepAttended(s: State, e: Event)
    requires Attended(s) && Enabled(s, e)
    ensures Attended(Next(s, e))
  {
    PhaseFrame(s, e);
    DownloadFrame(s, e);
    var s' := Next(s, e);
    forall d | 0 <= d < |s'.ledger.downloads| && !s'.ledger.downloads[d].stage.Out?
      ensures Waiting(s'.phases[s'.ledger.downloads[d].batch])
    {
      if d < |s.ledger.downloads| {
        assert !s.ledger.downloads[d].stage.Out?;
        if e.Drain? {
          assert s.Drained(e.b);
        }
      }
    }
  }

  /** Losses are taken by reclaiming a download, and by nothing else. */
  lemma LossFrame(s: State, e: Event)
    requires Enabled(s, e)
    ensures forall b :: 0 <= b < |Control(s, e).phases| && Control(s, e).phases[b].LossTaken? ==>
      (b < |s.phases| && s.phases[b].LossTaken?) || e.Reclaim?
  {
    if !PhaseEvent(e) {
      PhasesStay(s, e);
    }
  }

  /** Only looking for room starts a poll, of at most the width. */
  lemma PollFrame(s: State, e: Event)
    requires Enabled(s, e)
    ensures Control(s, e).width == s.width
    ensures Control(s, e).producer.Polling? ==>
      (e.ReadRoom? && Control(s, e).producer.count <= s.width && s.target > 0)
      || Control(s, e).producer == s.producer
  {
    match e
    case ReadRoom =>
    case AwaitRoom =>
    case ClaimNothing =>
    case ClaimFails =>
    case Claim(_) =>
    case Reap(_) =>
    case Quit =>
    case AnnounceLoss(_) =>
    case AnnounceEnd(_) =>
    case Announce(_) =>
    case _ => assert Control(s, e).producer == s.producer;
  }

  lemma SlotFrame(l: Ledger, m: Move)
    requires Possible(l, m)
    ensures |Apply(l, m).slots| == |l.slots|
    ensures forall i :: 0 <= i < |l.slots| && Apply(l, m).slots[i].Gone? ==>
      l.slots[i].Gone? || (m.Turn? && m.i == i && m.slot.Gone?)
    ensures l.window == [] && !m.Sweep? ==> Apply(l, m).window == []
    ensures !m.Accept? ==> Apply(l, m).claimed == l.claimed
  {
  }

  /** The first download comes with a claim, which needs some width. */
  lemma FirstDownload(s: State, e: Event)
    requires Manned(s) && Enabled(s, e)
    ensures Next(s, e).ledger.downloads != [] || Next(s, e).ledger.claimed != [] ==> s.width > 0
    ensures s.ledger.downloads != [] || e.Reclaim? ==> Next(s, e).ledger.downloads != []
  {
    DownloadFrame(s, e);
    if e.Claim? {
      var jobs := e.jobs[..Min(|e.jobs|, s.producer.count)];
      assert Next(s, e).ledger.downloads == s.ledger.downloads + Fresh(jobs, |s.phases|);
      assert Next(s, e).ledger.claimed == s.ledger.claimed + jobs;
    } else {
      SlotFrame(s.ledger, MoveOf(s, e));
    }
  }

  lemma StepManned(s: State, e: Event)
    requires Manned(s) && Enabled(s, e)
    ensures Manned(Next(s, e))
  {
    FirstDownload(s, e);
    LossFrame(s, e);
    PollFrame(s, e);
    SlotFrame(s.ledger, MoveOf(s, e));
    FlagsFrame(s, e);
    assert MoveOf(s, e).Turn? && MoveOf(s, e).slot.Gone? ==> e.Leave?;
    assert MoveOf(s, e).Sweep? ==> !s.fifo;
  }

  lemma StepInv(s: State, e: Event)
    requires Inv(s) && Enabled(s, e)
    ensures Inv(Next(s, e))
    ensures Next(s, e).target == s.target && Next(s, e).width == s.width
  {
    StepAccounted(s, e);
    StepBounded(s, e);
    StepAwake(s, e);
    StepOrderly(s, e);
    StepAttended(s, e);
    StepManned(s, e);
    ControlCounts(s, e);
  }

  /** Every interleaving keeps the invariant. */
  lemma {:induction false} RunInv(s: State, run: seq<Event>)
    requires Inv(s) && Exec(s, run).Some?
    ensures Inv(Exec(s, run).value)
    ensures Exec(s, run).value.target == s.target && Exec(s, run).value.width == s.width
    decreases |run|
  {
    if run != [] {
      StepInv(s, run[0]);
      RunInv(Next(s, run[0]), run[1..]);
    }
  }

  // ------------------------------------------------------------- theorems

  /** In every reachable state each job is in one place for every time it was
      claimed; the depth in use is what is staged, plus what a stop or a closed
      receiver left behind, and stays within the target; and the downloads of all
      bursts together stay within the gate. */
  lemma ExactlyOnce(target: nat, width: nat, exitIfEmpty: bool, fifo: bool, run: seq<Event>, job: Job)
    requires Exec(Init(target, width, exitIfEmpty, fifo), run).Some?
    ensures var s := Exec(Init(target, width, exitIfEmpty, fifo), run).value;
      var l := s.ledger;
      && multiset(l.claimed)[job] == l.Staged(Some(job)) + multiset(l.dispatched)[job]
           + multiset(l.lost)[job] + multiset(l.abandoned)[job]
      && s.outstanding == l.Staged(None) + |l.abandoned| <= target
      && (!s.stopped && !s.closed ==> l.abandoned == [])
      && Actives(l.downloads) <= width
  {
    InitInv(target, width, exitIfEmpty, fifo);
    RunInv(Init(target, width, exitIfEmpty, fifo), run);
    var l := Exec(Init(target, width, exitIfEmpty, fifo), run).value.ledger;
    assert Tally(l.claimed, Some(job)) == l.Staged(Some(job)) + l.Finished(Some(job));
    TallyMeaning(l.claimed, Some(job));
    TallyMeaning(l.dispatched, Some(job));
    TallyMeaning(l.lost, Some(job));
    TallyMeaning(l.abandoned, Some(job));
    TallyMeaning(l.abandoned, None);
  }

  /** A producer parked although there is room is about to be woken: the event
      that does it is already enabled. */
  lemma NeverSleepsOnRoom(target: nat, width: nat, exitIfEmpty: bool, fifo: bool, run: seq<Event>)
    returns (wake: Event)
    requires Exec(Init(target, width, exitIfEmpty, fifo), run).Some?
    requires var s := Exec(Init(target, width, exitIfEmpty, fifo), run).value;
      s.producer.Parked? && s.outstanding < target
    ensures var s := Exec(Init(target, width, exitIfEmpty, fifo), run).value;
      && (wake.Announce? || wake.AnnounceLoss?)
      && Enabled(s, wake) && Next(s, wake).producer.Top?
  {
    InitInv(target, width, exitIfEmpty, fifo);
    RunInv(Init(target, width, exitIfEmpty, fifo), run);
    var s := Exec(Init(target, width, exitIfEmpty, fifo), run).value;
    if i :| 0 <= i < |s.ledger.slots| && s.ledger.slots[i].Announcing? {
      wake := Announce(i);
    } else {
      var b :| 0 <= b < |s.phases| && s.phases[b].LossTaken?;
      wake := AnnounceLoss(b);
    }
  }

  /** A producer that returns by itself was told to exit when empty, and leaves
      nothing downloading, queued, windowed or undelivered. */
  lemma ReturnLeavesNothingStaged(target: nat, width: nat, exitIfEmpty: bool, fifo: bool,
                                  run: seq<Event>)
    requires Exec(Init(target, width, exitIfEmpty, fifo), run).Some?
    requires var s := Exec(Init(target, width, exitIfEmpty, fifo), run).value;
      s.producer.Returned? && !s.stopped && !s.closed
    ensures exitIfEmpty
    ensures var l := Exec(Init(target, width, exitIfEmpty, fifo), run).value.ledger;
      && l.channel == [] && l.window == [] && l.abandoned == []
      && (forall d :: 0 <= d < |l.downloads| ==> l.downloads[d].stage.Out?)
      && (forall i :: 0 <= i < |l.slots| ==> !l.slots[i].Holding?)
  {
    InitInv(target, width, exitIfEmpty, fifo);
    RunInv(Init(target, width, exitIfEmpty, fifo), run);
    RunKeepsConfig(Init(target, width, exitIfEmpty, fifo), run);
    NoDepthNothingStaged(Exec(Init(target, width, exitIfEmpty, fifo), run).value.ledger);
  }

  lemma {:induction false} RunKeepsConfig(s: State, run: seq<Event>)
    requires Exec(s, run).Some?
    ensures Exec(s, run).value.exitIfEmpty == s.exitIfEmpty
    decreases |run|
  {
    if run != [] {
      RunKeepsConfig(Next(s, run[0]), run[1..]);
    }
  }

  /** A slot is told that no more work is coming only when every claimed job has
      reached a slot, was lost, or was abandoned. */
  lemma LeaveMeansDone(target: nat, width: nat, exitIfEmpty: bool, fifo: bool, run: seq<Event>,
                       i: nat, job: Job)
    requires Exec(Init(target, width, exitIfEmpty, fifo), run).Some?
    requires var s := Exec(Init(target, width, exitIfEmpty, fifo), run).value;
      Enabled(s, Leave(i)) && !s.stopped
    ensures var l := Exec(Init(target, width, exitIfEmpty, fifo), run).value.ledger;
      multiset(l.claimed)[job] == Held(l.slots, Some(job)) + multiset(l.dispatched)[job]
        + multiset(l.lost)[job] + multiset(l.abandoned)[job]
  {
    ExactlyOnce(target, width, exitIfEmpty, fifo, run, job);
    InitInv(target, width, exitIfEmpty, fifo);
    RunInv(Init(target, width, exitIfEmpty, fifo), run);
    NothingComing(Exec(Init(target, width, exitIfEmpty, fifo), run).value, i, job);
  }

  lemma NothingComing(s: State, i: nat, job: Job)
    requires Attended(s) && Allowed(s, Leave(i)) && !s.stopped
    ensures s.ledger.Staged(Some(job)) == Held(s.ledger.slots, Some(job))
  {
    PendingNone(s.ledger.downloads, Some(job));
  }

  lemma {:induction false} PendingNone(downloads: seq<Download>, c: Interest)
    requires forall d :: 0 <= d < |downloads| ==> downloads[d].stage.Out?
    ensures Pending(downloads, c) == 0
  {
    if downloads != [] {
      PendingNone(downloads[1..], c);
    }
  }
}
