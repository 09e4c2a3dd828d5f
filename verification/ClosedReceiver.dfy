/** A receiver that closes while the producer sleeps: when the producer can be woken,
    when it can come to notice, and a run after which it never does. */
module ClosedReceiver {
  import opened Prelude
  import opened StagingLedger
  import opened StagingProtocol

  /** This staging task has sent its last notification. */
  predicate Spent(phase: Phase) {
    phase.Leaving? || phase.Ended?
  }

  /** This slot has depth to give back or to announce. */
  predicate Busy(slot: Slot) {
    slot.Holding? || slot.Announcing?
  }

  /** Somebody still has a notification to send. */
  predicate Rousable(s: State) {
    || (exists b :: 0 <= b < |s.phases| && !Spent(s.phases[b]))
    || (exists i :: 0 <= i < |s.ledger.slots| && Busy(s.ledger.slots[i]))
  }

  /** The receiver is gone, nobody has a notification left to send, and the
      producer sleeps. */
  ghost predicate Stranded(s: State) {
    && Deserted(s)
    && (forall b :: 0 <= b < |s.phases| ==> Spent(s.phases[b]))
    && (forall i :: 0 <= i < |s.ledger.slots| ==> !Busy(s.ledger.slots[i]))
  }

  /** The producer sleeps although the receiver is gone. */
  predicate Deserted(s: State) {
    s.producer.Parked? && s.closed && !s.stopped
  }

  lemma StrandedStep(s: State, e: Event)
    requires Stranded(s) && Enabled(s, e) && !e.Stop?
    ensures Stranded(Next(s, e))
  {
  }

  lemma {:induction false} StrandedForGood(s: State, run: seq<Event>)
    requires Stranded(s) && Exec(s, run).Some? && Stop !in run
    ensures Stranded(Exec(s, run).value)
    decreases |run|
  {
    if run != [] {
      StrandedStep(s, run[0]);
      StrandedForGood(Next(s, run[0]), run[1..]);
    }
  }

  function Toil(stage: Stage): nat {
    match stage
    case Queued => 3
    case Active => 2
    case Landed => 1
    case Crashed => 1
    case Out => 0
  }

  function Toils(s: State): seq<nat> {
    seq(|s.ledger.downloads|, d requires 0 <= d < |s.ledger.downloads| => Toil(s.ledger.downloads[d].stage))
  }

  predicate Moves(e: Event) {
    e.Start? || e.Land? || e.Send? || e.Reclaim? || e.Discard?
  }

  /** A download that moves on brings the end of its burst closer, spends no
      notification and leaves the producer alone. */
  lemma MoveToward(s: State, e: Event)
    requires s.closed && Enabled(s, e) && Moves(e)
    ensures var s' := Next(s, e);
      && s'.closed && s'.stopped == s.stopped && s'.producer == s.producer
      && |s'.phases| == |s.phases| && |s'.ledger.downloads| == |s.ledger.downloads|
    ensures forall b :: 0 <= b < |s.phases| && !Spent(s.phases[b]) ==> !Spent(Next(s, e).phases[b])
    ensures Sum(Toils(Next(s, e))) < Sum(Toils(s))
  {
    MoveFrame(s, e);
    var s' := Next(s, e);
    assert Toils(s') == Toils(s)[e.d := Toil(s'.ledger.downloads[e.d].stage)];
    SumUpdate(Toils(s), e.d, Toil(s'.ledger.downloads[e.d].stage));
  }

  lemma MoveFrame(s: State, e: Event)
    requires s.closed && Enabled(s, e) && Moves(e)
    ensures var s' := Next(s, e);
      && s'.closed && s'.stopped == s.stopped && s'.producer == s.producer
      && |s'.phases| == |s.phases|
      && (forall b :: 0 <= b < |s.phases| && !Spent(s.phases[b]) ==> !Spent(s'.phases[b]))
      && s'.ledger.downloads == s.ledger.downloads[e.d := s'.ledger.downloads[e.d]]
      && Toil(s'.ledger.downloads[e.d].stage) < Toil(s.ledger.downloads[e.d].stage)
  {
    MoveToil(s, e);
  }

  lemma MoveToil(s: State, e: Event)
    requires s.closed && Enabled(s, e) && Moves(e)
    ensures e.d < |s.ledger.downloads|
    ensures var downloads := Apply(s.ledger, MoveOf(s, e)).downloads;
      && downloads == s.ledger.downloads[e.d := downloads[e.d]]
      && Toil(downloads[e.d].stage) < Toil(s.ledger.downloads[e.d].stage)
  {
  }

  /** A burst with a download left is never stuck: the permits are with downloads
      that can go on. */
  lemma SomeMove(s: State, b: nat) returns (e: Event)
    requires Inv(s) && Deserted(s) && b < |s.phases| && !s.Drained(b)
    requires s.phases[b].Joining? || s.phases[b].Failing?
    ensures Moves(e) && Enabled(s, e)
  {
    var d :| 0 <= d < |s.ledger.downloads| && s.ledger.downloads[d].batch == b
      && !s.ledger.downloads[d].stage.Out?;
    if s.phases[b].Failing? {
      e := Discard(d);
    } else {
      match s.ledger.downloads[d].stage
      case Landed => e := Send(d);
      case Crashed => e := Reclaim(d);
      case Active => e := Land(d);
      case Queued =>
        if s.gate > 0 {
          e := Start(d);
        } else {
          var d' := FindActive(s.ledger.downloads);
          e := Land(d');
        }
    }
  }

  /** A burst that has not sent its last notification comes to send one. */
  lemma {:induction false} BurstRouses(s: State, b: nat) returns (run: seq<Event>)
    requires Inv(s) && Deserted(s) && b < |s.phases| && !Spent(s.phases[b])
    ensures Stop !in run && Exec(s, run).Some? && Exec(s, run).value.producer.Top?
    decreases Sum(Toils(s))
  {
    if s.phases[b].Closing? {
      run := [AnnounceEnd(b)];
      ExecOne(s, AnnounceEnd(b));
    } else if s.phases[b].LossTaken? {
      run := [AnnounceLoss(b)];
      ExecOne(s, AnnounceLoss(b));
    } else if s.Drained(b) {
      run := [Drain(b), AnnounceEnd(b)];
      ExecTwo(s, Drain(b), AnnounceEnd(b));
    } else {
      var e := SomeMove(s, b);
      StepInv(s, e);
      MoveToward(s, e);
      run := BurstRouses(Next(s, e), b);
      ExecCons(s, e, run);
      run := [e] + run;
    }
  }

  /** A slot that took a job gives its depth back and says so. */
  lemma SlotRouses(s: State, i: nat) returns (run: seq<Event>)
    requires Deserted(s) && i < |s.ledger.slots| && Busy(s.ledger.slots[i])
    ensures Stop !in run && Exec(s, run).Some? && Exec(s, run).value.producer.Top?
  {
    if s.ledger.slots[i].Announcing? {
      run := [Announce(i)];
      ExecOne(s, Announce(i));
    } else {
      run := [Unstage(i), Announce(i)];
      ExecTwo(s, Unstage(i), Announce(i));
    }
  }

  /** A sleeping producer whose receiver is gone can be woken, short of a stop, just
      when some staging task or some slot still has a notification to send. */
  lemma WokenIffRousable(target: nat, width: nat, exitIfEmpty: bool, fifo: bool, run: seq<Event>)
    requires Exec(Init(target, width, exitIfEmpty, fifo), run).Some?
    requires Deserted(Exec(Init(target, width, exitIfEmpty, fifo), run).value)
    ensures var s := Exec(Init(target, width, exitIfEmpty, fifo), run).value;
      (exists more: seq<Event> ::
         Stop !in more && Exec(s, more).Some? && !Exec(s, more).value.producer.Parked?)
      <==> Rousable(s)
  {
    InitInv(target, width, exitIfEmpty, fifo);
    RunInv(Init(target, width, exitIfEmpty, fifo), run);
    var s := Exec(Init(target, width, exitIfEmpty, fifo), run).value;
    if b :| 0 <= b < |s.phases| && !Spent(s.phases[b]) {
      var more := BurstRouses(s, b);
    } else if i :| 0 <= i < |s.ledger.slots| && Busy(s.ledger.slots[i]) {
      var more := SlotRouses(s, i);
    } else {
      assert Stranded(s);
      forall more: seq<Event> | Stop !in more && Exec(s, more).Some?
        ensures Exec(s, more).value.producer.Parked?
      {
        StrandedForGood(s, more);
      }
    }
  }

  // ------------------------------------------- noticing the closed receiver

  /** Without a stop, `run` ends with the producer returned. */
  ghost predicate Notices(s: State, run: seq<Event>) {
    Stop !in run && Exec(s, run).Some? && Exec(s, run).value.producer.Returned?
  }

  lemma NoticesAfter(s: State, e: Event, run: seq<Event>)
    requires Enabled(s, e) && !e.Stop? && Notices(Next(s, e), run)
    ensures Notices(s, [e] + run)
  {
    ExecCons(s, e, run);
  }

  /** The producer is awake at the top of its loop, or asleep beside a closed
      receiver. */
  predicate Unaware(s: State) {
    (s.producer.Parked? || s.producer.Top?) && s.closed && !s.stopped
  }

  function PhaseRank(phase: Phase): nat {
    match phase
    case Closing(_) => 3
    case Leaving(_) => 2
    case Ended(_) => 1
    case _ => 4
  }

  /** What a refused burst with nothing left to drop does next. */
  function RefusalStep(s: State, b: nat): Event
    requires b < |s.phases| && Refusing(s.phases[b])
  {
    match s.phases[b]
    case Failing => Drain(b)
    case Closing(_) => AnnounceEnd(b)
    case Leaving(_) => Complete(b)
    case _ => Reap(b)
  }

  lemma RefusalProceeds(s: State, b: nat)
    requires Unaware(s) && b < |s.phases| && Refusing(s.phases[b]) && !s.phases[b].Ended?
    requires s.phases[b].Failing? ==> s.Drained(b)
    requires s.producer.Parked? ==> !Spent(s.phases[b])
    ensures Enabled(s, RefusalStep(s, b))
    ensures var s' := Next(s, RefusalStep(s, b));
      && Unaware(s') && b < |s'.phases| && Refusing(s'.phases[b])
      && (s'.producer.Parked? ==> !Spent(s'.phases[b]))
      && PhaseRank(s'.phases[b]) < PhaseRank(s.phases[b])
      && Toils(s') == Toils(s)
  {
  }

  lemma DiscardKeepsRefusal(s: State, b: nat, d: nat)
    requires Unaware(s) && b < |s.phases| && s.phases[b].Failing?
    requires d < |s.ledger.downloads| && s.ledger.downloads[d].batch == b
    requires !s.ledger.downloads[d].stage.Out?
    ensures Enabled(s, Discard(d)) && Next(s, Discard(d)).phases == s.phases
  {
  }

  /** A refused burst that sleep cannot swallow: it will still notify a sleeper. */
  ghost predicate Reapable(s: State, b: nat) {
    Unaware(s) && b < |s.phases| && Refusing(s.phases[b]) && (s.producer.Parked? ==> !Spent(s.phases[b]))
  }

  lemma RefusalMove(s: State, b: nat) returns (e: Event)
    requires Inv(s) && Reapable(s, b) && !s.phases[b].Ended?
    ensures Enabled(s, e) && !e.Stop? && Reapable(Next(s, e), b)
    ensures Sum(Toils(Next(s, e))) < Sum(Toils(s))
      || (Toils(Next(s, e)) == Toils(s) && PhaseRank(Next(s, e).phases[b]) < PhaseRank(s.phases[b]))
  {
    if s.phases[b].Failing? && !s.Drained(b) {
      var d :| 0 <= d < |s.ledger.downloads| && s.ledger.downloads[d].batch == b
        && !s.ledger.downloads[d].stage.Out?;
      e := Discard(d);
      DiscardKeepsRefusal(s, b, d);
      MoveToward(s, e);
    } else {
      e := RefusalStep(s, b);
      RefusalProceeds(s, b);
    }
  }

  /** Such a burst is reaped in the end. */
  lemma {:induction false} RefusalIsReaped(s: State, b: nat) returns (run: seq<Event>)
    requires Inv(s) && Reapable(s, b)
    ensures Notices(s, run)
    decreases Sum(Toils(s)), PhaseRank(s.phases[b])
  {
    if s.phases[b].Ended? {
      run := [Reap(b)];
      ExecOne(s, Reap(b));
    } else {
      var e := RefusalMove(s, b);
      StepInv(s, e);
      run := RefusalIsReaped(Next(s, e), b);
      NoticesAfter(s, e, run);
      run := [e] + run;
    }
  }

  /** On its way to the channel and not lost, in a burst that waits for it. */
  predicate OnItsWay(s: State, d: nat) {
    && d < |s.ledger.downloads| && s.ledger.downloads[d].batch < |s.phases|
    && s.phases[s.ledger.downloads[d].batch].Joining?
    && !s.ledger.downloads[d].stage.Out? && !s.ledger.downloads[d].stage.Crashed?
  }

  /** It, or the one whose permit it waits for, can be moved on. */
  lemma PushOn(s: State, d: nat) returns (e: Event)
    requires Inv(s) && OnItsWay(s, d) && !s.ledger.downloads[d].stage.Landed?
    ensures Moves(e) && Enabled(s, e) && (e.Start? || e.Land?)
    ensures OnItsWay(Next(s, e), d)
  {
    if s.ledger.downloads[d].stage.Active? {
      e := Land(d);
    } else if s.gate > 0 {
      e := Start(d);
    } else {
      var other := FindActive(s.ledger.downloads);
      e := Land(other);
    }
  }

  /** A download whose burst waits for it is refused by the closed receiver. */
  lemma {:induction false} DownloadIsRefused(s: State, d: nat) returns (run: seq<Event>)
    requires Inv(s) && Unaware(s) && OnItsWay(s, d)
    ensures Notices(s, run)
    decreases Sum(Toils(s))
  {
    if s.ledger.downloads[d].stage.Landed? {
      StepInv(s, Send(d));
      run := RefusalIsReaped(Next(s, Send(d)), s.ledger.downloads[d].batch);
      NoticesAfter(s, Send(d), run);
      run := [Send(d)] + run;
    } else {
      var e := PushOn(s, d);
      StepInv(s, e);
      MoveToward(s, e);
      run := DownloadIsRefused(Next(s, e), d);
      NoticesAfter(s, e, run);
      run := [e] + run;
    }
  }

  /** A producer that is awake and finds room claims a job, and that one is refused. */
  lemma RoomIsNoticed(s: State) returns (run: seq<Event>)
    requires Inv(s) && s.producer.Top? && s.closed && !s.stopped
    requires s.outstanding < s.target && s.width > 0
    ensures Notices(s, run)
  {
    StepInv(s, ReadRoom);
    var s1 := Next(s, ReadRoom);
    ClaimIsOnItsWay(s1);
    StepInv(s1, Claim([0]));
    run := DownloadIsRefused(Next(s1, Claim([0])), |s.ledger.downloads|);
    NoticesAfter(s1, Claim([0]), run);
    run := [Claim([0])] + run;
    NoticesAfter(s, ReadRoom, run);
    run := [ReadRoom] + run;
  }

  lemma ClaimIsOnItsWay(s: State)
    requires s.producer.Polling? && s.producer.count > 0 && s.closed && !s.stopped
    ensures Enabled(s, Claim([0]))
    ensures Unaware(Next(s, Claim([0]))) && OnItsWay(Next(s, Claim([0])), |s.ledger.downloads|)
  {
    assert [0][..1] == [0];
  }

  /** Asleep on free room, the producer has a wake-up coming. */
  lemma SleeperWithRoomNotices(s: State) returns (run: seq<Event>)
    requires Inv(s) && Deserted(s) && s.outstanding < s.target
    ensures Notices(s, run)
  {
    var wake;
    if i :| 0 <= i < |s.ledger.slots| && s.ledger.slots[i].Announcing? {
      wake := Announce(i);
    } else {
      var b :| 0 <= b < |s.phases| && s.phases[b].LossTaken?;
      wake := AnnounceLoss(b);
    }
    StepInv(s, wake);
    run := RoomIsNoticed(Next(s, wake));
    NoticesAfter(s, wake, run);
    run := [wake] + run;
  }

  /** A slot that holds a job makes room. */
  lemma HolderNotices(s: State, i: nat) returns (run: seq<Event>)
    requires Inv(s) && Deserted(s) && i < |s.ledger.slots| && s.ledger.slots[i].Holding?
    ensures Notices(s, run)
  {
    StepInv(s, Unstage(i));
    StepAccounted(s, Unstage(i));
    run := SleeperWithRoomNotices(Next(s, Unstage(i)));
    NoticesAfter(s, Unstage(i), run);
    run := [Unstage(i)] + run;
  }

  /** A lost download makes room as well. */
  lemma LossNotices(s: State, d: nat) returns (run: seq<Event>)
    requires Inv(s) && Unaware(s) && d < |s.ledger.downloads| && s.ledger.downloads[d].stage.Crashed?
    requires s.phases[s.ledger.downloads[d].batch].Joining?
    ensures Notices(s, run)
  {
    StepInv(s, Reclaim(d));
    StepAccounted(s, Reclaim(d));
    if s.producer.Parked? {
      run := SleeperWithRoomNotices(Next(s, Reclaim(d)));
    } else {
      run := RoomIsNoticed(Next(s, Reclaim(d)));
    }
    NoticesAfter(s, Reclaim(d), run);
    run := [Reclaim(d)] + run;
  }

  lemma JoinedDownloadNotices(s: State, d: nat) returns (run: seq<Event>)
    requires Inv(s) && Unaware(s) && d < |s.ledger.downloads| && !s.ledger.downloads[d].stage.Out?
    requires s.phases[s.ledger.downloads[d].batch].Joining?
    ensures Notices(s, run)
  {
    if s.ledger.downloads[d].stage.Crashed? {
      run := LossNotices(s, d);
    } else {
      run := DownloadIsRefused(s, d);
    }
  }

  /** Whatever its burst is at, a download that is not out leads to a refusal or to
      room. */
  lemma DownloadNotices(s: State, d: nat) returns (run: seq<Event>)
    requires Inv(s) && Deserted(s) && d < |s.ledger.downloads| && !s.ledger.downloads[d].stage.Out?
    ensures Notices(s, run)
  {
    var b := s.ledger.downloads[d].batch;
    if s.phases[b].Failing? {
      run := RefusalIsReaped(s, b);
    } else if s.phases[b].LossTaken? {
      StepInv(s, AnnounceLoss(b));
      run := JoinedDownloadNotices(Next(s, AnnounceLoss(b)), d);
      NoticesAfter(s, AnnounceLoss(b), run);
      run := [AnnounceLoss(b)] + run;
    } else {
      run := JoinedDownloadNotices(s, d);
    }
  }

  /** A burst that has completed stays completed. */
  lemma {:induction false} EndedStays(s: State, run: seq<Event>, b: nat)
    requires Exec(s, run).Some? && b < |s.phases| && s.phases[b].Ended?
    ensures b < |Exec(s, run).value.phases| && Exec(s, run).value.phases[b] == s.phases[b]
    decreases |run|
  {
    if run != [] {
      EndedFrame(s, run[0], b);
      EndedStays(Next(s, run[0]), run[1..], b);
    }
  }

  lemma EndedFrame(s: State, e: Event, b: nat)
    requires Enabled(s, e) && b < |s.phases| && s.phases[b].Ended?
    ensures b < |Next(s, e).phases| && Next(s, e).phases[b] == s.phases[b]
  {
    if !PhaseEvent(e) {
      PhasesStay(s, e);
    }
  }

  lemma {:induction false} StopFreeConcat(s: State, a: seq<Event>, e: Event)
    requires Stop !in a && !e.Stop? && Exec(s, a).Some? && Enabled(Exec(s, a).value, e)
    ensures Stop !in a + [e] && Exec(s, a + [e]) == Some(Next(Exec(s, a).value, e))
  {
    ExecConcat(s, a, [e]);
    ExecOne(Exec(s, a).value, e);
  }

  /** A completed refusal is reaped when somebody wakes the producer. */
  lemma EndedIsReaped(s: State, b: nat) returns (run: seq<Event>)
    requires Inv(s) && Deserted(s) && Rousable(s) && b < |s.phases| && s.phases[b] == Ended(false)
    ensures Notices(s, run)
  {
    if c :| 0 <= c < |s.phases| && !Spent(s.phases[c]) {
      run := BurstRouses(s, c);
    } else {
      var i :| 0 <= i < |s.ledger.slots| && Busy(s.ledger.slots[i]);
      run := SlotRouses(s, i);
    }
    EndedStays(s, run, b);
    StopFreeConcat(s, run, Reap(b));
    run := run + [Reap(b)];
  }

  lemma RefusalNotices(s: State, b: nat) returns (run: seq<Event>)
    requires Inv(s) && Deserted(s) && Rousable(s) && b < |s.phases| && Refusing(s.phases[b])
    ensures Notices(s, run)
  {
    if !Spent(s.phases[b]) {
      run := RefusalIsReaped(s, b);
    } else if s.phases[b].Ended? {
      run := EndedIsReaped(s, b);
    } else {
      StepInv(s, Complete(b));
      StillRousable(s, b);
      run := EndedIsReaped(Next(s, Complete(b)), b);
      NoticesAfter(s, Complete(b), run);
      run := [Complete(b)] + run;
    }
  }

  lemma StillRousable(s: State, b: nat)
    requires Rousable(s) && b < |s.phases| && s.phases[b].Leaving?
    ensures Rousable(Next(s, Complete(b)))
  {
    var s' := Next(s, Complete(b));
    if c :| 0 <= c < |s.phases| && !Spent(s.phases[c]) {
      assert !Spent(s'.phases[c]);
    } else {
      var i :| 0 <= i < |s.ledger.slots| && Busy(s.ledger.slots[i]);
      assert Busy(s'.ledger.slots[i]);
    }
  }

  /** Something is left that leads to a refused burst being reaped: a download not
      yet out, a job in a slot's hands, room for another claim, or a refusal already
      made and somebody to wake the producer for it. */
  ghost predicate Noticeable(s: State) {
    || (exists d :: 0 <= d < |s.ledger.downloads| && !s.ledger.downloads[d].stage.Out?)
    || (exists i :: 0 <= i < |s.ledger.slots| && s.ledger.slots[i].Holding?)
    || s.outstanding < s.target
    || (Rousable(s) && exists b :: 0 <= b < |s.phases| && Refusing(s.phases[b]))
  }

  /** The producer may sleep or wake, but never finds room nor a refusal. */
  ghost predicate Oblivious(s: State) {
    && s.closed && !s.stopped && s.outstanding >= s.target
    && (s.producer.Top? || s.producer.Full? || s.producer.Parked?)
    && (forall d :: 0 <= d < |s.ledger.downloads| ==> s.ledger.downloads[d].stage.Out?)
    && (forall i :: 0 <= i < |s.ledger.slots| ==> !s.ledger.slots[i].Holding?)
    && (Stranded(s) || forall b :: 0 <= b < |s.phases| ==> !Refusing(s.phases[b]))
  }

  /** With nothing downloading or received any more, only the control state moves. */
  lemma ObliviousFrame(s: State, e: Event)
    requires Oblivious(s) && Enabled(s, e) && !e.Stop?
    ensures var s' := Next(s, e);
      && s'.closed && !s'.stopped && s'.outstanding == s.outstanding && s'.target == s.target
      && s'.ledger.downloads == s.ledger.downloads
      && |s'.ledger.slots| == |s.ledger.slots|
      && (forall i :: 0 <= i < |s.ledger.slots| ==> !s'.ledger.slots[i].Holding?)
  {
  }

  lemma ObliviousRefusals(s: State, e: Event)
    requires Oblivious(s) && Enabled(s, e)
    requires forall b :: 0 <= b < |s.phases| ==> !Refusing(s.phases[b])
    ensures forall b :: 0 <= b < |Next(s, e).phases| ==> !Refusing(Next(s, e).phases[b])
  {
    ObliviousPhases(s, e);
  }

  lemma ObliviousPhases(s: State, e: Event)
    requires Oblivious(s) && Enabled(s, e)
    ensures Next(s, e).phases == s.phases || e.Drain? || e.AnnounceEnd? || e.Complete? || e.AnnounceLoss?
  {
  }

  lemma ObliviousProducer(s: State, e: Event)
    requires Oblivious(s) && Enabled(s, e) && !e.Stop?
    requires forall b :: 0 <= b < |s.phases| ==> !Refusing(s.phases[b])
    ensures var p := Next(s, e).producer; p.Top? || p.Full? || p.Parked?
  {
  }

  lemma {:induction false} ObliviousForGood(s: State, run: seq<Event>)
    requires Oblivious(s) && Exec(s, run).Some? && Stop !in run
    ensures Oblivious(Exec(s, run).value)
    decreases |run|
  {
    if run != [] {
      ObliviousFrame(s, run[0]);
      if Stranded(s) {
        StrandedStep(s, run[0]);
      } else {
        ObliviousRefusals(s, run[0]);
        ObliviousProducer(s, run[0]);
      }
      ObliviousForGood(Next(s, run[0]), run[1..]);
    }
  }

  /** A producer that sleeps beside a closed receiver can come to notice it, short of
      a stop, just when something is left that leads to a refusal it will see. */
  lemma NoticedIffNoticeable(target: nat, width: nat, exitIfEmpty: bool, fifo: bool, run: seq<Event>)
    requires Exec(Init(target, width, exitIfEmpty, fifo), run).Some?
    requires Deserted(Exec(Init(target, width, exitIfEmpty, fifo), run).value)
    ensures var s := Exec(Init(target, width, exitIfEmpty, fifo), run).value;
      (exists more: seq<Event> :: Notices(s, more)) <==> Noticeable(s)
  {
    InitInv(target, width, exitIfEmpty, fifo);
    RunInv(Init(target, width, exitIfEmpty, fifo), run);
    var s := Exec(Init(target, width, exitIfEmpty, fifo), run).value;
    if Noticeable(s) {
      var more := SomeNotice(s);
    } else {
      forall more: seq<Event> ensures !Notices(s, more) {
        if Stop !in more && Exec(s, more).Some? {
          ObliviousForGood(s, more);
        }
      }
    }
  }

  lemma SomeNotice(s: State) returns (run: seq<Event>)
    requires Inv(s) && Deserted(s) && Noticeable(s)
    ensures Notices(s, run)
  {
    if d :| 0 <= d < |s.ledger.downloads| && !s.ledger.downloads[d].stage.Out? {
      run := DownloadNotices(s, d);
    } else if i :| 0 <= i < |s.ledger.slots| && s.ledger.slots[i].Holding? {
      run := HolderNotices(s, i);
    } else if s.outstanding < s.target {
      run := SleeperWithRoomNotices(s);
    } else {
      var b :| 0 <= b < |s.phases| && Refusing(s.phases[b]);
      run := RefusalNotices(s, b);
    }
  }

  /** One claimed job whose download is in `stage`, one slot, depth one. */
  function OneJob(closed: bool, producer: Producer, gate: nat, phase: Phase, stage: Stage): State {
    State(1, 1, false, false, 1, false, false, closed, producer, gate, [phase],
      Ledger([Download(0, 0, stage)], [], [], [Free], [0], [], [], if stage.Out? then [0] else []))
  }

  lemma ClaimOne()
    ensures Exec(Init(1, 1, false, false), [ReadRoom, Claim([0])])
      == Some(OneJob(false, Top, 1, Joining, Queued))
  {
    var s0 := Init(1, 1, false, false);
    var s1 := s0.(producer := Polling(1));
    assert Next(s0, ReadRoom) == s1;
    var s2 := Next(s1, Claim([0]));
    assert s2.ledger.slots == [Free];
    assert s2.ledger.downloads == [Download(0, 0, Queued)] && s2.ledger.claimed == [0];
    assert s2.phases == [Joining] && s2 == OneJob(false, Top, 1, Joining, Queued);
    ExecTwo(s0, ReadRoom, Claim([0]));
  }

  lemma CloseAndStart()
    ensures Exec(OneJob(false, Top, 1, Joining, Queued), [Close, Start(0)])
      == Some(OneJob(true, Top, 0, Joining, Active))
  {
    var s := OneJob(false, Top, 1, Joining, Queued);
    assert Next(Next(s, Close), Start(0)).ledger.downloads == [Download(0, 0, Active)];
    ExecTwo(s, Close, Start(0));
  }

  lemma LandAndRefuse()
    ensures Exec(OneJob(true, Top, 0, Joining, Active), [Land(0), Send(0)])
      == Some(OneJob(true, Top, 1, Failing, Out))
  {
    var s := OneJob(true, Top, 0, Joining, Active);
    var s1 := OneJob(true, Top, 1, Joining, StagingLedger.Landed);
    assert Next(s, Land(0)).ledger.downloads == s1.ledger.downloads;
    assert Next(s1, Send(0)).ledger.downloads == [Download(0, 0, Out)];
    assert Next(s1, Send(0)).ledger.abandoned == [0] && Next(s1, Send(0)).phases == [Failing];
    ExecTwo(s, Land(0), Send(0));
  }

  /** With the depth in use and nothing stored, looking for room ends asleep. */
  lemma GoesToSleep(phase: Phase)
    ensures Exec(OneJob(true, Top, 1, phase, Out), [ReadRoom, AwaitRoom])
      == Some(OneJob(true, Parked, 1, phase, Out))
  {
    ExecTwo(OneJob(true, Top, 1, phase, Out), ReadRoom, AwaitRoom);
  }

  lemma BurstDrains()
    ensures Exec(OneJob(true, Top, 1, Failing, Out), [Drain(0)])
      == Some(OneJob(true, Top, 1, Closing(false), Out))
  {
    var s := OneJob(true, Top, 1, Failing, Out);
    assert Next(s, Drain(0)).phases == [Closing(false)];
    ExecOne(s, Drain(0));
  }

  lemma BurstNotifies()
    ensures Exec(OneJob(true, Parked, 1, Closing(false), Out), [AnnounceEnd(0)])
      == Some(OneJob(true, Top, 1, Leaving(false), Out))
  {
    var s := OneJob(true, Parked, 1, Closing(false), Out);
    assert Next(s, AnnounceEnd(0)).phases == [Leaving(false)];
    ExecOne(s, AnnounceEnd(0));
  }

  lemma BurstCompletes()
    ensures Exec(OneJob(true, Parked, 1, Leaving(false), Out), [Complete(0)])
      == Some(OneJob(true, Parked, 1, Ended(false), Out))
  {
    var s := OneJob(true, Parked, 1, Leaving(false), Out);
    assert Next(s, Complete(0)).phases == [Ended(false)];
    ExecOne(s, Complete(0));
  }

  lemma StrandedIsReachable() returns (run: seq<Event>)
    ensures Exec(Init(1, 1, false, false), run) == Some(OneJob(true, Parked, 1, Ended(false), Out))
  {
    var s0 := Init(1, 1, false, false);
    run := [ReadRoom, Claim([0])];
    ClaimOne();
    ExecConcat(s0, run, [Close, Start(0)]);
    CloseAndStart();
    run := run + [Close, Start(0)];
    ExecConcat(s0, run, [Land(0), Send(0)]);
    LandAndRefuse();
    run := run + [Land(0), Send(0)];
    BurstDrains();
    BurstNotifies();
    BurstCompletes();
    ExecConcat(s0, run, [Drain(0)]);
    run := run + [Drain(0)];
    GoesToSleep(Closing(false));
    ExecConcat(s0, run, [ReadRoom, AwaitRoom]);
    run := run + [ReadRoom, AwaitRoom];
    ExecConcat(s0, run, [AnnounceEnd(0)]);
    run := run + [AnnounceEnd(0)];
    GoesToSleep(Leaving(false));
    ExecConcat(s0, run, [ReadRoom, AwaitRoom]);
    run := run + [ReadRoom, AwaitRoom];
    ExecConcat(s0, run, [Complete(0)]);
    run := run + [Complete(0)];
  }

  /** A staging task notifies before it completes. If the producer runs in
      between, it finds nothing to reap, parks again, and no later event short of
      a stop wakes it, although the receiver is gone. */
  lemma ClosedReceiverMayGoUnnoticed()
    ensures exists run: seq<Event> ::
      && Exec(Init(1, 1, false, false), run).Some?
      && var s := Exec(Init(1, 1, false, false), run).value;
      && s.closed && s.SendersGoneButProducer()
      && forall more: seq<Event> :: Stop !in more && Exec(s, more).Some? ==>
           Exec(s, more).value.producer.Parked?
  {
    var run := StrandedIsReachable();
    var s := Exec(Init(1, 1, false, false), run).value;
    assert Stranded(s);
    forall more: seq<Event> | Stop !in more && Exec(s, more).Some?
      ensures Exec(s, more).value.producer.Parked?
    {
      StrandedForGood(s, more);
    }
  }
}
