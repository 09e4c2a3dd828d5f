/** The stall watchdog: what one tick concludes, and what every run of ticks must
    have looked like before the worker gives up on itself. */
module Watchdog {
  import opened Prelude

  /** Census entries recorded per tick. */
  const CENSUS_MAX: nat := 64

  datatype Verdict = Progressing | Stalled | Abort

  datatype Tuning = Tuning(summaryEvery: nat, warnAfter: nat, abortAfter: Option<nat>)

  /** An analysis in flight and the phase it reports. */
  datatype Entry = Entry(id: nat, phase: string)

  /** Everything one tick reads. The census is oldest first. */
  datatype Observation = Observation(
    now: nat, census: seq<Entry>, finished: nat, deps: nat, active: nat)

  function StallVerdict(active: nat, noProgress: nat, tuning: Tuning): Verdict {
    if active == 0 || noProgress < tuning.warnAfter then Progressing
    else if tuning.abortAfter.Some? && noProgress >= Max(tuning.abortAfter.value, tuning.warnAfter)
      then Abort
    else Stalled
  }

  // -------------------------------------------------------- one tick, as a value

  datatype Ticker = Ticker(
    lastSummary: nat,
    lastFinished: nat,
    lastDeps: nat,
    progressSince: nat,
    stages: map<nat, string>)

  function New(now: nat, finished: nat, deps: nat): Ticker {
    Ticker(now, finished, deps, now, map[])
  }

  function Ids(census: seq<Entry>): set<nat> {
    set e | e in census :: e.id
  }

  /** Forget analyses that are no longer in flight. */
  function Retain(stages: map<nat, string>, census: seq<Entry>): map<nat, string> {
    map id | id in stages && id in Ids(census) :: stages[id]
  }

  predicate Known(stages: map<nat, string>, e: Entry) {
    e.id in stages && stages[e.id] == e.phase
  }

  predicate StageMoved(stages: map<nat, string>, census: seq<Entry>) {
    exists e :: e in census && !Known(stages, e)
  }

  function Record(stages: map<nat, string>, census: seq<Entry>): map<nat, string>
    decreases |census|
  {
    if census == [] then stages
    else Record(stages[census[0].id := census[0].phase], census[1..])
  }

  function Shown(census: seq<Entry>): seq<Entry> {
    census[..Min(|census|, CENSUS_MAX)]
  }

  predicate Due(t: Ticker, o: Observation, tuning: Tuning) {
    SatSub(o.now, t.lastSummary) >= tuning.summaryEvery
  }

  /** Something completed, nothing is running, a stage changed, an analysis is
      new, or a dependency finished. */
  predicate Moved(t: Ticker, o: Observation) {
    || o.finished != t.lastFinished
    || o.active == 0
    || StageMoved(Retain(t.stages, o.census), o.census)
    || o.deps != t.lastDeps
  }

  function VerdictOf(t: Ticker, o: Observation, tuning: Tuning): Verdict {
    if !Due(t, o, tuning) then Progressing
    else
      StallVerdict(o.active, SatSub(o.now, if Moved(t, o) then o.now else t.progressSince), tuning)
  }

  function Tick(t: Ticker, o: Observation, tuning: Tuning): Ticker {
    var stages := Retain(t.stages, o.census);
    if !Due(t, o, tuning) then t.(stages := stages)
    else
      Ticker(o.now, o.finished, o.deps, if Moved(t, o) then o.now else t.progressSince,
        if VerdictOf(t, o, tuning).Abort? then stages else Record(stages, Shown(o.census)))
  }

  // ------------------------------------------------------------- the object

  class SummaryTicker {
    const tuning: Tuning
    var lastSummary: nat
    var lastFinished: nat
    var lastDeps: nat
    var progressSince: nat
    var stages: map<nat, string>

    constructor (tuning: Tuning, now: nat, finished: nat, deps: nat)
      ensures this.tuning == tuning && Value() == New(now, finished, deps)
    {
      this.tuning := tuning;
      lastSummary, progressSince := now, now;
      lastFinished, lastDeps := finished, deps;
      stages := map[];
    }

    ghost function Value(): Ticker
      reads this
    {
      Ticker(lastSummary, lastFinished, lastDeps, progressSince, stages)
    }

    method CheckStall(o: Observation) returns (verdict: Verdict)
      modifies this`progressSince, this`lastFinished, this`lastDeps
      ensures var moved := o.finished != old(lastFinished) || o.active == 0
          || StageMoved(stages, o.census) || o.deps != old(lastDeps);
        && progressSince == (if moved then o.now else old(progressSince))
        && verdict == StallVerdict(o.active, SatSub(o.now, progressSince), tuning)
      ensures lastFinished == o.finished && lastDeps == o.deps
    {
      var stageMoved := false;
      for i := 0 to |o.census|
        invariant stageMoved <==> exists k :: 0 <= k < i && !Known(stages, o.census[k])
      {
        if !Known(stages, o.census[i]) {
          stageMoved := true;
        }
      }
      assert stageMoved <==> StageMoved(stages, o.census);
      if o.finished != lastFinished || o.active == 0 || stageMoved || o.deps != lastDeps {
        progressSince := o.now;
      }
      lastFinished := o.finished;
      lastDeps := o.deps;
      verdict := StallVerdict(o.active, SatSub(o.now, progressSince), tuning);
    }

    method LogCensus(census: seq<Entry>)
      modifies this`stages
      ensures stages == Record(old(stages), Shown(census))
    {
      var shown := Shown(census);
      for i := 0 to |shown|
        invariant Record(stages, shown[i..]) == Record(old(stages), shown)
      {
        var entry := shown[i];
        assert shown[i..][1..] == shown[i + 1..];
        if entry.id !in stages || stages[entry.id] != entry.phase {
          stages := stages[entry.id := entry.phase];
        } else {
          assert stages[entry.id := entry.phase] == stages;
        }
      }
    }

    /** One wake of the ticker. */
    method Wake(o: Observation) returns (verdict: Verdict)
      modifies this
      ensures Value() == Tick(old(Value()), o, tuning)
      ensures verdict == VerdictOf(old(Value()), o, tuning)
    {
      stages := Retain(stages, o.census);
      if SatSub(o.now, lastSummary) < tuning.summaryEvery {
        return Progressing;
      }
      lastSummary := o.now;
      verdict := CheckStall(o);
      if verdict.Abort? {
        return;
      }
      LogCensus(o.census);
    }
  }

  // ------------------------------------------------------------- whole runs

  /** A run of the ticker under one monotone clock. */
  datatype Run = Run(start: Ticker, obs: seq<Observation>, tuning: Tuning) {
    /** The ticker just before observation `k`. */
    function At(k: nat): Ticker
      requires k <= |obs|
    {
      if k == 0 then start else Tick(At(k - 1), obs[k - 1], tuning)
    }

    predicate IsSummary(k: nat)
      requires k < |obs|
    {
      Due(At(k), obs[k], tuning)
    }

    function VerdictAt(k: nat): Verdict
      requires k < |obs|
    {
      VerdictOf(At(k), obs[k], tuning)
    }

    ghost predicate Valid() {
      && (exists finished, deps :: start == New(start.lastSummary, finished, deps))
      && (forall k :: 0 <= k < |obs| ==> start.lastSummary <= obs[k].now)
      && (forall j, k :: 0 <= j < k < |obs| ==> obs[j].now <= obs[k].now)
    }

    /** `e` was shown by a summary before `k`, and its analysis stayed in flight. */
    ghost predicate SeenBefore(k: nat, e: Entry)
      requires k <= |obs|
    {
      exists i :: 0 <= i < k && ShownAt(i, k, e)
    }

    ghost predicate ShownAt(i: nat, k: nat, e: Entry)
      requires i < k <= |obs|
    {
      && IsSummary(i) && e in Shown(obs[i].census)
      && (forall m :: i <= m < k ==> e.id in Ids(obs[m].census))
    }
  }

  lemma {:induction false} RecordKnows(stages: map<nat, string>, census: seq<Entry>, id: nat)
    requires id in Record(stages, census)
    ensures Entry(id, Record(stages, census)[id]) in census
      || (id in stages && Record(stages, census)[id] == stages[id])
    decreases |census|
  {
    if census != [] {
      var first := census[0];
      RecordKnows(stages[first.id := first.phase], census[1..], id);
      assert id == first.id ==> first == Entry(id, first.phase);
    }
  }

  /** What is on record after a tick was so before, or has just been shown. */
  lemma OnRecord(t: Ticker, o: Observation, tuning: Tuning, id: nat)
    requires id in Tick(t, o, tuning).stages
    ensures var e := Entry(id, Tick(t, o, tuning).stages[id]);
      Known(Retain(t.stages, o.census), e) || (Due(t, o, tuning) && e in Shown(o.census))
  {
    if Due(t, o, tuning) && !VerdictOf(t, o, tuning).Abort? {
      RecordKnows(Retain(t.stages, o.census), Shown(o.census), id);
    }
  }

  /** What an earlier summary showed stays seen while the analysis is in flight. */
  lemma StillSeen(r: Run, k: nat, e: Entry)
    requires k < |r.obs| && r.SeenBefore(k, e) && e.id in Ids(r.obs[k].census)
    ensures r.SeenBefore(k + 1, e)
  {
    var i :| 0 <= i < k && r.ShownAt(i, k, e);
    assert r.ShownAt(i, k + 1, e);
  }

  lemma SeenNow(r: Run, k: nat, e: Entry)
    requires k < |r.obs| && r.IsSummary(k) && e in Shown(r.obs[k].census)
    ensures r.SeenBefore(k + 1, e)
  {
    assert e in r.obs[k].census;
    assert r.ShownAt(k, k + 1, e);
  }

  /** The phase on record for an analysis was shown in an earlier summary. */
  lemma {:induction false} StagesAreHistory(r: Run, k: nat, id: nat)
    requires r.Valid() && k <= |r.obs| && id in r.At(k).stages
    ensures r.SeenBefore(k, Entry(id, r.At(k).stages[id]))
    decreases k
  {
    assert k > 0;
    var e := Entry(id, r.At(k).stages[id]);
    OnRecord(r.At(k - 1), r.obs[k - 1], r.tuning, id);
    if r.IsSummary(k - 1) && e in Shown(r.obs[k - 1].census) {
      SeenNow(r, k - 1, e);
    } else {
      StagesAreHistory(r, k - 1, id);
      StillSeen(r, k - 1, e);
    }
  }

  /** Since the moment on record, no summary saw any movement. */
  lemma {:induction false} QuietSince(r: Run, n: nat, k: nat)
    requires r.Valid() && k < n <= |r.obs| && r.IsSummary(k)
    requires r.obs[k].now > r.At(n).progressSince
    ensures !Moved(r.At(k), r.obs[k])
    decreases n
  {
    if k < n - 1 {
      QuietSince(r, n - 1, k);
    }
  }

  /** The counters on record are those of the latest summary. */
  lemma {:induction false} CountersAreLatest(r: Run, j: nat, k: nat)
    requires r.Valid() && j < k <= |r.obs| && r.IsSummary(j)
    requires forall i :: j < i < k && r.IsSummary(i) ==> !Moved(r.At(i), r.obs[i])
    ensures r.At(k).lastFinished == r.obs[j].finished && r.At(k).lastDeps == r.obs[j].deps
    decreases k
  {
    assert r.At(k) == Tick(r.At(k - 1), r.obs[k - 1], r.tuning);
    if j < k - 1 {
      CountersAreLatest(r, j, k - 1);
      assert r.IsSummary(k - 1) ==> !Moved(r.At(k - 1), r.obs[k - 1]);
    }
  }

  /** Recording what is known already changes nothing. */
  lemma {:induction false} RecordKnown(stages: map<nat, string>, census: seq<Entry>)
    requires forall e :: e in census ==> Known(stages, e)
    ensures Record(stages, census) == stages
    decreases |census|
  {
    if census != [] {
      assert Known(stages, census[0]);
      assert stages[census[0].id := census[0].phase] == stages;
      RecordKnown(stages, census[1..]);
    }
  }

  /** A tick that sees no movement only forgets. */
  lemma QuietTick(t: Ticker, o: Observation, tuning: Tuning)
    requires Due(t, o, tuning) ==> !Moved(t, o)
    ensures Tick(t, o, tuning).stages == Retain(t.stages, o.census)
  {
    if Due(t, o, tuning) {
      RecordKnown(Retain(t.stages, o.census), Shown(o.census));
    }
  }

  /** While no summary sees movement, what is on record was in the census of every
      earlier summary. */
  lemma {:induction false} RecordGoesBack(r: Run, j: nat, k: nat, e: Entry)
    requires j < k <= |r.obs| && r.IsSummary(j) && Known(r.At(k).stages, e)
    requires forall i :: j <= i < k && r.IsSummary(i) ==> !Moved(r.At(i), r.obs[i])
    ensures e in r.obs[j].census
    decreases k
  {
    assert r.At(k) == Tick(r.At(k - 1), r.obs[k - 1], r.tuning);
    assert r.IsSummary(k - 1) ==> !Moved(r.At(k - 1), r.obs[k - 1]);
    QuietTick(r.At(k - 1), r.obs[k - 1], r.tuning);
    if j < k - 1 {
      RecordGoesBack(r, j, k - 1, e);
    } else {
      assert e.id in Ids(r.obs[j].census);
      var c :| c in r.obs[j].census && c.id == e.id;
      assert Known(Retain(r.At(j).stages, r.obs[j].census), c);
    }
  }

  /** The thresholds an abort has to pass. */
  function Bound(tuning: Tuning): nat
    requires tuning.abortAfter.Some?
  {
    Max(tuning.abortAfter.value, tuning.warnAfter)
  }

  /** Observation `k` is a summary of the stretch that ends with the one at `n`. */
  ghost predicate InStretch(r: Run, n: nat, k: nat)
    requires n < |r.obs| && r.tuning.abortAfter.Some?
  {
    k <= n && r.IsSummary(k) && r.obs[k].now + Bound(r.tuning) > r.obs[n].now
  }

  /** Between summaries `j` and `k` no job or dependency completed, no analysis
      started and none changed its stage. */
  ghost predicate NothingMoved(r: Run, j: nat, k: nat)
    requires j <= k < |r.obs|
  {
    && r.obs[j].finished == r.obs[k].finished && r.obs[j].deps == r.obs[k].deps
    && forall e :: e in r.obs[k].census ==> e in r.obs[j].census
  }

  /** What must have happened before an abort. Over a stretch at least as long as
      both thresholds, every summary found a slot occupied, and nothing moved from
      any summary to any later one; the first of them had already been preceded by
      summaries that showed each of its analyses in the same phase. */
  lemma AbortMeansFrozen(r: Run, n: nat)
    requires r.Valid() && n < |r.obs| && r.VerdictAt(n).Abort?
    ensures r.tuning.abortAfter.Some? && r.IsSummary(n)
    ensures r.start.lastSummary + Bound(r.tuning) <= r.obs[n].now
    ensures forall k :: 0 <= k <= n && InStretch(r, n, k) ==>
      r.obs[k].active > 0 && forall e :: e in r.obs[k].census ==> r.SeenBefore(k, e)
    ensures forall j, k :: 0 <= j <= k <= n && InStretch(r, n, j) && InStretch(r, n, k) ==>
      NothingMoved(r, j, k)
  {
    SinceInPast(r, n);
    forall k | 0 <= k <= n && InStretch(r, n, k)
      ensures r.obs[k].active > 0 && forall e :: e in r.obs[k].census ==> r.SeenBefore(k, e)
    {
      QuietInWindow(r, n, k);
      forall e | e in r.obs[k].census ensures r.SeenBefore(k, e) {
        assert Known(Retain(r.At(k).stages, r.obs[k].census), e);
        StagesAreHistory(r, k, e.id);
      }
    }
    forall j, k | 0 <= j <= k <= n && InStretch(r, n, j) && InStretch(r, n, k)
      ensures NothingMoved(r, j, k)
    {
      StretchIsQuiet(r, n, j, k);
    }
  }

  lemma StretchIsQuiet(r: Run, n: nat, j: nat, k: nat)
    requires r.Valid() && n < |r.obs| && r.VerdictAt(n).Abort?
    requires j <= k <= n && InStretch(r, n, j) && InStretch(r, n, k)
    ensures NothingMoved(r, j, k)
  {
    if j < k {
      forall i | j <= i <= k && r.IsSummary(i) ensures !Moved(r.At(i), r.obs[i]) {
        QuietInWindow(r, n, i);
      }
      CountersAreLatest(r, j, k);
      forall e | e in r.obs[k].census ensures e in r.obs[j].census {
        assert Known(Retain(r.At(k).stages, r.obs[k].census), e);
        RecordGoesBack(r, j, k, e);
      }
    }
  }

  lemma QuietInWindow(r: Run, n: nat, k: nat)
    requires r.Valid() && n < |r.obs| && r.VerdictAt(n).Abort?
    requires k <= n && r.IsSummary(k)
    requires r.obs[k].now + Max(r.tuning.abortAfter.value, r.tuning.warnAfter) > r.obs[n].now
    ensures !Moved(r.At(k), r.obs[k])
  {
    SinceInPast(r, n);
    if k < n {
      QuietSince(r, n, k);
    }
  }

  lemma {:induction false} SinceInPast(r: Run, n: nat)
    requires r.Valid() && n <= |r.obs|
    ensures r.start.lastSummary <= r.At(n).progressSince
    ensures n > 0 ==> r.At(n).progressSince <= r.obs[n - 1].now
    ensures forall k :: n <= k < |r.obs| ==> r.At(n).progressSince <= r.obs[k].now
    decreases n
  {
    if n > 0 {
      SinceInPast(r, n - 1);
    }
  }

  // ------------------------------------------------------------- detection

  /** From observation `m` on, everything the watchdog looks at stands still. */
  ghost predicate Frozen(r: Run, m: nat) {
    && m < |r.obs|
    && r.obs[m].active > 0
    && (forall i, j :: 0 <= i < j < |r.obs[m].census| ==>
          r.obs[m].census[i].id != r.obs[m].census[j].id)
    && (forall k :: m <= k < |r.obs| ==>
          && r.obs[k].census == r.obs[m].census && r.obs[k].finished == r.obs[m].finished
          && r.obs[k].deps == r.obs[m].deps && r.obs[k].active == r.obs[m].active)
  }

  /** Every analysis past the first 64 is already on record in the phase it is stuck
      in. */
  ghost predicate TailOnRecord(r: Run, m: nat)
    requires m < |r.obs|
  {
    forall i :: 64 <= i < |r.obs[m].census| ==> Known(r.At(m).stages, r.obs[m].census[i])
  }

  /** Recording touches the shown entries and no others. */
  lemma {:induction false} RecordExactly(stages: map<nat, string>, census: seq<Entry>, e: Entry)
    requires forall i, j :: 0 <= i < j < |census| ==> census[i].id != census[j].id
    ensures e in census ==> Known(Record(stages, census), e)
    ensures (forall c :: c in census ==> c.id != e.id) ==>
      (Known(Record(stages, census), e) <==> Known(stages, e))
    decreases |census|
  {
    if census != [] {
      RecordExactly(stages[census[0].id := census[0].phase], census[1..], e);
      if e in census && e !in census[1..] {
        assert forall c :: c in census[1..] ==> c.id != e.id;
      }
    }
  }

  /** One tick of a frozen run: the tail's standing never changes, and a summary
      that does not abort puts every shown entry on record. */
  lemma FrozenTick(t: Ticker, o: Observation, tuning: Tuning, i: nat)
    requires forall i, j :: 0 <= i < j < |o.census| ==> o.census[i].id != o.census[j].id
    requires i < |o.census|
    ensures i >= CENSUS_MAX ==>
      (Known(Tick(t, o, tuning).stages, o.census[i]) <==> Known(t.stages, o.census[i]))
    ensures i < CENSUS_MAX && Known(t.stages, o.census[i]) ==>
      Known(Tick(t, o, tuning).stages, o.census[i])
    ensures i < CENSUS_MAX && Due(t, o, tuning) && !VerdictOf(t, o, tuning).Abort? ==>
      Known(Tick(t, o, tuning).stages, o.census[i])
  {
    var e := o.census[i];
    assert e.id in Ids(o.census);
    RecordExactly(Retain(t.stages, o.census), Shown(o.census), e);
    if i < CENSUS_MAX {
      assert Shown(o.census)[i] == e;
    } else {
      forall c | c in Shown(o.census) ensures c.id != e.id {
        var k :| 0 <= k < |Shown(o.census)| && Shown(o.census)[k] == c;
        assert o.census[k] == c;
      }
    }
  }

  lemma {:induction false} TailStanding(r: Run, m: nat, k: nat, i: nat)
    requires Frozen(r, m) && m <= k < |r.obs| && CENSUS_MAX <= i < |r.obs[m].census|
    ensures Known(r.At(k).stages, r.obs[m].census[i]) <==> Known(r.At(m).stages, r.obs[m].census[i])
    decreases k
  {
    if k > m {
      TailStanding(r, m, k - 1, i);
      FrozenTick(r.At(k - 1), r.obs[k - 1], r.tuning, i);
    }
  }

  /** After the first summary of a frozen run, the shown entries stay on record. */
  lemma {:induction false} HeadStanding(r: Run, m: nat, f: nat, k: nat, i: nat)
    requires r.Valid() && Frozen(r, m) && m <= f < k < |r.obs| && r.IsSummary(f)
    requires !r.VerdictAt(f).Abort?
    requires i < CENSUS_MAX && i < |r.obs[m].census|
    ensures Known(r.At(k).stages, r.obs[m].census[i])
    decreases k
  {
    if k > f + 1 {
      HeadStanding(r, m, f, k - 1, i);
    }
    FrozenTick(r.At(k - 1), r.obs[k - 1], r.tuning, i);
  }

  /** With the tail on record, nothing moves after the first frozen summary. */
  lemma {:induction false} FrozenStaysQuiet(r: Run, m: nat, f: nat, k: nat)
    requires r.Valid() && Frozen(r, m) && TailOnRecord(r, m) && m <= f < k < |r.obs|
    requires r.IsSummary(f) && !r.VerdictAt(f).Abort?
    ensures !Moved(r.At(k), r.obs[k])
    ensures r.At(k).progressSince <= r.obs[f].now
    decreases k
  {
    SinceInPast(r, f + 1);
    if k > f + 1 {
      FrozenStaysQuiet(r, m, f, k - 1);
    }
    LatestCounters(r, m, f, k);
    forall e | e in r.obs[k].census ensures Known(Retain(r.At(k).stages, r.obs[k].census), e) {
      var i :| 0 <= i < |r.obs[m].census| && r.obs[m].census[i] == e;
      assert e.id in Ids(r.obs[k].census);
      if i < CENSUS_MAX {
        HeadStanding(r, m, f, k, i);
      } else {
        TailStanding(r, m, k, i);
      }
    }
  }

  lemma {:induction false} LatestCounters(r: Run, m: nat, f: nat, k: nat)
    requires Frozen(r, m) && m <= f < k <= |r.obs| && r.IsSummary(f)
    ensures r.At(k).lastFinished == r.obs[m].finished && r.At(k).lastDeps == r.obs[m].deps
    decreases k
  {
    if k > f + 1 {
      LatestCounters(r, m, f, k - 1);
    }
  }

  /** A run frozen with slots occupied is given up on at every summary past the
      longer threshold, counted from its first frozen summary `f`, just when the
      analyses beyond the census limit were on record before it froze. With at
      most `CENSUS_MAX` in flight there are none, and it always is. */
  lemma FrozenAborts(r: Run, m: nat, f: nat, n: nat)
    requires r.Valid() && Frozen(r, m) && m <= f < n < |r.obs|
    requires r.tuning.abortAfter.Some? && r.tuning.warnAfter > 0
    requires r.IsSummary(f) && !r.VerdictAt(f).Abort?
    requires r.IsSummary(n)
    requires r.obs[n].now >= r.obs[f].now + Max(r.tuning.abortAfter.value, r.tuning.warnAfter)
    ensures r.VerdictAt(n).Abort? <==> TailOnRecord(r, m)
    ensures |r.obs[m].census| <= 64 ==> r.VerdictAt(n).Abort?
  {
    if TailOnRecord(r, m) {
      FrozenStaysQuiet(r, m, f, n);
    } else {
      TailMoves(r, m, n);
    }
  }

  /** After its first summary a frozen run keeps the moment of its last progress. */
  lemma {:induction false} FrozenKeepsSince(r: Run, m: nat, f: nat, k: nat)
    requires r.Valid() && Frozen(r, m) && TailOnRecord(r, m) && m <= f < k < |r.obs|
    requires r.IsSummary(f) && !r.VerdictAt(f).Abort?
    ensures r.At(k).progressSince == r.At(f + 1).progressSince
    decreases k
  {
    if k > f + 1 {
      FrozenKeepsSince(r, m, f, k - 1);
      FrozenStaysQuiet(r, m, f, k - 1);
    }
  }

  /** What every later summary of a frozen run concludes, by the clock alone: nothing
      until `warnAfter` after the last progress, a warning from then on, and the end
      from the longer threshold on. With an analysis beyond the census limit that was
      not on record it never even warns. */
  lemma FrozenVerdicts(r: Run, m: nat, f: nat, n: nat)
    requires r.Valid() && Frozen(r, m) && m <= f < n < |r.obs|
    requires r.IsSummary(f) && !r.VerdictAt(f).Abort? && r.IsSummary(n)
    ensures r.At(f + 1).progressSince <= r.obs[f].now
    ensures Moved(r.At(f), r.obs[f]) ==> r.At(f + 1).progressSince == r.obs[f].now
    ensures TailOnRecord(r, m) ==>
      var quiet := r.obs[n].now - r.At(f + 1).progressSince;
      var tuning := r.tuning;
      && (r.VerdictAt(n) == Progressing <==> quiet < tuning.warnAfter)
      && (r.VerdictAt(n) == Abort <==>
            tuning.abortAfter.Some? && quiet >= tuning.abortAfter.value && quiet >= tuning.warnAfter)
    ensures !TailOnRecord(r, m) && r.tuning.warnAfter > 0 ==> r.VerdictAt(n) == Progressing
  {
    SinceInPast(r, f + 1);
    if TailOnRecord(r, m) {
      FrozenStaysQuiet(r, m, f, n);
      FrozenKeepsSince(r, m, f, n);
    } else {
      TailMoves(r, m, n);
    }
  }

  /** An unrecorded entry beyond the limit looks like movement at every summary. */
  lemma TailMoves(r: Run, m: nat, n: nat)
    requires Frozen(r, m) && m <= n < |r.obs| && !TailOnRecord(r, m)
    ensures Moved(r.At(n), r.obs[n])
  {
    var i :| CENSUS_MAX <= i < |r.obs[m].census| && !Known(r.At(m).stages, r.obs[m].census[i]);
    TailStanding(r, m, n, i);
    assert !Known(Retain(r.At(n).stages, r.obs[n].census), r.obs[m].census[i]);
    assert r.obs[m].census[i] in r.obs[n].census;
  }
}
