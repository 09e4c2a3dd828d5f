/** The trailing throughput rate: fifteen one-minute buckets, the bucket of a minute
    reused by the minute fifteen later. The buckets are proved against the whole
    history of recorded minutes. */
module RateWindow {
  import opened Prelude

  const SLOTS: nat := 15
  const WINDOW_SECS: nat := 900
  const U32: nat := 0x1_0000_0000

  datatype Bucket = Bucket(minute: nat, count: nat)

  // ---------------------------------------------------- buckets as a value

  function Fresh(): seq<Bucket> {
    seq(SLOTS, _ => Bucket(U64_MAX, 0))
  }

  /** One completion in `minute`: a stale bucket restarts; its count is a `u32`. */
  function Recorded(buckets: seq<Bucket>, minute: nat): (r: seq<Bucket>)
    requires |buckets| == SLOTS
    ensures |r| == SLOTS
  {
    var was := buckets[minute % SLOTS];
    var count := if was.minute == minute then was.count else 0;
    buckets[minute % SLOTS := Bucket(minute, (count + 1) % U32)]
  }

  function Contribution(b: Bucket, now: nat): nat {
    if b.minute != U64_MAX && SatSub(now, b.minute) < SLOTS then b.count else 0
  }

  function Contributions(buckets: seq<Bucket>, now: nat): seq<nat> {
    seq(|buckets|, i requires 0 <= i < |buckets| => Contribution(buckets[i], now))
  }

  function Total(buckets: seq<Bucket>, now: nat): nat {
    Sum(Contributions(buckets, now)) % U32
  }

  class Window {
    const buckets: array<Bucket>
    ghost var history: seq<nat>

    ghost predicate Valid()
      reads this, buckets
    {
      buckets.Length == SLOTS && buckets[..] == Replay(history)
    }

    constructor ()
      ensures Valid() && fresh(buckets) && history == []
    {
      buckets := new Bucket[SLOTS](_ => Bucket(U64_MAX, 0));
      history := [];
      new;
      assert buckets[..] == Fresh();
    }

    method Record(minute: nat)
      requires Valid()
      modifies this, buckets
      ensures Valid() && history == old(history) + [minute]
    {
      var slot := minute % SLOTS;
      if buckets[slot].minute != minute {
        buckets[slot] := Bucket(minute, 0);
      }
      buckets[slot] := Bucket(minute, (buckets[slot].count + 1) % U32);
      assert buckets[..] == Recorded(old(buckets[..]), minute);
      assert (history + [minute])[..|history|] == history;
      history := history + [minute];
    }

    /** Completions per second over the trailing fifteen minutes. */
    method PerSec(now: nat) returns (rate: real)
      requires Valid()
      ensures rate * 900.0 == Total(Replay(history), now) as real
      ensures OnTime(history) && Newest(history) <= now ==>
        rate * 900.0 == (Recent(history, now) % U32) as real
    {
      var total := 0;
      ghost var parts := Contributions(buckets[..], now);
      for i := SLOTS downto 0
        invariant total == Sum(parts[i..])
      {
        assert parts[i..][1..] == parts[i + 1..];
        total := total + Contribution(buckets[i], now);
      }
      assert parts[0..] == parts;
      rate := (total % U32) as real / WINDOW_SECS as real;
      if OnTime(history) && Newest(history) <= now {
        RingCountsRecent(history, now);
      }
    }
  }

  // ------------------------------------------------- the history it stands for

  /** The buckets after recording a history, oldest first. */
  function Replay(history: seq<nat>): (r: seq<Bucket>)
    ensures |r| == SLOTS
  {
    if history == [] then Fresh()
    else Recorded(Replay(history[..|history| - 1]), history[|history| - 1])
  }

  function Newest(history: seq<nat>): nat {
    if history == [] then 0 else Max(Newest(history[..|history| - 1]), history[|history| - 1])
  }

  function Events(history: seq<nat>, minute: nat): nat {
    if history == [] then 0
    else
      Events(history[..|history| - 1], minute)
      + if history[|history| - 1] == minute then 1 else 0
  }

  predicate InWindow(minute: nat, now: nat) {
    now < minute + 15
  }

  /** How many recorded events fall in the fifteen minutes ending with `now`. */
  function Recent(history: seq<nat>, now: nat): nat {
    if history == [] then 0
    else
      Recent(history[..|history| - 1], now)
      + if InWindow(history[|history| - 1], now) then 1 else 0
  }

  /** Every record comes less than fifteen minutes behind the newest one before it. */
  ghost predicate OnTime(history: seq<nat>) {
    history != [] ==>
      var (before, minute) := (history[..|history| - 1], history[|history| - 1]);
      OnTime(before) && minute < U64_MAX && InWindow(minute, Newest(before))
  }

  /** The minute of the current window that shares its bucket with `minute`. */
  function Shadow(minute: nat, newest: nat): (r: nat)
    requires minute <= newest
  {
    newest - (newest - minute) % SLOTS
  }

  /** Every record is on time, or comes so late that it is outside the window and
      shares its bucket with a minute of the window in which nothing happened. */
  ghost predicate Harmless(history: seq<nat>) {
    history != [] ==>
      var (before, minute) := (history[..|history| - 1], history[|history| - 1]);
      && Harmless(before) && minute < U64_MAX
      && (InWindow(minute, Newest(before)) || Events(before, Shadow(minute, Newest(before))) == 0)
  }

  // -------------------------------------------------------------- invariant

  /** What a bucket says about the minutes of the window that map to it. */
  ghost predicate SlotOk(b: Bucket, slot: nat, history: seq<nat>, newest: nat) {
    && (b.minute == U64_MAX || (b.minute <= newest && b.minute % SLOTS == slot))
    && (b.minute != U64_MAX && InWindow(b.minute, newest) ==>
          b.count == Events(history, b.minute) % U32)
    && (forall m: nat :: m % SLOTS == slot && (m != b.minute || m == U64_MAX) && InWindow(m, newest) ==>
          Events(history, m) == 0)
  }

  ghost predicate Tracks(buckets: seq<Bucket>, history: seq<nat>) {
    |buckets| == SLOTS
    && forall slot :: 0 <= slot < SLOTS ==> SlotOk(buckets[slot], slot, history, Newest(history))
  }

  lemma {:induction false} NothingAfterNewest(history: seq<nat>, minute: nat)
    requires minute > Newest(history)
    ensures Events(history, minute) == 0
  {
    if history != [] {
      NothingAfterNewest(history[..|history| - 1], minute);
    }
  }

  lemma ShadowSharesBucket(minute: nat, newest: nat)
    requires minute <= newest
    ensures Shadow(minute, newest) % SLOTS == minute % SLOTS
    ensures minute <= Shadow(minute, newest) <= newest && InWindow(Shadow(minute, newest), newest)
  {
  }

  lemma OnlyShadow(minute: nat, m: nat, newest: nat)
    requires minute <= newest && m <= newest && InWindow(m, newest) && m % SLOTS == minute % SLOTS
    ensures m == Shadow(minute, newest)
  {
  }

  lemma OneMore(before: seq<nat>, minute: nat, m: nat)
    ensures Newest(before + [minute]) == Max(Newest(before), minute)
    ensures Events(before + [minute], m) == Events(before, m) + if m == minute then 1 else 0
  {
    assert (before + [minute])[..|before|] == before;
  }

  /** A record that is on time, or late into an empty bucket, keeps the bucket it
      falls into in step with the history. */
  lemma RecordHits(b: Bucket, before: seq<nat>, minute: nat)
    requires minute < U64_MAX && SlotOk(b, minute % SLOTS, before, Newest(before))
    requires InWindow(minute, Newest(before))
      || Events(before, Shadow(minute, Newest(before))) == 0
    ensures var count := if b.minute == minute then b.count else 0;
      SlotOk(Bucket(minute, (count + 1) % U32), minute % SLOTS, before + [minute],
             Newest(before + [minute]))
  {
    var history := before + [minute];
    var newest := Newest(before);
    OneMore(before, minute, minute);
    forall m: nat | m % SLOTS == minute % SLOTS && m != minute && InWindow(m, Newest(history))
      ensures Events(history, m) == 0
    {
      OneMore(before, minute, m);
      NoOtherEvents(b, before, minute, m);
    }
    if InWindow(minute, newest) {
      CountCarriesOver(b, before, minute);
      var count := if b.minute == minute then b.count else 0;
      AddModular(count, 1, Events(before, minute), 1);
    }
  }

  lemma NoOtherEvents(b: Bucket, before: seq<nat>, minute: nat, m: nat)
    requires minute < U64_MAX && SlotOk(b, minute % SLOTS, before, Newest(before))
    requires InWindow(minute, Newest(before))
      || Events(before, Shadow(minute, Newest(before))) == 0
    requires m % SLOTS == minute % SLOTS && m != minute && InWindow(m, Max(Newest(before), minute))
    ensures Events(before, m) == 0
  {
    var newest := Newest(before);
    if m > newest {
      NothingAfterNewest(before, m);
    } else if !InWindow(minute, newest) {
      OnlyShadow(minute, m, newest);
    } else if minute <= newest {
      OnlyShadow(minute, m, newest);
      ShadowWhenOnTime(minute, newest);
    }
  }

  lemma ShadowWhenOnTime(minute: nat, newest: nat)
    requires minute <= newest && InWindow(minute, newest)
    ensures Shadow(minute, newest) == minute
  {
  }

  /** What the bucket holds for a minute on time is what has been recorded in it. */
  lemma CountCarriesOver(b: Bucket, before: seq<nat>, minute: nat)
    requires minute < U64_MAX && SlotOk(b, minute % SLOTS, before, Newest(before))
    requires InWindow(minute, Newest(before))
    ensures (if b.minute == minute then b.count else 0) == Events(before, minute) % U32
  {
    if minute > Newest(before) {
      NothingAfterNewest(before, minute);
    }
  }

  lemma RecordMisses(b: Bucket, slot: nat, before: seq<nat>, minute: nat)
    requires minute % SLOTS != slot && SlotOk(b, slot, before, Newest(before))
    ensures SlotOk(b, slot, before + [minute], Newest(before + [minute]))
  {
    var history := before + [minute];
    OneMore(before, minute, b.minute);
    forall m: nat | m % SLOTS == slot && (m != b.minute || m == U64_MAX) && InWindow(m, Newest(history))
      ensures Events(history, m) == 0
    {
      OneMore(before, minute, m);
      if m > Newest(before) {
        NothingAfterNewest(before, m);
      }
    }
  }

  lemma RecordTracks(buckets: seq<Bucket>, before: seq<nat>, minute: nat)
    requires minute < U64_MAX && Tracks(buckets, before)
    requires InWindow(minute, Newest(before))
      || Events(before, Shadow(minute, Newest(before))) == 0
    ensures Tracks(Recorded(buckets, minute), before + [minute])
  {
    forall slot | 0 <= slot < SLOTS
      ensures SlotOk(Recorded(buckets, minute)[slot], slot, before + [minute],
                     Newest(before + [minute]))
    {
      if slot == minute % SLOTS {
        RecordHits(buckets[slot], before, minute);
      } else {
        RecordMisses(buckets[slot], slot, before, minute);
      }
    }
  }

  lemma {:induction false} HarmlessTracks(history: seq<nat>)
    requires Harmless(history)
    ensures Tracks(Replay(history), history)
  {
    if history != [] {
      var before, minute := history[..|history| - 1], history[|history| - 1];
      assert history == before + [minute];
      HarmlessTracks(before);
      RecordTracks(Replay(before), before, minute);
    }
  }

  lemma {:induction false} OnTimeIsHarmless(history: seq<nat>)
    requires OnTime(history)
    ensures Harmless(history)
  {
    if history != [] {
      OnTimeIsHarmless(history[..|history| - 1]);
    }
  }

  // ------------------------------------------------------------------ totals

  /** Recent events whose minute maps to `slot`. */
  function RecentIn(history: seq<nat>, now: nat, slot: nat): nat {
    if history == [] then 0
    else
      var minute := history[|history| - 1];
      RecentIn(history[..|history| - 1], now, slot)
      + if InWindow(minute, now) && minute % SLOTS == slot then 1 else 0
  }

  function PerSlot(history: seq<nat>, now: nat): seq<nat> {
    seq(SLOTS, slot requires 0 <= slot < SLOTS => RecentIn(history, now, slot))
  }

  lemma {:induction false} RecentBySlot(history: seq<nat>, now: nat)
    ensures Recent(history, now) == Sum(PerSlot(history, now))
  {
    if history == [] {
      SumZero(PerSlot(history, now));
    } else {
      var before, minute := history[..|history| - 1], history[|history| - 1];
      RecentBySlot(before, now);
      var slot := minute % SLOTS;
      var parts := PerSlot(before, now);
      SumUpdate(parts, slot, RecentIn(history, now, slot));
      assert PerSlot(history, now) == parts[slot := RecentIn(history, now, slot)];
    }
  }

  /** If at most one minute of the window can have events in a slot, the slot's
      recent events are that minute's. */
  lemma {:induction false} RecentIsOneMinute(history: seq<nat>, now: nat, slot: nat, only: nat)
    requires only % SLOTS == slot
    requires forall m: nat :: m % SLOTS == slot && m != only && InWindow(m, now) ==> Events(history, m) == 0
    ensures RecentIn(history, now, slot) == if InWindow(only, now) then Events(history, only) else 0
  {
    if history != [] {
      var before, minute := history[..|history| - 1], history[|history| - 1];
      forall m: nat | m % SLOTS == slot && m != only && InWindow(m, now)
        ensures Events(before, m) == 0
      {
        assert Events(history, m) == 0;
      }
      RecentIsOneMinute(before, now, slot, only);
      assert InWindow(minute, now) && minute % SLOTS == slot && minute != only ==>
          Events(history, minute) > 0;
    }
  }

  lemma SlotContribution(b: Bucket, slot: nat, history: seq<nat>, now: nat)
    requires slot < SLOTS && SlotOk(b, slot, history, Newest(history)) && Newest(history) <= now
    ensures Contribution(b, now) == RecentIn(history, now, slot) % U32
  {
    if b.minute == U64_MAX {
      var only := slot + SLOTS * (now + 1);
      assert only % SLOTS == slot;
      NothingAfterNewest(history, only);
      RecentIsOneMinute(history, now, slot, only);
    } else {
      RecentIsOneMinute(history, now, slot, b.minute);
    }
  }

  lemma {:induction false} SumModular(xs: seq<nat>, ys: seq<nat>)
    requires |xs| == |ys| && forall i :: 0 <= i < |xs| ==> xs[i] == ys[i] % U32
    ensures Sum(xs) % U32 == Sum(ys) % U32
  {
    if xs != [] {
      SumModular(xs[1..], ys[1..]);
      AddModular(xs[0], Sum(xs[1..]), ys[0], Sum(ys[1..]));
    }
  }

  lemma AddModular(a: nat, b: nat, c: nat, d: nat)
    requires a == c % U32 && b % U32 == d % U32
    ensures (a + b) % U32 == (c + d) % U32
  {
    AddMultiple(a + b % U32, b / U32);
    AddMultiple(a + b % U32, c / U32 + d / U32);
  }

  lemma AddMultiple(x: nat, k: nat)
    ensures (U32 * k + x) % U32 == x % U32
  {
  }

  lemma {:induction false} RecentBounded(history: seq<nat>, now: nat)
    ensures Recent(history, now) <= |history|
  {
    if history != [] {
      RecentBounded(history[..|history| - 1], now);
    }
  }

  lemma TrackedTotal(history: seq<nat>, now: nat)
    requires Harmless(history) && Newest(history) <= now
    ensures var parts := Contributions(Replay(history), now);
      && (forall slot :: 0 <= slot < SLOTS ==> parts[slot] == RecentIn(history, now, slot) % U32)
      && Sum(parts) % U32 == Recent(history, now) % U32
  {
    HarmlessTracks(history);
    forall slot | 0 <= slot < SLOTS
      ensures Contributions(Replay(history), now)[slot] == PerSlot(history, now)[slot] % U32
    {
      SlotContribution(Replay(history)[slot], slot, history, now);
    }
    SumModular(Contributions(Replay(history), now), PerSlot(history, now));
    RecentBySlot(history, now);
  }

  /** For records on time and a query no earlier than the newest of them, the ring
      counts the last fifteen minutes of history (in 32 bits). */
  lemma RingCountsRecent(history: seq<nat>, now: nat)
    requires OnTime(history) && Newest(history) <= now
    ensures Total(Replay(history), now) == Recent(history, now) % U32
  {
    OnTimeIsHarmless(history);
    TrackedTotal(history, now);
  }

  ghost predicate Exact(history: seq<nat>) {
    Total(Replay(history), Newest(history)) == Recent(history, Newest(history))
  }

  lemma ShadowEvents(before: seq<nat>, minute: nat)
    requires minute <= Newest(before)
    ensures RecentIn(before, Newest(before), minute % SLOTS) == Events(before, Shadow(minute, Newest(before)))
  {
    var newest := Newest(before);
    var shadow := Shadow(minute, newest);
    ShadowSharesBucket(minute, newest);
    forall m: nat | m % SLOTS == minute % SLOTS && m != shadow && InWindow(m, newest)
      ensures Events(before, m) == 0
    {
      if m > newest {
        NothingAfterNewest(before, m);
      } else {
        OnlyShadow(minute, m, newest);
      }
    }
    RecentIsOneMinute(before, newest, minute % SLOTS, shadow);
  }

  /** A record that comes too late wipes out what its bucket had counted. */
  lemma LateRecordLoses(before: seq<nat>, minute: nat)
    requires Harmless(before) && |before| < U32 && minute < U64_MAX
    requires !InWindow(minute, Newest(before))
    ensures var history := before + [minute];
      && Newest(history) == Newest(before)
      && Total(Replay(history), Newest(history)) + Events(before, Shadow(minute, Newest(before)))
        == Recent(history, Newest(history))
  {
    var history, now, slot := before + [minute], Newest(before), minute % SLOTS;
    assert history[..|before|] == before;
    var parts, exact := Contributions(Replay(before), now), PerSlot(before, now);
    TrackedTotal(before, now);
    ShadowEvents(before, minute);
    RecentBySlot(before, now);
    RecentBounded(before, now);
    DropSlot(parts, exact, slot);
    LateContributions(Replay(before), minute, now);
  }

  lemma DropSlot(xs: seq<nat>, ys: seq<nat>, slot: nat)
    requires |xs| == |ys| && forall i :: 0 <= i < |xs| ==> xs[i] == ys[i] % U32
    requires slot < |xs| && Sum(ys) < U32
    ensures Sum(xs[slot := 0]) % U32 + ys[slot] == Sum(ys)
  {
    forall i | 0 <= i < |ys| ensures xs[i] == ys[i] {
      SumAtLeast(ys, i);
    }
    assert xs == ys;
    SumUpdate(ys, slot, 0);
  }

  lemma LateContributions(buckets: seq<Bucket>, minute: nat, now: nat)
    requires |buckets| == SLOTS && minute < U64_MAX && !InWindow(minute, now)
    ensures Contributions(Recorded(buckets, minute), now)
      == Contributions(buckets, now)[minute % SLOTS := 0]
  {
  }

  /** The ring counts right after every record. */
  ghost predicate ExactThroughout(history: seq<nat>) {
    forall i :: 0 <= i <= |history| ==> Exact(history[..i])
  }

  lemma ExactThroughoutStep(before: seq<nat>, minute: nat)
    ensures ExactThroughout(before + [minute])
      <==> ExactThroughout(before) && Exact(before + [minute])
  {
    var history := before + [minute];
    assert history[..|history|] == history;
    assert forall i :: 0 <= i <= |before| ==> before[..i] == history[..i];
  }

  /** Below 2^32 records, the ring counts right after every record exactly when no
      late record meets a minute of the window that holds events. */
  lemma {:induction false} ExactIffHarmless(history: seq<nat>)
    requires |history| < U32 && forall m :: m in history ==> m < U64_MAX
    ensures ExactThroughout(history) <==> Harmless(history)
  {
    if history == [] {
      assert history[..0] == [];
      TrackedTotal([], 0);
    } else {
      var before, minute := history[..|history| - 1], history[|history| - 1];
      assert minute in history && forall m :: m in before ==> m in history;
      assert before + [minute] == history;
      ExactIffHarmless(before);
      ExactThroughoutStep(before, minute);
      if Harmless(before) {
        ExactStep(before, minute);
      }
    }
  }

  lemma ExactStep(before: seq<nat>, minute: nat)
    requires Harmless(before) && |before| + 1 < U32 && minute < U64_MAX
    ensures Exact(before + [minute]) <==> Harmless(before + [minute])
  {
    HarmlessStep(before, minute);
    if Harmless(before + [minute]) {
      HarmlessExact(before + [minute]);
    } else {
      LateRecordLoses(before, minute);
    }
  }

  lemma HarmlessExact(history: seq<nat>)
    requires Harmless(history) && |history| < U32
    ensures Exact(history)
  {
    var now := Newest(history);
    TrackedTotal(history, now);
    RecentBounded(history, now);
    SmallModulo(Recent(history, now));
  }

  lemma SmallModulo(x: nat)
    requires x < U32
    ensures x % U32 == x
  {
  }

  lemma HarmlessStep(before: seq<nat>, minute: nat)
    requires Harmless(before) && minute < U64_MAX
    ensures Harmless(before + [minute]) <==>
      InWindow(minute, Newest(before)) || Events(before, Shadow(minute, Newest(before))) == 0
  {
    assert (before + [minute])[..|before|] == before;
  }
}
