/** The size-aware dispatcher: staged jobs are swept from the prefetch channel
    into a window and picked from it, sighted jobs first, then jobs that have
    waited too long, then by size. */
module ReorderWindow {
  import opened Prelude

  datatype Order = Fifo | Smallest | Largest

  /** `size` is negative when the server does not know it. */
  datatype Job = Job(id: nat, size: int, sighted: bool) {
    function Bytes(): nat {
      if size < 0 then 0 else size
    }
  }

  datatype Entry = Entry(job: Job, at: nat)

  type Window = seq<Entry>

  // ---------------------------------------------------------------- choice

  predicate Aged(e: Entry, now: nat, maxWait: nat) {
    SatSub(now, e.at) >= maxWait
  }

  /** Index of the first of the longest-staged entries among those kept by
      `keep` in the first `n`: `min_by_key` returns the first minimum. */
  function Oldest(w: Window, keep: Entry -> bool, n: nat): (r: Option<nat>)
    requires n <= |w|
    ensures r.None? <==> forall i :: 0 <= i < n ==> !keep(w[i])
    ensures r.Some? ==> r.value < n && keep(w[r.value])
    ensures r.Some? ==> forall i :: 0 <= i < n && keep(w[i]) ==> w[r.value].at <= w[i].at
    ensures r.Some? ==> forall i :: 0 <= i < r.value && keep(w[i]) ==> w[r.value].at < w[i].at
  {
    if n == 0 then None
    else
      var before := Oldest(w, keep, n - 1);
      if keep(w[n - 1]) && (before.None? || w[n - 1].at < w[before.value].at) then Some(n - 1)
      else before
  }

  /** Index of the first smallest of the first `n` entries. */
  function SmallestOf(w: Window, n: nat): (i: nat)
    requires 0 < n <= |w|
    ensures i < n
    ensures forall k :: 0 <= k < n ==> w[i].job.Bytes() <= w[k].job.Bytes()
    ensures forall k :: 0 <= k < i ==> w[i].job.Bytes() < w[k].job.Bytes()
  {
    if n == 1 then 0
    else
      var before := SmallestOf(w, n - 1);
      if w[n - 1].job.Bytes() < w[before].job.Bytes() then n - 1 else before
  }

  /** Index of the last largest of the first `n` entries: `max_by_key` returns
      the last maximum. */
  function LargestOf(w: Window, n: nat): (i: nat)
    requires 0 < n <= |w|
    ensures i < n
    ensures forall k :: 0 <= k < n ==> w[k].job.Bytes() <= w[i].job.Bytes()
    ensures forall k :: i < k < n ==> w[k].job.Bytes() < w[i].job.Bytes()
  {
    if n == 1 then 0
    else
      var before := LargestOf(w, n - 1);
      if w[n - 1].job.Bytes() >= w[before].job.Bytes() then n - 1 else before
  }

  /** Which entry goes next; nothing only when the window is empty. */
  function Choose(w: Window, order: Order, now: nat, maxWait: nat): (r: Option<nat>)
    ensures r.None? <==> w == []
    ensures r.Some? ==> r.value < |w|
  {
    var sighted := Oldest(w, (e: Entry) => e.job.sighted, |w|);
    if sighted.Some? then sighted
    else
      var aged := Oldest(w, (e: Entry) => Aged(e, now, maxWait), |w|);
      if aged.Some? then aged
      else if w == [] then None
      else if order.Largest? then Some(LargestOf(w, |w|))
      else Some(SmallestOf(w, |w|))
  }

  /** The priorities in full: a sighted entry beats any other and is the oldest
      of its kind; failing those one that has waited `maxWait` out, oldest first;
      failing those the extreme size of the configured order, an unknown size
      counting as zero. */
  lemma ChoicePriorities(w: Window, order: Order, now: nat, maxWait: nat)
    requires w != []
    ensures var c := w[Choose(w, order, now, maxWait).value];
      var anySighted := exists e :: e in w && e.job.sighted;
      var anyAged := maxWait == 0 || exists e :: e in w && e.at + maxWait <= now;
      && (c.job.sighted <==> anySighted)
      && (anySighted ==> forall e :: e in w && e.job.sighted ==> c.at <= e.at)
      && (!anySighted && anyAged ==>
            (maxWait == 0 || c.at + maxWait <= now) && forall e :: e in w ==> c.at <= e.at)
      && (!anySighted && !anyAged && order.Largest? ==>
            forall e :: e in w ==> e.job.size <= c.job.size || e.job.size <= 0)
      && (!anySighted && !anyAged && !order.Largest? ==>
            forall e :: e in w ==> c.job.size <= e.job.size || c.job.size <= 0)
  {
    var sighted := Oldest(w, (e: Entry) => e.job.sighted, |w|);
    var aged := Oldest(w, (e: Entry) => Aged(e, now, maxWait), |w|);
    assert sighted.Some? <==> exists e :: e in w && e.job.sighted;
    assert aged.Some? <==> exists e :: e in w && Aged(e, now, maxWait);
    assert forall e :: e in w ==> (Aged(e, now, maxWait) <==> maxWait == 0 || e.at + maxWait <= now);
  }

  /** Among equals the place in the window decides: of the oldest sighted or waited-out
      entries and of the smallest the first goes, of the largest the last. */
  lemma ChoiceTies(w: Window, order: Order, now: nat, maxWait: nat, k: nat)
    requires k < |w|
    ensures var i := Choose(w, order, now, maxWait).value;
      var c, e := w[i], w[k];
      && (e.job.sighted && c.job.sighted && e.at == c.at ==> i <= k)
      && (!c.job.sighted && (maxWait == 0 || c.at + maxWait <= now) && e.at == c.at ==> i <= k)
      && (!c.job.sighted && maxWait != 0 && c.at + maxWait > now
          && (e.job.size == c.job.size || (e.job.size <= 0 && c.job.size <= 0)) ==>
            if order.Largest? then k <= i else i <= k)
  {
    var sighted := Oldest(w, (e: Entry) => e.job.sighted, |w|);
    var aged := Oldest(w, (e: Entry) => Aged(e, now, maxWait), |w|);
    ChoicePriorities(w, order, now, maxWait);
  }

  // --------------------------------------------------------------- removal

  /** `Vec::swap_remove`: the last entry takes the place of the removed one. */
  function SwapRemove<T>(s: seq<T>, i: nat): seq<T>
    requires i < |s|
  {
    s[i := s[|s| - 1]][..|s| - 1]
  }

  /** Only the chosen entry leaves, whatever the reordering. */
  lemma SwapRemoveKeepsOthers<T>(s: seq<T>, i: nat)
    requires i < |s|
    ensures multiset(SwapRemove(s, i)) + multiset{s[i]} == multiset(s)
  {
    var last := |s| - 1;
    var swapped := s[i := s[last]];
    assert swapped == swapped[..last] + [swapped[last]];
    assert s == s[..last] + [s[last]];
  }

  function Count(w: Window, keep: Entry -> bool): nat {
    if w == [] then 0 else (if keep(w[0]) then 1 else 0) + Count(w[1..], keep)
  }

  lemma {:induction false} CountAppend(w: Window, e: Entry, keep: Entry -> bool)
    ensures Count(w + [e], keep) == Count(w, keep) + if keep(e) then 1 else 0
  {
    if w == [] {
      assert w + [e] == [e];
      assert Count([e], keep) == (if keep(e) then 1 else 0) + Count([], keep);
    } else {
      assert (w + [e])[1..] == w[1..] + [e];
      CountAppend(w[1..], e, keep);
    }
  }

  lemma {:induction false} CountReplace(w: Window, i: nat, e: Entry, keep: Entry -> bool)
    requires i < |w|
    ensures Count(w[i := e], keep) + (if keep(w[i]) then 1 else 0)
      == Count(w, keep) + if keep(e) then 1 else 0
  {
    if i == 0 {
      assert w[0 := e][1..] == w[1..];
    } else {
      assert w[i := e][1..] == w[1..][i - 1 := e];
      CountReplace(w[1..], i - 1, e, keep);
    }
  }

  lemma CountSwapRemove(w: Window, i: nat, keep: Entry -> bool)
    requires i < |w|
    ensures Count(SwapRemove(w, i), keep) + (if keep(w[i]) then 1 else 0) == Count(w, keep)
  {
    var front, last := w[..|w| - 1], w[|w| - 1];
    assert w == front + [last];
    CountAppend(front, last, keep);
    if i < |front| {
      CountReplace(front, i, last, keep);
      assert SwapRemove(w, i) == front[i := last];
    } else {
      assert SwapRemove(w, i) == front;
    }
  }

  // ----------------------------------------------------- the shared source

  /** The clock is read anew for every job of a sweep: `at(i)` is the reading for
      the `i`-th. */
  function Stage(jobs: seq<Job>, at: nat -> nat): Window {
    seq(|jobs|, i requires 0 <= i < |jobs| => Entry(jobs[i], at(i)))
  }

  function Jobs(w: Window): seq<Job> {
    seq(|w|, i requires 0 <= i < |w| => w[i].job)
  }

  lemma JobsConcat(v: Window, w: Window)
    ensures Jobs(v + w) == Jobs(v) + Jobs(w)
  {
  }

  class JobSource {
    const order: Order
    const maxWait: nat
    var channel: seq<Job>
    var reorder: Window

    constructor (order: Order, maxWait: nat)
      ensures this.order == order && this.maxWait == maxWait
      ensures channel == [] && reorder == [] && Valid()
    {
      this.order := order;
      this.maxWait := maxWait;
      channel := [];
      reorder := [];
    }

    /** Handout order never uses the window. */
    ghost predicate Valid()
      reads this
    {
      order.Fifo? ==> reorder == []
    }

    /** Everything staged and not yet handed to a slot. */
    ghost function Holding(): multiset<Job>
      reads this
    {
      multiset(channel) + multiset(Jobs(reorder))
    }

    method Sweep(at: nat -> nat)
      modifies this
      ensures reorder == old(reorder) + Stage(old(channel), at) && channel == []
    {
      ghost var jobs := channel;
      var read := 0;
      while channel != []
        invariant read <= |jobs| && channel == jobs[read..]
        invariant reorder == old(reorder) + Stage(jobs, at)[..read]
        decreases |channel|
      {
        reorder := reorder + [Entry(channel[0], at(read))];
        channel := channel[1..];
        read := read + 1;
      }
      assert Stage(jobs, at)[..|jobs|] == Stage(jobs, at);
    }

    method PickFromReorder(now: nat) returns (picked: Option<Job>)
      modifies this`reorder
      ensures picked.None? <==> old(reorder) == []
      ensures picked.None? ==> reorder == []
      ensures picked.Some? ==>
        var i := Choose(old(reorder), order, now, maxWait).value;
        picked.value == old(reorder)[i].job && reorder == SwapRemove(old(reorder), i)
    {
      var choice := Choose(reorder, order, now, maxWait);
      if choice.None? {
        return None;
      }
      picked := Some(reorder[choice.value].job);
      reorder := SwapRemove(reorder, choice.value);
    }

    method RecvFifo(arrivals: seq<Job>) returns (picked: Option<Job>)
      modifies this`channel
      ensures var queue := if old(channel) == [] then arrivals else old(channel);
        && (picked.None? <==> queue == [])
        && (picked.None? ==> channel == [])
        && (picked.Some? ==> [picked.value] + channel == queue)
        && (picked.Some? ==> multiset{picked.value} + multiset(channel) == multiset(queue))
    {
      if channel == [] {
        channel := arrivals;
      }
      if channel == [] {
        return None;
      }
      picked := Some(channel[0]);
      assert channel == [channel[0]] + channel[1..];
      channel := channel[1..];
    }

    method RecvBySize(arrivals: seq<Job>, at: nat -> nat, now: nat) returns (picked: Option<Job>)
      modifies this
      ensures var window := Gathered(old(channel), old(reorder), arrivals, at);
        && channel == []
        && (picked.None? <==> window == [])
        && (picked.None? ==> reorder == [])
        && (picked.Some? ==>
              var i := Choose(window, order, now, maxWait).value;
              picked.value == window[i].job && reorder == SwapRemove(window, i))
      ensures var jobs := if old(channel) == [] && old(reorder) == [] then arrivals else old(channel);
        multiset(Jobs(reorder)) + (if picked.Some? then multiset{picked.value} else multiset{})
          == multiset(Jobs(old(reorder))) + multiset(jobs)
    {
      GatheredConserves(channel, reorder, arrivals, at);
      ghost var window := Gathered(channel, reorder, arrivals, at);
      Sweep(at);
      if reorder == [] {
        channel := arrivals;
        if channel == [] {
          return None;
        }
        Sweep(at);
      }
      assert reorder == window;
      picked := PickFromReorder(now);
      if picked.Some? {
        PickConserves(window, Choose(window, order, now, maxWait).value);
      }
    }

    /** The next job to dispatch. `arrivals` is what lands in the channel if this
        call has to wait for it, empty when every sender is gone; `at` are the
        clock's readings while sweeping and `now` the one while picking.

        Nothing is invented, lost or handed out twice, and the answer is None
        only when the senders are gone and nothing is left anywhere. */
    method Recv(arrivals: seq<Job>, at: nat -> nat, now: nat) returns (picked: Option<Job>)
      requires Valid()
      modifies this
      ensures Valid()
      ensures picked.None? <==> old(channel) == [] && old(reorder) == [] && arrivals == []
      ensures var waited := old(channel) == [] && old(reorder) == [];
        Holding() + (if picked.Some? then multiset{picked.value} else multiset{})
          == old(Holding()) + if waited then multiset(arrivals) else multiset{}
      ensures order.Fifo? && picked.Some? ==>
        [picked.value] + channel == if old(channel) == [] then arrivals else old(channel)
      ensures !order.Fifo? && picked.Some? ==>
        var window := Gathered(old(channel), old(reorder), arrivals, at);
        var i := Choose(window, order, now, maxWait).value;
        picked.value == window[i].job && reorder == SwapRemove(window, i) && channel == []
    {
      if order.Fifo? {
        assert Jobs(reorder) == [];
        picked := RecvFifo(arrivals);
      } else {
        picked := RecvBySize(arrivals, at, now);
        assert Holding() == multiset(Jobs(reorder));
      }
    }
  }

  /** The window a pick works on: everything held, or, when that is nothing, the
      jobs that arrive while waiting. */
  function Gathered(channel: seq<Job>, reorder: Window, arrivals: seq<Job>, at: nat -> nat): Window {
    reorder + Stage(if channel == [] && reorder == [] then arrivals else channel, at)
  }

  lemma GatheredConserves(channel: seq<Job>, reorder: Window, arrivals: seq<Job>, at: nat -> nat)
    ensures multiset(Jobs(Gathered(channel, reorder, arrivals, at)))
      == multiset(Jobs(reorder))
         + multiset(if channel == [] && reorder == [] then arrivals else channel)
  {
    var jobs := if channel == [] && reorder == [] then arrivals else channel;
    assert Jobs(Stage(jobs, at)) == jobs;
    JobsConcat(reorder, Stage(jobs, at));
  }

  lemma PickConserves(w: Window, i: nat)
    requires i < |w|
    ensures multiset(Jobs(SwapRemove(w, i))) + multiset{w[i].job} == multiset(Jobs(w))
  {
    assert Jobs(SwapRemove(w, i)) == SwapRemove(Jobs(w), i);
    SwapRemoveKeepsOthers(Jobs(w), i);
  }

  // ---------------------------------------------------- bounded overtaking

  /** A history of the window under one monotone clock. */
  datatype Event =
    | Stages(job: Job, at: nat)
    | Picks(now: nat)

  datatype State = State(window: Window, clock: nat, picked: seq<Entry>)

  predicate Enabled(s: State, e: Event) {
    match e
    case Stages(_, at) => at >= s.clock
    case Picks(now) => now >= s.clock && s.window != []
  }

  function Next(s: State, e: Event, order: Order, maxWait: nat): State
    requires Enabled(s, e)
  {
    match e
    case Stages(job, at) => State(s.window + [Entry(job, at)], at, s.picked)
    case Picks(now) =>
      var i := Choose(s.window, order, now, maxWait).value;
      State(SwapRemove(s.window, i), now, s.picked + [s.window[i]])
  }

  function Exec(s: State, run: seq<Event>, order: Order, maxWait: nat): Option<State>
    decreases |run|
  {
    if run == [] then Some(s)
    else if Enabled(s, run[0]) then Exec(Next(s, run[0], order, maxWait), run[1..], order, maxWait)
    else None
  }

  /** An ordinary job that may still go before `x`. */
  predicate IsAhead(x: Entry, e: Entry) {
    !e.job.sighted && e != x && e.at <= x.at
  }

  function Ahead(w: Window, x: Entry): nat {
    Count(w, (e: Entry) => IsAhead(x, e))
  }

  function Ordinary(picked: seq<Entry>): nat {
    Count(picked, (e: Entry) => !e.job.sighted)
  }

  /** `x` is an ordinary job in the window that has waited out the bound. */
  ghost predicate Overdue(s: State, x: Entry, maxWait: nat) {
    x in s.window && !x.job.sighted && x.at + maxWait <= s.clock
  }

  ghost predicate ClockAhead(s: State) {
    forall e :: e in s.window ==> e.at <= s.clock
  }

  lemma OverdueStep(s: State, e: Event, order: Order, maxWait: nat, x: Entry)
    requires maxWait > 0 && Enabled(s, e) && Overdue(s, x, maxWait) && ClockAhead(s)
    ensures var s' := Next(s, e, order, maxWait);
      && ClockAhead(s')
      && s.picked <= s'.picked
      && (s'.picked != s.picked + [x] ==>
            && Overdue(s', x, maxWait)
            && Ordinary(s'.picked) + Ahead(s'.window, x) == Ordinary(s.picked) + Ahead(s.window, x)
            && (e.Picks? ==> s'.picked[|s.picked|].job.sighted || s'.picked[|s.picked|].at <= x.at))
  {
    if e.Stages? {
      CountAppend(s.window, Entry(e.job, e.at), (y: Entry) => IsAhead(x, y));
    } else {
      OverduePick(s, e.now, order, maxWait, x);
    }
  }

  /** A pick takes the overdue job, or a sighted one, or one ahead of it. */
  lemma OverduePick(s: State, now: nat, order: Order, maxWait: nat, x: Entry)
    requires maxWait > 0 && Enabled(s, Picks(now)) && Overdue(s, x, maxWait) && ClockAhead(s)
    ensures var s' := Next(s, Picks(now), order, maxWait);
      var y := s'.picked[|s.picked|];
      && ClockAhead(s')
      && (y != x ==>
            && Overdue(s', x, maxWait)
            && Ordinary(s'.picked) + Ahead(s'.window, x) == Ordinary(s.picked) + Ahead(s.window, x)
            && (y.job.sighted || y.at <= x.at))
  {
    var s' := Next(s, Picks(now), order, maxWait);
    var i := Choose(s.window, order, now, maxWait).value;
    var y := s.window[i];
    StaysUnlessRemoved(s.window, i, x);
    if y != x {
      ChoicePriorities(s.window, order, now, maxWait);
      CountSwapRemove(s.window, i, (z: Entry) => IsAhead(x, z));
      CountAppend(s.picked, y, (z: Entry) => !z.job.sighted);
    }
  }

  lemma StaysUnlessRemoved(w: Window, i: nat, x: Entry)
    requires i < |w|
    ensures forall z :: z in SwapRemove(w, i) ==> z in w
    ensures x in w && w[i] != x ==> x in SwapRemove(w, i)
  {
    var rest := SwapRemove(w, i);
    if x in w && w[i] != x {
      var k :| 0 <= k < |w| && w[k] == x;
      assert rest[if k == |w| - 1 then i else k] == x;
    }
  }

  /** Until an overdue job is picked, every ordinary pick uses up one of the jobs
      staged no later than it: later arrivals never pass it. */
  lemma {:induction false} NoLateOvertaking(s: State, run: seq<Event>, order: Order, maxWait: nat,
                                            x: Entry)
    requires maxWait > 0 && Overdue(s, x, maxWait) && ClockAhead(s) && x !in s.picked
    requires Exec(s, run, order, maxWait).Some?
    ensures var s' := Exec(s, run, order, maxWait).value;
      && s.picked <= s'.picked
      && (x !in s'.picked ==>
            && Ordinary(s'.picked) + Ahead(s'.window, x) == Ordinary(s.picked) + Ahead(s.window, x)
            && (forall k :: |s.picked| <= k < |s'.picked| ==>
                  s'.picked[k].job.sighted || s'.picked[k].at <= x.at))
    decreases |run|
  {
    if run != [] {
      var s1 := Next(s, run[0], order, maxWait);
      OverdueStep(s, run[0], order, maxWait, x);
      if s1.picked == s.picked + [x] {
        PickedGrows(s1, run[1..], order, maxWait);
        assert x in s1.picked;
      } else {
        NoLateOvertaking(s1, run[1..], order, maxWait, x);
      }
    }
  }

  lemma {:induction false} PickedGrows(s: State, run: seq<Event>, order: Order, maxWait: nat)
    requires Exec(s, run, order, maxWait).Some?
    ensures s.picked <= Exec(s, run, order, maxWait).value.picked
    decreases |run|
  {
    if run != [] {
      PickedGrows(Next(s, run[0], order, maxWait), run[1..], order, maxWait);
    }
  }

  /** From any window, however it is later fed and drained: at most as many
      ordinary jobs are dispatched before the overdue one as were ahead of it. */
  ghost predicate OvertakingBounded(order: Order, maxWait: nat) {
    forall s: State, run: seq<Event>, x: Entry ::
      Overdue(s, x, maxWait) && ClockAhead(s) && s.picked == []
      && Exec(s, run, order, maxWait).Some? && x !in Exec(s, run, order, maxWait).value.picked ==>
        Ordinary(Exec(s, run, order, maxWait).value.picked) <= Ahead(s.window, x)
  }

  /** The bound holds exactly for the waits the configuration lets through, which
      are all but zero: at zero, a job that arrives in the same instant could be
      swapped to the front and win the tie. */
  lemma BoundedExactlyWithAgeing(order: Order, maxWait: nat)
    ensures OvertakingBounded(order, maxWait) <==> maxWait > 0
  {
    if maxWait > 0 {
      forall s: State, run: seq<Event>, x: Entry |
        Overdue(s, x, maxWait) && ClockAhead(s) && s.picked == []
        && Exec(s, run, order, maxWait).Some? && x !in Exec(s, run, order, maxWait).value.picked
        ensures Ordinary(Exec(s, run, order, maxWait).value.picked) <= Ahead(s.window, x)
      {
        NoLateOvertaking(s, run, order, maxWait, x);
      }
    } else {
      TieLosesAtZero(order);
    }
  }

  /** Oldest first, and the first of the oldest on a tie. */
  lemma PicksFirst(w: Window, order: Order, now: nat)
    requires w != []
    requires forall i :: 0 <= i < |w| ==> !w[i].job.sighted && w[0].at <= w[i].at
    ensures Choose(w, order, now, 0) == Some(0)
  {
    var aged := Oldest(w, (e: Entry) => Aged(e, now, 0), |w|);
    assert Aged(w[0], now, 0);
  }

  /** The oldest job leaves, the newest takes its place, and wins the tie. */
  lemma TieRun(order: Order, y: Entry, x: Entry, z: Entry) returns (run: seq<Event>)
    requires !y.job.sighted && !x.job.sighted && !z.job.sighted
    requires y.at <= x.at == z.at
    ensures Exec(State([y, x], x.at, []), run, order, 0) == Some(State([x], x.at, [y, z]))
  {
    var t := x.at;
    PicksFirst([y, x, z], order, t);
    PicksFirst([z, x], order, t);
    assert SwapRemove([y, x, z], 0) == [z, x] && SwapRemove([z, x], 0) == [x];
    var s0, s1, s2, s3 := State([y, x], t, []), State([y, x, z], t, []), State([z, x], t, [y]),
      State([x], t, [y, z]);
    run := [Stages(z.job, t), Picks(t), Picks(t)];
    assert Next(s0, run[0], order, 0) == s1 by { assert [y, x] + [z] == [y, x, z]; }
    assert Next(s1, run[1], order, 0) == s2;
    assert Next(s2, run[2], order, 0) == s3;
    assert run[1..][1..] == run[2..] && run[2..][1..] == [];
    assert Exec(s3, [], order, 0) == Some(s3);
    assert Exec(s2, run[2..], order, 0) == Some(s3);
    assert Exec(s1, run[1..], order, 0) == Some(s3);
  }

  lemma TieLosesAtZero(order: Order)
    ensures !OvertakingBounded(order, 0)
  {
    var y, x, z := Entry(Job(0, 1, false), 0), Entry(Job(1, 1, false), 1), Entry(Job(2, 1, false), 1);
    var s := State([y, x], 1, []);
    var run := TieRun(order, y, x, z);
    CountPair(y, x, (e: Entry) => IsAhead(x, e));
    CountPair(y, z, (e: Entry) => !e.job.sighted);
    assert Overdue(s, x, 0) && ClockAhead(s);
    assert x !in Exec(s, run, order, 0).value.picked;
    assert Ordinary(Exec(s, run, order, 0).value.picked) > Ahead(s.window, x);
  }

  lemma CountPair(a: Entry, b: Entry, keep: Entry -> bool)
    ensures Count([a, b], keep) == (if keep(a) then 1 else 0) + if keep(b) then 1 else 0
  {
    assert [a, b][1..] == [b] && [b][1..] == [];
    assert Count([b], keep) == (if keep(b) then 1 else 0) + Count([], keep);
  }
}
