/** The spool told by the events of a run: what a spooled file holds, and that every
    body the spool can take can be spooled and let go of again. */
module SpoolHistory {
  import opened Prelude
  import opened SpoolProtocol

  lemma {:induction false} ExecLast(s: State, run: seq<Event>, e: Event)
    requires Exec(s, run + [e]).Some?
    ensures Exec(s, run).Some? && Enabled(Exec(s, run).value, e)
    ensures Exec(s, run + [e]) == Some(Next(Exec(s, run).value, e))
    decreases |run|
  {
    if run == [] {
      assert run + [e] == [e] && [e][1..] == [];
      assert Exec(Next(s, e), []) == Some(Next(s, e));
    } else {
      assert (run + [e])[1..] == run[1..] + [e];
      ExecLast(Next(s, run[0]), run[1..], e);
    }
  }

  lemma {:induction false} ExecConcat(s: State, a: seq<Event>, b: seq<Event>)
    requires Exec(s, a).Some?
    ensures Exec(s, a + b) == Exec(Exec(s, a).value, b)
    decreases |a|
  {
    if a == [] {
      assert a + b == b;
    } else {
      assert (a + b)[1..] == a[1..] + b;
      ExecConcat(Next(s, a[0]), a[1..], b);
    }
  }

  lemma ExecCons(s: State, e: Event, run: seq<Event>)
    requires Enabled(s, e)
    ensures Exec(s, [e] + run) == Exec(Next(s, e), run)
  {
    assert ([e] + run)[1..] == run;
  }

  // ------------------------------------------------------ a file's history

  /** Body bytes task `t` has received since its latest reservation. */
  function Received(run: seq<Event>, t: nat): nat {
    if run == [] then 0
    else
      var before := run[..|run| - 1];
      match run[|run| - 1]
      case Reserve(u, _, _) => if u == t then 0 else Received(before, t)
      case Chunk(u, n) => Received(before, t) + if u == t then n else 0
      case _ => Received(before, t)
  }

  /** Bytes task `t` has put on disk since its latest reservation. */
  function OnDisk(run: seq<Event>, t: nat): nat {
    if run == [] then 0
    else
      var before := run[..|run| - 1];
      match run[|run| - 1]
      case Reserve(u, _, _) => if u == t then 0 else OnDisk(before, t)
      case Write(u, n) => OnDisk(before, t) + if u == t then n else 0
      case _ => OnDisk(before, t)
  }

  ghost predicate Recalls(run: seq<Event>, t: nat, task: Task) {
    match task
    case Idle => true
    case Writing(_, disk) => disk == OnDisk(run, t) == Received(run, t)
    case Growing(_, disk, written) => disk == OnDisk(run, t) && written == Received(run, t)
    case Refused(_, disk, written) => disk == OnDisk(run, t) && written == Received(run, t)
    case Grown(_, disk, written, _) => disk == OnDisk(run, t) && written == Received(run, t)
    case Storing(_, disk, written) => disk == OnDisk(run, t) && written == Received(run, t)
    case Staged(_, disk) => disk == OnDisk(run, t) == Received(run, t)
    case Deleted(_) => true
  }

  lemma {:induction false} TaskRecalls(budget: nat, headroom: nat, tasks: nat, run: seq<Event>, t: nat)
    requires Exec(Init(budget, headroom, tasks), run).Some?
    requires t < |Exec(Init(budget, headroom, tasks), run).value.tasks|
    ensures Recalls(run, t, Exec(Init(budget, headroom, tasks), run).value.tasks[t])
    ensures Exec(Init(budget, headroom, tasks), run).value.headroom == headroom
    decreases |run|
  {
    if run != [] {
      var before, e := run[..|run| - 1], run[|run| - 1];
      assert run == before + [e];
      ExecLast(Init(budget, headroom, tasks), before, e);
      TaskRecalls(budget, headroom, tasks, before, t);
    }
  }

  /** A payload that is staged is the whole body received, all of it on disk. */
  lemma StagedIsBody(budget: nat, headroom: nat, tasks: nat, run: seq<Event>, t: nat)
    requires Exec(Init(budget, headroom, tasks), run).Some?
    requires var s := Exec(Init(budget, headroom, tasks), run).value;
      t < |s.tasks| && s.tasks[t].Staged?
    ensures Exec(Init(budget, headroom, tasks), run).value.tasks[t].disk == Received(run, t) == OnDisk(run, t)
  {
    TaskRecalls(budget, headroom, tasks, run, t);
  }

  // ----------------------------------------------------------- it can all end

  function Distance(task: Task): nat {
    match task
    case Idle => 0
    case Deleted(_) => 1
    case Grown(_, _, _, _) => 3
    case Refused(_, _, _) => 4
    case Growing(_, _, _) => 5
    case _ => 2
  }

  function Onward(t: nat, task: Task): Event {
    match task
    case Deleted(_) => Release(t)
    case Grown(_, _, _, _) => Record(t)
    case Refused(_, _, _) => TryExact(t, None)
    case Growing(_, _, _) => TryStep(t, None)
    case _ => Delete(t)
  }

  function Distances(s: State): seq<nat> {
    seq(|s.tasks|, i requires 0 <= i < |s.tasks| => Distance(s.tasks[i]))
  }

  lemma OnwardStep(s: State, t: nat)
    requires Inv(s) && Exact(s.budget, |s.tasks|) && t < |s.tasks| && Distance(s.tasks[t]) > 0
    ensures var e := Onward(t, s.tasks[t]);
      && Enabled(s, e) && Inv(Next(s, e)) && Sum(Distances(Next(s, e))) < Sum(Distances(s))
      && Next(s, e).budget == s.budget && Next(s, e).headroom == s.headroom
      && |Next(s, e).tasks| == |s.tasks|
  {
    var e := Onward(t, s.tasks[t]);
    StepWellFormed(s, e);
    StepAccounted(s, e);
    StepAlone(s, e);
    var s' := Next(s, e);
    assert Distances(s') == Distances(s)[t := Distance(s'.tasks[t])];
    SumUpdate(Distances(s), t, Distance(s'.tasks[t]));
  }

  lemma {:induction false} AllCanEnd(s: State) returns (run: seq<Event>)
    requires Inv(s) && Exact(s.budget, |s.tasks|)
    ensures Exec(s, run).Some?
    ensures var s' := Exec(s, run).value;
      && Inv(s') && s'.used == 0 && s'.budget == s.budget && s'.headroom == s.headroom
      && |s'.tasks| == |s.tasks| && forall t :: 0 <= t < |s.tasks| ==> s'.tasks[t].Idle?
    decreases Sum(Distances(s))
  {
    run := [];
    if Sum(Distances(s)) == 0 {
      forall t | 0 <= t < |s.tasks| ensures s.tasks[t].Idle? {
        SumAtLeast(Distances(s), t);
      }
      SumZero(s.Charges());
    } else {
      var t := SumPositive(Distances(s));
      var e := Onward(t, s.tasks[t]);
      OnwardStep(s, t);
      run := AllCanEnd(Next(s, e));
      ExecCons(s, e, run);
      run := [e] + run;
    }
  }

  /** Every reachable state can come to rest, every file gone and nothing charged. */
  lemma EverythingCanEnd(budget: nat, headroom: nat, tasks: nat, run: seq<Event>)
    returns (more: seq<Event>)
    requires Exact(budget, tasks) && Exec(Init(budget, headroom, tasks), run).Some?
    ensures var s := Exec(Init(budget, headroom, tasks), run).value;
      && Exec(s, more).Some? && Exec(s, more).value.used == 0
      && forall t :: 0 <= t < |Exec(s, more).value.tasks| ==> Exec(s, more).value.tasks[t].Idle?
  {
    InitInv(budget, headroom, tasks);
    RunInv(Init(budget, headroom, tasks), run);
    RunKeepsTasks(Init(budget, headroom, tasks), run);
    more := AllCanEnd(Exec(Init(budget, headroom, tasks), run).value);
  }

  lemma {:induction false} RunKeepsTasks(s: State, run: seq<Event>)
    requires Exec(s, run).Some?
    ensures |Exec(s, run).value.tasks| == |s.tasks|
    decreases |run|
  {
    if run != [] {
      RunKeepsTasks(Next(s, run[0]), run[1..]);
    }
  }

  // ------------------------------------------------------- it can be spooled

  /** Task `t` is the only one charged. */
  ghost predicate Alone(s: State, t: nat, task: Task) {
    t < |s.tasks| && s.tasks[t] == task && s.used == task.Charge()
  }

  /** Every reservation and chunk in `run` is one of this payload. */
  ghost predicate About(run: seq<Event>, t: nat, bytes: nat) {
    forall e :: e in run ==> (e.Reserve? ==> e == Reserve(t, bytes, None)) && (e.Chunk? ==> e.t == t)
  }

  /** One more chunk reaches the disk, the reservation growing first if it must. */
  lemma ChunkCanArrive(s: State, t: nat, bytes: nat, size: nat, disk: nat, n: nat)
    returns (run: seq<Event>, size': nat)
    requires Alone(s, t, Writing(size, disk)) && 0 < size <= MAX_JOB_BYTES && disk <= size
    requires disk + n <= MAX_JOB_BYTES && (disk + n <= size || disk + n <= s.budget)
    ensures About(run, t, bytes) && Exec(s, run).Some? && Exec(s, run).value.budget == s.budget
    ensures Alone(Exec(s, run).value, t, Writing(size', disk + n))
    ensures size <= size' <= MAX_JOB_BYTES && disk + n <= size'
  {
    var s1 := Next(s, Chunk(t, n));
    if disk + n <= size {
      size' := size;
      run := Chunked(s1, t, bytes, size, disk, n);
    } else {
      var s2 := Next(s1, TryStep(t, None));
      if s2.tasks[t].Grown? {
        size' := size + s2.tasks[t].grabbed;
        run := Recorded(s2, t, bytes, size, disk, n);
      } else {
        var s3 := Next(s2, TryExact(t, None));
        size' := disk + n;
        run := Recorded(s3, t, bytes, size, disk, n);
        ExecCons(s2, TryExact(t, None), run);
        run := [TryExact(t, None)] + run;
      }
      ExecCons(s1, TryStep(t, None), run);
      run := [TryStep(t, None)] + run;
    }
    ExecCons(s, Chunk(t, n), run);
    run := [Chunk(t, n)] + run;
  }

  lemma Recorded(s: State, t: nat, bytes: nat, size: nat, disk: nat, n: nat) returns (run: seq<Event>)
    requires t < |s.tasks| && s.tasks[t].Grown? && Alone(s, t, s.tasks[t])
    requires s.tasks[t].size == size && s.tasks[t].disk == disk && s.tasks[t].written == disk + n
    ensures About(run, t, bytes) && Exec(s, run).Some? && Exec(s, run).value.budget == s.budget
    ensures Alone(Exec(s, run).value, t, Writing(size + s.tasks[t].grabbed, disk + n))
  {
    run := Chunked(Next(s, Record(t)), t, bytes, size + s.tasks[t].grabbed, disk, n);
    ExecCons(s, Record(t), run);
    run := [Record(t)] + run;
  }

  lemma Chunked(s: State, t: nat, bytes: nat, size: nat, disk: nat, n: nat) returns (run: seq<Event>)
    requires Alone(s, t, Storing(size, disk, disk + n))
    ensures About(run, t, bytes) && Exec(s, run).Some? && Exec(s, run).value.budget == s.budget
    ensures Alone(Exec(s, run).value, t, Writing(size, disk + n))
  {
    run := [Write(t, n)] + [];
    ExecCons(s, Write(t, n), []);
    assert Exec(Next(s, Write(t, n)), []).Some?;
  }

  lemma {:induction false} ChunksCanArrive(s: State, t: nat, bytes: nat, size: nat, disk: nat, chunks: seq<nat>)
    returns (run: seq<Event>)
    requires Alone(s, t, Writing(size, disk)) && 0 < size <= MAX_JOB_BYTES && disk <= size
    requires disk + Sum(chunks) <= MAX_JOB_BYTES
    requires disk + Sum(chunks) <= size || disk + Sum(chunks) <= s.budget
    ensures About(run, t, bytes) && Exec(s, run).Some? && t < |Exec(s, run).value.tasks|
    ensures Exec(s, run).value.tasks[t].Staged?
    ensures Exec(s, run).value.tasks[t].disk == disk + Sum(chunks)
    decreases |chunks|
  {
    if chunks == [] {
      run := [Finish(t)] + [];
      ExecCons(s, Finish(t), []);
      assert Exec(Next(s, Finish(t)), []).Some?;
    } else {
      var first, size' := ChunkCanArrive(s, t, bytes, size, disk, chunks[0]);
      var rest := ChunksCanArrive(Exec(s, first).value, t, bytes, size', disk + chunks[0], chunks[1..]);
      ExecConcat(s, first, rest);
      run := first + rest;
    }
  }

  /** From every reachable state an idle task can spool any body within the per-job cap
      that its own reservation or the budget can hold, however small the reservation
      it starts with. */
  lemma AnyBodyCanBeSpooled(budget: nat, headroom: nat, tasks: nat, run: seq<Event>, t: nat,
                            bytes: nat, chunks: seq<nat>)
    returns (more: seq<Event>)
    requires Exact(budget, tasks) && Exec(Init(budget, headroom, tasks), run).Some?
    requires t < |Exec(Init(budget, headroom, tasks), run).value.tasks|
    requires 0 < bytes <= 17179869184 && Sum(chunks) <= 17179869184
    requires Sum(chunks) <= bytes || Sum(chunks) <= budget
    ensures var s := Exec(Init(budget, headroom, tasks), run).value;
      && Exec(s, more).Some? && t < |Exec(s, more).value.tasks|
      && Exec(s, more).value.tasks[t].Staged? && Exec(s, more).value.tasks[t].disk == Sum(chunks)
  {
    InitInv(budget, headroom, tasks);
    RunInv(Init(budget, headroom, tasks), run);
    RunKeepsTasks(Init(budget, headroom, tasks), run);
    var s := Exec(Init(budget, headroom, tasks), run).value;
    var ending := AllCanEnd(s);
    var idle := Exec(s, ending).value;
    var e := Reserve(t, bytes, None);
    more := ChunksCanArrive(Next(idle, e), t, bytes, bytes, 0, chunks);
    ExecCons(idle, e, more);
    more := [e] + more;
    ExecConcat(s, ending, more);
    more := ending + more;
  }

  /** A reservation that grows reaches 64 MiB past what was written, or the per-job
      cap. */
  lemma StepsAhead(written: nat)
    requires written <= 17179869184
    ensures Stepped(written) == if written <= 17112760320 then written + 67108864 else 17179869184
  {
  }
}
