/** What the downloads under the input budget hand on, told by the events of a run:
    only bodies whose digest matched, whole, and for as long as somebody owns them. */
module InputDelivery {
  import opened Prelude
  import opened InputBudgetProtocol

  lemma {:induction false} ExecLast(s: State, run: seq<Event>, e: Event)
    requires Exec(s, run + [e]).Some?
    ensures Exec(s, run).Some? && Enabled(Exec(s, run).value, e)
    ensures Exec(s, run + [e]) == Some(Next(Exec(s, run).value, e))
    decreases |run|
  {
    if run == [] {
      assert run + [e] == [e] && [e][1..] == [];
      assert Exec(Next(s, e), []) == Some(Next(s, e));
    } else {
      assert (run + [e])[1..] == run[1..] + [e];
      ExecLast(Next(s, run[0]), run[1..], e);
    }
  }

  // -------------------------------------------------- a task's own history

  /** Body bytes task `t` has received since its latest response. */
  function Received(run: seq<Event>, t: nat): nat {
    if run == [] then 0
    else
      var before := run[..|run| - 1];
      match run[|run| - 1]
      case Respond(u, _) => if u == t then 0 else Received(before, t)
      case Chunk(u, n) => Received(before, t) + if u == t then n else 0
      case _ => Received(before, t)
  }

  /** Whether the digest of task `t`'s latest download matched, if it was compared. */
  function Compared(run: seq<Event>, t: nat): Option<bool> {
    if run == [] then None
    else
      var before := run[..|run| - 1];
      match run[|run| - 1]
      case Begin(u, _) => if u == t then None else Compared(before, t)
      case Hashed(u, matches) => if u == t then Some(matches) else Compared(before, t)
      case _ => Compared(before, t)
  }

  /** Whether task `t` was cancelled since its latest body ended. */
  function Abandoned(run: seq<Event>, t: nat): bool {
    if run == [] then false
    else
      var before := run[..|run| - 1];
      match run[|run| - 1]
      case EndBody(u) => if u == t then false else Abandoned(before, t)
      case Abandon(u) => u == t || Abandoned(before, t)
      case _ => Abandoned(before, t)
  }

  /** Owners of task `t`'s payload: the hand-over and every clone, less the drops. */
  function Owners(run: seq<Event>, t: nat): int {
    if run == [] then 0
    else
      var before := run[..|run| - 1];
      match run[|run| - 1]
      case Hashed(u, _) => if u == t then 1 else Owners(before, t)
      case Clone(u) => Owners(before, t) + if u == t then 1 else 0
      case DropClone(u) => Owners(before, t) - if u == t then 1 else 0
      case _ => Owners(before, t)
  }

  /** Budget task `t` was granted latest: what its request or the longer response
      asked for, within the limit on one body. */
  function Granted(maxBytes: nat, run: seq<Event>, t: nat): nat {
    if run == [] then 0
    else
      var before := run[..|run| - 1];
      match run[|run| - 1]
      case Begin(u, hint) =>
        if u != t then Granted(maxBytes, before, t)
        else if hint.Some? && hint.value < maxBytes then hint.value else maxBytes
      case Respond(u, length) =>
        var required := if length.Some? && length.value < maxBytes then length.value else maxBytes;
        if u == t && required > Granted(maxBytes, before, t) then required
        else Granted(maxBytes, before, t)
      case _ => Granted(maxBytes, before, t)
  }

  /** What task `t`'s latest download was said to need, within the limit on one body. */
  function Asked(maxBytes: nat, run: seq<Event>, t: nat): nat {
    if run == [] then 0
    else
      var before := run[..|run| - 1];
      match run[|run| - 1]
      case Begin(u, hint) =>
        if u != t then Asked(maxBytes, before, t)
        else if hint.Some? && hint.value < maxBytes then hint.value else maxBytes
      case _ => Asked(maxBytes, before, t)
  }

  /** Responses to task `t`'s latest download. */
  function Responses(run: seq<Event>, t: nat): nat {
    if run == [] then 0
    else
      var before := run[..|run| - 1];
      match run[|run| - 1]
      case Begin(u, _) => if u == t then 0 else Responses(before, t)
      case Respond(u, _) => Responses(before, t) + if u == t then 1 else 0
      case _ => Responses(before, t)
  }

  /** Whether somebody called `notify_waiters` since task `t` last registered. */
  function Notified(run: seq<Event>, t: nat): bool {
    if run == [] then true
    else
      var before := run[..|run| - 1];
      match run[|run| - 1]
      case Register(u) => u != t && Notified(before, t)
      case Notify(_) => true
      case _ => Notified(before, t)
  }

  /** A request so far: the first is for what was asked; the second, after one response
      that needed more, is for that. */
  ghost predicate RequestRecalls(maxBytes: nat, run: seq<Event>, t: nat, need: nat, again: bool) {
    && need == Granted(maxBytes, run, t)
    && Responses(run, t) == (if again then 1 else 0)
    && (if again then need > Asked(maxBytes, run, t) else need == Asked(maxBytes, run, t))
  }

  /** What a task's state says about its history. */
  ghost predicate Recalls(maxBytes: nat, run: seq<Event>, t: nat, task: Task) {
    match task
    case Asking(need, again) => RequestRecalls(maxBytes, run, t, need, again)
    case Registered(need, again) => RequestRecalls(maxBytes, run, t, need, again)
    case Parked(need, again) => RequestRecalls(maxBytes, run, t, need, again)
    case Fetching(held, again) => RequestRecalls(maxBytes, run, t, held, again)
    case Filling(_, _, len) => len == Received(run, t) && Responses(run, t) <= 2
    case Hashing(held, cap, caller) =>
      held == cap == Received(run, t) && caller == !Abandoned(run, t)
    case Staged(held, cap, clones) =>
      && held == cap == Received(run, t) && clones == Owners(run, t)
      && Compared(run, t) == Some(true) && !Abandoned(run, t)
    case Notifying(next) => !next.Notifying? && Recalls(maxBytes, run, t, next)
    case _ => true
  }

  lemma {:induction false} TaskRecalls(limit: nat, maxBytes: nat, tasks: nat, run: seq<Event>, t: nat)
    requires Exec(Init(limit, maxBytes, tasks), run).Some?
    requires t < |Exec(Init(limit, maxBytes, tasks), run).value.tasks|
    ensures Recalls(maxBytes, run, t, Exec(Init(limit, maxBytes, tasks), run).value.tasks[t])
    ensures Exec(Init(limit, maxBytes, tasks), run).value.maxBytes == maxBytes
    decreases |run|
  {
    if run != [] {
      var before, e := run[..|run| - 1], run[|run| - 1];
      assert run == before + [e];
      ExecLast(Init(limit, maxBytes, tasks), before, e);
      var s := Exec(Init(limit, maxBytes, tasks), before).value;
      Frame(s, e);
      TaskRecalls(limit, maxBytes, tasks, before, t);
      if e.t == t {
        OwnRecalls(s, before, e);
      } else {
        OtherRecalls(maxBytes, before, e, t, s.tasks[t]);
      }
    }
  }

  lemma OtherRecalls(maxBytes: nat, before: seq<Event>, e: Event, t: nat, task: Task)
    requires e.t != t && Recalls(maxBytes, before, t, task)
    ensures Recalls(maxBytes, before + [e], t, task)
  {
    assert (before + [e])[..|before|] == before;
  }

  lemma OwnRecalls(s: State, before: seq<Event>, e: Event)
    requires Enabled(s, e) && Recalls(s.maxBytes, before, e.t, s.tasks[e.t])
    ensures Recalls(s.maxBytes, before + [e], e.t, Next(s, e).tasks[e.t])
    ensures Next(s, e).maxBytes == s.maxBytes
  {
    assert (before + [e])[..|before|] == before;
  }

  lemma {:induction false} WaitersRecall(limit: nat, maxBytes: nat, tasks: nat, run: seq<Event>, t: nat)
    requires Exec(Init(limit, maxBytes, tasks), run).Some?
    requires t < |Exec(Init(limit, maxBytes, tasks), run).value.tasks|
    ensures var s := Exec(Init(limit, maxBytes, tasks), run).value;
      s.tasks[t].Registered? || s.tasks[t].Parked? ==> (t in s.waiters <==> !Notified(run, t))
    decreases |run|
  {
    if run != [] {
      var before, e := run[..|run| - 1], run[|run| - 1];
      assert run == before + [e];
      ExecLast(Init(limit, maxBytes, tasks), before, e);
      var s := Exec(Init(limit, maxBytes, tasks), before).value;
      Frame(s, e);
      WaitersRecall(limit, maxBytes, tasks, before, t);
    }
  }

  // --------------------------------------------------------------- theorems

  /** A waiting task moves on exactly when it has been notified since it registered. */
  lemma WokenIffNotified(limit: nat, maxBytes: nat, tasks: nat, run: seq<Event>, t: nat)
    requires Exec(Init(limit, maxBytes, tasks), run).Some?
    requires t < |Exec(Init(limit, maxBytes, tasks), run).value.tasks|
    requires Exec(Init(limit, maxBytes, tasks), run).value.tasks[t].Parked?
    ensures Exec(Init(limit, maxBytes, tasks), run + [Wake(t)]).Some? <==> Notified(run, t)
  {
    WaitersRecall(limit, maxBytes, tasks, run, t);
    ExecConcat(Init(limit, maxBytes, tasks), run, [Wake(t)]);
    var s := Exec(Init(limit, maxBytes, tasks), run).value;
    if t !in s.waiters {
      assert [Wake(t)][1..] == [];
      assert Exec(Next(s, Wake(t)), []).Some?;
    }
  }

  /** A download asks at most twice, and the second time only because the first
      response needed more than was asked for, which is then what it waits for. */
  lemma AsksAgainOnlyForMore(limit: nat, maxBytes: nat, tasks: nat, run: seq<Event>, t: nat)
    requires Exec(Init(limit, maxBytes, tasks), run).Some?
    requires t < |Exec(Init(limit, maxBytes, tasks), run).value.tasks|
    ensures var task := Exec(Init(limit, maxBytes, tasks), run).value.tasks[t];
      task.Waiting() || task.Fetching? ==>
        && Responses(run, t) <= 1
        && (if task.Fetching? then task.held else task.need) == Granted(maxBytes, run, t)
        && (Responses(run, t) == 1 <==> Granted(maxBytes, run, t) > Asked(maxBytes, run, t))
  {
    TaskRecalls(limit, maxBytes, tasks, run, t);
  }

  /** In every reachable state a payload handed on is exactly the body received, its
      digest was compared and matched, and its owners are those the run made. */
  lemma DeliveredIsBody(limit: nat, maxBytes: nat, tasks: nat, run: seq<Event>, t: nat)
    requires Exec(Init(limit, maxBytes, tasks), run).Some?
    requires var s := Exec(Init(limit, maxBytes, tasks), run).value;
      t < |s.tasks| && s.tasks[t].Staged?
    ensures Compared(run, t) == Some(true) && !Abandoned(run, t)
    ensures var task := Exec(Init(limit, maxBytes, tasks), run).value.tasks[t];
      task.Memory() == task.Charge() == Received(run, t) && task.clones == Owners(run, t) > 0
  {
    InitInv(limit, maxBytes, tasks);
    RunInv(Init(limit, maxBytes, tasks), run);
    TaskRecalls(limit, maxBytes, tasks, run, t);
    assert Exec(Init(limit, maxBytes, tasks), run).value.tasks[t].Valid(limit);
  }

  /** The comparison decides: a matching body that is still awaited is handed on
      whole, anything else is thrown away and its budget given back; nobody else's
      payload is touched. */
  lemma HashDecides(limit: nat, maxBytes: nat, tasks: nat, run: seq<Event>, t: nat, matches: bool)
    requires Exec(Init(limit, maxBytes, tasks), run + [Hashed(t, matches)]).Some?
    ensures Exec(Init(limit, maxBytes, tasks), run).Some?
    ensures var s := Exec(Init(limit, maxBytes, tasks), run).value;
      var s' := Exec(Init(limit, maxBytes, tasks), run + [Hashed(t, matches)]).value;
      && t < |s.tasks| == |s'.tasks|
      && (s'.tasks[t].Staged? <==> matches && !Abandoned(run, t))
      && (s'.tasks[t].Staged? ==>
            s'.tasks[t].Memory() == s'.tasks[t].Charge() == Received(run, t)
            && s'.tasks[t].clones == 1 && s'.used == s.used)
      && (!s'.tasks[t].Staged? ==>
            s'.tasks[t].Memory() == s'.tasks[t].Charge() == 0 && s'.used + Received(run, t) == s.used)
      && (forall u :: 0 <= u < |s.tasks| && u != t ==> s'.tasks[u] == s.tasks[u])
  {
    ExecLast(Init(limit, maxBytes, tasks), run, Hashed(t, matches));
    InitInv(limit, maxBytes, tasks);
    RunInv(Init(limit, maxBytes, tasks), run);
    TaskRecalls(limit, maxBytes, tasks, run, t);
    var s := Exec(Init(limit, maxBytes, tasks), run).value;
    assert s.Charges()[t] == s.tasks[t].Charge();
    SumAtLeast(s.Charges(), t);
  }

  // ----------------------------------------------------- it can be delivered

  lemma ExecCons(s: State, e: Event, run: seq<Event>)
    requires Enabled(s, e)
    ensures Exec(s, [e] + run) == Exec(Next(s, e), run)
  {
    assert ([e] + run)[1..] == run;
  }

  /** Where one task stands, and how much budget is in use. */
  ghost predicate Stands(s: State, limit: nat, maxBytes: nat, t: nat, task: Task, used: nat) {
    s.limit == limit && s.maxBytes == maxBytes && t < |s.tasks| && s.tasks[t] == task && s.used == used
  }

  /** Every request, response and chunk in `run` is one of this download. */
  ghost predicate About(run: seq<Event>, t: nat, hint: Option<nat>, length: Option<nat>) {
    forall e :: e in run ==>
      && (e.Begin? ==> e == Begin(t, hint))
      && (e.Respond? ==> e == Respond(t, length))
      && (e.Chunk? ==> e.t == t)
  }

  /** `run` takes task `t` from one standing to another, all by itself. */
  ghost predicate Carries(s: State, run: seq<Event>, t: nat, hint: Option<nat>, length: Option<nat>,
                          task: Task, used: nat)
  {
    && About(run, t, hint, length) && Exec(s, run).Some?
    && Stands(Exec(s, run).value, s.limit, s.maxBytes, t, task, used)
  }

  lemma CarryFirst(s: State, e: Event, run: seq<Event>, t: nat, hint: Option<nat>, length: Option<nat>,
                   task: Task, used: nat)
    requires Enabled(s, e) && About([e], t, hint, length)
    requires Next(s, e).limit == s.limit && Next(s, e).maxBytes == s.maxBytes
    requires Carries(Next(s, e), run, t, hint, length, task, used)
    ensures Carries(s, [e] + run, t, hint, length, task, used)
  {
    ExecCons(s, e, run);
    assert e in [e];
  }

  /** A whole body is shrunk to, hashed and handed on. */
  lemma BodyCanEnd(s: State, t: nat, hint: Option<nat>, length: Option<nat>, held: nat, cap: nat, len: nat)
    returns (run: seq<Event>)
    requires Stands(s, s.limit, s.maxBytes, t, Filling(held, cap, len), held)
    requires len <= held
    ensures Carries(s, run, t, hint, length, Staged(len, len, 1), len)
  {
    var s1 := Next(s, EndBody(t));
    var s2 := Next(s1, Notify(t));
    var s3 := Next(s2, Hashed(t, true));
    assert Exec(s3, []) == Some(s3);
    CarryFirst(s2, Hashed(t, true), [], t, hint, length, Staged(len, len, 1), len);
    CarryFirst(s1, Notify(t), [Hashed(t, true)] + [], t, hint, length, Staged(len, len, 1), len);
    run := [Notify(t)] + ([Hashed(t, true)] + []);
    CarryFirst(s, EndBody(t), run, t, hint, length, Staged(len, len, 1), len);
    run := [EndBody(t)] + run;
  }

  lemma {:induction false} ChunksCanArrive(s: State, t: nat, chunks: seq<nat>, hint: Option<nat>,
                                           length: Option<nat>, held: nat, cap: nat, len: nat)
    returns (run: seq<Event>)
    requires Stands(s, s.limit, s.maxBytes, t, Filling(held, cap, len), held)
    requires len + Sum(chunks) <= held
    ensures Carries(s, run, t, hint, length, Staged(len + Sum(chunks), len + Sum(chunks), 1), len + Sum(chunks))
    decreases |chunks|
  {
    if chunks == [] {
      run := BodyCanEnd(s, t, hint, length, held, cap, len);
    } else {
      var e := Chunk(t, chunks[0]);
      var grown := Grow(cap, len + chunks[0], held);
      run := ChunksCanArrive(Next(s, e), t, chunks[1..], hint, length, held, grown, len + chunks[0]);
      CarryFirst(s, e, run, t, hint, length, Staged(len + Sum(chunks), len + Sum(chunks), 1), len + Sum(chunks));
      run := [e] + run;
    }
  }

  /** From the grant on: the response fits, or is asked for again with enough room. */
  lemma ResponseCanArrive(s: State, t: nat, chunks: seq<nat>, hint: Option<nat>, length: Option<nat>,
                          held: nat, again: bool)
    returns (run: seq<Event>)
    requires Stands(s, s.limit, s.maxBytes, t, Fetching(held, again), held)
    requires length.Some? ==> length.value <= held
    requires again || held >= Min(if length.Some? then length.value else s.maxBytes, s.maxBytes)
    requires Sum(chunks) <= held
    ensures Carries(s, run, t, hint, length, Staged(Sum(chunks), Sum(chunks), 1), Sum(chunks))
  {
    var cap := if length.Some? then length.value else 0;
    var e := Respond(t, length);
    run := ChunksCanArrive(Next(s, e), t, chunks, hint, length, held, cap, 0);
    CarryFirst(s, e, run, t, hint, length, Staged(Sum(chunks), Sum(chunks), 1), Sum(chunks));
    run := [e] + run;
  }

  /** With the budget idle, a request that fits it is granted. */
  lemma RequestCanBeServed(s: State, t: nat, chunks: seq<nat>, hint: Option<nat>, length: Option<nat>,
                           need: nat, again: bool)
    returns (run: seq<Event>)
    requires Stands(s, s.limit, s.maxBytes, t, Asking(need, again), 0)
    requires need <= s.limit && (length.Some? ==> length.value <= Max(need, s.maxBytes))
    requires var required := Min(if length.Some? then length.value else s.maxBytes, s.maxBytes);
      && required <= s.limit && Sum(chunks) <= Max(need, required)
      && (again ==> required <= need)
      && (length.Some? ==> length.value <= Max(need, required))
    ensures Carries(s, run, t, hint, length, Staged(Sum(chunks), Sum(chunks), 1), Sum(chunks))
    decreases !again
  {
    var n := Sum(chunks);
    var required := Min(if length.Some? then length.value else s.maxBytes, s.maxBytes);
    var s1 := Next(s, Register(t));
    var s2 := Next(s1, Try(t));
    if again || required <= need {
      run := ResponseCanArrive(s2, t, chunks, hint, length, need, again);
    } else {
      var s3 := Next(s2, Respond(t, length));
      var s4 := Next(s3, Notify(t));
      run := RequestCanBeServed(s4, t, chunks, hint, length, required, true);
      CarryFirst(s3, Notify(t), run, t, hint, length, Staged(n, n, 1), n);
      run := [Notify(t)] + run;
      CarryFirst(s2, Respond(t, length), run, t, hint, length, Staged(n, n, 1), n);
      run := [Respond(t, length)] + run;
    }
    CarryFirst(s1, Try(t), run, t, hint, length, Staged(n, n, 1), n);
    run := [Try(t)] + run;
    CarryFirst(s, Register(t), run, t, hint, length, Staged(n, n, 1), n);
    run := [Register(t)] + run;
  }

  /** From every reachable state an idle task can download and hand on any body that
      the budget can hold, even when its size was understated: `hint` says what the
      server claimed and `length` what the response announces, each capped. */
  lemma AnyBodyCanBeDelivered(limit: nat, maxBytes: nat, tasks: nat, run: seq<Event>, t: nat,
                              hint: Option<nat>, length: Option<nat>, chunks: seq<nat>)
    returns (more: seq<Event>)
    requires Exec(Init(limit, maxBytes, tasks), run).Some?
    requires var s := Exec(Init(limit, maxBytes, tasks), run).value;
      t < |s.tasks| && s.tasks[t].Idle?
    requires var first := if hint.Some? && hint.value < maxBytes then hint.value else maxBytes;
      var required := if length.Some? && length.value < maxBytes then length.value else maxBytes;
      && first <= limit && required <= limit
      && (length.Some? ==> length.value <= first || length.value <= required)
      && (Sum(chunks) <= first || Sum(chunks) <= required)
    ensures var s := Exec(Init(limit, maxBytes, tasks), run).value;
      && About(more, t, hint, length) && Exec(s, more).Some?
      && t < |Exec(s, more).value.tasks|
      && Exec(s, more).value.tasks[t] == Staged(Sum(chunks), Sum(chunks), 1)
  {
    InitInv(limit, maxBytes, tasks);
    RunInv(Init(limit, maxBytes, tasks), run);
    TaskRecalls(limit, maxBytes, tasks, run, t);
    var s := Exec(Init(limit, maxBytes, tasks), run).value;
    var drain := Drain(s, t);
    var s1 := Exec(s, drain).value;
    var e := Begin(t, hint);
    var need := Min(if hint.Some? then hint.value else maxBytes, maxBytes);
    more := RequestCanBeServed(Next(s1, e), t, chunks, hint, length, need, false);
    CarryFirst(s1, e, more, t, hint, length, Staged(Sum(chunks), Sum(chunks), 1), Sum(chunks));
    more := [e] + more;
    ExecConcat(s, drain, more);
    more := drain + more;
  }

  /** A payload lives exactly as long as its owners: it can always get another, stays
      whole while one is left, and its buffer goes with the last. */
  lemma {:induction false} OwnersKeepPayload(s: State, t: nat, drops: nat) returns (run: seq<Event>)
    requires t < |s.tasks| && s.tasks[t].Staged? && drops <= s.tasks[t].clones
    ensures |run| == drops && (forall e :: e in run ==> e == DropClone(t)) && Exec(s, run).Some?
    ensures var task, s' := s.tasks[t], Exec(s, run).value;
      && t < |s'.tasks| && s'.used == s.used
      && s'.tasks[t] == if drops > 0 && drops == task.clones then Freed(task.held)
                        else Staged(task.held, task.cap, task.clones - drops)
    decreases drops
  {
    run := [];
    if drops > 0 {
      run := OwnersKeepPayload(s, t, drops - 1);
      var last := Exec(s, run).value;
      ExecConcat(s, run, [DropClone(t)]);
      ExecCons(last, DropClone(t), []);
      assert [DropClone(t)] + [] == [DropClone(t)];
      run := run + [DropClone(t)];
    }
  }

  lemma PayloadCanBeCloned(s: State, t: nat)
    requires t < |s.tasks| && s.tasks[t].Staged?
    ensures Exec(s, [Clone(t)]).Some? && t < |Exec(s, [Clone(t)]).value.tasks|
    ensures Exec(s, [Clone(t)]).value.tasks[t]
      == Staged(s.tasks[t].held, s.tasks[t].cap, s.tasks[t].clones + 1)
  {
    ExecOne(s, Clone(t));
  }

  lemma ExecOne(s: State, e: Event)
    requires Enabled(s, e)
    ensures Exec(s, [e]) == Some(Next(s, e))
  {
    assert [e][1..] == [];
    assert Exec(Next(s, e), []) == Some(Next(s, e));
  }

  /** A download cancelled while it is hashed keeps its charge until the hash is done,
      and is thrown away then, matching or not. */
  lemma CancelledIsDropped(limit: nat, maxBytes: nat, tasks: nat, run: seq<Event>, t: nat, matches: bool)
    requires Exec(Init(limit, maxBytes, tasks), run).Some?
    requires var s := Exec(Init(limit, maxBytes, tasks), run).value;
      t < |s.tasks| && s.tasks[t].Hashing? && !Abandoned(run, t)
    ensures var s := Exec(Init(limit, maxBytes, tasks), run).value;
      && Exec(s, [Abandon(t)]).Some?
      && Exec(s, [Abandon(t)]).value.used == s.used
      && Exec(s, [Abandon(t)] + [Hashed(t, matches)]).Some?
      && t < |Exec(s, [Abandon(t)] + [Hashed(t, matches)]).value.tasks|
      && Exec(s, [Abandon(t)] + [Hashed(t, matches)]).value.tasks[t] == Notifying(Idle)
  {
    TaskRecalls(limit, maxBytes, tasks, run, t);
    var s := Exec(Init(limit, maxBytes, tasks), run).value;
    ExecCons(s, Abandon(t), []);
    assert [Abandon(t)] + [] == [Abandon(t)];
    ExecCons(Next(s, Abandon(t)), Hashed(t, matches), []);
    assert [Hashed(t, matches)] + [] == [Hashed(t, matches)];
    ExecConcat(s, [Abandon(t)], [Hashed(t, matches)]);
  }

  // ----------------------------------------------------------- it can all end

  /** What a task that holds nothing and owes nothing does to become idle. */
  function Leave(t: nat, task: Task): Event {
    match task
    case Asking(_, _) => Register(t)
    case Registered(_, _) => Try(t)
    case _ => GiveUp(t)
  }

  function Distance(task: Task): nat {
    match task
    case Asking(_, _) => 6
    case Registered(_, _) => 5
    case Parked(_, _) => 1
    case Notifying(next) => 1 + Distance(next)
    case _ => Rank(task)
  }

  function Distances(s: State): seq<nat> {
    seq(|s.tasks|, i requires 0 <= i < |s.tasks| => Distance(s.tasks[i]))
  }

  lemma DistanceZero(task: Task, limit: nat)
    requires task.Valid(limit) && Distance(task) == 0
    ensures task.Idle?
  {
  }

  lemma LeaveStep(s: State, u: nat)
    requires Inv(s) && u < |s.tasks| && Distance(s.tasks[u]) > 0
    ensures var e := if Rank(s.tasks[u]) > 0 then Finish(u, s.tasks[u]) else Leave(u, s.tasks[u]);
      && Enabled(s, e) && Inv(Next(s, e)) && Sum(Distances(Next(s, e))) < Sum(Distances(s))
      && |Next(s, e).tasks| == |s.tasks|
  {
    var e := if Rank(s.tasks[u]) > 0 then Finish(u, s.tasks[u]) else Leave(u, s.tasks[u]);
    assert s.tasks[u].Valid(s.limit);
    StepWellFormed(s, e);
    StepAccounted(s, e);
    StepWakeups(s, e);
    Frame(s, e);
    var s' := Next(s, e);
    assert Distances(s') == Distances(s)[u := Distance(s'.tasks[u])];
    SumUpdate(Distances(s), u, Distance(s'.tasks[u]));
  }

  lemma {:induction false} AllCanLeave(s: State) returns (run: seq<Event>)
    requires Inv(s)
    ensures Exec(s, run).Some? && Inv(Exec(s, run).value) && |Exec(s, run).value.tasks| == |s.tasks|
    ensures forall u :: 0 <= u < |s.tasks| ==> Exec(s, run).value.tasks[u].Idle?
    decreases Sum(Distances(s))
  {
    if Sum(Distances(s)) == 0 {
      forall u | 0 <= u < |s.tasks| ensures s.tasks[u].Idle? {
        SumAtLeast(Distances(s), u);
        DistanceZero(s.tasks[u], s.limit);
      }
      run := [];
    } else {
      var u := SumPositive(Distances(s));
      var e := if Rank(s.tasks[u]) > 0 then Finish(u, s.tasks[u]) else Leave(u, s.tasks[u]);
      LeaveStep(s, u);
      run := AllCanLeave(Next(s, e));
      ExecCons(s, e, run);
      run := [e] + run;
    }
  }

  /** Every reachable state can come to rest: all tasks idle, nothing charged, nobody
      on the waiter list. */
  lemma EverythingCanEnd(limit: nat, maxBytes: nat, tasks: nat, run: seq<Event>)
    returns (more: seq<Event>)
    requires Exec(Init(limit, maxBytes, tasks), run).Some?
    ensures var s := Exec(Init(limit, maxBytes, tasks), run).value;
      && Exec(s, more).Some?
      && Exec(s, more).value.used == 0 && Exec(s, more).value.waiters == {}
      && forall u :: 0 <= u < |Exec(s, more).value.tasks| ==> Exec(s, more).value.tasks[u].Idle?
  {
    InitInv(limit, maxBytes, tasks);
    RunInv(Init(limit, maxBytes, tasks), run);
    more := AllCanLeave(Exec(Init(limit, maxBytes, tasks), run).value);
    SumZero(Exec(Exec(Init(limit, maxBytes, tasks), run).value, more).value.Charges());
  }
}
