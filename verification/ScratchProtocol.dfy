/** Ownership of scratch directories: any number of processes create, use, close
    and sweep them concurrently, and may die at any point.

    Directory names are fresh, so a directory and its marker file are one entry
    of `dirs` for ever. The lock is the advisory lock on the marker's inode: it is
    held by a handle, outlives the file's name, and goes when its holder dies. */
module ScratchProtocol {
  import opened Prelude

  datatype Phase =
    | Creating       // the directory exists, its owner file is not locked yet
    | Locked         // locked under a temporary name
    | Live           // published under the marker's name, in use
    | Closing        // the owner is removing it, lock still held
    | Closed         // the owner let go

  datatype Holder = Nobody | Owner | Sweeper(s: nat)

  datatype Dir = Dir(
    owner: nat,          // the process that made it
    phase: Phase,
    exists_: bool,
    marker: bool,        // the marker file is there, under its final name
    lock: Holder,
    files: set<nat>)

  datatype Look = Idle | Opened(d: nat) | Removing(d: nat)

  /** One run of the sweep, by process `proc`. */
  datatype Sweep = Sweep(proc: nat, look: Look)

  datatype State = State(alive: seq<bool>, dirs: seq<Dir>, sweeps: seq<Sweep>) {
    predicate Lives(p: nat) {
      p < |alive| && alive[p]
    }

    /** The owner's process is alive and has not let go of the directory. */
    predicate InUse(d: nat)
      requires d < |dirs|
    {
      Lives(dirs[d].owner) && !dirs[d].phase.Closed?
    }

    predicate Sweeping(s: nat) {
      s < |sweeps| && Lives(sweeps[s].proc)
    }

    /** A live sweeper holds, or may still ask for, the lock of `d`. */
    predicate Targeted(d: nat) {
      exists s :: 0 <= s < |sweeps| && Sweeping(s)
        && (sweeps[s].look == Opened(d) || sweeps[s].look == Removing(d))
    }
  }

  const START := State([], [], [])

  datatype Event =
    | Spawn
    | Crash(p: nat)
      // the owner
    | Create(p: nat)
    | LockOwner(d: nat)
    | Publish(d: nat)
    | AddFile(d: nat, f: nat)
    | DeleteFile(d: nat, f: nat)
    | BeginClose(d: nat)
    | CloseUnmark(d: nat)
    | CloseRmdir(d: nat)
    | EndClose(d: nat)
      // a sweeper
    | StartSweep(p: nat)
    | Open(s: nat, d: nat)
    | TryLock(s: nat)
    | Remove(s: nat, f: nat)
    | Unmark(s: nat)
    | Rmdir(s: nat)
    | Finish(s: nat)

  predicate OwnerEvent(e: Event) {
    e.LockOwner? || e.Publish? || e.AddFile? || e.DeleteFile? || e.BeginClose? || e.CloseUnmark?
    || e.CloseRmdir? || e.EndClose?
  }

  predicate RemovalEvent(e: Event) {
    e.Remove? || e.Unmark? || e.Rmdir?
  }

  predicate Owned(s: State, d: nat, phase: Phase) {
    d < |s.dirs| && s.Lives(s.dirs[d].owner) && s.dirs[d].phase == phase
  }

  predicate RemovingNow(s: State, w: nat) {
    s.Sweeping(w) && s.sweeps[w].look.Removing? && s.sweeps[w].look.d < |s.dirs|
  }

  predicate Enabled(s: State, e: Event) {
    match e
    case Spawn => true
    case Crash(p) => s.Lives(p)
    case Create(p) => s.Lives(p)
    case LockOwner(d) => Owned(s, d, Creating)
    case Publish(d) => Owned(s, d, Locked)
    case AddFile(d, _) => Owned(s, d, Live) && s.dirs[d].exists_
    case DeleteFile(d, _) => Owned(s, d, Live) || Owned(s, d, Closing)
    case BeginClose(d) => Owned(s, d, Live)
    case CloseUnmark(d) => Owned(s, d, Closing)
    case CloseRmdir(d) => Owned(s, d, Closing) && s.dirs[d].files == {} && !s.dirs[d].marker
    case EndClose(d) => Owned(s, d, Closing)
    case StartSweep(p) => s.Lives(p)
    case Open(w, d) =>
      && s.Sweeping(w) && s.sweeps[w].look.Idle?
      && d < |s.dirs| && s.dirs[d].exists_ && s.dirs[d].marker
    case TryLock(w) => s.Sweeping(w) && s.sweeps[w].look.Opened? && s.sweeps[w].look.d < |s.dirs|
    case Remove(w, _) => RemovingNow(s, w)
    case Unmark(w) => RemovingNow(s, w)
    case Rmdir(w) =>
      RemovingNow(s, w) && s.dirs[s.sweeps[w].look.d].files == {} && !s.dirs[s.sweeps[w].look.d].marker
    case Finish(w) => RemovingNow(s, w)
  }

  function PutDir(s: State, d: nat, dir: Dir): State
    requires d < |s.dirs|
  {
    s.(dirs := s.dirs[d := dir])
  }

  function PutLook(s: State, w: nat, look: Look): State
    requires w < |s.sweeps|
  {
    s.(sweeps := s.sweeps[w := s.sweeps[w].(look := look)])
  }

  /** A dying process drops every lock one of its handles holds. */
  function AfterDeath(s: State, dir: Dir, p: nat): Dir {
    if (dir.lock.Owner? && dir.owner == p)
       || (dir.lock.Sweeper? && dir.lock.s < |s.sweeps| && s.sweeps[dir.lock.s].proc == p)
    then dir.(lock := Nobody) else dir
  }

  function Target(s: State, e: Event): nat
    requires RemovalEvent(e) && Enabled(s, e)
  {
    s.sweeps[e.s].look.d
  }

  function OwnerNext(s: State, e: Event): State
    requires OwnerEvent(e) && Enabled(s, e)
  {
    var dir := s.dirs[e.d];
    PutDir(s, e.d,
      match e
      case LockOwner(_) => dir.(phase := Locked, lock := Owner)
      case Publish(_) => dir.(phase := Live, marker := true)
      case AddFile(_, f) => dir.(files := dir.files + {f})
      case DeleteFile(_, f) => dir.(files := dir.files - {f})
      case BeginClose(_) => dir.(phase := Closing)
      case CloseUnmark(_) => dir.(marker := false)
      case CloseRmdir(_) => dir.(exists_ := false)
      case EndClose(_) => dir.(phase := Closed, lock := Nobody))
  }

  function RemovalNext(s: State, e: Event): State
    requires RemovalEvent(e) && Enabled(s, e)
  {
    var dir := s.dirs[Target(s, e)];
    PutDir(s, Target(s, e),
      match e
      case Remove(_, f) => dir.(files := dir.files - {f})
      case Unmark(_) => dir.(marker := false)
      case Rmdir(_) => dir.(exists_ := false))
  }

  function Next(s: State, e: Event): State
    requires Enabled(s, e)
  {
    if OwnerEvent(e) then OwnerNext(s, e)
    else if RemovalEvent(e) then RemovalNext(s, e)
    else
      match e
      case Spawn => s.(alive := s.alive + [true])
      case Crash(p) =>
        s.(alive := s.alive[p := false],
           dirs := seq(|s.dirs|, d requires 0 <= d < |s.dirs| => AfterDeath(s, s.dirs[d], p)))
      case Create(p) => s.(dirs := s.dirs + [Dir(p, Creating, true, false, Nobody, {})])
      case StartSweep(p) => s.(sweeps := s.sweeps + [Sweep(p, Idle)])
      case Open(w, d) => PutLook(s, w, Opened(d))
      case TryLock(w) =>
        var d := s.sweeps[w].look.d;
        if s.dirs[d].lock.Nobody? then
          PutLook(PutDir(s, d, s.dirs[d].(lock := Sweeper(w))), w, Removing(d))
        else PutLook(s, w, Idle)
      case Finish(w) =>
        var d := s.sweeps[w].look.d;
        PutLook(PutDir(s, d, s.dirs[d].(lock := Nobody)), w, Idle)
  }

  function Exec(s: State, run: seq<Event>): Option<State>
    decreases |run|
  {
    if run == [] then Some(s)
    else if Enabled(s, run[0]) then Exec(Next(s, run[0]), run[1..])
    else None
  }

  // ------------------------------------------------------------ invariant

  /** A live owner holds the lock from before publication until it lets go. */
  ghost predicate OwnersHold(s: State) {
    forall d :: 0 <= d < |s.dirs| ==>
      && s.dirs[d].owner < |s.alive|
      && (s.InUse(d) && !s.dirs[d].phase.Creating? ==> s.dirs[d].lock.Owner?)
      && (s.dirs[d].lock.Owner? ==> s.InUse(d))
  }

  /** A directory not yet published has no marker and was never opened. */
  ghost predicate Unpublished(s: State) {
    forall d :: 0 <= d < |s.dirs| && (s.dirs[d].phase.Creating? || s.dirs[d].phase.Locked?) ==>
      && !s.dirs[d].marker && s.dirs[d].exists_
      && (forall w :: 0 <= w < |s.sweeps| ==>
            s.sweeps[w].look != Opened(d) && s.sweeps[w].look != Removing(d))
  }

  /** Whoever removes holds the lock, and only live removers hold it. */
  ghost predicate SweepersHold(s: State) {
    && (forall w :: 0 <= w < |s.sweeps| ==>
          && s.sweeps[w].proc < |s.alive|
          && (!s.sweeps[w].look.Idle? ==> s.sweeps[w].look.d < |s.dirs|)
          && (s.Sweeping(w) && s.sweeps[w].look.Removing? ==>
                s.dirs[s.sweeps[w].look.d].lock == Sweeper(w)))
    && (forall d :: 0 <= d < |s.dirs| && s.dirs[d].lock.Sweeper? ==>
          s.Sweeping(s.dirs[d].lock.s) && s.sweeps[s.dirs[d].lock.s].look == Removing(d))
  }

  ghost predicate Inv(s: State) {
    OwnersHold(s) && Unpublished(s) && SweepersHold(s)
  }

  /** An event on one directory leaves all others, and every process and sweep,
      alone; only an owner changes the lock or phase this way. */
  lemma OneDirFrame(s: State, e: Event, d: nat)
    requires Enabled(s, e)
    requires (OwnerEvent(e) && d == e.d) || (RemovalEvent(e) && d == Target(s, e))
    ensures Next(s, e) == PutDir(s, d, Next(s, e).dirs[d])
    ensures Next(s, e).dirs[d].owner == s.dirs[d].owner
    ensures RemovalEvent(e) ==>
      Next(s, e).dirs[d].lock == s.dirs[d].lock && Next(s, e).dirs[d].phase == s.dirs[d].phase
    ensures OwnerEvent(e) && Next(s, e).dirs[d].lock != s.dirs[d].lock ==> e.LockOwner? || e.EndClose?
  {
  }

  lemma StepOwners(s: State, e: Event)
    requires Inv(s) && Enabled(s, e)
    ensures OwnersHold(Next(s, e))
  {
    if RemovalEvent(e) {
      OneDirFrame(s, e, Target(s, e));
    }
  }

  lemma StepUnpublished(s: State, e: Event)
    requires Inv(s) && Enabled(s, e)
    ensures Unpublished(Next(s, e))
  {
    if OwnerEvent(e) {
      OneDirFrame(s, e, e.d);
    } else if RemovalEvent(e) {
      OneDirFrame(s, e, Target(s, e));
    } else {
      OthersUnpublished(s, e);
    }
  }

  lemma OthersUnpublished(s: State, e: Event)
    requires Inv(s) && Enabled(s, e) && !OwnerEvent(e) && !RemovalEvent(e)
    ensures Unpublished(Next(s, e))
  {
  }

  lemma DeathSweepers(s: State, e: Event)
    requires Inv(s) && Enabled(s, e) && e.Crash?
    ensures SweepersHold(Next(s, e))
  {
    var s' := Next(s, e);
    forall d | 0 <= d < |s'.dirs| && s'.dirs[d].lock.Sweeper?
      ensures s'.Sweeping(s'.dirs[d].lock.s) && s'.sweeps[s'.dirs[d].lock.s].look == Removing(d)
    {
      assert s'.dirs[d] == AfterDeath(s, s.dirs[d], e.p);
    }
    forall w | 0 <= w < |s'.sweeps| && s'.Sweeping(w) && s'.sweeps[w].look.Removing?
      ensures s'.dirs[s'.sweeps[w].look.d].lock == Sweeper(w)
    {
      var d := s.sweeps[w].look.d;
      assert s'.dirs[d] == AfterDeath(s, s.dirs[d], e.p);
    }
  }

  lemma OwnerSweepers(s: State, e: Event)
    requires Inv(s) && Enabled(s, e) && OwnerEvent(e)
    ensures SweepersHold(Next(s, e))
  {
    OneDirFrame(s, e, e.d);
    assert s.InUse(e.d);
    forall w | 0 <= w < |s.sweeps| && s.Sweeping(w) && s.sweeps[w].look.Removing?
      ensures s.sweeps[w].look.d != e.d
    {
      assert s.dirs[s.sweeps[w].look.d].lock == Sweeper(w);
      assert s.dirs[e.d].phase.Creating? || s.dirs[e.d].lock.Owner?;
    }
  }

  lemma LockSweepers(s: State, e: Event)
    requires Inv(s) && Enabled(s, e) && (e.TryLock? || e.Finish?)
    ensures SweepersHold(Next(s, e))
  {
    var s' := Next(s, e);
    var d := s.sweeps[e.s].look.d;
    assert forall k :: 0 <= k < |s.dirs| && k != d ==> s'.dirs[k] == s.dirs[k];
    assert forall w :: 0 <= w < |s.sweeps| && w != e.s ==> s'.sweeps[w] == s.sweeps[w];
  }

  lemma QuietSweepers(s: State, e: Event)
    requires Inv(s) && Enabled(s, e)
    requires e.Spawn? || e.Create? || e.StartSweep?
    ensures SweepersHold(Next(s, e))
  {
  }

  lemma OpenSweepers(s: State, e: Event)
    requires Inv(s) && Enabled(s, e) && e.Open?
    ensures SweepersHold(Next(s, e))
  {
    assert Next(s, e).dirs == s.dirs;
  }

  lemma RemovalSweepers(s: State, e: Event)
    requires Inv(s) && Enabled(s, e) && RemovalEvent(e)
    ensures SweepersHold(Next(s, e))
  {
    OneDirFrame(s, e, Target(s, e));
  }

  lemma StepSweepers(s: State, e: Event)
    requires Inv(s) && Enabled(s, e)
    ensures SweepersHold(Next(s, e))
  {
    if e.Crash? {
      DeathSweepers(s, e);
    } else if OwnerEvent(e) {
      OwnerSweepers(s, e);
    } else if RemovalEvent(e) {
      RemovalSweepers(s, e);
    } else if e.TryLock? || e.Finish? {
      LockSweepers(s, e);
    } else if e.Open? {
      OpenSweepers(s, e);
    } else {
      QuietSweepers(s, e);
    }
  }

  lemma StepInv(s: State, e: Event)
    requires Inv(s) && Enabled(s, e)
    ensures Inv(Next(s, e))
  {
    StepOwners(s, e);
    StepUnpublished(s, e);
    StepSweepers(s, e);
  }

  lemma {:induction false} RunInv(s: State, run: seq<Event>)
    requires Inv(s) && Exec(s, run).Some?
    ensures Inv(Exec(s, run).value)
    decreases |run|
  {
    if run != [] {
      StepInv(s, run[0]);
      RunInv(Next(s, run[0]), run[1..]);
    }
  }

  // ------------------------------------------------------------- theorems

  /** Nothing but its owner touches the contents of a directory in use: in every
      reachable state, an event that changes or deletes anything in it is the
      owner's own. */
  lemma LiveScratchIsUntouched(run: seq<Event>, e: Event, d: nat)
    requires Exec(START, run).Some?
    requires var s := Exec(START, run).value;
      Enabled(s, e) && d < |s.dirs| && s.InUse(d) && !(OwnerEvent(e) && e.d == d)
    ensures var s, s' := Exec(START, run).value, Next(Exec(START, run).value, e);
      && d < |s'.dirs|
      && s'.dirs[d].files == s.dirs[d].files
      && s'.dirs[d].marker == s.dirs[d].marker
      && s'.dirs[d].exists_ == s.dirs[d].exists_
  {
    RunInv(START, run);
    var s := Exec(START, run).value;
    if RemovalEvent(e) {
      RemovalSparesLive(s, e, d);
      OneDirFrame(s, e, Target(s, e));
    } else {
      OthersSpare(s, e, d);
    }
  }

  lemma RemovalSparesLive(s: State, e: Event, d: nat)
    requires Inv(s) && Enabled(s, e) && RemovalEvent(e) && d < |s.dirs| && s.InUse(d)
    ensures Target(s, e) != d
  {
    assert s.dirs[Target(s, e)].lock == Sweeper(e.s);
    assert s.dirs[d].phase.Creating? || s.dirs[d].lock.Owner?;
    assert s.sweeps[e.s].look == Removing(Target(s, e));
  }

  lemma OthersSpare(s: State, e: Event, d: nat)
    requires Enabled(s, e) && !RemovalEvent(e) && d < |s.dirs| && !(OwnerEvent(e) && e.d == d)
    ensures d < |Next(s, e).dirs|
    ensures Next(s, e).dirs[d].(lock := Nobody) == s.dirs[d].(lock := Nobody)
  {
  }

  /** At most one sweeper removes a directory, and never while its owner uses it. */
  lemma RemovalIsExclusive(run: seq<Event>, v: nat, w: nat)
    requires Exec(START, run).Some?
    requires var s := Exec(START, run).value;
      RemovingNow(s, v) && RemovingNow(s, w) && s.sweeps[v].look.d == s.sweeps[w].look.d
    ensures v == w
    ensures !Exec(START, run).value.InUse(Exec(START, run).value.sweeps[v].look.d)
  {
    RunInv(START, run);
  }

  // ------------------------------------------------------------ reclaiming

  lemma {:induction false} ExecConcat(s: State, a: seq<Event>, b: seq<Event>)
    requires Exec(s, a).Some?
    ensures Exec(s, a + b) == Exec(Exec(s, a).value, b)
    decreases |a|
  {
    if a == [] {
      assert a + b == b;
    } else {
      assert (a + b)[1..] == a[1..] + b;
      ExecConcat(Next(s, a[0]), a[1..], b);
    }
  }

  lemma ExecOne(s: State, e: Event)
    requires Enabled(s, e)
    ensures Exec(s, [e]) == Some(Next(s, e))
  {
    assert [e][1..] == [];
    assert Exec(Next(s, e), []) == Some(Next(s, e));
  }

  /** Delete every file a removing sweeper finds. */
  lemma {:induction false} RemoveFiles(s: State, w: nat) returns (run: seq<Event>)
    requires RemovingNow(s, w)
    ensures Exec(s, run).Some?
    ensures var d := s.sweeps[w].look.d;
      Exec(s, run).value == PutDir(s, d, s.dirs[d].(files := {}))
    decreases s.dirs[s.sweeps[w].look.d].files
  {
    var d := s.sweeps[w].look.d;
    if s.dirs[d].files == {} {
      run := [];
      assert PutDir(s, d, s.dirs[d].(files := {})) == s;
    } else {
      var f :| f in s.dirs[d].files;
      var s1 := Next(s, Remove(w, f));
      run := RemoveFiles(s1, w);
      assert ([Remove(w, f)] + run)[1..] == run;
      assert PutDir(s1, d, s1.dirs[d].(files := {})) == PutDir(s, d, s.dirs[d].(files := {}));
      run := [Remove(w, f)] + run;
    }
  }

  /** What one sweep makes of a directory: a marked one that nobody holds goes, any
      other is left exactly as it was. */
  function Swept(dir: Dir): Dir {
    if dir.exists_ && dir.marker && dir.lock.Nobody? then
      dir.(files := {}, marker := false, exists_ := false)
    else dir
  }

  /** The idle sweeper `w` goes to directory `d`: it opens the marker if there is one,
      and removes everything if it gets the lock. */
  lemma SweepOne(s: State, w: nat, d: nat) returns (run: seq<Event>)
    requires s.Sweeping(w) && s.sweeps[w].look.Idle? && d < |s.dirs|
    ensures Exec(s, run) == Some(PutDir(s, d, Swept(s.dirs[d])))
  {
    if !s.dirs[d].exists_ || !s.dirs[d].marker {
      run := [];
      assert PutDir(s, d, s.dirs[d]) == s;
    } else {
      run := [Open(w, d), TryLock(w)];
      ExecTwo(s, Open(w, d), TryLock(w));
      var tried := Next(Next(s, Open(w, d)), TryLock(w));
      if s.dirs[d].lock.Nobody? {
        var removal := RemoveAll(tried, w);
        ExecConcat(s, run, removal);
        run := run + removal;
        assert Exec(s, run).value == PutDir(s, d, Swept(s.dirs[d])) by {
          assert Exec(s, run).value.sweeps == s.sweeps;
        }
      } else {
        assert tried == PutDir(s, d, s.dirs[d]);
      }
    }
  }

  /** A sweeper that holds the lock deletes the files, the marker and the directory. */
  lemma RemoveAll(s: State, w: nat) returns (run: seq<Event>)
    requires RemovingNow(s, w)
    ensures var d := s.sweeps[w].look.d;
      Exec(s, run) == Some(PutLook(PutDir(s, d,
        s.dirs[d].(files := {}, marker := false, exists_ := false, lock := Nobody)), w, Idle))
  {
    var files := RemoveFiles(s, w);
    var emptied := Exec(s, files).value;
    var rest := RemoveEmptied(emptied, w);
    ExecConcat(s, files, rest);
    run := files + rest;
    var d := s.sweeps[w].look.d;
    assert Exec(s, run).value.dirs == s.dirs[d := Exec(s, run).value.dirs[d]];
  }

  lemma {:induction false} SweepFrom(s: State, w: nat, k: nat) returns (run: seq<Event>)
    requires s.Sweeping(w) && s.sweeps[w].look.Idle? && k <= |s.dirs|
    ensures Exec(s, run) == Some(s.(dirs := s.dirs[..k] + SweptAll(s.dirs[k..])))
    decreases |s.dirs| - k
  {
    if k == |s.dirs| {
      run := [];
      assert s.dirs[..k] + SweptAll(s.dirs[k..]) == s.dirs;
    } else {
      run := SweepOne(s, w, k);
      var s1 := PutDir(s, k, Swept(s.dirs[k]));
      var rest := SweepFrom(s1, w, k + 1);
      ExecConcat(s, run, rest);
      run := run + rest;
      assert s1.dirs[..k + 1] + SweptAll(s1.dirs[k + 1..]) == s.dirs[..k] + SweptAll(s.dirs[k..]);
    }
  }

  function SweptAll(dirs: seq<Dir>): seq<Dir> {
    seq(|dirs|, d requires 0 <= d < |dirs| => Swept(dirs[d]))
  }

  /** One undisturbed sweep by any live process reclaims every marked directory that
      nobody holds, and leaves all others as they were. */
  lemma SweepReclaims(s: State, p: nat) returns (run: seq<Event>)
    requires s.Lives(p)
    ensures Exec(s, run) == Some(s.(dirs := SweptAll(s.dirs), sweeps := s.sweeps + [Sweep(p, Idle)]))
  {
    var s1 := Next(s, StartSweep(p));
    run := SweepFrom(s1, |s.sweeps|, 0);
    assert s1.dirs[..0] + SweptAll(s1.dirs[0..]) == SweptAll(s.dirs);
    ExecOne(s, StartSweep(p));
    ExecConcat(s, [StartSweep(p)], run);
    run := [StartSweep(p)] + run;
  }

  lemma RemoveEmptied(s: State, w: nat) returns (run: seq<Event>)
    requires RemovingNow(s, w) && s.dirs[s.sweeps[w].look.d].files == {}
    ensures var d := s.sweeps[w].look.d;
      Exec(s, run) == Some(PutLook(PutDir(s, d,
        s.dirs[d].(marker := false, exists_ := false, lock := Nobody)), w, Idle))
  {
    var s1 := Next(s, Unmark(w));
    var s2 := Next(s1, Rmdir(w));
    ExecTwo(s, Unmark(w), Rmdir(w));
    ExecOne(s2, Finish(w));
    run := [Unmark(w), Rmdir(w)];
    ExecConcat(s, run, [Finish(w)]);
    run := run + [Finish(w)];
    assert s2.dirs == s.dirs[s.sweeps[w].look.d := s2.dirs[s.sweeps[w].look.d]];
    assert Next(s2, Finish(w)).dirs == s.dirs[s.sweeps[w].look.d := Next(s2, Finish(w)).dirs[s.sweeps[w].look.d]];
  }

  lemma ExecTwo(s: State, e: Event, f: Event)
    requires Enabled(s, e) && Enabled(Next(s, e), f)
    ensures Exec(s, [e, f]) == Some(Next(Next(s, e), f))
  {
    ExecOne(Next(s, e), f);
    assert [e, f][1..] == [f];
  }

  /** Once its owner is gone, a directory's lock is held by a live sweeper already
      removing it or by nobody. */
  lemma AbandonedIsFree(run: seq<Event>, d: nat)
    requires Exec(START, run).Some?
    requires d < |Exec(START, run).value.dirs| && !Exec(START, run).value.InUse(d)
    ensures var s := Exec(START, run).value;
      || s.dirs[d].lock.Nobody?
      || (s.dirs[d].lock.Sweeper? && RemovingNow(s, s.dirs[d].lock.s)
          && s.sweeps[s.dirs[d].lock.s].look.d == d)
  {
    RunInv(START, run);
  }

  ghost predicate Reclaimable(s: State, d: nat) {
    exists run: seq<Event> :: Exec(s, run).Some? && d < |Exec(s, run).value.dirs|
      && !Exec(s, run).value.dirs[d].exists_
  }

  /** An abandoned directory without a marker that no live sweeper is on stays. */
  ghost predicate Forgotten(s: State, d: nat) {
    d < |s.dirs| && s.dirs[d].exists_ && !s.dirs[d].marker && !s.InUse(d) && !s.Targeted(d)
  }

  lemma ForgottenStep(s: State, e: Event, d: nat)
    requires Inv(s) && Enabled(s, e) && Forgotten(s, d)
    ensures Forgotten(Next(s, e), d)
  {
    var s' := Next(s, e);
    if RemovalEvent(e) {
      OneDirFrame(s, e, Target(s, e));
      assert Target(s, e) != d;
    }
    assert s'.dirs[d].exists_ && !s'.dirs[d].marker && !s'.InUse(d);
    if s'.Targeted(d) {
      var w :| 0 <= w < |s'.sweeps| && s'.Sweeping(w)
        && (s'.sweeps[w].look == Opened(d) || s'.sweeps[w].look == Removing(d));
      assert w < |s.sweeps| && s.Sweeping(w);
    }
  }

  lemma {:induction false} ForgottenForGood(s: State, run: seq<Event>, d: nat)
    requires Inv(s) && Forgotten(s, d) && Exec(s, run).Some?
    ensures Forgotten(Exec(s, run).value, d)
    decreases |run|
  {
    if run != [] {
      StepInv(s, run[0]);
      ForgottenStep(s, run[0], d);
      ForgottenForGood(Next(s, run[0]), run[1..], d);
    }
  }

  /** A live sweeper that got as far as opening the marker of an abandoned directory
      can still finish with it. */
  lemma TargetReclaims(s: State, d: nat) returns (run: seq<Event>)
    requires Inv(s) && d < |s.dirs| && !s.InUse(d) && s.Targeted(d)
    ensures Exec(s, run).Some? && d < |Exec(s, run).value.dirs| && !Exec(s, run).value.dirs[d].exists_
  {
    if s.dirs[d].lock.Sweeper? {
      run := RemoveAll(s, s.dirs[d].lock.s);
    } else {
      var w :| 0 <= w < |s.sweeps| && s.Sweeping(w)
        && (s.sweeps[w].look == Opened(d) || s.sweeps[w].look == Removing(d));
      ExecOne(s, TryLock(w));
      run := RemoveAll(Next(s, TryLock(w)), w);
      ExecConcat(s, [TryLock(w)], run);
      run := [TryLock(w)] + run;
    }
  }

  /** A process started now sweeps away a marked directory nobody holds. */
  lemma NewcomerReclaims(s: State, d: nat) returns (run: seq<Event>)
    requires d < |s.dirs| && s.dirs[d].exists_ && s.dirs[d].marker && s.dirs[d].lock.Nobody?
    ensures Exec(s, run).Some? && d < |Exec(s, run).value.dirs| && !Exec(s, run).value.dirs[d].exists_
  {
    ExecOne(s, Spawn);
    run := SweepReclaims(Next(s, Spawn), |s.alive|);
    ExecConcat(s, [Spawn], run);
    run := [Spawn] + run;
  }

  /** Exactly which abandoned directories can still be reclaimed: those whose marker
      is still there, or that a live sweeper is on. A sweeper that dies after deleting
      the marker, or an owner that dies before publishing it, leaves a directory no
      later sweep will ever take. */
  lemma ReclaimableIffMarked(run: seq<Event>, d: nat)
    requires Exec(START, run).Some?
    requires var s := Exec(START, run).value;
      d < |s.dirs| && s.dirs[d].exists_ && !s.InUse(d)
    ensures var s := Exec(START, run).value;
      Reclaimable(s, d) <==> s.dirs[d].marker || s.Targeted(d)
  {
    RunInv(START, run);
    var s := Exec(START, run).value;
    AbandonedIsFree(run, d);
    if s.Targeted(d) {
      var more := TargetReclaims(s, d);
    } else if s.dirs[d].marker {
      var more := NewcomerReclaims(s, d);
    } else {
      forall more: seq<Event> | Exec(s, more).Some?
        ensures d < |Exec(s, more).value.dirs| && Exec(s, more).value.dirs[d].exists_
      {
        ForgottenForGood(s, more, d);
      }
    }
  }

  // ------------------------------------------------- a sweeper that dies early

  function OneDir(alive: seq<bool>, phase: Phase, marker: bool, lock: Holder, sweeps: seq<Sweep>): State {
    State(alive, [Dir(0, phase, true, marker, lock, {})], sweeps)
  }

  lemma CreateOne()
    ensures Exec(START, [Spawn, Create(0)]) == Some(OneDir([true], Creating, false, Nobody, []))
  {
    assert Next(Next(START, Spawn), Create(0)) == OneDir([true], Creating, false, Nobody, []);
    ExecTwo(START, Spawn, Create(0));
  }

  lemma PublishOne()
    ensures Exec(OneDir([true], Creating, false, Nobody, []), [LockOwner(0), Publish(0)])
      == Some(OneDir([true], Live, true, Owner, []))
  {
    var s := OneDir([true], Creating, false, Nobody, []);
    assert Next(Next(s, LockOwner(0)), Publish(0)) == OneDir([true], Live, true, Owner, []);
    ExecTwo(s, LockOwner(0), Publish(0));
  }

  lemma DiePublished()
    ensures Exec(OneDir([true], Live, true, Owner, []), [Crash(0), Spawn])
      == Some(OneDir([false, true], Live, true, Nobody, []))
  {
    var s := OneDir([true], Live, true, Owner, []);
    assert Next(Next(s, Crash(0)), Spawn) == OneDir([false, true], Live, true, Nobody, []);
    ExecTwo(s, Crash(0), Spawn);
  }

  lemma OpenOne()
    ensures Exec(OneDir([false, true], Live, true, Nobody, []), [StartSweep(1), Open(0, 0)])
      == Some(OneDir([false, true], Live, true, Nobody, [Sweep(1, Opened(0))]))
  {
    var s := OneDir([false, true], Live, true, Nobody, []);
    var t := OneDir([false, true], Live, true, Nobody, [Sweep(1, Opened(0))]);
    assert Next(Next(s, StartSweep(1)), Open(0, 0)) == t;
    ExecTwo(s, StartSweep(1), Open(0, 0));
  }

  lemma UnmarkOne()
    ensures Exec(OneDir([false, true], Live, true, Nobody, [Sweep(1, Opened(0))]), [TryLock(0), Unmark(0)])
      == Some(OneDir([false, true], Live, false, Sweeper(0), [Sweep(1, Removing(0))]))
  {
    var s := OneDir([false, true], Live, true, Nobody, [Sweep(1, Opened(0))]);
    var t := OneDir([false, true], Live, true, Sweeper(0), [Sweep(1, Removing(0))]);
    assert Next(s, TryLock(0)) == t;
    var u := OneDir([false, true], Live, false, Sweeper(0), [Sweep(1, Removing(0))]);
    assert Next(t, Unmark(0)) == u;
    ExecTwo(s, TryLock(0), Unmark(0));
  }

  lemma DieUnmarked()
    ensures Exec(OneDir([false, true], Live, false, Sweeper(0), [Sweep(1, Removing(0))]), [Crash(1), Spawn])
      == Some(OneDir([false, false, true], Live, false, Nobody, [Sweep(1, Removing(0))]))
  {
    var s := OneDir([false, true], Live, false, Sweeper(0), [Sweep(1, Removing(0))]);
    var t := OneDir([false, false], Live, false, Nobody, [Sweep(1, Removing(0))]);
    assert Next(s, Crash(1)) == t;
    assert Next(t, Spawn) == OneDir([false, false, true], Live, false, Nobody, [Sweep(1, Removing(0))]);
    ExecTwo(s, Crash(1), Spawn);
  }

  /** Not every published directory of a dead owner is reclaimed: here is a run
      after which one no longer can be. */
  lemma SweepCanForget() returns (run: seq<Event>)
    ensures Exec(START, run).Some?
    ensures var s := Exec(START, run).value;
      && 0 < |s.dirs| && s.dirs[0].phase.Live? && !s.Lives(s.dirs[0].owner) && s.Lives(2)
      && !Reclaimable(s, 0)
  {
    var left := OneDir([false, false, true], Live, false, Nobody, [Sweep(1, Removing(0))]);
    run := RunToUnmarked(left);
    assert !left.Targeted(0);
    ReclaimableIffMarked(run, 0);
  }

  lemma Then(run: seq<Event>, s: State, e: Event, f: Event, s': State)
    requires Exec(START, run) == Some(s) && Exec(s, [e, f]) == Some(s')
    ensures Exec(START, run + [e, f]) == Some(s')
  {
    ExecConcat(START, run, [e, f]);
  }

  lemma RunToUnmarked(left: State) returns (run: seq<Event>)
    requires left == OneDir([false, false, true], Live, false, Nobody, [Sweep(1, Removing(0))])
    ensures Exec(START, run) == Some(left)
  {
    CreateOne();
    PublishOne();
    DiePublished();
    OpenOne();
    UnmarkOne();
    DieUnmarked();
    var created := OneDir([true], Creating, false, Nobody, []);
    var published := OneDir([true], Live, true, Owner, []);
    var orphaned := OneDir([false, true], Live, true, Nobody, []);
    var found := OneDir([false, true], Live, true, Nobody, [Sweep(1, Opened(0))]);
    var unmarked := OneDir([false, true], Live, false, Sweeper(0), [Sweep(1, Removing(0))]);
    run := [Spawn, Create(0)];
    Then(run, created, LockOwner(0), Publish(0), published);
    run := run + [LockOwner(0), Publish(0)];
    Then(run, published, Crash(0), Spawn, orphaned);
    run := run + [Crash(0), Spawn];
    Then(run, orphaned, StartSweep(1), Open(0, 0), found);
    run := run + [StartSweep(1), Open(0, 0)];
    Then(run, found, TryLock(0), Unmark(0), unmarked);
    run := run + [TryLock(0), Unmark(0)];
    Then(run, unmarked, Crash(1), Spawn, left);
    run := run + [Crash(1), Spawn];
  }
}
