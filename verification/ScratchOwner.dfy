/** A scratch directory as its owner sees it: it holds what the owner put there, and
    goes when the owner closes it. */
module ScratchOwner {
  import opened Prelude
  import opened ScratchProtocol

  lemma {:induction false} ExecLast(s: State, run: seq<Event>, e: Event)
    requires Exec(s, run + [e]).Some?
    ensures Exec(s, run).Some? && Enabled(Exec(s, run).value, e)
    ensures Exec(s, run + [e]) == Some(Next(Exec(s, run).value, e))
    decreases |run|
  {
    if run == [] {
      assert run + [e] == [e];
      ExecOne(s, e);
    } else {
      assert (run + [e])[1..] == run[1..] + [e];
      ExecLast(Next(s, run[0]), run[1..], e);
    }
  }

  lemma ExecCons(s: State, e: Event, run: seq<Event>)
    requires Enabled(s, e)
    ensures Exec(s, [e] + run) == Exec(Next(s, e), run)
  {
    assert ([e] + run)[1..] == run;
  }

  /** The files the owner of directory `d` has put there and not taken out again. */
  function Kept(run: seq<Event>, d: nat): set<nat> {
    if run == [] then {}
    else
      var before := run[..|run| - 1];
      match run[|run| - 1]
      case AddFile(u, f) => if u == d then Kept(before, d) + {f} else Kept(before, d)
      case DeleteFile(u, f) => if u == d then Kept(before, d) - {f} else Kept(before, d)
      case _ => Kept(before, d)
  }

  lemma {:induction false} NothingKeptYet(run: seq<Event>, d: nat)
    requires Exec(START, run).Some? && d >= |Exec(START, run).value.dirs|
    ensures Kept(run, d) == {}
    decreases |run|
  {
    if run != [] {
      var before, e := run[..|run| - 1], run[|run| - 1];
      assert run == before + [e];
      ExecLast(START, before, e);
      DirsGrow(Exec(START, before).value, e);
      NothingKeptYet(before, d);
    }
  }

  lemma DirsGrow(s: State, e: Event)
    requires Enabled(s, e)
    ensures |Next(s, e).dirs| == |s.dirs| + if e.Create? then 1 else 0
  {
  }

  /** In every reachable state a directory in use holds exactly what its owner put
      there, and while it is live it and its marker are in place. */
  lemma {:induction false} HoldsWhatWasKept(run: seq<Event>, d: nat)
    requires Exec(START, run).Some?
    requires d < |Exec(START, run).value.dirs| && Exec(START, run).value.InUse(d)
    ensures var dir := Exec(START, run).value.dirs[d];
      && dir.files == Kept(run, d)
      && (dir.phase.Live? ==> dir.exists_ && dir.marker)
      && (dir.phase.Creating? || dir.phase.Locked? ==> dir.exists_ && !dir.marker)
    decreases |run|
  {
    var before, e := run[..|run| - 1], run[|run| - 1];
    assert run == before + [e];
    ExecLast(START, before, e);
    var s := Exec(START, before).value;
    DirsGrow(s, e);
    RunInv(START, before);
    if d == |s.dirs| {
      NothingKeptYet(before, d);
    } else {
      StillInUse(s, e, d);
      HoldsWhatWasKept(before, d);
      if !(OwnerEvent(e) && e.d == d) {
        LiveScratchIsUntouched(before, e, d);
        SamePhase(s, e, d);
      }
    }
  }

  lemma StillInUse(s: State, e: Event, d: nat)
    requires Enabled(s, e) && d < |s.dirs| && d < |Next(s, e).dirs| && Next(s, e).InUse(d)
    requires forall k :: 0 <= k < |s.dirs| ==> s.dirs[k].owner < |s.alive|
    ensures s.InUse(d)
  {
  }

  lemma SamePhase(s: State, e: Event, d: nat)
    requires Enabled(s, e) && d < |s.dirs| && !(OwnerEvent(e) && e.d == d)
    ensures d < |Next(s, e).dirs| && Next(s, e).dirs[d].phase == s.dirs[d].phase
  {
  }

  // ----------------------------------------------------------------- closing

  /** The owner deletes what is left in the directory it is closing. */
  lemma {:induction false} EmptyOut(s: State, d: nat) returns (run: seq<Event>)
    requires Owned(s, d, Closing)
    ensures forall e :: e in run ==> OwnerEvent(e) && e.d == d
    ensures Exec(s, run) == Some(PutDir(s, d, s.dirs[d].(files := {})))
    decreases s.dirs[d].files
  {
    run := [];
    if s.dirs[d].files == {} {
      assert PutDir(s, d, s.dirs[d].(files := {})) == s;
    } else {
      var f :| f in s.dirs[d].files;
      var s1 := Next(s, DeleteFile(d, f));
      run := EmptyOut(s1, d);
      assert PutDir(s1, d, s1.dirs[d].(files := {})) == PutDir(s, d, s.dirs[d].(files := {}));
      ExecCons(s, DeleteFile(d, f), run);
      run := [DeleteFile(d, f)] + run;
    }
  }

  lemma CloseEmptied(s: State, d: nat) returns (run: seq<Event>)
    requires Owned(s, d, Closing) && s.dirs[d].files == {}
    ensures forall e :: e in run ==> OwnerEvent(e) && e.d == d
    ensures Exec(s, run) == Some(PutDir(s, d,
      s.dirs[d].(marker := false, exists_ := false, phase := Closed, lock := Nobody)))
  {
    var s1 := Next(s, CloseUnmark(d));
    var s2 := Next(s1, CloseRmdir(d));
    ExecTwo(s, CloseUnmark(d), CloseRmdir(d));
    ExecOne(s2, EndClose(d));
    run := [CloseUnmark(d), CloseRmdir(d)];
    ExecConcat(s, run, [EndClose(d)]);
    run := run + [EndClose(d)];
    assert s2.dirs == s.dirs[d := s2.dirs[d]];
    assert Next(s2, EndClose(d)).dirs == s.dirs[d := Next(s2, EndClose(d)).dirs[d]];
  }

  /** An owner can always close its live directory by itself: nothing of it is left,
      the lock is free, and nothing else has changed. */
  lemma OwnerCanClose(s: State, d: nat) returns (run: seq<Event>)
    requires Owned(s, d, Live)
    ensures forall e :: e in run ==> OwnerEvent(e) && e.d == d
    ensures Exec(s, run) == Some(PutDir(s, d, s.dirs[d].(
      files := {}, marker := false, exists_ := false, phase := Closed, lock := Nobody)))
  {
    var s1 := Next(s, BeginClose(d));
    var emptying := EmptyOut(s1, d);
    var s2 := Exec(s1, emptying).value;
    var closing := CloseEmptied(s2, d);
    ExecConcat(s1, emptying, closing);
    run := emptying + closing;
    ExecCons(s, BeginClose(d), run);
    run := [BeginClose(d)] + run;
    assert Exec(s, run).value.dirs == s.dirs[d := Exec(s, run).value.dirs[d]];
  }

  /** Any live process can set up a directory of its own: locked before it is marked,
      and empty. */
  lemma OwnerCanOpen(s: State, p: nat) returns (run: seq<Event>)
    requires s.Lives(p)
    ensures Exec(s, run) == Some(s.(dirs := s.dirs + [Dir(p, Live, true, true, Owner, {})]))
  {
    var d := |s.dirs|;
    var s1 := Next(s, Create(p));
    var s2 := Next(s1, LockOwner(d));
    ExecTwo(s, Create(p), LockOwner(d));
    ExecOne(s2, Publish(d));
    run := [Create(p), LockOwner(d)];
    ExecConcat(s, run, [Publish(d)]);
    run := run + [Publish(d)];
    assert Next(s2, Publish(d)).dirs == s.dirs + [Dir(p, Live, true, true, Owner, {})];
  }
}
