/** The benchmark server's seeded shuffle and its claim cursor. */
module Handout {
  import opened Prelude

  // --------------------------------------------------------------- xorshift

  function NextState(x: bv64): bv64 {
    var a := x ^ (x << 13);
    var b := a ^ (a >> 7);
    b ^ (b << 17)
  }

  /** The number drawn from a state: a wrapping product. */
  function Output(state: bv64): bv64 {
    state * 0x2545_F491_4F6C_DD1D
  }

  function Drawn(state: bv64): nat {
    Output(state) as nat
  }

  function Seeded(seed: bv64): bv64 {
    if seed == 0 then 1 else seed
  }

  function StateAfter(seed: bv64, steps: nat): bv64 {
    if steps == 0 then Seeded(seed) else NextState(StateAfter(seed, steps - 1))
  }

  lemma NextStateNonZero(x: bv64)
    requires x != 0
    ensures NextState(x) != 0
  {
    LeftNonZero(x);
    var a := x ^ (x << 13);
    RightNonZero(a);
    var b := a ^ (a >> 7);
    LeftNonZero(b);
  }

  lemma LeftNonZero(x: bv64)
    requires x != 0
    ensures x ^ (x << 13) != 0 && x ^ (x << 17) != 0
  {
  }

  lemma RightNonZero(x: bv64)
    requires x != 0
    ensures x ^ (x >> 7) != 0
  {
  }

  /** The generator's first step from the smallest seed, and the number it draws. */
  lemma KnownStart()
    ensures NextState(Seeded(0)) == NextState(Seeded(1)) == 0x4082_2041
    ensures Output(0x4082_2041) == 0xBAFA_CF62_4F01_C45D
  {
  }

  /** The generator never falls into the zero state, from which it could not leave. */
  lemma {:induction false} StateNeverZero(seed: bv64, steps: nat)
    ensures StateAfter(seed, steps) != 0 && NextState(0) == 0
  {
    if steps > 0 {
      StateNeverZero(seed, steps - 1);
      NextStateNonZero(StateAfter(seed, steps - 1));
    }
  }

  // ---------------------------------------------------------------- shuffle

  function Swapped<T>(s: seq<T>, i: nat, j: nat): seq<T>
    requires i < |s| && j < |s|
  {
    s[i := s[j]][j := s[i]]
  }

  /** The swaps for positions `i` down to 1. */
  function ShuffleFrom<T>(s: seq<T>, i: nat, state: bv64): (r: seq<T>)
    requires i < |s|
    ensures |r| == |s|
    decreases i
  {
    if i == 0 then s
    else
      var next := NextState(state);
      ShuffleFrom(Swapped(s, i, Drawn(next) % (i + 1)), i - 1, next)
  }

  function Shuffled<T>(s: seq<T>, seed: bv64): (r: seq<T>)
    ensures |r| == |s|
  {
    if s == [] then s else ShuffleFrom(s, |s| - 1, Seeded(seed))
  }

  method Shuffle<T>(jobs: array<T>, seed: bv64)
    modifies jobs
    ensures jobs[..] == Shuffled(old(jobs[..]), seed)
  {
    var state := Seeded(seed);
    var i := jobs.Length;
    while i > 1
      invariant 0 <= i <= jobs.Length
      invariant jobs.Length > 0 ==> i > 0
      invariant jobs.Length > 0 ==> ShuffleFrom(jobs[..], i - 1, state) == Shuffled(old(jobs[..]), seed)
    {
      i := i - 1;
      state := NextState(state);
      var j := Drawn(state) % (i + 1);
      ghost var was := jobs[..];
      jobs[i], jobs[j] := jobs[j], jobs[i];
      assert jobs[..] == Swapped(was, i, j);
    }
  }

  /** The numbers below `n`, in order. */
  function Places(n: nat): seq<nat> {
    seq(n, i => i)
  }

  lemma SwapKeeps<T>(s: seq<T>, i: nat, j: nat)
    requires i < |s| && j < |s|
    ensures multiset(Swapped(s, i, j)) == multiset(s)
  {
  }

  lemma {:induction false} ShuffleFromKeeps<T>(s: seq<T>, i: nat, state: bv64)
    requires i < |s|
    ensures multiset(ShuffleFrom(s, i, state)) == multiset(s)
    decreases i
  {
    if i > 0 {
      var next := NextState(state);
      var j := Drawn(next) % (i + 1);
      SwapKeeps(s, i, j);
      ShuffleFromKeeps(Swapped(s, i, j), i - 1, next);
    }
  }

  /** Nothing is lost or repeated by a shuffle. */
  lemma ShuffleIsPermutation<T>(s: seq<T>, seed: bv64)
    ensures multiset(Shuffled(s, seed)) == multiset(s)
  {
    if s != [] {
      ShuffleFromKeeps(s, |s| - 1, Seeded(seed));
    }
  }

  ghost predicate Within(places: seq<nat>, n: nat) {
    forall k :: 0 <= k < |places| ==> places[k] < n
  }

  function At<T>(s: seq<T>, places: seq<nat>): seq<T>
    requires Within(places, |s|)
  {
    seq(|places|, k requires 0 <= k < |places| => s[places[k]])
  }

  lemma {:induction false} ShuffleFromPlaces<T>(s: seq<T>, places: seq<nat>, i: nat, state: bv64)
    requires i < |places| && Within(places, |s|)
    ensures Within(ShuffleFrom(places, i, state), |s|)
    ensures ShuffleFrom(At(s, places), i, state) == At(s, ShuffleFrom(places, i, state))
    decreases i
  {
    if i > 0 {
      var next := NextState(state);
      var j := Drawn(next) % (i + 1);
      var swapped := Swapped(places, i, j);
      assert At(s, swapped) == Swapped(At(s, places), i, j);
      ShuffleFromPlaces(s, swapped, i - 1, next);
    }
  }

  /** The order in which a seed hands out the positions below `n`. */
  function Order(n: nat, seed: bv64): (r: seq<nat>)
    ensures |r| == n
  {
    Shuffled(Places(n), seed)
  }

  /** A seed and a length name one permutation of positions, and every sequence of
      that length is rearranged by it, whatever it holds. */
  lemma SeedNamesAPermutation<T>(s: seq<T>, seed: bv64)
    ensures multiset(Order(|s|, seed)) == multiset(Places(|s|))
    ensures Within(Order(|s|, seed), |s|) && Shuffled(s, seed) == At(s, Order(|s|, seed))
  {
    var places := Places(|s|);
    ShuffleIsPermutation(places, seed);
    if s != [] {
      ShuffleFromPlaces(s, places, |s| - 1, Seeded(seed));
      assert At(s, places) == s;
    }
  }

  // ----------------------------------------------------------- claim cursor

  /** The server has nothing left exactly when the cursor has passed the jobs, however
      many are asked for. */
  lemma DrainedIffPast(total: nat, cursor: nat, count: nat)
    ensures Serve(total, cursor, count).NoContent? <==> cursor >= total
  {
  }

  /** One claim's reply: nothing left, the jobs from `start` to `end`, or an
      overflowing addition. */
  datatype Reply = NoContent | Slice(start: nat, end: nat) | Overflow

  function Serve(total: nat, cursor: nat, count: nat): Reply {
    if cursor >= total then NoContent
    else if cursor + count > U64_MAX then Overflow
    else Slice(cursor, Min(cursor + count, total))
  }

  /** The atomic fetch-and-add of two words wraps. */
  function Advance(cursor: nat, count: nat): nat {
    if cursor + count <= U64_MAX then cursor + count else cursor + count - (U64_MAX + 1)
  }

  function Handed<T>(jobs: seq<T>, cursor: nat, count: nat): seq<T> {
    match Serve(|jobs|, cursor, count)
    case Slice(start, end) => jobs[start..end]
    case _ => []
  }

  /** Everything handed out by a run of claims, in order of their fetch-and-adds. */
  function Served<T>(jobs: seq<T>, cursor: nat, counts: seq<nat>): seq<T>
    decreases |counts|
  {
    if counts == [] then []
    else Handed(jobs, cursor, counts[0]) + Served(jobs, Advance(cursor, counts[0]), counts[1..])
  }

  function Claimed(counts: seq<nat>): nat {
    if counts == [] then 0 else counts[0] + Claimed(counts[1..])
  }

  /** The jobs from `i` up to `j`, as far as there are any. */
  function Part<T>(jobs: seq<T>, i: nat, j: nat): seq<T>
    requires i <= j
  {
    jobs[Min(i, |jobs|)..Min(j, |jobs|)]
  }

  lemma PartJoin<T>(jobs: seq<T>, i: nat, j: nat, k: nat)
    requires i <= j <= k
    ensures Part(jobs, i, j) + Part(jobs, j, k) == Part(jobs, i, k)
  {
  }

  lemma HandedPart<T>(jobs: seq<T>, cursor: nat, count: nat)
    requires cursor + count <= U64_MAX
    ensures Advance(cursor, count) == cursor + count
    ensures Handed(jobs, cursor, count) == Part(jobs, cursor, cursor + count)
  {
  }

  lemma {:induction false} ServedFrom<T>(jobs: seq<T>, cursor: nat, counts: seq<nat>)
    requires cursor + Claimed(counts) <= U64_MAX
    ensures Served(jobs, cursor, counts) == Part(jobs, cursor, cursor + Claimed(counts))
    decreases |counts|
  {
    if counts != [] {
      var next := cursor + counts[0];
      HandedPart(jobs, cursor, counts[0]);
      ServedFrom(jobs, next, counts[1..]);
      assert Served(jobs, cursor, counts) == Handed(jobs, cursor, counts[0]) + Served(jobs, next, counts[1..]);
      PartJoin(jobs, cursor, next, cursor + Claimed(counts));
    }
  }

  ghost predicate Words(counts: seq<nat>) {
    forall c :: c in counts ==> c <= U64_MAX
  }

  /** The jobs go out once each and in order, as far as the claims ask for them. */
  ghost predicate OnceEach<T>(jobs: seq<T>, counts: seq<nat>) {
    Served(jobs, 0, counts) == jobs[..Min(Claimed(counts), |jobs|)]
  }

  lemma {:induction false} NothingToServe<T>(jobs: seq<T>, cursor: nat, counts: seq<nat>)
    requires jobs == [] || Claimed(counts) == 0
    ensures Served(jobs, cursor, counts) == []
    decreases |counts|
  {
    if counts != [] {
      assert Claimed(counts[1..]) <= Claimed(counts);
      NothingToServe(jobs, Advance(cursor, counts[0]), counts[1..]);
    }
  }

  /** Past a single job the claims may go once around the counter. */
  lemma {:induction false} PastTheOnlyJob<T>(jobs: seq<T>, cursor: nat, counts: seq<nat>)
    requires |jobs| == 1 && 1 <= cursor <= U64_MAX && cursor + Claimed(counts) <= U64_MAX + 1
    ensures Served(jobs, cursor, counts) == []
    decreases |counts|
  {
    if counts != [] {
      if cursor + counts[0] <= U64_MAX {
        PastTheOnlyJob(jobs, cursor + counts[0], counts[1..]);
      } else {
        NothingToServe(jobs, 0, counts[1..]);
      }
    }
  }

  lemma {:induction false} TheOnlyJob<T>(jobs: seq<T>, counts: seq<nat>)
    requires |jobs| == 1 && Words(counts) && Claimed(counts) <= U64_MAX + 1
    ensures OnceEach(jobs, counts)
    decreases |counts|
  {
    if counts != [] {
      assert counts[0] in counts && forall c :: c in counts[1..] ==> c in counts;
      if counts[0] == 0 {
        TheOnlyJob(jobs, counts[1..]);
      } else {
        PastTheOnlyJob(jobs, counts[0], counts[1..]);
      }
    }
  }

  /** After one job, a claim for everything overflows and hands out nothing; the
      counter then stands at zero again, so the next claim repeats the first job. */
  lemma PastTheTop<T>(jobs: seq<T>, counts: seq<nat>, all: nat)
    requires jobs != [] && all == U64_MAX
    requires counts == if |jobs| == 1 then [1, all, 1] else [1, all]
    ensures Words(counts) && Claimed(counts) == all + |counts| - 1 && !OnceEach(jobs, counts)
  {
    var second := counts[1..];
    var third := second[1..];
    assert third == if |jobs| == 1 then [1] else [];
    assert third != [] ==> third[1..] == [];
    assert Claimed(second) == all + Claimed(third);
    assert Claimed(counts) == 1 + Claimed(second);
    ServedNext(jobs, 0, counts);
    ServedNext(jobs, 1, second);
    assert Served(jobs, 0, counts) == [jobs[0]] + Served(jobs, 0, third);
    if third != [] {
      ServedNext(jobs, 0, third);
    }
  }

  /** However the claims interleave and whatever they ask for, as long as they ask
      for no more than `bound` in all, the jobs go out once each and in order: just
      when `bound` is below 2^64, or there is at most one job to take part. */
  lemma EachJobOnce<T>(jobs: seq<T>, bound: nat)
    requires |jobs| <= U64_MAX
    ensures (forall counts: seq<nat> ::
               Words(counts) && Claimed(counts) <= bound ==> OnceEach(jobs, counts))
      <==> jobs == [] || bound <= U64_MAX + if |jobs| == 1 then 1 else 0
  {
    if jobs == [] || bound <= U64_MAX + if |jobs| == 1 then 1 else 0 {
      forall counts: seq<nat> | Words(counts) && Claimed(counts) <= bound
        ensures OnceEach(jobs, counts)
      {
        if jobs == [] {
          NothingToServe(jobs, 0, counts);
        } else if |jobs| == 1 {
          TheOnlyJob(jobs, counts);
        } else {
          ServedFrom(jobs, 0, counts);
          assert Part(jobs, 0, Claimed(counts)) == jobs[..Min(Claimed(counts), |jobs|)];
        }
      }
    } else {
      var counts := if |jobs| == 1 then [1, U64_MAX, 1] else [1, U64_MAX];
      PastTheTop(jobs, counts, U64_MAX);
    }
  }

  /** Claims that go exactly once around the counter reset the server: whatever is
      claimed after them is served as if from the start. */
  lemma WrapServesAgain<T>(jobs: seq<T>, all: nat, gap: nat, rest: seq<nat>)
    requires 0 < |jobs| <= all <= U64_MAX && all + gap == U64_MAX + 1
    ensures Served(jobs, 0, [all] + ([gap] + rest)) == jobs + Served(jobs, 0, rest)
  {
    var tail := [gap] + rest;
    WrapReplies(jobs, all, gap);
    ServedNext(jobs, all, tail);
    assert tail[1..] == rest;
    ServedNext(jobs, 0, [all] + tail);
    assert ([all] + tail)[1..] == tail;
  }

  lemma ServedNext<T>(jobs: seq<T>, cursor: nat, counts: seq<nat>)
    requires counts != []
    ensures Served(jobs, cursor, counts)
      == Handed(jobs, cursor, counts[0]) + Served(jobs, Advance(cursor, counts[0]), counts[1..])
  {
  }

  lemma WrapReplies<T>(jobs: seq<T>, all: nat, gap: nat)
    requires 0 < |jobs| <= all <= U64_MAX && all + gap == U64_MAX + 1
    ensures Handed(jobs, 0, all) == jobs && Advance(0, all) == all
    ensures Handed(jobs, all, gap) == [] && Advance(all, gap) == 0
  {
    assert jobs[0..|jobs|] == jobs;
  }
}
