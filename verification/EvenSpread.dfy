/** The benchmark server's orders of handing out jobs. The mixed order spreads
    every size class evenly: the k-th of n jobs of a class is keyed with its
    fractional position (2k+1)/2n on a grid of 2^32 points, and the jobs are
    sorted by key. */
module EvenSpread {
  import opened Prelude

  datatype Job = Job(path: string, size: nat)

  const GRID: nat := 0x1_0000_0000
  const CLASSES: nat := 3
  const MIB: nat := 1024 * 1024

  function SizeClass(size: nat): (c: nat)
    ensures c < CLASSES
  {
    if size < MIB then 0 else if size < 32 * MIB then 1 else 2
  }

  /** Two sizes share a class exactly when neither 1 MiB nor 32 MiB lies between them. */
  lemma SameClass(a: nat, b: nat)
    ensures SizeClass(a) == SizeClass(b)
      <==> (a < 1048576 <==> b < 1048576) && (a < 33554432 <==> b < 33554432)
    ensures SizeClass(a) < SizeClass(b) ==> a < b
  {
  }

  // ------------------------------------------------------------------ keys

  datatype Keyed = Keyed(key: nat, job: Job)

  function InClass(jobs: seq<Job>, c: nat): nat {
    if jobs == [] then 0
    else (if SizeClass(jobs[0].size) == c then 1 else 0) + InClass(jobs[1..], c)
  }

  /** Key of the `k`-th of `n` jobs. */
  function Key(k: nat, n: nat): nat
    requires n > 0
  {
    Quotient((2 * k + 1) * GRID, 2 * n)
  }

  function Quotient(a: nat, b: nat): nat
    requires b > 0
  {
    a / b
  }

  lemma {:induction false} InClassAppend(jobs: seq<Job>, job: Job, c: nat)
    ensures InClass(jobs + [job], c) == InClass(jobs, c) + if SizeClass(job.size) == c then 1 else 0
  {
    if jobs == [] {
      assert jobs + [job] == [job];
      assert InClass([job], c) == (if SizeClass(job.size) == c then 1 else 0) + InClass([], c);
    } else {
      assert (jobs + [job])[1..] == jobs[1..] + [job];
      InClassAppend(jobs[1..], job, c);
    }
  }

  lemma InClassStep(jobs: seq<Job>, i: nat, c: nat)
    requires i < |jobs|
    ensures InClass(jobs[..i + 1], c)
      == InClass(jobs[..i], c) + if SizeClass(jobs[i].size) == c then 1 else 0
  {
    assert jobs[..i + 1] == jobs[..i] + [jobs[i]];
    InClassAppend(jobs[..i], jobs[i], c);
  }

  lemma {:induction false} InClassGrows(jobs: seq<Job>, i: nat, c: nat)
    requires i <= |jobs|
    ensures InClass(jobs[..i], c) <= InClass(jobs, c)
    decreases |jobs| - i
  {
    if i == |jobs| {
      assert jobs[..i] == jobs;
    } else {
      InClassStep(jobs, i, c);
      InClassGrows(jobs, i + 1, c);
    }
  }

  /** The `i`-th job with its key. */
  function KeyedAt(jobs: seq<Job>, i: nat): Keyed
    requires i < |jobs|
  {
    var c := SizeClass(jobs[i].size);
    InClassStep(jobs, i, c);
    InClassGrows(jobs, i + 1, c);
    Keyed(Key(InClass(jobs[..i], c), InClass(jobs, c)), jobs[i])
  }

  function KeyedJobs(jobs: seq<Job>): seq<Keyed> {
    seq(|jobs|, i requires 0 <= i < |jobs| => KeyedAt(jobs, i))
  }

  function JobsOf(ks: seq<Keyed>): seq<Job> {
    seq(|ks|, i requires 0 <= i < |ks| => ks[i].job)
  }

  // --------------------------------------------------------- stable sorting

  function Insert(x: Keyed, ys: seq<Keyed>): (r: seq<Keyed>)
    ensures |r| == |ys| + 1
  {
    if ys == [] || x.key <= ys[0].key then [x] + ys else [ys[0]] + Insert(x, ys[1..])
  }

  /** A stable sort by key: of equal keys, the earlier job stays first. */
  function Sort(xs: seq<Keyed>): (r: seq<Keyed>)
    ensures |r| == |xs|
  {
    if xs == [] then [] else Insert(xs[0], Sort(xs[1..]))
  }

  ghost predicate Sorted(xs: seq<Keyed>) {
    forall i, j :: 0 <= i < j < |xs| ==> xs[i].key <= xs[j].key
  }

  lemma {:induction false} InsertSorted(x: Keyed, ys: seq<Keyed>)
    requires Sorted(ys)
    ensures Sorted(Insert(x, ys))
  {
    if ys != [] && x.key > ys[0].key {
      InsertSorted(x, ys[1..]);
      InsertKeeps(x, ys[1..]);
      var rest := Insert(x, ys[1..]);
      forall k | 0 <= k < |rest| ensures ys[0].key <= rest[k].key {
        assert rest[k] in multiset(rest);
        assert rest[k] == x || rest[k] in ys[1..];
      }
    }
  }

  lemma {:induction false} InsertKeeps(x: Keyed, ys: seq<Keyed>)
    ensures multiset(Insert(x, ys)) == multiset{x} + multiset(ys)
  {
    if ys == [] || x.key <= ys[0].key {
      assert multiset([x] + ys) == multiset{x} + multiset(ys);
    } else {
      InsertKeeps(x, ys[1..]);
      assert ys == [ys[0]] + ys[1..];
    }
  }

  lemma {:induction false} SortSorted(xs: seq<Keyed>)
    ensures Sorted(Sort(xs)) && multiset(Sort(xs)) == multiset(xs)
  {
    if xs != [] {
      SortSorted(xs[1..]);
      InsertSorted(xs[0], Sort(xs[1..]));
      InsertKeeps(xs[0], Sort(xs[1..]));
      assert xs == [xs[0]] + xs[1..];
    }
  }

  /** The handout order. */
  function Mixed(jobs: seq<Job>): seq<Job> {
    JobsOf(Sort(KeyedJobs(jobs)))
  }

  // ------------------------------------------------------------- the methods

  method SortByKey(keyed: seq<Keyed>) returns (sorted: seq<Keyed>)
    ensures sorted == Sort(keyed)
  {
    sorted := [];
    for i := |keyed| downto 0
      invariant sorted == Sort(keyed[i..])
    {
      assert keyed[i..][1..] == keyed[i + 1..];
      sorted := Insert(keyed[i], sorted);
    }
  }

  method KeyAll(jobs: array<Job>) returns (keyed: seq<Keyed>)
    ensures keyed == KeyedJobs(jobs[..])
  {
    var counts := new nat[CLASSES](_ => 0);
    for i := 0 to jobs.Length
      invariant forall c :: 0 <= c < CLASSES ==> counts[c] == InClass(jobs[..i], c)
    {
      forall c | 0 <= c < CLASSES
        ensures InClass(jobs[..i + 1], c)
          == InClass(jobs[..i], c) + if SizeClass(jobs[i].size) == c then 1 else 0
      {
        assert jobs[..][..i] == jobs[..i] && jobs[..][..i + 1] == jobs[..i + 1];
        InClassStep(jobs[..], i, c);
      }
      var class_ := SizeClass(jobs[i].size);
      counts[class_] := counts[class_] + 1;
    }
    assert jobs[..jobs.Length] == jobs[..];
    var seen := new nat[CLASSES](_ => 0);
    keyed := [];
    for i := 0 to jobs.Length
      invariant forall c :: 0 <= c < CLASSES ==> counts[c] == InClass(jobs[..], c)
      invariant forall c :: 0 <= c < CLASSES ==> seen[c] == InClass(jobs[..][..i], c)
      invariant |keyed| == i && forall k :: 0 <= k < i ==> keyed[k] == KeyedAt(jobs[..], k)
    {
      forall c | 0 <= c < CLASSES
        ensures InClass(jobs[..][..i + 1], c)
          == InClass(jobs[..][..i], c) + if SizeClass(jobs[i].size) == c then 1 else 0
      {
        InClassStep(jobs[..], i, c);
      }
      var class_ := SizeClass(jobs[i].size);
      InClassGrows(jobs[..], i + 1, class_);
      keyed := keyed + [Keyed(Key(seen[class_], counts[class_]), jobs[i])];
      seen[class_] := seen[class_] + 1;
    }
  }

  /** Reorder the jobs in place. */
  method OrderMixed(jobs: array<Job>)
    modifies jobs
    ensures jobs[..] == Mixed(old(jobs[..]))
  {
    var keyed := KeyAll(jobs);
    keyed := SortByKey(keyed);
    for i := 0 to jobs.Length
      invariant forall k :: 0 <= k < i ==> jobs[k] == keyed[k].job
    {
      jobs[i] := keyed[i].job;
    }
    assert jobs[..] == JobsOf(keyed);
  }

  // --------------------------------------------------------------- counting

  function Count(ks: seq<Keyed>, keep: Keyed -> bool): nat {
    if ks == [] then 0 else (if keep(ks[0]) then 1 else 0) + Count(ks[1..], keep)
  }

  lemma {:induction false} CountConcat(a: seq<Keyed>, b: seq<Keyed>, keep: Keyed -> bool)
    ensures Count(a + b, keep) == Count(a, keep) + Count(b, keep)
  {
    if a == [] {
      assert a + b == b;
    } else {
      assert (a + b)[1..] == a[1..] + b;
      CountConcat(a[1..], b, keep);
    }
  }

  lemma CountLast(a: seq<Keyed>, k: Keyed, keep: Keyed -> bool)
    ensures Count(a + [k], keep) == Count(a, keep) + if keep(k) then 1 else 0
  {
    CountConcat(a, [k], keep);
    assert Count([k], keep) == (if keep(k) then 1 else 0) + Count([], keep);
  }

  lemma {:induction false} CountInsert(x: Keyed, ys: seq<Keyed>, keep: Keyed -> bool)
    ensures Count(Insert(x, ys), keep) == Count(ys, keep) + if keep(x) then 1 else 0
  {
    if ys == [] || x.key <= ys[0].key {
      assert ([x] + ys)[1..] == ys;
    } else {
      assert ([ys[0]] + Insert(x, ys[1..]))[1..] == Insert(x, ys[1..]);
      CountInsert(x, ys[1..], keep);
    }
  }

  lemma {:induction false} CountSort(xs: seq<Keyed>, keep: Keyed -> bool)
    ensures Count(Sort(xs), keep) == Count(xs, keep)
  {
    if xs != [] {
      CountSort(xs[1..], keep);
      CountInsert(xs[0], Sort(xs[1..]), keep);
    }
  }

  lemma {:induction false} CountWeaker(ks: seq<Keyed>, keep: Keyed -> bool, more: Keyed -> bool)
    requires forall k :: k in ks && keep(k) ==> more(k)
    ensures Count(ks, keep) <= Count(ks, more)
  {
    if ks != [] {
      CountWeaker(ks[1..], keep, more);
    }
  }

  lemma {:induction false} CountNone(ks: seq<Keyed>, keep: Keyed -> bool)
    requires forall k :: k in ks ==> !keep(k)
    ensures Count(ks, keep) == 0
  {
    if ks != [] {
      CountNone(ks[1..], keep);
    }
  }

  lemma {:induction false} CountIsInClass(ks: seq<Keyed>, c: nat)
    ensures Count(ks, (k: Keyed) => SizeClass(k.job.size) == c) == InClass(JobsOf(ks), c)
  {
    if ks != [] {
      assert JobsOf(ks)[1..] == JobsOf(ks[1..]);
      CountIsInClass(ks[1..], c);
    }
  }

  // ------------------------------------------------- keys below a threshold

  predicate BelowKey(k: Keyed, c: nat, limit: nat) {
    SizeClass(k.job.size) == c && k.key < limit
  }

  /** How many of the first `m` of `n` keys are below `limit`. */
  function Below(m: nat, n: nat, limit: nat): (r: nat)
    requires n > 0
    ensures r <= m
  {
    if m == 0 then 0 else Below(m - 1, n, limit) + if Key(m - 1, n) < limit then 1 else 0
  }

  lemma KeyBelow(k: nat, n: nat, limit: nat)
    requires n > 0
    ensures Key(k, n) < limit <==> (2 * k + 1) * GRID < 2 * n * limit
  {
    DivBelow((2 * k + 1) * GRID, 2 * n, limit);
  }

  lemma DivBelow(a: nat, b: nat, limit: nat)
    requires b > 0
    ensures Quotient(a, b) < limit <==> a < b * limit
  {
    var q := a / b;
    assert a == b * q + a % b;
    if q < limit {
      assert b * (q + 1) <= b * limit;
    } else {
      assert b * limit <= b * q;
    }
  }

  lemma KeysIncrease(i: nat, j: nat, n: nat)
    requires n > 0 && i <= j
    ensures Key(i, n) <= Key(j, n)
  {
    KeyBelow(i, n, Key(j, n) + 1);
    KeyBelow(j, n, Key(j, n) + 1);
  }

  /** The grid is fine enough to separate the keys of 2^32 jobs. */
  lemma KeysDistinct(k: nat, n: nat)
    requires 0 < n <= GRID
    ensures Key(k, n) < Key(k + 1, n)
  {
    var limit := Key(k + 1, n);
    KeyBelow(k, n, limit);
    KeyBelow(k + 1, n, limit + 1);
    assert 2 * n * (limit + 1) == 2 * n * limit + 2 * n;
  }

  /** Keys increase along a class, so those below a limit come first. */
  lemma {:induction false} BelowThreshold(m: nat, n: nat, limit: nat)
    requires n > 0
    ensures var t := Below(m, n, limit);
      && (t > 0 ==> Key(t - 1, n) < limit)
      && (t < m ==> Key(t, n) >= limit)
  {
    if m > 0 {
      BelowThreshold(m - 1, n, limit);
      var t := Below(m - 1, n, limit);
      if t < m - 1 {
        KeyBelow(t, n, limit);
        KeyBelow(m - 1, n, limit);
      }
    }
  }

  lemma {:induction false} BelowMonotone(m: nat, n: nat, limit: nat, higher: nat)
    requires n > 0 && limit <= higher
    ensures Below(m, n, limit) <= Below(m, n, higher)
  {
    if m > 0 {
      BelowMonotone(m - 1, n, limit, higher);
    }
  }

  lemma {:induction false} BelowAtMost(m: nat, n: nat, limit: nat, k: nat)
    requires n > 0 && Key(k, n) >= limit
    ensures Below(m, n, limit) <= k
  {
    if m > k {
      BelowAtMost(m - 1, n, limit, k);
      KeysIncrease(k, m - 1, n);
    }
  }

  /** The keys of a class of at most 2^32 jobs are distinct, so raising the limit
      by one admits at most one more. */
  lemma OneMore(n: nat, limit: nat)
    requires 0 < n <= GRID
    ensures Below(n, n, limit) <= Below(n, n, limit + 1) <= Below(n, n, limit) + 1
  {
    BelowMonotone(n, n, limit, limit + 1);
    BelowThreshold(n, n, limit);
    var t := Below(n, n, limit);
    if t < n {
      KeysDistinct(t, n);
      BelowAtMost(n, n, limit + 1, t + 1);
    }
  }

  /** The number of keys below `limit` is within a half of n·limit/2^32. */
  lemma BelowIsProportional(n: nat, limit: nat)
    requires 0 < n && limit <= GRID
    ensures var t := Below(n, n, limit);
      (2 * t - 1) * GRID <= 2 * n * limit <= (2 * t + 1) * GRID
  {
    BelowThreshold(n, n, limit);
    var t := Below(n, n, limit);
    Scale(2 * n, 0, limit);
    Scale(2 * n, limit, GRID);
    if t > 0 {
      KeyBelow(t - 1, n, limit);
    }
    if t < n {
      KeyBelow(t, n, limit);
    }
  }

  lemma {:induction false} CountKeyed(jobs: seq<Job>, i: nat, c: nat, limit: nat)
    requires i <= |jobs| && InClass(jobs, c) > 0
    ensures Count(KeyedJobs(jobs)[..i], (k: Keyed) => BelowKey(k, c, limit))
      == Below(InClass(jobs[..i], c), InClass(jobs, c), limit)
  {
    var keep := (k: Keyed) => BelowKey(k, c, limit);
    var ks := KeyedJobs(jobs);
    if i > 0 {
      CountKeyed(jobs, i - 1, c, limit);
      assert ks[..i] == ks[..i - 1] + [ks[i - 1]];
      CountLast(ks[..i - 1], ks[i - 1], keep);
      InClassStep(jobs, i - 1, c);
    }
  }

  // ------------------------------------------------------------ even spread

  lemma {:induction false} ClassesPartition(jobs: seq<Job>)
    ensures InClass(jobs, 0) + InClass(jobs, 1) + InClass(jobs, 2) == |jobs|
  {
    if jobs != [] {
      ClassesPartition(jobs[1..]);
    }
  }

  lemma KeyedInGrid(jobs: seq<Job>, i: nat)
    requires i < |jobs|
    ensures KeyedJobs(jobs)[i].key < GRID
  {
    var c := SizeClass(jobs[i].size);
    var k, n := InClass(jobs[..i], c), InClass(jobs, c);
    InClassStep(jobs, i, c);
    InClassGrows(jobs, i + 1, c);
    assert k + 1 <= n;
    KeyBelow(k, n, GRID);
    assert (2 * k + 1) * GRID < 2 * n * GRID;
  }

  lemma SortedInGrid(jobs: seq<Job>, i: nat)
    requires i < |jobs|
    ensures Sort(KeyedJobs(jobs))[i].key < GRID
  {
    var keyed := KeyedJobs(jobs);
    SortSorted(keyed);
    var x := Sort(keyed)[i];
    assert x in multiset(Sort(keyed));
    assert x in keyed;
    var j :| 0 <= j < |keyed| && keyed[j] == x;
    KeyedInGrid(jobs, j);
  }

  lemma CountAllKeyed(jobs: seq<Job>, c: nat, limit: nat)
    requires InClass(jobs, c) > 0
    ensures Count(Sort(KeyedJobs(jobs)), (k: Keyed) => BelowKey(k, c, limit))
      == Below(InClass(jobs, c), InClass(jobs, c), limit)
  {
    CountSort(KeyedJobs(jobs), (k: Keyed) => BelowKey(k, c, limit));
    CountKeyed(jobs, |jobs|, c, limit);
    assert KeyedJobs(jobs)[..|jobs|] == KeyedJobs(jobs) && jobs[..|jobs|] == jobs;
  }

  /** In a sorted sequence a prefix holds every key below its last one, and none
      above it. */
  lemma SortedPrefix(ks: seq<Keyed>, p: nat, c: nat)
    requires Sorted(ks) && 0 < p <= |ks|
    ensures var last := ks[p - 1].key;
      && Count(ks, (k: Keyed) => BelowKey(k, c, last)) <= InClass(JobsOf(ks[..p]), c)
      && InClass(JobsOf(ks[..p]), c) <= Count(ks, (k: Keyed) => BelowKey(k, c, last + 1))
  {
    var last := ks[p - 1].key;
    var inClass := (k: Keyed) => SizeClass(k.job.size) == c;
    var below := (k: Keyed) => BelowKey(k, c, last);
    var upTo := (k: Keyed) => BelowKey(k, c, last + 1);
    CountIsInClass(ks[..p], c);
    assert ks == ks[..p] + ks[p..];
    CountConcat(ks[..p], ks[p..], below);
    CountConcat(ks[..p], ks[p..], upTo);
    CountNone(ks[p..], below);
    CountWeaker(ks[..p], below, inClass);
    CountWeaker(ks[..p], inClass, upTo);
  }

  lemma PrefixBounds(jobs: seq<Job>, p: nat, c: nat)
    requires 0 < p <= |jobs| && InClass(jobs, c) > 0
    ensures var n := InClass(jobs, c);
      var last := Sort(KeyedJobs(jobs))[p - 1].key;
      Below(n, n, last) <= InClass(Mixed(jobs)[..p], c) <= Below(n, n, last + 1)
  {
    var ks := Sort(KeyedJobs(jobs));
    SortSorted(KeyedJobs(jobs));
    var last := ks[p - 1].key;
    SortedPrefix(ks, p, c);
    assert JobsOf(ks)[..p] == JobsOf(ks[..p]);
    CountAllKeyed(jobs, c, last);
    CountAllKeyed(jobs, c, last + 1);
  }

  /** A class's count in the prefix is at most 1/2 below and 3/2 above the share of
      the class its last key stands for (scaled by twice the grid). */
  lemma ClassError(jobs: seq<Job>, p: nat, c: nat)
    requires 0 < p <= |jobs| && InClass(jobs, c) <= GRID
    ensures var last := Sort(KeyedJobs(jobs))[p - 1].key;
      Near(GRID, InClass(Mixed(jobs)[..p], c), InClass(jobs, c), last)
  {
    var n := InClass(jobs, c);
    var last := Sort(KeyedJobs(jobs))[p - 1].key;
    if n == 0 {
      NoneInMixed(jobs, p, c);
    } else {
      PrefixBounds(jobs, p, c);
      OneMore(n, last);
      SortedInGrid(jobs, p - 1);
      BelowIsProportional(n, last);
    }
  }

  lemma NoneInMixed(jobs: seq<Job>, p: nat, c: nat)
    requires p <= |jobs| && InClass(jobs, c) == 0
    ensures InClass(Mixed(jobs)[..p], c) == 0
  {
    var keyed := KeyedJobs(jobs);
    var ks := Sort(keyed);
    CountIsInClass(keyed, c);
    assert JobsOf(keyed) == jobs;
    CountSort(keyed, (k: Keyed) => SizeClass(k.job.size) == c);
    CountIsInClass(ks, c);
    InClassGrows(Mixed(jobs), p, c);
  }

  ghost predicate Near(w: int, m: int, n: int, last: int) {
    0 - w <= 2 * w * m - 2 * n * last <= 3 * w
  }

  /** Errors of at most -1/2 and 3/2 per class combine to a bounded deviation from
      the proportional share. */
  lemma Deviation(w: int, last: int, total: nat, p: int,
                  m: int, n: nat, m1: int, n1: nat, m2: int, n2: nat)
    requires w > 0 && total == n + n1 + n2 && p == m + m1 + m2
    requires Near(w, m, n, last) && Near(w, m1, n1, last) && Near(w, m2, n2, last)
    ensures -3 * total <= m * total - p * n && 2 * (m * total - p * n) <= 3 * total
  {
    NearSum(w, m1, n1, m2, n2, last);
    DeviationOfTwo(w, last, total, p, m, n, m1 + m2, n1 + n2);
  }

  lemma NearSum(w: int, m1: int, n1: int, m2: int, n2: int, last: int)
    requires Near(w, m1, n1, last) && Near(w, m2, n2, last)
    ensures -2 * w <= 2 * w * (m1 + m2) - 2 * (n1 + n2) * last <= 6 * w
  {
    assert 2 * w * (m1 + m2) == 2 * w * m1 + 2 * w * m2;
    assert 2 * (n1 + n2) * last == 2 * n1 * last + 2 * n2 * last;
  }

  /** One class against the two others together. */
  lemma DeviationOfTwo(w: int, last: int, total: nat, p: int, m: int, n: nat, m': int, n': nat)
    requires w > 0 && total == n + n' && p == m + m'
    requires Near(w, m, n, last) && -2 * w <= 2 * w * m' - 2 * n' * last <= 6 * w
    ensures -3 * total <= m * total - p * n && 2 * (m * total - p * n) <= 3 * total
  {
    var d := m * total - p * n;
    DeviationSplit(w, last, m, n, m', n');
    DeviationBound(w, n, n', 2 * w * m - 2 * n * last, 2 * w * m' - 2 * n' * last);
    Cancel(w, 2 * d, 3 * total);
    Cancel(w, -6 * total, 2 * d);
  }

  lemma DeviationSplit(w: int, last: int, m: int, n: int, m': int, n': int)
    ensures w * (2 * (m * (n + n') - (m + m') * n))
      == n' * (2 * w * m - 2 * n * last) - n * (2 * w * m' - 2 * n' * last)
  {
  }

  lemma DeviationBound(w: int, n: nat, n': nat, a: int, b: int)
    requires w > 0 && 0 - w <= a <= 3 * w && -2 * w <= b <= 6 * w
    ensures w * (-6 * (n + n')) <= n' * a - n * b <= w * (3 * (n + n'))
  {
    Scale(n', 0 - w, a);
    Scale(n', a, 3 * w);
    Scale(n, -2 * w, b);
    Scale(n, b, 6 * w);
    Scale(n, 0, w);
    Scale(n', 0, w);
    assert w * (-6 * (n + n')) == -6 * (n * w) - 6 * (n' * w);
    assert w * (3 * (n + n')) == 3 * (n * w) + 3 * (n' * w);
  }

  lemma Scale(k: nat, x: int, y: int)
    requires x <= y
    ensures k * x <= k * y
  {
  }

  lemma Cancel(w: int, x: int, y: int)
    requires w > 0 && w * x <= w * y
    ensures x <= y
  {
    assert w * (y + 1) == w * y + w;
    if x >= y + 1 {
      Scale(w, y + 1, x);
    }
  }

  /** In every prefix of the handout each size class appears at most 3 below and
      1.5 above its proportional share. */
  lemma EvenlySpread(jobs: seq<Job>, p: nat, c: nat)
    requires p <= |jobs| && c < CLASSES
    requires forall d :: 0 <= d < CLASSES ==> InClass(jobs, d) <= GRID
    ensures |Mixed(jobs)| == |jobs|
    ensures var off := InClass(Mixed(jobs)[..p], c) * |jobs| - p * InClass(jobs, c);
      -3 * |jobs| <= off && 2 * off <= 3 * |jobs|
  {
    if p > 0 {
      ClassesPartition(jobs);
      ClassesPartition(Mixed(jobs)[..p]);
      ClassError(jobs, p, 0);
      ClassError(jobs, p, 1);
      ClassError(jobs, p, 2);
      var last := Sort(KeyedJobs(jobs))[p - 1].key;
      var m, n := c => InClass(Mixed(jobs)[..p], c), c => InClass(jobs, c);
      var d, e := if c == 0 then 1 else 0, if c == 2 then 1 else 2;
      Deviation(GRID, last, |jobs|, p, m(c), n(c), m(d), n(d), m(e), n(e));
    }
  }

  // ---------------------------------------------------------------- stability

  function Filter(ks: seq<Keyed>, keep: Keyed -> bool): seq<Keyed> {
    if ks == [] then [] else (if keep(ks[0]) then [ks[0]] else []) + Filter(ks[1..], keep)
  }

  /** The entries kept by `keep` are already in key order. */
  ghost predicate InOrder(ks: seq<Keyed>, keep: Keyed -> bool) {
    forall i, j :: 0 <= i < j < |ks| && keep(ks[i]) && keep(ks[j]) ==> ks[i].key <= ks[j].key
  }

  lemma FilterCons(y: Keyed, rest: seq<Keyed>, keep: Keyed -> bool)
    ensures Filter([y] + rest, keep) == (if keep(y) then [y] else []) + Filter(rest, keep)
  {
    assert ([y] + rest)[1..] == rest;
  }

  lemma {:induction false} FilterInsert(x: Keyed, ys: seq<Keyed>, keep: Keyed -> bool)
    requires keep(x) ==> forall y :: y in ys && keep(y) ==> x.key <= y.key
    ensures Filter(Insert(x, ys), keep) == (if keep(x) then [x] else []) + Filter(ys, keep)
  {
    if ys == [] || x.key <= ys[0].key {
      assert ([x] + ys)[1..] == ys;
    } else {
      assert keep(x) ==> !keep(ys[0]);
      FilterInsert(x, ys[1..], keep);
      FilterCons(ys[0], Insert(x, ys[1..]), keep);
    }
  }

  /** The sort moves no two entries past each other unless their keys demand it. */
  lemma {:induction false} SortIsStable(xs: seq<Keyed>, keep: Keyed -> bool)
    requires InOrder(xs, keep)
    ensures Filter(Sort(xs), keep) == Filter(xs, keep)
  {
    if xs != [] {
      SortIsStable(xs[1..], keep);
      SortSorted(xs[1..]);
      forall y | y in Sort(xs[1..]) && keep(y) ensures keep(xs[0]) ==> xs[0].key <= y.key {
        assert y in multiset(xs[1..]);
        var i :| 0 <= i < |xs[1..]| && xs[1..][i] == y;
        assert xs[i + 1] == y;
      }
      FilterInsert(xs[0], Sort(xs[1..]), keep);
    }
  }

  function OfClass(jobs: seq<Job>, c: nat): seq<Job> {
    if jobs == [] then [] else (if SizeClass(jobs[0].size) == c then [jobs[0]] else []) + OfClass(jobs[1..], c)
  }

  lemma {:induction false} OfClassIsFilter(ks: seq<Keyed>, c: nat)
    ensures OfClass(JobsOf(ks), c) == JobsOf(Filter(ks, (k: Keyed) => SizeClass(k.job.size) == c))
  {
    if ks != [] {
      assert JobsOf(ks)[1..] == JobsOf(ks[1..]);
      OfClassIsFilter(ks[1..], c);
    }
  }

  lemma {:induction false} ClassCountGrows(jobs: seq<Job>, i: nat, j: nat, c: nat)
    requires i <= j <= |jobs|
    ensures InClass(jobs[..i], c) <= InClass(jobs[..j], c)
  {
    InClassGrows(jobs[..j], i, c);
    assert jobs[..j][..i] == jobs[..i];
  }

  /** Within a size class the handout keeps the original order. */
  lemma MixedKeepsClassOrder(jobs: seq<Job>, c: nat)
    ensures OfClass(Mixed(jobs), c) == OfClass(jobs, c)
  {
    var keyed := KeyedJobs(jobs);
    var keep := (k: Keyed) => SizeClass(k.job.size) == c;
    forall i, j | 0 <= i < j < |keyed| && keep(keyed[i]) && keep(keyed[j])
      ensures keyed[i].key <= keyed[j].key
    {
      ClassCountGrows(jobs, i, j, c);
      InClassStep(jobs, i, c);
      InClassGrows(jobs, i + 1, c);
      KeysIncrease(InClass(jobs[..i], c), InClass(jobs[..j], c), InClass(jobs, c));
    }
    SortIsStable(keyed, keep);
    OfClassIsFilter(Sort(keyed), c);
    OfClassIsFilter(keyed, c);
    assert JobsOf(keyed) == jobs;
  }

  // -------------------------------------------------------------- permutation

  lemma RemoveAt(b: seq<Keyed>, i: nat)
    requires i < |b|
    ensures multiset(b) == multiset(b[..i] + b[i + 1..]) + multiset{b[i]}
    ensures multiset(JobsOf(b)) == multiset(JobsOf(b[..i] + b[i + 1..])) + multiset{b[i].job}
  {
    assert b == b[..i] + [b[i]] + b[i + 1..];
    var rest := b[..i] + b[i + 1..];
    assert JobsOf(b) == JobsOf(b[..i]) + [b[i].job] + JobsOf(b[i + 1..]);
    assert JobsOf(rest) == JobsOf(b[..i]) + JobsOf(b[i + 1..]);
  }

  lemma {:induction false} JobsOfMultiset(a: seq<Keyed>, b: seq<Keyed>)
    requires multiset(a) == multiset(b)
    ensures multiset(JobsOf(a)) == multiset(JobsOf(b))
  {
    if a == [] {
      assert |b| == |multiset(b)| == 0;
    } else {
      assert a[0] in multiset(b);
      var i :| 0 <= i < |b| && b[i] == a[0];
      var rest := b[..i] + b[i + 1..];
      RemoveAt(a, 0);
      RemoveAt(b, i);
      assert a[..0] + a[1..] == a[1..];
      assert multiset(a[1..]) == multiset(a) - multiset{a[0]};
      assert multiset(rest) == multiset(b) - multiset{b[i]};
      JobsOfMultiset(a[1..], rest);
    }
  }

  /** The handout is a permutation of the jobs, none lost and none repeated. */
  lemma MixedIsPermutation(jobs: seq<Job>)
    ensures multiset(Mixed(jobs)) == multiset(jobs)
  {
    SortSorted(KeyedJobs(jobs));
    JobsOfMultiset(Sort(KeyedJobs(jobs)), KeyedJobs(jobs));
    assert JobsOf(KeyedJobs(jobs)) == jobs;
  }
}
