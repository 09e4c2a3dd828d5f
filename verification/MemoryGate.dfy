/** The memory admission gate as the object a single caller sees: the
    compare-and-swap loop of `try_reserve` with whatever its contenders do to the
    counter in between, and the in-flight list. */
module MemoryGate {
  import opened Prelude
  import opened MemoryGateProtocol

  const MIB: nat := 1024 * 1024
  const FLAT_ESTIMATE: nat := 256 * MIB
  const MAX_ARCHIVE_ESTIMATE: nat := 4 * 1024 * MIB

  /** Reserved footprint of a job of `bytes` on disk, negative when unknown. */
  function DynamicEstimate(archive: bool, bytes: int, multiplier: nat): (est: nat)
    ensures FLAT_ESTIMATE <= est <= MAX_ARCHIVE_ESTIMATE
    ensures !archive || bytes <= 0 ==> est == 268435456
    ensures archive && bytes > 0 ==>
      est == if bytes * multiplier <= 4026531840 then 268435456 + bytes * multiplier else 4294967296
  {
    if archive then
      var size := if bytes < 0 then 0 else bytes;
      assert size * multiplier >= 0;
      Min(SatAdd(Min(size * multiplier, U64_MAX), FLAT_ESTIMATE), MAX_ARCHIVE_ESTIMATE)
    else FLAT_ESTIMATE
  }

  /** A larger archive, or a larger multiplier, is never estimated at less. */
  lemma EstimateGrows(bytes: int, larger: int, multiplier: nat, more: nat)
    requires bytes <= larger && multiplier <= more
    ensures DynamicEstimate(true, bytes, multiplier) <= DynamicEstimate(true, larger, more)
  {
    if bytes > 0 {
      ProductGrows(bytes, larger, multiplier, more);
    }
  }

  lemma ProductGrows(a: nat, b: nat, c: nat, d: nat)
    requires a <= b && c <= d
    ensures a * c <= b * d
  {
    assert a * c <= a * d;
    assert a * d <= b * d;
  }

  /** What happens between a task's look at the counter and its swap: other tasks
      may leave the counter at a new value, and the swap may fail for no reason. */
  datatype Contention = Contention(counter: Option<nat>, spurious: bool)

  /** The value of the counter once the first `k` contentions have happened. */
  function CounterAfter(start: nat, contention: seq<Contention>, k: nat): nat
    requires k <= |contention|
  {
    if k == 0 then start
    else if contention[k - 1].counter.Some? then contention[k - 1].counter.value
    else CounterAfter(start, contention, k - 1)
  }

  class MemoryAdmission {
    const ceiling: nat
    const floor: nat
    var reserved: nat
    var nextId: nat
    var inflight: seq<Entry>

    constructor (ceiling: nat, floor: nat)
      ensures this.ceiling == ceiling && this.floor == floor
      ensures reserved == 0 && nextId == 0 && inflight == []
    {
      this.ceiling := ceiling;
      this.floor := floor;
      reserved := 0;
      nextId := 0;
      inflight := [];
    }

    /** Reserve `est` bytes if memory allows. `failed` swaps were lost before the
        outcome, which is decided by the counter as it stood at the last look:
        earlier looks all passed the checks, a refusal leaves the counter as the
        others left it, and an admission adds to exactly the value checked. A
        ceiling of zero turns the gate off: everything is counted and admitted. */
    method TryReserve(est: nat, rss: Option<nat>, available: Option<nat>,
                      contention: seq<Contention>)
      returns (refusal: Option<Refusal>, failed: nat)
      modifies this`reserved
      ensures failed <= |contention|
      ensures ceiling == 0 ==> refusal.None? && reserved == (old(reserved) + est) % (U64_MAX + 1)
      ensures ceiling != 0 ==> forall k :: 0 <= k < failed ==>
        Check(ceiling, floor, CounterAfter(old(reserved), contention, k), est, rss, available) == None
      ensures ceiling != 0 ==>
        refusal == Check(ceiling, floor, CounterAfter(old(reserved), contention, failed), est, rss, available)
      ensures ceiling != 0 && ceiling < U64_MAX ==>
        var seen := CounterAfter(old(reserved), contention, failed);
        var reservable := seen + est <= ceiling;
        var resident := rss.Some? ==> rss.value + est <= ceiling;
        var host := floor != 0 && available.Some? ==> available.value >= est + floor;
        && (refusal == None <==> seen == 0 || (reservable && resident && host))
        && (refusal == Some(ByReservations) <==> seen != 0 && !reservable)
        && (refusal == Some(ByRss) <==> seen != 0 && reservable && !resident)
        && (refusal == Some(ByHost) <==> seen != 0 && reservable && resident && !host)
      ensures refusal.Some? ==> reserved == CounterAfter(old(reserved), contention, failed)
      ensures ceiling != 0 && refusal.None? ==>
        reserved == SatAdd(CounterAfter(old(reserved), contention, failed), est)
    {
      failed := 0;
      if ceiling == 0 {
        reserved := (reserved + est) % (U64_MAX + 1);
        return None, failed;
      }
      var seen := reserved;
      while true
        invariant failed <= |contention|
        invariant reserved == seen == CounterAfter(old(reserved), contention, failed)
        invariant forall k :: 0 <= k < failed ==>
          Check(ceiling, floor, CounterAfter(old(reserved), contention, k), est, rss, available) == None
        decreases |contention| - failed
      {
        if seen != 0 {
          if SatAdd(seen, est) > ceiling {
            return Some(ByReservations), failed;
          }
          if rss.Some? && SatAdd(rss.value, est) > ceiling {
            return Some(ByRss), failed;
          }
          if floor != 0 && available.Some? && SatSub(available.value, est) < floor {
            return Some(ByHost), failed;
          }
        }
        var spurious := false;
        if failed < |contention| {
          spurious := contention[failed].spurious;
          if contention[failed].counter.Some? {
            reserved := contention[failed].counter.value;
          }
        }
        if reserved == seen && !spurious {
          reserved := SatAdd(seen, est);
          return None, failed;
        }
        seen := reserved;
        failed := failed + 1;
      }
    }

    /** List an admitted job under a fresh id. */
    method Register(est: nat) returns (id: nat)
      modifies this`nextId, this`inflight
      ensures id == old(nextId) && nextId == old(nextId) + 1
      ensures inflight == old(inflight) + [Entry(id, est)]
    {
      id := nextId;
      nextId := nextId + 1;
      inflight := inflight + [Entry(id, est)];
    }

    /** The guard was dropped. */
    method Release(id: nat, est: nat)
      modifies this`reserved, this`inflight
      ensures reserved == SatSub(old(reserved), est)
      ensures inflight == Without(old(inflight), id)
    {
      reserved := SatSub(reserved, est);
      var kept: seq<Entry> := [];
      for i := 0 to |inflight|
        invariant inflight == old(inflight)
        invariant kept + Without(inflight[i..], id) == Without(inflight, id)
      {
        if inflight[i].id != id {
          kept := kept + [inflight[i]];
        }
      }
      inflight := kept;
    }
  }

  /** Without contention, reserving, registering and releasing one job leaves the
      gate as it was, provided the reservation fits its 64 bits. */
  method AdmitThenDrop(gate: MemoryAdmission, est: nat, rss: Option<nat>, available: Option<nat>)
    returns (admitted: bool)
    requires gate.ceiling < U64_MAX && est <= U64_MAX
    requires gate.ceiling == 0 ==> gate.reserved + est <= U64_MAX
    requires forall entry :: entry in gate.inflight ==> entry.id < gate.nextId
    modifies gate
    ensures gate.reserved == old(gate.reserved) && gate.inflight == old(gate.inflight)
    ensures admitted <==>
      gate.ceiling == 0
      || Check(gate.ceiling, gate.floor, old(gate.reserved), est, rss, available) == None
  {
    var refusal, failed := gate.TryReserve(est, rss, available, []);
    admitted := refusal.None?;
    if admitted {
      var id := gate.Register(est);
      gate.Release(id, est);
      WithoutLast(old(gate.inflight), id, est);
    }
  }

  lemma {:induction false} WithoutLast(entries: seq<Entry>, id: nat, est: nat)
    requires forall entry :: entry in entries ==> entry.id != id
    ensures Without(entries + [Entry(id, est)], id) == entries
  {
    if entries == [] {
      assert entries + [Entry(id, est)] == [Entry(id, est)];
      assert Without([Entry(id, est)], id) == Without([], id);
    } else {
      assert (entries + [Entry(id, est)])[1..] == entries[1..] + [Entry(id, est)];
      WithoutLast(entries[1..], id, est);
    }
  }
}
