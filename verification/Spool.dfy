/** One payload streamed to a spool file: the reservation that grows with it and
    the loop that writes it. Interleavings are the subject of `SpoolProtocol`. */
module Spool {
  import opened Prelude
  import SpoolProtocol
  import InputDownload

  class SpoolState {
    const budget: nat
    const headroom: nat
    var used: nat

    constructor (budget: nat, headroom: nat)
      ensures this.budget == budget && this.headroom == headroom && used == 0
    {
      this.budget := budget;
      this.headroom := headroom;
      used := 0;
    }

    method TryReserve(size: nat, free: Option<nat>) returns (ok: bool)
      modifies this
      ensures ok <==> SpoolProtocol.DiskAllows(free, size, headroom)
                      && SpoolProtocol.Admits(old(used), size, budget)
      ensures used == if ok then SatAdd(old(used), size) else old(used)
      ensures budget < U64_MAX && size <= U64_MAX && size + headroom <= U64_MAX ==>
        (ok <==>
          (free.Some? ==> free.value >= size + headroom)
          && (old(used) == 0 || old(used) + size <= budget))
    {
      if !SpoolProtocol.DiskAllows(free, size, headroom) {
        return false;
      }
      ok := SpoolProtocol.Admits(used, size, budget);
      if ok {
        used := SatAdd(used, size);
      }
    }
  }

  class SpoolReservation {
    const spool: SpoolState
    var size: nat

    /** Only handed out once the spool has counted `size`. */
    constructor (spool: SpoolState, size: nat)
      ensures this.spool == spool && this.size == size
    {
      this.spool := spool;
      this.size := size;
    }

    /** What every other payload is charged for. */
    ghost function Others(): nat
      reads this, spool
      requires size <= spool.used
    {
      spool.used - size
    }

    /** `bytes` beside the others would not saturate the counter. */
    ghost predicate Exact(bytes: nat)
      reads this, spool
      requires size <= spool.used
    {
      spool.budget < U64_MAX || Others() + bytes <= U64_MAX
    }

    ghost predicate Valid()
      reads this, spool
    {
      0 < size <= spool.used && Exact(SpoolProtocol.MAX_JOB_BYTES)
    }

    /** Extend the reservation to `written` bytes, or change nothing at all. The
        first probe is read for the generous step, the second for the exact
        amount. With room on disk, the answer is yes exactly when the budget can
        hold what was written. */
    method Cover(written: nat, stepFree: Option<nat>, exactFree: Option<nat>) returns (ok: bool)
      requires Valid() && written <= U64_MAX && Exact(written)
      modifies this, spool
      ensures Valid() && Others() == old(Others())
      ensures !ok ==> size == old(size)
      ensures ok ==> written <= size && old(size) <= size
      ensures ok && old(size) < size ==> spool.used <= spool.budget && old(size) < written
      ensures written <= old(size) ==> ok && size == old(size)
      ensures ok && old(size) < written ==> old(Others()) + written <= spool.budget
      ensures ok && old(size) < written <= SpoolProtocol.MAX_JOB_BYTES ==>
        var ahead := if written <= 17112760320 then written + 67108864 else 17179869184;
        size == written || size == ahead
      ensures old(size) < written <= SpoolProtocol.MAX_JOB_BYTES && stepFree.None? ==>
        var ahead := if written <= 17112760320 then written + 67108864 else 17179869184;
        old(Others()) + ahead <= spool.budget ==> ok && size == ahead
      ensures stepFree.None? && exactFree.None? && old(Others()) + written <= spool.budget ==> ok
    {
      if written <= size {
        return true;
      }
      var stepped := SpoolProtocol.Stepped(written);
      var target;
      ok := spool.TryReserve(stepped - size, stepFree);
      if ok {
        target := stepped;
      } else {
        ok := spool.TryReserve(written - size, exactFree);
        if !ok {
          return false;
        }
        target := written;
      }
      size := target;
    }

    /** The payload was dropped: its file is already gone. */
    method Release()
      requires Valid()
      modifies this, spool
      ensures size == 0 && spool.used == old(Others())
    {
      spool.used := FetchSub(spool.used, size);
      size := 0;
    }
  }

  /** Stream `chunks` into a spool file, covering each chunk before it is
      written. `probes` are the free-space readings, two per chunk.

      The file never outgrows its reservation, and the other payloads' share of
      the counter never moves. The download can only succeed when the body is
      within the per-job cap and fits either the original reservation or the
      budget beside the others; without disk pressure it then does. */
  method DownloadToSpool(reservation: SpoolReservation, chunks: seq<seq<InputDownload.Byte>>,
                         probes: seq<Option<nat>>)
    returns (ok: bool, file: seq<InputDownload.Byte>)
    requires reservation.Valid() && |probes| == 2 * |chunks|
    modifies reservation, reservation.spool
    ensures reservation.Valid() && reservation.Others() == old(reservation.Others())
    ensures |file| <= reservation.size && old(reservation.size) <= reservation.size
    ensures file <= InputDownload.Body(chunks)
    ensures ok ==> file == InputDownload.Body(chunks)
    ensures var body := |InputDownload.Body(chunks)|;
      var fits := body <= SpoolProtocol.MAX_JOB_BYTES
        && (body <= old(reservation.size)
            || old(reservation.Others()) + body <= reservation.spool.budget);
      && (ok ==> fits)
      && (fits && (forall i :: 0 <= i < |probes| ==> probes[i].None?) ==> ok)
  {
    file := [];
    for i := 0 to |chunks|
      invariant reservation.Valid() && reservation.Others() == old(reservation.Others())
      invariant old(reservation.size) <= reservation.size
      invariant file == InputDownload.Body(chunks[..i])
      invariant |file| <= reservation.size && |file| <= SpoolProtocol.MAX_JOB_BYTES
      invariant reservation.size > old(reservation.size) ==>
        reservation.spool.used <= reservation.spool.budget
      invariant |file| > old(reservation.size) ==> reservation.size > old(reservation.size)
      invariant file <= InputDownload.Body(chunks)
    {
      InputDownload.BodyAppend(chunks, i);
      InputDownload.BodyPrefix(chunks, i + 1);
      BodyIsPrefix(chunks, i + 1);
      var written := |file| + |chunks[i]|;
      if written > SpoolProtocol.MAX_JOB_BYTES {
        return false, file;
      }
      var covered := reservation.Cover(written, probes[2 * i], probes[2 * i + 1]);
      if !covered {
        return false, file;
      }
      file := file + chunks[i];
    }
    assert chunks[..|chunks|] == chunks;
    ok := true;
  }

  lemma {:induction false} BodyIsPrefix(chunks: seq<seq<InputDownload.Byte>>, i: nat)
    requires i <= |chunks|
    ensures InputDownload.Body(chunks[..i]) <= InputDownload.Body(chunks)
    decreases |chunks| - i
  {
    if i == |chunks| {
      assert chunks[..i] == chunks;
    } else {
      InputDownload.BodyAppend(chunks, i);
      BodyIsPrefix(chunks, i + 1);
    }
  }
}
