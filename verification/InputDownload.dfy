/** One in-memory download against the shared input budget: the reservation
    object, and the loop that streams a body into a buffer that must never
    outgrow it. The interleaving of many such downloads is the subject of
    `InputBudgetProtocol`. */
module InputDownload {
  import opened Prelude
  import InputBudgetProtocol

  type Byte = bv8

  class InputBudget {
    const limit: nat
    var used: nat

    constructor (limit: nat)
      ensures this.limit == limit && used == 0
    {
      this.limit := limit;
      used := 0;
    }

    /** One pass of the check in `reserve`: the loop around it only decides when
        to try again. */
    method TryReserve(bytes: nat) returns (r: Option<InputReservation>)
      modifies this
      ensures r.Some? <==> old(used) + bytes <= limit
      ensures r.Some? ==> fresh(r.value) && r.value.budget == this && r.value.bytes == bytes
      ensures used == old(used) + if r.Some? then bytes else 0
    {
      if used + bytes <= limit {
        used := used + bytes;
        var reservation := new InputReservation(this, bytes);
        r := Some(reservation);
      } else {
        r := None;
      }
    }
  }

  class InputReservation {
    const budget: InputBudget
    var bytes: nat

    constructor (budget: InputBudget, bytes: nat)
      ensures this.budget == budget && this.bytes == bytes
    {
      this.budget := budget;
      this.bytes := bytes;
    }

    /** Keep at most `keep` bytes and return the rest; a larger `keep` is no
        extension. Dropping the reservation keeps none. */
    method Shrink(keep: nat)
      requires bytes <= budget.used
      modifies this, budget
      ensures bytes == Min(old(bytes), keep)
      ensures budget.used == old(budget.used) - (old(bytes) - bytes)
    {
      var released := SatSub(bytes, keep);
      bytes := bytes - released;
      budget.used := FetchSub(budget.used, released);
    }
  }

  /** The body as the server sent it. */
  function Body(chunks: seq<seq<Byte>>): seq<Byte> {
    if chunks == [] then [] else chunks[0] + Body(chunks[1..])
  }

  lemma {:induction false} BodyAppend(chunks: seq<seq<Byte>>, i: nat)
    requires i < |chunks|
    ensures Body(chunks[..i + 1]) == Body(chunks[..i]) + chunks[i]
  {
    if i == 0 {
      assert chunks[..1] == [chunks[0]];
      assert Body([chunks[0]]) == chunks[0] + Body([]);
    } else {
      assert chunks[..i + 1][1..] == chunks[1..][..i];
      assert chunks[..i][1..] == chunks[1..][..i - 1];
      BodyAppend(chunks[1..], i - 1);
    }
  }

  lemma {:induction false} BodyPrefix(chunks: seq<seq<Byte>>, i: nat)
    requires i <= |chunks|
    ensures |Body(chunks[..i])| <= |Body(chunks)|
    decreases |chunks| - i
  {
    if i == |chunks| {
      assert chunks[..i] == chunks;
    } else {
      BodyAppend(chunks, i);
      BodyPrefix(chunks, i + 1);
    }
  }

  /** Stream a body into memory under `reservation`.

      The payload is returned exactly when the announced length and the body
      itself fit the reservation. `peak` is the largest capacity the buffer ever
      had: it stays within what was reserved, and within twice the body unless
      the server announced more. On success the reservation keeps precisely the
      payload's size; on refusal the caller still owns all of it. */
  method ReceiveBody(reservation: InputReservation, length: Option<nat>, chunks: seq<seq<Byte>>)
    returns (r: Option<seq<Byte>>, peak: nat)
    requires reservation.bytes <= reservation.budget.used
    modifies reservation, reservation.budget
    ensures peak <= old(reservation.bytes)
    ensures peak <= Max(if length.Some? then length.value else 0, 2 * |Body(chunks)|)
    ensures r.Some? <==>
      (length.Some? ==> length.value <= old(reservation.bytes))
      && |Body(chunks)| <= old(reservation.bytes)
    ensures r.Some? ==> r.value == Body(chunks) && reservation.bytes == |r.value|
    ensures r.None? ==> reservation.bytes == old(reservation.bytes)
    ensures reservation.budget.used
      == old(reservation.budget.used) - (old(reservation.bytes) - reservation.bytes)
  {
    var bodyLimit := reservation.bytes;
    if length.Some? && length.value > bodyLimit {
      return None, 0;
    }
    var capacity := if length.Some? then length.value else 0;
    peak := capacity;
    var buf: seq<Byte> := [];
    for i := 0 to |chunks|
      invariant buf == Body(chunks[..i])
      invariant |buf| <= capacity == peak <= bodyLimit
      invariant capacity <= Max(if length.Some? then length.value else 0, 2 * |buf|)
      invariant reservation.bytes == bodyLimit
      invariant reservation.budget.used == old(reservation.budget.used)
    {
      BodyAppend(chunks, i);
      BodyPrefix(chunks, i + 1);
      if |buf| + |chunks[i]| > bodyLimit {
        BodyPrefix(chunks, i);
        return None, peak;
      }
      var needed := |buf| + |chunks[i]|;
      capacity := InputBudgetProtocol.Grow(capacity, needed, bodyLimit);
      peak := capacity;
      buf := buf + chunks[i];
    }
    assert chunks[..|chunks|] == chunks;
    reservation.Shrink(|buf|);
    r := Some(buf);
  }
}
