/**
 * The `read_func` closures of the two BLE examples: `copy_from_slice` of a
 * fixed payload into the front of the buffer the attribute server hands in,
 * returning the payload's length. `data[0..len]` panics when the buffer is
 * shorter than the payload.
 */
module BleRead {
  import opened Ints

  /** The caller's buffer after the copy: the payload in front, the rest as it was. */
  function AfterRead(payload: seq<Byte>, buffer: seq<Byte>): (r: seq<Byte>)
    requires |payload| <= |buffer|
    ensures |r| == |buffer|
    ensures r[..|payload|] == payload
    ensures r[|payload|..] == buffer[|payload|..]
  {
    payload + buffer[|payload|..]
  }

  /** `data[0..payload.len()].copy_from_slice(payload)`, then the length. */
  method CopyPayload(payload: seq<Byte>, data: array<Byte>) returns (n: nat)
    requires |payload| <= data.Length
    modifies data
    ensures n == |payload|
    ensures data[..] == AfterRead(payload, old(data[..]))
  {
    forall i | 0 <= i < |payload| {
      data[i] := payload[i];
    }
    n := |payload|;
  }

  /**
   * Serving the same read twice leaves the buffer as serving it once, and a
   * read depends on nothing the previous buffer held in front.
   */
  lemma AfterReadIdempotent(payload: seq<Byte>, buffer: seq<Byte>)
    requires |payload| <= |buffer|
    ensures AfterRead(payload, AfterRead(payload, buffer)) == AfterRead(payload, buffer)
  {
  }

  /** Two buffers that agree behind the payload are the same after the read. */
  lemma AfterReadForgetsFront(payload: seq<Byte>, a: seq<Byte>, b: seq<Byte>)
    requires |payload| <= |a| == |b|
    requires a[|payload|..] == b[|payload|..]
    ensures AfterRead(payload, a) == AfterRead(payload, b)
  {
  }
}
