/**
 * The BLE notification example: reads of its one characteristic return
 * "Value: 80", and the notifier draws random values scaled onto 60..110,
 * rejecting (with a 500 ms wait) every value below 100, and sends the first
 * accepted one as "Value: N" to the characteristic's handle.
 */
module BleNotify {
  import opened Ints
  import opened Wrappers
  import opened Text
  import opened BleRead

  const MinValue: nat := 60
  const MaxValue: nat := 110

  /** The smallest value the notifier sends. */
  const Threshold: nat := 100

  /** The wait after a rejected draw. */
  const RetryMs: nat := 500

  /** Capacity of the `heapless::String<64>` the message is written into. */
  const MessageCapacity: nat := 64

  /** `scale_random_u32`: `60 + r % 51`. The sum is below 111, so the `u32` addition cannot overflow. */
  function ScaleRandom(r: U32): (v: U32)
    ensures MinValue <= v <= MaxValue
    ensures (r - (v - MinValue)) % (MaxValue - MinValue + 1) == 0
  {
    MinValue + (r % (MaxValue - MinValue + 1))
  }

  /** Every value of the range is drawn by some random number. */
  lemma ScaleRandomOnto(v: nat)
    requires MinValue <= v <= MaxValue
    ensures ScaleRandom(v - MinValue) == v
  {
  }

  /** A draw is kept exactly when its remainder modulo 51 is at least 40. */
  lemma AcceptedDraws(r: U32)
    ensures ScaleRandom(r) >= Threshold <==> r % 51 >= 40
  {
  }

  /** `b"Value: 80"`, the answer to every read. */
  const SensorData: seq<Byte> := AsciiBytes("Value: 80")

  lemma SensorDataBytes()
    ensures |SensorData| == 9
    ensures SensorData == [0x56, 0x61, 0x6C, 0x75, 0x65, 0x3A, 0x20, 0x38, 0x30]
  {
  }

  /** `read_func`: the 9 bytes in front of the buffer, the rest untouched, 9 returned, whatever the offset. */
  method ReadFunc(offset: nat, data: array<Byte>) returns (n: nat)
    requires data.Length >= 9
    modifies data
    ensures n == 9 && data[..9] == SensorData && data[9..] == old(data[9..])
  {
    SensorDataBytes();
    n := CopyPayload(SensorData, data);
  }

  /** What `write!(data, "Value: {}", val)` puts in the message buffer: ASCII text after the fixed prefix. */
  function Message(val: nat): (m: string)
    ensures |m| > 7 && m[..7] == "Value: " && IsAscii(m)
  {
    "Value: " + Decimal(val)
  }

  /** The notification the closure returns: the characteristic's handle and the message bytes. */
  datatype Notification = Notification(handle: U16, payload: seq<Byte>)

  /**
   * The notification for an accepted value: addressed to the handle, its
   * payload the bytes of the message, which read back to the value.
   */
  function NotificationFor(handle: U16, val: nat): (n: Notification)
    ensures n.handle == handle && n.payload == AsciiBytes(Message(val))
    ensures ParseMessage(AsciiText(n.payload)) == Some(val)
  {
    AsciiTextOfBytes(Message(val));
    MessageRoundTrip(val);
    Notification(handle, AsciiBytes(Message(val)))
  }

  /** The index of the first draw that is kept, or `|draws|` when none is. */
  function FirstAccepted(draws: seq<U32>): (k: nat)
    ensures k <= |draws|
    ensures forall i | 0 <= i < k :: ScaleRandom(draws[i]) < Threshold
    ensures k < |draws| ==> ScaleRandom(draws[k]) >= Threshold
  {
    if draws == [] || ScaleRandom(draws[0]) >= Threshold then 0 else 1 + FirstAccepted(draws[1..])
  }

  /**
   * One call of the notifier closure, over the random numbers the RNG
   * returns: the waits it makes and the notification it returns, `None` when
   * every draw given was rejected and it is still waiting.
   */
  method Notifier(handle: U16, draws: seq<U32>) returns (waits: seq<nat>, result: Option<Notification>)
    ensures var k := FirstAccepted(draws);
      waits == seq(k, _ => RetryMs) &&
      result == if k < |draws| then Some(NotificationFor(handle, ScaleRandom(draws[k]))) else None
  {
    waits := [];
    var i := 0;
    while i < |draws|
      invariant i <= FirstAccepted(draws)
      invariant waits == seq(i, _ => RetryMs)
    {
      var val := ScaleRandom(draws[i]);
      if val >= 100 {
        var data := "Value: " + Decimal(val);
        assert data == Message(val);
        result := Some(Notification(handle, AsciiBytes(data)));
        return;
      }
      waits := waits + [500];
      i := i + 1;
    }
    result := None;
  }

  /**
   * Everything the notifier sends is a value from 100 to 110, addressed to
   * the handle it was given; the message has 10 bytes, within the buffer's
   * 64, so `write!` cannot fail; and the payload reads back, as text, to the
   * notified value.
   */
  lemma NotifiedMessage(handle: U16, draws: seq<U32>)
    requires FirstAccepted(draws) < |draws|
    ensures var val := ScaleRandom(draws[FirstAccepted(draws)]);
      var n := NotificationFor(handle, val);
      Threshold <= val <= MaxValue && n.handle == handle &&
      |n.payload| == 10 <= MessageCapacity &&
      ParseMessage(AsciiText(n.payload)) == Some(val)
  {
    var val := ScaleRandom(draws[FirstAccepted(draws)]);
    DecimalLength(val, 3);
    DecimalLength(val, 2);
  }

  /** The message reads back as its value: "Value: " and then `Decimal(val)`, nothing else. */
  function ParseMessage(s: string): Option<nat> {
    if |s| < 8 || s[..7] != "Value: " || !Canonical(s[7..]) then None
    else Some(DigitsValue(s[7..]))
  }

  lemma MessageRoundTrip(val: nat)
    ensures ParseMessage(Message(val)) == Some(val)
  {
    var m := Message(val);
    assert m[..7] == "Value: " && m[7..] == Decimal(val);
    DecimalRoundTrip(val);
  }

  /** Only messages the notifier can write parse: the parser accepts nothing else. */
  lemma ParseMessageExact(s: string)
    requires ParseMessage(s).Some?
    ensures Message(ParseMessage(s).value) == s
  {
    CanonicalRoundTrip(s[7..]);
    assert s == s[..7] + s[7..];
  }
}
