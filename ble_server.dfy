/**
 * The BLE GATT example: one characteristic answers reads with
 * "Hello, Ferris" and logs writes, a second one only logs writes, and the
 * attribute server keeps working until `do_work` first reports an error.
 */
module BleServer {
  import opened Ints
  import opened Wrappers
  import opened Text
  import opened BleRead

  /** `b"Hello, Ferris"`. */
  const SensorData: seq<Byte> := AsciiBytes("Hello, Ferris")

  lemma SensorDataBytes()
    ensures |SensorData| == 13
    ensures SensorData == [0x48, 0x65, 0x6C, 0x6C, 0x6F, 0x2C, 0x20, 0x46, 0x65, 0x72, 0x72, 0x69, 0x73]
  {
  }

  /**
   * `read_func`: whatever the offset, the 13 payload bytes go to the front of
   * the buffer, the bytes behind them are untouched, and 13 is returned.
   */
  method ReadFunc(offset: nat, data: array<Byte>) returns (n: nat)
    requires data.Length >= 13
    modifies data
    ensures n == 13 && data[..13] == SensorData && data[13..] == old(data[13..])
  {
    SensorDataBytes();
    n := CopyPayload(SensorData, data);
  }

  /**
   * `{:?}` of a byte slice: the decimal values, separated by ", ", in
   * brackets; only the empty slice prints as `[]`.
   */
  function DebugBytes(data: seq<Byte>): (s: string)
    ensures |s| >= 2 && s[0] == '[' && s[|s| - 1] == ']'
    ensures |s| == 2 <==> data == []
  {
    "[" + Items(data) + "]"
  }

  function Items(data: seq<Byte>): string
    decreases |data|
  {
    if data == [] then ""
    else if |data| == 1 then Decimal(data[0])
    else Decimal(data[0]) + ", " + Items(data[1..])
  }

  /**
   * The line both write callbacks log, `RECEIVED: {} {:?}` of the offset
   * and the written bytes. The callbacks change nothing else.
   */
  function WriteFunc(offset: nat, data: seq<Byte>): (line: string)
    ensures |line| >= |ReceivedTag| && line[..|ReceivedTag|] == ReceivedTag
  {
    ReceivedTag + Decimal(offset) + " " + DebugBytes(data)
  }

  const ReceivedTag: string := "RECEIVED: "

  /** Reads a line logged by a write callback back into its offset and bytes. */
  function ParseReceived(line: string): Option<(nat, seq<nat>)> {
    if |line| < |ReceivedTag| || line[..|ReceivedTag|] != ReceivedTag then None
    else ParseOffsetAndBytes(line[|ReceivedTag|..])
  }

  /** The offset, a space and the bracketed bytes. */
  function ParseOffsetAndBytes(rest: string): Option<(nat, seq<nat>)> {
    var k := SpanDigits(rest);
    if k == 0 || k + 3 > |rest| || rest[k] != ' ' || rest[k + 1] != '[' || rest[|rest| - 1] != ']' then None
    else
      match ParseItems(rest[k + 2..|rest| - 1])
      case None => None
      case Some(items) => Some((DigitsValue(rest[..k]), items))
  }

  /** Reads `Items` back: decimal numbers separated by ", ". */
  function ParseItems(s: string): Option<seq<nat>>
    decreases |s|
  {
    if s == [] then Some([])
    else
      var k := SpanDigits(s);
      if k == 0 then None
      else if k == |s| then Some([DigitsValue(s)])
      else if k + 2 <= |s| && s[k] == ',' && s[k + 1] == ' ' then
        match ParseItems(s[k + 2..])
        case None => None
        case Some(more) => Some([DigitsValue(s[..k])] + more)
      else None
  }

  lemma {:induction false} ItemsRoundTrip(data: seq<Byte>)
    ensures ParseItems(Items(data)) == Some(data)
    decreases |data|
  {
    if |data| == 1 {
      DecimalRoundTrip(data[0]);
      SpanDecimal(data[0], "");
      assert Decimal(data[0]) + "" == Decimal(data[0]);
      assert [data[0]] == data;
    } else if |data| > 1 {
      ItemsRoundTrip(data[1..]);
      ParseItemsCons(data[0], Items(data[1..]), data[1..]);
      assert Items(data) == Decimal(data[0]) + (", " + Items(data[1..]));
      assert [data[0]] + data[1..] == data;
    }
  }

  /** Reading a number, a separator and the remaining items. */
  lemma ParseItemsCons(v: Byte, tail: string, more: seq<nat>)
    requires ParseItems(tail) == Some(more)
    ensures ParseItems(Decimal(v) + (", " + tail)) == Some([v] + more)
  {
    var d := Decimal(v);
    var s := d + (", " + tail);
    SpanDecimal(v, ", " + tail);
    DecimalRoundTrip(v);
    assert s[..|d|] == d && s[|d|] == ',' && s[|d| + 1] == ' ' && s[|d| + 2..] == tail;
  }

  /** A logged write line determines the offset and the bytes that were written. */
  lemma WriteFuncRoundTrip(offset: nat, data: seq<Byte>)
    ensures ParseReceived(WriteFunc(offset, data)) == Some((offset, data))
  {
    var rest := Decimal(offset) + (" [" + Items(data) + "]");
    WriteFuncShape(offset, data);
    OffsetAndBytesRoundTrip(offset, data);
    ParseReceivedTagged(rest);
  }

  lemma WriteFuncShape(offset: nat, data: seq<Byte>)
    ensures WriteFunc(offset, data) == ReceivedTag + (Decimal(offset) + (" [" + Items(data) + "]"))
  {
  }

  lemma OffsetAndBytesRoundTrip(offset: nat, data: seq<Byte>)
    ensures ParseOffsetAndBytes(Decimal(offset) + (" [" + Items(data) + "]")) == Some((offset, data))
  {
    SpanDecimal(offset, " [" + Items(data) + "]");
    DecimalRoundTrip(offset);
    ItemsRoundTrip(data);
    ParseOffsetAndBytesOf(Decimal(offset), Items(data), data);
  }

  lemma ParseReceivedTagged(rest: string)
    ensures ParseReceived(ReceivedTag + rest) == ParseOffsetAndBytes(rest)
  {
    var line := ReceivedTag + rest;
    assert line[..|ReceivedTag|] == ReceivedTag && line[|ReceivedTag|..] == rest;
  }

  lemma ParseOffsetAndBytesOf(digits: string, items: string, data: seq<nat>)
    requires |digits| > 0 && AllDigits(digits)
    requires SpanDigits(digits + (" [" + items + "]")) == |digits|
    requires ParseItems(items) == Some(data)
    ensures ParseOffsetAndBytes(digits + (" [" + items + "]")) == Some((DigitsValue(digits), data))
  {
    var tail := " [" + items + "]";
    var rest := digits + tail;
    var k := |digits|;
    assert tail[0] == ' ' && tail[1] == '[' && tail[|tail| - 1] == ']' && tail[2..|tail| - 1] == items;
    assert rest[..k] == digits && rest[k..] == tail;
    assert rest[k + 2..|rest| - 1] == tail[2..|tail| - 1];
    OffsetAndBytes(rest, k, digits, items, data);
  }

  lemma OffsetAndBytes(rest: string, k: nat, digits: string, items: string, data: seq<nat>)
    requires SpanDigits(rest) == k && 0 < k && k + 3 <= |rest|
    requires rest[k] == ' ' && rest[k + 1] == '[' && rest[|rest| - 1] == ']'
    requires rest[..k] == digits && rest[k + 2..|rest| - 1] == items && ParseItems(items) == Some(data)
    ensures ParseOffsetAndBytes(rest) == Some((DigitsValue(digits), data))
  {
  }

  /** Different writes are logged differently. */
  lemma WriteFuncInjective(o1: nat, d1: seq<Byte>, o2: nat, d2: seq<Byte>)
    requires WriteFunc(o1, d1) == WriteFunc(o2, d2)
    ensures o1 == o2 && d1 == d2
  {
    WriteFuncRoundTrip(o1, d1);
    WriteFuncRoundTrip(o2, d2);
  }

  /** The number of `do_work` calls that succeed before the first failure. */
  function OkPrefix(outcomes: seq<bool>): (k: nat)
    ensures k <= |outcomes|
    ensures forall i | 0 <= i < k :: outcomes[i]
    ensures k < |outcomes| ==> !outcomes[k]
  {
    if outcomes == [] || !outcomes[0] then 0 else 1 + OkPrefix(outcomes[1..])
  }

  /**
   * `while srv.do_work().await.is_ok() {}` over the outcomes `do_work`
   * reports: how many times it is called, and whether the loop ended (it
   * does, and `main` returns, at the first error; otherwise it is still
   * serving).
   */
  method Serve(outcomes: seq<bool>) returns (calls: nat, stopped: bool)
    ensures stopped <==> OkPrefix(outcomes) < |outcomes|
    ensures calls == if stopped then OkPrefix(outcomes) + 1 else |outcomes|
  {
    calls := 0;
    while calls < |outcomes|
      invariant calls <= OkPrefix(outcomes)
    {
      var ok := outcomes[calls];
      calls := calls + 1;
      if !ok {
        stopped := true;
        return;
      }
    }
    stopped := false;
  }

  /** The serve loop never calls `do_work` again after an error. */
  lemma NoWorkAfterError(outcomes: seq<bool>, k: nat)
    requires k < |outcomes| && !outcomes[k]
    ensures OkPrefix(outcomes) <= k
  {
  }
}
