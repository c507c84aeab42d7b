/**
 * The RFID key-change example. For every card it selects, it dumps sector 1
 * with the factory key, writes a new sector trailer (new key A "Rusted",
 * access bytes FF 07 80 69, key B "Ferris") into block 7, dumps the sector
 * again with the new key, then halts the card and leaves the encrypted
 * session. Every failed authentication, read or write panics.
 *
 * The reader is a `Transcript`: it records every command sent to the card
 * and every line written to the console, and answers each command from the
 * `card` function of the transcript so far: any card behaviour at all.
 */
module RfidSector {
  import opened Ints
  import opened Text
  import opened HexDump

  /** Commands sent to the MFRC522 (and through it to the card). */
  datatype Command =
    | Reqa
    | Select(atqa: seq<Byte>)
    | Authenticate(uid: seq<Byte>, block: U8, key: seq<Byte>)
    | ReadBlock(block: U8)
    | WriteBlock(block: U8, data: seq<Byte>)
    | Hlta
    | StopCrypto1

  /** The answer to a command: success, and the bytes returned (ATQA, UID or block contents). */
  datatype Answer = Answer(ok: bool, data: seq<Byte>)

  datatype Event =
    | Sent(command: Command)
    | Log(message: string)     // a `println!` line
    | Output(text: string)     // what `print_hex_bytes` wrote
    | WaitMs(ms: nat)
    | Panic(reason: string)    // an `unwrap` failed: the program stops

  predicate Halted(events: seq<Event>) {
    events != [] && events[|events| - 1].Panic?
  }

  class Transcript {
    /** How the card answers, given everything that happened so far. */
    const card: seq<Event> -> Answer
    var events: seq<Event>

    constructor (card: seq<Event> -> Answer)
      ensures this.card == card && events == []
    {
      this.card := card;
      events := [];
    }

    /** Sends one command and returns the card's answer to it. */
    method Send(c: Command) returns (a: Answer)
      modifies this
      ensures events == old(events) + [Sent(c)] && a == card(events)
    {
      events := events + [Sent(c)];
      a := card(events);
    }

    /** Writes to the console, waits or stops. */
    method Emit(e: Event)
      modifies this
      ensures events == old(events) + [e]
    {
      events := events + [e];
    }
  }

  const TargetSector: U8 := 1
  /** The block within the sector that is written: the sector trailer. */
  const RelBlock: U8 := 3

  /** The new sector trailer. */
  const Data: seq<Byte> := [
    0x52, 0x75, 0x73, 0x74, 0x65, 0x64,
    0xFF, 0x07, 0x80, 0x69,
    0x46, 0x65, 0x72, 0x72, 0x69, 0x73]

  /** The factory key the cards ship with. */
  const CurrentKey: seq<Byte> := [0xFF, 0xFF, 0xFF, 0xFF, 0xFF, 0xFF]

  /** The first six bytes of the trailer: the key A it installs. */
  const NewKey: seq<Byte> := Data[..6]

  /**
   * `sector * 4 + rel_block` in `u8`: in range for every sector up to 63
   * when the block is one of the sector's four.
   */
  function AbsBlock(sector: U8, relBlock: U8): (b: U8)
    requires 4 * sector + relBlock < U8_LIMIT
    ensures b / 4 == sector <== relBlock < 4
    ensures b % 4 == relBlock % 4 <== relBlock < 4
  {
    4 * sector + relBlock
  }

  /** The block written is block 7, the trailer (fourth block) of sector 1. */
  lemma TargetIsTrailer()
    ensures AbsBlock(TargetSector, RelBlock) == 7
    ensures 7 / 4 == TargetSector && 7 % 4 == 3
  {
  }

  /**
   * The trailer layout: key A, the three access bytes and the user byte,
   * key B; key A reads "Rusted" and key B "Ferris". `new_key` is key A,
   * and the factory key is six bytes of 0xFF.
   */
  lemma DataLayout()
    ensures |Data| == 16
    ensures Data[..6] == AsciiBytes("Rusted") && Data[10..] == AsciiBytes("Ferris")
    ensures Data[6..10] == [0xFF, 0x07, 0x80, 0x69]
    ensures NewKey == AsciiBytes("Rusted") && |NewKey| == 6
    ensures |CurrentKey| == 6 && forall i | 0 <= i < 6 :: CurrentKey[i] == 0xFF
  {
  }

  /**
   * The access conditions C1, C2, C3 of block `b` (0 to 3 within the sector)
   * encoded in access bytes 6 to 8 of a MIFARE Classic sector trailer: byte 7
   * holds C1 in its high nibble, byte 8 holds C3 high and C2 low, and byte 6
   * holds the inverses of C2 (high) and C1 (low).
   */
  function AccessBits(bytes: seq<Byte>, b: nat): (bool, bool, bool)
    requires |bytes| == 3 && b < 4
  {
    (Bit(bytes[1] / 16, b), Bit(bytes[2] % 16, b), Bit(bytes[2] / 16, b))
  }

  function Bit(nibble: nat, b: nat): bool
    requires b < 4
  {
    (nibble / Pow2(b)) % 2 == 1
  }

  function Pow2(b: nat): nat
    requires b < 4
  {
    if b == 0 then 1 else if b == 1 then 2 else if b == 2 then 4 else 8
  }

  /** The inverted copies in the trailer agree with the plain ones, as the card demands of a trailer. */
  predicate AccessBytesConsistent(bytes: seq<Byte>)
    requires |bytes| == 3
  {
    forall b | 0 <= b < 4 ::
      Bit(bytes[0] % 16, b) == !Bit(bytes[1] / 16, b) &&
      Bit(bytes[0] / 16, b) == !Bit(bytes[2] % 16, b) &&
      Bit(bytes[1] % 16, b) == !Bit(bytes[2] / 16, b)
  }

  /**
   * The access bytes written are consistent, give the three data blocks
   * condition 000 and the trailer condition 001 (the transport configuration:
   * key A never readable, key A writes keys and access bits).
   */
  lemma WrittenAccessBits()
    ensures AccessBytesConsistent(Data[6..9])
    ensures forall b | 0 <= b < 3 :: AccessBits(Data[6..9], b) == (false, false, false)
    ensures AccessBits(Data[6..9], 3) == (false, false, true)
  {
    var bytes := Data[6..9];
    assert bytes == [0xFF, 0x07, 0x80];
    assert bytes[0] % 16 == 15 && bytes[0] / 16 == 15;
    assert bytes[1] / 16 == 0 && bytes[1] % 16 == 7;
    assert bytes[2] % 16 == 0 && bytes[2] / 16 == 8;
    forall b | 0 <= b < 4
      ensures Bit(15, b) && !Bit(0, b) && Bit(7, b) == (b < 3) && Bit(8, b) == (b == 3)
    {
    }
  }

  /**
   * One step of the example's card handling: a command whose error is
   * `unwrap`ped (with the message `map_err` gives it), an `mf_read` whose
   * block is then dumped with `print_hex_bytes`, or a console line.
   */
  datatype Op =
    | Checked(c: Command, failure: string)
    | ReadDump(block: U8)
    | Say(e: Event)

  /**
   * The events of one step: it only appends, one or two events, and a step
   * that talks to the card starts with the command it sends.
   */
  function Perform(card: seq<Event> -> Answer, events: seq<Event>, op: Op): (r: seq<Event>)
    ensures |events| < |r| <= |events| + 2 && r[..|events|] == events
    ensures op.Checked? ==> r[|events|] == Sent(op.c)
    ensures op.ReadDump? ==> r[|events|] == Sent(ReadBlock(op.block))
  {
    match op
    case Checked(c, failure) =>
      var sent := events + [Sent(c)];
      if card(sent).ok then sent else sent + [Panic(failure)]
    case ReadDump(block) =>
      var sent := events + [Sent(ReadBlock(block))];
      var a := card(sent);
      if a.ok then sent + [Output(HexLine(a.data))] else sent + [Panic("Read failed")]
    case Say(e) => events + [e]
  }

  /** The steps `ops`, in order, up to the first panic. The run only appends, at most two events per step. */
  function Exec(card: seq<Event> -> Answer, events: seq<Event>, ops: seq<Op>): (r: seq<Event>)
    ensures |events| <= |r| <= |events| + 2 * |ops| && r[..|events|] == events
  {
    if ops == [] then events
    else
      var before := Exec(card, events, ops[..|ops| - 1]);
      if Halted(before) then before else Perform(card, before, ops[|ops| - 1])
  }

  /**
   * `read_sector`: authenticate for the sector's first block, then read and
   * dump its four blocks in order. The range end `block_offset + 4` is
   * computed in `u8` too, so the sector must be at most 62.
   */
  function ReadSectorOps(uid: seq<Byte>, sector: U8, key: seq<Byte>): (ops: seq<Op>)
    requires 4 * sector + 4 < U8_LIMIT
    ensures |ops| == 5
  {
    [Checked(Authenticate(uid, 4 * sector, key), "Auth failed")] +
    seq(4, i requires 0 <= i < 4 => ReadDump(4 * sector + i))
  }

  /** `write_block`: authenticate for the sector's first block, then write the block. */
  function WriteBlockOps(uid: seq<Byte>, sector: U8, relBlock: U8, data: seq<Byte>, key: seq<Byte>): (ops: seq<Op>)
    requires 4 * sector + relBlock < U8_LIMIT
    ensures |ops| == 2 && ops[0].Checked? && ops[1].Checked?
    ensures ops[0].c.Authenticate? && ops[0].c.block % 4 == 0 && ops[0].c.uid == uid && ops[0].c.key == key
    ensures ops[1].c.WriteBlock? && ops[1].c.block == ops[0].c.block + relBlock && ops[1].c.data == data
  {
    [Checked(Authenticate(uid, 4 * sector, key), "Auth failed"),
     Checked(WriteBlock(AbsBlock(sector, relBlock), data), "Write failed")]
  }

  const BeforeWrite: string := "\r\n----Before Write----"
  const AfterWrite: string := "\r\n----After Write----"
  const UnwrapFailed: string := "called `Result::unwrap()` on an `Err` value"

  /**
   * What happens to a selected card: sixteen steps, with the sector trailer,
   * block 7, written once between the two dumps, and the halt and the end of
   * the encrypted session last.
   */
  function SessionOps(uid: seq<Byte>): (ops: seq<Op>)
    ensures |ops| == 16 && ops[0] == Say(Log(BeforeWrite))
    ensures ops[6] == Checked(Authenticate(uid, 4, CurrentKey), "Auth failed")
    ensures ops[7] == Checked(WriteBlock(7, Data), "Write failed") && ops[8] == Say(Log(AfterWrite))
    ensures ops[14..] == FinishOps
  {
    [Say(Log(BeforeWrite))] +
    ReadSectorOps(uid, TargetSector, CurrentKey) +
    WriteBlockOps(uid, TargetSector, RelBlock, Data, CurrentKey) +
    [Say(Log(AfterWrite))] +
    ReadSectorOps(uid, TargetSector, NewKey) +
    FinishOps
  }

  /**
   * One turn of the main loop: REQA, and when a card answers, select it and
   * change its key. Every turn sends REQA first and only appends.
   */
  function TurnLog(card: seq<Event> -> Answer, events: seq<Event>): (r: seq<Event>)
    ensures |events| < |r| && r[..|events| + 1] == events + [Sent(Reqa)]
  {
    var asked := events + [Sent(Reqa)];
    var atqa := card(asked);
    if !atqa.ok then asked
    else
      var selecting := asked + [Log("Got atqa"), WaitMs(50), Sent(Select(atqa.data))];
      var uid := card(selecting);
      if !uid.ok then selecting else Exec(card, selecting, SessionOps(uid.data))
  }

  /** `turns` repetitions of `step`, stopping at the first panic. */
  function Repeat(step: seq<Event> -> seq<Event>, events: seq<Event>, turns: nat): (r: seq<Event>)
    ensures Halted(events) ==> r == events
  {
    if turns == 0 then events
    else
      var before := Repeat(step, events, turns - 1);
      if Halted(before) then before else step(before)
  }

  /** One turn of the main loop, as a step of `Repeat`. */
  function TurnStep(card: seq<Event> -> Answer): seq<Event> -> seq<Event> {
    e => TurnLog(card, e)
  }

  /**
   * `turns` turns of the main loop, which stops at the first panic. The loop
   * only appends, and its first turn sends REQA.
   */
  function LoopLog(card: seq<Event> -> Answer, events: seq<Event>, turns: nat): (r: seq<Event>)
    ensures |events| <= |r| && r[..|events|] == events
    ensures turns > 0 && !Halted(events) ==> |events| < |r| && r[|events|] == Sent(Reqa)
  {
    TurnStepAppends(card);
    RepeatExtends(TurnStep(card), events, 0, turns);
    if turns > 0 && !Halted(events) then
      FirstTurnSendsReqa(card, events, turns);
      Repeat(TurnStep(card), events, turns)
    else
      Repeat(TurnStep(card), events, turns)
  }

  /** The first turn of a loop that has not panicked sends REQA, and later turns keep it. */
  lemma FirstTurnSendsReqa(card: seq<Event> -> Answer, events: seq<Event>, turns: nat)
    requires turns > 0 && !Halted(events)
    ensures var r := Repeat(TurnStep(card), events, turns);
      |events| < |r| && r[|events|] == Sent(Reqa)
  {
    TurnStepAppends(card);
    RepeatExtends(TurnStep(card), events, 1, turns);
    var first := Repeat(TurnStep(card), events, 1);
    assert Repeat(TurnStep(card), events, 0) == events;
    assert first == TurnLog(card, events);
    assert first[..|events| + 1] == events + [Sent(Reqa)];
    assert first[|events|] == Sent(Reqa);
  }

  /** `b` keeps `a` as its beginning. */
  predicate Extends(a: seq<Event>, b: seq<Event>) {
    |a| <= |b| && b[..|a|] == a
  }

  /** A step that keeps the log it is given and only appends to it. */
  ghost predicate Appends(step: seq<Event> -> seq<Event>) {
    forall e :: Extends(e, step(e))
  }

  /** With a step that only appends, more turns only extend the log of fewer. */
  lemma {:induction false} RepeatExtends(step: seq<Event> -> seq<Event>, events: seq<Event>, k: nat, n: nat)
    requires k <= n && Appends(step)
    ensures Extends(Repeat(step, events, k), Repeat(step, events, n))
    decreases n
  {
    var a := Repeat(step, events, k);
    if k < n {
      RepeatExtends(step, events, k, n - 1);
      var c := Repeat(step, events, n - 1);
      var b := Repeat(step, events, n);
      if !Halted(c) {
        assert b == step(c);
        assert Extends(c, b);
        PrefixTrans(a, c, b);
      } else {
        assert b == c;
      }
    } else {
      assert a[..|a|] == a;
    }
  }

  /** A turn of the main loop only appends. */
  lemma TurnStepAppends(card: seq<Event> -> Answer)
    ensures Appends(TurnStep(card))
  {
    forall e: seq<Event> ensures Extends(e, TurnStep(card)(e)) {
      TurnExtends(card, e);
    }
  }

  /** A turn keeps the log it started from. */
  lemma TurnExtends(card: seq<Event> -> Answer, events: seq<Event>)
    ensures var r := TurnStep(card)(events); |events| <= |r| && r[..|events|] == events
  {
    var r := TurnLog(card, events);
    assert r[..|events|] == r[..|events| + 1][..|events|];
  }

  lemma PrefixTrans(a: seq<Event>, c: seq<Event>, b: seq<Event>)
    requires |a| <= |c| <= |b| && c[..|a|] == a && b[..|c|] == c
    ensures b[..|a|] == a
  {
    assert b[..|a|] == b[..|c|][..|a|];
  }

  /** Once the program has panicked, no further step does anything. */
  lemma {:induction false} ExecHalted(card: seq<Event> -> Answer, events: seq<Event>, ops: seq<Op>)
    requires Halted(events)
    ensures Exec(card, events, ops) == events
  {
    if ops != [] {
      ExecHalted(card, events, ops[..|ops| - 1]);
    }
  }

  /** Running two lists of steps one after the other is running their concatenation. */
  lemma {:induction false} ExecConcat(card: seq<Event> -> Answer, events: seq<Event>, a: seq<Op>, b: seq<Op>)
    ensures Exec(card, events, a + b) == Exec(card, Exec(card, events, a), b)
    decreases |b|
  {
    if b == [] {
      assert a + b == a;
    } else {
      var init := b[..|b| - 1];
      assert (a + b)[..|a + b| - 1] == a + init;
      assert (a + b)[|a + b| - 1] == b[|b| - 1];
      ExecConcat(card, events, a, init);
    }
  }

  /** A run that panicked part-way through its steps ends there. */
  lemma HaltedPrefix(card: seq<Event> -> Answer, events: seq<Event>, ops: seq<Op>, k: nat)
    requires k <= |ops| && Halted(Exec(card, events, ops[..k]))
    ensures Exec(card, events, ops) == Exec(card, events, ops[..k])
  {
    assert ops[..k] + ops[k..] == ops;
    HaltedThen(card, events, ops[..k], ops[k..]);
  }

  lemma HaltedThen(card: seq<Event> -> Answer, events: seq<Event>, a: seq<Op>, b: seq<Op>)
    requires Halted(Exec(card, events, a))
    ensures Exec(card, events, a + b) == Exec(card, events, a)
  {
    ExecConcat(card, events, a, b);
    ExecHalted(card, Exec(card, events, a), b);
  }

  /** Running one more step. */
  lemma ExecSnoc(card: seq<Event> -> Answer, events: seq<Event>, ops: seq<Op>, k: nat)
    requires k < |ops|
    ensures Exec(card, events, ops[..k + 1]) ==
      var before := Exec(card, events, ops[..k]);
      if Halted(before) then before else Perform(card, before, ops[k])
  {
    assert ops[..k + 1][..k] == ops[..k];
  }

  method WriteBlockOnCard(rfid: Transcript, uid: seq<Byte>, sector: U8, relBlock: U8, data: seq<Byte>, authKey: seq<Byte>)
    returns (ok: bool)
    requires 4 * sector + relBlock < U8_LIMIT && !Halted(rfid.events)
    modifies rfid
    ensures rfid.events == Exec(rfid.card, old(rfid.events), WriteBlockOps(uid, sector, relBlock, data, authKey))
    ensures ok <==> !Halted(rfid.events)
  {
    ghost var ops := WriteBlockOps(uid, sector, relBlock, data, authKey);
    ghost var start := rfid.events;
    ExecSnoc(rfid.card, start, ops, 0);
    ExecSnoc(rfid.card, start, ops, 1);
    assert ops[..0] == [] && ops[..2] == ops;
    var blockOffset := sector * 4;
    var absBlock := blockOffset + relBlock;
    var a := rfid.Send(Authenticate(uid, blockOffset, authKey));
    if !a.ok {
      rfid.Emit(Panic("Auth failed"));
      return false;
    }
    a := rfid.Send(WriteBlock(absBlock, data));
    if !a.ok {
      rfid.Emit(Panic("Write failed"));
      return false;
    }
    ok := true;
  }

  lemma ReadSectorOpsAt(uid: seq<Byte>, sector: U8, key: seq<Byte>)
    requires 4 * sector + 4 < U8_LIMIT
    ensures var ops := ReadSectorOps(uid, sector, key);
      ops[0] == Checked(Authenticate(uid, 4 * sector, key), "Auth failed") &&
      forall k | 1 <= k < 5 :: ops[k] == ReadDump(4 * sector + k - 1)
  {
  }

  method ReadSector(rfid: Transcript, uid: seq<Byte>, sector: U8, authKey: seq<Byte>) returns (ok: bool)
    requires 4 * sector + 4 < U8_LIMIT && !Halted(rfid.events)
    modifies rfid
    ensures rfid.events == Exec(rfid.card, old(rfid.events), ReadSectorOps(uid, sector, authKey))
    ensures ok <==> !Halted(rfid.events)
  {
    ghost var ops := ReadSectorOps(uid, sector, authKey);
    ghost var start := rfid.events;
    ReadSectorOpsAt(uid, sector, authKey);
    ExecSnoc(rfid.card, start, ops, 0);
    assert ops[..0] == [];
    var blockOffset := sector * 4;
    var a := rfid.Send(Authenticate(uid, blockOffset, authKey));
    if !a.ok {
      rfid.Emit(Panic("Auth failed"));
      HaltedPrefix(rfid.card, start, ops, 1);
      return false;
    }
    for absBlock := blockOffset to blockOffset + 4
      invariant rfid.events == Exec(rfid.card, start, ops[..absBlock - blockOffset + 1])
      invariant !Halted(rfid.events)
    {
      var k := absBlock - blockOffset + 1;
      ExecSnoc(rfid.card, start, ops, k);
      assert ops[k] == ReadDump(absBlock);
      var read := DumpBlock(rfid, absBlock);
      if !read {
        HaltedPrefix(rfid.card, start, ops, k + 1);
        return false;
      }
    }
    assert ops[..5] == ops;
    ok := true;
  }

  /** `mf_read` of one block, and the dump of what it returned. */
  method DumpBlock(rfid: Transcript, block: U8) returns (ok: bool)
    modifies rfid
    ensures rfid.events == Perform(rfid.card, old(rfid.events), ReadDump(block))
    ensures ok <==> !Halted(rfid.events)
  {
    var data := rfid.Send(ReadBlock(block));
    if !data.ok {
      rfid.Emit(Panic("Read failed"));
      return false;
    }
    var text := PrintHexBytes(data.data);
    rfid.Emit(Output(text));
    ok := true;
  }

  const FinishOps: seq<Op> := [Checked(Hlta, UnwrapFailed), Checked(StopCrypto1, UnwrapFailed)]

  /** The session's steps, phase by phase. */
  lemma SessionPhases(card: seq<Event> -> Answer, start: seq<Event>, uid: seq<Byte>)
    ensures Exec(card, start, SessionOps(uid)) ==
      Exec(card, Exec(card, Exec(card, Exec(card, Exec(card, Exec(card, start,
        [Say(Log(BeforeWrite))]),
        ReadSectorOps(uid, TargetSector, CurrentKey)),
        WriteBlockOps(uid, TargetSector, RelBlock, Data, CurrentKey)),
        [Say(Log(AfterWrite))]),
        ReadSectorOps(uid, TargetSector, NewKey)),
        FinishOps)
  {
    var p1 := [Say(Log(BeforeWrite))];
    var p2 := p1 + ReadSectorOps(uid, TargetSector, CurrentKey);
    var p3 := p2 + WriteBlockOps(uid, TargetSector, RelBlock, Data, CurrentKey);
    var p4 := p3 + [Say(Log(AfterWrite))];
    var p5 := p4 + ReadSectorOps(uid, TargetSector, NewKey);
    assert SessionOps(uid) == p5 + FinishOps;
    ExecConcat(card, start, p5, FinishOps);
    ExecConcat(card, start, p4, ReadSectorOps(uid, TargetSector, NewKey));
    ExecConcat(card, start, p3, [Say(Log(AfterWrite))]);
    ExecConcat(card, start, p2, WriteBlockOps(uid, TargetSector, RelBlock, Data, CurrentKey));
    ExecConcat(card, start, p1, ReadSectorOps(uid, TargetSector, CurrentKey));
  }

  /** One step on a run that has not panicked. */
  lemma ExecOne(card: seq<Event> -> Answer, events: seq<Event>, op: Op)
    requires !Halted(events)
    ensures Exec(card, events, [op]) == Perform(card, events, op)
  {
    assert [op][..0] == [];
  }

  method Session(rfid: Transcript, uid: seq<Byte>) returns (ok: bool)
    requires !Halted(rfid.events)
    modifies rfid
    ensures rfid.events == Exec(rfid.card, old(rfid.events), SessionOps(uid))
    ensures ok <==> !Halted(rfid.events)
  {
    ghost var card := rfid.card;
    ghost var start := rfid.events;
    ghost var write := WriteBlockOps(uid, TargetSector, RelBlock, Data, CurrentKey);
    ghost var read2 := ReadSectorOps(uid, TargetSector, NewKey);
    SessionPhases(card, start, uid);

    rfid.Emit(Log("\r\n----Before Write----"));
    ExecOne(card, start, Say(Log(BeforeWrite)));
    ok := ReadSector(rfid, uid, TargetSector, CurrentKey);
    if !ok {
      ghost var e := rfid.events;
      ExecHalted(card, e, write);
      ExecHalted(card, e, [Say(Log(AfterWrite))]);
      ExecHalted(card, e, read2);
      ExecHalted(card, e, FinishOps);
      return;
    }
    ok := WriteBlockOnCard(rfid, uid, TargetSector, RelBlock, Data, CurrentKey);
    if !ok {
      ghost var e := rfid.events;
      ExecHalted(card, e, [Say(Log(AfterWrite))]);
      ExecHalted(card, e, read2);
      ExecHalted(card, e, FinishOps);
      return;
    }
    ghost var e3 := rfid.events;
    rfid.Emit(Log("\r\n----After Write----"));
    ExecOne(card, e3, Say(Log(AfterWrite)));
    ok := ReadSector(rfid, uid, TargetSector, NewKey);
    if !ok {
      ExecHalted(card, rfid.events, FinishOps);
      return;
    }
    ok := Finish(rfid);
  }

  /** Halts the card and leaves the encrypted session. */
  method Finish(rfid: Transcript) returns (ok: bool)
    requires !Halted(rfid.events)
    modifies rfid
    ensures rfid.events == Exec(rfid.card, old(rfid.events), FinishOps)
    ensures ok <==> !Halted(rfid.events)
  {
    ghost var start := rfid.events;
    ExecSnoc(rfid.card, start, FinishOps, 0);
    ExecSnoc(rfid.card, start, FinishOps, 1);
    assert FinishOps[..0] == [] && FinishOps[..2] == FinishOps;
    var a := rfid.Send(Hlta);
    if !a.ok {
      rfid.Emit(Panic(UnwrapFailed));
      return false;
    }
    a := rfid.Send(StopCrypto1);
    if !a.ok {
      rfid.Emit(Panic(UnwrapFailed));
      return false;
    }
    ok := true;
  }

  /** One turn of the main loop. */
  method Turn(rfid: Transcript) returns (ok: bool)
    requires !Halted(rfid.events)
    modifies rfid
    ensures rfid.events == TurnLog(rfid.card, old(rfid.events))
    ensures ok <==> !Halted(rfid.events)
  {
    ok := true;
    ghost var before := rfid.events;
    var atqa := rfid.Send(Reqa);
    if atqa.ok {
      rfid.Emit(Log("Got atqa"));
      rfid.Emit(WaitMs(50));
      var uid := rfid.Send(Select(atqa.data));
      assert rfid.events == before + [Sent(Reqa)] + [Log("Got atqa"), WaitMs(50), Sent(Select(atqa.data))];
      if uid.ok {
        ok := Session(rfid, uid.data);
      }
    }
  }

  /** The main loop, for `turns` turns or until it panics. */
  method MainLoop(rfid: Transcript, turns: nat)
    requires !Halted(rfid.events)
    modifies rfid
    ensures rfid.events == LoopLog(rfid.card, old(rfid.events), turns)
  {
    ghost var start := rfid.events;
    var i := 0;
    while i < turns
      invariant 0 <= i <= turns
      invariant rfid.events == LoopLog(rfid.card, start, i) && !Halted(rfid.events)
    {
      LoopStep(rfid.card, start, i);
      var ok := Turn(rfid);
      i := i + 1;
      if !ok {
        LoopStaysHalted(rfid.card, start, i, turns);
        return;
      }
    }
  }

  lemma LoopStep(card: seq<Event> -> Answer, events: seq<Event>, i: nat)
    requires !Halted(LoopLog(card, events, i))
    ensures LoopLog(card, events, i + 1) == TurnLog(card, LoopLog(card, events, i))
  {
  }

  /** After a panic nothing more happens, however many turns follow: no failure is retried. */
  lemma LoopStaysHalted(card: seq<Event> -> Answer, events: seq<Event>, k: nat, n: nat)
    requires k <= n && Halted(LoopLog(card, events, k))
    ensures LoopLog(card, events, n) == LoopLog(card, events, k)
  {
    RepeatStaysHalted(TurnStep(card), events, k, n);
  }

  lemma {:induction false} RepeatStaysHalted(step: seq<Event> -> seq<Event>, events: seq<Event>, k: nat, n: nat)
    requires k <= n && Halted(Repeat(step, events, k))
    ensures Repeat(step, events, n) == Repeat(step, events, k)
    decreases n - k
  {
    if k < n {
      RepeatStaysHalted(step, events, k, n - 1);
    }
  }

  /** The commands sent, in order, in a list of events. */
  function Commands(events: seq<Event>): seq<Command> {
    if events == [] then []
    else
      var last := events[|events| - 1];
      Commands(events[..|events| - 1]) + (if last.Sent? then [last.command] else [])
  }

  /** The command a step sends, if any. */
  function OpCommands(op: Op): seq<Command> {
    match op
    case Checked(c, _) => [c]
    case ReadDump(block) => [ReadBlock(block)]
    case Say(e) => if e.Sent? then [e.command] else []
  }

  /** The commands a list of steps sends when none of them fails. */
  function PlanCommands(ops: seq<Op>): seq<Command> {
    if ops == [] then []
    else PlanCommands(ops[..|ops| - 1]) + OpCommands(ops[|ops| - 1])
  }

  lemma {:induction false} CommandsConcat(a: seq<Event>, b: seq<Event>)
    ensures Commands(a + b) == Commands(a) + Commands(b)
    decreases |b|
  {
    if b == [] {
      assert a + b == a;
    } else {
      assert (a + b)[..|a + b| - 1] == a + b[..|b| - 1];
      assert (a + b)[|a + b| - 1] == b[|b| - 1];
      CommandsConcat(a, b[..|b| - 1]);
    }
  }

  lemma {:induction false} PlanCommandsConcat(a: seq<Op>, b: seq<Op>)
    ensures PlanCommands(a + b) == PlanCommands(a) + PlanCommands(b)
    decreases |b|
  {
    if b == [] {
      assert a + b == a;
    } else {
      assert (a + b)[..|a + b| - 1] == a + b[..|b| - 1];
      assert (a + b)[|a + b| - 1] == b[|b| - 1];
      PlanCommandsConcat(a, b[..|b| - 1]);
    }
  }

  /**
   * A step panics exactly when it sends a command and the card refuses it;
   * Either way the step sends its command.
   */
  lemma PerformOutcome(card: seq<Event> -> Answer, events: seq<Event>, op: Op)
    ensures Commands(Perform(card, events, op)) == Commands(events) + OpCommands(op)
    ensures events <= Perform(card, events, op)
    ensures Halted(Perform(card, events, op)) <==>
      (op.Checked? && !card(events + [Sent(op.c)]).ok) ||
      (op.ReadDump? && !card(events + [Sent(ReadBlock(op.block))]).ok) ||
      (op.Say? && op.e.Panic?)
  {
    match op
    case Checked(c, f) =>
      var extra := if card(events + [Sent(c)]).ok then [Sent(c)] else [Sent(c), Panic(f)];
      assert Perform(card, events, op) == events + extra;
      Extend(events, extra);
      CommandsPair(Sent(c), Panic(f));
    case ReadDump(b) =>
      var a := card(events + [Sent(ReadBlock(b))]);
      var tail := if a.ok then Output(HexLine(a.data)) else Panic("Read failed");
      assert Perform(card, events, op) == events + [Sent(ReadBlock(b)), tail];
      Extend(events, [Sent(ReadBlock(b)), tail]);
      CommandsPair(Sent(ReadBlock(b)), tail);
    case Say(e) =>
      assert Perform(card, events, op) == events + [e];
      Extend(events, [e]);
      CommandsPair(e, e);
  }

  /** Appending events keeps the earlier ones and their commands; whether the result has halted depends on what was appended. */
  lemma Extend(events: seq<Event>, extra: seq<Event>)
    requires extra != []
    ensures events <= events + extra
    ensures Commands(events + extra) == Commands(events) + Commands(extra)
    ensures Halted(events + extra) <==> Halted(extra)
  {
    CommandsConcat(events, extra);
    assert (events + extra)[|events + extra| - 1] == extra[|extra| - 1];
  }

  /** The commands of one and of two events. */
  lemma CommandsPair(x: Event, y: Event)
    ensures Commands([x]) == if x.Sent? then [x.command] else []
    ensures Commands([x, y]) == Commands([x]) + (if y.Sent? then [y.command] else [])
  {
    assert [x][..0] == [];
    assert [x, y][..1] == [x];
  }

  /**
   * Running a list of steps sends a prefix of its planned commands, and all
   * of them unless it panicked on the way; the earlier events are kept.
   */
  lemma {:induction false} ExecCommands(card: seq<Event> -> Answer, events: seq<Event>, ops: seq<Op>)
    requires !Halted(events)
    ensures var r := Exec(card, events, ops);
      events <= r &&
      Commands(events) <= Commands(r) &&
      Commands(r)[|Commands(events)|..] <= PlanCommands(ops) &&
      (!Halted(r) ==> Commands(r) == Commands(events) + PlanCommands(ops))
  {
    if ops != [] {
      var init, last := ops[..|ops| - 1], ops[|ops| - 1];
      ExecCommands(card, events, init);
      var before := Exec(card, events, init);
      assert PlanCommands(ops) == PlanCommands(init) + OpCommands(last);
      if !Halted(before) {
        PerformOutcome(card, before, last);
        assert Commands(Exec(card, events, ops)) == Commands(events) + PlanCommands(ops);
      }
    }
  }

  /** `read_sector` authenticates once, for the sector's first block, then reads its four blocks upwards. */
  lemma ReadSectorCommands(uid: seq<Byte>, sector: U8, key: seq<Byte>)
    requires 4 * sector + 4 < U8_LIMIT
    ensures PlanCommands(ReadSectorOps(uid, sector, key)) ==
      [Authenticate(uid, 4 * sector, key),
       ReadBlock(4 * sector), ReadBlock(4 * sector + 1), ReadBlock(4 * sector + 2), ReadBlock(4 * sector + 3)]
  {
    var ops := ReadSectorOps(uid, sector, key);
    ReadSectorOpsAt(uid, sector, key);
    var b := 4 * sector;
    PlanCommandsSnoc(ops, 0);
    PlanCommandsSnoc(ops, 1);
    PlanCommandsSnoc(ops, 2);
    PlanCommandsSnoc(ops, 3);
    PlanCommandsSnoc(ops, 4);
    assert ops[..0] == [] && ops[..5] == ops;
    assert PlanCommands(ops[..1]) == [Authenticate(uid, b, key)];
    assert PlanCommands(ops[..2]) == [Authenticate(uid, b, key), ReadBlock(b)];
    assert PlanCommands(ops[..3]) == [Authenticate(uid, b, key), ReadBlock(b), ReadBlock(b + 1)];
  }

  lemma PlanCommandsSnoc(ops: seq<Op>, k: nat)
    requires k < |ops|
    ensures PlanCommands(ops[..k + 1]) == PlanCommands(ops[..k]) + OpCommands(ops[k])
  {
    assert ops[..k + 1][..k] == ops[..k];
  }

  /** `write_block` authenticates for the sector's first block, not the block it writes. */
  lemma WriteBlockCommands(uid: seq<Byte>, sector: U8, relBlock: U8, data: seq<Byte>, key: seq<Byte>)
    requires 4 * sector + relBlock < U8_LIMIT
    ensures PlanCommands(WriteBlockOps(uid, sector, relBlock, data, key)) ==
      [Authenticate(uid, 4 * sector, key), WriteBlock(4 * sector + relBlock, data)]
  {
    var ops := WriteBlockOps(uid, sector, relBlock, data, key);
    PlanCommandsSnoc(ops, 0);
    PlanCommandsSnoc(ops, 1);
    assert ops[..0] == [] && ops[..2] == ops;
  }

  /** The commands a card session plans: dump with the factory key, write the trailer, dump with the new key, halt. */
  function SessionPlan(uid: seq<Byte>): seq<Command> {
    [Authenticate(uid, 4, CurrentKey), ReadBlock(4), ReadBlock(5), ReadBlock(6), ReadBlock(7),
     Authenticate(uid, 4, CurrentKey), WriteBlock(7, Data),
     Authenticate(uid, 4, NewKey), ReadBlock(4), ReadBlock(5), ReadBlock(6), ReadBlock(7),
     Hlta, StopCrypto1]
  }

  lemma SessionCommands(uid: seq<Byte>)
    ensures PlanCommands(SessionOps(uid)) == SessionPlan(uid)
  {
    var r1 := ReadSectorOps(uid, TargetSector, CurrentKey);
    var w := WriteBlockOps(uid, TargetSector, RelBlock, Data, CurrentKey);
    var r2 := ReadSectorOps(uid, TargetSector, NewKey);
    ReadSectorCommands(uid, TargetSector, CurrentKey);
    WriteBlockCommands(uid, TargetSector, RelBlock, Data, CurrentKey);
    ReadSectorCommands(uid, TargetSector, NewKey);
    SayCommands(Log(BeforeWrite));
    SayCommands(Log(AfterWrite));
    FinishCommands();
    SessionPlanConcat([Say(Log(BeforeWrite))], r1, w, [Say(Log(AfterWrite))], r2, FinishOps);
  }

  lemma SayCommands(e: Event)
    requires !e.Sent?
    ensures PlanCommands([Say(e)]) == []
  {
    assert [Say(e)][..0] == [];
  }

  lemma FinishCommands()
    ensures PlanCommands(FinishOps) == [Hlta, StopCrypto1]
  {
    PlanCommandsSnoc(FinishOps, 0);
    PlanCommandsSnoc(FinishOps, 1);
    assert FinishOps[..0] == [] && FinishOps[..2] == FinishOps;
  }

  lemma SessionPlanConcat(a: seq<Op>, b: seq<Op>, c: seq<Op>, d: seq<Op>, e: seq<Op>, f: seq<Op>)
    ensures PlanCommands(a + b + c + d + e + f) ==
      PlanCommands(a) + PlanCommands(b) + PlanCommands(c) + PlanCommands(d) + PlanCommands(e) + PlanCommands(f)
  {
    PlanCommandsConcat(a, b);
    PlanCommandsConcat(a + b, c);
    PlanCommandsConcat(a + b + c, d);
    PlanCommandsConcat(a + b + c + d, e);
    PlanCommandsConcat(a + b + c + d + e, f);
  }

  /** The events a turn adds once the card has answered REQA with `atqa`. */
  function Selecting(events: seq<Event>, atqa: seq<Byte>): seq<Event> {
    events + [Sent(Reqa)] + [Log("Got atqa"), WaitMs(50), Sent(Select(atqa))]
  }

  lemma SelectingCommands(events: seq<Event>, atqa: seq<Byte>)
    ensures Commands(Selecting(events, atqa)) == Commands(events) + [Reqa, Select(atqa)]
    ensures !Halted(Selecting(events, atqa))
  {
    var extra := [Sent(Reqa), Log("Got atqa"), WaitMs(50), Sent(Select(atqa))];
    assert Selecting(events, atqa) == events + extra;
    CommandsConcat(events, extra);
    CommandsConcat([Sent(Reqa)], [Log("Got atqa")]);
    CommandsConcat([Sent(Reqa), Log("Got atqa")], [WaitMs(50)]);
    CommandsConcat([Sent(Reqa), Log("Got atqa"), WaitMs(50)], [Sent(Select(atqa))]);
    assert [Sent(Reqa)][..0] == [] && [Log("Got atqa")][..0] == [];
    assert [WaitMs(50)][..0] == [] && [Sent(Select(atqa))][..0] == [];
    assert [Sent(Reqa)] + [Log("Got atqa")] == [Sent(Reqa), Log("Got atqa")];
    assert [Sent(Reqa), Log("Got atqa")] + [WaitMs(50)] == [Sent(Reqa), Log("Got atqa"), WaitMs(50)];
    assert [Sent(Reqa), Log("Got atqa"), WaitMs(50)] + [Sent(Select(atqa))] == extra;
  }

  /**
   * A turn sends REQA; when the card answers it waits 50 ms and selects the
   * card; when that answers too, it sends a prefix of the session plan for
   * the UID the card gave, the whole plan unless a command was refused.
   */
  lemma TurnCommands(card: seq<Event> -> Answer, events: seq<Event>)
    requires !Halted(events)
    ensures var atqa := card(events + [Sent(Reqa)]);
      !atqa.ok ==> Commands(TurnLog(card, events)) == Commands(events) + [Reqa]
    ensures var atqa := card(events + [Sent(Reqa)]);
      var uid := card(Selecting(events, atqa.data));
      atqa.ok && !uid.ok ==> Commands(TurnLog(card, events)) == Commands(events) + [Reqa, Select(atqa.data)]
    ensures var atqa := card(events + [Sent(Reqa)]);
      var uid := card(Selecting(events, atqa.data));
      var head := Commands(events) + [Reqa, Select(atqa.data)];
      var r := Commands(TurnLog(card, events));
      atqa.ok && uid.ok ==>
        head <= r && r[|head|..] <= SessionPlan(uid.data) &&
        (!Halted(TurnLog(card, events)) ==> r == head + SessionPlan(uid.data))
  {
    var asked := events + [Sent(Reqa)];
    var atqa := card(asked);
    if !atqa.ok {
      CommandsConcat(events, [Sent(Reqa)]);
      assert [Sent(Reqa)][..0] == [];
    } else {
      var selecting := Selecting(events, atqa.data);
      assert selecting == asked + [Log("Got atqa"), WaitMs(50), Sent(Select(atqa.data))];
      SelectingCommands(events, atqa.data);
      var uid := card(selecting);
      if uid.ok {
        assert TurnLog(card, events) == Exec(card, selecting, SessionOps(uid.data));
        ExecCommands(card, selecting, SessionOps(uid.data));
        SessionCommands(uid.data);
      }
    }
  }
}
