/**
 * The RFID UID example: the loop asks for a card with REQA, waits 50 ms,
 * selects it and prints its UID in hex, then waits 500 ms. A failed REQA or
 * select is retried silently on the next turn.
 */
module RfidUid {
  import opened Ints
  import opened HexDump

  /** What the reader answers in one turn of the loop. */
  datatype Poll =
    | NoCard                       // `reqa` failed
    | AtqaOnly                     // `reqa` answered, `select` failed
    | Selected(uid: seq<Byte>)     // both answered; the card's UID bytes

  const AtqaMessage: string := "Answer To reQuest code A"

  datatype Event =
    | Log(message: string)   // a `println!` line
    | Output(text: string)   // what `print_hex_bytes` wrote
    | WaitMs(ms: nat)

  /**
   * The events of one turn. A turn without a card does nothing; an answered
   * REQA is logged and followed by the 50 ms wait; only a selected card's UID
   * is printed, as its hex line, and then the loop waits 500 ms.
   */
  function TurnEvents(p: Poll): (ev: seq<Event>)
    ensures ev == [] <==> p == NoCard
    ensures p != NoCard ==> |ev| >= 2 && ev[..2] == [Log(AtqaMessage), WaitMs(50)]
    ensures forall i | 0 <= i < |ev| && ev[i].Output? :: p.Selected? && ev[i].text == HexLine(p.uid)
    ensures p.Selected? ==> Output(HexLine(p.uid)) in ev && ev[|ev| - 1] == WaitMs(500)
  {
    match p
    case NoCard => []
    case AtqaOnly => [Log(AtqaMessage), WaitMs(50)]
    case Selected(uid) => [Log(AtqaMessage), WaitMs(50), Output(HexLine(uid)), WaitMs(500)]
  }

  function PollEvents(polls: seq<Poll>): (ev: seq<Event>)
    ensures ev == [] <==> CountAnswered(polls) == 0
  {
    if polls == [] then []
    else PollEvents(polls[..|polls| - 1]) + TurnEvents(polls[|polls| - 1])
  }

  /** The main loop, one turn per poll. */
  method MainLoop(polls: seq<Poll>) returns (log: seq<Event>)
    ensures log == PollEvents(polls)
  {
    log := [];
    for i := 0 to |polls|
      invariant log == PollEvents(polls[..i])
    {
      assert polls[..i + 1][..i] == polls[..i];
      var turn := Turn(polls[i]);
      log := log + turn;
    }
    assert polls[..|polls|] == polls;
  }

  /** One turn of the main loop. */
  method Turn(p: Poll) returns (ev: seq<Event>)
    ensures ev == TurnEvents(p)
  {
    ev := [];
    if p != NoCard {
      ev := ev + [Log("Answer To reQuest code A")];
      ev := ev + [WaitMs(50)];
      if p.Selected? {
        var text := PrintHexBytes(p.uid);
        ev := ev + [Output(text)];
        ev := ev + [WaitMs(500)];
      }
    }
  }

  /** The texts `print_hex_bytes` wrote, in order. */
  function Printed(log: seq<Event>): seq<string> {
    if log == [] then []
    else Printed(log[..|log| - 1]) + (if log[|log| - 1].Output? then [log[|log| - 1].text] else [])
  }

  /** The UIDs of the turns where both `reqa` and `select` answered, in order. */
  function SelectedUids(polls: seq<Poll>): seq<seq<Byte>> {
    if polls == [] then []
    else
      var last := polls[|polls| - 1];
      SelectedUids(polls[..|polls| - 1]) + (if last.Selected? then [last.uid] else [])
  }

  /** Time spent in `Timer::after`. */
  function Waited(log: seq<Event>): nat {
    if log == [] then 0
    else Waited(log[..|log| - 1]) + (if log[|log| - 1].WaitMs? then log[|log| - 1].ms else 0)
  }

  function CountAnswered(polls: seq<Poll>): nat {
    if polls == [] then 0
    else CountAnswered(polls[..|polls| - 1]) + (if polls[|polls| - 1] != NoCard then 1 else 0)
  }

  lemma {:induction false} LogConcat(a: seq<Event>, b: seq<Event>)
    ensures Printed(a + b) == Printed(a) + Printed(b)
    ensures Waited(a + b) == Waited(a) + Waited(b)
    decreases |b|
  {
    if b == [] {
      assert a + b == a;
    } else {
      assert (a + b)[..|a + b| - 1] == a + b[..|b| - 1];
      assert (a + b)[|a + b| - 1] == b[|b| - 1];
      LogConcat(a, b[..|b| - 1]);
    }
  }

  lemma TurnShape(p: Poll)
    ensures Printed(TurnEvents(p)) == if p.Selected? then [HexLine(p.uid)] else []
    ensures Waited(TurnEvents(p)) == (if p != NoCard then 50 else 0) + (if p.Selected? then 500 else 0)
  {
    var ev := TurnEvents(p);
    if p != NoCard {
      LogConcat([ev[0]], [ev[1]]);
      assert ev[..2] == [ev[0]] + [ev[1]];
      assert [ev[0]][..0] == [];
      if p.Selected? {
        LogConcat(ev[..2], [ev[2]]);
        LogConcat(ev[..2] + [ev[2]], [ev[3]]);
        assert ev == ev[..2] + [ev[2]] + [ev[3]];
      } else {
        assert ev == ev[..2];
      }
    }
  }

  /**
   * Exactly the selected cards' UIDs are printed, in order, each as one hex
   * line; every answered REQA costs 50 ms and every printed UID another
   * 500 ms.
   */
  lemma {:induction false} UidsPrinted(polls: seq<Poll>)
    ensures var uids := SelectedUids(polls);
      var out := Printed(PollEvents(polls));
      |out| == |uids| && forall i | 0 <= i < |uids| :: out[i] == HexLine(uids[i])
    ensures Waited(PollEvents(polls)) == 50 * CountAnswered(polls) + 500 * |SelectedUids(polls)|
  {
    if polls != [] {
      var init, last := polls[..|polls| - 1], polls[|polls| - 1];
      UidsPrinted(init);
      LogConcat(PollEvents(init), TurnEvents(last));
      TurnShape(last);
      assert PollEvents(polls) == PollEvents(init) + TurnEvents(last);
      assert SelectedUids(polls) == SelectedUids(init) + (if last.Selected? then [last.uid] else []);
      assert Printed(PollEvents(polls)) == Printed(PollEvents(init)) + Printed(TurnEvents(last));
    }
  }

  /** A turn whose REQA goes unanswered does nothing: no message, no wait. */
  lemma NoCardIsSilent(polls: seq<Poll>)
    ensures PollEvents(polls + [NoCard]) == PollEvents(polls)
  {
    assert (polls + [NoCard])[..|polls|] == polls;
    assert PollEvents(polls) + [] == PollEvents(polls);
  }
}
