/**
 * `print_hex_bytes`, which both RFID examples use: each byte as two
 * lowercase, zero-padded hex digits followed by a space, then the end of the
 * line.
 */
module HexDump {
  import opened Ints
  import opened Text

  /** What `print!("{:02x} ", b)` writes for one byte. */
  function Group(b: Byte): (g: string)
    ensures |g| == 3 && g[..2] == Hex2(b) && g[2] == ' '
  {
    Hex2(b) + " "
  }

  /** The groups of all bytes, in input order: three characters per byte, none a line end. */
  function HexGroups(data: seq<Byte>): (s: string)
    ensures |s| == 3 * |data|
    ensures forall i | 0 <= i < |s| :: s[i] != '\n'
  {
    if data == [] then ""
    else HexGroups(data[..|data| - 1]) + Group(data[|data| - 1])
  }

  /**
   * The whole output of one call: the groups, then the line end of the
   * closing `println!("")`. The line end is its only one; with no bytes it
   * is all there is.
   */
  function HexLine(data: seq<Byte>): (line: string)
    ensures |line| == 3 * |data| + 1 && line[3 * |data|] == '\n'
    ensures forall i | 0 <= i < 3 * |data| :: line[i] != '\n'
    ensures data == [] ==> line == "\n"
  {
    HexGroups(data) + "\n"
  }

  method PrintHexBytes(data: seq<Byte>) returns (out: string)
    ensures out == HexLine(data)
  {
    out := "";
    for i := 0 to |data|
      invariant out == HexGroups(data[..i])
    {
      assert data[..i + 1][..i] == data[..i];
      var b := data[i];
      out := out + [HexDigit(b / 16), HexDigit(b % 16)] + " ";
    }
    assert data[..|data|] == data;
    out := out + "\n";
  }

  /** The group of byte `i` sits at positions `3i` to `3i + 2`. */
  lemma {:induction false} GroupAt(data: seq<Byte>, i: nat)
    requires i < |data|
    ensures 3 * i + 3 <= |HexGroups(data)|
    ensures HexGroups(data)[3 * i..3 * i + 3] == Group(data[i])
  {
    var init := data[..|data| - 1];
    var s := HexGroups(data);
    var n := 3 * |init|;
    assert s == HexGroups(init) + Group(data[|data| - 1]);
    if i < |init| {
      GroupAt(init, i);
      assert s[3 * i..3 * i + 3] == HexGroups(init)[3 * i..3 * i + 3];
    } else {
      assert s[n..] == Group(data[|data| - 1]);
    }
  }

  /** The byte a group denotes: its first two characters read as hex. */
  function DecodeGroup(g: string): Byte
    requires |g| >= 2
  {
    16 * HexValue(g[0]) + HexValue(g[1])
  }

  /** Reads a run of three-character groups back into bytes. */
  function ParseGroups(s: string): seq<Byte> {
    if |s| < 3 then []
    else ParseGroups(s[..|s| - 3]) + [DecodeGroup(s[|s| - 3..])]
  }

  lemma ParseAppendGroup(t: string, g: string)
    requires |g| == 3
    ensures ParseGroups(t + g) == ParseGroups(t) + [DecodeGroup(g)]
  {
    var s := t + g;
    assert s[..|s| - 3] == t;
    assert s[|s| - 3..] == g;
  }

  lemma DecodeGroupOf(b: Byte)
    ensures DecodeGroup(Group(b)) == b
  {
    Hex2RoundTrip(b);
    assert Group(b)[0] == Hex2(b)[0] && Group(b)[1] == Hex2(b)[1];
  }

  /** Decoding the groups recovers the bytes, in order. */
  lemma {:induction false} HexGroupsRoundTrip(data: seq<Byte>)
    ensures ParseGroups(HexGroups(data)) == data
  {
    if data != [] {
      var init, last := data[..|data| - 1], data[|data| - 1];
      HexGroupsRoundTrip(init);
      AppendGroupRoundTrip(init, last);
      assert init + [last] == data;
    }
  }

  lemma AppendGroupRoundTrip(init: seq<Byte>, last: Byte)
    requires ParseGroups(HexGroups(init)) == init
    ensures ParseGroups(HexGroups(init + [last])) == init + [last]
  {
    assert (init + [last])[..|init|] == init;
    ParseAppendGroup(HexGroups(init), Group(last));
    DecodeGroupOf(last);
  }

  /** Different byte strings give different lines. */
  lemma HexLineInjective(a: seq<Byte>, b: seq<Byte>)
    requires HexLine(a) == HexLine(b)
    ensures a == b
  {
    assert HexGroups(a) == HexLine(a)[..|HexLine(a)| - 1];
    assert HexGroups(b) == HexLine(b)[..|HexLine(b)| - 1];
    HexGroupsRoundTrip(a);
    HexGroupsRoundTrip(b);
  }
}
