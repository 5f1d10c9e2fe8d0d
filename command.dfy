/**
 * The serial command channel of UART_ReceiveThread: a byte-at-a-time line
 * accumulator over a 64-byte buffer, and the interpreter that a completed
 * line drives (`CMD:` prefix, then six independent token tests, each setting
 * or clearing one actuator line). The buffer is read as a C string, so a
 * received NUL byte ends the effective line.
 */
module CommandChannel {
  import opened Board

  const BUFFER_SIZE := 64
  /** A line is forced to end once 63 bytes are stored (the 64th slot holds the NUL). */
  const MAX_LINE := 63
  const NEWLINE: byte := 10
  const NUL: byte := 0

  const COMMAND_PREFIX := "CMD:"

  /** The C string held in `bs`: everything before the first NUL byte. */
  function CString(bs: seq<byte>): (r: seq<byte>)
    ensures |r| <= |bs| && r == bs[..|r|]
    ensures NUL !in r
    ensures |r| < |bs| ==> bs[|r|] == NUL
  {
    if bs == [] || bs[0] == NUL then [] else [bs[0]] + CString(bs[1..])
  }

  /** A NUL at `k` hides everything from `k` on. */
  lemma {:induction false} CStringStopsAtNul(bs: seq<byte>, k: nat)
    requires k < |bs| && bs[k] == NUL
    ensures CString(bs) == CString(bs[..k])
  {
    if k > 0 && bs[0] != NUL {
      assert bs[..k][0] == bs[0];
      assert bs[..k][1..] == bs[1..][..k - 1];
      CStringStopsAtNul(bs[1..], k - 1);
    }
  }

  /** The bytes of a line read as characters. */
  function Text(bs: seq<byte>): (s: string)
    ensures |s| == |bs|
    ensures forall i :: 0 <= i < |bs| ==> s[i] as int == bs[i] as int
  {
    seq(|bs|, i requires 0 <= i < |bs| => bs[i] as int as char)
  }

  /** The bytes of an 8-bit string. */
  function Ascii(s: string): (bs: seq<byte>)
    requires forall i :: 0 <= i < |s| ==> s[i] as int < 256
    ensures Text(bs) == s
  {
    seq(|s|, i requires 0 <= i < |s| => s[i] as int as byte)
  }

  predicate StartsWith(s: string, p: string) {
    |p| <= |s| && s[..|p|] == p
  }

  /** strstr(s, t) != NULL. */
  predicate Contains(s: string, t: string)
    decreases |s|
  {
    |t| <= |s| && (StartsWith(s, t) || Contains(s[1..], t))
  }

  function OnToken(a: Actuator): string {
    match a
    case Heater => "HEATER:ON"
    case Sprinkler => "SPRINKLER:ON"
    case Light => "LIGHT:ON"
  }

  function OffToken(a: Actuator): string {
    match a
    case Heater => "HEATER:OFF"
    case Sprinkler => "SPRINKLER:OFF"
    case Light => "LIGHT:OFF"
  }

  /**
   * The level one actuator has after the line `text` is interpreted: a
   * command line that holds the OFF token clears it (the OFF test runs after
   * the ON test), one that holds only the ON token sets it, anything else
   * keeps it.
   */
  function Resolve(text: string, a: Actuator, current: bool): bool {
    if !StartsWith(text, COMMAND_PREFIX) then current
    else if Contains(text, OffToken(a)) then false
    else if Contains(text, OnToken(a)) then true
    else current
  }

  /** The outputs after the line `text` is interpreted. */
  function InterpretText(text: string, o: Outputs): (r: Outputs)
    ensures forall a :: r.Get(a) == Resolve(text, a, o.Get(a))
  {
    Outputs(Resolve(text, Heater, o.heater), Resolve(text, Sprinkler, o.sprinkler), Resolve(text, Light, o.light))
  }

  /** strncmp(buffer, "CMD:", 4) == 0 for the line in the buffer. */
  predicate IsCommand(line: seq<byte>) {
    StartsWith(Text(CString(line)), COMMAND_PREFIX)
  }

  /** The outputs after a completed line: the line is read as a C string. */
  function Interpret(line: seq<byte>, o: Outputs): Outputs {
    InterpretText(Text(CString(line)), o)
  }

  /** A line without the `CMD:` prefix leaves every output as it was. */
  lemma NonCommandChangesNothing(line: seq<byte>, o: Outputs)
    requires !IsCommand(line)
    ensures Interpret(line, o) == o
  {
  }

  /**
   * On a `CMD:` line an actuator's OFF token wins over its ON token, its ON
   * token alone switches it on, and without either token it keeps its level.
   */
  lemma CommandTokenPrecedence(line: seq<byte>, o: Outputs, a: Actuator)
    requires IsCommand(line)
    ensures Contains(Text(CString(line)), OffToken(a)) ==> !Interpret(line, o).Get(a)
    ensures Contains(Text(CString(line)), OnToken(a)) && !Contains(Text(CString(line)), OffToken(a))
      ==> Interpret(line, o).Get(a)
    ensures !Contains(Text(CString(line)), OnToken(a)) && !Contains(Text(CString(line)), OffToken(a))
      ==> Interpret(line, o).Get(a) == o.Get(a)
  {
  }

  /** Bytes after a received NUL take no part in the command. */
  lemma InterpretStopsAtNul(line: seq<byte>, k: nat, o: Outputs)
    requires k < |line| && line[k] == NUL
    ensures Interpret(line, o) == Interpret(line[..k], o)
  {
    CStringStopsAtNul(line, k);
  }

  /** The accumulator state: the bytes stored since the last line ended, and the outputs. */
  datatype Channel = Channel(pending: seq<byte>, outputs: Outputs)

  /**
   * One received byte: a newline, or any byte once 63 are stored, ends the
   * line (and is not stored); the line is interpreted and the index reset.
   * Any other byte is appended.
   */
  function Feed(ch: Channel, c: byte): (r: Channel)
    ensures |ch.pending| <= MAX_LINE ==> |r.pending| <= MAX_LINE
    ensures r.pending == [] || r.outputs == ch.outputs
  {
    if c == NEWLINE || |ch.pending| >= MAX_LINE then Channel([], Interpret(ch.pending, ch.outputs))
    else Channel(ch.pending + [c], ch.outputs)
  }

  /** The bytes received in order. */
  function FeedAll(ch: Channel, bytes: seq<byte>): Channel
    decreases |bytes|
  {
    if bytes == [] then ch else Feed(FeedAll(ch, bytes[..|bytes| - 1]), bytes[|bytes| - 1])
  }

  /** The stored line never exceeds 63 bytes, whatever arrives. */
  lemma {:induction false} FeedAllKeepsBound(ch: Channel, bytes: seq<byte>)
    requires |ch.pending| <= MAX_LINE
    ensures |FeedAll(ch, bytes).pending| <= MAX_LINE
  {
    if bytes != [] {
      FeedAllKeepsBound(ch, bytes[..|bytes| - 1]);
    }
  }

  /** A byte that does not end the line is appended and changes no output. */
  lemma FeedAppends(ch: Channel, c: byte)
    requires c != NEWLINE && |ch.pending| < MAX_LINE
    ensures Feed(ch, c) == Channel(ch.pending + [c], ch.outputs)
  {
  }

  /** Bytes that do not end a line are stored in order and change no output. */
  lemma {:induction false} FeedAllAccumulates(o: Outputs, bytes: seq<byte>)
    requires |bytes| <= MAX_LINE
    requires NEWLINE !in bytes
    ensures FeedAll(Channel([], o), bytes) == Channel(bytes, o)
    decreases |bytes|
  {
    if bytes != [] {
      var front, last := bytes[..|bytes| - 1], bytes[|bytes| - 1];
      assert bytes == front + [last];
      assert NEWLINE !in front && last != NEWLINE;
      FeedAllAccumulates(o, front);
      FeedAppends(Channel(front, o), last);
    }
  }


  /** After 63 stored bytes the 64th byte, whatever it is, ends the line and is dropped. */
  lemma OverlongLineTruncated(o: Outputs, bytes: seq<byte>, c: byte)
    requires |bytes| == MAX_LINE && NEWLINE !in bytes
    ensures FeedAll(Channel([], o), bytes + [c]) == Channel([], Interpret(bytes, o))
  {
    assert (bytes + [c])[..|bytes|] == bytes;
    FeedAllAccumulates(o, bytes);
  }

  /** A newline-terminated line of at most 63 bytes is interpreted whole and the index is back at 0. */
  lemma LineThenNewline(o: Outputs, bytes: seq<byte>)
    requires |bytes| <= MAX_LINE && NEWLINE !in bytes
    ensures FeedAll(Channel([], o), bytes + [NEWLINE]) == Channel([], Interpret(bytes, o))
  {
    assert (bytes + [NEWLINE])[..|bytes|] == bytes;
    FeedAllAccumulates(o, bytes);
  }

  /** A line without NUL bytes is its own C string. */
  lemma {:induction false} CStringWithoutNul(bs: seq<byte>)
    requires forall i :: 0 <= i < |bs| ==> bs[i] != NUL
    ensures CString(bs) == bs
  {
    if bs != [] {
      CStringWithoutNul(bs[1..]);
    }
  }

  /** A token with a character the line lacks is not in the line. */
  lemma {:induction false} MissingCharNotContained(s: string, t: string, c: char)
    requires c in t && c !in s
    ensures !Contains(s, t)
    decreases |s|
  {
    if |t| <= |s| {
      if |s| > 0 {
        assert forall i :: 0 <= i < |s[1..]| ==> s[1..][i] == s[i + 1];
        MissingCharNotContained(s[1..], t, c);
      }
    }
  }

  /** The outputs a plain 8-bit line without NUL bytes drives. */
  lemma InterpretAscii(text: string, o: Outputs)
    requires forall i :: 0 <= i < |text| ==> 0 < text[i] as int < 256
    ensures Interpret(Ascii(text), o) == InterpretText(text, o)
  {
    CStringWithoutNul(Ascii(text));
  }

  lemma LightOnText(o: Outputs)
    ensures InterpretText("CMD:LIGHT:ON", o) == o.(light := true)
  {
    var line := "CMD:LIGHT:ON";
    assert StartsWith(line, COMMAND_PREFIX);
    assert Contains(line, "LIGHT:ON") by {
      assert StartsWith(line[4..], "LIGHT:ON");
      assert line[1..][1..][1..][1..] == line[4..];
    }
    MissingCharNotContained(line, "LIGHT:OFF", 'F');
    MissingCharNotContained(line, "HEATER:ON", 'E');
    MissingCharNotContained(line, "HEATER:OFF", 'E');
    MissingCharNotContained(line, "SPRINKLER:ON", 'E');
    MissingCharNotContained(line, "SPRINKLER:OFF", 'E');
    assert Resolve(line, Heater, o.heater) == o.heater;
    assert Resolve(line, Sprinkler, o.sprinkler) == o.sprinkler;
    assert Resolve(line, Light, o.light);
  }

  lemma LightOffText(o: Outputs)
    ensures InterpretText("CMD:LIGHT:OFF", o) == o.(light := false)
  {
    var line := "CMD:LIGHT:OFF";
    assert StartsWith(line, COMMAND_PREFIX);
    assert Contains(line, "LIGHT:OFF") by {
      assert StartsWith(line[4..], "LIGHT:OFF");
      assert line[1..][1..][1..][1..] == line[4..];
    }
    MissingCharNotContained(line, "HEATER:ON", 'E');
    MissingCharNotContained(line, "HEATER:OFF", 'E');
    MissingCharNotContained(line, "SPRINKLER:ON", 'E');
    MissingCharNotContained(line, "SPRINKLER:OFF", 'E');
    assert Resolve(line, Heater, o.heater) == o.heater;
    assert Resolve(line, Sprinkler, o.sprinkler) == o.sprinkler;
    assert !Resolve(line, Light, o.light);
  }

  /** A line of plain 8-bit characters, received byte by byte and ended by a newline. */
  lemma FeedTextLine(text: string, o: Outputs)
    requires |text| <= MAX_LINE
    requires forall i :: 0 <= i < |text| ==> 0 < text[i] as int < 256 && text[i] != '\n'
    ensures FeedAll(Channel([], o), Ascii(text) + [NEWLINE]) == Channel([], InterpretText(text, o))
  {
    var bytes := Ascii(text);
    assert forall i :: 0 <= i < |bytes| ==> bytes[i] as int == text[i] as int;
    InterpretAscii(text, o);
    LineThenNewline(o, bytes);
  }

  /** Received byte by byte, `CMD:LIGHT:ON\n` switches the light on and nothing else. */
  lemma LightOnScenario(o: Outputs)
    ensures FeedAll(Channel([], o), Ascii("CMD:LIGHT:ON") + [NEWLINE]) == Channel([], o.(light := true))
  {
    FeedTextLine("CMD:LIGHT:ON", o);
    LightOnText(o);
  }

  /** Received byte by byte, `CMD:LIGHT:OFF\n` switches the light off and nothing else. */
  lemma LightOffScenario(o: Outputs)
    ensures FeedAll(Channel([], o), Ascii("CMD:LIGHT:OFF") + [NEWLINE]) == Channel([], o.(light := false))
  {
    FeedTextLine("CMD:LIGHT:OFF", o);
    LightOffText(o);
  }

  /** Received byte by byte, `HELLO\n` changes nothing. */
  lemma HelloScenario(o: Outputs)
    ensures FeedAll(Channel([], o), Ascii("HELLO") + [NEWLINE]) == Channel([], o)
  {
    FeedTextLine("HELLO", o);
  }

  /**
   * UART_ReceiveThread's receive path: the 64-byte buffer and its index.
   * The outputs it sets and clears belong to the OutputPort passed in.
   */
  class LineReceiver {
    const buffer: array<byte>
    var idx: int

    ghost predicate Valid()
      reads this
    {
      buffer.Length == BUFFER_SIZE && 0 <= idx <= MAX_LINE
    }

    /** The bytes stored since the last line ended. */
    ghost function Pending(): seq<byte>
      reads this, buffer
      requires Valid()
    {
      buffer[..idx]
    }

    constructor ()
      ensures Valid() && fresh(buffer) && Pending() == []
    {
      buffer := new byte[BUFFER_SIZE];
      idx := 0;
    }

    /** The six token tests on a completed line, in the order the receive thread runs them. */
    static method Execute(text: string, port: OutputPort)
      modifies port
      ensures port.State() == InterpretText(text, old(port.State()))
    {
      if StartsWith(text, COMMAND_PREFIX) {
        if Contains(text, "HEATER:ON") { port.Drive(Heater, true); }
        if Contains(text, "HEATER:OFF") { port.Drive(Heater, false); }
        if Contains(text, "LIGHT:ON") { port.Drive(Light, true); }
        if Contains(text, "LIGHT:OFF") { port.Drive(Light, false); }
        if Contains(text, "SPRINKLER:ON") { port.Drive(Sprinkler, true); }
        if Contains(text, "SPRINKLER:OFF") { port.Drive(Sprinkler, false); }
      }
      OutputsExtensional(port.State(), InterpretText(text, old(port.State())));
    }

    /** One byte read from the receive register. */
    method Receive(c: byte, port: OutputPort)
      requires Valid()
      modifies this, buffer, port
      ensures Valid()
      ensures Channel(Pending(), port.State()) == Feed(old(Channel(Pending(), port.State())), c)
    {
      if c == NEWLINE || idx >= MAX_LINE {
        ghost var line := buffer[..idx];
        buffer[idx] := NUL;
        CStringStopsAtNul(buffer[..], idx);
        assert buffer[..][..idx] == line;
        idx := 0;
        Execute(Text(CString(buffer[..])), port);
      } else {
        buffer[idx] := c;
        idx := idx + 1;
      }
    }

    /** The receive loop over the bytes that arrive, in order. */
    method ReceiveAll(bytes: seq<byte>, port: OutputPort)
      requires Valid()
      modifies this, buffer, port
      ensures Valid()
      ensures Channel(Pending(), port.State()) == FeedAll(old(Channel(Pending(), port.State())), bytes)
    {
      var i := 0;
      while i < |bytes|
        invariant 0 <= i <= |bytes|
        invariant Valid()
        invariant Channel(Pending(), port.State()) == FeedAll(old(Channel(Pending(), port.State())), bytes[..i])
      {
        Receive(bytes[i], port);
        assert bytes[..i + 1][..i] == bytes[..i];
        i := i + 1;
      }
      assert bytes[..i] == bytes;
    }
  }
}
