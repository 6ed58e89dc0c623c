/**
 * Command lines: the encoder of the PC side (protocol.py) against the line assembly and splitting of the firmware
 * (serial_proto.c). Characters stand for bytes on the wire, that is, for text already encoded in UTF-8.
 */
module SerialLines {
  import opened Wrappers
  import opened CStrings

  const SERIAL_LINE_MAX: nat := 2048

  datatype CommandId =
    | Unknown | Ping | GetConfig | SetConfig | SetupPin | Clear | Unlock | Hello | Type | Press
    | GetLog | Flash | Status | BootOk

  /** `parse_command` */
  function ParseCommand(cmd: string): CommandId {
    if cmd == "PING" then Ping
    else if cmd == "GET_CONFIG" then GetConfig
    else if cmd == "SET_CONFIG" then SetConfig
    else if cmd == "SETUP_PIN" then SetupPin
    else if cmd == "CLEAR" then Clear
    else if cmd == "UNLOCK" then Unlock
    else if cmd == "HELLO" then Hello
    else if cmd == "TYPE" then Type
    else if cmd == "PRESS" then Press
    else if cmd == "GET_LOG" then GetLog
    else if cmd == "FLASH" then Flash
    else if cmd == "STATUS" then Status
    else if cmd == "BOOT_OK" then BootOk
    else Unknown
  }

  /** The command names. */
  function NameOf(id: CommandId): string {
    match id
    case Unknown => ""
    case Ping => "PING"
    case GetConfig => "GET_CONFIG"
    case SetConfig => "SET_CONFIG"
    case SetupPin => "SETUP_PIN"
    case Clear => "CLEAR"
    case Unlock => "UNLOCK"
    case Hello => "HELLO"
    case Type => "TYPE"
    case Press => "PRESS"
    case GetLog => "GET_LOG"
    case Flash => "FLASH"
    case Status => "STATUS"
    case BootOk => "BOOT_OK"
  }

  /** A name is known exactly as what the table calls it. */
  lemma ParseCommandInverts(cmd: string, id: CommandId)
    ensures id != Unknown ==> (ParseCommand(cmd) == id <==> cmd == NameOf(id))
  {}

  /** The eleven commands the PC side sends. */
  const PC_COMMANDS: seq<string> :=
    ["PING", "GET_CONFIG", "SET_CONFIG", "SETUP_PIN", "CLEAR", "UNLOCK", "HELLO", "GET_LOG", "FLASH", "STATUS", "PRESS"]

  /** Every one of them is known to the firmware, and they are told apart. */
  lemma PcCommandsAreKnown(i: nat, j: nat)
    requires i < |PC_COMMANDS| && j < |PC_COMMANDS|
    ensures ParseCommand(PC_COMMANDS[i]) != Unknown
    ensures ParseCommand(PC_COMMANDS[i]) == ParseCommand(PC_COMMANDS[j]) ==> PC_COMMANDS[i] == PC_COMMANDS[j]
  {}

  datatype Command = Command(name: string, payload: Option<string>)

  /** `encode_command` */
  function Line(c: Command): string {
    match c.payload
    case None => c.name
    case Some(p) => c.name + ":" + p
  }

  function Encode(c: Command): string {
    Line(c) + "\n"
  }

  function EncodeAll(cs: seq<Command>): string {
    if cs == [] then "" else Encode(cs[0]) + EncodeAll(cs[1..])
  }

  // ----- Splitting a line

  function IndexOf(s: string, c: char): (i: nat)
    ensures i <= |s| && c !in s[..i] && (i < |s| ==> s[i] == c)
  {
    if s == "" || s[0] == c then 0 else 1 + IndexOf(s[1..], c)
  }

  /** `split_command`: name before the first colon, payload after it if there is one. */
  function Split(line: string): Command {
    var s := CStr(line);
    var i := IndexOf(s, ':');
    Command(s[..i], if i < |s| then Some(s[i + 1..]) else None)
  }

  // ----- Line assembly

  datatype Event = Dispatched(command: Command) | TooLong

  datatype Reading = Reading(events: seq<Event>, rest: string)

  predicate EndsLine(c: char) {
    c == '\n' || c == '\r'
  }

  function Prepend(e: Event, r: Reading): Reading {
    Reading([e] + r.events, r.rest)
  }

  /** What a stream of bytes does to a line buffer that holds `buf`. */
  function Assemble(buf: string, stream: string): Reading
    decreases |stream|
  {
    if stream == "" then Reading([], buf)
    else if EndsLine(stream[0]) then
      if buf == "" then Assemble("", stream[1..]) else Prepend(Dispatched(Split(buf)), Assemble("", stream[1..]))
    else if |buf| < SERIAL_LINE_MAX - 1 then Assemble(buf + [stream[0]], stream[1..])
    else Prepend(TooLong, Assemble("", stream[1..]))
  }

  /** Cutting the stream into reads makes no difference. */
  lemma {:induction false} AssembleInParts(buf: string, s: string, t: string)
    ensures var r := Assemble(buf, s);
      Assemble(buf, s + t) == Reading(r.events + Assemble(r.rest, t).events, Assemble(r.rest, t).rest)
    decreases |s|
  {
    if s == "" {
      assert s + t == t;
      assert [] + Assemble(buf, t).events == Assemble(buf, t).events;
    } else {
      assert (s + t)[1..] == s[1..] + t;
      if EndsLine(s[0]) {
        AssembleInParts("", s[1..], t);
      } else if |buf| < SERIAL_LINE_MAX - 1 {
        AssembleInParts(buf + [s[0]], s[1..], t);
      } else {
        AssembleInParts("", s[1..], t);
      }
    }
  }

  /** A line of 2048 bytes or more: the 2048th discards what has been collected and reports it, and reading goes on. */
  lemma OverlongIsDiscarded(line: string, rest: string)
    requires |line| == SERIAL_LINE_MAX && forall i :: 0 <= i < |line| ==> !EndsLine(line[i])
    ensures Assemble("", line + rest) == Prepend(TooLong, Assemble("", rest))
  {
    var most, last := line[..SERIAL_LINE_MAX - 1], [line[SERIAL_LINE_MAX - 1]];
    assert line + rest == most + (last + rest) && "" + most == most;
    Collects("", most, last + rest);
    assert (last + rest)[1..] == rest;
  }

  /** Text without line ends that fits is only collected. */
  lemma {:induction false} Collects(buf: string, line: string, rest: string)
    requires |buf| + |line| < SERIAL_LINE_MAX && forall i :: 0 <= i < |line| ==> !EndsLine(line[i])
    ensures Assemble(buf, line + rest) == Assemble(buf + line, rest)
    decreases |line|
  {
    if line == "" {
      assert line + rest == rest && buf + line == buf;
    } else {
      Collects(buf + [line[0]], line[1..], rest);
      assert (line + rest)[1..] == line[1..] + rest;
      assert buf + [line[0]] + line[1..] == buf + line;
    }
  }

  predicate Plain(s: string) {
    '\n' !in s && '\r' !in s && '\0' !in s
  }

  /** What the encoder must be given: a known kind of name, a plain payload, and a line of at most 2047 bytes. */
  predicate Sendable(c: Command) {
    Named(c) && (c.payload.Some? ==> Plain(c.payload.value)) && |Line(c)| < SERIAL_LINE_MAX
  }

  predicate Named(c: Command) {
    c.name != "" && Plain(c.name) && ':' !in c.name
  }

  lemma {:induction false} IndexOfAfter(a: string, c: char, rest: string)
    requires c !in a && (rest == "" || rest[0] == c)
    ensures IndexOf(a + rest, c) == |a|
  {
    if a == "" {
      assert a + rest == rest;
    } else {
      IndexOfAfter(a[1..], c, rest);
      assert (a + rest)[1..] == a[1..] + rest;
    }
  }

  /** Splitting undoes joining; colons in the payload and an absent payload included. */
  lemma SplitUndoesLine(c: Command)
    requires Sendable(c)
    ensures Split(Line(c)) == c
  {
    CStrOfPlain(Line(c));
    match c.payload
    case None =>
      IndexOfAfter(c.name, ':', "");
      assert c.name + "" == c.name;
    case Some(p) =>
      IndexOfAfter(c.name, ':', ":" + p);
      assert c.name + (":" + p) == Line(c);
  }

  function Dispatches(cs: seq<Command>): (es: seq<Event>)
    ensures |es| == |cs|
  {
    seq(|cs|, i requires 0 <= i < |cs| => Dispatched(cs[i]))
  }

  lemma LineHasNoEnd(c: Command)
    requires Sendable(c)
    ensures forall i :: 0 <= i < |Line(c)| ==> !EndsLine(Line(c)[i])
    ensures Line(c) != ""
  {}

  lemma OneLine(c: Command, more: string)
    requires Sendable(c)
    ensures Assemble("", Encode(c) + more) == Prepend(Dispatched(c), Assemble("", more))
  {
    hide Split;
    var line := Line(c);
    LineHasNoEnd(c);
    SplitUndoesLine(c);
    assert Encode(c) + more == line + ("\n" + more);
    Collects("", line, "\n" + more);
    assert "" + line == line;
    assert ("\n" + more)[1..] == more;
  }

  /** The round trip over whole command sequences. */
  lemma {:induction false} StreamRoundTrip(cs: seq<Command>)
    requires forall i :: 0 <= i < |cs| ==> Sendable(cs[i])
    ensures Assemble("", EncodeAll(cs)) == Reading(Dispatches(cs), "")
    decreases |cs|
  {
    if cs != [] {
      hide Sendable, Encode;
      OneLine(cs[0], EncodeAll(cs[1..]));
      StreamRoundTrip(cs[1..]);
      assert Dispatches(cs) == [Dispatched(cs[0])] + Dispatches(cs[1..]);
    }
  }

  // ----- The condition is exact

  /** Nothing that is dispatched contains a line end or NUL, and it came from at most 2047 bytes. */
  lemma {:induction false} DispatchedIsPlain(buf: string, stream: string, i: nat)
    requires |buf| < SERIAL_LINE_MAX && forall k :: 0 <= k < |buf| ==> !EndsLine(buf[k])
    requires i < |Assemble(buf, stream).events| && Assemble(buf, stream).events[i].Dispatched?
    ensures var c := Assemble(buf, stream).events[i].command;
      Plain(c.name) && (c.payload.Some? ==> Plain(c.payload.value)) && |Line(c)| < SERIAL_LINE_MAX
    decreases |stream|
  {
    if EndsLine(stream[0]) {
      if buf == "" {
        DispatchedIsPlain("", stream[1..], i);
      } else if i == 0 {
        SplitIsPlain(buf);
      } else {
        DispatchedIsPlain("", stream[1..], i - 1);
      }
    } else if |buf| < SERIAL_LINE_MAX - 1 {
      DispatchedIsPlain(buf + [stream[0]], stream[1..], i);
    } else if i > 0 {
      DispatchedIsPlain("", stream[1..], i - 1);
    }
  }

  lemma SplitIsPlain(line: string)
    requires |line| < SERIAL_LINE_MAX && forall k :: 0 <= k < |line| ==> !EndsLine(line[k])
    ensures var c := Split(line);
      Plain(c.name) && (c.payload.Some? ==> Plain(c.payload.value)) && |Line(c)| < SERIAL_LINE_MAX
  {
    var s := CStr(line);
    assert forall k :: 0 <= k < |s| ==> !EndsLine(s[k]);
  }

  /** A command comes through unchanged exactly when it is sendable. */
  lemma CommandArrivesIff(c: Command)
    requires Named(c)
    ensures Assemble("", Encode(c)) == Reading([Dispatched(c)], "") <==> Sendable(c)
  {
    if Sendable(c) {
      StreamRoundTrip([c]);
      assert EncodeAll([c][1..]) == "";
      assert EncodeAll([c]) == Encode(c);
      assert Dispatches([c]) == [Dispatched(c)];
    } else if Assemble("", Encode(c)) == Reading([Dispatched(c)], "") {
      DispatchedIsPlain("", Encode(c), 0);
    }
  }

  // ----- The firmware's buffer

  /** Some known command was dispatched; each of their handlers starts by cancelling boot unlock. */
  predicate Cancels(es: seq<Event>) {
    exists i :: 0 <= i < |es| && Known(es[i])
  }

  predicate Known(e: Event) {
    e.Dispatched? && ParseCommand(e.command.name) != Unknown
  }

  /** The events and one more. */
  function Extended(es: seq<Event>, e: Event): (r: seq<Event>)
    ensures r == es + [e] && (Cancels(r) <==> Cancels(es) || Known(e))
  {
    CancelsSnoc(es, e);
    es + [e]
  }

  lemma NothingCancels()
    ensures !Cancels([]) && !Known(TooLong)
  {}

  lemma CancelsSnoc(es: seq<Event>, e: Event)
    ensures Cancels(es + [e]) <==> Cancels(es) || Known(e)
  {
    if Cancels(es) {
      var i :| 0 <= i < |es| && Known(es[i]);
      assert Known((es + [e])[i]);
    } else if Known(e) {
      assert Known((es + [e])[|es|]);
    }
  }

  class LineReader {
    const lineBuf: array<char>
    var linePos: nat
    /** Set when a known command cancels boot unlock. */
    var cancelled: bool
    ghost var events: seq<Event>

    ghost predicate Valid()
      reads this
    {
      lineBuf.Length == SERIAL_LINE_MAX && linePos < SERIAL_LINE_MAX
    }

    ghost function Pending(): string
      reads this, lineBuf
      requires Valid()
    {
      lineBuf[..linePos]
    }

    constructor ()
      ensures Valid() && Pending() == "" && events == [] && !cancelled && fresh(lineBuf)
    {
      lineBuf := new char[SERIAL_LINE_MAX](_ => '\0');
      linePos, cancelled, events := 0, false, [];
    }

    /** Splits the terminated line in the buffer in place; a known command cancels boot unlock. */
    method DispatchCommand()
      requires Valid() && lineBuf[linePos] == '\0'
      modifies lineBuf, this`events, this`cancelled
      ensures events == old(events) + [Dispatched(Split(old(Pending())))]
      ensures cancelled == (old(cancelled) || Known(Dispatched(Split(old(Pending())))))
    {
      ghost var line := Pending();
      var s := lineBuf[..linePos];
      assert s == line;
      var text := CStr(s);
      var colon := IndexOf(text, ':');
      var name, payload: Option<string> := text, None;
      if colon < |text| {
        lineBuf[colon] := '\0';
        name := CStr(lineBuf[..linePos]);
        payload := Some(text[colon + 1..]);
        assert lineBuf[..linePos] == text[..colon] + ['\0'] + s[colon + 1..];
        CStrCut(text[..colon], s[colon + 1..]);
      } else {
        assert text[..colon] == text;
      }
      if ParseCommand(name) != Unknown {
        cancelled := true;
      }
      events := events + [Dispatched(Command(name, payload))];
    }

    /** Text mode of `serial_task` over the bytes available. */
    method SerialTask(bytes: string)
      requires Valid()
      modifies this, lineBuf
      ensures Valid()
      ensures var r := Assemble(old(Pending()), bytes);
        events == old(events) + r.events && Pending() == r.rest && cancelled == (old(cancelled) || Cancels(r.events))
    {
      hide Cancels, Known, ParseCommand, Split;
      ghost var all := Assemble(Pending(), bytes);
      ghost var seen: seq<Event> := [];
      NothingCancels();
      for i := 0 to |bytes|
        invariant Valid()
        invariant events == old(events) + seen && cancelled == (old(cancelled) || Cancels(seen))
        invariant seen + Assemble(Pending(), bytes[i..]).events == all.events
        invariant Assemble(Pending(), bytes[i..]).rest == all.rest
      {
        var c := bytes[i];
        ghost var buf, rest := Pending(), bytes[i + 1..];
        assert bytes[i..][0] == c && bytes[i..][1..] == rest;
        if c == '\n' || c == '\r' {
          if linePos > 0 {
            lineBuf[linePos] := '\0';
            assert Pending() == buf;
            DispatchCommand();
            linePos := 0;
            seen := Extended(seen, Dispatched(Split(buf)));
          }
        } else if linePos < SERIAL_LINE_MAX - 1 {
          lineBuf[linePos] := c;
          linePos := linePos + 1;
          assert Pending() == buf + [c];
        } else {
          linePos := 0;
          events := events + [TooLong];
          seen := Extended(seen, TooLong);
        }
      }
      assert bytes[|bytes|..] == "" && seen + [] == seen;
    }
  }
}
