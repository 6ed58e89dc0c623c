/**
 * Reply lines: `serial_respond` of the firmware (serial_proto.c) against `parse_response` of the PC side
 * (protocol.py).
 */
module Replies {
  import opened Wrappers

  const SERIAL_BUF_SIZE: nat := 4096

  /** `serial_respond`; the message pointer may be NULL. */
  function Respond(prefix: string, message: Option<string>): string {
    if message.Some? && message.value != "" then prefix + ":" + message.value + "\n" else prefix + "\n"
  }

  /** What of a text `snprintf` leaves in the buffer before the terminator. */
  function Fit(s: string): (r: string)
    ensures r <= s && |r| < SERIAL_BUF_SIZE
  {
    if |s| < SERIAL_BUF_SIZE then s else s[..SERIAL_BUF_SIZE - 1]
  }

  /** One more piece of the format: `n` counts the whole text, the buffer takes what fits. */
  method Put(buf: array<char>, n: nat, piece: string, ghost done: string) returns (m: nat)
    requires buf.Length == SERIAL_BUF_SIZE && n == |done| && buf[..|Fit(done)|] == Fit(done)
    modifies buf
    ensures m == |done + piece| && buf[..|Fit(done + piece)|] == Fit(done + piece)
  {
    m := n;
    assert done + piece[..0] == done;
    for i := 0 to |piece|
      invariant m == n + i && buf[..|Fit(done + piece[..i])|] == Fit(done + piece[..i])
    {
      ghost var before, after := done + piece[..i], done + piece[..i + 1];
      assert after == before + [piece[i]];
      if m < SERIAL_BUF_SIZE - 1 {
        buf[m] := piece[i];
        assert buf[..m + 1] == buf[..m] + [piece[i]];
      }
      m := m + 1;
    }
    assert piece[..|piece|] == piece;
  }

  /**
   * What goes out on USB for that line: as many bytes of the buffer as the whole line has. One byte too long, it is cut
   * and ends in its terminator; beyond that, bytes past the buffer are read (`None`).
   */
  function Sent(line: string): Option<string> {
    if |line| < SERIAL_BUF_SIZE then Some(line)
    else if |line| == SERIAL_BUF_SIZE then Some(line[..SERIAL_BUF_SIZE - 1] + "\0")
    else None
  }

  /** The same through the line buffer. */
  method SerialRespond(prefix: string, message: Option<string>) returns (sent: Option<string>)
    ensures sent == Sent(Respond(prefix, message))
  {
    hide Fit;
    ghost var line := Respond(prefix, message);
    var buf := new char[SERIAL_BUF_SIZE](_ => '\0');
    NothingFits();
    var n := Put(buf, 0, prefix, "");
    assert "" + prefix == prefix;
    if message.Some? && message.value != "" {
      n := Put(buf, n, ":", prefix);
      n := Put(buf, n, message.value, prefix + ":");
      n := Put(buf, n, "\n", prefix + ":" + message.value);
    } else {
      n := Put(buf, n, "\n", prefix);
    }
    assert n == |line| && buf[..|Fit(line)|] == Fit(line);
    buf[if n < SERIAL_BUF_SIZE then n else SERIAL_BUF_SIZE - 1] := '\0';
    sent := if n <= SERIAL_BUF_SIZE then Some(buf[..n]) else None;
    FitIs(line);
    if n == SERIAL_BUF_SIZE {
      assert buf[..n] == buf[..n - 1] + ['\0'];
    }
  }

  lemma NothingFits()
    ensures Fit("") == ""
  {}

  lemma FitIs(s: string)
    ensures |s| < SERIAL_BUF_SIZE ==> Fit(s) == s
    ensures |s| == SERIAL_BUF_SIZE ==> Fit(s) == s[..SERIAL_BUF_SIZE - 1]
    ensures |s| > SERIAL_BUF_SIZE ==> |Fit(s)| == SERIAL_BUF_SIZE - 1
  {}

  /** Whitespace as Python's str.strip sees it. */
  predicate IsSpace(c: char) {
    '\t' <= c <= '\r' || '\U{1C}' <= c <= ' ' || c == '\U{85}' || c == '\U{A0}' || c == '\U{1680}' ||
    '\U{2000}' <= c <= '\U{200A}' || c == '\U{2028}' || c == '\U{2029}' || c == '\U{202F}' || c == '\U{205F}' ||
      c == '\U{3000}'
  }

  function StripLeft(s: string): string {
    if s != "" && IsSpace(s[0]) then StripLeft(s[1..]) else s
  }

  function StripRight(s: string): (r: string)
    ensures r <= s && (r != "" ==> !IsSpace(r[|r| - 1]))
  {
    if s != "" && IsSpace(s[|s| - 1]) then StripRight(s[..|s| - 1]) else s
  }

  function Strip(s: string): string {
    StripRight(StripLeft(s))
  }

  /** `readline`: up to and including the first line feed. */
  function FirstLine(s: string): (r: string)
    ensures r <= s
  {
    if s == "" then "" else if s[0] == '\n' then "\n" else [s[0]] + FirstLine(s[1..])
  }

  datatype Response = Response(raw: string, ok: bool, data: string)

  /** `parse_response` */
  function ParseResponse(line: string): Response {
    Interpret(Strip(line))
  }

  function Interpret(raw: string): Response {
    if raw == "" then Response("", false, "empty response")
    else if "ERR:" <= raw then Response(raw, false, raw[4..])
    else if raw == "OK" || raw == "PONG" || raw == "READY" then Response(raw, true, "")
    else if "OK:" <= raw then Response(raw, true, raw[3..])
    else if "PONG:" <= raw then Response(raw, true, raw[5..])
    else Response(raw, true, raw)
  }

  // ----- Round trip

  datatype Prefix = OK | ERR | READY | PONG

  function Word(p: Prefix): string {
    match p
    case OK => "OK"
    case ERR => "ERR"
    case READY => "READY"
    case PONG => "PONG"
  }

  function Text(message: Option<string>): string {
    if message.Some? then message.value else ""
  }

  /** The bytes of a reply, unless they reach beyond the firmware's buffer. */
  function Reply(p: Prefix, message: Option<string>): Option<string> {
    Sent(Respond(Word(p), message))
  }

  /** What the PC side makes of a reply. */
  function Received(reply: string): Response {
    ParseResponse(FirstLine(reply))
  }

  /** Status and message both come through. */
  predicate Recovered(p: Prefix, message: Option<string>) {
    match Reply(p, message)
    case None => false
    case Some(reply) => Received(reply).ok == (p != ERR) && Received(reply).data == Text(message)
  }

  /** A message a reply of that kind can carry. */
  predicate Carries(p: Prefix, message: Option<string>) {
    var m := Text(message);
    |Respond(Word(p), message)| < SERIAL_BUF_SIZE &&
    '\n' !in m && (m != "" ==> !IsSpace(m[|m| - 1])) && (p == ERR ==> m != "") && (p == READY ==> m == "")
  }

  lemma {:induction false} FirstLineStops(s: string, rest: string)
    requires '\n' !in s
    ensures FirstLine(s + "\n" + rest) == s + "\n"
  {
    if s != "" {
      FirstLineStops(s[1..], rest);
      assert (s + "\n" + rest)[1..] == s[1..] + "\n" + rest;
    }
  }

  lemma {:induction false} FirstLineEnds(s: string)
    ensures var r := FirstLine(s); '\n' !in r || (r[|r| - 1] == '\n' && '\n' !in r[..|r| - 1])
  {
    if s != "" && s[0] != '\n' {
      FirstLineEnds(s[1..]);
      FrontedLine(s[0], FirstLine(s[1..]));
    }
  }

  lemma FrontedLine(c: char, t: string)
    requires c != '\n' && ('\n' !in t || (t[|t| - 1] == '\n' && '\n' !in t[..|t| - 1]))
    ensures var r := [c] + t; '\n' !in r || (r[|r| - 1] == '\n' && '\n' !in r[..|r| - 1])
  {
    if '\n' in t {
      assert ([c] + t)[..|t|] == [c] + t[..|t| - 1];
    }
  }

  lemma StripOfLine(s: string)
    requires s != "" && !IsSpace(s[0])
    ensures Strip(s + "\n") == StripRight(s) && StripRight(s) != ""
  {
    var t := s + "\n";
    assert t[0] == s[0] && t[|t| - 1] == '\n' && IsSpace('\n');
    hide IsSpace;
    assert t[..|t| - 1] == s;
    StripRightKeepsFirst(s);
  }

  lemma {:induction false} StripRightKeepsFirst(s: string)
    requires s != "" && !IsSpace(s[0])
    ensures StripRight(s) != ""
  {
    if IsSpace(s[|s| - 1]) {
      StripRightKeepsFirst(s[..|s| - 1]);
    }
  }

  /** Stripping the line strips the message: everything up to the colon stays. */
  lemma {:induction false} StripRightAfter(head: string, m: string)
    requires head != "" && !IsSpace(head[|head| - 1])
    ensures StripRight(head + m) == head + StripRight(m)
    decreases |m|
  {
    if m == "" {
      assert head + m == head;
    } else {
      var s := head + m;
      assert s[|s| - 1] == m[|m| - 1];
      if IsSpace(m[|m| - 1]) {
        assert s[..|s| - 1] == head + m[..|m| - 1];
        StripRightAfter(head, m[..|m| - 1]);
      }
    }
  }

  lemma PlainHead(p: Prefix)
    ensures var w := Word(p); w != "" && !IsSpace(w[0]) && !IsSpace(w[|w| - 1]) && '\n' !in w && !IsSpace(':')
  {}

  /** The stripped line of a reply without line feeds in its message. */
  lemma ReplyLine(p: Prefix, message: Option<string>)
    requires '\n' !in Text(message)
    ensures var m := Text(message);
      Strip(FirstLine(Respond(Word(p), message))) == if m == "" then Word(p) else Word(p) + ":" + StripRight(m)
  {
    hide IsSpace, StripRight, Strip, FirstLine, Word;
    var m := Text(message);
    var head := if m == "" then Word(p) else Word(p) + ":";
    var body := head + m;
    PlainHead(p);
    assert Respond(Word(p), message) == body + "\n" + "";
    assert '\n' !in body;
    FirstLineStops(body, "");
    StripOfLine(body);
    StripRightAfter(head, m);
  }

  /** Nothing received holds a line feed. */
  lemma NoLineFeed(reply: string)
    ensures '\n' !in Received(reply).data
  {
    var line := FirstLine(reply);
    FirstLineEnds(reply);
    StripDropsEnd(line);
    InterpretIsPart(Strip(line));
  }

  lemma InterpretIsPart(raw: string)
    requires '\n' !in raw
    ensures '\n' !in Interpret(raw).data
  {}

  lemma StripDropsEnd(line: string)
    requires '\n' !in line || (line[|line| - 1] == '\n' && '\n' !in line[..|line| - 1])
    ensures '\n' !in Strip(line)
  {
    StripLeftIsSuffix(line);
    var l := StripLeft(line);
    var r := StripRight(l);
    forall i | 0 <= i < |r| ensures r[i] != '\n' {
      assert r[i] == l[i] == line[|line| - |l| + i];
    }
  }

  lemma {:induction false} StripLeftIsSuffix(s: string)
    ensures |StripLeft(s)| <= |s| && s[|s| - |StripLeft(s)|..] == StripLeft(s)
  {
    if s != "" && IsSpace(s[0]) {
      StripLeftIsSuffix(s[1..]);
    }
  }

  lemma StripRightFixed(m: string)
    ensures StripRight(m) == m <==> m == "" || !IsSpace(m[|m| - 1])
  {}

  /** How stripped replies parse. */
  lemma InterpretOk(x: string)
    ensures Interpret("OK") == Response("OK", true, "")
    ensures Interpret("OK:" + x).ok && Interpret("OK:" + x).data == x
  {
    var r := "OK:" + x;
    assert r[0] == 'O' && |r| >= 3 && r[3..] == x;
  }

  lemma InterpretErr(x: string)
    ensures Interpret("ERR") == Response("ERR", true, "ERR")
    ensures !Interpret("ERR:" + x).ok && Interpret("ERR:" + x).data == x
  {
    var r := "ERR:" + x;
    assert "ERR:" <= r && r[4..] == x;
    assert "ERR"[0] == 'E';
  }

  lemma InterpretReady(x: string)
    ensures Interpret("READY") == Response("READY", true, "")
    ensures Interpret("READY:" + x).data == "READY:" + x
  {
    var r := "READY:" + x;
    assert r[0] == 'R' && |r| >= 6;
    assert "READY"[0] == 'R';
  }

  lemma InterpretPong(x: string)
    ensures Interpret("PONG") == Response("PONG", true, "")
    ensures Interpret("PONG:" + x).ok && Interpret("PONG:" + x).data == x
  {
    var r := "PONG:" + x;
    assert r[0] == 'P' && |r| >= 5 && r[5..] == x;
    assert "PONG"[0] == 'P';
  }

  /** A message that is echoed with its prefix is not the message itself. */
  lemma EchoDiffers(m: string)
    requires m != ""
    ensures "READY:" + StripRight(m) != m
  {
    var x := StripRight(m);
    var e := "READY:" + x;
    assert e[|e| - 1] == if x == "" then ':' else x[|x| - 1];
    assert !IsSpace(e[|e| - 1]);
    if e == m {
      StripRightFixed(m);
    }
  }

  lemma {:induction false} FirstLineOfPart(s: string)
    requires '\n' !in s
    ensures FirstLine(s) == s
  {
    if s != "" {
      FirstLineOfPart(s[1..]);
    }
  }

  /** A line one byte too long arrives without its line feed and with a NUL at the end of its message. */
  lemma CutReplyDiffers(p: Prefix, message: Option<string>)
    requires |Respond(Word(p), message)| == SERIAL_BUF_SIZE
    ensures Received(Reply(p, message).value).data != Text(message)
  {
    var m, w := Text(message), Word(p);
    var line, tail := Respond(w, message), m + "\0";
    var s := Sent(line).value;
    assert |w| <= 5 && m != "" && line == w + ":" + m + "\n";
    assert s == w + ":" + tail;
    if '\n' in m {
      NoLineFeed(s);
    } else {
      PlainHead(p);
      assert '\n' !in s && s[0] == w[0] && s[|s| - 1] == '\0' && !IsSpace('\0');
      FirstLineOfPart(s);
      assert Strip(s) == s;
      hide Interpret, Strip, FirstLine;
      assert "OK" + ":" == "OK:" && "ERR" + ":" == "ERR:" && "READY" + ":" == "READY:" && "PONG" + ":" == "PONG:";
      match p
      case OK => InterpretOk(tail);
      case ERR => InterpretErr(tail);
      case READY => InterpretReady(tail);
      case PONG => InterpretPong(tail);
    }
  }

  /** Within the buffer: everything depends on the message. */
  lemma WholeReplyIff(p: Prefix, message: Option<string>)
    requires |Respond(Word(p), message)| < SERIAL_BUF_SIZE
    ensures Recovered(p, message) <==> Carries(p, message)
  {
    hide Interpret, StripRight, Strip, FirstLine, Respond;
    var m := Text(message);
    if '\n' in m {
      NoLineFeed(Respond(Word(p), message));
    } else {
      ReplyLine(p, message);
      StripRightFixed(m);
      assert "OK" + ":" == "OK:" && "ERR" + ":" == "ERR:" && "READY" + ":" == "READY:" && "PONG" + ":" == "PONG:";
      match p
      case OK => InterpretOk(StripRight(m));
      case ERR => InterpretErr(StripRight(m));
      case PONG => InterpretPong(StripRight(m));
      case READY =>
        InterpretReady(StripRight(m));
        if m != "" {
          EchoDiffers(m);
        }
    }
  }

  /**
   * Status and message are recovered from the bytes sent exactly when the reply can carry the message. For a line of
   * more than 4096 bytes what is sent is not determined.
   */
  lemma ReplyRecoveredIff(p: Prefix, message: Option<string>)
    ensures Recovered(p, message) <==> Carries(p, message)
  {
    hide Interpret, Strip, FirstLine, IsSpace;
    if |Respond(Word(p), message)| < SERIAL_BUF_SIZE {
      WholeReplyIff(p, message);
    } else if |Respond(Word(p), message)| == SERIAL_BUF_SIZE {
      CutReplyDiffers(p, message);
    }
  }
}
