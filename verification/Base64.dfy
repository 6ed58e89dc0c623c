/** The log export: `base64_encode` (storage.c) against section 4 of RFC 4648. */
module Base64 {
  import opened Wrappers
  import opened Bytes
  import EventLog

  /** The value of a character of the base 64 alphabet. */
  function CharValue(c: char): Option<nat> {
    if 'A' <= c <= 'Z' then Some(c as int - 'A' as int)
    else if 'a' <= c <= 'z' then Some(c as int - 'a' as int + 26)
    else if '0' <= c <= '9' then Some(c as int - '0' as int + 52)
    else if c == '+' then Some(62)
    else if c == '/' then Some(63)
    else None
  }

  /** `b64_table[n]`: the letters, the digits, plus and slash, in the order of the standard. */
  function Letter(n: nat): (c: char)
    requires n < 64
    ensures CharValue(c) == Some(n) && c != '='
  {
    if n < 26 then 'A' + n as char
    else if n < 52 then 'a' + (n - 26) as char
    else if n < 62 then '0' + (n - 52) as char
    else if n == 62 then '+' else '/'
  }

  function Triple(a: byte, b: byte, c: byte): (t: nat)
    ensures t < 0x100_0000
  {
    a * 0x1_0000 + b * 0x100 + c
  }

  /** Bits shift..shift + 5 of a 24-bit group. */
  function Sextet(t: nat, i: nat): (s: nat)
    requires i < 4
    ensures s < 64
  {
    if i == 0 then t / 0x4_0000 % 64 else if i == 1 then t / 0x1000 % 64 else if i == 2 then t / 0x40 % 64 else t % 64
  }

  function Group(t: nat): (s: string)
    requires t < 0x100_0000
    ensures |s| == 4
  {
    [Letter(Sextet(t, 0)), Letter(Sextet(t, 1)), Letter(Sextet(t, 2)), Letter(Sextet(t, 3))]
  }

  /** Byte i of the input, 0 past its end. */
  function At(s: seq<byte>, i: nat): byte {
    if i < |s| then s[i] else 0
  }

  function Drop3(s: seq<byte>): (r: seq<byte>)
    ensures |r| == if |s| <= 3 then 0 else |s| - 3
  {
    if |s| <= 3 then [] else s[3..]
  }

  /** What `base64_encode` writes before the terminator. */
  function Encode(s: seq<byte>): string
    decreases |s|
  {
    if s == [] then "" else Group(Triple(At(s, 0), At(s, 1), At(s, 2))) + Encode(Drop3(s))
  }

  lemma GroupCount(n: nat)
    requires n > 0
    ensures (n + 2) / 3 == 1 + if n <= 3 then 0 else (n - 3 + 2) / 3
  {}

  /** Four characters for every three bytes or part of three. */
  lemma {:induction false} EncodeLength(s: seq<byte>)
    ensures |Encode(s)| == (|s| + 2) / 3 * 4
    decreases |s|
  {
    if s != [] {
      EncodeLength(Drop3(s));
      hide Group, Triple, At;
      GroupCount(|s|);
    }
  }

  /** The encoding of the standard: one `=` for a final group of two bytes, two for one byte. */
  function RfcEncode(s: seq<byte>): string
    decreases |s|
  {
    if s == [] then ""
    else
      var g := Group(Triple(At(s, 0), At(s, 1), At(s, 2)));
      if |s| == 1 then g[..2] + "=="
      else if |s| == 2 then g[..3] + "="
      else g + RfcEncode(Drop3(s))
  }

  /** Decoding as the standard has it; padding is accepted in the last group only. */
  function Decode(s: string): Option<seq<byte>>
    decreases |s|
  {
    if s == "" then Some([])
    else if |s| < 4 then None
    else
      var v0, v1, v2, v3 := CharValue(s[0]), CharValue(s[1]), CharValue(s[2]), CharValue(s[3]);
      if v0.None? || v1.None? then None
      else if |s| == 4 && s[2] == '=' && s[3] == '=' then Some([Joined(v0.value, v1.value, 0, 0) / 0x1_0000 % 256])
      else if v2.None? then None
      else if |s| == 4 && s[3] == '=' then
        var t := Joined(v0.value, v1.value, v2.value, 0);
        Some([t / 0x1_0000 % 256, t / 0x100 % 256])
      else if v3.None? then None
      else
        var t := Joined(v0.value, v1.value, v2.value, v3.value);
        match Decode(s[4..])
        case None => None
        case Some(rest) => Some([t / 0x1_0000 % 256, t / 0x100 % 256, t % 256] + rest)
  }

  function Joined(v0: nat, v1: nat, v2: nat, v3: nat): nat {
    v0 * 0x4_0000 + v1 * 0x1000 + v2 * 0x40 + v3
  }

  /** The four sextets of a group put together are the group. */
  lemma SextetsJoin(t: nat)
    requires t < 0x100_0000
    ensures Joined(Sextet(t, 0), Sextet(t, 1), Sextet(t, 2), Sextet(t, 3)) == t
  {
    var q1, q2, q3 := t / 0x40, t / 0x1000, t / 0x4_0000;
    assert q1 / 64 == q2 && q2 / 64 == q3 && q3 < 64;
  }

  lemma TripleSplits(a: byte, b: byte, c: byte)
    ensures var t := Triple(a, b, c); t / 0x1_0000 % 256 == a && t / 0x100 % 256 == b && t % 256 == c
  {
    var t := Triple(a, b, c);
    assert t / 0x100 == a * 256 + b;
  }

  lemma GroupDecodes(t: nat)
    requires t < 0x100_0000
    ensures var g := Group(t);
      CharValue(g[0]) == Some(Sextet(t, 0)) && CharValue(g[1]) == Some(Sextet(t, 1)) &&
      CharValue(g[2]) == Some(Sextet(t, 2)) && CharValue(g[3]) == Some(Sextet(t, 3))
    ensures '=' !in Group(t)
  {
    hide CharValue, Sextet;
  }

  /** A full group in front decodes to its three bytes. */
  lemma DecodeGroup(a: byte, b: byte, c: byte, rest: string)
    requires Decode(rest).Some?
    ensures Decode(Group(Triple(a, b, c)) + rest) == Some([a, b, c] + Decode(rest).value)
  {
    hide Letter, Sextet, CharValue;
    var t := Triple(a, b, c);
    var s := Group(t) + rest;
    GroupDecodes(t);
    SextetsJoin(t);
    TripleSplits(a, b, c);
    assert s[4..] == rest;
    assert s[2] != '=' && s[3] != '=';
  }

  lemma FillCount(n: nat)
    ensures n + (3 - n % 3) % 3 == (n + 2) / 3 * 3
  {}

  /** Zero bytes up to the next multiple of three. */
  function ZeroFilled(s: seq<byte>): (r: seq<byte>)
    ensures |r| == (|s| + 2) / 3 * 3 && s <= r
  {
    FillCount(|s|);
    s + seq((3 - |s| % 3) % 3, _ => 0)
  }

  /** Decoding what the firmware writes gives the input followed by zero bytes up to a multiple of three. */
  lemma {:induction false} EncodeDecodes(s: seq<byte>)
    ensures Decode(Encode(s)) == Some(ZeroFilled(s))
    decreases |s|
  {
    if s != [] {
      hide Decode, Group, Triple, ZeroFilled;
      EncodeDecodes(Drop3(s));
      DecodeGroup(At(s, 0), At(s, 1), At(s, 2), Encode(Drop3(s)));
      ZeroFilledByThree(s);
    }
  }

  lemma ZeroFilledByThree(s: seq<byte>)
    requires s != []
    ensures [At(s, 0), At(s, 1), At(s, 2)] + ZeroFilled(Drop3(s)) == ZeroFilled(s)
  {}

  /** The padding tests of the C code never hold. */
  lemma {:induction false} NeverPads(s: seq<byte>)
    ensures '=' !in Encode(s)
    decreases |s|
  {
    if s != [] {
      hide Group;
      NeverPads(Drop3(s));
      GroupDecodes(Triple(At(s, 0), At(s, 1), At(s, 2)));
    }
  }

  lemma RfcFullGroup(s: seq<byte>)
    requires |s| >= 3
    ensures RfcEncode(s) == Group(Triple(s[0], s[1], s[2])) + RfcEncode(Drop3(s))
  {
    hide Group;
  }

  lemma LessThree(n: nat)
    requires n >= 3
    ensures (n - 3) % 3 == n % 3
  {}

  lemma {:induction false} WholeGroups(s: seq<byte>)
    requires |s| % 3 == 0
    ensures Encode(s) == RfcEncode(s)
    decreases |s|
  {
    if s != [] {
      hide Group, Encode, RfcEncode, Triple;
      EncodeStep(s);
      RfcFullGroup(s);
      LessThree(|s|);
      WholeGroups(Drop3(s));
    }
  }

  /** The reference encoder and decoder undo each other. */
  lemma {:induction false} StandardRoundTrip(s: seq<byte>)
    ensures Decode(RfcEncode(s)) == Some(s)
    decreases |s|
  {
    hide Decode, RfcEncode, Group, Triple;
    if |s| >= 3 {
      StandardRoundTrip(Drop3(s));
      RfcFullGroup(s);
      DecodeGroup(s[0], s[1], s[2], RfcEncode(Drop3(s)));
      assert [s[0], s[1], s[2]] + Drop3(s) == s;
    } else if |s| == 2 {
      RfcTwo(s[0], s[1]);
      assert s == [s[0], s[1]];
    } else if |s| == 1 {
      RfcOne(s[0]);
      assert s == [s[0]];
    } else {
      RfcNothing();
    }
  }

  lemma RfcNothing()
    ensures Decode(RfcEncode([])) == Some([])
  {}

  lemma RfcOne(a: byte)
    ensures Decode(RfcEncode([a])) == Some([a])
  {
    hide Decode, Group, Triple, Drop3;
    PaddedOne(a);
  }

  lemma RfcTwo(a: byte, b: byte)
    ensures Decode(RfcEncode([a, b])) == Some([a, b])
  {
    hide Decode, Group, Triple, Drop3;
    PaddedTwo(a, b);
  }

  lemma LowSextets(a: byte, b: byte)
    ensures Sextet(Triple(a, b, 0), 3) == 0
    ensures Sextet(Triple(a, 0, 0), 2) == 0
  {
    Multiple(a * 0x400 + b * 4);
    Multiple(a * 0x400);
    Multiple(a * 16);
    assert Triple(a, b, 0) == (a * 0x400 + b * 4) * 64;
    assert Triple(a, 0, 0) == a * 0x400 * 64;
  }

  lemma Multiple(k: nat)
    ensures k * 64 % 64 == 0 && k * 64 / 64 == k
  {}

  lemma PaddedOne(a: byte)
    ensures Decode(Group(Triple(a, 0, 0))[..2] + "==") == Some([a])
  {
    hide CharValue, Letter, Sextet;
    var t := Triple(a, 0, 0);
    var s := Group(t)[..2] + "==";
    GroupDecodes(t);
    LowSextets(a, 0);
    SextetsJoin(t);
    TripleSplits(a, 0, 0);
    assert s[0] == Group(t)[0] && s[1] == Group(t)[1] && s[2] == '=' && s[3] == '=';
  }

  lemma PaddedTwo(a: byte, b: byte)
    ensures Decode(Group(Triple(a, b, 0))[..3] + "=") == Some([a, b])
  {
    hide CharValue, Letter, Sextet;
    var t := Triple(a, b, 0);
    var s := Group(t)[..3] + "=";
    GroupDecodes(t);
    LowSextets(a, b);
    SextetsJoin(t);
    TripleSplits(a, b, 0);
    assert s[0] == Group(t)[0] && s[1] == Group(t)[1] && s[2] == Group(t)[2] && s[3] == '=';
  }

  lemma FilledIff(s: seq<byte>)
    ensures ZeroFilled(s) == s <==> |s| % 3 == 0
  {
    if |s| % 3 == 0 {
      assert ZeroFilled(s) == s;
    } else {
      assert |ZeroFilled(s)| > |s|;
    }
  }

  /**
   * The text of the standard always decodes to the input; the firmware's does so, and is that text, exactly when three
   * divides the length.
   */
  lemma StandardIff(s: seq<byte>)
    ensures Decode(RfcEncode(s)) == Some(s)
    ensures Decode(Encode(s)) == Some(s) <==> |s| % 3 == 0
    ensures Encode(s) == RfcEncode(s) <==> |s| % 3 == 0
  {
    hide Encode, Decode, RfcEncode, ZeroFilled;
    StandardRoundTrip(s);
    EncodeDecodes(s);
    FilledIff(s);
    if |s| % 3 == 0 {
      WholeGroups(s);
    }
  }

  /** The decoded export still determines the log: the count by dividing by 16, and every entry. */
  lemma LogExportRoundTrip(entries: seq<EventLog.Entry>)
    ensures var d := ZeroFilled(EventLog.EncodeAll(entries));
      Decode(Encode(EventLog.EncodeAll(entries))) == Some(d) &&
      |d| / EventLog.ENTRY_SIZE == |entries| && EventLog.DecodeAll(EntryBytes(d)) == entries
  {
    hide Encode, Decode;
    var b := EventLog.EncodeAll(entries);
    EncodeDecodes(b);
    EventLog.EntriesRoundTrip(entries);
    assert EntryBytes(ZeroFilled(b)) == b;
  }

  /**
   * So over every run of the log, failed writes and reboots included, the export decodes to the last twenty of the
   * events still known; without failed writes these are the last twenty since the last clear.
   */
  lemma ExportIsLastTwenty(evs: seq<EventLog.Event>)
    ensures var ring := EventLog.Run(EventLog.Fresh(), evs).ring;
      var bytes := EventLog.EncodeAll(EventLog.ReadAll(ring, EventLog.LOG_MAX_ENTRIES));
      var d := Decode(Encode(bytes));
      d.Some? && EventLog.DecodeAll(EntryBytes(d.value)) ==
                 EventLog.Window(EventLog.History(EventLog.Meaning([], []), evs).live)
    ensures (forall i :: 0 <= i < |evs| ==> !EventLog.WriteFails(evs[i])) ==>
      EventLog.Window(EventLog.History(EventLog.Meaning([], []), evs).live) ==
        EventLog.Window(EventLog.SinceClear([], evs))
  {
    hide Encode, Decode, ZeroFilled, EntryBytes, EventLog.EncodeAll, EventLog.DecodeAll;
    var h := EventLog.History(EventLog.Meaning([], []), evs).live;
    var ring := EventLog.Run(EventLog.Fresh(), evs).ring;
    EventLog.LogRefinesHistory(evs);
    EventLog.ReadAllIsOldest(ring, h, EventLog.LOG_MAX_ENTRIES);
    var w := EventLog.Window(h);
    assert EventLog.Oldest(h, EventLog.LOG_MAX_ENTRIES) == w[..|w|] == w;
    LogExportRoundTrip(w);
    if forall i :: 0 <= i < |evs| ==> !EventLog.WriteFails(evs[i]) {
      EventLog.RebootsAreInvisible(EventLog.Meaning([], []), [], evs);
    }
  }

  /** The whole entries among decoded bytes. */
  function EntryBytes(d: seq<byte>): (b: seq<byte>)
    ensures |b| % EventLog.ENTRY_SIZE == 0
  {
    d[..|d| / EventLog.ENTRY_SIZE * EventLog.ENTRY_SIZE]
  }

  lemma EncodeStep(s: seq<byte>)
    requires s != []
    ensures Encode(s) == Group(Triple(At(s, 0), At(s, 1), At(s, 2))) + Encode(Drop3(s))
  {}

  lemma GroupIs(t: nat)
    requires t < 0x100_0000
    ensures Group(t) == [Letter(Sextet(t, 0)), Letter(Sextet(t, 1)), Letter(Sextet(t, 2)), Letter(Sextet(t, 3))]
  {}

  method PutFour(out: array<char>, o: nat, text: string)
    requires |text| == 4 && o + 4 <= out.Length
    modifies out
    ensures out[..o + 4] == old(out[..o]) + text
    ensures forall k :: o + 4 <= k < out.Length ==> out[k] == old(out[k])
  {
    out[o], out[o + 1], out[o + 2], out[o + 3] := text[0], text[1], text[2], text[3];
  }

  /** The encoder: refuses a short buffer, otherwise writes the text and a terminator and nothing beyond. */
  method Base64Encode(input: seq<byte>, out: array<char>) returns (n: int)
    modifies out
    ensures n == if out.Length < (|input| + 2) / 3 * 4 + 1 then -1 else (|input| + 2) / 3 * 4
    ensures n < 0 ==> unchanged(out)
    ensures n >= 0 ==> out[..n] == Encode(input) && out[n] == '\0' && out[n + 1..] == old(out[..])[n + 1..]
  {
    hide Group, Encode, Letter, Sextet, Triple;
    EncodeLength(input);
    var needed := (|input| + 2) / 3 * 4 + 1;
    if out.Length < needed {
      return -1;
    }
    var i, o := 0, 0;
    assert input[0..] == input;
    while i < |input|
      invariant i <= |input| && o <= needed - 1 && o + |Encode(input[i..])| == needed - 1
      invariant out[..o] + Encode(input[i..]) == Encode(input)
      invariant forall k :: needed <= k < out.Length ==> out[k] == old(out[k])
    {
      ghost var rest, done := input[i..], out[..o];
      var a: byte, b: byte, c: byte := 0, 0, 0;
      if i < |input| { a := input[i]; i := i + 1; }
      if i < |input| { b := input[i]; i := i + 1; }
      if i < |input| { c := input[i]; i := i + 1; }
      EncodeStep(rest);
      var triple := Triple(a, b, c);
      assert a == At(rest, 0) && b == At(rest, 1) && c == At(rest, 2) && input[i..] == Drop3(rest);
      var c0, c1 := Letter(Sextet(triple, 0)), Letter(Sextet(triple, 1));
      var c2 := if i > |input| + 1 then '=' else Letter(Sextet(triple, 2));
      var c3 := if i > |input| then '=' else Letter(Sextet(triple, 3));
      GroupIs(triple);
      PutFour(out, o, [c0, c1, c2, c3]);
      o := o + 4;
      assert done + (Group(triple) + Encode(input[i..])) == done + Group(triple) + Encode(input[i..]);
    }
    out[o] := '\0';
    n := o;
    assert input[i..] == [];
    EncodeLength([]);
    assert out[..o] + "" == out[..o];
  }

  /** `storage_get_log_base64`: reads up to twenty entries and encodes their bytes; an empty log gives an empty text. */
  method GetLogBase64(log: EventLog.Log, buf: array<char>) returns (n: int)
    requires log.Valid()
    modifies buf
    ensures var text := Encode(EventLog.EncodeAll(EventLog.ReadAll(log.View().ring, EventLog.LOG_MAX_ENTRIES)));
      (n < 0 <==> text != "" && buf.Length < |text| + 1) &&
      (n >= 0 ==> n == |text| && (buf.Length > 0 ==> n < buf.Length && buf[..n] == text && buf[n] == '\0'))
  {
    hide Encode;
    var entries := new EventLog.Entry[EventLog.LOG_MAX_ENTRIES](_ => EventLog.BLANK);
    var count := log.LogReadAll(entries, EventLog.LOG_MAX_ENTRIES);
    ghost var es := EventLog.ReadAll(log.View().ring, EventLog.LOG_MAX_ENTRIES);
    NothingEncoded();
    if count == 0 {
      if buf.Length > 0 {
        buf[0] := '\0';
      }
      return 0;
    }
    EventLog.EncodedSize(es);
    EncodeLength(EventLog.EncodeAll(es));
    n := Base64Encode(EventLog.EncodeAll(entries[..count]), buf);
  }

  lemma NothingEncoded()
    ensures Encode([]) == "" && EventLog.EncodeAll([]) == []
  {}
}
