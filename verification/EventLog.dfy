/**
 * The event log: a ring of twenty 16-byte entries in RAM (log.c) and its image in /log.bin (storage.c).
 */
module EventLog {
  import opened Wrappers
  import opened Bytes

  const LOG_MAX_ENTRIES: nat := 20
  const ENTRY_SIZE: nat := 16

  type Reserved = r: seq<byte> | |r| == 7 witness seq(7, _ => 0)

  datatype Entry = Entry(timestamp: u32, eventType: byte, result: byte, durationMs: u16, source: byte,
    reserved: Reserved)

  /** A zeroed entry. */
  const BLANK := Entry(0, 0, 0, 0, 0, [0, 0, 0, 0, 0, 0, 0])

  // ----- Byte layout

  function EncodeEntry(e: Entry): (b: seq<byte>)
    ensures |b| == ENTRY_SIZE
  {
    ToLE(e.timestamp, 4) + [e.eventType, e.result] + ToLE(e.durationMs, 2) + [e.source] + e.reserved
  }

  function DecodeEntry(b: seq<byte>): (e: Entry)
    requires |b| == ENTRY_SIZE
  {
    LEBytesRoundTrip(b[..4]);
    LEBytesRoundTrip(b[6..8]);
    assert Pow256(4) == 0x1_0000_0000 && Pow256(2) == 0x1_0000;
    Entry(FromLE(b[..4]), b[4], b[5], FromLE(b[6..8]), b[8], b[9..16])
  }

  lemma EntryRoundTrip(e: Entry)
    ensures DecodeEntry(EncodeEntry(e)) == e
  {
    var b := EncodeEntry(e);
    assert Pow256(4) == 0x1_0000_0000 && Pow256(2) == 0x1_0000;
    LERoundTrip(e.timestamp, 4);
    LERoundTrip(e.durationMs, 2);
    assert b[..4] == ToLE(e.timestamp, 4);
    assert b[6..8] == ToLE(e.durationMs, 2);
    assert b[9..16] == e.reserved;
  }

  function EncodeAll(es: seq<Entry>): (b: seq<byte>)
    ensures |b| == ENTRY_SIZE * |es|
  {
    if es == [] then [] else EncodeEntry(es[0]) + EncodeAll(es[1..])
  }

  function DecodeAll(b: seq<byte>): (es: seq<Entry>)
    requires |b| % ENTRY_SIZE == 0
    ensures |es| == |b| / ENTRY_SIZE
  {
    if b == [] then [] else [DecodeEntry(b[..ENTRY_SIZE])] + DecodeAll(b[ENTRY_SIZE..])
  }

  lemma EncodedSize(es: seq<Entry>)
    ensures |EncodeAll(es)| == ENTRY_SIZE * |es| && (EncodeAll(es) == [] <==> es == [])
  {}

  lemma {:induction false} EntriesRoundTrip(es: seq<Entry>)
    ensures DecodeAll(EncodeAll(es)) == es
  {
    if es != [] {
      EntryRoundTrip(es[0]);
      EntriesRoundTrip(es[1..]);
      var b := EncodeAll(es);
      assert b[..ENTRY_SIZE] == EncodeEntry(es[0]);
      assert b[ENTRY_SIZE..] == EncodeAll(es[1..]);
    }
  }

  // ----- The ring

  datatype Ring = Ring(slots: seq<Entry>, idx: int, count: nat)

  /** n zeroed slots. */
  function Blanks(n: nat): (s: seq<Entry>)
    ensures |s| == n
  {
    seq(n, _ => BLANK)
  }

  function Empty(): Ring {
    Ring(Blanks(LOG_MAX_ENTRIES), 0, 0)
  }

  predicate WellFormed(r: Ring) {
    |r.slots| == LOG_MAX_ENTRIES && 0 <= r.idx < LOG_MAX_ENTRIES && r.count <= LOG_MAX_ENTRIES
  }

  function Push(r: Ring, e: Entry): (r': Ring)
    requires WellFormed(r)
    ensures WellFormed(r')
  {
    Ring(r.slots[r.idx := e], (r.idx + 1) % LOG_MAX_ENTRIES,
         if r.count < LOG_MAX_ENTRIES then r.count + 1 else r.count)
  }

  /** The last twenty of a history of events. */
  function Window(h: seq<Entry>): (w: seq<Entry>) {
    if |h| <= LOG_MAX_ENTRIES then h else h[|h| - LOG_MAX_ENTRIES..]
  }

  function Min(a: int, b: int): int {
    if a < b then a else b
  }

  /** The oldest `max` of a history's window. */
  function Oldest(h: seq<Entry>, max: int): (w: seq<Entry>) {
    if max <= 0 then [] else Window(h)[..Min(|Window(h)|, max)]
  }

  /** While the ring is not full its entries start at slot 0 and the unused slots are blank. */
  ghost predicate Filling(r: Ring, h: seq<Entry>)
    requires WellFormed(r)
  {
    r.idx == r.count && r.slots[..r.count] == h && r.slots[r.count..] == Blanks(LOG_MAX_ENTRIES - r.count)
  }

  /** The i-th slot after idx, going round. */
  function Slot(idx: nat, i: nat): (k: nat)
    requires idx < LOG_MAX_ENTRIES
    ensures k < LOG_MAX_ENTRIES
  {
    (idx + i) % LOG_MAX_ENTRIES
  }

  lemma SlotAfterPush(idx: nat, i: nat)
    requires idx < LOG_MAX_ENTRIES && i < LOG_MAX_ENTRIES
    ensures i + 1 < LOG_MAX_ENTRIES ==> Slot((idx + 1) % LOG_MAX_ENTRIES, i) == Slot(idx, i + 1) != idx
    ensures i + 1 == LOG_MAX_ENTRIES ==> Slot((idx + 1) % LOG_MAX_ENTRIES, i) == idx
  {}

  /** Once full, the oldest entry is the one about to be overwritten. */
  ghost predicate Rotating(r: Ring, h: seq<Entry>)
    requires WellFormed(r) && |h| >= LOG_MAX_ENTRIES
  {
    forall i :: 0 <= i < LOG_MAX_ENTRIES ==> r.slots[Slot(r.idx, i)] == Window(h)[i]
  }

  ghost predicate Represents(r: Ring, h: seq<Entry>) {
    WellFormed(r) &&
    if |h| < LOG_MAX_ENTRIES then r.count == |h| && Filling(r, h)
    else r.count == LOG_MAX_ENTRIES && Rotating(r, h)
  }

  lemma PushRotates(r: Ring, h: seq<Entry>, e: Entry)
    requires WellFormed(r) && |h| >= LOG_MAX_ENTRIES && Rotating(r, h)
    ensures Rotating(Push(r, e), h + [e])
  {
    var r', w := Push(r, e), Window(h);
    assert Window(h + [e]) == w[1..] + [e];
    forall i | 0 <= i < LOG_MAX_ENTRIES ensures r'.slots[Slot(r'.idx, i)] == (w[1..] + [e])[i] {
      SlotAfterPush(r.idx, i);
      if i + 1 < LOG_MAX_ENTRIES {
        assert r.slots[Slot(r.idx, i + 1)] == w[i + 1];
      }
    }
  }

  lemma PushFills(r: Ring, h: seq<Entry>, e: Entry)
    requires WellFormed(r) && r.count == |h| < LOG_MAX_ENTRIES && Filling(r, h)
    ensures Represents(Push(r, e), h + [e])
  {
    var r', h' := Push(r, e), h + [e];
    assert r'.slots[..r'.count] == r.slots[..r.count] + [e] == h';
    if |h'| < LOG_MAX_ENTRIES {
      assert r'.slots[r'.count..] == r.slots[r.count..][1..];
    } else {
      assert r'.slots == h' && r'.idx == 0;
      assert forall i :: 0 <= i < LOG_MAX_ENTRIES ==> Slot(0, i) == i;
    }
  }

  /** Recording an event in the ring appends it to the history the ring stands for. */
  lemma PushAppends(r: Ring, h: seq<Entry>, e: Entry)
    requires Represents(r, h)
    ensures Represents(Push(r, e), h + [e])
  {
    if |h| >= LOG_MAX_ENTRIES {
      PushRotates(r, h, e);
    } else {
      PushFills(r, h, e);
    }
  }

  /** The first n slots from idx on, going round. */
  function Rotated(slots: seq<Entry>, idx: nat, n: nat): (es: seq<Entry>)
    requires |slots| == LOG_MAX_ENTRIES && idx < LOG_MAX_ENTRIES
    ensures |es| == n && forall i :: 0 <= i < n ==> es[i] == slots[Slot(idx, i)]
  {
    seq(n, i requires 0 <= i < n => slots[Slot(idx, i)])
  }

  /** `log_read_all`, as a function of the ring. */
  function ReadAll(r: Ring, max: int): (es: seq<Entry>)
    requires WellFormed(r)
  {
    var n := if max <= 0 then 0 else Min(r.count, max);
    if r.count < LOG_MAX_ENTRIES then r.slots[..n]
    else Rotated(r.slots, r.idx, n)
  }

  /** Reading gives the oldest `max` of the last twenty events. */
  lemma ReadAllIsOldest(r: Ring, h: seq<Entry>, max: int)
    requires Represents(r, h)
    ensures ReadAll(r, max) == Oldest(h, max)
  {
    assert r.count == |Window(h)|;
    if |h| < LOG_MAX_ENTRIES && max > 0 {
      var n := Min(r.count, max);
      assert r.slots[..n] == r.slots[..r.count][..n];
    }
  }

  // ----- The file image

  function Image(r: Ring): (b: seq<byte>)
    requires WellFormed(r)
  {
    ToLE(r.count, 4) + ToLE(r.idx, 4) + EncodeAll(r.slots[..r.count])
  }

  /** A 32-bit two's complement integer. */
  function Int32(b: seq<byte>): int
    requires |b| == 4
  {
    var n := FromLE(b);
    if n < 0x8000_0000 then n else n - U32_RANGE
  }

  datatype Stored = Stored(entries: seq<Entry>, count: nat, idx: int)

  /** What `log_restore_cb` accepts, or nothing if it returns false and leaves the log empty. */
  function Restored(file: Option<seq<byte>>): (r: Option<Stored>)
    ensures r.Some? ==> r.value.count <= LOG_MAX_ENTRIES && |r.value.entries| == r.value.count
  {
    if file.None? || |file.value| < 8 then None
    else
      var b := file.value[..Min(|file.value|, 8 + LOG_MAX_ENTRIES * ENTRY_SIZE)];
      var count, idx := Int32(b[..4]), Int32(b[4..8]);
      if count < 0 || count > LOG_MAX_ENTRIES || |b| < 8 + count * ENTRY_SIZE then None
      else Some(Stored(DecodeAll(b[8..8 + count * ENTRY_SIZE]), count, idx))
  }

  /** Reading back an image gives the stored entries, count and index. */
  lemma ImageRoundTrip(r: Ring)
    requires WellFormed(r)
    ensures Restored(Some(Image(r))) == Some(Stored(r.slots[..r.count], r.count, r.idx))
  {
    var b := Image(r);
    assert Pow256(4) == 0x1_0000_0000;
    LERoundTrip(r.count, 4);
    LERoundTrip(r.idx, 4);
    EntriesRoundTrip(r.slots[..r.count]);
    assert b[..|b|] == b;
    assert b[..4] == ToLE(r.count, 4);
    assert b[4..8] == ToLE(r.idx, 4);
    assert b[8..8 + r.count * ENTRY_SIZE] == EncodeAll(r.slots[..r.count]);
  }

  /** The ring `log_init` builds: zeroed, then overlaid with a restored image. */
  function Booted(file: Option<seq<byte>>): (r: Ring) {
    match Restored(file)
    case None => Empty()
    case Some(Stored(es, count, idx)) => Ring(es + Blanks(LOG_MAX_ENTRIES - |es|), idx, count)
  }

  /** A reboot restores the flushed ring exactly, slot by slot. */
  lemma RebootRestoresRing(r: Ring, h: seq<Entry>)
    requires Represents(r, h)
    ensures Booted(Some(Image(r))) == r
  {
    ImageRoundTrip(r);
    assert r.slots == r.slots[..r.count] + r.slots[r.count..];
  }

  /**
   * The restored index is not checked: a file gives a ring that stands for some history exactly when it is refused,
   * or its index is a slot number and, unless the ring is full, equal to its count.
   */
  lemma RestoredIsALogIff(file: Option<seq<byte>>)
    ensures (exists h :: Represents(Booted(file), h)) <==>
      match Restored(file)
      case None => true
      case Some(s) => 0 <= s.idx < LOG_MAX_ENTRIES && (s.count == LOG_MAX_ENTRIES || s.idx == s.count)
  {
    hide Restored;
    var r := Booted(file);
    match Restored(file) {
      case None =>
        assert Represents(r, []) by { EmptyRepresents(); }
      case Some(Stored(es, n, idx)) =>
        if 0 <= idx < LOG_MAX_ENTRIES && n == LOG_MAX_ENTRIES {
          assert Represents(r, Rotated(r.slots, idx, n));
        } else if 0 <= idx < LOG_MAX_ENTRIES && idx == n {
          assert r.slots[..n] == es && r.slots[n..] == Blanks(LOG_MAX_ENTRIES - n);
          assert Represents(r, es);
        }
    }
  }

  /** Such a file: no entries, index 99. */
  lemma UncheckedIndex()
    ensures var file := Some(ToLE(0, 4) + ToLE(99, 4));
      Restored(file) == Some(Stored([], 0, 99)) && forall h :: !Represents(Booted(file), h)
  {
    var b := ToLE(0, 4) + ToLE(99, 4);
    assert Pow256(4) == 0x1_0000_0000;
    LERoundTrip(0, 4);
    LERoundTrip(99, 4);
    assert b[..|b|] == b && b[..4] == ToLE(0, 4) && b[4..8] == ToLE(99, 4) && b[8..8] == [];
    RestoredIsALogIff(Some(b));
  }

  // ----- Whole runs

  /** `Clear` is the CLEAR command: it deletes /log.bin, which may fail silently, and then clears the log. */
  datatype Event =
    | Record(e: Entry, writeOk: bool)
    | Clear(deleted: bool, writeOk: bool)
    | Flush(writeOk: bool)
    | Reboot

  datatype State = State(ring: Ring, dirty: bool, file: Option<seq<byte>>)

  /** The ring in RAM and the ring a reboot would build can both be written to. */
  predicate Sound(s: State) {
    WellFormed(s.ring) && WellFormed(Booted(s.file))
  }

  function Flushed(s: State, writeOk: bool): (r: State)
    requires Sound(s)
    ensures Sound(r)
  {
    if s.dirty && writeOk then
      ImageRoundTrip(s.ring);
      s.(dirty := false, file := Some(Image(s.ring)))
    else s
  }

  /** `log_clear` */
  function Cleared(s: State, writeOk: bool): (r: State)
    requires Sound(s)
    ensures Sound(r)
  {
    Flushed(s.(ring := Empty(), dirty := true), writeOk)
  }

  function Step(s: State, ev: Event): (r: State)
    requires Sound(s)
    ensures Sound(r)
  {
    match ev
    case Record(e, ok) => Flushed(s.(ring := Push(s.ring, e), dirty := true), ok)
    case Clear(deleted, ok) => Cleared(if deleted then s.(file := None) else s, ok)
    case Flush(ok) => Flushed(s, ok)
    case Reboot => State(Booted(s.file), false, s.file)
  }

  /** What the run means: the events still known, and those known at the last successful flush. */
  datatype Meaning = Meaning(live: seq<Entry>, saved: seq<Entry>)

  function Means(m: Meaning, ev: Event): Meaning {
    match ev
    case Record(e, ok) => Meaning(m.live + [e], if ok then m.live + [e] else m.saved)
    case Clear(deleted, ok) => Meaning([], if deleted || ok then [] else m.saved)
    case Flush(ok) => if ok then Meaning(m.live, m.live) else m
    case Reboot => Meaning(m.saved, m.saved)
  }

  function History(m: Meaning, evs: seq<Event>): Meaning
    decreases |evs|
  {
    if evs == [] then m else History(Means(m, evs[0]), evs[1..])
  }

  ghost predicate Refines(s: State, m: Meaning) {
    Represents(s.ring, m.live) &&
    Represents(Booted(s.file), m.saved) &&
    (!s.dirty ==> Window(m.saved) == Window(m.live))
  }

  lemma StepRefines(s: State, m: Meaning, ev: Event)
    requires Refines(s, m)
    ensures Refines(Step(s, ev), Means(m, ev))
  {
    match ev
    case Record(e, ok) =>
      PushAppends(s.ring, m.live, e);
      RebootRestoresRing(Push(s.ring, e), m.live + [e]);
    case Clear(deleted, ok) =>
      EmptyRepresents();
      RebootRestoresRing(Empty(), []);
    case Flush(ok) =>
      RebootRestoresRing(s.ring, m.live);
      if ok && !s.dirty {
        SameWindow(Booted(s.file), m.saved, m.live);
      }
    case Reboot =>
  }

  lemma EmptyRepresents()
    ensures Represents(Empty(), [])
  {}

  lemma SameWindow(r: Ring, h: seq<Entry>, h': seq<Entry>)
    requires Represents(r, h) && Window(h) == Window(h')
    ensures Represents(r, h')
  {}

  function Run(s: State, evs: seq<Event>): (r: State)
    requires Sound(s)
    ensures Sound(r)
    decreases |evs|
  {
    if evs == [] then s else Run(Step(s, evs[0]), evs[1..])
  }

  /** The log as shipped: nothing recorded, no file. */
  function Fresh(): (s: State)
    ensures Sound(s)
  {
    State(Empty(), false, None)
  }

  lemma {:induction false} RunRefines(s: State, m: Meaning, evs: seq<Event>)
    requires Refines(s, m)
    ensures Refines(Run(s, evs), History(m, evs))
    decreases |evs|
  {
    if evs != [] {
      StepRefines(s, m, evs[0]);
      RunRefines(Step(s, evs[0]), Means(m, evs[0]), evs[1..]);
    }
  }

  /** Any run from the shipped state, whatever writes fail and wherever the board reboots. */
  lemma LogRefinesHistory(evs: seq<Event>)
    ensures Refines(Run(Fresh(), evs), History(Meaning([], []), evs))
  {
    EmptyRepresents();
    RunRefines(Fresh(), Meaning([], []), evs);
  }

  predicate WriteFails(ev: Event) {
    match ev
    case Record(e, ok) => !ok
    case Clear(deleted, ok) => !deleted && !ok
    case Flush(ok) => !ok
    case Reboot => false
  }

  /** The events recorded since the last clear, given those recorded before. */
  function SinceClear(h: seq<Entry>, evs: seq<Event>): (r: seq<Entry>)
    decreases |evs|
  {
    if evs == [] then h
    else match evs[0]
      case Record(e, ok) => SinceClear(h + [e], evs[1..])
      case Clear(_, _) => SinceClear([], evs[1..])
      case Flush(ok) => SinceClear(h, evs[1..])
      case Reboot => SinceClear(h, evs[1..])
  }

  /** If no write fails, reboots are invisible: the log shows the last twenty events since the last clear. */
  lemma {:induction false} RebootsAreInvisible(m: Meaning, h: seq<Entry>, evs: seq<Event>)
    requires m.saved == m.live && Window(m.live) == Window(h)
    requires forall i :: 0 <= i < |evs| ==> !WriteFails(evs[i])
    ensures Window(History(m, evs).live) == Window(SinceClear(h, evs))
    decreases |evs|
  {
    if evs != [] {
      assert !WriteFails(evs[0]);
      match evs[0]
      case Record(e, _) =>
        WindowOfAppend(m.live, h, e);
        RebootsAreInvisible(Means(m, evs[0]), h + [e], evs[1..]);
      case Clear(_, _) => RebootsAreInvisible(Means(m, evs[0]), [], evs[1..]);
      case Flush(_) => RebootsAreInvisible(Means(m, evs[0]), h, evs[1..]);
      case Reboot => RebootsAreInvisible(Means(m, evs[0]), h, evs[1..]);
    }
  }

  lemma WindowOfAppend(h: seq<Entry>, h': seq<Entry>, e: Entry)
    requires Window(h) == Window(h')
    ensures Window(h + [e]) == Window(h' + [e])
  {
    var w := Window(h);
    forall g: seq<Entry> | Window(g) == w
      ensures Window(g + [e]) == if |w| < LOG_MAX_ENTRIES then w + [e] else w[1..] + [e]
    {
      if |w| == LOG_MAX_ENTRIES {
        assert (g + [e])[|g| + 1 - LOG_MAX_ENTRIES..] == g[|g| - LOG_MAX_ENTRIES..][1..] + [e];
      }
    }
  }

  /**
   * The whole claim: after any run in which no write fails, reading returns the last twenty events since the
   * last clear.
   */
  lemma ReadReturnsLastTwenty(evs: seq<Event>, max: int)
    requires forall i :: 0 <= i < |evs| ==> !WriteFails(evs[i])
    ensures ReadAll(Run(Fresh(), evs).ring, max) == Oldest(SinceClear([], evs), max)
  {
    LogRefinesHistory(evs);
    RebootsAreInvisible(Meaning([], []), [], evs);
    ReadAllIsOldest(Run(Fresh(), evs).ring, History(Meaning([], []), evs).live, max);
  }

  // ----- The module's own state and functions

  class Log {
    const entries: array<Entry>
    var writeIdx: int
    var count: nat
    var dirty: bool
    /** /log.bin; a write either replaces it or leaves it alone. */
    var file: Option<seq<byte>>

    ghost predicate Valid()
      reads this, entries
    {
      entries.Length == LOG_MAX_ENTRIES && 0 <= writeIdx < LOG_MAX_ENTRIES && count <= LOG_MAX_ENTRIES && Sound(View())
    }

    ghost function View(): (s: State)
      reads this, entries
    {
      State(Ring(entries[..], writeIdx, count), dirty, file)
    }

    /**
     * `log_init` at power-on, with whatever /log.bin holds. An index that is no slot number is taken over as it is,
     * and then the log is not valid.
     */
    constructor (file: Option<seq<byte>>)
      ensures View() == State(Booted(file), false, file)
      ensures Valid() <==> WellFormed(Booted(file))
      ensures fresh(entries)
    {
      hide Restored;
      entries := new Entry[LOG_MAX_ENTRIES](_ => BLANK);
      writeIdx, count, dirty := 0, 0, false;
      this.file := file;
      new;
      match Restored(file) {
        case None =>
          assert entries[..] == Blanks(LOG_MAX_ENTRIES);
        case Some(Stored(es, n, idx)) =>
          count, writeIdx := n, idx;
          for i := 0 to n
            invariant forall k :: 0 <= k < LOG_MAX_ENTRIES ==> entries[k] == if k < i then es[k] else BLANK
            modifies entries
          {
            entries[i] := es[i];
          }
          assert entries[..] == es + Blanks(LOG_MAX_ENTRIES - |es|);
      }
    }

    /** `log_flush`; writeOk is whether the file system takes the write. */
    method FlushLog(writeOk: bool) returns (ok: bool)
      requires Valid()
      modifies this`dirty, this`file
      ensures Valid() && View() == Flushed(old(View()), writeOk)
      ensures ok <==> !old(dirty) || writeOk
    {
      if !dirty {
        return true;
      }
      if writeOk {
        ghost var r := View().ring;
        ImageRoundTrip(r);
        file := Some(ToLE(count, 4) + ToLE(writeIdx, 4) + EncodeAll(entries[..count]));
        assert entries[..count] == r.slots[..r.count];
        dirty := false;
      }
      return writeOk;
    }

    method LogEvent(eventType: byte, result: byte, durationMs: u16, source: byte, timestamp: u32, writeOk: bool)
      requires Valid()
      modifies this`writeIdx, this`count, this`dirty, this`file, entries
      ensures Valid()
      ensures View() == Step(old(View()),
        Record(Entry(timestamp, eventType, result, durationMs, source, BLANK.reserved), writeOk))
    {
      var entry := BLANK.(timestamp := timestamp, eventType := eventType, result := result,
                          durationMs := durationMs, source := source);
      entries[writeIdx] := entry;
      writeIdx := (writeIdx + 1) % LOG_MAX_ENTRIES;
      if count < LOG_MAX_ENTRIES {
        count := count + 1;
      }
      dirty := true;
      assert View().ring == Push(old(View()).ring, entry) by {
        assert entries[..] == old(entries[..])[old(writeIdx) := entry];
      }
      var _ := FlushLog(writeOk);
    }

    method LogClear(writeOk: bool)
      requires Valid()
      modifies this`writeIdx, this`count, this`dirty, this`file, entries
      ensures Valid() && View() == Cleared(old(View()), writeOk)
    {
      for i := 0 to LOG_MAX_ENTRIES
        invariant forall k :: 0 <= k < i ==> entries[k] == BLANK
        modifies entries
      {
        entries[i] := BLANK;
      }
      assert entries[..] == Blanks(LOG_MAX_ENTRIES);
      writeIdx, count, dirty := 0, 0, true;
      var _ := FlushLog(writeOk);
    }

    /** The CLEAR command, as far as it concerns the log. */
    method HandleClear(deleted: bool, writeOk: bool)
      requires Valid()
      modifies this`writeIdx, this`count, this`dirty, this`file, entries
      ensures Valid() && View() == Step(old(View()), Clear(deleted, writeOk))
    {
      if deleted {
        file := None;
      }
      LogClear(writeOk);
    }

    method LogReadAll(out: array<Entry>, maxCount: int) returns (n: nat)
      requires Valid() && out != entries && maxCount <= out.Length
      modifies out
      ensures n <= out.Length && out[..n] == ReadAll(View().ring, maxCount)
      ensures out[n..] == old(out[..])[n..]
    {
      hide Rotated, Slot;
      if maxCount <= 0 {
        return 0;
      }
      n := if count < maxCount then count else maxCount;
      if count < LOG_MAX_ENTRIES {
        CopyFirst(out, n);
      } else {
        CopyRotated(out, writeIdx, n);
      }
    }

    method CopyFirst(out: array<Entry>, n: nat)
      requires Valid() && out != entries && n <= out.Length && n <= LOG_MAX_ENTRIES
      modifies out
      ensures out[..n] == entries[..][..n] && out[n..] == old(out[..])[n..]
    {
      for i := 0 to n
        invariant forall k :: 0 <= k < i ==> out[k] == entries[k]
        invariant forall k :: i <= k < out.Length ==> out[k] == old(out[k])
      {
        out[i] := entries[i];
      }
    }

    /** The copy from the oldest entry on, round the ring. */
    method CopyRotated(out: array<Entry>, start: nat, n: nat)
      requires Valid() && out != entries && start < LOG_MAX_ENTRIES && n <= out.Length
      modifies out
      ensures out[..n] == Rotated(entries[..], start, n) && out[n..] == old(out[..])[n..]
    {
      for i := 0 to n
        invariant forall k :: 0 <= k < i ==> out[k] == entries[Slot(start, k)]
        invariant forall k :: i <= k < out.Length ==> out[k] == old(out[k])
      {
        out[i] := entries[(start + i) % LOG_MAX_ENTRIES];
      }
    }
  }
}
