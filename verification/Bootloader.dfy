/**
 * The over-the-air update receiver and the A/B boot selection (bootloader.c).
 *
 * The class keeps the firmware's counters, page buffer and flash; its ghost fields record the flash
 * contents just after the erase (`base`), the bytes received since (`stream`) and the pages programmed.
 */
module Bootloader {
  import opened Bytes
  import opened Flash

  const HASH_SIZE: nat := 32

  // ----- What a transfer leaves in flash, as a function of the erased flash and the bytes received

  function EraseSize(total: nat): (e: nat) {
    var e := ((total + FLASH_SECTOR_SIZE - 1) / FLASH_SECTOR_SIZE) * FLASH_SECTOR_SIZE;
    if e > PART_B_SIZE then PART_B_SIZE else e
  }

  predicate AcceptedSize(n: nat) {
    0 < n <= PART_B_SIZE - HASH_SIZE
  }

  /** The erase is the least whole number of sectors that holds the data, and holds its last, padded page. */
  lemma EraseCoversTransfer(total: nat)
    requires total <= PART_B_SIZE
    ensures EraseSize(total) % FLASH_SECTOR_SIZE == 0
    ensures total <= EraseSize(total) < total + FLASH_SECTOR_SIZE
    ensures EraseSize(total) <= PART_B_SIZE
    ensures total + (FLASH_PAGE_SIZE - 1 - (total + FLASH_PAGE_SIZE - 1) % FLASH_PAGE_SIZE) <= EraseSize(total)
  {
    var k := (total + FLASH_SECTOR_SIZE - 1) / FLASH_SECTOR_SIZE;
    assert PART_B_SIZE == 192 * FLASH_SECTOR_SIZE;
    assert k <= 192;
    assert EraseSize(total) == k * FLASH_SECTOR_SIZE;
  }

  /** The bounds check of `flash_write_page`. */
  predicate InStage(offset: nat) {
    PART_B_OFFSET <= offset && offset + FLASH_PAGE_SIZE <= PART_B_OFFSET + PART_B_SIZE
  }

  ghost predicate ErasedFor(base: seq<octet>, total: nat) {
    |base| == FLASH_TOTAL_SIZE && total <= PART_B_SIZE && EraseSize(total) <= PART_B_SIZE &&
    forall i :: PART_B_OFFSET <= i < PART_B_OFFSET + EraseSize(total) ==> base[i] == 0xFF
  }

  function Stored(base: seq<octet>, s: seq<octet>): (m: seq<octet>)
    requires |base| == FLASH_TOTAL_SIZE && |s| <= PART_B_SIZE
    ensures |m| == FLASH_TOTAL_SIZE
  {
    seq(|base|, i requires 0 <= i < |base| =>
      if PART_B_OFFSET <= i < PART_B_OFFSET + |s| then s[i - PART_B_OFFSET] else base[i])
  }

  function WholePages(s: seq<octet>): (w: seq<octet>)
    ensures |w| % FLASH_PAGE_SIZE == 0 && |s| < |w| + FLASH_PAGE_SIZE && w <= s
  {
    s[..|s| / FLASH_PAGE_SIZE * FLASH_PAGE_SIZE]
  }

  /** The page buffer after s: its unwritten tail, then what the last full page left behind. */
  function BufferAfter(buf0: seq<octet>, s: seq<octet>): (b: seq<octet>)
    requires |buf0| == FLASH_PAGE_SIZE
    ensures |b| == FLASH_PAGE_SIZE
  {
    var w := |WholePages(s)|;
    seq(FLASH_PAGE_SIZE, i requires 0 <= i < FLASH_PAGE_SIZE =>
      if w + i < |s| then s[w + i] else if w > 0 then s[w - FLASH_PAGE_SIZE + i] else buf0[i])
  }

  lemma NothingReceived(base: seq<octet>, buf0: seq<octet>)
    requires |base| == FLASH_TOTAL_SIZE && |buf0| == FLASH_PAGE_SIZE
    ensures Stored(base, []) == base && WholePages([]) == [] && BufferAfter(buf0, []) == buf0
  {}

  lemma ErasedForTransfer(m: seq<octet>, total: nat)
    requires |m| == FLASH_TOTAL_SIZE && total <= PART_B_SIZE
    ensures EraseSize(total) <= PART_B_SIZE && ErasedFor(Erased(m, PART_B_OFFSET, EraseSize(total)), total)
  {
    EraseCoversTransfer(total);
  }

  /** Receiving one octet changes one place of the page buffer. */
  lemma ByteLandsInBuffer(buf0: seq<octet>, s: seq<octet>, b: octet)
    requires |buf0| == FLASH_PAGE_SIZE
    ensures BufferAfter(buf0, s + [b]) == BufferAfter(buf0, s)[|s| - |WholePages(s)| := b]
    ensures |s| - |WholePages(s)| < FLASH_PAGE_SIZE - 1 ==>
      WholePages(s + [b]) == WholePages(s) && (|s| + 1) / FLASH_PAGE_SIZE == |s| / FLASH_PAGE_SIZE
  {
    var pos := |s| - |WholePages(s)|;
    if pos < FLASH_PAGE_SIZE - 1 {
      assert (|s| + 1) / FLASH_PAGE_SIZE == |s| / FLASH_PAGE_SIZE;
    } else {
      assert (|s| + 1) / FLASH_PAGE_SIZE == |s| / FLASH_PAGE_SIZE + 1;
    }
  }

  /** When the buffer fills up it holds exactly the last page of the stream. */
  lemma FullBufferIsPage(buf0: seq<octet>, s: seq<octet>)
    requires |buf0| == FLASH_PAGE_SIZE && 0 < |s| && |s| % FLASH_PAGE_SIZE == 0
    ensures |s| >= FLASH_PAGE_SIZE
    ensures BufferAfter(buf0, s) == s[|s| - FLASH_PAGE_SIZE..]
    ensures s[..|s| - FLASH_PAGE_SIZE] + BufferAfter(buf0, s) == s
  {}

  /** The page `flush_write_buffer` programs: the buffered bytes, then 0xFF. */
  function Padded(rest: seq<octet>): (p: seq<octet>)
    requires |rest| <= FLASH_PAGE_SIZE
    ensures |p| == FLASH_PAGE_SIZE
  {
    rest + seq(FLASH_PAGE_SIZE - |rest|, _ => 0xFF)
  }

  lemma PaddedIs(buf: seq<octet>, pos: nat)
    requires |buf| == FLASH_PAGE_SIZE && pos <= FLASH_PAGE_SIZE
    requires forall k :: pos <= k < FLASH_PAGE_SIZE ==> buf[k] == 0xFF
    ensures buf == Padded(buf[..pos])
  {}

  /** Offsets of the first n pages of partition B. */
  function PageOffsets(n: nat): (p: seq<nat>) {
    seq(n, j requires 0 <= j < n => PART_B_OFFSET + FLASH_PAGE_SIZE * j)
  }

  /** AND-programming one page into erased flash appends its bytes exactly; 0xFF padding changes nothing. */
  lemma PageAppends(base: seq<octet>, s: seq<octet>, rest: seq<octet>, total: nat)
    requires ErasedFor(base, total) && |s| + |rest| <= total
    requires |s| % FLASH_PAGE_SIZE == 0 && 0 < |rest| <= FLASH_PAGE_SIZE
    ensures InStage(PART_B_OFFSET + |s|)
    ensures |s| + FLASH_PAGE_SIZE <= EraseSize(total)
    ensures Programmed(Stored(base, s), PART_B_OFFSET + |s|, Padded(rest)) == Stored(base, s + rest)
  {
    EraseCoversTransfer(total);
    PageBelowEnd(|s|, EraseSize(total));
    var m, off := Stored(base, s), PART_B_OFFSET + |s|;
    var page := Padded(rest);
    var r := Programmed(m, off, page);
    forall i | 0 <= i < |m| ensures r[i] == Stored(base, s + rest)[i] {
      if off <= i < off + FLASH_PAGE_SIZE {
        assert 0xFF & page[i - off] == page[i - off];
      }
    }
  }

  lemma PageBelowEnd(a: nat, e: nat)
    requires a % FLASH_PAGE_SIZE == 0 && e % FLASH_SECTOR_SIZE == 0 && a < e
    ensures a + FLASH_PAGE_SIZE <= e
  {
    var k := e / FLASH_SECTOR_SIZE;
    assert e == FLASH_PAGE_SIZE * (16 * k);
  }

  /** No two pages of a transfer coincide: each page is programmed at most once. */
  lemma PagesAreDistinct(n: nat, i: nat, j: nat)
    requires i < j < n
    ensures PageOffsets(n)[i] + FLASH_PAGE_SIZE <= PageOffsets(n)[j]
  {}

  /** `received * 100 / total` in 32-bit arithmetic, truncated to a byte. */
  function Percent(received: nat, total: nat): (p: byte) {
    if total == 0 then 0 else (received * 100 % U32_RANGE / total) % 256
  }

  /** For every accepted transfer neither the product nor the byte overflows, and the percentage never goes back. */
  lemma PercentIsExact(received: nat, more: nat, total: nat)
    requires 0 < total <= PART_B_SIZE && received + more <= total
    ensures Percent(received, total) == received * 100 / total <= 100
    ensures Percent(received, total) <= Percent(received + more, total)
    ensures Percent(received, total) == 100 <==> received == total
  {
    var part, later := received * 100, (received + more) * 100;
    Hundredths(received, total);
    Hundredths(received + more, total);
    DivMonotone(part, later, total);
    NoWrap(part, total);
    NoWrap(later, total);
  }

  lemma NoWrap(x: nat, total: nat)
    requires total > 0 && x < U32_RANGE && x / total <= 100
    ensures (x % U32_RANGE / total) % 256 == x / total
  {
    var wrapped := x % U32_RANGE;
    assert wrapped == x;
    var q := x / total;
    assert q % 256 == q;
  }

  lemma Hundredths(part: nat, total: nat)
    requires 0 < total && part <= total
    ensures part * 100 / total <= 100
    ensures part * 100 / total == 100 <==> part == total
  {
    var p := part * 100 / total;
    DivBounds(part * 100, total);
    MulCancels(total, p, 101);
    MulCancels(total, p, 100);
    MulCancels(total, 99, p);
  }

  lemma DivMonotone(a: nat, b: nat, d: nat)
    requires d > 0 && a <= b
    ensures a / d <= b / d
  {
    DivBounds(a, d);
    DivBounds(b, d);
    MulCancels(d, a / d, b / d + 1);
  }

  lemma DivBounds(a: nat, d: nat)
    requires d > 0
    ensures d * (a / d) <= a < d * (a / d + 1)
  {}

  lemma MulCancels(d: nat, x: int, y: int)
    requires d > 0
    ensures d * x < d * y <==> x < y
  {
    assert d * (y - x) == d * y - d * x;
  }

  function Flatten(chunks: seq<seq<octet>>): (s: seq<octet>) {
    if chunks == [] then [] else chunks[0] + Flatten(chunks[1..])
  }

  lemma {:induction false} FlattenAppend(chunks: seq<seq<octet>>, last: seq<octet>)
    ensures Flatten(chunks + [last]) == Flatten(chunks) + last
  {
    if chunks == [] {
      assert chunks + [last] == [last];
    } else {
      FlattenAppend(chunks[1..], last);
      assert (chunks + [last])[1..] == chunks[1..] + [last];
    }
  }

  lemma {:induction false} FlattenPrefix(chunks: seq<seq<octet>>, i: nat)
    requires i <= |chunks|
    ensures |Flatten(chunks[..i])| <= |Flatten(chunks)|
  {
    if i > 0 {
      FlattenPrefix(chunks[1..], i - 1);
      assert chunks[..i][1..] == chunks[1..][..i - 1];
    }
  }

  // ----- Boot selection over the flash contents

  function Other(active: octet): octet {
    if active == 0 then 1 else 0
  }

  function RolledBack(f: BootFlags): BootFlags {
    f.(active := Other(f.active), pending := 0, bootCount := 0)
  }

  function Accepted(f: BootFlags): BootFlags {
    f.(active := Other(f.active), pending := 1, bootCount := 0)
  }

  function Confirmed(f: BootFlags): BootFlags {
    f.(pending := 0, bootCount := 0)
  }

  /** `boot_count++` on a uint8_t. */
  function BootCounted(f: BootFlags): BootFlags {
    f.(bootCount := f.bootCount + 1)
  }

  datatype BootResult = BootResult(flash: seq<octet>, flags: BootFlags, rebooted: bool)

  /** One uninterrupted `bootloader_init`: flash afterwards, flags in RAM, and whether it rolled back and reset. */
  function BootOnce(m: seq<octet>): (r: BootResult)
    requires |m| == FLASH_TOTAL_SIZE
  {
    var f := ReadFlags(m);
    if f.pending == 0 then BootResult(m, f, false)
    else
      var f1 := BootCounted(f);
      var m1 := FlagsWritten(m, f1);
      if f1.bootCount > 1 then BootResult(FlagsWritten(m1, RolledBack(f1)), RolledBack(f1), true)
      else BootResult(m1, f1, false)
  }

  /** The last of n successive boots. */
  function Boots(m: seq<octet>, n: nat): (r: BootResult)
    requires |m| == FLASH_TOTAL_SIZE && n > 0
    decreases n
    ensures |r.flash| == FLASH_TOTAL_SIZE
  {
    if n == 1 then BootOnce(m) else Boots(BootOnce(m).flash, n - 1)
  }

  class Receiver {
    const flash: array<octet>
    const sha: seq<octet> -> Digest
    const writeBuf: array<octet>
    var flags: BootFlags
    var flagsLoaded: bool
    var expectedSize: nat
    var received: nat
    var totalSize: nat
    var writeOffset: nat
    var writeBufPos: nat

    ghost var base: seq<octet>
    ghost var buf0: seq<octet>
    ghost var stream: seq<octet>
    ghost var programmed: seq<nat>

    ghost predicate Valid() {
      flash.Length == FLASH_TOTAL_SIZE && writeBuf.Length == FLASH_PAGE_SIZE && flash != writeBuf
    }

    /** The transfer so far: what precedes `writeOffset` is in flash, the rest is in the page buffer. */
    ghost predicate Buffered()
      reads this, flash, writeBuf
    {
      Valid() &&
      AcceptedSize(expectedSize) && totalSize == expectedSize + HASH_SIZE &&
      ErasedFor(base, totalSize) && |buf0| == FLASH_PAGE_SIZE &&
      |stream| <= totalSize && received == |stream| &&
      PART_B_OFFSET <= writeOffset && writeBufPos <= FLASH_PAGE_SIZE &&
      writeOffset - PART_B_OFFSET + writeBufPos == |stream| &&
      writeOffset - PART_B_OFFSET == FLASH_PAGE_SIZE * |programmed| &&
      flash[..] == Stored(base, stream[..writeOffset - PART_B_OFFSET]) &&
      writeBuf[..] == BufferAfter(buf0, stream) &&
      programmed == PageOffsets(|programmed|)
    }

    ghost predicate Receiving()
      reads this, flash, writeBuf
    {
      Buffered() && writeBufPos < FLASH_PAGE_SIZE
    }

    /** Between calls every part of the receiver's state is a function of `base`, `buf0` and the bytes received. */
    lemma StateIsFunctionOfStream()
      requires Receiving()
      ensures received == |stream|
      ensures writeOffset == PART_B_OFFSET + |WholePages(stream)|
      ensures writeBufPos == |stream| - |WholePages(stream)|
      ensures writeBuf[..] == BufferAfter(buf0, stream)
      ensures flash[..] == Stored(base, WholePages(stream))
      ensures programmed == PageOffsets(|stream| / FLASH_PAGE_SIZE)
    {
      assert |programmed| == |stream| / FLASH_PAGE_SIZE;
    }

    constructor (flash: array<octet>, sha: seq<octet> -> Digest)
      requires flash.Length == FLASH_TOTAL_SIZE
      ensures Valid() && this.flash == flash && this.sha == sha
      ensures !flagsLoaded && totalSize == 0 && received == 0
      ensures fresh(writeBuf)
    {
      this.flash, this.sha := flash, sha;
      writeBuf := new octet[FLASH_PAGE_SIZE](_ => 0);
      flags, flagsLoaded := BootFlags(0, 0, 0, 0), false;
      expectedSize, received, totalSize, writeOffset, writeBufPos := 0, 0, 0, 0, 0;
      base, buf0, stream, programmed := [], [], [], [];
      new;
    }

    method ReadBootFlags()
      requires Valid()
      modifies `flags, `flagsLoaded
      ensures flagsLoaded && flags == ReadFlags(flash[..])
    {
      flags := BootFlags(flash[BOOT_FLAG_OFFSET + 4], flash[BOOT_FLAG_OFFSET + 5],
                         flash[BOOT_FLAG_OFFSET + 6], flash[BOOT_FLAG_OFFSET + 7]);
      if !(flash[BOOT_FLAG_OFFSET] == 0x31 && flash[BOOT_FLAG_OFFSET + 1] == 0x48 &&
           flash[BOOT_FLAG_OFFSET + 2] == 0x57 && flash[BOOT_FLAG_OFFSET + 3] == 0x50) {
        flags := DEFAULT_FLAGS;
      }
      flagsLoaded := true;
    }

    method WriteBootFlags()
      requires Valid()
      modifies flash
      ensures flash[..] == FlagsWritten(old(flash[..]), flags)
      ensures ReadFlags(flash[..]) == flags
    {
      FlagsRoundTrip(flash[..], flags);
      FlashRangeErase(flash, BOOT_FLAG_OFFSET, FLASH_SECTOR_SIZE);
      FlashRangeProgram(flash, BOOT_FLAG_OFFSET, FlagPage(flags));
    }

    method FlashWritePage(offset: nat, data: seq<octet>) returns (ok: bool)
      requires Valid() && |data| == FLASH_PAGE_SIZE
      modifies flash, `programmed
      ensures ok == InStage(offset)
      ensures ok ==> flash[..] == Programmed(old(flash[..]), offset, data) && programmed == old(programmed) + [offset]
      ensures !ok ==> unchanged(flash) && unchanged(`programmed)
    {
      if offset < PART_B_OFFSET || offset + FLASH_PAGE_SIZE > PART_B_OFFSET + PART_B_SIZE {
        return false;
      }
      FlashRangeProgram(flash, offset, data);
      programmed := programmed + [offset];
      return true;
    }

    /** Pads the buffer with 0xFF and programs it as one page; an empty buffer writes nothing. */
    method FlushWriteBuffer() returns (ok: bool)
      requires Valid() && writeBufPos <= FLASH_PAGE_SIZE
      modifies flash, writeBuf, `programmed, `writeOffset, `writeBufPos
      ensures ok == (old(writeBufPos) == 0 || InStage(old(writeOffset)))
      ensures old(writeBufPos) == 0 ==> unchanged(flash) && unchanged(writeBuf) && unchanged(this)
      ensures old(writeBufPos) > 0 ==>
        writeBuf[..] == Padded(old(writeBuf[..writeBufPos]))
      ensures old(writeBufPos) > 0 && ok ==>
        old(writeOffset) + FLASH_PAGE_SIZE <= FLASH_TOTAL_SIZE &&
        flash[..] == Programmed(old(flash[..]), old(writeOffset), writeBuf[..]) &&
        programmed == old(programmed) + [old(writeOffset)] &&
        writeOffset == old(writeOffset) + FLASH_PAGE_SIZE && writeBufPos == 0
    {
      hide Padded;
      if writeBufPos == 0 {
        return true;
      }
      for i := writeBufPos to FLASH_PAGE_SIZE
        invariant writeBuf[..writeBufPos] == old(writeBuf[..writeBufPos])
        invariant forall k :: writeBufPos <= k < i ==> writeBuf[k] == 0xFF
        modifies writeBuf
      {
        writeBuf[i] := 0xFF;
      }
      PaddedIs(writeBuf[..], writeBufPos);
      ok := FlashWritePage(writeOffset, writeBuf[..]);
      if !ok {
        return;
      }
      writeOffset := writeOffset + FLASH_PAGE_SIZE;
      writeBufPos := 0;
    }

    /** Boot: count the boot of an unconfirmed image, and roll back (and reset) on the second. */
    method Init() returns (rebooted: bool)
      requires Valid()
      modifies flash, `flags, `flagsLoaded
      ensures flagsLoaded
      ensures BootResult(flash[..], flags, rebooted) == BootOnce(old(flash[..]))
    {
      ReadBootFlags();
      rebooted := false;
      if flags.pending != 0 {
        flags := flags.(bootCount := flags.bootCount + 1);
        WriteBootFlags();
        if flags.bootCount > 1 {
          rebooted := Rollback();
        }
      }
    }

    method Rollback() returns (rebooted: bool)
      requires Valid()
      modifies flash, `flags
      ensures rebooted == flagsLoaded
      ensures flagsLoaded ==> flags == RolledBack(old(flags)) && flash[..] == FlagsWritten(old(flash[..]), flags)
      ensures !flagsLoaded ==> unchanged(flash) && flags == old(flags)
    {
      if !flagsLoaded {
        return false;
      }
      flags := flags.(active := if flags.active == 0 then 1 else 0, pending := 0, bootCount := 0);
      WriteBootFlags();
      return true;
    }

    method Confirm()
      requires Valid()
      modifies flash, `flags
      ensures flagsLoaded && old(flags).pending != 0 ==>
        flags == old(flags).(pending := 0, bootCount := 0) && flash[..] == FlagsWritten(old(flash[..]), flags)
      ensures !flagsLoaded || old(flags).pending == 0 ==> unchanged(flash) && flags == old(flags)
    {
      if !flagsLoaded {
        return;
      }
      if flags.pending != 0 {
        flags := flags.(pending := 0, bootCount := 0);
        WriteBootFlags();
      }
    }

    /** Refuses sizes that do not fit; otherwise erases the staging range and starts an empty transfer. */
    method StartFlash(firmwareSize: nat) returns (ok: bool)
      requires Valid() && firmwareSize < U32_RANGE
      modifies flash, `expectedSize, `received, `totalSize, `writeOffset, `writeBufPos, `base, `buf0, `stream,
        `programmed
      ensures ok <==> 1 <= firmwareSize <= 0xC0000 - 32
      ensures !ok ==> unchanged(this) && unchanged(flash)
      ensures ok ==> Receiving() && stream == [] && expectedSize == firmwareSize
      ensures ok ==> base == Erased(old(flash[..]), PART_B_OFFSET, EraseSize(firmwareSize + HASH_SIZE)) == flash[..]
    {
      hide Erased, Stored, BufferAfter, ErasedFor, WholePages;
      if firmwareSize == 0 || firmwareSize > PART_B_SIZE - HASH_SIZE {
        return false;
      }
      expectedSize := firmwareSize;
      totalSize := firmwareSize + HASH_SIZE;
      received := 0;
      writeOffset := PART_B_OFFSET;
      writeBufPos := 0;

      var eraseSize := ((totalSize + FLASH_SECTOR_SIZE - 1) / FLASH_SECTOR_SIZE) * FLASH_SECTOR_SIZE;
      if eraseSize > PART_B_SIZE {
        eraseSize := PART_B_SIZE;
      }
      FlashRangeErase(flash, PART_B_OFFSET, eraseSize);

      base, buf0, stream, programmed := flash[..], writeBuf[..], [], [];
      ErasedForTransfer(old(flash[..]), totalSize);
      NothingReceived(base, buf0);
      return true;
    }

    /** Stores one octet; a full buffer is programmed at once. */
    method FeedByte(b: octet) returns (ok: bool)
      requires Receiving() && received < totalSize
      modifies this`received, this`writeBufPos, this`writeOffset, this`stream, this`programmed, flash, writeBuf
      ensures ok && Receiving() && stream == old(stream) + [b]
    {
      StateIsFunctionOfStream();
      ByteLandsInBuffer(buf0, stream, b);
      writeBuf[writeBufPos] := b;
      writeBufPos := writeBufPos + 1;
      received := received + 1;
      stream := stream + [b];
      assert stream[..writeOffset - PART_B_OFFSET] == old(stream)[..writeOffset - PART_B_OFFSET];
      ok := true;
      if writeBufPos >= FLASH_PAGE_SIZE {
        ok := FlushFullBuffer();
      }
    }

    method FlushFullBuffer() returns (ok: bool)
      requires Buffered() && writeBufPos == FLASH_PAGE_SIZE
      modifies flash, writeBuf, this`programmed, this`writeOffset, this`writeBufPos
      ensures ok && Receiving()
    {
      ghost var page, after, pages := writeBuf[..], Stored(base, stream), |programmed| + 1;
      assert Padded(writeBuf[..writeBufPos]) == page;
      assert InStage(writeOffset) && Programmed(flash[..], writeOffset, page) == after by {
        ghost var w := stream[..writeOffset - PART_B_OFFSET];
        FullBufferIsPage(buf0, stream);
        PageAppends(base, w, page, totalSize);
        assert w + page == stream && page == Padded(page);
      }
      assert programmed + [writeOffset] == PageOffsets(pages);
      ok := FlushWriteBuffer();
      assert flash[..] == after && stream[..writeOffset - PART_B_OFFSET] == stream;
    }

    /**
     * Feeds a chunk. `received + len` is a 32-bit sum; it cannot wrap for any object that fits the address space
     * beside the counter.
     */
    method FeedData(data: seq<octet>) returns (ok: bool)
      requires Receiving() && received + |data| < U32_RANGE
      modifies this`received, this`writeBufPos, this`writeOffset, this`stream, this`programmed, flash, writeBuf
      ensures Receiving()
      ensures ok <==> |old(stream)| + |data| <= totalSize
      ensures ok ==> stream == old(stream) + data
      ensures !ok ==> unchanged(this) && unchanged(flash) && unchanged(writeBuf)
    {
      if received + |data| > totalSize {
        return false;
      }
      for i := 0 to |data|
        invariant Receiving()
        invariant stream == old(stream) + data[..i]
      {
        assert data[..i + 1] == data[..i] + [data[i]];
        var fed := FeedByte(data[i]);
        if !fed {
          return false;
        }
      }
      return true;
    }

    predicate IsComplete()
      reads this
    {
      received >= totalSize
    }

    /** The flush that opens `bootloader_finalize`: every received octet is now in flash. */
    method FlushRest() returns (ok: bool)
      requires Receiving()
      modifies flash, writeBuf, this`writeBufPos, this`writeOffset, this`programmed
      ensures ok && flash[..] == Stored(base, stream)
      ensures programmed == PageOffsets((|stream| + FLASH_PAGE_SIZE - 1) / FLASH_PAGE_SIZE)
    {
      StateIsFunctionOfStream();
      if writeBufPos == 0 {
        assert WholePages(stream) == stream;
        return true;
      }
      ghost var pages := |programmed| + 1;
      assert InStage(writeOffset) &&
        Programmed(flash[..], writeOffset, Padded(writeBuf[..writeBufPos])) == Stored(base, stream) by {
        ghost var w := WholePages(stream);
        ghost var rest := stream[|w|..];
        assert writeBuf[..writeBufPos] == BufferAfter(buf0, stream)[..writeBufPos] == rest;
        PageAppends(base, w, rest, totalSize);
        assert w + rest == stream;
      }
      assert programmed + [writeOffset] == PageOffsets(pages);
      ok := FlushWriteBuffer();
      assert (|stream| + FLASH_PAGE_SIZE - 1) / FLASH_PAGE_SIZE == pages;
    }

    /**
     * Verifies the stored image against the trailing digest. On success the flags select the other partition and the
     * board resets, so `accepted` means "rebooting". `shaOk` is whether the digest library reported success.
     */
    method Finalize(shaOk: bool) returns (accepted: bool)
      requires Receiving() && IsComplete()
      modifies flash, writeBuf, this`writeBufPos, this`writeOffset, this`programmed, this`flags
      ensures accepted <==> shaOk && stream[expectedSize..] == sha(stream[..expectedSize])
      ensures !accepted ==> flags == old(flags) && flash[..] == Stored(base, stream)
      ensures accepted ==> flags == Accepted(old(flags)) && flash[..] == FlagsWritten(Stored(base, stream), flags)
      ensures programmed == PageOffsets((totalSize + FLASH_PAGE_SIZE - 1) / FLASH_PAGE_SIZE)
    {
      var flushed := FlushRest();
      if !flushed {
        return false;
      }
      ghost var after := Stored(base, stream);
      var hashOffset := PART_B_OFFSET + expectedSize;
      var receivedHash := flash[hashOffset..hashOffset + HASH_SIZE];
      var image := flash[PART_B_OFFSET..hashOffset];
      assert receivedHash == after[hashOffset..hashOffset + HASH_SIZE] == stream[expectedSize..];
      assert image == after[PART_B_OFFSET..hashOffset] == stream[..expectedSize];
      if !shaOk {
        return false;
      }
      if sha(image) != receivedHash {
        return false;
      }
      flags := flags.(active := if flags.active == 0 then 1 else 0, pending := 1, bootCount := 0);
      WriteBootFlags();
      return true;
    }

    function Progress(): (p: byte)
      reads this
    {
      Percent(received, totalSize)
    }
  }
}
