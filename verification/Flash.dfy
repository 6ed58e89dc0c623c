/** The 2 MB NOR flash, its layout, and the boot flag record kept in it. */
module Flash {

  /** A byte as flash sees it: eight bits that programming can only clear. */
  type octet = bv8

  /** A 32-byte SHA-256 digest. */
  type Digest = d: seq<octet> | |d| == 32 witness seq(32, _ => 0)

  const FLASH_TOTAL_SIZE: nat := 0x200000
  const FLASH_FS_SIZE: nat := 0x40000
  const FLASH_FS_OFFSET: nat := FLASH_TOTAL_SIZE - FLASH_FS_SIZE
  const FLASH_SECTOR_SIZE: nat := 4096
  const FLASH_PAGE_SIZE: nat := 256
  const PART_A_SIZE: nat := 0x100000
  const PART_B_OFFSET: nat := PART_A_SIZE
  const PART_B_SIZE: nat := FLASH_TOTAL_SIZE - PART_A_SIZE - FLASH_FS_SIZE
  const BOOT_FLAG_OFFSET: nat := FLASH_FS_OFFSET - FLASH_SECTOR_SIZE
  /** Where the flag sector starts, counted from the start of partition B. */
  const FLAG_IN_B: nat := BOOT_FLAG_OFFSET - PART_B_OFFSET

  // ----- NOR semantics: erase sets every bit, program can only clear bits

  function Erased(m: seq<octet>, off: nat, len: nat): (r: seq<octet>)
    requires off + len <= |m|
    ensures |r| == |m|
  {
    seq(|m|, i requires 0 <= i < |m| => if off <= i < off + len then 0xFF else m[i])
  }

  function Programmed(m: seq<octet>, off: nat, data: seq<octet>): (r: seq<octet>)
    requires off + |data| <= |m|
    ensures |r| == |m|
  {
    seq(|m|, i requires 0 <= i < |m| => if off <= i < off + |data| then m[i] & data[i - off] else m[i])
  }

  /** Programming only clears bits: those already clear stay clear, and doing it again changes nothing. */
  lemma ProgramOnlyClears(m: seq<octet>, off: nat, data: seq<octet>, i: nat)
    requires off + |data| <= |m| && i < |m|
    ensures Programmed(m, off, data)[i] & m[i] == Programmed(m, off, data)[i]
    ensures Programmed(Programmed(m, off, data), off, data)[i] == Programmed(m, off, data)[i]
    ensures off <= i < off + |data| ==> Programmed(m, off, data)[i] & data[i - off] == Programmed(m, off, data)[i]
  {
    if off <= i < off + |data| {
      AndTwice(m[i], data[i - off]);
    } else {
      AndTwice(m[i], m[i]);
    }
  }

  lemma AndTwice(a: octet, b: octet)
    ensures a & b & a == a & b && a & b & b == a & b && a & a == a
  {}

  method FlashRangeErase(flash: array<octet>, off: nat, len: nat)
    requires off + len <= flash.Length
    modifies flash
    ensures flash[..] == Erased(old(flash[..]), off, len)
  {
    for i := off to off + len
      invariant forall k :: 0 <= k < flash.Length ==>
        flash[k] == if off <= k < i then 0xFF else old(flash[k])
    {
      flash[i] := 0xFF;
    }
  }

  method FlashRangeProgram(flash: array<octet>, off: nat, data: seq<octet>)
    requires off + |data| <= flash.Length
    modifies flash
    ensures flash[..] == Programmed(old(flash[..]), off, data)
  {
    for i := 0 to |data|
      invariant forall k :: 0 <= k < flash.Length ==>
        flash[k] == if off <= k < off + i then old(flash[k]) & data[k - off] else old(flash[k])
    {
      flash[off + i] := flash[off + i] & data[i];
    }
  }

  // ----- Boot flags

  /** The record without its magic number, which is a constant once flags are loaded. */
  datatype BootFlags = BootFlags(active: octet, pending: octet, bootCount: octet, reserved: octet)

  /** BOOT_FLAG_MAGIC = 0x50574831 in memory order. */
  const MAGIC: seq<octet> := [0x31, 0x48, 0x57, 0x50]

  const DEFAULT_FLAGS := BootFlags(0, 0, 0, 0)

  predicate HasMagic(m: seq<octet>)
    requires |m| == FLASH_TOTAL_SIZE
  {
    m[BOOT_FLAG_OFFSET] == 0x31 && m[BOOT_FLAG_OFFSET + 1] == 0x48 &&
    m[BOOT_FLAG_OFFSET + 2] == 0x57 && m[BOOT_FLAG_OFFSET + 3] == 0x50
  }

  function ReadFlags(m: seq<octet>): (f: BootFlags)
    requires |m| == FLASH_TOTAL_SIZE
  {
    if HasMagic(m) then
      BootFlags(m[BOOT_FLAG_OFFSET + 4], m[BOOT_FLAG_OFFSET + 5], m[BOOT_FLAG_OFFSET + 6], m[BOOT_FLAG_OFFSET + 7])
    else
      DEFAULT_FLAGS
  }

  /** The page that `write_boot_flags` programs: the record, then 0xFF. */
  function FlagPage(f: BootFlags): (p: seq<octet>)
    ensures |p| == FLASH_PAGE_SIZE
  {
    MAGIC + [f.active, f.pending, f.bootCount, f.reserved] + seq(FLASH_PAGE_SIZE - 8, _ => 0xFF)
  }

  function FlagsErased(m: seq<octet>): (r: seq<octet>)
    requires |m| == FLASH_TOTAL_SIZE
    ensures |r| == FLASH_TOTAL_SIZE
  {
    Erased(m, BOOT_FLAG_OFFSET, FLASH_SECTOR_SIZE)
  }

  function FlagsProgrammed(m: seq<octet>, f: BootFlags): (r: seq<octet>)
    requires |m| == FLASH_TOTAL_SIZE
    ensures |r| == FLASH_TOTAL_SIZE
  {
    Programmed(m, BOOT_FLAG_OFFSET, FlagPage(f))
  }

  function FlagsWritten(m: seq<octet>, f: BootFlags): (r: seq<octet>)
    requires |m| == FLASH_TOTAL_SIZE
    ensures |r| == FLASH_TOTAL_SIZE
  {
    FlagsProgrammed(FlagsErased(m), f)
  }

  /** The flag sector as `write_boot_flags` leaves it. */
  function FlagSector(f: BootFlags): (s: seq<octet>)
    ensures |s| == FLASH_SECTOR_SIZE
  {
    FlagPage(f) + seq(FLASH_SECTOR_SIZE - FLASH_PAGE_SIZE, _ => 0xFF)
  }

  /** Writing the flags replaces that sector and nothing else. */
  lemma FlagsWrittenAt(m: seq<octet>, f: BootFlags, i: nat)
    requires |m| == FLASH_TOTAL_SIZE && i < FLASH_TOTAL_SIZE
    ensures FlagsWritten(m, f)[i] ==
      if BOOT_FLAG_OFFSET <= i < FLASH_FS_OFFSET then FlagSector(f)[i - BOOT_FLAG_OFFSET] else m[i]
  {
    hide FlagPage;
    var e := FlagsErased(m);
    assert e[i] == if BOOT_FLAG_OFFSET <= i < FLASH_FS_OFFSET then 0xFF else m[i];
    if BOOT_FLAG_OFFSET <= i < BOOT_FLAG_OFFSET + FLASH_PAGE_SIZE {
      AndOnes(FlagPage(f)[i - BOOT_FLAG_OFFSET]);
      assert FlagsProgrammed(e, f)[i] == e[i] & FlagPage(f)[i - BOOT_FLAG_OFFSET];
    } else {
      assert FlagsProgrammed(e, f)[i] == e[i];
    }
  }

  lemma AndOnes(b: octet)
    ensures 0xFF & b == b
  {}

  /** An erased flag sector reads back as "partition A active, nothing pending". */
  lemma ErasedFlagsReadDefault(m: seq<octet>)
    requires |m| == FLASH_TOTAL_SIZE
    ensures ReadFlags(FlagsErased(m)) == DEFAULT_FLAGS
    ensures forall i :: 0 <= i < |m| && !(BOOT_FLAG_OFFSET <= i < FLASH_FS_OFFSET) ==> FlagsErased(m)[i] == m[i]
  {
    assert FlagsErased(m)[BOOT_FLAG_OFFSET] == 0xFF;
  }

  /** Without its last magic octet a flag sector reads back as the defaults. */
  lemma NoMagicReadsDefault(m: seq<octet>)
    requires |m| == FLASH_TOTAL_SIZE
    requires m[BOOT_FLAG_OFFSET + 3] != MAGIC[3]
    ensures ReadFlags(m) == DEFAULT_FLAGS
  {}

  /** Programming a flag page over an erased sector stores exactly that record. */
  lemma ProgrammedFlagsReadBack(m: seq<octet>, f: BootFlags)
    requires |m| == FLASH_TOTAL_SIZE
    requires forall i :: BOOT_FLAG_OFFSET <= i < BOOT_FLAG_OFFSET + 8 ==> m[i] == 0xFF
    ensures ReadFlags(FlagsProgrammed(m, f)) == f
    ensures forall i :: 0 <= i < |m| && !(BOOT_FLAG_OFFSET <= i < FLASH_FS_OFFSET) ==> FlagsProgrammed(m, f)[i] == m[i]
  {
    var p := FlagPage(f);
    var r := FlagsProgrammed(m, f);
    assert r[BOOT_FLAG_OFFSET] == p[0] && r[BOOT_FLAG_OFFSET + 1] == p[1] && r[BOOT_FLAG_OFFSET + 2] == p[2] &&
      r[BOOT_FLAG_OFFSET + 3] == p[3] && r[BOOT_FLAG_OFFSET + 4] == p[4] && r[BOOT_FLAG_OFFSET + 5] == p[5] &&
      r[BOOT_FLAG_OFFSET + 6] == p[6] && r[BOOT_FLAG_OFFSET + 7] == p[7];
  }

  /** Writing flags and reading them is a round trip and touches nothing outside the flag sector. */
  lemma FlagsRoundTrip(m: seq<octet>, f: BootFlags)
    requires |m| == FLASH_TOTAL_SIZE
    ensures ReadFlags(FlagsWritten(m, f)) == f
    ensures forall i :: 0 <= i < |m| && !(BOOT_FLAG_OFFSET <= i < FLASH_FS_OFFSET) ==> FlagsWritten(m, f)[i] == m[i]
  {
    ErasedFlagsReadDefault(m);
    ProgrammedFlagsReadBack(FlagsErased(m), f);
  }
}
