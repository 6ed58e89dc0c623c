/**
 * The device as a state machine whose steps are single flash operations, so that a power cut can fall between
 * any two of them: sector by sector in the staging erase, and between the erase and the program of the flag sector.
 */
module UpdateSafety {
  import opened Wrappers
  import opened Flash
  import opened Bootloader

  /** What follows a flag write: the roll-back decision, a reset, or the main loop. */
  datatype Then = Decide | Reset | Resume

  datatype Pc =
    | Off
    | EraseFlags(next: Then)
    | ProgramFlags(next: Then)
    | Counted
    | Running
    | ErasingStage(sectors: nat)
    | Receiving
    | Verifying

  /**
   * `flags`, `size` and `stream` are RAM. `base`,
     `verified` and `received` are history: the flash just before or after the
   * staging erase, and the last image that `bootloader_finalize` accepted.
   */
  datatype Device = Device(flash: seq<octet>, pc: Pc, flags: BootFlags, size: nat, stream: seq<octet>,
                           base: seq<octet>, verified: Option<seq<octet>>, received: seq<octet>)

  datatype Event =
    | PowerOn
    | PowerCut
    | Tick
    | BootOk
    | Start(size: nat)
    | Feed(b: octet)
    | Overrun(len: nat)
    | Finish
    | Check(shaOk: bool)

  function SectorErased(m: seq<octet>, k: nat): (r: seq<octet>)
    requires |m| == FLASH_TOTAL_SIZE && k < PART_B_SIZE / FLASH_SECTOR_SIZE
  {
    Erased(m, PART_B_OFFSET + k * FLASH_SECTOR_SIZE, FLASH_SECTOR_SIZE)
  }

  function After(next: Then): Pc {
    match next
    case Decide => Counted
    case Reset => Off
    case Resume => Running
  }

  function HashMatches(sha: seq<octet> -> Digest, m: seq<octet>, size: nat): bool
    requires |m| == FLASH_TOTAL_SIZE && AcceptedSize(size)
  {
    sha(m[PART_B_OFFSET..PART_B_OFFSET + size]) == m[PART_B_OFFSET + size..PART_B_OFFSET + size + HASH_SIZE]
  }

  /** `read_boot_flags` and the count of an unconfirmed boot. */
  function Boot(d: Device): (r: Device)
    requires |d.flash| == FLASH_TOTAL_SIZE
    ensures |r.flash| == FLASH_TOTAL_SIZE
  {
    var f := ReadFlags(d.flash);
    if f.pending == 0 then d.(pc := Running, flags := f)
    else d.(pc := EraseFlags(Decide), flags := BootCounted(f))
  }

  /** The next flash operation or decision of whatever is under way. */
  function Advance(d: Device): (r: Device)
    requires |d.flash| == FLASH_TOTAL_SIZE
    ensures |r.flash| == FLASH_TOTAL_SIZE
  {
    match d.pc
    case EraseFlags(next) => d.(flash := FlagsErased(d.flash), pc := ProgramFlags(next))
    case ProgramFlags(next) => d.(flash := FlagsProgrammed(d.flash, d.flags), pc := After(next))
    case Counted =>
      if d.flags.bootCount > 1 then d.(pc := EraseFlags(Reset), flags := RolledBack(d.flags))
      else d.(pc := Running)
    case ErasingStage(k) =>
      if d.size <= PART_B_SIZE && k * FLASH_SECTOR_SIZE < EraseSize(d.size + HASH_SIZE) then
        d.(flash := SectorErased(d.flash, k), pc := ErasingStage(k + 1))
      else
        d.(pc := Receiving, base := d.flash)
    case _ => d
  }

  /** One byte of `bootloader_feed_data`. */
  function Fed(d: Device, b: octet): (r: Device)
    requires |d.flash| == FLASH_TOTAL_SIZE
    ensures |r.flash| == FLASH_TOTAL_SIZE
  {
    if |d.stream| >= d.size + HASH_SIZE || d.size > PART_B_SIZE - HASH_SIZE then d
    else
      var s := d.stream + [b];
      if |s| % FLASH_PAGE_SIZE != 0 then d.(stream := s)
      else
        var done := |s| - FLASH_PAGE_SIZE;
        d.(stream := s, flash := Programmed(d.flash, PART_B_OFFSET + done, Padded(s[done..])))
  }

  /** The flush that opens `bootloader_finalize`, once the transfer is complete. */
  function Finished(d: Device): (r: Device)
    requires |d.flash| == FLASH_TOTAL_SIZE
    ensures |r.flash| == FLASH_TOTAL_SIZE
  {
    if |d.stream| != d.size + HASH_SIZE || !AcceptedSize(d.size) then d
    else
      var done := |WholePages(d.stream)|;
      if done == |d.stream| then d.(pc := Verifying)
      else d.(pc := Verifying, flash := Programmed(d.flash, PART_B_OFFSET + done, Padded(d.stream[done..])))
  }

  /** The digest check, and the flag record it prepares on success. */
  function Checked(sha: seq<octet> -> Digest, d: Device, shaOk: bool): (r: Device)
    requires |d.flash| == FLASH_TOTAL_SIZE
    ensures |r.flash| == FLASH_TOTAL_SIZE
  {
    if AcceptedSize(d.size) && shaOk && HashMatches(sha, d.flash, d.size) then
      d.(pc := EraseFlags(Reset), flags := Accepted(d.flags),
         verified := Some(d.flash[PART_B_OFFSET..PART_B_OFFSET + d.size]), received := d.stream)
    else
      d.(pc := Running)
  }

  /**
   * One step; an event that is not enabled leaves the device as it is. `Overrun` is a chunk longer than what is still
   * expected: it is refused whole, flash mode ends, and the same boot goes on.
   */
  function Step(sha: seq<octet> -> Digest, d: Device, e: Event): (r: Device)
    requires |d.flash| == FLASH_TOTAL_SIZE
    ensures |r.flash| == FLASH_TOTAL_SIZE
  {
    match e
    case PowerCut => d.(pc := Off)
    case PowerOn => if d.pc == Off then Boot(d) else d
    case Tick => Advance(d)
    case BootOk =>
      if d.pc == Running && d.flags.pending != 0 then d.(pc := EraseFlags(Resume), flags := Confirmed(d.flags)) else d
    case Start(n) =>
      if d.pc == Running && AcceptedSize(n) then
        d.(pc := ErasingStage(0), size := n, stream := [], base := d.flash) else d
    case Feed(b) => if d.pc == Receiving then Fed(d, b) else d
    case Overrun(len) =>
      if d.pc == Receiving && |d.stream| < d.size + HASH_SIZE < |d.stream| + len then d.(pc := Running) else d
    case Finish => if d.pc == Receiving then Finished(d) else d
    case Check(shaOk) => if d.pc == Verifying then Checked(sha, d, shaOk) else d
  }

  function Run(sha: seq<octet> -> Digest, d: Device, es: seq<Event>): (r: Device)
    requires |d.flash| == FLASH_TOTAL_SIZE
    ensures |r.flash| == FLASH_TOTAL_SIZE
    decreases |es|
  {
    if es == [] then d else Run(sha, Step(sha, d, es[0]), es[1..])
  }

  // ----- What must always hold

  ghost predicate Holds(d: Device) {
    |d.flash| == FLASH_TOTAL_SIZE && d.verified.Some? && 0 < |d.verified.value| <= PART_B_SIZE &&
    d.flash[PART_B_OFFSET..PART_B_OFFSET + |d.verified.value|] == d.verified.value
  }

  /** A is untouched, and if the stored flags select B then B holds the last image whose hash was verified. */
  ghost predicate Safe(d: Device, imgA: seq<octet>) {
    |d.flash| == FLASH_TOTAL_SIZE && |imgA| == PART_A_SIZE &&
    d.flash[..PART_A_SIZE] == imgA &&
    (ReadFlags(d.flash).active == 0 || Holds(d))
  }

  /** The device as shipped: off, A selected and nothing pending. */
  ghost predicate Shipped(d: Device, imgA: seq<octet>) {
    |d.flash| == FLASH_TOTAL_SIZE && |imgA| == PART_A_SIZE && d.pc == Off && d.verified == None &&
    d.flash[..PART_A_SIZE] == imgA && Idle(ReadFlags(d.flash))
  }

  predicate Idle(f: BootFlags) {
    f.active == 0 && f.pending == 0
  }

  /** The largest transfer that cannot forge a flag record: three bytes of the magic number are not enough. */
  predicate FitsBelowFlags(n: nat) {
    n + HASH_SIZE <= FLAG_IN_B + 3
  }

  /** A flash attempt must find A active, and must fit. */
  predicate Allowed(d: Device, e: Event) {
    e.Start? && d.pc == Running ==> d.flags.active == 0 && (AcceptedSize(e.size) ==> FitsBelowFlags(e.size))
  }

  predicate AllAllowed(sha: seq<octet> -> Digest, d: Device, es: seq<Event>)
    requires |d.flash| == FLASH_TOTAL_SIZE
    decreases |es|
  {
    es == [] || (Allowed(d, es[0]) && AllAllowed(sha, Step(sha, d, es[0]), es[1..]))
  }

  // ----- The invariant

  ghost predicate Good(d: Device, f: BootFlags) {
    Idle(f) || (f.active == 1 && Holds(d) && |d.verified.value| <= FLAG_IN_B)
  }

  ghost predicate Inv(d: Device, imgA: seq<octet>) {
    |d.flash| == FLASH_TOTAL_SIZE && |imgA| == PART_A_SIZE && d.flash[..PART_A_SIZE] == imgA &&
    Good(d, ReadFlags(d.flash)) &&
    match d.pc
    case Off => true
    case EraseFlags(next) => Good(d, d.flags) && (next == Decide ==> d.flags.pending != 0)
    case ProgramFlags(next) =>
      Good(d, d.flags) && (next == Decide ==> d.flags.pending != 0) &&
      (forall i :: BOOT_FLAG_OFFSET <= i < BOOT_FLAG_OFFSET + 8 ==> d.flash[i] == 0xFF)
    case Counted => Good(d, d.flags) && d.flags.pending != 0 && d.flags == ReadFlags(d.flash)
    case Running =>
      Good(d, d.flags) && (Idle(d.flags) ==> Idle(ReadFlags(d.flash))) && d.flags.active == ReadFlags(d.flash).active
    case ErasingStage(k) => Staging(d) && ErasingInv(d, k)
    case Receiving => Staging(d) && ReceivingInv(d)
    case Verifying => Staging(d) && VerifyingInv(d)
  }

  ghost predicate Staging(d: Device) {
    |d.flash| == |d.base| == FLASH_TOTAL_SIZE && Idle(d.flags) && Idle(ReadFlags(d.base)) && Idle(ReadFlags(d.flash)) &&
    AcceptedSize(d.size) && FitsBelowFlags(d.size)
  }

  ghost predicate ErasingInv(d: Device, k: nat)
    requires |d.flash| == |d.base| == FLASH_TOTAL_SIZE && AcceptedSize(d.size)
  {
    d.stream == [] && k * FLASH_SECTOR_SIZE <= EraseSize(d.size + HASH_SIZE) <= PART_B_SIZE &&
    d.flash == Erased(d.base, PART_B_OFFSET, k * FLASH_SECTOR_SIZE)
  }

  ghost predicate ReceivingInv(d: Device) {
    ErasedFor(d.base, d.size + HASH_SIZE) && |d.stream| <= d.size + HASH_SIZE &&
    d.flash == Stored(d.base, WholePages(d.stream))
  }

  ghost predicate VerifyingInv(d: Device) {
    ErasedFor(d.base, d.size + HASH_SIZE) && |d.stream| == d.size + HASH_SIZE &&
    d.flash == Stored(d.base, d.stream)
  }

  /** Changes confined to the flag sector keep A and any verified image that ends below it. */
  lemma FlagSectorIsApart(d: Device, d': Device, imgA: seq<octet>)
    requires |d.flash| == |d'.flash| == FLASH_TOTAL_SIZE && |imgA| == PART_A_SIZE && d.verified == d'.verified
    requires d.flash[..PART_A_SIZE] == imgA
    requires forall i :: 0 <= i < BOOT_FLAG_OFFSET ==> d'.flash[i] == d.flash[i]
    ensures d'.flash[..PART_A_SIZE] == imgA
    ensures forall f :: Good(d, f) ==> Good(d', f)
  {
    if d.verified.Some? && |d.verified.value| <= FLAG_IN_B {
      var n := |d.verified.value|;
      assert d'.flash[PART_B_OFFSET..PART_B_OFFSET + n] == d.flash[PART_B_OFFSET..PART_B_OFFSET + n];
    }
  }

  /** Erasing one more staging sector. */
  lemma EraseOneMore(m: seq<octet>, k: nat)
    requires |m| == FLASH_TOTAL_SIZE && k < PART_B_SIZE / FLASH_SECTOR_SIZE
    ensures SectorErased(Erased(m, PART_B_OFFSET, k * FLASH_SECTOR_SIZE), k) ==
      Erased(m, PART_B_OFFSET, (k + 1) * FLASH_SECTOR_SIZE)
    ensures ReadFlags(SectorErased(m, k)) == ReadFlags(m) || ReadFlags(SectorErased(m, k)) == DEFAULT_FLAGS
  {
    var off := PART_B_OFFSET + k * FLASH_SECTOR_SIZE;
    var e := SectorErased(m, k);
    if off == BOOT_FLAG_OFFSET {
      NoMagicReadsDefault(e);
    } else {
      assert off + FLASH_SECTOR_SIZE <= BOOT_FLAG_OFFSET;
    }
  }

  /** Data that ends below the fourth flag octet cannot select anything but A. */
  lemma StoredKeepsFlags(base: seq<octet>, s: seq<octet>, total: nat)
    requires ErasedFor(base, total) && |s| <= total <= FLAG_IN_B + 3
    ensures ReadFlags(Stored(base, s)) == ReadFlags(base) || ReadFlags(Stored(base, s)) == DEFAULT_FLAGS
  {
    var m := Stored(base, s);
    if |s| <= FLAG_IN_B {
      assert forall i :: BOOT_FLAG_OFFSET <= i < BOOT_FLAG_OFFSET + 8 ==> m[i] == base[i];
    } else {
      EraseCoversTransfer(total);
      NoMagicReadsDefault(m);
    }
  }

  lemma StoredKeepsA(base: seq<octet>, s: seq<octet>)
    requires |base| == FLASH_TOTAL_SIZE && |s| <= PART_B_SIZE
    ensures Stored(base, s)[..PART_A_SIZE] == base[..PART_A_SIZE]
  {}

  /** What one received octet does to the stored bytes. */
  lemma FeedStores(d: Device, b: octet)
    requires |d.flash| == FLASH_TOTAL_SIZE && AcceptedSize(d.size) && ReceivingInv(d) && d.pc == Receiving
    requires |d.stream| < d.size + HASH_SIZE
    ensures ReceivingInv(Fed(d, b))
    ensures Fed(d, b) == d.(stream := d.stream + [b], flash := Stored(d.base, WholePages(d.stream + [b])))
  {
    hide Programmed, Stored, Padded, EraseSize;
    var s := d.stream + [b];
    var w := WholePages(d.stream);
    if |s| % FLASH_PAGE_SIZE == 0 {
      var page := s[|s| - FLASH_PAGE_SIZE..];
      assert |w| == |s| - FLASH_PAGE_SIZE;
      assert Programmed(Stored(d.base, w), PART_B_OFFSET + |w|, Padded(page)) == Stored(d.base, s) by {
        PageAppends(d.base, w, page, d.size + HASH_SIZE);
        assert w + page == s;
      }
      assert WholePages(s) == s;
    } else {
      assert |s| / FLASH_PAGE_SIZE == |d.stream| / FLASH_PAGE_SIZE;
      assert WholePages(s) == w;
    }
  }

  /** What the final flush does. */
  lemma FinishStores(d: Device)
    requires |d.flash| == FLASH_TOTAL_SIZE && AcceptedSize(d.size) && ReceivingInv(d) && d.pc == Receiving
    requires |d.stream| == d.size + HASH_SIZE
    ensures VerifyingInv(Finished(d))
    ensures Finished(d) == d.(pc := Verifying, flash := Stored(d.base, d.stream))
  {
    var w := WholePages(d.stream);
    if |w| == |d.stream| {
      assert w == d.stream;
    } else {
      var rest := d.stream[|w|..];
      PageAppends(d.base, w, rest, d.size + HASH_SIZE);
      assert w + rest == d.stream;
    }
  }

  lemma FlagStepKeepsInv(d: Device, imgA: seq<octet>)
    requires Inv(d, imgA) && (d.pc.EraseFlags? || d.pc.ProgramFlags?)
    ensures Inv(Advance(d), imgA)
  {
    var d' := Advance(d);
    if d.pc.EraseFlags? {
      ErasedFlagsReadDefault(d.flash);
      FlagSectorIsApart(d, d', imgA);
    } else {
      ProgrammedFlagsReadBack(d.flash, d.flags);
      FlagSectorIsApart(d, d', imgA);
    }
  }

  lemma ErasedKeepsA(m: seq<octet>, k: nat)
    requires |m| == FLASH_TOTAL_SIZE && k < PART_B_SIZE / FLASH_SECTOR_SIZE
    ensures SectorErased(m, k)[..PART_A_SIZE] == m[..PART_A_SIZE]
  {}

  lemma EraseStepKeepsInv(d: Device, imgA: seq<octet>)
    requires Inv(d, imgA) && d.pc.ErasingStage?
    ensures Inv(Advance(d), imgA)
  {
    hide Erased, EraseSize, Stored, WholePages, ReadFlags;
    var d' := Advance(d);
    var k := d.pc.sectors;
    EraseCoversTransfer(d.size + HASH_SIZE);
    if k * FLASH_SECTOR_SIZE < EraseSize(d.size + HASH_SIZE) {
      EraseOneMore(d.base, k);
      EraseOneMore(d.flash, k);
      ErasedKeepsA(d.flash, k);
    } else {
      NothingReceived(d'.base, Padded([]));
      ErasedForTransfer(d.base, d.size + HASH_SIZE);
    }
  }

  lemma FeedStepKeepsInv(d: Device, b: octet, imgA: seq<octet>)
    requires Inv(d, imgA) && d.pc == Receiving && |d.stream| < d.size + HASH_SIZE
    ensures Inv(Fed(d, b), imgA)
  {
    var d' := Fed(d, b);
    FeedStores(d, b);
    StoredKeepsFlags(d.base, WholePages(d'.stream), d.size + HASH_SIZE);
    StoredKeepsA(d.base, WholePages(d'.stream));
    StoredKeepsA(d.base, WholePages(d.stream));
  }

  lemma FinishStepKeepsInv(d: Device, imgA: seq<octet>)
    requires Inv(d, imgA) && d.pc == Receiving && |d.stream| == d.size + HASH_SIZE
    ensures Inv(Finished(d), imgA)
  {
    FinishStores(d);
    StoredKeepsFlags(d.base, d.stream, d.size + HASH_SIZE);
    StoredKeepsA(d.base, WholePages(d.stream));
    StoredKeepsA(d.base, d.stream);
  }

  lemma NothingErased(m: seq<octet>)
    requires |m| == FLASH_TOTAL_SIZE
    ensures Erased(m, PART_B_OFFSET, 0) == m
  {}

  lemma StepKeepsInv(sha: seq<octet> -> Digest, d: Device, e: Event, imgA: seq<octet>)
    requires Inv(d, imgA) && Allowed(d, e)
    ensures Inv(Step(sha, d, e), imgA)
  {
    hide Erased, EraseSize, Stored, WholePages, ErasedFor, ReadFlags;
    var d' := Step(sha, d, e);
    if e == PowerCut {
      assert Good(d', ReadFlags(d.flash));
    } else if d.pc.EraseFlags? || d.pc.ProgramFlags? {
      if e == Tick {
        FlagStepKeepsInv(d, imgA);
      }
    } else if d.pc.ErasingStage? {
      if e == Tick {
        EraseStepKeepsInv(d, imgA);
      }
    } else if d.pc == Receiving {
      if e.Feed? && |d.stream| < d.size + HASH_SIZE {
        FeedStepKeepsInv(d, e.b, imgA);
      } else if e == Finish && |d.stream| == d.size + HASH_SIZE {
        FinishStepKeepsInv(d, imgA);
      }
    } else if d.pc == Running && e.Start? && AcceptedSize(e.size) {
      NothingErased(d.flash);
      EraseCoversTransfer(e.size + HASH_SIZE);
    } else if d.pc == Verifying && e.Check? && d'.pc != Running {
      assert |d.flash[PART_B_OFFSET..PART_B_OFFSET + d.size]| == d.size;
    }
  }

  /** Crash safety: whatever the events, and wherever power is cut, the selected partition is sound. */
  lemma {:induction false} RunKeepsInv(sha: seq<octet> -> Digest, d: Device, es: seq<Event>, imgA: seq<octet>)
    requires Inv(d, imgA) && AllAllowed(sha, d, es)
    ensures Inv(Run(sha, d, es), imgA)
    decreases |es|
  {
    if es != [] {
      StepKeepsInv(sha, d, es[0], imgA);
      RunKeepsInv(sha, Step(sha, d, es[0]), es[1..], imgA);
    }
  }

  // ----- What "verified" means

  /** The verified image was received, followed by its own digest. */
  ghost predicate Vouched(sha: seq<octet> -> Digest, d: Device) {
    match d.verified
    case None => true
    case Some(image) => d.received == image + sha(image)
  }

  /** During a transfer flash holds what has been received, whatever the flags say and whether or not it may be safe. */
  ghost predicate TransferInv(d: Device) {
    |d.flash| == FLASH_TOTAL_SIZE &&
    match d.pc
    case ErasingStage(k) => |d.base| == FLASH_TOTAL_SIZE && AcceptedSize(d.size) && ErasingInv(d, k)
    case Receiving => AcceptedSize(d.size) && ReceivingInv(d)
    case Verifying => AcceptedSize(d.size) && VerifyingInv(d)
    case _ => true
  }

  lemma EraseKeepsTransfer(d: Device)
    requires TransferInv(d) && d.pc.ErasingStage?
    ensures TransferInv(Advance(d))
  {
    hide Erased, EraseSize, Stored, WholePages, ReadFlags;
    var k := d.pc.sectors;
    EraseCoversTransfer(d.size + HASH_SIZE);
    if k * FLASH_SECTOR_SIZE < EraseSize(d.size + HASH_SIZE) {
      EraseOneMore(d.base, k);
    } else {
      NothingReceived(Advance(d).base, Padded([]));
      ErasedForTransfer(d.base, d.size + HASH_SIZE);
    }
  }

  lemma DataKeepsTransfer(d: Device, e: Event)
    requires TransferInv(d) && d.pc == Receiving
    ensures e.Feed? ==> TransferInv(Fed(d, e.b))
    ensures e == Finish ==> TransferInv(Finished(d))
  {
    hide Stored, WholePages, ErasedFor;
    if e.Feed? && |d.stream| < d.size + HASH_SIZE {
      FeedStores(d, e.b);
    } else if e == Finish && |d.stream| == d.size + HASH_SIZE {
      FinishStores(d);
    }
  }

  /** An image is accepted only with its digest behind it. */
  lemma CheckKeepsVouched(sha: seq<octet> -> Digest, d: Device, shaOk: bool)
    requires TransferInv(d) && Vouched(sha, d) && d.pc == Verifying
    ensures Vouched(sha, Checked(sha, d, shaOk))
  {
    var n, s := d.size, d.stream;
    if Checked(sha, d, shaOk).verified != d.verified || Checked(sha, d, shaOk).received != d.received {
      assert d.flash[PART_B_OFFSET..PART_B_OFFSET + n] == s[..n];
      assert d.flash[PART_B_OFFSET + n..PART_B_OFFSET + n + HASH_SIZE] == s[n..];
      assert s == s[..n] + s[n..];
    }
  }

  lemma StepKeepsVouched(sha: seq<octet> -> Digest, d: Device, e: Event)
    requires TransferInv(d) && Vouched(sha, d)
    ensures TransferInv(Step(sha, d, e)) && Vouched(sha, Step(sha, d, e))
  {
    hide Erased, EraseSize, Stored, WholePages, ErasedFor, ReadFlags;
    if e == Tick && d.pc.ErasingStage? {
      EraseKeepsTransfer(d);
    } else if d.pc == Receiving && (e.Feed? || e == Finish) {
      DataKeepsTransfer(d, e);
    } else if d.pc == Verifying && e.Check? {
      CheckKeepsVouched(sha, d, e.shaOk);
    } else if d.pc == Running && e.Start? && AcceptedSize(e.size) {
      NothingErased(d.flash);
      EraseCoversTransfer(e.size + HASH_SIZE);
    }
  }

  /** So over every run at all, allowed or not. */
  lemma {:induction false} RunKeepsVouched(sha: seq<octet> -> Digest, d: Device, es: seq<Event>)
    requires TransferInv(d) && Vouched(sha, d)
    ensures TransferInv(Run(sha, d, es)) && Vouched(sha, Run(sha, d, es))
    decreases |es|
  {
    if es != [] {
      StepKeepsVouched(sha, d, es[0]);
      RunKeepsVouched(sha, Step(sha, d, es[0]), es[1..]);
    }
  }

  /**
   * Over every allowed run the selected partition holds the untouched A image, or a B image that was received with its
   * own digest behind it.
   */
  lemma CrashSafeUpdate(sha: seq<octet> -> Digest, d: Device, es: seq<Event>, imgA: seq<octet>)
    requires Shipped(d, imgA) && AllAllowed(sha, d, es)
    ensures Safe(Run(sha, d, es), imgA) && Vouched(sha, Run(sha, d, es))
  {
    RunKeepsInv(sha, d, es, imgA);
    RunKeepsVouched(sha, d, es);
  }
}
