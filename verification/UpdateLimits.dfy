/** Exactly which flash attempts are safe: the conditions of the crash-safety theorem cannot be relaxed. */
module UpdateLimits {
  import opened Wrappers
  import opened Flash
  import opened Bootloader
  import opened UpdateSafety
  import opened BootSelection

  function Feeds(s: seq<octet>): (es: seq<Event>)
    ensures |es| == |s|
  {
    seq(|s|, i requires 0 <= i < |s| => Feed(s[i]))
  }

  /** A whole attempt, as the sender and the firmware carry it out without a power cut. */
  function Transfer(n: nat, s: seq<octet>): (es: seq<Event>)
    ensures |es| > 0 && es[0] == Start(n)
    ensures forall i :: 0 < i < |es| ==> !es[i].Start?
  {
    [Start(n)] + (Ticks(EraseSize(n + HASH_SIZE) / FLASH_SECTOR_SIZE + 1) + (Feeds(s) + [Finish, Check(true)]))
  }

  /** Some of the erase ticks. */
  lemma {:induction false} EraseSome(sha: seq<octet> -> Digest, d: Device, k: nat, more: nat)
    requires |d.flash| == |d.base| == FLASH_TOTAL_SIZE && AcceptedSize(d.size) && d.pc == ErasingStage(k)
    requires (k + more) * FLASH_SECTOR_SIZE <= EraseSize(d.size + HASH_SIZE)
    requires d.flash == Erased(d.base, PART_B_OFFSET, k * FLASH_SECTOR_SIZE)
    ensures (k + more) * FLASH_SECTOR_SIZE <= PART_B_SIZE
    ensures Run(sha, d, Ticks(more)) ==
      d.(pc := ErasingStage(k + more), flash := Erased(d.base, PART_B_OFFSET, (k + more) * FLASH_SECTOR_SIZE))
    decreases more
  {
    EraseCoversTransfer(d.size + HASH_SIZE);
    hide Erased, EraseSize, ReadFlags;
    if more == 0 {
      assert Ticks(0) == [];
    } else {
      assert Ticks(more) == [Tick] + Ticks(more - 1);
      RunOne(sha, d, Tick, Ticks(more - 1));
      EraseOneMore(d.base, k);
      EraseSome(sha, Step(sha, d, Tick), k + 1, more - 1);
    }
  }

  /** All of them, and the step to receiving. */
  lemma EraseRun(sha: seq<octet> -> Digest, d: Device, size: nat, k: nat)
    requires |d.flash| == FLASH_TOTAL_SIZE && AcceptedSize(d.size) && d.pc == ErasingStage(0) && d.base == d.flash
    requires k * FLASH_SECTOR_SIZE == size == EraseSize(d.size + HASH_SIZE) <= PART_B_SIZE
    ensures var e := Erased(d.base, PART_B_OFFSET, size);
      Run(sha, d, Ticks(k + 1)) == d.(pc := Receiving, flash := e, base := e)
  {
    hide Erased, EraseSize, ReadFlags, Advance, Run, Ticks, AcceptedSize;
    NothingErased(d.flash);
    EraseSome(sha, d, 0, k);
    TicksSplit(k, 1);
    RunJoins(sha, d, Ticks(k), Ticks(1));
    LastErase(sha, d.(pc := ErasingStage(k), flash := Erased(d.base, PART_B_OFFSET, size)), k);
  }

  lemma TicksSplit(k: nat, more: nat)
    ensures Ticks(k + more) == Ticks(k) + Ticks(more)
  {}

  lemma LastErase(sha: seq<octet> -> Digest, d: Device, k: nat)
    requires |d.flash| == FLASH_TOTAL_SIZE && d.pc == ErasingStage(k) &&
      k * FLASH_SECTOR_SIZE == EraseSize(d.size + HASH_SIZE)
    ensures Run(sha, d, Ticks(1)) == d.(pc := Receiving, base := d.flash)
  {
    assert Ticks(1) == [Tick] + [];
    RunOne(sha, d, Tick, []);
  }

  lemma WholeSectors(e: nat)
    requires e % FLASH_SECTOR_SIZE == 0
    ensures e / FLASH_SECTOR_SIZE * FLASH_SECTOR_SIZE == e
  {}

  lemma {:induction false} FeedRun(sha: seq<octet> -> Digest, d: Device, s: seq<octet>)
    requires |d.flash| == FLASH_TOTAL_SIZE && AcceptedSize(d.size) && ReceivingInv(d) && d.pc == Receiving
    requires |d.stream| + |s| <= d.size + HASH_SIZE
    ensures Run(sha, d, Feeds(s)) == d.(stream := d.stream + s, flash := Stored(d.base, WholePages(d.stream + s)))
    decreases |s|
  {
    if s == [] {
      assert d.stream + s == d.stream;
    } else {
      FeedStores(d, s[0]);
      assert Feeds(s)[1..] == Feeds(s[1..]);
      FeedRun(sha, Step(sha, d, Feed(s[0])), s[1..]);
      assert d.stream + [s[0]] + s[1..] == d.stream + s;
    }
  }

  function Staged(m: seq<octet>, n: nat): (r: seq<octet>)
    requires |m| == FLASH_TOTAL_SIZE && n + HASH_SIZE <= PART_B_SIZE
    ensures |r| == FLASH_TOTAL_SIZE
  {
    EraseCoversTransfer(n + HASH_SIZE);
    Erased(m, PART_B_OFFSET, EraseSize(n + HASH_SIZE))
  }

  /** Starting an attempt and erasing its staging sectors. */
  function Stage(n: nat): (es: seq<Event>) {
    [Start(n)] + Ticks(EraseSize(n + HASH_SIZE) / FLASH_SECTOR_SIZE + 1)
  }

  lemma StageRun(sha: seq<octet> -> Digest, d: Device, n: nat)
    requires |d.flash| == FLASH_TOTAL_SIZE && d.pc == Running && AcceptedSize(n)
    ensures var e := Staged(d.flash, n);
      Run(sha, d, Stage(n)) == d.(pc := Receiving, size := n, stream := [], flash := e, base := e)
  {
    hide Erased, EraseSize, ReadFlags, Advance;
    var k := EraseSize(n + HASH_SIZE) / FLASH_SECTOR_SIZE;
    RunOne(sha, d, Start(n), Ticks(k + 1));
    EraseCoversTransfer(n + HASH_SIZE);
    WholeSectors(EraseSize(n + HASH_SIZE));
    EraseRun(sha, d.(pc := ErasingStage(0), size := n, stream := [], base := d.flash), EraseSize(n + HASH_SIZE), k);
    StagedIs(d.flash, n);
  }

  /** A transfer up to the point where its digest is compared. */
  function Sent(n: nat, s: seq<octet>): (es: seq<Event>) {
    Stage(n) + (Feeds(s) + [Finish])
  }

  /** It leaves the stream in the erased staging area. */
  lemma SentRun(sha: seq<octet> -> Digest, d: Device, n: nat, s: seq<octet>)
    requires |d.flash| == FLASH_TOTAL_SIZE && d.pc == Running && AcceptedSize(n) && |s| == n + HASH_SIZE
    ensures var e := Staged(d.flash, n);
      Run(sha, d, Sent(n, s)) == d.(pc := Verifying, size := n, stream := s, base := e, flash := Stored(e, s))
  {
    var e := Staged(d.flash, n);
    var d1 := d.(pc := Receiving, size := n, stream := [], flash := e, base := e);
    StageRun(sha, d, n);
    ReceivingFromErased(d, n);
    hide Stage, Staged, Run, Stored, WholePages, ReceivingInv;
    RunJoins(sha, d, Stage(n), Feeds(s) + [Finish]);
    RunJoins(sha, d1, Feeds(s), [Finish]);
    FeedRun(sha, d1, s);
    assert [] + s == s;
    FinishRun(sha, d1.(stream := s, flash := Stored(e, WholePages(s))));
  }

  lemma ReceivingFromErased(d: Device, n: nat)
    requires |d.flash| == FLASH_TOTAL_SIZE && AcceptedSize(n)
    ensures var e := Staged(d.flash, n);
      ReceivingInv(d.(pc := Receiving, size := n, stream := [], flash := e, base := e))
  {
    ErasedForTransfer(d.flash, n + HASH_SIZE);
    NothingReceived(Staged(d.flash, n), Padded([]));
  }

  lemma FinishRun(sha: seq<octet> -> Digest, d: Device)
    requires |d.flash| == FLASH_TOTAL_SIZE && AcceptedSize(d.size) && ErasedFor(d.base, d.size + HASH_SIZE)
    requires d.pc == Receiving && |d.stream| == d.size + HASH_SIZE && d.flash == Stored(d.base, WholePages(d.stream))
    ensures Run(sha, d, [Finish]) == d.(pc := Verifying, flash := Stored(d.base, d.stream))
  {
    FinishStores(d);
    assert [Finish] == [Finish] + [];
    RunOne(sha, d, Finish, []);
  }

  /** A whole attempt leaves the stream in the erased staging area, just before its digest is checked. */
  lemma TransferRun(sha: seq<octet> -> Digest, d: Device, n: nat, s: seq<octet>)
    requires |d.flash| == FLASH_TOTAL_SIZE && d.pc == Running && AcceptedSize(n) && |s| == n + HASH_SIZE
    ensures var e := Staged(d.flash, n);
      Run(sha, d, Transfer(n, s)) ==
        Step(sha, d.(pc := Verifying, size := n, stream := s, base := e, flash := Stored(e, s)), Check(true))
  {
    hide Run, Sent, Staged, Stored, Step;
    TransferSplits(n, s);
    SentRun(sha, d, n, s);
    RunJoins(sha, d, Sent(n, s), [Check(true)] + []);
    RunOne(sha, Run(sha, d, Sent(n, s)), Check(true), []);
    NoMoreEvents(sha, Step(sha, Run(sha, d, Sent(n, s)), Check(true)));
  }

  lemma NoMoreEvents(sha: seq<octet> -> Digest, d: Device)
    requires |d.flash| == FLASH_TOTAL_SIZE
    ensures Run(sha, d, []) == d
  {}

  lemma TransferSplits(n: nat, s: seq<octet>)
    ensures Transfer(n, s) == Sent(n, s) + ([Check(true)] + [])
  {}

  /** An attempt whose digest matches ends as `Receiver.Finalize` promises: image stored, flags swapped, board off. */
  lemma AcceptedTransferRun(sha: seq<octet> -> Digest, d: Device, n: nat, s: seq<octet>)
    requires |d.flash| == FLASH_TOTAL_SIZE && d.pc == Running && AcceptedSize(n) && |s| == n + HASH_SIZE
    requires sha(s[..n]) == s[n..]
    ensures var r := Run(sha, d, Transfer(n, s) + Ticks(2));
      r.pc == Off && r.flash == FlagsWritten(Stored(Staged(d.flash, n), s), Accepted(d.flags)) &&
      ReadFlags(r.flash) == Accepted(d.flags) && r.verified == Some(s[..n])
  {
    hide Transfer, Run, Stored, Staged, Erased, ReadFlags, FlagsWritten, Accepted, HashMatches, EraseSize, Ticks,
      Checked,
      Advance;
    var e := Staged(d.flash, n);
    var m := Stored(e, s);
    var d1 := d.(pc := Verifying, size := n, stream := s, base := e, flash := m);
    TransferRun(sha, d, n, s);
    StoredHashDiffers(sha, e, n, s);
    RunJoins(sha, d, Transfer(n, s), Ticks(2));
    MatchingCheck(sha, d1);
    StoredImage(e, n, s);
    FlagWriteRun(sha, Checked(sha, d1, true));
    FlagsRoundTrip(m, Accepted(d.flags));
  }

  /** The partition the stored flags select starts with this image. */
  predicate Selects(m: seq<octet>, image: seq<octet>)
    requires |m| == FLASH_TOTAL_SIZE && |image| <= PART_B_SIZE
  {
    var off := if ReadFlags(m).active == 0 then 0 else PART_B_OFFSET;
    m[off..off + |image|] == image
  }

  /** The part of the image that lies in the flag sector, if any, happens to be what the flag write puts there. */
  predicate SurvivesFlagWrite(image: seq<octet>, f: BootFlags) {
    forall i :: FLAG_IN_B <= i < |image| && i < FLAG_IN_B + FLASH_SECTOR_SIZE ==>
      image[i] == FlagSector(f)[i - FLAG_IN_B]
  }

  /**
   * After an accepted update the selected partition holds the accepted image exactly when A was active and the flag
   * write spares the image, or B was and A holds that image already: an image received while B is active never runs.
   */
  lemma AcceptedImageSelectedIff(sha: seq<octet> -> Digest, d: Device, n: nat, s: seq<octet>)
    requires |d.flash| == FLASH_TOTAL_SIZE && d.pc == Running && AcceptedSize(n) && |s| == n + HASH_SIZE
    requires sha(s[..n]) == s[n..]
    ensures Selects(Run(sha, d, Transfer(n, s) + Ticks(2)).flash, s[..n]) <==>
      if d.flags.active == 0 then SurvivesFlagWrite(s[..n], Accepted(d.flags)) else d.flash[..n] == s[..n]
    ensures d.flags.active == 0 && n <= FLAG_IN_B ==>
      Selects(Run(sha, d, Transfer(n, s) + Ticks(2)).flash, s[..n])
  {
    hide Run, Transfer, Ticks, ReadFlags, FlagsWritten, SurvivesFlagWrite, Stored, Staged;
    var f, m := Accepted(d.flags), Stored(Staged(d.flash, n), s);
    AcceptedTransferRun(sha, d, n, s);
    if d.flags.active == 0 {
      ImageInB(m, f, s, n, Staged(d.flash, n));
    } else {
      ImageInA(m, f, s, n, d.flash);
    }
  }

  lemma ImageInB(m: seq<octet>, f: BootFlags, s: seq<octet>, n: nat, e: seq<octet>)
    requires |e| == FLASH_TOTAL_SIZE && AcceptedSize(n) && |s| == n + HASH_SIZE && m == Stored(e, s)
    ensures FlagsWritten(m, f)[PART_B_OFFSET..PART_B_OFFSET + n] == s[..n] <==> SurvivesFlagWrite(s[..n], f)
    ensures n <= FLAG_IN_B ==> SurvivesFlagWrite(s[..n], f)
  {
    hide FlagsWritten, FlagSector;
    var r := FlagsWritten(m, f);
    forall i | 0 <= i < n
      ensures r[PART_B_OFFSET + i] ==
        if FLAG_IN_B <= i < FLAG_IN_B + FLASH_SECTOR_SIZE then FlagSector(f)[i - FLAG_IN_B] else s[i]
    {
      FlagsWrittenAt(m, f, PART_B_OFFSET + i);
    }
    var part := r[PART_B_OFFSET..PART_B_OFFSET + n];
    if part == s[..n] {
      forall i | FLAG_IN_B <= i < n &&
        i < FLAG_IN_B + FLASH_SECTOR_SIZE ensures s[..n][i] == FlagSector(f)[i - FLAG_IN_B] {
        assert part[i] == r[PART_B_OFFSET + i];
      }
    }
    if SurvivesFlagWrite(s[..n], f) {
      forall i | 0 <= i < n ensures part[i] == s[..n][i] {
        assert part[i] == r[PART_B_OFFSET + i];
      }
    }
  }

  lemma ImageInA(m: seq<octet>, f: BootFlags, s: seq<octet>, n: nat, prior: seq<octet>)
    requires |prior| == FLASH_TOTAL_SIZE && AcceptedSize(n) && |s| == n + HASH_SIZE && m == Stored(Staged(prior, n), s)
    ensures FlagsWritten(m, f)[..n] == prior[..n]
  {
    hide FlagsWritten;
    var r := FlagsWritten(m, f);
    forall i | 0 <= i < n ensures r[i] == prior[i] {
      FlagsWrittenAt(m, f, i);
      EraseCoversTransfer(n + HASH_SIZE);
    }
  }

  lemma MatchingCheck(sha: seq<octet> -> Digest, d: Device)
    requires |d.flash| == FLASH_TOTAL_SIZE && AcceptedSize(d.size) && HashMatches(sha, d.flash, d.size)
    ensures Checked(sha, d, true) ==
      d.(pc := EraseFlags(Reset), flags := Accepted(d.flags),
        verified := Some(d.flash[PART_B_OFFSET..PART_B_OFFSET + d.size]), received := d.stream)
  {}

  /** The two flash operations of `write_boot_flags`, uninterrupted. */
  lemma FlagWriteRun(sha: seq<octet> -> Digest, d: Device)
    requires |d.flash| == FLASH_TOTAL_SIZE && d.pc == EraseFlags(Reset)
    ensures Run(sha, d, Ticks(2)) == d.(pc := Off, flash := FlagsWritten(d.flash, d.flags))
  {
    hide FlagsErased, FlagsProgrammed;
    assert Ticks(2) == [Tick] + ([Tick] + []);
    RunOne(sha, d, Tick, [Tick] + []);
    RunOne(sha, Advance(d), Tick, []);
  }

  /** An attempt whose digest does not match is refused: the board goes on with the flags it had. */
  lemma RejectedTransferRun(sha: seq<octet> -> Digest, d: Device, n: nat, s: seq<octet>)
    requires |d.flash| == FLASH_TOTAL_SIZE && d.pc == Running && AcceptedSize(n) && |s| == n + HASH_SIZE
    requires sha(s[..n]) != s[n..]
    ensures var e := Staged(d.flash, n);
      Run(sha, d, Transfer(n, s)) == d.(pc := Running, size := n, stream := s, base := e, flash := Stored(e, s))
  {
    hide Run, Transfer, Staged, Stored, HashMatches;
    TransferRun(sha, d, n, s);
    StoredHashDiffers(sha, Staged(d.flash, n), n, s);
  }

  /** The device that has received part of a stream. */
  function PartReceived(d: Device, n: nat, part: seq<octet>): Device
    requires |d.flash| == FLASH_TOTAL_SIZE && AcceptedSize(n) && |part| < n + HASH_SIZE
  {
    var e := Staged(d.flash, n);
    d.(pc := Receiving, size := n, stream := part, flash := Stored(e, WholePages(part)), base := e)
  }

  lemma PartRun(sha: seq<octet> -> Digest, d: Device, n: nat, part: seq<octet>)
    requires |d.flash| == FLASH_TOTAL_SIZE && d.pc == Running && AcceptedSize(n) && |part| < n + HASH_SIZE
    ensures Run(sha, d, Stage(n) + Feeds(part)) == PartReceived(d, n, part)
  {
    var e := Staged(d.flash, n);
    var d1 := d.(pc := Receiving, size := n, stream := [], flash := e, base := e);
    StageRun(sha, d, n);
    ReceivingFromErased(d, n);
    hide Stage, Staged, Run, Stored, WholePages, ReceivingInv;
    RunJoins(sha, d, Stage(n), Feeds(part));
    FeedRun(sha, d1, part);
    assert [] + part == part;
  }

  lemma OverrunEnds(sha: seq<octet> -> Digest, d: Device, len: nat)
    requires |d.flash| == FLASH_TOTAL_SIZE && d.pc == Receiving
    requires |d.stream| < d.size + HASH_SIZE < |d.stream| + len
    ensures Step(sha, d, Overrun(len)) == d.(pc := Running)
  {}

  /** After a chunk that overran, a second attempt ends as a first one would. */
  lemma RetryAfterOverrun(sha: seq<octet> -> Digest, d: Device, n: nat, part: seq<octet>, len: nat, m: nat,
    s: seq<octet>)
    requires |d.flash| == FLASH_TOTAL_SIZE && d.pc == Running && AcceptedSize(n) && AcceptedSize(m)
    requires |part| < n + HASH_SIZE < |part| + len && |s| == m + HASH_SIZE
    ensures var kept := Stored(Staged(d.flash, n), WholePages(part));
      Run(sha, d, (Stage(n) + Feeds(part)) + ([Overrun(len)] + Transfer(m, s))) ==
        Run(sha, d.(flash := kept, base := Staged(d.flash, n), size := n, stream := part), Transfer(m, s))
  {
    PartRun(sha, d, n, part);
    hide Stage, Staged, Run, Stored, WholePages, Transfer, Step, Feeds;
    RunJoins(sha, d, Stage(n) + Feeds(part), [Overrun(len)] + Transfer(m, s));
    OverrunEnds(sha, PartReceived(d, n, part), len);
    RunOne(sha, PartReceived(d, n, part), Overrun(len), Transfer(m, s));
  }

  // ----- Too large a transfer can forge a flag record

  /** Zeros, except a first octet x, a flag record "B active" where the flag sector lies, and y at index j. */
  function Forged(total: nat, x: octet, j: nat, y: octet): (s: seq<octet>)
    ensures |s| == total
  {
    seq(total, i requires 0 <= i < total =>
      if i == 0 then x
      else if i == j then y
      else if FLAG_IN_B <= i < FLAG_IN_B + 4 then MAGIC[i - FLAG_IN_B]
      else if i == FLAG_IN_B + 4 then 1 else 0)
  }

  /** The magic number where the flag sector lies, and "B active" after it if the stream reaches that far. */
  predicate FlagRecordAt(s: seq<octet>) {
    FLAG_IN_B + 4 <= |s| &&
    s[FLAG_IN_B] == 0x31 && s[FLAG_IN_B + 1] == 0x48 && s[FLAG_IN_B + 2] == 0x57 && s[FLAG_IN_B + 3] == 0x50 &&
    (FLAG_IN_B + 4 < |s| ==> s[FLAG_IN_B + 4] == 1)
  }

  /** The forged stream whose digest cannot match: y is put where a digest byte lies outside the flag record. */
  lemma ForgedStream(sha: seq<octet> -> Digest, n: nat, x: octet) returns (s: seq<octet>)
    requires AcceptedSize(n) && !FitsBelowFlags(n)
    ensures |s| == n + HASH_SIZE && s[0] == x && sha(s[..n]) != s[n..]
    ensures FlagRecordAt(s)
  {
    var total := n + HASH_SIZE;
    var j := if n < FLAG_IN_B then n else total - 1;
    var h := sha(Forged(total, x, j, 0)[..n]);
    var y: octet := if h[j - n] == 0 then 1 else 0;
    s := Forged(total, x, j, y);
    assert s[..n] == Forged(total, x, j, 0)[..n];
    assert s[n..][j - n] == y;
  }

  /** Once such a stream is stored, the board believes B is selected. */
  lemma ForgedFlagsSelectB(e: seq<octet>, s: seq<octet>)
    requires |s| <= PART_B_SIZE && ErasedFor(e, |s|) && FlagRecordAt(s)
    ensures ReadFlags(Stored(e, s)).active != 0
  {
    EraseCoversTransfer(|s|);
    assert HasMagic(Stored(e, s));
  }

  lemma StoredImage(e: seq<octet>, n: nat, s: seq<octet>)
    requires |e| == FLASH_TOTAL_SIZE && AcceptedSize(n) && |s| == n + HASH_SIZE
    ensures Stored(e, s)[PART_B_OFFSET..PART_B_OFFSET + n] == s[..n]
  {}

  lemma StoredHashDiffers(sha: seq<octet> -> Digest, e: seq<octet>, n: nat, s: seq<octet>)
    requires |e| == FLASH_TOTAL_SIZE && AcceptedSize(n) && |s| == n + HASH_SIZE
    ensures HashMatches(sha, Stored(e, s), n) <==> sha(s[..n]) == s[n..]
  {
    var m := Stored(e, s);
    StoredImage(e, n, s);
    assert m[PART_B_OFFSET + n..PART_B_OFFSET + n + HASH_SIZE] == s[n..];
  }

  /** For every size above the bound some stream leaves B selected although no digest matched. */
  lemma LargeTransferForges(sha: seq<octet> -> Digest, d: Device, n: nat, imgA: seq<octet>)
    requires |d.flash| == FLASH_TOTAL_SIZE && d.pc == Running && AcceptedSize(n) && !FitsBelowFlags(n)
    ensures exists s :: |s| == n + HASH_SIZE && !Safe(Run(sha, d, Transfer(n, s)), imgA)
  {
    hide Transfer, Run, Stored, Staged, Erased, ReadFlags, HashMatches, EraseSize, FitsBelowFlags, FlagRecordAt,
      ErasedFor;
    var x: octet := if d.verified.Some? && d.verified.value != [] && d.verified.value[0] == 0 then 1 else 0;
    var s := ForgedStream(sha, n, x);
    var e := Staged(d.flash, n);
    TransferRun(sha, d, n, s);
    StoredHashDiffers(sha, e, n, s);
    var r := Run(sha, d, Transfer(n, s));
    assert r.flash == Stored(e, s) && r.verified == d.verified;
    ErasedForTransfer(d.flash, n + HASH_SIZE);
    assert ErasedFor(e, n + HASH_SIZE) by {
      StagedIs(d.flash, n);
    }
    ForgedFlagsSelectB(e, s);
    NotHeld(r, s, e);
  }

  lemma StagedIs(m: seq<octet>, n: nat)
    requires |m| == FLASH_TOTAL_SIZE && AcceptedSize(n) && EraseSize(n + HASH_SIZE) <= PART_B_SIZE
    ensures Staged(m, n) == Erased(m, PART_B_OFFSET, EraseSize(n + HASH_SIZE))
  {}

  lemma NotHeld(r: Device, s: seq<octet>, e: seq<octet>)
    requires |e| == FLASH_TOTAL_SIZE && 0 < |s| <= PART_B_SIZE && r.flash == Stored(e, s)
    requires r.verified.Some? && r.verified.value != [] ==> r.verified.value[0] != s[0]
    ensures !Holds(r)
  {
    assert r.flash[PART_B_OFFSET] == s[0];
  }

  /**
   * Erase and data of a transfer leave the flag sector alone, whatever flash held and whatever is received, exactly
   * when image and digest end below it.
   */
  lemma FlagSectorUntouchedIff(n: nat)
    requires AcceptedSize(n)
    ensures n + HASH_SIZE <= FLAG_IN_B <==>
      forall m, s :: |m| == FLASH_TOTAL_SIZE && |s| <= n + HASH_SIZE ==> SameFlagSector(Stored(Staged(m, n), s), m)
  {
    EraseCoversTransfer(n + HASH_SIZE);
    if n + HASH_SIZE <= FLAG_IN_B {
      assert EraseSize(n + HASH_SIZE) <= FLAG_IN_B by {
        WholeSectorsBelow(EraseSize(n + HASH_SIZE));
      }
    } else {
      var m: seq<octet> := seq(FLASH_TOTAL_SIZE, _ => 0);
      assert Stored(Staged(m, n), [])[BOOT_FLAG_OFFSET] == 0xFF != m[BOOT_FLAG_OFFSET];
      assert !SameFlagSector(Stored(Staged(m, n), []), m);
    }
  }

  ghost predicate SameFlagSector(a: seq<octet>, b: seq<octet>)
    requires |a| == |b| == FLASH_TOTAL_SIZE
  {
    forall i :: BOOT_FLAG_OFFSET <= i < FLASH_FS_OFFSET ==> a[i] == b[i]
  }

  lemma WholeSectorsBelow(e: nat)
    requires e % FLASH_SECTOR_SIZE == 0 && e < FLAG_IN_B + FLASH_SECTOR_SIZE
    ensures e <= FLAG_IN_B
  {}

  // ----- The exact condition on an attempt

  lemma {:induction false} NoStartAllowed(sha: seq<octet> -> Digest, d: Device, es: seq<Event>)
    requires |d.flash| == FLASH_TOTAL_SIZE && forall i :: 0 <= i < |es| ==> !es[i].Start?
    ensures AllAllowed(sha, d, es)
    decreases |es|
  {
    if es != [] {
      NoStartAllowed(sha, Step(sha, d, es[0]), es[1..]);
    }
  }

  /** A transfer and the flag write that follows it if it is accepted. */
  function Attempt(n: nat, s: seq<octet>): (es: seq<Event>)
    ensures |es| > 0 && es[0] == Start(n) && Transfer(n, s) <= es
    ensures forall i :: 0 < i < |es| ==> InAttempt(es[i])
  {
    Transfer(n, s) + Ticks(2)
  }

  predicate InAttempt(e: Event) {
    e == Tick || e.Feed? || e == Finish || e == Check(true) || e == PowerCut
  }

  /** Power is cut after k flash operations or received bytes of an attempt. */
  function AfterCut(sha: seq<octet> -> Digest, d: Device, n: nat, s: seq<octet>, k: nat): (r: Device)
    requires |d.flash| == FLASH_TOTAL_SIZE && k <= |Attempt(n, s)|
  {
    Run(sha, d, Attempt(n, s)[..k] + [PowerCut])
  }

  /** Whatever is received and wherever power is cut, the selected partition is sound. */
  ghost predicate AttemptSafe(sha: seq<octet> -> Digest, d: Device, n: nat, imgA: seq<octet>)
    requires |d.flash| == FLASH_TOTAL_SIZE
  {
    forall s, k :: |s| == n + HASH_SIZE && 0 <= k <= |Attempt(n, s)| ==> Safe(AfterCut(sha, d, n, s, k), imgA)
  }

  lemma CutKeepsFlash(sha: seq<octet> -> Digest, d: Device, es: seq<Event>, imgA: seq<octet>)
    requires |d.flash| == FLASH_TOTAL_SIZE
    ensures Safe(Run(sha, d, es + [PowerCut]), imgA) <==> Safe(Run(sha, d, es), imgA)
  {
    RunJoins(sha, d, es, [PowerCut] + []);
    RunOne(sha, Run(sha, d, es), PowerCut, []);
    assert [PowerCut] + [] == [PowerCut];
  }

  /** One unsound point is enough. */
  lemma UnsafePoint(sha: seq<octet> -> Digest, d: Device, n: nat, s: seq<octet>, es: seq<Event>, imgA: seq<octet>)
    requires |d.flash| == FLASH_TOTAL_SIZE && |s| == n + HASH_SIZE && es <= Attempt(n, s)
    requires !Safe(Run(sha, d, es), imgA)
    ensures !AttemptSafe(sha, d, n, imgA)
  {
    hide Run, Safe, Attempt;
    CutKeepsFlash(sha, d, es, imgA);
    assert Attempt(n, s)[..|es|] == es;
    assert !Safe(AfterCut(sha, d, n, s, |es|), imgA);
  }

  /** With A active the invariant carries every run of a fitting attempt. */
  lemma FittingAttemptIsSafe(sha: seq<octet> -> Digest, d: Device, n: nat, imgA: seq<octet>)
    requires Inv(d, imgA) && d.pc == Running && d.flags.active == 0 && AcceptedSize(n) && FitsBelowFlags(n)
    ensures AttemptSafe(sha, d, n, imgA)
  {
    forall s, k | |s| == n + HASH_SIZE && 0 <= k <= |Attempt(n, s)| ensures Safe(AfterCut(sha, d, n, s, k), imgA) {
      var es := Attempt(n, s)[..k] + [PowerCut];
      NoStartAllowed(sha, Step(sha, d, es[0]), es[1..]);
      RunKeepsInv(sha, d, es, imgA);
    }
  }

  lemma LargeAttemptIsUnsafe(sha: seq<octet> -> Digest, d: Device, n: nat, imgA: seq<octet>)
    requires |d.flash| == FLASH_TOTAL_SIZE && d.pc == Running && AcceptedSize(n) && !FitsBelowFlags(n)
    ensures !AttemptSafe(sha, d, n, imgA)
  {
    hide Safe, Run, AttemptSafe, Transfer;
    LargeTransferForges(sha, d, n, imgA);
    var s :| |s| == n + HASH_SIZE && !Safe(Run(sha, d, Transfer(n, s)), imgA);
    UnsafePoint(sha, d, n, s, Transfer(n, s), imgA);
  }

  // ----- With B active

  /** The image in B is all 0xFF, so erasing it changes nothing. */
  predicate BlankImage(d: Device) {
    d.verified.Some? && forall i :: 0 <= i < |d.verified.value| ==> d.verified.value[i] == 0xFF
  }

  /** Data over the running image: while the flags still select B, its first byte is gone. */
  lemma StagingOverActiveB(sha: seq<octet> -> Digest, d: Device, n: nat, s: seq<octet>, imgA: seq<octet>)
    requires Inv(d, imgA) && d.pc == Running && d.flags.active != 0
    requires n > 0 && n + HASH_SIZE <= FLAG_IN_B && |s| == n + HASH_SIZE && s[0] != d.verified.value[0]
    ensures !Safe(Run(sha, d, Sent(n, s)), imgA)
  {
    hide Run, Sent, Erased, EraseSize;
    var e := Staged(d.flash, n);
    SentRun(sha, d, n, s);
    StagedKeepsFlags(d.flash, n);
    StoredBelowFlags(e, s);
    NotHeld(Run(sha, d, Sent(n, s)), s, e);
  }

  lemma StagedKeepsFlags(m: seq<octet>, n: nat)
    requires |m| == FLASH_TOTAL_SIZE && AcceptedSize(n) && n + HASH_SIZE <= FLAG_IN_B
    ensures ReadFlags(Staged(m, n)) == ReadFlags(m)
  {
    EraseCoversTransfer(n + HASH_SIZE);
    WholeSectorsBelow(EraseSize(n + HASH_SIZE));
  }

  lemma StoredBelowFlags(e: seq<octet>, s: seq<octet>)
    requires |e| == FLASH_TOTAL_SIZE && |s| <= FLAG_IN_B
    ensures ReadFlags(Stored(e, s)) == ReadFlags(e)
  {}

  lemma SmallAttemptOverB(sha: seq<octet> -> Digest, d: Device, n: nat, imgA: seq<octet>)
    requires Inv(d, imgA) && d.pc == Running && d.flags.active != 0 && AcceptedSize(n) && n + HASH_SIZE <= FLAG_IN_B
    ensures !AttemptSafe(sha, d, n, imgA)
  {
    hide Run, AttemptSafe, Sent, Transfer, ReadFlags;
    var x: octet := if d.verified.value[0] == 0 then 1 else 0;
    var s := seq(n + HASH_SIZE, _ => x);
    StagingOverActiveB(sha, d, n, s, imgA);
    TransferSplits(n, s);
    UnsafePoint(sha, d, n, s, Sent(n, s), imgA);
  }

  /** The erase reaches the flag sector last: just before, all of the image is gone and the flags still select B. */
  lemma LateEraseOverB(sha: seq<octet> -> Digest, d: Device, n: nat, imgA: seq<octet>)
    requires Inv(d, imgA) && d.pc == Running && d.flags.active != 0 && AcceptedSize(n) && FLAG_IN_B < n + HASH_SIZE
    requires !BlankImage(d)
    ensures !AttemptSafe(sha, d, n, imgA)
  {
    hide Run, AttemptSafe, Transfer, EraseSize, Erased, ReadFlags;
    var s: seq<octet> := seq(n + HASH_SIZE, _ => 0);
    var before := FLAG_IN_B / FLASH_SECTOR_SIZE;
    EraseCoversTransfer(n + HASH_SIZE);
    WholeSectorsAbove(EraseSize(n + HASH_SIZE));
    PartialErase(sha, d, n, before);
    ErasedButFlags(d);
    var es := [Start(n)] + Ticks(before);
    EraseBeginsAttempt(n, s, before);
    assert !Safe(Run(sha, d, es), imgA);
    UnsafePoint(sha, d, n, s, es, imgA);
  }

  lemma WholeSectorsAbove(e: nat)
    requires e % FLASH_SECTOR_SIZE == 0 && FLAG_IN_B < e
    ensures FLAG_IN_B / FLASH_SECTOR_SIZE * FLASH_SECTOR_SIZE == FLAG_IN_B
    ensures FLAG_IN_B + FLASH_SECTOR_SIZE <= e
  {}

  lemma PartialErase(sha: seq<octet> -> Digest, d: Device, n: nat, k: nat)
    requires |d.flash| == FLASH_TOTAL_SIZE && d.pc == Running && AcceptedSize(n)
    requires k * FLASH_SECTOR_SIZE <= EraseSize(n + HASH_SIZE) <= PART_B_SIZE
    ensures Run(sha, d, [Start(n)] + Ticks(k)) ==
      d.(pc := ErasingStage(k), size := n, stream := [], base := d.flash,
         flash := Erased(d.flash, PART_B_OFFSET, k * FLASH_SECTOR_SIZE))
  {
    hide Erased, EraseSize, Advance;
    RunOne(sha, d, Start(n), Ticks(k));
    NothingErased(d.flash);
    EraseSome(sha, d.(pc := ErasingStage(0), size := n, stream := [], base := d.flash), 0, k);
  }

  lemma EraseBeginsAttempt(n: nat, s: seq<octet>, k: nat)
    requires k <= EraseSize(n + HASH_SIZE) / FLASH_SECTOR_SIZE
    ensures [Start(n)] + Ticks(k) <= Attempt(n, s)
  {
    hide EraseSize;
    var all := EraseSize(n + HASH_SIZE) / FLASH_SECTOR_SIZE + 1;
    assert Ticks(all) == Ticks(k) + Ticks(all - k);
  }

  lemma ErasedButFlags(d: Device)
    requires Holds(d) && |d.verified.value| <= FLAG_IN_B && !BlankImage(d)
    ensures var m := Erased(d.flash, PART_B_OFFSET, FLAG_IN_B);
      ReadFlags(m) == ReadFlags(d.flash) && m[PART_B_OFFSET..PART_B_OFFSET + |d.verified.value|] != d.verified.value
  {
    var m := Erased(d.flash, PART_B_OFFSET, FLAG_IN_B);
    var i :| 0 <= i < |d.verified.value| && d.verified.value[i] != 0xFF;
    assert m[PART_B_OFFSET + i] == 0xFF;
    assert m[PART_B_OFFSET..PART_B_OFFSET + |d.verified.value|][i] == m[PART_B_OFFSET + i];
  }

  /** What holds throughout an attempt that erases the flag sector under a blank image. */
  ghost predicate OverBlank(d: Device, imgA: seq<octet>) {
    Safe(d, imgA) &&
    match d.pc
    case Off => true
    case Running => true
    case ErasingStage(k) => Overwriting(d) && ErasingInv(d, k)
    case Receiving => Overwriting(d) && ReceivingInv(d)
    case Verifying => Overwriting(d) && VerifyingInv(d)
    case EraseFlags(next) => next == Reset && d.flags.active == 0
    case ProgramFlags(next) =>
      next == Reset && d.flags.active == 0 &&
      (forall i :: BOOT_FLAG_OFFSET <= i < BOOT_FLAG_OFFSET + 8 ==> d.flash[i] == 0xFF)
    case Counted => false
  }

  predicate Overwriting(d: Device) {
    |d.flash| == |d.base| == FLASH_TOTAL_SIZE && d.flags.active == 1 && BlankImage(d) && AcceptedSize(d.size) &&
    FitsBelowFlags(d.size) && FLAG_IN_B < d.size + HASH_SIZE
  }

  /** The erase that covers the flag sector leaves its flags at the defaults, and so does any fitting data. */
  lemma DefaultsOverErased(base: seq<octet>, s: seq<octet>, total: nat)
    requires ErasedFor(base, total) && |s| <= total && FLAG_IN_B < total <= FLAG_IN_B + 3
    ensures ReadFlags(Stored(base, s)) == DEFAULT_FLAGS
  {
    EraseCoversTransfer(total);
    NoMagicReadsDefault(Stored(base, s));
  }

  /** Erasing a sector of a blank image changes none of it. */
  lemma BlankStays(d: Device, d': Device, k: nat)
    requires |d.flash| == FLASH_TOTAL_SIZE && BlankImage(d) && k < PART_B_SIZE / FLASH_SECTOR_SIZE
    requires d'.flash == SectorErased(d.flash, k) && d'.verified == d.verified && Holds(d)
    ensures Holds(d')
  {
    var v, e := d.verified.value, d'.flash;
    forall i | 0 <= i < |v| ensures e[PART_B_OFFSET + i] == v[i] {
      assert d.flash[PART_B_OFFSET..PART_B_OFFSET + |v|][i] == v[i];
    }
    assert e[PART_B_OFFSET..PART_B_OFFSET + |v|] == v;
  }

  lemma EraseKeepsOverBlank(d: Device, imgA: seq<octet>)
    requires OverBlank(d, imgA) && d.pc.ErasingStage?
    ensures OverBlank(Advance(d), imgA)
  {
    hide Erased, EraseSize, Stored, WholePages, ReadFlags, Holds;
    var d' := Advance(d);
    var k := d.pc.sectors;
    EraseCoversTransfer(d.size + HASH_SIZE);
    if k * FLASH_SECTOR_SIZE < EraseSize(d.size + HASH_SIZE) {
      EraseOneMore(d.base, k);
      EraseOneMore(d.flash, k);
      ErasedKeepsA(d.flash, k);
      if Holds(d) {
        BlankStays(d, d', k);
      }
    } else {
      NothingReceived(d'.base, Padded([]));
      ErasedForTransfer(d.base, d.size + HASH_SIZE);
      DefaultsOverErased(d'.base, [], d.size + HASH_SIZE);
    }
  }

  lemma DataKeepsOverBlank(d: Device, e: Event, imgA: seq<octet>)
    requires OverBlank(d, imgA) && d.pc == Receiving
    ensures e.Feed? ==> OverBlank(Fed(d, e.b), imgA)
    ensures e == Finish ==> OverBlank(Finished(d), imgA)
  {
    hide Stored, WholePages, ReadFlags, ErasedFor;
    StoredKeepsA(d.base, WholePages(d.stream));
    if e.Feed? && |d.stream| < d.size + HASH_SIZE {
      var d' := Fed(d, e.b);
      FeedStores(d, e.b);
      StoredKeepsA(d.base, WholePages(d'.stream));
      DefaultsOverErased(d.base, WholePages(d'.stream), d.size + HASH_SIZE);
    } else if e == Finish && |d.stream| == d.size + HASH_SIZE {
      FinishStores(d);
      StoredKeepsA(d.base, d.stream);
      DefaultsOverErased(d.base, d.stream, d.size + HASH_SIZE);
    }
  }

  lemma CheckKeepsOverBlank(sha: seq<octet> -> Digest, d: Device, imgA: seq<octet>)
    requires OverBlank(d, imgA) && d.pc == Verifying
    ensures OverBlank(Checked(sha, d, true), imgA)
  {
    hide Stored, ReadFlags, ErasedFor, HashMatches;
    DefaultsOverErased(d.base, d.stream, d.size + HASH_SIZE);
  }

  lemma FlagsKeepOverBlank(d: Device, imgA: seq<octet>)
    requires OverBlank(d, imgA) && (d.pc.EraseFlags? || d.pc.ProgramFlags?)
    ensures OverBlank(Advance(d), imgA)
  {
    var d' := Advance(d);
    if d.pc.EraseFlags? {
      ErasedFlagsReadDefault(d.flash);
    } else {
      ProgrammedFlagsReadBack(d.flash, d.flags);
    }
    assert d'.flash[..PART_A_SIZE] == d.flash[..PART_A_SIZE];
  }

  lemma StepKeepsOverBlank(sha: seq<octet> -> Digest, d: Device, e: Event, imgA: seq<octet>)
    requires OverBlank(d, imgA) && InAttempt(e)
    ensures OverBlank(Step(sha, d, e), imgA)
  {
    if e == Tick && d.pc.ErasingStage? {
      EraseKeepsOverBlank(d, imgA);
    } else if e == Tick && (d.pc.EraseFlags? || d.pc.ProgramFlags?) {
      FlagsKeepOverBlank(d, imgA);
    } else if d.pc == Receiving && (e.Feed? || e == Finish) {
      DataKeepsOverBlank(d, e, imgA);
    } else if d.pc == Verifying && e.Check? {
      CheckKeepsOverBlank(sha, d, imgA);
    } else {
      OthersKeepOverBlank(sha, d, e, imgA);
    }
  }

  lemma OthersKeepOverBlank(sha: seq<octet> -> Digest, d: Device, e: Event, imgA: seq<octet>)
    requires OverBlank(d, imgA) && InAttempt(e)
    requires e == Tick ==> !d.pc.ErasingStage? && !d.pc.EraseFlags? && !d.pc.ProgramFlags?
    requires e.Feed? || e == Finish ==> d.pc != Receiving
    requires e.Check? ==> d.pc != Verifying
    ensures OverBlank(Step(sha, d, e), imgA)
  {
    hide ReadFlags, Stored, ErasedFor;
  }

  lemma {:induction false} RunKeepsOverBlank(sha: seq<octet> -> Digest, d: Device, es: seq<Event>, imgA: seq<octet>)
    requires OverBlank(d, imgA) && forall i :: 0 <= i < |es| ==> InAttempt(es[i])
    ensures OverBlank(Run(sha, d, es), imgA)
    decreases |es|
  {
    if es != [] {
      hide OverBlank, Step;
      assert InAttempt(es[0]);
      StepKeepsOverBlank(sha, d, es[0], imgA);
      RunKeepsOverBlank(sha, Step(sha, d, es[0]), es[1..], imgA);
    }
  }

  lemma StartOverBlank(sha: seq<octet> -> Digest, d: Device, n: nat, imgA: seq<octet>)
    requires Inv(d, imgA) && d.pc == Running && d.flags.active != 0 && AcceptedSize(n) && FitsBelowFlags(n)
    requires FLAG_IN_B < n + HASH_SIZE && BlankImage(d)
    ensures OverBlank(Step(sha, d, Start(n)), imgA)
  {
    hide Erased, EraseSize, ReadFlags;
    EraseCoversTransfer(n + HASH_SIZE);
    NothingErased(d.flash);
  }

  lemma BlankAttemptIsSafe(sha: seq<octet> -> Digest, d: Device, n: nat, imgA: seq<octet>)
    requires Inv(d, imgA) && d.pc == Running && d.flags.active != 0 && AcceptedSize(n) && FitsBelowFlags(n)
    requires FLAG_IN_B < n + HASH_SIZE && BlankImage(d)
    ensures AttemptSafe(sha, d, n, imgA)
  {
    forall s, k | |s| == n + HASH_SIZE && 0 <= k <= |Attempt(n, s)| ensures Safe(AfterCut(sha, d, n, s, k), imgA) {
      var es := Attempt(n, s)[..k] + [PowerCut];
      if k == 0 {
        assert Attempt(n, s)[..0] == [];
        CutKeepsFlash(sha, d, [], imgA);
        NoMoreEvents(sha, d);
      } else {
        StartOverBlank(sha, d, n, imgA);
        RunKeepsOverBlank(sha, Step(sha, d, es[0]), es[1..], imgA);
      }
    }
  }

  /**
   * From the main loop, an attempt of size n is safe, for every stream and with power cut after any of its flash
   * operations, exactly when its total stays below the fourth byte of the flag sector and A is active, or B is and
   * holds a blank image that is erased together with the flags.
   */
  lemma AttemptSafeIffFits(sha: seq<octet> -> Digest, d: Device, n: nat, imgA: seq<octet>)
    requires Inv(d, imgA) && d.pc == Running && AcceptedSize(n)
    ensures AttemptSafe(sha, d, n, imgA) <==>
      FitsBelowFlags(n) && (d.flags.active == 0 || (FLAG_IN_B < n + HASH_SIZE && BlankImage(d)))
  {
    hide AttemptSafe, Inv;
    if !FitsBelowFlags(n) {
      InvSize(d, imgA);
      LargeAttemptIsUnsafe(sha, d, n, imgA);
    } else if d.flags.active == 0 {
      FittingAttemptIsSafe(sha, d, n, imgA);
    } else if n + HASH_SIZE <= FLAG_IN_B {
      SmallAttemptOverB(sha, d, n, imgA);
    } else if BlankImage(d) {
      BlankAttemptIsSafe(sha, d, n, imgA);
    } else {
      LateEraseOverB(sha, d, n, imgA);
    }
  }

  lemma InvSize(d: Device, imgA: seq<octet>)
    requires Inv(d, imgA)
    ensures |d.flash| == FLASH_TOTAL_SIZE
  {}
}
