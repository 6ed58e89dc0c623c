/** Confirm and roll-back over successive boots (bootloader.c). */
module BootSelection {
  import opened Flash
  import opened Bootloader
  import opened UpdateSafety

  /** Swapping twice returns to the same partition number exactly when it was 0 or 1. */
  lemma RollbackUndoesAccept(f: BootFlags)
    ensures RolledBack(BootCounted(BootCounted(Accepted(f)))) == f.(pending := 0, bootCount := 0) <==> f.active <= 1
  {}

  /** The first boot after an accepted update counts itself and keeps the partition the update selected. */
  lemma FirstBootKeepsSelection(m: seq<octet>, f: BootFlags)
    requires |m| == FLASH_TOTAL_SIZE && ReadFlags(m) == Accepted(f)
    ensures !Boots(m, 1).rebooted
    ensures ReadFlags(Boots(m, 1).flash) == Boots(m, 1).flags == Accepted(f).(bootCount := 1)
  {
    FlagsRoundTrip(m, BootCounted(Accepted(f)));
  }

  /** A boot with nothing pending changes nothing. */
  lemma {:induction false} SettledStays(m: seq<octet>, n: nat)
    requires |m| == FLASH_TOTAL_SIZE && ReadFlags(m).pending == 0 && n > 0
    ensures Boots(m, n) == BootResult(m, ReadFlags(m), false)
  {
    if n > 1 {
      SettledStays(BootOnce(m).flash, n - 1);
    }
  }

  /** Without BOOT_OK the second boot selects the previous partition again, and every later boot leaves it so. */
  lemma UnconfirmedRollsBack(m: seq<octet>, f: BootFlags, n: nat)
    requires |m| == FLASH_TOTAL_SIZE && ReadFlags(m) == Accepted(f) && f.active <= 1 && n >= 2
    ensures Boots(m, 2).rebooted
    ensures ReadFlags(Boots(m, n).flash) == Boots(m, n).flags == f.(pending := 0, bootCount := 0)
    ensures n > 2 ==> !Boots(m, n).rebooted && Boots(m, n).flash == Boots(m, 2).flash
  {
    FirstBootKeepsSelection(m, f);
    var m1 := Boots(m, 1).flash;
    var f2 := BootCounted(ReadFlags(m1));
    var m2 := FlagsWritten(m1, f2);
    FlagsRoundTrip(m1, f2);
    FlagsRoundTrip(m2, RolledBack(f2));
    assert Boots(m, 2) == BootOnce(m1);
    assert Boots(m, n) == Boots(m1, n - 1);
    if n > 2 {
      assert Boots(m1, n - 1) == Boots(Boots(m, 2).flash, n - 2);
      SettledStays(Boots(m, 2).flash, n - 2);
    }
  }

  /**
   * With BOOT_OK after the first boot, every later boot runs under the flags the update wrote, no longer pending: the
   * new partition stays selected.
   */
  lemma ConfirmedStays(m: seq<octet>, f: BootFlags, n: nat)
    requires |m| == FLASH_TOTAL_SIZE && ReadFlags(m) == Accepted(f) && n > 0
    ensures var r := Boots(m, 1);
      var m' := FlagsWritten(r.flash, Confirmed(r.flags));
      Boots(m', n) == BootResult(m', ReadFlags(m).(pending := 0, bootCount := 0), false)
  {
    FirstBootKeepsSelection(m, f);
    var r := Boots(m, 1);
    var m' := FlagsWritten(r.flash, Confirmed(r.flags));
    FlagsRoundTrip(r.flash, Confirmed(r.flags));
    SettledStays(m', n);
  }

  // ----- The step machine, left alone, does what one call of bootloader_init does

  function Ticks(n: nat): (es: seq<Event>)
    ensures |es| == n
  {
    seq(n, _ => Tick)
  }

  lemma RunOne(sha: seq<octet> -> Digest, d: Device, e: Event, es: seq<Event>)
    requires |d.flash| == FLASH_TOTAL_SIZE
    ensures Run(sha, d, [e] + es) == Run(sha, Step(sha, d, e), es)
  {
    assert ([e] + es)[1..] == es;
  }

  lemma BootRunsBootOnce(sha: seq<octet> -> Digest, d: Device)
    requires |d.flash| == FLASH_TOTAL_SIZE && d.pc == Off
    ensures var r := BootOnce(d.flash);
      var d' := Run(sha, d, [PowerOn] + Ticks(5));
      d'.flash == r.flash && d'.flags == r.flags && d'.pc == if r.rebooted then Off else Running
  {
    hide ReadFlags, FlagsErased, FlagsProgrammed, BootCounted, RolledBack;
    var d0 := Step(sha, d, PowerOn);
    var d1 := Step(sha, d0, Tick);
    var d2 := Step(sha, d1, Tick);
    var d3 := Step(sha, d2, Tick);
    var d4 := Step(sha, d3, Tick);
    RunOne(sha, d, PowerOn, Ticks(5));
    assert Ticks(5) == [Tick] + Ticks(4);
    RunOne(sha, d0, Tick, Ticks(4));
    assert Ticks(4) == [Tick] + Ticks(3);
    RunOne(sha, d1, Tick, Ticks(3));
    assert Ticks(3) == [Tick] + Ticks(2);
    RunOne(sha, d2, Tick, Ticks(2));
    assert Ticks(2) == [Tick] + Ticks(1);
    RunOne(sha, d3, Tick, Ticks(1));
    assert Ticks(1) == [Tick] + [];
    RunOne(sha, d4, Tick, []);
  }

  /** BOOT_OK and its two flash operations: the same partition stays selected, in RAM and in flash. */
  lemma BootOkConfirms(sha: seq<octet> -> Digest, d: Device)
    requires |d.flash| == FLASH_TOTAL_SIZE && d.pc == Running && d.flags.pending != 0
    ensures var r := Run(sha, d, [BootOk] + Ticks(2));
      r == d.(flags := d.flags.(pending := 0, bootCount := 0), flash := r.flash) && ReadFlags(r.flash) == r.flags
    ensures Run(sha, d, [BootOk] + Ticks(2)).flash == FlagsWritten(d.flash, d.flags.(pending := 0, bootCount := 0))
  {
    hide FlagsErased, FlagsProgrammed, ReadFlags;
    var d0 := Step(sha, d, BootOk);
    var d1 := Step(sha, d0, Tick);
    FlagsRoundTrip(d.flash, d0.flags);
    RunOne(sha, d, BootOk, Ticks(2));
    assert Ticks(2) == [Tick] + ([Tick] + []);
    RunOne(sha, d0, Tick, [Tick] + []);
    RunOne(sha, d1, Tick, []);
  }

  /** The machine from an accepted update through its first boot and BOOT_OK, left alone. */
  lemma ConfirmedRun(sha: seq<octet> -> Digest, d: Device, f: BootFlags)
    requires |d.flash| == FLASH_TOTAL_SIZE && d.pc == Off && ReadFlags(d.flash) == Accepted(f)
    ensures var r := Run(sha, d, ([PowerOn] + Ticks(5)) + ([BootOk] + Ticks(2)));
      r.pc == Running && ReadFlags(r.flash) == r.flags == ReadFlags(d.flash).(pending := 0, bootCount := 0)
  {
    hide ReadFlags, FlagsWritten, Run;
    var d1 := Run(sha, d, [PowerOn] + Ticks(5));
    BootRunsBootOnce(sha, d);
    FirstBootKeepsSelection(d.flash, f);
    RunJoins(sha, d, [PowerOn] + Ticks(5), [BootOk] + Ticks(2));
    BootOkConfirms(sha, d1);
  }

  lemma {:induction false} RunJoins(sha: seq<octet> -> Digest, d: Device, es: seq<Event>, fs: seq<Event>)
    requires |d.flash| == FLASH_TOTAL_SIZE
    ensures Run(sha, d, es + fs) == Run(sha, Run(sha, d, es), fs)
    decreases |es|
  {
    if es == [] {
      assert es + fs == fs;
    } else {
      RunJoins(sha, Step(sha, d, es[0]), es[1..], fs);
      assert (es + fs)[1..] == es[1..] + fs;
    }
  }

  // ----- The boot counter

  /** Flags the firmware can run under: an unconfirmed image has been booted at most once. */
  predicate Counts(f: BootFlags) {
    f.bootCount <= 1 && (f.pending == 0 ==> f.bootCount == 0)
  }

  /** What every run keeps, wherever power is cut. */
  ghost predicate CountInv(d: Device)
    requires |d.flash| == FLASH_TOTAL_SIZE
  {
    var f := ReadFlags(d.flash);
    (f.pending == 0 ==> f.bootCount == 0) &&
    match d.pc
    case Off => true
    case EraseFlags(next) => (d.flags.pending == 0 ==> d.flags.bootCount == 0) && (next != Decide ==> Counts(d.flags))
    case ProgramFlags(next) => (d.flags.pending == 0 ==> d.flags.bootCount == 0) && (next != Decide ==> Counts(d.flags))
    case Counted => d.flags == f && f.pending != 0
    case _ => Counts(d.flags) && Counts(f)
  }

  lemma AdvanceKeepsCountInv(d: Device, imgA: seq<octet>)
    requires Inv(d, imgA) && CountInv(d)
    ensures CountInv(Advance(d))
  {
    match d.pc
    case EraseFlags(next) => ErasedFlagsReadDefault(d.flash);
    case ProgramFlags(next) => ProgrammedFlagsReadBack(d.flash, d.flags);
    case ErasingStage(k) =>
      if Advance(d).pc.ErasingStage? {
        EraseOneMore(d.flash, k);
      }
    case _ =>
  }

  /** Receiving and the final flush leave the stored flags as they were, or at their defaults. */
  lemma ReceiveKeepsFlags(d: Device, e: Event, imgA: seq<octet>)
    requires Inv(d, imgA) && d.pc == Receiving
    ensures e.Feed? ==> ReadFlags(Fed(d, e.b).flash) == ReadFlags(d.flash)
    ensures e == Finish ==>
      ReadFlags(Finished(d).flash) == ReadFlags(d.flash) || ReadFlags(Finished(d).flash) == DEFAULT_FLAGS
  {
    FlagsWhileReceiving(d);
    if e.Feed? && |d.stream| < d.size + HASH_SIZE {
      FeedStores(d, e.b);
      FlagsWhileReceiving(Fed(d, e.b));
    } else if e == Finish && |d.stream| == d.size + HASH_SIZE {
      FinishStores(d);
      StoredKeepsFlags(d.base, d.stream, d.size + HASH_SIZE);
    }
  }

  lemma FlagsWhileReceiving(d: Device)
    requires AcceptedSize(d.size) && FitsBelowFlags(d.size) && |d.base| == FLASH_TOTAL_SIZE && ReceivingInv(d)
    ensures |d.flash| == FLASH_TOTAL_SIZE && ReadFlags(d.flash) == ReadFlags(d.base)
  {
    var w := WholePages(d.stream);
    assert |w| <= FLAG_IN_B;
    assert forall i :: BOOT_FLAG_OFFSET <= i < BOOT_FLAG_OFFSET + 8 ==> d.flash[i] == d.base[i];
  }

  lemma StepKeepsCountInv(sha: seq<octet> -> Digest, d: Device, e: Event, imgA: seq<octet>)
    requires Inv(d, imgA) && Allowed(d, e) && CountInv(d)
    ensures CountInv(Step(sha, d, e))
  {
    hide ReadFlags, Inv, Fed, Finished;
    if e == Tick {
      AdvanceKeepsCountInv(d, imgA);
    } else if d.pc == Receiving && (e.Feed? || e == Finish) {
      ReceiveKeepsFlags(d, e, imgA);
      ReceiveKeepsRam(d, e, imgA);
    }
  }

  lemma ReceiveKeepsRam(d: Device, e: Event, imgA: seq<octet>)
    requires Inv(d, imgA) && d.pc == Receiving
    ensures e.Feed? ==> Fed(d, e.b).flags == d.flags && Fed(d, e.b).pc == Receiving
    ensures Finished(d).flags == d.flags && (Finished(d).pc == Receiving || Finished(d).pc == Verifying)
  {}

  /** In the main loop `boot_count` is at most 1, over every run and every power cut. */
  lemma {:induction false} MainLoopCountIsOne(sha: seq<octet> -> Digest, d: Device, es: seq<Event>, imgA: seq<octet>)
    requires Inv(d, imgA) && CountInv(d) && AllAllowed(sha, d, es)
    ensures var r := Run(sha, d, es);
      CountInv(r) && (r.pc == Running ==> r.flags.bootCount <= 1 && ReadFlags(r.flash).bootCount <= 1)
    decreases |es|
  {
    if es != [] {
      StepKeepsCountInv(sha, d, es[0], imgA);
      StepKeepsInv(sha, d, es[0], imgA);
      MainLoopCountIsOne(sha, Step(sha, d, es[0]), es[1..], imgA);
    }
  }

  // ----- When the count stays at most 2

  /** The count in flash, and the count in RAM while the board is on. */
  ghost predicate AtMostTwo(d: Device)
    requires |d.flash| == FLASH_TOTAL_SIZE
  {
    ReadFlags(d.flash).bootCount <= 2 && (d.pc != Off ==> d.flags.bootCount <= 2)
  }

  ghost predicate AlwaysAtMostTwo(sha: seq<octet> -> Digest, d: Device, es: seq<Event>)
    requires |d.flash| == FLASH_TOTAL_SIZE
    decreases |es|
  {
    AtMostTwo(d) && (es == [] || AlwaysAtMostTwo(sha, Step(sha, d, es[0]), es[1..]))
  }

  /** Off with an unconfirmed image that has been counted twice. */
  predicate CountedTwice(d: Device)
    requires |d.flash| == FLASH_TOTAL_SIZE
  {
    d.pc == Off && ReadFlags(d.flash).pending != 0 && ReadFlags(d.flash).bootCount == 2
  }

  predicate NeverPoweredAgain(sha: seq<octet> -> Digest, d: Device, es: seq<Event>)
    requires |d.flash| == FLASH_TOTAL_SIZE
    decreases |es|
  {
    es == [] || (!(es[0] == PowerOn && CountedTwice(d)) && NeverPoweredAgain(sha, Step(sha, d, es[0]), es[1..]))
  }

  /** Between the count reaching 2 and the roll-back taking effect. */
  predicate RollbackPending(d: Device) {
    (d.pc == Counted && d.flags.bootCount > 1) || (d.pc == EraseFlags(Reset) && d.flags.pending == 0)
  }

  /** A stored count of 2 means that a roll-back is pending or was cut off. */
  ghost predicate TwoInv(d: Device)
    requires |d.flash| == FLASH_TOTAL_SIZE
  {
    var f := ReadFlags(d.flash);
    CountInv(d) && AtMostTwo(d) && (f.bootCount == 2 ==> CountedTwice(d) || RollbackPending(d)) &&
    (RollbackPending(d) ==> f.bootCount == 2)
  }

  lemma AdvanceKeepsTwoInv(d: Device, imgA: seq<octet>)
    requires Inv(d, imgA) && TwoInv(d)
    ensures TwoInv(Advance(d))
  {
    AdvanceKeepsCountInv(d, imgA);
    match d.pc
    case EraseFlags(next) => ErasedFlagsReadDefault(d.flash);
    case ProgramFlags(next) => ProgrammedFlagsReadBack(d.flash, d.flags);
    case ErasingStage(k) =>
      if Advance(d).pc.ErasingStage? {
        EraseOneMore(d.flash, k);
      }
    case _ =>
  }

  lemma StepKeepsTwoInv(sha: seq<octet> -> Digest, d: Device, e: Event, imgA: seq<octet>)
    requires Inv(d, imgA) && Allowed(d, e) && TwoInv(d)
    requires !(e == PowerOn && CountedTwice(d))
    ensures TwoInv(Step(sha, d, e))
  {
    hide ReadFlags, Inv, Fed, Finished;
    StepKeepsCountInv(sha, d, e, imgA);
    if e == Tick {
      AdvanceKeepsTwoInv(d, imgA);
    } else if d.pc == Receiving && (e.Feed? || e == Finish) {
      ReceiveKeepsFlags(d, e, imgA);
      ReceiveKeepsRam(d, e, imgA);
    }
  }

  /**
   * Over every run `boot_count` stays at most 2, in flash and in RAM, exactly when the board is never switched on
   * with an unconfirmed image that has been counted twice.
   */
  lemma {:induction false} BootCountAtMostTwoIff(sha: seq<octet> -> Digest, d: Device, es: seq<Event>, imgA: seq<octet>)
    requires Inv(d, imgA) && TwoInv(d) && AllAllowed(sha, d, es)
    ensures AlwaysAtMostTwo(sha, d, es) <==> NeverPoweredAgain(sha, d, es)
    decreases |es|
  {
    if es != [] {
      if es[0] == PowerOn && CountedTwice(d) {
        assert !AtMostTwo(Step(sha, d, es[0]));
      } else {
        StepKeepsTwoInv(sha, d, es[0], imgA);
        StepKeepsInv(sha, d, es[0], imgA);
        BootCountAtMostTwoIff(sha, Step(sha, d, es[0]), es[1..], imgA);
      }
    }
  }

  /** A device is in that condition exactly after power was cut while a roll-back was pending. */
  lemma CountedTwiceIffCut(sha: seq<octet> -> Digest, d: Device, e: Event, imgA: seq<octet>)
    requires Inv(d, imgA) && Allowed(d, e) && TwoInv(d)
    requires !(e == PowerOn && CountedTwice(d))
    ensures CountedTwice(Step(sha, d, e)) <==> CountedTwice(d) || (e == PowerCut && RollbackPending(d))
  {
    hide Inv, Fed, Finished, ReadFlags;
    StepKeepsTwoInv(sha, d, e, imgA);
    if e == Tick {
      AdvanceIsNotCountedTwice(d, imgA);
    } else if d.pc == Receiving && (e.Feed? || e == Finish) {
      ReceiveKeepsRam(d, e, imgA);
    }
  }

  lemma AdvanceIsNotCountedTwice(d: Device, imgA: seq<octet>)
    requires Inv(d, imgA) && CountInv(d)
    ensures CountedTwice(Advance(d)) <==> CountedTwice(d)
  {
    if d.pc.ProgramFlags? {
      ProgrammedFlagsReadBack(d.flash, d.flags);
    }
  }

  /** From the state as shipped both results apply. */
  lemma ShippedCounts(d: Device, imgA: seq<octet>)
    requires Shipped(d, imgA) && ReadFlags(d.flash).bootCount == 0
    ensures Inv(d, imgA) && CountInv(d) && TwoInv(d)
  {}

  /**
   * Cutting power just before the roll-back keeps the unconfirmed image selected and counts on, modulo 256. So the
   * counter passes 2, and 255 wraps to 0, after which the image runs again.
   */
  lemma CutBeforeRollbackCountsOn(sha: seq<octet> -> Digest, d: Device)
    requires |d.flash| == FLASH_TOTAL_SIZE && d.pc == Off
    requires ReadFlags(d.flash).pending != 0
    ensures var f := ReadFlags(d.flash);
      var r := Run(sha, d, [PowerOn, Tick, Tick, PowerCut]);
      r.pc == Off && ReadFlags(r.flash) == f.(bootCount := f.bootCount + 1)
    ensures ReadFlags(d.flash).bootCount == 255 ==>
      !BootOnce(d.flash).rebooted && BootOnce(d.flash).flags.bootCount == 0
  {
    var f := ReadFlags(d.flash);
    var d0 := Step(sha, d, PowerOn);
    var d1 := Step(sha, d0, Tick);
    var d2 := Step(sha, d1, Tick);
    FlagsRoundTrip(d.flash, BootCounted(f));
    assert [PowerOn, Tick, Tick, PowerCut] == [PowerOn] + ([Tick] + ([Tick] + ([PowerCut] + [])));
    RunOne(sha, d, PowerOn, [Tick] + ([Tick] + ([PowerCut] + [])));
    RunOne(sha, d0, Tick, [Tick] + ([PowerCut] + []));
    RunOne(sha, d1, Tick, [PowerCut] + []);
    RunOne(sha, d2, PowerCut, []);
  }
}
