/** The flash mode of the serial protocol: chunks, progress lines and the end of a transfer (serial_proto.c). */
module OtaSession {
  import opened Bytes
  import opened Flash
  import opened Bootloader

  datatype Outcome = More | Aborted | Rebooting | VerifyFailed

  /** Tens digits strictly increase, from above that of `start`. */
  ghost predicate Climbs(lines: seq<nat>, start: nat) {
    (forall i, j :: 0 <= i < j < |lines| ==> lines[i] / 10 < lines[j] / 10) &&
    (forall i :: 0 <= i < |lines| ==> start / 10 < lines[i] / 10 && lines[i] <= 100)
  }

  /** So at most ten PROGRESS lines are sent, and fewer when a previous transfer was aborted part-way. */
  lemma {:induction false} FewProgressLines(lines: seq<nat>, start: nat)
    requires Climbs(lines, start) && start <= 100
    ensures |lines| <= 10 - start / 10
  {
    if lines != [] {
      FewProgressLines(lines[1..], lines[0]);
    }
  }

  /** The PROGRESS line, if any, that percentage p causes after `last`. */
  function Reported(last: nat, p: nat): seq<nat> {
    if p / 10 > last / 10 then [p] else []
  }

  function Larger(a: nat, b: nat): nat {
    if a < b then b else a
  }

  class Session {
    const boot: Receiver
    var flashMode: bool
    var lastProgress: nat

    ghost var startProgress: nat
    ghost var lines: seq<nat>

    ghost predicate Valid()
      reads this, boot, boot.flash, boot.writeBuf
    {
      boot.Valid() && lastProgress <= 100 && (flashMode ==> boot.Receiving()) &&
      startProgress <= 100 && Climbs(lines, startProgress) &&
      (flashMode ==> lastProgress == if lines == [] then startProgress else lines[|lines| - 1])
    }

    /** Between calls: a finished transfer resets the static, and no other reaches 100. */
    ghost predicate Settled()
      reads this, boot, boot.flash, boot.writeBuf
    {
      Valid() && lastProgress < 100
    }

    constructor (boot: Receiver)
      requires boot.Valid()
      ensures Settled() && this.boot == boot && !flashMode && lastProgress == 0
    {
      this.boot := boot;
      flashMode, lastProgress, startProgress, lines := false, 0, 0, [];
    }

    /** FLASH:<size>. The static `last_progress` is not reset here. */
    method HandleFlash(size: nat) returns (ready: bool)
      requires Settled() && size < U32_RANGE
      modifies this, boot, boot.flash
      ensures Settled()
      ensures ready <==> 1 <= size <= 0xC0000 - 32
      ensures ready ==> flashMode && boot.stream == [] && boot.expectedSize == size && lines == []
      ensures lastProgress == old(lastProgress) && (ready ==> startProgress == lastProgress)
      ensures !ready ==> unchanged(this) && unchanged(boot) && unchanged(boot.flash)
    {
      if size == 0 || size > PART_B_SIZE {
        return false;
      }
      ready := boot.StartFlash(size);
      if ready {
        flashMode := true;
        startProgress, lines := lastProgress, [];
      }
    }

    /** A PROGRESS line goes out whenever the tens digit has grown. */
    method ReportProgress()
      requires Valid() && flashMode
      modifies this`lastProgress, this`lines
      ensures Valid() && lines == old(lines) + Reported(old(lastProgress), Percent(boot.received, boot.totalSize))
      ensures lastProgress == if lines == old(lines) then old(lastProgress) else Percent(boot.received, boot.totalSize)
      ensures lastProgress / 10 == Larger(old(lastProgress) / 10, Percent(boot.received, boot.totalSize) / 10)
    {
      hide Stored, ErasedFor, BufferAfter, WholePages, PageOffsets, Percent, EraseSize;
      PercentIsExact(boot.received, 0, boot.totalSize);
      var progress := boot.Progress();
      if progress / 10 > lastProgress / 10 {
        lines := lines + [progress];
        lastProgress := progress;
      }
    }

    /** One chunk read from USB in flash mode. */
    method ProcessFlashData(data: seq<octet>, shaOk: bool) returns (outcome: Outcome)
      requires Settled() && flashMode && 0 < |data| <= 512
      modifies this, boot, boot.flash, boot.writeBuf
      ensures Settled() && startProgress == old(startProgress)
      ensures boot.expectedSize == old(boot.expectedSize) && boot.totalSize == old(boot.totalSize)
      ensures flashMode <==> outcome == More
      ensures outcome == Aborted <==> old(|boot.stream|) + |data| > boot.totalSize
      ensures outcome == Aborted ==> unchanged(boot) && unchanged(boot.flash) && unchanged(boot.writeBuf)
      ensures outcome != Aborted ==> boot.stream == old(boot.stream) + data
      ensures boot.base == old(boot.base)
      ensures outcome == More <==> outcome != Aborted && |boot.stream| < boot.totalSize
      ensures outcome == Rebooting <==>
              outcome != Aborted && |boot.stream| == boot.totalSize && shaOk &&
              boot.stream[boot.expectedSize..] == boot.sha(boot.stream[..boot.expectedSize])
      ensures outcome == Aborted ==> lines == old(lines) && lastProgress == old(lastProgress)
      ensures outcome == More ==>
        lines == old(lines) + Reported(old(lastProgress), Percent(|boot.stream|, boot.totalSize))
      ensures outcome == More ==>
        lastProgress / 10 == Larger(old(lastProgress) / 10, Percent(|boot.stream|, boot.totalSize) / 10)
      ensures outcome == Rebooting || outcome == VerifyFailed ==> lines == old(lines) + [100] && lastProgress == 0
      ensures outcome == Rebooting ==>
        boot.flags == Accepted(old(boot.flags)) &&
          boot.flash[..] == FlagsWritten(Stored(boot.base, boot.stream), boot.flags)
      ensures outcome == VerifyFailed ==>
        boot.flags == old(boot.flags) && boot.flash[..] == Stored(boot.base, boot.stream)
    {
      hide Stored, ErasedFor, BufferAfter, WholePages, PageOffsets, Percent, Climbs, FlagsWritten, Accepted;
      var fed := boot.FeedData(data);
      if !fed {
        flashMode := false;
        return Aborted;
      }
      ReportProgress();
      PercentIsExact(boot.received, 0, boot.totalSize);
      if !boot.IsComplete() {
        return More;
      }
      flashMode := false;
      lastProgress := 0;
      var accepted := boot.Finalize(shaOk);
      return if accepted then Rebooting else VerifyFailed;
    }
  }

  /**
   * However a byte stream is cut into calls, the receiver ends in the state of the concatenated bytes
   * (`Receiver.StateIsFunctionOfStream` says what that is); it refuses exactly when the whole would overrun.
   */
  method FeedChunks(boot: Receiver, chunks: seq<seq<octet>>) returns (ok: bool)
    requires boot.Receiving() && boot.received + |Flatten(chunks)| < U32_RANGE
    modifies boot, boot.flash, boot.writeBuf
    ensures boot.Receiving() && boot.base == old(boot.base) && boot.buf0 == old(boot.buf0)
    ensures boot.totalSize == old(boot.totalSize)
    ensures ok <==> old(|boot.stream|) + |Flatten(chunks)| <= boot.totalSize
    ensures ok ==> boot.stream == old(boot.stream) + Flatten(chunks)
  {
    hide Stored, ErasedFor, BufferAfter, WholePages, PageOffsets, EraseSize;
    for i := 0 to |chunks|
      invariant boot.Receiving() && boot.base == old(boot.base) && boot.buf0 == old(boot.buf0)
      invariant boot.totalSize == old(boot.totalSize)
      invariant boot.stream == old(boot.stream) + Flatten(chunks[..i])
    {
      FlattenAppend(chunks[..i], chunks[i]);
      assert chunks[..i + 1] == chunks[..i] + [chunks[i]];
      FlattenPrefix(chunks, i + 1);
      var fed := boot.FeedData(chunks[i]);
      if !fed {
        return false;
      }
    }
    assert chunks[..|chunks|] == chunks;
    return true;
  }
}
