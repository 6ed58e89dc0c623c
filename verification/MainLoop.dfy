/** The order of tasks in the main loop (main.c) and what it means for cancelling boot unlock. */
module MainLoop {
  import opened Bytes
  import opened BootUnlock
  import Scheduler
  import SerialLines

  /** The automaton and the shared flag `g_state.boot_unlock_cancelled`. */
  datatype Shared = Shared(auto: Auto, cancelled: bool)

  /**
   * One time round the loop: whether serial_task dispatched a known command, the clock readings and PIN availability
   * of boot_unlock_task, and whether scheduler_task fired.
   */
  datatype Round = Round(command: bool, now: nat, later: nat, pinLoads: bool, wake: bool)

  /** `serial_cancel_boot_unlock` for every known command. */
  function SerialTask(s: Shared, r: Round): Shared {
    if r.command then s.(cancelled := true) else s
  }

  function BootUnlockTask(cfg: Timing, s: Shared, r: Round): Shared {
    s.(auto := Pass(cfg, s.auto, s.cancelled, Clock(r.now), Clock(r.later)))
  }

  /** A firing scheduler clears the flag for its own wait. */
  function SchedulerTask(s: Shared, r: Round): Shared {
    if r.wake then s.(cancelled := false) else s
  }

  function Iterate(cfg: Timing, s: Shared, r: Round): Shared {
    SchedulerTask(BootUnlockTask(cfg, SerialTask(s, r), r), r)
  }

  /** Keys sent by the boot task of that iteration. */
  function Sent(cfg: Timing, s: Shared, r: Round): seq<Key> {
    Keys(cfg, s.auto, SerialTask(s, r).cancelled, Clock(r.now), r.pinLoads)
  }

  function Loop(cfg: Timing, s: Shared, rs: seq<Round>): Shared
    decreases |rs|
  {
    if rs == [] then s else Loop(cfg, Iterate(cfg, s, rs[0]), rs[1..])
  }

  function AllSent(cfg: Timing, s: Shared, rs: seq<Round>): seq<Key>
    decreases |rs|
  {
    if rs == [] then [] else Sent(cfg, s, rs[0]) + AllSent(cfg, Iterate(cfg, s, rs[0]), rs[1..])
  }

  lemma {:induction false} DoneIsSilent(cfg: Timing, s: Shared, rs: seq<Round>)
    requires s.auto.phase == Done
    ensures AllSent(cfg, s, rs) == [] && Loop(cfg, s, rs).auto == s.auto
    decreases |rs|
  {
    if rs != [] {
      DoneIsSilent(cfg, Iterate(cfg, s, rs[0]), rs[1..]);
    }
  }

  lemma {:induction false} StillStarted(cfg: Timing, s: Shared, rs: seq<Round>)
    requires s.auto.phase != Idle
    ensures Loop(cfg, s, rs).auto.phase != Idle
    decreases |rs|
  {
    if rs != [] {
      StillStarted(cfg, Iterate(cfg, s, rs[0]), rs[1..]);
    }
  }

  lemma {:induction false} LoopAppend(cfg: Timing, s: Shared, rs: seq<Round>, more: seq<Round>)
    ensures Loop(cfg, s, rs + more) == Loop(cfg, Loop(cfg, s, rs), more)
    ensures AllSent(cfg, s, rs + more) == AllSent(cfg, s, rs) + AllSent(cfg, Loop(cfg, s, rs), more)
    decreases |rs|
  {
    hide Sent, Iterate;
    if rs == [] {
      assert rs + more == more;
    } else {
      LoopAppend(cfg, Iterate(cfg, s, rs[0]), rs[1..], more);
      assert (rs + more)[1..] == rs[1..] + more;
    }
  }

  /**
   * A known command dispatched in some iteration leaves the automaton Done in that iteration, and from that
   * iteration's boot task on no key is ever sent, whatever the scheduler does to the shared flag.
   */
  lemma CommandCancels(cfg: Timing, s: Shared, before: seq<Round>, r: Round, later: seq<Round>)
    requires s.auto.phase != Idle && r.command
    ensures Loop(cfg, s, before + [r]).auto.phase == Done
    ensures AllSent(cfg, s, before + [r] + later) == AllSent(cfg, s, before)
  {
    var m := Loop(cfg, s, before);
    StillStarted(cfg, s, before);
    LoopAppend(cfg, s, before, [r]);
    var n := Iterate(cfg, m, r);
    assert n.auto.phase == Done && Sent(cfg, m, r) == [];
    assert [r][1..] == [];
    assert Loop(cfg, m, [r]) == n;
    LoopAppend(cfg, s, before + [r], later);
    DoneIsSilent(cfg, n, later);
    assert AllSent(cfg, m, [r]) == [];
  }

  /** What one round without a command is for the automaton. */
  function CallOf(r: Round): Call {
    Call(r.now, r.later, false, r.pinLoads)
  }

  function CallsOf(rs: seq<Round>): (calls: seq<Call>)
    ensures |calls| == |rs| && forall i :: 0 <= i < |rs| ==> calls[i] == CallOf(rs[i])
  {
    seq(|rs|, i requires 0 <= i < |rs| => CallOf(rs[i]))
  }

  /** Without a command nothing is cancelled: the loop runs the automaton and sends all its keys. */
  lemma {:induction false} QuietLoopRuns(cfg: Timing, s: Shared, rs: seq<Round>)
    requires !s.cancelled && forall i :: 0 <= i < |rs| ==> !rs[i].command
    ensures Loop(cfg, s, rs) == Shared(After(cfg, s.auto, CallsOf(rs)), false)
    ensures AllSent(cfg, s, rs) == KeysOf(cfg, s.auto, CallsOf(rs))
    decreases |rs|
  {
    if rs != [] {
      hide Keys, Pass, Clock;
      assert !rs[0].command;
      QuietLoopRuns(cfg, Iterate(cfg, s, rs[0]), rs[1..]);
      assert CallsOf(rs)[1..] == CallsOf(rs[1..]);
    }
  }

  /**
   * One pass of the loop over the objects themselves: the bytes waiting on USB, the clock readings and the epoch
   * decide the round, and the automaton, its keys and the shared flag change as `Iterate` says.
   */
  method LoopPass(reader: SerialLines.LineReader, boot: Automaton, wake: Scheduler.Task, bytes: string, cfg: Timing,
                  now: nat, later: nat, pinLoads: bool, week: Scheduler.Schedule, epoch: u32) returns (r: Round)
    requires reader.Valid()
    modifies reader, reader.lineBuf, boot, wake
    ensures reader.Valid()
    ensures r == Round(SerialLines.Cancels(SerialLines.Assemble(old(reader.Pending()), bytes).events), now, later,
      pinLoads,
                       Scheduler.Fires(week, old(wake.View()), epoch))
    ensures var s := Shared(old(boot.View()), old(boot.cancelled));
      Shared(boot.View(), boot.cancelled) == Iterate(cfg, s, r) && boot.keys == old(boot.keys) + Sent(cfg, s, r)
  {
    hide Pass, Keys, SerialLines.Assemble, SerialLines.Cancels;
    reader.cancelled := false;
    reader.SerialTask(bytes);
    var command := reader.cancelled;
    if command {
      boot.cancelled := true;
    }
    boot.Task(cfg, Clock(now), Clock(later), pinLoads);
    var fired := wake.SchedulerTask(week, epoch);
    if fired {
      boot.cancelled := false;
    }
    r := Round(command, now, later, pinLoads, fired);
  }

  /**
   * The other order: with the scheduler between the serial and the boot task a firing wake undoes the cancellation
   * altogether, in every phase. The automaton goes on and types as if no command had come; in the source's order it
   * is done.
   */
  lemma OrderMatters(cfg: Timing, s: Shared, r: Round)
    requires !Stopped(s.auto.phase) && r.command && r.wake
    ensures Iterate(cfg, s, r).auto.phase == Done && Sent(cfg, s, r) == []
    ensures var other := SchedulerTask(SerialTask(s, r), r);
      BootUnlockTask(cfg, other, r).auto == Pass(cfg, s.auto, false, Clock(r.now), Clock(r.later)) &&
      Keys(cfg, s.auto, other.cancelled, Clock(r.now), r.pinLoads) ==
        Keys(cfg, s.auto, false, Clock(r.now), r.pinLoads) &&
      (s.auto.phase != Typing || Elapsed(Clock(r.now), Since(s.auto)) < 5000 ==>
        BootUnlockTask(cfg, other, r).auto.phase != Done)
  {}
}
