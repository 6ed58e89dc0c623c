/**
 * The boot-unlock automaton of main.c: wait, two Shifts, the PIN, and retries, driven by a 32-bit millisecond clock
 * that wraps. Times in the properties are true times; the automaton sees them modulo 2^32.
 */
module BootUnlock {
  import opened Bytes

  datatype Phase = Idle | Waiting | Shift1 | Shift2 | Typing | RetryWait | Done

  datatype Timing = Timing(bootWaitSec: u16, retryCount: byte, retryIntervalSec: u16)

  datatype Key = Shift | Pin

  datatype Auto = Auto(phase: Phase, timerStart: u32, stepStart: u32, attempt: byte)

  /** Reading the clock at true time t. */
  function Clock(t: nat): u32 {
    t % U32_RANGE
  }

  /** `now - start` on uint32_t. */
  function Elapsed(now: u32, start: u32): u32 {
    (now - start) % U32_RANGE
  }

  /** How long the automaton stays in a phase. */
  function Need(cfg: Timing, p: Phase): nat {
    match p
    case Waiting => cfg.bootWaitSec * 1000
    case Shift1 => 2000
    case Shift2 => 2000
    case Typing => 5000
    case RetryWait => cfg.retryIntervalSec * 1000
    case _ => 0
  }

  predicate Stopped(p: Phase) {
    p == Idle || p == Done
  }

  function Since(a: Auto): u32 {
    if a.phase == Waiting then a.timerStart else a.stepStart
  }

  /** The phase after this one has lasted long enough; `now` and `later` are the two clock readings of the pass. */
  function Next(cfg: Timing, a: Auto, now: u32, later: u32): Auto
    requires !Stopped(a.phase)
  {
    match a.phase
    case Waiting => a.(phase := Shift1, stepStart := later)
    case Shift1 => a.(phase := Shift2, stepStart := now)
    case Shift2 => a.(phase := Typing, stepStart := now)
    case Typing =>
      var attempt := (a.attempt + 1) % 256;
      if attempt < cfg.retryCount then a.(phase := RetryWait, stepStart := now, attempt := attempt)
      else a.(phase := Done, attempt := attempt)
    case RetryWait => a.(phase := Shift1, stepStart := later)
  }

  /** One call of `boot_unlock_task`. */
  function Pass(cfg: Timing, a: Auto, cancelled: bool, now: u32, later: u32): Auto {
    if Stopped(a.phase) then a
    else if cancelled then a.(phase := Done)
    else if Elapsed(now, Since(a)) < Need(cfg, a.phase) then a
    else Next(cfg, a, now, later)
  }

  /** The keys that call sends. */
  function Keys(cfg: Timing, a: Auto, cancelled: bool, now: u32, pinLoads: bool): seq<Key> {
    if Stopped(a.phase) || cancelled || Elapsed(now, Since(a)) < Need(cfg, a.phase) then []
    else match a.phase
      case Waiting => [Shift]
      case Shift1 => [Shift]
      case Shift2 => if pinLoads then [Pin] else []
      case RetryWait => [Shift]
      case _ => []
  }

  function Started(pinStored: bool, now: u32, a: Auto): Auto {
    if !pinStored then a.(phase := Done)
    else Auto(Waiting, now, a.stepStart, 0)
  }

  // ----- The module's own state

  class Automaton {
    var bootState: Phase
    var bootTimerStart: u32
    var bootStepStart: u32
    var bootAttempt: byte
    var cancelled: bool
    var done: bool
    ghost var keys: seq<Key>

    constructor ()
      ensures View() == Auto(Idle, 0, 0, 0) && keys == [] && !cancelled && !done
    {
      bootState, bootTimerStart, bootStepStart, bootAttempt := Idle, 0, 0, 0;
      cancelled, done, keys := false, false, [];
    }

    ghost function View(): Auto
      reads this
    {
      Auto(bootState, bootTimerStart, bootStepStart, bootAttempt)
    }

    method Start(pinStored: bool, now: u32)
      modifies this
      ensures View() == Started(pinStored, now, old(View())) && keys == old(keys)
      ensures cancelled == (old(cancelled) && !pinStored)
    {
      if !pinStored {
        bootState := Done;
        return;
      }
      bootState, bootTimerStart, bootAttempt := Waiting, now, 0;
      cancelled, done := false, false;
    }

    method DoAttempt(later: u32)
      modifies this`bootState, this`bootStepStart, this`keys
      ensures bootState == Shift1 && bootStepStart == later && keys == old(keys) + [Shift]
    {
      bootState, bootStepStart := Shift1, later;
      keys := keys + [Shift];
    }

    method Task(cfg: Timing, now: u32, later: u32, pinLoads: bool)
      modifies this
      ensures View() == Pass(cfg, old(View()), old(cancelled), now, later)
      ensures keys == old(keys) + Keys(cfg, old(View()), old(cancelled), now, pinLoads)
      ensures cancelled == old(cancelled)
      ensures !old(done) && bootState == Done && old(bootState) != Done ==> done
    {
      if bootState == Idle || bootState == Done {
        return;
      }
      if cancelled {
        bootState, done := Done, true;
        return;
      }
      match bootState {
        case Waiting =>
          if Elapsed(now, bootTimerStart) >= cfg.bootWaitSec * 1000 {
            DoAttempt(later);
          }
        case Shift1 =>
          if Elapsed(now, bootStepStart) >= 2000 {
            keys := keys + [Shift];
            bootState, bootStepStart := Shift2, now;
          }
        case Shift2 =>
          if Elapsed(now, bootStepStart) >= 2000 {
            if pinLoads {
              keys := keys + [Pin];
            }
            bootState, bootStepStart := Typing, now;
          }
        case Typing =>
          if Elapsed(now, bootStepStart) >= 5000 {
            bootAttempt := (bootAttempt + 1) % 256;
            if bootAttempt < cfg.retryCount {
              bootState, bootStepStart := RetryWait, now;
            } else {
              bootState, done := Done, true;
            }
          }
        case RetryWait =>
          if Elapsed(now, bootStepStart) >= cfg.retryIntervalSec * 1000 {
            DoAttempt(later);
          }
        case _ =>
      }
    }
  }

  // ----- Whole runs

  /** One call of boot_unlock_task at true time `now`; the second reading and the typing follow before the next call. */
  datatype Call = Call(now: nat, later: nat, cancelled: bool, pinLoads: bool)

  ghost predicate Ordered(from: nat, calls: seq<Call>)
    decreases |calls|
  {
    calls == [] || (from <= calls[0].now <= calls[0].later && Ordered(calls[0].later, calls[1..]))
  }

  function After(cfg: Timing, a: Auto, calls: seq<Call>): Auto
    decreases |calls|
  {
    if calls == [] then a
    else After(cfg, Pass(cfg, a, calls[0].cancelled, Clock(calls[0].now), Clock(calls[0].later)), calls[1..])
  }

  /** True times at which the PIN is typed. */
  function PinTimes(cfg: Timing, a: Auto, calls: seq<Call>): seq<nat>
    decreases |calls|
  {
    if calls == [] then []
    else
      var c := calls[0];
      (if Pin in Keys(cfg, a, c.cancelled, Clock(c.now), c.pinLoads) then [c.now] else []) +
      PinTimes(cfg, Pass(cfg, a, c.cancelled, Clock(c.now), Clock(c.later)), calls[1..])
  }

  function Attempts(cfg: Timing): (n: nat) {
    if cfg.retryCount == 0 then 1 else cfg.retryCount
  }

  /** Wrapping only ever makes an interval look shorter. */
  lemma ElapsedIsNoMore(t: nat, s: nat)
    requires s <= t
    ensures Elapsed(Clock(t), Clock(s)) <= t - s
    ensures t - s < U32_RANGE ==> Elapsed(Clock(t), Clock(s)) == t - s
  {
    var a, b := t / U32_RANGE, s / U32_RANGE;
    assert Clock(t) - Clock(s) == (t - s) - (a - b) * U32_RANGE;
    ModShift(t - s, a - b);
  }

  lemma ModShift(x: int, k: int)
    ensures (x - k * U32_RANGE) % U32_RANGE == x % U32_RANGE
  {}

  /** The earliest time of the next attempt's first Shift, given the PIN entries so far. */
  function Floor(cfg: Timing, start: nat, typed: seq<nat>): nat {
    if typed == [] then start + cfg.bootWaitSec * 1000
    else typed[|typed| - 1] + 5000 + cfg.retryIntervalSec * 1000
  }

  /** `since` is the true time the current phase was entered. */
  ghost predicate Inv(cfg: Timing, start: nat, a: Auto, since: nat, typed: seq<nat>) {
    match a.phase
    case Idle => false
    case Done => |typed| <= Attempts(cfg)
    case Waiting => Since(a) == Clock(since) && since == start && a.attempt == 0 && typed == []
    case Shift1 => Since(a) == Clock(since) && |typed| <= a.attempt < Attempts(cfg) && Floor(cfg, start, typed) <= since
    case Shift2 =>
      Since(a) == Clock(since) && |typed| <= a.attempt < Attempts(cfg) && Floor(cfg, start, typed) + 2000 <= since
    case Typing =>
      Since(a) == Clock(since) && |typed| <= a.attempt + 1 <= Attempts(cfg) &&
      Floor(cfg, start, typed) <= since + 5000 + cfg.retryIntervalSec * 1000
    case RetryWait =>
      Since(a) == Clock(since) && |typed| <= a.attempt < Attempts(cfg) &&
      Floor(cfg, start, typed) <= since + cfg.retryIntervalSec * 1000
  }

  function Entered(cfg: Timing, a: Auto, since: nat, c: Call): nat {
    var a' := Pass(cfg, a, c.cancelled, Clock(c.now), Clock(c.later));
    if a'.phase == a.phase then since else if a'.phase == Shift1 then c.later else c.now
  }

  function Typed(cfg: Timing, a: Auto, c: Call): seq<nat> {
    if Pin in Keys(cfg, a, c.cancelled, Clock(c.now), c.pinLoads) then [c.now] else []
  }

  lemma PassKeepsInv(cfg: Timing, start: nat, a: Auto, since: nat, typed: seq<nat>, c: Call)
    requires Inv(cfg, start, a, since, typed) && since <= c.now <= c.later
    ensures Inv(cfg, start, Pass(cfg, a, c.cancelled, Clock(c.now), Clock(c.later)), Entered(cfg, a, since, c),
                typed + Typed(cfg, a, c))
    ensures Entered(cfg, a, since, c) <= c.later
    ensures Typed(cfg, a, c) != [] ==> Floor(cfg, start, typed) + 4000 <= c.now
  {
    ElapsedIsNoMore(c.now, since);
    if Typed(cfg, a, c) == [] {
      assert typed + Typed(cfg, a, c) == typed;
    }
  }

  /** PIN entries at least this far apart, the first no sooner than this. */
  ghost predicate Spaced(cfg: Timing, start: nat, typed: seq<nat>) {
    (typed != [] ==> start + cfg.bootWaitSec * 1000 + 4000 <= typed[0]) &&
    forall i :: 0 < i < |typed| ==> typed[i - 1] + 9000 + cfg.retryIntervalSec * 1000 <= typed[i]
  }

  lemma {:induction false} RunIsSpaced(cfg: Timing, start: nat, a: Auto, since: nat, typed: seq<nat>, from: nat,
    calls: seq<Call>)
    requires Inv(cfg, start, a, since, typed) && since <= from && Ordered(from, calls) && Spaced(cfg, start, typed)
    ensures Spaced(cfg, start, typed + PinTimes(cfg, a, calls))
    ensures |typed + PinTimes(cfg, a, calls)| <= Attempts(cfg)
    decreases |calls|
  {
    hide Pass, Keys, Typed, Spaced, Inv, Clock, Attempts;
    if calls == [] {
      EntriesWithinLimit(cfg, start, a, since, typed);
      assert typed + PinTimes(cfg, a, calls) == typed;
    } else {
      var c := calls[0];
      var t := Typed(cfg, a, c);
      var a' := Pass(cfg, a, c.cancelled, Clock(c.now), Clock(c.later));
      PassKeepsInv(cfg, start, a, since, typed, c);
      OneMoreEntry(cfg, start, a, typed, c);
      RunIsSpaced(cfg, start, a', Entered(cfg, a, since, c), typed + t, c.later, calls[1..]);
      FirstCall(cfg, a, calls);
      assert typed + t + PinTimes(cfg, a', calls[1..]) == typed + (t + PinTimes(cfg, a', calls[1..]));
    }
  }

  lemma EntriesWithinLimit(cfg: Timing, start: nat, a: Auto, since: nat, typed: seq<nat>)
    requires Inv(cfg, start, a, since, typed)
    ensures |typed| <= Attempts(cfg)
  {}

  lemma OneMoreEntry(cfg: Timing, start: nat, a: Auto, typed: seq<nat>, c: Call)
    requires Spaced(cfg, start, typed)
    requires Typed(cfg, a, c) != [] ==> Floor(cfg, start, typed) + 4000 <= c.now
    ensures Spaced(cfg, start, typed + Typed(cfg, a, c))
  {
    hide Keys, Clock;
    if Typed(cfg, a, c) == [] {
      assert typed + [] == typed;
    }
  }

  lemma FirstCall(cfg: Timing, a: Auto, calls: seq<Call>)
    requires calls != []
    ensures var c := calls[0];
      PinTimes(cfg, a, calls) ==
      Typed(cfg, a, c) + PinTimes(cfg, Pass(cfg, a, c.cancelled, Clock(c.now), Clock(c.later)), calls[1..])
  {
    hide Keys, Pass, Clock;
  }

  /**
   * Over every run from `boot_unlock_start`: at most max(1, retry_count) PIN entries, the first at least
   * boot_wait_sec + 4 s after the start and later ones at least 9 s + retry_interval_sec apart, clock wrap or not.
   */
  lemma PinEntriesAreLimited(cfg: Timing, a: Auto, pinStored: bool, start: nat, calls: seq<Call>)
    requires Ordered(start, calls)
    ensures var typed := PinTimes(cfg, Started(pinStored, Clock(start), a), calls);
      |typed| <= Attempts(cfg) && Spaced(cfg, start, typed) && (!pinStored ==> typed == [])
  {
    var a0 := Started(pinStored, Clock(start), a);
    RunIsSpaced(cfg, start, a0, start, [], start, calls);
    assert [] + PinTimes(cfg, a0, calls) == PinTimes(cfg, a0, calls);
    if !pinStored {
      DoneStaysDone(cfg, a0, calls);
    }
  }

  /** Once done, done for ever, and no key is sent again. */
  lemma {:induction false} DoneStaysDone(cfg: Timing, a: Auto, calls: seq<Call>)
    requires a.phase == Done
    ensures After(cfg, a, calls) == a && PinTimes(cfg, a, calls) == []
    decreases |calls|
  {
    if calls != [] {
      DoneStaysDone(cfg, a, calls[1..]);
    }
  }

  // ----- Termination

  ghost predicate InRange(cfg: Timing, a: Auto) {
    !Stopped(a.phase) ==> a.attempt < Attempts(cfg)
  }

  /** Transitions left before Done. */
  function Measure(cfg: Timing, a: Auto): (m: nat)
    requires InRange(cfg, a)
  {
    if Stopped(a.phase) then 0
    else
      var left := Attempts(cfg) - a.attempt;
      4 * left - (if a.phase == Shift1 then 1 else if a.phase == Shift2 then 2 else if a.phase == Typing then 3 else 0)
  }

  /** Without cancellation every change of state uses up exactly one of 4 * max(1, retry_count) transitions. */
  lemma MeasureDropsByOne(cfg: Timing, a: Auto, now: u32, later: u32)
    requires InRange(cfg, a)
    ensures var a' := Pass(cfg, a, false, now, later);
      InRange(cfg, a') && (if a' == a then true else Measure(cfg, a') == Measure(cfg, a) - 1)
    ensures !Stopped(a.phase) && Elapsed(now, Since(a)) >= Need(cfg, a.phase) ==>
      Pass(cfg, a, false, now, later).phase != a.phase
    ensures Pass(cfg, a, false, now, later).attempt >= a.attempt
  {}

  function Changes(cfg: Timing, a: Auto, calls: seq<Call>): nat
    decreases |calls|
  {
    if calls == [] then 0
    else
      var a' := Pass(cfg, a, calls[0].cancelled, Clock(calls[0].now), Clock(calls[0].later));
      (if a' == a then 0 else 1) + Changes(cfg, a', calls[1..])
  }

  /**
   * Over a run that is not cancelled, changes of state and the measure add up: from `boot_unlock_start` Done is
   * reached exactly when 4 * max(1, retry_count) changes have happened, and the attempt counter never wraps.
   */
  lemma {:induction false} ChangesAreCounted(cfg: Timing, a: Auto, calls: seq<Call>)
    requires InRange(cfg, a) && forall i :: 0 <= i < |calls| ==> !calls[i].cancelled
    ensures var r := After(cfg, a, calls);
      InRange(cfg, r) && Changes(cfg, a, calls) + Measure(cfg, r) == Measure(cfg, a) && r.attempt >= a.attempt
    decreases |calls|
  {
    if calls != [] {
      assert !calls[0].cancelled;
      MeasureDropsByOne(cfg, a, Clock(calls[0].now), Clock(calls[0].later));
      ChangesAreCounted(cfg, Pass(cfg, a, false, Clock(calls[0].now), Clock(calls[0].later)), calls[1..]);
    }
  }

  // ----- What is typed

  function KeysOf(cfg: Timing, a: Auto, calls: seq<Call>): seq<Key>
    decreases |calls|
  {
    if calls == [] then []
    else
      var c := calls[0];
      Keys(cfg, a, c.cancelled, Clock(c.now), c.pinLoads) +
      KeysOf(cfg, Pass(cfg, a, c.cancelled, Clock(c.now), Clock(c.later)), calls[1..])
  }

  /** One attempt: two Shifts and the PIN, or the Shifts alone where no PIN loads. */
  function AttemptKeys(pinLoads: bool): seq<Key> {
    if pinLoads then [Shift, Shift, Pin] else [Shift, Shift]
  }

  function Repeated(n: nat, ks: seq<Key>): seq<Key> {
    if n == 0 then [] else Repeated(n - 1, ks) + ks
  }

  /** What has been typed when the automaton is in this state. */
  function TypedSoFar(cfg: Timing, a: Auto, pinLoads: bool): seq<Key> {
    match a.phase
    case Idle => []
    case Waiting => []
    case Shift1 => Repeated(a.attempt, AttemptKeys(pinLoads)) + [Shift]
    case Shift2 => Repeated(a.attempt, AttemptKeys(pinLoads)) + [Shift, Shift]
    case Typing => Repeated(a.attempt + 1, AttemptKeys(pinLoads))
    case RetryWait => Repeated(a.attempt, AttemptKeys(pinLoads))
    case Done => Repeated(Attempts(cfg), AttemptKeys(pinLoads))
  }

  ghost predicate Counting(cfg: Timing, a: Auto) {
    InRange(cfg, a) && (a.phase == Waiting ==> a.attempt == 0)
  }

  lemma PassTypes(cfg: Timing, a: Auto, now: u32, later: u32, pinLoads: bool)
    requires Counting(cfg, a)
    ensures var a' := Pass(cfg, a, false, now, later);
      Counting(cfg, a') && TypedSoFar(cfg, a', pinLoads) ==
        TypedSoFar(cfg, a, pinLoads) + Keys(cfg, a, false, now, pinLoads)
  {
    hide Elapsed;
    var ks, n := AttemptKeys(pinLoads), a.attempt;
    if a.phase == Shift2 {
      assert Repeated(n + 1, ks) == Repeated(n, ks) + ks;
      if pinLoads {
        assert Repeated(n, ks) + [Shift, Shift] + [Pin] == Repeated(n, ks) + ks;
      }
    } else if a.phase == Shift1 {
      assert Repeated(n, ks) + [Shift] + [Shift] == Repeated(n, ks) + [Shift, Shift];
    }
  }

  lemma {:induction false} RunTypes(cfg: Timing, a: Auto, calls: seq<Call>, pinLoads: bool)
    requires Counting(cfg, a) && forall i :: 0 <= i < |calls| ==> !calls[i].cancelled && calls[i].pinLoads == pinLoads
    ensures TypedSoFar(cfg, After(cfg, a, calls), pinLoads) == TypedSoFar(cfg, a, pinLoads) + KeysOf(cfg, a, calls)
    decreases |calls|
  {
    hide Keys, Pass, TypedSoFar, Counting, Clock;
    if calls != [] {
      var c := calls[0];
      assert !c.cancelled && c.pinLoads == pinLoads;
      PassTypes(cfg, a, Clock(c.now), Clock(c.later), pinLoads);
      RunTypes(cfg, Pass(cfg, a, false, Clock(c.now), Clock(c.later)), calls[1..], pinLoads);
    }
  }

  /**
   * An uncancelled run from `boot_unlock_start` with a PIN stored, once it is done, has typed Shift, Shift and the PIN
   * exactly max(1, retry_count) times; where the PIN does not load, Shift and Shift.
   */
  lemma DoneHasTyped(cfg: Timing, a: Auto, start: nat, calls: seq<Call>, pinLoads: bool)
    requires forall i :: 0 <= i < |calls| ==> !calls[i].cancelled && calls[i].pinLoads == pinLoads
    requires After(cfg, Started(true, Clock(start), a), calls).phase == Done
    ensures KeysOf(cfg, Started(true, Clock(start), a), calls) == Repeated(Attempts(cfg), AttemptKeys(pinLoads))
  {
    var a0 := Started(true, Clock(start), a);
    RunTypes(cfg, a0, calls, pinLoads);
    assert [] + KeysOf(cfg, a0, calls) == KeysOf(cfg, a0, calls);
  }

  /** The time budget of a state when consecutive calls are at most `gap` apart. */
  function Budget(cfg: Timing, a: Auto, gap: nat): (b: nat)
    requires InRange(cfg, a)
  {
    if Stopped(a.phase) then 0
    else
      var rest := Rounds(cfg, Attempts(cfg) - a.attempt - 1, gap);
      if a.phase == Shift1 then 9000 + 6 * gap + rest
      else if a.phase == Shift2 then 7000 + 4 * gap + rest
      else if a.phase == Typing then 5000 + 2 * gap + rest
      else Need(cfg, a.phase) + 9000 + 8 * gap + rest
  }

  /** n further attempts, each with its retry interval. */
  function Rounds(cfg: Timing, n: nat, gap: nat): (b: nat) {
    if n == 0 then 0 else cfg.retryIntervalSec * 1000 + 9000 + 8 * gap + Rounds(cfg, n - 1, gap)
  }

  /** Calls at most `gap` apart, the second reading of a call included. */
  ghost predicate Steady(from: nat, calls: seq<Call>, gap: nat)
    decreases |calls|
  {
    calls == [] || (from <= calls[0].now <= calls[0].later <= from + gap && Steady(calls[0].now, calls[1..], gap) &&
                    (|calls| > 1 ==> calls[0].later <= calls[1].now))
  }

  /** The current phase has not yet been seen to last long enough. */
  ghost predicate OnTime(cfg: Timing, a: Auto, since: nat, last: nat, deadline: nat, gap: nat)
    requires InRange(cfg, a)
  {
    Stopped(a.phase) ||
    (Since(a) == Clock(since) && since + Budget(cfg, a, gap) <= deadline && since <= last + gap &&
     (last < since + Need(cfg, a.phase) || last <= since))
  }

  lemma PassStaysOnTime(cfg: Timing, a: Auto, since: nat, last: nat, deadline: nat, gap: nat, c: Call)
    requires InRange(cfg, a) && OnTime(cfg, a, since, last, deadline, gap)
    requires since <= c.now && last <= c.now <= c.later <= last + gap && gap < 0x1_0000_0000 - 65536000
    ensures var a' := Pass(cfg, a, c.cancelled, Clock(c.now), Clock(c.later));
      InRange(cfg, a') && OnTime(cfg, a', Entered(cfg, a, since, c), c.now, deadline, gap)
    ensures c.now >= deadline ==> Stopped(Pass(cfg, a, c.cancelled, Clock(c.now), Clock(c.later)).phase)
  {
    if !Stopped(a.phase) && !c.cancelled {
      ElapsedIsNoMore(c.now, since);
      MeasureDropsByOne(cfg, a, Clock(c.now), Clock(c.later));
    }
  }

  lemma {:induction false} RunStaysOnTime(cfg: Timing, a: Auto, since: nat, last: nat, deadline: nat, gap: nat,
    calls: seq<Call>)
    requires InRange(cfg, a) && OnTime(cfg, a, since, last, deadline, gap) && gap < 0x1_0000_0000 - 65536000
    requires Steady(last, calls, gap) && calls != [] && since <= calls[0].now
    requires calls[|calls| - 1].now >= deadline
    ensures Stopped(After(cfg, a, calls).phase)
    decreases |calls|
  {
    var c := calls[0];
    var a' := Pass(cfg, a, c.cancelled, Clock(c.now), Clock(c.later));
    PassStaysOnTime(cfg, a, since, last, deadline, gap, c);
    if |calls| > 1 {
      RunStaysOnTime(cfg, a', Entered(cfg, a, since, c), c.now, deadline, gap, calls[1..]);
    }
  }

  /**
   * Liveness: if the main loop comes round at least every `gap` ms, the automaton is done at the latest by
   * boot_wait + n * (9 s + 8 gap) + (n - 1) * retry_interval after its start, n = max(1, retry_count).
   */
  lemma DoneByDeadline(cfg: Timing, a: Auto, pinStored: bool, start: nat, gap: nat, calls: seq<Call>)
    requires gap < 0x1_0000_0000 - 65536000
    requires Steady(start, calls, gap) && calls != []
    requires calls[|calls| - 1].now >=
      start + cfg.bootWaitSec * 1000 + 9000 + 8 * gap + Rounds(cfg, Attempts(cfg) - 1, gap)
    ensures After(cfg, Started(pinStored, Clock(start), a), calls).phase == Done
  {
    var a0 := Started(pinStored, Clock(start), a);
    RunStaysOnTime(cfg, a0, start, start, start + Budget(cfg, a0, gap), gap, calls);
    NeverIdle(cfg, a0, calls);
  }

  lemma {:induction false} NeverIdle(cfg: Timing, a: Auto, calls: seq<Call>)
    requires a.phase != Idle
    ensures After(cfg, a, calls).phase != Idle
    decreases |calls|
  {
    if calls != [] {
      NeverIdle(cfg, Pass(cfg, a, calls[0].cancelled, Clock(calls[0].now), Clock(calls[0].later)), calls[1..]);
    }
  }
}
