/** The weekly wake schedule (scheduler.c): the next-wake search and the once-per-day latch. */
module Scheduler {
  import opened Bytes

  const DAY: nat := 86400
  const UINT32_MAX: nat := 0xFFFF_FFFF

  /** `days` has bit 0 for Sunday to bit 6 for Saturday. */
  datatype Schedule = Schedule(hour: byte, min: byte, days: byte)

  function EpochToDay(epoch: nat): nat {
    epoch / DAY
  }

  /** 1970-01-01 was a Thursday. */
  function EpochToDow(epoch: nat): (d: nat)
    ensures d < 7
  {
    (epoch / DAY + 4) % 7
  }

  function Hour(epoch: nat): nat {
    epoch % DAY / 3600
  }

  function Minute(epoch: nat): nat {
    epoch % DAY % 3600 / 60
  }

  predicate DayScheduled(cfg: Schedule, epoch: nat) {
    Bit(cfg.days, EpochToDow(epoch))
  }

  /** The same by day number. */
  predicate Listed(cfg: Schedule, day: nat) {
    DayScheduled(cfg, day * DAY)
  }

  /** Weekdays run: the epoch is a Thursday, all seconds of a day share its weekday, and the next day has the next. */
  lemma WeekdaysRun(day: nat, s: nat)
    requires s < DAY
    ensures EpochToDow(0) == 4
    ensures EpochToDow(day * DAY + s) == EpochToDow(day * DAY)
    ensures EpochToDow((day + 1) * DAY) == if EpochToDow(day * DAY) == 6 then 0 else EpochToDow(day * DAY) + 1
  {
    SplitDay(day, s);
    SplitDay(day, 0);
    SplitDay(day + 1, 0);
  }

  /** A known date: 2024-01-01 00:00 UTC was a Monday, so of all masks with one day it is in that of bit 1 alone. */
  lemma KnownMonday(hour: byte, min: byte)
    ensures DayScheduled(Schedule(hour, min, 2), 1704067200) && !DayScheduled(Schedule(hour, min, 125), 1704067200)
  {
    assert Pow2(1) == 2;
  }

  function TimeOfDay(cfg: Schedule): nat {
    cfg.hour * 3600 + cfg.min * 60
  }

  /** The second at which a scheduled minute starts. */
  predicate Instant(cfg: Schedule, t: nat) {
    DayScheduled(cfg, t) && t % DAY == TimeOfDay(cfg)
  }

  /** The test `scheduler_task` makes. */
  predicate FiresAt(cfg: Schedule, t: nat) {
    DayScheduled(cfg, t) && Hour(t) == cfg.hour && Minute(t) == cfg.min
  }

  predicate ValidTime(cfg: Schedule) {
    cfg.hour < 24 && cfg.min < 60
  }

  /** The firing test holds for the sixty seconds from a scheduled instant on, and at no other time. */
  lemma FiresForOneMinute(cfg: Schedule, t: nat)
    ensures FiresAt(cfg, t) <==> ValidTime(cfg) && Instant(cfg, t - t % 60)
  {
    var m := t - t % 60;
    assert DAY == 1440 * 60;
    var s := t % DAY;
    assert t == t / DAY * DAY + s;
    MinuteInDay(t / DAY, s);
    if ValidTime(cfg) {
      TimeParts(s, cfg.hour, cfg.min);
    }
  }

  lemma MinuteInDay(d: nat, s: nat)
    requires s < DAY
    ensures var t := d * DAY + s;
      t % 60 == s % 60 && (t - t % 60) / DAY == d && (t - t % 60) % DAY == s - s % 60 && t / DAY == d && t % DAY == s
  {
    var t := d * DAY + s;
    Mod60(d * 1440, s);
    assert t == d * 1440 * 60 + s;
    SplitDay(d, s);
    SplitDay(d, s - s % 60);
  }

  lemma Mod60(k: nat, s: nat)
    ensures (k * 60 + s) % 60 == s % 60
  {}

  lemma SplitDay(day: nat, s: nat)
    requires s < DAY
    ensures (day * DAY + s) / DAY == day && (day * DAY + s) % DAY == s
  {}

  lemma TimeParts(s: nat, h: nat, m: nat)
    requires s < DAY && h < 24 && m < 60
    ensures s / 3600 == h && s % 3600 / 60 == m <==> s - s % 60 == h * 3600 + m * 60
  {
    var q, r := s / 60, s % 60;
    assert s / 3600 == q / 60 && s % 3600 / 60 == q % 60;
  }

  // ----- scheduler_next_wake_sec

  /** The search from day `offset` on, with the C code's 32-bit sums. */
  function NextFrom(cfg: Schedule, epoch: u32, offset: nat): (r: nat)
    requires offset <= 7
    decreases 7 - offset
  {
    if offset == 7 then UINT32_MAX
    else
      var check := (epoch + offset * DAY) % U32_RANGE;
      var target := (check / DAY * DAY + TimeOfDay(cfg)) % U32_RANGE;
      if !DayScheduled(cfg, check) || target <= epoch then NextFrom(cfg, epoch, offset + 1)
      else target - epoch
  }

  method NextWakeSec(cfg: Schedule, active: bool, epoch: u32) returns (r: nat)
    ensures r == if !active || epoch == 0 then UINT32_MAX else NextFrom(cfg, epoch, 0)
  {
    if !active || epoch == 0 {
      return UINT32_MAX;
    }
    for offset := 0 to 7
      invariant NextFrom(cfg, epoch, 0) == NextFrom(cfg, epoch, offset)
    {
      var check := (epoch + offset * DAY) % U32_RANGE;
      if !DayScheduled(cfg, check) {
        continue;
      }
      var dayStart := check / DAY * DAY;
      var target := (dayStart + cfg.hour * 3600 + cfg.min * 60) % U32_RANGE;
      if target <= epoch {
        continue;
      }
      return target - epoch;
    }
    return UINT32_MAX;
  }

  /** The same search over day numbers, without 32-bit sums. */
  function SearchDays(cfg: Schedule, epoch: nat, day: nat, last: nat): (r: nat)
    decreases last - day
  {
    if day >= last then UINT32_MAX
    else
      var target := day * DAY + TimeOfDay(cfg);
      if !Listed(cfg, day) || target <= epoch then SearchDays(cfg, epoch, day + 1, last) else target - epoch
  }

  /** Without overflow the two agree. */
  lemma {:induction false} NoOverflow(cfg: Schedule, epoch: u32, offset: nat)
    requires TimeOfDay(cfg) < DAY && epoch + 7 * DAY <= U32_RANGE && offset <= 7
    ensures NextFrom(cfg, epoch, offset) == SearchDays(cfg, epoch, epoch / DAY + offset, epoch / DAY + 7)
    decreases 7 - offset
  {
    if offset < 7 {
      NoOverflow(cfg, epoch, offset + 1);
      OneDay(cfg, epoch, offset);
      hide DayScheduled, Listed, TimeOfDay, NextFrom, SearchDays;
      NextStep(cfg, epoch, offset);
      SearchStep(cfg, epoch, epoch / DAY + offset, epoch / DAY + 7);
    }
  }

  lemma NextStep(cfg: Schedule, epoch: u32, offset: nat)
    requires offset < 7
    ensures var check := (epoch + offset * DAY) % U32_RANGE;
      var target := (check / DAY * DAY + TimeOfDay(cfg)) % U32_RANGE;
      NextFrom(cfg, epoch, offset) ==
        if !DayScheduled(cfg, check) || target <= epoch then NextFrom(cfg, epoch, offset + 1) else target - epoch
  {}

  lemma SearchStep(cfg: Schedule, epoch: nat, day: nat, last: nat)
    requires day < last
    ensures var target := day * DAY + TimeOfDay(cfg);
      SearchDays(cfg, epoch, day, last) ==
        if !Listed(cfg, day) || target <= epoch then SearchDays(cfg, epoch, day + 1, last) else target - epoch
  {}

  lemma OneDay(cfg: Schedule, epoch: u32, offset: nat)
    requires TimeOfDay(cfg) < DAY && epoch + 7 * DAY <= U32_RANGE && offset < 7
    ensures var day, check := epoch / DAY + offset, (epoch + offset * DAY) % U32_RANGE;
      (DayScheduled(cfg, check) <==> Listed(cfg, day)) &&
      (check / DAY * DAY + TimeOfDay(cfg)) % U32_RANGE == day * DAY + TimeOfDay(cfg)
  {
    hide Bit, TimeOfDay;
    DayOfOffset(epoch, offset, TimeOfDay(cfg));
    Small(epoch + offset * DAY);
    Small((epoch / DAY + offset) * DAY + TimeOfDay(cfg));
  }

  lemma TimeInDay(cfg: Schedule)
    requires ValidTime(cfg)
    ensures TimeOfDay(cfg) < DAY
  {}

  lemma Small(x: nat)
    requires x < U32_RANGE
    ensures x % U32_RANGE == x
  {}

  lemma DayOfOffset(epoch: u32, offset: nat, time: nat)
    requires epoch + 7 * DAY <= U32_RANGE && offset < 7 && time < DAY
    ensures epoch + offset * DAY < U32_RANGE && (epoch + offset * DAY) / DAY == epoch / DAY + offset
    ensures (epoch / DAY + offset) * DAY + time < U32_RANGE
  {
    var day, s := epoch / DAY, epoch % DAY;
    assert epoch + offset * DAY == (day + offset) * DAY + s;
    SplitDay(day + offset, s);
  }

  lemma InstantOfDay(cfg: Schedule, t: nat, day: nat)
    requires TimeOfDay(cfg) < DAY && day * DAY <= t < (day + 1) * DAY
    ensures Instant(cfg, t) <==> Listed(cfg, day) && t == day * DAY + TimeOfDay(cfg)
    ensures t / DAY == day
  {
    hide TimeOfDay, Bit;
    var s: nat := t - day * DAY;
    SplitDay(day, s);
    assert day * DAY + s == t;
  }

  /** No scheduled instant lies after `epoch` and before day `day`. */
  ghost predicate NoneBefore(cfg: Schedule, epoch: nat, day: nat) {
    forall t :: epoch < t < day * DAY ==> !Instant(cfg, t)
  }

  /** `found` is the first scheduled instant after `epoch`. */
  ghost predicate IsFirst(cfg: Schedule, epoch: nat, found: nat) {
    epoch < found && Instant(cfg, found) && forall t :: epoch < t < found ==> !Instant(cfg, t)
  }

  lemma {:induction false} SearchIsMinimal(cfg: Schedule, epoch: nat, day: nat, last: nat)
    requires TimeOfDay(cfg) < DAY && day <= last && last * DAY <= UINT32_MAX && NoneBefore(cfg, epoch, day)
    ensures var r := SearchDays(cfg, epoch, day, last);
      if r == UINT32_MAX then NoneBefore(cfg, epoch, last)
      else r > 0 && IsFirst(cfg, epoch, epoch + r) && epoch + r < last * DAY
    decreases last - day
  {
    if day < last {
      var target := day * DAY + TimeOfDay(cfg);
      forall t | day * DAY <= t < (day + 1) * DAY
        ensures Instant(cfg, t) <==> Listed(cfg, day) && t == target
      {
        InstantOfDay(cfg, t, day);
      }
      if !Listed(cfg, day) || target <= epoch {
        SearchIsMinimal(cfg, epoch, day + 1, last);
      }
    }
  }

  /**
   * What the answer r should be: the least d > 0 such that epoch + d is a scheduled instant, and UINT32_MAX exactly
   * when none lies later than now and at most six calendar days ahead.
   */
  ghost predicate IsNextWake(cfg: Schedule, epoch: nat, r: nat) {
    (r == UINT32_MAX <==> forall t :: epoch < t && t / DAY <= epoch / DAY + 6 ==> !Instant(cfg, t)) &&
    (r != UINT32_MAX ==> r > 0 && IsFirst(cfg, epoch, epoch + r))
  }

  /** It is that exactly when the time of day lies within a day, or the search finds nothing. */
  lemma NextWakeIsLeast(cfg: Schedule, epoch: u32)
    requires epoch + 7 * DAY < U32_RANGE
    ensures var r := NextFrom(cfg, epoch, 0);
      IsNextWake(cfg, epoch, r) <==> TimeOfDay(cfg) < DAY || r == UINT32_MAX
  {
    hide NextFrom, Instant;
    if TimeOfDay(cfg) < DAY {
      LeastWithinDay(cfg, epoch);
    } else {
      NoInstantBeyondDay(cfg);
    }
  }

  lemma NoInstantBeyondDay(cfg: Schedule)
    requires TimeOfDay(cfg) >= DAY
    ensures forall t: nat :: !Instant(cfg, t)
  {}

  lemma LeastWithinDay(cfg: Schedule, epoch: u32)
    requires TimeOfDay(cfg) < DAY && epoch + 7 * DAY < U32_RANGE
    ensures IsNextWake(cfg, epoch, NextFrom(cfg, epoch, 0))
  {
    hide NextFrom, SearchDays, Instant, TimeOfDay;
    var r, last := NextFrom(cfg, epoch, 0), epoch / DAY + 7;
    NoOverflow(cfg, epoch, 0);
    NonePast(cfg, epoch);
    SearchIsMinimal(cfg, epoch, epoch / DAY, last);
    if r == UINT32_MAX {
      forall t | epoch < t && t / DAY <= epoch / DAY + 6 ensures !Instant(cfg, t) {
        BelowDay(t, last);
      }
    } else {
      BelowDay(epoch + r, last);
    }
  }

  lemma NonePast(cfg: Schedule, epoch: nat)
    ensures NoneBefore(cfg, epoch, epoch / DAY)
  {}

  lemma BelowDay(t: nat, day: nat)
    ensures t < day * DAY <==> t / DAY < day
  {}

  /**
   * scheduler_task fires at that instant exactly when hour and minute are in range, and not before it, except in the
   * rest of a target minute already in progress. An hour or minute out of range gives wakes that never come.
   */
  lemma FiringAgreesWithNextWake(cfg: Schedule, epoch: u32, t: nat)
    requires epoch + 7 * DAY < U32_RANGE && NextFrom(cfg, epoch, 0) != UINT32_MAX
    ensures FiresAt(cfg, epoch + NextFrom(cfg, epoch, 0)) <==> ValidTime(cfg)
    ensures epoch < t < epoch + NextFrom(cfg, epoch, 0) && FiresAt(cfg, t) ==>
      FiresAt(cfg, epoch) && t / 60 == epoch / 60
  {
    hide NextFrom, Hour, Minute, DayScheduled;
    var found := epoch + NextFrom(cfg, epoch, 0);
    FiresForOneMinute(cfg, found);
    FiresForOneMinute(cfg, t);
    if ValidTime(cfg) {
      TimeInDay(cfg);
      LeastWithinDay(cfg, epoch);
      WholeMinute(cfg, found);
      if epoch < t < found && FiresAt(cfg, t) {
        FiresForOneMinute(cfg, epoch);
        MinuteStart(t, epoch);
      }
    }
  }

  lemma WholeMinute(cfg: Schedule, t: nat)
    requires Instant(cfg, t)
    ensures t % 60 == 0
  {
    MinuteInDay(t / DAY, t % DAY);
  }

  lemma MinuteStart(t: nat, e: nat)
    requires t - t % 60 <= e < t
    ensures t / 60 == e / 60 && e - e % 60 == t - t % 60
  {}

  /** A schedule whose hour or minute is out of range never fires. */
  lemma OutOfRangeNeverFires(cfg: Schedule, t: nat)
    ensures FiresAt(cfg, t) ==> ValidTime(cfg)
  {
    FiresForOneMinute(cfg, t);
  }

  // ----- scheduler_task

  /** `last` is the day of the latest poll modulo 256. */
  datatype Latch = Latch(active: bool, fired: bool, last: byte)

  function Initial(cfg: Schedule, epoch: nat): Latch {
    Latch(epoch != 0 && cfg.days != 0, false, 0xFF)
  }

  predicate Skips(cfg: Schedule, s: Latch, epoch: nat) {
    epoch == 0 || (!s.active && cfg.days == 0)
  }

  /** The latch after the change-of-day test. */
  function Turned(s: Latch, epoch: nat): Latch {
    var today := EpochToDay(epoch) % 256;
    Latch(true, s.fired && today == s.last, today)
  }

  predicate Fires(cfg: Schedule, s: Latch, epoch: nat) {
    !Skips(cfg, s, epoch) && !Turned(s, epoch).fired && FiresAt(cfg, epoch)
  }

  function Poll(cfg: Schedule, s: Latch, epoch: nat): Latch {
    if Skips(cfg, s, epoch) then s
    else Turned(s, epoch).(fired := Turned(s, epoch).fired || FiresAt(cfg, epoch))
  }

  class Task {
    var active: bool
    var wakeFiredToday: bool
    var lastWakeDay: byte

    ghost function View(): Latch
      reads this
    {
      Latch(active, wakeFiredToday, lastWakeDay)
    }

    /** `scheduler_init` */
    constructor (cfg: Schedule, epoch: u32)
      ensures View() == Initial(cfg, epoch)
    {
      active, wakeFiredToday, lastWakeDay := false, false, 0xFF;
      if epoch != 0 && cfg.days != 0 {
        active := true;
      }
    }

    /** `scheduler_task`, up to the call of scheduler_do_wake. */
    method SchedulerTask(cfg: Schedule, epoch: u32) returns (wake: bool)
      modifies this
      ensures View() == Poll(cfg, old(View()), epoch)
      ensures wake == Fires(cfg, old(View()), epoch)
    {
      if !active {
        if epoch > 0 && cfg.days != 0 {
          active := true;
        } else {
          return false;
        }
      }
      if epoch == 0 {
        return false;
      }
      var today := EpochToDay(epoch);
      if today % 256 != lastWakeDay {
        wakeFiredToday := false;
        lastWakeDay := today % 256;
      }
      if wakeFiredToday {
        return false;
      }
      if !DayScheduled(cfg, epoch) {
        return false;
      }
      if Hour(epoch) == cfg.hour && Minute(epoch) == cfg.min {
        wakeFiredToday := true;
        return true;
      }
      return false;
    }
  }

  // ----- Runs of polls

  ghost predicate Ascending(from: nat, polls: seq<nat>)
    decreases |polls|
  {
    polls == [] || (from <= polls[0] && Ascending(polls[0], polls[1..]))
  }

  /** The days on which scheduler_task fires, in order. */
  function FireDays(cfg: Schedule, s: Latch, polls: seq<nat>): (days: seq<nat>)
    decreases |polls|
  {
    if polls == [] then []
    else (if Fires(cfg, s, polls[0]) then [EpochToDay(polls[0])] else []) +
         FireDays(cfg, Poll(cfg, s, polls[0]), polls[1..])
  }

  lemma DaysAscend(a: nat, b: nat)
    requires a <= b
    ensures EpochToDay(a) <= EpochToDay(b)
  {}

  /** Strictly increasing, from `floor` on. */
  ghost predicate Rising(f: seq<nat>, floor: nat) {
    (forall i :: 0 <= i < |f| ==> floor <= f[i]) && (forall i, j :: 0 <= i < j < |f| ==> f[i] < f[j])
  }

  lemma RisingCons(day: nat, rest: seq<nat>, floor: nat)
    requires Rising(rest, day + 1) && floor <= day
    ensures Rising([day] + rest, floor)
  {}

  lemma RisingFrom(f: seq<nat>, higher: nat, floor: nat)
    requires Rising(f, higher) && floor <= higher
    ensures Rising(f, floor)
  {}

  /** The first day that may still fire. */
  function FirstOpen(s: Latch, day: nat): nat {
    if s.fired && s.last == day % 256 then day + 1 else day
  }

  /** Firing days strictly increase: no day fires twice, and none that the latch is already set for. */
  lemma {:induction false} AtMostOncePerDay(cfg: Schedule, s: Latch, from: nat, polls: seq<nat>)
    requires Ascending(from, polls)
    ensures Rising(FireDays(cfg, s, polls), FirstOpen(s, EpochToDay(from)))
    decreases |polls|
  {
    if polls != [] {
      var s', day, today := Poll(cfg, s, polls[0]), EpochToDay(from), EpochToDay(polls[0]);
      var rest := FireDays(cfg, s', polls[1..]);
      DaysAscend(from, polls[0]);
      AtMostOncePerDay(cfg, s', polls[0], polls[1..]);
      if Fires(cfg, s, polls[0]) {
        RisingCons(today, rest, FirstOpen(s, day));
      } else {
        RisingFrom(rest, FirstOpen(s', today), FirstOpen(s, day));
        assert [] + rest == rest;
      }
    }
  }

  // ----- Which days are served

  /** The latch after the first k polls. */
  function LatchAt(cfg: Schedule, s: Latch, polls: seq<nat>, k: nat): Latch
    requires k <= |polls|
  {
    if k == 0 then s else Poll(cfg, LatchAt(cfg, s, polls, k - 1), polls[k - 1])
  }

  /** A poll in the target minute of a scheduled day, with the clock set. */
  predicate Target(cfg: Schedule, polls: seq<nat>, k: nat)
    requires k < |polls|
  {
    polls[k] > 0 && FiresAt(cfg, polls[k])
  }

  predicate FiredAt(cfg: Schedule, s: Latch, polls: seq<nat>, k: nat)
    requires k < |polls|
  {
    Fires(cfg, LatchAt(cfg, s, polls, k), polls[k])
  }

  /** Between polls i and j the latch, which keeps the day modulo 256, sees no change of day. */
  predicate SameResidues(polls: seq<nat>, i: nat, j: nat)
    requires i <= j < |polls|
  {
    forall k :: i <= k <= j ==> EpochToDay(polls[k]) % 256 == EpochToDay(polls[i]) % 256
  }

  /** Target poll i hides target poll j of another day. */
  predicate Hides(cfg: Schedule, polls: seq<nat>, i: nat, j: nat)
    requires i < j < |polls|
  {
    Target(cfg, polls, i) && EpochToDay(polls[i]) != EpochToDay(polls[j]) && SameResidues(polls, i, j)
  }

  ghost predicate Sorted(polls: seq<nat>) {
    forall i, j :: 0 <= i < j < |polls| ==> polls[i] <= polls[j]
  }

  lemma {:induction false} LatchShifts(cfg: Schedule, s: Latch, polls: seq<nat>, k: nat)
    requires k < |polls|
    ensures LatchAt(cfg, s, polls, k + 1) == LatchAt(cfg, Poll(cfg, s, polls[0]), polls[1..], k)
    decreases k
  {
    hide Poll;
    if k > 0 {
      LatchShifts(cfg, s, polls, k - 1);
      assert polls[1..][k - 1] == polls[k];
    }
  }

  /** The fired days, by poll. */
  lemma {:induction false} FireDaysAre(cfg: Schedule, s: Latch, polls: seq<nat>, day: nat)
    ensures day in FireDays(cfg, s, polls) <==>
      exists k :: 0 <= k < |polls| && FiredAt(cfg, s, polls, k) && EpochToDay(polls[k]) == day
    decreases |polls|
  {
    hide Fires, Poll, EpochToDay;
    if polls != [] {
      var s', rest := Poll(cfg, s, polls[0]), polls[1..];
      FireDaysAre(cfg, s', rest, day);
      forall k | 0 <= k < |rest| ensures FiredAt(cfg, s', rest, k) <==> FiredAt(cfg, s, polls, k + 1) {
        LatchShifts(cfg, s, polls, k);
      }
      assert FiredAt(cfg, s, polls, 0) <==> Fires(cfg, s, polls[0]);
      if k :| 0 <= k < |rest| && FiredAt(cfg, s', rest, k) && EpochToDay(rest[k]) == day {
        assert FiredAt(cfg, s, polls, k + 1) && EpochToDay(polls[k + 1]) == day;
      }
      if k :| 0 < k < |polls| && FiredAt(cfg, s, polls, k) && EpochToDay(polls[k]) == day {
        assert FiredAt(cfg, s', rest, k - 1) && EpochToDay(rest[k - 1]) == day;
      }
    }
  }

  /** From a target poll on the latch stays set while the residue stays the same, so nothing fires. */
  lemma {:induction false} StaysSet(cfg: Schedule, s: Latch, polls: seq<nat>, i: nat, j: nat)
    requires Sorted(polls) && i <= j < |polls| && Target(cfg, polls, i) && SameResidues(polls, i, j)
    ensures var t := LatchAt(cfg, s, polls, j + 1); t.fired && t.last == EpochToDay(polls[i]) % 256
    ensures i < j ==> !FiredAt(cfg, s, polls, j)
    decreases j
  {
    ListedMask(cfg, polls[i]);
    hide FiresAt, EpochToDay, DayScheduled;
    assert polls[j] > 0;
    if i < j {
      StaysSet(cfg, s, polls, i, j - 1);
      assert EpochToDay(polls[j]) % 256 == EpochToDay(polls[i]) % 256;
    }
  }

  /** A set latch goes back to the poll that fired, through polls of one residue. */
  lemma {:induction false} SetSince(cfg: Schedule, s: Latch, polls: seq<nat>, k: nat) returns (i: nat)
    requires !s.fired && Sorted(polls) && k <= |polls| && LatchAt(cfg, s, polls, k).fired
    ensures i < k && FiredAt(cfg, s, polls, i) && polls[i] > 0
    ensures SameResidues(polls, i, k - 1) && LatchAt(cfg, s, polls, k).last == EpochToDay(polls[k - 1]) % 256
    decreases k
  {
    var before, e := LatchAt(cfg, s, polls, k - 1), polls[k - 1];
    hide FiresAt, EpochToDay;
    if Fires(cfg, before, e) {
      i := k - 1;
    } else {
      i := SetSince(cfg, s, polls, k - 1);
      assert e > 0;
      NotSkipped(cfg, s, polls, i, k - 1);
    }
  }

  /** Once a poll has fired the scheduler is active. */
  lemma {:induction false} NotSkipped(cfg: Schedule, s: Latch, polls: seq<nat>, i: nat, k: nat)
    requires i < k <= |polls| && FiredAt(cfg, s, polls, i)
    ensures LatchAt(cfg, s, polls, k).active
    decreases k
  {
    hide FiresAt;
    if i < k - 1 {
      NotSkipped(cfg, s, polls, i, k - 1);
    }
  }

  /**
   * The day of a target poll is served, by that poll or another, exactly when no target poll of another day hides it:
   * polls of one residue lead from that poll to this one.
   */
  lemma ServedIff(cfg: Schedule, epoch: nat, polls: seq<nat>, j: nat)
    requires Sorted(polls) && j < |polls| && Target(cfg, polls, j)
    ensures EpochToDay(polls[j]) in FireDays(cfg, Initial(cfg, epoch), polls) <==>
      !exists i :: 0 <= i < j && Hides(cfg, polls, i, j)
  {
    hide FireDays, Hides, EpochToDay, Target;
    if i :| 0 <= i < j && Hides(cfg, polls, i, j) {
      HiddenIsNotServed(cfg, Initial(cfg, epoch), polls, i, j);
    } else {
      ServedUnlessHidden(cfg, epoch, polls, j);
    }
  }

  lemma HiddenIsNotServed(cfg: Schedule, s: Latch, polls: seq<nat>, i: nat, j: nat)
    requires Sorted(polls) && i < j < |polls| && Hides(cfg, polls, i, j)
    ensures EpochToDay(polls[j]) !in FireDays(cfg, s, polls)
  {
    hide FireDays, FiredAt, Hides, EpochToDay;
    FireDaysAre(cfg, s, polls, EpochToDay(polls[j]));
    HiddenDayNeverFires(cfg, s, polls, i, j);
  }

  lemma ServedUnlessHidden(cfg: Schedule, epoch: nat, polls: seq<nat>, j: nat)
    requires Sorted(polls) && j < |polls| && Target(cfg, polls, j)
    requires forall i :: 0 <= i < j ==> !Hides(cfg, polls, i, j)
    ensures EpochToDay(polls[j]) in FireDays(cfg, Initial(cfg, epoch), polls)
  {
    hide FireDays, FiredAt, EpochToDay, Target, SameResidues;
    var s := Initial(cfg, epoch);
    FireDaysAre(cfg, s, polls, EpochToDay(polls[j]));
    if !FiredAt(cfg, s, polls, j) {
      var i := SilentSince(cfg, epoch, polls, j);
      assert !Hides(cfg, polls, i, j);
    }
  }

  /** A target poll that does not fire finds the latch set by an earlier poll that did. */
  lemma SilentSince(cfg: Schedule, epoch: nat, polls: seq<nat>, j: nat) returns (i: nat)
    requires Sorted(polls) && j < |polls| && Target(cfg, polls, j) && !FiredAt(cfg, Initial(cfg, epoch), polls, j)
    ensures i < j && FiredAt(cfg, Initial(cfg, epoch), polls, i) && Target(cfg, polls, i) && SameResidues(polls, i, j)
  {
    ListedMask(cfg, polls[j]);
    hide FiresAt, EpochToDay, LatchAt, DayScheduled;
    i := SetSince(cfg, Initial(cfg, epoch), polls, j);
  }

  lemma HiddenDayNeverFires(cfg: Schedule, s: Latch, polls: seq<nat>, i: nat, j: nat)
    requires Sorted(polls) && i < j < |polls| && Hides(cfg, polls, i, j)
    ensures forall k :: 0 <= k < |polls| && FiredAt(cfg, s, polls, k) ==> EpochToDay(polls[k]) != EpochToDay(polls[j])
  {
    forall k | 0 <= k < |polls| && FiredAt(cfg, s, polls, k) ensures EpochToDay(polls[k]) != EpochToDay(polls[j]) {
      DaysAscend(polls[i], polls[j]);
      if k <= i {
        DaysAscend(polls[k], polls[i]);
      } else {
        if EpochToDay(polls[k]) == EpochToDay(polls[j]) {
          forall m | i <= m <= k ensures EpochToDay(polls[m]) % 256 == EpochToDay(polls[i]) % 256 {
            if m > j {
              DaysAscend(polls[j], polls[m]);
              DaysAscend(polls[m], polls[k]);
            }
          }
          StaysSet(cfg, s, polls, i, k);
        }
      }
    }
  }

  /** Exactly one firing on the day of a target poll, under the same condition. */
  lemma ExactlyOncePerDay(cfg: Schedule, epoch: nat, polls: seq<nat>, j: nat)
    requires Sorted(polls) && j < |polls| && Target(cfg, polls, j)
    ensures var f, day := FireDays(cfg, Initial(cfg, epoch), polls), EpochToDay(polls[j]);
      (exists k :: 0 <= k < |f| && f[k] == day && forall m :: 0 <= m < |f| && f[m] == day ==> m == k) <==>
      !exists i :: 0 <= i < j && Hides(cfg, polls, i, j)
  {
    var s, day := Initial(cfg, epoch), EpochToDay(polls[j]);
    var f := FireDays(cfg, s, polls);
    hide FireDays, Hides, EpochToDay, Rising, Ascending, Sorted, Target, FirstOpen, Initial;
    ServedIff(cfg, epoch, polls, j);
    SortedAscends(polls[0], polls);
    AtMostOncePerDay(cfg, s, polls[0], polls);
    OnceInRising(f, FirstOpen(s, EpochToDay(polls[0])), day);
  }

  lemma OnceInRising(f: seq<nat>, floor: nat, day: nat)
    requires Rising(f, floor)
    ensures day in f <==> exists k :: 0 <= k < |f| && f[k] == day && forall m :: 0 <= m < |f| && f[m] == day ==> m == k
  {
    if day in f {
      var k :| 0 <= k < |f| && f[k] == day;
      assert forall m :: 0 <= m < |f| && f[m] == day ==> m == k;
    }
  }

  lemma {:induction false} SortedAscends(from: nat, polls: seq<nat>)
    requires Sorted(polls) && (polls != [] ==> from <= polls[0])
    ensures Ascending(from, polls)
    decreases |polls|
  {
    if polls != [] {
      SortedAscends(polls[0], polls[1..]);
    }
  }

  /** Every scheduled day with a target poll is served exactly when no target poll hides another. */
  lemma AllServedIff(cfg: Schedule, epoch: nat, polls: seq<nat>)
    requires Sorted(polls)
    ensures (forall j :: 0 <= j < |polls| && Target(cfg, polls, j) ==>
               EpochToDay(polls[j]) in FireDays(cfg, Initial(cfg, epoch), polls)) <==>
            !exists i, j :: 0 <= i < j < |polls| && Target(cfg, polls, j) && Hides(cfg, polls, i, j)
  {
    forall j | 0 <= j < |polls| && Target(cfg, polls, j)
      ensures EpochToDay(polls[j]) in FireDays(cfg, Initial(cfg, epoch), polls) <==>
        !exists i :: 0 <= i < j && Hides(cfg, polls, i, j)
    {
      ServedIff(cfg, epoch, polls, j);
    }
  }

  /** A set bit means a non-zero mask, so the scheduler is active. */
  lemma ListedMask(cfg: Schedule, t: nat)
    requires DayScheduled(cfg, t)
    ensures cfg.days != 0
  {}

  /**
   * Consecutive polls on calendar days less than 256 apart hide nothing; polls before the clock is set do not
   * matter.
   */
  lemma CloseDaysHideNothing(cfg: Schedule, polls: seq<nat>, i: nat, j: nat)
    requires Sorted(polls) && i < j < |polls|
    requires forall k :: 0 <= k < |polls| - 1 && polls[k] > 0 ==> EpochToDay(polls[k + 1]) < EpochToDay(polls[k]) + 256
    ensures !Hides(cfg, polls, i, j)
  {
    if Hides(cfg, polls, i, j) {
      hide FiresAt, EpochToDay;
      OneResidueOneDay(polls, i, j);
    }
  }

  lemma {:induction false} OneResidueOneDay(polls: seq<nat>, i: nat, j: nat)
    requires Sorted(polls) && i <= j < |polls| && polls[i] > 0 && SameResidues(polls, i, j)
    requires forall k :: 0 <= k < |polls| - 1 && polls[k] > 0 ==> EpochToDay(polls[k + 1]) < EpochToDay(polls[k]) + 256
    ensures EpochToDay(polls[j]) == EpochToDay(polls[i])
    decreases j
  {
    if i < j {
      OneResidueOneDay(polls, i, j - 1);
      DaysAscend(polls[j - 1], polls[j]);
      hide EpochToDay;
      assert EpochToDay(polls[(j - 1) + 1]) < EpochToDay(polls[j - 1]) + 256;
      SameResidue(EpochToDay(polls[j - 1]), EpochToDay(polls[j]));
    }
  }

  lemma SameResidue(a: nat, b: nat)
    requires a <= b < a + 256
    ensures a % 256 == b % 256 ==> a == b
  {}

  /** Two target polls in a row on different days of one residue: the second day is missed. */
  lemma AliasedDayIsMissed(cfg: Schedule, epoch: nat, e: nat, e': nat)
    requires 0 < e <= e' && FiresAt(cfg, e) && FiresAt(cfg, e')
    requires EpochToDay(e) != EpochToDay(e') && EpochToDay(e) % 256 == EpochToDay(e') % 256
    ensures FireDays(cfg, Initial(cfg, epoch), [e, e']) == [EpochToDay(e)]
  {
    hide DayScheduled, EpochToDay, Hour, Minute, Bit;
    var s := Initial(cfg, epoch);
    ListedMask(cfg, e);
    assert [e, e'][1..] == [e'];
    assert FireDays(cfg, Poll(cfg, s, e), [e']) == [];
  }

  /** That takes a little less than 256 times 24 hours: from the end of a target minute to the start of a later one. */
  lemma MissedWithin256Days(epoch: nat)
    ensures var cfg, e, e' := Schedule(12, 0, 127), DAY + 43200 + 59, 257 * DAY + 43200;
      e' - e < 256 * DAY && FireDays(cfg, Initial(cfg, epoch), [e, e']) == [1]
  {
    var cfg, e, e' := Schedule(12, 0, 127), DAY + 43200 + 59, 257 * DAY + 43200;
    SplitDay(1, 43200 + 59);
    SplitDay(257, 43200);
    AllDaysListed(e);
    AllDaysListed(e');
    AliasedDayIsMissed(cfg, epoch, e, e');
  }

  lemma AllDaysListed(t: nat)
    ensures DayScheduled(Schedule(12, 0, 127), t)
  {
    var d := EpochToDow(t);
    assert d == 0 || d == 1 || d == 2 || d == 3 || d == 4 || d == 5 || d == 6;
    assert Pow2(0) == 1 && Pow2(1) == 2 && Pow2(2) == 4 && Pow2(3) == 8 && Pow2(4) == 16 && Pow2(5) == 32 &&
      Pow2(6) == 64;
  }
}
