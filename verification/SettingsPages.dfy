/**
 * What the settings pages of the PC send with SET_CONFIG, and what the firmware makes of it: each page sends only its
 * own part, and everything else returns to the defaults.
 */
module SettingsPages {
  import opened Wrappers
  import opened Bytes
  import opened CStrings
  import opened JsonText
  import opened JsonSyntax
  import opened Config
  import opened ConfigParser
  import opened ConfigRoundTrip
  import opened ConfigSearch
  import opened ConfigUpdate
  import opened ConfigJson
  import Scheduler

  /** What the firmware reads in the text of an object. */
  function Sent(fields: seq<Field>, l: Layout): Option<Config> {
    FromJson(JsonSyntax.Show(Obj(fields), l))
  }

  // ----- Keys that are not there

  predicate Silent(fields: seq<Field>, k: string) {
    !Mentions(Obj(fields), k)
  }

  lemma {:induction false} SilentIsDirect(fields: seq<Field>, k: string)
    requires Silent(fields, k)
    ensures Direct(fields, k) && Lookup(fields, k) == None
  {
    if fields != [] {
      assert fields[0].key != k && !Mentions(fields[0].value, k);
      assert forall i :: 0 <= i < |fields[1..]| ==> fields[1..][i] == fields[i + 1];
      SilentIsDirect(fields[1..], k);
    }
  }

  lemma DirectOne(f: Field, k: string)
    requires f.key == k || !Mentions(f.value, k)
    ensures Direct([f], k)
  {
    assert [f][1..] == [];
  }

  lemma DirectCons(f: Field, more: seq<Field>, k: string)
    requires !Mentions(f.value, k) && Direct(more, k)
    ensures Direct([f] + more, k)
  {
    assert ([f] + more)[1..] == more;
  }

  lemma NoMention(b: bool, k: string)
    ensures !Mentions(Flag(b), k)
  {}

  lemma AbsentSection(fields: seq<Field>, s: string, k: string)
    requires Lookup(fields, s) == None
    ensures Within(fields, s, k) && Inner(fields, s) == []
  {}

  lemma EmptyOver(k: string)
    ensures Lookup([], k) == None
  {}

  /** Without a timing and a wifi object, these parts of the result are the defaults. */
  lemma NoTimingNoWifi(fields: seq<Field>)
    requires Inner(fields, "timing") == [] && Inner(fields, "wifi") == []
    ensures var d, s := TopOver(fields, Defaults()), Inner(fields, "schedule");
      var a := AppsOver(Lookup(fields, "apps"), AppList(d.apps, d.appCount));
      Overlay(fields) == WithDays(WithTime(d, TimeGiven(Lookup(s, "time"))), DaysGiven(Lookup(s, "days"))).(
        apps := a.apps, appCount := a.count)
  {
    hide Lookup, Inner, AppsOver, TimeGiven, DaysGiven;
    EmptyOver("ssid");
    EmptyOver("password");
    NoTiming(TopOver(fields, Defaults()));
  }

  /** An object that names none of the firmware's sections and top-level fields resets the whole configuration. */
  lemma NothingNamed(fields: seq<Field>, l: Layout)
    requires NoQuotes(Obj(fields)) && Spaced(l)
    requires forall i :: 0 <= i < |SEARCHED| ==> Silent(fields, SEARCHED[i])
    ensures Sent(fields, l) == Some(Defaults())
  {
    forall i | 0 <= i < |SEARCHED| ensures Direct(fields, SEARCHED[i]) && Lookup(fields, SEARCHED[i]) == None {
      SilentIsDirect(fields, SEARCHED[i]);
    }
    hide Direct, Lookup, Silent, NoQuotes, Spaced;
    assert Lookup(fields, SEARCHED[0]) == None && Lookup(fields, SEARCHED[1]) == None;
    assert Lookup(fields, SEARCHED[2]) == None && Lookup(fields, SEARCHED[3]) == None;
    assert Lookup(fields, SEARCHED[4]) == None && Lookup(fields, SEARCHED[5]) == None;
    assert Lookup(fields, SEARCHED[6]) == None && Lookup(fields, SEARCHED[7]) == None;
    SectionsAbsent(fields);
    UpdateReads(fields, l);
    NothingOver(fields);
  }

  lemma SectionsAbsent(fields: seq<Field>)
    requires forall i :: 0 <= i < |SEARCHED| ==> Direct(fields, SEARCHED[i])
    requires Lookup(fields, "timing") == None && Lookup(fields, "schedule") == None
    requires Lookup(fields, "wifi") == None && Lookup(fields, "apps") == None
    ensures Findable(fields) && Typed(fields)
  {
    forall i | 0 <= i < |TIMING_KEYS| ensures Within(fields, "timing", TIMING_KEYS[i]) {
      AbsentSection(fields, "timing", TIMING_KEYS[i]);
    }
    AbsentSection(fields, "schedule", "time");
    AbsentSection(fields, "schedule", "days");
    AbsentSection(fields, "wifi", "ssid");
    AbsentSection(fields, "wifi", "password");
    EmptyOver("days");
    hide Within, Direct, Lookup;
  }

  predicate NoTopFields(fields: seq<Field>) {
    Lookup(fields, "version") == None && Lookup(fields, "firmware") == None &&
    Lookup(fields, "device") == None && Lookup(fields, "locale") == None
  }

  lemma TopStaysDefault(fields: seq<Field>)
    requires NoTopFields(fields)
    ensures TopOver(fields, Defaults()) == Defaults()
  {
    hide Lookup;
  }

  lemma NothingOver(fields: seq<Field>)
    requires NoTopFields(fields) && Lookup(fields, "timing") == None && Lookup(fields, "schedule") == None
    requires Lookup(fields, "wifi") == None && Lookup(fields, "apps") == None
    ensures Overlay(fields) == Defaults()
  {
    TopStaysDefault(fields);
    EmptyOver("time");
    EmptyOver("days");
    hide Lookup, TopOver, Defaults, Overlay;
    NoTimingNoWifi(fields);
  }

  /** Only the schedule differs from the defaults. */
  lemma ScheduleOver(fields: seq<Field>, s: seq<Field>, h: byte, m: byte, days: byte)
    requires NoTopFields(fields) && Inner(fields, "timing") == [] && Inner(fields, "wifi") == []
    requires Lookup(fields, "apps") == None && Inner(fields, "schedule") == s
    requires TimeGiven(Lookup(s, "time")) == Some((h, m)) && DaysGiven(Lookup(s, "days")) == Some(days)
    ensures Overlay(fields) == Defaults().(hour := h, min := m, days := days)
  {
    var d := Defaults();
    TopStaysDefault(fields);
    hide Lookup, TopOver, Defaults, Overlay, Inner, NoTopFields, TimeGiven, DaysGiven, AppsOver;
    NoTimingNoWifi(fields);
    NoAppsOver(AppList(d.apps, d.appCount));
    SetsSchedule(d, h, m, days);
  }

  lemma NoAppsOver(a: AppList)
    requires a.count <= |a.apps|
    ensures AppsOver(None, a) == a
  {}

  lemma SetsSchedule(d: Config, h: byte, m: byte, days: byte)
    ensures WithDays(WithTime(d, Some((h, m))), Some(days)).(apps := d.apps, appCount := d.appCount) ==
      d.(hour := h, min := m, days := days)
  {}

  /** Only the apps differ. */
  lemma AppsOnlyOver(fields: seq<Field>, apps: seq<Field>)
    requires NoTopFields(fields) && Lookup(fields, "timing") == None && Lookup(fields, "schedule") == None
    requires Lookup(fields, "wifi") == None && Lookup(fields, "apps") == Some(Obj(apps))
    ensures var a := Filled(Defaults().apps, 0, apps);
      Overlay(fields) == Defaults().(apps := a.apps, appCount := a.count)
  {
    TopStaysDefault(fields);
    EmptyOver("time");
    EmptyOver("days");
    hide Lookup, TopOver, Defaults, Overlay, Filled, NoTopFields;
    NoTimingNoWifi(fields);
  }

  // ----- The advanced page

  const ADVANCED := ["boot_wait", "wake_wait", "keystroke_ms", "retry_count", "retry_interval", "dialog_wait"]

  /** Its six numbers stand at the top level, most under other names than the firmware's. */
  function AdvancedPage(boot: int, wake: int, keystroke: int, retries: int, interval: int, dialog: nat,
    tenths: Digits): seq<Field>
  {
    [Field(ADVANCED[0], Num(boot)), Field(ADVANCED[1], Num(wake)), Field(ADVANCED[2], Num(keystroke)),
     Field(ADVANCED[3], Num(retries)), Field(ADVANCED[4], Num(interval)),
     Field(ADVANCED[5], Frac(false, dialog, tenths))]
  }

  predicate Numbers(fields: seq<Field>) {
    forall i :: 0 <= i < |fields| ==> (fields[i].value.Num? || fields[i].value.Frac?) && fields[i].key in ADVANCED
  }

  lemma AdvancedKeys()
    ensures forall i :: 0 <= i < |ADVANCED| ==> QuoteFree(ADVANCED[i]) && ADVANCED[i] !in SEARCHED
  {
    forall i, j | 0 <= i < |ADVANCED| && 0 <= j < |SEARCHED| ensures ADVANCED[i] != SEARCHED[j] {
      assert |ADVANCED[i]| > 8 && |SEARCHED[j]| <= 8;
    }
  }

  lemma NumbersReset(fields: seq<Field>, l: Layout)
    requires Spaced(l) && Numbers(fields)
    ensures Sent(fields, l) == Some(Defaults())
  {
    AdvancedKeys();
    forall j | 0 <= j < |SEARCHED| ensures Silent(fields, SEARCHED[j]) {
      forall i | 0 <= i < |fields| ensures fields[i].key != SEARCHED[j] && !Mentions(fields[i].value, SEARCHED[j]) {
        assert fields[i].key in ADVANCED;
      }
    }
    hide Silent;
    NothingNamed(fields, l);
  }

  /** So saving it changes no timing, and resets everything else. */
  lemma AdvancedPageResets(boot: int, wake: int, keystroke: int, retries: int, interval: int, dialog: nat,
    tenths: Digits, l: Layout)
    requires Spaced(l)
    ensures Sent(AdvancedPage(boot, wake, keystroke, retries, interval, dialog, tenths), l) == Some(Defaults())
  {
    hide Defaults, Sent;
    NumbersReset(AdvancedPage(boot, wake, keystroke, retries, interval, dialog, tenths), l);
  }

  // ----- The schedule page

  function SchedulePage(h: byte, m: byte, days: seq<Json>): seq<Field> {
    [Field("schedule", Obj(ScheduleIn(h, m, days)))]
  }

  function ScheduleIn(h: byte, m: byte, days: seq<Json>): seq<Field> {
    [Field("time", Text(Dec2(h) + ":" + Dec2(m))), Field("days", List(days))]
  }

  /** Day items the firmware can read: numbers, or texts that are no keys. */
  predicate ReadableDay(v: Json) {
    IsDay(v) && NoQuotes(v) && (v.Text? ==> v.s !in SEARCHED)
  }

  predicate Readable(days: seq<Json>) {
    forall i :: 0 <= i < |days| ==> ReadableDay(days[i])
  }

  lemma ScheduleInIs(h: byte, m: byte, days: seq<Json>)
    requires Readable(days)
    ensures var s := ScheduleIn(h, m, days);
      NoQuotes(Obj(s)) && Direct(s, "time") && Direct(s, "days") &&
      Lookup(s, "time") == Some(Text(Dec2(h) + ":" + Dec2(m))) && Lookup(s, "days") == Some(List(days))
  {
    hide Dec2;
    TimeIsQuoteFree(h, m);
    assert (Dec2(h) + ":" + Dec2(m))[0] != 'd';
    var s := ScheduleIn(h, m, days);
    assert From(s, "days") == From(s[1..], "days") == s[1..];
  }

  lemma TimeIsNoKey(h: byte, m: byte)
    ensures Dec2(h) + ":" + Dec2(m) !in SEARCHED
  {
    hide Dec2;
    assert IsDigit((Dec2(h) + ":" + Dec2(m))[0]);
    assert forall i :: 0 <= i < |SEARCHED| ==> !IsDigit(SEARCHED[i][0]);
  }

  lemma ScheduleInSilent(h: byte, m: byte, days: seq<Json>, k: string)
    requires Readable(days) && k in SEARCHED
    ensures !Mentions(Obj(ScheduleIn(h, m, days)), k)
  {
    TimeIsNoKey(h, m);
    hide Dec2;
    assert k != "time" && k != "days";
    assert forall i :: 0 <= i < |days| ==> !Mentions(days[i], k);
    assert !Mentions(List(days), k);
  }

  lemma SchedulePageFindable(h: byte, m: byte, days: seq<Json>)
    requires Readable(days)
    ensures var fields := SchedulePage(h, m, days); NoQuotes(Obj(fields)) && Findable(fields) && Typed(fields)
  {
    var fields, s := SchedulePage(h, m, days), ScheduleIn(h, m, days);
    ScheduleInIs(h, m, days);
    forall i | 0 <= i < |SEARCHED| ensures Direct(fields, SEARCHED[i]) {
      ScheduleInSilent(h, m, days, SEARCHED[i]);
      hide Mentions, ScheduleIn;
    }
    hide ScheduleIn, Mentions;
    assert From(fields, "schedule") == fields;
    NotOnPage(fields, "timing");
    NotOnPage(fields, "wifi");
    NotOnPage(fields, "apps");
    forall i | 0 <= i < |TIMING_KEYS| ensures Within(fields, "timing", TIMING_KEYS[i]) {
      AbsentSection(fields, "timing", TIMING_KEYS[i]);
    }
    AbsentSection(fields, "wifi", "ssid");
    AbsentSection(fields, "wifi", "password");
  }

  lemma NotOnPage(fields: seq<Field>, k: string)
    requires |fields| == 1 && fields[0].key != k
    ensures From(fields, k) == [] && Lookup(fields, k) == None
  {}

  lemma TimeScans(h: byte, m: byte)
    ensures TimeGiven(Some(Text(Dec2(h) + ":" + Dec2(m)))) == Some((h, m))
  {
    hide ScanTime, Dec2;
    var t := Dec2(h) + ":" + Dec2(m);
    assert t + "" == t;
    TimeRoundTrip(h, m, "");
    assert U8(h) == h && U8(m) == m;
  }

  lemma {:induction false} DayBitsSmall(items: seq<Json>, m: nat)
    requires m < 128
    ensures DayBits(items, m) < 128
  {
    if items != [] {
      if items[0].Num? && 0 <= items[0].n <= 6 {
        SetBitStaysSmall(m, items[0].n);
      }
      hide SetBit;
      DayBitsSmall(items[1..], WithDay(items[0], m));
    }
  }

  lemma DayBitsAre(days: seq<Json>)
    ensures DayBits(days, 0) < 128 && forall d :: 0 <= d <= 6 ==> (Bit(DayBits(days, 0), d) <==> Num(d) in days)
  {
    DayBitsSmall(days, 0);
    forall d | 0 <= d <= 6 ensures Bit(DayBits(days, 0), d) <==> Num(d) in days {
      DayIsSet(days, 0, d);
      assert !Bit(0, d);
    }
  }

  /** The page sets the time and the days given as numbers; all the rest is reset. */
  lemma SchedulePageReads(h: byte, m: byte, days: seq<Json>, l: Layout)
    requires Spaced(l) && Readable(days)
    ensures var r := Sent(SchedulePage(h, m, days), l);
      r.Some? && r.value == Defaults().(hour := h, min := m, days := r.value.days) && r.value.days < 128 &&
      forall d :: 0 <= d <= 6 ==> (Bit(r.value.days, d) <==> Num(d) in days)
  {
    var fields, mask := SchedulePage(h, m, days), DayBits(days, 0);
    SchedulePageFindable(h, m, days);
    SchedulePageHas(h, m, days);
    ScheduleInIs(h, m, days);
    TimeScans(h, m);
    DayBitsAre(days);
    assert DaysGiven(Some(List(days))) == Some(mask);
    hide DaysGiven, Lookup, Inner, TimeGiven, DayBits, Findable, Typed, Bit, FromJson, Overlay, ScheduleIn,
      SchedulePage,
      NoTopFields, Readable, Defaults;
    UpdateReads(fields, l);
    ScheduleOver(fields, ScheduleIn(h, m, days), h, m, mask);
  }

  lemma SchedulePageHas(h: byte, m: byte, days: seq<Json>)
    ensures var fields := SchedulePage(h, m, days);
      NoTopFields(fields) && Lookup(fields, "apps") == None && Inner(fields, "schedule") == ScheduleIn(h, m, days) &&
      Inner(fields, "timing") == [] && Inner(fields, "wifi") == []
  {
    hide ScheduleIn;
    var fields := SchedulePage(h, m, days);
    NotOnPage(fields, "version");
    NotOnPage(fields, "firmware");
    NotOnPage(fields, "device");
    NotOnPage(fields, "locale");
    NotOnPage(fields, "apps");
    NotOnPage(fields, "timing");
    NotOnPage(fields, "wifi");
  }

  const DAY_KEYS := ["mon", "tue", "wed", "thu", "fri", "sat", "sun"]

  /** The page names the days, and the firmware knows only numbers: saving the schedule clears every day. */
  lemma NamedDaysAreLost(h: byte, m: byte, names: seq<string>, l: Layout)
    requires Spaced(l) && forall i :: 0 <= i < |names| ==> names[i] in DAY_KEYS
    ensures Sent(SchedulePage(h, m, Texts(names)), l) == Some(Defaults().(hour := h, min := m, days := 0))
  {
    var days := Texts(names);
    NamesAreReadable(names);
    SchedulePageReads(h, m, days, l);
    hide FromJson, SchedulePage, Defaults;
    assert forall d :: 0 <= d <= 6 ==> Num(d) !in days;
    var mask := Sent(SchedulePage(h, m, days), l).value.days;
    NoBitIsZero(mask);
  }

  /** So the board never wakes the PC again. */
  lemma NamedDaysNeverWake(h: byte, m: byte, names: seq<string>, l: Layout, t: nat)
    requires Spaced(l) && forall i :: 0 <= i < |names| ==> names[i] in DAY_KEYS
    ensures var r := Sent(SchedulePage(h, m, Texts(names)), l);
      r.Some? && !Scheduler.FiresAt(Scheduler.Schedule(r.value.hour, r.value.min, r.value.days), t)
  {
    NoDayNeverFires(h, m, t);
    hide Sent, SchedulePage, Texts, Defaults, Scheduler.FiresAt;
    NamedDaysAreLost(h, m, names, l);
  }

  lemma NoDayNeverFires(h: byte, m: byte, t: nat)
    ensures !Scheduler.FiresAt(Scheduler.Schedule(h, m, 0), t)
  {
    assert !Bit(0, Scheduler.EpochToDow(t));
  }

  function Texts(names: seq<string>): (items: seq<Json>)
    ensures |items| == |names| && forall i :: 0 <= i < |names| ==> items[i] == Text(names[i])
  {
    if names == [] then [] else [Text(names[0])] + Texts(names[1..])
  }

  lemma DayKeyIsPlain(name: string)
    requires name in DAY_KEYS
    ensures DayFree(name) && QuoteFree(name) && |name| == 3
  {
    var j :| 0 <= j < |DAY_KEYS| && DAY_KEYS[j] == name;
    assert DayFree(DAY_KEYS[0]) && DayFree(DAY_KEYS[1]) && DayFree(DAY_KEYS[2]) && DayFree(DAY_KEYS[3]);
    assert DayFree(DAY_KEYS[4]) && DayFree(DAY_KEYS[5]) && DayFree(DAY_KEYS[6]);
  }

  lemma SearchedAreLonger()
    ensures forall j :: 0 <= j < |SEARCHED| ==> |SEARCHED[j]| > 3
  {}

  lemma NameIsReadable(name: string)
    requires name in DAY_KEYS
    ensures ReadableDay(Text(name))
  {
    DayKeyIsPlain(name);
    SearchedAreLonger();
    hide DayFree, QuoteFree;
  }

  lemma NamesAreReadable(names: seq<string>)
    requires forall i :: 0 <= i < |names| ==> names[i] in DAY_KEYS
    ensures Readable(Texts(names))
  {
    hide ReadableDay, Texts;
    forall i | 0 <= i < |names| ensures ReadableDay(Text(names[i])) {
      NameIsReadable(names[i]);
    }
  }

  lemma NoBitIsZero(mask: byte)
    requires mask < 128 && forall d :: 0 <= d <= 6 ==> !Bit(mask, d)
    ensures mask == 0
  {
    assert Pow2(0) == 1 && Pow2(1) == 2 && Pow2(2) == 4 && Pow2(3) == 8 && Pow2(4) == 16 && Pow2(5) == 32 &&
      Pow2(6) == 64;
    assert !Bit(mask, 0) && !Bit(mask, 1) && !Bit(mask, 2) && !Bit(mask, 3) && !Bit(mask, 4) && !Bit(mask, 5) &&
      !Bit(mask, 6);
  }

  // ----- The apps page

  function AppsPage(lock: bool, apps: seq<Field>): seq<Field> {
    [Field("lock_screen_enabled", Flag(lock)), Field("apps", Obj(apps))]
  }

  predicate Listable(apps: seq<Field>) {
    forall i :: 0 <= i < |apps| ==> IsApp(apps[i]) && QuoteFree(apps[i].key) && apps[i].key !in SEARCHED
  }

  lemma AppsSilent(apps: seq<Field>, k: string)
    requires Listable(apps) && k in SEARCHED
    ensures !Mentions(Obj(apps), k)
  {}

  lemma AppsPageNoQuotes(lock: bool, apps: seq<Field>)
    requires Listable(apps)
    ensures NoQuotes(Obj(AppsPage(lock, apps)))
  {
    assert QuoteFree("lock_screen_enabled") && QuoteFree("apps");
    assert NoQuotes(Obj(apps)) && NoQuotes(Flag(lock));
  }

  lemma AppsPageFindable(lock: bool, apps: seq<Field>)
    requires Listable(apps)
    ensures var fields := AppsPage(lock, apps); NoQuotes(Obj(fields)) && Findable(fields) && Typed(fields)
    ensures var fields := AppsPage(lock, apps);
      Lookup(fields, "apps") == Some(Obj(apps)) &&
      forall i :: 0 <= i < |SEARCHED| && SEARCHED[i] != "apps" ==> Lookup(fields, SEARCHED[i]) == None
  {
    var f, g := Field("lock_screen_enabled", Flag(lock)), Field("apps", Obj(apps));
    var fields := AppsPage(lock, apps);
    AppsPageNoQuotes(lock, apps);
    assert fields == [f] + [g] && fields[1..] == [g];
    assert forall i :: 0 <= i < |SEARCHED| ==> SEARCHED[i] != "lock_screen_enabled";
    forall i | 0 <= i < |SEARCHED|
      ensures Direct(fields, SEARCHED[i])
      ensures SEARCHED[i] != "apps" ==> Lookup(fields, SEARCHED[i]) == None
    {
      var k := SEARCHED[i];
      AppsSilent(apps, k);
      assert From(fields, k) == From(fields[1..], k);
      if k != "apps" {
        NotOnPage(fields[1..], k);
      }
      hide Mentions, Direct;
      DirectOne(g, k);
      assert !Mentions(f.value, k) by { NoMention(lock, k); }
      DirectCons(f, [g], k);
    }
    assert From(fields, "apps") == From(fields[1..], "apps") == fields[1..];
    assert SEARCHED[4] == "timing" && SEARCHED[5] == "schedule" && SEARCHED[7] == "wifi";
    hide Lookup, Direct, Listable, From;
    forall i | 0 <= i < |TIMING_KEYS| ensures Within(fields, "timing", TIMING_KEYS[i]) {
      AbsentSection(fields, "timing", TIMING_KEYS[i]);
    }
    AbsentSection(fields, "schedule", "time");
    AbsentSection(fields, "schedule", "days");
    AbsentSection(fields, "wifi", "ssid");
    AbsentSection(fields, "wifi", "password");
    EmptyOver("days");
  }

  /** The page sets the first eight apps; all the rest is reset. */
  lemma AppsPageReads(lock: bool, apps: seq<Field>, l: Layout)
    requires Spaced(l) && Listable(apps)
    ensures var r, n := Sent(AppsPage(lock, apps), l), if |apps| < CONFIG_MAX_APPS then |apps| else CONFIG_MAX_APPS;
      r.Some? && r.value == Defaults().(apps := r.value.apps, appCount := n) && |r.value.apps| == CONFIG_MAX_APPS &&
      forall i :: 0 <= i < n ==> r.value.apps[i] == App(apps[i].key, apps[i].value.b)
  {
    var fields, d := AppsPage(lock, apps), Defaults();
    AppsPageFindable(lock, apps);
    assert Lookup(fields, SEARCHED[0]) == None && Lookup(fields, SEARCHED[1]) == None;
    assert Lookup(fields, SEARCHED[2]) == None && Lookup(fields, SEARCHED[3]) == None;
    assert Lookup(fields, SEARCHED[4]) == None && Lookup(fields, SEARCHED[5]) == None;
    assert Lookup(fields, SEARCHED[7]) == None;
    FilledSlots(d.apps, apps);
    hide Lookup, Findable, Typed, FromJson, Overlay, AppsPage, Filled, Listable, Defaults;
    UpdateReads(fields, l);
    AppsOnlyOver(fields, apps);
  }

  lemma FilledSlots(slots: seq<App>, apps: seq<Field>)
    requires Listable(apps)
    ensures var n, a := if |apps| < |slots| then |apps| else |slots|, Filled(slots, 0, apps);
      a.count == n && |a.apps| == |slots| && forall i :: 0 <= i < n ==> a.apps[i] == App(apps[i].key, apps[i].value.b)
  {
    var n := if |apps| < |slots| then |apps| else |slots|;
    forall i | 0 <= i < n ensures AppsIn(apps[..n])[i] == App(apps[i].key, apps[i].value.b) {
      AppAt(apps[..n], i);
    }
  }

  lemma {:induction false} AppAt(fields: seq<Field>, i: nat)
    requires i < |fields|
    ensures AppsIn(fields)[i] == AppOf(fields[i])
  {
    if i > 0 {
      AppAt(fields[1..], i - 1);
    }
  }
}
