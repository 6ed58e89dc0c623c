/** A whole configuration, written with any white space, is read like the compact text the firmware prints. */
module ConfigSpacing {
  import opened Wrappers
  import opened Bytes
  import opened CStrings
  import opened JsonText
  import opened JsonSyntax
  import opened Config
  import opened ConfigParser
  import opened ConfigRoundTrip
  import opened ConfigSearch
  import opened ConfigUpdate
  import opened ConfigJson
  import opened SettingsPages

  const INNER_KEYS := ["boot_wait_sec", "wake_wait_sec", "keystroke_ms", "retry_count", "retry_interval_sec",
    "dialog_wait_sec", "time", "days", "ssid", "password"]

  predicate IsKey(s: string) {
    s in SEARCHED || s in INNER_KEYS
  }

  /** No string of the configuration is a key of its text. */
  predicate Unambiguous(c: Config)
    requires InMemory(c)
  {
    !IsKey(c.firmware) && !IsKey(c.device) && !IsKey(c.locale) && !IsKey(c.ssid) &&
    forall i :: 0 <= i < |Listed(c)| ==> !IsKey(Listed(c)[i].name)
  }

  lemma {:induction false} NoEscapesNoQuotes(v: Json)
    requires NoEscapes(v)
    ensures NoQuotes(v)
    decreases v
  {
    match v
    case List(items) =>
      forall i | 0 <= i < |items| ensures NoQuotes(items[i]) {
        NoEscapesNoQuotes(items[i]);
      }
    case Obj(fields) =>
      forall i | 0 <= i < |fields| ensures NoQuotes(fields[i].value) {
        NoEscapesNoQuotes(fields[i].value);
      }
    case _ =>
  }

  // ----- What the sections mention

  lemma MentionCons(f: Field, more: seq<Field>, k: string)
    requires f.key != k && !Mentions(f.value, k) && !Mentions(Obj(more), k)
    ensures !Mentions(Obj([f] + more), k)
  {}

  lemma LeafMentions(n: int, s: string, k: string)
    ensures !Mentions(Num(n), k) && (Mentions(Text(s), k) <==> s == k) && !Mentions(Obj([]), k)
  {}

  lemma NumCons(key: string, n: int, more: seq<Field>, k: string)
    requires key != k && !Mentions(Obj(more), k)
    ensures !Mentions(Obj([Field(key, Num(n))] + more), k)
  {
    LeafMentions(n, "", k);
    MentionCons(Field(key, Num(n)), more, k);
  }

  lemma SearchedIsNotInner(k: string)
    requires k in SEARCHED
    ensures k !in INNER_KEYS && k != "boot_wait_sec" && k != "wake_wait_sec" && k != "keystroke_ms"
    ensures k != "retry_count" && k != "retry_interval_sec" && k != "dialog_wait_sec"
    ensures k != "time" && k != "days" && k != "ssid"
  {
    forall i, j | 0 <= i < |SEARCHED| && 0 <= j < |INNER_KEYS| ensures SEARCHED[i] != INNER_KEYS[j] {
      SearchedDiffers(i, j);
    }
    assert INNER_KEYS[0] == "boot_wait_sec" && INNER_KEYS[1] == "wake_wait_sec" && INNER_KEYS[2] == "keystroke_ms";
    assert INNER_KEYS[3] == "retry_count" && INNER_KEYS[4] == "retry_interval_sec";
    assert INNER_KEYS[5] == "dialog_wait_sec" && INNER_KEYS[6] == "time" && INNER_KEYS[7] == "days";
    assert INNER_KEYS[8] == "ssid";
  }

  lemma SearchedDiffers(i: nat, j: nat)
    requires i < |SEARCHED| && j < |INNER_KEYS|
    ensures SEARCHED[i] != INNER_KEYS[j]
  {
    assert |INNER_KEYS[j]| == 8 ==> INNER_KEYS[j][0] == 'p';
    assert |SEARCHED[i]| == 8 ==> SEARCHED[i][0] != 'p';
    assert |SEARCHED[i]| == 4 ==> SEARCHED[i][0] == 'a' || SEARCHED[i][0] == 'w';
    assert |INNER_KEYS[j]| == 4 ==> INNER_KEYS[j][0] != 'a' && INNER_KEYS[j][0] != 'w';
  }

  lemma TimingMentions(c: Config, k: string)
    requires k in SEARCHED
    ensures !Mentions(Obj(BootIn(c)), k)
  {
    SearchedIsNotInner(k);
    LeafMentions(0, "", k);
    hide Mentions;
    NumCons("dialog_wait_sec", c.dialogWait, [], k);
    assert DialogIn(c) == [Field("dialog_wait_sec", Num(c.dialogWait))] + [];
    NumCons("retry_interval_sec", c.retryInterval, DialogIn(c), k);
    NumCons("retry_count", c.retryCount, IntervalIn(c), k);
    NumCons("keystroke_ms", c.keystroke, RetryIn(c), k);
    NumCons("wake_wait_sec", c.wakeWait, KeystrokeIn(c), k);
    NumCons("boot_wait_sec", c.bootWait, WakeIn(c), k);
  }

  lemma {:induction false} DayNumsAre(days: byte, d: nat, k: string)
    requires d <= 7
    ensures !Mentions(List(DayNums(days, d)), k) && IsDayList(List(DayNums(days, d)))
    decreases 7 - d
  {
    if d < 7 {
      DayNumsAre(days, d + 1, k);
    }
  }

  lemma ScheduleMentions(c: Config, k: string)
    requires k in SEARCHED
    ensures !Mentions(Obj(TimeIn(c)), k)
  {
    var hm := Dec2(c.hour) + ":" + Dec2(c.min);
    TimeIsNoKey(c.hour, c.min);
    SearchedIsNotInner(k);
    LeafMentions(0, hm, k);
    DayNumsAre(c.days, 0, k);
    hide Mentions, Dec2, DayNums;
    MentionCons(Field("days", List(DayNums(c.days, 0))), [], k);
    assert DaysIn(c) == [Field("days", List(DayNums(c.days, 0)))] + [];
    MentionCons(Field("time", Text(hm)), DaysIn(c), k);
  }

  lemma {:induction false} AppFieldsAre(apps: seq<App>, k: string)
    requires forall i :: 0 <= i < |apps| ==> apps[i].name != k && |apps[i].name| < APP_NAME_LEN
    ensures !Mentions(Obj(AppFields(apps)), k) && IsAppObject(Obj(AppFields(apps)))
  {
    if apps != [] {
      AppFieldsAre(apps[1..], k);
    }
  }

  lemma WifiMentions(c: Config, k: string)
    requires k in SEARCHED && c.ssid != k
    ensures !Mentions(Obj([Field("ssid", Text(c.ssid))]), k)
  {
    SearchedIsNotInner(k);
    LeafMentions(0, c.ssid, k);
    hide Mentions;
    MentionCons(Field("ssid", Text(c.ssid)), [], k);
    assert [Field("ssid", Text(c.ssid))] == [Field("ssid", Text(c.ssid))] + [];
  }

  // ----- Every search lands on its own field

  lemma WifiDirect(c: Config, k: string)
    requires k in SEARCHED && c.ssid != k
    ensures Direct(WifiFields(c), k)
  {
    WifiMentions(c, k);
    if c.ssid != "" {
      DirectOne(Field("wifi", Obj([Field("ssid", Text(c.ssid))])), k);
    }
  }

  lemma TopDirect(c: Config, k: string)
    requires InMemory(c) && Unambiguous(c) && k in SEARCHED
    ensures Direct(AllFields(c), k)
  {
    AppFieldsAre(Listed(c), k);
    WifiDirect(c, k);
    TimingMentions(c, k);
    ScheduleMentions(c, k);
    LeafMentions(c.version, c.firmware, k);
    LeafMentions(0, c.device, k);
    LeafMentions(0, c.locale, k);
    assert c.firmware != k && c.device != k && c.locale != k;
    hide Mentions, Direct, AppFields, WifiFields, TimeIn, BootIn, InMemory, Unambiguous;
    DirectCons(Field("apps", Obj(AppFields(Listed(c)))), WifiFields(c), k);
    DirectCons(Field("timing", Obj(BootIn(c))), AppsOn(c), k);
    DirectCons(Field("schedule", Obj(TimeIn(c))), TimingOn(c), k);
    DirectCons(Field("locale", Text(c.locale)), ScheduleOn(c), k);
    DirectCons(Field("device", Text(c.device)), LocaleOn(c), k);
    DirectCons(Field("firmware", Text(c.firmware)), DeviceOn(c), k);
    DirectCons(Field("version", Num(c.version)), FirmwareOn(c), k);
  }

  lemma FromCons(f: Field, more: seq<Field>, s: string)
    ensures From([f] + more, s) == if f.key == s then [f] + more else From(more, s)
  {
    assert ([f] + more)[1..] == more;
  }

  /** The sections, from the whole object. */
  lemma SectionsOf(c: Config)
    requires InMemory(c)
    ensures var fields := AllFields(c);
      From(fields, "schedule") == ScheduleOn(c) && From(fields, "timing") == TimingOn(c) &&
      From(fields, "apps") == AppsOn(c) && From(fields, "wifi") == WifiFields(c)
  {
    hide From, AppFields, TimeIn, BootIn, InMemory;
    SectionOf(c, "schedule");
    SectionOf(c, "timing");
    SectionOf(c, "apps");
    SectionOf(c, "wifi");
    FromCons(Field("schedule", Obj(TimeIn(c))), TimingOn(c), "schedule");
    FromCons(Field("schedule", Obj(TimeIn(c))), TimingOn(c), "timing");
    FromCons(Field("schedule", Obj(TimeIn(c))), TimingOn(c), "apps");
    FromCons(Field("schedule", Obj(TimeIn(c))), TimingOn(c), "wifi");
    FromCons(Field("timing", Obj(BootIn(c))), AppsOn(c), "timing");
    FromCons(Field("timing", Obj(BootIn(c))), AppsOn(c), "apps");
    FromCons(Field("timing", Obj(BootIn(c))), AppsOn(c), "wifi");
    FromCons(Field("apps", Obj(AppFields(Listed(c)))), WifiFields(c), "apps");
    FromCons(Field("apps", Obj(AppFields(Listed(c)))), WifiFields(c), "wifi");
    FromWifiFields(c);
  }

  lemma FromWifiFields(c: Config)
    ensures From(WifiFields(c), "wifi") == WifiFields(c)
  {}

  lemma SectionOf(c: Config, s: string)
    requires InMemory(c) && s != "version" && s != "firmware" && s != "device" && s != "locale"
    ensures From(AllFields(c), s) == From(ScheduleOn(c), s)
  {
    hide From, ScheduleOn, InMemory;
    FromCons(Field("version", Num(c.version)), FirmwareOn(c), s);
    FromCons(Field("firmware", Text(c.firmware)), DeviceOn(c), s);
    FromCons(Field("device", Text(c.device)), LocaleOn(c), s);
    FromCons(Field("locale", Text(c.locale)), ScheduleOn(c), s);
  }

  lemma FoundInTiming(c: Config, k: string)
    requires k in TIMING_KEYS
    ensures Lookup(BootIn(c), k) != None && Direct(BootIn(c), k)
  {
    TimingKeyIs(k);
    LeafMentions(c.bootWait, "", k);
    LeafMentions(c.wakeWait, "", k);
    LeafMentions(c.keystroke, "", k);
    LeafMentions(c.retryCount, "", k);
    LeafMentions(c.retryInterval, "", k);
    LeafMentions(c.dialogWait, "", k);
    hide From, Direct, Mentions;
    DirectOne(Field("dialog_wait_sec", Num(c.dialogWait)), k);
    DirectCons(Field("retry_interval_sec", Num(c.retryInterval)), DialogIn(c), k);
    DirectCons(Field("retry_count", Num(c.retryCount)), IntervalIn(c), k);
    DirectCons(Field("keystroke_ms", Num(c.keystroke)), RetryIn(c), k);
    DirectCons(Field("wake_wait_sec", Num(c.wakeWait)), KeystrokeIn(c), k);
    DirectCons(Field("boot_wait_sec", Num(c.bootWait)), WakeIn(c), k);
    FromCons(Field("dialog_wait_sec", Num(c.dialogWait)), [], k);
    assert DialogIn(c) == [Field("dialog_wait_sec", Num(c.dialogWait))] + [];
    FromCons(Field("retry_interval_sec", Num(c.retryInterval)), DialogIn(c), k);
    FromCons(Field("retry_count", Num(c.retryCount)), IntervalIn(c), k);
    FromCons(Field("keystroke_ms", Num(c.keystroke)), RetryIn(c), k);
    FromCons(Field("wake_wait_sec", Num(c.wakeWait)), KeystrokeIn(c), k);
    FromCons(Field("boot_wait_sec", Num(c.bootWait)), WakeIn(c), k);
  }

  lemma TimingKeyIs(k: string)
    requires k in TIMING_KEYS
    ensures k == "boot_wait_sec" || k == "wake_wait_sec" || k == "keystroke_ms" || k == "retry_count" ||
      k == "retry_interval_sec" || k == "dialog_wait_sec"
  {}

  lemma FoundInSchedule(c: Config)
    ensures Lookup(TimeIn(c), "time") != None && Direct(TimeIn(c), "time")
    ensures Lookup(TimeIn(c), "days") == Some(List(DayNums(c.days, 0))) && Direct(TimeIn(c), "days")
  {
    hide Dec2, DayNums;
    var f := Field("time", Text(Dec2(c.hour) + ":" + Dec2(c.min)));
    assert (Dec2(c.hour) + ":" + Dec2(c.min))[0] != 'd';
    FromCons(f, DaysIn(c), "time");
    FromCons(f, DaysIn(c), "days");
    DirectCons(f, DaysIn(c), "days");
  }

  lemma FoundInWifi(c: Config)
    requires c.ssid != "password"
    ensures Within(WifiFields(c), "wifi", "ssid") && Within(WifiFields(c), "wifi", "password")
  {
    if c.ssid != "" {
      var inner := [Field("ssid", Text(c.ssid))];
      LeafMentions(0, c.ssid, "password");
      DirectOne(inner[0], "password");
      NotOnPage(inner, "password");
      assert WifiFields(c)[1..] == [];
    }
  }

  lemma WithinFound(fields: seq<Field>, s: string, k: string, inner: seq<Field>)
    requires From(fields, s) != [] && From(fields, s)[0].value == Obj(inner)
    requires Direct(inner, k) && Lookup(inner, k) != None
    ensures Within(fields, s, k)
  {
    hide From, Direct, Mentions;
  }

  lemma SectionsWithin(c: Config)
    requires InMemory(c) && c.ssid != "password"
    ensures var fields := AllFields(c);
      (forall i :: 0 <= i < |TIMING_KEYS| ==> Within(fields, "timing", TIMING_KEYS[i])) &&
      Within(fields, "schedule", "time") && Within(fields, "schedule", "days") &&
      Within(fields, "wifi", "ssid") && Within(fields, "wifi", "password")
  {
    var fields := AllFields(c);
    SectionsOf(c);
    FoundInSchedule(c);
    FoundInWifi(c);
    FromWifiFields(c);
    hide Direct, Mentions, TimeIn, BootIn, From, FirmwareOn, Lookup;
    forall i | 0 <= i < |TIMING_KEYS| ensures Within(fields, "timing", TIMING_KEYS[i]) {
      FoundInTiming(c, TIMING_KEYS[i]);
      WithinFound(fields, "timing", TIMING_KEYS[i], BootIn(c));
    }
    WithinFound(fields, "schedule", "time", TimeIn(c));
    WithinFound(fields, "schedule", "days", TimeIn(c));
  }

  lemma SectionsTyped(c: Config)
    requires InMemory(c) && Unambiguous(c)
    ensures Typed(AllFields(c))
  {
    SectionsOf(c);
    FoundInSchedule(c);
    AppFieldsAre(Listed(c), "version");
    DayNumsAre(c.days, 0, "");
    hide From, DayNums, TimeIn, FirmwareOn, AppFields, IsAppObject, IsDayList, Unambiguous, InMemory;
  }

  lemma AsJsonFindable(c: Config)
    requires InMemory(c) && Unambiguous(c)
    ensures Findable(AllFields(c)) && Typed(AllFields(c))
  {
    forall i | 0 <= i < |SEARCHED| ensures Direct(AllFields(c), SEARCHED[i]) {
      TopDirect(c, SEARCHED[i]);
    }
    assert INNER_KEYS[9] == "password" && c.ssid != "password";
    SectionsWithin(c);
    SectionsTyped(c);
    hide Direct, Within, Unambiguous, InMemory, AllFields, Typed;
  }

  /** White space in the text of a configuration does not change what is read. */
  lemma SpacedConfigReads(c: Config, l: Layout)
    requires InMemory(c) && NeedsNoEscapes(c) && Unambiguous(c) && Spaced(l)
    ensures FromJson(JsonSyntax.Show(AsJson(c), l)) == FromJson(Print(c))
  {
    AsJsonNoEscapes(c);
    NoEscapesNoQuotes(AsJson(c));
    AsJsonFindable(c);
    PrintIsShown(c);
    hide Findable, Typed, NoQuotes, NoEscapes, FromJson, FirmwareOn, Print, Unambiguous, JsonSyntax.Show;
    SpacingDoesNotMatter(AllFields(c), l);
  }
}
