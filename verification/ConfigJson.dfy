/**
 * The printed configuration is a JSON object: its brackets, commas and colons are all there, and any reader
 * sees its fields.
 */
module ConfigJson {
  import opened Wrappers
  import opened Bytes
  import opened CStrings
  import opened JsonText
  import opened JsonSyntax
  import opened Config

  // ----- The configuration as a value

  function DayNums(days: byte, d: nat): seq<Json>
    requires d <= 7
    decreases 7 - d
  {
    if d == 7 then [] else (if Bit(days, d) then [Num(d)] else []) + DayNums(days, d + 1)
  }

  function AppFields(apps: seq<App>): seq<Field> {
    if apps == [] then [] else [Field(apps[0].name, Flag(apps[0].enabled))] + AppFields(apps[1..])
  }

  function DialogIn(c: Config): seq<Field> {
    [Field("dialog_wait_sec", Num(c.dialogWait))]
  }

  function IntervalIn(c: Config): seq<Field> {
    [Field("retry_interval_sec", Num(c.retryInterval))] + DialogIn(c)
  }

  function RetryIn(c: Config): seq<Field> {
    [Field("retry_count", Num(c.retryCount))] + IntervalIn(c)
  }

  function KeystrokeIn(c: Config): seq<Field> {
    [Field("keystroke_ms", Num(c.keystroke))] + RetryIn(c)
  }

  function WakeIn(c: Config): seq<Field> {
    [Field("wake_wait_sec", Num(c.wakeWait))] + KeystrokeIn(c)
  }

  function BootIn(c: Config): seq<Field> {
    [Field("boot_wait_sec", Num(c.bootWait))] + WakeIn(c)
  }

  function DaysIn(c: Config): seq<Field> {
    [Field("days", List(DayNums(c.days, 0)))]
  }

  function TimeIn(c: Config): seq<Field> {
    [Field("time", Text(Dec2(c.hour) + ":" + Dec2(c.min)))] + DaysIn(c)
  }

  function WifiFields(c: Config): seq<Field> {
    if c.ssid == "" then [] else [Field("wifi", Obj([Field("ssid", Text(c.ssid))]))]
  }

  function AppsOn(c: Config): seq<Field>
    requires InMemory(c)
  {
    [Field("apps", Obj(AppFields(Listed(c))))] + WifiFields(c)
  }

  function TimingOn(c: Config): seq<Field>
    requires InMemory(c)
  {
    [Field("timing", Obj(BootIn(c)))] + AppsOn(c)
  }

  function ScheduleOn(c: Config): seq<Field>
    requires InMemory(c)
  {
    [Field("schedule", Obj(TimeIn(c)))] + TimingOn(c)
  }

  function LocaleOn(c: Config): seq<Field>
    requires InMemory(c)
  {
    [Field("locale", Text(c.locale))] + ScheduleOn(c)
  }

  function DeviceOn(c: Config): seq<Field>
    requires InMemory(c)
  {
    [Field("device", Text(c.device))] + LocaleOn(c)
  }

  function FirmwareOn(c: Config): seq<Field>
    requires InMemory(c)
  {
    [Field("firmware", Text(c.firmware))] + DeviceOn(c)
  }

  /** All fields of the configuration's object. */
  function AllFields(c: Config): seq<Field>
    requires InMemory(c)
  {
    [Field("version", Num(c.version))] + FirmwareOn(c)
  }

  function AsJson(c: Config): Json
    requires InMemory(c)
  {
    Obj(AllFields(c))
  }

  // ----- Compact texts of fields

  /** The members of an object, without its braces. */
  function Members(fields: seq<Field>): string {
    Render(FieldToks(fields, COMPACT))
  }

  function Compact(v: Json): string {
    JsonSyntax.Show(v, COMPACT)
  }

  lemma OneMember(f: Field, rest: string)
    ensures Members([f]) + rest == Quoted(f.key) + (":" + (Compact(f.value) + rest))
  {
    hide Render, ValueToks, JsonSyntax.Show;
    FieldText(f, COMPACT, rest);
    assert "" + (JsonSyntax.Show(f.value, COMPACT) + rest) == JsonSyntax.Show(f.value, COMPACT) + rest;
  }

  lemma NextMember(f: Field, more: seq<Field>, rest: string)
    requires more != []
    ensures Members([f] + more) + rest == Quoted(f.key) + (":" + (Compact(f.value) + ("," + (Members(more) + rest))))
  {
    hide Render, ValueToks, FieldTok, JsonSyntax.Show;
    var fields, tail := [f] + more, Members(more) + rest;
    assert fields[1..] == more;
    FieldsText(fields, COMPACT, rest);
    assert "" + tail == tail;
    FieldText(f, COMPACT, "," + tail);
    assert "" + (JsonSyntax.Show(f.value, COMPACT) + ("," + tail)) == JsonSyntax.Show(f.value, COMPACT) + ("," + tail);
  }

  lemma CompactObject(fields: seq<Field>, rest: string)
    ensures Compact(Obj(fields)) + rest == "{" + (Members(fields) + ("}" + rest))
  {
    hide Render, FieldToks;
    BracketText("{", FieldToks(fields, COMPACT), "}", "", "", rest);
    assert "" + (Members(fields) + ("" + ("}" + rest))) == Members(fields) + ("}" + rest);
  }

  lemma CompactList(items: seq<Json>, rest: string)
    ensures Compact(List(items)) + rest == "[" + (Render(ItemToks(items, COMPACT)) + ("]" + rest))
  {
    hide Render, ItemToks;
    var inner := Render(ItemToks(items, COMPACT));
    BracketText("[", ItemToks(items, COMPACT), "]", "", "", rest);
    assert "" + (inner + ("" + ("]" + rest))) == inner + ("]" + rest);
  }

  lemma CompactLeaf(v: Json)
    requires v.Num? || v.Text? || v.Flag?
    ensures Compact(v) ==
      match v case Num(n) => DecInt(n) case Text(s) => Quoted(s) case Flag(b) => Bool(b) case _ => ""
  {
    match v
    case Num(n) => RenderTok(Raw(DecInt(n)));
    case Text(s) => RenderTok(Str(s));
    case Flag(b) => RenderTok(Raw(Bool(b)));
  }

  // ----- Section by section, from the end

  lemma {:induction false} AppsAreMembers(apps: seq<App>, first: bool)
    ensures Render(AppToks(apps, first)) == (if first || apps == [] then "" else ",") + Members(AppFields(apps))
  {
    if apps == [] {
      assert AppToks(apps, first) == [] && FieldToks(AppFields(apps), COMPACT) == [];
    } else {
      var app, more := apps[0], apps[1..];
      var f := Field(app.name, Flag(app.enabled));
      hide Render, ValueToks, Quoted;
      AppsAreMembers(more, false);
      CompactLeaf(Flag(app.enabled));
      AppFieldText(app, first, AppToks(more, false));
      if more == [] {
        OneMember(f, "");
        NoMembers();
        assert AppFields(apps) == [f];
        Ends(Members([f]), Quoted(app.name), Bool(app.enabled));
      } else {
        NextMember(f, AppFields(more), "");
        NextEnds(Members([f] + AppFields(more)), Quoted(app.name), Bool(app.enabled), Members(AppFields(more)));
      }
    }
  }

  lemma NoMembers()
    ensures Members([]) == ""
  {}

  lemma Ends(whole: string, key: string, value: string)
    requires whole + "" == key + (":" + (value + ""))
    ensures whole == key + (":" + (value + ""))
  {
    assert whole + "" == whole;
  }

  lemma NextEnds(whole: string, key: string, value: string, more: string)
    requires whole + "" == key + (":" + (value + ("," + (more + ""))))
    ensures whole == key + (":" + (value + ("," + more)))
  {
    assert whole + "" == whole && more + "" == more;
  }

  lemma WifiIsMembers(c: Config)
    ensures Render(FromWifi(c)) == (if c.ssid == "" then "" else ",") + (Members(WifiFields(c)) + "}")
  {
    if c.ssid == "" {
      NoMembers();
      RenderTok(Raw("}"));
    } else {
      var inner := [Field("ssid", Text(c.ssid))];
      var value := [Str("ssid"), Raw(":"), Str(c.ssid), Raw("}")] + [Raw("}")];
      RenderOne(Raw(","), Open("wifi", ":{") + value);
      OpenText("wifi", ":{", value);
      RenderFour(Str("ssid"), Raw(":"), Str(c.ssid), Raw("}"), [Raw("}")]);
      RenderTok(Raw("}"));
      hide Render, ValueToks, Quoted;
      OneMember(Field("wifi", Obj(inner)), "}");
      CompactObject(inner, "}");
      CompactLeaf(Text(c.ssid));
      OneMember(inner[0], "}" + "}");
      Brace(Quoted("wifi"), Quoted("ssid") + (":" + (Quoted(c.ssid) + ("}" + "}"))));
    }
  }

  lemma Brace(key: string, rest: string)
    ensures key + (":{" + rest) == key + (":" + ("{" + rest))
  {
    assert ":{" == ":" + "{";
  }

  lemma AppsAreOn(c: Config)
    requires InMemory(c)
    ensures Render(FromApps(c)) == Members(AppsOn(c)) + "}"
  {
    hide Quoted, AppFields;
    var apps, tail := AppToks(Listed(c), true), [Raw("}")] + FromWifi(c);
    var f := Field("apps", Obj(AppFields(Listed(c))));
    OpenText("apps", ":{", apps + tail);
    RenderAppend(apps, tail);
    RenderOne(Raw("}"), FromWifi(c));
    AppsAreMembers(Listed(c), true);
    WifiIsMembers(c);
    hide Render, ValueToks, AppToks, FromWifi;
    var inner := Members(AppFields(Listed(c)));
    assert "" + inner == inner;
    if c.ssid == "" {
      NoMembers();
      assert "" + ("" + "}") == "}" && AppsOn(c) == [f];
      OneMember(f, "}");
      CompactObject(AppFields(Listed(c)), "}");
      Brace(Quoted("apps"), inner + ("}" + "}"));
    } else {
      var more := Members(WifiFields(c)) + "}";
      NextMember(f, WifiFields(c), "}");
      CompactObject(AppFields(Listed(c)), "," + more);
      Brace(Quoted("apps"), inner + ("}" + ("," + more)));
    }
  }

  /** A number member, with what follows it. */
  lemma NumberMember(key: string, n: nat, rest: string)
    ensures Quoted(key) + (":" + (Compact(Num(n)) + rest)) == Quoted(key) + (":" + (Dec(n) + rest))
  {
    CompactLeaf(Num(n));
  }

  lemma NumThen(key: string, n: nat, more: seq<Field>, from: seq<Tok>, rest: string)
    requires more != [] && Render(from) == Members(more) + rest
    ensures Render(NumField(key, n, ",") + from) == Members([Field(key, Num(n))] + more) + rest
  {
    hide Render, ValueToks, Quoted;
    NumFieldText(key, n, ",", from);
    NextMember(Field(key, Num(n)), more, rest);
    NumberMember(key, n, "," + (Members(more) + rest));
  }

  lemma StrThen(key: string, text: string, more: seq<Field>, from: seq<Tok>, rest: string)
    requires more != [] && Render(from) == Members(more) + rest
    ensures Render(StrField(key, text) + from) == Members([Field(key, Text(text))] + more) + rest
  {
    hide Render, ValueToks, Quoted;
    StrFieldText(key, text, from);
    NextMember(Field(key, Text(text)), more, rest);
    CompactLeaf(Text(text));
  }

  /** The numbers of the timing object, with what follows its last brace. */
  lemma TimingMembers(c: Config, end: string)
    requires InMemory(c) && Render(FromApps(c)) == end
    ensures Render(FromBoot(c)) == Members(BootIn(c)) + ("}" + ("," + end))
  {
    var close := "}" + ("," + end);
    InnerSome(c);
    hide Render, ValueToks, Quoted, FieldToks, FromApps, InMemory;
    DialogMember(c, end);
    NumThen("retry_interval_sec", c.retryInterval, DialogIn(c), FromDialog(c), close);
    NumThen("retry_count", c.retryCount, IntervalIn(c), FromInterval(c), close);
    NumThen("keystroke_ms", c.keystroke, RetryIn(c), FromRetry(c), close);
    NumThen("wake_wait_sec", c.wakeWait, KeystrokeIn(c), FromKeystroke(c), close);
    NumThen("boot_wait_sec", c.bootWait, WakeIn(c), FromWake(c), close);
  }

  lemma DialogMember(c: Config, end: string)
    requires InMemory(c) && Render(FromApps(c)) == end
    ensures Render(FromDialog(c)) == Members(DialogIn(c)) + ("}" + ("," + end))
  {
    var close := "}" + ("," + end);
    hide Render, ValueToks, Quoted, FieldToks, FromApps, InMemory;
    NumFieldText("dialog_wait_sec", c.dialogWait, "},", FromApps(c));
    OneMember(DialogIn(c)[0], close);
    NumberMember("dialog_wait_sec", c.dialogWait, close);
    assert "}," + end == close;
  }

  lemma InnerSome(c: Config)
    ensures DialogIn(c) != [] && IntervalIn(c) != [] && RetryIn(c) != [] && KeystrokeIn(c) != [] && WakeIn(c) != []
  {}

  /** A section that is an object, and what follows it. */
  lemma SectionThen(key: string, inner: seq<Field>, more: seq<Field>, from: seq<Tok>)
    requires more != []
    requires Render(from) == Members(inner) + ("}" + ("," + (Members(more) + "}")))
    ensures Render(Open(key, ":{") + from) == Members([Field(key, Obj(inner))] + more) + "}"
  {
    hide Render, ValueToks, Quoted, FieldToks;
    var end := Members(more) + "}";
    OpenText(key, ":{", from);
    Brace(Quoted(key), Members(inner) + ("}" + ("," + end)));
    CompactObject(inner, "," + end);
    NextMember(Field(key, Obj(inner)), more, "}");
  }

  lemma TimingIsOn(c: Config)
    requires InMemory(c)
    ensures Render(FromTiming(c)) == Members(TimingOn(c)) + "}"
  {
    hide Render, ValueToks, Quoted, AppsOn, FieldToks, BootIn, FromBoot, FromApps, InMemory;
    AppsAreOn(c);
    TimingMembers(c, Members(AppsOn(c)) + "}");
    AppsOnSome(c);
    SectionThen("timing", BootIn(c), AppsOn(c), FromBoot(c));
  }

  lemma AppsOnSome(c: Config)
    requires InMemory(c)
    ensures AppsOn(c) != []
  {}

  lemma {:induction false} DaysAreItems(days: byte, d: nat, first: bool)
    requires d <= 7
    ensures Render(DayToks(days, d, first)) ==
      (if first || DayNums(days, d) == [] then "" else ",") + Render(ItemToks(DayNums(days, d), COMPACT))
    decreases 7 - d
  {
    hide Render, DayToks, DayNums, ItemToks;
    if d == 7 {
      NoDays(days, first);
    } else {
      DayNumsStep(days, d, first);
      if Bit(days, d) {
        DaysAreItems(days, d + 1, false);
        DayStep(days, d, first);
        DayItem(d, DayNums(days, d + 1));
      } else {
        DaysAreItems(days, d + 1, first);
      }
    }
  }

  lemma NoDays(days: byte, first: bool)
    ensures DayNums(days, 7) == [] && Render(DayToks(days, 7, first)) == "" && Render(ItemToks([], COMPACT)) == ""
  {}

  lemma DayNumsStep(days: byte, d: nat, first: bool)
    requires d < 7
    ensures DayNums(days, d) == if Bit(days, d) then [Num(d)] + DayNums(days, d + 1) else DayNums(days, d + 1)
    ensures Bit(days, d) || DayToks(days, d, first) == DayToks(days, d + 1, first)
  {}

  lemma DayStep(days: byte, d: nat, first: bool)
    requires d < 7 && Bit(days, d)
    ensures Render(DayToks(days, d, first)) ==
      (if first then "" else ",") + (Dec(d) + Render(DayToks(days, d + 1, false)))
  {
    hide Render, Dec;
    RenderTwo(Raw(if first then "" else ","), Raw(Dec(d)), DayToks(days, d + 1, false));
  }

  lemma DayItem(d: nat, more: seq<Json>)
    ensures Render(ItemToks([Num(d)] + more, COMPACT)) ==
      Dec(d) + ((if more == [] then "" else ",") + Render(ItemToks(more, COMPACT)))
  {
    var items := [Num(d)] + more;
    CompactLeaf(Num(d));
    if more == [] {
      assert ItemToks(items, COMPACT) == ValueToks(Num(d), COMPACT);
      assert Render(ItemToks(more, COMPACT)) == "";
      assert Dec(d) + ("" + "") == Dec(d);
    } else {
      hide Render, ValueToks, Dec;
      assert items[1..] == more;
      ItemsText(items, COMPACT, "");
      var x := Render(ItemToks(more, COMPACT));
      assert Render(ItemToks(items, COMPACT)) + "" == Render(ItemToks(items, COMPACT));
      assert "" + (x + "") == x;
    }
  }

  /** The days, with what follows the schedule's last brace. */
  lemma DaysMember(c: Config, end: string)
    requires InMemory(c) && Render(FromTiming(c)) == end
    ensures Render(FromDays(c)) == Members(DaysIn(c)) + ("}" + ("," + end))
  {
    var close := "}" + ("," + end);
    var days, tail := DayToks(c.days, 0, true), [Raw("]},")] + FromTiming(c);
    hide Render, ValueToks, Quoted, FieldToks, DayNums, DayToks, ItemToks, FromTiming, InMemory;
    DaysAreItems(c.days, 0, true);
    OpenText("days", ":[", days + tail);
    RenderAppend(days, tail);
    RenderOne(Raw("]},"), FromTiming(c));
    OneMember(DaysIn(c)[0], close);
    CompactList(DayNums(c.days, 0), close);
    SquareBrace(Quoted("days"), Render(ItemToks(DayNums(c.days, 0), COMPACT)), end);
  }

  lemma ScheduleIsOn(c: Config)
    requires InMemory(c)
    ensures Render(FromSchedule(c)) == Members(ScheduleOn(c)) + "}"
  {
    var end := Members(TimingOn(c)) + "}";
    hide Render, ValueToks, Quoted, TimingOn, FieldToks, DaysIn, FromDays, FromTiming, Dec2, InMemory;
    TimingIsOn(c);
    DaysMember(c, end);
    DaysInSome(c);
    StrThen("time", Dec2(c.hour) + ":" + Dec2(c.min), DaysIn(c), FromDays(c), "}" + ("," + end));
    TimingOnSome(c);
    SectionThen("schedule", TimeIn(c), TimingOn(c), FromTime(c));
  }

  lemma DaysInSome(c: Config)
    ensures DaysIn(c) != []
  {}

  lemma SquareBrace(key: string, inner: string, end: string)
    ensures key + (":[" + (("" + inner) + ("]}," + end))) == key + (":" + ("[" + (inner + ("]" + ("}" + ("," + end))))))
  {
    assert ":[" == ":" + "[" && "]}," == "]" + ("}" + ",") && "" + inner == inner;
  }

  lemma TimingOnSome(c: Config)
    requires InMemory(c)
    ensures TimingOn(c) != []
  {}

  /** `config_to_json` writes the configuration as one JSON object. */
  lemma PrintIsShown(c: Config)
    requires InMemory(c)
    ensures Print(c) == Compact(AsJson(c))
  {
    TopSome(c);
    hide Render, ValueToks, Quoted, ScheduleOn;
    ScheduleIsOn(c);
    StrThen("locale", c.locale, ScheduleOn(c), FromSchedule(c), "}");
    StrThen("device", c.device, LocaleOn(c), FromLocale(c), "}");
    StrThen("firmware", c.firmware, DeviceOn(c), FromDevice(c), "}");
    NumThen("version", c.version, FirmwareOn(c), FromFirmware(c), "}");
    RenderOne(Raw("{"), NumField("version", c.version, ",") + FromFirmware(c));
    CompactObject(AllFields(c), "");
    assert "}" + "" == "}" && Compact(AsJson(c)) + "" == Compact(AsJson(c));
  }

  lemma TopSome(c: Config)
    requires InMemory(c)
    ensures ScheduleOn(c) != [] && LocaleOn(c) != [] && DeviceOn(c) != [] && FirmwareOn(c) != []
  {}

  // ----- So any reader sees it

  /** No string of the configuration holds a quote, a backslash or a control character. */
  predicate NeedsNoEscapes(c: Config)
    requires InMemory(c)
  {
    Clear(c.firmware) && Clear(c.device) && Clear(c.locale) && Clear(c.ssid) &&
    forall i :: 0 <= i < |Listed(c)| ==> Clear(Listed(c)[i].name)
  }

  lemma {:induction false} AppsNoEscapes(apps: seq<App>)
    requires forall i :: 0 <= i < |apps| ==> Clear(apps[i].name)
    ensures NoEscapes(Obj(AppFields(apps)))
  {
    if apps != [] {
      AppsNoEscapes(apps[1..]);
    }
  }

  lemma {:induction false} DaysNoEscapes(days: byte, d: nat)
    requires d <= 7
    ensures NoEscapes(List(DayNums(days, d)))
    decreases 7 - d
  {
    if d < 7 {
      DaysNoEscapes(days, d + 1);
    }
  }

  /** The text is one JSON object and nothing else, and reading it gives exactly the configuration's fields. */
  lemma PrintIsJson(c: Config)
    requires InMemory(c) && NeedsNoEscapes(c)
    ensures ReadValue(Print(c)) == Some((AsJson(c), ""))
  {
    AsJsonNoEscapes(c);
    PrintIsShown(c);
    hide ReadValue, NoEscapes, AsJson, ValueToks;
    ReadsValue(AsJson(c), COMPACT, "", "");
    assert "" + (JsonSyntax.Show(AsJson(c), COMPACT) + "") == Print(c);
  }

  lemma ConsNoEscapes(f: Field, more: seq<Field>)
    requires Clear(f.key) && NoEscapes(f.value) && NoEscapes(Obj(more))
    ensures NoEscapes(Obj([f] + more))
  {}

  /** The keys are plain words. */
  lemma KeysAreClear()
    ensures Clear("version") && Clear("firmware") && Clear("device") && Clear("locale") && Clear("schedule")
    ensures Clear("timing") && Clear("apps") && Clear("wifi") && Clear("ssid") && Clear("time") && Clear("days")
  {}

  lemma TimingKeysAreClear()
    ensures Clear("boot_wait_sec") && Clear("wake_wait_sec") && Clear("keystroke_ms")
    ensures Clear("retry_count") && Clear("retry_interval_sec") && Clear("dialog_wait_sec")
  {}

  lemma NumNoEscapes(key: string, n: nat, more: seq<Field>)
    requires Clear(key) && NoEscapes(Obj(more))
    ensures NoEscapes(Obj([Field(key, Num(n))] + more))
  {
    ConsNoEscapes(Field(key, Num(n)), more);
  }

  lemma NoneNoEscapes()
    ensures NoEscapes(Obj([]))
  {}

  lemma TimingNoEscapes(c: Config)
    ensures NoEscapes(Obj(BootIn(c)))
  {
    TimingKeysAreClear();
    NoneNoEscapes();
    hide Clear, NoEscapes;
    NumNoEscapes("dialog_wait_sec", c.dialogWait, []);
    assert DialogIn(c) == [Field("dialog_wait_sec", Num(c.dialogWait))] + [];
    NumNoEscapes("retry_interval_sec", c.retryInterval, DialogIn(c));
    NumNoEscapes("retry_count", c.retryCount, IntervalIn(c));
    NumNoEscapes("keystroke_ms", c.keystroke, RetryIn(c));
    NumNoEscapes("wake_wait_sec", c.wakeWait, KeystrokeIn(c));
    NumNoEscapes("boot_wait_sec", c.bootWait, WakeIn(c));
  }

  lemma TimeNoEscapes(c: Config)
    ensures NoEscapes(Text(Dec2(c.hour) + ":" + Dec2(c.min)))
  {
    hide Dec2;
  }

  lemma ScheduleNoEscapes(c: Config)
    ensures NoEscapes(Obj(TimeIn(c)))
  {
    KeysAreClear();
    NoneNoEscapes();
    DaysNoEscapes(c.days, 0);
    TimeNoEscapes(c);
    hide Clear, NoEscapes, DayNums, Dec2;
    ConsNoEscapes(Field("days", List(DayNums(c.days, 0))), []);
    assert DaysIn(c) == [Field("days", List(DayNums(c.days, 0)))] + [];
    ConsNoEscapes(Field("time", Text(Dec2(c.hour) + ":" + Dec2(c.min))), DaysIn(c));
  }

  lemma WifiNoEscapes(c: Config)
    requires Clear(c.ssid)
    ensures NoEscapes(Obj(WifiFields(c)))
  {
    KeysAreClear();
    NoneNoEscapes();
    var inner := [Field("ssid", Text(c.ssid))];
    assert NoEscapes(Text(c.ssid));
    hide Clear, NoEscapes;
    if c.ssid != "" {
      ConsNoEscapes(inner[0], []);
      assert inner == inner + [];
      ConsNoEscapes(Field("wifi", Obj(inner)), []);
      assert WifiFields(c) == [Field("wifi", Obj(inner))] + [];
    }
  }

  lemma AsJsonNoEscapes(c: Config)
    requires InMemory(c) && NeedsNoEscapes(c)
    ensures NoEscapes(AsJson(c))
  {
    KeysAreClear();
    AppsNoEscapes(Listed(c));
    ScheduleNoEscapes(c);
    TimingNoEscapes(c);
    WifiNoEscapes(c);
    LeafNoEscapes(c);
    hide NoEscapes, Clear, TimeIn, BootIn, AppFields, WifiFields, InMemory;
    ConsNoEscapes(Field("apps", Obj(AppFields(Listed(c)))), WifiFields(c));
    ConsNoEscapes(Field("timing", Obj(BootIn(c))), AppsOn(c));
    ConsNoEscapes(Field("schedule", Obj(TimeIn(c))), TimingOn(c));
    ConsNoEscapes(Field("locale", Text(c.locale)), ScheduleOn(c));
    ConsNoEscapes(Field("device", Text(c.device)), LocaleOn(c));
    ConsNoEscapes(Field("firmware", Text(c.firmware)), DeviceOn(c));
    ConsNoEscapes(Field("version", Num(c.version)), FirmwareOn(c));
  }

  lemma LeafNoEscapes(c: Config)
    requires InMemory(c) && NeedsNoEscapes(c)
    ensures NoEscapes(Text(c.locale)) && NoEscapes(Text(c.device)) && NoEscapes(Text(c.firmware)) &&
      NoEscapes(Num(c.version))
  {}
}
