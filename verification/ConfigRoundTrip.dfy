/**
 * Printing a configuration and parsing the text gives it back, except the password: every `strstr` must land on its
 * own key, and the one family of inputs where it does not is singled out.
 */
module ConfigRoundTrip {
  import opened Wrappers
  import opened Bytes
  import opened CStrings
  import opened JsonText
  import opened Config
  import opened ConfigParser

  // ----- Hypotheses

  /** No string contains a quote; the text has no escapes. */
  predicate Clean(c: Config)
    requires InMemory(c)
  {
    QuoteFree(c.firmware) && QuoteFree(c.device) && QuoteFree(c.locale) && QuoteFree(c.ssid) &&
    forall i :: 0 <= i < |Listed(c)| ==> QuoteFree(Listed(c)[i].name)
  }

  /**
   * A firmware string "device" diverts the search for the device, and one or the other "locale" that for the
   * locale.
   */
  predicate DeviceDiverted(c: Config) {
    c.firmware == "device"
  }

  predicate LocaleDiverted(c: Config) {
    c.firmware == "locale" || c.device == "locale"
  }

  /** A top-level value is the name of a section, so the search for that section stops there. */
  predicate Named(c: Config, sec: string) {
    c.firmware == sec || c.device == sec || c.locale == sec
  }

  /** And a later value is the name of a key in it, so the search for that key stops at that value. */
  predicate Diverted(c: Config, sec: string, k: string) {
    if c.firmware == sec then c.device == k || c.locale == k else c.device == sec && c.locale == k
  }

  /** The SSID search starts at a value or app called "wifi" and stops at a later one called "ssid". */
  predicate SsidDiverted(c: Config)
    requires InMemory(c)
  {
    c.ssid != "" &&
    if Named(c, "wifi") then
      Diverted(c, "wifi", "ssid") || exists j :: 0 <= j < |Listed(c)| && Listed(c)[j].name == "ssid"
    else exists i, j :: 0 <= i < j < |Listed(c)| && Listed(c)[i].name == "wifi" && Listed(c)[j].name == "ssid"
  }

  /** The search for the days has stopped at the device, and the locale holds a bracket: it is taken for the list. */
  predicate DaysBracketed(c: Config) {
    c.firmware == "schedule" && c.device == "days" && '[' in c.locale
  }

  /** The search for the apps has stopped at a value, and a later one holds a brace: it is taken for the object. */
  predicate AppsBracketed(c: Config) {
    if c.firmware == "apps" then '{' in c.device || '{' in c.locale else c.device == "apps" && '{' in c.locale
  }

  /** Equal but for the password, which comes back empty, and apps beyond the count. */
  predicate SameConfig(c: Config, d: Config) {
    InMemory(c) && InMemory(d) && d == c.(apps := d.apps, password := "") && Listed(d) == Listed(c)
  }

  predicate RoundTrips(c: Config)
    requires InMemory(c)
  {
    FromJson(Print(c)).Some? && SameConfig(c, FromJson(Print(c)).value)
  }

  // ----- The printed tokens are well formed

  lemma WellFormedAppend(a: seq<Tok>, b: seq<Tok>)
    requires WellFormed(a) && WellFormed(b)
    ensures WellFormed(a + b)
  {
    forall i | 0 <= i < |a + b| ensures Fits(a + b, i) {
      if i < |a| {
        assert Fits(a, i);
      } else {
        assert Fits(b, i - |a|);
      }
    }
  }

  lemma NumFieldFits(key: string, n: nat, end: string, rest: seq<Tok>)
    requires QuoteFree(key) && QuoteFree(end) && WellFormed(rest)
    ensures WellFormed(NumField(key, n, end) + rest)
  {
    assert QuoteFree(Dec(n));
    WellFormedAppend(NumField(key, n, end), rest);
  }

  lemma StrFieldFits(key: string, text: string, rest: seq<Tok>)
    requires QuoteFree(key) && QuoteFree(text) && WellFormed(rest)
    ensures WellFormed(StrField(key, text) + rest)
  {
    WellFormedAppend(StrField(key, text), rest);
  }

  lemma OpenFits(key: string, bracket: string, rest: seq<Tok>)
    requires QuoteFree(key) && QuoteFree(bracket) && bracket != "" && !Letter(bracket[0]) && WellFormed(rest)
    ensures WellFormed(Open(key, bracket) + rest)
  {
    WellFormedAppend(Open(key, bracket), rest);
  }

  lemma {:induction false} AppToksFit(apps: seq<App>, first: bool)
    requires forall i :: 0 <= i < |apps| ==> QuoteFree(apps[i].name)
    ensures WellFormed(AppToks(apps, first))
  {
    if apps != [] {
      AppToksFit(apps[1..], false);
      WellFormedAppend(AppField(apps[0], first), AppToks(apps[1..], false));
    }
  }

  lemma {:induction false} DayToksFit(days: byte, d: nat, first: bool)
    requires d <= 7
    ensures WellFormed(DayToks(days, d, first))
    decreases 7 - d
  {
    if d < 7 {
      DayToksFit(days, d + 1, false);
      DayToksFit(days, d + 1, first);
      if Bit(days, d) {
        assert QuoteFree(Dec(d));
        WellFormedAppend([Raw(if first then "" else ","), Raw(Dec(d))], DayToks(days, d + 1, false));
      }
    }
  }

  lemma WifiFits(c: Config)
    requires QuoteFree(c.ssid)
    ensures WellFormed(FromWifi(c))
  {
    if c.ssid != "" {
      var value := [Str("ssid"), Raw(":"), Str(c.ssid), Raw("}")] + [Raw("}")];
      assert WellFormed(value);
      OpenFits("wifi", ":{", value);
      WellFormedAppend([Raw(",")], Open("wifi", ":{") + value);
    }
  }

  lemma AppsFit(c: Config)
    requires InMemory(c) && Clean(c)
    ensures WellFormed(FromApps(c)) && WellFormed(FromWifi(c))
    ensures WellFormed(AppToks(Listed(c), true) + ([Raw("}")] + FromWifi(c)))
  {
    WifiFits(c);
    AppToksFit(Listed(c), true);
    WellFormedAppend([Raw("}")], FromWifi(c));
    WellFormedAppend(AppToks(Listed(c), true), [Raw("}")] + FromWifi(c));
    OpenFits("apps", ":{", AppToks(Listed(c), true) + ([Raw("}")] + FromWifi(c)));
  }

  lemma TimingFits(c: Config)
    requires InMemory(c) && Clean(c)
    ensures WellFormed(FromTiming(c))
  {
    AppsFit(c);
    NumFieldFits("dialog_wait_sec", c.dialogWait, "},", FromApps(c));
    NumFieldFits("retry_interval_sec", c.retryInterval, ",", FromDialog(c));
    NumFieldFits("retry_count", c.retryCount, ",", FromInterval(c));
    NumFieldFits("keystroke_ms", c.keystroke, ",", FromRetry(c));
    NumFieldFits("wake_wait_sec", c.wakeWait, ",", FromKeystroke(c));
    NumFieldFits("boot_wait_sec", c.bootWait, ",", FromWake(c));
    OpenFits("timing", ":{", FromBoot(c));
  }

  lemma DaysFit(c: Config)
    requires InMemory(c) && Clean(c)
    ensures WellFormed(FromDays(c)) && WellFormed([Raw("]},")] + FromTiming(c))
  {
    var tail := [Raw("]},")] + FromTiming(c);
    TimingFits(c);
    WellFormedAppend([Raw("]},")], FromTiming(c));
    DayToksFit(c.days, 0, true);
    WellFormedAppend(DayToks(c.days, 0, true), tail);
    OpenFits("days", ":[", DayToks(c.days, 0, true) + tail);
  }

  lemma ScheduleFits(c: Config)
    requires InMemory(c) && Clean(c)
    ensures WellFormed(FromSchedule(c))
  {
    DaysFit(c);
    TimeIsQuoteFree(c.hour, c.min);
    StrFieldFits("time", Dec2(c.hour) + ":" + Dec2(c.min), FromDays(c));
    OpenFits("schedule", ":{", FromTime(c));
  }

  lemma TimeIsQuoteFree(h: nat, m: nat)
    ensures QuoteFree(Dec2(h) + ":" + Dec2(m))
  {}

  lemma ToksFit(c: Config)
    requires InMemory(c) && Clean(c)
    ensures WellFormed(Toks(c))
  {
    ScheduleFits(c);
    StrFieldFits("locale", c.locale, FromSchedule(c));
    StrFieldFits("device", c.device, FromLocale(c));
    StrFieldFits("firmware", c.firmware, FromDevice(c));
    NumFieldFits("version", c.version, ",", FromFirmware(c));
    WellFormedAppend([Raw("{")], NumField("version", c.version, ",") + FromFirmware(c));
  }

  // ----- Where the searches land

  lemma SkipNum(key: string, n: nat, end: string, rest: seq<Tok>, k: string)
    requires k != key
    ensures FirstStr(NumField(key, n, end) + rest, k) == FirstStr(rest, k)
  {
    SkipSection(NumField(key, n, end), rest, k);
  }

  lemma SkipStr(key: string, text: string, rest: seq<Tok>, k: string)
    requires k != key && k != text
    ensures FirstStr(StrField(key, text) + rest, k) == FirstStr(rest, k)
  {
    SkipSection(StrField(key, text), rest, k);
  }

  lemma SkipOpen(key: string, bracket: string, rest: seq<Tok>, k: string)
    requires k != key
    ensures FirstStr(Open(key, bracket) + rest, k) == FirstStr(rest, k)
  {
    SkipSection(Open(key, bracket), rest, k);
  }

  lemma SkipRaw(text: string, rest: seq<Tok>, k: string)
    ensures FirstStr([Raw(text)] + rest, k) == FirstStr(rest, k)
  {
    SkipSection([Raw(text)], rest, k);
  }

  /** From the start to the schedule, for any later key. */
  lemma SkipTop(c: Config, k: string)
    requires InMemory(c) && k !in ["version", "firmware", "device", "locale", c.firmware, c.device, c.locale]
    ensures FirstStr(Toks(c), k) == FirstStr(FromSchedule(c), k)
  {
    hide FirstStr;
    SkipRaw("{", NumField("version", c.version, ",") + FromFirmware(c), k);
    SkipNum("version", c.version, ",", FromFirmware(c), k);
    SkipStr("firmware", c.firmware, FromDevice(c), k);
    SkipStr("device", c.device, FromLocale(c), k);
    SkipStr("locale", c.locale, FromSchedule(c), k);
  }

  /** From the schedule to the timing object. */
  lemma SkipSchedule(c: Config, k: string)
    requires InMemory(c) && KeyLike(k) && k !in ["schedule", "time", "days"]
    ensures FirstStr(FromSchedule(c), k) == FirstStr(FromTiming(c), k)
  {
    hide FirstStr;
    var time, tail := Dec2(c.hour) + ":" + Dec2(c.min), [Raw("]},")] + FromTiming(c);
    SkipOpen("schedule", ":{", FromTime(c), k);
    assert time[0] == Dec2(c.hour)[0] && k != time;
    SkipStr("time", time, FromDays(c), k);
    SkipOpen("days", ":[", DayToks(c.days, 0, true) + tail, k);
    SkipSection(DayToks(c.days, 0, true), tail, k);
    SkipRaw("]},", FromTiming(c), k);
  }

  const TIMING_KEYS := ["boot_wait_sec", "wake_wait_sec", "keystroke_ms", "retry_count", "retry_interval_sec",
    "dialog_wait_sec"]

  /** From the timing object to the apps. */
  lemma SkipTiming(c: Config, k: string)
    requires InMemory(c) && k != "timing" && k !in TIMING_KEYS
    ensures FirstStr(FromTiming(c), k) == FirstStr(FromApps(c), k)
  {
    hide FirstStr;
    assert k != TIMING_KEYS[0] && k != TIMING_KEYS[1] && k != TIMING_KEYS[2];
    assert k != TIMING_KEYS[3] && k != TIMING_KEYS[4] && k != TIMING_KEYS[5];
    SkipOpen("timing", ":{", FromBoot(c), k);
    SkipNum("boot_wait_sec", c.bootWait, ",", FromWake(c), k);
    SkipNum("wake_wait_sec", c.wakeWait, ",", FromKeystroke(c), k);
    SkipNum("keystroke_ms", c.keystroke, ",", FromRetry(c), k);
    SkipNum("retry_count", c.retryCount, ",", FromInterval(c), k);
    SkipNum("retry_interval_sec", c.retryInterval, ",", FromDialog(c), k);
    SkipNum("dialog_wait_sec", c.dialogWait, "},", FromApps(c), k);
  }

  lemma HitNum(key: string, n: nat, end: string, rest: seq<Tok>)
    ensures FirstStr(NumField(key, n, end) + rest, key) == Some(NumField(key, n, end) + rest)
  {}

  lemma HitStr(key: string, text: string, rest: seq<Tok>)
    ensures FirstStr(StrField(key, text) + rest, key) == Some(StrField(key, text) + rest)
  {}

  lemma HitOpen(key: string, bracket: string, rest: seq<Tok>)
    ensures FirstStr(Open(key, bracket) + rest, key) == Some(Open(key, bracket) + rest)
  {}

  // ----- What is read there

  lemma QuotedSplits(text: string, after: string)
    ensures Quoted(text) + after == [QUOTE] + (text + ([QUOTE] + after))
  {}

  lemma SkipOneColon(x: string)
    requires x != "" && x[0] != ' ' && x[0] != ':'
    ensures SkipColons(":" + x) == x
  {
    assert (":" + x)[1..] == x;
  }

  lemma KeyText(ts: seq<Tok>, k: string, found: seq<Tok>, after: string)
    requires WellFormed(ts) && KeyLike(k) && FirstStr(ts, k) == Some(found)
    requires Render(found) == Quoted(k) + after
    ensures FindKey(Render(ts), k) == Some(SkipColons(after))
  {
    FindKeyToken(ts, k);
    assert (Quoted(k) + after)[|k| + 2..] == after;
  }

  lemma ReadInt(ts: seq<Tok>, k: string, n: nat, end: string, rest: seq<Tok>, def: int)
    requires WellFormed(ts) && KeyLike(k) && FirstStr(ts, k) == Some(NumField(k, n, end) + rest)
    requires n <= INT_MAX && end != "" && !IsDigit(end[0])
    ensures GetInt(Render(ts), k, def) == n
  {
    var after := end + Render(rest);
    NumFieldText(k, n, end, rest);
    KeyText(ts, k, NumField(k, n, end) + rest, ":" + (Dec(n) + after));
    SkipOneColon(Dec(n) + after);
    AtoiOfDec(n, after);
  }

  lemma ReadStr(ts: seq<Tok>, k: string, text: string, rest: seq<Tok>, after: string, prior: string, max: nat)
    requires WellFormed(ts) && KeyLike(k) && FirstStr(ts, k) == Some(rest)
    requires Render(rest) == Quoted(k) + (":" + (Quoted(text) + after))
    requires QuoteFree(text) && |text| <= max
    ensures GetStr(Render(ts), k, prior, max) == text
  {
    hide FirstStr, WellFormed, Render, FindKey, TakeText;
    var q, tail := Quoted(text) + after, text + [QUOTE] + after;
    assert q == [QUOTE] + tail;
    SkipOneColon(q);
    KeyText(ts, k, rest, ":" + q);
    assert FindKey(Render(ts), k) == Some(q);
    assert q[1..] == tail;
    TakeTextStops(text, after, max);
  }

  /** A key followed by anything but a quoted string leaves the field as it was. */
  lemma ReadNoStr(ts: seq<Tok>, k: string, rest: seq<Tok>, after: string, prior: string, max: nat)
    requires WellFormed(ts) && KeyLike(k) && FirstStr(ts, k) == Some(rest)
    requires Render(rest) == Quoted(k) + after
    requires SkipColons(after) == "" || SkipColons(after)[0] != QUOTE
    ensures GetStr(Render(ts), k, prior, max) == prior
  {
    KeyText(ts, k, rest, after);
  }

  lemma ReadMissing(ts: seq<Tok>, k: string, prior: string, max: nat)
    requires WellFormed(ts) && KeyLike(k) && FirstStr(ts, k) == None
    ensures GetStr(Render(ts), k, prior, max) == prior
  {
    FindKeyToken(ts, k);
  }

  // ----- Field by field

  /** Skips the brace and the version. */
  lemma SkipVersion(c: Config, k: string)
    requires InMemory(c) && k != "version"
    ensures FirstStr(Toks(c), k) == FirstStr(FromFirmware(c), k)
  {
    hide FirstStr;
    SkipRaw("{", NumField("version", c.version, ",") + FromFirmware(c), k);
    SkipNum("version", c.version, ",", FromFirmware(c), k);
  }

  lemma VersionReads(c: Config)
    requires InMemory(c) && Clean(c)
    ensures GetInt(Print(c), "version", 2) == c.version
  {
    hide GetInt, Render, FirstStr, WellFormed;
    ToksFit(c);
    SkipRaw("{", NumField("version", c.version, ",") + FromFirmware(c), "version");
    HitNum("version", c.version, ",", FromFirmware(c));
    ReadInt(Toks(c), "version", c.version, ",", FromFirmware(c), 2);
  }

  lemma FieldReads(c: Config, k: string, text: string, rest: seq<Tok>, prior: string, max: nat)
    requires InMemory(c) && Clean(c) && KeyLike(k) && QuoteFree(text) && |text| <= max
    requires FirstStr(Toks(c), k) == Some(StrField(k, text) + rest)
    ensures GetStr(Print(c), k, prior, max) == text
  {
    ToksFit(c);
    StrFieldText(k, text, rest);
    ReadStr(Toks(c), k, text, StrField(k, text) + rest, "," + Render(rest), prior, max);
  }

  lemma FirmwareReads(c: Config, prior: string)
    requires InMemory(c) && Clean(c)
    ensures GetStr(Print(c), "firmware", prior, FIRMWARE_LEN - 1) == c.firmware
  {
    hide GetStr, Render, FirstStr, WellFormed, Print;
    SkipVersion(c, "firmware");
    HitStr("firmware", c.firmware, FromDevice(c));
    FieldReads(c, "firmware", c.firmware, FromDevice(c), prior, FIRMWARE_LEN - 1);
  }

  lemma DeviceReads(c: Config, prior: string)
    requires InMemory(c) && Clean(c) && c.firmware != "device"
    ensures GetStr(Print(c), "device", prior, DEVICE_LEN - 1) == c.device
  {
    hide GetStr, Render, FirstStr, WellFormed, Print;
    SkipVersion(c, "device");
    SkipStr("firmware", c.firmware, FromDevice(c), "device");
    HitStr("device", c.device, FromLocale(c));
    FieldReads(c, "device", c.device, FromLocale(c), prior, DEVICE_LEN - 1);
  }

  /** With a firmware string "device" the search stops there and the device keeps its default. */
  lemma DeviceHijacked(c: Config, prior: string)
    requires InMemory(c) && Clean(c) && c.firmware == "device"
    ensures GetStr(Print(c), "device", prior, DEVICE_LEN - 1) == prior
  {
    hide GetStr, Render, FirstStr, WellFormed, Print;
    SkipVersion(c, "device");
    ValueFound("firmware", c.firmware, FromDevice(c));
    ValueHijacks(c, "device", FromDevice(c), prior, DEVICE_LEN - 1);
  }

  /** A value equal to the key is found before the key. */
  lemma ValueFound(key: string, text: string, rest: seq<Tok>)
    requires key != text
    ensures FirstStr(StrField(key, text) + rest, text) == Some([Str(text), Raw(",")] + rest)
  {
    var found := [Str(text), Raw(",")] + rest;
    assert StrField(key, text) + rest == [Str(key), Raw(":")] + found;
    SkipSection([Str(key), Raw(":")], found, text);
  }

  lemma CommaStops(x: string)
    ensures SkipColons("," + x) == "," + x && ("," + x)[0] == ','
  {}

  lemma ValueHijacks(c: Config, k: string, rest: seq<Tok>, prior: string, max: nat)
    requires InMemory(c) && Clean(c) && KeyLike(k)
    requires FirstStr(Toks(c), k) == Some([Str(k), Raw(",")] + rest)
    ensures GetStr(Print(c), k, prior, max) == prior
  {
    hide GetStr, FirstStr, Clean, InMemory, WellFormed, Render, SkipColons, KeyLike;
    var after := "," + Render(rest);
    ToksFit(c);
    RenderTwo(Str(k), Raw(","), rest);
    CommaStops(Render(rest));
    ReadNoStr(Toks(c), k, [Str(k), Raw(",")] + rest, after, prior, max);
  }

  lemma LocaleReads(c: Config, prior: string)
    requires InMemory(c) && Clean(c) && c.firmware != "locale" && c.device != "locale"
    ensures GetStr(Print(c), "locale", prior, LOCALE_LEN - 1) == c.locale
  {
    hide GetStr, Render, FirstStr, WellFormed, Print;
    SkipVersion(c, "locale");
    SkipStr("firmware", c.firmware, FromDevice(c), "locale");
    SkipStr("device", c.device, FromLocale(c), "locale");
    HitStr("locale", c.locale, FromSchedule(c));
    FieldReads(c, "locale", c.locale, FromSchedule(c), prior, LOCALE_LEN - 1);
  }

  /** With a device string "locale", or a firmware string "locale", the locale keeps its default. */
  lemma LocaleHijacked(c: Config, prior: string)
    requires InMemory(c) && Clean(c) && (c.firmware == "locale" || c.device == "locale")
    ensures GetStr(Print(c), "locale", prior, LOCALE_LEN - 1) == prior
  {
    hide GetStr, Render, FirstStr, WellFormed, Print;
    SkipVersion(c, "locale");
    if c.firmware == "locale" {
      ValueFound("firmware", c.firmware, FromDevice(c));
      ValueHijacks(c, "locale", FromDevice(c), prior, LOCALE_LEN - 1);
    } else {
      SkipStr("firmware", c.firmware, FromDevice(c), "locale");
      ValueFound("device", c.device, FromLocale(c));
      ValueHijacks(c, "locale", FromLocale(c), prior, LOCALE_LEN - 1);
    }
  }

  // ----- Timing

  /** Where the search for a section ends: at a value of that name, or at its key. */
  function SectionAt(c: Config, sec: string, key: seq<Tok>): seq<Tok>
    requires InMemory(c)
  {
    if c.firmware == sec then [Str(sec), Raw(",")] + FromDevice(c)
    else if c.device == sec then [Str(sec), Raw(",")] + FromLocale(c)
    else if c.locale == sec then [Str(sec), Raw(",")] + FromSchedule(c)
    else key
  }

  const TOP_KEYS := ["version", "firmware", "device", "locale"]

  lemma NotTopKey(k: string)
    requires k !in TOP_KEYS
    ensures k != "version" && k != "firmware" && k != "device" && k != "locale"
  {
    assert k != TOP_KEYS[0] && k != TOP_KEYS[1] && k != TOP_KEYS[2] && k != TOP_KEYS[3];
  }

  lemma FirstSection(c: Config, sec: string, key: seq<Tok>)
    requires InMemory(c) && sec !in TOP_KEYS
    requires !Named(c, sec) ==> FirstStr(FromSchedule(c), sec) == Some(key)
    ensures FirstStr(Toks(c), sec) == Some(SectionAt(c, sec, key))
  {
    NotTopKey(sec);
    hide FirstStr;
    SkipVersion(c, sec);
    if c.firmware == sec {
      ValueFound("firmware", sec, FromDevice(c));
    } else {
      SkipStr("firmware", c.firmware, FromDevice(c), sec);
      if c.device == sec {
        ValueFound("device", sec, FromLocale(c));
      } else {
        SkipStr("device", c.device, FromLocale(c), sec);
        if c.locale == sec {
          ValueFound("locale", sec, FromSchedule(c));
        } else {
          SkipStr("locale", c.locale, FromSchedule(c), sec);
        }
      }
    }
  }

  lemma SectionFound(c: Config, sec: string, key: seq<Tok>)
    requires InMemory(c) && Clean(c) && sec !in TOP_KEYS && KeyLike(sec)
    requires !Named(c, sec) ==> FirstStr(FromSchedule(c), sec) == Some(key)
    ensures StrStr(Print(c), Quoted(sec)) == Some(Render(SectionAt(c, sec, key)))
    ensures WellFormed(SectionAt(c, sec, key))
  {
    hide FirstStr, Render, StrStr, WellFormed, SectionAt, Clean, KeyLike;
    ToksFit(c);
    FirstSection(c, sec, key);
    FindKeyToken(Toks(c), sec);
    FirstStrFits(Toks(c), sec);
  }

  lemma SkipHere(sec: string, rest: seq<Tok>, k: string)
    requires k != sec
    ensures FirstStr([Str(sec), Raw(",")] + rest, k) == FirstStr(rest, k)
  {
    SkipSection([Str(sec), Raw(",")], rest, k);
  }

  /** From a value on, a key that no later value is called is found where it is found from the schedule on. */
  lemma PastValues(c: Config, sec: string, key: seq<Tok>, k: string)
    requires InMemory(c) && Named(c, sec) && k !in TOP_KEYS && k != sec && !Diverted(c, sec, k)
    ensures FirstStr(SectionAt(c, sec, key), k) == FirstStr(FromSchedule(c), k)
  {
    NotTopKey(k);
    hide FirstStr, Lacks;
    if c.firmware == sec {
      SkipHere(sec, FromDevice(c), k);
      SkipStr("device", c.device, FromLocale(c), k);
      SkipStr("locale", c.locale, FromSchedule(c), k);
    } else if c.device == sec {
      SkipHere(sec, FromLocale(c), k);
      SkipStr("locale", c.locale, FromSchedule(c), k);
    } else {
      SkipHere(sec, FromSchedule(c), k);
    }
  }

  /** What follows the value a diverted search stops at. */
  function AfterValue(c: Config, sec: string, k: string): seq<Tok>
    requires InMemory(c)
  {
    if c.firmware == sec && c.device == k then FromLocale(c) else FromSchedule(c)
  }

  lemma AtValue(c: Config, sec: string, key: seq<Tok>, k: string)
    requires InMemory(c) && k !in TOP_KEYS && k != sec && Diverted(c, sec, k)
    ensures FirstStr(SectionAt(c, sec, key), k) == Some([Str(k), Raw(",")] + AfterValue(c, sec, k))
  {
    NotTopKey(k);
    hide FirstStr, StrField, Lacks;
    if c.firmware == sec {
      SkipHere(sec, FromDevice(c), k);
      if c.device == k {
        ValueFound("device", k, FromLocale(c));
      } else {
        SkipStr("device", c.device, FromLocale(c), k);
        ValueFound("locale", k, FromSchedule(c));
      }
    } else {
      SkipHere(sec, FromLocale(c), k);
      ValueFound("locale", k, FromSchedule(c));
    }
  }

  /** A key found at a value is followed by a comma. */
  lemma CommaFollows(ts: seq<Tok>, k: string, rest: seq<Tok>)
    requires WellFormed(ts) && KeyLike(k) && FirstStr(ts, k) == Some([Str(k), Raw(",")] + rest)
    ensures FindKey(Render(ts), k) == Some("," + Render(rest))
  {
    hide FirstStr, WellFormed, Render, KeyLike, FindKey, SkipColons;
    RenderTwo(Str(k), Raw(","), rest);
    CommaStops(Render(rest));
    KeyText(ts, k, [Str(k), Raw(",")] + rest, "," + Render(rest));
  }

  /** The text found depends only on the tokens found. */
  lemma SameSearch(ts: seq<Tok>, us: seq<Tok>, k: string)
    requires WellFormed(ts) && WellFormed(us) && KeyLike(k) && FirstStr(ts, k) == FirstStr(us, k)
    ensures StrStr(Render(ts), Quoted(k)) == StrStr(Render(us), Quoted(k))
    ensures FindKey(Render(ts), k) == FindKey(Render(us), k)
  {
    hide FirstStr, WellFormed, Render, KeyLike;
    FindKeyToken(ts, k);
    FindKeyToken(us, k);
  }

  lemma TimingIsKey()
    ensures KeyLike("timing") && "timing" !in TOP_KEYS
  {}

  lemma TimingFound(c: Config)
    requires InMemory(c) && Clean(c)
    ensures StrStr(Print(c), Quoted("timing")) == Some(Render(SectionAt(c, "timing", FromTiming(c))))
    ensures WellFormed(SectionAt(c, "timing", FromTiming(c)))
  {
    TimingIsKey();
    hide FirstStr, Render, StrStr, WellFormed, Clean, KeyLike;
    SkipSchedule(c, "timing");
    HitOpen("timing", ":{", FromBoot(c));
    SectionFound(c, "timing", FromTiming(c));
  }

  lemma CommaIsZero(x: string)
    ensures Atoi("," + x) == 0
  {
    assert ("," + x)[0] == ',';
  }

  /** A timing value is read as printed, or as 0 when its search is diverted. */
  lemma TimingValue(c: Config, k: string, def: int)
    requires InMemory(c) && Clean(c) && KeyLike(k) && k !in TOP_KEYS && k !in ["schedule", "time", "days", "timing"]
    ensures GetInt(Render(SectionAt(c, "timing", FromTiming(c))), k, def) ==
      if Diverted(c, "timing", k) then 0 else GetInt(Render(FromTiming(c)), k, def)
  {
    var ts := SectionAt(c, "timing", FromTiming(c));
    TimingFound(c);
    TimingFits(c);
    assert k != "timing";
    hide FirstStr, Render, StrStr, WellFormed, Clean, KeyLike, FindKey;
    if Diverted(c, "timing", k) {
      AtValue(c, "timing", FromTiming(c), k);
      CommaFollows(ts, k, AfterValue(c, "timing", k));
      CommaIsZero(Render(AfterValue(c, "timing", k)));
    } else if Named(c, "timing") {
      PastValues(c, "timing", FromTiming(c), k);
      SkipSchedule(c, k);
      SameSearch(ts, FromTiming(c), k);
    }
  }

  lemma TimingKeysAreKeys()
    ensures forall i :: 0 <= i < |TIMING_KEYS| ==>
      KeyLike(TIMING_KEYS[i]) && TIMING_KEYS[i] !in TOP_KEYS &&
        TIMING_KEYS[i] !in ["schedule", "time", "days", "timing"]
  {}

  lemma TimingFieldReads(c: Config, k: string, n: nat, end: string, rest: seq<Tok>, def: int)
    requires InMemory(c) && Clean(c) && KeyLike(k) && n <= INT_MAX && end != "" && !IsDigit(end[0])
    requires FirstStr(FromTiming(c), k) == Some(NumField(k, n, end) + rest)
    ensures GetInt(Render(FromTiming(c)), k, def) == n
  {
    TimingFits(c);
    ReadInt(FromTiming(c), k, n, end, rest, def);
  }

  lemma SkipToWake(c: Config, k: string)
    requires InMemory(c) && k != "timing" && k != "boot_wait_sec"
    ensures FirstStr(FromTiming(c), k) == FirstStr(FromWake(c), k)
  {
    hide FirstStr;
    SkipOpen("timing", ":{", FromBoot(c), k);
    SkipNum("boot_wait_sec", c.bootWait, ",", FromWake(c), k);
  }

  lemma SkipToRetry(c: Config, k: string)
    requires InMemory(c) && k != "timing" && k != "boot_wait_sec" && k != "wake_wait_sec" && k != "keystroke_ms"
    ensures FirstStr(FromTiming(c), k) == FirstStr(FromRetry(c), k)
  {
    hide FirstStr;
    SkipToWake(c, k);
    SkipNum("wake_wait_sec", c.wakeWait, ",", FromKeystroke(c), k);
    SkipNum("keystroke_ms", c.keystroke, ",", FromRetry(c), k);
  }

  lemma BootWaitReads(c: Config)
    requires InMemory(c) && Clean(c)
    ensures GetInt(Render(FromTiming(c)), "boot_wait_sec", 45) == c.bootWait
  {
    TimingKeysAreKeys();
    assert TIMING_KEYS[0] == "boot_wait_sec";
    hide GetInt, Render, FirstStr, WellFormed, Clean, KeyLike;
    SkipOpen("timing", ":{", FromBoot(c), "boot_wait_sec");
    HitNum("boot_wait_sec", c.bootWait, ",", FromWake(c));
    TimingFieldReads(c, "boot_wait_sec", c.bootWait, ",", FromWake(c), 45);
  }

  lemma WakeWaitReads(c: Config)
    requires InMemory(c) && Clean(c)
    ensures GetInt(Render(FromTiming(c)), "wake_wait_sec", 5) == c.wakeWait
  {
    TimingKeysAreKeys();
    assert TIMING_KEYS[1] == "wake_wait_sec";
    hide GetInt, Render, FirstStr, WellFormed, Clean, KeyLike;
    SkipToWake(c, "wake_wait_sec");
    HitNum("wake_wait_sec", c.wakeWait, ",", FromKeystroke(c));
    TimingFieldReads(c, "wake_wait_sec", c.wakeWait, ",", FromKeystroke(c), 5);
  }

  lemma KeystrokeReads(c: Config)
    requires InMemory(c) && Clean(c)
    ensures GetInt(Render(FromTiming(c)), "keystroke_ms", 50) == c.keystroke
  {
    TimingKeysAreKeys();
    assert TIMING_KEYS[2] == "keystroke_ms";
    hide GetInt, Render, FirstStr, WellFormed, Clean, KeyLike;
    SkipToWake(c, "keystroke_ms");
    SkipNum("wake_wait_sec", c.wakeWait, ",", FromKeystroke(c), "keystroke_ms");
    HitNum("keystroke_ms", c.keystroke, ",", FromRetry(c));
    TimingFieldReads(c, "keystroke_ms", c.keystroke, ",", FromRetry(c), 50);
  }

  lemma RetryCountReads(c: Config)
    requires InMemory(c) && Clean(c)
    ensures GetInt(Render(FromTiming(c)), "retry_count", 3) == c.retryCount
  {
    TimingKeysAreKeys();
    assert TIMING_KEYS[3] == "retry_count";
    hide GetInt, Render, FirstStr, WellFormed, Clean, KeyLike;
    SkipToRetry(c, "retry_count");
    HitNum("retry_count", c.retryCount, ",", FromInterval(c));
    TimingFieldReads(c, "retry_count", c.retryCount, ",", FromInterval(c), 3);
  }

  lemma IntervalReads(c: Config)
    requires InMemory(c) && Clean(c)
    ensures GetInt(Render(FromTiming(c)), "retry_interval_sec", 10) == c.retryInterval
  {
    TimingKeysAreKeys();
    assert TIMING_KEYS[4] == "retry_interval_sec";
    hide GetInt, Render, FirstStr, WellFormed, Clean, KeyLike;
    SkipToRetry(c, "retry_interval_sec");
    SkipNum("retry_count", c.retryCount, ",", FromInterval(c), "retry_interval_sec");
    HitNum("retry_interval_sec", c.retryInterval, ",", FromDialog(c));
    TimingFieldReads(c, "retry_interval_sec", c.retryInterval, ",", FromDialog(c), 10);
  }

  lemma DialogWaitReads(c: Config)
    requires InMemory(c) && Clean(c)
    ensures GetInt(Render(FromTiming(c)), "dialog_wait_sec", 1) == c.dialogWait
  {
    TimingKeysAreKeys();
    assert TIMING_KEYS[5] == "dialog_wait_sec";
    hide GetInt, Render, FirstStr, WellFormed, Clean, KeyLike;
    SkipToRetry(c, "dialog_wait_sec");
    SkipNum("retry_count", c.retryCount, ",", FromInterval(c), "dialog_wait_sec");
    SkipNum("retry_interval_sec", c.retryInterval, ",", FromDialog(c), "dialog_wait_sec");
    HitNum("dialog_wait_sec", c.dialogWait, "},", FromApps(c));
    TimingFieldReads(c, "dialog_wait_sec", c.dialogWait, "},", FromApps(c), 1);
  }

  /** The timing values a parse finds: as printed, or 0 where a value diverts the search. */
  function TimingOf(c: Config, d: Config): Config {
    d.(bootWait := if Diverted(c, "timing", "boot_wait_sec") then 0 else c.bootWait,
       wakeWait := if Diverted(c, "timing", "wake_wait_sec") then 0 else c.wakeWait,
       keystroke := if Diverted(c, "timing", "keystroke_ms") then 0 else c.keystroke,
       retryCount := if Diverted(c, "timing", "retry_count") then 0 else c.retryCount,
       retryInterval := if Diverted(c, "timing", "retry_interval_sec") then 0 else c.retryInterval,
       dialogWait := if Diverted(c, "timing", "dialog_wait_sec") then 0 else c.dialogWait)
  }

  lemma TimingAssembles(d: Config, e: Config, t: string)
    requires GetInt(t, "boot_wait_sec", 45) == e.bootWait && GetInt(t, "wake_wait_sec", 5) == e.wakeWait
    requires GetInt(t, "keystroke_ms", 50) == e.keystroke && GetInt(t, "retry_count", 3) == e.retryCount
    requires GetInt(t, "retry_interval_sec", 10) == e.retryInterval && GetInt(t, "dialog_wait_sec", 1) == e.dialogWait
    ensures WithTiming(d, t) ==
      d.(bootWait := e.bootWait, wakeWait := e.wakeWait, keystroke := e.keystroke,
         retryCount := e.retryCount, retryInterval := e.retryInterval, dialogWait := e.dialogWait)
  {
    hide GetInt;
  }

  /** All six timing values, whatever the configuration held before. */
  lemma TimingReads(c: Config, d: Config)
    requires InMemory(c) && Clean(c)
    ensures ParseTiming(Print(c), d) == TimingOf(c, d)
  {
    TimingKeysAreKeys();
    assert TIMING_KEYS[0] == "boot_wait_sec" && TIMING_KEYS[1] == "wake_wait_sec" && TIMING_KEYS[2] == "keystroke_ms";
    assert TIMING_KEYS[3] == "retry_count" && TIMING_KEYS[4] == "retry_interval_sec" &&
      TIMING_KEYS[5] == "dialog_wait_sec";
    hide KeyLike, GetInt, Render, StrStr, WellFormed, Clean, Print, SectionAt, Diverted, WithTiming;
    TimingValue(c, "boot_wait_sec", 45);
    TimingValue(c, "wake_wait_sec", 5);
    TimingValue(c, "keystroke_ms", 50);
    TimingValue(c, "retry_count", 3);
    TimingValue(c, "retry_interval_sec", 10);
    TimingValue(c, "dialog_wait_sec", 1);
    BootWaitReads(c);
    WakeWaitReads(c);
    KeystrokeReads(c);
    RetryCountReads(c);
    IntervalReads(c);
    DialogWaitReads(c);
    TimingFound(c);
    TimingAssembles(d, TimingOf(c, d), Render(SectionAt(c, "timing", FromTiming(c))));
  }

  // ----- Schedule

  lemma ScheduleIsKey()
    ensures KeyLike("schedule") && KeyLike("time") && KeyLike("days")
    ensures "schedule" !in TOP_KEYS && "time" !in TOP_KEYS && "days" !in TOP_KEYS
  {}

  lemma ScheduleFound(c: Config)
    requires InMemory(c) && Clean(c)
    ensures StrStr(Print(c), Quoted("schedule")) == Some(Render(SectionAt(c, "schedule", FromSchedule(c))))
    ensures WellFormed(SectionAt(c, "schedule", FromSchedule(c)))
  {
    ScheduleIsKey();
    hide FirstStr, Render, StrStr, WellFormed, Clean, KeyLike;
    HitOpen("schedule", ":{", FromTime(c));
    SectionFound(c, "schedule", FromSchedule(c));
  }

  /** Where the search for the time stops in a schedule object. */
  lemma TimeFound(hm: string, rest: seq<Tok>)
    requires QuoteFree(hm) && WellFormed(rest)
    ensures FindKey(Render(Open("schedule", ":{") + (StrField("time", hm) + rest)), "time") ==
      Some([QUOTE] + (hm + ([QUOTE] + ("," + Render(rest)))))
  {
    hide StrStr, SkipColons, FindKey, FirstStr, Render, WellFormed;
    var time := StrField("time", hm) + rest;
    var q := Quoted(hm) + ("," + Render(rest));
    StrFieldFits("time", hm, rest);
    OpenFits("schedule", ":{", time);
    SkipOpen("schedule", ":{", time, "time");
    HitStr("time", hm, rest);
    StrFieldText("time", hm, rest);
    KeyText(Open("schedule", ":{") + time, "time", time, ":" + q);
    QuotedSplits(hm, "," + Render(rest));
    SkipOneColon(q);
  }

  lemma TimeParses(json: string, sched: string, h: byte, m: byte, rest: string)
    requires StrStr(json, Quoted("schedule")) == Some(sched)
    requires FindKey(sched, "time") == Some([QUOTE] + (Dec2(h) + ":" + Dec2(m) + ([QUOTE] + rest)))
    ensures ParseTime(json) == Some((h, m))
  {
    hide StrStr, SkipColons, FindKey, Dec2, ScanInt;
    var body := Dec2(h) + ":" + Dec2(m) + ([QUOTE] + rest);
    assert ([QUOTE] + body)[1..] == body;
    TimeRoundTrip(h, m, [QUOTE] + rest);
  }

  /** The time is read as printed unless its search is diverted; then it keeps its default. */
  lemma TimeReads(c: Config)
    requires InMemory(c) && Clean(c)
    ensures ParseTime(Print(c)) == if Diverted(c, "schedule", "time") then None else Some((c.hour, c.min))
  {
    var key := FromSchedule(c);
    var ts := SectionAt(c, "schedule", key);
    ScheduleIsKey();
    ScheduleFound(c);
    hide FirstStr, Render, StrStr, WellFormed, KeyLike, FindKey, ParseTime, Clean, Print;
    if Diverted(c, "schedule", "time") {
      AtValue(c, "schedule", key, "time");
      CommaFollows(ts, "time", AfterValue(c, "schedule", "time"));
      NoTimeThere(Print(c), Render(ts), Render(AfterValue(c, "schedule", "time")));
    } else {
      ScheduleFits(c);
      DaysFit(c);
      if Named(c, "schedule") {
        PastValues(c, "schedule", key, "time");
        SameSearch(ts, key, "time");
      }
      TimeIsQuoteFree(c.hour, c.min);
      TimeFound(Dec2(c.hour) + ":" + Dec2(c.min), FromDays(c));
      TimeParses(Print(c), Render(ts), c.hour, c.min, "," + Render(FromDays(c)));
    }
  }

  lemma NoTimeThere(json: string, sched: string, rest: string)
    requires StrStr(json, Quoted("schedule")) == Some(sched) && FindKey(sched, "time") == Some("," + rest)
    ensures ParseTime(json) == None
  {
    hide StrStr, FindKey;
    assert ("," + rest)[0] == ',';
  }

  lemma {:induction false} StrChrSkips(a: string, b: string, ch: char)
    requires ch !in a
    ensures StrChr(a + b, ch) == StrChr(b, ch)
  {
    if a == "" {
      assert a + b == b;
    } else {
      StrChrSkips(a[1..], b, ch);
      assert (a + b)[1..] == a[1..] + b;
    }
  }

  lemma DoublePower(m: nat, p: nat)
    requires p > 0
    ensures m % (2 * p) == m % p + (if m / p % 2 == 1 then p else 0)
    ensures m % p / p == 0
  {
    var q, r := m / p, m % p;
    var h, b := q / 2, q % 2;
    assert q * p == h * (2 * p) + b * p;
    RemainderIs(m, 2 * p, h, b * p + r);
    RemainderIs(r, p, 0, r);
  }

  /** Quotient and remainder are unique. */
  lemma RemainderIs(m: nat, k: nat, h: nat, x: nat)
    requires k > 0 && m == h * k + x && x < k
    ensures m % k == x && m / k == h
  {
    assert (m / k - h) * k == x - m % k;
    Zero(m / k - h, k, x - m % k);
  }

  lemma Zero(d: int, k: nat, e: int)
    requires k > 0 && d * k == e && 0 - k < e < k
    ensures d == 0
  {
    assert d >= 1 ==> d * k >= k;
    assert d <= -1 ==> d * k <= 0 - k;
  }

  /** The mask below bit d + 1, from the mask below bit d. */
  lemma NextBit(m: byte, d: nat)
    requires d < 7
    ensures m % Pow2(d + 1) == if Bit(m, d) then SetBit(m % Pow2(d), d) else m % Pow2(d)
  {
    assert Pow2(0) == 1 && Pow2(1) == 2 && Pow2(2) == 4 && Pow2(3) == 8 && Pow2(4) == 16 && Pow2(5) == 32 &&
      Pow2(6) == 64;
    DoublePower(m, Pow2(d));
  }

  lemma DigitReads(comma: string, d: nat, tail: string, m: nat)
    requires d < 7 && (comma == "" || comma == ",")
    ensures DayMask(comma + (Dec(d) + tail), m) == DayMask(tail, SetBit(m, d))
  {
    var s := [DigitChar(d)] + tail;
    assert Dec(d) + tail == s && s[1..] == tail;
    if comma == "," {
      assert ("," + s)[1..] == s;
    } else {
      assert "" + s == s;
    }
  }

  /** Printing the set bits from d on and reading them back restores the mask. */
  lemma {:induction false} DaysReadBack(days: byte, d: nat, first: bool, rest: string)
    requires d <= 7 && rest != "" && rest[0] == ']'
    ensures DayMask(Render(DayToks(days, d, first)) + rest, days % Pow2(d)) == days % Pow2(7)
    decreases 7 - d
  {
    if d == 7 {
      assert "" + rest == rest;
    } else {
      NextBit(days, d);
      if Bit(days, d) {
        DaysReadBack(days, d + 1, false, rest);
        var more, comma := Render(DayToks(days, d + 1, false)), if first then "" else ",";
        assert Render(DayToks(days, d, first)) + rest == comma + (Dec(d) + (more + rest)) by {
          RenderTwo(Raw(comma), Raw(Dec(d)), DayToks(days, d + 1, false));
        }
        DigitReads(comma, d, more + rest, days % Pow2(d));
      } else {
        DaysReadBack(days, d + 1, first, rest);
      }
    }
  }

  /** `strchr` from a key to the bracket its object or list opens with. */
  lemma OpensBracket(key: string, bracket: char, toks: seq<Tok>, tail: seq<Tok>)
    requires KeyLike(key) && bracket != QUOTE && bracket != ':' && !Letter(bracket)
    ensures StrChr(Render(Open(key, ":" + [bracket]) + (toks + tail)), bracket) ==
      Some([bracket] + (Render(toks) + Render(tail)))
  {
    BracketNotInKey(key, bracket);
    hide KeyLike, Letter, Render, StrChr, Quoted;
    var list := [bracket] + (Render(toks) + Render(tail));
    OpenText(key, ":" + [bracket], toks + tail);
    RenderAppend(toks, tail);
    Regroup(Quoted(key), ":", [bracket], Render(toks) + Render(tail));
    StrChrSkips(Quoted(key) + ":", list, bracket);
    StrChrHere(list, bracket);
  }

  lemma Regroup(a: string, b: string, c: string, rest: string)
    ensures a + ((b + c) + rest) == (a + b) + (c + rest)
  {}

  lemma BracketNotInKey(key: string, bracket: char)
    requires KeyLike(key) && bracket != QUOTE && bracket != ':' && !Letter(bracket)
    ensures bracket !in Quoted(key) + ":"
  {}

  lemma StrChrHere(s: string, ch: char)
    requires s != "" && s[0] == ch
    ensures StrChr(s, ch) == Some(s)
  {}

  lemma DaysParse(json: string, sched: string, days: byte, rest: string)
    requires StrStr(json, Quoted("schedule")) == Some(sched) && rest != "" && rest[0] == ']'
    requires var d := StrStr(sched, Quoted("days"));
      d.Some? && StrChr(d.value, '[') == Some("[" + (Render(DayToks(days, 0, true)) + rest))
    ensures ParseDays(json) == Some(days % 128)
  {
    var body := Render(DayToks(days, 0, true)) + rest;
    assert ("[" + body)[1..] == body;
    assert Pow2(0) == 1 && Pow2(7) == 128;
    DaysReadBack(days, 0, true, rest);
  }

  /** The text from the schedule's list of days on. */
  lemma DaysListed(c: Config)
    requires InMemory(c) && Clean(c)
    ensures var tail := [Raw("]},")] + FromTiming(c);
      StrChr(Render(FromDays(c)), '[') == Some("[" + (Render(DayToks(c.days, 0, true)) + Render(tail)))
  {
    ScheduleIsKey();
    hide KeyLike, Render, StrChr;
    assert ":[" == ":" + ['['];
    OpensBracket("days", '[', DayToks(c.days, 0, true), [Raw("]},")] + FromTiming(c));
  }

  /** A value that diverts the search for the days is followed by no bracket before the list itself. */
  lemma BracketAfterValue(c: Config)
    requires InMemory(c) && Clean(c) && Diverted(c, "schedule", "days") && !DaysBracketed(c)
    ensures StrChr(Render([Str("days"), Raw(",")] + AfterValue(c, "schedule", "days")), '[') ==
      StrChr(Render(FromDays(c)), '[')
  {
    var all := UpToDays(c);
    UpToDaysAvoids(c);
    UpToDaysIs(c);
    hide Render, StrChr, Avoids, UpToDays, AfterValue;
    RenderAppend(all, FromDays(c));
    AvoidsRender(all, '[');
    StrChrSkips(Render(all), Render(FromDays(c)), '[');
  }

  /** The tokens from such a value to the real list. */
  function UpToDays(c: Config): seq<Tok> {
    var time := Open("schedule", ":{") + StrField("time", Dec2(c.hour) + ":" + Dec2(c.min));
    if c.firmware == "schedule" && c.device == "days" then
      [Str("days"), Raw(",")] + (StrField("locale", c.locale) + time)
    else [Str("days"), Raw(",")] + time
  }

  lemma UpToDaysIs(c: Config)
    requires InMemory(c)
    ensures [Str("days"), Raw(",")] + AfterValue(c, "schedule", "days") == UpToDays(c) + FromDays(c)
  {
    hide FromDays, Dec2;
  }

  lemma UpToDaysAvoids(c: Config)
    requires !DaysBracketed(c)
    ensures Avoids(UpToDays(c), '[')
  {
    TimeAvoids(c, '[');
    hide Dec2;
    FieldAvoids("time", Dec2(c.hour) + ":" + Dec2(c.min), '[');
    if c.firmware == "schedule" && c.device == "days" {
      FieldAvoids("locale", c.locale, '[');
    }
  }

  lemma FieldAvoids(key: string, text: string, ch: char)
    requires ch !in key && ch !in text && ch != ':' && ch != ','
    ensures Avoids(StrField(key, text), ch)
  {}

  lemma TimeAvoids(c: Config, ch: char)
    requires ch == '[' || ch == '{' || ch == '\0'
    ensures ch !in Dec2(c.hour) + ":" + Dec2(c.min)
  {}

  // ----- A bracket inside a value

  /** From the first bracket in a value to the end of the text, `rest` being what follows the value's field. */
  function FromBracket(text: string, ch: char, rest: string): (r: string)
    requires ch in text
    ensures r != "" && r[0] == ch
  {
    FoundIn(text, "", ch);
    StrChr(text, ch).value + ([QUOTE] + ("," + rest))
  }

  lemma {:induction false} FoundIn(text: string, tail: string, ch: char)
    requires ch in text
    ensures StrChr(text, ch).Some? && StrChr(text, ch).value != "" && StrChr(text, ch).value[0] == ch
    ensures StrChr(text + tail, ch) == Some(StrChr(text, ch).value + tail)
  {
    if text[0] != ch {
      FoundIn(text[1..], tail, ch);
      assert (text + tail)[1..] == text[1..] + tail;
    }
  }

  lemma BracketInValue(before: seq<Tok>, key: string, text: string, rest: seq<Tok>, ch: char)
    requires Avoids(before, ch) && ch !in key && ch in text && ch != QUOTE && ch != ':'
    ensures StrChr(Render(before + (StrField(key, text) + rest)), ch) == Some(FromBracket(text, ch, Render(rest)))
  {
    var head, tail := FieldHead(key), [QUOTE] + ("," + Render(rest));
    hide Render, StrChr, Avoids, StrField, Quoted;
    AvoidsRender(before, ch);
    RenderAppend(before, StrField(key, text) + rest);
    StrFieldText(key, text, rest);
    FieldSplits(key, text, "," + Render(rest));
    StrChrSkips(Render(before), head + (text + tail), ch);
    StrChrSkips(head, text + tail, ch);
    FoundIn(text, tail, ch);
  }

  /** A text field up to its value. */
  function FieldHead(key: string): (s: string)
    ensures forall ch :: ch !in key && ch != QUOTE && ch != ':' ==> ch !in s
  {
    Quoted(key) + (":" + [QUOTE])
  }

  lemma FieldSplits(key: string, text: string, after: string)
    ensures Quoted(key) + (":" + (Quoted(text) + after)) == FieldHead(key) + (text + ([QUOTE] + after))
  {}

  /** The days a parse finds: those printed, or the digits from a bracket in the locale on. */
  function DaysOf(c: Config): (days: nat)
    requires InMemory(c)
    ensures days < 128
  {
    if DaysBracketed(c) then
      var list := FromBracket(c.locale, '[', Render(FromSchedule(c)));
      DayMaskIsSmall(list[1..], 0);
      DayMask(list[1..], 0)
    else c.days % 128
  }

  lemma DaysRead(c: Config)
    requires InMemory(c) && Clean(c)
    ensures ParseDays(Print(c)) == Some(DaysOf(c))
  {
    hide ParseDays, Print, Clean, DayMask, Render;
    if DaysBracketed(c) {
      DaysMisread(c);
    } else {
      DaysReadAsPrinted(c);
    }
  }

  lemma DaysMisread(c: Config)
    requires InMemory(c) && Clean(c) && DaysBracketed(c)
    ensures ParseDays(Print(c)) == Some(DaysOf(c))
  {
    var key := FromSchedule(c);
    var ts := SectionAt(c, "schedule", key);
    ScheduleIsKey();
    ScheduleFound(c);
    ShortAvoids('[');
    hide FirstStr, Render, StrStr, WellFormed, KeyLike, StrChr, Clean, Print, FindKey, DayMask;
    AtValue(c, "schedule", key, "days");
    FindKeyToken(ts, "days");
    BracketInValue([Str("days"), Raw(",")], "locale", c.locale, FromSchedule(c), '[');
  }

  lemma ShortAvoids(ch: char)
    requires ch == '[' || ch == '{'
    ensures Avoids([Str("days"), Raw(",")], ch) && Avoids([Str("apps"), Raw(",")], ch) && ch !in "locale" &&
      ch !in "device"
  {}

  lemma DaysReadAsPrinted(c: Config)
    requires InMemory(c) && Clean(c) && !DaysBracketed(c)
    ensures ParseDays(Print(c)) == Some(c.days % 128)
  {
    var tail := [Raw("]},")] + FromTiming(c);
    var key := FromSchedule(c);
    var ts := SectionAt(c, "schedule", key);
    ScheduleIsKey();
    ScheduleFound(c);
    ScheduleFits(c);
    DaysListed(c);
    hide FirstStr, Render, StrStr, WellFormed, KeyLike, StrChr, ParseDays, Clean, Print, FindKey;
    TimeIsNotDays(c);
    FindKeyToken(ts, "days");
    if Diverted(c, "schedule", "days") {
      AtValue(c, "schedule", key, "days");
      BracketAfterValue(c);
    } else {
      if Named(c, "schedule") {
        PastValues(c, "schedule", key, "days");
      }
      SkipOpen("schedule", ":{", FromTime(c), "days");
      SkipStr("time", Dec2(c.hour) + ":" + Dec2(c.min), FromDays(c), "days");
      HitOpen("days", ":[", DayToks(c.days, 0, true) + tail);
    }
    RenderOne(Raw("]},"), FromTiming(c));
    DaysParse(Print(c), Render(ts), c.days, Render(tail));
  }

  lemma TimeIsNotDays(c: Config)
    ensures Dec2(c.hour) + ":" + Dec2(c.min) != "days"
  {
    assert (Dec2(c.hour) + ":" + Dec2(c.min))[0] == Dec2(c.hour)[0];
  }
}
