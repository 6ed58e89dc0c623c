/** The device configuration and the text `config_to_json` prints for it (storage.c). */
module Config {
  import opened Bytes
  import opened CStrings
  import opened JsonText

  const CONFIG_MAX_APPS: nat := 8
  const FIRMWARE_LEN: nat := 16
  const DEVICE_LEN: nat := 16
  const LOCALE_LEN: nat := 8
  const APP_NAME_LEN: nat := 64
  const SSID_LEN: nat := 33
  const PASS_LEN: nat := 65

  datatype App = App(name: string, enabled: bool)

  /** `config_t`; a `char` array of n bytes is a string of at most n - 1 characters. */
  datatype Config = Config(
    version: byte, firmware: string, device: string, locale: string,
    hour: byte, min: byte, days: byte,
    bootWait: u16, wakeWait: u16, keystroke: u16, retryCount: byte, retryInterval: u16, dialogWait: u16,
    apps: seq<App>, appCount: byte,
    ssid: string, password: string)

  /** What the C type guarantees of every configuration in memory. */
  predicate InMemory(c: Config) {
    |c.firmware| < FIRMWARE_LEN && |c.device| < DEVICE_LEN && |c.locale| < LOCALE_LEN &&
    |c.ssid| < SSID_LEN && |c.password| < PASS_LEN &&
    |c.apps| == CONFIG_MAX_APPS && forall i :: 0 <= i < CONFIG_MAX_APPS ==> |c.apps[i].name| < APP_NAME_LEN
  }

  function Defaults(): (c: Config)
    ensures InMemory(c)
  {
    Config(2, "1.0.0", "unknown", "ja", 7, 45, 0x3E, 45, 5, 50, 3, 10, 1,
           [App("lock_screen", true), App("MarketSpeed2.exe", true)] + seq(6, _ => App("", false)), 2, "", "")
  }

  /** The apps that count. */
  function Listed(c: Config): (a: seq<App>)
    requires InMemory(c)
    ensures |a| <= CONFIG_MAX_APPS && |a| <= c.appCount && a <= c.apps
  {
    if c.appCount < CONFIG_MAX_APPS then c.apps[..c.appCount] else c.apps
  }

  // ----- The printed text as tokens: each function is the text from one key on

  function NumField(key: string, n: nat, end: string): seq<Tok> {
    [Str(key), Raw(":"), Raw(Dec(n)), Raw(end)]
  }

  function StrField(key: string, text: string): seq<Tok> {
    [Str(key), Raw(":"), Str(text), Raw(",")]
  }

  function Open(key: string, bracket: string): seq<Tok> {
    [Str(key), Raw(bracket)]
  }

  /** The day numbers from d on, comma-separated; `first` while none has been printed. */
  function DayToks(days: byte, d: nat, first: bool): (ts: seq<Tok>)
    requires d <= 7
    ensures forall i :: 0 <= i < |ts| ==> ts[i].Raw?
    decreases 7 - d
  {
    if d == 7 then []
    else if Bit(days, d) then [Raw(if first then "" else ","), Raw(Dec(d))] + DayToks(days, d + 1, false)
    else DayToks(days, d + 1, first)
  }

  function AppField(app: App, first: bool): seq<Tok> {
    [Raw(if first then "" else ","), Str(app.name), Raw(":"), Raw(if app.enabled then "true" else "false")]
  }

  function AppToks(apps: seq<App>, first: bool): seq<Tok> {
    if apps == [] then [] else AppField(apps[0], first) + AppToks(apps[1..], false)
  }

  function FromWifi(c: Config): seq<Tok> {
    if c.ssid == "" then [Raw("}")]
    else [Raw(",")] + (Open("wifi", ":{") + ([Str("ssid"), Raw(":"), Str(c.ssid), Raw("}")] + [Raw("}")]))
  }

  function FromApps(c: Config): seq<Tok>
    requires InMemory(c)
  {
    Open("apps", ":{") + (AppToks(Listed(c), true) + ([Raw("}")] + FromWifi(c)))
  }

  function FromDialog(c: Config): seq<Tok>
    requires InMemory(c)
  {
    NumField("dialog_wait_sec", c.dialogWait, "},") + FromApps(c)
  }

  function FromInterval(c: Config): seq<Tok>
    requires InMemory(c)
  {
    NumField("retry_interval_sec", c.retryInterval, ",") + FromDialog(c)
  }

  function FromRetry(c: Config): seq<Tok>
    requires InMemory(c)
  {
    NumField("retry_count", c.retryCount, ",") + FromInterval(c)
  }

  function FromKeystroke(c: Config): seq<Tok>
    requires InMemory(c)
  {
    NumField("keystroke_ms", c.keystroke, ",") + FromRetry(c)
  }

  function FromWake(c: Config): seq<Tok>
    requires InMemory(c)
  {
    NumField("wake_wait_sec", c.wakeWait, ",") + FromKeystroke(c)
  }

  function FromBoot(c: Config): seq<Tok>
    requires InMemory(c)
  {
    NumField("boot_wait_sec", c.bootWait, ",") + FromWake(c)
  }

  function FromTiming(c: Config): seq<Tok>
    requires InMemory(c)
  {
    Open("timing", ":{") + FromBoot(c)
  }

  function FromDays(c: Config): seq<Tok>
    requires InMemory(c)
  {
    Open("days", ":[") + (DayToks(c.days, 0, true) + ([Raw("]},")] + FromTiming(c)))
  }

  function FromTime(c: Config): seq<Tok>
    requires InMemory(c)
  {
    StrField("time", Dec2(c.hour) + ":" + Dec2(c.min)) + FromDays(c)
  }

  function FromSchedule(c: Config): seq<Tok>
    requires InMemory(c)
  {
    Open("schedule", ":{") + FromTime(c)
  }

  function FromLocale(c: Config): seq<Tok>
    requires InMemory(c)
  {
    StrField("locale", c.locale) + FromSchedule(c)
  }

  function FromDevice(c: Config): seq<Tok>
    requires InMemory(c)
  {
    StrField("device", c.device) + FromLocale(c)
  }

  function FromFirmware(c: Config): seq<Tok>
    requires InMemory(c)
  {
    StrField("firmware", c.firmware) + FromDevice(c)
  }

  function Toks(c: Config): seq<Tok>
    requires InMemory(c)
  {
    [Raw("{")] + (NumField("version", c.version, ",") + FromFirmware(c))
  }

  /** `config_to_json`, without the password. */
  function Print(c: Config): string
    requires InMemory(c)
  {
    Render(Toks(c))
  }

  // ----- Its length

  const CONFIG_TEXT_MAX: nat := 1024

  lemma DecIsShort(n: nat)
    ensures n < 256 ==> |Dec(n)| <= 3 && |Dec2(n)| <= 3
    ensures n < 0x1_0000 ==> |Dec(n)| <= 5
  {
    assert Pow10(3) == 1000 && Pow10(5) == 100000;
    if n < 256 {
      DecLength(n, 3);
    }
    if n < 0x1_0000 {
      DecLength(n, 5);
    }
  }

  lemma RenderTwo(t: Tok, u: Tok, rest: seq<Tok>)
    ensures Render([t, u] + rest) == Show(t) + (Show(u) + Render(rest))
  {
    assert [t, u] + rest == [t] + ([u] + rest);
    RenderOne(t, [u] + rest);
    RenderOne(u, rest);
  }

  lemma RenderFour(t: Tok, u: Tok, v: Tok, w: Tok, rest: seq<Tok>)
    ensures Render([t, u, v, w] + rest) == Show(t) + (Show(u) + (Show(v) + (Show(w) + Render(rest))))
  {
    assert [t, u, v, w] + rest == [t, u] + ([v, w] + rest);
    RenderTwo(t, u, [v, w] + rest);
    RenderTwo(v, w, rest);
  }

  lemma NumFieldText(key: string, n: nat, end: string, rest: seq<Tok>)
    ensures Render(NumField(key, n, end) + rest) == Quoted(key) + (":" + (Dec(n) + (end + Render(rest))))
  {
    RenderFour(Str(key), Raw(":"), Raw(Dec(n)), Raw(end), rest);
  }

  lemma StrFieldText(key: string, text: string, rest: seq<Tok>)
    ensures Render(StrField(key, text) + rest) == Quoted(key) + (":" + (Quoted(text) + ("," + Render(rest))))
  {
    RenderFour(Str(key), Raw(":"), Str(text), Raw(","), rest);
  }

  lemma OpenText(key: string, bracket: string, rest: seq<Tok>)
    ensures Render(Open(key, bracket) + rest) == Quoted(key) + (bracket + Render(rest))
  {
    RenderTwo(Str(key), Raw(bracket), rest);
  }

  lemma AppFieldText(app: App, first: bool, rest: seq<Tok>)
    ensures Render(AppField(app, first) + rest) ==
      (if first then "" else ",") +
        (Quoted(app.name) + (":" + ((if app.enabled then "true" else "false") + Render(rest))))
  {
    RenderFour(Raw(if first then "" else ","), Str(app.name), Raw(":"), Raw(if app.enabled then "true" else "false"),
      rest);
  }

  lemma {:induction false} DayToksLength(days: byte, d: nat, first: bool)
    requires d <= 7
    ensures |Render(DayToks(days, d, first))| <= 2 * (7 - d)
    decreases 7 - d
  {
    if d < 7 {
      if Bit(days, d) {
        DayToksLength(days, d + 1, false);
        RenderTwo(Raw(if first then "" else ","), Raw(Dec(d)), DayToks(days, d + 1, false));
      } else {
        DayToksLength(days, d + 1, first);
      }
    }
  }

  lemma {:induction false} AppToksLength(apps: seq<App>, first: bool)
    requires forall i :: 0 <= i < |apps| ==> |apps[i].name| < APP_NAME_LEN
    ensures |Render(AppToks(apps, first))| <= 72 * |apps|
  {
    if apps != [] {
      AppToksLength(apps[1..], false);
      AppFieldText(apps[0], first, AppToks(apps[1..], false));
    }
  }

  lemma TailLength(c: Config)
    requires InMemory(c)
    ensures |Render(FromApps(c))| <= 8 + 72 * CONFIG_MAX_APPS + 53
  {
    var last: seq<Tok> := [Raw("}")];
    var tail := [Raw("}")] + FromWifi(c);
    OpenText("apps", ":{", AppToks(Listed(c), true) + tail);
    RenderAppend(AppToks(Listed(c), true), tail);
    AppToksLength(Listed(c), true);
    RenderOne(Raw("}"), FromWifi(c));
    RenderOne(Raw("}"), []);
    assert [Raw("}")] + [] == last;
    if c.ssid != "" {
      var value := [Str("ssid"), Raw(":"), Str(c.ssid), Raw("}")] + last;
      RenderOne(Raw(","), Open("wifi", ":{") + value);
      OpenText("wifi", ":{", value);
      RenderFour(Str("ssid"), Raw(":"), Str(c.ssid), Raw("}"), last);
    }
  }

  lemma TimingLength(c: Config)
    requires InMemory(c)
    ensures |Render(FromTiming(c))| <= 150 + |Render(FromApps(c))|
  {
    DecIsShort(c.bootWait);
    DecIsShort(c.wakeWait);
    DecIsShort(c.keystroke);
    DecIsShort(c.retryCount);
    DecIsShort(c.retryInterval);
    DecIsShort(c.dialogWait);
    OpenText("timing", ":{", FromBoot(c));
    NumFieldText("boot_wait_sec", c.bootWait, ",", FromWake(c));
    NumFieldText("wake_wait_sec", c.wakeWait, ",", FromKeystroke(c));
    NumFieldText("keystroke_ms", c.keystroke, ",", FromRetry(c));
    NumFieldText("retry_count", c.retryCount, ",", FromInterval(c));
    NumFieldText("retry_interval_sec", c.retryInterval, ",", FromDialog(c));
    NumFieldText("dialog_wait_sec", c.dialogWait, "},", FromApps(c));
  }

  lemma ScheduleLength(c: Config)
    requires InMemory(c)
    ensures |Render(FromSchedule(c))| <= 60 + |Render(FromTiming(c))|
  {
    var tail := [Raw("]},")] + FromTiming(c);
    DecIsShort(c.hour);
    DecIsShort(c.min);
    OpenText("schedule", ":{", FromTime(c));
    StrFieldText("time", Dec2(c.hour) + ":" + Dec2(c.min), FromDays(c));
    OpenText("days", ":[", DayToks(c.days, 0, true) + tail);
    RenderAppend(DayToks(c.days, 0, true), tail);
    DayToksLength(c.days, 0, true);
    RenderOne(Raw("]},"), FromTiming(c));
  }

  /** Every configuration in memory prints in fewer than 1024 characters, so in one SET_CONFIG line as well. */
  lemma PrintFits(c: Config)
    requires InMemory(c)
    ensures |Print(c)| < CONFIG_TEXT_MAX
    ensures |"SET_CONFIG:" + Print(c)| <= 2047
  {
    DecIsShort(c.version);
    RenderOne(Raw("{"), NumField("version", c.version, ",") + FromFirmware(c));
    NumFieldText("version", c.version, ",", FromFirmware(c));
    StrFieldText("firmware", c.firmware, FromDevice(c));
    StrFieldText("device", c.device, FromLocale(c));
    StrFieldText("locale", c.locale, FromSchedule(c));
    ScheduleLength(c);
    TimingLength(c);
    TailLength(c);
  }
}
