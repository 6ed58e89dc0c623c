/** The configuration printer and parser of storage.c as the firmware runs them, and the stored configuration. */
module ConfigStore {
  import opened Wrappers
  import opened Bytes
  import opened CStrings
  import opened JsonText
  import opened Config
  import opened ConfigParser
  import ConfigCollections
  import ConfigRoundTrip

  const SERIAL_BUF_SIZE: nat := 4096

  // ----- Printing into a buffer through a running offset

  /** One `snprintf` at the running offset: the text and its terminator. */
  method Emit(buf: array<char>, n: nat, ts: seq<Tok>) returns (m: nat)
    requires n + |Render(ts)| < buf.Length
    modifies buf
    ensures m == n + |Render(ts)| && buf[..m] == old(buf[..n]) + Render(ts) && buf[m] == '\0'
  {
    var text := Render(ts);
    for i := 0 to |text|
      invariant buf[..n + i] == old(buf[..n]) + text[..i]
    {
      buf[n + i] := text[i];
      assert buf[..n + i + 1] == buf[..n + i] + [text[i]];
    }
    m := n + |text|;
    buf[m] := '\0';
  }

  /** The same, keeping track of what is still to be printed. */
  method EmitPart(buf: array<char>, n: nat, ts: seq<Tok>, ghost rest: seq<Tok>, ghost text: string) returns (m: nat)
    requires n <= |text| < buf.Length && buf[..n] + Render(ts + rest) == text
    modifies buf
    ensures m <= |text| && buf[..m] + Render(rest) == text && buf[m] == '\0'
  {
    RenderAppend(ts, rest);
    m := Emit(buf, n, ts);
    Assoc(old(buf[..n]), Render(ts), Render(rest));
  }

  method EmitDays(buf: array<char>, start: nat, days: byte, ghost rest: seq<Tok>, ghost text: string) returns (n: nat)
    requires start <= |text| < buf.Length && buf[..start] + Render(DayToks(days, 0, true) + rest) == text
    modifies buf
    ensures n <= |text| && buf[..n] + Render(rest) == text
  {
    hide Render, Bit;
    n := start;
    var first := true;
    for d := 0 to 7
      invariant n <= |text| && buf[..n] + Render(DayToks(days, d, first) + rest) == text
    {
      if Bit(days, d) {
        var part := [Raw(if first then "" else ","), Raw(Dec(d))];
        ghost var more := DayToks(days, d + 1, false);
        assert DayToks(days, d, first) + rest == part + (more + rest);
        n := EmitPart(buf, n, part, more + rest, text);
        first := false;
      }
    }
    assert [] + rest == rest;
  }

  method EmitApps(buf: array<char>, start: nat, c: Config, ghost rest: seq<Tok>, ghost text: string) returns (n: nat)
    requires InMemory(c)
    requires start <= |text| < buf.Length && buf[..start] + Render(AppToks(Listed(c), true) + rest) == text
    modifies buf
    ensures n <= |text| && buf[..n] + Render(rest) == text
  {
    hide Render;
    n := start;
    var i := 0;
    assert Listed(c)[0..] == Listed(c);
    while i < c.appCount && i < CONFIG_MAX_APPS
      invariant i <= |Listed(c)| && n <= |text|
      invariant buf[..n] + Render(AppToks(Listed(c)[i..], i == 0) + rest) == text
    {
      var part := AppField(c.apps[i], i == 0);
      ghost var more := AppToks(Listed(c)[i + 1..], false);
      assert Listed(c)[i..][0] == c.apps[i] && Listed(c)[i..][1..] == Listed(c)[i + 1..];
      assert AppToks(Listed(c)[i..], i == 0) + rest == part + (more + rest);
      n := EmitPart(buf, n, part, more + rest, text);
      i := i + 1;
    }
    assert Listed(c)[i..] == [];
    assert [] + rest == rest;
  }

  /** `config_to_json`; the offset never passes a buffer of 1024 characters or more. */
  method ConfigToJson(c: Config, buf: array<char>) returns (n: nat)
    requires InMemory(c) && buf.Length >= CONFIG_TEXT_MAX
    modifies buf
    ensures n == |Print(c)| < CONFIG_TEXT_MAX && buf[..n] == Print(c) && buf[n] == '\0'
  {
    ghost var text := Print(c);
    PrintFits(c);
    assert buf[..0] + Render(Toks(c)) == text;
    n := EmitPart(buf, 0, [Raw("{")], NumField("version", c.version, ",") + FromFirmware(c), text);
    n := EmitPart(buf, n, NumField("version", c.version, ","), FromFirmware(c), text);
    n := EmitPart(buf, n, StrField("firmware", c.firmware), FromDevice(c), text);
    n := EmitPart(buf, n, StrField("device", c.device), FromLocale(c), text);
    n := EmitPart(buf, n, StrField("locale", c.locale), FromSchedule(c), text);
    n := EmitSchedule(buf, n, c, text);
    n := EmitTiming(buf, n, c, text);
    n := EmitTail(buf, n, c, text);
  }

  method EmitSchedule(buf: array<char>, start: nat, c: Config, ghost text: string) returns (n: nat)
    requires InMemory(c)
    requires start <= |text| < buf.Length && buf[..start] + Render(FromSchedule(c)) == text
    modifies buf
    ensures n <= |text| && buf[..n] + Render(FromTiming(c)) == text
  {
    ghost var tail := [Raw("]},")] + FromTiming(c);
    n := EmitPart(buf, start, Open("schedule", ":{"), FromTime(c), text);
    n := EmitPart(buf, n, StrField("time", Dec2(c.hour) + ":" + Dec2(c.min)), FromDays(c), text);
    n := EmitPart(buf, n, Open("days", ":["), DayToks(c.days, 0, true) + tail, text);
    n := EmitDays(buf, n, c.days, tail, text);
    n := EmitPart(buf, n, [Raw("]},")], FromTiming(c), text);
  }

  method EmitTiming(buf: array<char>, start: nat, c: Config, ghost text: string) returns (n: nat)
    requires InMemory(c)
    requires start <= |text| < buf.Length && buf[..start] + Render(FromTiming(c)) == text
    modifies buf
    ensures n <= |text| && buf[..n] + Render(FromApps(c)) == text
  {
    n := EmitPart(buf, start, Open("timing", ":{"), FromBoot(c), text);
    n := EmitPart(buf, n, NumField("boot_wait_sec", c.bootWait, ","), FromWake(c), text);
    n := EmitPart(buf, n, NumField("wake_wait_sec", c.wakeWait, ","), FromKeystroke(c), text);
    n := EmitPart(buf, n, NumField("keystroke_ms", c.keystroke, ","), FromRetry(c), text);
    n := EmitPart(buf, n, NumField("retry_count", c.retryCount, ","), FromInterval(c), text);
    n := EmitPart(buf, n, NumField("retry_interval_sec", c.retryInterval, ","), FromDialog(c), text);
    n := EmitPart(buf, n, NumField("dialog_wait_sec", c.dialogWait, "},"), FromApps(c), text);
  }

  method EmitTail(buf: array<char>, start: nat, c: Config, ghost text: string) returns (n: nat)
    requires InMemory(c)
    requires start <= |text| < buf.Length && buf[..start] + Render(FromApps(c)) == text
    modifies buf
    ensures n == |text| && buf[..n] == text && buf[n] == '\0'
  {
    ghost var last: seq<Tok> := [Raw("}")];
    n := EmitPart(buf, start, Open("apps", ":{"), AppToks(Listed(c), true) + ([Raw("}")] + FromWifi(c)), text);
    n := EmitApps(buf, n, c, [Raw("}")] + FromWifi(c), text);
    n := EmitPart(buf, n, [Raw("}")], FromWifi(c), text);
    if c.ssid != "" {
      var value := [Str("ssid"), Raw(":"), Str(c.ssid), Raw("}")];
      n := EmitPart(buf, n, [Raw(",")], Open("wifi", ":{") + (value + last), text);
      n := EmitPart(buf, n, Open("wifi", ":{"), value + last, text);
      n := EmitPart(buf, n, value, last, text);
    }
    assert last + [] == last;
    n := EmitPart(buf, n, [Raw("}")], [], text);
    assert buf[..n] + "" == buf[..n];
  }

  // ----- Parsing with positions into the text

  method JsonFindKey(json: string, from: nat, key: string) returns (p: Option<nat>)
    requires from <= |json|
    ensures p.None? <==> FindKey(json[from..], key).None?
    ensures p.Some? ==> from <= p.value <= |json| && Some(json[p.value..]) == FindKey(json[from..], key)
  {
    var q := FindText(json, from, Quoted(key));
    if q.None? {
      return None;
    }
    var start := q.value + |key| + 2;
    assert json[q.value..][|key| + 2..] == json[start..];
    var r := PassColons(json, start);
    return Some(r);
  }

  method JsonGetInt(json: string, from: nat, key: string, def: int) returns (n: int)
    requires from <= |json|
    ensures n == GetInt(json[from..], key, def)
  {
    var p := JsonFindKey(json, from, key);
    if p.None? {
      return def;
    }
    return Atoi(json[p.value..]);
  }

  method JsonGetStr(json: string, from: nat, key: string, prior: string, max: nat) returns (out: string)
    requires from <= |json|
    ensures out == GetStr(json[from..], key, prior, max)
  {
    hide FindKey, TakeText, Quoted;
    var p := JsonFindKey(json, from, key);
    if p.None? || At(json, p.value) != QUOTE {
      return prior;
    }
    var end: nat;
    out, end := CopyText(json, p.value + 1, max);
    assert json[p.value..][1..] == json[p.value + 1..];
  }

  method JsonParseScheduleTime(json: string, c: Config) returns (d: Config)
    ensures d == WithTime(c, ParseTime(json))
  {
    assert json[0..] == json;
    var sched := FindText(json, 0, Quoted("schedule"));
    if sched.None? {
      return c;
    }
    var t := JsonFindKey(json, sched.value, "time");
    if t.None? || At(json, t.value) != QUOTE {
      return c;
    }
    assert json[t.value..][1..] == json[t.value + 1..];
    var hm := ScanTime(json[t.value + 1..]);
    if hm.None? {
      return c;
    }
    return c.(hour := U8(hm.value.0), min := U8(hm.value.1));
  }

  method JsonParseScheduleDays(json: string, c: Config) returns (d: Config)
    ensures d == WithDays(c, ParseDays(json))
  {
    assert json[0..] == json;
    var sched := FindText(json, 0, Quoted("schedule"));
    if sched.None? {
      return c;
    }
    var days := FindText(json, sched.value, Quoted("days"));
    if days.None? {
      return c;
    }
    var list := FindChar(json, days.value, '[');
    if list.None? {
      return c;
    }
    var mask := ReadDayList(json, list.value + 1);
    assert json[list.value..][1..] == json[list.value + 1..];
    return c.(days := U8(mask));
  }

  method ReadDayList(json: string, start: nat) returns (mask: nat)
    requires start <= |json|
    ensures mask == DayMask(json[start..], 0)
  {
    var p := start;
    mask := 0;
    while p < |json| && json[p] != ']'
      invariant start <= p <= |json| && DayMask(json[start..], 0) == DayMask(json[p..], mask)
    {
      assert json[p..][1..] == json[p + 1..];
      if '0' <= json[p] <= '6' {
        mask := SetBit(mask, DigitValue(json[p]));
      }
      p := p + 1;
    }
  }

  method PassGaps(s: string, from: nat) returns (p: nat)
    requires from <= |s|
    ensures from <= p <= |s| && s[p..] == SkipGaps(s[from..])
  {
    p := from;
    while p < |s| && (s[p] == ' ' || s[p] == ',' || s[p] == '\n' || s[p] == '\r')
      invariant from <= p <= |s| && SkipGaps(s[from..]) == SkipGaps(s[p..])
    {
      assert s[p..][1..] == s[p + 1..];
      p := p + 1;
    }
  }

  /** The quoted name at p, and the position of its value. */
  method TakeName(s: string, p: nat) returns (name: string, q: nat)
    requires p < |s| && s[p] == QUOTE
    ensures q <= |s| && AppName(name, s[q..]) == ReadName(s[p..]) && p < q
  {
    var end: nat;
    assert s[p..][1..] == s[p + 1..];
    name, end := CopyText(s, p + 1, APP_NAME_LEN - 1);
    assert s[p..][1 + |name|..] == s[end..];
    if end < |s| && s[end] == QUOTE {
      assert s[end..][1..] == s[end + 1..];
      end := end + 1;
    }
    q := PassColons(s, end);
  }

  method TakeValue(s: string, q: nat, name: string, a: AppList) returns (b: AppList, p: nat)
    requires q <= |s| && a.count < |a.apps|
    ensures q <= p <= |s| && (b, s[p..]) == ReadValue(a, AppName(name, s[q..]))
  {
    var yes := Matches(s, q, "true");
    if yes {
      assert s[q..][4..] == s[q + 4..];
      return AppList(a.apps[a.count := App(name, true)], a.count + 1), q + 4;
    }
    var no := Matches(s, q, "false");
    if no {
      assert s[q..][5..] == s[q + 5..];
      return AppList(a.apps[a.count := App(name, false)], a.count + 1), q + 5;
    }
    return AppList(a.apps[a.count := App(name, a.apps[a.count].enabled)], a.count + 1), q;
  }

  method JsonParseApps(json: string, a: AppList) returns (b: AppList)
    requires |a.apps| == CONFIG_MAX_APPS && a.count <= CONFIG_MAX_APPS
    ensures b == ParseApps(json, a)
  {
    assert json[0..] == json;
    var apps := FindText(json, 0, Quoted("apps"));
    if apps.None? {
      return a;
    }
    var list := FindChar(json, apps.value, '{');
    if list.None? {
      return a;
    }
    var p := list.value + 1;
    assert json[list.value..][1..] == json[p..];
    b := AppList(a.apps, 0);
    ghost var all := AppsFrom(json[p..], b);
    while p < |json| && json[p] != '}' && b.count < CONFIG_MAX_APPS
      invariant p <= |json| && |b.apps| == CONFIG_MAX_APPS && b.count <= CONFIG_MAX_APPS
      invariant all == AppsFrom(json[p..], b)
      decreases |json| - p
    {
      var t := PassGaps(json, p);
      if At(json, t) == '}' || At(json, t) != QUOTE {
        return;
      }
      var name, q := TakeName(json, t);
      b, p := TakeValue(json, q, name, b);
    }
  }

  method JsonParseWifi(json: string, ssid: string, password: string) returns (s: string, p: string)
    ensures (s, p) == ParseWifi(json, ssid, password)
  {
    assert json[0..] == json;
    var wifi := FindText(json, 0, Quoted("wifi"));
    if wifi.None? {
      return ssid, password;
    }
    s := JsonGetStr(json, wifi.value, "ssid", ssid, SSID_LEN - 1);
    p := JsonGetStr(json, wifi.value, "password", password, PASS_LEN - 1);
  }

  method JsonParseTiming(json: string, c: Config) returns (d: Config)
    ensures d == ParseTiming(json, c)
  {
    assert json[0..] == json;
    var timing := FindText(json, 0, Quoted("timing"));
    if timing.None? {
      return c;
    }
    var bootWait := JsonGetInt(json, timing.value, "boot_wait_sec", 45);
    var wakeWait := JsonGetInt(json, timing.value, "wake_wait_sec", 5);
    var keystroke := JsonGetInt(json, timing.value, "keystroke_ms", 50);
    var retryCount := JsonGetInt(json, timing.value, "retry_count", 3);
    var retryInterval := JsonGetInt(json, timing.value, "retry_interval_sec", 10);
    var dialogWait := JsonGetInt(json, timing.value, "dialog_wait_sec", 1);
    d := c.(bootWait := U16(bootWait), wakeWait := U16(wakeWait), keystroke := U16(keystroke),
            retryCount := U8(retryCount), retryInterval := U16(retryInterval), dialogWait := U16(dialogWait));
  }

  method ConfigFromJson(json: string) returns (r: Option<Config>)
    ensures r == FromJson(json)
  {
    if At(json, 0) != '{' {
      return None;
    }
    assert json[0..] == json;
    var c := Defaults();
    ghost var d := c;
    var version := JsonGetInt(json, 0, "version", 2);
    var firmware := JsonGetStr(json, 0, "firmware", c.firmware, FIRMWARE_LEN - 1);
    var device := JsonGetStr(json, 0, "device", c.device, DEVICE_LEN - 1);
    var locale := JsonGetStr(json, 0, "locale", c.locale, LOCALE_LEN - 1);
    c := c.(version := U8(version), firmware := firmware, device := device, locale := locale);
    assert c == TopLevel(json, d);
    c := JsonParseTiming(json, c);
    c := JsonParseScheduleTime(json, c);
    c := JsonParseScheduleDays(json, c);
    var a := JsonParseApps(json, AppList(c.apps, c.appCount));
    var ssid, password := JsonParseWifi(json, c.ssid, c.password);
    return Some(c.(apps := a.apps, appCount := a.count, ssid := ssid, password := password));
  }

  // ----- The stored configuration

  /** The C string in the buffer after reading a file into it: room is left for a terminator. */
  function ReadUpTo(text: string): string {
    CStr(if |text| < SERIAL_BUF_SIZE then text else text[..SERIAL_BUF_SIZE - 1])
  }

  // ----- A saved configuration after a restart

  /** C strings hold no NUL. */
  predicate NulFree(c: Config)
    requires InMemory(c)
  {
    '\0' !in c.firmware && '\0' !in c.device && '\0' !in c.locale && '\0' !in c.ssid &&
    forall i :: 0 <= i < |Listed(c)| ==> '\0' !in Listed(c)[i].name
  }

  predicate NoNul(ts: seq<Tok>) {
    Avoids(ts, '\0')
  }

  lemma NumPrepends(key: string, n: nat, end: string, rest: seq<Tok>)
    requires '\0' !in key && '\0' !in end && NoNul(rest)
    ensures NoNul(NumField(key, n, end) + rest)
  {
    assert '\0' !in Dec(n);
  }

  lemma StrPrepends(key: string, text: string, rest: seq<Tok>)
    requires '\0' !in key && '\0' !in text && NoNul(rest)
    ensures NoNul(StrField(key, text) + rest)
  {}

  lemma OpenPrepends(key: string, bracket: string, rest: seq<Tok>)
    requires '\0' !in key && '\0' !in bracket && NoNul(rest)
    ensures NoNul(Open(key, bracket) + rest)
  {}

  lemma {:induction false} AppsNoNul(apps: seq<App>, first: bool)
    requires forall i :: 0 <= i < |apps| ==> '\0' !in apps[i].name
    ensures NoNul(AppToks(apps, first))
  {
    if apps != [] {
      AppsNoNul(apps[1..], false);
    }
  }

  lemma {:induction false} DaysNoNul(days: byte, d: nat, first: bool)
    requires d <= 7
    ensures NoNul(DayToks(days, d, first))
    decreases 7 - d
  {
    if d < 7 {
      DaysNoNul(days, d + 1, false);
      DaysNoNul(days, d + 1, first);
      assert '\0' !in Dec(d);
    }
  }

  lemma EndNoNul(c: Config)
    requires InMemory(c) && NulFree(c)
    ensures NoNul(FromApps(c))
  {
    AppsNoNul(Listed(c), true);
    OpenPrepends("apps", ":{", AppToks(Listed(c), true) + ([Raw("}")] + FromWifi(c)));
  }

  lemma TimingNoNul(c: Config)
    requires InMemory(c) && NulFree(c)
    ensures NoNul(FromTiming(c))
  {
    EndNoNul(c);
    hide FromApps, NulFree, NoNul;
    NumPrepends("dialog_wait_sec", c.dialogWait, "},", FromApps(c));
    NumPrepends("retry_interval_sec", c.retryInterval, ",", FromDialog(c));
    NumPrepends("retry_count", c.retryCount, ",", FromInterval(c));
    NumPrepends("keystroke_ms", c.keystroke, ",", FromRetry(c));
    NumPrepends("wake_wait_sec", c.wakeWait, ",", FromKeystroke(c));
    NumPrepends("boot_wait_sec", c.bootWait, ",", FromWake(c));
    OpenPrepends("timing", ":{", FromBoot(c));
  }

  lemma ScheduleNoNul(c: Config)
    requires InMemory(c) && NulFree(c)
    ensures NoNul(FromSchedule(c))
  {
    TimingNoNul(c);
    DaysNoNul(c.days, 0, true);
    ConfigRoundTrip.TimeAvoids(c, '\0');
    var list := DayToks(c.days, 0, true) + ([Raw("]},")] + FromTiming(c));
    assert NoNul(list);
    hide NulFree, NoNul, Dec2;
    OpenPrepends("days", ":[", list);
    StrPrepends("time", Dec2(c.hour) + ":" + Dec2(c.min), FromDays(c));
    OpenPrepends("schedule", ":{", FromTime(c));
  }

  lemma PrintNoNul(c: Config)
    requires InMemory(c) && NulFree(c)
    ensures '\0' !in Print(c)
  {
    ScheduleNoNul(c);
    StrPrepends("locale", c.locale, FromSchedule(c));
    StrPrepends("device", c.device, FromLocale(c));
    StrPrepends("firmware", c.firmware, FromDevice(c));
    NumPrepends("version", c.version, ",", FromFirmware(c));
    AvoidsRender(Toks(c), '\0');
  }

  /**
   * What is saved now is loaded at the next power-on, whatever it holds: the file fits the buffer whole. So the
   * configuration survives, but for the password, exactly when it round trips.
   */
  lemma SavedConfigLoads(c: Config)
    requires InMemory(c) && NulFree(c)
    ensures FromJson(ReadUpTo(Print(c))) == FromJson(Print(c))
    ensures ConfigRoundTrip.Clean(c) ==>
      FromJson(ReadUpTo(Print(c))) == Some(ConfigCollections.ReadBack(c)) &&
        ConfigCollections.ReadBack(c).password == ""
  {
    hide Print, FromJson, NulFree, InMemory;
    PrintFits(c);
    PrintNoNul(c);
    CStrOfPlain(Print(c));
    if ConfigRoundTrip.Clean(c) {
      ConfigCollections.ParseOfPrint(c);
    }
  }

  class Store {
    var config: Config
    /** /config.json; a write either replaces it or leaves it alone. */
    var file: Option<string>

    ghost predicate Valid()
      reads this
    {
      InMemory(config)
    }

    constructor (file: Option<string>)
      ensures Valid() && this.file == file
    {
      config := Defaults();
      this.file := file;
    }

    method SaveConfig(writeOk: bool) returns (ok: bool)
      requires Valid()
      modifies this`file
      ensures ok == writeOk
      ensures file == if writeOk then Some(Print(config)) else old(file)
    {
      var buf := new char[SERIAL_BUF_SIZE](_ => '\0');
      var n := ConfigToJson(config, buf);
      if n <= 0 {
        PrintFits(config);
        return false;
      }
      if writeOk {
        file := Some(buf[..n]);
      }
      return writeOk;
    }

    /** SET_CONFIG: parse into a local copy, then replace the configuration and save it. */
    method SetConfigJson(json: string, writeOk: bool) returns (ok: bool)
      requires Valid()
      modifies this
      ensures Valid()
      ensures match FromJson(json)
        case None => !ok && config == old(config) && file == old(file)
        case Some(c) => ok == writeOk && config == c && file == if writeOk then Some(Print(c)) else old(file)
    {
      ParserIsTotal(json);
      var cfg := ConfigFromJson(json);
      if cfg.None? {
        return false;
      }
      config := cfg.value;
      ok := SaveConfig(writeOk);
    }

    /** At power-on: the file, or the defaults when there is none. */
    method LoadConfig(writeOk: bool) returns (ok: bool)
      requires Valid()
      modifies this
      ensures Valid()
      ensures old(file).None? || old(file).value == "" ==>
        config == Defaults() && ok == writeOk && file == if writeOk then Some(Print(config)) else old(file)
      ensures old(file).Some? && old(file).value != "" ==>
        file == old(file) && ok == FromJson(ReadUpTo(old(file).value)).Some? &&
        config == if ok then FromJson(ReadUpTo(old(file).value)).value else old(config)
    {
      if file.None? || file.value == "" {
        config := Defaults();
        ok := SaveConfig(writeOk);
        return;
      }
      var text := ReadUpTo(file.value);
      ParserIsTotal(text);
      var cfg := ConfigFromJson(text);
      if cfg.None? {
        return false;
      }
      config := cfg.value;
      return true;
    }
  }
}
