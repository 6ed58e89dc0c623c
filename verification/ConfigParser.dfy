/** What the configuration parser of storage.c computes, as functions of the text. */
module ConfigParser {
  import opened Wrappers
  import opened Bytes
  import opened CStrings
  import opened Config

  // ----- What the parser reads, as functions

  function U8(n: int): byte {
    n % 256
  }

  function U16(n: int): u16 {
    n % 0x1_0000
  }

  function FindKey(json: string, key: string): Option<string> {
    match StrStr(json, Quoted(key))
    case None => None
    case Some(s) => Some(SkipColons(s[|key| + 2..]))
  }

  function GetInt(json: string, key: string, def: int): int {
    match FindKey(json, key)
    case None => def
    case Some(p) => Atoi(p)
  }

  /** Text after a key, or `prior` when the key is missing or no quoted string follows it. */
  function GetStr(json: string, key: string, prior: string, max: nat): (r: string)
    ensures r == prior || (|r| <= max && QuoteFree(r))
  {
    match FindKey(json, key)
    case None => prior
    case Some(p) => if p == "" || p[0] != QUOTE then prior else TakeText(p[1..], max)
  }

  function ParseTime(json: string): Option<(byte, byte)> {
    match StrStr(json, Quoted("schedule"))
    case None => None
    case Some(sched) =>
      match FindKey(sched, "time")
      case None => None
      case Some(p) =>
        if p == "" || p[0] != QUOTE then None
        else match ScanTime(p[1..])
          case None => None
          case Some((h, m)) => Some((U8(h), U8(m)))
  }

  /** `m |= 1 << d` */
  function SetBit(m: nat, d: nat): nat {
    if Bit(m, d) then m else m + Pow2(d)
  }

  /** Digits 0 to 6 up to the closing bracket. */
  function DayMask(s: string, m: nat): nat {
    if s == "" || s[0] == ']' then m
    else DayMask(s[1..], if '0' <= s[0] <= '6' then SetBit(m, DigitValue(s[0])) else m)
  }

  function ParseDays(json: string): Option<nat> {
    match StrStr(json, Quoted("schedule"))
    case None => None
    case Some(sched) =>
      match StrStr(sched, Quoted("days"))
      case None => None
      case Some(days) =>
        match StrChr(days, '[')
        case None => None
        case Some(list) => Some(DayMask(list[1..], 0))
  }

  /** Spaces, commas and line ends between apps. */
  function SkipGaps(s: string): (r: string)
    ensures |r| <= |s|
  {
    if s != "" && (s[0] == ' ' || s[0] == ',' || s[0] == '\n' || s[0] == '\r') then SkipGaps(s[1..]) else s
  }

  datatype AppList = AppList(apps: seq<App>, count: nat)

  /** One name and what follows it up to its value. */
  datatype AppName = AppName(name: string, rest: string)

  function ReadName(t: string): (r: AppName)
    requires t != "" && t[0] == QUOTE
    ensures |r.rest| < |t| && |r.name| < APP_NAME_LEN && QuoteFree(r.name)
  {
    var name := TakeText(t[1..], APP_NAME_LEN - 1);
    var u := t[1 + |name|..];
    AppName(name, SkipColons(if u != "" && u[0] == QUOTE then u[1..] else u))
  }

  /** The list once a name has been read, and the text after its value. */
  function ReadValue(a: AppList, n: AppName): (r: (AppList, string))
    requires a.count < |a.apps|
    ensures |r.1| <= |n.rest| && |r.0.apps| == |a.apps| && r.0.count == a.count + 1
  {
    var w := n.rest;
    if "true" <= w then (AppList(a.apps[a.count := App(n.name, true)], a.count + 1), w[4..])
    else if "false" <= w then (AppList(a.apps[a.count := App(n.name, false)], a.count + 1), w[5..])
    else (AppList(a.apps[a.count := App(n.name, a.apps[a.count].enabled)], a.count + 1), w)
  }

  function AppsFrom(s: string, a: AppList): (r: AppList)
    requires |a.apps| == CONFIG_MAX_APPS && a.count <= CONFIG_MAX_APPS
    ensures |r.apps| == CONFIG_MAX_APPS && r.count <= CONFIG_MAX_APPS
    decreases |s|
  {
    if s == "" || s[0] == '}' || a.count >= CONFIG_MAX_APPS then a
    else
      var t := SkipGaps(s);
      if t == "" || t[0] != QUOTE then a
      else
        var (a', s') := ReadValue(a, ReadName(t));
        AppsFrom(s', a')
  }

  function ParseApps(json: string, a: AppList): (r: AppList)
    requires |a.apps| == CONFIG_MAX_APPS && a.count <= CONFIG_MAX_APPS
    ensures |r.apps| == CONFIG_MAX_APPS && r.count <= CONFIG_MAX_APPS
  {
    match StrStr(json, Quoted("apps"))
    case None => a
    case Some(apps) =>
      match StrChr(apps, '{')
      case None => a
      case Some(list) => AppsFrom(list[1..], AppList(a.apps, 0))
  }

  /** SSID and password. */
  function ParseWifi(json: string, ssid: string, password: string): (r: (string, string))
    ensures r.0 == ssid || (|r.0| < SSID_LEN && QuoteFree(r.0))
    ensures r.1 == password || (|r.1| < PASS_LEN && QuoteFree(r.1))
  {
    match StrStr(json, Quoted("wifi"))
    case None => (ssid, password)
    case Some(wifi) => (GetStr(wifi, "ssid", ssid, SSID_LEN - 1), GetStr(wifi, "password", password, PASS_LEN - 1))
  }

  function WithTiming(c: Config, timing: string): Config {
    c.(bootWait := U16(GetInt(timing, "boot_wait_sec", 45)),
       wakeWait := U16(GetInt(timing, "wake_wait_sec", 5)),
       keystroke := U16(GetInt(timing, "keystroke_ms", 50)),
       retryCount := U8(GetInt(timing, "retry_count", 3)),
       retryInterval := U16(GetInt(timing, "retry_interval_sec", 10)),
       dialogWait := U16(GetInt(timing, "dialog_wait_sec", 1)))
  }

  function ParseTiming(json: string, c: Config): Config {
    match StrStr(json, Quoted("timing"))
    case None => c
    case Some(timing) => WithTiming(c, timing)
  }

  function WithTime(c: Config, t: Option<(byte, byte)>): Config {
    match t
    case None => c
    case Some((h, m)) => c.(hour := h, min := m)
  }

  function WithDays(c: Config, d: Option<nat>): Config {
    match d
    case None => c
    case Some(m) => c.(days := U8(m))
  }

  /** The fields read before the nested objects. */
  function TopLevel(json: string, d: Config): Config {
    d.(version := U8(GetInt(json, "version", 2)),
       firmware := GetStr(json, "firmware", d.firmware, FIRMWARE_LEN - 1),
       device := GetStr(json, "device", d.device, DEVICE_LEN - 1),
       locale := GetStr(json, "locale", d.locale, LOCALE_LEN - 1))
  }

  /** The apps and wifi objects. */
  function Collections(json: string, t: Config): Config
    requires |t.apps| == CONFIG_MAX_APPS && t.appCount <= CONFIG_MAX_APPS
  {
    var a := ParseApps(json, AppList(t.apps, t.appCount));
    var w := ParseWifi(json, t.ssid, t.password);
    t.(apps := a.apps, appCount := a.count, ssid := w.0, password := w.1)
  }

  /** `config_from_json` */
  function FromJson(json: string): Option<Config> {
    if json == "" || json[0] != '{' then None
    else
      var c := ParseTiming(json, TopLevel(json, Defaults()));
      Some(Collections(json, WithDays(WithTime(c, ParseTime(json)), ParseDays(json))))
  }

  // ----- Totality and bounds

  /** What any parse yields: terminated strings without quotes, at most eight apps, a seven-bit day mask. */
  predicate Parsed(c: Config) {
    InMemory(c) && c.days < 128 && c.appCount <= CONFIG_MAX_APPS &&
    QuoteFree(c.firmware) && QuoteFree(c.device) && QuoteFree(c.locale) && QuoteFree(c.ssid) && QuoteFree(c.password) &&
    forall i :: 0 <= i < CONFIG_MAX_APPS ==> QuoteFree(c.apps[i].name)
  }

  lemma SetBitStaysSmall(m: nat, d: nat)
    requires m < 128 && d < 7
    ensures SetBit(m, d) < 128
  {
    assert Pow2(0) == 1 && Pow2(1) == 2 && Pow2(2) == 4 && Pow2(3) == 8 && Pow2(4) == 16 && Pow2(5) == 32 &&
      Pow2(6) == 64;
    if d == 6 {
      assert !Bit(m, d) ==> m < 64;
    } else if d == 5 {
      assert !Bit(m, d) ==> m < 96;
    } else if d == 4 {
      assert !Bit(m, d) ==> m < 112;
    } else if d == 3 {
      assert !Bit(m, d) ==> m < 120;
    }
  }

  lemma {:induction false} DayMaskIsSmall(s: string, m: nat)
    requires m < 128
    ensures DayMask(s, m) < 128
  {
    if s != "" && s[0] != ']' {
      if '0' <= s[0] <= '6' {
        SetBitStaysSmall(m, DigitValue(s[0]));
        DayMaskIsSmall(s[1..], SetBit(m, DigitValue(s[0])));
      } else {
        DayMaskIsSmall(s[1..], m);
      }
    }
  }

  ghost predicate CleanApps(apps: seq<App>) {
    forall i :: 0 <= i < |apps| ==> |apps[i].name| < APP_NAME_LEN && QuoteFree(apps[i].name)
  }

  lemma {:induction false} AppsFromIsClean(s: string, a: AppList)
    requires |a.apps| == CONFIG_MAX_APPS && a.count <= CONFIG_MAX_APPS && CleanApps(a.apps)
    ensures CleanApps(AppsFrom(s, a).apps)
    decreases |s|
  {
    if !(s == "" || s[0] == '}' || a.count >= CONFIG_MAX_APPS) {
      var t := SkipGaps(s);
      if !(t == "" || t[0] != QUOTE) {
        var (a', s') := ReadValue(a, ReadName(t));
        AppsFromIsClean(s', a');
      }
    }
  }

  lemma DefaultsAreClean()
    ensures CleanApps(Defaults().apps) && Parsed(Defaults())
  {
    var d := Defaults();
    assert d.apps[0].name == "lock_screen" && d.apps[1].name == "MarketSpeed2.exe";
    assert forall i :: 2 <= i < 8 ==> d.apps[i].name == "";
  }

  /** On every input the parser is defined and yields a configuration with these bounds, or refuses. */
  lemma ParserIsTotal(json: string)
    ensures FromJson(json).Some? <==> json != "" && json[0] == '{'
    ensures FromJson(json).Some? ==> Parsed(FromJson(json).value)
  {
    DefaultsAreClean();
    if json != "" && json[0] == '{' {
      var c0 := TopLevel(json, Defaults());
      var c1 := ParseTiming(json, c0);
      var c2 := WithDays(WithTime(c1, ParseTime(json)), ParseDays(json));
      TopLevelIsClean(json, Defaults());
      TimingIsClean(json, c0);
      TimeIsClean(c1, ParseTime(json));
      DaysAreSmall(json);
      DaysAreClean(WithTime(c1, ParseTime(json)), ParseDays(json));
      CollectionsAreClean(json, c2);
    }
  }

  lemma TopLevelIsClean(json: string, d: Config)
    requires Parsed(d)
    ensures Parsed(TopLevel(json, d))
  {}

  lemma TimingIsClean(json: string, c: Config)
    requires Parsed(c)
    ensures Parsed(ParseTiming(json, c))
  {}

  lemma TimeIsClean(c: Config, t: Option<(byte, byte)>)
    requires Parsed(c)
    ensures Parsed(WithTime(c, t))
  {}

  lemma DaysAreClean(c: Config, d: Option<nat>)
    requires Parsed(c) && (d.Some? ==> d.value < 128)
    ensures Parsed(WithDays(c, d))
  {}

  lemma CollectionsAreClean(json: string, c: Config)
    requires Parsed(c)
    ensures Parsed(Collections(json, c))
  {
    AppsAreClean(json, AppList(c.apps, c.appCount));
  }

  lemma DaysAreSmall(json: string)
    ensures ParseDays(json).Some? ==> ParseDays(json).value < 128
  {
    match StrStr(json, Quoted("schedule"))
    case None =>
    case Some(sched) =>
      match StrStr(sched, Quoted("days"))
      case None =>
      case Some(days) =>
        match StrChr(days, '[')
        case None =>
        case Some(list) => DayMaskIsSmall(list[1..], 0);
  }

  lemma AppsAreClean(json: string, a: AppList)
    requires |a.apps| == CONFIG_MAX_APPS && a.count <= CONFIG_MAX_APPS && CleanApps(a.apps)
    ensures CleanApps(ParseApps(json, a).apps)
  {
    match StrStr(json, Quoted("apps"))
    case None =>
    case Some(apps) =>
      match StrChr(apps, '{')
      case None =>
      case Some(list) => AppsFromIsClean(list[1..], AppList(a.apps, 0));
  }
}
