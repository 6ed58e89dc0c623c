/** The round trip of the apps and of the wifi object, and the theorem for the whole configuration. */
module ConfigCollections {
  import opened Wrappers
  import opened CStrings
  import opened JsonText
  import opened Config
  import opened ConfigParser
  import opened ConfigRoundTrip

  // ----- Apps

  function Flag(enabled: bool): string {
    if enabled then "true" else "false"
  }

  lemma GapsEnd(comma: string, s: string)
    requires (comma == "" || comma == ",") && s != "" && s[0] == QUOTE
    ensures SkipGaps(comma + s) == s
  {
    if comma == "," {
      assert ("," + s)[1..] == s;
    } else {
      assert "" + s == s;
    }
  }

  lemma NameReads(name: string, value: string)
    requires QuoteFree(name) && |name| < APP_NAME_LEN && value != "" && value[0] != ' ' && value[0] != ':'
    ensures ReadName(Quoted(name) + (":" + value)) == AppName(name, value)
  {
    hide SkipColons, TakeText;
    var t := Quoted(name) + (":" + value);
    assert t[1..] == name + [QUOTE] + (":" + value);
    TakeTextStops(name, ":" + value, APP_NAME_LEN - 1);
    assert t[1 + |name|..] == [QUOTE] + (":" + value);
    assert ([QUOTE] + (":" + value))[1..] == ":" + value;
    SkipOneColon(value);
  }

  lemma ValueReads(a: AppList, name: string, enabled: bool, rest: string)
    requires a.count < |a.apps|
    ensures ReadValue(a, AppName(name, Flag(enabled) + rest)) ==
      (AppList(a.apps[a.count := App(name, enabled)], a.count + 1), rest)
  {
    var w := Flag(enabled) + rest;
    if enabled {
      assert "true" <= w && w[4..] == rest;
    } else {
      assert w[0] == 'f' && "false" <= w && w[5..] == rest;
    }
  }

  /** One printed app, read back. */
  lemma OneAppReads(a: AppList, app: App, comma: string, rest: string)
    requires |a.apps| == CONFIG_MAX_APPS && a.count < CONFIG_MAX_APPS
    requires QuoteFree(app.name) && |app.name| < APP_NAME_LEN && (comma == "" || comma == ",")
    ensures AppsFrom(comma + (Quoted(app.name) + (":" + (Flag(app.enabled) + rest))), a) ==
      AppsFrom(rest, AppList(a.apps[a.count := app], a.count + 1))
  {
    hide ReadName, ReadValue, SkipGaps;
    var t := Quoted(app.name) + (":" + (Flag(app.enabled) + rest));
    var s := comma + t;
    GapsEnd(comma, t);
    NameReads(app.name, Flag(app.enabled) + rest);
    ValueReads(a, app.name, app.enabled, rest);
    assert s[0] == if comma == "" then QUOTE else ',';
  }

  lemma AppsText(apps: seq<App>, first: bool, tail: string)
    requires apps != []
    ensures Render(AppToks(apps, first)) + tail ==
      (if first then "" else ",") +
      (Quoted(apps[0].name) + (":" + (Flag(apps[0].enabled) + (Render(AppToks(apps[1..], false)) + tail))))
  {
    hide Quoted;
    var more := Render(AppToks(apps[1..], false));
    AppFieldText(apps[0], first, AppToks(apps[1..], false));
    Reassociate(if first then "" else ",", Quoted(apps[0].name), ":", Flag(apps[0].enabled), more, tail);
  }

  lemma Reassociate(a: string, b: string, c: string, d: string, e: string, f: string)
    ensures a + (b + (c + (d + e))) + f == a + (b + (c + (d + (e + f))))
  {
    Assoc(d, e, f);
    Assoc(c, d + e, f);
    Assoc(b, c + (d + e), f);
    Assoc(a, b + (c + (d + e)), f);
  }

  /** Writing apps one by one from slot `at` on. */
  lemma SpliceStep(slots: seq<App>, at: nat, apps: seq<App>)
    requires apps != [] && at + |apps| <= |slots|
    ensures var s := slots[at := apps[0]];
      s[..at + 1] + apps[1..] + s[at + 1 + |apps[1..]|..] == slots[..at] + apps + slots[at + |apps|..]
  {}

  lemma NothingRendered()
    ensures Render([]) == ""
  {}

  lemma NoAppsReadBack(tail: string, a: AppList)
    requires |a.apps| == CONFIG_MAX_APPS && a.count <= CONFIG_MAX_APPS && tail != "" && tail[0] == '}'
    ensures AppsFrom("" + tail, a) == AppList(a.apps[..a.count] + [] + a.apps[a.count..], a.count)
  {
    assert "" + tail == tail;
    assert a.apps[..a.count] + [] + a.apps[a.count..] == a.apps;
  }

  lemma {:induction false} AppsReadBack(apps: seq<App>, first: bool, tail: string, a: AppList)
    requires |a.apps| == CONFIG_MAX_APPS && a.count + |apps| <= CONFIG_MAX_APPS && tail != "" && tail[0] == '}'
    requires forall i :: 0 <= i < |apps| ==> QuoteFree(apps[i].name) && |apps[i].name| < APP_NAME_LEN
    ensures AppsFrom(Render(AppToks(apps, first)) + tail, a) ==
      AppList(a.apps[..a.count] + apps + a.apps[a.count + |apps|..], a.count + |apps|)
    decreases |apps|
  {
    hide AppsFrom, Quoted, Render, Flag;
    if apps == [] {
      assert AppToks(apps, first) == [];
      NothingRendered();
      NoAppsReadBack(tail, a);
    } else {
      AppsText(apps, first, tail);
      OneAppReads(a, apps[0], if first then "" else ",", Render(AppToks(apps[1..], false)) + tail);
      SpliceStep(a.apps, a.count, apps);
      AppsReadBack(apps[1..], false, tail, AppList(a.apps[a.count := apps[0]], a.count + 1));
    }
  }

  lemma AppsFound(c: Config)
    requires InMemory(c) && Clean(c)
    ensures StrStr(Print(c), Quoted("apps")) == Some(Render(SectionAt(c, "apps", FromApps(c))))
  {
    AppsIsKey();
    hide FirstStr, Render, WellFormed, StrStr, Clean, KeyLike;
    SkipSchedule(c, "apps");
    SkipTiming(c, "apps");
    HitOpen("apps", ":{", AppToks(Listed(c), true) + ([Raw("}")] + FromWifi(c)));
    SectionFound(c, "apps", FromApps(c));
  }

  /**
   * The schedule object taken for the apps: its keys "time" and "days" and the time, with the flags the first
   * three default apps have.
   */
  function ScheduleAsApps(c: Config): (apps: seq<App>) {
    [App("time", true), App(Dec2(c.hour) + ":" + Dec2(c.min), true), App("days", false)]
  }

  /** The text from a brace in the device or locale on. */
  function BraceText(c: Config): (text: string)
    requires InMemory(c) && AppsBracketed(c)
    ensures text != "" && text[0] == '{'
  {
    if c.firmware == "apps" && '{' in c.device then FromBracket(c.device, '{', Render(FromLocale(c)))
    else FromBracket(c.locale, '{', Render(FromSchedule(c)))
  }

  /**
   * What a parse takes for the apps: those printed, or, where a value is called "apps", the schedule object or the text
   * from a brace in a later value on.
   */
  function AppsOf(c: Config): (a: AppList)
    requires InMemory(c)
    ensures |a.apps| == CONFIG_MAX_APPS && a.count <= CONFIG_MAX_APPS
  {
    var slots := Defaults().apps;
    if !Named(c, "apps") then AppList(Listed(c) + slots[|Listed(c)|..], |Listed(c)|)
    else if AppsBracketed(c) then AppsFrom(BraceText(c)[1..], AppList(slots, 0))
    else AppList(ScheduleAsApps(c) + slots[3..], 3)
  }

  /** The apps come back in place; slots beyond them keep what they held. */
  lemma AppsRead(c: Config, a: AppList)
    requires InMemory(c) && Clean(c) && !Named(c, "apps") && |a.apps| == CONFIG_MAX_APPS && a.count <= CONFIG_MAX_APPS
    ensures ParseApps(Print(c), a) == AppList(Listed(c) + a.apps[|Listed(c)|..], |Listed(c)|)
  {
    hide Render, StrStr, StrChr, Print, Clean, AppsFrom, ParseApps, AppToks, FromWifi, KeyLike;
    var toks, tail := AppToks(Listed(c), true), [Raw("}")] + FromWifi(c);
    var body := Render(toks) + Render(tail);
    AppsFound(c);
    AppsIsKey();
    OpensBracket("apps", '{', toks, tail);
    assert ":{" == ":" + ['{'];
    AppsParse(Print(c), Render(FromApps(c)), body, a);
    RenderOne(Raw("}"), FromWifi(c));
    NamesAreClean(c);
    AppsReadBack(Listed(c), true, Render(tail), AppList(a.apps, 0));
    assert a.apps[..0] + Listed(c) + a.apps[0 + |Listed(c)|..] == Listed(c) + a.apps[|Listed(c)|..];
  }

  // ----- The schedule read as apps

  /** A name whose value is neither true nor false: the slot keeps its flag, and the text goes on at the value. */
  lemma OddAppReads(a: AppList, comma: string, name: string, rest: string, after: string)
    requires |a.apps| == CONFIG_MAX_APPS && a.count < CONFIG_MAX_APPS
    requires QuoteFree(name) && |name| < APP_NAME_LEN && (comma == "" || comma == ",")
    requires rest == SkipColons(after) && rest != "" && rest[0] != 't' && rest[0] != 'f'
    ensures AppsFrom(comma + (Quoted(name) + after), a) ==
      AppsFrom(rest, AppList(a.apps[a.count := App(name, a.apps[a.count].enabled)], a.count + 1))
  {
    hide ReadName, ReadValue, SkipGaps, SkipColons;
    var t := Quoted(name) + after;
    var s := comma + t;
    GapsEnd(comma, t);
    NameEnds(name, after);
    OddValue(a, name, rest);
    assert s[0] == if comma == "" then QUOTE else ',';
  }

  lemma NameEnds(name: string, after: string)
    requires QuoteFree(name) && |name| < APP_NAME_LEN
    ensures ReadName(Quoted(name) + after) == AppName(name, SkipColons(after))
  {
    hide SkipColons, TakeText;
    var t := Quoted(name) + after;
    assert t[1..] == name + [QUOTE] + after;
    TakeTextStops(name, after, APP_NAME_LEN - 1);
    assert t[1 + |name|..] == [QUOTE] + after;
    assert ([QUOTE] + after)[1..] == after;
  }

  lemma OddValue(a: AppList, name: string, rest: string)
    requires a.count < |a.apps| && rest != "" && rest[0] != 't' && rest[0] != 'f'
    ensures ReadValue(a, AppName(name, rest)) ==
      (AppList(a.apps[a.count := App(name, a.apps[a.count].enabled)], a.count + 1), rest)
  {}

  /** Three names are read from `"time":"hh:mm","days":[`, and the bracket ends the list. */
  lemma ScheduleReadsAsApps(hm: string, rest: string, a: AppList)
    requires QuoteFree(hm) && 0 < |hm| < APP_NAME_LEN && |a.apps| == CONFIG_MAX_APPS && a.count == 0
    ensures AppsFrom(ScheduleText(hm, rest), a) ==
      AppList([App("time", a.apps[0].enabled), App(hm, a.apps[1].enabled), App("days", a.apps[2].enabled)] +
        a.apps[3..], 3)
  {
    hide AppsFrom, SkipColons;
    var list := "[" + rest;
    var days := Quoted("days") + (":" + list);
    var time := Quoted(hm) + ("," + days);
    var a1 := AppList(a.apps[0 := App("time", a.apps[0].enabled)], 1);
    var a2 := AppList(a1.apps[1 := App(hm, a1.apps[1].enabled)], 2);
    var a3 := AppList(a2.apps[2 := App("days", a2.apps[2].enabled)], 3);
    assert ":[" + rest == ":" + list;
    assert "" + (Quoted("time") + (":" + time)) == Quoted("time") + (":" + time);
    SkipOneColon(time);
    OddAppReads(a, "", "time", time, ":" + time);
    CommaStops(days);
    assert "" + time == time;
    OddAppReads(a1, "", hm, "," + days, "," + days);
    SkipOneColon(list);
    OddAppReads(a2, ",", "days", list, ":" + list);
    BracketEndsApps(a3, rest);
    assert a3.apps == [App("time", a.apps[0].enabled), App(hm, a.apps[1].enabled), App("days", a.apps[2].enabled)] +
      a.apps[3..];
  }

  lemma BracketEndsApps(a: AppList, rest: string)
    requires |a.apps| == CONFIG_MAX_APPS && a.count <= CONFIG_MAX_APPS
    ensures AppsFrom("[" + rest, a) == a
  {
    assert ("[" + rest)[0] == '[';
  }

  /** From a value called "apps" to the brace of the schedule object. */
  lemma BraceAfterValue(c: Config)
    requires InMemory(c) && Named(c, "apps") && !AppsBracketed(c)
    ensures StrChr(Render(SectionAt(c, "apps", FromApps(c))), '{') == Some("{" + Render(FromTime(c)))
  {
    var here := UpToSchedule(c);
    var text := Render(FromTime(c));
    UpToScheduleAvoids(c);
    UpToScheduleIs(c);
    hide Render, StrChr, Avoids, UpToSchedule, SectionAt, FromTime;
    RenderAppend(here, [Raw("{")] + FromTime(c));
    RenderOne(Raw("{"), FromTime(c));
    AvoidsRender(here, '{');
    StrChrSkips(Render(here), "{" + text, '{');
    StrChrHere("{" + text, '{');
  }

  function UpToSchedule(c: Config): seq<Tok> {
    var key := [Str("schedule"), Raw(":")];
    if c.firmware == "apps" then
      [Str("apps"), Raw(",")] + (StrField("device", c.device) + (StrField("locale", c.locale) + key))
    else if c.device == "apps" then [Str("apps"), Raw(",")] + (StrField("locale", c.locale) + key)
    else [Str("apps"), Raw(",")] + key
  }

  lemma UpToScheduleAvoids(c: Config)
    requires !AppsBracketed(c)
    ensures Avoids(UpToSchedule(c), '{')
  {
    if c.firmware == "apps" {
      FieldAvoids("device", c.device, '{');
      FieldAvoids("locale", c.locale, '{');
    } else if c.device == "apps" {
      FieldAvoids("locale", c.locale, '{');
    }
  }

  lemma UpToScheduleText(c: Config)
    requires InMemory(c)
    ensures Render(FromSchedule(c)) == Render([Str("schedule"), Raw(":")] + ([Raw("{")] + FromTime(c)))
  {
    hide FromTime, Render, Quoted;
    OpenText("schedule", ":{", FromTime(c));
    RenderTwo(Str("schedule"), Raw(":"), [Raw("{")] + FromTime(c));
    RenderOne(Raw("{"), FromTime(c));
    assert ":{" == ":" + "{";
    Assoc(":", "{", Render(FromTime(c)));
  }

  lemma BeforeSchedule(c: Config, before: seq<Tok>)
    requires InMemory(c)
    ensures Render(before + FromSchedule(c)) ==
      Render((before + [Str("schedule"), Raw(":")]) + ([Raw("{")] + FromTime(c)))
  {
    var key, rest := [Str("schedule"), Raw(":")], [Raw("{")] + FromTime(c);
    UpToScheduleText(c);
    hide Render, FromTime, FromSchedule;
    RenderAppend(before, FromSchedule(c));
    RenderAppend(before, key + rest);
    assert (before + key) + rest == before + (key + rest);
  }

  lemma UpToScheduleIs(c: Config)
    requires InMemory(c) && Named(c, "apps")
    ensures Render(SectionAt(c, "apps", FromApps(c))) == Render(UpToSchedule(c) + ([Raw("{")] + FromTime(c)))
  {
    hide Render, FromTime, FromSchedule, FromApps;
    var before := [Str("apps"), Raw(",")];
    if c.firmware == "apps" {
      before := before + (StrField("device", c.device) + StrField("locale", c.locale));
    } else if c.device == "apps" {
      before := before + StrField("locale", c.locale);
    }
    assert SectionAt(c, "apps", FromApps(c)) == before + FromSchedule(c);
    assert UpToSchedule(c) == before + [Str("schedule"), Raw(":")];
    BeforeSchedule(c, before);
  }

  /** The schedule object, from its first key to the list of days. */
  function ScheduleText(hm: string, rest: string): string {
    Quoted("time") + (":" + (Quoted(hm) + ("," + (Quoted("days") + (":[" + rest)))))
  }

  lemma TimeText(c: Config) returns (rest: string)
    requires InMemory(c)
    ensures Render(FromTime(c)) == ScheduleText(Dec2(c.hour) + ":" + Dec2(c.min), rest)
  {
    hide FromTiming, Dec2;
    var list := DayToks(c.days, 0, true) + ([Raw("]},")] + FromTiming(c));
    StrFieldText("time", Dec2(c.hour) + ":" + Dec2(c.min), FromDays(c));
    OpenText("days", ":[", list);
    rest := Render(list);
  }

  /** A brace in a later value is found first. */
  lemma BraceInValue(c: Config)
    requires InMemory(c) && AppsBracketed(c)
    ensures StrChr(Render(SectionAt(c, "apps", FromApps(c))), '{') == Some(BraceText(c))
  {
    hide Render, StrChr, BraceText, FromDevice, FromLocale, FromSchedule, FromApps, Avoids;
    ShortAvoids('{');
    if c.firmware == "apps" {
      BraceAfterFirmware(c);
    } else {
      BraceInLocale(c, [Str("apps"), Raw(",")]);
      LocaleBrace(c);
    }
  }

  lemma LocaleBrace(c: Config)
    requires InMemory(c) && AppsBracketed(c) && !(c.firmware == "apps" && '{' in c.device)
    ensures BraceText(c) == FromBracket(c.locale, '{', Render(FromSchedule(c)))
  {}

  lemma BraceAfterFirmware(c: Config)
    requires InMemory(c) && AppsBracketed(c) && c.firmware == "apps"
    ensures StrChr(Render([Str("apps"), Raw(",")] + FromDevice(c)), '{') == Some(BraceText(c))
  {
    ShortAvoids('{');
    hide Render, StrChr, FromLocale, FromSchedule, Avoids, FromBracket, StrField, InMemory;
    if '{' in c.device {
      BracketInValue([Str("apps"), Raw(",")], "device", c.device, FromLocale(c), '{');
    } else {
      LocaleBrace(c);
      hide AppsBracketed, BraceText, FromDevice;
      DeviceAvoids(c);
      BraceInLocale(c, [Str("apps"), Raw(",")] + StrField("device", c.device));
      DeviceSplits(c);
    }
  }

  lemma DeviceSplits(c: Config)
    requires InMemory(c)
    ensures [Str("apps"), Raw(",")] + FromDevice(c) ==
      [Str("apps"), Raw(",")] + StrField("device", c.device) + FromLocale(c)
  {
    hide FromLocale, StrField;
  }

  lemma DeviceAvoids(c: Config)
    requires '{' !in c.device
    ensures Avoids([Str("apps"), Raw(",")] + StrField("device", c.device), '{')
  {
    FieldAvoids("device", c.device, '{');
  }

  lemma BraceInLocale(c: Config, before: seq<Tok>)
    requires InMemory(c) && Avoids(before, '{') && '{' in c.locale
    ensures StrChr(Render(before + FromLocale(c)), '{') == Some(FromBracket(c.locale, '{', Render(FromSchedule(c))))
  {
    ShortAvoids('{');
    hide Render, StrChr, FromSchedule, Avoids;
    BracketInValue(before, "locale", c.locale, FromSchedule(c), '{');
  }

  lemma AppsReadFromBrace(c: Config, a: AppList)
    requires InMemory(c) && Clean(c) && AppsBracketed(c) && |a.apps| == CONFIG_MAX_APPS && a.count <= CONFIG_MAX_APPS
    ensures ParseApps(Print(c), a) == AppsFrom(BraceText(c)[1..], AppList(a.apps, 0))
  {
    hide Render, StrStr, StrChr, Print, Clean, AppsFrom, ParseApps, SectionAt, BraceText, FromApps;
    AppsFound(c);
    BraceInValue(c);
    assert BraceText(c) == ['{'] + BraceText(c)[1..];
    AppsParse(Print(c), Render(SectionAt(c, "apps", FromApps(c))), BraceText(c)[1..], a);
  }

  /** With a value called "apps" the schedule object is read as three apps. */
  lemma AppsMisread(c: Config, a: AppList)
    requires InMemory(c) && Clean(c) && Named(c, "apps") && !AppsBracketed(c)
    requires |a.apps| == CONFIG_MAX_APPS && a.count <= CONFIG_MAX_APPS
    requires a.apps[0].enabled && a.apps[1].enabled && !a.apps[2].enabled
    ensures ParseApps(Print(c), a) == AppList(ScheduleAsApps(c) + a.apps[3..], 3)
  {
    var hm := Dec2(c.hour) + ":" + Dec2(c.min);
    TimeIsQuoteFree(c.hour, c.min);
    DecIsShort(c.hour);
    DecIsShort(c.min);
    hide Render, StrStr, StrChr, Print, Clean, AppsFrom, ParseApps, SectionAt, Dec2, FromTime;
    AppsFound(c);
    BraceAfterValue(c);
    var rest := TimeText(c);
    AppsParse(Print(c), Render(SectionAt(c, "apps", FromApps(c))), Render(FromTime(c)), a);
    ScheduleReadsAsApps(hm, rest, AppList(a.apps, 0));
  }

  lemma AppsIsKey()
    ensures KeyLike("apps") && "apps" !in TOP_KEYS
  {}

  lemma NamesAreClean(c: Config)
    requires InMemory(c) && Clean(c)
    ensures forall i :: 0 <= i < |Listed(c)| ==> QuoteFree(Listed(c)[i].name) && |Listed(c)[i].name| < APP_NAME_LEN
  {}

  lemma AppsParse(json: string, found: string, body: string, a: AppList)
    requires |a.apps| == CONFIG_MAX_APPS && a.count <= CONFIG_MAX_APPS
    requires StrStr(json, Quoted("apps")) == Some(found) && StrChr(found, '{') == Some(['{'] + body)
    ensures ParseApps(json, a) == AppsFrom(body, AppList(a.apps, 0))
  {
    hide AppsFrom, StrStr, StrChr;
    assert (['{'] + body)[1..] == body;
  }

  // ----- Where a key is found among app names

  function FirstNamed(apps: seq<App>, k: string): (r: Option<nat>)
    ensures r.Some? ==>
      r.value < |apps| && apps[r.value].name == k && forall j :: 0 <= j < r.value ==> apps[j].name != k
    ensures r.None? ==> forall j :: 0 <= j < |apps| ==> apps[j].name != k
  {
    if apps == [] then None
    else if apps[0].name == k then Some(0)
    else match FirstNamed(apps[1..], k)
      case None => None
      case Some(i) => Some(i + 1)
  }

  function NameToks(app: App): seq<Tok> {
    [Str(app.name), Raw(":"), Raw(Flag(app.enabled))]
  }

  /** The tokens from app i's name on. */
  function FromName(apps: seq<App>, i: nat, tail: seq<Tok>): seq<Tok>
    requires i < |apps|
  {
    NameToks(apps[i]) + (AppToks(apps[i + 1..], false) + tail)
  }

  lemma {:induction false} FindAmongApps(apps: seq<App>, first: bool, tail: seq<Tok>, k: string)
    ensures FirstStr(AppToks(apps, first) + tail, k) ==
      match FirstNamed(apps, k) case None => FirstStr(tail, k) case Some(i) => Some(FromName(apps, i, tail))
    decreases |apps|
  {
    hide FirstStr, AppToks;
    if apps == [] {
      NoAppToks(first, tail);
    } else {
      var more := AppToks(apps[1..], false) + tail;
      var name := NameToks(apps[0]);
      AppToksSplit(apps, first, tail);
      SkipRaw(if first then "" else ",", name + more, k);
      if apps[0].name == k {
        NameHere(apps[0], more, k);
      } else {
        SkipSection(name, more, k);
        FindAmongApps(apps[1..], false, tail, k);
        match FirstNamed(apps[1..], k) {
          case None =>
          case Some(i) => assert apps[1..][i + 1..] == apps[i + 1 + 1..];
        }
      }
    }
  }

  lemma NoAppToks(first: bool, tail: seq<Tok>)
    ensures AppToks([], first) + tail == tail
  {}

  lemma AppToksSplit(apps: seq<App>, first: bool, tail: seq<Tok>)
    requires apps != []
    ensures AppToks(apps, first) + tail ==
      [Raw(if first then "" else ",")] + (NameToks(apps[0]) + (AppToks(apps[1..], false) + tail))
  {}

  lemma NameHere(app: App, more: seq<Tok>, k: string)
    requires app.name == k
    ensures FirstStr(NameToks(app) + more, k) == Some(NameToks(app) + more)
  {}

  /** An app's value is no quoted string, so a text field looked up under an app's name keeps its value. */
  lemma AppNameGivesNoText(ts: seq<Tok>, k: string, apps: seq<App>, i: nat, tail: seq<Tok>, prior: string, max: nat)
    requires WellFormed(ts) && KeyLike(k) && i < |apps| && apps[i].name == k
    requires FirstStr(ts, k) == Some(FromName(apps, i, tail))
    ensures GetStr(Render(ts), k, prior, max) == prior
  {
    hide WellFormed, StrStr, AppToks, Render, GetStr, SkipColons, KeyLike, FirstStr, Flag;
    var rest := AppToks(apps[i + 1..], false) + tail;
    var value := Flag(apps[i].enabled) + Render(rest);
    assert FromName(apps, i, tail) == [Str(k), Raw(":")] + ([Raw(Flag(apps[i].enabled))] + rest);
    RenderTwo(Str(k), Raw(":"), [Raw(Flag(apps[i].enabled))] + rest);
    RenderOne(Raw(Flag(apps[i].enabled)), rest);
    FlagStarts(apps[i].enabled, Render(rest));
    SkipOneColon(value);
    ReadNoStr(ts, k, FromName(apps, i, tail), ":" + value, prior, max);
  }

  lemma FlagStarts(enabled: bool, rest: string)
    ensures var value := Flag(enabled) + rest; value != "" && value[0] != ' ' && value[0] != ':' && value[0] != QUOTE
  {}

  // ----- The wifi object

  function SsidField(ssid: string): seq<Tok> {
    [Str("ssid"), Raw(":"), Str(ssid), Raw("}")] + [Raw("}")]
  }

  /** What follows the apps. */
  function AfterApps(c: Config): seq<Tok> {
    [Raw("}")] + FromWifi(c)
  }

  lemma FindAfterApps(c: Config, k: string)
    requires KeyLike(k) && k != "wifi"
    ensures c.ssid == "" ==> FirstStr(AfterApps(c), k) == None
    ensures c.ssid != "" ==> FirstStr(AfterApps(c), k) == FirstStr(SsidField(c.ssid), k)
  {
    SkipRaw("}", FromWifi(c), k);
    if c.ssid != "" {
      SkipRaw(",", Open("wifi", ":{") + SsidField(c.ssid), k);
      SkipOpen("wifi", ":{", SsidField(c.ssid), k);
    } else {
      assert [Raw("}")][1..] == [];
    }
  }

  lemma PasswordNotInSsidField(ssid: string)
    ensures FirstStr(SsidField(ssid), "password") ==
      if ssid == "password" then Some([Str(ssid), Raw("}")] + [Raw("}")]) else None
  {
    var f := SsidField(ssid);
    var rest := [Str(ssid), Raw("}")] + [Raw("}")];
    assert f == [Str("ssid"), Raw(":")] + rest;
    SkipSection([Str("ssid"), Raw(":")], rest, "password");
    if ssid != "password" {
      SkipSection(rest, [], "password");
      assert rest + [] == rest;
    }
  }

  /** Wherever the search for the wifi object has ended, the password keeps its value. */
  lemma PasswordKept(ts: seq<Tok>, ssid: string, prior: string)
    requires WellFormed(ts)
    requires FirstStr(ts, "password") == None || FirstStr(ts, "password") == FirstStr(SsidField(ssid), "password")
    ensures GetStr(Render(ts), "password", prior, PASS_LEN - 1) == prior
  {
    hide WellFormed, StrStr, FindKey;
    PasswordNotInSsidField(ssid);
    if FirstStr(ts, "password") == None {
      ReadMissing(ts, "password", prior, PASS_LEN - 1);
    } else {
      var found := [Str(ssid), Raw("}")] + [Raw("}")];
      var after := "}" + Render([Raw("}")]);
      RenderTwo(Str(ssid), Raw("}"), [Raw("}")]);
      assert SkipColons(after) == after && after[0] == '}';
      ReadNoStr(ts, "password", found, after, prior, PASS_LEN - 1);
    }
  }

  /** And the SSID is read when the search for its key ends at the real one. */
  lemma SsidReads(ts: seq<Tok>, ssid: string, prior: string)
    requires WellFormed(ts) && QuoteFree(ssid) && |ssid| < SSID_LEN
    requires FirstStr(ts, "ssid") == FirstStr(SsidField(ssid), "ssid")
    ensures GetStr(Render(ts), "ssid", prior, SSID_LEN - 1) == ssid
  {
    hide WellFormed, StrStr, FindKey, GetStr;
    var f := SsidField(ssid);
    assert FirstStr(f, "ssid") == Some(f);
    RenderFour(Str("ssid"), Raw(":"), Str(ssid), Raw("}"), [Raw("}")]);
    ReadStr(ts, "ssid", ssid, f, "}" + Render([Raw("}")]), prior, SSID_LEN - 1);
  }

  /** The search for the wifi object, from the start of the text. */
  lemma WifiSearch(c: Config)
    requires InMemory(c) && !Named(c, "wifi")
    ensures FirstStr(Toks(c), "wifi") == FirstStr(AppToks(Listed(c), true) + AfterApps(c), "wifi")
  {
    WifiIsKey();
    hide FirstStr, KeyLike;
    SkipTop(c, "wifi");
    PastSections(c, "wifi");
  }

  lemma WifiIsKey()
    ensures KeyLike("wifi") && KeyLike("ssid") && KeyLike("password")
    ensures "wifi" !in TOP_KEYS && "ssid" !in TOP_KEYS && "password" !in TOP_KEYS
  {}

  /** From the schedule to the app names, for a key that belongs to no section before them. */
  lemma PastSections(c: Config, k: string)
    requires InMemory(c) && KeyLike(k) && k in ["wifi", "ssid", "password"]
    ensures FirstStr(FromSchedule(c), k) == FirstStr(AppToks(Listed(c), true) + AfterApps(c), k)
  {
    assert k == "wifi" || k == "ssid" || k == "password";
    NoTimingKey(k);
    hide FirstStr, KeyLike, FromTiming, FromBoot;
    SkipSchedule(c, k);
    SkipTiming(c, k);
    SkipOpen("apps", ":{", AppToks(Listed(c), true) + AfterApps(c), k);
  }

  lemma NoTimingKey(k: string)
    requires k == "wifi" || k == "ssid" || k == "password"
    ensures k !in TIMING_KEYS && k !in ["schedule", "time", "days"]
  {}

  /** The search for a key of the wifi object, once it has started at a value called "wifi". */
  lemma AfterWifiValue(c: Config, key: seq<Tok>, k: string)
    requires InMemory(c) && Named(c, "wifi") && k in ["ssid", "password"] && !Diverted(c, "wifi", k)
    ensures var j := FirstNamed(Listed(c), k);
      FirstStr(SectionAt(c, "wifi", key), k) ==
        if j.Some? then Some(FromName(Listed(c), j.value, AfterApps(c)))
        else if c.ssid == "" then None else FirstStr(SsidField(c.ssid), k)
  {
    assert k == "ssid" || k == "password";
    WifiIsKey();
    hide FirstStr, KeyLike;
    PastValues(c, "wifi", key, k);
    PastSections(c, k);
    FindAmongApps(Listed(c), true, AfterApps(c), k);
    FindAfterApps(c, k);
  }

  /** A search diverted to a value gives no text. */
  lemma ValueGivesNoText(ts: seq<Tok>, k: string, rest: seq<Tok>, prior: string, max: nat)
    requires WellFormed(ts) && KeyLike(k) && FirstStr(ts, k) == Some([Str(k), Raw(",")] + rest)
    ensures GetStr(Render(ts), k, prior, max) == prior
  {
    hide WellFormed, KeyLike, FirstStr, Render, FindKey;
    CommaFollows(ts, k, rest);
    assert ("," + Render(rest))[0] == ',';
  }

  /** Some top-level value is "wifi". */
  lemma WifiReadsAfterValue(c: Config, key: seq<Tok>)
    requires InMemory(c) && Clean(c) && Named(c, "wifi") && WellFormed(SectionAt(c, "wifi", key))
    ensures var text := Render(SectionAt(c, "wifi", key));
      GetStr(text, "ssid", "", SSID_LEN - 1) == (if SsidDiverted(c) then "" else c.ssid) &&
      GetStr(text, "password", "", PASS_LEN - 1) == ""
  {
    var ts, apps := SectionAt(c, "wifi", key), Listed(c);
    WifiIsKey();
    hide WellFormed, GetStr, KeyLike, Render, FirstStr, SectionAt;
    if Diverted(c, "wifi", "ssid") {
      AtValue(c, "wifi", key, "ssid");
      ValueGivesNoText(ts, "ssid", AfterValue(c, "wifi", "ssid"), "", SSID_LEN - 1);
    } else {
      AfterWifiValue(c, key, "ssid");
      if FirstNamed(apps, "ssid").Some? {
        AppNameGivesNoText(ts, "ssid", apps, FirstNamed(apps, "ssid").value, AfterApps(c), "", SSID_LEN - 1);
      } else if c.ssid == "" {
        ReadMissing(ts, "ssid", "", SSID_LEN - 1);
      } else {
        SsidReads(ts, c.ssid, "");
      }
    }
    PasswordAfterValue(c, key);
  }

  lemma PasswordAfterValue(c: Config, key: seq<Tok>)
    requires InMemory(c) && Named(c, "wifi") && WellFormed(SectionAt(c, "wifi", key))
    ensures GetStr(Render(SectionAt(c, "wifi", key)), "password", "", PASS_LEN - 1) == ""
  {
    var ts, apps := SectionAt(c, "wifi", key), Listed(c);
    WifiIsKey();
    hide WellFormed, GetStr, KeyLike, Render, FirstStr, SectionAt;
    if Diverted(c, "wifi", "password") {
      AtValue(c, "wifi", key, "password");
      ValueGivesNoText(ts, "password", AfterValue(c, "wifi", "password"), "", PASS_LEN - 1);
    } else {
      AfterWifiValue(c, key, "password");
      if FirstNamed(apps, "password").Some? {
        AppNameGivesNoText(ts, "password", apps, FirstNamed(apps, "password").value, AfterApps(c), "", PASS_LEN - 1);
      } else {
        PasswordKept(ts, c.ssid, "");
      }
    }
  }

  lemma WifiSearchPlain(c: Config)
    ensures FirstStr(AfterApps(c), "wifi") == if c.ssid == "" then None
      else Some(Open("wifi", ":{") + SsidField(c.ssid))
  {
    SkipRaw("}", FromWifi(c), "wifi");
    if c.ssid != "" {
      SkipRaw(",", Open("wifi", ":{") + SsidField(c.ssid), "wifi");
      HitOpen("wifi", ":{", SsidField(c.ssid));
    } else {
      assert [Raw("}")][1..] == [];
    }
  }

  /** No app is called "wifi". */
  lemma WifiReadsPlain(c: Config, ts: seq<Tok>)
    requires InMemory(c) && Clean(c) && c.ssid != ""
    requires ts == Open("wifi", ":{") + SsidField(c.ssid) && WellFormed(ts)
    ensures GetStr(Render(ts), "ssid", "", SSID_LEN - 1) == c.ssid
    ensures GetStr(Render(ts), "password", "", PASS_LEN - 1) == ""
  {
    hide WellFormed, GetStr;
    SkipOpen("wifi", ":{", SsidField(c.ssid), "ssid");
    SsidReads(ts, c.ssid, "");
    SkipOpen("wifi", ":{", SsidField(c.ssid), "password");
    PasswordKept(ts, c.ssid, "");
  }

  /** App i is the first called "wifi"; the rest decides. */
  lemma WifiReadsAfterApp(c: Config, apps: seq<App>, i: nat, ts: seq<Tok>)
    requires InMemory(c) && Clean(c) && i < |apps| && apps[i].name == "wifi"
    requires ts == FromName(apps, i, AfterApps(c)) && WellFormed(ts)
    ensures GetStr(Render(ts), "ssid", "", SSID_LEN - 1) ==
      if FirstNamed(apps[i + 1..], "ssid").Some? then "" else c.ssid
    ensures GetStr(Render(ts), "password", "", PASS_LEN - 1) == ""
  {
    hide WellFormed, GetStr;
    AfterAppText(c, apps, i, ts, "ssid");
    if FirstNamed(apps[i + 1..], "ssid").Some? {
      AppNameGivesNoText(ts, "ssid", apps[i + 1..], FirstNamed(apps[i + 1..], "ssid").value, AfterApps(c), "",
        SSID_LEN - 1);
    } else if c.ssid == "" {
      ReadMissing(ts, "ssid", "", SSID_LEN - 1);
    } else {
      SsidReads(ts, c.ssid, "");
    }
    AfterAppText(c, apps, i, ts, "password");
    if FirstNamed(apps[i + 1..], "password").Some? {
      AppNameGivesNoText(ts, "password", apps[i + 1..], FirstNamed(apps[i + 1..], "password").value, AfterApps(c), "",
        PASS_LEN - 1);
    } else {
      PasswordKept(ts, c.ssid, "");
    }
  }

  lemma AfterAppText(c: Config, apps: seq<App>, i: nat, ts: seq<Tok>, k: string)
    requires i < |apps| && apps[i].name == "wifi" && KeyLike(k) && k != "wifi"
    requires ts == FromName(apps, i, AfterApps(c))
    ensures var j := FirstNamed(apps[i + 1..], k);
      FirstStr(ts, k) ==
        if j.Some? then Some(FromName(apps[i + 1..], j.value, AfterApps(c)))
        else if c.ssid == "" then None else FirstStr(SsidField(c.ssid), k)
  {
    var more := AppToks(apps[i + 1..], false) + AfterApps(c);
    SkipSection([Str(apps[i].name), Raw(":"), Raw(Flag(apps[i].enabled))], more, k);
    FindAmongApps(apps[i + 1..], false, AfterApps(c), k);
    FindAfterApps(c, k);
  }

  /** The diverted case in terms of first occurrences. */
  lemma DivertedByFirst(c: Config)
    requires InMemory(c) && !Named(c, "wifi")
    ensures SsidDiverted(c) <==>
      c.ssid != "" && FirstNamed(Listed(c), "wifi").Some? &&
      FirstNamed(Listed(c)[FirstNamed(Listed(c), "wifi").value + 1..], "ssid").Some?
  {
    var apps := Listed(c);
    var w := FirstNamed(apps, "wifi");
    if w.Some? {
      var rest := apps[w.value + 1..];
      var s := FirstNamed(rest, "ssid");
      if s.Some? {
        assert apps[w.value + 1 + s.value] == rest[s.value];
      } else {
        forall i, j | 0 <= i < j < |apps| && apps[i].name == "wifi" ensures apps[j].name != "ssid" {
          assert w.value <= i;
          assert apps[j] == rest[j - w.value - 1];
        }
      }
    }
  }

  /** The SSID comes back unless it is diverted, and then it comes back empty; the password never does. */
  lemma WifiRead(c: Config)
    requires InMemory(c) && Clean(c)
    ensures ParseWifi(Print(c), "", "") == (if SsidDiverted(c) then "" else c.ssid, "")
  {
    WifiIsKey();
    hide WellFormed, GetStr, FirstStr, Render, KeyLike;
    if Named(c, "wifi") {
      hide SsidDiverted, SectionAt, StrStr, Print;
      SectionFound(c, "wifi", []);
      WifiReadsAfterValue(c, []);
    } else {
      WifiReadUnnamed(c);
    }
  }

  lemma WifiReadUnnamed(c: Config)
    requires InMemory(c) && Clean(c) && !Named(c, "wifi")
    ensures ParseWifi(Print(c), "", "") == (if SsidDiverted(c) then "" else c.ssid, "")
  {
    hide WellFormed, GetStr, FirstStr, Render;
    var apps := Listed(c);
    ToksFit(c);
    WifiSearch(c);
    FindAmongApps(apps, true, AfterApps(c), "wifi");
    FindKeyToken(Toks(c), "wifi");
    DivertedByFirst(c);
    WifiSearchPlain(c);
    match FirstNamed(apps, "wifi") {
      case None =>
        if c.ssid != "" {
          FirstStrFits(Toks(c), "wifi");
          WifiReadsPlain(c, Open("wifi", ":{") + SsidField(c.ssid));
        }
      case Some(i) =>
        FirstStrFits(Toks(c), "wifi");
        WifiReadsAfterApp(c, apps, i, FromName(apps, i, AfterApps(c)));
    }
  }

  // ----- The whole configuration

  /** What parsing the printed text yields, field by field. */
  function ReadBack(c: Config): (d: Config)
    requires InMemory(c)
    ensures d.apps == AppsOf(c).apps && d.appCount == AppsOf(c).count
  {
    var late := Diverted(c, "schedule", "time");
    TopOf(c, TimingOf(c, Defaults())).(
      hour := if late then Defaults().hour else c.hour,
      min := if late then Defaults().min else c.min,
      days := DaysOf(c),
      apps := AppsOf(c).apps, appCount := AppsOf(c).count,
      ssid := if SsidDiverted(c) then "" else c.ssid, password := "")
  }

  lemma TopLevelReads(c: Config, d: Config)
    requires InMemory(c) && Clean(c) && d == Defaults()
    ensures TopLevel(Print(c), d) == TopOf(c, d)
  {
    hide GetInt, GetStr, Print;
    VersionReads(c);
    FirmwareReads(c, d.firmware);
    if DeviceDiverted(c) {
      DeviceHijacked(c, d.device);
    } else {
      DeviceReads(c, d.device);
    }
    if LocaleDiverted(c) {
      LocaleHijacked(c, d.locale);
    } else {
      LocaleReads(c, d.locale);
    }
  }

  function TopOf(c: Config, d: Config): Config {
    d.(version := c.version, firmware := c.firmware,
       device := if DeviceDiverted(c) then d.device else c.device,
       locale := if LocaleDiverted(c) then d.locale else c.locale)
  }

  lemma PrintStartsWithBrace(c: Config)
    requires InMemory(c)
    ensures Print(c) != "" && Print(c)[0] == '{'
  {
    RenderOne(Raw("{"), NumField("version", c.version, ",") + FromFirmware(c));
  }

  lemma ReadingsAssemble(c: Config, json: string, d: Config)
    requires InMemory(c) && json != "" && json[0] == '{' && d == Defaults()
    requires TopLevel(json, d) == TopOf(c, d)
    requires var t := TopLevel(json, d); ParseTiming(json, t) == TimingOf(c, t)
    requires ParseTime(json) == (if Diverted(c, "schedule", "time") then None else Some((c.hour, c.min)))
    requires ParseDays(json) == Some(DaysOf(c))
    requires ParseApps(json, AppList(d.apps, d.appCount)) == AppsOf(c)
    requires ParseWifi(json, "", "") == (if SsidDiverted(c) then "" else c.ssid, "")
    ensures FromJson(json) == Some(ReadBack(c))
  {
    hide TopLevel, ParseTiming, ParseTime, ParseDays, ParseApps, ParseWifi, SsidDiverted, Listed, AppsOf, DaysOf,
      Diverted,
      DeviceDiverted, LocaleDiverted;
    assert d.ssid == "" && d.password == "";
  }

  lemma DefaultFlags()
    ensures var apps := Defaults().apps; apps[0].enabled && apps[1].enabled && !apps[2].enabled
  {}

  lemma AppsParsed(c: Config, d: Config)
    requires InMemory(c) && Clean(c) && d == Defaults()
    ensures ParseApps(Print(c), AppList(d.apps, d.appCount)) == AppsOf(c)
  {
    var a := AppList(d.apps, d.appCount);
    DefaultFlags();
    hide ParseApps, Print, Clean, Listed, Defaults, AppsFrom, BraceText;
    if !Named(c, "apps") {
      AppsRead(c, a);
    } else if AppsBracketed(c) {
      AppsReadFromBrace(c, a);
    } else {
      AppsMisread(c, a);
    }
  }

  /** For strings without quotes the outcome of the parse is known exactly. */
  lemma ParseOfPrint(c: Config)
    requires InMemory(c) && Clean(c)
    ensures FromJson(Print(c)) == Some(ReadBack(c))
  {
    var d := Defaults();
    hide TopLevel, ParseTiming, ParseTime, ParseDays, ParseApps, ParseWifi, SsidDiverted, Listed, Print, FromJson,
      Clean,
      AppsOf, DaysOf, ReadBack, Diverted, Defaults;
    PrintStartsWithBrace(c);
    TopLevelReads(c, d);
    TimingReads(c, TopLevel(Print(c), d));
    TimeReads(c);
    DaysRead(c);
    AppsParsed(c, d);
    WifiRead(c);
    ReadingsAssemble(c, Print(c), d);
  }

  /** Every search lands on its own key, or lands elsewhere and happens to leave the right value. */
  predicate SearchesSucceed(c: Config)
    requires InMemory(c)
  {
    (DeviceDiverted(c) ==> c.device == Defaults().device) &&
    (LocaleDiverted(c) ==> c.locale == Defaults().locale) &&
    (Diverted(c, "timing", "boot_wait_sec") ==> c.bootWait == 0) &&
    (Diverted(c, "timing", "wake_wait_sec") ==> c.wakeWait == 0) &&
    (Diverted(c, "timing", "keystroke_ms") ==> c.keystroke == 0) &&
    (Diverted(c, "timing", "retry_count") ==> c.retryCount == 0) &&
    (Diverted(c, "timing", "retry_interval_sec") ==> c.retryInterval == 0) &&
    (Diverted(c, "timing", "dialog_wait_sec") ==> c.dialogWait == 0) &&
    (Diverted(c, "schedule", "time") ==> c.hour == Defaults().hour && c.min == Defaults().min) &&
    (DaysBracketed(c) ==> c.days == DaysOf(c)) &&
    (Named(c, "apps") ==> Listed(c) == AppsOf(c).apps[..AppsOf(c).count]) &&
    !SsidDiverted(c)
  }

  /**
   * The round trip. It holds exactly when no string contains a quote, the day mask has seven bits, at most eight apps
   * are counted, and every search lands on its own key or finds the right value elsewhere.
   */
  lemma ConfigRoundTripIff(c: Config)
    requires InMemory(c)
    ensures RoundTrips(c) <==> Clean(c) && c.days < 128 && c.appCount <= CONFIG_MAX_APPS && SearchesSucceed(c)
  {
    hide Print, FromJson;
    if Clean(c) {
      ParseOfPrint(c);
      ReadBackIsSameIff(c);
    } else {
      ParserIsTotal(Print(c));
      if RoundTrips(c) {
        CleanFromParse(c, FromJson(Print(c)).value);
      }
    }
  }

  lemma ReadBackIsSameIff(c: Config)
    requires InMemory(c)
    ensures SameConfig(c, ReadBack(c)) <==> c.days < 128 && c.appCount <= CONFIG_MAX_APPS && SearchesSucceed(c)
  {
    hide Diverted, DeviceDiverted, LocaleDiverted, Defaults, AppsFrom, ScheduleAsApps, BraceText, DayMask;
    var d, a := ReadBack(c), AppsOf(c);
    ReadBackInMemory(c);
    assert Listed(d) == a.apps[..a.count];
    if SameConfig(c, d) {
      assert d.appCount == c.appCount && d.ssid == c.ssid && d.days == c.days;
    }
  }

  lemma AppNamesFit(c: Config)
    requires InMemory(c)
    ensures forall i :: 0 <= i < CONFIG_MAX_APPS ==> |AppsOf(c).apps[i].name| < APP_NAME_LEN
  {
    DefaultsAreClean();
    DecIsShort(c.hour);
    DecIsShort(c.min);
    hide Dec2, AppsFrom, BraceText, Defaults;
    if Named(c, "apps") && AppsBracketed(c) {
      AppsFromIsClean(BraceText(c)[1..], AppList(Defaults().apps, 0));
    }
  }

  lemma ReadBackInMemory(c: Config)
    requires InMemory(c)
    ensures InMemory(ReadBack(c))
  {
    AppNamesFit(c);
    hide SsidDiverted, Diverted, Named, AppsOf, DaysOf;
  }

  lemma CleanFromParse(c: Config, d: Config)
    requires SameConfig(c, d) && Parsed(d)
    ensures Clean(c)
  {
    forall i | 0 <= i < |Listed(c)| ensures QuoteFree(Listed(c)[i].name) {
      assert Listed(c)[i] == d.apps[i];
    }
  }
}
