/**
 * What config_from_json makes of a JSON object, however it is spaced and whatever fields it has: ordinary lookups over
 * the defaults. This covers the partial objects of the settings pages.
 */
module ConfigUpdate {
  import opened Wrappers
  import opened Bytes
  import opened CStrings
  import opened JsonText
  import opened JsonSyntax
  import opened Config
  import opened ConfigParser
  import opened ConfigRoundTrip
  import opened ConfigSearch
  import ConfigCollections

  // ----- The fields of an object over the defaults

  /** A fraction loses its decimals; what is no number counts as 0. */
  function IntOf(v: Option<Json>, def: int): int {
    match v
    case None => def
    case Some(Num(n)) => Clamp(n)
    case Some(Frac(negative, whole, _)) => Clamp(if negative then 0 - whole else whole)
    case Some(_) => 0
  }

  function TextOf(v: Option<Json>, prior: string, max: nat): string {
    match v
    case Some(Text(s)) => Clip(s, max)
    case _ => prior
  }

  function TimeGiven(v: Option<Json>): Option<(byte, byte)> {
    match v
    case Some(Text(s)) => (match ScanTime(s) case None => None case Some((h, m)) => Some((U8(h), U8(m))))
    case _ => None
  }

  /** The mask once one more item has been read. */
  function WithDay(v: Json, m: nat): nat {
    if v.Num? && 0 <= v.n <= 6 then SetBit(m, v.n) else m
  }

  /** The mask of the listed day numbers, added to m. */
  function DayBits(items: seq<Json>, m: nat): nat {
    if items == [] then m
    else DayBits(items[1..], WithDay(items[0], m))
  }

  function DaysGiven(v: Option<Json>): Option<nat> {
    match v
    case Some(List(items)) => Some(DayBits(items, 0))
    case _ => None
  }

  function AppOf(f: Field): App {
    App(f.key, f.value == Flag(true))
  }

  function AppsIn(fields: seq<Field>): (apps: seq<App>)
    ensures |apps| == |fields|
  {
    if fields == [] then [] else [AppOf(fields[0])] + AppsIn(fields[1..])
  }

  /** As many of the apps as there is room for, from slot `at` on. */
  function Filled(slots: seq<App>, at: nat, fields: seq<Field>): (a: AppList)
    requires at <= |slots|
    ensures |a.apps| == |slots| && a.count <= |slots|
  {
    var n := if |fields| < |slots| - at then |fields| else |slots| - at;
    AppList(slots[..at] + AppsIn(fields[..n]) + slots[at + n..], at + n)
  }

  function AppsOver(v: Option<Json>, a: AppList): (b: AppList)
    requires a.count <= |a.apps|
    ensures |b.apps| == |a.apps| && b.count <= |a.apps|
  {
    match v
    case Some(Obj(fields)) => Filled(a.apps, 0, fields)
    case _ => a
  }

  /** The fields of a section. */
  function Inner(fields: seq<Field>, s: string): seq<Field> {
    match Lookup(fields, s)
    case None => []
    case Some(v) => FieldsOf(v)
  }

  function TopOver(fields: seq<Field>, d: Config): Config {
    d.(version := U8(IntOf(Lookup(fields, "version"), 2)),
       firmware := TextOf(Lookup(fields, "firmware"), d.firmware, FIRMWARE_LEN - 1),
       device := TextOf(Lookup(fields, "device"), d.device, DEVICE_LEN - 1),
       locale := TextOf(Lookup(fields, "locale"), d.locale, LOCALE_LEN - 1))
  }

  function TimingOver(t: seq<Field>, d: Config): Config {
    d.(bootWait := U16(IntOf(Lookup(t, "boot_wait_sec"), 45)),
       wakeWait := U16(IntOf(Lookup(t, "wake_wait_sec"), 5)),
       keystroke := U16(IntOf(Lookup(t, "keystroke_ms"), 50)),
       retryCount := U8(IntOf(Lookup(t, "retry_count"), 3)),
       retryInterval := U16(IntOf(Lookup(t, "retry_interval_sec"), 10)),
       dialogWait := U16(IntOf(Lookup(t, "dialog_wait_sec"), 1)))
  }

  /** The configuration an object stands for: its fields where it has them, the defaults where it does not. */
  function Overlay(fields: seq<Field>): Config {
    var c := TimingOver(Inner(fields, "timing"), TopOver(fields, Defaults()));
    var s, w := Inner(fields, "schedule"), Inner(fields, "wifi");
    var a := AppsOver(Lookup(fields, "apps"), AppList(c.apps, c.appCount));
    WithDays(WithTime(c, TimeGiven(Lookup(s, "time"))), DaysGiven(Lookup(s, "days"))).(
      apps := a.apps, appCount := a.count,
      ssid := TextOf(Lookup(w, "ssid"), "", SSID_LEN - 1),
      password := TextOf(Lookup(w, "password"), "", PASS_LEN - 1))
  }

  // ----- Hypotheses

  const SEARCHED := ["version", "firmware", "device", "locale", "timing", "schedule", "apps", "wifi"]

  /** No string stands in the way of a search: the first occurrence of every key is the field it names. */
  predicate Findable(fields: seq<Field>) {
    (forall i :: 0 <= i < |SEARCHED| ==> Direct(fields, SEARCHED[i])) &&
    (forall i :: 0 <= i < |TIMING_KEYS| ==> Within(fields, "timing", TIMING_KEYS[i])) &&
    Within(fields, "schedule", "time") && Within(fields, "schedule", "days") &&
    Within(fields, "wifi", "ssid") && Within(fields, "wifi", "password")
  }

  /** Nothing in the text stands for a day or ends the list. */
  predicate DayFree(s: string) {
    forall i :: 0 <= i < |s| ==> !('0' <= s[i] <= '6') && s[i] != ']'
  }

  /** A digit, or a text without one. */
  predicate IsDay(v: Json) {
    (v.Num? && 0 <= v.n <= 9) || (v.Text? && DayFree(v.s))
  }

  predicate IsDayList(v: Json) {
    v.List? && forall i :: 0 <= i < |v.items| ==> IsDay(v.items[i])
  }

  predicate IsApp(f: Field) {
    f.value.Flag? && |f.key| < APP_NAME_LEN
  }

  predicate IsAppObject(v: Json) {
    v.Obj? && forall i :: 0 <= i < |v.fields| ==> IsApp(v.fields[i])
  }

  /** Days are a list of digits and of texts without, apps an object of flags. */
  predicate Typed(fields: seq<Field>) {
    (match Lookup(Inner(fields, "schedule"), "days") case None => true case Some(v) => IsDayList(v)) &&
    (match Lookup(fields, "apps") case None => true case Some(v) => IsAppObject(v))
  }

  // ----- Numbers and texts

  lemma AfterStarts(r: seq<Field>, l: Layout, tail: seq<Tok>)
    requires r != [] && Follows(tail)
    ensures var x := Render(After(r, l, tail)); x != "" && !IsDigit(x[0])
  {
    if |r| > 1 {
      RenderOne(Raw("," + l.comma), FieldToks(r[1..], l) + tail);
    } else {
      assert tail[0].text != "";
    }
  }

  lemma NoNumber(x: string)
    requires x != "" && !IsSpace(x[0]) && !IsDigit(x[0]) && x[0] != '-' && x[0] != '+'
    ensures Atoi(x) == 0
  {
    assert SkipSpaces(x) == x && DigitRun(x) == "";
  }

  lemma FractionScans(negative: bool, whole: nat, decimals: string, rest: string)
    ensures Atoi(FracText(negative, whole, decimals) + rest) == Clamp(if negative then 0 - whole else whole)
  {
    var tail := "." + decimals + rest;
    hide Atoi, Dec;
    if negative {
      assert FracText(negative, whole, decimals) + rest == "-" + (Dec(whole) + tail);
      ScanNegative(whole, tail);
    } else {
      assert FracText(negative, whole, decimals) + rest == Dec(whole) + tail;
      ScanNatural(whole, tail);
    }
  }

  lemma ValueScans(v: Json, l: Layout, rest: string)
    requires rest != "" && !IsDigit(rest[0])
    ensures Atoi(JsonSyntax.Show(v, l) + rest) == IntOf(Some(v), 0)
  {
    var x := JsonSyntax.Show(v, l) + rest;
    hide Atoi;
    match v
    case Num(n) => RenderTok(Raw(DecInt(n))); AtoiOfInt(n, rest);
    case Frac(negative, whole, decimals) =>
      RenderTok(Raw(FracText(negative, whole, decimals)));
      FractionScans(negative, whole, decimals, rest);
    case Text(s) => RenderTok(Str(s)); NoNumber(x);
    case Flag(b) => RenderTok(Raw(Bool(b))); NoNumber(x);
    case List(items) => RenderOne(Raw("[" + l.open), ItemToks(items, l) + [Raw(l.close + "]")]); NoNumber(x);
    case Obj(fields) => RenderOne(Raw("{" + l.open), FieldToks(fields, l) + [Raw(l.close + "}")]); NoNumber(x);
  }

  function Head(r: seq<Field>): Option<Json> {
    if r == [] then None else Some(r[0].value)
  }

  lemma IntReads(ts: seq<Tok>, k: string, r: seq<Field>, l: Layout, tail: seq<Tok>, def: int)
    requires Found(ts, k, r, l, tail) && Spaced(l)
    ensures GetInt(Render(ts), k, def) == IntOf(Head(r), def)
  {
    if r == [] {
      NothingFound(ts, k, l, tail);
    } else {
      AfterStarts(r, l, tail);
      hide Render, FindKey, Atoi, After, JsonSyntax.Show, Found;
      FieldFound(ts, k, r, l, tail);
      ValueScans(r[0].value, l, Render(After(r, l, tail)));
    }
  }

  /** A value that is no text does not start with a quote. */
  lemma OnlyTextsAreQuoted(v: Json, l: Layout, rest: string)
    requires !v.Text?
    ensures var x := JsonSyntax.Show(v, l) + rest; x != "" && x[0] != QUOTE
  {
    match v
    case Num(n) => RenderTok(Raw(DecInt(n)));
    case Frac(negative, whole, decimals) => RenderTok(Raw(FracText(negative, whole, decimals)));
    case Flag(b) => RenderTok(Raw(Bool(b)));
    case List(items) => RenderOne(Raw("[" + l.open), ItemToks(items, l) + [Raw(l.close + "]")]);
    case Obj(fields) => RenderOne(Raw("{" + l.open), FieldToks(fields, l) + [Raw(l.close + "}")]);
  }

  lemma TextShown(s: string, l: Layout, rest: string)
    ensures var x := JsonSyntax.Show(Text(s), l) + rest;
      x != "" && x[0] == QUOTE && x[1..] == s + [QUOTE] + rest && x[1..] == s + ([QUOTE] + rest)
  {
    RenderTok(Str(s));
  }

  lemma TextReads(ts: seq<Tok>, k: string, r: seq<Field>, l: Layout, tail: seq<Tok>, prior: string, max: nat)
    requires Found(ts, k, r, l, tail) && Spaced(l)
    ensures GetStr(Render(ts), k, prior, max) == TextOf(Head(r), prior, max)
  {
    if r == [] {
      NothingFound(ts, k, l, tail);
    } else {
      var v, rest := r[0].value, Render(After(r, l, tail));
      assert NoQuotes(v);
      hide Render, FindKey, TakeText, After, JsonSyntax.Show, Found;
      FieldFound(ts, k, r, l, tail);
      if v.Text? {
        TextShown(v.s, l, rest);
        TakeTextClips(v.s, rest, max);
      } else {
        OnlyTextsAreQuoted(v, l, rest);
      }
    }
  }

  // ----- The schedule

  /** The time, once the schedule has been found. */
  lemma TimeIs(json: string, sched: seq<Tok>, r: seq<Field>, l: Layout, tail: seq<Tok>)
    requires StrStr(json, Quoted("schedule")) == Some(Render(sched)) && Found(sched, "time", r, l, tail) && Spaced(l)
    ensures ParseTime(json) == TimeGiven(Head(r))
  {
    if r == [] {
      NothingFound(sched, "time", l, tail);
    } else {
      var v, rest := r[0].value, Render(After(r, l, tail));
      assert NoQuotes(v);
      hide Render, FindKey, ScanTime, After, JsonSyntax.Show, Found, StrStr;
      FieldFound(sched, "time", r, l, tail);
      if v.Text? {
        TextShown(v.s, l, rest);
        TimeBeforeQuote(v.s, rest);
      } else {
        OnlyTextsAreQuoted(v, l, rest);
      }
    }
  }

  /** The bracket after a key, and what follows it. */
  lemma BracketFound(key: string, colon: string, x: string, bracket: char)
    requires KeyLike(key) && Spaces(colon) && x != "" && x[0] == bracket
    requires bracket != QUOTE && bracket != ':' && bracket != ' ' && !Letter(bracket)
    ensures StrChr(Quoted(key) + (":" + (colon + x)), bracket) == Some(x)
  {
    BracketNotInKey(key, bracket);
    assert bracket !in Quoted(key) + ":" + colon;
    hide StrChr, Quoted, KeyLike, Spaces;
    assert Quoted(key) + (":" + (colon + x)) == (Quoted(key) + ":" + colon) + x;
    StrChrSkips(Quoted(key) + ":" + colon, x, bracket);
    StrChrHere(x, bracket);
  }

  lemma {:induction false} DayFreeSkips(g: string, s: string, m: nat)
    requires DayFree(g)
    ensures DayMask(g + s, m) == DayMask(s, m)
  {
    if g == "" {
      assert g + s == s;
    } else {
      DayFreeSkips(g[1..], s, m);
      assert (g + s)[1..] == g[1..] + s;
    }
  }

  lemma OneDayReads(v: Json, l: Layout, rest: string, m: nat)
    requires IsDay(v)
    ensures DayMask(JsonSyntax.Show(v, l) + rest, m) == DayMask(rest, WithDay(v, m))
  {
    if v.Text? {
      RenderTok(Str(v.s));
      assert DayFree(Quoted(v.s));
      DayFreeSkips(Quoted(v.s), rest, m);
    } else {
      RenderTok(Raw(DecInt(v.n)));
      var s := DecInt(v.n) + rest;
      assert DecInt(v.n) == [DigitChar(v.n)] && s[0] == DigitChar(v.n) && s[1..] == rest;
    }
  }

  /** The listed days set their bits, whatever stands between them. */
  lemma {:induction false} DayListReads(items: seq<Json>, l: Layout, rest: string, m: nat)
    requires (forall i :: 0 <= i < |items| ==> IsDay(items[i])) && Gaps(l.comma)
    requires rest != "" && rest[0] == ']'
    ensures DayMask(Render(ItemToks(items, l)) + (l.close + rest), m) == DayMask(l.close + rest, DayBits(items, m))
  {
    hide Render, DayMask, WithDay, JsonSyntax.Show, ValueToks;
    var end := l.close + rest;
    if items == [] {
      NoItems(l, end);
    } else {
      var more, m' := Render(ItemToks(items[1..], l)), WithDay(items[0], m);
      if |items| == 1 {
        OneItem(items, l);
        OneDayReads(items[0], l, end, m);
      } else {
        ItemsText(items, l, end);
        OneDayReads(items[0], l, "," + (l.comma + (more + end)), m);
        assert "," + (l.comma + (more + end)) == ("," + l.comma) + (more + end);
        DayFreeSkips("," + l.comma, more + end, m');
        DayListReads(items[1..], l, rest, m');
      }
    }
  }

  lemma OneItem(items: seq<Json>, l: Layout)
    requires |items| == 1
    ensures Render(ItemToks(items, l)) == JsonSyntax.Show(items[0], l)
  {}

  lemma NoItems(l: Layout, end: string)
    ensures Render(ItemToks([], l)) + end == end
  {
    assert "" + end == end;
  }

  lemma ListReads(items: seq<Json>, l: Layout, rest: string)
    requires (forall i :: 0 <= i < |items| ==> IsDay(items[i])) && Spaced(l)
    ensures var x := JsonSyntax.Show(List(items), l) + rest;
      x != "" && x[0] == '[' && DayMask(x[1..], 0) == DayBits(items, 0)
  {
    var inner := Render(ItemToks(items, l)) + (l.close + ("]" + rest));
    BracketText("[", ItemToks(items, l), "]", l.open, l.close, rest);
    hide Render, ItemToks, DayBits;
    var x := JsonSyntax.Show(List(items), l) + rest;
    assert x == "[" + (l.open + inner) && x[1..] == l.open + inner;
    DayFreeSkips(l.open, inner, 0);
    DayListReads(items, l, "]" + rest, 0);
    DayFreeSkips(l.close, "]" + rest, DayBits(items, 0));
    assert DayMask("]" + rest, DayBits(items, 0)) == DayBits(items, 0);
  }

  lemma DaysKey()
    ensures KeyLike("days")
  {}

  /** The days, once the schedule has been found. */
  lemma DaysAre(json: string, sched: seq<Tok>, r: seq<Field>, l: Layout, tail: seq<Tok>)
    requires StrStr(json, Quoted("schedule")) == Some(Render(sched)) && Found(sched, "days", r, l, tail) && Spaced(l)
    requires r != [] ==> IsDayList(r[0].value)
    ensures ParseDays(json) == DaysGiven(Head(r))
  {
    KeyFound(sched, "days", r, l, tail);
    if r != [] {
      var items, rest := r[0].value.items, Render(After(r, l, tail));
      var x := JsonSyntax.Show(List(items), l) + rest;
      hide Render, StrStr, StrChr, DayMask, DayBits, After, JsonSyntax.Show;
      FoundText(r, l, tail);
      DaysKey();
      ListReads(items, l, rest);
      BracketFound("days", l.colon, x, '[');
    }
  }

  lemma HalfBit(m: nat, e: nat)
    ensures Bit(m, e + 1) <==> Bit(m / 2, e)
  {
    var q := Pow2(e);
    var a, r := m / 2 / q, m / 2 % q;
    assert a * (2 * q) + (2 * r + m % 2) == 2 * (a * q + r) + m % 2 == m;
    RemainderIs(m, 2 * q, a, 2 * r + m % 2);
  }

  lemma {:induction false} BitOfSum(m: nat, d: nat, e: nat)
    requires !Bit(m, d)
    ensures Bit(m + Pow2(d), e) <==> e == d || Bit(m, e)
    decreases d
  {
    var s := m + Pow2(d);
    if d == 0 {
      LowBits(m);
      if e > 0 {
        hide Bit;
        HalfBit(m, e - 1);
        HalfBit(s, e - 1);
      }
    } else {
      assert Pow2(d) == 2 * Pow2(d - 1);
      assert s / 2 == m / 2 + Pow2(d - 1) && s % 2 == m % 2;
      LowBits(m);
      LowBits(s);
      hide Bit, Pow2;
      HalfBit(m, d - 1);
      if e > 0 {
        HalfBit(m, e - 1);
        HalfBit(s, e - 1);
        BitOfSum(m / 2, d - 1, e - 1);
      }
    }
  }

  lemma LowBits(m: nat)
    ensures Pow2(0) == 1 && (Bit(m, 0) <==> m % 2 == 1)
    ensures !Bit(m, 0) ==> Bit(m + 1, 0) && (m + 1) / 2 == m / 2
  {}

  /** Exactly the listed days are set in the mask. */
  lemma {:induction false} DayIsSet(items: seq<Json>, m: nat, d: nat)
    requires d <= 6
    ensures Bit(DayBits(items, m), d) <==> Num(d) in items || Bit(m, d)
  {
    hide Bit, SetBit;
    if items != [] {
      var v := items[0];
      assert Num(d) in items <==> v == Num(d) || Num(d) in items[1..];
      if v.Num? && 0 <= v.n <= 6 {
        BitOfSet(m, v.n, d);
      }
      DayIsSet(items[1..], WithDay(v, m), d);
    }
  }

  lemma BitOfSet(m: nat, d: nat, e: nat)
    ensures Bit(SetBit(m, d), e) <==> e == d || Bit(m, e)
  {
    if !Bit(m, d) {
      BitOfSum(m, d, e);
    }
  }

  // ----- The apps

  predicate AppGap(s: string) {
    forall i :: 0 <= i < |s| ==> s[i] == ' ' || s[i] == ',' || s[i] == '\n' || s[i] == '\r'
  }

  lemma {:induction false} GapSkipped(g: string, s: string)
    requires AppGap(g) && s != "" && s[0] in "\"}"
    ensures SkipGaps(g + s) == s
  {
    if g == "" {
      assert g + s == s;
    } else {
      GapSkipped(g[1..], s);
      assert (g + s)[1..] == g[1..] + s;
    }
  }

  lemma SpacedName(name: string, colon: string, value: string)
    requires QuoteFree(name) && |name| < APP_NAME_LEN && value != "" && value[0] != ' ' && value[0] != ':'
    requires Spaces(colon)
    ensures ReadName(Quoted(name) + (":" + (colon + value))) == AppName(name, value)
  {
    var rest := ":" + (colon + value);
    var t := Quoted(name) + rest;
    ColonSkipped(colon, value);
    hide SkipColons, TakeText;
    assert t[1..] == name + [QUOTE] + rest;
    TakeTextStops(name, rest, APP_NAME_LEN - 1);
    assert t[1 + |name|..] == [QUOTE] + rest;
    assert ([QUOTE] + rest)[1..] == rest;
  }

  lemma FlagText(f: Field, l: Layout, rest: string)
    requires IsApp(f)
    ensures JsonSyntax.Show(f.value, l) + rest == Bool(f.value.b) + rest
  {
    RenderTok(Raw(Bool(f.value.b)));
  }

  /** One app, with whatever gap before it. */
  lemma SpacedApp(f: Field, l: Layout, gap: string, rest: string, a: AppList)
    requires |a.apps| == CONFIG_MAX_APPS && a.count < CONFIG_MAX_APPS
    requires IsApp(f) && QuoteFree(f.key) && Spaced(l) && AppGap(gap)
    ensures AppsFrom(gap + (Quoted(f.key) + (":" + (l.colon + (JsonSyntax.Show(f.value, l) + rest)))), a) ==
      AppsFrom(rest, AppList(a.apps[a.count := AppOf(f)], a.count + 1))
  {
    hide ReadName, ConfigParser.ReadValue, SkipGaps, JsonSyntax.Show;
    var value := Bool(f.value.b) + rest;
    var t := Quoted(f.key) + (":" + (l.colon + value));
    FlagText(f, l, rest);
    assert t[0] == QUOTE;
    GapSkipped(gap, t);
    SpacedName(f.key, l.colon, value);
    ConfigCollections.ValueReads(a, f.key, f.value.b, rest);
    assert Bool(f.value.b) == ConfigCollections.Flag(f.value.b);
    assert (gap + t)[0] == if gap == "" then QUOTE else gap[0];
  }

  /** Where the list of apps ends. */
  lemma AppsEnd(gap: string, rest: string, a: AppList)
    requires |a.apps| == CONFIG_MAX_APPS && a.count <= CONFIG_MAX_APPS && AppGap(gap)
    ensures AppsFrom(gap + ("}" + rest), a) == a
  {
    var t := "}" + rest;
    assert t[0] == '}';
    GapSkipped(gap, t);
  }

  lemma FilledStep(slots: seq<App>, at: nat, fields: seq<Field>)
    requires fields != [] && at < |slots|
    ensures Filled(slots[at := AppOf(fields[0])], at + 1, fields[1..]) == Filled(slots, at, fields)
  {
    var n := if |fields| < |slots| - at then |fields| else |slots| - at;
    assert fields[..n][1..] == fields[1..][..n - 1] && fields[..n][0] == fields[0];
    ConfigCollections.SpliceStep(slots, at, AppsIn(fields[..n]));
  }

  lemma NothingFilled(slots: seq<App>, at: nat, fields: seq<Field>)
    requires at <= |slots| && (fields == [] || at == |slots|)
    ensures Filled(slots, at, fields) == AppList(slots, at)
  {
    assert slots[..at] + [] + slots[at..] == slots;
  }

  /** The apps are read in order until the slots are full. */
  lemma {:induction false} AppFieldsRead(fields: seq<Field>, l: Layout, gap: string, rest: string, a: AppList)
    requires |a.apps| == CONFIG_MAX_APPS && a.count <= CONFIG_MAX_APPS && Spaced(l) && AppGap(gap)
    requires forall i :: 0 <= i < |fields| ==> IsApp(fields[i]) && QuoteFree(fields[i].key)
    ensures AppsFrom(gap + (Render(FieldToks(fields, l)) + (l.close + ("}" + rest))), a) ==
      Filled(a.apps, a.count, fields)
    decreases |fields|
  {
    hide Render, FieldTok, AppsFrom, Filled, JsonSyntax.Show, AppOf;
    var end := l.close + ("}" + rest);
    if a.count == CONFIG_MAX_APPS {
      NothingFilled(a.apps, a.count, fields);
      AppsFull(gap + (Render(FieldToks(fields, l)) + end), a);
    } else if fields == [] {
      NoFieldsText(l);
      assert gap + ("" + end) == (gap + l.close) + ("}" + rest);
      NothingFilled(a.apps, a.count, fields);
      AppsEnd(gap + l.close, rest, a);
    } else {
      var b := AppList(a.apps[a.count := AppOf(fields[0])], a.count + 1);
      FilledStep(a.apps, a.count, fields);
      if |fields| == 1 {
        FieldText(fields[0], l, end);
        SpacedApp(fields[0], l, gap, end, a);
        NoFieldsText(l);
        assert "" + ("" + end) == end;
        AppFieldsRead([], l, "", rest, b);
        assert fields[1..] == [];
      } else {
        var more := Render(FieldToks(fields[1..], l)) + end;
        FieldsText(fields, l, end);
        FieldText(fields[0], l, "," + (l.comma + more));
        SpacedApp(fields[0], l, gap, "," + (l.comma + more), a);
        assert "," + (l.comma + more) == ("," + l.comma) + more;
        AppFieldsRead(fields[1..], l, "," + l.comma, rest, b);
      }
    }
  }

  lemma AppsFull(s: string, a: AppList)
    requires |a.apps| == CONFIG_MAX_APPS == a.count
    ensures AppsFrom(s, a) == a
  {}

  lemma NoFieldsText(l: Layout)
    ensures Render(FieldToks([], l)) == ""
  {}

  lemma AppsKey()
    ensures KeyLike("apps")
  {}

  /** The apps object. */
  lemma AppsAre(ts: seq<Tok>, r: seq<Field>, l: Layout, tail: seq<Tok>, a: AppList)
    requires |a.apps| == CONFIG_MAX_APPS && a.count <= CONFIG_MAX_APPS
    requires Found(ts, "apps", r, l, tail) && Spaced(l)
    requires r != [] ==> IsAppObject(r[0].value)
    ensures ParseApps(Render(ts), a) == AppsOver(Head(r), a)
  {
    KeyFound(ts, "apps", r, l, tail);
    if r != [] {
      var fields, rest := r[0].value.fields, Render(After(r, l, tail));
      var x := JsonSyntax.Show(Obj(fields), l) + rest;
      assert NoQuotes(Obj(fields));
      BracketText("{", FieldToks(fields, l), "}", l.open, l.close, rest);
      AppsKey();
      hide Render, StrStr, StrChr, AppsFrom, Filled, After, JsonSyntax.Show, FieldToks;
      var inner := l.open + (Render(FieldToks(fields, l)) + (l.close + ("}" + rest)));
      assert x == "{" + inner && x[1..] == inner;
      FoundText(r, l, tail);
      BracketFound("apps", l.colon, x, '{');
      AppFieldsRead(fields, l, l.open, rest, AppList(a.apps, 0));
    }
  }

  // ----- The whole object

  lemma KeysAreKeys()
    ensures forall i :: 0 <= i < |SEARCHED| ==> KeyLike(SEARCHED[i])
    ensures forall i :: 0 <= i < |TIMING_KEYS| ==> KeyLike(TIMING_KEYS[i]) && TIMING_KEYS[i] != "timing"
    ensures KeyLike("time") && KeyLike("days") && KeyLike("ssid") && KeyLike("password")
  {}

  lemma HeadIsLookup(fields: seq<Field>, k: string)
    ensures Head(From(fields, k)) == Lookup(fields, k)
  {}

  /** The text of an object. */
  function ObjectText(fields: seq<Field>, l: Layout): string {
    JsonSyntax.Show(Obj(fields), l)
  }

  lemma TopInt(fields: seq<Field>, l: Layout, k: string, def: int)
    requires NoQuotes(Obj(fields)) && Spaced(l) && Direct(fields, k) && KeyLike(k)
    ensures GetInt(ObjectText(fields, l), k, def) == IntOf(Lookup(fields, k), def)
  {
    TopFound(fields, l, k);
    hide Render, ValueToks, Found, GetInt, Spaced;
    IntReads(ValueToks(Obj(fields), l), k, From(fields, k), l, Last(l), def);
  }

  lemma TopText(fields: seq<Field>, l: Layout, k: string, prior: string, max: nat)
    requires NoQuotes(Obj(fields)) && Spaced(l) && Direct(fields, k) && KeyLike(k)
    ensures GetStr(ObjectText(fields, l), k, prior, max) == TextOf(Lookup(fields, k), prior, max)
  {
    TopFound(fields, l, k);
    hide Render, ValueToks, Found, GetStr, Spaced;
    TextReads(ValueToks(Obj(fields), l), k, From(fields, k), l, Last(l), prior, max);
  }

  /** The fields before the nested objects. */
  lemma TopIs(fields: seq<Field>, l: Layout, d: Config)
    requires NoQuotes(Obj(fields)) && Spaced(l) && Findable(fields)
    ensures TopLevel(ObjectText(fields, l), d) == TopOver(fields, d)
  {
    KeysAreKeys();
    assert Direct(fields, SEARCHED[0]) && Direct(fields, SEARCHED[1]) && Direct(fields, SEARCHED[2]) &&
      Direct(fields, SEARCHED[3]);
    assert KeyLike(SEARCHED[0]) && KeyLike(SEARCHED[1]) && KeyLike(SEARCHED[2]) && KeyLike(SEARCHED[3]);
    hide Findable, Direct, KeyLike, NoQuotes, Spaced, GetInt, GetStr, IntOf, TextOf, Lookup, ObjectText;
    TopInt(fields, l, "version", 2);
    TopText(fields, l, "firmware", d.firmware, FIRMWARE_LEN - 1);
    TopText(fields, l, "device", d.device, DEVICE_LEN - 1);
    TopText(fields, l, "locale", d.locale, LOCALE_LEN - 1);
  }

  /** The text of a section, or none. */
  lemma SectionText(fields: seq<Field>, l: Layout, s: string)
    requires NoQuotes(Obj(fields)) && Spaced(l) && Direct(fields, s) && KeyLike(s)
    ensures StrStr(ObjectText(fields, l), Quoted(s)) ==
      if Lookup(fields, s) == None then None else Some(Render(Section(fields, l, s)))
  {
    TopFound(fields, l, s);
    hide Render, ValueToks, Found, StrStr;
    KeyFound(ValueToks(Obj(fields), l), s, From(fields, s), l, Last(l));
  }

  lemma InnerInt(fields: seq<Field>, l: Layout, s: string, k: string, def: int)
    requires NoQuotes(Obj(fields)) && Spaced(l) && KeyLike(s) && KeyLike(k) && s != k
    requires Direct(fields, s) && Within(fields, s, k) && Lookup(fields, s) != None
    ensures GetInt(Render(Section(fields, l, s)), k, def) == IntOf(Lookup(Inner(fields, s), k), def)
  {
    InnerFound(fields, l, s, k);
    hide Render, Section, AfterSection, Found, GetInt, Spaced;
    IntReads(Section(fields, l, s), k, From(Inner(fields, s), k), l, AfterSection(fields, l, s), def);
  }

  lemma InnerText(fields: seq<Field>, l: Layout, s: string, k: string, prior: string, max: nat)
    requires NoQuotes(Obj(fields)) && Spaced(l) && KeyLike(s) && KeyLike(k) && s != k
    requires Direct(fields, s) && Within(fields, s, k) && Lookup(fields, s) != None
    ensures GetStr(Render(Section(fields, l, s)), k, prior, max) == TextOf(Lookup(Inner(fields, s), k), prior, max)
  {
    InnerFound(fields, l, s, k);
    hide Render, Section, AfterSection, Found, GetStr, Spaced;
    TextReads(Section(fields, l, s), k, From(Inner(fields, s), k), l, AfterSection(fields, l, s), prior, max);
  }

  predicate DefaultTiming(c: Config) {
    c.bootWait == 45 && c.wakeWait == 5 && c.keystroke == 50 && c.retryCount == 3 && c.retryInterval == 10 &&
    c.dialogWait == 1
  }

  lemma TimingInts(fields: seq<Field>, l: Layout, i: nat, def: int)
    requires NoQuotes(Obj(fields)) && Spaced(l) && Findable(fields) && Lookup(fields, "timing") != None
    requires i < |TIMING_KEYS|
    ensures GetInt(Render(Section(fields, l, "timing")), TIMING_KEYS[i], def) ==
      IntOf(Lookup(Inner(fields, "timing"), TIMING_KEYS[i]), def)
  {
    KeysAreKeys();
    assert Direct(fields, SEARCHED[4]) && KeyLike(SEARCHED[4]);
    hide Direct, Within, KeyLike, NoQuotes, Spaced, GetInt, IntOf, Lookup;
    InnerInt(fields, l, "timing", TIMING_KEYS[i], def);
  }

  lemma TimingIs(fields: seq<Field>, l: Layout, c: Config)
    requires NoQuotes(Obj(fields)) && Spaced(l) && Findable(fields) && DefaultTiming(c)
    ensures ParseTiming(ObjectText(fields, l), c) == TimingOver(Inner(fields, "timing"), c)
  {
    KeysAreKeys();
    assert Direct(fields, SEARCHED[4]) && KeyLike(SEARCHED[4]);
    hide Findable, Direct, Within, KeyLike, NoQuotes, Spaced, GetInt, ObjectText, Render, Section, StrStr;
    SectionText(fields, l, "timing");
    if Lookup(fields, "timing") == None {
      NoTiming(c);
    } else {
      hide Lookup, IntOf, Inner;
      TimingInts(fields, l, 0, 45);
      TimingInts(fields, l, 1, 5);
      TimingInts(fields, l, 2, 50);
      TimingInts(fields, l, 3, 3);
      TimingInts(fields, l, 4, 10);
      TimingInts(fields, l, 5, 1);
    }
  }

  lemma NoTiming(c: Config)
    requires DefaultTiming(c)
    ensures TimingOver([], c) == c
  {
    NothingInside("boot_wait_sec");
    NothingInside("wake_wait_sec");
    NothingInside("keystroke_ms");
    NothingInside("retry_count");
    NothingInside("retry_interval_sec");
    NothingInside("dialog_wait_sec");
    hide Lookup;
  }

  lemma NothingInside(k: string)
    ensures Lookup([], k) == None
  {}

  lemma ScheduleIs(fields: seq<Field>, l: Layout)
    requires NoQuotes(Obj(fields)) && Spaced(l) && Findable(fields) && Typed(fields)
    ensures var s := Inner(fields, "schedule");
      ParseTime(ObjectText(fields, l)) == TimeGiven(Lookup(s, "time")) &&
        ParseDays(ObjectText(fields, l)) == DaysGiven(Lookup(s, "days"))
  {
    KeysAreKeys();
    var json, s := ObjectText(fields, l), Inner(fields, "schedule");
    assert Direct(fields, SEARCHED[5]) && KeyLike(SEARCHED[5]);
    hide Direct, Within, KeyLike, NoQuotes, Spaced, ObjectText, Render, Section, StrStr, Found, AfterSection;
    SectionText(fields, l, "schedule");
    if Lookup(fields, "schedule") == None {
      NothingInside("time");
      NothingInside("days");
    } else {
      var ts, tail := Section(fields, l, "schedule"), AfterSection(fields, l, "schedule");
      InnerFound(fields, l, "schedule", "time");
      InnerFound(fields, l, "schedule", "days");
      hide ParseTime, ParseDays, TimeGiven, DaysGiven, IsDayList, From;
      HeadIsLookup(s, "time");
      HeadIsLookup(s, "days");
      TimeIs(json, ts, From(s, "time"), l, tail);
      DaysAre(json, ts, From(s, "days"), l, tail);
    }
  }

  lemma AppsObject(fields: seq<Field>, l: Layout, a: AppList)
    requires NoQuotes(Obj(fields)) && Spaced(l) && Findable(fields) && Typed(fields)
    requires |a.apps| == CONFIG_MAX_APPS && a.count <= CONFIG_MAX_APPS
    ensures ParseApps(ObjectText(fields, l), a) == AppsOver(Lookup(fields, "apps"), a)
  {
    KeysAreKeys();
    assert Direct(fields, SEARCHED[6]) && KeyLike(SEARCHED[6]);
    hide Direct, Within, KeyLike, NoQuotes, Spaced, Render, Found, IsAppObject, AppsOver, ParseApps;
    TopFound(fields, l, "apps");
    HeadIsLookup(fields, "apps");
    AppsAre(ValueToks(Obj(fields), l), From(fields, "apps"), l, Last(l), a);
  }

  /** The SSID and the password of the wifi object. */
  lemma WifiIs(fields: seq<Field>, l: Layout, ssid: string, password: string)
    requires NoQuotes(Obj(fields)) && Spaced(l) && Findable(fields)
    ensures var w := Inner(fields, "wifi");
      ParseWifi(ObjectText(fields, l), ssid, password) ==
        (TextOf(Lookup(w, "ssid"), ssid, SSID_LEN - 1), TextOf(Lookup(w, "password"), password, PASS_LEN - 1))
  {
    KeysAreKeys();
    assert Direct(fields, SEARCHED[7]) && KeyLike(SEARCHED[7]);
    hide Direct, Within, KeyLike, NoQuotes, Spaced, ObjectText, Render, Section, StrStr, GetStr;
    SectionText(fields, l, "wifi");
    if Lookup(fields, "wifi") == None {
      NothingInside("ssid");
      NothingInside("password");
    } else {
      hide Lookup;
      InnerText(fields, l, "wifi", "ssid", ssid, SSID_LEN - 1);
      InnerText(fields, l, "wifi", "password", password, PASS_LEN - 1);
    }
  }

  lemma StartsWithBrace(fields: seq<Field>, l: Layout)
    ensures ObjectText(fields, l) != "" && ObjectText(fields, l)[0] == '{'
  {
    hide FieldToks;
    RenderOne(Raw("{" + l.open), FieldToks(fields, l) + [Raw(l.close + "}")]);
  }

  /**
   * An object is read as its own fields over the defaults, whatever their order, the white space between them and what
   * else it holds. No field is kept from the configuration before.
   */
  lemma UpdateReads(fields: seq<Field>, l: Layout)
    requires NoQuotes(Obj(fields)) && Spaced(l) && Findable(fields) && Typed(fields)
    ensures FromJson(JsonSyntax.Show(Obj(fields), l)) == Some(Overlay(fields))
  {
    var json, d := ObjectText(fields, l), Defaults();
    StartsWithBrace(fields, l);
    hide NoQuotes, Spaced, Findable, Typed, Inner, Lookup, JsonSyntax.Show, TopLevel, ParseTiming, ParseTime, ParseDays,
      ParseApps, ParseWifi, AppsOver, TextOf, IntOf, TimeGiven, DaysGiven;
    var c := TimingOver(Inner(fields, "timing"), TopOver(fields, d));
    TopIs(fields, l, d);
    TimingIs(fields, l, TopOver(fields, d));
    ScheduleIs(fields, l);
    AppsObject(fields, l, AppList(c.apps, c.appCount));
    WifiIs(fields, l, "", "");
  }

  /** Spacing does not matter. */
  lemma SpacingDoesNotMatter(fields: seq<Field>, l: Layout)
    requires NoQuotes(Obj(fields)) && Spaced(l) && Findable(fields) && Typed(fields)
    ensures FromJson(JsonSyntax.Show(Obj(fields), l)) == FromJson(JsonSyntax.Show(Obj(fields), COMPACT))
  {
    hide NoQuotes, Findable, Typed;
    UpdateReads(fields, l);
    UpdateReads(fields, COMPACT);
  }
}
