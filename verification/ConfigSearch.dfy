/**
 * Where the searches of config_from_json land in the text of any JSON object: for every key that no earlier string
 * repeats, on the field of that name, whatever the order of the fields and the white space between them.
 */
module ConfigSearch {
  import opened Wrappers
  import opened CStrings
  import opened JsonText
  import opened JsonSyntax
  import opened Config
  import opened ConfigParser
  import opened ConfigRoundTrip

  // ----- Objects as mappings

  /** The fields from the first one called k on. */
  function From(fields: seq<Field>, k: string): (r: seq<Field>)
    ensures |r| <= |fields| && (r != [] ==> r[0].key == k)
  {
    if fields == [] || fields[0].key == k then fields else From(fields[1..], k)
  }

  function Lookup(fields: seq<Field>, k: string): Option<Json> {
    var r := From(fields, k);
    if r == [] then None else Some(r[0].value)
  }

  function FieldsOf(v: Json): seq<Field> {
    if v.Obj? then v.fields else []
  }

  // ----- Hypotheses

  /** No string contains a quote. */
  predicate NoQuotes(v: Json)
    decreases v
  {
    match v
    case Num(_) => true
    case Frac(_, _, _) => true
    case Text(s) => QuoteFree(s)
    case Flag(_) => true
    case List(items) => forall i :: 0 <= i < |items| ==> NoQuotes(items[i])
    case Obj(fields) => forall i :: 0 <= i < |fields| ==> QuoteFree(fields[i].key) && NoQuotes(fields[i].value)
  }

  /** k is a string of the value: a key or a text. */
  predicate Mentions(v: Json, k: string)
    decreases v
  {
    match v
    case Num(_) => false
    case Frac(_, _, _) => false
    case Text(s) => s == k
    case Flag(_) => false
    case List(items) => exists i :: 0 <= i < |items| && Mentions(items[i], k)
    case Obj(fields) => exists i :: 0 <= i < |fields| && (fields[i].key == k || Mentions(fields[i].value, k))
  }

  /** The first k among the fields is one of their keys. */
  predicate Direct(fields: seq<Field>, k: string) {
    fields == [] || fields[0].key == k || (!Mentions(fields[0].value, k) && Direct(fields[1..], k))
  }

  /** From the section s on, the first k is a key of that section, or there is none. */
  predicate Within(fields: seq<Field>, s: string, k: string) {
    var r := From(fields, s);
    r != [] ==>
      (if r[0].value.Obj? then Direct(r[0].value.fields, k) else !Mentions(r[0].value, k)) &&
      (Lookup(FieldsOf(r[0].value), k) == None ==> !Mentions(Obj(r[1..]), k))
  }

  /** White space of the parser: spaces after a colon, no tabs elsewhere. json.dumps writes nothing else. */
  predicate Spaced(l: Layout) {
    Spaces(l.colon) && Gaps(l.comma) && Gaps(l.open) && Gaps(l.close)
  }

  predicate Spaces(s: string) {
    forall i :: 0 <= i < |s| ==> s[i] == ' '
  }

  predicate Gaps(s: string) {
    forall i :: 0 <= i < |s| ==> s[i] == ' ' || s[i] == '\n' || s[i] == '\r'
  }

  // ----- The tokens are well formed

  /** What may stand after a value. */
  predicate Follows(ts: seq<Tok>) {
    WellFormed(ts) && ts != [] && ts[0].Raw? && ts[0].text != "" && !Letter(ts[0].text[0]) && !IsDigit(ts[0].text[0])
  }

  lemma RawFits(text: string, rest: seq<Tok>)
    requires QuoteFree(text) && WellFormed(rest)
    ensures WellFormed([Raw(text)] + rest)
  {
    var ts := [Raw(text)] + rest;
    forall i | 0 <= i < |ts| ensures Fits(ts, i) {
      assert i > 0 ==> Fits(rest, i - 1);
    }
  }

  lemma StrFits(text: string, rest: seq<Tok>)
    requires QuoteFree(text) && WellFormed(rest) && rest != [] && rest[0].Raw? && rest[0].text != ""
    requires !Letter(rest[0].text[0])
    ensures WellFormed([Str(text)] + rest)
  {
    var ts := [Str(text)] + rest;
    forall i | 0 <= i < |ts| ensures Fits(ts, i) {
      assert i > 0 ==> Fits(rest, i - 1);
    }
  }

  lemma CloseFollows(gap: string, close: string, rest: seq<Tok>)
    requires Gaps(gap) && (close == "}" || close == "]") && WellFormed(rest)
    ensures Follows([Raw(gap + close)] + rest)
  {
    RawFits(gap + close, rest);
  }

  lemma SeparatorFollows(gap: string, rest: seq<Tok>)
    requires Gaps(gap) && WellFormed(rest)
    ensures Follows([Raw("," + gap)] + rest)
  {
    RawFits("," + gap, rest);
  }

  lemma LeafFits(v: Json, l: Layout, rest: seq<Tok>)
    requires NoQuotes(v) && Follows(rest) && !v.List? && !v.Obj?
    ensures WellFormed(ValueToks(v, l) + rest)
  {
    hide WellFormed;
    match v
    case Num(n) => NoQuoteInInt(n); RawFits(DecInt(n), rest);
    case Frac(negative, whole, decimals) =>
      NoQuoteInFraction(negative, whole, decimals);
      RawFits(FracText(negative, whole, decimals), rest);
    case Text(s) => StrFits(s, rest);
    case Flag(b) => RawFits(Bool(b), rest);
  }

  lemma NoQuoteInInt(n: int)
    ensures QuoteFree(DecInt(n))
  {}

  lemma NoQuoteInFraction(negative: bool, whole: nat, decimals: Digits)
    ensures QuoteFree(FracText(negative, whole, decimals))
  {}

  lemma {:induction false} ValueFits(v: Json, l: Layout, rest: seq<Tok>)
    requires NoQuotes(v) && Spaced(l) && Follows(rest)
    ensures WellFormed(ValueToks(v, l) + rest)
    decreases v, 2
  {
    hide WellFormed;
    match v {
      case List(items) =>
        var tail := [Raw(l.close + "]")] + rest;
        CloseFollows(l.close, "]", rest);
        ItemsFit(items, l, tail);
        RawFits("[" + l.open, ItemToks(items, l) + tail);
        Regroups([Raw("[" + l.open)], ItemToks(items, l), [Raw(l.close + "]")], rest);
      case Obj(fields) =>
        var tail := [Raw(l.close + "}")] + rest;
        CloseFollows(l.close, "}", rest);
        FieldsFit(fields, l, tail);
        RawFits("{" + l.open, FieldToks(fields, l) + tail);
        Regroups([Raw("{" + l.open)], FieldToks(fields, l), [Raw(l.close + "}")], rest);
      case _ =>
        LeafFits(v, l, rest);
    }
  }

  lemma Regroups(a: seq<Tok>, b: seq<Tok>, c: seq<Tok>, d: seq<Tok>)
    ensures (a + (b + c)) + d == a + (b + (c + d))
  {}

  lemma {:induction false} ItemsFit(items: seq<Json>, l: Layout, rest: seq<Tok>)
    requires (forall i :: 0 <= i < |items| ==> NoQuotes(items[i])) && Spaced(l) && Follows(rest)
    ensures WellFormed(ItemToks(items, l) + rest)
    decreases items, 1
  {
    hide WellFormed, ValueToks;
    if items == [] {
      assert ItemToks(items, l) + rest == rest;
    } else if |items| == 1 {
      ValueFits(items[0], l, rest);
    } else {
      var more := ItemToks(items[1..], l);
      ItemsFit(items[1..], l, rest);
      SeparatorFollows(l.comma, more + rest);
      ValueFits(items[0], l, [Raw("," + l.comma)] + (more + rest));
      Regroups(ValueToks(items[0], l), [Raw("," + l.comma)], more, rest);
    }
  }

  lemma {:induction false} FieldFits(f: Field, l: Layout, rest: seq<Tok>)
    requires QuoteFree(f.key) && NoQuotes(f.value) && Spaced(l) && Follows(rest)
    ensures WellFormed(FieldTok(f, l) + rest)
    decreases f, 3
  {
    hide WellFormed, ValueToks, NoQuotes;
    var v := ValueToks(f.value, l) + rest;
    ValueFits(f.value, l, rest);
    RawFits(":" + l.colon, v);
    StrFits(f.key, [Raw(":" + l.colon)] + v);
    assert FieldTok(f, l) + rest == [Str(f.key)] + ([Raw(":" + l.colon)] + v);
  }

  lemma {:induction false} FieldsFit(fields: seq<Field>, l: Layout, rest: seq<Tok>)
    requires forall i :: 0 <= i < |fields| ==> QuoteFree(fields[i].key) && NoQuotes(fields[i].value)
    requires Spaced(l) && Follows(rest)
    ensures WellFormed(FieldToks(fields, l) + rest)
    decreases fields, 1
  {
    hide WellFormed, FieldTok;
    if fields == [] {
      assert FieldToks(fields, l) + rest == rest;
    } else if |fields| == 1 {
      FieldFits(fields[0], l, rest);
    } else {
      var more := FieldToks(fields[1..], l);
      FieldsFit(fields[1..], l, rest);
      SeparatorFollows(l.comma, more + rest);
      FieldFits(fields[0], l, [Raw("," + l.comma)] + (more + rest));
      Regroups(FieldTok(fields[0], l), [Raw("," + l.comma)], more, rest);
    }
  }

  // ----- What is not mentioned is not found

  lemma LacksBoth(a: seq<Tok>, b: seq<Tok>, k: string)
    requires Lacks(a, k) && Lacks(b, k)
    ensures Lacks(a + b, k)
  {}

  lemma LacksBetween(open: string, inner: seq<Tok>, close: string, k: string)
    requires Lacks(inner, k)
    ensures Lacks([Raw(open)] + (inner + [Raw(close)]), k)
  {}

  lemma {:induction false} ValueLacks(v: Json, l: Layout, k: string)
    requires !Mentions(v, k)
    ensures Lacks(ValueToks(v, l), k)
    decreases v, 2
  {
    match v
    case List(items) =>
      ItemsLack(items, l, k);
      LacksBetween("[" + l.open, ItemToks(items, l), l.close + "]", k);
    case Obj(fields) =>
      FieldsLack(fields, l, k);
      LacksBetween("{" + l.open, FieldToks(fields, l), l.close + "}", k);
    case _ =>
  }

  lemma {:induction false} ItemsLack(items: seq<Json>, l: Layout, k: string)
    requires forall i :: 0 <= i < |items| ==> !Mentions(items[i], k)
    ensures Lacks(ItemToks(items, l), k)
    decreases items, 1
  {
    hide Lacks, ValueToks;
    if items == [] {
      NothingLacks(k);
    } else {
      ValueLacks(items[0], l, k);
      if |items| > 1 {
        ItemsLack(items[1..], l, k);
        RawLacks("," + l.comma, k);
        LacksBoth([Raw("," + l.comma)], ItemToks(items[1..], l), k);
        LacksBoth(ValueToks(items[0], l), [Raw("," + l.comma)] + ItemToks(items[1..], l), k);
      }
    }
  }

  lemma NothingLacks(k: string)
    ensures Lacks([], k)
  {}

  lemma RawLacks(text: string, k: string)
    ensures Lacks([Raw(text)], k)
  {}

  lemma HeadLacks(key: string, colon: string, k: string)
    requires key != k
    ensures Lacks([Str(key), Raw(colon)], k)
  {}

  lemma {:induction false} FieldLacks(f: Field, l: Layout, k: string)
    requires f.key != k && !Mentions(f.value, k)
    ensures Lacks(FieldTok(f, l), k)
    decreases f, 3
  {
    hide Lacks, ValueToks;
    ValueLacks(f.value, l, k);
    HeadLacks(f.key, ":" + l.colon, k);
    LacksBoth([Str(f.key), Raw(":" + l.colon)], ValueToks(f.value, l), k);
  }

  lemma {:induction false} FieldsLack(fields: seq<Field>, l: Layout, k: string)
    requires forall i :: 0 <= i < |fields| ==> fields[i].key != k && !Mentions(fields[i].value, k)
    ensures Lacks(FieldToks(fields, l), k)
    decreases fields, 1
  {
    hide Lacks, FieldTok;
    if fields == [] {
      NothingLacks(k);
    } else {
      FieldLacks(fields[0], l, k);
      if |fields| > 1 {
        FieldsLack(fields[1..], l, k);
        RawLacks("," + l.comma, k);
        LacksBoth([Raw("," + l.comma)], FieldToks(fields[1..], l), k);
        LacksBoth(FieldTok(fields[0], l), [Raw("," + l.comma)] + FieldToks(fields[1..], l), k);
      }
    }
  }

  // ----- Searching among fields

  /** The tokens after the first field. */
  function After(fields: seq<Field>, l: Layout, tail: seq<Tok>): seq<Tok>
    requires fields != []
  {
    if |fields| == 1 then tail else [Raw("," + l.comma)] + (FieldToks(fields[1..], l) + tail)
  }

  lemma FieldsSplit(fields: seq<Field>, l: Layout, tail: seq<Tok>)
    requires fields != []
    ensures FieldToks(fields, l) + tail == FieldTok(fields[0], l) + After(fields, l, tail)
  {
    if |fields| > 1 {
      Regroups(FieldTok(fields[0], l), [Raw("," + l.comma)], FieldToks(fields[1..], l), tail);
    }
  }

  lemma KeyHere(f: Field, l: Layout, rest: seq<Tok>)
    ensures FirstStr(FieldTok(f, l) + rest, f.key) == Some(FieldTok(f, l) + rest)
  {
    hide ValueToks;
  }

  /** A search among fields stops at the first field of that name. */
  lemma {:induction false} SearchFields(fields: seq<Field>, l: Layout, tail: seq<Tok>, k: string)
    requires Direct(fields, k)
    ensures FirstStr(FieldToks(fields, l) + tail, k) ==
      var r := From(fields, k);
      if r == [] then FirstStr(tail, k) else Some(FieldToks(r, l) + tail)
    decreases |fields|
  {
    hide FirstStr, FieldTok, FieldToks, Mentions, Lacks;
    if fields == [] {
      NoFields(l, tail);
    } else {
      FieldsSplit(fields, l, tail);
      if fields[0].key == k {
        KeyHere(fields[0], l, After(fields, l, tail));
      } else {
        FieldLacks(fields[0], l, k);
        SkipSection(FieldTok(fields[0], l), After(fields, l, tail), k);
        SearchFields(fields[1..], l, tail, k);
        if |fields| == 1 {
          NoFields(l, tail);
        } else {
          SkipRaw("," + l.comma, FieldToks(fields[1..], l) + tail, k);
        }
      }
    }
  }

  lemma NoFields(l: Layout, tail: seq<Tok>)
    ensures FieldToks([], l) + tail == tail
  {}

  /** What a search for k finds when the fields r start with it. */
  predicate Found(ts: seq<Tok>, k: string, r: seq<Field>, l: Layout, tail: seq<Tok>) {
    WellFormed(ts) && Follows(tail) && KeyLike(k) &&
    FirstStr(ts, k) == (if r == [] then None else Some(FieldToks(r, l) + tail)) &&
    (r != [] ==> r[0].key == k && forall i :: 0 <= i < |r| ==> QuoteFree(r[i].key) && NoQuotes(r[i].value))
  }

  /** The tokens of a top-level object after its opening brace end like this. */
  function Last(l: Layout): seq<Tok> {
    [Raw(l.close + "}")]
  }

  lemma {:induction false} SuffixQuotes(fields: seq<Field>, k: string)
    requires NoQuotes(Obj(fields))
    ensures NoQuotes(Obj(From(fields, k)))
    decreases |fields|
  {
    if fields != [] && fields[0].key != k {
      SuffixQuotes(fields[1..], k);
    }
  }

  lemma LastFollows(l: Layout)
    requires Spaced(l)
    ensures Follows(Last(l))
  {
    CloseFollows(l.close, "}", []);
    assert [Raw(l.close + "}")] + [] == Last(l);
  }

  lemma TopFits(fields: seq<Field>, l: Layout)
    requires NoQuotes(Obj(fields)) && Spaced(l)
    ensures WellFormed(ValueToks(Obj(fields), l))
  {
    LastFollows(l);
    FieldsFit(fields, l, Last(l));
    hide WellFormed;
    RawFits("{" + l.open, FieldToks(fields, l) + Last(l));
  }

  /** A top-level key. */
  lemma TopFound(fields: seq<Field>, l: Layout, k: string)
    requires NoQuotes(Obj(fields)) && Spaced(l) && Direct(fields, k) && KeyLike(k)
    ensures Found(ValueToks(Obj(fields), l), k, From(fields, k), l, Last(l))
  {
    TopFits(fields, l);
    SuffixQuotes(fields, k);
    LastFollows(l);
    LastLacks(l, k);
    hide WellFormed, FieldToks, FirstStr, Direct, Spaced, KeyLike, Follows, Last;
    SearchFields(fields, l, Last(l), k);
    TopToks(fields, l);
    SkipRaw("{" + l.open, FieldToks(fields, l) + Last(l), k);
  }

  lemma TopToks(fields: seq<Field>, l: Layout)
    ensures ValueToks(Obj(fields), l) == [Raw("{" + l.open)] + (FieldToks(fields, l) + Last(l))
  {}

  lemma LastLacks(l: Layout, k: string)
    ensures FirstStr(Last(l), k) == None
  {}

  /** The tokens from a section's key on, and those after the fields of the section. */
  function Section(fields: seq<Field>, l: Layout, s: string): seq<Tok> {
    FieldToks(From(fields, s), l) + Last(l)
  }

  function AfterSection(fields: seq<Field>, l: Layout, s: string): seq<Tok>
    requires From(fields, s) != []
  {
    [Raw(l.close + "}")] + After(From(fields, s), l, Last(l))
  }

  lemma AfterFits(fields: seq<Field>, l: Layout, tail: seq<Tok>)
    requires fields != [] && NoQuotes(Obj(fields)) && Spaced(l) && Follows(tail)
    ensures Follows(After(fields, l, tail))
  {
    if |fields| > 1 {
      FieldsFit(fields[1..], l, tail);
      SeparatorFollows(l.comma, FieldToks(fields[1..], l) + tail);
    }
  }

  lemma AfterLacks(fields: seq<Field>, l: Layout, k: string)
    requires fields != [] && !Mentions(Obj(fields[1..]), k)
    ensures FirstStr(After(fields, l, Last(l)), k) == None
  {
    LastLacks(l, k);
    if |fields| > 1 {
      var more := fields[1..];
      FieldsLack(more, l, k);
      hide FirstStr, Last;
      SkipRaw("," + l.comma, FieldToks(more, l) + Last(l), k);
      SkipSection(FieldToks(more, l), Last(l), k);
    }
  }

  /** The text from a section's key on is found, and then the keys of that section in it. */
  lemma InnerFound(fields: seq<Field>, l: Layout, s: string, k: string)
    requires NoQuotes(Obj(fields)) && Spaced(l) && KeyLike(s) && KeyLike(k) && s != k
    requires Direct(fields, s) && Within(fields, s, k) && From(fields, s) != []
    ensures Found(Section(fields, l, s), k, From(FieldsOf(Lookup(fields, s).value), k), l, AfterSection(fields, l, s))
  {
    var r := From(fields, s);
    var v, ts, after := r[0].value, Section(fields, l, s), After(r, l, Last(l));
    SectionFits(fields, l, s);
    InnerQuotes(fields, s, k);
    AfterQuotes(fields, l, s);
    hide WellFormed, FieldToks, ValueToks, FieldTok, FirstStr, Direct, Spaced, KeyLike, Follows, Last, Mentions,
      NoQuotes;
    FieldsSplit(r, l, Last(l));
    FieldHead(r[0], l, after);
    HeadLacks(s, ":" + l.colon, k);
    SkipSection([Str(s), Raw(":" + l.colon)], ValueToks(v, l) + after, k);
    if v.Obj? {
      SearchInner(v.fields, l, after, k);
      if Lookup(v.fields, k) == None {
        AfterLacks(r, l, k);
      }
    } else {
      ValueLacks(v, l, k);
      SkipSection(ValueToks(v, l), after, k);
      AfterLacks(r, l, k);
    }
  }

  lemma FieldHead(f: Field, l: Layout, rest: seq<Tok>)
    ensures FieldTok(f, l) + rest == [Str(f.key), Raw(":" + l.colon)] + (ValueToks(f.value, l) + rest)
  {}

  lemma SectionFits(fields: seq<Field>, l: Layout, s: string)
    requires NoQuotes(Obj(fields)) && Spaced(l)
    ensures WellFormed(Section(fields, l, s))
  {
    SuffixQuotes(fields, s);
    LastFollows(l);
    FieldsFit(From(fields, s), l, Last(l));
  }

  lemma InnerQuotes(fields: seq<Field>, s: string, k: string)
    requires NoQuotes(Obj(fields)) && From(fields, s) != []
    ensures NoQuotes(Obj(From(FieldsOf(Lookup(fields, s).value), k)))
    ensures var r := From(FieldsOf(Lookup(fields, s).value), k);
      forall i :: 0 <= i < |r| ==> QuoteFree(r[i].key) && NoQuotes(r[i].value)
  {
    var v := Lookup(fields, s).value;
    SuffixQuotes(fields, s);
    assert NoQuotes(v);
    SuffixQuotes(FieldsOf(v), k);
  }

  lemma AfterQuotes(fields: seq<Field>, l: Layout, s: string)
    requires NoQuotes(Obj(fields)) && Spaced(l) && From(fields, s) != []
    ensures Follows(AfterSection(fields, l, s))
  {
    SuffixQuotes(fields, s);
    LastFollows(l);
    AfterFits(From(fields, s), l, Last(l));
    CloseFollows(l.close, "}", After(From(fields, s), l, Last(l)));
  }

  lemma SearchInner(inner: seq<Field>, l: Layout, after: seq<Tok>, k: string)
    requires Direct(inner, k)
    ensures FirstStr(ValueToks(Obj(inner), l) + after, k) ==
      var r := From(inner, k);
      if r == [] then FirstStr(after, k) else Some(FieldToks(r, l) + ([Raw(l.close + "}")] + after))
  {
    hide FieldToks, FirstStr, Direct;
    var tail := [Raw(l.close + "}")] + after;
    SearchFields(inner, l, tail, k);
    Regroups([Raw("{" + l.open)], FieldToks(inner, l), [Raw(l.close + "}")], after);
    SkipRaw("{" + l.open, FieldToks(inner, l) + tail, k);
    SkipRaw(l.close + "}", after, k);
  }

  // ----- What is read there

  /** The text from a field on. */
  lemma FoundText(r: seq<Field>, l: Layout, tail: seq<Tok>)
    requires r != []
    ensures Render(FieldToks(r, l) + tail) ==
      Quoted(r[0].key) + (":" + (l.colon + (JsonSyntax.Show(r[0].value, l) + Render(After(r, l, tail)))))
  {
    hide Render, ValueToks, FieldTok, FieldToks, After, Quoted, JsonSyntax.Show;
    FieldsSplit(r, l, tail);
    RenderAppend(FieldTok(r[0], l), After(r, l, tail));
    FieldText(r[0], l, Render(After(r, l, tail)));
  }

  lemma {:induction false} SpacesSkipped(w: string, x: string)
    requires Spaces(w) && x != "" && x[0] != ' ' && x[0] != ':'
    ensures SkipColons(w + x) == x
  {
    if w == "" {
      assert w + x == x;
    } else {
      SpacesSkipped(w[1..], x);
      assert (w + x)[1..] == w[1..] + x;
    }
  }

  /** The colon and any number of spaces. */
  lemma ColonSkipped(w: string, x: string)
    requires Spaces(w) && x != "" && x[0] != ' ' && x[0] != ':'
    ensures SkipColons(":" + (w + x)) == x
  {
    SpacesSkipped(w, x);
    assert (":" + (w + x))[1..] == w + x;
  }

  /** A key is found with its value behind it, however many spaces stand between. */
  lemma FieldFound(ts: seq<Tok>, k: string, r: seq<Field>, l: Layout, tail: seq<Tok>)
    requires Found(ts, k, r, l, tail) && r != [] && Spaced(l)
    ensures FindKey(Render(ts), k) == Some(JsonSyntax.Show(r[0].value, l) + Render(After(r, l, tail)))
  {
    var x := JsonSyntax.Show(r[0].value, l) + Render(After(r, l, tail));
    ShowStarts(r[0].value, l, Render(After(r, l, tail)));
    hide Render, WellFormed, FirstStr, FieldToks, ValueToks, After, FindKey, KeyLike, NoQuotes;
    FoundText(r, l, tail);
    KeyText(ts, k, FieldToks(r, l) + tail, ":" + (l.colon + x));
    ColonSkipped(l.colon, x);
  }

  lemma NothingFound(ts: seq<Tok>, k: string, l: Layout, tail: seq<Tok>)
    requires Found(ts, k, [], l, tail)
    ensures FindKey(Render(ts), k) == None && StrStr(Render(ts), Quoted(k)) == None
  {
    FindKeyToken(ts, k);
  }

  /** `strstr` for a quoted key. */
  lemma KeyFound(ts: seq<Tok>, k: string, r: seq<Field>, l: Layout, tail: seq<Tok>)
    requires Found(ts, k, r, l, tail)
    ensures StrStr(Render(ts), Quoted(k)) == if r == [] then None else Some(Render(FieldToks(r, l) + tail))
  {
    hide Render, WellFormed, FieldToks, StrStr;
    FindKeyToken(ts, k);
  }
}
