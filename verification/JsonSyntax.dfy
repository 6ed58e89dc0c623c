/**
 * JSON values and their texts: how they are written with any amount of white space, and a reader for them that knows
 * nothing of the firmware (RFC 8259, without escapes, exponents and null).
 */
module JsonSyntax {
  import opened Wrappers
  import opened CStrings
  import opened JsonText

  /** At least one digit. */
  type Digits = s: string | s != "" && forall i :: 0 <= i < |s| ==> IsDigit(s[i]) witness "0"

  datatype Json =
    | Num(n: int)
    | Frac(negative: bool, whole: nat, decimals: Digits)
    | Text(s: string)
    | Flag(b: bool)
    | List(items: seq<Json>)
    | Obj(fields: seq<Field>)

  datatype Field = Field(key: string, value: Json)

  /** White space after a colon, after a comma, after an opening and before a closing bracket. */
  datatype Layout = Layout(colon: string, comma: string, open: string, close: string)

  const COMPACT := Layout("", "", "", "")

  predicate IsWhite(c: char) {
    c == ' ' || c == '\t' || c == '\n' || c == '\r'
  }

  predicate White(s: string) {
    forall i :: 0 <= i < |s| ==> IsWhite(s[i])
  }

  predicate IsLayout(l: Layout) {
    White(l.colon) && White(l.comma) && White(l.open) && White(l.close)
  }

  // ----- Writing

  function Bool(b: bool): string {
    if b then "true" else "false"
  }

  function FracText(negative: bool, whole: nat, decimals: string): (s: string)
    ensures s != ""
  {
    (if negative then "-" else "") + (Dec(whole) + ("." + decimals))
  }

  function ValueToks(v: Json, l: Layout): (ts: seq<Tok>)
    decreases v
  {
    match v
    case Num(n) => [Raw(DecInt(n))]
    case Frac(negative, whole, decimals) => [Raw(FracText(negative, whole, decimals))]
    case Text(s) => [Str(s)]
    case Flag(b) => [Raw(Bool(b))]
    case List(items) => [Raw("[" + l.open)] + (ItemToks(items, l) + [Raw(l.close + "]")])
    case Obj(fields) => [Raw("{" + l.open)] + (FieldToks(fields, l) + [Raw(l.close + "}")])
  }

  function ItemToks(items: seq<Json>, l: Layout): (ts: seq<Tok>)
    decreases items
  {
    if items == [] then []
    else if |items| == 1 then ValueToks(items[0], l)
    else ValueToks(items[0], l) + ([Raw("," + l.comma)] + ItemToks(items[1..], l))
  }

  function FieldTok(f: Field, l: Layout): (ts: seq<Tok>)
    decreases f, 0
  {
    [Str(f.key), Raw(":" + l.colon)] + ValueToks(f.value, l)
  }

  function FieldToks(fields: seq<Field>, l: Layout): (ts: seq<Tok>)
    decreases fields
  {
    if fields == [] then []
    else if |fields| == 1 then FieldTok(fields[0], l)
    else FieldTok(fields[0], l) + ([Raw("," + l.comma)] + FieldToks(fields[1..], l))
  }

  function Show(v: Json, l: Layout): string {
    Render(ValueToks(v, l))
  }

  // ----- Reading

  function SkipWhite(s: string): (r: string)
    ensures |r| <= |s|
  {
    if s != "" && IsWhite(s[0]) then SkipWhite(s[1..]) else s
  }

  /** A character a string may hold without an escape. */
  predicate Unescaped(c: char) {
    ' ' <= c && c != QUOTE && c != '\\'
  }

  function UnescapedRun(s: string): (r: string)
    ensures r <= s && forall i :: 0 <= i < |r| ==> Unescaped(r[i])
  {
    if s == "" || !Unescaped(s[0]) then "" else [s[0]] + UnescapedRun(s[1..])
  }

  /** A string, from its opening quote on. */
  function ReadString(s: string): (r: Option<(string, string)>)
    ensures r.Some? ==> |r.value.1| < |s|
  {
    if s == "" || s[0] != QUOTE then None
    else
      var text := UnescapedRun(s[1..]);
      var u := s[1 + |text|..];
      if u == "" || u[0] != QUOTE then None else Some((text, u[1..]))
  }

  /** A number without leading zeros, with decimals if a point follows. */
  function ReadNumber(s: string): (r: Option<(Json, string)>)
    ensures r.Some? ==> |r.value.1| < |s|
  {
    var minus := s != "" && s[0] == '-';
    var t := if minus then s[1..] else s;
    var d := DigitRun(t);
    if d == "" || (|d| > 1 && d[0] == '0') then None
    else
      var n, u := Value(d, 0), t[|d|..];
      if u == "" || u[0] != '.' then Some((Num(if minus then 0 - n else n), u))
      else
        var f := DigitRun(u[1..]);
        if f == "" then None else Some((Frac(minus, n, f), u[1 + |f|..]))
  }

  function ReadValue(s: string): (r: Option<(Json, string)>)
    ensures r.Some? ==> |r.value.1| < |s|
    decreases |s|, 0
  {
    var t := SkipWhite(s);
    if t == "" then None
    else if t[0] == QUOTE then
      match ReadString(t) case None => None case Some((x, rest)) => Some((Text(x), rest))
    else if t[0] == '{' then
      var u := SkipWhite(t[1..]);
      if u != "" && u[0] == '}' then Some((Obj([]), u[1..]))
      else match ReadMembers(t[1..]) case None => None case Some((fields, rest)) => Some((Obj(fields), rest))
    else if t[0] == '[' then
      var u := SkipWhite(t[1..]);
      if u != "" && u[0] == ']' then Some((List([]), u[1..]))
      else match ReadElements(t[1..]) case None => None case Some((items, rest)) => Some((List(items), rest))
    else if "true" <= t then Some((Flag(true), t[4..]))
    else if "false" <= t then Some((Flag(false), t[5..]))
    else ReadNumber(t)
  }

  /** A key, a colon and a value. */
  function ReadMember(s: string): (r: Option<(Field, string)>)
    ensures r.Some? ==> |r.value.1| < |s|
    decreases |s|, 1
  {
    match ReadString(SkipWhite(s))
    case None => None
    case Some((key, u)) =>
      var t := SkipWhite(u);
      if t == "" || t[0] != ':' then None
      else match ReadValue(t[1..]) case None => None case Some((v, rest)) => Some((Field(key, v), rest))
  }

  /** One or more members up to the closing brace. */
  function ReadMembers(s: string): (r: Option<(seq<Field>, string)>)
    ensures r.Some? ==> |r.value.1| < |s|
    decreases |s|, 2
  {
    match ReadMember(s)
    case None => None
    case Some((f, u)) =>
      var t := SkipWhite(u);
      if t != "" && t[0] == '}' then Some(([f], t[1..]))
      else if t == "" || t[0] != ',' then None
      else match ReadMembers(t[1..]) case None => None case Some((fs, rest)) => Some(([f] + fs, rest))
  }

  /** One or more elements up to the closing bracket. */
  function ReadElements(s: string): (r: Option<(seq<Json>, string)>)
    ensures r.Some? ==> |r.value.1| < |s|
    decreases |s|, 2
  {
    match ReadValue(s)
    case None => None
    case Some((v, u)) =>
      var t := SkipWhite(u);
      if t != "" && t[0] == ']' then Some(([v], t[1..]))
      else if t == "" || t[0] != ',' then None
      else match ReadElements(t[1..]) case None => None case Some((vs, rest)) => Some(([v] + vs, rest))
  }

  // ----- What is written is read

  predicate Clear(s: string) {
    forall i :: 0 <= i < |s| ==> Unescaped(s[i])
  }

  /** No string needs an escape. */
  predicate NoEscapes(v: Json)
    decreases v
  {
    match v
    case Num(_) => true
    case Frac(_, _, _) => true
    case Text(s) => Clear(s)
    case Flag(_) => true
    case List(items) => forall i :: 0 <= i < |items| ==> NoEscapes(items[i])
    case Obj(fields) => forall i :: 0 <= i < |fields| ==> Clear(fields[i].key) && NoEscapes(fields[i].value)
  }

  lemma {:induction false} SkipsWhite(w: string, s: string)
    requires White(w) && (s == "" || !IsWhite(s[0]))
    ensures SkipWhite(w + s) == s
  {
    if w == "" {
      assert w + s == s;
    } else {
      SkipsWhite(w[1..], s);
      assert (w + s)[1..] == w[1..] + s;
    }
  }

  lemma {:induction false} RunStops(text: string, rest: string)
    requires Clear(text)
    ensures UnescapedRun(text + ([QUOTE] + rest)) == text
  {
    if text == "" {
      assert text + ([QUOTE] + rest) == [QUOTE] + rest;
    } else {
      RunStops(text[1..], rest);
      assert (text + ([QUOTE] + rest))[1..] == text[1..] + ([QUOTE] + rest);
    }
  }

  lemma StringReads(text: string, rest: string)
    requires Clear(text)
    ensures ReadString(Quoted(text) + rest) == Some((text, rest))
  {
    var s := Quoted(text) + rest;
    assert s[1..] == text + ([QUOTE] + rest);
    RunStops(text, rest);
    assert s[1 + |text|..] == [QUOTE] + rest;
  }

  lemma {:induction false} NoLeadingZero(n: nat)
    ensures n > 0 ==> Dec(n)[0] != '0'
    ensures n == 0 ==> |Dec(n)| == 1
  {
    if n >= 10 {
      NoLeadingZero(n / 10);
    }
  }

  /** What ends a number. */
  predicate EndsNumber(rest: string) {
    rest == "" || (!IsDigit(rest[0]) && rest[0] != '.')
  }

  lemma NaturalReads(m: nat, rest: string)
    requires rest == "" || !IsDigit(rest[0])
    ensures var d := Dec(m);
      DigitRun(d + rest) == d && Value(d, 0) == m && (|d| == 1 || d[0] != '0') && (d + rest)[|d|..] == rest
  {
    DecValue(m);
    NoLeadingZero(m);
    DigitRunStops(Dec(m), rest);
  }

  lemma NumberReads(n: int, rest: string)
    requires EndsNumber(rest)
    ensures ReadNumber(DecInt(n) + rest) == Some((Num(n), rest))
  {
    hide Dec, DigitRun, Value;
    var m: nat := if n < 0 then -n else n;
    var s := DecInt(n) + rest;
    NaturalReads(m, rest);
    if n < 0 {
      assert s[0] == '-' && s[1..] == Dec(m) + rest;
    } else {
      assert s == Dec(m) + rest && IsDigit(s[0]);
    }
  }

  lemma SignSplits(negative: bool, whole: nat, decimals: string, rest: string)
    ensures var s, t := FracText(negative, whole, decimals) + rest, Dec(whole) + ("." + (decimals + rest));
      if negative then s[0] == '-' && s[1..] == t else s == t && s[0] != '-'
  {
    hide Dec;
    var t := Dec(whole) + ("." + (decimals + rest));
    assert negative ==> FracText(negative, whole, decimals) + rest == "-" + t;
  }

  lemma FractionReads(negative: bool, whole: nat, decimals: Digits, rest: string)
    requires EndsNumber(rest)
    ensures ReadNumber(FracText(negative, whole, decimals) + rest) == Some((Frac(negative, whole, decimals), rest))
  {
    hide Dec, DigitRun, Value, FracText;
    var tail := "." + (decimals + rest);
    SignSplits(negative, whole, decimals, rest);
    NaturalReads(whole, tail);
    DigitRunStops(decimals, rest);
    assert tail[1..] == decimals + rest && tail[1 + |decimals|..] == rest;
  }

  // The texts, piece by piece

  lemma RenderTok(t: Tok)
    ensures Render([t]) == JsonText.Show(t)
  {
    assert [t][1..] == [];
  }

  lemma FieldText(f: Field, l: Layout, rest: string)
    ensures Render(FieldTok(f, l)) + rest == Quoted(f.key) + (":" + (l.colon + (Show(f.value, l) + rest)))
  {
    var v := ValueToks(f.value, l);
    hide Render, ValueToks;
    assert FieldTok(f, l) == [Str(f.key)] + ([Raw(":" + l.colon)] + v);
    RenderOne(Str(f.key), [Raw(":" + l.colon)] + v);
    RenderOne(Raw(":" + l.colon), v);
    hide Quoted;
    Nest(Quoted(f.key), ":", l.colon, Render(v), rest);
  }

  lemma Nest(a: string, b: string, c: string, d: string, e: string)
    ensures (a + ((b + c) + d)) + e == a + (b + (c + (d + e)))
  {}

  lemma FieldsText(fields: seq<Field>, l: Layout, rest: string)
    requires |fields| > 1
    ensures Render(FieldToks(fields, l)) + rest ==
      Render(FieldTok(fields[0], l)) + ("," + (l.comma + (Render(FieldToks(fields[1..], l)) + rest)))
  {
    var a, b := FieldTok(fields[0], l), FieldToks(fields[1..], l);
    hide Render;
    RenderAppend(a, [Raw("," + l.comma)] + b);
    RenderOne(Raw("," + l.comma), b);
    hide FieldTok;
    Nest(Render(a), ",", l.comma, Render(b), rest);
  }

  lemma ItemsText(items: seq<Json>, l: Layout, rest: string)
    requires |items| > 1
    ensures Render(ItemToks(items, l)) + rest ==
      Show(items[0], l) + ("," + (l.comma + (Render(ItemToks(items[1..], l)) + rest)))
  {
    var a, b := ValueToks(items[0], l), ItemToks(items[1..], l);
    hide Render;
    RenderAppend(a, [Raw("," + l.comma)] + b);
    RenderOne(Raw("," + l.comma), b);
    hide ValueToks;
    Nest(Render(a), ",", l.comma, Render(b), rest);
  }

  /** A bracketed text: the bracket, what is between, the bracket. */
  lemma BracketText(open: string, inner: seq<Tok>, close: string, gap: string, gap': string, rest: string)
    ensures Render([Raw(open + gap)] + (inner + [Raw(gap' + close)])) + rest ==
      open + (gap + (Render(inner) + (gap' + (close + rest))))
  {
    var last := [Raw(gap' + close)];
    RenderOne(Raw(open + gap), inner + last);
    RenderAppend(inner, last);
    RenderTok(Raw(gap' + close));
    hide Render;
    assert ((open + gap) + (Render(inner) + (gap' + close))) + rest ==
      open + (gap + (Render(inner) + (gap' + (close + rest))));
  }

  /** No value starts with white space, a comma, a colon or a closing bracket. */
  predicate Starts(s: string) {
    s != "" && !IsWhite(s[0]) && s[0] != ',' && s[0] != ':' && s[0] != '}' && s[0] != ']'
  }

  lemma ShowStarts(v: Json, l: Layout, rest: string)
    ensures Starts(Show(v, l) + rest)
  {
    match v
    case Num(n) => RenderTok(Raw(DecInt(n)));
    case Frac(negative, whole, decimals) => RenderTok(Raw(FracText(negative, whole, decimals)));
    case Text(s) => RenderTok(Str(s));
    case Flag(b) => RenderTok(Raw(Bool(b)));
    case List(items) => RenderOne(Raw("[" + l.open), ItemToks(items, l) + [Raw(l.close + "]")]);
    case Obj(fields) => RenderOne(Raw("{" + l.open), FieldToks(fields, l) + [Raw(l.close + "}")]);
  }

  lemma LeadingWhite(w: string, t: string)
    requires White(w) && Starts(t)
    ensures ReadValue(w + t) == ReadValue(t)
  {
    SkipsWhite(w, t);
    SkipsWhite("", t);
    assert "" + t == t;
    hide White, SkipWhite, Starts, ReadString, ReadMembers, ReadElements, ReadNumber;
  }

  lemma LeafReads(v: Json, rest: string)
    requires NoEscapes(v) && !v.List? && !v.Obj? && EndsNumber(rest)
    ensures ReadValue(Show(v, COMPACT) + rest) == Some((v, rest))
  {
    match v
    case Num(n) => NumReads(n, rest);
    case Frac(negative, whole, decimals) => FracReads(negative, whole, decimals, rest);
    case Text(s) => TextReads(s, rest);
    case Flag(b) => FlagReads(b, rest);
  }

  lemma NumberIsNoWord(n: int, rest: string)
    ensures var t := DecInt(n) + rest;
      t != "" && SkipWhite(t) == t && t[0] != QUOTE && t[0] != '{' && t[0] != '[' &&
      !("true" <= t) && !("false" <= t)
  {}

  lemma FractionIsNoWord(negative: bool, whole: nat, decimals: string, rest: string)
    ensures var t := FracText(negative, whole, decimals) + rest;
      t != "" && SkipWhite(t) == t && t[0] != QUOTE && t[0] != '{' && t[0] != '[' &&
      !("true" <= t) && !("false" <= t)
  {}

  lemma FracReads(negative: bool, whole: nat, decimals: Digits, rest: string)
    requires EndsNumber(rest)
    ensures ReadValue(Show(Frac(negative, whole, decimals), COMPACT) + rest) ==
      Some((Frac(negative, whole, decimals), rest))
  {
    hide ReadNumber, ReadString, ReadMembers, ReadElements, FracText, Render, SkipWhite;
    RenderTok(Raw(FracText(negative, whole, decimals)));
    FractionReads(negative, whole, decimals, rest);
    FractionIsNoWord(negative, whole, decimals, rest);
  }

  lemma NumReads(n: int, rest: string)
    requires EndsNumber(rest)
    ensures ReadValue(Show(Num(n), COMPACT) + rest) == Some((Num(n), rest))
  {
    hide ReadNumber, ReadString, ReadMembers, ReadElements, DecInt, Render, SkipWhite;
    RenderTok(Raw(DecInt(n)));
    NumberReads(n, rest);
    NumberIsNoWord(n, rest);
  }

  lemma TextReads(s: string, rest: string)
    requires Clear(s)
    ensures ReadValue(Show(Text(s), COMPACT) + rest) == Some((Text(s), rest))
  {
    var t := Quoted(s) + rest;
    RenderTok(Str(s));
    StringReads(s, rest);
    hide ReadString, Render;
    assert t[0] == QUOTE && SkipWhite(t) == t;
  }

  lemma FlagReads(b: bool, rest: string)
    ensures ReadValue(Show(Flag(b), COMPACT) + rest) == Some((Flag(b), rest))
  {
    var t := Bool(b) + rest;
    RenderTok(Raw(Bool(b)));
    hide Render;
    assert SkipWhite(t) == t;
    if b {
      assert "true" <= t && t[4..] == rest;
    } else {
      assert "false" <= t && t[5..] == rest;
    }
  }

  /** The reader undoes the writer, whatever the white space. */
  lemma {:induction false} ReadsValue(v: Json, l: Layout, w: string, rest: string)
    requires NoEscapes(v) && IsLayout(l) && White(w) && EndsNumber(rest)
    ensures ReadValue(w + (Show(v, l) + rest)) == Some((v, rest))
    decreases v, 3
  {
    ShowStarts(v, l, rest);
    hide ReadValue, Render;
    LeadingWhite(w, Show(v, l) + rest);
    match v {
      case List(items) =>
        BracketText("[", ItemToks(items, l), "]", l.open, l.close, rest);
        ReadsList(items, l, rest);
      case Obj(fields) =>
        BracketText("{", FieldToks(fields, l), "}", l.open, l.close, rest);
        ReadsObject(fields, l, rest);
      case _ =>
        LeafReads(v, rest);
    }
  }

  lemma {:induction false} ReadsObject(fields: seq<Field>, l: Layout, rest: string)
    requires forall i :: 0 <= i < |fields| ==> Clear(fields[i].key) && NoEscapes(fields[i].value)
    requires IsLayout(l)
    ensures ReadValue("{" + (l.open + (Render(FieldToks(fields, l)) + (l.close + ("}" + rest))))) ==
      Some((Obj(fields), rest))
    decreases fields, 2
  {
    var inner := l.open + (Render(FieldToks(fields, l)) + (l.close + ("}" + rest)));
    var t := "{" + inner;
    assert t[0] == '{' && t[1..] == inner;
    assert SkipWhite(t) == t;
    hide Render, ReadMembers, SkipWhite;
    if fields == [] {
      EmptyInner(l.open, l.close, "}" + rest);
      assert ("}" + rest)[1..] == rest;
    } else {
      ReadsMembers(fields, l, l.open, rest);
      FieldsStart(fields, l, l.open, l.close + ("}" + rest));
    }
  }

  lemma {:induction false} ReadsList(items: seq<Json>, l: Layout, rest: string)
    requires forall i :: 0 <= i < |items| ==> NoEscapes(items[i])
    requires IsLayout(l)
    ensures ReadValue("[" + (l.open + (Render(ItemToks(items, l)) + (l.close + ("]" + rest))))) ==
      Some((List(items), rest))
    decreases items, 2
  {
    var inner := l.open + (Render(ItemToks(items, l)) + (l.close + ("]" + rest)));
    var t := "[" + inner;
    assert t[0] == '[' && t[1..] == inner;
    assert SkipWhite(t) == t;
    hide Render, ReadElements, SkipWhite;
    if items == [] {
      EmptyInner(l.open, l.close, "]" + rest);
      assert ("]" + rest)[1..] == rest;
    } else {
      ReadsElements(items, l, l.open, rest);
      ItemsStart(items, l, l.open, l.close + ("]" + rest));
    }
  }

  lemma EmptyInner(w: string, w': string, rest: string)
    requires White(w) && White(w') && rest != "" && !IsWhite(rest[0])
    ensures SkipWhite(w + (Render([]) + (w' + rest))) == rest
  {
    assert w + ("" + (w' + rest)) == (w + w') + rest;
    SkipsWhite(w + w', rest);
  }

  lemma FieldsStart(fields: seq<Field>, l: Layout, w: string, rest: string)
    requires fields != [] && White(w)
    ensures var u := SkipWhite(w + (Render(FieldToks(fields, l)) + rest)); u != "" && u[0] == QUOTE
  {
    if |fields| == 1 {
      FieldText(fields[0], l, rest);
    } else {
      FieldsText(fields, l, rest);
      FieldText(fields[0], l, "," + (l.comma + (Render(FieldToks(fields[1..], l)) + rest)));
    }
    SkipsWhite(w, Render(FieldToks(fields, l)) + rest);
  }

  lemma ItemsStart(items: seq<Json>, l: Layout, w: string, rest: string)
    requires items != [] && White(w)
    ensures var u := SkipWhite(w + (Render(ItemToks(items, l)) + rest)); u != "" && u[0] != ']'
  {
    if |items| == 1 {
      ShowStarts(items[0], l, rest);
    } else {
      ItemsText(items, l, rest);
      ShowStarts(items[0], l, "," + (l.comma + (Render(ItemToks(items[1..], l)) + rest)));
    }
    SkipsWhite(w, Render(ItemToks(items, l)) + rest);
  }

  lemma {:induction false} ReadsMember(f: Field, l: Layout, w: string, rest: string)
    requires Clear(f.key) && NoEscapes(f.value) && IsLayout(l) && White(w) && EndsNumber(rest)
    ensures ReadMember(w + (Render(FieldTok(f, l)) + rest)) == Some((f, rest))
    decreases f, 2
  {
    var after := ":" + (l.colon + (Show(f.value, l) + rest));
    FieldText(f, l, rest);
    hide Render, ReadValue, Show;
    assert (Quoted(f.key) + after)[0] == QUOTE;
    SkipsWhite(w, Quoted(f.key) + after);
    StringReads(f.key, after);
    assert SkipWhite(after) == after && after[1..] == l.colon + (Show(f.value, l) + rest);
    ReadsValue(f.value, l, l.colon, rest);
  }

  lemma {:induction false} ReadsMembers(fields: seq<Field>, l: Layout, w: string, rest: string)
    requires fields != [] && forall i :: 0 <= i < |fields| ==> Clear(fields[i].key) && NoEscapes(fields[i].value)
    requires IsLayout(l) && White(w)
    ensures ReadMembers(w + (Render(FieldToks(fields, l)) + (l.close + ("}" + rest)))) == Some((fields, rest))
    decreases fields, 1
  {
    var end := l.close + ("}" + rest);
    hide Render, ReadMember, SkipWhite, FieldTok;
    if |fields| == 1 {
      CloseEndsNumber(l.close, "}" + rest);
      ReadsMember(fields[0], l, w, end);
      SkipsWhite(l.close, "}" + rest);
      assert ("}" + rest)[1..] == rest && fields == [fields[0]];
    } else {
      var more := l.comma + (Render(FieldToks(fields[1..], l)) + end);
      FieldsText(fields, l, end);
      ReadsMember(fields[0], l, w, "," + more);
      SkipsWhite("", "," + more);
      assert "" + ("," + more) == "," + more && ("," + more)[1..] == more;
      ReadsMembers(fields[1..], l, l.comma, rest);
      assert fields == [fields[0]] + fields[1..];
    }
  }

  lemma {:induction false} ReadsElements(items: seq<Json>, l: Layout, w: string, rest: string)
    requires items != [] && forall i :: 0 <= i < |items| ==> NoEscapes(items[i])
    requires IsLayout(l) && White(w)
    ensures ReadElements(w + (Render(ItemToks(items, l)) + (l.close + ("]" + rest)))) == Some((items, rest))
    decreases items, 1
  {
    var end := l.close + ("]" + rest);
    hide Render, ReadValue, SkipWhite, ValueToks;
    if |items| == 1 {
      CloseEndsNumber(l.close, "]" + rest);
      ReadsValue(items[0], l, w, end);
      SkipsWhite(l.close, "]" + rest);
      assert ("]" + rest)[1..] == rest && items == [items[0]];
    } else {
      var more := l.comma + (Render(ItemToks(items[1..], l)) + end);
      ItemsText(items, l, end);
      ReadsValue(items[0], l, w, "," + more);
      SkipsWhite("", "," + more);
      assert "" + ("," + more) == "," + more && ("," + more)[1..] == more;
      ReadsElements(items[1..], l, l.comma, rest);
      assert items == [items[0]] + items[1..];
    }
  }

  lemma CloseEndsNumber(w: string, rest: string)
    requires White(w) && rest != "" && EndsNumber(rest)
    ensures EndsNumber(w + rest)
  {}
}
