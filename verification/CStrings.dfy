/**
 * The C string functions the firmware leans on. A `char *` into a NUL-terminated buffer is modelled by the rest of
 * the string from that point: reading past its end is reading the terminator.
 */
module CStrings {
  import opened Wrappers

  const QUOTE: char := '\"'

  predicate QuoteFree(s: string) {
    QUOTE !in s
  }

  function Quoted(s: string): string {
    [QUOTE] + s + [QUOTE]
  }

  /** The string at the start of s: everything before the first NUL. */
  function CStr(s: string): (r: string)
    ensures r <= s && '\0' !in r
    ensures |r| < |s| ==> s[|r|] == '\0'
  {
    if s == "" || s[0] == '\0' then "" else [s[0]] + CStr(s[1..])
  }

  lemma {:induction false} CStrOfPlain(s: string)
    requires '\0' !in s
    ensures CStr(s) == s
  {
    if s != "" {
      CStrOfPlain(s[1..]);
    }
  }

  lemma {:induction false} CStrCut(a: string, rest: string)
    requires '\0' !in a
    ensures CStr(a + ['\0'] + rest) == a
  {
    if a != "" {
      CStrCut(a[1..], rest);
      assert (a + ['\0'] + rest)[1..] == a[1..] + ['\0'] + rest;
    }
  }

  /** `strstr`: the rest of s from the first occurrence of pat. */
  function StrStr(s: string, pat: string): (r: Option<string>)
    ensures r.Some? ==> pat <= r.value && |r.value| <= |s|
  {
    if pat <= s then Some(s) else if s == "" then None else StrStr(s[1..], pat)
  }

  /** `strchr` */
  function StrChr(s: string, c: char): (r: Option<string>)
    ensures r.Some? ==> r.value != "" && r.value[0] == c && |r.value| <= |s|
  {
    if s == "" then None else if s[0] == c then Some(s) else StrChr(s[1..], c)
  }

  /** `while (*p == ' ' || *p == ':') p++` */
  function SkipColons(s: string): (r: string)
    ensures |r| <= |s|
  {
    if s != "" && (s[0] == ' ' || s[0] == ':') then SkipColons(s[1..]) else s
  }

  /** Characters up to a quote, the terminator or the limit. */
  function TakeText(s: string, max: nat): (r: string)
    ensures |r| <= max && |r| <= |s| && QuoteFree(r)
  {
    if s == "" || s[0] == QUOTE || max == 0 then "" else [s[0]] + TakeText(s[1..], max - 1)
  }

  predicate IsDigit(c: char) {
    '0' <= c <= '9'
  }

  function DigitValue(c: char): nat
    requires IsDigit(c)
  {
    c as int - '0' as int
  }

  predicate IsSpace(c: char) {
    c == ' ' || '\t' <= c <= '\r'
  }

  function SkipSpaces(s: string): (r: string)
    ensures |r| <= |s|
  {
    if s != "" && IsSpace(s[0]) then SkipSpaces(s[1..]) else s
  }

  function DigitRun(s: string): (r: string)
    ensures r <= s && forall i :: 0 <= i < |r| ==> IsDigit(r[i])
  {
    if s == "" || !IsDigit(s[0]) then "" else [s[0]] + DigitRun(s[1..])
  }

  /** The value of a digit run, given the value of the digits before it. */
  function Value(digits: string, acc: nat): nat
    requires forall i :: 0 <= i < |digits| ==> IsDigit(digits[i])
  {
    if digits == "" then acc else Value(digits[1..], 10 * acc + DigitValue(digits[0]))
  }

  const INT_MAX: int := 0x7FFF_FFFF

  /** newlib's strtol saturates to the range of a 32-bit long. */
  function Saturate(negative: bool, n: nat): int {
    var v: int := n;
    if negative then (if v > INT_MAX + 1 then -INT_MAX - 1 else -v) else if v > INT_MAX then INT_MAX else v
  }

  /** What `%d` and strtol make of a string: the number, how many digits it had, and the rest. */
  datatype Scan = Scan(value: int, digits: nat, rest: string)

  function ScanInt(s: string): (r: Scan)
    ensures |r.rest| <= |s|
  {
    var t := SkipSpaces(s);
    var signed := t != "" && (t[0] == '-' || t[0] == '+');
    var u := if signed then t[1..] else t;
    var d := DigitRun(u);
    Scan(Saturate(signed && t[0] == '-', Value(d, 0)), |d|, u[|d|..])
  }

  /** `atoi` */
  function Atoi(s: string): int {
    ScanInt(s).value
  }

  /** `sscanf(s, "%d:%d", ...)` when it converts both. */
  function ScanTime(s: string): Option<(int, int)> {
    var a := ScanInt(s);
    if a.digits == 0 || a.rest == "" || a.rest[0] != ':' then None
    else
      var b := ScanInt(a.rest[1..]);
      if b.digits == 0 then None else Some((a.value, b.value))
  }

  // ----- Decimal printing

  function DigitChar(d: nat): (c: char)
    requires d < 10
    ensures IsDigit(c) && DigitValue(c) == d
  {
    '0' + d as char
  }

  /** `%d` of a non-negative number. */
  function Dec(n: nat): (s: string)
    ensures s != "" && forall i :: 0 <= i < |s| ==> IsDigit(s[i])
  {
    if n < 10 then [DigitChar(n)] else Dec(n / 10) + [DigitChar(n % 10)]
  }

  /** `%02d` */
  function Dec2(n: nat): (s: string)
    ensures s != "" && forall i :: 0 <= i < |s| ==> IsDigit(s[i])
  {
    if n < 10 then ['0'] + Dec(n) else Dec(n)
  }

  lemma {:induction false} ValueAppend(a: string, b: string, acc: nat)
    requires forall i :: 0 <= i < |a| ==> IsDigit(a[i])
    requires forall i :: 0 <= i < |b| ==> IsDigit(b[i])
    ensures Value(a + b, acc) == Value(b, Value(a, acc))
  {
    if a == "" {
      assert a + b == b;
    } else {
      ValueAppend(a[1..], b, 10 * acc + DigitValue(a[0]));
      assert (a + b)[1..] == a[1..] + b;
    }
  }

  lemma {:induction false} DecValue(n: nat)
    ensures Value(Dec(n), 0) == n
  {
    if n >= 10 {
      DecValue(n / 10);
      ValueAppend(Dec(n / 10), [DigitChar(n % 10)], 0);
    }
  }

  lemma Dec2Value(n: nat)
    ensures Value(Dec2(n), 0) == n
  {
    DecValue(n);
    if n < 10 {
      ValueAppend("0", Dec(n), 0);
    }
  }

  lemma {:induction false} DecLength(n: nat, k: nat)
    requires n < Pow10(k) && k > 0
    ensures |Dec(n)| <= k
  {
    if n >= 10 {
      DecLength(n / 10, k - 1);
    }
  }

  function Pow10(k: nat): (p: nat)
    ensures p > 0
  {
    if k == 0 then 1 else 10 * Pow10(k - 1)
  }

  lemma {:induction false} DigitRunStops(d: string, rest: string)
    requires forall i :: 0 <= i < |d| ==> IsDigit(d[i])
    requires rest == "" || !IsDigit(rest[0])
    ensures DigitRun(d + rest) == d
  {
    if d == "" {
      assert d + rest == rest;
    } else {
      DigitRunStops(d[1..], rest);
      assert (d + rest)[1..] == d[1..] + rest;
    }
  }

  /** Scanning a printed number that is followed by something else gives that number and stops there. */
  lemma ScanDigits(d: string, n: nat, rest: string)
    requires d != "" && forall i :: 0 <= i < |d| ==> IsDigit(d[i])
    requires Value(d, 0) == n <= INT_MAX
    requires rest == "" || !IsDigit(rest[0])
    ensures ScanInt(d + rest) == Scan(n, |d|, rest)
  {
    var s := d + rest;
    assert s[0] == d[0] && SkipSpaces(s) == s;
    DigitRunStops(d, rest);
    assert s[|d|..] == rest;
  }

  lemma AtoiOfDec(n: nat, rest: string)
    requires n <= INT_MAX && (rest == "" || !IsDigit(rest[0]))
    ensures Atoi(Dec(n) + rest) == n
  {
    DecValue(n);
    ScanDigits(Dec(n), n, rest);
  }

  /** `%02d:%02d` and back. */
  lemma TimeRoundTrip(h: nat, m: nat, rest: string)
    requires h <= INT_MAX && m <= INT_MAX && (rest == "" || !IsDigit(rest[0]))
    ensures ScanTime(Dec2(h) + ":" + Dec2(m) + rest) == Some((h as int, m as int))
  {
    var tail := Dec2(m) + rest;
    assert Dec2(h) + ":" + Dec2(m) + rest == Dec2(h) + (":" + tail);
    Dec2Value(h);
    Dec2Value(m);
    ScanDigits(Dec2(h), h, ":" + tail);
    assert (":" + tail)[1..] == tail;
    ScanDigits(Dec2(m), m, rest);
  }

  /** What fits of a text. */
  function Clip(text: string, max: nat): (r: string)
    ensures r <= text && |r| <= max
  {
    if |text| <= max then text else text[..max]
  }

  /** A text is copied up to its closing quote, or up to the limit. */
  lemma {:induction false} TakeTextClips(text: string, rest: string, max: nat)
    requires QuoteFree(text)
    ensures TakeText(text + [QUOTE] + rest, max) == Clip(text, max)
  {
    var s := text + [QUOTE] + rest;
    if text != "" && max > 0 {
      TakeTextClips(text[1..], rest, max - 1);
      assert s[1..] == text[1..] + [QUOTE] + rest;
    }
  }

  lemma {:induction false} SpacesBeforeQuote(text: string, rest: string)
    ensures SkipSpaces(text + ([QUOTE] + rest)) == SkipSpaces(text) + ([QUOTE] + rest)
  {
    if text == "" {
      assert text + ([QUOTE] + rest) == [QUOTE] + rest;
    } else if IsSpace(text[0]) {
      SpacesBeforeQuote(text[1..], rest);
      assert (text + ([QUOTE] + rest))[1..] == text[1..] + ([QUOTE] + rest);
    }
  }

  lemma {:induction false} DigitsBeforeQuote(text: string, rest: string)
    ensures DigitRun(text + ([QUOTE] + rest)) == DigitRun(text)
  {
    if text == "" {
      assert text + ([QUOTE] + rest) == [QUOTE] + rest;
    } else if IsDigit(text[0]) {
      DigitsBeforeQuote(text[1..], rest);
      assert (text + ([QUOTE] + rest))[1..] == text[1..] + ([QUOTE] + rest);
    }
  }

  /** A scan of a quoted string does not reach beyond its closing quote. */
  lemma ScanBeforeQuote(text: string, rest: string)
    requires QuoteFree(text)
    ensures var r, q := ScanInt(text), [QUOTE] + rest;
      QuoteFree(r.rest) && ScanInt(text + q) == Scan(r.value, r.digits, r.rest + q)
  {
    hide SkipSpaces, DigitRun, Value, Saturate;
    var q := [QUOTE] + rest;
    SpacesBeforeQuote(text, rest);
    SpacesAreSuffix(text);
    var t := SkipSpaces(text);
    var u := if t != "" && (t[0] == '-' || t[0] == '+') then t[1..] else t;
    if t != "" {
      assert (t + q)[0] == t[0] && (t + q)[1..] == t[1..] + q;
    }
    DigitsBeforeQuote(u, rest);
    var d := DigitRun(u);
    assert (u + q)[|d|..] == u[|d|..] + q;
  }

  lemma {:induction false} SpacesAreSuffix(text: string)
    requires QuoteFree(text)
    ensures QuoteFree(SkipSpaces(text))
  {
    if text != "" && IsSpace(text[0]) {
      SpacesAreSuffix(text[1..]);
    }
  }

  lemma TimeBeforeQuote(text: string, rest: string)
    requires QuoteFree(text)
    ensures ScanTime(text + ([QUOTE] + rest)) == ScanTime(text)
  {
    hide ScanInt;
    var a, q := ScanInt(text), [QUOTE] + rest;
    ScanBeforeQuote(text, rest);
    if a.rest != "" && a.rest[0] == ':' {
      assert (a.rest + q)[1..] == a.rest[1..] + q;
      ScanBeforeQuote(a.rest[1..], rest);
    }
  }

  /** `%d` of any integer. */
  function DecInt(n: int): (s: string)
    ensures s != "" && (s[0] == '-' || IsDigit(s[0]))
  {
    if n < 0 then "-" + Dec(-n) else Dec(n)
  }

  /** The nearest 32-bit integer. */
  function Clamp(n: int): int {
    if n > INT_MAX then INT_MAX else if n < -INT_MAX - 1 then -INT_MAX - 1 else n
  }

  lemma NaturalScan(n: nat, rest: string)
    requires rest == "" || !IsDigit(rest[0])
    ensures var d := Dec(n); DigitRun(d + rest) == d && Value(d, 0) == n
  {
    DecValue(n);
    DigitRunStops(Dec(n), rest);
  }

  lemma ScanNatural(n: nat, rest: string)
    requires rest == "" || !IsDigit(rest[0])
    ensures Atoi(Dec(n) + rest) == Clamp(n)
  {
    NaturalScan(n, rest);
    hide Dec, DigitRun, Value;
    assert SkipSpaces(Dec(n) + rest) == Dec(n) + rest;
  }

  /** A minus sign in front of a printed number. */
  lemma ScanNegative(n: nat, rest: string)
    requires rest == "" || !IsDigit(rest[0])
    ensures Atoi("-" + (Dec(n) + rest)) == Clamp(0 - n)
  {
    var s := "-" + (Dec(n) + rest);
    NaturalScan(n, rest);
    hide Dec, DigitRun, Value;
    assert s[0] == '-' && s[1..] == Dec(n) + rest;
    assert SkipSpaces(s) == s;
  }

  /** atoi of a printed integer saturates. */
  lemma AtoiOfInt(n: int, rest: string)
    requires rest == "" || !IsDigit(rest[0])
    ensures Atoi(DecInt(n) + rest) == Clamp(n)
  {
    hide Atoi, Dec;
    if n >= 0 {
      ScanNatural(n, rest);
    } else {
      assert DecInt(n) + rest == "-" + (Dec(-n) + rest);
      ScanNegative(-n, rest);
    }
  }

  lemma {:induction false} TakeTextStops(text: string, rest: string, max: nat)
    requires QuoteFree(text) && |text| <= max
    ensures TakeText(text + [QUOTE] + rest, max) == text
  {
    var s := text + [QUOTE] + rest;
    if text != "" {
      TakeTextStops(text[1..], rest, max - 1);
      assert s[1..] == text[1..] + [QUOTE] + rest;
    }
  }

  // ----- The same functions as loops over positions

  /** The character at p, the terminator at the end. */
  function At(s: string, p: nat): char {
    if p < |s| then s[p] else '\0'
  }

  lemma NotPrefix(s: string, pat: string, k: nat)
    requires k < |pat| && (k >= |s| || s[k] != pat[k])
    ensures !(pat <= s)
  {}

  method Matches(s: string, at: nat, pat: string) returns (yes: bool)
    requires at <= |s|
    ensures yes <==> pat <= s[at..]
    ensures yes ==> at + |pat| <= |s|
  {
    for k := 0 to |pat|
      invariant at + k <= |s| && pat[..k] == s[at..at + k]
    {
      if at + k == |s| || s[at + k] != pat[k] {
        NotPrefix(s[at..], pat, k);
        return false;
      }
      assert pat[..k + 1] == pat[..k] + [pat[k]];
      assert s[at..at + k + 1] == s[at..at + k] + [s[at + k]];
    }
    assert pat[..|pat|] == pat && pat == s[at..][..|pat|];
    return true;
  }

  method FindText(s: string, from: nat, pat: string) returns (p: Option<nat>)
    requires from <= |s|
    ensures p.None? <==> StrStr(s[from..], pat).None?
    ensures p.Some? ==> from <= p.value && p.value + |pat| <= |s| && Some(s[p.value..]) == StrStr(s[from..], pat)
  {
    var i := from;
    while i < |s|
      invariant from <= i <= |s| && StrStr(s[from..], pat) == StrStr(s[i..], pat)
    {
      var here := Matches(s, i, pat);
      if here {
        return Some(i);
      }
      assert s[i..][1..] == s[i + 1..];
      i := i + 1;
    }
    assert s[i..] == "";
    return if pat == "" then Some(i) else None;
  }

  method FindChar(s: string, from: nat, c: char) returns (p: Option<nat>)
    requires from <= |s|
    ensures p.None? <==> StrChr(s[from..], c).None?
    ensures p.Some? ==> from <= p.value < |s| && Some(s[p.value..]) == StrChr(s[from..], c)
  {
    var i := from;
    while i < |s|
      invariant from <= i <= |s| && StrChr(s[from..], c) == StrChr(s[i..], c)
    {
      if s[i] == c {
        return Some(i);
      }
      assert s[i..][1..] == s[i + 1..];
      i := i + 1;
    }
    assert s[i..] == "";
    return None;
  }

  method PassColons(s: string, from: nat) returns (p: nat)
    requires from <= |s|
    ensures from <= p <= |s| && s[p..] == SkipColons(s[from..])
  {
    p := from;
    while p < |s| && (s[p] == ' ' || s[p] == ':')
      invariant from <= p <= |s| && SkipColons(s[from..]) == SkipColons(s[p..])
    {
      assert s[p..][1..] == s[p + 1..];
      p := p + 1;
    }
  }

  /** Copies text into a buffer of `max` characters plus terminator. */
  method CopyText(s: string, from: nat, max: nat) returns (out: string, p: nat)
    requires from <= |s|
    ensures out == TakeText(s[from..], max) && p == from + |out| <= |s|
  {
    out, p := "", from;
    ghost var all := TakeText(s[from..], max);
    while p < |s| && s[p] != QUOTE && |out| < max
      invariant from <= p <= |s| && p == from + |out| && |out| <= max
      invariant all == out + TakeText(s[p..], max - |out|)
    {
      assert TakeText(s[p..], max - |out|) == [s[p]] + TakeText(s[p + 1..], max - |out| - 1) by {
        assert s[p..][1..] == s[p + 1..];
      }
      ghost var rest := TakeText(s[p + 1..], max - |out| - 1);
      assert all == out + ([s[p]] + rest) == (out + [s[p]]) + rest;
      out := out + [s[p]];
      p := p + 1;
    }
    assert TakeText(s[p..], max - |out|) == "";
  }
}
