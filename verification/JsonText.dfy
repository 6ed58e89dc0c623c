/**
 * Text made of quoted strings and what stands between them, and where `strstr` for a quoted key lands in it.
 */
module JsonText {
  import opened Wrappers
  import opened CStrings

  datatype Tok = Str(text: string) | Raw(text: string)

  function Show(t: Tok): string {
    if t.Str? then Quoted(t.text) else t.text
  }

  function Render(ts: seq<Tok>): string {
    if ts == [] then "" else Show(ts[0]) + Render(ts[1..])
  }

  lemma Assoc(a: string, b: string, c: string)
    ensures a + (b + c) == a + b + c
  {}

  lemma {:induction false} RenderAppend(a: seq<Tok>, b: seq<Tok>)
    ensures Render(a + b) == Render(a) + Render(b)
  {
    hide Show;
    if a == [] {
      assert a + b == b;
    } else {
      RenderAppend(a[1..], b);
      assert (a + b)[1..] == a[1..] + b && (a + b)[0] == a[0];
      Assoc(Show(a[0]), Render(a[1..]), Render(b));
    }
  }

  lemma RenderOne(t: Tok, rest: seq<Tok>)
    ensures Render([t] + rest) == Show(t) + Render(rest)
  {
    assert ([t] + rest)[1..] == rest;
  }

  predicate Letter(c: char) {
    'a' <= c <= 'z' || c == '_'
  }

  /** Keys of the configuration are lower-case words. */
  predicate KeyLike(k: string) {
    k != "" && forall i :: 0 <= i < |k| ==> Letter(k[i])
  }

  /** Every token is free of quotes, and after a quoted string comes punctuation. */
  predicate WellFormed(ts: seq<Tok>) {
    forall i :: 0 <= i < |ts| ==> Fits(ts, i)
  }

  predicate Fits(ts: seq<Tok>, i: nat)
    requires i < |ts|
  {
    QuoteFree(ts[i].text) &&
    (ts[i].Str? ==> i + 1 < |ts| && ts[i + 1].Raw? && ts[i + 1].text != "" && !Letter(ts[i + 1].text[0]))
  }

  /** The tokens from the first quoted k on. */
  function FirstStr(ts: seq<Tok>, k: string): Option<seq<Tok>> {
    if ts == [] then None else if ts[0] == Str(k) then Some(ts) else FirstStr(ts[1..], k)
  }

  lemma {:induction false} SkipQuoteFree(s: string, rest: string, pat: string)
    requires QuoteFree(s) && pat != "" && pat[0] == QUOTE
    ensures StrStr(s + rest, pat) == StrStr(rest, pat)
  {
    if s == "" {
      assert s + rest == rest;
    } else {
      SkipQuoteFree(s[1..], rest, pat);
      assert (s + rest)[0] == s[0] && (s + rest)[1..] == s[1..] + rest;
    }
  }

  /** A quoted string other than the key does not start a match. */
  lemma OtherStringNoMatch(q: string, k: string, rest: string)
    requires QuoteFree(q) && QuoteFree(k) && q != k
    ensures !(Quoted(k) <= Quoted(q) + rest)
  {
    var t := Quoted(q) + rest;
    if |k| == |q| {
      var i :| 0 <= i < |k| && k[i] != q[i];
      NotPrefix(t, Quoted(k), i + 1);
    } else if |k| < |q| {
      assert t[|k| + 1] == q[|k|];
      NotPrefix(t, Quoted(k), |k| + 1);
    } else {
      assert Quoted(k)[|q| + 1] == k[|q|];
      NotPrefix(t, Quoted(k), |q| + 1);
    }
  }

  /** Nor does its closing quote, when punctuation follows. */
  lemma ClosingQuoteNoMatch(k: string, rest: string)
    requires KeyLike(k) && rest != "" && !Letter(rest[0])
    ensures !(Quoted(k) <= [QUOTE] + rest)
  {
    assert Quoted(k)[1] == k[0] && ([QUOTE] + rest)[1] == rest[0];
  }

  lemma PassStr(q: string, k: string, rest: string)
    requires QuoteFree(q) && KeyLike(k) && QuoteFree(k) && q != k && rest != "" && !Letter(rest[0])
    ensures StrStr(Quoted(q) + rest, Quoted(k)) == StrStr(rest, Quoted(k))
  {
    var tail := [QUOTE] + rest;
    OtherStringNoMatch(q, k, rest);
    assert (Quoted(q) + rest)[1..] == q + tail;
    SkipQuoteFree(q, tail, Quoted(k));
    ClosingQuoteNoMatch(k, rest);
    assert tail[1..] == rest;
  }

  lemma KeysAreQuoteFree(k: string)
    requires KeyLike(k)
    ensures QuoteFree(k)
  {}

  lemma WellFormedTail(ts: seq<Tok>)
    requires WellFormed(ts) && ts != []
    ensures WellFormed(ts[1..])
  {
    forall i | 0 <= i < |ts[1..]| ensures Fits(ts[1..], i) {
      assert Fits(ts, i + 1);
    }
  }

  /** `strstr` for a quoted key finds exactly the first quoted token with that text. */
  lemma {:induction false} FindKeyToken(ts: seq<Tok>, k: string)
    requires WellFormed(ts) && KeyLike(k)
    ensures StrStr(Render(ts), Quoted(k)) ==
      match FirstStr(ts, k) case None => None case Some(r) => Some(Render(r))
    decreases |ts|
  {
    if ts != [] {
      var rest := Render(ts[1..]);
      KeysAreQuoteFree(k);
      assert Fits(ts, 0);
      if ts[0] == Str(k) {
        assert Quoted(k) <= Render(ts);
      } else {
        WellFormedTail(ts);
        FindKeyToken(ts[1..], k);
        if ts[0].Raw? {
          SkipQuoteFree(ts[0].text, rest, Quoted(k));
        } else {
          assert rest[0] == ts[1].text[0];
          PassStr(ts[0].text, k, rest);
        }
      }
    }
  }

  predicate Lacks(ts: seq<Tok>, k: string) {
    forall i :: 0 <= i < |ts| ==> ts[i] != Str(k)
  }

  lemma {:induction false} SkipSection(a: seq<Tok>, b: seq<Tok>, k: string)
    requires Lacks(a, k)
    ensures FirstStr(a + b, k) == FirstStr(b, k)
  {
    if a == [] {
      assert a + b == b;
    } else {
      SkipSection(a[1..], b, k);
      assert (a + b)[1..] == a[1..] + b;
    }
  }

  lemma {:induction false} FirstStrFits(ts: seq<Tok>, k: string)
    requires WellFormed(ts) && FirstStr(ts, k).Some?
    ensures WellFormed(FirstStr(ts, k).value)
    ensures FirstStr(ts, k).value != [] && FirstStr(ts, k).value[0] == Str(k)
    decreases |ts|
  {
    if ts[0] != Str(k) {
      WellFormedTail(ts);
      FirstStrFits(ts[1..], k);
    }
  }

  /** No token holds the character. */
  predicate Avoids(ts: seq<Tok>, ch: char) {
    forall i :: 0 <= i < |ts| ==> ch !in ts[i].text
  }

  lemma {:induction false} AvoidsRender(ts: seq<Tok>, ch: char)
    requires Avoids(ts, ch) && ch != QUOTE
    ensures ch !in Render(ts)
  {
    if ts != [] {
      AvoidsRender(ts[1..], ch);
    }
  }
}
