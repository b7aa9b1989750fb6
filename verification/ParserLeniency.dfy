/** Texts that the printers never write and the parsers of parameters and URIs accept (params.go, ParseParams; uri.go,
    ParseUri), and what every accepted text is read as. */
module ParserLeniency {
  import opened Basics
  import opened Text
  import P = Params
  import U = Uris

  // ------------------------------------------------------------------ parameters

  /** Blanks around key and value do not matter. */
  lemma BlanksAreIgnored(items: seq<P.Param>, a: string, k: string, b: string, c: string, v: string, d: string)
    requires Blank(a) && Blank(b) && Blank(c) && Blank(d)
    requires k != "" && Trimmed(k) && '=' !in k && Trimmed(v)
    ensures P.ParsePart(items, a + k + b + ['='] + (c + v + d)) == P.ParsePart(items, k + ['='] + v)
    ensures P.KeyCharsOk(k) ==>
              P.ParsePart(items, k + ['='] + v) == Ok(P.Put(items, P.Param(Lower(k), P.Unquote(v), true)))
    ensures !P.KeyCharsOk(k) ==> P.ParsePart(items, k + ['='] + v) == Err
  {
    hide Cut, TrimSpace, P.Put, P.Unquote, Lower, P.KeyCharsOk;
    TrimPad(a, k, b);
    TrimPad(c, v, d);
    TrimTrimmed(k);
    TrimTrimmed(v);
    assert '=' !in a + k + b;
    CutAt(a + k + b, '=', c + v + d);
    CutAt(k, '=', v);
  }

  /** A flag is a part without an equals sign. */
  lemma FlagIsRead(items: seq<P.Param>, a: string, k: string, b: string)
    requires Blank(a) && Blank(b) && k != "" && Trimmed(k) && '=' !in k && P.KeyCharsOk(k)
    ensures P.ParsePart(items, a + k + b) == Ok(P.Put(items, P.Param(Lower(k), "", false)))
  {
    hide TrimSpace, P.Put, Lower, P.KeyCharsOk, IndexOf;
    TrimPad(a, k, b);
    assert '=' !in a + k + b;
  }

  /** Empty parts, as doubled semicolons leave them, are skipped. */
  lemma {:induction false} EmptyPartsAreSkipped(items: seq<P.Param>, a: seq<string>, b: seq<string>)
    ensures P.ParseParts(items, a + [""] + b) == P.ParseParts(items, a + b)
    decreases |a|
  {
    hide P.ParsePart;
    if a == [] {
      assert a + [""] + b == [""] + b && ([""] + b)[1..] == b && a + b == b;
      assert P.ParsePart(items, "") == Ok(items) by { EmptyPart(items); }
    } else {
      assert (a + [""] + b)[1..] == a[1..] + [""] + b && (a + b)[1..] == a[1..] + b;
      if P.ParsePart(items, a[0]).Ok? {
        EmptyPartsAreSkipped(P.ParsePart(items, a[0]).value, a[1..], b);
      }
    }
  }

  lemma EmptyPart(items: seq<P.Param>)
    ensures P.ParsePart(items, "") == Ok(items)
  {
  }

  predicate KeyOk(k: string) { k != "" && Lower(k) == k && Trimmed(k) && P.KeyCharsOk(k) }

  predicate KeysOk(items: seq<P.Param>) { forall i :: 0 <= i < |items| ==> KeyOk(items[i].key) }

  lemma LowerKeepsKey(k: string)
    requires k != "" && Trimmed(k) && P.KeyCharsOk(k)
    ensures KeyOk(Lower(k))
  {
    var l := Lower(k);
    assert Lower(l) == l;
    forall c | c in l ensures c !in P.BAD_KEY_CHARS {
      var i :| 0 <= i < |l| && l[i] == c;
      assert k[i] in k;
      BadCharsHaveNoCase(k[i]);
    }
  }

  lemma BadCharsHaveNoCase(c: char)
    requires c !in P.BAD_KEY_CHARS
    ensures LowerChar(c) !in P.BAD_KEY_CHARS
  {
    if 'A' <= c <= 'Z' {
      var l := LowerChar(c);
      assert 'a' <= l <= 'z';
      NoLetterIsBad(l);
    }
  }

  lemma NoLetterIsBad(c: char)
    requires 'a' <= c <= 'z'
    ensures c !in P.BAD_KEY_CHARS
  {
  }

  lemma PutKeepsKeys(items: seq<P.Param>, p: P.Param)
    requires KeysOk(items) && KeyOk(p.key)
    ensures KeysOk(P.Put(items, p))
  {
    hide KeyOk, P.FindKey;
  }

  lemma PartKeepsKeys(items: seq<P.Param>, part: string)
    requires KeysOk(items) && P.ParsePart(items, part).Ok?
    ensures KeysOk(P.ParsePart(items, part).value)
  {
    hide KeysOk, KeyOk, P.Put, P.Unquote, Cut, TrimSpace, Lower, P.KeyCharsOk, Trimmed;
    if part != "" {
      var (k, v, found) := Cut(part, '=');
      TrimmedAfterTrim(k);
      LowerKeepsKey(TrimSpace(k));
      PutKeepsKeys(items, P.Param(Lower(TrimSpace(k)), P.Unquote(TrimSpace(v)), true));
      PutKeepsKeys(items, P.Param(Lower(TrimSpace(k)), "", false));
    }
  }

  lemma TrimmedAfterTrim(s: string)
    ensures Trimmed(TrimSpace(s))
  {
    hide TrimLeft, TrimRight, IsSpace;
    var l, r := TrimLeft(s), TrimSpace(s);
    assert r != "" ==> r[0] == l[0];
  }

  lemma {:induction false} PartsKeepKeys(items: seq<P.Param>, parts: seq<string>)
    requires KeysOk(items)
    ensures P.ParseParts(items, parts).Ok? ==> KeysOk(P.ParseParts(items, parts).value)
    decreases |parts|
  {
    hide KeysOk, P.ParsePart;
    if parts != [] && P.ParsePart(items, parts[0]).Ok? {
      PartKeepsKeys(items, parts[0]);
      PartsKeepKeys(P.ParsePart(items, parts[0]).value, parts[1..]);
    }
  }

  /** Whatever the text, every parsed key is a non-empty, trimmed, lower-case text without delimiters. */
  lemma ParsedKeysAreTokens(s: string)
    ensures P.Parse(s).Ok? ==> KeysOk(P.Parse(s).value)
  {
    hide P.ParseParts, P.SplitList, KeyOk;
    var text := if s != "" && s[0] == ';' then s[1..] else s;
    PartsKeepKeys([], P.SplitList(text));
  }

  // ------------------------------------------------------------------ URIs

  /** The case of the scheme and white space around the whole text do not matter. */
  lemma SchemeIgnoresCase(a: string, scheme: string, rest: string, b: string)
    requires Blank(a) && Blank(b) && U.KnownScheme(Lower(scheme)) && ':' !in scheme
    requires var s := scheme + [':'] + rest; U.Printable(s) && Trimmed(s)
    ensures U.Parse(a + (scheme + [':'] + rest) + b) == U.ParseRest(Lower(scheme), rest)
  {
    hide U.ParseRest, Cut, TrimSpace, Lower, U.KnownScheme;
    TrimPad(a, scheme + [':'] + rest, b);
    CutAt(scheme, ':', rest);
  }

  /** Whatever the text, a parsed URI has one of the three schemes, in lower case, and a host. */
  lemma ParsedUriIsValid(text: string)
    ensures U.Parse(text).Ok? ==>
              var u := U.Parse(text).value;
              (u.scheme == "sip" || u.scheme == "sips" || u.scheme == "tel") && u.host != "" && U.Printable(TrimSpace(text))
  {
    hide U.SplitUser, U.ParseHost, U.SplitTail, U.TailStart, P.Parse, U.PutHeaders, Split, Cut, TrimSpace, Lower;
  }

  /** A value is printed in quotes exactly when it holds a quote, a semicolon, a question mark or a comma. */
  lemma QuotedExactlyWhen(v: string)
    ensures (exists c :: c in v && c in {'"', ';', '?', ','}) <==> P.Escape(v) != "" && P.Escape(v)[0] == '"'
  {
    hide P.EscapeQuotes, P.Sanitize;
    if P.NeedsQuotes(v) {
      assert P.Escape(v)[0] == '"';
    } else if P.Escape(v) != "" {
      NoNewQuote(v);
    }
  }

  lemma NoNewQuote(v: string)
    requires '"' !in v && P.Sanitize(v) != ""
    ensures P.Sanitize(v)[0] != '"'
  {
    var c := P.Sanitize(v)[0];
    assert c in P.Sanitize(v);
    U.SanitizeChars(v, c);
  }

  /** A host with a colon outside brackets is printed in brackets, and read back with them. */
  lemma BareHostIsBracketed(u: U.Uri)
    requires u.host != "" && u.host[0] != '[' && ':' in u.host && U.Printable(u.host)
    requires U.WellFormed(u.(host := ['['] + u.host + [']']))
    ensures U.Parse(U.Print(u)) == Ok(u.(host := ['['] + u.host + [']']))
  {
    hide U.Parse, U.WellFormed, P.Sanitize, U.UserText, U.ParamText, U.HeaderText, U.Printable, Itoa;
    var v := u.(host := ['['] + u.host + [']']);
    U.PrintableIsClean(u.host);
    BracketsPrintable(u.host);
    U.PrintableIsClean(v.host);
    assert U.HostText(u) == U.HostText(v);
    SameTexts(u, v);
    U.RoundTrip(v);
  }

  lemma BracketsPrintable(s: string)
    requires U.Printable(s)
    ensures U.Printable(['['] + s + [']'])
  {
  }

  lemma SameTexts(u: U.Uri, v: U.Uri)
    requires v == u.(host := v.host)
    ensures U.UserText(u) == U.UserText(v) && U.ParamText(u) == U.ParamText(v) && U.HeaderText(u) == U.HeaderText(v)
  {
  }
}
