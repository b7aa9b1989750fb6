/** Which URIs survive printing and parsing (uri.go). The printer quotes a parameter value that holds a question mark,
    but the parser looks for the header part before it looks at quotes. */
module UriExactness {
  import opened Basics
  import opened Text
  import E = ParamsExactness
  import opened Uris

  // ------------------------------------------------------------------ a character that is not in the text

  lemma {:induction false} UnescapeKeepsOut(s: string, c: char)
    requires c !in s
    ensures c !in P.UnescapeQuotes(s)
    decreases |s|
  {
    if |s| >= 2 {
      if s[0] == BACKSLASH && s[1] == QUOTE {
        assert s[1] in s;
        UnescapeKeepsOut(s[2..], c);
      } else {
        assert s[0] in s;
        UnescapeKeepsOut(s[1..], c);
      }
    }
  }

  lemma TrimKeepsOut(s: string, c: char)
    requires c !in s
    ensures c !in TrimSpace(s)
  {
    hide TrimLeft, TrimRight;
    var l, r := TrimLeft(s), TrimSpace(s);
    assert forall x :: x in l ==> x in s;
    assert forall x :: x in r ==> x in l;
  }

  lemma ReadKeepsOut(s: string, c: char)
    requires c !in s
    ensures c !in P.Unquote(TrimSpace(s))
  {
    hide TrimSpace, P.UnescapeQuotes;
    var r := TrimSpace(s);
    TrimKeepsOut(s, c);
    if |r| >= 2 {
      UnescapeKeepsOut(r[1..|r| - 1], c);
    }
  }

  lemma ReadingKeepsOut(part: string, c: char)
    requires c !in part
    ensures c !in E.Reading(part).value
  {
    hide TrimSpace, P.Unquote;
    var i := IndexOf(part, '=');
    if i >= 0 {
      ReadKeepsOut(part[i + 1..], c);
    }
  }

  lemma {:induction false} SplitKeepsOut(s: string, c: char)
    requires c !in s
    ensures forall part :: part in P.SplitList(s) ==> c !in part
    decreases |s|
  {
    hide P.PieceEnd;
    var n := P.PieceEnd(s, P.Outside);
    if n < |s| {
      SplitKeepsOut(s[n + 1..], c);
    }
  }

  predicate Free(items: seq<P.Param>, c: char) {
    forall i :: 0 <= i < |items| ==> c !in items[i].value
  }

  lemma PutKeepsFree(items: seq<P.Param>, p: P.Param, c: char)
    requires Free(items, c) && c !in p.value
    ensures Free(P.Put(items, p), c)
  {
    hide P.FindKey;
  }

  lemma {:induction false} PartsKeepFree(items: seq<P.Param>, parts: seq<string>, c: char)
    requires Free(items, c) && forall part :: part in parts ==> c !in part
    ensures P.ParseParts(items, parts).Ok? ==> Free(P.ParseParts(items, parts).value, c)
    decreases |parts|
  {
    hide P.ParsePart, Free, E.Reading, P.Put;
    if parts != [] && P.ParsePart(items, parts[0]).Ok? {
      assert parts[0] in parts;
      ReadingKeepsOut(parts[0], c);
      E.ReadingIsPut(items, parts[0]);
      PutKeepsFree(items, E.Reading(parts[0]), c);
      PartsKeepFree(P.ParsePart(items, parts[0]).value, parts[1..], c);
    }
  }

  /** A character that is not in the text is in no parsed value. */
  lemma ParseKeepsOut(s: string, c: char)
    requires c !in s
    ensures P.Parse(s).Ok? ==> Free(P.Parse(s).value, c)
  {
    hide P.ParseParts, P.SplitList;
    var text := if s != "" && s[0] == ';' then s[1..] else s;
    SplitKeepsOut(text, c);
    PartsKeepFree([], P.SplitList(text), c);
  }

  // ------------------------------------------------------------------ what no text parses to

  lemma NoQuestionInParams(tail: string)
    ensures '?' !in SplitTail(tail).params
  {
  }

  /** Whatever the text, no parameter value of a parsed URI holds a question mark. */
  lemma ParsedHasNoQuestion(text: string)
    ensures Parse(text).Ok? && Parse(text).value.params.Some? ==> Free(Parse(text).value.params.value, '?')
  {
    hide P.Parse, PutHeaders, Split, SplitUser, ParseHost, TrimSpace, Lower, Cut, TailStart, SplitTail, Free, Printable, KnownScheme;
    if Parse(text).Ok? {
      var (_, rest, _) := Cut(TrimSpace(text), ':');
      var tail := rest[TailStart(rest)..];
      NoQuestionInParams(tail);
      ParseKeepsOut(SplitTail(tail).params, '?');
    }
  }

  /** Whatever the text, no parsed user or password holds a delimiter of the tail, no parsed user holds a colon, and
      a parsed host holds one only in brackets. */
  lemma ParsedAuthority(text: string)
    ensures Parse(text).Ok? ==>
              var u := Parse(text).value;
              && NeitherIn(u.user, ';', '?') && NeitherIn(u.password, ';', '?') && ':' !in u.user
              && (':' in u.host ==> u.host[0] == '[')
  {
    hide P.Parse, PutHeaders, Split, SplitUser, ParseHost, TrimSpace, Lower, Cut, TailStart, SplitTail, Printable, KnownScheme;
    if Parse(text).Ok? {
      var (_, rest, _) := Cut(TrimSpace(text), ':');
      var n := TailStart(rest);
      var part := if n < |rest| then TrimSpace(rest[..n]) else rest;
      assert NeitherIn(rest[..n], ';', '?');
      TrimKeepsOut(rest[..n], ';');
      TrimKeepsOut(rest[..n], '?');
      assert rest[..|rest|] == rest;
      SplitUserKeepsOut(part);
    }
  }

  lemma SplitUserKeepsOut(part: string)
    requires NeitherIn(part, ';', '?')
    ensures var (user, password, _) := SplitUser(part);
            NeitherIn(user, ';', '?') && NeitherIn(password, ';', '?') && ':' !in user
  {
    hide IndexOf, LastIndexOf;
  }

  // ------------------------------------------------------------------ the exact condition

  /** Parts that can be printed: white-space-free user, password and host, the host without the delimiters around it,
      and parameters and headers whose own texts can be read back. */
  predicate Acceptable(u: Uri) {
    && KnownScheme(u.scheme)
    && Printable(u.user) && SpaceFree(u.user) && Printable(u.password) && SpaceFree(u.password)
    && u.host != "" && Printable(u.host) && SpaceFree(u.host) && NeitherIn(u.host, ';', '?') && '@' !in u.host
    && (u.host[0] == '[' ==> u.host[|u.host| - 1] == ']' && ']' !in u.host[..|u.host| - 1])
    && u.port < INT_BOUND
    && (u.params.Some? ==> ParamsPrintable(u.params.value))
    && (u.headers.Some? && u.headers.value != [] ==> HeadersOk(u.headers.value))
  }

  /** What survives: no delimiter in user and password, a password only with a user, a colon in the host only in
      brackets, no negative port, no empty list, and parameter values that are safe to quote and hold no '?'. */
  predicate Survives(u: Uri) {
    && NeitherIn(u.user, ';', '?') && NeitherIn(u.password, ';', '?') && ':' !in u.user
    && (u.user == "" ==> u.password == "")
    && (':' in u.host ==> u.host[0] == '[')
    && u.port >= 0
    && (u.params.Some? ==> u.params.value != [] && Free(u.params.value, '?') && E.ValuesSafe(u.params.value))
    && u.headers != Some([])
  }

  /** The URI with nothing that printing drops: no password without a user, no negative port, no empty list. */
  function Printed(u: Uri): Uri {
    u.(password := if u.user == "" then "" else u.password,
       port := if u.port < 0 then 0 else u.port,
       params := if u.params == Some([]) then None else u.params,
       headers := if u.headers == Some([]) then None else u.headers)
  }

  lemma PrintedPrintsTheSame(u: Uri)
    ensures Print(Printed(u)) == Print(u)
  {
    hide P.Sanitize, JoinHeaders;
    assert P.Sanitize("") == "" by { P.SanitizeClean(""); }
    assert P.Print([]) == "";
  }

  /** The conditions that no text can get around. */
  predicate Plain(u: Uri) {
    && NeitherIn(u.user, ';', '?') && NeitherIn(u.password, ';', '?') && ':' !in u.user
    && (':' in u.host ==> u.host[0] == '[')
    && (u.params.Some? ==> Free(u.params.value, '?'))
  }

  lemma ParsedIsPlain(text: string)
    ensures Parse(text).Ok? ==> Plain(Parse(text).value)
  {
    hide Parse, Free, NeitherIn;
    ParsedAuthority(text);
    ParsedHasNoQuestion(text);
  }

  lemma PrintedIsShaped(u: Uri)
    requires Acceptable(u) && Plain(u)
    ensures Shaped(Printed(u))
  {
    hide ParamsPrintable, HeadersOk, Printable, SpaceFree;
  }

  /** An acceptable URI survives printing and parsing exactly when it meets the conditions above. */
  lemma RoundTripExactly(u: Uri)
    requires Acceptable(u)
    ensures Parse(Print(u)) == Ok(u) <==> Survives(u)
  {
    hide Parse, Print, P.Parse, P.Print, P.Named, P.AllFaithful, Printable, SpaceFree, HeadersOk, E.ValuesSafe, Free, NeitherIn, Shaped;
    ParsedIsPlain(Print(u));
    if Plain(u) {
      var v := Printed(u);
      PrintedPrintsTheSame(u);
      PrintedIsShaped(u);
      ParsePrinted(v);
      if v.params.Some? {
        E.RoundTripExactly(v.params.value);
      }
    }
  }

  // ------------------------------------------------------------------ what does not survive

  lemma Bare(user: string, params: Option<seq<P.Param>>)
    requires Printable(user) && SpaceFree(user) && (params.Some? ==> ParamsPrintable(params.value))
    ensures Acceptable(Uri("sip", user, "", "h", 0, params, None))
  {
    hide ParamsPrintable;
  }

  /** A user with a semicolon, which section 19.1.1 of RFC 3261 allows: no text parses to it. */
  lemma UserDelimiterBreaks(text: string)
    ensures var u := Uri("sip", "a;b", "", "h", 0, None, None);
            Acceptable(u) && Parse(Print(u)) != Ok(u) && Parse(text) != Ok(u)
  {
    hide Parse, Print, Acceptable;
    var u := Uri("sip", "a;b", "", "h", 0, None, None);
    Bare("a;b", None);
    assert "a;b"[1] == ';' && !NeitherIn(u.user, ';', '?');
    ParsedAuthority(text);
    ParsedAuthority(Print(u));
  }

  const QUESTION: P.Param := P.Param("k", "?", true)

  lemma TokenK()
    ensures P.TokenKey("k") && Printable("k")
  {
    assert Lower("k") == "k";
  }

  lemma OneParam(v: string)
    requires Printable(v) && P.NeedsQuotes(v)
    ensures ParamsPrintable([P.Param("k", v, true)])
  {
    hide P.TokenKey, P.NeedsQuotes;
    TokenK();
    PrintableIsClean(v);
  }

  /** A value that the parameter printer quotes, so that the parameters alone survive, and the URI does not. */
  lemma QuestionMarkBreaks()
    ensures var u := Uri("sip", "", "", "h", 0, Some([QUESTION]), None);
            Acceptable(u) && Parse(Print(u)) != Ok(u) && P.Parse(P.Print([QUESTION])) == Ok([QUESTION])
  {
    hide Parse, Print, P.Parse, P.Print, ParamsPrintable, Acceptable, P.TokenKey;
    var u := Uri("sip", "", "", "h", 0, Some([QUESTION]), None);
    assert '?' in "?" && Printable("?") by { assert "?"[0] == '?'; }
    OneParam("?");
    Bare("", Some([QUESTION]));
    assert !Free([QUESTION], '?') by { assert '?' in [QUESTION][0].value; }
    RoundTripExactly(u);
    TokenK();
    P.NoBackslashIsBalanced("?");
    PrintableIsClean("?");
    P.RoundTrip([QUESTION]);
  }

  /** A value without a question mark whose backslash and quote move the splitter out of quotes. */
  lemma BackslashQuoteBreaks()
    ensures var u := Uri("sip", "", "", "h", 0, Some([P.Param("k", P.AWKWARD, true)]), None);
            Acceptable(u) && Parse(Print(u)) != Ok(u)
  {
    hide Parse, Print, P.Parse, P.Print, ParamsPrintable, Acceptable, E.ValuesSafe;
    var items := [P.Param("k", P.AWKWARD, true)];
    assert P.AWKWARD[2] == ';' && ';' in P.AWKWARD;
    OneParam(P.AWKWARD);
    Bare("", Some(items));
    P.BackslashQuoteBreaks();
    assert P.Named(items) by { TokenK(); }
    assert P.AllFaithful(items) by { PrintableIsClean(P.AWKWARD); }
    E.RoundTripExactly(items);
    RoundTripExactly(Uri("sip", "", "", "h", 0, Some(items), None));
  }
}
