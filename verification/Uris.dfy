/** SIP URIs: printer and parser (uri.go). */
module Uris {
  import opened Basics
  import opened Text
  import P = Params

  /** `params` and `headers` are None where the Go field is nil. */
  datatype Uri = Uri(
    scheme: string, user: string, password: string, host: string, port: int,
    params: Option<seq<P.Param>>, headers: Option<seq<P.Param>>)

  // ------------------------------------------------------------------ printing

  function UserText(u: Uri): string {
    if u.user == "" then ""
    else P.Sanitize(u.user) + (if u.password == "" then "" else [':'] + P.Sanitize(u.password)) + ['@']
  }

  function HostText(u: Uri): string {
    var host := P.Sanitize(u.host);
    var shown := if ':' in host && !(host != "" && host[0] == '[') then ['['] + host + [']'] else host;
    if u.port > 0 then shown + [':'] + Itoa(u.port) else shown
  }

  function ParamText(u: Uri): string {
    match u.params case None => "" case Some(items) => P.Sanitize(P.Print(items))
  }

  function HeaderPiece(h: P.Param): string {
    if h.hasValue then P.Sanitize(h.key) + ['='] + P.Sanitize(h.value) else P.Sanitize(h.key)
  }

  function JoinHeaders(items: seq<P.Param>): string {
    if items == [] then ""
    else if |items| == 1 then HeaderPiece(items[0])
    else HeaderPiece(items[0]) + ['&'] + JoinHeaders(items[1..])
  }

  function HeaderText(u: Uri): string {
    match u.headers
    case None => ""
    case Some(items) => if items == [] then "" else ['?'] + JoinHeaders(items)
  }

  function Print(u: Uri): string {
    P.Sanitize(u.scheme) + [':'] + (UserText(u) + HostText(u) + (ParamText(u) + HeaderText(u)))
  }

  // ------------------------------------------------------------------ parsing

  predicate Printable(s: string) { forall i :: 0 <= i < |s| ==> ' ' <= s[i] && s[i] != '\U{7F}' }

  predicate KnownScheme(s: string) { s == "sip" || s == "sips" || s == "tel" }

  /** strings.IndexAny(s, ";?"), with the length for "none". */
  function TailStart(s: string): (n: nat)
    ensures n <= |s|
    ensures forall k :: 0 <= k < n ==> s[k] != ';' && s[k] != '?'
    ensures n < |s| ==> s[n] == ';' || s[n] == '?'
  {
    if s == "" || s[0] == ';' || s[0] == '?' then 0 else 1 + TailStart(s[1..])
  }

  datatype Tail = Tail(params: string, headers: string)

  function SplitTail(tail: string): Tail {
    if tail == "" then Tail("", "")
    else if tail[0] == ';' then
      var q := IndexOf(tail, '?');
      if q >= 0 then Tail(tail[..q], tail[q + 1..]) else Tail(tail, "")
    else Tail("", tail[1..])
  }

  /** User, password and the remaining host part. */
  function SplitUser(part: string): (string, string, string) {
    var at := LastIndexOf(part, '@');
    if at < 0 then ("", "", part)
    else
      var info := part[..at];
      var colon := IndexOf(info, ':');
      if colon >= 0 then (info[..colon], info[colon + 1..], part[at + 1..]) else (info, "", part[at + 1..])
  }

  /** Host and port. */
  function ParseHost(host: string): Result<(string, int)> {
    if host != "" && host[0] == '[' then
      var end := IndexOf(host, ']');
      if end < 0 then Err
      else if |host| == end + 1 then Ok((host[..end + 1], 0))
      else if host[end + 1] != ':' then Err
      else match Atoi(host[end + 2..]) case None => Err case Some(port) => Ok((host[..end + 1], port))
    else
      var i := LastIndexOf(host, ':');
      if i < 0 then Ok((host, 0))
      else match Atoi(host[i + 1..]) case None => Err case Some(port) => Ok((host[..i], port))
  }

  function PutHeaders(items: seq<P.Param>, parts: seq<string>): seq<P.Param>
    decreases |parts|
  {
    if parts == [] then items
    else
      var (k, v, _) := Cut(parts[0], '=');
      PutHeaders(if k == "" then items else P.Put(items, P.Param(k, v, true)), parts[1..])
  }

  /** The loop over the '&'-separated headers. */
  method ParseHeaders(headers: string) returns (items: seq<P.Param>)
    ensures items == PutHeaders([], Split(headers, '&'))
  {
    var parts := Split(headers, '&');
    items := [];
    for i := 0 to |parts|
      invariant PutHeaders([], parts) == PutHeaders(items, parts[i..])
    {
      assert parts[i..][1..] == parts[i + 1..];
      var (k, v, _) := Cut(parts[i], '=');
      if k != "" {
        items := P.Put(items, P.Param(k, v, true));
      }
    }
  }

  /** Everything after the scheme. */
  function ParseRest(scheme: string, rest: string): Result<Uri> {
    var n := TailStart(rest);
    var tail := SplitTail(rest[n..]);
    var part := if n < |rest| then TrimSpace(rest[..n]) else rest;
    var (user, password, hostPart) := SplitUser(part);
    if TrimSpace(hostPart) == "" then Err
    else
      match ParseHost(TrimSpace(hostPart))
      case Err => Err
      case Ok((untrimmed, port)) =>
        var host := TrimSpace(untrimmed);
        if host == "" || (':' in host && host[0] != '[') then Err
        else
          var params := if tail.params == "" then Ok([]) else P.Parse(tail.params);
          if params.Err? then Err
          else Ok(Uri(scheme, user, password, host, port,
                      if tail.params == "" then None else Some(params.value),
                      if tail.headers == "" then None else Some(PutHeaders([], Split(tail.headers, '&')))))
  }

  function Parse(text: string): Result<Uri> {
    var s := TrimSpace(text);
    if s == "" || !Printable(s) then Err
    else
      var (scheme, rest, found) := Cut(s, ':');
      if !found || !KnownScheme(Lower(scheme)) then Err
      else ParseRest(Lower(scheme), rest)
  }

  /** ParseUri as the code runs it, filling the URI field by field. */
  method ParseUri(text: string) returns (result: Result<Uri>)
    ensures result == Parse(text)
  {
    hide TrimSpace, Cut, TailStart, SplitTail, SplitUser, ParseHost, P.Parse, PutHeaders, Split, Printable, Lower, KnownScheme;
    var s := TrimSpace(text);
    if s == "" || !Printable(s) {
      return Err;
    }
    var (scheme, rest, found) := Cut(s, ':');
    if !found || !KnownScheme(Lower(scheme)) {
      return Err;
    }
    var u := Uri(Lower(scheme), "", "", "", 0, None, None);
    var hostPart := rest;
    var n := TailStart(rest);
    var tail := SplitTail(rest[n..]);
    if n < |rest| {
      hostPart := TrimSpace(rest[..n]);
    }
    var (user, password, afterAt) := SplitUser(hostPart);
    u := u.(user := user, password := password);
    hostPart := TrimSpace(afterAt);
    if hostPart == "" {
      return Err;
    }
    var hostPort := ParseHost(hostPart);
    if hostPort.Err? {
      return Err;
    }
    u := u.(host := TrimSpace(hostPort.value.0), port := hostPort.value.1);
    if u.host == "" || (':' in u.host && u.host[0] != '[') {
      return Err;
    }
    if tail.params != "" {
      var params := P.Parse(tail.params);
      if params.Err? {
        return Err;
      }
      u := u.(params := Some(params.value));
    }
    if tail.headers != "" {
      var headers := ParseHeaders(tail.headers);
      u := u.(headers := Some(headers));
    }
    return Ok(u);
  }

  lemma JoinFrom(items: seq<P.Param>, i: nat)
    requires i < |items|
    ensures JoinHeaders(items[i..]) ==
            HeaderPiece(items[i]) + if i + 1 == |items| then "" else ['&'] + JoinHeaders(items[i + 1..])
  {
    hide HeaderPiece;
    assert items[i..][1..] == items[i + 1..];
  }

  /** The header loop of Uri.String. */
  method RenderHeaders(items: seq<P.Param>) returns (b: string)
    requires items != []
    ensures b == JoinHeaders(items)
  {
    hide JoinHeaders, HeaderPiece;
    b := "";
    assert items[0..] == items;
    for i := 0 to |items|
      invariant i < |items| ==> b + (if i == 0 then "" else ['&']) + JoinHeaders(items[i..]) == JoinHeaders(items)
      invariant i == |items| ==> b == JoinHeaders(items)
    {
      JoinFrom(items, i);
      var piece := HeaderPiece(items[i]);
      ghost var rest := if i + 1 == |items| then "" else ['&'] + JoinHeaders(items[i + 1..]);
      if i > 0 {
        b := b + ['&'];
      }
      assert b + (piece + rest) == b + piece + rest;
      b := b + piece;
    }
  }

  // ------------------------------------------------------------------ well-formed URIs

  predicate NeitherIn(s: string, a: char, b: char) { a !in s && b !in s }

  predicate UserOk(s: string) { Printable(s) && SpaceFree(s) && NeitherIn(s, ';', '?') }

  predicate HostOk(s: string) {
    && s != "" && Printable(s) && SpaceFree(s) && NeitherIn(s, ';', '?') && '@' !in s
    && if s[0] == '[' then s[|s| - 1] == ']' && ']' !in s[..|s| - 1] else ':' !in s
  }

  predicate ParamsPrintable(items: seq<P.Param>) {
    && P.Named(items) && P.AllFaithful(items)
    && forall i :: 0 <= i < |items| ==> Printable(items[i].key) && Printable(items[i].value)
  }

  predicate ParamsOk(items: seq<P.Param>) {
    items != [] && ParamsPrintable(items) && forall i :: 0 <= i < |items| ==> '?' !in items[i].value
  }

  predicate HeaderOk(h: P.Param) {
    && h.hasValue && h.key != "" && Printable(h.key) && Printable(h.value)
    && NeitherIn(h.key, '&', '=') && '&' !in h.value
    && (h.value == "" || !IsSpace(h.value[|h.value| - 1]))
  }

  predicate HeadersOk(items: seq<P.Param>) {
    items != [] && (forall i :: 0 <= i < |items| ==> HeaderOk(items[i])) && P.Unique(items)
  }

  /** The text of the URI falls apart into the texts of its parts. */
  predicate Shaped(u: Uri) {
    && KnownScheme(u.scheme)
    && UserOk(u.user) && UserOk(u.password) && ':' !in u.user && (u.user == "" ==> u.password == "")
    && HostOk(u.host)
    && 0 <= u.port < INT_BOUND
    && (u.params.Some? ==> ParamsOk(u.params.value))
    && (u.headers.Some? ==> HeadersOk(u.headers.value))
  }

  /** And the parameters are kept apart by their own splitter. */
  predicate WellFormed(u: Uri) { Shaped(u) && (u.params.Some? ==> P.Separable(P.Pieces(u.params.value))) }

  // ------------------------------------------------------------------ the printed text

  lemma PrintableIsClean(s: string)
    requires Printable(s)
    ensures P.Clean(s) && P.Sanitize(s) == s
  {
    P.SanitizeClean(s);
  }

  lemma PrintableConcat(a: string, b: string)
    requires Printable(a) && Printable(b)
    ensures Printable(a + b)
  {
  }

  /** No printed parameter list introduces a character of its own beyond its punctuation. */
  predicate FromParams(c: char, items: seq<P.Param>) {
    || c == ';' || c == '=' || c == QUOTE || c == BACKSLASH
    || exists i :: 0 <= i < |items| && (c in items[i].key || c in items[i].value)
  }

  lemma {:induction false} EscapeQuotesChars(v: string, c: char)
    requires c in P.EscapeQuotes(v)
    ensures c == BACKSLASH || c in v
  {
    if c !in P.EscapeQuotes(v[1..]) {
      assert c == BACKSLASH || c == v[0];
    } else {
      EscapeQuotesChars(v[1..], c);
    }
  }

  lemma {:induction false} SanitizeChars(s: string, c: char)
    requires c in P.Sanitize(s)
    ensures c in s
  {
    if c in P.Sanitize(s[1..]) {
      SanitizeChars(s[1..], c);
    }
  }

  lemma EscapeChars(v: string, c: char)
    requires c in P.Escape(v)
    ensures c == QUOTE || c == BACKSLASH || c in v
  {
    if !P.NeedsQuotes(v) {
      SanitizeChars(v, c);
    } else if c != QUOTE {
      SanitizeChars(P.EscapeQuotes(v), c);
      EscapeQuotesChars(v, c);
    }
  }

  lemma {:induction false} PrintChars(items: seq<P.Param>, c: char)
    requires c in P.Print(items)
    ensures FromParams(c, items)
  {
    var piece, rest := P.Piece(items[0]), P.Print(items[1..]);
    assert c == ';' || c in piece || c in rest;
    if c in piece {
      if c in P.Escape(items[0].key) {
        EscapeChars(items[0].key, c);
      } else if c != '=' {
        EscapeChars(items[0].value, c);
      }
    } else if c in rest {
      PrintChars(items[1..], c);
      if i :| 0 <= i < |items[1..]| && (c in items[1..][i].key || c in items[1..][i].value) {
        assert items[1..][i] == items[i + 1];
      }
    }
  }

  /** What the parser needs to know about the parameters' text. */
  lemma ParamTextOk(items: seq<P.Param>)
    requires ParamsOk(items)
    ensures var text := P.Print(items);
            Printable(text) && '?' !in text && text != "" && text[0] == ';' && P.Sanitize(text) == text
  {
    var text := P.Print(items);
    forall k | 0 <= k < |text| ensures ' ' <= text[k] && text[k] != '\U{7F}' && text[k] != '?' {
      PrintChars(items, text[k]);
      if i :| 0 <= i < |items| && (text[k] in items[i].key || text[k] in items[i].value) {
        assert P.KeyCharsOk(items[i].key) && '?' in P.BAD_KEY_CHARS;
      }
    }
    PrintableIsClean(text);
  }

  lemma PieceEndsWithoutSpace(p: P.Param)
    requires P.TokenKey(p.key) && (p.hasValue ==> P.Faithful(p.value))
    ensures P.Piece(p) != "" && !IsSpace(P.Piece(p)[|P.Piece(p)| - 1])
  {
    hide P.Escape, P.KeyCharsOk, P.EscapeQuotes, P.Clean, Lower, IsSpace;
    P.KeyPrintsItself(p.key);
    if p.hasValue {
      P.ValueRoundTrip(p.value);
      assert !IsSpace('=') && !IsSpace(QUOTE) by { Punctuation(); }
    }
  }

  lemma Punctuation()
    ensures !IsSpace('=') && !IsSpace(QUOTE)
  {
  }

  lemma {:induction false} ParamTextEnd(items: seq<P.Param>)
    requires items != [] && P.Named(items) && P.AllFaithful(items)
    ensures P.Print(items) != "" && !IsSpace(P.Print(items)[|P.Print(items)| - 1])
    decreases |items|
  {
    hide P.TokenKey, P.Faithful, P.Piece, IsSpace;
    var piece, rest := P.Piece(items[0]), P.Print(items[1..]);
    if |items| > 1 {
      ParamTextEnd(items[1..]);
      assert P.Print(items)[|P.Print(items)| - 1] == rest[|rest| - 1];
    } else {
      PieceEndsWithoutSpace(items[0]);
      assert rest == "";
    }
  }

  lemma HeaderPieceIs(h: P.Param)
    requires HeaderOk(h)
    ensures HeaderPiece(h) == h.key + ['='] + h.value
    ensures Printable(HeaderPiece(h)) && '&' !in HeaderPiece(h)
    ensures !IsSpace(HeaderPiece(h)[|HeaderPiece(h)| - 1])
    ensures Cut(HeaderPiece(h), '=') == (h.key, h.value, true)
  {
    hide Cut, P.Sanitize;
    PrintableIsClean(h.key);
    PrintableIsClean(h.value);
    CutAt(h.key, '=', h.value);
  }

  function HeaderPieces(items: seq<P.Param>): seq<string> {
    seq(|items|, i requires 0 <= i < |items| => HeaderPiece(items[i]))
  }

  lemma {:induction false} JoinedHeadersOk(items: seq<P.Param>)
    requires items != [] && forall i :: 0 <= i < |items| ==> HeaderOk(items[i])
    ensures var text := JoinHeaders(items);
            Printable(text) && text != "" && !IsSpace(text[|text| - 1])
  {
    hide HeaderPiece, HeaderOk, Cut, IsSpace;
    HeaderPieceIs(items[0]);
    if |items| > 1 {
      JoinedHeadersOk(items[1..]);
      var first, rest := HeaderPiece(items[0]), JoinHeaders(items[1..]);
      JoinEnd(first, rest);
    }
  }

  lemma JoinEnd(first: string, rest: string)
    requires Printable(first) && Printable(rest) && rest != ""
    ensures var text := first + ['&'] + rest;
            Printable(text) && text[|text| - 1] == rest[|rest| - 1]
  {
  }

  lemma {:induction false} JoinedHeadersSplit(items: seq<P.Param>)
    requires items != [] && forall i :: 0 <= i < |items| ==> HeaderOk(items[i])
    ensures Split(JoinHeaders(items), '&') == HeaderPieces(items)
  {
    hide HeaderPiece, HeaderOk, Cut, Printable, IsSpace;
    HeaderPieceIs(items[0]);
    if |items| == 1 {
      assert IndexOf(HeaderPiece(items[0]), '&') < 0;
    } else {
      hide Split;
      JoinedHeadersSplit(items[1..]);
      SplitAt(HeaderPiece(items[0]), '&', JoinHeaders(items[1..]));
      assert HeaderPieces(items) == [HeaderPiece(items[0])] + HeaderPieces(items[1..]);
    }
  }

  lemma {:induction false} PutHeadersRoundTrip(items: seq<P.Param>, n: nat)
    requires n <= |items| && (forall i :: 0 <= i < |items| ==> HeaderOk(items[i])) && P.Unique(items)
    ensures PutHeaders(items[..n], HeaderPieces(items)[n..]) == items
    decreases |items| - n
  {
    hide HeaderPiece, HeaderOk, EqualFold, Cut, P.Put, P.Unique, P.FindKey;
    var pieces := HeaderPieces(items);
    if n == |items| {
      assert items[..n] == items;
    } else {
      HeaderPieceIs(items[n]);
      HeaderHasBoth(items[n]);
      NewHeaderIsAppended(items, n);
      assert pieces[n..][0] == pieces[n] && pieces[n..][1..] == pieces[n + 1..];
      PutHeadersRoundTrip(items, n + 1);
    }
  }

  lemma HeaderHasBoth(h: P.Param)
    requires HeaderOk(h)
    ensures h.key != "" && h == P.Param(h.key, h.value, true)
  {
  }

  lemma NewHeaderIsAppended(items: seq<P.Param>, n: nat)
    requires n < |items| && P.Unique(items)
    ensures P.Put(items[..n], items[n]) == items[..n + 1]
  {
    hide EqualFold;
    assert P.FindKey(items[..n], items[n].key) == -1;
    assert items[..n] + [items[n]] == items[..n + 1];
  }

  // ------------------------------------------------------------------ piece by piece

  lemma SplitUserAt(user: string, password: string, host: string)
    requires ':' !in user && '@' !in host
    ensures SplitUser(user + ['@'] + host) == (user, "", host)
    ensures SplitUser(user + [':'] + password + ['@'] + host) == (user, password, host)
  {
    LastIndexAt(user, '@', host);
    var part := user + ['@'] + host;
    assert part[..|user|] == user && part[|user| + 1..] == host;
    var info := user + [':'] + password;
    LastIndexAt(info, '@', host);
    var part' := info + ['@'] + host;
    assert part'[..|info|] == info && part'[|info| + 1..] == host;
    IndexAt(user, ':', password);
    assert info[..|user|] == user && info[|user| + 1..] == password;
    hide IndexOf, LastIndexOf;
  }

  lemma UserRoundTrip(u: Uri)
    requires Shaped(u)
    ensures SplitUser(UserText(u) + HostText(u)) == (u.user, u.password, HostText(u))
  {
    hide HostText, ParamsOk, HeadersOk, HostOk, Printable, SpaceFree, P.Sanitize, P.Clean, SplitUser;
    PrintableIsClean(u.user);
    PrintableIsClean(u.password);
    HostShape(u);
    var host := HostText(u);
    if u.user == "" {
      assert UserText(u) + host == host;
      SplitNoUser(host);
    } else {
      SplitUserAt(u.user, u.password, host);
      if u.password == "" {
        assert UserText(u) + host == u.user + ['@'] + host;
      } else {
        assert UserText(u) + host == u.user + [':'] + u.password + ['@'] + host;
      }
    }
  }

  lemma SplitNoUser(host: string)
    requires '@' !in host
    ensures SplitUser(host) == ("", "", host)
  {
    assert LastIndexOf(host, '@') < 0;
  }

  lemma NumeralChars(s: string, c: char)
    requires IsNumeral(s, 10) && c in s
    ensures '0' <= c <= '9'
  {
    var i :| 0 <= i < |s| && s[i] == c;
    assert 0 <= DigitOf(s[i]) < 10;
  }

  /** The host text, and what does not occur in it. */
  lemma HostShape(u: Uri)
    requires Shaped(u)
    ensures HostText(u) == if u.port > 0 then u.host + [':'] + Itoa(u.port) else u.host
    ensures Printable(HostText(u)) && SpaceFree(HostText(u)) && NeitherIn(HostText(u), ';', '?') && '@' !in HostText(u)
  {
    PrintableIsClean(u.host);
    if u.port > 0 {
      AtoiItoa(u.port);
      var digits := Itoa(u.port);
      forall k | 0 <= k < |digits| ensures '0' <= digits[k] <= '9' {
        NumeralChars(digits, digits[k]);
      }
    }
  }

  lemma BracketedHost(inner: string, digits: string, port: int)
    requires inner != "" && inner[0] == '[' && ']' !in inner && Atoi(digits) == Some(port)
    ensures ParseHost(inner + [']']) == Ok((inner + [']'], 0))
    ensures ParseHost(inner + [']'] + [':'] + digits) == Ok((inner + [']'], port))
  {
    hide Atoi, LastIndexOf;
    var host := inner + [']'];
    assert host == inner + [']'] + "";
    IndexAt(inner, ']', "");
    assert host[..|host|] == host;
    var text := host + [':'] + digits;
    assert text == inner + [']'] + ([':'] + digits);
    IndexAt(inner, ']', [':'] + digits);
    assert text[..|host|] == host && text[|host| + 1..] == digits;
  }

  lemma PlainHost(host: string, digits: string, port: int)
    requires host != "" && host[0] != '[' && ':' !in host && ':' !in digits && Atoi(digits) == Some(port)
    ensures ParseHost(host) == Ok((host, 0))
    ensures ParseHost(host + [':'] + digits) == Ok((host, port))
  {
    assert LastIndexOf(host, ':') < 0;
    LastIndexAt(host, ':', digits);
    var text := host + [':'] + digits;
    assert text[..|host|] == host && text[|host| + 1..] == digits;
    hide LastIndexOf, Atoi;
  }

  lemma DigitsHaveNoColon(port: int)
    requires 0 <= port < INT_BOUND
    ensures Atoi(Itoa(port)) == Some(port) && ':' !in Itoa(port)
  {
    AtoiItoa(port);
    if ':' in Itoa(port) {
      NumeralChars(Itoa(port), ':');
    }
  }

  lemma HostRoundTrip(u: Uri)
    requires Shaped(u)
    ensures ParseHost(HostText(u)) == Ok((u.host, u.port))
  {
    hide HostText, Atoi, Itoa, ParamsOk, HeadersOk, Printable, SpaceFree, UserOk, NeitherIn, ParseHost;
    HostShape(u);
    DigitsHaveNoColon(u.port);
    var host := u.host;
    if host[0] == '[' {
      var inner := host[..|host| - 1];
      assert host == inner + [']'] && |host| > 1;
      BracketedHost(inner, Itoa(u.port), u.port);
    } else {
      PlainHost(host, Itoa(u.port), u.port);
    }
  }

  lemma {:induction false} TailStartAt(a: string, b: string)
    requires NeitherIn(a, ';', '?') && (b == "" || b[0] == ';' || b[0] == '?')
    ensures TailStart(a + b) == |a|
  {
    if a == "" {
      assert a + b == b;
    } else {
      assert (a + b)[1..] == a[1..] + b;
      assert a[0] in a;
      TailStartAt(a[1..], b);
    }
  }

  lemma SplitTailAt(params: string, joined: string)
    requires params == "" || (params[0] == ';' && '?' !in params)
    ensures SplitTail(params) == Tail(params, "")
    ensures SplitTail(params + (['?'] + joined)) == Tail(params, joined)
  {
    var text := params + (['?'] + joined);
    if params == "" {
      assert text == ['?'] + joined;
    } else {
      IndexAt(params, '?', joined);
      assert text == params + ['?'] + joined;
      assert text[..|params|] == params && text[|params| + 1..] == joined;
    }
  }

  lemma TailRoundTrip(u: Uri)
    requires Shaped(u)
    ensures SplitTail(ParamText(u) + HeaderText(u)) ==
            Tail(ParamText(u), if u.headers.Some? then JoinHeaders(u.headers.value) else "")
    ensures u.params.Some? ==> ParamText(u) == P.Print(u.params.value) && ParamText(u) != ""
  {
    if u.params.Some? {
      ParamTextOk(u.params.value);
    }
    hide ParamsOk, HeaderOk, HostOk, UserOk, JoinHeaders, P.Print, P.Sanitize;
    var joined := if u.headers.Some? then JoinHeaders(u.headers.value) else "";
    SplitTailAt(ParamText(u), joined);
    hide SplitTail;
    assert ParamText(u) + "" == ParamText(u);
  }

  /** The whole text is printable, and no space stands at either end. */
  lemma TextOk(u: Uri)
    requires Shaped(u)
    ensures Printable(Print(u)) && Print(u) != "" && Trimmed(Print(u))
    ensures P.Sanitize(u.scheme) == u.scheme && ':' !in u.scheme && Lower(u.scheme) == u.scheme
  {
    hide UserText, HostText, ParamText, HeaderText, UserOk, HostOk, ParamsOk, HeadersOk, Lower, P.Sanitize;
    SchemeOk(u.scheme);
    AuthorityOk(u);
    TailOk(u);
    var authority, tail := UserText(u) + HostText(u), ParamText(u) + HeaderText(u);
    PrintableConcat(authority, tail);
    PrintableConcat(u.scheme + [':'], authority + tail);
    var text := u.scheme + [':'] + (authority + tail);
    assert text[0] == u.scheme[0];
    assert text[|text| - 1] == if tail == "" then authority[|authority| - 1] else tail[|tail| - 1];
  }

  lemma SchemeOk(scheme: string)
    requires KnownScheme(scheme)
    ensures Printable(scheme) && P.Sanitize(scheme) == scheme && ':' !in scheme && Lower(scheme) == scheme
    ensures scheme != "" && !IsSpace(scheme[0])
  {
    assert Lower("sip") == "sip" && Lower("sips") == "sips" && Lower("tel") == "tel";
    PrintableIsClean(scheme);
  }

  lemma AuthorityOk(u: Uri)
    requires Shaped(u)
    ensures var authority := UserText(u) + HostText(u);
            && Printable(authority) && SpaceFree(authority) && NeitherIn(authority, ';', '?') && authority != ""
    ensures HostText(u) != ""
  {
    hide HostText, ParamsOk, HeadersOk, P.Sanitize, P.Clean;
    PrintableIsClean(u.user);
    PrintableIsClean(u.password);
    HostShape(u);
    assert NeitherIn(UserText(u), ';', '?') && Printable(UserText(u)) && SpaceFree(UserText(u));
  }

  lemma TailOk(u: Uri)
    requires Shaped(u)
    ensures var tail := ParamText(u) + HeaderText(u);
            && Printable(tail) && (tail == "" || tail[0] == ';' || tail[0] == '?')
            && (tail == "" || !IsSpace(tail[|tail| - 1]))
  {
    hide JoinHeaders, P.Print, P.Sanitize, P.Named, P.AllFaithful, HeaderOk, HostOk, UserOk, IsSpace;
    if u.params.Some? {
      ParamTextOk(u.params.value);
      ParamTextEnd(u.params.value);
    }
    if u.headers.Some? {
      JoinedHeadersOk(u.headers.value);
    }
    PrintableConcat(ParamText(u), HeaderText(u));
  }

  /** The URI with the parameters that are read from the text. */
  function WithParams(u: Uri, text: string): Result<Uri> {
    if text == "" then Ok(u)
    else match P.Parse(text) case Err => Err case Ok(items) => Ok(u.(params := Some(items)))
  }

  /** The parser on the rest of a text whose parts have been shown to come apart again. */
  lemma RestRoundTrip(u: Uri, authority: string, hostText: string, tail: string)
    requires NeitherIn(authority, ';', '?') && SpaceFree(authority) && SpaceFree(hostText) && hostText != ""
    requires tail == "" || tail[0] == ';' || tail[0] == '?'
    requires SplitUser(authority) == (u.user, u.password, hostText)
    requires ParseHost(hostText) == Ok((u.host, u.port))
    requires u.host != "" && SpaceFree(u.host) && (':' in u.host ==> u.host[0] == '[')
    requires var t := SplitTail(tail);
             && (t.params == "" ==> u.params == None)
             && (if t.headers == "" then u.headers == None else u.headers == Some(PutHeaders([], Split(t.headers, '&'))))
    ensures ParseRest(u.scheme, authority + tail) == WithParams(u, SplitTail(tail).params)
  {
    hide TailStart, TrimSpace, SplitUser, ParseHost, SplitTail, P.Parse, PutHeaders, Split, SpaceFree, NeitherIn;
    TailStartAt(authority, tail);
    var rest := authority + tail;
    assert rest[..|authority|] == authority && rest[|authority|..] == tail;
    assert tail == "" ==> rest == authority;
    TrimFree(authority);
    TrimFree(hostText);
    TrimFree(u.host);
  }

  lemma ParseIs(scheme: string, rest: string)
    requires KnownScheme(scheme) && ':' !in scheme && Lower(scheme) == scheme
    requires var s := scheme + [':'] + rest; Printable(s) && Trimmed(s)
    ensures Parse(scheme + [':'] + rest) == ParseRest(scheme, rest)
  {
    var s := scheme + [':'] + rest;
    assert TrimSpace(s) == s;
    CutAt(scheme, ':', rest);
    hide ParseRest, Cut, TrimSpace;
  }

  lemma HeaderFieldRoundTrip(items: seq<P.Param>)
    requires HeadersOk(items)
    ensures JoinHeaders(items) != "" && PutHeaders([], Split(JoinHeaders(items), '&')) == items
  {
    JoinedHeadersOk(items);
    JoinedHeadersSplit(items);
    PutHeadersRoundTrip(items, 0);
    hide *;
    assert items[..0] == [] && HeaderPieces(items)[0..] == HeaderPieces(items);
  }

  /** Printing a shaped URI and parsing it gives the URI back, except that its parameters are those read from their
      own text. */
  lemma ParsePrinted(u: Uri)
    requires Shaped(u)
    ensures Parse(Print(u)) == WithParams(u, if u.params.Some? then P.Print(u.params.value) else "")
    ensures u.params.Some? ==> P.Print(u.params.value) != ""
  {
    hide UserText, HostText, HeaderText, SplitUser, ParseHost, SplitTail, P.Parse, P.Print, PutHeaders, Split,
      JoinHeaders, HeaderOk, UserOk, P.Named, P.AllFaithful, Printable, ParseRest, Parse, Trimmed, Lower, P.Sanitize,
      NeitherIn, SpaceFree;
    TextOk(u);
    AuthorityOk(u);
    HostShape(u);
    TailOk(u);
    UserRoundTrip(u);
    HostRoundTrip(u);
    TailRoundTrip(u);
    if u.headers.Some? {
      HeaderFieldRoundTrip(u.headers.value);
    }
    var authority, tail := UserText(u) + HostText(u), ParamText(u) + HeaderText(u);
    assert u.params.None? ==> ParamText(u) == "";
    RestRoundTrip(u, authority, HostText(u), tail);
    ParseIs(u.scheme, authority + tail);
  }

  /** Printing a well-formed URI and parsing it gives the URI back. */
  lemma RoundTrip(u: Uri)
    requires WellFormed(u)
    ensures Parse(Print(u)) == Ok(u)
  {
    hide Parse, Print, P.Parse, P.Print, P.Separable, P.Named, P.AllFaithful;
    ParsePrinted(u);
    if u.params.Some? {
      P.SeparableRoundTrip(u.params.value);
    }
  }
}
