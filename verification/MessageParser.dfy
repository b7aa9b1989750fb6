/** Parsing a message (parser.go: ParseMessage, parseRequest, parseResponse, parseHeaderBlock, newTypedHeader;
    message.go: Validate), and print then parse. */
module MessageParser {
  import opened Basics
  import opened Text
  import opened HeaderNames
  import opened Headers
  import opened HeaderValues
  import opened Framing
  import opened Messages

  const MAX_HEADER_LINES: nat := 128
  const MAX_HEADER_LINE_LEN: nat := 8192

  /** The parsers of the structured headers (ParseVia, ParseNameAddrList, ParseAuth): given the canonical name
      and the value, the text that the parsed header prints and its branch, or none when it does not parse. */
  type Codec = (string, string) -> Option<(string, string)>

  const STRUCTURED: seq<string> := [
    "Via", "From", "To", "Contact", "Route", "Record-Route", "Refer-To", "Accept-Contact", "Referred-By",
    "Reply-To", "Alert-Info", "Call-Info", "Error-Info", "P-Asserted-Identity", "Path", "Service-Route",
    "Authorization", "WWW-Authenticate", "Proxy-Authorization", "Proxy-Authenticate"]

  function OrGeneric(h: Option<Header>, name: string, value: string): Header {
    match h case Some(typed) => typed case None => Generic(name, value)
  }

  /** newTypedHeader; a value that does not parse stays generic. */
  function NewTyped(codec: Codec, name: string, value: string): Header {
    if name == "CSeq" then OrGeneric(ParseCSeq(value), name, value)
    else if name == "Content-Length" then OrGeneric(ParseContentLength(value), name, value)
    else if name == "Max-Forwards" then OrGeneric(ParseMaxForwards(value), name, value)
    else if name in STRUCTURED then
      match codec(name, value)
      case Some((text, branch)) => Typed(name, text, branch)
      case None => Generic(name, value)
    else Generic(name, value)
  }

  // ------------------------------------------------------------------ lines

  /** strings.TrimRight(s, "\r\n"). */
  function StripEol(s: string): string {
    if s != "" && (s[|s| - 1] == CR || s[|s| - 1] == LF) then StripEol(s[..|s| - 1]) else s
  }

  /** Length of what ReadString('\n') consumes. */
  function LineLen(rest: string): (n: nat)
    ensures n <= |rest| && (rest != "" ==> n > 0)
  {
    var i := IndexOf(rest, LF);
    if i < 0 then |rest| else i + 1
  }

  // ------------------------------------------------------------------ the header block

  /** A continuation line extends the last header when it is generic, and is dropped otherwise. */
  function Fold(headers: seq<Header>, extra: string): seq<Header>
    requires headers != []
  {
    var n := |headers| - 1;
    match headers[n]
    case Generic(k, v) => headers[..n] + [Generic(k, v + [' '] + extra)]
    case _ => headers
  }

  datatype Parsed = Parsed(headers: seq<Header>, body: string)

  function TakeBody(rest: string, headers: seq<Header>, contentLength: int): Result<Parsed> {
    var cl := if contentLength < 0 then 0 else contentLength;
    if cl > MAX_BODY_SIZE || |rest| < cl then Err else Ok(Parsed(headers, rest[..cl]))
  }

  function ParseBlock(codec: Codec, rest: string, headers: seq<Header>, count: nat, contentLength: int): Result<Parsed>
    decreases |rest|
  {
    if rest == "" then Err
    else
      var line, next := StripEol(rest[..LineLen(rest)]), rest[LineLen(rest)..];
      if CR in line || |line| > MAX_HEADER_LINE_LEN then Err
      else if line == "" then TakeBody(next, headers, contentLength)
      else if count + 1 > MAX_HEADER_LINES then Err
      else if line[0] == ' ' || line[0] == TAB then
        if headers == [] then Err
        else ParseBlock(codec, next, Fold(headers, TrimSpace(line)), count + 1, contentLength)
      else
        var (name, value, found) := Cut(line, ':');
        if !found then Err
        else
          var h := NewTyped(codec, Canonical(TrimSpace(name)), TrimSpace(value));
          ParseBlock(codec, next, headers + [h], count + 1, if h.ContentLength? then h.length else contentLength)
  }

  /** The loop of parseHeaderBlock. */
  method ParseHeaderBlock(codec: Codec, text: string) returns (result: Result<Parsed>)
    ensures result == ParseBlock(codec, text, [], 0, -1)
  {
    hide StripEol, LineLen, Cut, Canonical, TrimSpace, NewTyped, TakeBody, Fold;
    var rest, headers, count := text, [], 0;
    var contentLength: int := -1;
    while rest != ""
      invariant count >= 0
      invariant ParseBlock(codec, text, [], 0, -1) == ParseBlock(codec, rest, headers, count, contentLength)
      decreases |rest|
    {
      var line := StripEol(rest[..LineLen(rest)]);
      var next := rest[LineLen(rest)..];
      if CR in line || |line| > MAX_HEADER_LINE_LEN {
        return Err;
      }
      if line == "" {
        return TakeBody(next, headers, contentLength);
      }
      count := count + 1;
      if count > MAX_HEADER_LINES {
        return Err;
      }
      rest := next;
      if line[0] == ' ' || line[0] == TAB {
        if headers == [] {
          return Err;
        }
        headers := Fold(headers, TrimSpace(line));
        continue;
      }
      var (name, value, found) := Cut(line, ':');
      if !found {
        return Err;
      }
      var h := NewTyped(codec, Canonical(TrimSpace(name)), TrimSpace(value));
      headers := headers + [h];
      if h.ContentLength? {
        contentLength := h.length;
      }
    }
    return Err;
  }

  // ------------------------------------------------------------------ start lines and validation

  const REQUIRED: seq<string> := ["Via", "From", "To", "Call-ID", "CSeq"]

  predicate Complete(headers: seq<Header>) { forall name :: name in REQUIRED ==> Get(headers, name).Some? }

  predicate HasSipPrefix(line: string) { "SIP/" <= line }

  function ParseRequestLine(line: string): Result<Start> {
    var fields := Fields(line);
    if |fields| != 3 then Err
    else
      match U.Parse(fields[1])
      case Err => Err
      case Ok(uri) => Ok(RequestLine(Upper(fields[0]), uri, fields[2]))
  }

  /** NewResponse fills in a default for an empty reason. */
  function ParseStatusLine(line: string, defaultReason: int -> string): Result<Start> {
    var (proto, rest, found) := Cut(line, ' ');
    if !found then Err
    else
      var (code, reason, _) := Cut(rest, ' ');
      match Atoi(code)
      case None => Err
      case Some(n) => Ok(StatusLine(proto, n, if reason == "" then defaultReason(n) else reason))
  }

  predicate StartOk(start: Start) {
    match start
    case RequestLine(verb, uri, _) => verb != "" && uri.host != ""
    case StatusLine(_, code, _) => 100 <= code <= 699
  }

  function ParseMessage(codec: Codec, defaultReason: int -> string, data: string): Result<SipMessage> {
    if |data| < 8 || |data| > MAX_MESSAGE_SIZE then Err
    else
      var line, rest := StripEol(data[..LineLen(data)]), data[LineLen(data)..];
      if line == "" then Err
      else
        var start := if HasSipPrefix(line) then ParseStatusLine(line, defaultReason) else ParseRequestLine(line);
        if start.Err? then Err
        else
          match ParseBlock(codec, rest, [], 0, -1)
          case Err => Err
          case Ok(Parsed(headers, body)) =>
            if StartOk(start.value) && Complete(headers) then Ok(SipMessage(start.value, headers, body)) else Err
  }

  /** Whatever the text, at most one header comes from a line, the limit on lines holds, and the body is the text
      right after the block, no longer than the limit. */
  lemma {:induction false} BlockWithinLimits(codec: Codec, rest: string, headers: seq<Header>, count: nat, cl: int)
    requires count <= MAX_HEADER_LINES
    ensures var r := ParseBlock(codec, rest, headers, count, cl);
            r.Ok? ==>
              && |headers| <= |r.value.headers| <= |headers| + MAX_HEADER_LINES - count
              && |r.value.body| <= MAX_BODY_SIZE
              && exists i :: 0 <= i <= |rest| && r.value.body <= rest[i..]
    decreases |rest|
  {
    hide StripEol, LineLen, Cut, Canonical, TrimSpace, NewTyped;
    if ParseBlock(codec, rest, headers, count, cl).Ok? {
      var n := LineLen(rest);
      var line, next := StripEol(rest[..n]), rest[n..];
      if line == "" {
        assert ParseBlock(codec, rest, headers, count, cl).value.body <= rest[n..];
      } else {
        var (name, value, _) := Cut(line, ':');
        var h := NewTyped(codec, Canonical(TrimSpace(name)), TrimSpace(value));
        var folded := line[0] == ' ' || line[0] == TAB;
        var headers', cl' := if folded then Fold(headers, TrimSpace(line)) else headers + [h],
                             if !folded && h.ContentLength? then h.length else cl;
        BlockWithinLimits(codec, next, headers', count + 1, cl');
        var body := ParseBlock(codec, rest, headers, count, cl).value.body;
        var i :| 0 <= i <= |next| && body <= next[i..];
        assert next[i..] == rest[n + i..];
      }
    }
  }

  /** Only complete messages within every limit are accepted. */
  lemma AcceptedIsValid(codec: Codec, defaultReason: int -> string, data: string)
    ensures var r := ParseMessage(codec, defaultReason, data);
            r.Ok? ==>
              && StartOk(r.value.start) && Complete(r.value.headers)
              && 8 <= |data| <= MAX_MESSAGE_SIZE
              && |r.value.headers| <= MAX_HEADER_LINES && |r.value.body| <= MAX_BODY_SIZE
  {
    hide StripEol, LineLen, ParseBlock, ParseStatusLine, ParseRequestLine, Canonical;
    if ParseMessage(codec, defaultReason, data).Ok? {
      BlockWithinLimits(codec, data[LineLen(data)..], [], 0, -1);
    }
  }

  // ------------------------------------------------------------------ well-formed messages

  /** The header is canonical, fits on a line, and prints back the text it was parsed from. */
  predicate GoodHeader(codec: Codec, h: Header, body: string) {
    && Frameable(h, body)
    && h.Name() != "" && Canonical(h.Name()) == h.Name() && Trimmed(h.Name()) && Trimmed(h.Value())
    && |HeaderLine(h)| <= MAX_HEADER_LINE_LEN
    && NewTyped(codec, h.Name(), h.Value()).Name() == h.Name()
    && NewTyped(codec, h.Name(), h.Value()).Value() == h.Value()
  }

  predicate GoodStart(start: Start) {
    match start
    case RequestLine(verb, uri, proto) =>
      && verb != "" && SpaceFree(verb) && Upper(verb) == verb && ':' !in verb && '/' !in verb
      && U.WellFormed(uri) && SpaceFree(U.Print(uri))
      && proto != "" && SpaceFree(proto)
    case StatusLine(proto, code, reason) =>
      && HasSipPrefix(proto) && SpaceFree(proto) && ':' !in proto
      && 100 <= code <= 699
      && reason != "" && CR !in reason && LF !in reason
  }

  predicate WellFormed(codec: Codec, m: SipMessage) {
    && GoodStart(m.start)
    && |m.body| <= MAX_BODY_SIZE
    && (forall i :: 0 <= i < |m.headers| ==> GoodHeader(codec, m.headers[i], m.body))
    && Complete(m.headers)
    && |WireHeaders(m)| <= MAX_HEADER_LINES
    && |Render(m)| <= MAX_MESSAGE_SIZE
  }

  /** The three typed headers that this model parses itself are good ones. */
  lemma TypedHeadersPrintBack(codec: Codec, h: Header)
    requires h.CSeq? || h.ContentLength? || h.MaxForwards?
    requires InRange(h)
    ensures NewTyped(codec, h.Name(), h.Value()) == h
  {
    hide ParseCSeq, ParseContentLength, ParseMaxForwards, InRange, Header.Value;
    match h
    case CSeq(n, v) => CSeqRoundTrip(n, v);
    case ContentLength(n) =>
      assert InRange(h) ==> n < UINT32_BOUND by { InRangeLength(n); }
      ContentLengthRoundTrip(n);
    case MaxForwards(n) => MaxForwardsRoundTrip(n);
  }

  lemma InRangeLength(n: nat)
    ensures InRange(ContentLength(n)) <==> n < UINT32_BOUND
  {
  }

  // ------------------------------------------------------------------ reading back a rendered line

  lemma {:induction false} StripEolNone(s: string)
    requires s == "" || (s[|s| - 1] != CR && s[|s| - 1] != LF)
    ensures StripEol(s + CRLF) == s
  {
    assert (s + [CR])[..|s|] == s && StripEol(s + [CR]) == s;
    assert (s + CRLF)[..|s| + 1] == s + [CR];
  }

  /** Reading a rendered line gives it back and leaves what follows. */
  lemma ReadBack(line: string, rest: string)
    requires CR !in line && LF !in line
    ensures var text := line + CRLF + rest;
            && text != "" && LineLen(text) == |line| + 2
            && StripEol(text[..LineLen(text)]) == line && text[LineLen(text)..] == rest
  {
    var text := line + CRLF + rest;
    assert text == (line + [CR]) + [LF] + rest;
    IndexAt(line + [CR], LF, rest);
    assert text[..|line| + 2] == line + CRLF && text[|line| + 2..] == rest;
    assert line != "" ==> line[|line| - 1] in line;
    StripEolNone(line);
  }

  lemma HeaderLineParts(codec: Codec, h: Header, body: string)
    requires GoodHeader(codec, h, body)
    ensures var (name, value, found) := Cut(HeaderLine(h), ':');
            found && name == h.Name() && TrimSpace(name) == name && TrimSpace(value) == h.Value()
    ensures HeaderLine(h) != "" && CR !in HeaderLine(h) && LF !in HeaderLine(h)
    ensures HeaderLine(h)[0] != ' ' && HeaderLine(h)[0] != TAB
    ensures |HeaderLine(h)| <= MAX_HEADER_LINE_LEN && Canonical(h.Name()) == h.Name()
  {
    hide Canonical, NewTyped, Header.Value, Header.Name;
    CutAt(h.Name(), ':', [' '] + h.Value());
    assert ([' '] + h.Value())[1..] == h.Value();
    assert TrimLeft([' '] + h.Value()) == h.Value();
  }

  /** One rendered header is read as one header. */
  lemma HeaderStep(codec: Codec, h: Header, body: string, rest: string, headers: seq<Header>, count: nat, cl: int)
    requires GoodHeader(codec, h, body) && count < MAX_HEADER_LINES
    ensures var typed := NewTyped(codec, h.Name(), h.Value());
            ParseBlock(codec, HeaderLine(h) + CRLF + rest, headers, count, cl) ==
            ParseBlock(codec, rest, headers + [typed], count + 1, if typed.ContentLength? then typed.length else cl)
  {
    hide NewTyped, Canonical, HeaderLine, StripEol, LineLen, Cut, TrimSpace, GoodHeader, TakeBody, Fold, Header.Name, Header.Value;
    HeaderLineParts(codec, h, body);
    ReadBack(HeaderLine(h), rest);
  }

  function TypedAll(codec: Codec, headers: seq<Header>): seq<Header> {
    seq(|headers|, i requires 0 <= i < |headers| => NewTyped(codec, headers[i].Name(), headers[i].Value()))
  }

  /** Typing a good header yields the body length exactly when the header is the Content-Length. */
  lemma TypedLength(codec: Codec, h: Header, body: string)
    requires GoodHeader(codec, h, body) && |body| <= MAX_BODY_SIZE
    ensures var typed := NewTyped(codec, h.Name(), h.Value());
            && (Named(h, "Content-Length") ==> typed == ContentLength(|body|))
            && (!Named(h, "Content-Length") ==> !typed.ContentLength?)
  {
    hide Canonical, NewTyped, HeaderLine, Header.Value;
    LengthNames();
    if Named(h, "Content-Length") {
      InRangeLength(|body|);
      TypedHeadersPrintBack(codec, h);
    } else {
      OtherNamesAreNoLength(codec, h.Name(), h.Value());
    }
  }

  lemma OtherNamesAreNoLength(codec: Codec, name: string, value: string)
    requires name != "Content-Length"
    ensures !NewTyped(codec, name, value).ContentLength?
  {
    hide ParseCSeq, ParseContentLength, ParseMaxForwards;
    CSeqIsNoLength(value);
  }

  lemma CSeqIsNoLength(s: string)
    ensures ParseCSeq(s).Some? ==> ParseCSeq(s).value.CSeq?
    ensures ParseMaxForwards(s).Some? ==> ParseMaxForwards(s).value.MaxForwards?
  {
  }

  /** The rest of a rendered header block, from header n on. */
  lemma {:induction false} BlockRoundTrip(codec: Codec, headers: seq<Header>, body: string, n: nat, cl: int)
    requires |headers| <= MAX_HEADER_LINES && n <= |headers| && |body| <= MAX_BODY_SIZE
    requires forall i :: 0 <= i < |headers| ==> GoodHeader(codec, headers[i], body)
    requires cl == |body| || (cl == -1 && (body == "" || Get(headers[n..], "Content-Length").Some?))
    ensures ParseBlock(codec, Block(HeaderLines(headers[n..])) + CRLF + body, TypedAll(codec, headers[..n]), n, cl)
            == Ok(Parsed(TypedAll(codec, headers), body))
    decreases |headers| - n
  {
    hide NewTyped, HeaderLine, GoodHeader, Named, Canonical;
    if n == |headers| {
      hide ParseBlock;
      assert headers[..n] == headers && headers[n..] == [];
      assert Block(HeaderLines(headers[n..])) + CRLF + body == "" + CRLF + body;
      EndStep(codec, body, TypedAll(codec, headers), n, cl);
    } else {
      hide ParseBlock;
      var h, later := headers[n], Block(HeaderLines(headers[n + 1..])) + CRLF + body;
      assert HeaderLines(headers[n..])[1..] == HeaderLines(headers[n + 1..]);
      assert Block(HeaderLines(headers[n..])) + CRLF + body == HeaderLine(h) + CRLF + later;
      HeaderStep(codec, h, body, later, TypedAll(codec, headers[..n]), n, cl);
      assert TypedAll(codec, headers[..n]) + [NewTyped(codec, h.Name(), h.Value())] == TypedAll(codec, headers[..n + 1]);
      TypedLength(codec, h, body);
      assert headers[n..][1..] == headers[n + 1..];
      BlockRoundTrip(codec, headers, body, n + 1, if Named(h, "Content-Length") then |body| else cl);
    }
  }

  lemma EndStep(codec: Codec, body: string, headers: seq<Header>, count: nat, cl: int)
    requires |body| <= MAX_BODY_SIZE && (cl == |body| || (cl == -1 && body == ""))
    ensures ParseBlock(codec, "" + CRLF + body, headers, count, cl) == Ok(Parsed(headers, body))
  {
    ReadBack("", body);
    assert body[..|body|] == body;
    assert CR !in "";
  }

  // ------------------------------------------------------------------ reading back a rendered start line

  lemma RequestLineRoundTrip(verb: string, uri: U.Uri, proto: string)
    requires GoodStart(RequestLine(verb, uri, proto))
    ensures var line := StartText(RequestLine(verb, uri, proto));
            && !HasSipPrefix(line) && ParseRequestLine(line) == Ok(RequestLine(verb, uri, proto))
            && GoodLine(line) && LengthIn(line) == NoLength
  {
    hide U.Print, U.Parse, U.WellFormed, Fields, LengthIn;
    U.RoundTrip(uri);
    var text := U.Print(uri);
    assert text != "" && text[0] != ':' by { PrintedUriStart(uri); }
    FieldsCons(verb, text + [' '] + proto);
    FieldsCons(text, proto);
    FieldsWord(proto);
    TwoWordsAreNoLength(verb, text + [' '] + proto);
    var line := verb + [' '] + (text + [' '] + proto);
    assert GoodLine(line);
    if HasSipPrefix(line) {
      NotSip(verb, text + [' '] + proto);
    }
  }

  lemma NotSip(verb: string, rest: string)
    requires '/' !in verb && verb != ""
    ensures !HasSipPrefix(verb + [' '] + rest)
  {
    var line := verb + [' '] + rest;
    if |verb| > 3 {
      assert line[3] == verb[3] && verb[3] in verb;
    } else {
      assert line[|verb|] == ' ';
    }
  }

  lemma PrintedUriStart(uri: U.Uri)
    requires U.WellFormed(uri)
    ensures U.Print(uri) != "" && U.Print(uri)[0] != ':'
  {
    hide U.UserText, U.HostText, U.ParamText, U.HeaderText;
    U.SchemeOk(uri.scheme);
    assert U.Print(uri)[0] == uri.scheme[0];
  }

  lemma StatusLineRoundTrip(proto: string, code: int, reason: string, defaultReason: int -> string)
    requires GoodStart(StatusLine(proto, code, reason))
    ensures var line := StartText(StatusLine(proto, code, reason));
            && HasSipPrefix(line) && ParseStatusLine(line, defaultReason) == Ok(StatusLine(proto, code, reason))
            && GoodLine(line) && LengthIn(line) == NoLength
  {
    hide LengthIn, Atoi, Itoa, Cut;
    AtoiItoa(code);
    U.DigitsHaveNoColon(code);
    var digits := Itoa(code);
    assert ' ' !in proto && ' ' !in digits;
    CutAt(proto, ' ', digits + [' '] + reason);
    CutAt(digits, ' ', reason);
    assert digits[0] in digits;
    TwoWordsAreNoLength(proto, digits + [' '] + reason);
    assert GoodLine(proto + [' '] + (digits + [' '] + reason));
  }

  // ------------------------------------------------------------------ print then parse

  lemma {:induction false} GetTyped(codec: Codec, headers: seq<Header>, name: string)
    requires forall i :: 0 <= i < |headers| ==> NewTyped(codec, headers[i].Name(), headers[i].Value()).Name() == headers[i].Name()
    ensures Get(TypedAll(codec, headers), name).Some? <==> Get(headers, name).Some?
  {
    hide NewTyped, Canonical;
    if headers != [] {
      assert TypedAll(codec, headers)[1..] == TypedAll(codec, headers[1..]);
      assert TypedAll(codec, headers)[0] == NewTyped(codec, headers[0].Name(), headers[0].Value());
      GetTyped(codec, headers[1..], name);
    }
  }

  lemma WireHeadersGood(codec: Codec, m: SipMessage)
    requires WellFormed(codec, m)
    ensures var headers := WireHeaders(m);
            && |headers| <= MAX_HEADER_LINES
            && (forall i :: 0 <= i < |headers| ==> GoodHeader(codec, headers[i], m.body))
            && Complete(headers)
            && (m.body == "" || Get(headers, "Content-Length").Some?)
  {
    hide Canonical, NewTyped, Render, GoodStart;
    var h := ContentLength(|m.body|);
    forall name | name in REQUIRED ensures Get(WireHeaders(m), name).Some? {
      GetAfterAdd(m.headers, h, name);
    }
    GetAfterAdd(m.headers, h, "Content-Length");
    assert GoodHeader(codec, h, m.body) by { LengthIsGood(codec, |m.body|, m.body); }
    hide Get, GoodHeader;
  }

  lemma LengthIsGood(codec: Codec, n: nat, body: string)
    requires n == |body| <= MAX_BODY_SIZE
    ensures GoodHeader(codec, ContentLength(n), body)
  {
    hide Canonical, NewTyped, Numeral;
    var h := ContentLength(n);
    LengthNames();
    InRangeLength(n);
    TypedHeadersPrintBack(codec, h);
    PlainLength(h);
    ParseUintNumeral(n, UINT32_BOUND);
    assert Pow10(6) == 1000000;
    NumeralDigits(n, 6);
  }

  function Pow10(k: nat): nat { if k == 0 then 1 else 10 * Pow10(k - 1) }

  lemma {:induction false} NumeralDigits(n: nat, k: nat)
    requires k > 0 && n < Pow10(k)
    ensures |Numeral(n, 10)| <= k
  {
    if n >= 10 {
      assert k > 1 by { assert Pow10(1) == 10; }
      NumeralDigits(n / 10, k - 1);
    }
  }

  /** The (name, value) pairs of a header list. */
  function Pairs(headers: seq<Header>): seq<(string, string)> {
    seq(|headers|, i requires 0 <= i < |headers| => (headers[i].Name(), headers[i].Value()))
  }

  lemma StartRoundTrip(start: Start, defaultReason: int -> string)
    requires GoodStart(start)
    ensures var line := StartText(start);
            && (if HasSipPrefix(line) then ParseStatusLine(line, defaultReason) else ParseRequestLine(line)) == Ok(start)
            && GoodLine(line) && LengthIn(line) == NoLength && StartOk(start)
  {
    hide ParseStatusLine, ParseRequestLine, LengthIn, HasSipPrefix, GoodLine, StartText;
    match start
    case RequestLine(verb, uri, proto) =>
      RequestLineRoundTrip(verb, uri, proto);
      assert uri.host != "";
    case StatusLine(proto, code, reason) =>
      StatusLineRoundTrip(proto, code, reason, defaultReason);
  }

  /** A well-formed message, printed and parsed, has the same start line, the same body, and the same ordered
      (name, value) headers, with the Content-Length that render adds when a body has none. */
  lemma PrintThenParse(codec: Codec, defaultReason: int -> string, m: SipMessage)
    requires WellFormed(codec, m)
    ensures var parsed := ParseMessage(codec, defaultReason, Render(m));
            && parsed.Ok?
            && parsed.value.start == m.start && parsed.value.body == m.body
            && Pairs(parsed.value.headers) == Pairs(WireHeaders(m))
  {
    hide NewTyped, Canonical, StartText, ParseStatusLine, ParseRequestLine, LengthIn, HasSipPrefix, GoodStart, GoodHeader,
      HeaderLine, ParseBlock, StripEol, LineLen, StartOk, Get, Frameable, Header.Name, Header.Value, Block;
    var headers := WireHeaders(m);
    StartRoundTrip(m.start, defaultReason);
    WireHeadersGood(codec, m);
    hide WireHeaders;
    var line, rest := StartText(m.start), Block(HeaderLines(headers)) + CRLF + m.body;
    RenderParts(m);
    ReadBack(line, rest);
    BlockRoundTrip(codec, headers, m.body, 0, -1);
    assert headers[0..] == headers && TypedAll(codec, headers[..0]) == [];
    var typed := TypedAll(codec, headers);
    TypedPairs(codec, headers, m.body);
    forall name | name in REQUIRED ensures Get(typed, name).Some? {
      GetTyped(codec, headers, name);
    }
    RenderedIsLong(m);
  }

  lemma RenderParts(m: SipMessage)
    ensures Render(m) == StartText(m.start) + CRLF + (Block(HeaderLines(WireHeaders(m))) + CRLF + m.body)
  {
    hide StartText, HeaderLines, WireHeaders;
    assert HeadLines(m)[1..] == HeaderLines(WireHeaders(m));
  }

  lemma TypedPairs(codec: Codec, headers: seq<Header>, body: string)
    requires forall i :: 0 <= i < |headers| ==> GoodHeader(codec, headers[i], body)
    ensures Pairs(TypedAll(codec, headers)) == Pairs(headers)
    ensures forall i :: 0 <= i < |headers| ==>
              NewTyped(codec, headers[i].Name(), headers[i].Value()).Name() == headers[i].Name()
  {
    hide NewTyped, Canonical, Frameable, HeaderLine, Header.Name, Header.Value;
  }

  lemma RenderedIsLong(m: SipMessage)
    requires GoodLine(StartText(m.start)) && Complete(WireHeaders(m))
    ensures |Render(m)| >= 8
  {
    hide Canonical, StartText, WireHeaders, Header.Name, Header.Value;
    RenderParts(m);
    var headers := WireHeaders(m);
    assert REQUIRED[0] == "Via" && Get(headers, "Via").Some?;
    assert headers != [] && HeaderLines(headers)[0] == HeaderLine(headers[0]);
  }

  /** A well-formed message is also framed whole, so a stream of them is split and parsed back. */
  lemma WellFormedIsFrameable(codec: Codec, defaultReason: int -> string, m: SipMessage)
    requires WellFormed(codec, m)
    ensures FrameableMessage(m)
  {
    hide NewTyped, Canonical, StartText, ParseStatusLine, ParseRequestLine, LengthIn, GoodStart, HeaderLine, Frameable, Get, Render;
    StartRoundTrip(m.start, defaultReason);
  }

  lemma StreamRoundTrip(codec: Codec, defaultReason: int -> string, messages: seq<SipMessage>, i: nat)
    requires i < |messages| && forall k :: 0 <= k < |messages| ==> WellFormed(codec, messages[k])
    ensures var frames := Frame(Concat(RenderAll(messages)));
            && |frames.messages| == |messages| && frames.rest == "" && frames.status == Waiting
            && var parsed := ParseMessage(codec, defaultReason, frames.messages[i]);
               && parsed.Ok? && parsed.value.start == messages[i].start && parsed.value.body == messages[i].body
               && Pairs(parsed.value.headers) == Pairs(WireHeaders(messages[i]))
  {
    hide WellFormed, FrameableMessage, ParseMessage, Render, Frame, WireHeaders;
    forall k | 0 <= k < |messages| ensures FrameableMessage(messages[k]) {
      WellFormedIsFrameable(codec, defaultReason, messages[k]);
    }
    PrintThenFrame(messages);
    PrintThenParse(codec, defaultReason, messages[i]);
  }
}
