/** Messages and their wire text (message.go: StartLine, SetBody, render), and how the stream splitter takes
    rendered messages apart again. */
module Messages {
  import opened Basics
  import opened Text
  import opened HeaderNames
  import opened Headers
  import opened Framing
  import U = Uris

  datatype Start =
    | RequestLine(verb: string, uri: U.Uri, proto: string)
    | StatusLine(proto: string, code: int, reason: string)

  datatype SipMessage = SipMessage(start: Start, headers: seq<Header>, body: string)

  function StartText(start: Start): string {
    match start
    case RequestLine(verb, uri, proto) => verb + [' '] + (U.Print(uri) + [' '] + proto)
    case StatusLine(proto, code, reason) => proto + [' '] + (Itoa(code) + [' '] + reason)
  }

  function HeaderLine(h: Header): string { h.Name() + [':'] + ([' '] + h.Value()) }

  function HeaderLines(headers: seq<Header>): seq<string> {
    seq(|headers|, i requires 0 <= i < |headers| => HeaderLine(headers[i]))
  }

  /** Lines, each with its line break. */
  function Block(lines: seq<string>): string {
    if lines == [] then "" else lines[0] + CRLF + Block(lines[1..])
  }

  /** The headers on the wire: render adds a Content-Length when a body has none. */
  function WireHeaders(m: SipMessage): seq<Header> {
    if m.body != "" && Get(m.headers, "Content-Length").None?
    then m.headers + [ContentLength(|m.body|)]
    else m.headers
  }

  function HeadLines(m: SipMessage): seq<string> { [StartText(m.start)] + HeaderLines(WireHeaders(m)) }

  function Render(m: SipMessage): string { Block(HeadLines(m)) + CRLF + m.body }

  // ------------------------------------------------------------------ the buffer loop of render

  lemma {:induction false} BlockSnoc(lines: seq<string>, line: string)
    ensures Block(lines + [line]) == Block(lines) + line + CRLF
  {
    if lines == [] {
      assert [] + [line] == [line] && [line][1..] == [];
    } else {
      BlockSnoc(lines[1..], line);
      assert (lines + [line])[1..] == lines[1..] + [line];
    }
  }

  method RenderMessage(m: SipMessage) returns (b: string)
    ensures b == Render(m)
  {
    hide StartText, Get, Header.Value, Header.Name;
    b := StartText(m.start);
    b := b + CRLF;
    ghost var lines := [StartText(m.start)];
    assert lines[1..] == [] && Block(lines) == b;
    for i := 0 to |m.headers|
      invariant lines == [StartText(m.start)] + HeaderLines(m.headers[..i])
      invariant b == Block(lines)
    {
      var line := m.headers[i].Name() + [':'] + ([' '] + m.headers[i].Value());
      BlockSnoc(lines, line);
      assert HeaderLines(m.headers[..i + 1]) == HeaderLines(m.headers[..i]) + [line];
      b := b + line + CRLF;
      lines := lines + [line];
    }
    assert m.headers[..|m.headers|] == m.headers;
    if |m.body| > 0 && Get(m.headers, "Content-Length").None? {
      var h := ContentLength(|m.body|);
      var line := HeaderLine(h);
      BlockSnoc(lines, line);
      assert HeaderLines(m.headers + [h]) == HeaderLines(m.headers) + [line];
      b := b + line + CRLF;
      lines := lines + [line];
    }
    assert lines == HeadLines(m);
    b := b + CRLF + m.body;
  }

  // ------------------------------------------------------------------ SetBody

  /** The headers after SetBody; a nil body is None. */
  function WithBody(headers: seq<Header>, contentType: string, body: Option<string>): seq<Header> {
    match body
    case None => Others(Others(headers, "Content-Length"), "Content-Type")
    case Some(text) =>
      var sized := Replace(headers, ContentLength(|text|));
      if contentType == "" then sized else Replace(sized, Generic("Content-Type", contentType))
  }

  /** Every header named Content-Length is the typed one with the length of the body. */
  predicate LengthsAgree(headers: seq<Header>, body: string) {
    forall h :: h in All(headers, "Content-Length") ==> h == ContentLength(|body|)
  }

  lemma LengthNames()
    ensures Canonical("Content-Length") == "Content-Length" && Canonical("Content-Type") == "Content-Type"
    ensures "Content-Length" != "Content-Type"
  {
    LengthKeyed();
    SelfIsCanonical("Content-Length");
    SelfIsCanonical("Content-Type");
  }

  /** Whatever the headers were before, after SetBody the declared length is the length of the body. */
  lemma SetBodyAgrees(headers: seq<Header>, contentType: string, body: Option<string>)
    ensures body.Some? ==> All(WithBody(headers, contentType, body), "Content-Length") == [ContentLength(|body.value|)]
    ensures body.None? ==> All(WithBody(headers, contentType, body), "Content-Length") == []
    ensures LengthsAgree(WithBody(headers, contentType, body), if body.Some? then body.value else "")
    ensures body.None? ==> All(WithBody(headers, contentType, body), "Content-Type") == []
    ensures body.Some? ==> All(WithBody(headers, contentType, body), "Content-Type") ==
                             if contentType == "" then All(headers, "Content-Type") else [Generic("Content-Type", contentType)]
  {
    hide Canonical, All, Others, Replace;
    LengthNames();
    match body
    case None =>
      OthersHasNone(Others(headers, "Content-Length"), "Content-Type");
      OthersHasNone(headers, "Content-Length");
      OthersKeepsNames(Others(headers, "Content-Length"), "Content-Type", "Content-Length");
    case Some(text) =>
      ReplaceRefinesMultimap(headers, ContentLength(|text|));
      ReplaceRefinesMultimap(Replace(headers, ContentLength(|text|)), Generic("Content-Type", contentType));
      GetOtherAfterReplace(headers, ContentLength(|text|), "Content-Type");
      GetOtherAfterReplace(Replace(headers, ContentLength(|text|)), Generic("Content-Type", contentType), "Content-Length");
  }

  /** Render adds a Content-Length, at the end and with the body's length, exactly when there is a body and none. */
  lemma RenderAddsLengthExactlyWhen(m: SipMessage)
    ensures WireHeaders(m) != m.headers <==> m.body != "" && All(m.headers, "Content-Length") == []
    ensures WireHeaders(m) != m.headers ==> WireHeaders(m) == m.headers + [ContentLength(|m.body|)]
  {
    hide Get, All;
    GetIsFirst(m.headers, "Content-Length");
    assert |m.headers + [ContentLength(|m.body|)]| != |m.headers|;
  }

  /** SetBody touches no other header. */
  lemma SetBodyKeepsOthers(headers: seq<Header>, contentType: string, body: Option<string>, name: string)
    requires Canonical(name) != "Content-Length" && Canonical(name) != "Content-Type"
    ensures All(WithBody(headers, contentType, body), name) == All(headers, name)
  {
    hide Canonical, All, Others, Replace;
    LengthNames();
    match body
    case None =>
      OthersKeepsNames(headers, "Content-Length", name);
      OthersKeepsNames(Others(headers, "Content-Length"), "Content-Type", name);
    case Some(text) =>
      GetOtherAfterReplace(headers, ContentLength(|text|), name);
      GetOtherAfterReplace(Replace(headers, ContentLength(|text|)), Generic("Content-Type", contentType), name);
  }

  // ------------------------------------------------------------------ where a rendered head ends

  predicate GoodLine(line: string) { line != "" && CR !in line && LF !in line }

  predicate GoodLines(lines: seq<string>) { forall i :: 0 <= i < |lines| ==> GoodLine(lines[i]) }

  lemma NoBlankInLine(line: string, rest: string)
    requires GoodLine(line) && rest != ""
    ensures forall k: nat :: k < |line| ==> !CrlfAt(line + CRLF + rest, k)
    ensures CrlfAt(line + CRLF + rest, |line|)
    ensures rest[0] != CR ==> forall k: nat :: k < |line| + 2 ==> !BlankAt(line + CRLF + rest, k)
    ensures forall k: nat :: BlankAt(line + CRLF + rest, |line| + 2 + k) <==> BlankAt(rest, k)
  {
    var s := line + CRLF + rest;
    assert forall k :: 0 <= k < |line| ==> s[k] == line[k] && line[k] in line;
    assert forall k :: 0 <= k < |rest| ==> s[|line| + 2 + k] == rest[k];
    assert s[|line|] == CR && s[|line| + 1] == LF;
  }

  lemma FirstBlank(s: string, i: nat)
    requires i <= |s| && BlankAt(s, i) && forall k: nat :: k < i ==> !BlankAt(s, k)
    ensures FindBlank(s, 0) == i
  {
  }

  lemma FirstCrlf(s: string, i: nat)
    requires i <= |s| && CrlfAt(s, i) && forall k: nat :: k < i ==> !CrlfAt(s, k)
    ensures FindCrlf(s, 0) == i
  {
  }

  /** The first empty line of a rendered message is the one that ends its head, whatever the body holds. */
  lemma {:induction false} HeadEnd(lines: seq<string>, body: string)
    requires lines != [] && GoodLines(lines)
    ensures |Block(lines)| >= 2
    ensures forall k: nat :: k < |Block(lines)| - 2 ==> !BlankAt(Block(lines) + CRLF + body, k)
    ensures BlankAt(Block(lines) + CRLF + body, |Block(lines)| - 2)
    decreases |lines|
  {
    var line, later := lines[0], Block(lines[1..]);
    var rest := later + CRLF + body;
    assert Block(lines) + CRLF + body == line + CRLF + rest;
    NoBlankInLine(line, rest);
    if |lines| == 1 {
      assert later == "" && rest[0] == CR && CrlfAt(rest, 0);
      assert CrlfAt(line + CRLF + rest, |line| + 2);
    } else {
      assert rest[0] == lines[1][0] && lines[1][0] in lines[1];
      HeadEnd(lines[1..], body);
      forall k: nat | |line| + 2 <= k < |Block(lines)| - 2 ensures !BlankAt(line + CRLF + rest, k) {
        assert !BlankAt(rest, k - (|line| + 2));
      }
    }
  }

  lemma LastLines()
    ensures Lines(CRLF) == ["", ""]
  {
    FirstCrlf(CRLF, 0);
    assert FindCrlf("", 0) == -1;
    assert CRLF[..0] == "" && CRLF[2..] == "";
  }

  lemma LinesCons(line: string, rest: string)
    requires GoodLine(line) && rest != ""
    ensures Lines(line + CRLF + rest) == [line] + Lines(rest)
  {
    hide BlankAt;
    NoBlankInLine(line, rest);
    FirstCrlf(line + CRLF + rest, |line|);
    assert (line + CRLF + rest)[..|line|] == line && (line + CRLF + rest)[|line| + 2..] == rest;
  }

  lemma {:induction false} HeadLinesSplit(lines: seq<string>)
    requires GoodLines(lines)
    ensures Lines(Block(lines) + CRLF) == lines + ["", ""]
    decreases |lines|
  {
    hide Lines, BlankAt, CrlfAt;
    if lines == [] {
      assert Block(lines) + CRLF == CRLF;
      LastLines();
      assert [] + ["", ""] == ["", ""];
    } else {
      var line, rest := lines[0], Block(lines[1..]) + CRLF;
      assert Block(lines) + CRLF == line + CRLF + rest;
      LinesCons(line, rest);
      HeadLinesSplit(lines[1..]);
      assert [line] + (lines[1..] + ["", ""]) == lines + ["", ""];
    }
  }

  // ------------------------------------------------------------------ the declared length of a rendered head

  lemma {:induction false} TrimRightKeeps(s: string, i: nat)
    requires i < |s| && !IsSpace(s[i])
    ensures |TrimRight(s)| > i
  {
    if IsSpace(s[|s| - 1]) {
      TrimRightKeeps(s[..|s| - 1], i);
    }
  }

  lemma NothingToCut(line: string, c: char)
    requires c !in line
    ensures Cut(line, c) == (line, "", false)
  {
    hide IndexOf;
  }

  lemma TwoWordsName(word: string, more: string)
    requires word != "" && SpaceFree(word) && more != "" && !IsSpace(more[0])
    ensures Canonical(word + [' '] + more) != "Content-Length"
  {
    hide Canonical, TrimRight, IsSpace;
    var name := word + [' '] + more;
    var trimmed := TrimSpace(name);
    assert TrimLeft(name) == name;
    assert name[|word| + 1] == more[0];
    TrimRightKeeps(name, |word| + 1);
    assert trimmed[|word|] == ' ' && Lower(trimmed)[|word|] == ' ';
    ContentLengthNames(name);
    assert ' ' !in "content-length" && ' ' !in "l";
  }

  /** A line that starts with two words before any colon is not a Content-Length line. */
  lemma TwoWordsAreNoLength(word: string, rest: string)
    requires word != "" && SpaceFree(word) && ':' !in word
    requires rest != "" && !IsSpace(rest[0]) && rest[0] != ':'
    ensures LengthIn(word + [' '] + rest) == NoLength
  {
    hide Canonical, Atoi, Cut, IndexOf;
    var line := word + [' '] + rest;
    var colon := IndexOf(rest, ':');
    if colon < 0 {
      assert ':' !in line;
      NothingToCut(line, ':');
    } else {
      var name := word + [' '] + rest[..colon];
      assert line == name + [':'] + rest[colon + 1..];
      CutAt(name, ':', rest[colon + 1..]);
      TwoWordsName(word, rest[..colon]);
    }
    hide *;
  }

  /** The length that a header line declares. */
  lemma HeaderLineLength(h: Header)
    requires ':' !in h.Name()
    ensures !Named(h, "Content-Length") ==> LengthIn(HeaderLine(h)) == NoLength
    ensures h.ContentLength? && h.length < INT_BOUND ==> LengthIn(HeaderLine(h)) == Length(h.length)
  {
    hide Canonical, Atoi, Numeral;
    LengthNames();
    CutAt(h.Name(), ':', [' '] + h.Value());
    if h.ContentLength? && h.length < INT_BOUND {
      AtoiItoa(h.length);
      assert Itoa(h.length) == h.Value();
      SpaceThenTrimmed(h.Value());
    }
  }

  lemma SpaceThenTrimmed(v: string)
    requires SpaceFree(v)
    ensures TrimSpace([' '] + v) == v
  {
    assert ([' '] + v)[1..] == v;
    assert TrimLeft([' '] + v) == v;
  }

  /** Headers of a message that can be framed. */
  predicate Frameable(h: Header, body: string) {
    && ':' !in h.Name() && CR !in h.Name() && LF !in h.Name() && CR !in h.Value() && LF !in h.Value()
    && (Named(h, "Content-Length") ==> h == ContentLength(|body|))
  }

  lemma {:induction false} HeadersDeclare(headers: seq<Header>, body: string, tail: seq<string>, sofar: int)
    requires |body| < INT_BOUND && forall i :: 0 <= i < |headers| ==> Frameable(headers[i], body)
    ensures DeclaredLength(HeaderLines(headers) + tail, sofar) ==
            DeclaredLength(tail, if Get(headers, "Content-Length").Some? then |body| else sofar)
    decreases |headers|
  {
    hide LengthIn, HeaderLine, Named;
    if headers == [] {
      assert HeaderLines(headers) + tail == tail;
    } else {
      var h, rest := headers[0], headers[1..];
      HeaderLineLength(h);
      var all := HeaderLines(headers) + tail;
      assert all[0] == HeaderLine(h) && all[1..] == HeaderLines(rest) + tail;
      HeadersDeclare(rest, body, tail, if Named(h, "Content-Length") then |body| else sofar);
    }
  }

  predicate FrameableMessage(m: SipMessage) {
    && |m.body| <= MAX_BODY_SIZE
    && GoodLine(StartText(m.start)) && LengthIn(StartText(m.start)) == NoLength
    && forall i :: 0 <= i < |m.headers| ==> Frameable(m.headers[i], m.body)
  }

  lemma WireHeadersFrameable(m: SipMessage)
    requires FrameableMessage(m)
    ensures forall i :: 0 <= i < |WireHeaders(m)| ==> Frameable(WireHeaders(m)[i], m.body)
    ensures Get(WireHeaders(m), "Content-Length").Some? || m.body == ""
  {
    hide Canonical, LengthIn, StartText;
    var h := ContentLength(|m.body|);
    assert Frameable(h, m.body) by { PlainLength(h); }
    GetAfterAdd(m.headers, h, "Content-Length");
  }

  lemma PlainLength(h: Header)
    requires h.ContentLength?
    ensures ':' !in h.Name() && CR !in h.Name() && LF !in h.Name() && CR !in h.Value() && LF !in h.Value()
  {
    ParseUintNumeral(h.length, h.length + 1);
    hide Numeral;
    assert forall i :: 0 <= i < |h.Value()| ==> !IsSpace(h.Value()[i]);
  }

  lemma HeaderLineGood(h: Header, body: string)
    requires Frameable(h, body)
    ensures GoodLine(HeaderLine(h))
  {
    hide Named, Header.Value, Header.Name;
  }

  lemma HeadLinesGood(m: SipMessage)
    requires FrameableMessage(m)
    ensures GoodLines(HeadLines(m))
  {
    hide LengthIn, StartText, WireHeaders, Frameable, GoodLine, HeaderLine, FrameableMessage;
    WireHeadersFrameable(m);
    StartLineGood(m);
    var headers := WireHeaders(m);
    HeaderLinesGood(headers, m.body);
    GoodCons(StartText(m.start), HeaderLines(headers));
  }

  lemma HeaderLinesGood(headers: seq<Header>, body: string)
    requires forall i :: 0 <= i < |headers| ==> Frameable(headers[i], body)
    ensures GoodLines(HeaderLines(headers))
  {
    hide Frameable, GoodLine, HeaderLine;
    forall i | 0 <= i < |headers| ensures GoodLine(HeaderLines(headers)[i]) {
      HeaderLineGood(headers[i], body);
    }
  }

  lemma GoodCons(line: string, lines: seq<string>)
    requires GoodLine(line) && GoodLines(lines)
    ensures GoodLines([line] + lines)
  {
    hide GoodLine;
  }

  lemma StartLineGood(m: SipMessage)
    requires FrameableMessage(m)
    ensures GoodLine(StartText(m.start))
  {
    hide LengthIn, StartText, Frameable;
  }

  lemma HeadDeclaresBody(m: SipMessage)
    requires FrameableMessage(m)
    ensures DeclaredLength(HeadLines(m) + ["", ""], 0) == Ok(|m.body|)
  {
    hide LengthIn, StartText, WireHeaders, Frameable, Get, HeaderLine;
    WireHeadersFrameable(m);
    EmptyLinesDeclareNothing(|m.body|);
    EmptyLinesDeclareNothing(0);
    var all := HeadLines(m) + ["", ""];
    assert all[0] == StartText(m.start) && all[1..] == HeaderLines(WireHeaders(m)) + ["", ""];
    HeadersDeclare(WireHeaders(m), m.body, ["", ""], 0);
  }

  lemma EmptyLinesDeclareNothing(sofar: int)
    ensures DeclaredLength(["", ""], sofar) == Ok(sofar)
  {
    hide LengthIn;
    EmptyLineHasNoLength();
    assert [""][1..] == [] && DeclaredLength([""], sofar) == Ok(sofar);
    assert ["", ""][1..] == [""];
  }

  lemma EmptyLineHasNoLength()
    ensures LengthIn("") == NoLength
  {
    hide Cut, Canonical, Atoi, TrimSpace;
    NothingToCut("", ':');
  }

  /** A rendered message is framed whole. */
  lemma RenderedIsWhole(m: SipMessage)
    requires FrameableMessage(m)
    ensures SplitOne(Render(m)) == Message(|Render(m)|)
  {
    hide LengthIn, StartText, DeclaredLength, Lines, FindBlank, FrameableMessage, Block, BlankAt;
    var lines := HeadLines(m);
    HeadLinesGood(m);
    HeadEnd(lines, m.body);
    var text, head := Render(m), Block(lines) + CRLF;
    FirstBlank(text, |Block(lines)| - 2);
    assert text[..|Block(lines)| - 2 + 4] == head;
    HeadLinesSplit(lines);
    HeadDeclaresBody(m);
    assert |m.body| <= MAX_BODY_SIZE by { BodyFits(m); }
    hide HeadLines, CRLF;
  }

  lemma BodyFits(m: SipMessage)
    requires FrameableMessage(m)
    ensures |m.body| <= MAX_BODY_SIZE
  {
  }

  function RenderAll(messages: seq<SipMessage>): seq<string> {
    seq(|messages|, i requires 0 <= i < |messages| => Render(messages[i]))
  }

  /** Any list of rendered messages, sent as one stream, is split back into exactly those messages, even when
      bodies contain blank lines. */
  lemma PrintThenFrame(messages: seq<SipMessage>)
    requires forall i :: 0 <= i < |messages| ==> FrameableMessage(messages[i])
    ensures Frame(Concat(RenderAll(messages))) == Frames(RenderAll(messages), "", Waiting)
  {
    hide FrameableMessage, Render, SplitOne, Frame;
    forall text | text in RenderAll(messages) ensures SplitOne(text) == Message(|text|) {
      var i :| 0 <= i < |messages| && text == Render(messages[i]);
      RenderedIsWhole(messages[i]);
    }
    WholeMessagesInSequence(RenderAll(messages));
  }
}
