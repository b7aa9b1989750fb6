/** Header blocks that the printer never writes: blanks around names and values, and values folded over several lines
    (parser.go, parseHeaderBlock, setHeaderValue and newTypedHeader), and the lines that are refused. */
module HeaderFolding {
  import opened Basics
  import opened Text
  import opened HeaderNames
  import opened Headers
  import opened HeaderValues
  import opened Framing
  import opened Messages
  import opened MessageParser

  // ------------------------------------------------------------------ a header over several lines

  /** A continuation line: its indent and its text. */
  datatype Continuation = Continuation(indent: string, text: string)

  /** A header as it is written: name, blanks, colon, blanks, value, and the lines that continue it. */
  datatype Field = Field(name: string, before: string, after: string, value: string, more: seq<Continuation>)

  function FirstLine(f: Field): string { f.name + f.before + [':'] + (f.after + f.value) }

  function NextLine(c: Continuation): string { c.indent + c.text }

  predicate GoodText(s: string) { Trimmed(s) && CR !in s && LF !in s }

  predicate GoodContinuation(c: Continuation) {
    c.indent != "" && Blank(c.indent) && GoodText(c.text) && |NextLine(c)| <= MAX_HEADER_LINE_LEN
  }

  predicate GoodField(f: Field) {
    && f.name != "" && GoodText(f.name) && ':' !in f.name && Blank(f.before)
    && Blank(f.after) && GoodText(f.value) && |FirstLine(f)| <= MAX_HEADER_LINE_LEN
    && forall i :: 0 <= i < |f.more| ==> GoodContinuation(f.more[i])
  }

  function MoreText(more: seq<Continuation>): string {
    if more == [] then "" else NextLine(more[0]) + CRLF + MoreText(more[1..])
  }

  function FieldText(f: Field): string { FirstLine(f) + CRLF + MoreText(f.more) }

  /** The texts of the continuation lines, each after one space. */
  function Unfolded(more: seq<Continuation>): string {
    if more == [] then "" else [' '] + more[0].text + Unfolded(more[1..])
  }

  /** The header that the lines stand for: a generic one has its whole value on one line, and a typed one is that of
      its first line. */
  function Meaning(codec: Codec, f: Field): Header {
    match NewTyped(codec, Canonical(f.name), f.value)
    case Generic(name, value) => Generic(name, value + Unfolded(f.more))
    case typed => typed
  }

  // -- line by line

  lemma FirstLineParts(f: Field)
    requires GoodField(f)
    ensures var (name, value, found) := Cut(FirstLine(f), ':');
            found && TrimSpace(name) == f.name && TrimSpace(value) == f.value
    ensures FirstLine(f) != "" && CR !in FirstLine(f) && LF !in FirstLine(f)
    ensures FirstLine(f)[0] != ' ' && FirstLine(f)[0] != TAB
  {
    hide TrimSpace, Cut, GoodContinuation;
    assert ':' !in f.name + f.before;
    CutAt(f.name + f.before, ':', f.after + f.value);
    TrimPad("", f.name, f.before);
    TrimPad(f.after, f.value, "");
    assert "" + f.name + f.before == f.name + f.before && f.after + f.value + "" == f.after + f.value;
    assert FirstLine(f)[0] == f.name[0];
  }

  lemma FirstLineStep(codec: Codec, f: Field, rest: string, headers: seq<Header>, count: nat, cl: int)
    requires GoodField(f) && count < MAX_HEADER_LINES
    ensures var h := NewTyped(codec, Canonical(f.name), f.value);
            ParseBlock(codec, FirstLine(f) + CRLF + rest, headers, count, cl) ==
            ParseBlock(codec, rest, headers + [h], count + 1, if h.ContentLength? then h.length else cl)
  {
    hide NewTyped, Canonical, FirstLine, StripEol, LineLen, Cut, TrimSpace, TakeBody, Fold, GoodContinuation, GoodText;
    FirstLineParts(f);
    ReadBack(FirstLine(f), rest);
  }

  lemma NextLineParts(c: Continuation)
    requires GoodContinuation(c)
    ensures NextLine(c) != "" && CR !in NextLine(c) && LF !in NextLine(c)
    ensures NextLine(c)[0] == ' ' || NextLine(c)[0] == TAB
    ensures TrimSpace(NextLine(c)) == c.text
  {
    hide TrimSpace;
    TrimPad(c.indent, c.text, "");
    assert c.indent + c.text + "" == NextLine(c);
    assert NextLine(c)[0] == c.indent[0];
  }

  lemma NextLineStep(codec: Codec, c: Continuation, rest: string, headers: seq<Header>, count: nat, cl: int)
    requires GoodContinuation(c) && count < MAX_HEADER_LINES && headers != []
    ensures ParseBlock(codec, NextLine(c) + CRLF + rest, headers, count, cl) ==
            ParseBlock(codec, rest, Fold(headers, c.text), count + 1, cl)
  {
    hide NewTyped, Canonical, NextLine, StripEol, LineLen, Cut, TrimSpace, TakeBody, Fold;
    NextLineParts(c);
    ReadBack(NextLine(c), rest);
  }

  function Extended(h: Header, more: seq<Continuation>): Header {
    match h
    case Generic(name, value) => Generic(name, value + Unfolded(more))
    case typed => typed
  }

  lemma ExtendedStep(headers: seq<Header>, h: Header, more: seq<Continuation>)
    requires more != []
    ensures Fold(headers + [h], more[0].text) == headers + [Extended(h, more[..1])]
    ensures Extended(Extended(h, more[..1]), more[1..]) == Extended(h, more)
  {
    assert (headers + [h])[..|headers|] == headers;
    assert more[..1][0] == more[0] && more[..1][1..] == [];
    assert Unfolded(more[..1]) == [' '] + more[0].text + "";
    if h.Generic? {
      assert Extended(h, more[..1]).Value() == h.Value() + [' '] + more[0].text;
    }
  }

  lemma NothingExtends(h: Header)
    ensures Extended(h, []) == h
  {
  }

  lemma {:induction false} MoreLines(codec: Codec, more: seq<Continuation>, rest: string, headers: seq<Header>, h: Header,
                                     count: nat, cl: int)
    requires count + |more| <= MAX_HEADER_LINES && forall i :: 0 <= i < |more| ==> GoodContinuation(more[i])
    ensures ParseBlock(codec, MoreText(more) + rest, headers + [h], count, cl) ==
            ParseBlock(codec, rest, headers + [Extended(h, more)], count + |more|, cl)
    decreases |more|
  {
    hide ParseBlock, GoodContinuation, Fold, Extended, Unfolded, NextLine;
    if more == [] {
      assert MoreText(more) + rest == rest;
      NothingExtends(h);
    } else {
      var later := MoreText(more[1..]) + rest;
      assert MoreText(more) + rest == NextLine(more[0]) + CRLF + later;
      NextLineStep(codec, more[0], later, headers + [h], count, cl);
      ExtendedStep(headers, h, more);
      MoreLines(codec, more[1..], rest, headers, Extended(h, more[..1]), count + 1, cl);
    }
  }

  /** The lines of one header, blanks and continuations included, are read as one header. */
  lemma FieldIsOneHeader(codec: Codec, f: Field, rest: string, headers: seq<Header>, count: nat, cl: int)
    requires GoodField(f) && count + 1 + |f.more| <= MAX_HEADER_LINES
    ensures var h := Meaning(codec, f);
            ParseBlock(codec, FieldText(f) + rest, headers, count, cl) ==
            ParseBlock(codec, rest, headers + [h], count + 1 + |f.more|, if h.ContentLength? then h.length else cl)
  {
    hide ParseBlock, NewTyped, Canonical, FirstLine, MoreText, GoodContinuation, Unfolded;
    var h := NewTyped(codec, Canonical(f.name), f.value);
    assert FieldText(f) + rest == FirstLine(f) + CRLF + (MoreText(f.more) + rest);
    FirstLineStep(codec, f, MoreText(f.more) + rest, headers, count, cl);
    MoreLines(codec, f.more, rest, headers, h, count + 1, if h.ContentLength? then h.length else cl);
  }

  // ------------------------------------------------------------------ a whole block

  function BlockText(fields: seq<Field>): string {
    if fields == [] then "" else FieldText(fields[0]) + BlockText(fields[1..])
  }

  function LineCount(fields: seq<Field>): nat {
    if fields == [] then 0 else 1 + |fields[0].more| + LineCount(fields[1..])
  }

  function Meanings(codec: Codec, fields: seq<Field>): seq<Header> {
    seq(|fields|, i requires 0 <= i < |fields| => Meaning(codec, fields[i]))
  }

  /** The last length that a typed Content-Length gives. */
  function LastLength(headers: seq<Header>, cl: int): int {
    if headers == [] then cl
    else LastLength(headers[1..], match headers[0] case ContentLength(n) => n case _ => cl)
  }

  lemma {:induction false} BlockIsRead(codec: Codec, fields: seq<Field>, rest: string, headers: seq<Header>, count: nat, cl: int)
    requires count + LineCount(fields) <= MAX_HEADER_LINES && forall i :: 0 <= i < |fields| ==> GoodField(fields[i])
    ensures ParseBlock(codec, BlockText(fields) + CRLF + rest, headers, count, cl) ==
            TakeBody(rest, headers + Meanings(codec, fields), LastLength(Meanings(codec, fields), cl))
    decreases |fields|
  {
    hide ParseBlock, GoodField, Meaning, FieldText, TakeBody;
    if fields == [] {
      assert BlockText(fields) + CRLF + rest == "" + CRLF + rest && headers + Meanings(codec, fields) == headers;
      EmptyLine(codec, rest, headers, count, cl);
    } else {
      var h, later := Meaning(codec, fields[0]), BlockText(fields[1..]) + CRLF + rest;
      assert BlockText(fields) + CRLF + rest == FieldText(fields[0]) + later;
      FieldIsOneHeader(codec, fields[0], later, headers, count, cl);
      BlockIsRead(codec, fields[1..], rest, headers + [h], count + 1 + |fields[0].more|, if h.ContentLength? then h.length else cl);
      var all := Meanings(codec, fields);
      assert all[0] == h && all[1..] == Meanings(codec, fields[1..]);
      assert headers + [h] + all[1..] == headers + all;
    }
  }

  lemma EmptyLine(codec: Codec, rest: string, headers: seq<Header>, count: nat, cl: int)
    ensures ParseBlock(codec, "" + CRLF + rest, headers, count, cl) == TakeBody(rest, headers, cl)
  {
    hide TakeBody, StripEol, LineLen;
    ReadBack("", rest);
  }

  /** Any header block of at most 128 lines, however it is spaced and folded, is read header by header: the body is as
      long as the last Content-Length says, nothing without one, and the block is refused exactly when that length is
      over the limit or the text is too short. */
  lemma FoldedBlockIsRead(codec: Codec, fields: seq<Field>, rest: string)
    requires LineCount(fields) <= MAX_HEADER_LINES && forall i :: 0 <= i < |fields| ==> GoodField(fields[i])
    ensures var headers := Meanings(codec, fields);
            var n := LastLength(headers, 0);
            var result := ParseBlock(codec, BlockText(fields) + CRLF + rest, [], 0, -1);
            && (0 <= n <= MAX_BODY_SIZE && n <= |rest| ==> result == Ok(Parsed(headers, rest[..n])))
            && (n > MAX_BODY_SIZE || n > |rest| ==> result == Err)
  {
    hide ParseBlock, GoodField, Meaning, BlockText;
    BlockIsRead(codec, fields, rest, [], 0, -1);
    var headers := Meanings(codec, fields);
    assert [] + headers == headers;
    LengthDefault(headers, -1);
  }

  lemma {:induction false} LengthDefault(headers: seq<Header>, cl: int)
    requires cl < 0
    ensures LastLength(headers, 0) >= 0
    ensures LastLength(headers, cl) == LastLength(headers, 0) || (LastLength(headers, cl) == cl && LastLength(headers, 0) == 0)
    decreases |headers|
  {
    if headers != [] {
      if headers[0].ContentLength? {
        LengthIsNat(headers[1..], headers[0].length);
      } else {
        LengthDefault(headers[1..], cl);
      }
    }
  }

  lemma {:induction false} LengthIsNat(headers: seq<Header>, cl: nat)
    ensures LastLength(headers, cl) >= 0
    decreases |headers|
  {
    if headers != [] {
      LengthIsNat(headers[1..], match headers[0] case ContentLength(n) => n case _ => cl);
    }
  }

  // ------------------------------------------------------------------ folding changes nothing in a generic header

  predicate TypedName(name: string) {
    name == "CSeq" || name == "Content-Length" || name == "Max-Forwards" || name in STRUCTURED
  }

  /** A header is generic when its name has no type, and keeps its text when its value does not parse. */
  lemma GenericKeepsText(codec: Codec, name: string, value: string)
    ensures !TypedName(name) ==> NewTyped(codec, name, value) == Generic(name, value)
    ensures NewTyped(codec, name, value).Generic? ==> NewTyped(codec, name, value) == Generic(name, value)
  {
    hide ParseCSeq, ParseContentLength, ParseMaxForwards;
    ParsedAreTyped(value);
  }

  lemma ParsedAreTyped(s: string)
    ensures ParseCSeq(s).Some? ==> ParseCSeq(s).value.CSeq?
    ensures ParseContentLength(s).Some? ==> ParseContentLength(s).value.ContentLength?
    ensures ParseMaxForwards(s).Some? ==> ParseMaxForwards(s).value.MaxForwards?
  {
  }

  /** Moving the end of a value, from a space on, to a line of its own does not change the header, whenever its first
      part alone does not parse as a typed value; so never under a name without a type. */
  lemma FoldingKeepsMeaning(codec: Codec, f: Field, a: string, b: string, indent: string)
    requires f.value == a + [' '] + b && f.more == [] && NewTyped(codec, Canonical(f.name), f.value).Generic?
    ensures var folded := f.(value := a, more := [Continuation(indent, b)]);
            && (NewTyped(codec, Canonical(f.name), a).Generic? ==> Meaning(codec, folded) == Meaning(codec, f))
            && (!TypedName(Canonical(f.name)) ==> Meaning(codec, folded) == Meaning(codec, f))
  {
    hide NewTyped, Canonical;
    GenericKeepsText(codec, Canonical(f.name), f.value);
    GenericKeepsText(codec, Canonical(f.name), a);
    var more := [Continuation(indent, b)];
    assert more[1..] == [] && Unfolded(more) == [' '] + b + Unfolded([]);
  }

  /** Under a typed name the end of the value is lost when the first part parses: this CSeq is read as 1 INVITE. */
  lemma FoldOfTypedIsLost(codec: Codec, b: string)
    ensures var f := Field("CSeq", "", "", "1 INVITE", [Continuation(" ", b)]);
            Meaning(codec, f) == CSeq(1, "INVITE")
  {
    hide ParseCSeq, Canonical;
    KeyedNames();
    SelfIsCanonical("CSeq");
    assert Upper("INVITE") == "INVITE";
    CSeqRoundTrip(1, "INVITE");
    assert CSeq(1, "INVITE").Value() == "1 INVITE" by { assert Numeral(1, 10) == "1"; }
  }

  // ------------------------------------------------------------------ a whole message

  function AsField(h: Header): Field { Field(h.Name(), "", " ", h.Value(), []) }

  function AsFields(headers: seq<Header>): seq<Field> {
    seq(|headers|, i requires 0 <= i < |headers| => AsField(headers[i]))
  }

  lemma {:induction false} RenderedAsFields(headers: seq<Header>)
    ensures BlockText(AsFields(headers)) == Block(HeaderLines(headers)) && LineCount(AsFields(headers)) == |headers|
    decreases |headers|
  {
    hide Header.Name, Header.Value;
    if headers != [] {
      RenderedAsFields(headers[1..]);
      assert AsFields(headers)[1..] == AsFields(headers[1..]) && HeaderLines(headers)[1..] == HeaderLines(headers[1..]);
      var h := headers[0];
      assert FirstLine(AsField(h)) == HeaderLine(h);
      assert FieldText(AsField(h)) == HeaderLine(h) + CRLF;
    }
  }

  lemma GoodHeaderIsField(codec: Codec, h: Header, body: string)
    requires GoodHeader(codec, h, body)
    ensures GoodField(AsField(h))
  {
    hide NewTyped, Canonical, Header.Name, Header.Value;
    assert FirstLine(AsField(h)) == HeaderLine(h);
  }

  /** The fields of a message with the i-th one folded. */
  function FoldedFields(m: SipMessage, i: nat, a: string, b: string, indent: string): seq<Field>
    requires i < |WireHeaders(m)|
  {
    var fields := AsFields(WireHeaders(m));
    fields[i := fields[i].(value := a, more := [Continuation(indent, b)])]
  }

  function FoldedText(m: SipMessage, i: nat, a: string, b: string, indent: string): string
    requires i < |WireHeaders(m)|
  {
    StartText(m.start) + CRLF + (BlockText(FoldedFields(m, i, a, b, indent)) + CRLF + m.body)
  }

  lemma {:induction false} LinesOfUpdate(fields: seq<Field>, i: nat, f: Field)
    requires i < |fields| && |f.more| == |fields[i].more| + 1
    ensures LineCount(fields[i := f]) == LineCount(fields) + 1
    decreases |fields|
  {
    if i == 0 {
      assert fields[i := f][1..] == fields[1..];
    } else {
      assert fields[i := f][1..] == fields[1..][i - 1 := f];
      LinesOfUpdate(fields[1..], i - 1, f);
    }
  }

  lemma FoldedBlockIsTheSame(codec: Codec, m: SipMessage, i: nat, a: string, b: string, indent: string)
    requires WellFormed(codec, m) && i < |WireHeaders(m)| < MAX_HEADER_LINES
    requires var h := WireHeaders(m)[i]; h.Value() == a + [' '] + b && !TypedName(h.Name())
    requires GoodText(a) && GoodContinuation(Continuation(indent, b))
    ensures ParseBlock(codec, BlockText(FoldedFields(m, i, a, b, indent)) + CRLF + m.body, [], 0, -1) ==
            ParseBlock(codec, Block(HeaderLines(WireHeaders(m))) + CRLF + m.body, [], 0, -1)
  {
    hide ParseBlock, WellFormed, GoodHeader, WireHeaders, NewTyped, Canonical, Meaning, TypedName, BlockText, Block,
      HeaderLines, GoodContinuation, GoodText, Header.Name, Header.Value, TakeBody, LastLength, Get, Complete;
    WireHeadersGood(codec, m);
    var headers := WireHeaders(m);
    var fields, folded := AsFields(headers), FoldedFields(m, i, a, b, indent);
    RenderedAsFields(headers);
    forall k | 0 <= k < |headers| ensures GoodField(fields[k]) {
      GoodHeaderIsField(codec, headers[k], m.body);
    }
    FoldedIsGood(fields[i], a, b, indent);
    LinesOfUpdate(fields, i, folded[i]);
    hide GoodField;
    SameMeaning(codec, headers[i], m.body, a, b, indent);
    assert Meanings(codec, folded) == Meanings(codec, fields);
    BlockIsRead(codec, fields, m.body, [], 0, -1);
    BlockIsRead(codec, folded, m.body, [], 0, -1);
  }

  lemma FoldedIsGood(f: Field, a: string, b: string, indent: string)
    requires GoodField(f) && f.value == a + [' '] + b && GoodText(a) && GoodContinuation(Continuation(indent, b))
    ensures GoodField(f.(value := a, more := [Continuation(indent, b)]))
  {
    hide GoodText, GoodContinuation;
  }

  lemma SameMeaning(codec: Codec, h: Header, body: string, a: string, b: string, indent: string)
    requires GoodHeader(codec, h, body) && h.Value() == a + [' '] + b && !TypedName(h.Name())
    ensures Meaning(codec, AsField(h).(value := a, more := [Continuation(indent, b)])) == Meaning(codec, AsField(h))
  {
    hide NewTyped, Header.Name, Header.Value, Frameable, HeaderLine;
    GenericKeepsText(codec, h.Name(), h.Value());
    FoldingKeepsMeaning(codec, AsField(h), a, b, indent);
  }

  /** For every well-formed message and every header of it without a type: breaking the line at a space inside the
      value parses to the very same message, as long as the line and the bytes it adds stay within the limits. */
  lemma FoldThenParse(codec: Codec, defaultReason: int -> string, m: SipMessage, i: nat, a: string, b: string, indent: string)
    requires WellFormed(codec, m) && i < |WireHeaders(m)| < MAX_HEADER_LINES
    requires var h := WireHeaders(m)[i]; h.Value() == a + [' '] + b && !TypedName(h.Name())
    requires GoodText(a) && GoodContinuation(Continuation(indent, b))
    requires 8 <= |FoldedText(m, i, a, b, indent)| <= MAX_MESSAGE_SIZE
    ensures var parsed := ParseMessage(codec, defaultReason, FoldedText(m, i, a, b, indent));
            && parsed == ParseMessage(codec, defaultReason, Render(m))
            && parsed.Ok? && parsed.value.start == m.start && parsed.value.body == m.body
            && Pairs(parsed.value.headers) == Pairs(WireHeaders(m))
  {
    hide ParseBlock, StartText, BlockText, FoldedFields, Block, HeaderLines, WireHeaders, WellFormed, StripEol, LineLen,
      ParseStatusLine, ParseRequestLine, StartOk, Complete, GoodText, GoodContinuation, TypedName, HasSipPrefix, Pairs,
      Header.Name, Header.Value, Render;
    var line := StartText(m.start);
    StartOfWellFormed(codec, defaultReason, m);
    FoldedBlockIsTheSame(codec, m, i, a, b, indent);
    PrintThenParse(codec, defaultReason, m);
    RenderParts(m);
    ReadBack(line, BlockText(FoldedFields(m, i, a, b, indent)) + CRLF + m.body);
    ReadBack(line, Block(HeaderLines(WireHeaders(m))) + CRLF + m.body);
    SizeOfWellFormed(codec, defaultReason, m);
  }

  lemma StartOfWellFormed(codec: Codec, defaultReason: int -> string, m: SipMessage)
    requires WellFormed(codec, m)
    ensures StartText(m.start) != "" && CR !in StartText(m.start) && LF !in StartText(m.start)
  {
    hide GoodStart, StartText, LengthIn, Render, GoodHeader, Complete, WireHeaders;
    StartRoundTrip(m.start, defaultReason);
  }

  lemma SizeOfWellFormed(codec: Codec, defaultReason: int -> string, m: SipMessage)
    requires WellFormed(codec, m)
    ensures 8 <= |Render(m)| <= MAX_MESSAGE_SIZE
  {
    hide ParseMessage, Render, GoodStart, GoodHeader, Complete, WireHeaders;
    PrintThenParse(codec, defaultReason, m);
    AcceptedIsValid(codec, defaultReason, Render(m));
  }

  // ------------------------------------------------------------------ lines that are refused

  lemma ReadAny(line: string, rest: string)
    requires LF !in line && (line == "" || line[|line| - 1] != CR)
    ensures var text := line + CRLF + rest;
            && text != "" && LineLen(text) == |line| + 2
            && StripEol(text[..LineLen(text)]) == line && text[LineLen(text)..] == rest
  {
    hide StripEol;
    var text := line + CRLF + rest;
    assert text == (line + [CR]) + [LF] + rest;
    IndexAt(line + [CR], LF, rest);
    assert text[..|line| + 2] == line + CRLF && text[|line| + 2..] == rest;
    assert line != "" ==> line[|line| - 1] in line;
    StripEolNone(line);
  }

  /** The block is refused at a line with a carriage return inside, one that is too long, one too many, one that
      continues nothing, and one without a colon. */
  lemma RefusedLines(codec: Codec, line: string, rest: string, headers: seq<Header>, count: nat, cl: int)
    requires line != "" && LF !in line && line[|line| - 1] != CR
    requires || CR in line || |line| > MAX_HEADER_LINE_LEN || count >= MAX_HEADER_LINES
             || ((line[0] == ' ' || line[0] == TAB) && headers == [])
             || (line[0] != ' ' && line[0] != TAB && ':' !in line)
    ensures ParseBlock(codec, line + CRLF + rest, headers, count, cl) == Err
  {
    hide StripEol, LineLen, Cut, TrimSpace, Canonical, NewTyped, TakeBody, Fold;
    ReadAny(line, rest);
    if ':' !in line {
      NothingToCut(line, ':');
    }
  }

  // ------------------------------------------------------------------ start lines that the printer does not write

  /** The case of the method does not matter. */
  lemma MethodIgnoresCase(verb: string, uri: U.Uri, proto: string)
    requires GoodStart(RequestLine(Upper(verb), uri, proto)) && SpaceFree(verb)
    ensures ParseRequestLine(verb + [' '] + (U.Print(uri) + [' '] + proto)) == Ok(RequestLine(Upper(verb), uri, proto))
  {
    hide U.Print, U.Parse, U.WellFormed, Fields, Upper;
    U.RoundTrip(uri);
    var text := U.Print(uri);
    assert text != "" by { PrintedUriStart(uri); }
    assert verb != "" by { UpperOfNothing(); }
    FieldsCons(verb, text + [' '] + proto);
    FieldsCons(text, proto);
    FieldsWord(proto);
  }

  lemma UpperOfNothing()
    ensures Upper("") == ""
  {
  }

  /** A status line without a reason gets the default one of its code. */
  lemma MissingReasonIsDefault(proto: string, code: int, defaultReason: int -> string)
    requires ' ' !in proto && 100 <= code <= 699
    ensures ParseStatusLine(proto + [' '] + Itoa(code), defaultReason) == Ok(StatusLine(proto, code, defaultReason(code)))
    ensures ParseStatusLine(proto + [' '] + (Itoa(code) + [' '] + ""), defaultReason) == Ok(StatusLine(proto, code, defaultReason(code)))
  {
    hide Atoi, Itoa, Cut, SpaceFree;
    AtoiItoa(code);
    var digits := Itoa(code);
    assert ' ' !in digits by { FreeHasNoSpace(digits); }
    CutAt(proto, ' ', digits);
    CutAt(proto, ' ', digits + [' '] + "");
    CutAt(digits, ' ', "");
    NothingToCut(digits, ' ');
  }

  lemma FreeHasNoSpace(s: string)
    requires SpaceFree(s)
    ensures ' ' !in s
  {
  }

  /** The method of a CSeq is read in upper case, with any spacing between its two words. */
  lemma CSeqIgnoresCase(n: nat, verb: string)
    requires n < UINT32_BOUND && verb != "" && SpaceFree(verb)
    ensures ParseCSeq(Numeral(n, 10) + [' '] + verb) == Some(CSeq(n, Upper(verb)))
  {
    hide Numeral, Fields, Upper, ParseUint;
    ParseUintNumeral(n, UINT32_BOUND);
    FieldsCons(Numeral(n, 10), verb);
    FieldsWord(verb);
  }
}
