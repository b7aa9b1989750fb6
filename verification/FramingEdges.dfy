/** Inputs on which the stream splitter does not do what its callers expect (parser.go, StreamSplitter and splitOne). */
module FramingEdges {
  import opened Basics
  import opened Text
  import opened HeaderNames
  import opened Framing
  import opened Messages

  /** A header block of one line, without a body. */
  function OneLine(line: string): string { line + CRLF + CRLF }

  lemma OneLineHead(line: string)
    requires GoodLine(line)
    ensures FindBlank(OneLine(line), 0) == |line|
    ensures Lines(OneLine(line)[..|line| + 4]) == [line, "", ""]
  {
    hide FindBlank, Lines, BlankAt;
    var lines := [line];
    assert lines[1..] == [] && Block(lines) == line + CRLF;
    HeadEnd(lines, "");
    assert Block(lines) + CRLF + "" == OneLine(line);
    FirstBlank(OneLine(line), |line|);
    HeadLinesSplit(lines);
    assert OneLine(line)[..|line| + 4] == OneLine(line) == Block(lines) + CRLF;
    assert lines + ["", ""] == [line, "", ""];
  }

  lemma OneLineDeclares(line: string)
    requires GoodLine(line)
    ensures Declared(OneLine(line)) ==
            match LengthIn(line) case NoLength => Ok(0) case BadLength => Err case Length(n) => Ok(n)
  {
    hide FindBlank, Lines, LengthIn;
    OneLineHead(line);
    assert [line, "", ""][1..] == ["", ""];
    EmptyLinesDeclareNothing(0);
    match LengthIn(line)
    case Length(n) => EmptyLinesDeclareNothing(n);
    case _ =>
  }

  lemma OneLineSplits(line: string)
    requires GoodLine(line)
    ensures SplitOne(OneLine(line)) ==
            match LengthIn(line)
            case NoLength => Message(|line| + 4)
            case BadLength => Bad
            case Length(n) =>
              if n > MAX_BODY_SIZE then Bad
              else if n > 0 then More
              else if |line| + 4 + n < 0 then OutOfRange
              else Message(|line| + 4 + n)
  {
    hide FindBlank, Lines, LengthIn, DeclaredLength;
    OneLineHead(line);
    OneLineDeclares(line);
  }

  // ------------------------------------------------------------------ negative lengths

  /** A Content-Length of minus one digit, in its compact form. */
  function Minus(d: nat): string
    requires 0 < d < 10
  {
    "l:-" + [DigitChar(d)]
  }

  lemma CompactLength()
    ensures Canonical("l") == "Content-Length"
  {
    assert TrimSpace("l") == "l" && Lower("l") == "l";
    ContentLengthNames("l");
  }

  lemma MinusDigit(d: nat)
    requires 0 < d < 10
    ensures Atoi("-" + [DigitChar(d)]) == Some(0 - d) && TrimSpace("-" + [DigitChar(d)]) == "-" + [DigitChar(d)]
  {
    hide Atoi, TrimSpace, SpaceFree;
    var s := "-" + [DigitChar(d)];
    assert Numeral(d, 10) == [DigitChar(d)] && Itoa(0 - d) == s;
    AtoiItoa(0 - d);
    TrimFree(s);
  }

  lemma MinusLength(d: nat)
    requires 0 < d < 10
    ensures GoodLine(Minus(d)) && |Minus(d)| == 4 && LengthIn(Minus(d)) == Length(0 - d)
  {
    hide Canonical, Atoi, TrimSpace, Cut;
    CompactLength();
    MinusDigit(d);
    assert Minus(d) == "l" + [':'] + ("-" + [DigitChar(d)]);
    CutAt("l", ':', "-" + [DigitChar(d)]);
  }

  /** The header block of eight bytes is cut by its own length: up to seven bytes are lost to the next message, with
      eight the same empty message is taken for ever, and with nine the code panics. */
  lemma NegativeLengthCuts(d: nat)
    requires 0 < d < 10
    ensures SplitOne(OneLine(Minus(d))) == if d == 9 then OutOfRange else Message(8 - d)
    ensures d >= 8 ==> Frame(OneLine(Minus(d))) == Frames([], OneLine(Minus(d)), Stalled)
    ensures 4 < d < 8 ==> Frame(OneLine(Minus(d))).messages != [] && |Frame(OneLine(Minus(d))).messages[0]| < 4
  {
    hide SplitOne, LengthIn, Frame;
    MinusLength(d);
    OneLineSplits(Minus(d));
    if d < 8 {
      FrameMessage(OneLine(Minus(d)));
    } else {
      StalledHead(OneLine(Minus(d)));
    }
  }

  lemma StalledHead(data: string)
    requires SplitOne(data) == OutOfRange || SplitOne(data) == Message(0)
    ensures Frame(data) == Frames([], data, Stalled)
  {
  }

  // ------------------------------------------------------------------ an error that is forgotten

  lemma BadLengthLine()
    ensures GoodLine("l:x") && LengthIn("l:x") == BadLength
  {
    hide Canonical, Atoi, TrimSpace, Cut;
    CompactLength();
    assert "l:x" == "l" + [':'] + "x";
    CutAt("l", ':', "x");
    NoNumber();
  }

  lemma NoNumber()
    ensures Atoi(TrimSpace("x")) == None
  {
    hide TrimSpace, ValueOf;
    TrimFree("x");
    assert DigitOf("x"[0]) == -1;
  }

  lemma PlainLine()
    ensures GoodLine("a") && LengthIn("a") == NoLength
  {
    assert IndexOf("a", ':') < 0;
  }

  /** A malformed length fails every call, until a chunk overflows the buffer; the next message is framed again. */
  lemma ErrorIsForgotten() returns (buf: string, large: string, message: string)
    ensures SplitOne(buf).Bad? && |buf| <= MAX_MESSAGE_SIZE
    ensures FeedLater(buf, [large, message]) == [Frames([], "", Failed), Frames([message], "", Waiting)]
  {
    hide SplitOne, LengthIn, FeedLater;
    buf, message := OneLine("l:x"), OneLine("a");
    large := seq(MAX_MESSAGE_SIZE, _ => 'x');
    BadLengthLine();
    OneLineSplits("l:x");
    PlainLine();
    OneLineSplits("a");
    OverflowForgetsError(buf, large, message);
  }
}
