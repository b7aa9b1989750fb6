/** Reassembly of a byte stream into messages (parser.go, StreamSplitter and splitOne). */
module Framing {
  import opened Basics
  import opened Text
  import opened HeaderNames

  const MAX_MESSAGE_SIZE: nat := 1048576
  const MAX_BODY_SIZE: nat := 65536

  const CRLF: string := "\r\n"

  predicate CrlfAt(s: string, i: nat) { i + 2 <= |s| && s[i] == '\r' && s[i + 1] == '\n' }

  predicate BlankAt(s: string, i: nat) { CrlfAt(s, i) && CrlfAt(s, i + 2) }

  /** The first line break at or after a position. */
  function FindCrlf(s: string, from: nat): (i: int)
    requires from <= |s|
    ensures i == -1 || (from <= i && CrlfAt(s, i))
    ensures forall k: nat :: from <= k && (i == -1 || k < i) ==> !CrlfAt(s, k)
    decreases |s| - from
  {
    if CrlfAt(s, from) then from else if from == |s| then -1 else FindCrlf(s, from + 1)
  }

  /** The first empty line at or after a position: the end of the header block. */
  function FindBlank(s: string, from: nat): (i: int)
    requires from <= |s|
    ensures i == -1 || (from <= i && BlankAt(s, i))
    ensures forall k: nat :: from <= k && (i == -1 || k < i) ==> !BlankAt(s, k)
    decreases |s| - from
  {
    if BlankAt(s, from) then from else if from == |s| then -1 else FindBlank(s, from + 1)
  }

  /** strings.Split on CRLF. */
  function Lines(s: string): seq<string>
    decreases |s|
  {
    var i := FindCrlf(s, 0);
    if i == -1 then [s] else [s[..i]] + Lines(s[i + 2..])
  }

  // ------------------------------------------------------------------ the length a header block declares

  datatype LineLength = NoLength | BadLength | Length(value: int)

  function LengthIn(line: string): LineLength {
    var (name, value, found) := Cut(line, ':');
    if !found || Canonical(name) != "Content-Length" then NoLength
    else match Atoi(TrimSpace(value)) case None => BadLength case Some(n) => Length(n)
  }

  /** The last length wins, and a malformed one is an error. */
  function DeclaredLength(lines: seq<string>, sofar: int): Result<int> {
    if lines == [] then Ok(sofar)
    else
      match LengthIn(lines[0])
      case NoLength => DeclaredLength(lines[1..], sofar)
      case BadLength => Err
      case Length(n) => DeclaredLength(lines[1..], n)
  }

  predicate NoBadLength(lines: seq<string>) { forall i :: 0 <= i < |lines| ==> !LengthIn(lines[i]).BadLength? }

  /** Any malformed length anywhere fails; otherwise the last length of the block counts, whatever comes before it,
      and a block without one keeps what was given. */
  lemma {:induction false} LastLengthWins(lines: seq<string>, sofar: int)
    ensures DeclaredLength(lines, sofar).Err? <==> !NoBadLength(lines)
    ensures NoBadLength(lines) && (forall i :: 0 <= i < |lines| ==> LengthIn(lines[i]).NoLength?) ==>
              DeclaredLength(lines, sofar) == Ok(sofar)
    ensures forall k :: 0 <= k < |lines| && NoBadLength(lines) && LengthIn(lines[k]).Length?
                        && (forall i :: k < i < |lines| ==> LengthIn(lines[i]).NoLength?) ==>
                          DeclaredLength(lines, sofar) == Ok(LengthIn(lines[k]).value)
  {
    hide LengthIn;
    if lines != [] {
      var first, rest := LengthIn(lines[0]), lines[1..];
      var next := if first.Length? then first.value else sofar;
      LastLengthWins(rest, next);
      assert NoBadLength(lines) <==> !first.BadLength? && NoBadLength(rest) by {
        assert forall i :: 0 <= i < |rest| ==> rest[i] == lines[i + 1];
      }
      forall k | 0 <= k < |lines| && NoBadLength(lines) && LengthIn(lines[k]).Length?
                 && (forall i :: k < i < |lines| ==> LengthIn(lines[i]).NoLength?)
        ensures DeclaredLength(lines, sofar) == Ok(LengthIn(lines[k]).value)
      {
        if k > 0 {
          assert rest[k - 1] == lines[k];
        }
      }
    }
  }

  /** What splitOne finds at the head of the buffer. Atoi accepts a negative length, and the code does not guard
      against one: it cuts the message off inside its own header block, possibly down to no byte at all, and if the
      length reaches back beyond the start of the data the slice is out of range and the code panics. */
  datatype Head = More | Bad | OutOfRange | Message(total: nat)

  function SplitOne(data: string): (h: Head)
    ensures h.Message? ==> h.total <= |data|
  {
    var i := FindBlank(data, 0);
    if i == -1 then More
    else
      match DeclaredLength(Lines(data[..i + 4]), 0)
      case Err => Bad
      case Ok(cl) =>
        if cl > MAX_BODY_SIZE then Bad
        else if |data| < i + 4 + cl then More
        else if i + 4 + cl < 0 then OutOfRange
        else Message(i + 4 + cl)
  }

  /** `panics` stands for the out-of-range slice, after which nothing is returned. */
  method SplitHead(data: string) returns (message: string, rest: string, ok: bool, failed: bool, panics: bool)
    ensures ok <==> SplitOne(data).Message?
    ensures failed <==> SplitOne(data).Bad?
    ensures panics <==> SplitOne(data).OutOfRange?
    ensures ok ==> message == data[..SplitOne(data).total] && rest == data[SplitOne(data).total..]
    ensures !ok ==> message == "" && rest == data
  {
    hide LengthIn;
    var i := FindBlank(data, 0);
    if i == -1 {
      return "", data, false, false, false;
    }
    var lines := Lines(data[..i + 4]);
    var cl := 0;
    for k := 0 to |lines|
      invariant DeclaredLength(lines, 0) == DeclaredLength(lines[k..], cl)
    {
      assert lines[k..][1..] == lines[k + 1..];
      match LengthIn(lines[k])
      case NoLength =>
      case BadLength => return "", data, false, true, false;
      case Length(n) => cl := n;
    }
    if cl > MAX_BODY_SIZE {
      return "", data, false, true, false;
    }
    if |data| < i + 4 + cl {
      return "", data, false, false, false;
    }
    if i + 4 + cl < 0 {
      return "", data, false, false, true;
    }
    return data[..i + 4 + cl], data[i + 4 + cl..], true, false, false;
  }

  // ------------------------------------------------------------------ the whole stream

  /** Why framing stopped: it waits for data, it failed, or Feed never returns, because it panics or takes the
      same empty message again and again. */
  datatype Status = Waiting | Failed | Stalled

  datatype Frames = Frames(messages: seq<string>, rest: string, status: Status)

  /** All the messages at the head of a stream, and why framing stopped. */
  function Frame(data: string): Frames
    decreases |data|
  {
    match SplitOne(data)
    case More => Frames([], data, Waiting)
    case Bad => Frames([], data, Failed)
    case OutOfRange => Frames([], data, Stalled)
    case Message(total) =>
      if total == 0 then Frames([], data, Stalled)
      else
        var later := Frame(data[total..]);
        later.(messages := [data[..total]] + later.messages)
  }

  /** A message of at least one byte stands at the head. */
  predicate Progress(data: string) { SplitOne(data).Message? && SplitOne(data).total > 0 }

  function Concat(parts: seq<string>): string {
    if parts == [] then "" else parts[0] + Concat(parts[1..])
  }

  lemma {:induction false} BlankExtend(a: string, b: string, from: nat)
    requires from <= |a| && FindBlank(a, from) != -1
    ensures FindBlank(a + b, from) == FindBlank(a, from)
    decreases |a| - from
  {
    assert forall k :: 0 <= k < |a| ==> (a + b)[k] == a[k];
    if !BlankAt(a, from) {
      BlankExtend(a, b, from + 1);
    }
  }

  /** A decision about the head of the buffer is never revised by more data. */
  lemma SplitExtend(a: string, b: string)
    requires !SplitOne(a).More?
    ensures SplitOne(a + b) == SplitOne(a)
  {
    var i := FindBlank(a, 0);
    BlankExtend(a, b, 0);
    assert (a + b)[..i + 4] == a[..i + 4];
    hide FindBlank, DeclaredLength, Lines;
  }

  lemma {:induction false} StreamExtend(a: string, b: string)
    ensures Frame(a).status == Waiting ==>
              var later := Frame(Frame(a).rest + b);
              Frame(a + b) == later.(messages := Frame(a).messages + later.messages)
    ensures Frame(a).status != Waiting ==>
              Frame(a + b) == Frames(Frame(a).messages, Frame(a).rest + b, Frame(a).status)
    decreases |a|
  {
    hide SplitOne;
    match SplitOne(a)
    case More =>
      assert [] + Frame(a + b).messages == Frame(a + b).messages;
    case Message(total) =>
      SplitExtend(a, b);
      if total > 0 {
        StreamExtend(a[total..], b);
        assert (a + b)[..total] == a[..total] && (a + b)[total..] == a[total..] + b;
        if Frame(a).status == Waiting {
          var later := Frame(Frame(a).rest + b);
          assert [a[..total]] + (Frame(a[total..]).messages + later.messages) == Frame(a).messages + later.messages;
        }
      }
    case _ => SplitExtend(a, b);
  }

  lemma FrameMessage(data: string)
    requires Progress(data)
    ensures var total := SplitOne(data).total;
            Frame(data) == Frame(data[total..]).(messages := [data[..total]] + Frame(data[total..]).messages)
  {
  }

  lemma NothingFramed(data: string)
    requires !Progress(data)
    ensures Frame(data) == Frames([], data,
                match SplitOne(data) case More => Waiting case Bad => Failed case _ => Stalled)
  {
  }

  lemma ConcatCons(part: string, parts: seq<string>)
    ensures Concat([part] + parts) == part + Concat(parts)
  {
    assert ([part] + parts)[1..] == parts;
  }

  lemma Glue(part: string, parts: seq<string>, rest: string, data: string)
    requires Concat(parts) + rest == data
    ensures Concat([part] + parts) + rest == part + data
  {
    ConcatCons(part, parts);
    hide Concat;
    assert part + Concat(parts) + rest == part + (Concat(parts) + rest);
  }

  /** Nothing is lost or reordered: the messages and the residue, put together, are the stream. */
  lemma {:induction false} StreamConserved(data: string)
    ensures Concat(Frame(data).messages) + Frame(data).rest == data
    decreases |data|
  {
    hide SplitOne, Frame, Concat;
    if Progress(data) {
      var total := SplitOne(data).total;
      FrameMessage(data);
      var later := Frame(data[total..]);
      StreamConserved(data[total..]);
      Glue(data[..total], later.messages, later.rest, data[total..]);
      assert data[..total] + data[total..] == data;
    } else {
      NothingFramed(data);
      ConcatNothing();
      assert "" + data == data;
    }
  }

  lemma ConcatNothing()
    ensures Concat([]) == ""
  {
  }

  /** The length that the head of the data declares. */
  function Declared(data: string): Result<int> {
    var i := FindBlank(data, 0);
    if i == -1 then Err else DeclaredLength(Lines(data[..i + 4]), 0)
  }

  /** Exactly which declared lengths make the code panic, take an empty message, or cut a message below the four
      bytes that end its header block; i is where the empty line stands. */
  lemma ShortExactlyWhen(data: string, i: int, cl: int)
    requires FindBlank(data, 0) == i >= 0 && Declared(data) == Ok(cl)
    ensures SplitOne(data) == OutOfRange <==> cl < -(i + 4)
    ensures SplitOne(data) == Message(0) <==> cl == -(i + 4)
    ensures Progress(data) && SplitOne(data).total < 4 <==> -(i + 4) < cl < -i
  {
    hide FindBlank, DeclaredLength, Lines;
  }

  /** No head along the stream declares a length that reaches back into the four bytes before its empty line's end. */
  predicate LongHeads(data: string)
    decreases |data|
  {
    Progress(data) ==> Declared(data).value >= -FindBlank(data, 0) && LongHeads(data[SplitOne(data).total..])
  }

  /** Every message holds at least the four bytes that end a header block exactly when no head declares less; that
      bounds the number of messages. */
  lemma {:induction false} MessagesAreLongEnough(data: string)
    ensures (forall m :: m in Frame(data).messages ==> |m| >= 4) <==> LongHeads(data)
    ensures LongHeads(data) ==> 4 * |Frame(data).messages| <= |data|
    decreases |data|
  {
    hide Frame, FindBlank, DeclaredLength, Lines, SplitOne;
    if Progress(data) {
      var total := SplitOne(data).total;
      MessagesAreLongEnough(data[total..]);
      FrameMessage(data);
      HeadIsDeclared(data);
      var m, later := data[..total], Frame(data[total..]).messages;
      assert m in [m] + later && forall x :: x in later ==> x in [m] + later;
    } else {
      NothingFramed(data);
    }
  }

  lemma HeadIsDeclared(data: string)
    requires Progress(data)
    ensures Declared(data).Ok? && SplitOne(data).total == FindBlank(data, 0) + 4 + Declared(data).value
  {
    hide FindBlank, DeclaredLength, Lines;
  }

  // ------------------------------------------------------------------ the splitter object

  class StreamSplitter {
    var buf: string

    constructor ()
      ensures buf == ""
    {
      buf := "";
    }

    /** Feed: append a chunk and take every complete message off the front. `stalled` stands for a call that never
        returns. */
    method Feed(data: string) returns (out: seq<string>, failed: bool, stalled: bool)
      modifies this
      ensures var frames := FeedOnce(old(buf), data);
              && out == frames.messages && buf == frames.rest
              && (failed <==> frames.status == Failed) && (stalled <==> frames.status == Stalled)
    {
      hide SplitOne, Frame;
      if |buf| + |data| > MAX_MESSAGE_SIZE {
        buf := "";
        return [], true, false;
      }
      buf := buf + data;
      ghost var frames := Frame(buf);
      out := [];
      while true
        invariant frames == Frame(buf).(messages := out + Frame(buf).messages)
        decreases |buf|
      {
        var message, rest, ok, bad, panics := SplitHead(buf);
        if Progress(buf) {
          FrameMessage(buf);
        } else {
          NothingFramed(buf);
        }
        if bad {
          return out, true, false;
        }
        if panics || (ok && message == "") {
          return out, false, true;
        }
        if !ok {
          return out, false, false;
        }
        ghost var later := Frame(rest).messages;
        assert out + ([message] + later) == out + [message] + later;
        buf := rest;
        out := out + [message];
      }
    }
  }

  /** What one call of Feed leaves, the limit on the buffer included. */
  function FeedOnce(buf: string, data: string): Frames {
    if |buf| + |data| > MAX_MESSAGE_SIZE then Frames([], "", Failed) else Frame(buf + data)
  }

  // ------------------------------------------------------------------ chunking independence

  /** Feeding the chunks one after the other to a fresh splitter: everything emitted, the final buffer, and
      whether any call failed. Each step is what Feed ensures within the size limit. */
  function FeedAll(chunks: seq<string>): Frames {
    if chunks == [] then Frame("")
    else
      var n := |chunks| - 1;
      var before := FeedAll(chunks[..n]);
      var now := Frame(before.rest + chunks[n]);
      Frames(before.messages + now.messages, now.rest, if before.status != Waiting then before.status else now.status)
  }

  lemma {:induction false} ConcatSnoc(parts: seq<string>, part: string)
    ensures Concat(parts + [part]) == Concat(parts) + part
  {
    if parts == [] {
      assert [part][1..] == [];
      assert [] + [part] == [part];
    } else {
      ConcatSnoc(parts[1..], part);
      assert (parts + [part])[1..] == parts[1..] + [part];
      assert parts[0] + (Concat(parts[1..]) + part) == parts[0] + Concat(parts[1..]) + part;
    }
  }

  /** What is left over starts with no complete message; a failed or stuck head stays as it is. */
  lemma {:induction false} RestIsSettled(data: string)
    ensures Frame(Frame(data).rest) == Frames([], Frame(data).rest, Frame(data).status)
    decreases |data|
  {
    hide SplitOne;
    if Progress(data) {
      RestIsSettled(data[SplitOne(data).total..]);
    }
  }

  /** However the stream is cut into chunks, the same messages come out, the same residue stays, and the same
      error (if any) is reported. */
  lemma {:induction false} ChunkingIndependent(chunks: seq<string>)
    ensures FeedAll(chunks) == Frame(Concat(chunks))
  {
    hide Frame, Concat;
    if chunks == [] {
      EmptyStream();
    } else {
      var n := |chunks| - 1;
      var a, b := Concat(chunks[..n]), chunks[n];
      ChunkingIndependent(chunks[..n]);
      assert chunks == chunks[..n] + [b];
      ConcatSnoc(chunks[..n], b);
      StreamExtend(a, b);
      if Frame(a).status != Waiting {
        RestIsSettled(a);
        StreamExtend(Frame(a).rest, b);
        assert Frame(a).messages + [] == Frame(a).messages;
      }
    }
  }

  lemma RestFits(a: string)
    ensures |Frame(a).rest| <= |a|
  {
    StreamConserved(a);
  }

  /** Every chunk fits the limit together with what is left over of the stream before it. */
  predicate Fits(chunks: seq<string>) {
    forall i :: 0 <= i < |chunks| ==> |Frame(Concat(chunks[..i])).rest| + |chunks[i]| <= MAX_MESSAGE_SIZE
  }

  lemma ShortStreamFits(chunks: seq<string>)
    requires |Concat(chunks)| <= MAX_MESSAGE_SIZE
    ensures Fits(chunks)
  {
    hide Frame, Concat;
    forall i | 0 <= i < |chunks| ensures |Frame(Concat(chunks[..i])).rest| + |chunks[i]| <= MAX_MESSAGE_SIZE {
      RestFits(Concat(chunks[..i]));
      ConcatSplit(chunks, i + 1);
      ConcatSnoc(chunks[..i], chunks[i]);
      assert chunks[..i] + [chunks[i]] == chunks[..i + 1];
    }
  }

  /** One more chunk at the end of a stream that has not stalled. */
  lemma FeedExtends(fed: string, chunk: string)
    requires Frame(fed).status != Stalled && |Frame(fed).rest| + |chunk| <= MAX_MESSAGE_SIZE
    ensures var now := FeedOnce(Frame(fed).rest, chunk);
            && Frame(fed + chunk).messages == Frame(fed).messages + now.messages && Frame(fed + chunk).rest == now.rest
            && (Frame(fed + chunk).status == Failed <==> Frame(fed).status == Failed || now.status == Failed)
            && (Frame(fed + chunk).status == Stalled <==> now.status == Stalled)
  {
    hide Frame;
    StreamExtend(fed, chunk);
    RestIsSettled(fed);
    StreamExtend(Frame(fed).rest, chunk);
  }

  /** The same on the object itself: a fresh splitter fed chunk by chunk, however long the stream, emits exactly the
      messages of the whole stream and ends with exactly its residue. */
  method FeedChunks(splitter: StreamSplitter, chunks: seq<string>) returns (out: seq<string>, failed: bool, stalled: bool)
    requires splitter.buf == "" && Fits(chunks)
    modifies splitter
    ensures var frames := Frame(Concat(chunks));
            && out == frames.messages && (!stalled ==> splitter.buf == frames.rest)
            && (failed <==> frames.status == Failed) && (stalled <==> frames.status == Stalled)
  {
    hide Frame, FeedOnce, Concat;
    out, failed, stalled := [], false, false;
    EmptyStream();
    assert chunks[..|chunks|] == chunks;
    ghost var fed := "";
    for i := 0 to |chunks|
      invariant fed == Concat(chunks[..i]) && Frame(fed).status != Stalled && !stalled
      invariant out == Frame(fed).messages && splitter.buf == Frame(fed).rest
      invariant failed <==> Frame(fed).status == Failed
    {
      var chunk := chunks[i];
      assert chunks[..i] + [chunk] == chunks[..i + 1];
      ConcatSnoc(chunks[..i], chunk);
      FeedExtends(fed, chunk);
      var more, bad, stuck := splitter.Feed(chunk);
      out := out + more;
      failed := failed || bad;
      fed := fed + chunk;
      if stuck {
        ConcatSplit(chunks, i + 1);
        StreamExtend(fed, Concat(chunks[i + 1..]));
        return out, false, true;
      }
    }
  }

  lemma EmptyStream()
    ensures Concat([]) == "" && Frame("") == Frames([], "", Waiting)
  {
    assert FindBlank("", 0) == -1;
  }

  lemma {:induction false} ConcatSplit(parts: seq<string>, i: nat)
    requires i <= |parts|
    ensures Concat(parts) == Concat(parts[..i]) + Concat(parts[i..])
  {
    if i == 0 {
      assert parts[0..] == parts;
    } else {
      ConcatSplit(parts, i - 1);
      assert parts[..i] == parts[..i - 1] + [parts[i - 1]];
      ConcatSnoc(parts[..i - 1], parts[i - 1]);
      assert parts[i - 1..] == [parts[i - 1]] + parts[i..];
      ConcatCons(parts[i - 1], parts[i..]);
    }
  }

  // ------------------------------------------------------------------ after an error

  /** What each of a list of calls of Feed leaves. */
  function FeedLater(buf: string, chunks: seq<string>): (results: seq<Frames>)
    ensures |results| == |chunks|
    decreases |chunks|
  {
    if chunks == [] then []
    else
      var now := FeedOnce(buf, chunks[0]);
      [now] + FeedLater(now.rest, chunks[1..])
  }

  /** The calls on the object, up to one that does not return. */
  method FeedEach(splitter: StreamSplitter, chunks: seq<string>) returns (results: seq<Frames>)
    modifies splitter
    ensures results <= FeedLater(old(splitter.buf), chunks)
    ensures |results| == |chunks| || (results != [] && results[|results| - 1].status == Stalled)
  {
    hide FeedOnce;
    results := [];
    ghost var all := FeedLater(splitter.buf, chunks);
    assert chunks[0..] == chunks;
    for i := 0 to |chunks|
      invariant |results| == i && results + FeedLater(splitter.buf, chunks[i..]) == all
    {
      assert chunks[i..][1..] == chunks[i + 1..];
      var out, failed, stalled := splitter.Feed(chunks[i]);
      results := results + [Frames(out, splitter.buf, if failed then Failed else if stalled then Stalled else Waiting)];
      if stalled {
        return;
      }
    }
  }

  /** Every call fails, emits nothing and keeps the faulty head in the buffer. */
  predicate KeepsFailing(results: seq<Frames>) {
    forall i :: 0 <= i < |results| ==>
      results[i].messages == [] && results[i].status == Failed && SplitOne(results[i].rest).Bad?
  }

  lemma FailAgain(buf: string, chunk: string)
    requires SplitOne(buf).Bad? && |buf| + |chunk| <= MAX_MESSAGE_SIZE
    ensures FeedOnce(buf, chunk) == Frames([], buf + chunk, Failed) && SplitOne(buf + chunk).Bad?
  {
    SplitExtend(buf, chunk);
  }

  lemma EmptyIsNotBad()
    ensures !SplitOne("").Bad?
  {
    assert FindBlank("", 0) == -1;
  }

  /** After an error every later chunk fails again, exactly as long as the buffer with all of them stays within the
      limit. */
  lemma {:induction false} ErrorsAreSticky(buf: string, chunks: seq<string>)
    requires SplitOne(buf).Bad? && |buf| <= MAX_MESSAGE_SIZE
    ensures KeepsFailing(FeedLater(buf, chunks)) <==> |buf| + |Concat(chunks)| <= MAX_MESSAGE_SIZE
    decreases |chunks|
  {
    hide SplitOne, Frame;
    if chunks != [] {
      var now := FeedOnce(buf, chunks[0]);
      var later := FeedLater(now.rest, chunks[1..]);
      assert FeedLater(buf, chunks) == [now] + later && ([now] + later)[0] == now;
      if |buf| + |chunks[0]| <= MAX_MESSAGE_SIZE {
        FailAgain(buf, chunks[0]);
        ErrorsAreSticky(now.rest, chunks[1..]);
        assert KeepsFailing([now] + later) <==> KeepsFailing(later) by {
          assert forall i :: 0 <= i < |later| ==> ([now] + later)[i + 1] == later[i];
        }
      } else {
        EmptyIsNotBad();
      }
    }
  }

  /** A chunk that overflows the buffer clears the error: the message after it is framed. */
  lemma OverflowForgetsError(buf: string, large: string, message: string)
    requires SplitOne(buf).Bad? && |buf| + |large| > MAX_MESSAGE_SIZE
    requires SplitOne(message) == Message(|message|) && |message| <= MAX_MESSAGE_SIZE
    ensures FeedLater(buf, [large, message]) == [Frames([], "", Failed), Frames([message], "", Waiting)]
  {
    hide SplitOne, Frame;
    WholeMessagesInSequence([message]);
    assert [message][1..] == [] && Concat([message]) == message + "" == message;
    assert "" + message == message;
    assert [large, message][1..] == [message];
    assert FeedLater("", [message]) == [FeedOnce("", message)];
  }

  lemma EmptyIsNotWhole()
    ensures SplitOne("").More?
  {
    assert FindBlank("", 0) == -1;
  }

  /** Messages that are framed whole one by one are framed whole in sequence. */
  lemma {:induction false} WholeMessagesInSequence(messages: seq<string>)
    requires forall m :: m in messages ==> SplitOne(m) == Message(|m|)
    ensures Frame(Concat(messages)) == Frames(messages, "", Waiting)
    decreases |messages|
  {
    if messages == [] {
      assert SplitOne("").More? by {
        assert FindBlank("", 0) == -1;
      }
    } else {
      var m, rest := messages[0], Concat(messages[1..]);
      assert m != "" by { EmptyIsNotWhole(); }
      WholeMessagesInSequence(messages[1..]);
      SplitExtend(m, rest);
      hide SplitOne;
      assert (m + rest)[..|m|] == m && (m + rest)[|m|..] == rest;
      assert messages == [m] + messages[1..];
    }
  }
}
