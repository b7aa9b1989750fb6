/** GB28181 session descriptions: builder and parser (gb28181/sdp.go, and ParseSSRC of gb28181/xml.go). */
module Sdp {
  import opened Basics
  import opened Text

  /** StreamSDP. */
  datatype Session = Session(
    username: string, address: string, ssrc: nat, recvOnly: bool, videoPort: int, audioPort: int,
    name: string, start: string, end: string)

  /** SDP, the parsed form. */
  datatype Parsed = Parsed(
    username: string, address: string, name: string, videoPort: int, audioPort: int, ssrc: nat, recvOnly: bool,
    start: string, end: string)

  const EMPTY: Parsed := Parsed("", "", "", 0, 0, 0, false, "", "")

  // ------------------------------------------------------------------ the SSRC

  /** The lowest k hexadecimal digits of n, as %0kx prints them. */
  function Hex(n: nat, k: nat): (s: string)
    ensures |s| == k
  {
    if k == 0 then "" else Hex(n / 16, k - 1) + [DigitChar(n % 16)]
  }

  function ParseSsrc(text: string): Option<nat> {
    var s := TrimSpace(text);
    var hex := ParseUint(s, 16, UINT32_BOUND);
    if hex.Some? then hex else ParseUint(s, 10, UINT32_BOUND)
  }

  function Pow16(k: nat): nat { if k == 0 then 1 else 16 * Pow16(k - 1) }

  lemma {:induction false} HexValue(n: nat, k: nat)
    requires k > 0 && n < Pow16(k)
    ensures IsNumeral(Hex(n, k), 16) && ValueOf(Hex(n, k), 16) == n
  {
    if k == 1 {
      assert Pow16(1) == 16;
      assert Hex(n / 16, 0) == "" && Hex(n, 1) == [DigitChar(n)];
      assert DigitOf(DigitChar(n)) == n;
    } else {
      HexValue(n / 16, k - 1);
      AppendDigit(Hex(n / 16, k - 1), n % 16, 16);
    }
  }

  lemma HexSpaceFree(s: string)
    requires IsNumeral(s, 16)
    ensures SpaceFree(s)
  {
    forall i | 0 <= i < |s| ensures !IsSpace(s[i]) {
      assert 0 <= DigitOf(s[i]) < 16;
    }
  }

  /** Every 32-bit SSRC survives, the decimal fallback of the parser notwithstanding. */
  lemma SsrcRoundTrip(n: nat)
    requires n < UINT32_BOUND
    ensures ParseSsrc(Hex(n, 8)) == Some(n) && Hex(n, 8) != "" && SpaceFree(Hex(n, 8))
  {
    hide Hex, ValueOf, IsNumeral, SpaceFree, TrimSpace;
    assert Pow16(4) == 65536 && Pow16(8) == UINT32_BOUND;
    HexValue(n, 8);
    HexSpaceFree(Hex(n, 8));
    TrimFree(Hex(n, 8));
  }

  // -- the decimal fallback

  function Pow10(k: nat): nat { if k == 0 then 1 else 10 * Pow10(k - 1) }

  /** The value of n's decimal digits when they are read as hexadecimal. */
  function Misread(n: nat): nat { if n < 10 then n else 16 * Misread(n / 10) + n % 10 }

  lemma {:induction false} MisreadIs(n: nat)
    ensures IsNumeral(Numeral(n, 10), 16) && ValueOf(Numeral(n, 10), 16) == Misread(n)
  {
    if n < 10 {
      assert DigitOf(DigitChar(n)) == n;
    } else {
      MisreadIs(n / 10);
      AppendDigit(Numeral(n / 10, 10), n % 10, 16);
    }
  }

  lemma {:induction false} MisreadGrows(n: nat)
    ensures Misread(n) >= n && (n >= 10 ==> Misread(n) > n)
  {
    if n >= 10 {
      MisreadGrows(n / 10);
      assert n == 10 * (n / 10) + n % 10;
    }
  }

  lemma {:induction false} MisreadBound(n: nat, k: nat)
    requires k > 0
    ensures n < Pow10(k) <==> Misread(n) < Pow16(k)
    decreases k
  {
    if k == 1 {
      assert Pow10(1) == 10 && Pow16(1) == 16;
      if n >= 10 {
        MisreadGrows(n / 10);
      }
    } else if n >= 10 {
      MisreadBound(n / 10, k - 1);
      assert n == 10 * (n / 10) + n % 10;
    } else {
      PowersGrow(k);
    }
  }

  lemma {:induction false} PowersGrow(k: nat)
    requires k > 0
    ensures Pow10(k) >= 10 && Pow16(k) >= 16
  {
    if k > 1 {
      PowersGrow(k - 1);
    }
  }

  /** An SSRC printed in decimal is read back exactly when it has one digit, where both readings agree, or more than
      eight, where the hexadecimal reading overflows and the fallback is taken. */
  lemma DecimalSsrcExactly(n: nat)
    requires n < UINT32_BOUND
    ensures ParseSsrc(Itoa(n)) == Some(n) <==> n < 10 || n >= 100_000_000
  {
    hide Numeral, ValueOf, IsNumeral, TrimSpace, SpaceFree, Misread;
    AtoiItoa(n);
    TrimFree(Itoa(n));
    MisreadIs(n);
    MisreadGrows(n);
    ParseUintNumeral(n, UINT32_BOUND);
    assert Pow10(4) == 10_000 && Pow10(8) == 100_000_000 && Pow16(4) == 65536 && Pow16(8) == UINT32_BOUND;
    MisreadBound(n, 8);
    assert n < 10 ==> Misread(n) == n by { SmallMisread(n); }
  }

  lemma SmallMisread(n: nat)
    ensures n < 10 ==> Misread(n) == n
  {
  }

  // ------------------------------------------------------------------ building

  /** A line of the description: a one-letter type and its value. */
  datatype Field = Field(kind: char, value: string)

  function Direction(s: Session): string { if s.recvOnly then "recvonly" else "sendonly" }

  /** Build first gives an unnamed session its default name. */
  function WithName(s: Session): Session { if s.name == "" then s.(name := "Play") else s }

  function SessionFields(s: Session): seq<Field> {
    [Field('v', "0"),
     Field('o', s.username + [' '] + ("0" + [' '] + ("0" + [' '] + ("IN" + [' '] + ("IP4" + [' '] + s.address))))),
     Field('s', s.name),
     Field('c', "IN" + [' '] + ("IP4" + [' '] + s.address)),
     Field('t', if s.start != "" || s.end != "" then s.start + [' '] + s.end else "0" + [' '] + "0")]
  }

  function VideoFields(s: Session): seq<Field> {
    if s.videoPort <= 0 then []
    else [Field('m', "video" + [' '] + (Itoa(s.videoPort) + [' '] + "RTP/AVP 96 98 97")),
          Field('a', Direction(s)), Field('a', "rtpmap:96 PS/90000"), Field('a', "rtpmap:98 H264/90000"),
          Field('a', "rtpmap:97 MPEG4/90000"), Field('y', Hex(s.ssrc, 8))]
  }

  function AudioFields(s: Session): seq<Field> {
    if s.audioPort <= 0 then []
    else [Field('m', "audio" + [' '] + (Itoa(s.audioPort) + [' '] + "RTP/AVP 8 0")),
          Field('a', "rtpmap:8 PCMA/8000"), Field('a', "rtpmap:0 PCMU/8000"), Field('a', Direction(s)),
          Field('y', Hex(s.ssrc, 8))]
  }

  function AllFields(s: Session): seq<Field> { SessionFields(s) + (VideoFields(s) + AudioFields(s)) }

  function LineOf(f: Field): string { [f.kind, '='] + f.value }

  function TextOf(fields: seq<Field>): string {
    if fields == [] then "" else LineOf(fields[0]) + [CR] + [LF] + TextOf(fields[1..])
  }

  function Build(s: Session): string { TextOf(AllFields(WithName(s))) }

  lemma TextOfNothing()
    ensures TextOf([]) == ""
  {
  }

  lemma TextFrom(fields: seq<Field>, i: nat)
    requires i < |fields|
    ensures TextOf(fields[i..]) == LineOf(fields[i]) + [CR] + [LF] + TextOf(fields[i + 1..])
  {
    assert fields[i..][1..] == fields[i + 1..];
  }

  /** StreamSDP with Build's side effect on the session name. */
  class StreamSdp {
    var session: Session

    constructor (session: Session)
      ensures this.session == session
    {
      this.session := session;
    }

    method Render() returns (text: string)
      modifies this
      ensures session == WithName(old(session)) && text == Build(old(session))
    {
      hide AllFields, LineOf, TextOf;
      if session.name == "" {
        session := session.(name := "Play");
      }
      var fields := AllFields(session);
      text := "";
      TextOfNothing();
      assert fields[0..] == fields;
      for i := 0 to |fields|
        invariant session == WithName(old(session)) && text + TextOf(fields[i..]) == TextOf(fields)
      {
        TextFrom(fields, i);
        var line := LineOf(fields[i]) + [CR] + [LF];
        assert text + line + TextOf(fields[i + 1..]) == text + (line + TextOf(fields[i + 1..]));
        text := text + line;
      }
      assert fields[|fields|..] == [];
    }
  }

  // ------------------------------------------------------------------ parsing

  /** One `case` of the switch in ParseSDP; isIp is net.ParseIP succeeding. */
  function Take(p: Parsed, kind: string, v: string, isIp: string -> bool): Result<Parsed> {
    if kind == "o" then
      var f := Fields(v);
      var named := if |f| > 0 then p.(username := f[0]) else p;
      Ok(if |f| >= 6 then named.(address := f[|f| - 1]) else named)
    else if kind == "s" then Ok(p.(name := TrimSpace(v)))
    else if kind == "c" then
      var f := Fields(v);
      Ok(if |f| == 3 && isIp(f[2]) then p.(address := f[2]) else p)
    else if kind == "t" then
      var f := Fields(v);
      var started := if |f| >= 1 then p.(start := f[0]) else p;
      Ok(if |f| >= 2 then started.(end := f[1]) else started)
    else if kind == "m" then
      var f := Fields(v);
      if |f| < 2 then Ok(p)
      else
        var port := match Atoi(f[1]) case Some(n) => n case None => 0;
        Ok(if "video" <= f[0] then p.(videoPort := port) else if "audio" <= f[0] then p.(audioPort := port) else p)
    else if kind == "a" then Ok(if TrimSpace(v) == "recvonly" then p.(recvOnly := true) else p)
    else if kind == "y" then
      match ParseSsrc(v) case None => Err case Some(n) => Ok(p.(ssrc := n))
    else Ok(p)
  }

  /** strings.TrimRight(line, "\r"). */
  function DropCr(s: string): string {
    if s != "" && s[|s| - 1] == CR then DropCr(s[..|s| - 1]) else s
  }

  /** strings.TrimLeft(line, " \t"). */
  function DropBlanks(s: string): string {
    if s != "" && (s[0] == ' ' || s[0] == TAB) then DropBlanks(s[1..]) else s
  }

  function TakeLine(p: Parsed, line: string, isIp: string -> bool): Result<Parsed> {
    var (k, v, found) := Cut(DropBlanks(DropCr(line)), '=');
    if found then Take(p, TrimSpace(k), v, isIp) else Ok(p)
  }

  function TakeLines(p: Parsed, lines: seq<string>, isIp: string -> bool): Result<Parsed>
    decreases |lines|
  {
    if lines == [] then Ok(p)
    else
      match TakeLine(p, lines[0], isIp)
      case Err => Err
      case Ok(next) => TakeLines(next, lines[1..], isIp)
  }

  function Parse(body: string, isIp: string -> bool): Result<Parsed> {
    match TakeLines(EMPTY, Split(body, LF), isIp)
    case Err => Err
    case Ok(p) => if p.name == "" then Err else Ok(p)
  }

  /** The loop of ParseSDP. */
  method ParseSdp(body: string, isIp: string -> bool) returns (result: Result<Parsed>)
    ensures result == Parse(body, isIp)
  {
    hide TakeLine, Split;
    var lines := Split(body, LF);
    var p := EMPTY;
    for i := 0 to |lines|
      invariant TakeLines(EMPTY, lines, isIp) == TakeLines(p, lines[i..], isIp)
    {
      assert lines[i..][1..] == lines[i + 1..];
      match TakeLine(p, lines[i], isIp)
      case Err => return Err;
      case Ok(next) => p := next;
    }
    if p.name == "" {
      return Err;
    }
    return Ok(p);
  }

  // ------------------------------------------------------------------ build then parse

  predicate Word(s: string) { s != "" && SpaceFree(s) }

  predicate WellFormed(s: Session) {
    && Word(s.username) && Word(s.address)
    && s.ssrc < UINT32_BOUND && s.videoPort < INT_BOUND && s.audioPort < INT_BOUND
    && Trimmed(s.name) && LF !in s.name
    && SpaceFree(s.start) && SpaceFree(s.end)
  }

  /** What the text of a session carries: ports only when positive, direction and SSRC only with a port, and
      zeros for missing times. */
  function Carried(s: Session): Parsed {
    var media := s.videoPort > 0 || s.audioPort > 0;
    Parsed(s.username, s.address, WithName(s).name,
           if s.videoPort > 0 then s.videoPort else 0, if s.audioPort > 0 then s.audioPort else 0,
           if media then s.ssrc else 0, media && s.recvOnly,
           Times(s).0, Times(s).1)
  }

  /** The two times as they are read back: an end alone is taken for a start, and zeros stand for neither. */
  function Times(s: Session): (string, string) {
    if s.start == "" && s.end == "" then ("0", "0")
    else if s.start == "" then (s.end, "")
    else (s.start, s.end)
  }

  /** Folding the fields directly, without the text. */
  function TakeFields(p: Parsed, fields: seq<Field>, isIp: string -> bool): Result<Parsed>
    decreases |fields|
  {
    if fields == [] then Ok(p)
    else
      match Take(p, [fields[0].kind], fields[0].value, isIp)
      case Err => Err
      case Ok(next) => TakeFields(next, fields[1..], isIp)
  }

  predicate GoodField(f: Field) {
    && !IsSpace(f.kind) && f.kind != '='
    && LF !in f.value && (f.value == "" || f.value[|f.value| - 1] != CR)
  }

  lemma DropEnds(line: string)
    requires line != "" && line[|line| - 1] != CR && line[0] != ' ' && line[0] != TAB
    ensures DropBlanks(DropCr(line + [CR])) == line
  {
    assert (line + [CR])[..|line|] == line;
  }

  lemma FieldLine(p: Parsed, f: Field, isIp: string -> bool)
    requires GoodField(f)
    ensures TakeLine(p, LineOf(f) + [CR], isIp) == Take(p, [f.kind], f.value, isIp)
    ensures LF !in LineOf(f) + [CR]
  {
    hide Take, Cut, TrimSpace, DropCr, DropBlanks;
    var line := LineOf(f);
    DropEnds(line);
    assert line == [f.kind] + ['='] + f.value;
    CutAt([f.kind], '=', f.value);
    TrimFree([f.kind]);
  }

  /** The text of good fields is taken apart into those fields. */
  lemma {:induction false} TextRoundTrip(p: Parsed, fields: seq<Field>, isIp: string -> bool)
    requires forall i :: 0 <= i < |fields| ==> GoodField(fields[i])
    ensures TakeLines(p, Split(TextOf(fields), LF), isIp) == TakeFields(p, fields, isIp)
    decreases |fields|
  {
    hide Take, TakeLine, GoodField, LineOf;
    if fields == [] {
      EmptyText(p, isIp);
    } else {
      var line, rest := LineOf(fields[0]) + [CR], TextOf(fields[1..]);
      FieldLine(p, fields[0], isIp);
      assert TextOf(fields) == line + [LF] + rest;
      SplitAt(line, LF, rest);
      hide Split;
      assert ([line] + Split(rest, LF))[1..] == Split(rest, LF);
      match Take(p, [fields[0].kind], fields[0].value, isIp)
      case Err =>
      case Ok(next) => TextRoundTrip(next, fields[1..], isIp);
    }
  }

  lemma EmptyText(p: Parsed, isIp: string -> bool)
    ensures TakeLines(p, Split("", LF), isIp) == Ok(p)
  {
    assert Split("", LF) == [""];
    assert Cut("", '=') == ("", "", false);
    assert TakeLine(p, "", isIp) == Ok(p);
    hide TakeLine, Split;
    assert [""][1..] == [];
  }

  lemma {:induction false} TakeConcat(p: Parsed, a: seq<Field>, b: seq<Field>, isIp: string -> bool)
    requires TakeFields(p, a, isIp).Ok?
    ensures TakeFields(p, a + b, isIp) == TakeFields(TakeFields(p, a, isIp).value, b, isIp)
    decreases |a|
  {
    hide Take;
    if a == [] {
      assert a + b == b;
    } else {
      assert (a + b)[1..] == a[1..] + b;
      TakeConcat(Take(p, [a[0].kind], a[0].value, isIp).value, a[1..], b, isIp);
    }
  }

  /** One more field. */
  lemma TakeSnoc(p: Parsed, a: seq<Field>, f: Field, isIp: string -> bool)
    requires TakeFields(p, a, isIp).Ok?
    ensures TakeFields(p, a + [f], isIp) == Take(TakeFields(p, a, isIp).value, [f.kind], f.value, isIp)
  {
    hide Take;
    TakeConcat(p, a, [f], isIp);
    assert [f][1..] == [];
  }

  // -- what each kind of line does

  lemma OriginLine(p: Parsed, user: string, address: string, isIp: string -> bool)
    requires Word(user) && Word(address)
    ensures Take(p, "o", user + [' '] + ("0" + [' '] + ("0" + [' '] + ("IN" + [' '] + ("IP4" + [' '] + address)))), isIp)
            == Ok(p.(username := user, address := address))
  {
    hide Fields;
    FieldsCons(user, "0" + [' '] + ("0" + [' '] + ("IN" + [' '] + ("IP4" + [' '] + address))));
    FieldsCons("0", "0" + [' '] + ("IN" + [' '] + ("IP4" + [' '] + address)));
    FieldsCons("0", "IN" + [' '] + ("IP4" + [' '] + address));
    FieldsCons("IN", "IP4" + [' '] + address);
    FieldsCons("IP4", address);
    FieldsWord(address);
  }

  lemma ConnectionLine(p: Parsed, address: string, isIp: string -> bool)
    requires Word(address) && p.address == address
    ensures Take(p, "c", "IN" + [' '] + ("IP4" + [' '] + address), isIp) == Ok(p)
  {
    hide Fields;
    FieldsCons("IN", "IP4" + [' '] + address);
    FieldsCons("IP4", address);
    FieldsWord(address);
  }

  lemma TimeFields(start: string, end: string)
    requires SpaceFree(start) && SpaceFree(end)
    ensures Fields(start + [' '] + end) == (if start == "" then [] else [start]) + (if end == "" then [] else [end])
  {
    hide Fields;
    if start == "" {
      assert start + [' '] + end == [' '] + end;
      FieldsAfterSpace(end);
    } else {
      FieldsCons(start, end);
    }
    if end == "" {
      NoFields();
    } else {
      FieldsWord(end);
    }
  }

  lemma FieldsAfterSpace(s: string)
    ensures Fields([' '] + s) == Fields(s)
  {
    assert ([' '] + s)[1..] == s;
  }

  lemma NoFields()
    ensures Fields("") == []
  {
  }

  lemma TimeLine(p: Parsed, start: string, end: string, isIp: string -> bool)
    requires SpaceFree(start) && SpaceFree(end) && p.start == "" && p.end == ""
    ensures Take(p, "t", start + [' '] + end, isIp) ==
            Ok(if start == "" then p.(start := end) else p.(start := start, end := end))
  {
    hide Fields, SpaceFree;
    TimeFields(start, end);
  }

  lemma MediaLine(p: Parsed, port: int, tail: string, isIp: string -> bool)
    requires 0 < port < INT_BOUND
    ensures Take(p, "m", "video" + [' '] + (Itoa(port) + [' '] + tail), isIp) == Ok(p.(videoPort := port))
    ensures Take(p, "m", "audio" + [' '] + (Itoa(port) + [' '] + tail), isIp) == Ok(p.(audioPort := port))
  {
    hide Fields, Itoa, Atoi;
    AtoiItoa(port);
    FieldsCons("video", Itoa(port) + [' '] + tail);
    FieldsCons("audio", Itoa(port) + [' '] + tail);
    FieldsCons(Itoa(port), tail);
    assert "audio"[0] != "video"[0];
  }

  lemma AttributeLine(p: Parsed, v: string, isIp: string -> bool)
    requires Trimmed(v)
    ensures Take(p, "a", v, isIp) == Ok(if v == "recvonly" then p.(recvOnly := true) else p)
  {
    hide Trimmed, TrimSpace, ParseSsrc, Fields, Atoi;
    TrimTrimmed(v);
  }

  lemma SsrcLine(p: Parsed, n: nat, isIp: string -> bool)
    requires n < UINT32_BOUND
    ensures Take(p, "y", Hex(n, 8), isIp) == Ok(p.(ssrc := n))
  {
    hide ParseSsrc, Hex;
    SsrcRoundTrip(n);
  }

  lemma RtpmapLines(p: Parsed, isIp: string -> bool)
    ensures Take(p, "a", "rtpmap:96 PS/90000", isIp) == Ok(p)
    ensures Take(p, "a", "rtpmap:98 H264/90000", isIp) == Ok(p)
    ensures Take(p, "a", "rtpmap:97 MPEG4/90000", isIp) == Ok(p)
    ensures Take(p, "a", "rtpmap:8 PCMA/8000", isIp) == Ok(p)
    ensures Take(p, "a", "rtpmap:0 PCMU/8000", isIp) == Ok(p)
  {
    hide Take;
    assert "rtpmap:96 PS/90000"[1] != "recvonly"[1];
    AttributeLine(p, "rtpmap:96 PS/90000", isIp);
    AttributeLine(p, "rtpmap:98 H264/90000", isIp);
    AttributeLine(p, "rtpmap:97 MPEG4/90000", isIp);
    AttributeLine(p, "rtpmap:8 PCMA/8000", isIp);
    AttributeLine(p, "rtpmap:0 PCMU/8000", isIp);
  }

  // -- the three blocks

  lemma SessionBlock(s: Session, isIp: string -> bool)
    requires WellFormed(s) && s.name != ""
    ensures TakeFields(EMPTY, SessionFields(s), isIp) ==
            Ok(EMPTY.(username := s.username, address := s.address, name := s.name,
                      start := Carried(s).start, end := Carried(s).end))
  {
    hide Take;
    var f := SessionFields(s);
    var p0 := EMPTY;
    assert Take(p0, "v", "0", isIp) == Ok(p0) by { VersionLine(p0, isIp); }
    OriginLine(p0, s.username, s.address, isIp);
    var p1 := p0.(username := s.username, address := s.address);
    NameLine(p1, s.name, isIp);
    var p2 := p1.(name := s.name);
    ConnectionLine(p2, s.address, isIp);
    TimeLine(p2, s.start, s.end, isIp);
    TimeLine(p2, "0", "0", isIp);
    FiveFields(p0, f[0], f[1], f[2], f[3], f[4], isIp);
    assert f == [f[0], f[1], f[2], f[3], f[4]];
  }

  lemma VersionLine(p: Parsed, isIp: string -> bool)
    ensures Take(p, "v", "0", isIp) == Ok(p)
  {
  }

  lemma NameLine(p: Parsed, name: string, isIp: string -> bool)
    requires Trimmed(name)
    ensures Take(p, "s", name, isIp) == Ok(p.(name := name))
  {
    assert TrimSpace(name) == name;
  }

  /** The fold over five fields, unrolled. */
  lemma FiveFields(p: Parsed, a: Field, b: Field, c: Field, d: Field, e: Field, isIp: string -> bool)
    requires Take(p, [a.kind], a.value, isIp).Ok?
    requires var p1 := Take(p, [a.kind], a.value, isIp).value;
             && Take(p1, [b.kind], b.value, isIp).Ok?
             && var p2 := Take(p1, [b.kind], b.value, isIp).value;
                && Take(p2, [c.kind], c.value, isIp).Ok?
                && var p3 := Take(p2, [c.kind], c.value, isIp).value;
                   && Take(p3, [d.kind], d.value, isIp).Ok?
    ensures var p1 := Take(p, [a.kind], a.value, isIp).value;
            var p2 := Take(p1, [b.kind], b.value, isIp).value;
            var p3 := Take(p2, [c.kind], c.value, isIp).value;
            var p4 := Take(p3, [d.kind], d.value, isIp).value;
            TakeFields(p, [a, b, c, d, e], isIp) == Take(p4, [e.kind], e.value, isIp)
  {
    hide Take;
    var p1 := Take(p, [a.kind], a.value, isIp).value;
    var p2 := Take(p1, [b.kind], b.value, isIp).value;
    var p3 := Take(p2, [c.kind], c.value, isIp).value;
    assert [a][1..] == [] && TakeFields(p, [a], isIp) == Ok(p1);
    TakeSnoc(p, [a], b, isIp);
    TakeSnoc(p, [a] + [b], c, isIp);
    TakeSnoc(p, [a] + [b] + [c], d, isIp);
    TakeSnoc(p, [a] + [b] + [c] + [d], e, isIp);
    assert [a] + [b] + [c] + [d] + [e] == [a, b, c, d, e];
  }

  lemma VideoBlock(p: Parsed, s: Session, isIp: string -> bool)
    requires WellFormed(s) && s.videoPort > 0 && !p.recvOnly
    ensures TakeFields(p, VideoFields(s), isIp) == Ok(p.(videoPort := s.videoPort, recvOnly := s.recvOnly, ssrc := s.ssrc))
  {
    hide Take, Hex, Itoa;
    var f := VideoFields(s);
    MediaLine(p, s.videoPort, "RTP/AVP 96 98 97", isIp);
    var p1 := p.(videoPort := s.videoPort);
    DirectionLine(p1, s, isIp);
    var p2 := p1.(recvOnly := s.recvOnly);
    RtpmapLines(p2, isIp);
    SsrcLine(p2, s.ssrc, isIp);
    FiveFields(p, f[0], f[1], f[2], f[3], f[4], isIp);
    TakeSnoc(p, [f[0], f[1], f[2], f[3], f[4]], f[5], isIp);
    assert f == [f[0], f[1], f[2], f[3], f[4]] + [f[5]];
  }

  lemma DirectionLine(p: Parsed, s: Session, isIp: string -> bool)
    requires p.recvOnly ==> s.recvOnly
    ensures Take(p, "a", Direction(s), isIp) == Ok(p.(recvOnly := s.recvOnly))
  {
    hide Take;
    AttributeLine(p, Direction(s), isIp);
    assert "sendonly"[0] != "recvonly"[0];
  }

  lemma AudioBlock(p: Parsed, s: Session, isIp: string -> bool)
    requires WellFormed(s) && s.audioPort > 0 && (p.recvOnly ==> s.recvOnly)
    ensures TakeFields(p, AudioFields(s), isIp) == Ok(p.(audioPort := s.audioPort, recvOnly := s.recvOnly, ssrc := s.ssrc))
  {
    hide Take, Hex, Itoa;
    var f := AudioFields(s);
    MediaLine(p, s.audioPort, "RTP/AVP 8 0", isIp);
    var p1 := p.(audioPort := s.audioPort);
    RtpmapLines(p1, isIp);
    DirectionLine(p1, s, isIp);
    var p2 := p1.(recvOnly := s.recvOnly);
    SsrcLine(p2, s.ssrc, isIp);
    FiveFields(p, f[0], f[1], f[2], f[3], f[4], isIp);
    assert f == [f[0], f[1], f[2], f[3], f[4]];
  }

  lemma FieldsGood(s: Session)
    requires WellFormed(s)
    ensures AllGood(AllFields(s))
  {
    hide SessionFields, VideoFields, AudioFields, GoodField, WellFormed;
    SessionGood(s);
    VideoGood(s);
    AudioGood(s);
  }

  ghost predicate AllGood(fields: seq<Field>) { forall i :: 0 <= i < |fields| ==> GoodField(fields[i]) }

  lemma WordGood(v: string, kind: char)
    requires SpaceFree(v) && !IsSpace(kind) && kind != '='
    ensures GoodField(Field(kind, v))
  {
    assert LF !in v;
  }

  lemma ConcatGood(kind: char, a: string, b: string)
    requires SpaceFree(a) && GoodField(Field(kind, b)) && b != ""
    ensures GoodField(Field(kind, a + [' '] + b))
  {
    assert LF !in a;
  }

  lemma OriginGood(user: string, address: string)
    requires Word(user) && Word(address)
    ensures GoodField(Field('o', user + [' '] + ("0" + [' '] + ("0" + [' '] + ("IN" + [' '] + ("IP4" + [' '] + address))))))
  {
    hide GoodField;
    ConnectionGood('o', address);
    var tail := "IN" + [' '] + ("IP4" + [' '] + address);
    ConcatGood('o', "0", tail);
    ConcatGood('o', "0", "0" + [' '] + tail);
    ConcatGood('o', user, "0" + [' '] + ("0" + [' '] + tail));
  }

  lemma ConnectionGood(kind: char, address: string)
    requires Word(address) && !IsSpace(kind) && kind != '='
    ensures GoodField(Field(kind, "IN" + [' '] + ("IP4" + [' '] + address)))
  {
    hide GoodField;
    WordGood(address, kind);
    ConcatGood(kind, "IP4", address);
    ConcatGood(kind, "IN", "IP4" + [' '] + address);
  }

  lemma TimeGood(start: string, end: string)
    requires SpaceFree(start) && SpaceFree(end)
    ensures GoodField(Field('t', start + [' '] + end))
  {
    hide GoodField;
    WordGood(end, 't');
    if end == "" {
      BlankEndGood(start);
    } else {
      ConcatGood('t', start, end);
    }
  }

  lemma BlankEndGood(start: string)
    requires SpaceFree(start)
    ensures GoodField(Field('t', start + [' '] + ""))
  {
    assert LF !in start;
  }

  lemma SessionGood(s: Session)
    requires WellFormed(s)
    ensures AllGood(SessionFields(s))
  {
    hide GoodField, Trimmed, SpaceFree;
    NameGood(s.name);
    OriginGood(s.username, s.address);
    ConnectionGood('c', s.address);
    ZeroGood();
    TimeGood(s.start, s.end);
  }

  lemma ZeroGood()
    ensures GoodField(Field('v', "0")) && GoodField(Field('t', "0" + [' '] + "0"))
  {
  }

  lemma NameGood(name: string)
    requires Trimmed(name) && LF !in name
    ensures GoodField(Field('s', name))
  {
  }

  lemma MediaLineGood(media: string, port: int, tail: string)
    requires SpaceFree(media) && 0 < port < INT_BOUND && GoodField(Field('m', tail)) && tail != ""
    ensures GoodField(Field('m', media + [' '] + (Itoa(port) + [' '] + tail)))
  {
    hide GoodField, Itoa, Atoi;
    AtoiItoa(port);
    ConcatGood('m', Itoa(port), tail);
    ConcatGood('m', media, Itoa(port) + [' '] + tail);
  }

  lemma DirectionGood(s: Session)
    ensures GoodField(Field('a', Direction(s)))
  {
    assert SpaceFree("recvonly") && SpaceFree("sendonly");
  }

  lemma SsrcGood(n: nat)
    requires n < UINT32_BOUND
    ensures GoodField(Field('y', Hex(n, 8)))
  {
    hide Hex, GoodField, ParseSsrc;
    SsrcRoundTrip(n);
    WordGood(Hex(n, 8), 'y');
  }

  lemma VideoGood(s: Session)
    requires WellFormed(s)
    ensures AllGood(VideoFields(s))
  {
    hide Itoa, Hex, GoodField, Trimmed, SpaceFree, Direction;
    SsrcGood(s.ssrc);
    DirectionGood(s);
    VideoFormats();
    VideoMaps();
    Mpeg4Map();
    if s.videoPort > 0 {
      MediaLineGood("video", s.videoPort, "RTP/AVP 96 98 97");
    }
  }

  lemma AudioGood(s: Session)
    requires WellFormed(s)
    ensures AllGood(AudioFields(s))
  {
    hide Itoa, Hex, GoodField, Trimmed, SpaceFree, Direction;
    SsrcGood(s.ssrc);
    DirectionGood(s);
    AudioFormats();
    AudioMaps();
    if s.audioPort > 0 {
      MediaLineGood("audio", s.audioPort, "RTP/AVP 8 0");
    }
  }

  lemma VideoFormats()
    ensures SpaceFree("video") && GoodField(Field('m', "RTP/AVP 96 98 97"))
  {
  }

  lemma VideoMaps()
    ensures GoodField(Field('a', "rtpmap:96 PS/90000")) && GoodField(Field('a', "rtpmap:98 H264/90000"))
  {
  }

  lemma Mpeg4Map()
    ensures GoodField(Field('a', "rtpmap:97 MPEG4/90000"))
  {
  }

  lemma AudioFormats()
    ensures SpaceFree("audio") && GoodField(Field('m', "RTP/AVP 8 0"))
  {
  }

  lemma AudioMaps()
    ensures GoodField(Field('a', "rtpmap:8 PCMA/8000")) && GoodField(Field('a', "rtpmap:0 PCMU/8000"))
  {
  }

  /** Building a session description and parsing it recovers exactly what its text carries. */
  lemma BuildThenParse(s: Session, isIp: string -> bool)
    requires WellFormed(s)
    ensures Parse(Build(s), isIp) == Ok(Carried(s))
  {
    hide Take, SessionFields, VideoFields, AudioFields, Hex, Itoa, GoodField, TextOf, Split;
    var n := WithName(s);
    FieldsGood(n);
    TextRoundTrip(EMPTY, AllFields(n), isIp);
    SessionBlock(n, isIp);
    var p := TakeFields(EMPTY, SessionFields(n), isIp).value;
    TakeConcat(EMPTY, SessionFields(n), VideoFields(n) + AudioFields(n), isIp);
    MediaBlocks(p, n, isIp);
  }

  lemma MediaBlocks(p: Parsed, s: Session, isIp: string -> bool)
    requires WellFormed(s) && !p.recvOnly && p.ssrc == 0 && p.videoPort == 0 && p.audioPort == 0
    ensures TakeFields(p, VideoFields(s) + AudioFields(s), isIp) ==
            Ok(p.(videoPort := Carried(s).videoPort, audioPort := Carried(s).audioPort, ssrc := Carried(s).ssrc,
                  recvOnly := Carried(s).recvOnly))
  {
    hide Take, Hex, Itoa;
    var video, audio := VideoFields(s), AudioFields(s);
    if s.videoPort > 0 {
      VideoBlock(p, s, isIp);
      TakeConcat(p, video, audio, isIp);
    } else {
      assert video + audio == audio;
    }
    if s.audioPort > 0 {
      AudioBlock(if s.videoPort > 0 then TakeFields(p, video, isIp).value else p, s, isIp);
    }
  }

  /** Every field comes back exactly when the session is named, has a start time and no negative port, and has a
      positive port unless SSRC and direction have their zero values. */
  lemma EveryFieldRecovered(s: Session, isIp: string -> bool)
    requires WellFormed(s)
    ensures Parse(Build(s), isIp) == Ok(Parsed(s.username, s.address, s.name, s.videoPort, s.audioPort, s.ssrc, s.recvOnly, s.start, s.end))
            <==> && s.name != "" && s.start != "" && s.videoPort >= 0 && s.audioPort >= 0
                 && (s.videoPort > 0 || s.audioPort > 0 || (s.ssrc == 0 && !s.recvOnly))
  {
    hide Build, Parse;
    BuildThenParse(s, isIp);
  }

  /** An end time alone comes back as a start time. */
  lemma EndAloneBecomesStart(isIp: string -> bool)
    ensures var s := Session("u", "h", 1, false, 9000, 0, "Play", "", "7");
            WellFormed(s) && Parse(Build(s), isIp).Ok?
            && Parse(Build(s), isIp).value.start == "7" && Parse(Build(s), isIp).value.end == ""
  {
    hide Build, Parse;
    BuildThenParse(Session("u", "h", 1, false, 9000, 0, "Play", "", "7"), isIp);
  }

  // ------------------------------------------------------------------ descriptions that the builder does not write

  lemma ConnectionOverrides(p: Parsed, address: string, isIp: string -> bool)
    requires Word(address)
    ensures Take(p, "c", "IN" + [' '] + ("IP4" + [' '] + address), isIp) ==
            Ok(if isIp(address) then p.(address := address) else p)
  {
    hide Fields;
    FieldsCons("IN", "IP4" + [' '] + address);
    FieldsCons("IP4", address);
    FieldsWord(address);
  }

  /** The address of the connection line replaces that of the origin exactly when it is an IP address. */
  lemma ConnectionAddressWins(user: string, origin: string, address: string, name: string, isIp: string -> bool)
    requires Word(user) && Word(origin) && Word(address) && name != "" && Trimmed(name) && LF !in name
    ensures var fields := [
              Field('o', user + [' '] + ("0" + [' '] + ("0" + [' '] + ("IN" + [' '] + ("IP4" + [' '] + origin))))),
              Field('s', name),
              Field('c', "IN" + [' '] + ("IP4" + [' '] + address))];
            Parse(TextOf(fields), isIp) ==
            Ok(EMPTY.(username := user, name := name, address := if isIp(address) then address else origin))
  {
    hide Take, GoodField, TextOf, Split, TakeLines, Trimmed, SpaceFree;
    var o := Field('o', user + [' '] + ("0" + [' '] + ("0" + [' '] + ("IN" + [' '] + ("IP4" + [' '] + origin)))));
    var s, c := Field('s', name), Field('c', "IN" + [' '] + ("IP4" + [' '] + address));
    OriginGood(user, origin);
    NameGood(name);
    ConnectionGood('c', address);
    TextRoundTrip(EMPTY, [o, s, c], isIp);
    OriginLine(EMPTY, user, origin, isIp);
    var p1 := EMPTY.(username := user, address := origin);
    NameLine(p1, name, isIp);
    var p2 := p1.(name := name);
    ConnectionOverrides(p2, address, isIp);
    assert [o][1..] == [] && TakeFields(EMPTY, [o], isIp) == Ok(p1);
    TakeSnoc(EMPTY, [o], s, isIp);
    TakeSnoc(EMPTY, [o] + [s], c, isIp);
    assert [o] + [s] + [c] == [o, s, c];
  }

  /** A description without a session name is refused. */
  lemma NamelessIsRefused(user: string, origin: string, isIp: string -> bool)
    requires Word(user) && Word(origin)
    ensures var o := Field('o', user + [' '] + ("0" + [' '] + ("0" + [' '] + ("IN" + [' '] + ("IP4" + [' '] + origin)))));
            Parse(TextOf([o]), isIp) == Err
  {
    hide Take, GoodField, TextOf, Split, TakeLines, SpaceFree;
    var o := Field('o', user + [' '] + ("0" + [' '] + ("0" + [' '] + ("IN" + [' '] + ("IP4" + [' '] + origin)))));
    OriginGood(user, origin);
    TextRoundTrip(EMPTY, [o], isIp);
    OriginLine(EMPTY, user, origin, isIp);
    assert [o][1..] == [];
    assert TakeFields(EMPTY, [o], isIp) == Ok(EMPTY.(username := user, address := origin));
  }
}
