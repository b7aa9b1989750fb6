/** Exactly which parameter lists survive printing and parsing (params.go). The printer escapes quotes but not
    backslashes, so a value can move the splitter in or out of quotes; counting semicolons shows that no
    accident of re-reading can make up for a list that is split elsewhere than it was joined. */
module ParamsExactness {
  import opened Basics
  import opened Text
  import opened Params

  // ------------------------------------------------------------------ counting semicolons

  function Semis(s: string): nat {
    if s == "" then 0 else (if s[0] == ';' then 1 else 0) + Semis(s[1..])
  }

  lemma {:induction false} SemisConcat(a: string, b: string)
    ensures Semis(a + b) == Semis(a) + Semis(b)
  {
    if a == "" {
      assert a + b == b;
    } else {
      assert (a + b)[1..] == a[1..] + b;
      SemisConcat(a[1..], b);
    }
  }

  lemma SemisSlice(s: string, i: nat, j: nat)
    requires i <= j <= |s|
    ensures Semis(s[i..j]) <= Semis(s)
  {
    SemisConcat(s[..i], s[i..j]);
    SemisConcat(s[..i] + s[i..j], s[j..]);
    assert s == s[..i] + s[i..j] + s[j..];
  }

  lemma {:induction false} SemisSanitize(s: string)
    ensures Semis(Sanitize(s)) == Semis(s)
  {
    if s != "" {
      SemisSanitize(s[1..]);
      SemisConcat([s[0]], Sanitize(s[1..]));
    }
  }

  lemma {:induction false} SemisEscapeQuotes(v: string)
    ensures Semis(EscapeQuotes(v)) == Semis(v)
  {
    if v != "" {
      SemisEscapeQuotes(v[1..]);
      var head := if v[0] == QUOTE then [BACKSLASH, QUOTE] else [v[0]];
      SemisConcat(head, EscapeQuotes(v[1..]));
      assert head[1..] == if v[0] == QUOTE then [QUOTE] else "";
    }
  }

  lemma SemisEscape(v: string)
    ensures Semis(Escape(v)) == Semis(v)
  {
    SemisSanitize(v);
    SemisEscapeQuotes(v);
    SemisSanitize(EscapeQuotes(v));
    SemisConcat([QUOTE], Sanitize(EscapeQuotes(v)));
    SemisConcat([QUOTE] + Sanitize(EscapeQuotes(v)), [QUOTE]);
  }

  lemma {:induction false} SemisUnescape(s: string)
    ensures Semis(UnescapeQuotes(s)) == Semis(s)
    decreases |s|
  {
    if |s| >= 2 {
      if s[0] == BACKSLASH && s[1] == QUOTE {
        SemisUnescape(s[2..]);
        SemisConcat([QUOTE], UnescapeQuotes(s[2..]));
        assert s[1..][1..] == s[2..];
      } else {
        SemisUnescape(s[1..]);
        SemisConcat([s[0]], UnescapeQuotes(s[1..]));
      }
    }
  }

  lemma SemisRead(s: string)
    ensures Semis(Unquote(TrimSpace(s))) <= Semis(s)
  {
    hide Semis, UnescapeQuotes, TrimSpace;
    var r := TrimSpace(s);
    SemisTrim(s);
    if |r| >= 2 {
      SemisSlice(r, 1, |r| - 1);
      SemisUnescape(r[1..|r| - 1]);
    }
  }

  lemma SemisTrim(s: string)
    ensures Semis(TrimSpace(s)) <= Semis(s)
  {
    hide Semis, TrimLeft, TrimRight;
    var l, r := TrimLeft(s), TrimSpace(s);
    SemisSlice(s, |s| - |l|, |s|);
    assert s[|s| - |l|..|s|] == l;
    SemisSlice(l, 0, |r|);
    assert l[0..|r|] == r;
  }

  /** The parameter that one part is read as, when it is accepted. */
  function Reading(part: string): Param {
    var (k, v, found) := Cut(part, '=');
    if found then Param(Lower(TrimSpace(k)), Unquote(TrimSpace(v)), true) else Param(Lower(TrimSpace(k)), "", false)
  }

  lemma ReadingIsPut(items: seq<Param>, part: string)
    ensures ParsePart(items, part).Ok? ==>
              ParsePart(items, part).value == if part == "" then items else Put(items, Reading(part))
  {
    hide Put, Unquote, TrimSpace, Lower, Cut, KeyCharsOk;
  }

  lemma ReadingSemis(part: string)
    ensures Semis(Reading(part).value) <= Semis(part)
  {
    hide TrimSpace, Unquote;
    var i := IndexOf(part, '=');
    if i >= 0 {
      SemisRead(part[i + 1..]);
      SemisSlice(part, i + 1, |part|);
      assert part[i + 1..|part|] == part[i + 1..];
    }
  }

  function Total(parts: seq<string>): nat {
    if parts == [] then 0 else Semis(parts[0]) + Total(parts[1..])
  }

  function Values(items: seq<Param>): (r: seq<string>)
    ensures |r| == |items|
  {
    seq(|items|, i requires 0 <= i < |items| => items[i].value)
  }

  lemma {:induction false} TotalConcat(a: seq<string>, b: seq<string>)
    ensures Total(a + b) == Total(a) + Total(b)
  {
    if a == [] {
      assert a + b == b;
    } else {
      assert (a + b)[1..] == a[1..] + b;
      TotalConcat(a[1..], b);
    }
  }

  lemma TotalOne(s: string)
    ensures Total([s]) == Semis(s)
  {
    assert [s][1..] == [];
  }

  lemma TotalPut(items: seq<Param>, p: Param)
    ensures Total(Values(Put(items, p))) <= Total(Values(items)) + Semis(p.value)
  {
    hide Semis, Total;
    var i := FindKey(items, p.key);
    TotalOne(p.value);
    if i < 0 {
      assert Values(items + [p]) == Values(items) + [p.value];
      TotalConcat(Values(items), [p.value]);
    } else {
      var a, b, v := Values(items[..i]), Values(items[i + 1..]), items[i].value;
      assert Values(items) == a + [v] + b && Values(items[i := p]) == a + [p.value] + b;
      TotalConcat(a + [v], b);
      TotalConcat(a, [v]);
      TotalConcat(a + [p.value], b);
      TotalConcat(a, [p.value]);
    }
  }

  /** Parsing adds at most one item per part, and creates no semicolon. When it adds one for each, they are the
      readings of the parts in order. */
  lemma {:induction false} ParsingGrows(items: seq<Param>, parts: seq<string>, r: seq<Param>)
    requires ParseParts(items, parts) == Ok(r)
    ensures |r| <= |items| + |parts|
    ensures Total(Values(r)) <= Total(Values(items)) + Total(parts)
    ensures |r| == |items| + |parts| ==> r == items + seq(|parts|, j requires 0 <= j < |parts| => Reading(parts[j]))
    decreases |parts|
  {
    hide ParsePart, Values, Semis, Reading;
    if parts != [] {
      var next := ParsePart(items, parts[0]).value;
      PartGrows(items, parts[0], next);
      ParsingGrows(next, parts[1..], r);
    }
  }

  lemma PartGrows(items: seq<Param>, part: string, next: seq<Param>)
    requires ParsePart(items, part) == Ok(next)
    ensures |next| <= |items| + 1
    ensures |next| == |items| + 1 ==> next == items + [Reading(part)]
    ensures Total(Values(next)) <= Total(Values(items)) + Semis(part)
  {
    hide ParsePart, Values, Semis, Reading, Total;
    ReadingIsPut(items, part);
    ReadingSemis(part);
    TotalPut(items, Reading(part));
  }

  // ------------------------------------------------------------------ joining

  function Join(parts: seq<string>): string
    requires parts != []
  {
    if |parts| == 1 then parts[0] else parts[0] + [';'] + Join(parts[1..])
  }

  lemma {:induction false} SplitJoins(s: string)
    ensures SplitList(s) != [] && Join(SplitList(s)) == s
    decreases |s|
  {
    hide PieceEnd, Join;
    var n := PieceEnd(s, Outside);
    if n < |s| {
      SplitJoins(s[n + 1..]);
      JoinCons(s[..n], SplitList(s[n + 1..]));
      assert s == s[..n] + [';'] + s[n + 1..];
    } else {
      JoinOne(s);
    }
  }

  lemma JoinCons(first: string, tail: seq<string>)
    requires tail != []
    ensures Join([first] + tail) == first + [';'] + Join(tail)
  {
    assert ([first] + tail)[1..] == tail;
  }

  lemma JoinOne(s: string)
    ensures Join([s]) == s
  {
  }

  lemma {:induction false} PrintJoins(items: seq<Param>)
    requires items != []
    ensures Print(items)[1..] == Join(Pieces(items))
  {
    hide Piece;
    var piece := Piece(items[0]);
    assert Print(items)[1..] == piece + Print(items[1..]);
    assert Pieces(items)[0] == piece && Pieces(items)[1..] == Pieces(items[1..]);
    if |items| > 1 {
      PrintJoins(items[1..]);
      assert Print(items[1..]) == [';'] + Print(items[1..])[1..];
    }
  }

  lemma {:induction false} JoinSemis(parts: seq<string>)
    requires parts != []
    ensures Semis(Join(parts)) == Total(parts) + |parts| - 1
  {
    if |parts| == 1 {
      TotalOne(parts[0]);
    } else {
      JoinSemis(parts[1..]);
      SemisConcat(parts[0] + [';'], Join(parts[1..]));
      SemisConcat(parts[0], [';']);
      assert Semis([';']) == 1;
    }
  }

  lemma {:induction false} TotalMonotone(a: seq<string>, b: seq<string>)
    requires |a| == |b| && forall j :: 0 <= j < |a| ==> Semis(a[j]) <= Semis(b[j])
    ensures Total(a) <= Total(b)
    ensures Total(a) == Total(b) ==> forall j :: 0 <= j < |a| ==> Semis(a[j]) == Semis(b[j])
  {
    hide Semis;
    if a != [] {
      TotalMonotone(a[1..], b[1..]);
    }
  }

  lemma ShorterHasFewer(a: string, x: string, b: string, y: string)
    requires a + [';'] + x == b + [';'] + y && |a| < |b|
    ensures Semis(a) < Semis(b)
  {
    assert Semis([';']) == 1;
    hide Semis;
    var middle := PrefixWithin(a, x, b, y);
    SemisConcat(a + [';'], middle);
    SemisConcat(a, [';']);
  }

  lemma PrefixWithin(a: string, x: string, b: string, y: string) returns (middle: string)
    requires a + [';'] + x == b + [';'] + y && |a| < |b|
    ensures b == a + [';'] + middle
  {
    var whole := a + [';'] + x;
    assert b == whole[..|b|];
    middle := b[|a| + 1..];
    assert whole[..|a| + 1] == a + [';'];
    assert b == whole[..|a| + 1] + middle;
  }

  /** A joined text falls apart in one way once the semicolons of each part are known. */
  lemma {:induction false} JoinInjective(a: seq<string>, b: seq<string>)
    requires |a| == |b| > 0 && Join(a) == Join(b)
    requires forall j :: 0 <= j < |a| ==> Semis(a[j]) == Semis(b[j])
    ensures a == b
  {
    hide Semis;
    if |a| > 1 {
      var x, y := Join(a[1..]), Join(b[1..]);
      if |a[0]| < |b[0]| {
        ShorterHasFewer(a[0], x, b[0], y);
      } else if |b[0]| < |a[0]| {
        ShorterHasFewer(b[0], y, a[0], x);
      } else {
        assert a[0] == Join(a)[..|a[0]|] && b[0] == Join(b)[..|a[0]|];
        assert x == Join(a)[|a[0]| + 1..] && y == Join(b)[|a[0]| + 1..];
        JoinInjective(a[1..], b[1..]);
        assert a == [a[0]] + a[1..] && b == [b[0]] + b[1..];
      }
    }
  }

  // ------------------------------------------------------------------ what the splitter returns is separable

  lemma {:induction false} PrefixIsQuiet(s: string, mode: Mode)
    ensures var n := PieceEnd(s, mode);
            PieceEnd(s[..n], mode) == n && (n < |s| ==> Quiet(s[..n], mode, Outside))
  {
    var n := PieceEnd(s, mode);
    if n > 0 {
      PrefixIsQuiet(s[1..], Step(mode, s[0]));
      assert s[..n][1..] == s[1..][..n - 1];
    }
  }

  lemma {:induction false} SplitIsSeparable(s: string)
    ensures Separable(SplitList(s))
    decreases |s|
  {
    var n := PieceEnd(s, Outside);
    PrefixIsQuiet(s, Outside);
    hide PieceEnd, Quiet;
    if n == |s| {
      assert s[..n] == s;
    } else {
      SplitIsSeparable(s[n + 1..]);
    }
  }

  // ------------------------------------------------------------------ what reading back a value needs

  lemma {:induction false} SanitizeCleans(s: string)
    ensures Clean(Sanitize(s))
  {
    if s != "" {
      SanitizeCleans(s[1..]);
    }
  }

  lemma {:induction false} UnescapeKeepsClean(s: string)
    requires Clean(s)
    ensures Clean(UnescapeQuotes(s))
    decreases |s|
  {
    if |s| >= 2 {
      assert s[0] in s;
      if s[0] == BACKSLASH && s[1] == QUOTE {
        UnescapeKeepsClean(s[2..]);
      } else {
        UnescapeKeepsClean(s[1..]);
      }
    }
  }

  lemma EscapeIsClean(v: string)
    ensures Clean(Escape(v))
  {
    SanitizeCleans(v);
    SanitizeCleans(EscapeQuotes(v));
  }

  lemma ReadKeepsClean(s: string)
    requires Clean(s)
    ensures Clean(Unquote(TrimSpace(s)))
  {
    hide UnescapeQuotes, TrimSpace;
    var r := TrimSpace(s);
    TrimKeepsClean(s);
    if |r| >= 2 {
      UnescapeKeepsClean(r[1..|r| - 1]);
    }
  }

  lemma TrimKeepsClean(s: string)
    requires Clean(s)
    ensures Clean(TrimSpace(s))
  {
    hide TrimLeft, TrimRight;
    var l, r := TrimLeft(s), TrimSpace(s);
    assert forall c :: c in l ==> c in s;
    assert forall c :: c in r ==> c in l;
  }

  lemma FixedIsTrimmed(v: string)
    requires TrimSpace(v) == v
    ensures Trimmed(v)
  {
    assert TrimLeft(v) == v;
    assert TrimRight(v) == v;
  }

  /** A plain value loses the spaces around it. */
  lemma PlainValue(v: string)
    requires Clean(v) && !NeedsQuotes(v) && !Trimmed(v)
    ensures Unquote(TrimSpace(Escape(v))) != v
  {
    hide TrimSpace, TrimLeft, TrimRight, Trimmed, UnescapeQuotes;
    SanitizeClean(v);
    var r := TrimSpace(v);
    NoQuoteKept(v);
    if r == v {
      FixedIsTrimmed(v);
    }
  }

  lemma NoQuoteKept(v: string)
    requires QUOTE !in v
    ensures TrimSpace(v) != "" ==> TrimSpace(v)[0] != QUOTE
  {
    var l, r := TrimLeft(v), TrimSpace(v);
    assert r != "" ==> r[0] == l[0] == v[|v| - |l|];
  }

  /** A value is read back exactly when it is faithful. */
  lemma ValueExactly(v: string)
    ensures Unquote(TrimSpace(Escape(v))) == v <==> Faithful(v)
  {
    hide Unquote, TrimSpace, Escape, Clean, NeedsQuotes, Trimmed;
    if Faithful(v) {
      ValueRoundTrip(v);
    } else if Clean(v) {
      PlainValue(v);
    } else {
      EscapeIsClean(v);
      ReadKeepsClean(Escape(v));
    }
  }

  // ------------------------------------------------------------------ the exact condition

  lemma PieceSemis(p: Param)
    requires TokenKey(p.key) && (p.hasValue || p.value == "")
    ensures Semis(Piece(p)) == Semis(p.value)
  {
    KeyPrintsItself(p.key);
    NoSemis(p.key);
    SemisEscape(p.value);
    SemisConcat(p.key + ['='], Escape(p.value));
    SemisConcat(p.key, ['=']);
    assert Semis(['=']) == 0;
  }

  lemma {:induction false} NoSemis(s: string)
    requires ';' !in s
    ensures Semis(s) == 0
  {
    if s != "" {
      assert s[0] in s;
      NoSemis(s[1..]);
    }
  }

  lemma PiecesSemis(items: seq<Param>)
    requires Named(items)
    ensures forall j :: 0 <= j < |items| ==> Semis(Pieces(items)[j]) == Semis(Values(items)[j])
  {
    hide Semis, Piece, TokenKey;
    forall j | 0 <= j < |items| ensures Semis(Pieces(items)[j]) == Semis(Values(items)[j]) {
      PieceSemis(items[j]);
    }
  }

  /** If the parts parse back to the items, they are the printed pieces. */
  lemma PartsArePieces(items: seq<Param>, parts: seq<string>)
    requires Named(items) && items != [] && parts != []
    requires Join(parts) == Join(Pieces(items)) && ParseParts([], parts) == Ok(items)
    ensures parts == Pieces(items)
    ensures forall j :: 0 <= j < |items| ==> items[j] == Reading(parts[j])
  {
    hide Semis, Total, Values, Pieces, Join, ParseParts, Named, Reading;
    var pieces := Pieces(items);
    assert |pieces| == |items| by { assert pieces == Pieces(items); PiecesLength(items); }
    ParsingGrows([], parts, items);
    NoValues();
    JoinSemis(parts);
    JoinSemis(pieces);
    PiecesSemis(items);
    TotalMonotone(pieces, Values(items));
    TotalMonotone(Values(items), pieces);
    assert |parts| == |items| && Total(parts) == Total(pieces);
    forall j | 0 <= j < |items| ensures items[j] == Reading(parts[j]) && Semis(pieces[j]) <= Semis(parts[j]) {
      ReadingSemis(parts[j]);
      ValueAt(items, j);
    }
    TotalMonotone(pieces, parts);
    JoinInjective(parts, pieces);
  }

  lemma PiecesLength(items: seq<Param>)
    ensures |Pieces(items)| == |items|
  {
  }

  lemma NoValues()
    ensures Total(Values([])) == 0
  {
  }

  lemma ValueAt(items: seq<Param>, j: nat)
    requires j < |items|
    ensures Values(items)[j] == items[j].value
  {
  }

  lemma ReadingOfPiece(p: Param)
    requires TokenKey(p.key) && p.hasValue && Reading(Piece(p)) == p
    ensures Faithful(p.value)
  {
    hide Escape, Unquote, TrimSpace, Cut, Faithful;
    KeyPrintsItself(p.key);
    CutAt(p.key, '=', Escape(p.value));
    ValueExactly(p.value);
  }

  lemma NothingIsSeparable()
    ensures Separable(Pieces([]))
  {
  }

  // ------------------------------------------------------------------ the condition on the values

  /** Reading a value that stands inside quotes and whose quotes were escaped: an escaped quote is taken for text
      inside quotes, for the end of the quotes after a backslash, and for their start outside. None is a semicolon
      outside quotes. */
  function Through(v: string, mode: Mode): Option<Mode> {
    if v == "" then Some(mode)
    else if v[0] == QUOTE then Through(v[1..], if mode == Escaped then Outside else Inside)
    else if v[0] == ';' && mode == Outside then None
    else if v[0] == BACKSLASH && mode == Inside then Through(v[1..], Escaped)
    else Through(v[1..], if mode == Outside then Outside else Inside)
  }

  /** The value can be quoted at the end of the list. */
  predicate Tolerable(v: string) { NeedsQuotes(v) ==> Through(v, Inside).Some? }

  /** The value can be quoted anywhere. */
  predicate Closed(v: string) { NeedsQuotes(v) ==> Through(v, Inside) == Some(Inside) }

  predicate ValuesSafe(items: seq<Param>) {
    forall i :: 0 <= i < |items| && items[i].hasValue ==>
      Tolerable(items[i].value) && (i + 1 < |items| ==> Closed(items[i].value))
  }

  /** The mode of the scanner after a text without a semicolon outside quotes. */
  function ScanEnd(s: string, mode: Mode): Option<Mode> {
    if s == "" then Some(mode)
    else if mode == Outside && s[0] == ';' then None
    else ScanEnd(s[1..], Step(mode, s[0]))
  }

  lemma {:induction false} ScanIs(s: string, mode: Mode, last: Mode)
    ensures ScanEnd(s, mode).None? <==> PieceEnd(s, mode) < |s|
    ensures Quiet(s, mode, last) <==> ScanEnd(s, mode) == Some(last)
  {
    if s != "" && !(mode == Outside && s[0] == ';') {
      ScanIs(s[1..], Step(mode, s[0]), last);
    }
  }

  lemma {:induction false} ScanConcat(a: string, b: string, mode: Mode)
    ensures ScanEnd(a + b, mode) == if ScanEnd(a, mode).None? then None else ScanEnd(b, ScanEnd(a, mode).value)
  {
    if a == "" {
      assert a + b == b;
    } else {
      assert (a + b)[1..] == a[1..] + b;
      if !(mode == Outside && a[0] == ';') {
        ScanConcat(a[1..], b, Step(mode, a[0]));
      }
    }
  }

  lemma ScanTwo(mode: Mode)
    ensures ScanEnd([BACKSLASH, QUOTE], mode) == Some(if mode == Escaped then Outside else Inside)
  {
    assert [BACKSLASH, QUOTE][1..] == [QUOTE] && [QUOTE][1..] == "";
    assert ScanEnd([QUOTE], Step(mode, BACKSLASH)) == Some(Step(Step(mode, BACKSLASH), QUOTE));
  }

  lemma {:induction false} ThroughIsScan(v: string, mode: Mode)
    ensures ScanEnd(EscapeQuotes(v), mode) == Through(v, mode)
  {
    if v != "" {
      var rest := EscapeQuotes(v[1..]);
      if v[0] == QUOTE {
        ScanTwo(mode);
        ScanConcat([BACKSLASH, QUOTE], rest, mode);
        ThroughIsScan(v[1..], if mode == Escaped then Outside else Inside);
      } else {
        assert ([v[0]] + rest)[1..] == rest;
        ThroughIsScan(v[1..], Step(mode, v[0]));
      }
    }
  }

  lemma ScanQuoted(v: string)
    ensures ScanEnd([QUOTE] + EscapeQuotes(v) + [QUOTE], Outside) ==
            match Through(v, Inside) case None => None case Some(m) => Some(Step(m, QUOTE))
  {
    ThroughIsScan(v, Inside);
    ScanConcat([QUOTE] + EscapeQuotes(v), [QUOTE], Outside);
    ScanConcat([QUOTE], EscapeQuotes(v), Outside);
    assert [QUOTE][1..] == "";
    assert forall m :: ScanEnd([QUOTE], m) == Some(Step(m, QUOTE));
  }

  lemma ScanPlain(s: string)
    requires QUOTE !in s && ';' !in s
    ensures ScanEnd(s, Outside) == Some(Outside)
  {
    QuietPlain(s);
    ScanIs(s, Outside, Outside);
  }

  lemma ScanValue(v: string)
    requires Faithful(v)
    ensures ScanEnd(Escape(v), Outside).Some? <==> Tolerable(v)
    ensures ScanEnd(Escape(v), Outside) == Some(Outside) <==> Closed(v)
  {
    hide Escape, Through, ScanEnd, EscapeQuotes;
    ValueRoundTrip(v);
    ScanQuoted(v);
    if !NeedsQuotes(v) {
      ScanPlain(v);
    }
  }

  lemma ScanPiece(p: Param)
    requires TokenKey(p.key) && (p.hasValue ==> Faithful(p.value))
    ensures ScanEnd(Piece(p), Outside).Some? <==> p.hasValue ==> Tolerable(p.value)
    ensures ScanEnd(Piece(p), Outside) == Some(Outside) <==> p.hasValue ==> Closed(p.value)
  {
    hide Escape, Through, ScanEnd, EscapeQuotes, TokenKey, Faithful;
    KeyPrintsItself(p.key);
    ScanPlain(p.key);
    ScanPlain(p.key + ['=']);
    if p.hasValue {
      ScanValue(p.value);
      ScanConcat(p.key + ['='], Escape(p.value), Outside);
    }
  }

  lemma SeparableByValues(items: seq<Param>)
    requires Named(items) && AllFaithful(items)
    ensures Separable(Pieces(items)) <==> ValuesSafe(items)
  {
    hide Piece, TokenKey, Faithful, Tolerable, Closed, Quiet, PieceEnd, ScanEnd;
    forall i | 0 <= i < |items|
      ensures PieceEnd(Pieces(items)[i], Outside) == |Pieces(items)[i]| <==> items[i].hasValue ==> Tolerable(items[i].value)
      ensures Quiet(Pieces(items)[i], Outside, Outside) <==> items[i].hasValue ==> Closed(items[i].value)
    {
      ScanPiece(items[i]);
      ScanIs(Piece(items[i]), Outside, Outside);
    }
  }

  /** A list of named parameters survives printing and parsing exactly when its values are free of CR, LF and NUL and
      trimmed or quoted, no quoted value lets a semicolon stand outside the quotes, and each but the last ends
      inside them. */
  lemma RoundTripExactly(items: seq<Param>)
    requires Named(items)
    ensures Parse(Print(items)) == Ok(items) <==> AllFaithful(items) && ValuesSafe(items)
  {
    hide Named, AllFaithful, Separable, ValuesSafe, Parse, Print;
    SplitsExactly(items);
    if AllFaithful(items) {
      SeparableByValues(items);
    }
  }

  /** The same on the printed pieces. */
  lemma SplitsExactly(items: seq<Param>)
    requires Named(items)
    ensures Parse(Print(items)) == Ok(items) <==> AllFaithful(items) && Separable(Pieces(items))
  {
    hide Faithful, TokenKey, Piece, Separable, SplitList, Join, ParseParts, Reading;
    NothingIsSeparable();
    if AllFaithful(items) && Separable(Pieces(items)) {
      SeparableRoundTrip(items);
    }
    if items != [] && Parse(Print(items)) == Ok(items) {
      var text := Print(items)[1..];
      SplitJoins(text);
      PrintJoins(items);
      var parts := SplitList(text);
      SplitIsSeparable(text);
      PartsArePieces(items, parts);
      forall i | 0 <= i < |items| && items[i].hasValue ensures Faithful(items[i].value) {
        assert parts[i] == Piece(items[i]);
        ReadingOfPiece(items[i]);
      }
    }
  }
}
