/** Parameter lists: the mutable list, its printer and its quote-aware parser (params.go). */
module Params {
  import opened Basics
  import opened Text

  datatype Param = Param(key: string, value: string, hasValue: bool)

  // ------------------------------------------------------------------ the list

  function FindKey(items: seq<Param>, key: string): (i: int)
    ensures -1 <= i < |items|
    ensures i >= 0 ==> EqualFold(items[i].key, key)
    ensures forall k :: 0 <= k < (if i < 0 then |items| else i) ==> !EqualFold(items[k].key, key)
  {
    if items == [] then -1
    else if EqualFold(items[0].key, key) then 0
    else
      var k := FindKey(items[1..], key);
      assert forall j :: 1 <= j < |items| ==> items[j] == items[1..][j - 1];
      if k < 0 then -1 else k + 1
  }

  function Put(items: seq<Param>, p: Param): seq<Param> {
    var i := FindKey(items, p.key);
    if i < 0 then items + [p] else items[i := p]
  }

  function Remove(items: seq<Param>, key: string): seq<Param> {
    var i := FindKey(items, key);
    if i < 0 then items else items[..i] + items[i + 1..]
  }

  /** No two keys are equal up to case. */
  predicate Unique(items: seq<Param>) {
    forall i, j :: 0 <= i < j < |items| ==> !EqualFold(items[i].key, items[j].key)
  }

  lemma PutKeepsUnique(items: seq<Param>, p: Param)
    requires Unique(items)
    ensures Unique(Put(items, p))
    ensures FindKey(Put(items, p), p.key) >= 0 && Put(items, p)[FindKey(Put(items, p), p.key)] == p
  {
    var r := Put(items, p);
    var i := FindKey(items, p.key);
    assert r[if i < 0 then |items| else i] == p;
  }

  /** On a list without repeated keys the single removal of Del is complete, and removes nothing else. */
  lemma RemoveIsComplete(items: seq<Param>, key: string)
    requires Unique(items)
    ensures Unique(Remove(items, key))
    ensures FindKey(Remove(items, key), key) == -1
    ensures forall p :: p in items && !EqualFold(p.key, key) ==> p in Remove(items, key)
    ensures forall p :: p in Remove(items, key) ==> p in items
  {
    hide EqualFold;
    var r, i := Remove(items, key), FindKey(items, key);
    if i >= 0 {
      assert forall k :: 0 <= k < |r| ==> r[k] == items[if k < i then k else k + 1];
      forall k | 0 <= k < |r| ensures !EqualFold(r[k].key, key) {
        if k >= i {
          FoldThrough(items[i].key, key, items[k + 1].key);
        }
      }
      forall p | p in items && !EqualFold(p.key, key) ensures p in r {
        var k :| 0 <= k < |items| && items[k] == p;
        assert p == r[if k < i then k else k - 1];
      }
    }
  }

  lemma FoldThrough(a: string, b: string, c: string)
    requires EqualFold(a, b) && !EqualFold(a, c)
    ensures !EqualFold(c, b)
  {
  }

  class ParamList {
    var items: seq<Param>

    ghost predicate Valid() reads this { Unique(items) }

    constructor ()
      ensures Valid() && items == []
    {
      items := [];
    }

    /** The shared body of Set and SetFlag. */
    method Store(p: Param)
      requires Valid()
      modifies this
      ensures Valid() && items == Put(old(items), p)
    {
      PutKeepsUnique(items, p);
      for i := 0 to |items|
        invariant items == old(items)
        invariant forall k :: 0 <= k < i ==> !EqualFold(items[k].key, p.key)
      {
        if EqualFold(items[i].key, p.key) {
          assert FindKey(items, p.key) == i;
          items := items[i := p];
          return;
        }
      }
      items := items + [p];
    }

    method Find(key: string) returns (value: string, found: bool)
      ensures var i := FindKey(items, key);
              if i >= 0 then value == items[i].value && found == items[i].hasValue else value == "" && !found
    {
      for i := 0 to |items|
        invariant forall k :: 0 <= k < i ==> !EqualFold(items[k].key, key)
      {
        if EqualFold(items[i].key, key) {
          return items[i].value, items[i].hasValue;
        }
      }
      return "", false;
    }

    method Delete(key: string)
      requires Valid()
      modifies this
      ensures Valid() && items == Remove(old(items), key) && FindKey(items, key) == -1
    {
      RemoveIsComplete(items, key);
      for i := 0 to |items|
        invariant items == old(items)
        invariant forall k :: 0 <= k < i ==> !EqualFold(items[k].key, key)
      {
        if EqualFold(items[i].key, key) {
          assert FindKey(items, key) == i;
          items := items[..i] + items[i + 1..];
          return;
        }
      }
    }
  }

  // ------------------------------------------------------------------ printing

  predicate NeedsQuotes(v: string) { '"' in v || ';' in v || '?' in v || ',' in v }

  predicate Clean(s: string) { '\r' !in s && '\n' !in s && '\0' !in s }

  /** sanitizeField: drop CR, LF and NUL. */
  function Sanitize(s: string): string {
    if s == "" then ""
    else if s[0] == '\r' || s[0] == '\n' || s[0] == '\0' then Sanitize(s[1..])
    else [s[0]] + Sanitize(s[1..])
  }

  lemma {:induction false} SanitizeClean(s: string)
    requires Clean(s)
    ensures Sanitize(s) == s
  {
    if s != "" {
      assert s[0] in s;
      SanitizeClean(s[1..]);
    }
  }

  /** strings.ReplaceAll of a quote by a backslash and a quote. */
  function EscapeQuotes(v: string): string {
    if v == "" then ""
    else (if v[0] == QUOTE then [BACKSLASH, QUOTE] else [v[0]]) + EscapeQuotes(v[1..])
  }

  /** strings.ReplaceAll the other way. */
  function UnescapeQuotes(s: string): string
    decreases |s|
  {
    if |s| < 2 then s
    else if s[0] == BACKSLASH && s[1] == QUOTE then [QUOTE] + UnescapeQuotes(s[2..])
    else [s[0]] + UnescapeQuotes(s[1..])
  }

  function Escape(v: string): string {
    if !NeedsQuotes(v) then Sanitize(v) else [QUOTE] + Sanitize(EscapeQuotes(v)) + [QUOTE]
  }

  function Piece(p: Param): string {
    if p.hasValue then Escape(p.key) + ['='] + Escape(p.value) else Escape(p.key)
  }

  function Print(items: seq<Param>): string {
    if items == [] then "" else [';'] + Piece(items[0]) + Print(items[1..])
  }

  lemma PrintFrom(items: seq<Param>, i: nat)
    requires i < |items|
    ensures Print(items[i..]) == [';'] + Piece(items[i]) + Print(items[i + 1..])
  {
    assert items[i..][1..] == items[i + 1..];
  }

  /** The builder loop of Params.String. */
  method Render(items: seq<Param>) returns (b: string)
    ensures b == Print(items)
  {
    hide Print, Escape, Piece;
    b := "";
    PrintNothing();
    assert items[0..] == items;
    for i := 0 to |items|
      invariant b + Print(items[i..]) == Print(items)
    {
      PrintFrom(items, i);
      PieceIs(items[i]);
      var piece := [';'] + Escape(items[i].key);
      if items[i].hasValue {
        piece := piece + ['='];
        piece := piece + Escape(items[i].value);
      }
      Associate(b, piece, Print(items[i + 1..]));
      b := b + piece;
    }
    assert items[|items|..] == [];
  }

  lemma PrintNothing()
    ensures Print([]) == ""
  {
  }

  lemma PieceIs(p: Param)
    ensures [';'] + Piece(p) == if p.hasValue then [';'] + Escape(p.key) + ['='] + Escape(p.value) else [';'] + Escape(p.key)
  {
    hide Escape;
  }

  lemma Associate<T>(a: seq<T>, b: seq<T>, c: seq<T>)
    ensures a + (b + c) == a + b + c
  {
  }

  // ------------------------------------------------------------------ splitting outside quotes

  datatype Mode = Outside | Inside | Escaped

  function Step(mode: Mode, c: char): Mode {
    match mode
    case Escaped => Inside
    case Inside => if c == BACKSLASH then Escaped else if c == QUOTE then Outside else Inside
    case Outside => if c == QUOTE then Inside else Outside
  }

  /** Length of the text before the first semicolon outside quotes, starting in some mode. */
  function PieceEnd(s: string, mode: Mode): (n: nat)
    ensures n <= |s|
    ensures n < |s| ==> s[n] == ';'
  {
    if s == "" || (mode == Outside && s[0] == ';') then 0 else 1 + PieceEnd(s[1..], Step(mode, s[0]))
  }

  function SplitList(s: string): seq<string>
    decreases |s|
  {
    var n := PieceEnd(s, Outside);
    if n == |s| then [s] else [s[..n]] + SplitList(s[n + 1..])
  }

  lemma ScanStep(s: string, i: nat, mode: Mode)
    requires i < |s|
    ensures mode == Outside && s[i] == ';' ==> PieceEnd(s[i..], mode) == 0
    ensures !(mode == Outside && s[i] == ';') ==> PieceEnd(s[i..], mode) == 1 + PieceEnd(s[i + 1..], Step(mode, s[i]))
  {
    assert s[i..][1..] == s[i + 1..];
  }

  lemma SplitStep(s: string, start: nat, i: nat)
    requires start <= i <= |s| && PieceEnd(s[start..], Outside) == i - start
    ensures SplitList(s[start..]) == if i == |s| then [s[start..]] else [s[start..i]] + SplitList(s[i + 1..])
  {
    if i < |s| {
      assert s[start..][..i - start] == s[start..i] && s[start..][i - start + 1..] == s[i + 1..];
    }
  }

  /** The scanning loop of splitParamList. */
  method SplitParamList(s: string) returns (out: seq<string>)
    ensures out == SplitList(s)
  {
    hide SplitList, PieceEnd, Step;
    out := [];
    var mode := Outside;
    var start := 0;
    assert s[0..] == s;
    for i := 0 to |s|
      invariant 0 <= start <= i
      invariant out + SplitList(s[start..]) == SplitList(s)
      invariant PieceEnd(s[start..], Outside) == i - start + PieceEnd(s[i..], mode)
    {
      ScanStep(s, i, mode);
      if mode == Outside && s[i] == ';' {
        SplitStep(s, start, i);
        Associate(out, [s[start..i]], SplitList(s[i + 1..]));
        out := out + [s[start..i]];
        start := i + 1;
      } else {
        mode := Step(mode, s[i]);
      }
    }
    EndOfText(mode);
    assert s[|s|..] == "";
    SplitStep(s, start, |s|);
    out := out + [s[start..]];
  }

  lemma EndOfText(mode: Mode)
    ensures PieceEnd("", mode) == 0
  {
  }

  // ------------------------------------------------------------------ parsing

  function Unquote(s: string): string {
    if |s| >= 2 && s[0] == QUOTE && s[|s| - 1] == QUOTE then UnescapeQuotes(s[1..|s| - 1]) else s
  }

  const BAD_KEY_CHARS: string := "\";,?<>()@:\\[]"

  predicate KeyCharsOk(k: string) { forall c :: c in k ==> c !in BAD_KEY_CHARS }

  /** One part of the list: nothing for an empty part, an error for a bad key. */
  function ParsePart(items: seq<Param>, part: string): Result<seq<Param>> {
    if part == "" then Ok(items)
    else
      var (k, v, found) := Cut(part, '=');
      var key := TrimSpace(k);
      if key == "" || !KeyCharsOk(key) then Err
      else if found then Ok(Put(items, Param(Lower(key), Unquote(TrimSpace(v)), true)))
      else Ok(Put(items, Param(Lower(key), "", false)))
  }

  function ParseParts(items: seq<Param>, parts: seq<string>): Result<seq<Param>>
    decreases |parts|
  {
    if parts == [] then Ok(items)
    else
      match ParsePart(items, parts[0])
      case Err => Err
      case Ok(next) => ParseParts(next, parts[1..])
  }

  function Parse(s: string): Result<seq<Param>> {
    var text := if s != "" && s[0] == ';' then s[1..] else s;
    if text == "" then Ok([]) else ParseParts([], SplitList(text))
  }

  lemma ParsePartUnique(items: seq<Param>, part: string)
    requires Unique(items)
    ensures ParsePart(items, part).Ok? ==> Unique(ParsePart(items, part).value)
  {
    hide Unique, Put, Unquote, Lower, TrimSpace, KeyCharsOk, Cut;
    var (k, v, found) := Cut(part, '=');
    PutKeepsUnique(items, Param(Lower(TrimSpace(k)), Unquote(TrimSpace(v)), true));
    PutKeepsUnique(items, Param(Lower(TrimSpace(k)), "", false));
  }

  lemma {:induction false} ParsePartsUnique(items: seq<Param>, parts: seq<string>)
    requires Unique(items)
    ensures ParseParts(items, parts).Ok? ==> Unique(ParseParts(items, parts).value)
    decreases |parts|
  {
    hide Unique, ParsePart;
    if parts != [] && ParsePart(items, parts[0]).Ok? {
      ParsePartUnique(items, parts[0]);
      ParsePartsUnique(ParsePart(items, parts[0]).value, parts[1..]);
    }
  }

  /** Whatever the text, a parsed list has no two keys equal up to case. */
  lemma ParsedIsUnique(s: string)
    ensures Parse(s).Ok? ==> Unique(Parse(s).value)
  {
    if Parse(s).Ok? {
      var text := if s != "" && s[0] == ';' then s[1..] else s;
      if text != "" {
        ParsePartsUnique([], SplitList(text));
      }
    }
  }

  // ------------------------------------------------------------------ print then parse

  predicate TokenKey(k: string) {
    k != "" && Lower(k) == k && Trimmed(k) && KeyCharsOk(k) && '=' !in k && Clean(k)
  }

  /** Inside quotes every quote of the value, and its end, comes after an even run of backslashes. */
  predicate Balanced(v: string, mode: Mode) {
    if v == "" then mode == Inside
    else if v[0] == QUOTE then mode == Inside && Balanced(v[1..], Inside)
    else Balanced(v[1..], Step(mode, v[0]))
  }

  /** A value that printing neither changes nor leaves open to trimming. */
  predicate Faithful(v: string) { Clean(v) && (NeedsQuotes(v) || Trimmed(v)) }

  predicate GoodValue(v: string) { Faithful(v) && (NeedsQuotes(v) ==> Balanced(v, Inside)) }

  /** Distinct lower-case token keys; flags hold no value. */
  predicate Named(items: seq<Param>) {
    && (forall i :: 0 <= i < |items| ==> TokenKey(items[i].key) && (items[i].hasValue || items[i].value == ""))
    && (forall i, j :: 0 <= i < j < |items| ==> items[i].key != items[j].key)
  }

  predicate AllFaithful(items: seq<Param>) {
    forall i :: 0 <= i < |items| && items[i].hasValue ==> Faithful(items[i].value)
  }

  predicate WellFormed(items: seq<Param>) {
    Named(items) && forall i :: 0 <= i < |items| && items[i].hasValue ==> GoodValue(items[i].value)
  }

  /** The condition on quoted values holds of every value without a backslash. */
  lemma {:induction false} NoBackslashIsBalanced(v: string)
    requires BACKSLASH !in v
    ensures Balanced(v, Inside)
  {
    if v != "" {
      assert v[0] in v;
      NoBackslashIsBalanced(v[1..]);
    }
  }

  lemma {:induction false} UnescapeEscape(v: string)
    ensures UnescapeQuotes(EscapeQuotes(v)) == v
    ensures v != "" ==> EscapeQuotes(v) != "" && EscapeQuotes(v)[0] != QUOTE
  {
    if v != "" {
      UnescapeEscape(v[1..]);
      var rest := EscapeQuotes(v[1..]);
      if v[0] == QUOTE {
        assert EscapeQuotes(v)[2..] == rest;
      } else {
        assert EscapeQuotes(v)[1..] == rest;
        if |v| > 1 {
          assert EscapeQuotes(v)[1] == rest[0];
        }
      }
      assert [v[0]] + v[1..] == v;
    }
  }

  lemma {:induction false} EscapeClean(v: string)
    requires Clean(v)
    ensures Clean(EscapeQuotes(v))
  {
    if v != "" {
      assert v[0] in v;
      EscapeClean(v[1..]);
    }
  }

  /** A value survives printing and parsing. */
  lemma ValueRoundTrip(v: string)
    requires Faithful(v)
    ensures Unquote(TrimSpace(Escape(v))) == v
    ensures Escape(v) == if NeedsQuotes(v) then [QUOTE] + EscapeQuotes(v) + [QUOTE] else v
  {
    hide EscapeQuotes, UnescapeQuotes, Sanitize, TrimSpace, NeedsQuotes;
    if NeedsQuotes(v) {
      EscapeClean(v);
      SanitizeClean(EscapeQuotes(v));
      UnescapeEscape(v);
      var s := [QUOTE] + EscapeQuotes(v) + [QUOTE];
      assert s[1..|s| - 1] == EscapeQuotes(v);
      TrimTrimmed(s);
    } else {
      SanitizeClean(v);
      TrimTrimmed(v);
      NoQuoteInside(v);
    }
  }

  lemma NoQuoteInside(v: string)
    requires !NeedsQuotes(v)
    ensures v != "" ==> v[0] != QUOTE
  {
    assert v != "" ==> v[0] in v;
  }

  // -- a piece holds no semicolon outside quotes and ends outside quotes

  predicate Quiet(s: string, mode: Mode, last: Mode) {
    if s == "" then mode == last
    else !(mode == Outside && s[0] == ';') && Quiet(s[1..], Step(mode, s[0]), last)
  }

  lemma {:induction false} QuietConcat(a: string, b: string, m0: Mode, m1: Mode, m2: Mode)
    requires Quiet(a, m0, m1) && Quiet(b, m1, m2)
    ensures Quiet(a + b, m0, m2)
  {
    if a == "" {
      assert a + b == b;
    } else {
      assert (a + b)[1..] == a[1..] + b;
      QuietConcat(a[1..], b, Step(m0, a[0]), m1, m2);
    }
  }

  lemma {:induction false} QuietPlain(s: string)
    requires QUOTE !in s && ';' !in s
    ensures Quiet(s, Outside, Outside)
  {
    if s != "" {
      assert s[0] in s;
      QuietPlain(s[1..]);
    }
  }

  lemma {:induction false} QuietQuoted(v: string, mode: Mode)
    requires mode != Outside && Balanced(v, mode)
    ensures Quiet(EscapeQuotes(v), mode, Inside)
  {
    if v != "" {
      var rest := EscapeQuotes(v[1..]);
      if v[0] == QUOTE {
        QuietQuoted(v[1..], Inside);
        var s := [BACKSLASH, QUOTE] + rest;
        assert s[1..] == [QUOTE] + rest && s[1..][1..] == rest;
      } else {
        QuietQuoted(v[1..], Step(mode, v[0]));
        assert ([v[0]] + rest)[1..] == rest;
      }
    }
  }

  lemma QuietValue(v: string)
    requires GoodValue(v)
    ensures Quiet(Escape(v), Outside, Outside)
  {
    ValueRoundTrip(v);
    if NeedsQuotes(v) {
      QuietQuoted(v, Inside);
      assert Quiet([QUOTE], Outside, Inside) && Quiet([QUOTE], Inside, Outside);
      QuietConcat([QUOTE], EscapeQuotes(v), Outside, Inside, Inside);
      QuietConcat([QUOTE] + EscapeQuotes(v), [QUOTE], Outside, Inside, Outside);
    } else {
      QuietPlain(v);
    }
  }

  lemma KeyPrintsItself(k: string)
    requires TokenKey(k)
    ensures Escape(k) == k && QUOTE !in k && ';' !in k
  {
    assert QUOTE in BAD_KEY_CHARS && ';' in BAD_KEY_CHARS && '?' in BAD_KEY_CHARS && ',' in BAD_KEY_CHARS;
    SanitizeClean(k);
  }

  lemma QuietPiece(p: Param)
    requires TokenKey(p.key) && (p.hasValue ==> GoodValue(p.value))
    ensures Quiet(Piece(p), Outside, Outside)
  {
    KeyPrintsItself(p.key);
    QuietPlain(p.key);
    if p.hasValue {
      QuietValue(p.value);
      assert Quiet(['='], Outside, Outside);
      QuietConcat(p.key, ['='], Outside, Outside, Outside);
      QuietConcat(p.key + ['='], Escape(p.value), Outside, Outside, Outside);
    }
  }

  lemma {:induction false} QuietEnd(s: string, rest: string, mode: Mode)
    requires Quiet(s, mode, Outside) && (rest == "" || rest[0] == ';')
    ensures PieceEnd(s + rest, mode) == |s|
  {
    if s == "" {
      assert s + rest == rest;
    } else {
      assert (s + rest)[1..] == s[1..] + rest;
      QuietEnd(s[1..], rest, Step(mode, s[0]));
    }
  }

  function Pieces(items: seq<Param>): seq<string> {
    seq(|items|, i requires 0 <= i < |items| => Piece(items[i]))
  }

  lemma SplitFirst(piece: string, rest: string)
    requires PieceEnd(piece + rest, Outside) == |piece|
    ensures SplitList(piece + rest) == if rest == "" then [piece] else [piece] + SplitList(rest[1..])
  {
    if rest == "" {
      assert piece + rest == piece;
    } else {
      assert (piece + rest)[..|piece|] == piece;
      assert (piece + rest)[|piece| + 1..] == rest[1..];
    }
  }

  /** The scanner meets no semicolon outside quotes in any of the pieces, and leaves each but the last outside
      quotes. */
  predicate Separable(pieces: seq<string>) {
    forall i :: 0 <= i < |pieces| ==>
      && PieceEnd(pieces[i], Outside) == |pieces[i]|
      && (i + 1 < |pieces| ==> Quiet(pieces[i], Outside, Outside))
  }

  /** The splitter undoes the printer, semicolons and quotes in values included. */
  lemma {:induction false} SplitPrinted(items: seq<Param>)
    requires items != [] && Separable(Pieces(items))
    ensures SplitList(Print(items)[1..]) == Pieces(items)
  {
    hide Piece, Quiet, PieceEnd, SplitList;
    var piece, rest := Piece(items[0]), Print(items[1..]);
    assert Print(items)[1..] == piece + rest;
    assert Pieces(items)[0] == piece && Pieces(items)[1..] == Pieces(items[1..]);
    if |items| > 1 {
      QuietEnd(piece, rest, Outside);
    } else {
      assert piece + rest == piece;
    }
    SplitFirst(piece, rest);
    if |items| > 1 {
      SplitPrinted(items[1..]);
      assert Pieces(items) == [piece] + Pieces(items[1..]);
    }
  }

  lemma NewKeyIsAppended(items: seq<Param>, p: Param)
    requires TokenKey(p.key) && forall q :: q in items ==> TokenKey(q.key) && q.key != p.key
    ensures Put(items, p) == items + [p]
  {
    assert forall i :: 0 <= i < |items| ==> items[i] in items;
  }

  lemma PartRoundTrip(items: seq<Param>, p: Param)
    requires TokenKey(p.key) && (if p.hasValue then Faithful(p.value) else p.value == "")
    requires forall q :: q in items ==> TokenKey(q.key) && q.key != p.key
    ensures ParsePart(items, Piece(p)) == Ok(items + [p])
  {
    KeyPrintsItself(p.key);
    NewKeyIsAppended(items, p);
    assert TrimSpace(p.key) == p.key;
    if p.hasValue {
      ValueRoundTrip(p.value);
      CutAt(p.key, '=', Escape(p.value));
    } else {
      assert Cut(p.key, '=') == (p.key, "", false);
    }
    hide Put, Escape, Unquote, Cut, KeyCharsOk, TrimSpace;
  }

  lemma {:induction false} PartsRoundTrip(items: seq<Param>, n: nat)
    requires Named(items) && AllFaithful(items) && n <= |items|
    ensures ParseParts(items[..n], Pieces(items)[n..]) == Ok(items)
    decreases |items| - n
  {
    hide TokenKey, Faithful, Piece, ParsePart;
    var parts := Pieces(items)[n..];
    if n == |items| {
      assert items[..n] == items;
    } else {
      PartRoundTrip(items[..n], items[n]);
      assert items[..n] + [items[n]] == items[..n + 1];
      assert parts[0] == Piece(items[n]) && parts[1..] == Pieces(items)[n + 1..];
      PartsRoundTrip(items, n + 1);
    }
  }

  /** Pieces that the splitter keeps apart are read back. */
  lemma SeparableRoundTrip(items: seq<Param>)
    requires Named(items) && AllFaithful(items) && Separable(Pieces(items))
    ensures Parse(Print(items)) == Ok(items)
  {
    if items != [] {
      SplitPrinted(items);
      PartsRoundTrip(items, 0);
      assert items[..0] == [] && Pieces(items)[0..] == Pieces(items);
      assert Piece(items[0]) != "" by { KeyPrintsItself(items[0].key); }
    }
  }

  /** Printing a well-formed list and parsing it gives the list back. */
  lemma RoundTrip(items: seq<Param>)
    requires WellFormed(items)
    ensures Parse(Print(items)) == Ok(items)
  {
    hide Parse, Print, Piece, Quiet, PieceEnd, TokenKey;
    forall i | 0 <= i < |items|
      ensures Quiet(Pieces(items)[i], Outside, Outside) && PieceEnd(Pieces(items)[i], Outside) == |Pieces(items)[i]|
    {
      QuietPiece(items[i]);
      QuietEnd(Piece(items[i]), "", Outside);
      assert Piece(items[i]) + "" == Piece(items[i]);
    }
    SeparableRoundTrip(items);
  }

  /** A value in which a quote follows a backslash. */
  const AWKWARD: string := "\\\";"

  lemma AwkwardEscaped()
    ensures Escape(AWKWARD) == "\"\\\\\";\""
  {
    var v := AWKWARD;
    assert EscapeQuotes(v[2..]) == ";" by { assert v[2..][1..] == ""; }
    assert v[1..][1..] == v[2..];
    assert EscapeQuotes(v[1..]) == [BACKSLASH, QUOTE] + ";";
    assert EscapeQuotes(v) == "\\\\\";";
    SanitizeClean("\\\\\";");
  }

  lemma AwkwardPrinted()
    ensures Print([Param("k", AWKWARD, true)]) == ";k=\"\\\\\";\""
  {
    AwkwardEscaped();
    SanitizeClean("k");
    assert Escape("k") == "k";
    hide Escape;
    var p := Param("k", AWKWARD, true);
    assert Piece(p) == "k" + ['='] + "\"\\\\\";\"";
    assert [p][1..] == [];
    assert Print([p]) == [';'] + Piece(p) + "";
  }

  lemma AwkwardQuiet()
    ensures Quiet("k=\"\\\\\"", Outside, Outside)
  {
    QuietPlain("k=");
    assert Quiet("\"", Outside, Inside) && Quiet("\"", Inside, Outside) && Quiet("\\\\", Inside, Inside) by {
      assert "\""[1..] == "" && "\\\\"[1..] == "\\" && "\\"[1..] == "";
      assert Quiet("\\", Escaped, Inside);
    }
    hide Quiet;
    QuietConcat("k=", "\"", Outside, Outside, Inside);
    QuietConcat("k=\"", "\\\\", Outside, Inside, Inside);
    QuietConcat("k=\"\\\\", "\"", Outside, Inside, Outside);
    assert "k=" + "\"" == "k=\"" && "k=\"" + "\\\\" == "k=\"\\\\" && "k=\"\\\\" + "\"" == "k=\"\\\\\"";
  }

  lemma AwkwardSplit()
    ensures SplitList("k=\"\\\\\";\"") == ["k=\"\\\\\"", "\""]
  {
    var piece := "k=\"\\\\\"";
    AwkwardQuiet();
    QuietEnd(piece, ";\"", Outside);
    SplitFirst(piece, ";\"");
    assert PieceEnd("\"", Outside) == 1 by { assert "\""[1..] == ""; }
    assert SplitList("\"") == ["\""];
    hide Quiet, SplitList, PieceEnd;
    assert piece + ";\"" == "k=\"\\\\\";\"";
    assert ";\""[1..] == "\"";
  }

  /** The condition on backslashes is needed: a backslash before a quote ends the quoted text too early, and
      the semicolon after it splits the value. */
  lemma BackslashQuoteBreaks()
    ensures Parse(Print([Param("k", AWKWARD, true)])) == Err
  {
    AwkwardPrinted();
    AwkwardSplit();
    QuoteIsNoKey();
    hide SplitList, ParsePart, Print;
    var text := ";k=\"\\\\\";\"";
    assert text[1..] == "k=\"\\\\\";\"";
    assert ["k=\"\\\\\"", "\""][1..] == ["\""];
  }

  lemma QuoteIsNoKey()
    ensures forall items :: ParsePart(items, "\"") == Err
  {
    assert Cut("\"", '=') == ("\"", "", false) && TrimSpace("\"") == "\"";
    assert "\""[0] in BAD_KEY_CHARS;
    assert !KeyCharsOk("\"");
  }
}
