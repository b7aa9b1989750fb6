/** The parts of Go's strings and strconv packages that the wire format rests on, over ASCII text. */
module Text {
  import opened Basics

  const TAB: char := '\t'
  const CR: char := '\r'
  const LF: char := '\n'
  const QUOTE: char := '"'
  const BACKSLASH: char := '\\'

  predicate IsSpace(c: char) {
    c == ' ' || c == '\t' || c == '\n' || c == '\r' || c == '\U{B}' || c == '\U{C}'
  }

  predicate SpaceFree(s: string) { forall i :: 0 <= i < |s| ==> !IsSpace(s[i]) }

  // ------------------------------------------------------------------ case

  function LowerChar(c: char): char { if 'A' <= c <= 'Z' then (c as int + 32) as char else c }

  function UpperChar(c: char): char { if 'a' <= c <= 'z' then (c as int - 32) as char else c }

  function Lower(s: string): (r: string)
    ensures |r| == |s|
  {
    seq(|s|, i requires 0 <= i < |s| => LowerChar(s[i]))
  }

  function Upper(s: string): (r: string)
    ensures |r| == |s|
  {
    seq(|s|, i requires 0 <= i < |s| => UpperChar(s[i]))
  }

  predicate EqualFold(a: string, b: string) { Lower(a) == Lower(b) }

  // ------------------------------------------------------------------ trimming

  function TrimLeft(s: string): (r: string)
    ensures |r| <= |s| && r == s[|s| - |r|..]
    ensures r == "" || !IsSpace(r[0])
  {
    if s != "" && IsSpace(s[0]) then TrimLeft(s[1..]) else s
  }

  function TrimRight(s: string): (r: string)
    ensures r <= s
    ensures r == "" || !IsSpace(r[|r| - 1])
  {
    if s != "" && IsSpace(s[|s| - 1]) then TrimRight(s[..|s| - 1]) else s
  }

  function TrimSpace(s: string): string { TrimRight(TrimLeft(s)) }

  /** No space at either end. */
  predicate Trimmed(s: string) { s == "" || (!IsSpace(s[0]) && !IsSpace(s[|s| - 1])) }

  lemma TrimTrimmed(s: string)
    requires Trimmed(s)
    ensures TrimSpace(s) == s
  {
  }

  lemma TrimFree(s: string)
    requires SpaceFree(s)
    ensures TrimSpace(s) == s && Trimmed(s)
  {
  }

  predicate Blank(s: string) { forall i :: 0 <= i < |s| ==> s[i] == ' ' || s[i] == TAB }

  lemma {:induction false} TrimLeftPad(a: string, s: string)
    requires Blank(a)
    ensures TrimLeft(a + s) == TrimLeft(s)
  {
    if a == "" {
      assert a + s == s;
    } else {
      assert (a + s)[1..] == a[1..] + s;
      TrimLeftPad(a[1..], s);
    }
  }

  lemma {:induction false} TrimRightPad(s: string, b: string)
    requires Blank(b)
    ensures TrimRight(s + b) == TrimRight(s)
  {
    if b == "" {
      assert s + b == s;
    } else {
      var n := |b| - 1;
      assert (s + b)[..|s| + n] == s + b[..n];
      TrimRightPad(s, b[..n]);
    }
  }

  /** Blanks around a trimmed text are trimmed away. */
  lemma TrimPad(a: string, s: string, b: string)
    requires Blank(a) && Blank(b) && Trimmed(s)
    ensures TrimSpace(a + s + b) == s
  {
    hide TrimLeft, TrimRight;
    assert a + s + b == a + (s + b);
    TrimLeftPad(a, s + b);
    if s == "" {
      assert s + b == b + "" && "" + b == b;
      TrimLeftPad(b, "");
      TrimOfNothing();
    } else {
      TrimLeftKeeps(s + b);
      TrimRightPad(s, b);
      TrimRightKeepsAll(s);
    }
  }

  lemma TrimOfNothing()
    ensures TrimLeft("") == "" && TrimRight("") == ""
  {
  }

  lemma TrimLeftKeeps(s: string)
    requires s != "" && !IsSpace(s[0])
    ensures TrimLeft(s) == s
  {
  }

  lemma TrimRightKeepsAll(s: string)
    requires s != "" && !IsSpace(s[|s| - 1])
    ensures TrimRight(s) == s
  {
  }

  // ------------------------------------------------------------------ searching, cutting and splitting

  function IndexOf(s: string, c: char): (i: int)
    ensures -1 <= i < |s|
    ensures i >= 0 ==> s[i] == c && c !in s[..i]
    ensures i < 0 <==> c !in s
  {
    if s == "" then -1
    else if s[0] == c then 0
    else
      var k := IndexOf(s[1..], c);
      assert k >= 0 ==> s[..k + 1] == [s[0]] + s[1..][..k];
      assert s == [s[0]] + s[1..];
      if k < 0 then -1 else k + 1
  }

  function LastIndexOf(s: string, c: char): (i: int)
    ensures -1 <= i < |s|
    ensures i >= 0 ==> s[i] == c && c !in s[i + 1..]
    ensures i < 0 <==> c !in s
  {
    if s == "" then -1
    else
      var n := |s| - 1;
      if s[n] == c then assert s[n + 1..] == []; n
      else
        var k := LastIndexOf(s[..n], c);
        assert s[k + 1..] == s[..n][k + 1..] + [s[n]];
        assert k < 0 ==> s[k + 1..] == s;
        k
  }

  lemma InSlice(s: string, i: int, j: int, k: int)
    ensures 0 <= i <= k < j <= |s| ==> s[k] in s[i..j]
  {
    if 0 <= i <= k < j <= |s| {
      assert s[i..j][k - i] == s[k];
    }
  }

  lemma IndexAt(a: string, c: char, b: string)
    requires c !in a
    ensures IndexOf(a + [c] + b, c) == |a|
  {
    hide IndexOf;
    var s := a + [c] + b;
    var i := IndexOf(s, c);
    assert s[|a|] == c && s[..|a|] == a;
    InSlice(s, 0, |a|, i);
    InSlice(s, 0, i, |a|);
  }

  lemma LastIndexAt(a: string, c: char, b: string)
    requires c !in b
    ensures LastIndexOf(a + [c] + b, c) == |a|
  {
    hide LastIndexOf;
    var s := a + [c] + b;
    var i := LastIndexOf(s, c);
    assert s[|a|] == c && s[|a| + 1..] == b;
    InSlice(s, i + 1, |s|, |a|);
    InSlice(s, |a| + 1, |s|, i);
  }

  /** strings.Cut: the text before and after the first c, and whether there is one. */
  function Cut(s: string, c: char): (string, string, bool) {
    var i := IndexOf(s, c);
    if i < 0 then (s, "", false) else (s[..i], s[i + 1..], true)
  }

  lemma CutAt(a: string, c: char, b: string)
    requires c !in a
    ensures Cut(a + [c] + b, c) == (a, b, true)
  {
    IndexAt(a, c, b);
    assert (a + [c] + b)[..|a|] == a && (a + [c] + b)[|a| + 1..] == b;
  }

  /** strings.Split on one separator. */
  function Split(s: string, c: char): (parts: seq<string>)
    ensures |parts| > 0
    decreases |s|
  {
    var i := IndexOf(s, c);
    if i < 0 then [s] else [s[..i]] + Split(s[i + 1..], c)
  }

  lemma SplitAt(a: string, c: char, b: string)
    requires c !in a
    ensures Split(a + [c] + b, c) == [a] + Split(b, c)
  {
    IndexAt(a, c, b);
    assert (a + [c] + b)[..|a|] == a && (a + [c] + b)[|a| + 1..] == b;
  }

  /** strings.Fields: the maximal space-free words. */
  function Fields(s: string): seq<string>
    decreases |s|
  {
    if s == "" then []
    else if IsSpace(s[0]) then Fields(s[1..])
    else
      var n := WordEnd(s);
      [s[..n]] + Fields(s[n..])
  }

  function WordEnd(s: string): (n: nat)
    ensures n <= |s| && SpaceFree(s[..n])
    ensures n < |s| ==> IsSpace(s[n])
    ensures s != "" && !IsSpace(s[0]) ==> n > 0
  {
    if s == "" || IsSpace(s[0]) then 0
    else
      var n := WordEnd(s[1..]) + 1;
      assert s[..n] == [s[0]] + s[1..][..n - 1];
      n
  }

  lemma WordEndAt(w: string, rest: string)
    requires SpaceFree(w) && (rest == "" || IsSpace(rest[0]))
    ensures WordEnd(w + rest) == |w|
  {
    if w == "" {
      assert w + rest == rest;
    } else {
      assert (w + rest)[1..] == w[1..] + rest;
      WordEndAt(w[1..], rest);
    }
  }

  lemma FieldsWord(w: string)
    requires w != "" && SpaceFree(w)
    ensures Fields(w) == [w]
  {
    WordEndAt(w, "");
    assert w + "" == w;
    assert w[..|w|] == w && w[|w|..] == "";
  }

  lemma FieldsCons(w: string, rest: string)
    requires w != "" && SpaceFree(w)
    ensures Fields(w + [' '] + rest) == [w] + Fields(rest)
  {
    var s := w + ([' '] + rest);
    assert w + [' '] + rest == s;
    WordEndAt(w, [' '] + rest);
    assert s[..|w|] == w && s[|w|..] == [' '] + rest;
    assert ([' '] + rest)[1..] == rest;
  }

  // ------------------------------------------------------------------ numerals

  function DigitChar(d: nat): char
    requires d < 16
  {
    if d < 10 then ('0' as int + d) as char else ('a' as int + d - 10) as char
  }

  function DigitOf(c: char): int {
    if '0' <= c <= '9' then c as int - '0' as int
    else if 'a' <= c <= 'f' then c as int - 'a' as int + 10
    else if 'A' <= c <= 'F' then c as int - 'A' as int + 10
    else -1
  }

  function Numeral(n: nat, base: nat): (s: string)
    requires 2 <= base <= 16
    ensures s != ""
  {
    if n < base then [DigitChar(n)] else Numeral(n / base, base) + [DigitChar(n % base)]
  }

  predicate IsNumeral(s: string, base: nat) {
    s != "" && forall i :: 0 <= i < |s| ==> 0 <= DigitOf(s[i]) < base
  }

  /** The value of a non-empty run of digits. */
  function ValueOf(s: string, base: nat): nat
    requires IsNumeral(s, base)
  {
    var n := |s| - 1;
    (if n == 0 then 0 else ValueOf(s[..n], base) * base) + DigitOf(s[n])
  }

  /** strconv.ParseUint with a bound on the value. */
  function ParseUint(s: string, base: nat, bound: int): Option<nat> {
    if IsNumeral(s, base) && ValueOf(s, base) < bound then Some(ValueOf(s, base)) else None
  }

  const INT_BOUND: int := 0x8000_0000_0000_0000
  const UINT32_BOUND: nat := 0x1_0000_0000

  /** strconv.Atoi: an optional sign and digits, within the 64-bit range. */
  function Atoi(s: string): Option<int> {
    if s != "" && s[0] == '-' then
      var v := ParseUint(s[1..], 10, INT_BOUND + 1);
      if v.Some? then Some(0 - v.value) else None
    else
      var v := ParseUint(if s != "" && s[0] == '+' then s[1..] else s, 10, INT_BOUND);
      if v.Some? then Some(v.value) else None
  }

  /** strconv.Itoa. */
  function Itoa(n: int): string { if n < 0 then ['-'] + Numeral(-n, 10) else Numeral(n, 10) }

  lemma AppendDigit(front: string, d: nat, base: nat)
    requires IsNumeral(front, base) && d < base <= 16
    ensures IsNumeral(front + [DigitChar(d)], base)
    ensures ValueOf(front + [DigitChar(d)], base) == ValueOf(front, base) * base + d
  {
    var s := front + [DigitChar(d)];
    assert forall i :: 0 <= i < |front| ==> s[i] == front[i];
    assert s[..|s| - 1] == front;
  }

  lemma {:induction false} NumeralValue(n: nat, base: nat)
    requires base == 10 || base == 16
    ensures IsNumeral(Numeral(n, base), base) && ValueOf(Numeral(n, base), base) == n
  {
    if n < base {
      assert DigitOf(DigitChar(n)) == n;
    } else {
      NumeralValue(n / base, base);
      AppendDigit(Numeral(n / base, base), n % base, base);
      hide ValueOf, IsNumeral, DigitOf, DigitChar;
      if base == 10 {
        assert n / 10 * 10 + n % 10 == n;
      } else {
        assert n / 16 * 16 + n % 16 == n;
      }
    }
  }

  lemma NumeralShape(s: string)
    requires IsNumeral(s, 10)
    ensures SpaceFree(s) && s[0] != '-' && s[0] != '+'
  {
    forall i | 0 <= i < |s| ensures !IsSpace(s[i]) {
      assert 0 <= DigitOf(s[i]) < 10;
    }
    assert 0 <= DigitOf(s[0]) < 10;
  }

  lemma ParseUintNumeral(n: nat, bound: int)
    requires n < bound
    ensures ParseUint(Numeral(n, 10), 10, bound) == Some(n)
    ensures IsNumeral(Numeral(n, 10), 10) && SpaceFree(Numeral(n, 10))
  {
    NumeralValue(n, 10);
    NumeralShape(Numeral(n, 10));
  }

  /** Printing then parsing an integer gives it back. */
  lemma AtoiItoa(n: int)
    requires -INT_BOUND <= n < INT_BOUND
    ensures Atoi(Itoa(n)) == Some(n)
    ensures Itoa(n) != "" && SpaceFree(Itoa(n))
    ensures n >= 0 ==> IsNumeral(Itoa(n), 10)
  {
    var m := if n < 0 then -n else n;
    ParseUintNumeral(m, if n < 0 then INT_BOUND + 1 else INT_BOUND);
    var s := Numeral(m, 10);
    NumeralShape(s);
    hide Numeral, ValueOf, IsNumeral, ParseUint;
    if n < 0 {
      assert Itoa(n)[1..] == s;
    }
  }
}
