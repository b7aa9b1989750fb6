/** Headers and the header list (headers.go, headers_map.go). */
module Headers {
  import opened Basics
  import opened Text
  import opened HeaderNames

  /** A header as the parser types it. `Typed` stands for the structured headers (Via, addresses,
      credentials): their canonical name, the text they print, and the branch parameter of a Via. */
  datatype Header =
    | Generic(key: string, text: string)
    | CSeq(number: nat, verb: string)
    | ContentLength(length: nat)
    | MaxForwards(hops: int)
    | Typed(key: string, text: string, branch: string)
  {
    function Name(): string {
      match this
      case Generic(k, _) => k
      case CSeq(_, _) => "CSeq"
      case ContentLength(_) => "Content-Length"
      case MaxForwards(_) => "Max-Forwards"
      case Typed(k, _, _) => k
    }

    function Value(): string {
      match this
      case Generic(_, t) => t
      case CSeq(n, m) => Numeral(n, 10) + [' '] + m
      case ContentLength(n) => Numeral(n, 10)
      case MaxForwards(n) => Itoa(n)
      case Typed(_, t, _) => t
    }
  }

  predicate Named(h: Header, name: string) { Canonical(h.Name()) == Canonical(name) }

  // ------------------------------------------------------------------ the list as an ordered multimap

  /** The headers of that name, in order. */
  function All(list: seq<Header>, name: string): seq<Header> {
    if list == [] then []
    else
      var n := |list| - 1;
      All(list[..n], name) + if Named(list[n], name) then [list[n]] else []
  }

  /** The headers of every other name, in order. */
  function Others(list: seq<Header>, name: string): (r: seq<Header>)
    ensures |r| <= |list|
  {
    if list == [] then []
    else
      var n := |list| - 1;
      Others(list[..n], name) + if Named(list[n], name) then [] else [list[n]]
  }

  function Get(list: seq<Header>, name: string): Option<Header> {
    if list == [] then None
    else if Named(list[0], name) then Some(list[0])
    else Get(list[1..], name)
  }

  /** What Set leaves: the new header where the first one of its name was, or at the end. */
  function Replace(list: seq<Header>, h: Header): seq<Header> {
    if list == [] then [h]
    else if Named(list[0], h.Name()) then [h] + Others(list[1..], h.Name())
    else [list[0]] + Replace(list[1..], h)
  }

  lemma {:induction false} AllConcat(a: seq<Header>, b: seq<Header>, name: string)
    ensures All(a + b, name) == All(a, name) + All(b, name)
    ensures Others(a + b, name) == Others(a, name) + Others(b, name)
  {
    hide Named;
    if b == [] {
      assert a + b == a;
    } else {
      var n := |b| - 1;
      assert (a + b)[..|a + b| - 1] == a + b[..n];
      AllConcat(a, b[..n], name);
    }
  }

  lemma AllCons(h: Header, list: seq<Header>, name: string)
    ensures All([h] + list, name) == (if Named(h, name) then [h] else []) + All(list, name)
    ensures Others([h] + list, name) == (if Named(h, name) then [] else [h]) + Others(list, name)
  {
    hide Named;
    AllConcat([h], list, name);
    assert [h][..0] == [];
  }

  lemma {:induction false} OthersHasNone(list: seq<Header>, name: string)
    ensures All(Others(list, name), name) == []
    ensures Others(Others(list, name), name) == Others(list, name)
  {
    hide Named;
    if list != [] {
      var n := |list| - 1;
      OthersHasNone(list[..n], name);
      AllConcat(Others(list[..n], name), if Named(list[n], name) then [] else [list[n]], name);
    }
  }

  /** Removing one name leaves every other name's headers alone. */
  lemma {:induction false} OthersKeepsNames(list: seq<Header>, name: string, other: string)
    requires Canonical(other) != Canonical(name)
    ensures All(Others(list, name), other) == All(list, other)
  {
    hide Canonical;
    if list != [] {
      var n := |list| - 1;
      OthersKeepsNames(list[..n], name, other);
      AllConcat(Others(list[..n], name), if Named(list[n], name) then [] else [list[n]], other);
    }
  }

  /** After Set the list holds exactly the new header of that name, and everything else in the old order. */
  lemma {:induction false} ReplaceRefinesMultimap(list: seq<Header>, h: Header)
    ensures All(Replace(list, h), h.Name()) == [h]
    ensures Others(Replace(list, h), h.Name()) == Others(list, h.Name())
  {
    hide Canonical;
    var name := h.Name();
    if list == [] {
      assert [h][..0] == [];
    } else {
      AllCons(list[0], list[1..], name);
      assert [list[0]] + list[1..] == list;
      if Named(list[0], name) {
        AllCons(h, Others(list[1..], name), name);
        OthersHasNone(list[1..], name);
      } else {
        ReplaceRefinesMultimap(list[1..], h);
        AllCons(list[0], Replace(list[1..], h), name);
      }
    }
  }

  /** Get is the first element of All. */
  lemma {:induction false} GetIsFirst(list: seq<Header>, name: string)
    ensures Get(list, name) == if All(list, name) == [] then None else Some(All(list, name)[0])
  {
    hide Named;
    if list != [] {
      AllCons(list[0], list[1..], name);
      assert [list[0]] + list[1..] == list;
      GetIsFirst(list[1..], name);
    }
  }

  lemma GetAfterReplace(list: seq<Header>, h: Header)
    ensures Get(Replace(list, h), h.Name()) == Some(h)
  {
    hide Named;
    ReplaceRefinesMultimap(list, h);
    GetIsFirst(Replace(list, h), h.Name());
  }

  lemma GetOtherAfterReplace(list: seq<Header>, h: Header, other: string)
    requires Canonical(other) != Canonical(h.Name())
    ensures Get(Replace(list, h), other) == Get(list, other)
    ensures All(Replace(list, h), other) == All(list, other)
  {
    hide Named;
    ReplaceRefinesMultimap(list, h);
    OthersKeepsNames(list, h.Name(), other);
    OthersKeepsNames(Replace(list, h), h.Name(), other);
    GetIsFirst(list, other);
    GetIsFirst(Replace(list, h), other);
  }

  lemma GetAfterAdd(list: seq<Header>, h: Header, name: string)
    ensures Get(list + [h], name) == if Get(list, name).Some? then Get(list, name) else if Named(h, name) then Some(h) else None
  {
    hide Named;
    GetIsFirst(list, name);
    GetIsFirst(list + [h], name);
    AllConcat(list, [h], name);
    assert [h][..0] == [];
  }

  // ------------------------------------------------------------------ the list object

  /** Set in one formula, given the position of the first header of the name. */
  lemma {:induction false} ReplaceAt(list: seq<Header>, h: Header, i: nat)
    requires i <= |list| && forall k :: 0 <= k < i ==> !Named(list[k], h.Name())
    ensures i == |list| ==> Replace(list, h) == list + [h]
    ensures i < |list| && Named(list[i], h.Name()) ==>
              Replace(list, h) == list[..i] + [h] + Others(list[i + 1..], h.Name())
  {
    hide Named, Others;
    if i == 0 {
      assert list[..0] == [];
    } else {
      ReplaceAt(list[1..], h, i - 1);
      assert list == [list[0]] + list[1..];
      if i < |list| {
        var front, back := list[1..][..i - 1], Others(list[i + 1..], h.Name());
        assert list[1..][i - 1] == list[i] && list[1..][i..] == list[i + 1..];
        assert list[..i] == [list[0]] + front;
        assert [list[0]] + (front + [h] + back) == [list[0]] + front + [h] + back;
      }
    }
  }

  lemma DropStep(before: seq<Header>, after: seq<Header>, done: nat, name: string)
    requires done < |after|
    ensures var kept := Others(after[..done], name);
            var list := before + kept + after[done..];
            var j := |before| + |kept|;
            && j < |list| && list[j] == after[done]
            && (Named(list[j], name) ==>
                  && Others(after[..done + 1], name) == kept
                  && list[..j] + list[j + 1..] == before + kept + after[done + 1..])
            && (!Named(list[j], name) ==>
                  && Others(after[..done + 1], name) == kept + [list[j]]
                  && list == before + (kept + [list[j]]) + after[done + 1..])
  {
    hide Named;
    assert after[..done + 1][..done] == after[..done];
    assert after[done..] == [after[done]] + after[done + 1..];
  }

  /** The inner loop of Set: remove the headers of a name after position i. */
  method DropAfter(list: seq<Header>, i: nat, name: string) returns (work: seq<Header>)
    requires i < |list|
    ensures work == list[..i + 1] + Others(list[i + 1..], name)
  {
    hide Named, Others;
    ghost var before, after := list[..i + 1], list[i + 1..];
    work := list;
    var j := i + 1;
    ghost var done := 0;
    assert after[..0] == [] && Others([], name) == [] by { OthersOfNone(name); }
    while j < |work|
      invariant done <= |after|
      invariant work == before + Others(after[..done], name) + after[done..]
      invariant j == i + 1 + |Others(after[..done], name)|
      decreases |work| - j
    {
      DropStep(before, after, done, name);
      if Named(work[j], name) {
        work := work[..j] + work[j + 1..];
      } else {
        j := j + 1;
      }
      done := done + 1;
    }
    assert after[..done] == after;
  }

  lemma OthersOfNone(name: string)
    ensures Others([], name) == []
  {
  }

  class HeaderList {
    var list: seq<Header>

    constructor ()
      ensures list == []
    {
      list := [];
    }

    method Find(name: string) returns (h: Option<Header>)
      ensures h == Get(list, name)
    {
      hide Named;
      for i := 0 to |list|
        invariant Get(list, name) == Get(list[i..], name)
      {
        if Named(list[i], name) {
          return Some(list[i]);
        }
      }
      return None;
    }

    method Collect(name: string) returns (found: seq<Header>)
      ensures found == All(list, name)
    {
      hide Named;
      found := [];
      for i := 0 to |list|
        invariant found == All(list[..i], name)
      {
        assert list[..i + 1][..i] == list[..i];
        if Named(list[i], name) {
          found := found + [list[i]];
        }
      }
      assert list[..|list|] == list;
    }

    /** Set: overwrite the first header of the name and remove the later ones. */
    method Set(h: Header)
      modifies this
      ensures list == Replace(old(list), h)
    {
      hide Named;
      for i := 0 to |list|
        invariant list == old(list)
        invariant forall k :: 0 <= k < i ==> !Named(list[k], h.Name())
      {
        if Named(list[i], h.Name()) {
          ReplaceAt(list, h, i);
          var work := list[i := h];
          assert work[..i + 1] == list[..i] + [h] && work[i + 1..] == list[i + 1..];
          list := DropAfter(work, i, h.Name());
          return;
        }
      }
      ReplaceAt(list, h, |list|);
      list := list + [h];
    }

    /** Del: compaction inside the backing array, writing behind the reading position. */
    method Del(name: string)
      modifies this
      ensures list == Others(old(list), name)
    {
      hide Named;
      var backing := list;
      var kept := 0;
      for i := 0 to |backing|
        invariant |backing| == |old(list)| && kept <= i
        invariant backing[..kept] == Others(old(list)[..i], name)
        invariant backing[i..] == old(list)[i..]
      {
        var h := backing[i];
        assert h == old(list)[i] by { assert backing[i..][0] == old(list)[i..][0]; }
        assert old(list)[..i + 1][..i] == old(list)[..i];
        if !Named(h, name) {
          backing := backing[kept := h];
          kept := kept + 1;
        }
      }
      assert old(list)[..|backing|] == old(list);
      list := backing[..kept];
    }
  }
}
