/** Choice of the best final response of a fork group (proxy.go, `pickBestResponse`). */
module BestResponse {
  import opened Basics

  const PREFERENCES: seq<int> := [491, 600, 603, 486, 404, 403, 401, 407, 415, 503, 500, 502, 504]

  function IndexFrom(codes: seq<int>, code: int, from: nat): (i: int)
    requires from <= |codes|
    ensures i == -1 || (from <= i < |codes| && codes[i] == code)
    ensures i == -1 <==> code !in codes[from..]
    ensures i >= 0 ==> forall j :: from <= j < i ==> codes[j] != code
    decreases |codes| - from
  {
    if from == |codes| then -1
    else if codes[from] == code then from
    else IndexFrom(codes, code, from + 1)
  }

  function Rank(code: int): int {
    if IsSuccess(code) then 1000
    else
      var i := IndexFrom(PREFERENCES, code, 0);
      if i >= 0 then 900 - i else code
  }

  /** Left fold over the branch finals: a later response wins only with a strictly higher rank. */
  function Best(finals: seq<Response>): Option<Response> {
    if |finals| == 0 then None
    else
      var last := finals[|finals| - 1];
      match Best(finals[..|finals| - 1])
      case None => Some(last)
      case Some(b) => if Rank(last.status) > Rank(b.status) then Some(last) else Some(b)
  }

  /** On valid non-success finals the rank identifies the status code. */
  lemma RankInjective(a: int, b: int)
    requires IsFinalCode(a) && IsFinalCode(b) && !IsSuccess(a) && !IsSuccess(b)
    requires Rank(a) == Rank(b)
    ensures a == b
  {
  }

  /** A success outranks every other valid final. */
  lemma SuccessOutranks(code: int)
    requires IsFinalCode(code)
    ensures Rank(code) == 1000 <==> IsSuccess(code)
    ensures Rank(code) <= 1000
  {
  }

  /** The chosen response is the earliest one of maximal rank. */
  lemma {:induction false} BestIsEarliestMaximum(finals: seq<Response>) returns (at: nat)
    requires |finals| > 0
    ensures at < |finals| && Best(finals) == Some(finals[at])
    ensures forall k :: 0 <= k < |finals| ==> Rank(finals[k].status) <= Rank(finals[at].status)
    ensures forall k :: 0 <= k < at ==> Rank(finals[k].status) < Rank(finals[at].status)
  {
    hide Rank;
    var n := |finals| - 1;
    if n == 0 {
      assert Best(finals[..0]).None?;
      at := 0;
    } else {
      var before := BestIsEarliestMaximum(finals[..n]);
      assert forall k :: 0 <= k < n ==> finals[..n][k] == finals[k];
      at := if Rank(finals[n].status) > Rank(finals[before].status) then n else before;
    }
  }

  predicate Occurs(finals: seq<Response>, code: int) { exists r :: r in finals && r.status == code }

  lemma Distinct(i: nat, k: nat)
    requires i < k < |PREFERENCES|
    ensures PREFERENCES[i] != PREFERENCES[k]
  {
  }

  lemma ListedAreFinal(k: nat)
    requires k < |PREFERENCES|
    ensures 400 <= PREFERENCES[k] <= 699
  {
  }

  lemma RankOfListed(k: nat)
    requires k < |PREFERENCES|
    ensures Rank(PREFERENCES[k]) == 900 - k
  {
    hide IndexFrom;
    ListedAreFinal(k);
    var i := IndexFrom(PREFERENCES, PREFERENCES[k], 0);
    assert PREFERENCES[0..] == PREFERENCES && PREFERENCES[k] in PREFERENCES;
    if i < k {
      Distinct(i, k);
    }
  }

  lemma RankOfOther(code: int)
    requires IsFinalCode(code) && !IsSuccess(code) && code !in PREFERENCES
    ensures Rank(code) == code <= 699
  {
  }

  predicate AllRejections(finals: seq<Response>) {
    |finals| > 0 && forall r :: r in finals ==> IsFinalCode(r.status) && !IsSuccess(r.status)
  }

  lemma HighestRank(finals: seq<Response>) returns (best: Response)
    requires |finals| > 0
    ensures Best(finals) == Some(best) && best in finals
    ensures forall r :: r in finals ==> Rank(r.status) <= Rank(best.status)
  {
    hide Rank;
    var at := BestIsEarliestMaximum(finals);
    best := finals[at];
    forall r | r in finals ensures Rank(r.status) <= Rank(best.status) {
      var i :| 0 <= i < |finals| && finals[i] == r;
    }
  }

  lemma ListedIsBest(finals: seq<Response>, k: nat)
    requires AllRejections(finals) && k < |PREFERENCES| && Occurs(finals, PREFERENCES[k])
    requires forall j :: 0 <= j < k ==> !Occurs(finals, PREFERENCES[j])
    ensures Best(finals).Some? && Best(finals).value.status == PREFERENCES[k]
  {
    hide Rank, Best;
    var best := HighestRank(finals);
    RankOfListed(k);
    assert Occurs(finals, best.status);
    if best.status in PREFERENCES {
      var m :| 0 <= m < |PREFERENCES| && PREFERENCES[m] == best.status;
      RankOfListed(m);
    } else {
      RankOfOther(best.status);
    }
  }

  lemma GreatestIsBest(finals: seq<Response>)
    requires AllRejections(finals) && forall k :: 0 <= k < |PREFERENCES| ==> !Occurs(finals, PREFERENCES[k])
    ensures Best(finals).Some? && forall r :: r in finals ==> r.status <= Best(finals).value.status
  {
    hide Rank, Best;
    var best := HighestRank(finals);
    forall r | r in finals ensures r.status <= best.status {
      NotListed(finals, r.status);
      NotListed(finals, best.status);
      RankOfOther(r.status);
      RankOfOther(best.status);
    }
  }

  /** Without a success the status sent upstream is the first of a fixed list of codes that some branch ended with,
      and the greatest status of all when no branch ended with any of them. */
  lemma BestFollowsTheList(finals: seq<Response>)
    requires |finals| > 0 && forall r :: r in finals ==> IsFinalCode(r.status) && !IsSuccess(r.status)
    ensures Best(finals).Some? && Best(finals).value in finals
    ensures var order := [491, 600, 603, 486, 404, 403, 401, 407, 415, 503, 500, 502, 504];
            var status := Best(finals).value.status;
            && (forall k :: 0 <= k < |order| && Occurs(finals, order[k]) && (forall j :: 0 <= j < k ==> !Occurs(finals, order[j]))
                  ==> status == order[k])
            && ((forall k :: 0 <= k < |order| ==> !Occurs(finals, order[k])) ==>
                  forall r :: r in finals ==> r.status <= status)
  {
    hide Rank, Best, Occurs;
    var order := [491, 600, 603, 486, 404, 403, 401, 407, 415, 503, 500, 502, 504];
    assert order == PREFERENCES;
    var _ := HighestRank(finals);
    forall k | 0 <= k < |order| && Occurs(finals, order[k]) && (forall j :: 0 <= j < k ==> !Occurs(finals, order[j]))
      ensures Best(finals).value.status == order[k]
    {
      ListedIsBest(finals, k);
    }
    if forall k :: 0 <= k < |order| ==> !Occurs(finals, order[k]) {
      GreatestIsBest(finals);
    }
  }

  lemma NotListed(finals: seq<Response>, code: int)
    requires Occurs(finals, code) && forall k :: 0 <= k < |PREFERENCES| ==> !Occurs(finals, PREFERENCES[k])
    ensures code !in PREFERENCES
  {
  }

  /** With a success among them the earliest success is chosen. */
  lemma FirstSuccessIsBest(finals: seq<Response>, i: nat)
    requires i < |finals| && IsSuccess(finals[i].status) && forall r :: r in finals ==> IsFinalCode(r.status)
    requires forall j :: 0 <= j < i ==> !IsSuccess(finals[j].status)
    ensures Best(finals) == Some(finals[i])
  {
    hide Rank;
    var at := BestIsEarliestMaximum(finals);
    assert finals[at] in finals && finals[i] in finals;
    SuccessOutranks(finals[at].status);
    SuccessOutranks(finals[i].status);
  }

  /** The chosen status does not depend on the order of the branches, and is a success exactly
      when some branch succeeded. */
  lemma BestOrderFree(finals: seq<Response>, reordered: seq<Response>)
    requires |finals| > 0 && multiset(finals) == multiset(reordered)
    requires forall r :: r in finals ==> IsFinalCode(r.status)
    ensures Best(finals).Some? && Best(reordered).Some?
    ensures IsSuccess(Best(finals).value.status) <==> exists r :: r in finals && IsSuccess(r.status)
    ensures IsSuccess(Best(finals).value.status) <==> IsSuccess(Best(reordered).value.status)
    ensures !IsSuccess(Best(finals).value.status) ==> Best(finals).value.status == Best(reordered).value.status
  {
    assert |reordered| == |multiset(reordered)| == |multiset(finals)| == |finals|;
    var i := BestIsEarliestMaximum(finals);
    var j := BestIsEarliestMaximum(reordered);
    var a, b := finals[i], reordered[j];
    assert a in multiset(reordered) && b in multiset(finals);
    var i' :| 0 <= i' < |reordered| && reordered[i'] == a;
    var j' :| 0 <= j' < |finals| && finals[j'] == b;
    assert Rank(a.status) == Rank(b.status);
    SuccessOutranks(a.status);
    SuccessOutranks(b.status);
    if r :| r in finals && IsSuccess(r.status) {
      var k :| 0 <= k < |finals| && finals[k] == r;
    }
    if !IsSuccess(a.status) {
      RankInjective(a.status, b.status);
    }
  }
}
