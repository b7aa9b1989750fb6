/** The proxy's fork tables as mutable objects (proxy.go). Each method is one lock section, and its
    contract says which step of the ForkGroup machine the section performs on the group of its key,
    whatever else the tables hold. */
module Proxies {
  import opened Basics
  import opened BestResponse
  import opened ForkGroup

  class BranchState {
    var final: Option<Response>
    var isFinal: bool

    constructor ()
      ensures !isFinal && final == None
    {
      final, isFinal := None, false;
    }

    method MarkFinal(response: Response)
      modifies this
      ensures isFinal && final == Some(response)
    {
      isFinal := true;
      final := Some(response);
    }
  }

  /** The finals held by a list of branches, in list order; a branch without one is skipped. */
  function FinalsHeld(branches: seq<BranchState>): seq<Response>
    reads branches
  {
    if branches == [] then []
    else
      var n := |branches| - 1;
      var before := FinalsHeld(branches[..n]);
      if branches[n].final.Some? then before + [branches[n].final.value] else before
  }

  class Proxy {
    var branches: map<string, seq<BranchState>>
    var cancelled: map<string, bool>

    constructor ()
      ensures branches == map[] && cancelled == map[]
    {
      branches, cancelled := map[], map[];
    }

    function Entry(key: string): seq<BranchState>
      reads this
    {
      if key in branches then branches[key] else []
    }

    function Claimed(key: string): bool
      reads this
    {
      key in cancelled && cancelled[key]
    }

    /** The tables at `key`, together with the branches started for it so far, are the machine state g. */
    ghost predicate Represents(key: string, started: seq<BranchState>, g: Group)
      reads this, started
    {
      && |started| == |g.marks|
      && (forall i, j :: 0 <= i < j < |started| ==> started[i] != started[j])
      && (forall i :: 0 <= i < |started| ==>
            && (started[i].isFinal <==> g.marks[i].Some?)
            && (started[i].isFinal ==> started[i].final == g.marks[i]))
      && |Entry(key)| == |g.entry|
      && (forall k :: 0 <= k < |g.entry| ==> g.entry[k] < |started| && Entry(key)[k] == started[g.entry[k]])
      && Claimed(key) == g.cancelled
    }

    /** The lock section that opens a group. */
    method OpenGroup(key: string, ghost targets: nat, ghost exhausted: bool)
      modifies this
      ensures branches == old(branches)[key := []] && cancelled == old(cancelled)[key := false]
      ensures Represents(key, [], Init(targets, exhausted))
    {
      branches := branches[key := []];
      cancelled := cancelled[key := false];
    }

    /** The lock section that registers a branch whose request went out. */
    method Register(key: string, bs: BranchState, ghost started: seq<BranchState>, ghost g: Group)
      requires Represents(key, started, g) && Enabled(g, StartBranch)
      requires bs !in started && !bs.isFinal
      modifies this
      ensures branches == old(branches)[key := old(Entry(key)) + [bs]] && cancelled == old(cancelled)
      ensures Represents(key, started + [bs], Next(g, StartBranch))
    {
      branches := branches[key := Entry(key) + [bs]];
    }

    /** branchState.markFinal by the runner of branch b. */
    method MarkBranch(key: string, response: Response, ghost started: seq<BranchState>, ghost g: Group,
                      bs: BranchState, ghost b: nat)
      requires Represents(key, started, g) && |g.runners| == |g.marks|
      requires b < |started| && started[b] == bs
      modifies bs
      ensures bs.isFinal && bs.final == Some(response)
      ensures forall next :: Represents(key, started, MarkFinal(g, b, response, next))
    {
      bs.MarkFinal(response);
    }

    /** The lock section of checkGroupDone and of the Timer C callback. */
    method Snapshot(key: string, ghost started: seq<BranchState>, ghost g: Group)
      returns (list: seq<BranchState>, claimed: bool)
      requires Represents(key, started, g)
      ensures claimed == g.cancelled && |list| == |g.entry|
      ensures forall k :: 0 <= k < |list| ==> g.entry[k] < |started| && list[k] == started[g.entry[k]]
    {
      list := Entry(key);
      claimed := Claimed(key);
    }

    /** The lock section of deliverFinal: the first runner to enter claims the group. */
    method Claim(key: string, ghost started: seq<BranchState>, ghost g: Group, ghost b: nat) returns (won: bool)
      requires Represents(key, started, g) && Enabled(g, Advance(b)) && g.runners[b].Claiming?
      modifies this
      ensures won == !old(Claimed(key)) && branches == old(branches)
      ensures cancelled == if won then old(cancelled)[key := true] else old(cancelled)
      ensures Represents(key, started, Next(g, Advance(b)))
      ensures won <==> Next(g, Advance(b)).runners[b].Responding?
    {
      won := !Claimed(key);
      if won {
        cancelled := cancelled[key := true];
      }
    }

    /** Called by a runner that has responded and by the Timer C callback after its own response. */
    method CleanupGroup(key: string, ghost started: seq<BranchState>, ghost g: Group, ghost step: Step)
      requires Represents(key, started, g) && Enabled(g, step)
      requires (step.Advance? && g.runners[step.branch].Cleaning?) || (step.TimerStep? && g.timer.Swept?)
      modifies this
      ensures branches == old(branches) - {key} && cancelled == old(cancelled) - {key}
      ensures Represents(key, started, Next(g, step))
    {
      branches := branches - {key};
      cancelled := cancelled - {key};
    }
  }

  /** The loop of pickBestResponse. */
  method PickBestResponse(branches: seq<BranchState>) returns (best: Option<Response>)
    ensures best == Best(FinalsHeld(branches))
    ensures best.None? <==> forall bs :: bs in branches ==> bs.final.None?
  {
    hide Rank;
    best := None;
    for i := 0 to |branches|
      invariant best == Best(FinalsHeld(branches[..i]))
      invariant best.None? <==> forall k :: 0 <= k < i ==> branches[k].final.None?
    {
      assert branches[..i + 1][..i] == branches[..i];
      ghost var held := FinalsHeld(branches[..i]);
      if branches[i].final.Some? {
        var response := branches[i].final.value;
        assert (held + [response])[..|held|] == held;
        if best.None? || Rank(response.status) > Rank(best.value.status) {
          best := Some(response);
        }
      }
    }
    assert branches[..|branches|] == branches;
  }

  /** What the runner's read-only part of checkGroupDone computes from a snapshot is the machine's choice. */
  lemma {:induction false} SnapshotFinals(started: seq<BranchState>, list: seq<BranchState>, g: Group, seen: seq<nat>)
    requires |started| == |g.marks| && |list| == |seen|
    requires forall i :: 0 <= i < |started| ==> g.marks[i].Some? ==> started[i].final == g.marks[i]
    requires forall k :: 0 <= k < |seen| ==> seen[k] < |started| && list[k] == started[seen[k]]
    requires forall k :: 0 <= k < |seen| ==> g.marks[seen[k]].Some?
    ensures FinalsHeld(list) == FinalsOf(g.marks, seen)
    decreases |seen|
  {
    if |seen| > 0 {
      var n := |seen| - 1;
      SnapshotFinals(started, list[..n], g, seen[..n]);
      assert list[n].final == g.marks[seen[n]];
    }
  }
}
