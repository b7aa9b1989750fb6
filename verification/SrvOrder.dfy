/** Ordering of SRV records by priority with weighted random choice (resolver.go, shuffleSRV; RFC 2782). A
    draw is any number; it is reduced to the range that the code asks of its random source. */
module SrvOrder {

  datatype Srv = Srv(target: string, port: nat, priority: nat, weight: nat)

  datatype HostPort = HostPort(host: string, port: nat)

  function Address(s: Srv): HostPort { HostPort(s.target, s.port) }

  function Addresses(srvs: seq<Srv>): seq<HostPort> {
    seq(|srvs|, i requires 0 <= i < |srvs| => Address(srvs[i]))
  }

  // ------------------------------------------------------------------ the stable sort

  function Insert(x: Srv, sorted: seq<Srv>): seq<Srv> {
    if sorted == [] || x.priority <= sorted[0].priority then [x] + sorted else [sorted[0]] + Insert(x, sorted[1..])
  }

  /** sort.SliceStable by priority. */
  function Sort(srvs: seq<Srv>): seq<Srv> {
    if srvs == [] then [] else Insert(srvs[0], Sort(srvs[1..]))
  }

  predicate ByPriority(srvs: seq<Srv>) {
    forall i, j :: 0 <= i < j < |srvs| ==> srvs[i].priority <= srvs[j].priority
  }

  function OfPriority(srvs: seq<Srv>, priority: nat): seq<Srv> {
    if srvs == [] then []
    else (if srvs[0].priority == priority then [srvs[0]] else []) + OfPriority(srvs[1..], priority)
  }

  lemma {:induction false} InsertPermutes(x: Srv, sorted: seq<Srv>)
    ensures multiset(Insert(x, sorted)) == multiset(sorted) + multiset{x}
    ensures forall s :: s in Insert(x, sorted) ==> s == x || s in sorted
  {
    if sorted != [] && x.priority > sorted[0].priority {
      InsertPermutes(x, sorted[1..]);
      assert sorted == [sorted[0]] + sorted[1..];
    }
  }

  lemma ConsOrdered(first: Srv, later: seq<Srv>)
    requires ByPriority(later) && forall s :: s in later ==> first.priority <= s.priority
    ensures ByPriority([first] + later)
  {
    assert forall k :: 0 <= k < |later| ==> later[k] in later;
  }

  lemma OrderedCons(sorted: seq<Srv>)
    requires sorted != [] && ByPriority(sorted)
    ensures ByPriority(sorted[1..])
    ensures forall s :: s in sorted ==> sorted[0].priority <= s.priority
    ensures forall s :: s in sorted[1..] ==> s in sorted
  {
  }

  lemma {:induction false} InsertSorts(x: Srv, sorted: seq<Srv>)
    requires ByPriority(sorted)
    ensures ByPriority(Insert(x, sorted))
  {
    hide ByPriority;
    if sorted == [] {
      ConsOrdered(x, []);
    } else {
      OrderedCons(sorted);
      if x.priority <= sorted[0].priority {
        ConsOrdered(x, sorted);
      } else {
        InsertSorts(x, sorted[1..]);
        InsertPermutes(x, sorted[1..]);
        ConsOrdered(sorted[0], Insert(x, sorted[1..]));
      }
    }
  }

  lemma OfPriorityCons(x: Srv, rest: seq<Srv>, priority: nat)
    ensures OfPriority([x] + rest, priority) == (if x.priority == priority then [x] else []) + OfPriority(rest, priority)
  {
    assert ([x] + rest)[1..] == rest;
  }

  lemma {:induction false} InsertIsStable(x: Srv, sorted: seq<Srv>, priority: nat)
    ensures OfPriority(Insert(x, sorted), priority) == (if x.priority == priority then [x] else []) + OfPriority(sorted, priority)
  {
    hide OfPriority;
    if sorted == [] || x.priority <= sorted[0].priority {
      OfPriorityCons(x, sorted, priority);
    } else {
      InsertIsStable(x, sorted[1..], priority);
      OfPriorityCons(sorted[0], Insert(x, sorted[1..]), priority);
      OfPriorityCons(sorted[0], sorted[1..], priority);
      assert sorted == [sorted[0]] + sorted[1..];
    }
  }

  lemma {:induction false} SortIsStable(srvs: seq<Srv>, priority: nat)
    ensures ByPriority(Sort(srvs)) && multiset(Sort(srvs)) == multiset(srvs)
    ensures OfPriority(Sort(srvs), priority) == OfPriority(srvs, priority)
  {
    hide ByPriority, OfPriority, Insert;
    if srvs == [] {
      NoneIsOrdered();
    } else {
      SortIsStable(srvs[1..], priority);
      InsertSorts(srvs[0], Sort(srvs[1..]));
      InsertPermutes(srvs[0], Sort(srvs[1..]));
      OfPriorityCons(srvs[0], srvs[1..], priority);
      InsertIsStable(srvs[0], Sort(srvs[1..]), priority);
      assert srvs == [srvs[0]] + srvs[1..];
    }
  }

  lemma SortLength(srvs: seq<Srv>)
    ensures |Sort(srvs)| == |srvs|
  {
    SortIsStable(srvs, 0);
    assert |multiset(Sort(srvs))| == |multiset(srvs)|;
  }

  // ------------------------------------------------------------------ one pick

  /** The sum of the first k weights. */
  function Prefix(group: seq<Srv>, k: nat): nat
    requires k <= |group|
  {
    if k == 0 then 0 else Prefix(group, k - 1) + group[k - 1].weight
  }

  function Total(group: seq<Srv>): nat { Prefix(group, |group|) }

  /** The first position at or after k whose running sum reaches n. */
  function Reaching(group: seq<Srv>, n: nat, k: nat): (r: nat)
    requires k < |group| && Prefix(group, k) < n <= Total(group)
    ensures k <= r < |group| && Prefix(group, r) < n <= Prefix(group, r + 1)
    decreases |group| - k
  {
    if n <= Prefix(group, k + 1) then k else Reaching(group, n, k + 1)
  }

  function Pick(group: seq<Srv>, draw: nat): (k: nat)
    requires group != []
    ensures k < |group|
    ensures Total(group) > 0 ==> group[k].weight > 0
  {
    var total := Total(group);
    if total == 0 then draw % |group| else Reaching(group, draw % total + 1, 0)
  }

  lemma {:induction false} PrefixGrows(group: seq<Srv>, i: nat, j: nat)
    requires i <= j <= |group|
    ensures Prefix(group, i) <= Prefix(group, j)
    decreases j
  {
    if i < j {
      PrefixGrows(group, i, j - 1);
    }
  }

  /** A value of the random source picks position k exactly when it falls in the k-th weight's interval. */
  lemma PickedInterval(group: seq<Srv>, n: nat, k: nat)
    requires k < |group| && 1 <= n <= Total(group)
    ensures Reaching(group, n, 0) == k <==> Prefix(group, k) < n <= Prefix(group, k + 1)
  {
    var r := Reaching(group, n, 0);
    if r < k {
      PrefixGrows(group, r + 1, k);
    } else if k < r {
      PrefixGrows(group, k + 1, r);
    }
  }

  /** The numbers above lo up to hi. */
  function Interval(lo: nat, hi: nat): set<nat> {
    if hi <= lo then {} else Interval(lo, hi - 1) + {hi}
  }

  lemma {:induction false} IntervalSize(lo: nat, hi: nat)
    ensures forall n: nat :: n in Interval(lo, hi) <==> lo < n <= hi
    ensures |Interval(lo, hi)| == if hi <= lo then 0 else hi - lo
    decreases hi
  {
    if lo < hi {
      IntervalSize(lo, hi - 1);
    }
  }

  /** The values of the random source, from 1 to the total weight, that pick position k. */
  function Pickers(group: seq<Srv>, k: nat): set<nat>
    requires group != []
  {
    set n: nat | n in Interval(0, Total(group)) && 1 <= n <= Total(group) && Reaching(group, n, 0) == k
  }

  /** Of the Total possible values of the random source exactly Weight pick a record. */
  lemma PickedByItsWeight(group: seq<Srv>, k: nat)
    requires k < |group|
    ensures |Pickers(group, k)| == group[k].weight
    ensures |Interval(0, Total(group))| == Total(group)
  {
    IntervalSize(0, Total(group));
    IntervalSize(Prefix(group, k), Prefix(group, k + 1));
    PrefixGrows(group, k + 1, |group|);
    forall n: nat ensures n in Pickers(group, k) <==> n in Interval(Prefix(group, k), Prefix(group, k + 1)) {
      if 1 <= n <= Total(group) {
        PickedInterval(group, n, k);
      }
    }
    assert Pickers(group, k) == Interval(Prefix(group, k), Prefix(group, k + 1));
  }

  /** The draws below n that pick position k. */
  function Picking(group: seq<Srv>, n: nat, k: nat): set<nat>
    requires group != []
  {
    set d: nat | d in Interval(0, n) && d >= 1 && Pick(group, d - 1) == k :: d
  }

  /** Of the draws below the total weight exactly Weight pick a record; when all weights are zero, each record is
      picked by exactly one of the draws below the size of the group. */
  lemma DrawsPickByWeight(group: seq<Srv>, k: nat)
    requires k < |group|
    ensures Total(group) > 0 ==> |Picking(group, Total(group), k)| == group[k].weight
    ensures Total(group) == 0 ==> Picking(group, |group|, k) == {k + 1}
  {
    hide Total, Picking, Pickers;
    if Total(group) > 0 {
      PickingIsPickers(group, k);
      PickedByItsWeight(group, k);
    } else {
      PickingIsOne(group, k);
    }
  }

  lemma SmallRemainder(d: nat, n: nat)
    requires d < n
    ensures d % n == d
  {
  }

  lemma PickOf(group: seq<Srv>, d: nat)
    requires group != []
    ensures Total(group) > 0 && d < Total(group) ==> Pick(group, d) == Reaching(group, d + 1, 0)
    ensures Total(group) == 0 && d < |group| ==> Pick(group, d) == d
  {
    hide Reaching, Prefix;
    if d < Total(group) {
      SmallRemainder(d, Total(group));
    }
    if d < |group| {
      SmallRemainder(d, |group|);
    }
  }

  lemma PickingIsPickers(group: seq<Srv>, k: nat)
    requires k < |group| && Total(group) > 0
    ensures Picking(group, Total(group), k) == Pickers(group, k)
  {
    hide Interval, Pick, Reaching, Total;
    IntervalSize(0, Total(group));
    forall d: nat ensures d in Picking(group, Total(group), k) <==> d in Pickers(group, k) {
      if 1 <= d <= Total(group) {
        PickOf(group, d - 1);
      }
    }
  }

  lemma PickingIsOne(group: seq<Srv>, k: nat)
    requires k < |group| && Total(group) == 0
    ensures Picking(group, |group|, k) == {k + 1}
  {
    hide Interval, Pick, Total;
    IntervalSize(0, |group|);
    forall d: nat ensures d in Picking(group, |group|, k) <==> d == k + 1 {
      assert d in Interval(0, |group|) <==> 0 < d <= |group|;
      if 1 <= d <= |group| {
        PickOf(group, d - 1);
      }
    }
  }

  /** The accumulating loop. */
  method PickRecord(group: seq<Srv>, draw: nat) returns (pick: nat)
    requires group != []
    ensures pick == Pick(group, draw)
  {
    var total := 0;
    for i := 0 to |group|
      invariant total == Prefix(group, i)
    {
      total := total + group[i].weight;
    }
    if total == 0 {
      return draw % |group|;
    }
    var n := draw % total + 1;
    var acc := 0;
    for k := 0 to |group|
      invariant acc == Prefix(group, k) && acc < n
      invariant k < |group| ==> Reaching(group, n, 0) == Reaching(group, n, k)
    {
      acc := acc + group[k].weight;
      if acc >= n {
        return k;
      }
    }
    assert false;
  }

  // ------------------------------------------------------------------ a whole group, and all groups

  function Without(group: seq<Srv>, k: nat): seq<Srv>
    requires k < |group|
  {
    group[..k] + group[k + 1..]
  }

  function OrderGroup(group: seq<Srv>, draws: seq<nat>): (r: seq<Srv>)
    requires |draws| >= |group|
    ensures |r| == |group|
    decreases |group|
  {
    if group == [] then []
    else
      var k := Pick(group, draws[0]);
      [group[k]] + OrderGroup(Without(group, k), draws[1..])
  }

  /** Length of the run of records that share the first one's priority. */
  function RunLength(srvs: seq<Srv>, from: nat): (n: nat)
    requires 0 < from <= |srvs|
    ensures from <= n <= |srvs|
    ensures forall k :: from <= k < n ==> srvs[k].priority == srvs[0].priority
    ensures n < |srvs| ==> srvs[n].priority != srvs[0].priority
    decreases |srvs| - from
  {
    if from < |srvs| && srvs[from].priority == srvs[0].priority then RunLength(srvs, from + 1) else from
  }

  function OrderAll(srvs: seq<Srv>, draws: seq<nat>): (r: seq<Srv>)
    requires |draws| >= |srvs|
    ensures |r| == |srvs|
    decreases |srvs|
  {
    if srvs == [] then []
    else
      var n := RunLength(srvs, 1);
      OrderGroup(srvs[..n], draws[..n]) + OrderAll(srvs[n..], draws[n..])
  }

  function Shuffle(srvs: seq<Srv>, draws: seq<nat>): seq<Srv>
    requires |draws| >= |srvs|
  {
    SortLength(srvs);
    OrderAll(Sort(srvs), draws)
  }

  /** Zero weights come last. */
  predicate WeightedFirst(srvs: seq<Srv>) {
    forall i, j :: 0 <= i < j < |srvs| && srvs[i].priority == srvs[j].priority && srvs[i].weight == 0 ==> srvs[j].weight == 0
  }

  lemma WithoutIsRest(group: seq<Srv>, k: nat)
    requires k < |group|
    ensures multiset(group) == multiset{group[k]} + multiset(Without(group, k))
  {
    assert group == group[..k] + [group[k]] + group[k + 1..];
  }

  lemma {:induction false} ZeroTotal(group: seq<Srv>, k: nat)
    requires k <= |group|
    ensures Prefix(group, k) == 0 <==> forall i :: 0 <= i < k ==> group[i].weight == 0
  {
    if k > 0 {
      ZeroTotal(group, k - 1);
    }
  }

  lemma {:induction false} GroupOrder(group: seq<Srv>, draws: seq<nat>)
    requires |draws| >= |group|
    ensures multiset(OrderGroup(group, draws)) == multiset(group)
    ensures forall i, j :: 0 <= i < j < |group| && OrderGroup(group, draws)[i].weight == 0 ==> OrderGroup(group, draws)[j].weight == 0
    decreases |group|
  {
    hide Pick;
    if group != [] {
      var k := Pick(group, draws[0]);
      var rest := Without(group, k);
      GroupOrder(rest, draws[1..]);
      WithoutIsRest(group, k);
      var later := OrderGroup(rest, draws[1..]);
      assert OrderGroup(group, draws) == [group[k]] + later;
      if group[k].weight == 0 {
        ZeroTotal(group, |group|);
        forall j | 0 <= j < |later| ensures later[j].weight == 0 {
          assert later[j] in multiset(later);
          assert later[j] in multiset(group);
        }
      }
    }
  }

  lemma SamePriority(srvs: seq<Srv>, n: nat, head: seq<Srv>)
    requires 0 < n <= |srvs| && multiset(head) == multiset(srvs[..n])
    requires forall k :: 0 <= k < n ==> srvs[k].priority == srvs[0].priority
    ensures forall i :: 0 <= i < |head| ==> head[i].priority == srvs[0].priority
  {
    forall i | 0 <= i < |head| ensures head[i].priority == srvs[0].priority {
      assert head[i] in multiset(head);
      assert head[i] in srvs[..n];
    }
  }

  lemma HigherPriority(srvs: seq<Srv>, n: nat, tail: seq<Srv>)
    requires 0 < n <= |srvs| && multiset(tail) == multiset(srvs[n..]) && ByPriority(srvs)
    requires n < |srvs| ==> srvs[n].priority != srvs[0].priority
    ensures forall j :: 0 <= j < |tail| ==> tail[j].priority > srvs[0].priority
  {
    forall j | 0 <= j < |tail| ensures tail[j].priority > srvs[0].priority {
      assert tail[j] in multiset(tail);
      assert tail[j] in srvs[n..];
      var k :| 0 <= k < |srvs[n..]| && srvs[n..][k] == tail[j];
      assert srvs[0].priority <= srvs[n].priority <= srvs[n + k].priority;
    }
  }

  lemma JoinOrdered(head: seq<Srv>, tail: seq<Srv>, priority: nat)
    requires forall i :: 0 <= i < |head| ==> head[i].priority == priority
    requires forall j :: 0 <= j < |tail| ==> tail[j].priority > priority
    requires forall i, j :: 0 <= i < j < |head| && head[i].weight == 0 ==> head[j].weight == 0
    requires ByPriority(tail) && WeightedFirst(tail)
    ensures ByPriority(head + tail) && WeightedFirst(head + tail)
  {
  }

  lemma OrderAllIs(srvs: seq<Srv>, draws: seq<nat>)
    requires srvs != [] && |draws| >= |srvs|
    ensures var n := RunLength(srvs, 1);
            OrderAll(srvs, draws) == OrderGroup(srvs[..n], draws[..n]) + OrderAll(srvs[n..], draws[n..])
  {
    hide OrderGroup, RunLength;
  }

  lemma {:induction false} GroupsOrder(srvs: seq<Srv>, draws: seq<nat>)
    requires |draws| >= |srvs| && ByPriority(srvs)
    ensures multiset(OrderAll(srvs, draws)) == multiset(srvs)
    ensures ByPriority(OrderAll(srvs, draws)) && WeightedFirst(OrderAll(srvs, draws))
    decreases |srvs|
  {
    hide OrderGroup, OrderAll, WeightedFirst, ByPriority, RunLength;
    if srvs == [] {
      NoneIsOrdered();
      NoneLeft(draws);
    } else {
      OrderAllIs(srvs, draws);
      var n := RunLength(srvs, 1);
      var head, tail := OrderGroup(srvs[..n], draws[..n]), OrderAll(srvs[n..], draws[n..]);
      GroupOrder(srvs[..n], draws[..n]);
      SuffixOrdered(srvs, n);
      GroupsOrder(srvs[n..], draws[n..]);
      SamePriority(srvs, n, head);
      HigherPriority(srvs, n, tail);
      JoinOrdered(head, tail, srvs[0].priority);
      assert srvs == srvs[..n] + srvs[n..];
    }
  }

  lemma NoneIsOrdered()
    ensures ByPriority([]) && WeightedFirst([])
  {
  }

  lemma SuffixOrdered(srvs: seq<Srv>, n: nat)
    requires n <= |srvs| && ByPriority(srvs)
    ensures ByPriority(srvs[n..])
  {
  }

  /** For every sequence of draws the result is a permutation of the input, in non-decreasing priority, with the
      zero-weight records of a priority after all its weighted ones. */
  lemma ShuffleIsOrderedPermutation(srvs: seq<Srv>, draws: seq<nat>)
    requires |draws| >= |srvs|
    ensures multiset(Shuffle(srvs, draws)) == multiset(srvs)
    ensures ByPriority(Shuffle(srvs, draws)) && WeightedFirst(Shuffle(srvs, draws))
  {
    SortLength(srvs);
    SortIsStable(srvs, 0);
    GroupsOrder(Sort(srvs), draws);
  }

  // ------------------------------------------------------------------ in place on the sorted slice

  /** append(group[:pick], group[pick+1:]...): shift the rest of the window left, inside the slice. */
  method RemoveAt(a: array<Srv>, lo: nat, hi: nat, pick: nat)
    requires lo + pick < hi <= a.Length
    modifies a
    ensures forall k :: 0 <= k < lo || hi <= k < a.Length ==> a[k] == old(a[k])
    ensures a[lo..hi - 1] == Without(old(a[lo..hi]), pick)
  {
    hide Without;
    ghost var was := a[..];
    var t := lo + pick;
    while t + 1 < hi
      invariant lo + pick <= t < hi
      invariant forall k {:trigger a[k]} :: 0 <= k < lo + pick ==> a[k] == was[k]
      invariant forall k {:trigger a[k]} :: lo + pick <= k < t ==> a[k] == was[k + 1]
      invariant forall k {:trigger a[k]} :: t <= k < a.Length ==> a[k] == was[k]
    {
      a[t] := a[t + 1];
      t := t + 1;
    }
    WithoutIs(was[lo..hi], pick, a[lo..hi - 1]);
  }

  lemma WithoutIs(group: seq<Srv>, k: nat, rest: seq<Srv>)
    requires k < |group| && |rest| == |group| - 1
    requires forall i :: 0 <= i < k ==> rest[i] == group[i]
    requires forall i :: k <= i < |rest| ==> rest[i] == group[i + 1]
    ensures rest == Without(group, k)
  {
  }

  lemma OrderStep(picked: seq<Srv>, group: seq<Srv>, draws: seq<nat>, whole: seq<Srv>)
    requires group != [] && |draws| >= |group| && picked + OrderGroup(group, draws) == whole
    ensures var k := Pick(group, draws[0]);
            picked + [group[k]] + OrderGroup(Without(group, k), draws[1..]) == whole
  {
    hide Pick, Without;
    var k := Pick(group, draws[0]);
    Associate(picked, [group[k]], OrderGroup(Without(group, k), draws[1..]));
  }

  /** The inner loop of shuffleSRV: one group is consumed by in-place removal inside its window of the slice, and
      nothing outside the window is touched. */
  method ConsumeGroup(a: array<Srv>, lo: nat, hi: nat, draws: seq<nat>) returns (picked: seq<Srv>)
    requires lo <= hi <= a.Length && |draws| >= hi - lo
    modifies a
    ensures picked == OrderGroup(old(a[lo..hi]), draws)
    ensures forall k :: 0 <= k < lo || hi <= k < a.Length ==> a[k] == old(a[k])
    ensures a[hi..] == old(a[hi..])
  {
    hide OrderGroup, Pick, Without, Total;
    picked := [];
    var end := hi;
    var window := a[lo..hi];
    ghost var whole, left := OrderGroup(window, draws), draws;
    while lo < end
      invariant lo <= end <= hi && window == a[lo..end]
      invariant left == draws[hi - end..] && picked + OrderGroup(window, left) == whole
      invariant forall k :: 0 <= k < lo || hi <= k < a.Length ==> a[k] == old(a[k])
      decreases end
    {
      OrderStep(picked, window, left, whole);
      var pick := PickRecord(window, draws[hi - end]);
      picked := picked + [window[pick]];
      RemoveAt(a, lo, end, pick);
      end := end - 1;
      window := a[lo..end];
      left := left[1..];
    }
    NoneLeft(left);
  }

  lemma NoneLeft(draws: seq<nat>)
    ensures OrderGroup([], draws) == [] && OrderAll([], draws) == []
  {
  }

  lemma GroupStep(picked: seq<Srv>, srvs: seq<Srv>, draws: seq<nat>, whole: seq<Srv>)
    requires srvs != [] && |draws| >= |srvs| && picked + OrderAll(srvs, draws) == whole
    ensures var n := RunLength(srvs, 1);
            picked + OrderGroup(srvs[..n], draws[..n]) + OrderAll(srvs[n..], draws[n..]) == whole
  {
    hide OrderGroup, OrderAll, RunLength;
    OrderAllIs(srvs, draws);
    var n := RunLength(srvs, 1);
    Associate(picked, OrderGroup(srvs[..n], draws[..n]), OrderAll(srvs[n..], draws[n..]));
  }

  lemma Associate(a: seq<Srv>, b: seq<Srv>, c: seq<Srv>)
    ensures a + b + c == a + (b + c)
  {
  }

  lemma ShuffleIs(srvs: seq<Srv>, draws: seq<nat>)
    requires |draws| >= |srvs|
    ensures |Sort(srvs)| == |srvs| && Shuffle(srvs, draws) == OrderAll(Sort(srvs), draws)
  {
    SortLength(srvs);
  }

  lemma Window<T>(s: seq<T>, i: nat, n: nat)
    requires i + n <= |s|
    ensures s[i..i + n] == s[i..][..n] && s[i + n..] == s[i..][n..]
  {
  }

  /** shuffleSRV: sort a copy, then take the groups of equal priority one after the other. */
  method ShuffleSrv(srvs: seq<Srv>, draws: seq<nat>) returns (out: seq<HostPort>)
    requires |draws| >= |srvs|
    ensures out == Addresses(Shuffle(srvs, draws))
  {
    hide Sort, Shuffle, OrderAll, OrderGroup, RunLength, Addresses;
    ShuffleIs(srvs, draws);
    var order := Sort(srvs);
    var sorted := new Srv[|order|](i requires 0 <= i < |order| => order[i]);
    assert sorted[..] == order;
    var picked := PickGroups(sorted, draws);
    out := Addresses(picked);
  }

  /** The outer loop, on the sorted slice. */
  method PickGroups(sorted: array<Srv>, draws: seq<nat>) returns (picked: seq<Srv>)
    requires |draws| >= sorted.Length
    modifies sorted
    ensures picked == OrderAll(old(sorted[..]), draws)
  {
    hide OrderAll, OrderGroup, RunLength;
    picked := [];
    var i := 0;
    ghost var rest, left := sorted[..], draws;
    ghost var whole := OrderAll(rest, left);
    assert sorted[0..] == rest;
    while i < sorted.Length
      invariant 0 <= i <= sorted.Length && rest == sorted[i..] && left == draws[i..]
      invariant picked + OrderAll(rest, left) == whole
    {
      var n := RunLength(sorted[i..], 1);
      GroupStep(picked, rest, left, whole);
      Window(sorted[..], i, n);
      Window(draws, i, n);
      assert sorted[..][i..] == rest && sorted[..][i..i + n] == sorted[i..i + n] && sorted[..][i + n..] == sorted[i + n..];
      var group := ConsumeGroup(sorted, i, i + n, draws[i..i + n]);
      picked := picked + group;
      i := i + n;
      rest, left := rest[n..], left[n..];
    }
    NoneLeft(left);
  }
}
