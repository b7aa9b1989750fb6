/** One fork group of the proxy (proxy.go) as a state machine over the atomic sections of its
    goroutines: the fork loop, one runner per started branch, and Timer C. Every interleaving of
    these sections is a run. `markFinal` is one step, and the lock sections, the reads and the
    upstream `Respond` of `deliverFinal` and `checkGroupDone` are later steps of the same runner.
    The fork loop runs on the goroutine that dispatches packets, so no response reaches a branch
    before it has ended; timeouts and deadlines come from other goroutines and can.
    No upstream CANCEL is part of the machine. */
module ForkGroup {
  import opened Basics
  import opened BestResponse

  /** Who recorded the upstream final. `seen` is the snapshot aggregated by `checkGroupDone`;
      `complete` says that the fork loop had ended when that snapshot was taken. */
  datatype Origin =
    | Aggregated(seen: seq<nat>, complete: bool)
    | Winner(branch: nat)
    | TimerC
    | HopsExhausted

  /** Program counter of a branch runner (or of the Timer C callback past its scan). */
  datatype Runner =
    | Waiting                                                 // in the select of runBranch
    | Checking                                                // about to enter checkGroupDone
    | Scanning(seen: seq<nat>, next: nat, complete: bool)     // reading finalState of seen[next]
    | Claiming(response: Response)                            // about to enter deliverFinal
    | Responding(response: Response, origin: Origin)          // about to call stx.Respond
    | Cleaning                                                // about to enter cleanupGroup
    | Ended

  datatype Timer =
    | Unarmed
    | Armed
    | Sweeping(seen: seq<nat>, next: nat, pending: bool)
    | Firing                                                  // about to respond 504
    | Swept                                                 // about to enter cleanupGroup
    | Stopped

  datatype Upstream = Recorded(response: Response, origin: Origin)

  /** `entry` and `cancelled` are p.branches[key] and p.cancelled[key], a missing key reading as the
      empty list and as false. Branches are numbered in the order in which they are started. */
  datatype Group = Group(
    remaining: nat,                   // targets the fork loop has not tried yet
    forking: bool,                    // the fork loop is still running
    exhausted: bool,                  // Max-Forwards of the request is used up
    entry: seq<nat>,
    cancelled: bool,
    marks: seq<Option<Response>>,     // branchState.final, once isFinal
    runners: seq<Runner>,
    timer: Timer,
    final: Option<Upstream>,          // ServerTx.final
    sent: seq<Response>               // finals handed to the transport for the upstream side
  )

  datatype Event = Failure | Got(response: Response)

  datatype Step =
    | StartBranch
    | SkipTarget
    | EndFork
    | RejectHops
    | Receive(branch: nat, event: Event)
    | Deadline(branch: nat)
    | Advance(branch: nat)
    | TimerStep

  /** A response built by the proxy itself. */
  function Built(code: int): Response { Response(code, 0) }

  function Init(targets: nat, exhausted: bool): Group {
    Group(targets, true, exhausted, [], false, [], [], Unarmed, None, [])
  }

  /** ServerTx.Respond as far as finals go: codes out of range are refused, provisionals record
      nothing, and the first final wins. */
  function Respond(g: Group, response: Response, origin: Origin): Group {
    if !IsFinalCode(response.status) || g.final.Some? then g
    else g.(final := Some(Recorded(response, origin)), sent := g.sent + [response])
  }

  function FinalsOf(marks: seq<Option<Response>>, seen: seq<nat>): seq<Response>
    requires forall k :: 0 <= k < |seen| ==> seen[k] < |marks| && marks[seen[k]].Some?
  {
    seq(|seen|, k requires 0 <= k < |seen| => marks[seen[k]].value)
  }

  predicate Enabled(g: Group, step: Step) {
    && |g.runners| == |g.marks|
    && match step
       case StartBranch => g.forking && !g.exhausted && g.remaining > 0
       case SkipTarget => g.forking && !g.exhausted && g.remaining > 0
       case EndFork => g.forking && g.remaining == 0
       case RejectHops => g.forking && g.exhausted && g.remaining > 0
       case Receive(b, event) =>
         && b < |g.runners| && g.runners[b].Waiting?
         && (event.Got? ==>
               && !g.forking                                 // packets are dispatched by the goroutine that forks
               && 100 <= event.response.status <= 699)       // Response.Validate
       case Deadline(b) => b < |g.runners| && g.runners[b].Waiting?
       case Advance(b) =>
         && b < |g.runners|
         && !g.runners[b].Waiting? && !g.runners[b].Ended?
         && (g.runners[b].Scanning? ==> InScan(g, g.runners[b].seen, g.runners[b].next))
       case TimerStep =>
         && !g.timer.Unarmed? && !g.timer.Stopped?
         && (g.timer.Sweeping? ==>
               && g.timer.next <= |g.timer.seen|
               && forall k :: 0 <= k < |g.timer.seen| ==> g.timer.seen[k] < |g.marks|)
  }

  predicate InScan(g: Group, seen: seq<nat>, next: nat) {
    && next <= |seen|
    && (forall k :: 0 <= k < |seen| ==> seen[k] < |g.marks|)
    && (forall k :: 0 <= k < next ==> g.marks[seen[k]].Some?)
  }

  function MarkFinal(g: Group, b: nat, response: Response, next: Runner): Group
    requires b < |g.runners| == |g.marks|
  {
    g.(marks := g.marks[b := Some(response)], runners := g.runners[b := next])
  }

  function Next(g: Group, step: Step): Group
    requires Enabled(g, step)
  {
    match step
    case StartBranch =>
      g.(remaining := g.remaining - 1,
         entry := g.entry + [|g.marks|],
         marks := g.marks + [None],
         runners := g.runners + [Waiting])
    case SkipTarget => g.(remaining := g.remaining - 1)
    case EndFork => g.(forking := false, timer := Armed)
    case RejectHops => Respond(g, Built(483), HopsExhausted).(forking := false)
    case Receive(b, Failure) => MarkFinal(g, b, Built(504), Checking)
    case Receive(b, Got(response)) =>
      if response.status < 200 then g
      else MarkFinal(g, b, response, if IsSuccess(response.status) then Claiming(response) else Checking)
    case Deadline(b) => MarkFinal(g, b, Built(504), Checking)
    case Advance(b) => AdvanceRunner(g, b)
    case TimerStep => AdvanceTimer(g)
  }

  function AdvanceRunner(g: Group, b: nat): Group
    requires Enabled(g, Advance(b))
  {
    match g.runners[b]
    case Checking =>
      g.(runners := g.runners[b := if g.cancelled then Ended else Scanning(g.entry, 0, !g.forking)])
    case Scanning(seen, next, complete) =>
      if next < |seen| then
        g.(runners := g.runners[b := if g.marks[seen[next]].None? then Ended else Scanning(seen, next + 1, complete)])
      else
        var best := Best(FinalsOf(g.marks, seen));
        var chosen := if best.Some? then best.value else Built(500);
        g.(runners := g.runners[b := Responding(chosen, Aggregated(seen, complete))])
    case Claiming(response) =>
      if g.cancelled then g.(runners := g.runners[b := Ended])
      else g.(cancelled := true, runners := g.runners[b := Responding(response, Winner(b))])
    case Responding(response, origin) =>
      Respond(g, response, origin).(runners := g.runners[b := Cleaning])
    case Cleaning =>
      g.(entry := [], cancelled := false, runners := g.runners[b := Ended])
    case _ => g
  }

  function AdvanceTimer(g: Group): Group
    requires Enabled(g, TimerStep)
  {
    match g.timer
    case Armed => g.(timer := if g.cancelled then Stopped else Sweeping(g.entry, 0, false))
    case Sweeping(seen, next, pending) =>
      if next < |seen| then
        g.(timer := Sweeping(seen, next + 1, pending || g.marks[seen[next]].None?))
      else g.(timer := if pending then Firing else Stopped)
    case Firing => Respond(g, Built(504), TimerC).(timer := Swept)
    case Swept => g.(entry := [], cancelled := false, timer := Stopped)
    case _ => g
  }

  /** The state reached by a run, if every step of it is enabled when it is taken. */
  function Run(g: Group, steps: seq<Step>): Option<Group>
    decreases |steps|
  {
    if steps == [] then Some(g)
    else if Enabled(g, steps[0]) then Run(Next(g, steps[0]), steps[1..])
    else None
  }

  // ------------------------------------------------------------------ the inductive invariant

  function Ids(n: nat): seq<nat> { seq(n, i => i) }

  predicate AllMarked(g: Group, seen: seq<nat>) {
    forall k :: 0 <= k < |seen| ==> seen[k] < |g.marks| && g.marks[seen[k]].Some?
  }

  /** While nothing is recorded upstream, a snapshot holding branch b is a numbered prefix of the group. */
  predicate GoodSnapshot(g: Group, b: nat, seen: seq<nat>, complete: bool) {
    && b < |seen| <= |g.marks|
    && seen == Ids(|seen|)
    && (complete ==> !g.forking && |seen| == |g.marks|)
  }

  predicate AggregateOk(g: Group, response: Response, seen: seq<nat>) {
    && |seen| > 0 && AllMarked(g, seen) && Best(FinalsOf(g.marks, seen)) == Some(response)
  }

  predicate RunnerOk(g: Group, b: nat)
    requires b < |g.runners| == |g.marks|
  {
    && (g.runners[b].Waiting? <==> g.marks[b].None?)
    && (g.marks[b].Some? ==> IsFinalCode(g.marks[b].value.status))
    && match g.runners[b]
       case Scanning(seen, next, complete) =>
         && InScan(g, seen, next)
         && (g.final.None? ==> GoodSnapshot(g, b, seen, complete))
       case Claiming(response) => g.marks[b] == Some(response) && IsSuccess(response.status)
       case Responding(response, origin) =>
         && IsFinalCode(response.status)
         && !origin.TimerC? && !origin.HopsExhausted?
         && (origin.Winner? ==> origin.branch == b && g.marks[b] == Some(response) && IsSuccess(response.status))
         && (origin.Aggregated? && g.final.None? ==>
               && GoodSnapshot(g, b, origin.seen, origin.complete)
               && AggregateOk(g, response, origin.seen))
       case Cleaning => g.final.Some?
       case _ => true
  }

  predicate TimerOk(g: Group) {
    match g.timer
    case Sweeping(seen, next, pending) =>
      && next <= |seen| && (pending ==> |seen| > 0)
      && forall k :: 0 <= k < |seen| ==> seen[k] < |g.marks|
    case Firing => |g.marks| > 0
    case Swept => g.final.Some?
    case _ => true
  }

  /** A runner whose remaining steps must lead to an upstream response. */
  predicate Obliged(r: Runner) {
    r.Checking? || r.Scanning? || r.Claiming? || r.Responding?
  }

  predicate SomeObliged(g: Group) {
    exists b :: 0 <= b < |g.runners| && Obliged(g.runners[b])
  }

  predicate SomeWinner(g: Group) {
    exists b :: 0 <= b < |g.runners| && g.runners[b].Responding?
  }

  predicate EveryMarked(g: Group) {
    forall b :: 0 <= b < |g.marks| ==> g.marks[b].Some?
  }

  predicate UpstreamOk(g: Group) {
    match g.final
    case None => g.sent == [] && g.entry == Ids(|g.marks|)
    case Some(Recorded(response, origin)) =>
      && g.sent == [response] && IsFinalCode(response.status)
      && (origin.HopsExhausted? <==> g.exhausted)
      && (origin.HopsExhausted? ==> response == Built(483))
      && (!g.exhausted ==> |g.marks| > 0)
      && (origin.Winner? ==> origin.branch < |g.marks| && g.marks[origin.branch] == Some(response) && IsSuccess(response.status))
      && (origin.TimerC? ==> response == Built(504))
      && (origin.Aggregated? ==>
            && origin.seen == Ids(|origin.seen|)
            && AggregateOk(g, response, origin.seen)
            && (origin.complete ==> !g.forking && |origin.seen| == |g.marks|))
  }

  predicate Inv(g: Group) {
    && |g.runners| == |g.marks|
    && (forall b :: 0 <= b < |g.runners| ==> RunnerOk(g, b))
    && TimerOk(g)
    && UpstreamOk(g)
    && (g.exhausted ==> |g.marks| == 0)
    && (g.exhausted && !g.forking && g.final.None? ==> g.remaining == 0)
    && (forall b :: 0 <= b < |g.entry| ==> g.entry[b] < |g.marks|)
    && (g.final.None? && g.cancelled ==> SomeWinner(g))
    && (g.final.None? && |g.marks| > 0 && EveryMarked(g) ==> SomeObliged(g))
  }

  // ------------------------------------------------------------------ preservation, step by step

  /** What no step ever undoes: a recorded upstream final, a branch final, the end of the fork loop. */
  predicate Extends(g: Group, g': Group) {
    && |g.marks| <= |g'.marks|
    && (forall k :: 0 <= k < |g.marks| && g.marks[k].Some? ==> g'.marks[k] == g.marks[k])
    && (g.final.Some? ==> g'.final == g.final && g'.sent == g.sent)
    && (!g.forking ==> !g'.forking && |g'.marks| == |g.marks|)
  }

  lemma AggregateFrame(g: Group, g': Group, response: Response, seen: seq<nat>)
    requires Extends(g, g') && AggregateOk(g, response, seen)
    ensures AggregateOk(g', response, seen)
  {
    assert FinalsOf(g.marks, seen) == FinalsOf(g'.marks, seen);
  }

  lemma RunnerFrame(g: Group, g': Group, b: nat)
    requires |g.runners| == |g.marks| && |g'.runners| == |g'.marks|
    requires b < |g.runners| && RunnerOk(g, b)
    requires Extends(g, g') && g'.runners[b] == g.runners[b] && g'.marks[b] == g.marks[b]
    ensures RunnerOk(g', b)
  {
    var r := g.runners[b];
    if r.Responding? && r.origin.Aggregated? && g.final.None? {
      AggregateFrame(g, g', r.response, r.origin.seen);
    }
  }

  lemma UpstreamFrame(g: Group, g': Group)
    requires UpstreamOk(g) && Extends(g, g') && g.final.Some? && g'.exhausted == g.exhausted
    ensures UpstreamOk(g')
  {
    var Recorded(response, origin) := g.final.value;
    if origin.Aggregated? {
      AggregateFrame(g, g', response, origin.seen);
    }
  }

  lemma ForkSteps(g: Group, step: Step)
    requires Inv(g) && Enabled(g, step)
    requires step.StartBranch? || step.SkipTarget? || step.EndFork? || step.RejectHops?
    ensures Extends(g, Next(g, step)) && Inv(Next(g, step))
  {
    hide AggregateOk, InScan, AdvanceRunner, AdvanceTimer, MarkFinal;
    var g' := Next(g, step);
    forall b | 0 <= b < |g.runners| ensures RunnerOk(g', b) {
      RunnerFrame(g, g', b);
    }
    if g.final.Some? {
      UpstreamFrame(g, g');
    }
    if g'.final.None? && g'.cancelled {
      var b :| 0 <= b < |g.runners| && g.runners[b].Responding?;
      assert g'.runners[b].Responding?;
    }
    assert step.StartBranch? ==> g'.marks[|g.marks|].None?;
    if g'.final.None? && |g'.marks| > 0 && EveryMarked(g') {
      assert EveryMarked(g);
      var b :| 0 <= b < |g.runners| && Obliged(g.runners[b]);
      assert Obliged(g'.runners[b]);
    }
  }

  lemma MarkSteps(g: Group, b: nat, response: Response, next: Runner)
    requires Inv(g) && b < |g.runners| && g.runners[b].Waiting?
    requires IsFinalCode(response.status)
    requires next == Checking || (next == Claiming(response) && IsSuccess(response.status))
    ensures Extends(g, MarkFinal(g, b, response, next)) && Inv(MarkFinal(g, b, response, next))
  {
    var g' := MarkFinal(g, b, response, next);
    assert g.marks[b].None? by { assert RunnerOk(g, b); }
    forall c | 0 <= c < |g'.runners| ensures RunnerOk(g', c) {
      assert RunnerOk(g, c);
      if c != b {
        RunnerFrame(g, g', c);
      }
    }
    if g.final.Some? {
      UpstreamFrame(g, g');
    }
    if g'.final.None? && g'.cancelled {
      var c :| 0 <= c < |g.runners| && g.runners[c].Responding?;
      assert g'.runners[c].Responding?;
    }
    assert Obliged(g'.runners[b]);
  }

  /** Only runner b moves, the branch finals and the upstream record stay. */
  lemma MoveRunner(g: Group, g': Group, b: nat, next: Runner)
    requires Inv(g) && b < |g.runners|
    requires g' == g.(runners := g.runners[b := next], cancelled := g'.cancelled)
    requires RunnerOk(g', b)
    requires g'.cancelled == g.cancelled || next.Responding?
    requires Obliged(next) || g.final.Some? || g.cancelled || !EveryMarked(g)
    requires !g.runners[b].Responding?
    ensures Extends(g, g') && Inv(g')
  {
    forall c | 0 <= c < |g'.runners| ensures RunnerOk(g', c) {
      assert RunnerOk(g, c);
      if c != b {
        RunnerFrame(g, g', c);
      }
    }
    if g.final.Some? {
      UpstreamFrame(g, g');
    } else {
      assert g'.runners[b] == next;
      if g.cancelled {
        var c :| 0 <= c < |g.runners| && g.runners[c].Responding?;
        assert g'.runners[c].Responding? && Obliged(g'.runners[c]);
      }
    }
  }

  lemma BestIsFinal(g: Group, seen: seq<nat>)
    requires |g.runners| == |g.marks| && (forall b :: 0 <= b < |g.runners| ==> RunnerOk(g, b))
    requires AllMarked(g, seen)
    ensures Best(FinalsOf(g.marks, seen)).Some? ==> IsFinalCode(Best(FinalsOf(g.marks, seen)).value.status)
    ensures |seen| > 0 ==> Best(FinalsOf(g.marks, seen)).Some?
  {
    var finals := FinalsOf(g.marks, seen);
    if |seen| > 0 {
      var at := BestIsEarliestMaximum(finals);
      assert finals[at] == g.marks[seen[at]].value;
      assert RunnerOk(g, seen[at]);
    }
  }

  /** Recording (or dropping) a response upstream keeps the invariant and leaves something recorded. */
  lemma RespondKeeps(g: Group, response: Response, origin: Origin)
    requires Inv(g) && IsFinalCode(response.status) && !g.exhausted && |g.marks| > 0 && !origin.HopsExhausted?
    requires origin.Winner? ==> origin.branch < |g.marks| && g.marks[origin.branch] == Some(response) && IsSuccess(response.status)
    requires origin.TimerC? ==> response == Built(504)
    requires origin.Aggregated? && g.final.None? ==>
               && origin.seen == Ids(|origin.seen|) && AggregateOk(g, response, origin.seen)
               && (origin.complete ==> !g.forking && |origin.seen| == |g.marks|)
    ensures Extends(g, Respond(g, response, origin)) && Inv(Respond(g, response, origin))
    ensures Respond(g, response, origin).final.Some?
  {
    var g' := Respond(g, response, origin);
    forall c | 0 <= c < |g'.runners| ensures RunnerOk(g', c) {
      RunnerFrame(g, g', c);
    }
    if g.final.None? && origin.Aggregated? {
      AggregateFrame(g, g', response, origin.seen);
    }
  }

  /** After something is recorded, runner b may move to Cleaning or Ended and the entry may be dropped. */
  lemma LateMove(g: Group, g': Group, b: nat)
    requires Inv(g) && g.final.Some? && b < |g.runners| && !g.runners[b].Waiting?
    requires g'.entry == g.entry || g'.entry == []
    requires g' == g.(entry := g'.entry, cancelled := g'.cancelled, runners := g'.runners)
    requires g'.runners == g.runners[b := Cleaning] || g'.runners == g.runners[b := Ended]
    ensures Extends(g, g') && Inv(g')
  {
    forall c | 0 <= c < |g'.runners| ensures RunnerOk(g', c) {
      assert RunnerOk(g, c);
      if c != b {
        RunnerFrame(g, g', c);
      }
    }
    UpstreamFrame(g, g');
  }

  lemma CheckStep(g: Group, b: nat)
    requires Inv(g) && Enabled(g, Advance(b)) && (g.runners[b].Checking? || g.runners[b].Claiming?)
    ensures Extends(g, Next(g, Advance(b))) && Inv(Next(g, Advance(b)))
  {
    var g' := Next(g, Advance(b));
    assert RunnerOk(g, b);
    assert g'.runners[b].Scanning? && g.final.None? ==> g'.runners[b].seen == Ids(|g.marks|);
    MoveRunner(g, g', b, g'.runners[b]);
  }

  lemma ReadStep(g: Group, b: nat)
    requires Inv(g) && Enabled(g, Advance(b)) && g.runners[b].Scanning?
    requires g.runners[b].next < |g.runners[b].seen|
    ensures Extends(g, Next(g, Advance(b))) && Inv(Next(g, Advance(b)))
  {
    hide Best;
    var g' := Next(g, Advance(b));
    assert RunnerOk(g, b);
    MoveRunner(g, g', b, g'.runners[b]);
  }

  lemma PickStep(g: Group, b: nat)
    requires Inv(g) && Enabled(g, Advance(b)) && g.runners[b].Scanning?
    requires g.runners[b].next == |g.runners[b].seen|
    ensures Extends(g, Next(g, Advance(b))) && Inv(Next(g, Advance(b)))
  {
    hide Best;
    var g' := Next(g, Advance(b));
    assert RunnerOk(g, b);
    var seen := g.runners[b].seen;
    BestIsFinal(g, seen);
    assert FinalsOf(g'.marks, seen) == FinalsOf(g.marks, seen);
    MoveRunner(g, g', b, g'.runners[b]);
  }

  lemma RunnerSteps(g: Group, b: nat)
    requires Inv(g) && Enabled(g, Advance(b))
    ensures Extends(g, Next(g, Advance(b))) && Inv(Next(g, Advance(b)))
  {
    assert RunnerOk(g, b);
    match g.runners[b]
    case Checking => CheckStep(g, b);
    case Claiming(_) => CheckStep(g, b);
    case Scanning(seen, next, _) =>
      if next < |seen| {
        ReadStep(g, b);
      } else {
        PickStep(g, b);
      }
    case Responding(response, origin) =>
      RespondKeeps(g, response, origin);
      LateMove(Respond(g, response, origin), Next(g, Advance(b)), b);
    case Cleaning =>
      LateMove(g, Next(g, Advance(b)), b);
  }

  /** Only the timer moves, or drops the entry once something is recorded. */
  lemma MoveTimer(g: Group, g': Group)
    requires Inv(g) && TimerOk(g')
    requires g' == g.(timer := g'.timer) || (g.final.Some? && g' == g.(timer := g'.timer, entry := [], cancelled := false))
    ensures Extends(g, g') && Inv(g')
  {
    forall c | 0 <= c < |g'.runners| ensures RunnerOk(g', c) {
      RunnerFrame(g, g', c);
    }
    if g.final.Some? {
      UpstreamFrame(g, g');
    }
  }

  lemma TimerSteps(g: Group)
    requires Inv(g) && Enabled(g, TimerStep)
    ensures Extends(g, Next(g, TimerStep)) && Inv(Next(g, TimerStep))
  {
    hide UpstreamOk;
    var h := g;
    if g.timer.Firing? {
      RespondKeeps(g, Built(504), TimerC);
      h := Respond(g, Built(504), TimerC);
    } else if g.timer.Sweeping? && |g.timer.seen| > 0 {
      assert g.timer.seen[0] < |g.marks|;
    }
    MoveTimer(h, Next(g, TimerStep));
  }

  lemma StepKeeps(g: Group, step: Step)
    requires Inv(g) && Enabled(g, step)
    ensures Extends(g, Next(g, step)) && Inv(Next(g, step))
  {
    match step
    case Receive(b, Failure) => MarkSteps(g, b, Built(504), Checking);
    case Receive(b, Got(response)) =>
      if response.status >= 200 {
        MarkSteps(g, b, response, if IsSuccess(response.status) then Claiming(response) else Checking);
      }
    case Deadline(b) => MarkSteps(g, b, Built(504), Checking);
    case Advance(b) => RunnerSteps(g, b);
    case TimerStep => TimerSteps(g);
    case _ => ForkSteps(g, step);
  }

  lemma {:induction false} RunKeeps(g: Group, steps: seq<Step>)
    requires Inv(g) && Run(g, steps).Some?
    ensures Extends(g, Run(g, steps).value) && Inv(Run(g, steps).value)
    decreases |steps|
  {
    if steps != [] {
      StepKeeps(g, steps[0]);
      RunKeeps(Next(g, steps[0]), steps[1..]);
    }
  }

  // ------------------------------------------------------------------ theorems over every run

  /** The fork loop and every branch runner are done. Timer C may be anywhere. */
  predicate Quiescent(g: Group) {
    && !g.forking
    && forall b :: 0 <= b < |g.runners| ==> g.runners[b].Ended?
  }

  /** In every interleaving, once all runners have ended, exactly one final response has been
      recorded and sent upstream when a branch was started or the request ran out of hops, and none
      at all otherwise. */
  lemma ExactlyOneFinal(targets: nat, exhausted: bool, steps: seq<Step>)
    requires targets > 0 && Run(Init(targets, exhausted), steps).Some?
    requires Quiescent(Run(Init(targets, exhausted), steps).value)
    ensures var g := Run(Init(targets, exhausted), steps).value;
            && (|g.sent| == 1 <==> |g.marks| > 0 || exhausted)
            && (|g.sent| == 0 <==> |g.marks| == 0 && !exhausted)
            && (g.final.Some? ==> g.sent == [g.final.value.response])
  {
    ExhaustedKept(Init(targets, exhausted), steps);
    RunKeeps(Init(targets, exhausted), steps);
    var g := Run(Init(targets, exhausted), steps).value;
    forall b | 0 <= b < |g.marks| ensures g.marks[b].Some? {
      assert RunnerOk(g, b);
    }
    assert !SomeObliged(g);
  }

  lemma {:induction false} ExhaustedKept(g: Group, steps: seq<Step>)
    requires Run(g, steps).Some?
    ensures Run(g, steps).value.exhausted == g.exhausted
    ensures g.exhausted ==> Run(g, steps).value.remaining == g.remaining
    decreases |steps|
  {
    hide Next, Enabled;
    if steps != [] {
      StartedStep(g, steps[0]);
      ExhaustedKept(Next(g, steps[0]), steps[1..]);
    }
  }

  /** At any point of any run at most one final has gone upstream, and whatever happens later the
      recorded one stays. */
  lemma FinalIsStable(targets: nat, exhausted: bool, steps: seq<Step>, more: seq<Step>)
    requires Run(Init(targets, exhausted), steps).Some?
    requires Run(Run(Init(targets, exhausted), steps).value, more).Some?
    ensures var g := Run(Init(targets, exhausted), steps).value;
            var g' := Run(g, more).value;
            && |g'.sent| <= 1 && (|g'.sent| == 1 <==> g'.final.Some?)
            && (g.final.Some? ==> g'.final == g.final && g'.sent == g.sent)
  {
    RunKeeps(Init(targets, exhausted), steps);
    RunKeeps(Run(Init(targets, exhausted), steps).value, more);
  }

  lemma AdvanceStartsNothing(g: Group, b: nat)
    requires Enabled(g, Advance(b))
    ensures AdvanceRunner(g, b).marks == g.marks && AdvanceRunner(g, b).remaining == g.remaining
    ensures AdvanceRunner(g, b).exhausted == g.exhausted
  {
    hide FinalsOf, Best;
  }

  lemma StartedStep(g: Group, step: Step)
    requires Enabled(g, step)
    ensures |Next(g, step).marks| + Next(g, step).remaining <= |g.marks| + g.remaining
    ensures Next(g, step).exhausted == g.exhausted
    ensures g.exhausted ==> Next(g, step).remaining == g.remaining
  {
    hide AdvanceRunner, InScan;
    if step.Advance? {
      AdvanceStartsNothing(g, step.branch);
    }
  }

  lemma {:induction false} StartedWithin(g: Group, steps: seq<Step>)
    requires Run(g, steps).Some?
    ensures |Run(g, steps).value.marks| + Run(g, steps).value.remaining <= |g.marks| + g.remaining
    decreases |steps|
  {
    hide Next, Enabled;
    if steps != [] {
      StartedStep(g, steps[0]);
      StartedWithin(Next(g, steps[0]), steps[1..]);
    }
  }

  predicate Succeeded(g: Group, b: nat) { b < |g.marks| && g.marks[b].Some? && IsSuccess(g.marks[b].value.status) }

  // -- runs without an early failure

  /** A branch ends by an error of its client transaction or by its own deadline. */
  predicate GivesUp(step: Step) { step.Deadline? || (step.Receive? && step.event.Failure?) }

  /** No branch gives up while the fork loop runs. */
  predicate Patient(g: Group, steps: seq<Step>)
    decreases |steps|
  {
    steps != [] && Enabled(g, steps[0]) ==>
      (g.forking ==> !GivesUp(steps[0])) && Patient(Next(g, steps[0]), steps[1..])
  }

  /** Nothing moves during the fork loop, and every snapshot is taken after it. */
  predicate Calm(g: Group) {
    && (g.forking ==> g.final.None? && forall b :: 0 <= b < |g.runners| ==> g.runners[b].Waiting?)
    && (forall b :: 0 <= b < |g.runners| ==>
          && (g.runners[b].Scanning? ==> g.runners[b].complete)
          && (g.runners[b].Responding? && g.runners[b].origin.Aggregated? ==> g.runners[b].origin.complete))
    && (g.final.Some? && g.final.value.origin.Aggregated? ==> g.final.value.origin.complete)
    && (g.forking ==> g.timer.Unarmed?)
  }

  lemma CalmAdvance(g: Group, b: nat)
    requires Calm(g) && Enabled(g, Advance(b))
    ensures Calm(AdvanceRunner(g, b))
  {
    hide Best, FinalsOf, InScan;
  }

  lemma CalmStep(g: Group, step: Step)
    requires Calm(g) && Enabled(g, step) && (g.forking ==> !GivesUp(step))
    ensures Calm(Next(g, step))
  {
    hide AdvanceRunner, InScan;
    if step.Advance? {
      CalmAdvance(g, step.branch);
    }
  }

  lemma {:induction false} CalmRun(g: Group, steps: seq<Step>)
    requires Calm(g) && Patient(g, steps) && Run(g, steps).Some?
    ensures Calm(Run(g, steps).value)
    decreases |steps|
  {
    hide Calm, Next, Enabled, GivesUp;
    if steps != [] {
      CalmStep(g, steps[0]);
      CalmRun(Next(g, steps[0]), steps[1..]);
    }
  }

  /** A recorded aggregate answers a non-empty prefix of the group in which every branch is final, its status has
      the highest rank there, and it is a success exactly when a branch of the prefix succeeded. The prefix is the
      whole group when there is only one target, and in every run in which no branch gives up during the fork loop. */
  lemma AggregateIsBest(targets: nat, exhausted: bool, steps: seq<Step>)
    requires Run(Init(targets, exhausted), steps).Some?
    ensures var g := Run(Init(targets, exhausted), steps).value;
            g.final.Some? && g.final.value.origin.Aggregated? ==>
              var response, seen := g.final.value.response, g.final.value.origin.seen;
              && 0 < |seen| <= |g.marks|
              && (targets <= 1 || g.final.value.origin.complete || Patient(Init(targets, exhausted), steps) ==>
                    |seen| == |g.marks|)
              && (forall b :: 0 <= b < |seen| ==>
                    && g.marks[b].Some?
                    && Rank(g.marks[b].value.status) <= Rank(response.status))
              && (IsSuccess(response.status) <==> exists b :: 0 <= b < |seen| && Succeeded(g, b))
              && (exists b :: 0 <= b < |seen| && g.marks[b] == Some(response))
  {
    hide Rank;
    RunKeeps(Init(targets, exhausted), steps);
    StartedWithin(Init(targets, exhausted), steps);
    if Patient(Init(targets, exhausted), steps) {
      CalmRun(Init(targets, exhausted), steps);
    }
    var g := Run(Init(targets, exhausted), steps).value;
    if g.final.Some? && g.final.value.origin.Aggregated? {
      var response, seen := g.final.value.response, g.final.value.origin.seen;
      var finals := FinalsOf(g.marks, seen);
      var at := BestIsEarliestMaximum(finals);
      assert seen[at] == at && g.marks[at] == Some(response);
      assert IsSuccess(response.status) ==> Succeeded(g, at);
      assert seen[|seen| - 1] == |seen| - 1;
      forall b | 0 <= b < |seen|
        ensures g.marks[b].Some? && Rank(g.marks[b].value.status) <= Rank(response.status)
        ensures !IsSuccess(response.status) ==> !Succeeded(g, b)
      {
        assert seen[b] == b && finals[b] == g.marks[b].value;
        assert RunnerOk(g, b);
        SuccessOutranks(finals[b].status);
        SuccessOutranks(response.status);
      }
    }
  }

  /** Branch b got a 2xx and yet something else is recorded upstream. */
  predicate Hidden(g: Group, b: nat) {
    Succeeded(g, b) && g.final.Some? && !IsSuccess(g.final.value.response.status)
  }

  /** A 2xx of branch b is hidden exactly when Timer C answered, or the answer was aggregated over branches none of
      which succeeded; that snapshot was taken before the fork loop had ended and does not hold b. */
  lemma SuccessWins(targets: nat, exhausted: bool, steps: seq<Step>, b: nat)
    requires Run(Init(targets, exhausted), steps).Some?
    requires var g := Run(Init(targets, exhausted), steps).value;
             g.final.Some? && Succeeded(g, b)
    ensures var g := Run(Init(targets, exhausted), steps).value;
            var origin := g.final.value.origin;
            && (Hidden(g, b) <==>
                  || origin.TimerC?
                  || (origin.Aggregated? && forall k :: 0 <= k < |origin.seen| ==> !Succeeded(g, k)))
            && (Hidden(g, b) && !origin.TimerC? ==>
                  !origin.complete && b >= |origin.seen| && targets >= 2 && !Patient(Init(targets, exhausted), steps))
  {
    RunKeeps(Init(targets, exhausted), steps);
    ExhaustedKept(Init(targets, exhausted), steps);
    AggregateIsBest(targets, exhausted, steps);
  }

  /** In every run in which no branch fails or times out while the fork loop runs, an aggregate is the answer of the
      whole group: every branch is final, the answer has the highest rank of all, and no 2xx is hidden by it. */
  lemma PatientAggregateIsWhole(targets: nat, exhausted: bool, steps: seq<Step>)
    requires Run(Init(targets, exhausted), steps).Some? && Patient(Init(targets, exhausted), steps)
    ensures var g := Run(Init(targets, exhausted), steps).value;
            g.final.Some? && g.final.value.origin.Aggregated? ==>
              && g.final.value.origin.seen == Ids(|g.marks|) && EveryMarked(g)
              && (forall b :: 0 <= b < |g.marks| ==>
                    Rank(g.marks[b].value.status) <= Rank(g.final.value.response.status))
              && (forall b :: !Hidden(g, b))
  {
    hide Rank, Patient, Run;
    RunKeeps(Init(targets, exhausted), steps);
    AggregateIsBest(targets, exhausted, steps);
  }

  lemma {:induction false} RunExtend(g: Group, steps: seq<Step>, step: Step)
    requires Run(g, steps).Some? && Enabled(Run(g, steps).value, step)
    ensures Run(g, steps + [step]) == Some(Next(Run(g, steps).value, step))
    decreases |steps|
  {
    if steps == [] {
      assert Run(Next(g, step), [step][1..]) == Some(Next(g, step));
    } else {
      RunExtend(Next(g, steps[0]), steps[1..], step);
      assert (steps + [step])[1..] == steps[1..] + [step];
    }
  }

  lemma RunNothing(g: Group)
    ensures Run(g, []) == Some(g)
  {
  }

  // ------------------------------------------------------------------ when a success can be hidden

  /** The first of the targets started and failed; its runner is at r. */
  function Failed(targets: nat, r: Runner): Group
    requires targets > 0
  {
    Group(targets - 1, true, false, [0], false, [Some(Built(504))], [r], Unarmed, None, [])
  }

  lemma FailedSteps(targets: nat)
    requires targets > 0
    ensures Enabled(Failed(targets, Checking), Advance(0))
    ensures Enabled(Failed(targets, Scanning([0], 0, false)), Advance(0))
    ensures Enabled(Failed(targets, Scanning([0], 1, false)), Advance(0))
    ensures Next(Failed(targets, Checking), Advance(0)) == Failed(targets, Scanning([0], 0, false))
    ensures Next(Failed(targets, Scanning([0], 0, false)), Advance(0)) == Failed(targets, Scanning([0], 1, false))
    ensures Next(Failed(targets, Scanning([0], 1, false)), Advance(0))
            == Failed(targets, Responding(Built(504), Aggregated([0], false)))
  {
    var g := Failed(targets, Scanning([0], 1, false));
    assert FinalsOf(g.marks, [0]) == [Built(504)];
    assert Best([Built(504)]) == Some(Built(504)) by {
      assert [Built(504)][..0] == [];
    }
  }

  lemma FailedStart(targets: nat)
    requires targets > 0
    ensures Enabled(Init(targets, false), StartBranch)
    ensures Enabled(Next(Init(targets, false), StartBranch), Receive(0, Failure))
    ensures Next(Next(Init(targets, false), StartBranch), Receive(0, Failure)) == Failed(targets, Checking)
  {
  }

  lemma EarlyAggregate(targets: nat) returns (steps: seq<Step>)
    requires targets > 0
    ensures Run(Init(targets, false), steps) == Some(Failed(targets, Responding(Built(504), Aggregated([0], false))))
  {
    hide *;
    var start := Init(targets, false);
    RunNothing(start);
    FailedStart(targets);
    FailedSteps(targets);
    RunExtend(start, [], StartBranch);
    steps := [] + [StartBranch];
    RunExtend(start, steps, Receive(0, Failure));
    steps := steps + [Receive(0, Failure)];
    RunExtend(start, steps, Advance(0));
    steps := steps + [Advance(0)];
    RunExtend(start, steps, Advance(0));
    steps := steps + [Advance(0)];
    RunExtend(start, steps, Advance(0));
    steps := steps + [Advance(0)];
  }

  /** With any two or more targets: branch 0 times out and is aggregated while the fork loop is still busy with the
      next target, so a 504 goes upstream although branch 1 then answers 200. */
  lemma EarlyAggregateHidesSuccess(targets: nat) returns (steps: seq<Step>)
    requires targets >= 2
    ensures Run(Init(targets, false), steps).Some?
    ensures var g := Run(Init(targets, false), steps).value;
            g.final == Some(Recorded(Built(504), Aggregated([0], false))) && Hidden(g, 1)
  {
    hide Run;
    var start, answer := Init(targets, false), Receive(1, Got(Response(200, 2)));
    steps := EarlyAggregate(targets);
    RunExtend(start, steps, Advance(0));
    steps := steps + [Advance(0)];
    RunExtend(start, steps, StartBranch);
    steps := steps + [StartBranch];
    steps := SkipRest(start, steps, Run(start, steps).value);
    RunExtend(start, steps, EndFork);
    steps := steps + [EndFork];
    RunExtend(start, steps, answer);
    steps := steps + [answer];
  }

  /** Some run ends with a 2xx hidden by an aggregate. */
  ghost predicate AggregateCanHide(targets: nat, exhausted: bool) {
    exists steps, b: nat :: Run(Init(targets, exhausted), steps).Some?
                            && Hidden(Run(Init(targets, exhausted), steps).value, b)
                            && Run(Init(targets, exhausted), steps).value.final.value.origin.Aggregated?
  }

  /** An aggregate can hide a success exactly when there are two targets or more and hops are left. */
  lemma AggregateHidesExactlyWhen(targets: nat, exhausted: bool)
    ensures AggregateCanHide(targets, exhausted) <==> targets >= 2 && !exhausted
  {
    hide Run;
    if targets >= 2 && !exhausted {
      var steps := EarlyAggregateHidesSuccess(targets);
      assert Hidden(Run(Init(targets, exhausted), steps).value, 1);
    }
    if steps, b: nat :| Run(Init(targets, exhausted), steps).Some?
                        && Hidden(Run(Init(targets, exhausted), steps).value, b)
                        && Run(Init(targets, exhausted), steps).value.final.value.origin.Aggregated? {
      SuccessWins(targets, exhausted, steps, b);
      NoBranchWithoutHops(targets, exhausted, steps);
    }
  }

  lemma NoBranchWithoutHops(targets: nat, exhausted: bool, steps: seq<Step>)
    requires Run(Init(targets, exhausted), steps).Some?
    ensures var g := Run(Init(targets, exhausted), steps).value;
            (exhausted ==> |g.marks| == 0) && |g.marks| <= targets
  {
    RunKeeps(Init(targets, exhausted), steps);
    ExhaustedKept(Init(targets, exhausted), steps);
    StartedWithin(Init(targets, exhausted), steps);
  }

  /** The fork loop can fail on all the targets that are left. */
  lemma {:induction false} SkipRest(start: Group, steps: seq<Step>, g: Group) returns (more: seq<Step>)
    requires Run(start, steps) == Some(g) && g.forking && !g.exhausted && |g.runners| == |g.marks|
    ensures Run(start, more) == Some(g.(remaining := 0))
    decreases g.remaining
  {
    hide Run;
    if g.remaining == 0 {
      more := steps;
    } else {
      RunExtend(start, steps, SkipTarget);
      more := SkipRest(start, steps + [SkipTarget], Next(g, SkipTarget));
    }
  }

  /** One branch waiting, the fork loop over, and the timer at t. */
  function Pending(t: Timer): Group {
    Group(0, false, false, [0], false, [None], [Waiting], t, None, [])
  }

  lemma PendingSteps()
    ensures Enabled(Pending(Armed), TimerStep) && Next(Pending(Armed), TimerStep) == Pending(Sweeping([0], 0, false))
    ensures Enabled(Pending(Sweeping([0], 0, false)), TimerStep)
    ensures Next(Pending(Sweeping([0], 0, false)), TimerStep) == Pending(Sweeping([0], 1, true))
    ensures Enabled(Pending(Sweeping([0], 1, true)), TimerStep)
    ensures Next(Pending(Sweeping([0], 1, true)), TimerStep) == Pending(Firing)
  {
  }

  lemma OnePending(targets: nat) returns (steps: seq<Step>)
    requires targets > 0
    ensures Run(Init(targets, false), steps) == Some(Pending(Armed))
  {
    hide Run;
    var start := Init(targets, false);
    RunNothing(start);
    RunExtend(start, [], StartBranch);
    var g := Next(start, StartBranch);
    assert g.(remaining := 0) == Pending(Armed).(forking := true, timer := Unarmed);
    steps := SkipRest(start, [] + [StartBranch], g);
    RunExtend(start, steps, EndFork);
    steps := steps + [EndFork];
  }

  /** Timer C finds the branch pending, the branch answers 200, and the 504 of Timer C goes first. */
  lemma TimerHidesSuccess(targets: nat) returns (steps: seq<Step>)
    requires targets > 0
    ensures Run(Init(targets, false), steps).Some?
    ensures var g := Run(Init(targets, false), steps).value;
            g.final == Some(Recorded(Built(504), TimerC)) && Hidden(g, 0)
  {
    hide Run;
    var start, receive := Init(targets, false), Receive(0, Got(Response(200, 1)));
    steps := OnePending(targets);
    PendingSteps();
    RunExtend(start, steps, TimerStep);
    steps := steps + [TimerStep];
    RunExtend(start, steps, TimerStep);
    steps := steps + [TimerStep];
    RunExtend(start, steps, TimerStep);
    steps := steps + [TimerStep];
    assert Run(start, steps) == Some(Pending(Firing));
    RunExtend(start, steps, receive);
    steps := steps + [receive];
    RunExtend(start, steps, TimerStep);
    steps := steps + [TimerStep];
  }

  /** Some run ends with a 2xx hidden by Timer C. */
  ghost predicate TimerCanHide(targets: nat, exhausted: bool) {
    exists steps, b: nat :: Run(Init(targets, exhausted), steps).Some?
                            && Hidden(Run(Init(targets, exhausted), steps).value, b)
                            && Run(Init(targets, exhausted), steps).value.final.value.origin.TimerC?
  }

  /** Timer C can hide a success exactly when some branch can be started. */
  lemma TimerHidesExactlyWhen(targets: nat, exhausted: bool)
    ensures TimerCanHide(targets, exhausted) <==> targets >= 1 && !exhausted
  {
    hide Run;
    if targets >= 1 && !exhausted {
      var steps := TimerHidesSuccess(targets);
      assert Hidden(Run(Init(targets, exhausted), steps).value, 0);
    }
    if steps, b: nat :| Run(Init(targets, exhausted), steps).Some?
                        && Hidden(Run(Init(targets, exhausted), steps).value, b)
                        && Run(Init(targets, exhausted), steps).value.final.value.origin.TimerC? {
      NoBranchWithoutHops(targets, exhausted, steps);
    }
  }

  /** When no target can be reached the group ends without any answer. */
  lemma NothingIsAnswered(targets: nat) returns (steps: seq<Step>)
    ensures Run(Init(targets, false), steps).Some?
    ensures var g := Run(Init(targets, false), steps).value;
            Quiescent(g) && g.sent == [] && g.final.None? && g.timer == Stopped
  {
    hide Run;
    var start := Init(targets, false);
    RunNothing(start);
    steps := SkipRest(start, [], start);
    RunExtend(start, steps, EndFork);
    steps := steps + [EndFork];
    RunExtend(start, steps, TimerStep);
    steps := steps + [TimerStep];
    RunExtend(start, steps, TimerStep);
    steps := steps + [TimerStep];
  }
}
