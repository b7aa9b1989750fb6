/** What a fork group keeps in its tables: where every branch final comes from, and that nothing is left behind
    (proxy.go, runBranch, deliverFinal, checkGroupDone and cleanupGroup). */
module ForkRecords {
  import opened Basics
  import opened ForkGroup

  // ------------------------------------------------------------------ where answers come from

  lemma AdvanceMarksNothing(g: Group, b: nat)
    requires Enabled(g, Advance(b))
    ensures AdvanceRunner(g, b).marks == g.marks
  {
    AdvanceStartsNothing(g, b);
  }

  /** What one step does to the final of a branch that has been started. */
  lemma MarkedBy(g: Group, step: Step, b: nat)
    requires Enabled(g, step) && b < |g.marks|
    ensures |g.marks| <= |Next(g, step).marks|
    ensures Next(g, step).marks[b] ==
            (if step == Deadline(b) || step == Receive(b, Failure) then Some(Response(504, 0))
             else if step.Receive? && step.branch == b && 200 <= step.event.response.status then Some(step.event.response)
             else g.marks[b])
  {
    hide AdvanceRunner, InScan;
    if step.Advance? {
      AdvanceMarksNothing(g, step.branch);
    }
  }

  lemma NewBranchIsUnmarked(g: Group, step: Step, b: nat)
    requires Enabled(g, step) && |g.marks| <= b < |Next(g, step).marks|
    ensures Next(g, step).marks[b].None?
  {
    hide AdvanceRunner, InScan;
    if step.Advance? {
      AdvanceMarksNothing(g, step.branch);
    }
  }

  /** The step gives branch b this final: its own response, or a 504 for an error or a passed deadline. */
  predicate Gives(step: Step, b: nat, final: Response) {
    || ((step == Deadline(b) || step == Receive(b, Failure)) && final == Response(504, 0))
    || (step == Receive(b, Got(final)) && 200 <= final.status)
  }

  lemma {:induction false} RunSplit(g: Group, steps: seq<Step>, n: nat)
    requires n <= |steps| && Run(g, steps).Some?
    ensures Run(g, steps[..n]).Some? && Run(Run(g, steps[..n]).value, steps[n..]) == Run(g, steps)
    decreases |steps|
  {
    hide Next, Enabled;
    if n == 0 {
      assert steps[..0] == [] && steps[0..] == steps;
    } else {
      RunSplit(Next(g, steps[0]), steps[1..], n - 1);
      assert steps[..n][1..] == steps[1..][..n - 1] && steps[n..] == steps[1..][n - 1..];
    }
  }

  /** Every final of a branch was given by a step of the run. */
  lemma {:induction false} MarksAreExplained(targets: nat, exhausted: bool, steps: seq<Step>, b: nat)
    requires Run(Init(targets, exhausted), steps).Some?
    requires var g := Run(Init(targets, exhausted), steps).value; b < |g.marks| && g.marks[b].Some?
    ensures exists n :: 0 <= n < |steps| && Gives(steps[n], b, Run(Init(targets, exhausted), steps).value.marks[b].value)
    decreases |steps|
  {
    hide Next, Enabled, Gives;
    if steps != [] {
      var n := |steps| - 1;
      RunSplit(Init(targets, exhausted), steps, n);
      var g, step := Run(Init(targets, exhausted), steps[..n]).value, steps[n];
      assert steps[n..] == [step] && [step][1..] == [];
      assert Enabled(g, step) && Run(g, [step]) == Some(Next(g, step));
      if b >= |g.marks| {
        NewBranchIsUnmarked(g, step, b);
      } else {
        MarkedBy(g, step, b);
        var final := Next(g, step).marks[b].value;
        if g.marks[b] == Some(final) {
          MarksAreExplained(targets, exhausted, steps[..n], b);
          var k :| 0 <= k < n && Gives(steps[..n][k], b, final);
          assert steps[..n][k] == steps[k];
        } else {
          assert Gives(steps[n], b, final) by { GivenNow(g, step, b, final); }
        }
      }
    }
  }

  lemma GivenNow(g: Group, step: Step, b: nat, final: Response)
    requires Enabled(g, step) && b < |g.marks| && Next(g, step).marks[b] == Some(final) != g.marks[b]
    ensures Gives(step, b, final)
  {
    hide Next, Enabled;
    MarkedBy(g, step, b);
    assert step.Receive? && step.event.Got? ==> step == Receive(step.branch, Got(step.event.response));
  }

  /** The upstream answer in the system's own terms: a 483 without hops, a 504 of Timer C, or the final of a branch. */
  lemma AnswerIsExplained(targets: nat, exhausted: bool, steps: seq<Step>)
    requires Run(Init(targets, exhausted), steps).Some?
    ensures var g := Run(Init(targets, exhausted), steps).value;
            g.final.Some? ==>
              var Recorded(response, origin) := g.final.value;
              && (exhausted <==> origin.HopsExhausted?)
              && (origin.HopsExhausted? ==> response == Response(483, 0))
              && (origin.TimerC? ==> response == Response(504, 0))
              && (origin.Winner? || origin.Aggregated? ==> exists b :: 0 <= b < |g.marks| && g.marks[b] == Some(response))
              && (origin.Winner? ==> IsSuccess(response.status))
  {
    RunKeeps(Init(targets, exhausted), steps);
    ExhaustedKept(Init(targets, exhausted), steps);
    AggregateIsBest(targets, exhausted, steps);
  }

  // ------------------------------------------------------------------ nothing is left behind

  /** A runner that will drop the group. */
  predicate Cleaner(g: Group, b: nat) { b < |g.runners| && (g.runners[b].Responding? || g.runners[b].Cleaning?) }

  /** A runner that drops the group, or finds another one doing so, if every branch in the table is final. */
  predicate Watcher(g: Group, b: nat) {
    && b < |g.runners|
    && match g.runners[b]
       case Waiting => false
       case Ended => false
       case Scanning(seen, _, _) => forall k :: 0 <= k < |seen| ==> seen[k] in g.entry
       case _ => true
  }

  predicate EntryMarked(g: Group) {
    forall k :: 0 <= k < |g.entry| ==> g.entry[k] < |g.marks| && g.marks[g.entry[k]].Some?
  }

  ghost predicate Tidy(g: Group) {
    && (g.cancelled ==> exists b: nat :: Cleaner(g, b))
    && (g.entry != [] && EntryMarked(g) ==> exists b: nat :: Watcher(g, b))
  }

  /** Only runner b moved, and it now cleans, or another runner that cleans or watches is still there. */
  lemma TidyMove(g: Group, g': Group, b: nat)
    requires Tidy(g) && b < |g.runners| && |g'.runners| == |g.runners| && g'.entry == g.entry && g'.marks == g.marks
    requires forall c :: 0 <= c < |g.runners| && c != b ==> g'.runners[c] == g.runners[c]
    requires g'.cancelled ==> Cleaner(g', b) || (g.cancelled && !Cleaner(g, b))
    requires g.entry != [] && EntryMarked(g) ==> Watcher(g', b) || !Watcher(g, b) || (g.cancelled && !Cleaner(g, b))
    ensures Tidy(g')
  {
    if g'.cancelled && !Cleaner(g', b) {
      var c: nat :| Cleaner(g, c);
      assert Cleaner(g', c);
    }
    if g'.entry != [] && EntryMarked(g') && !Watcher(g', b) {
      if !Watcher(g, b) {
        var c: nat :| Watcher(g, c);
        assert Watcher(g', c);
      } else {
        var c: nat :| Cleaner(g, c);
        assert Watcher(g', c);
      }
    }
  }

  lemma TidyAdvance(g: Group, b: nat)
    requires Tidy(g) && Enabled(g, Advance(b))
    ensures Tidy(AdvanceRunner(g, b))
  {
    hide Tidy;
    var g' := AdvanceRunner(g, b);
    match g.runners[b]
    case Cleaning => NothingIsTidy(g');
    case Scanning(seen, next, _) =>
      if g.entry != [] && EntryMarked(g) && Watcher(g, b) && next < |seen| {
        assert seen[next] in g.entry;
      }
      TidyMove(g, g', b);
    case _ => TidyMove(g, g', b);
  }

  lemma NothingIsTidy(g: Group)
    requires g.entry == [] && !g.cancelled
    ensures Tidy(g)
  {
  }

  lemma TidyStart(g: Group)
    requires Tidy(g) && Enabled(g, StartBranch)
    ensures Tidy(Next(g, StartBranch))
  {
    var g' := Next(g, StartBranch);
    if g.cancelled {
      var c: nat :| Cleaner(g, c);
      assert Cleaner(g', c);
    }
    assert g'.entry[|g.entry|] == |g.marks| && g'.marks[|g.marks|].None?;
  }

  lemma TidyMark(g: Group, b: nat, response: Response, next: Runner)
    requires Tidy(g) && b < |g.runners| == |g.marks| && g.runners[b].Waiting? && (next.Checking? || next.Claiming?)
    ensures Tidy(MarkFinal(g, b, response, next))
  {
    var g' := MarkFinal(g, b, response, next);
    if g.cancelled {
      var c: nat :| Cleaner(g, c);
      assert Cleaner(g', c);
    }
    assert Watcher(g', b);
  }

  lemma TidySame(g: Group, g': Group)
    requires Tidy(g) && g'.entry == g.entry && g'.marks == g.marks && g'.runners == g.runners && g'.cancelled == g.cancelled
    ensures Tidy(g')
  {
    if g.cancelled {
      var c: nat :| Cleaner(g, c);
      assert Cleaner(g', c);
    }
    if g.entry != [] && EntryMarked(g) {
      var c: nat :| Watcher(g, c);
      assert Watcher(g', c);
    }
  }

  lemma TidyStep(g: Group, step: Step)
    requires Tidy(g) && Enabled(g, step)
    ensures Tidy(Next(g, step))
  {
    hide Tidy, AdvanceRunner, InScan;
    match step
    case StartBranch => TidyStart(g);
    case Advance(b) => TidyAdvance(g, b);
    case Receive(b, Failure) => TidyMark(g, b, Built(504), Checking);
    case Receive(b, Got(response)) =>
      if response.status >= 200 {
        TidyMark(g, b, response, if IsSuccess(response.status) then Claiming(response) else Checking);
      }
    case Deadline(b) => TidyMark(g, b, Built(504), Checking);
    case TimerStep =>
      if g.timer.Swept? {
        NothingIsTidy(Next(g, step));
      } else {
        TidySame(g, Next(g, step));
      }
    case _ => TidySame(g, Next(g, step));
  }

  lemma {:induction false} TidyRun(g: Group, steps: seq<Step>)
    requires Tidy(g) && Run(g, steps).Some?
    ensures Tidy(Run(g, steps).value)
    decreases |steps|
  {
    hide Tidy, Next, Enabled;
    if steps != [] {
      TidyStep(g, steps[0]);
      TidyRun(Next(g, steps[0]), steps[1..]);
    }
  }

  /** In every interleaving, once the fork loop and all runners have ended, the tables hold nothing of the group any
      more, although branches are registered and groups dropped in any order. */
  lemma NothingIsLeftBehind(targets: nat, exhausted: bool, steps: seq<Step>)
    requires Run(Init(targets, exhausted), steps).Some?
    requires Quiescent(Run(Init(targets, exhausted), steps).value)
    ensures var g := Run(Init(targets, exhausted), steps).value;
            g.entry == [] && !g.cancelled
  {
    hide Run;
    NothingIsTidy(Init(targets, exhausted));
    TidyRun(Init(targets, exhausted), steps);
    RunKeeps(Init(targets, exhausted), steps);
    var g := Run(Init(targets, exhausted), steps).value;
    forall b: nat ensures !Cleaner(g, b) && !Watcher(g, b) {
    }
    forall k | 0 <= k < |g.entry| ensures g.entry[k] < |g.marks| && g.marks[g.entry[k]].Some? {
      assert RunnerOk(g, g.entry[k]);
    }
  }

  // ------------------------------------------------------------------ a claimed group

  /** Once a winner holds the group, nobody else begins to answer it: not a branch that ends, not a second winner, not
      Timer C. Only the one who holds it, or who had begun before, can still respond. */
  lemma ClaimedIsLeftAlone(g: Group, step: Step, b: nat)
    requires Enabled(g, step) && g.cancelled && b < |g.runners|
    ensures Next(g, step).runners[b].Responding? ==>
              g.runners[b].Responding? || (g.runners[b].Scanning? && g.runners[b].next == |g.runners[b].seen|)
    ensures Next(g, step).runners[b].Scanning? ==> g.runners[b].Scanning?
    ensures Next(g, step).timer.Sweeping? ==> g.timer.Sweeping?
    ensures Next(g, step).timer.Firing? ==> g.timer.Sweeping? || g.timer.Firing?
  {
  }
}
