/** What a client transaction sends and reports, counted over whole runs (transaction.go, receive, deliver, sendACK,
    timeout and finish). */
module ClientAccounts {
  import opened Basics
  import opened ClientTransaction

  // ------------------------------------------------------------------ counting

  /** How often a response entered `receive`. */
  function Entered(steps: seq<Step>, r: Response): nat {
    if steps == [] then 0 else Bit(steps[0] == Enter(r)) + Entered(steps[1..], r)
  }

  /** How often it found the transaction not completed. */
  function Accepted(c: Client, steps: seq<Step>, r: Response): nat
    decreases |steps|
  {
    if steps == [] || !Enabled(c, steps[0]) then 0
    else Bit(steps[0] == Enter(r) && c.state != Completed) + Accepted(Next(c, steps[0]), steps[1..], r)
  }

  /** How many scheduled finishes have run. */
  function Finished(steps: seq<Step>): nat {
    if steps == [] then 0 else Bit(steps[0].ScheduledFinish?) + Finished(steps[1..])
  }

  function Acks(wire: seq<Sent>, r: Response): nat {
    if wire == [] then 0 else Acks(wire[..|wire| - 1], r) + Bit(wire[|wire| - 1] == Ack(r))
  }

  function Replies(events: seq<TxEvent>, r: Response): nat {
    if events == [] then 0 else Replies(events[..|events| - 1], r) + Bit(events[|events| - 1] == Reply(r))
  }

  lemma AddToWire(wire: seq<Sent>, x: Sent, r: Response)
    ensures Acks(wire + [x], r) == Acks(wire, r) + Bit(x == Ack(r))
  {
    assert (wire + [x])[..|wire|] == wire;
  }

  lemma AddToEvents(events: seq<TxEvent>, x: TxEvent, r: Response)
    ensures Replies(events + [x], r) == Replies(events, r) + Bit(x == Reply(r))
  {
    assert (events + [x])[..|events|] == events;
  }

  // ------------------------------------------------------------------ the accounts of an INVITE

  /** The accounts of response r after it entered and was accepted so often, and so many finishes ran. */
  predicate Balanced(c: Client, r: Response, entered: nat, accepted: nat, finished: nat) {
    && c.invite
    && Acks(c.wire, r) == (if r.status < 200 then 0 else if r.status < 300 then entered else accepted)
    && Replies(c.offered, r) == accepted
    && c.finishes + finished == FinalReplies(c.offered)
  }

  /** What an INVITE makes of a response. */
  lemma ReceiveIs(c: Client, response: Response)
    requires c.invite
    ensures var d := Receive(c, response);
            && d.invite
            && d.offered == (if c.state == Completed then c.offered else c.offered + [Reply(response)])
            && d.finishes == c.finishes + Bit(c.state != Completed && response.status >= 200)
            && d.wire == (if 200 <= response.status < 300 || (response.status >= 300 && c.state != Completed)
                          then c.wire + [Ack(response)] else c.wire)
  {
  }

  lemma EnterBalances(c: Client, response: Response, r: Response, entered: nat, accepted: nat, finished: nat)
    requires Balanced(c, r, entered, accepted, finished) && Enabled(c, Enter(response))
    ensures Balanced(Next(c, Enter(response)), r, entered + Bit(response == r),
                     accepted + Bit(response == r && c.state != Completed), finished)
  {
    hide Receive, FinalReplies, Acks, Replies;
    ReceiveIs(c.(entering := c.entering - multiset{response}), response);
    AddToWire(c.wire, Ack(response), r);
    AddToEvents(c.offered, Reply(response), r);
    CountAppend(c.offered, Reply(response));
  }

  lemma OtherBalances(c: Client, step: Step, r: Response, entered: nat, accepted: nat, finished: nat)
    requires Balanced(c, r, entered, accepted, finished) && Enabled(c, step) && !step.Enter?
    ensures Balanced(Next(c, step), r, entered, accepted, finished + Bit(step.ScheduledFinish?))
  {
    hide FinalReplies, Acks, Replies, Next;
    OtherIs(c, step);
    AddToWire(c.wire, RequestCopy, r);
    AddToEvents(c.offered, Timeout, r);
    CountAppend(c.offered, Timeout);
  }

  /** What the other steps do to the accounts. */
  lemma OtherIs(c: Client, step: Step)
    requires Enabled(c, step) && !step.Enter?
    ensures var d := Next(c, step);
            && d.invite == c.invite
            && d.wire == (if step.Resend? then c.wire + [RequestCopy] else c.wire)
            && d.offered == (if step.TimeoutFire? then c.offered + [Timeout] else c.offered)
            && d.finishes + Bit(step.ScheduledFinish?) == c.finishes
  {
    hide Receive;
  }

  lemma {:induction false} RunBalances(c: Client, steps: seq<Step>, r: Response, entered: nat, accepted: nat, finished: nat)
    requires Balanced(c, r, entered, accepted, finished) && Run(c, steps).Some?
    ensures Balanced(Run(c, steps).value, r, entered + Entered(steps, r), accepted + Accepted(c, steps, r),
                     finished + Finished(steps))
    decreases |steps|
  {
    hide Balanced, Next, Enabled;
    if steps != [] {
      var step := steps[0];
      if step.Enter? {
        var hit := step.response == r;
        assert step == Enter(step.response);
        EnterBalances(c, step.response, r, entered, accepted, finished);
        RunBalances(Next(c, step), steps[1..], r, entered + Bit(hit), accepted + Bit(hit && c.state != Completed), finished);
      } else {
        OtherBalances(c, step, r, entered, accepted, finished);
        RunBalances(Next(c, step), steps[1..], r, entered, accepted, finished + Bit(step.ScheduledFinish?));
      }
    }
  }

  /** Over every run of an INVITE: each 2xx is acknowledged once for every time it came in, repeats included; each
      other final once for every time it was reported; no provisional at all. Exactly the accepted responses are
      reported, and each reported final schedules one finish. */
  lemma InviteAccounts(steps: seq<Step>, r: Response)
    requires Run(Init(true), steps).Some?
    ensures var c := Run(Init(true), steps).value;
            && (r.status < 200 ==> Acks(c.wire, r) == 0)
            && (200 <= r.status < 300 ==> Acks(c.wire, r) == Entered(steps, r))
            && (r.status >= 300 ==> Acks(c.wire, r) == Replies(c.offered, r))
            && Replies(c.offered, r) == Accepted(Init(true), steps, r)
            && c.finishes + Finished(steps) == FinalReplies(c.offered)
  {
    hide Run;
    assert Acks([RequestCopy], r) == 0 by { AddToWire([], RequestCopy, r); assert [] + [RequestCopy] == [RequestCopy]; }
    RunBalances(Init(true), steps, r, 0, 0, 0);
  }

  // ------------------------------------------------------------------ the events channel and the table

  /** The queue is the end of what was delivered, and nothing was dropped while at most 64 events were offered. */
  predicate QueueOk(queue: seq<TxEvent>, delivered: seq<TxEvent>, offered: seq<TxEvent>) {
    && |queue| <= 64 && |queue| <= |delivered| <= |offered|
    && delivered[|delivered| - |queue|..] == queue
    && (|offered| <= 64 ==> delivered == offered)
  }

  /** The transaction is in the table until it is stopped, and stopped by a timeout or by a 2xx outside INVITE. */
  ghost predicate TableOk(c: Client) {
    && (c.inTable <==> !c.stopped)
    && (Timeout in c.offered ==> c.stopped)
    && (!c.invite ==> forall r :: Reply(r) in c.offered && IsSuccess(r.status) ==> c.stopped)
  }

  lemma DeliverQueue(c: Client, e: TxEvent)
    requires QueueOk(c.queue, c.delivered, c.offered)
    ensures var d := Deliver(c, e); QueueOk(d.queue, d.delivered, d.offered)
  {
    if |c.queue| < EVENT_SLOTS {
      assert (c.delivered + [e])[|c.delivered| - |c.queue|..] == c.queue + [e];
    }
  }

  predicate SameEvents(c: Client, d: Client) {
    c.queue == d.queue && c.delivered == d.delivered && c.offered == d.offered
  }

  lemma DeliverIgnoresState(c: Client, state: TxState, e: TxEvent)
    ensures SameEvents(Deliver(c.(state := state), e), Deliver(c, e))
  {
  }

  lemma ReceiveEvents(c: Client, response: Response)
    ensures SameEvents(Receive(c, response), c) || SameEvents(Receive(c, response), Deliver(c, Reply(response)))
  {
    hide Deliver;
    DeliverIgnoresState(c, Proceeding, Reply(response));
    DeliverIgnoresState(c, Completed, Reply(response));
  }

  lemma StepQueue(c: Client, step: Step)
    requires QueueOk(c.queue, c.delivered, c.offered) && Enabled(c, step)
    ensures var d := Next(c, step); QueueOk(d.queue, d.delivered, d.offered)
  {
    hide Receive, Deliver, QueueOk;
    match step
    case Enter(response) =>
      var d := c.(entering := c.entering - multiset{response});
      ReceiveEvents(d, response);
      DeliverQueue(d, Reply(response));
    case TimeoutFire => DeliverQueue(c, Timeout);
    case Take => TakeQueue(c.queue, c.delivered, c.offered);
    case _ =>
  }

  lemma TakeQueue(queue: seq<TxEvent>, delivered: seq<TxEvent>, offered: seq<TxEvent>)
    requires QueueOk(queue, delivered, offered) && queue != []
    ensures QueueOk(queue[1..], delivered, offered)
  {
    assert queue[1..] == delivered[|delivered| - |queue| + 1..];
  }

  lemma ReceiveTable(c: Client, response: Response)
    requires TableOk(c)
    ensures TableOk(Receive(c, response)) && Receive(c, response).invite == c.invite
  {
  }

  lemma StepTable(c: Client, step: Step)
    requires TableOk(c) && Enabled(c, step)
    ensures TableOk(Next(c, step)) && Next(c, step).invite == c.invite
  {
    hide Receive;
    if step.Enter? {
      ReceiveTable(c.(entering := c.entering - multiset{step.response}), step.response);
    }
  }

  lemma {:induction false} RunOrderly(c: Client, steps: seq<Step>)
    requires QueueOk(c.queue, c.delivered, c.offered) && TableOk(c) && Run(c, steps).Some?
    ensures var d := Run(c, steps).value; QueueOk(d.queue, d.delivered, d.offered) && TableOk(d) && d.invite == c.invite
    decreases |steps|
  {
    hide QueueOk, TableOk, Next, Enabled;
    if steps != [] {
      StepQueue(c, steps[0]);
      StepTable(c, steps[0]);
      RunOrderly(Next(c, steps[0]), steps[1..]);
    }
  }

  lemma FinishStep(c: Client, step: Step)
    requires Enabled(c, step) && (c.stopped || step.ScheduledFinish?)
    ensures Next(c, step).stopped
  {
  }

  lemma {:induction false} FinishedRun(c: Client, steps: seq<Step>)
    requires Run(c, steps).Some? && (c.stopped || Finished(steps) > 0)
    ensures Run(c, steps).value.stopped
    decreases |steps|
  {
    hide Next, Enabled;
    if steps != [] {
      if c.stopped || steps[0].ScheduledFinish? {
        FinishStep(c, steps[0]);
      }
      FinishedRun(Next(c, steps[0]), steps[1..]);
    }
  }

  /** Over every run: what the user has not taken yet is the end of what was delivered, at most 64 events; no event is
      dropped while at most 64 were offered; a timeout, a scheduled finish, and a 2xx to a request other than INVITE,
      ends the transaction and takes it out of the table. */
  lemma EventsAreKept(invite: bool, steps: seq<Step>)
    requires Run(Init(invite), steps).Some?
    ensures var c := Run(Init(invite), steps).value;
            && |c.queue| <= 64 && |c.queue| <= |c.delivered| && c.queue == c.delivered[|c.delivered| - |c.queue|..]
            && (|c.offered| <= 64 ==> c.delivered == c.offered)
            && (Timeout in c.offered || Finished(steps) > 0 ==> !c.inTable && c.stopped)
            && (!invite ==> forall r :: Reply(r) in c.offered && IsSuccess(r.status) ==> !c.inTable && c.stopped)
  {
    hide Run;
    RunOrderly(Init(invite), steps);
    if Finished(steps) > 0 {
      FinishedRun(Init(invite), steps);
    }
  }

  // ------------------------------------------------------------------ other requests are resent after a provisional

  /** A request other than INVITE that got a 100 and was resent n times since. */
  ghost predicate Provisional(c: Client, n: nat) {
    && !c.invite && c.state == Proceeding && c.loop == Sleeping && c.delivered == [Reply(Response(100, 1))]
    && c.history == NO_HISTORY.(started := true, answered := true, live := true, resentAfter := n, resentLive := n)
  }

  lemma ProvisionalAgain(c: Client, n: nat)
    requires Provisional(c, n)
    ensures Enabled(c, TickCheck) && Enabled(Next(c, TickCheck), Resend(false))
    ensures Provisional(Next(Next(c, TickCheck), Resend(false)), n + 1)
  {
  }

  /** For every n such a request may be resent n times after a 100, as section 17.1.2.2 of RFC 3261 asks. */
  lemma {:induction false} OthersKeepResending(n: nat) returns (steps: seq<Step>)
    ensures Run(Init(false), steps).Some? && Provisional(Run(Init(false), steps).value, n)
  {
    if n == 0 {
      hide Run, FinalReplies, Timeouts;
      var trying := Response(100, 1);
      RunNothing(Init(false));
      RunExtend(Init(false), [], Start);
      steps := [] + [Start];
      RunExtend(Init(false), steps, Lookup(trying));
      steps := steps + [Lookup(trying)];
      RunExtend(Init(false), steps, Enter(trying));
      steps := steps + [Enter(trying)];
    } else {
      steps := OthersKeepResending(n - 1);
      hide Run, Provisional, Next, Enabled;
      ProvisionalAgain(Run(Init(false), steps).value, n - 1);
      RunExtend(Init(false), steps, TickCheck);
      steps := steps + [TickCheck];
      RunExtend(Init(false), steps, Resend(false));
      steps := steps + [Resend(false)];
    }
  }

  // ------------------------------------------------------------------ a stopped loop

  function Copies(wire: seq<Sent>): nat {
    if wire == [] then 0 else Copies(wire[..|wire| - 1]) + Bit(wire[|wire| - 1] == RequestCopy)
  }

  lemma CopiesAppend(wire: seq<Sent>, x: Sent)
    ensures Copies(wire + [x]) == Copies(wire) + Bit(x == RequestCopy)
  {
    assert (wire + [x])[..|wire|] == wire;
  }

  lemma EndedStep(c: Client, step: Step)
    requires c.loop == Ended && c.history.started && Enabled(c, step)
    ensures Next(c, step).loop == Ended && Next(c, step).history.started && Copies(Next(c, step).wire) == Copies(c.wire)
  {
    hide Copies, Receive;
    if step.Enter? {
      ReceiveWire(c.(entering := c.entering - multiset{step.response}), step.response);
      CopiesAppend(c.wire, Ack(step.response));
    }
  }

  lemma ReceiveWire(c: Client, response: Response)
    ensures Receive(c, response).loop == c.loop
    ensures Receive(c, response).wire == c.wire || Receive(c, response).wire == c.wire + [Ack(response)]
  {
  }

  lemma {:induction false} EndedRun(c: Client, steps: seq<Step>)
    requires c.loop == Ended && c.history.started && Run(c, steps).Some?
    ensures Run(c, steps).value.loop == Ended && Copies(Run(c, steps).value.wire) == Copies(c.wire)
    decreases |steps|
  {
    hide Next, Enabled, Copies;
    if steps != [] {
      EndedStep(c, steps[0]);
      EndedRun(Next(c, steps[0]), steps[1..]);
    }
  }

  /** A loop that sees the stop sends no copy of the request any more, whatever happens later. */
  lemma StoppedLoopIsSilent(c: Client, steps: seq<Step>)
    requires Enabled(c, SeeStop) && c.history.started && Run(Next(c, SeeStop), steps).Some?
    ensures Copies(Run(Next(c, SeeStop), steps).value.wire) == Copies(c.wire)
    ensures Run(Next(c, SeeStop), steps).value.loop == Ended
  {
    hide Run, Copies;
    EndedRun(Next(c, SeeStop), steps);
  }
}
