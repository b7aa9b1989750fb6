/** The client transaction (transaction.go, ClientTx) as a state machine over its atomic sections.
    A response is looked up in the table in one step and enters `receive` in a later one; an
    iteration of the retransmit loop checks the state, resends, and if its time is up checks again
    and fires the timeout, each as its own step. The write of Calling/Trying by `Request` comes
    after the request is sent, so responses may arrive before it. */
module ClientTransaction {
  import opened Basics

  datatype TxState = Idle | Calling | Trying | Proceeding | Completed

  datatype TxEvent = Reply(response: Response) | Timeout

  datatype Sent = RequestCopy | Ack(response: Response)

  /** Program counter of the retransmit goroutine. */
  datatype Loop = NotStarted | Sleeping | Resending | Expired | TimingOut | Ended

  const EVENT_SLOTS: nat := 64

  datatype Client = Client(
    invite: bool,
    state: TxState,
    loop: Loop,
    inTable: bool,
    stopped: bool,                  // the stop channel is closed
    entering: multiset<Response>,   // looked up, about to enter receive
    finishes: nat,                  // scheduled calls of finish that have not run
    queue: seq<TxEvent>,            // the events channel
    offered: seq<TxEvent>,          // every event handed to the channel
    delivered: seq<TxEvent>,        // those the channel had room for
    wire: seq<Sent>,
    history: History
  )

  /** What happened relative to the two unlocked windows of the code. */
  datatype History = History(
    started: bool,          // Request has written Calling/Trying
    committed: bool,        // timeout has passed its state check
    answered: bool,         // a response was accepted
    early: bool,            // a response was accepted before the start
    live: bool,             // a response was accepted after the start
    earlyFinal: bool,       // a final was accepted before the start
    lateFinal: bool,        // a final was accepted after the timeout had committed
    caughtResend: bool,     // the first answer after the start arrived between a loop check and its resend
    resentAfter: nat,       // copies of the request sent after the first answer
    resentLive: nat         // those sent after the first answer that came after the start
  )

  datatype Step =
    | Start
    | Lookup(response: Response)
    | Enter(response: Response)
    | TickCheck
    | SeeStop
    | Resend(expired: bool)
    | TimeoutCheck
    | TimeoutFire
    | ScheduledFinish
    | Take

  const NO_HISTORY: History := History(false, false, false, false, false, false, false, false, 0, 0)

  /** The state right after Request has registered the transaction and sent the request. */
  function Init(invite: bool): Client {
    Client(invite, Idle, NotStarted, true, false, multiset{}, 0, [], [], [], [RequestCopy],
           NO_HISTORY)
  }

  predicate IsDone(state: TxState) { state == Completed }

  function Deliver(c: Client, e: TxEvent): Client {
    if |c.queue| < EVENT_SLOTS
    then c.(queue := c.queue + [e], offered := c.offered + [e], delivered := c.delivered + [e])
    else c.(offered := c.offered + [e])
  }

  function Finish(c: Client): Client { c.(stopped := true, inTable := false) }

  function SendAck(c: Client, response: Response): Client { c.(wire := c.wire + [Ack(response)]) }

  /** ClientTx.receive. */
  function Receive(c: Client, response: Response): Client {
    if response.status < 200 then
      if IsDone(c.state) then c else Deliver(c.(state := Proceeding), Reply(response))
    else if response.status < 300 then
      if c.invite then
        var accepted :=
          if IsDone(c.state) then c
          else var d := Deliver(c.(state := Completed), Reply(response)); d.(finishes := d.finishes + 1);
        SendAck(accepted, response)
      else Finish(Deliver(c, Reply(response)))
    else if IsDone(c.state) then c
    else
      var d := SendAck(Deliver(c.(state := Completed), Reply(response)), response);
      d.(finishes := d.finishes + 1)
  }

  /** Whether `receive` takes the response instead of dropping it as a repeat. */
  predicate Accepts(c: Client, response: Response) {
    !IsDone(c.state) || (!c.invite && IsSuccess(response.status))
  }

  function Note(c: Client, response: Response): History {
    var h := c.history;
    if !Accepts(c, response) then h
    else
      h.(answered := true,
         early := h.early || !h.started,
         live := h.live || h.started,
         caughtResend := h.caughtResend || (h.started && !h.live && c.loop == Resending),
         earlyFinal := h.earlyFinal || (response.status >= 200 && !h.started),
         lateFinal := h.lateFinal || (response.status >= 200 && h.committed))
  }

  /** One more copy of the request is sent. */
  function Count(h: History): History {
    h.(resentAfter := h.resentAfter + Bit(h.answered), resentLive := h.resentLive + Bit(h.live))
  }

  function Bit(b: bool): nat { if b then 1 else 0 }

  predicate Enabled(c: Client, step: Step) {
    match step
    case Start => !c.history.started
    case Lookup(_) => c.inTable && c.entering == multiset{}   // one goroutine dispatches all packets
    case Enter(response) => response in c.entering
    case TickCheck => c.loop == Sleeping
    case SeeStop => c.loop == Sleeping && c.stopped
    case Resend(_) => c.loop == Resending
    case TimeoutCheck => c.loop == Expired
    case TimeoutFire => c.loop == TimingOut
    case ScheduledFinish => c.finishes > 0
    case Take => c.queue != []
  }

  function Next(c: Client, step: Step): Client
    requires Enabled(c, step)
  {
    match step
    case Start =>
      c.(state := if c.invite then Calling else Trying, loop := Sleeping, history := c.history.(started := true))
    case Lookup(response) => c.(entering := c.entering + multiset{response})
    case Enter(response) =>
      Receive(c.(entering := c.entering - multiset{response}), response).(history := Note(c, response))
    case TickCheck =>
      c.(loop := if IsDone(c.state) || (c.invite && c.state == Proceeding) then Ended else Resending)
    case SeeStop => c.(loop := Ended)
    case Resend(expired) =>
      c.(loop := if expired then Expired else Sleeping,
         wire := c.wire + [RequestCopy],
         history := Count(c.history))
    case TimeoutCheck =>
      if IsDone(c.state) then c.(loop := Ended)
      else c.(loop := TimingOut, history := c.history.(committed := true))
    case TimeoutFire => Finish(Deliver(c, Timeout)).(loop := Ended)
    case ScheduledFinish => Finish(c).(finishes := c.finishes - 1)
    case Take => c.(queue := c.queue[1..])
  }

  function Run(c: Client, steps: seq<Step>): Option<Client>
    decreases |steps|
  {
    if steps == [] then Some(c)
    else if Enabled(c, steps[0]) then Run(Next(c, steps[0]), steps[1..])
    else None
  }

  // ------------------------------------------------------------------ counting events

  predicate IsFinalReply(e: TxEvent) { e.Reply? && e.response.status >= 200 }

  function FinalReplies(events: seq<TxEvent>): nat {
    if events == [] then 0
    else FinalReplies(events[..|events| - 1]) + if IsFinalReply(events[|events| - 1]) then 1 else 0
  }

  function Timeouts(events: seq<TxEvent>): nat {
    if events == [] then 0
    else Timeouts(events[..|events| - 1]) + if events[|events| - 1].Timeout? then 1 else 0
  }

  /** Final responses and timeouts: the events that end an INVITE for its user. */
  function TerminalEvents(events: seq<TxEvent>): nat {
    FinalReplies(events) + Timeouts(events)
  }

  lemma CountAppend(events: seq<TxEvent>, e: TxEvent)
    ensures FinalReplies(events + [e]) == FinalReplies(events) + if IsFinalReply(e) then 1 else 0
    ensures Timeouts(events + [e]) == Timeouts(events) + if e.Timeout? then 1 else 0
  {
    assert (events + [e])[..|events|] == events;
  }

  // ------------------------------------------------------------------ the INVITE invariant

  predicate Inv(c: Client) {
    var h := c.history;
    && c.invite
    && (c.loop == NotStarted <==> !h.started)
    && (h.started ==> c.state != Idle) && c.state != Trying
    && (!h.started ==> c.state in {Idle, Proceeding, Completed} && !h.live && !h.committed)
    // every final reply is explained by the current state or by one that the start write erased
    && FinalReplies(c.offered) == Bit(c.state == Completed) + Bit(h.earlyFinal && h.started)
    && (!h.started ==> (h.earlyFinal <==> c.state == Completed))
    && Timeouts(c.offered) == Bit(h.committed && c.loop == Ended)
    && (c.loop == TimingOut ==> h.committed)
    && (h.committed ==> c.loop == TimingOut || c.loop == Ended)
    && (h.lateFinal <==> h.committed && c.state == Completed)
    // an answer ends the retransmissions, up to one whose check came first
    && (h.answered <==> h.early || h.live)
    && (h.live ==> c.state == Proceeding || c.state == Completed)
    && h.resentLive + Bit(h.live && c.loop == Resending) == Bit(h.caughtResend)
    && (h.caughtResend ==> h.live)
    && (!h.early ==> h.resentAfter == h.resentLive)
    && FinalReplies(c.delivered) <= FinalReplies(c.offered)
    && Timeouts(c.delivered) <= Timeouts(c.offered)
  }

  /** What an INVITE takes from a response it accepts. */
  lemma ReceiveAccepted(c: Client, response: Response)
    requires c.invite && c.state != Completed
    ensures var d := Receive(c, response);
            && d.invite && d.loop == c.loop
            && d.state == (if response.status < 200 then Proceeding else Completed)
            && d.offered == c.offered + [Reply(response)]
            && (d.delivered == c.delivered || d.delivered == c.delivered + [Reply(response)])
  {
  }

  lemma ReceiveRepeat(c: Client, response: Response)
    requires c.invite && c.state == Completed
    ensures var d := Receive(c, response);
            && d.invite && d.loop == c.loop && d.state == Completed
            && d.offered == c.offered && d.delivered == c.delivered
  {
  }

  lemma EnterRepeat(c: Client, response: Response)
    requires Inv(c) && Enabled(c, Enter(response)) && c.state == Completed
    ensures Inv(Next(c, Enter(response))) && Next(c, Enter(response)).state == Completed
  {
    hide FinalReplies, Timeouts, Receive;
    ReceiveRepeat(c.(entering := c.entering - multiset{response}), response);
  }

  lemma EnterAccepted(c: Client, response: Response)
    requires Inv(c) && Enabled(c, Enter(response)) && c.state != Completed
    ensures Inv(Next(c, Enter(response)))
  {
    hide FinalReplies, Timeouts, Receive;
    ReceiveAccepted(c.(entering := c.entering - multiset{response}), response);
    CountAppend(c.offered, Reply(response));
    CountAppend(c.delivered, Reply(response));
  }

  lemma EnterKeeps(c: Client, response: Response)
    requires Inv(c) && Enabled(c, Enter(response))
    ensures Inv(Next(c, Enter(response)))
    ensures c.state == Completed ==> Next(c, Enter(response)).state == Completed
  {
    hide Inv, Next, Enabled;
    if c.state == Completed {
      EnterRepeat(c, response);
    } else {
      EnterAccepted(c, response);
    }
  }

  lemma LoopKeeps(c: Client, step: Step)
    requires Inv(c) && Enabled(c, step) && (step.TickCheck? || step.SeeStop? || step.Resend?)
    ensures Inv(Next(c, step)) && Next(c, step).state == c.state
  {
    hide FinalReplies, Timeouts, Receive;
  }

  lemma TimeoutKeeps(c: Client, step: Step)
    requires Inv(c) && Enabled(c, step) && (step.TimeoutCheck? || step.TimeoutFire?)
    ensures Inv(Next(c, step)) && Next(c, step).state == c.state
  {
    CountAppend(c.offered, Timeout);
    CountAppend(c.delivered, Timeout);
    hide FinalReplies, Timeouts, Receive;
  }

  lemma StepKeeps(c: Client, step: Step)
    requires Inv(c) && Enabled(c, step)
    ensures Inv(Next(c, step))
    ensures c.history.started ==> Next(c, step).history.started
    ensures c.history.started && c.state == Completed ==> Next(c, step).state == Completed
  {
    hide FinalReplies, Timeouts, Receive;
    match step
    case Enter(response) => EnterKeeps(c, response);
    case TickCheck => LoopKeeps(c, step);
    case SeeStop => LoopKeeps(c, step);
    case Resend(_) => LoopKeeps(c, step);
    case TimeoutCheck => TimeoutKeeps(c, step);
    case TimeoutFire => TimeoutKeeps(c, step);
    case _ =>
  }

  lemma {:induction false} RunKeeps(c: Client, steps: seq<Step>)
    requires Inv(c) && Run(c, steps).Some?
    ensures Inv(Run(c, steps).value)
    ensures c.history.started ==> Run(c, steps).value.history.started
    ensures c.history.started && c.state == Completed ==> Run(c, steps).value.state == Completed
    decreases |steps|
  {
    if steps != [] {
      StepKeeps(c, steps[0]);
      RunKeeps(Next(c, steps[0]), steps[1..]);
    }
  }

  // ------------------------------------------------------------------ theorems over every run of an INVITE

  /** Over every run: at most one timeout, at most one final response unless one arrived before
      the start write, and both a final response and a timeout exactly when the final was accepted
      after the timeout had committed. So at most one terminal event is delivered whenever neither
      window was hit, and offering two means that one of them was. */
  lemma TerminalEventsBounded(steps: seq<Step>)
    requires Run(Init(true), steps).Some?
    ensures var c := Run(Init(true), steps).value;
            && TerminalEvents(c.delivered) <= TerminalEvents(c.offered)
            && TerminalEvents(c.offered) ==
                 Bit(c.state == Completed) + Bit(c.history.earlyFinal && c.history.started)
                 + Bit(c.history.committed && c.loop == Ended)
            && Timeouts(c.offered) <= 1
            && (!c.history.earlyFinal ==> FinalReplies(c.offered) <= 1)
            && (!c.history.earlyFinal ==>
                  (TerminalEvents(c.offered) <= 1 <==> !(c.history.lateFinal && c.loop == Ended)))
            && (!c.history.earlyFinal && !c.history.lateFinal ==> TerminalEvents(c.delivered) <= 1)
  {
    RunKeeps(Init(true), steps);
  }

  lemma CompletedStep(c: Client, step: Step)
    requires Inv(c) && c.state == Completed && Enabled(c, step)
    ensures Next(c, step).state == Completed <==> step != Start
  {
    hide FinalReplies, Timeouts;
  }

  /** A reached Completed is left by the start write and by no other step, and so never once that write is done. */
  lemma CompletedIsKept(steps: seq<Step>, more: seq<Step>)
    requires Run(Init(true), steps).Some? && Run(Init(true), steps).value.state == Completed
    requires Run(Run(Init(true), steps).value, more).Some?
    ensures var c := Run(Init(true), steps).value;
            && (c.history.started ==> Run(c, more).value.state == Completed)
            && (forall step :: Enabled(c, step) ==> (Next(c, step).state == Completed <==> step != Start))
  {
    RunKeeps(Init(true), steps);
    var c := Run(Init(true), steps).value;
    RunKeeps(c, more);
    forall step | Enabled(c, step) ensures Next(c, step).state == Completed <==> step != Start {
      CompletedStep(c, step);
    }
  }

  /** When no response was accepted before the start write, the INVITE is sent at most once more after the first
      accepted response, and it is exactly when that response came between the loop's check and its send. With an
      early response this holds of the first response after the start. */
  lemma NoResendAfterAnswer(steps: seq<Step>)
    requires Run(Init(true), steps).Some?
    ensures var c := Run(Init(true), steps).value;
            var h := c.history;
            && h.resentLive <= 1
            && (h.resentLive == 1 <==> h.caughtResend && c.loop != Resending)
            && (!h.early ==> h.resentAfter == h.resentLive)
  {
    RunKeeps(Init(true), steps);
  }

  lemma ReceiveKeepsLoop(c: Client, response: Response)
    ensures Receive(c, response).loop == c.loop
  {
  }

  lemma SilentStep(c: Client, step: Step)
    requires c.invite && c.history.started && c.history.live && c.state in {Proceeding, Completed}
    requires c.loop in {Sleeping, Ended} && Enabled(c, step)
    ensures Next(c, step).history.live && Next(c, step).loop in {Sleeping, Ended}
    ensures Next(c, step).history.resentAfter == c.history.resentAfter
  {
    hide Receive;
    if step.Enter? {
      ReceiveKeepsLoop(c.(entering := c.entering - multiset{step.response}), step.response);
    }
  }

  lemma LiveState(c: Client)
    requires Inv(c) && c.history.live
    ensures c.invite && c.history.started && c.state in {Proceeding, Completed}
  {
    hide FinalReplies, Timeouts;
  }

  /** A transaction that has been answered after its start never resends again once its loop is asleep. */
  lemma {:induction false} SleepingLoopIsSilent(c: Client, steps: seq<Step>)
    requires Inv(c) && c.history.live && c.loop in {Sleeping, Ended} && Run(c, steps).Some?
    ensures Run(c, steps).value.history.resentAfter == c.history.resentAfter
    decreases |steps|
  {
    hide FinalReplies, Timeouts, Next, Enabled, Inv;
    if steps != [] {
      StepKeeps(c, steps[0]);
      LiveState(c);
      SilentStep(c, steps[0]);
      SleepingLoopIsSilent(Next(c, steps[0]), steps[1..]);
    }
  }

  // ------------------------------------------------------------------ both windows are real

  lemma RunNothing(c: Client)
    ensures Run(c, []) == Some(c)
  {
  }

  lemma {:induction false} RunExtend(c: Client, steps: seq<Step>, step: Step)
    requires Run(c, steps).Some? && Enabled(Run(c, steps).value, step)
    ensures Run(c, steps + [step]) == Some(Next(Run(c, steps).value, step))
    decreases |steps|
  {
    if steps == [] {
      assert Run(Next(c, step), [step][1..]) == Some(Next(c, step));
    } else {
      RunExtend(Next(c, steps[0]), steps[1..], step);
      assert (steps + [step])[1..] == steps[1..] + [step];
    }
  }

  /** A 200 has arrived before the start write, which has forgotten it. */
  lemma FinalForgotten(ok: Response) returns (steps: seq<Step>)
    requires IsSuccess(ok.status)
    ensures Run(Init(true), steps).Some?
    ensures var c := Run(Init(true), steps).value;
            c.invite && c.inTable && c.state == Calling && c.entering == multiset{}
            && c.delivered == [Reply(ok)] && c.queue == [Reply(ok)]
  {
    hide Run, FinalReplies, Timeouts;
    RunNothing(Init(true));
    RunExtend(Init(true), [], Lookup(ok));
    steps := [] + [Lookup(ok)];
    RunExtend(Init(true), steps, Enter(ok));
    steps := steps + [Enter(ok)];
    RunExtend(Init(true), steps, Start);
    steps := steps + [Start];
  }

  /** It is delivered, forgotten, and delivered again. */
  lemma EarlyFinalDeliveredTwice() returns (steps: seq<Step>)
    ensures Run(Init(true), steps).Some?
    ensures Run(Init(true), steps).value.delivered == [Reply(Response(200, 1)), Reply(Response(200, 1))]
  {
    hide Run, FinalReplies, Timeouts;
    var ok := Response(200, 1);
    steps := FinalForgotten(ok);
    RunExtend(Init(true), steps, Lookup(ok));
    steps := steps + [Lookup(ok)];
    RunExtend(Init(true), steps, Enter(ok));
    steps := steps + [Enter(ok)];
  }

  /** The loop has run out of time and timeout has passed its check. */
  lemma CommitTimeout() returns (steps: seq<Step>)
    ensures Run(Init(true), steps) == Some(Init(true).(
                state := Calling, loop := TimingOut, wire := [RequestCopy, RequestCopy],
                history := NO_HISTORY.(started := true, committed := true)))
  {
    hide Run, FinalReplies, Timeouts;
    RunNothing(Init(true));
    RunExtend(Init(true), [], Start);
    steps := [] + [Start];
    RunExtend(Init(true), steps, TickCheck);
    steps := steps + [TickCheck];
    RunExtend(Init(true), steps, Resend(true));
    steps := steps + [Resend(true)];
    RunExtend(Init(true), steps, TimeoutCheck);
    steps := steps + [TimeoutCheck];
    assert [RequestCopy] + [RequestCopy] == [RequestCopy, RequestCopy];
  }

  /** A 200 accepted after the timeout has passed its check gives a final response and a timeout. */
  lemma LateFinalAndTimeout() returns (steps: seq<Step>)
    ensures Run(Init(true), steps).Some?
    ensures Run(Init(true), steps).value.delivered == [Reply(Response(200, 1)), Timeout]
  {
    hide Run, FinalReplies, Timeouts;
    var ok := Response(200, 1);
    steps := CommitTimeout();
    RunExtend(Init(true), steps, Lookup(ok));
    steps := steps + [Lookup(ok)];
    RunExtend(Init(true), steps, Enter(ok));
    steps := steps + [Enter(ok)];
    assert var c := Run(Init(true), steps).value;
           c.loop == TimingOut && c.delivered == [Reply(ok)] && c.queue == [Reply(ok)];
    RunExtend(Init(true), steps, TimeoutFire);
    steps := steps + [TimeoutFire];
  }

  /** The loop has checked the state and a 180 comes before its send: the INVITE goes out once more. */
  lemma AnswerCaughtByResend() returns (steps: seq<Step>)
    ensures Run(Init(true), steps).Some?
    ensures var c := Run(Init(true), steps).value;
            c.delivered == [Reply(Response(180, 1))] && c.history.resentAfter == 1 && !c.history.early && c.history.caughtResend
  {
    var ringing := Response(180, 1);
    hide Run, FinalReplies, Timeouts;
    RunNothing(Init(true));
    RunExtend(Init(true), [], Start);
    steps := [] + [Start];
    RunExtend(Init(true), steps, TickCheck);
    steps := steps + [TickCheck];
    assert Run(Init(true), steps).value == Init(true).(
        state := Calling, loop := Resending, history := NO_HISTORY.(started := true));
    RunExtend(Init(true), steps, Lookup(ringing));
    steps := steps + [Lookup(ringing)];
    RunExtend(Init(true), steps, Enter(ringing));
    steps := steps + [Enter(ringing)];
    RunExtend(Init(true), steps, Resend(false));
    steps := steps + [Resend(false)];
  }

  /** The state of an INVITE whose 180 came before the start write, after n resends. */
  ghost predicate Forgotten(c: Client, n: nat) {
    && c.invite && c.state == Calling && c.loop == Sleeping && c.delivered == [Reply(Response(180, 1))]
    && c.history == NO_HISTORY.(started := true, answered := true, early := true, resentAfter := n)
  }

  lemma ForgottenAgain(c: Client, n: nat)
    requires Forgotten(c, n)
    ensures Enabled(c, TickCheck) && Enabled(Next(c, TickCheck), Resend(false))
    ensures Forgotten(Next(Next(c, TickCheck), Resend(false)), n + 1)
  {
  }

  /** A 180 that comes before the start write is delivered and then forgotten: for every n the INVITE may still be
      sent n more times. */
  lemma {:induction false} EarlyAnswerStopsNothing(n: nat) returns (steps: seq<Step>)
    ensures Run(Init(true), steps).Some? && Forgotten(Run(Init(true), steps).value, n)
  {
    if n == 0 {
      var ringing := Response(180, 1);
      hide Run, FinalReplies, Timeouts;
      RunNothing(Init(true));
      RunExtend(Init(true), [], Lookup(ringing));
      steps := [] + [Lookup(ringing)];
      RunExtend(Init(true), steps, Enter(ringing));
      steps := steps + [Enter(ringing)];
      RunExtend(Init(true), steps, Start);
      steps := steps + [Start];
    } else {
      steps := EarlyAnswerStopsNothing(n - 1);
      hide Run, Forgotten, Next, Enabled;
      ForgottenAgain(Run(Init(true), steps).value, n - 1);
      RunExtend(Init(true), steps, TickCheck);
      steps := steps + [TickCheck];
      RunExtend(Init(true), steps, Resend(false));
      steps := steps + [Resend(false)];
    }
  }

  // ------------------------------------------------------------------ ACKs outside INVITE

  ghost predicate AcksMatch(c: Client) {
    !c.invite && forall r :: Ack(r) in c.wire <==> r.status >= 300 && Reply(r) in c.offered
  }

  lemma AcksKept(c: Client, step: Step)
    requires AcksMatch(c) && Enabled(c, step)
    ensures AcksMatch(Next(c, step))
  {
    hide Receive;
    if step.Enter? {
      ReceiveAcks(c.(entering := c.entering - multiset{step.response}), step.response);
    }
  }

  lemma ReceiveAcks(c: Client, response: Response)
    requires AcksMatch(c)
    ensures AcksMatch(Receive(c, response))
  {
  }

  lemma {:induction false} RunKeepsAcks(c: Client, steps: seq<Step>)
    requires AcksMatch(c) && Run(c, steps).Some?
    ensures AcksMatch(Run(c, steps).value)
    decreases |steps|
  {
    hide AcksMatch, Next, Enabled;
    if steps != [] {
      AcksKept(c, steps[0]);
      RunKeepsAcks(Next(c, steps[0]), steps[1..]);
    }
  }

  /** Over every run of a request other than INVITE, a final is acknowledged exactly when it was accepted and is not
      a success, although section 17.1.2 of RFC 3261 has no ACK there at all. */
  lemma NonInviteAcks(steps: seq<Step>, r: Response)
    requires Run(Init(false), steps).Some?
    ensures var c := Run(Init(false), steps).value;
            Ack(r) in c.wire <==> r.status >= 300 && Reply(r) in c.offered
  {
    RunKeepsAcks(Init(false), steps);
  }

  /** A 404 to such a request is acknowledged. */
  lemma NonInviteIsAcked() returns (steps: seq<Step>)
    ensures Run(Init(false), steps).Some? && Run(Init(false), steps).value.wire == [RequestCopy, Ack(Response(404, 1))]
  {
    var missing := Response(404, 1);
    hide Run, FinalReplies, Timeouts;
    RunNothing(Init(false));
    RunExtend(Init(false), [], Start);
    steps := [] + [Start];
    RunExtend(Init(false), steps, Lookup(missing));
    steps := steps + [Lookup(missing)];
    RunExtend(Init(false), steps, Enter(missing));
    steps := steps + [Enter(missing)];
  }

  // ------------------------------------------------------------------ the object itself

  /** ClientTx with its fields updated in place; `wire` stands for the transport. */
  class ClientTx {
    const invite: bool
    var state: TxState
    var inTable: bool
    var stopped: bool
    var finishes: nat
    var queue: seq<TxEvent>
    var wire: seq<Sent>
    ghost var offered: seq<TxEvent>
    ghost var delivered: seq<TxEvent>

    /** The machine state of this object inside a context that supplies the goroutine positions. */
    ghost function View(context: Client): Client
      reads this
    {
      context.(invite := invite, state := state, inTable := inTable, stopped := stopped, finishes := finishes,
               queue := queue, wire := wire, offered := offered, delivered := delivered)
    }

    constructor (invite: bool)
      ensures View(Init(invite)) == Init(invite)
    {
      this.invite := invite;
      state, inTable, stopped, finishes := Idle, true, false, 0;
      queue, offered, delivered := [], [], [];
      wire := [RequestCopy];
    }

    method Push(e: TxEvent, ghost context: Client)
      modifies this`queue, this`offered, this`delivered
      ensures View(context) == Deliver(old(View(context)), e)
    {
      offered := offered + [e];
      if |queue| < EVENT_SLOTS {
        queue := queue + [e];
        delivered := delivered + [e];
      }
    }

    method Close(ghost context: Client)
      modifies this`stopped, this`inTable
      ensures View(context) == Finish(old(View(context)))
    {
      stopped := true;
      inTable := false;
    }

    method Accept(response: Response, ghost context: Client)
      modifies this
      ensures View(context) == Receive(old(View(context)), response)
    {
      if response.status < 200 {
        if state == Completed {
          return;
        }
        state := Proceeding;
        Push(Reply(response), context);
      } else if response.status < 300 {
        if invite {
          var wasCompleted := state == Completed;
          state := Completed;
          if !wasCompleted {
            Push(Reply(response), context);
            finishes := finishes + 1;
          }
          wire := wire + [Ack(response)];
          return;
        }
        Push(Reply(response), context);
        Close(context);
      } else {
        if state == Completed {
          return;
        }
        state := Completed;
        Push(Reply(response), context);
        wire := wire + [Ack(response)];
        finishes := finishes + 1;
      }
    }

    /** The lock section at the head of a retransmit iteration. */
    method CheckTick(ghost context: Client) returns (again: bool)
      ensures View(context).loop == Sleeping ==>
                (again <==> Next(View(context), TickCheck).loop == Resending)
    {
      again := !(state == Completed || (invite && state == Proceeding));
    }

    /** The lock section of timeout. */
    method CheckTimeout(ghost context: Client) returns (fire: bool)
      ensures View(context).loop == Expired ==>
                (fire <==> Next(View(context), TimeoutCheck).loop == TimingOut)
    {
      fire := state != Completed;
    }

    /** The rest of timeout, after the lock is released. */
    method FireTimeout(ghost context: Client)
      modifies this
      ensures old(View(context)).loop == TimingOut ==>
                View(context).(loop := Ended) == Next(old(View(context)), TimeoutFire)
    {
      Push(Timeout, context);
      Close(context);
    }
  }
}
