/** The server transaction (transaction.go, ServerTx) as a state machine. `Respond` decides under its
    lock and sends after releasing it, so a decided response waits in `outbox` until its send step. */
module ServerTransaction {
  import opened Basics

  datatype TxState = Proceeding | Completed | Confirmed

  datatype Loop = Off | Sleeping          // the goroutine that repeats an INVITE's final

  /** A send that follows a lock section; `answer` marks the one made by Respond itself. */
  datatype Pending = Pending(response: Response, answer: bool)

  datatype Server = Server(
    invite: bool,
    state: TxState,
    final: Option<Response>,
    loop: Loop,
    stopped: bool,
    finishes: nat,                        // scheduled calls of finish that have not run
    decided: seq<Response>,               // everything Respond, the loop and retransmissions decided to send, in order
    outbox: multiset<Pending>,            // decided and not yet sent
    wire: seq<Response>,
    acked: bool                           // an ACK has been taken
  )

  datatype Step =
    | Respond(response: Response)
    | Send(pending: Pending, ok: bool)
    | TakeAck
    | RequestAgain
    | LoopTick
    | LoopStop
    | Finish

  function Init(invite: bool): Server {
    Server(invite, Proceeding, None, Off, false, 0, [], multiset{}, [], false)
  }

  function Decide(s: Server, response: Response, answer: bool): Server {
    s.(decided := s.decided + [response], outbox := s.outbox + multiset{Pending(response, answer)})
  }

  predicate Enabled(s: Server, step: Step) {
    match step
    case Send(pending, _) => pending in s.outbox
    case LoopTick => s.loop == Sleeping
    case LoopStop => s.loop == Sleeping && s.stopped
    case Finish => s.finishes > 0
    case _ => true
  }

  /** The lock section of Respond. */
  function Answer(s: Server, response: Response): Server {
    if response.status < 100 || response.status > 699 then s
    else if response.status < 200 then
      if s.state == Completed || s.state == Confirmed then s
      else Decide(s.(state := Proceeding), response, true)
    else if s.final.Some? then s
    else Decide(s.(final := Some(response), state := Completed), response, true)
  }

  /** The send that follows a lock section. Respond's own send of a final schedules the end of the
      transaction and starts the retransmit loop of an INVITE, whose failed send does neither. */
  function Sent(s: Server, pending: Pending, ok: bool): Server {
    var s' := s.(outbox := s.outbox - multiset{pending}, wire := if ok then s.wire + [pending.response] else s.wire);
    if !pending.answer || !IsFinalCode(pending.response.status) then s'
    else if !s.invite then s'.(finishes := s.finishes + 1)
    else if ok then s'.(loop := Sleeping, finishes := s.finishes + 1)
    else s'
  }

  function Next(s: Server, step: Step): Server
    requires Enabled(s, step)
  {
    match step
    case Respond(response) => Answer(s, response)
    case Send(pending, ok) => Sent(s, pending, ok)
    case TakeAck =>
      if s.invite && s.state == Completed
      then s.(state := Confirmed, finishes := s.finishes + 1, acked := true)
      else s
    case RequestAgain =>
      if s.final.Some? && (s.state == Completed || s.state == Confirmed) then Decide(s, s.final.value, false) else s
    case LoopTick =>
      if s.state != Completed || s.final.None? then s.(loop := Off) else Decide(s, s.final.value, false)
    case LoopStop => s.(loop := Off)
    case Finish => s.(stopped := true, finishes := s.finishes - 1)
  }

  function Run(s: Server, steps: seq<Step>): Option<Server>
    decreases |steps|
  {
    if steps == [] then Some(s)
    else if Enabled(s, steps[0]) then Run(Next(s, steps[0]), steps[1..])
    else None
  }

  function Order(state: TxState): nat {
    match state
    case Proceeding => 0
    case Completed => 1
    case Confirmed => 2
  }

  /** Provisionals first, then copies of one final. */
  predicate OneFinalAtTheEnd(decided: seq<Response>, final: Option<Response>) {
    && (forall i :: 0 <= i < |decided| ==> IsProvisional(decided[i].status) || final == Some(decided[i]))
    && (forall i, j :: 0 <= i < j < |decided| && final == Some(decided[i]) ==> final == Some(decided[j]))
  }

  predicate Inv(s: Server) {
    && (s.final.Some? <==> s.state != Proceeding)
    && (s.final.Some? ==> IsFinalCode(s.final.value.status))
    && (s.state == Confirmed <==> s.acked)
    && (s.acked ==> s.invite)
    && OneFinalAtTheEnd(s.decided, s.final)
    && (forall p :: p in s.outbox ==> p.response in s.decided)
    && (forall r :: r in s.wire ==> r in s.decided)
  }

  /** What no step undoes. */
  predicate Extends(s: Server, s': Server) {
    && s'.invite == s.invite
    && Order(s.state) <= Order(s'.state)
    && (s.final.Some? ==> s'.final == s.final)
    && s.decided <= s'.decided
    && s.wire <= s'.wire
  }

  lemma OrderKept(decided: seq<Response>, final: Option<Response>, final': Option<Response>, response: Response)
    requires OneFinalAtTheEnd(decided, final)
    requires final.Some? ==> IsFinalCode(final.value.status)
    requires || (IsProvisional(response.status) && final.None? && final'.None?)
             || (final == final' == Some(response))
             || (final.None? && final' == Some(response) && IsFinalCode(response.status))
    ensures OneFinalAtTheEnd(decided + [response], final')
  {
    var d := decided + [response];
    assert forall i :: 0 <= i < |decided| ==> d[i] == decided[i];
  }

  lemma DecideKeeps(s0: Server, s: Server, response: Response, answer: bool)
    requires Inv(s0)
    requires || (s == s0 && IsProvisional(response.status) && s0.final.None?)
             || (s == s0 && s0.final == Some(response))
             || (s0.final.None? && IsFinalCode(response.status) && s == s0.(final := Some(response), state := Completed))
    ensures Inv(Decide(s, response, answer)) && Extends(s0, Decide(s, response, answer))
  {
    OrderKept(s0.decided, s0.final, s.final, response);
    hide OneFinalAtTheEnd;
  }

  lemma AnswerKeeps(s: Server, response: Response)
    requires Inv(s)
    ensures Inv(Answer(s, response)) && Extends(s, Answer(s, response))
    ensures Answer(s, response).state == Confirmed ==> s.state == Confirmed
  {
    if IsProvisional(response.status) && s.state == Proceeding {
      DecideKeeps(s, s, response, true);
    } else if IsFinalCode(response.status) && s.final.None? {
      DecideKeeps(s, s.(final := Some(response), state := Completed), response, true);
    }
  }

  lemma SendKeeps(s: Server, pending: Pending, ok: bool)
    requires Inv(s) && pending in s.outbox
    ensures Inv(Sent(s, pending, ok)) && Extends(s, Sent(s, pending, ok))
    ensures Sent(s, pending, ok).state == s.state
  {
    hide OneFinalAtTheEnd;
    var s' := Sent(s, pending, ok);
    assert forall p :: p in s'.outbox ==> p in s.outbox;
    assert forall r :: r in s'.wire ==> r in s.wire || r == pending.response;
  }

  lemma StepKeeps(s: Server, step: Step)
    requires Inv(s) && Enabled(s, step)
    ensures Inv(Next(s, step)) && Extends(s, Next(s, step))
    ensures Next(s, step).state == Confirmed && s.state != Confirmed ==> step == TakeAck && s.state == Completed && s.invite
  {
    hide OneFinalAtTheEnd, Answer, Sent;
    match step
    case Respond(response) => AnswerKeeps(s, response);
    case Send(pending, ok) => SendKeeps(s, pending, ok);
    case RequestAgain =>
      if s.final.Some? {
        DecideKeeps(s, s, s.final.value, false);
      }
    case LoopTick =>
      if s.state == Completed {
        DecideKeeps(s, s, s.final.value, false);
      }
    case _ =>
  }

  lemma {:induction false} RunKeeps(s: Server, steps: seq<Step>)
    requires Inv(s) && Run(s, steps).Some?
    ensures Inv(Run(s, steps).value) && Extends(s, Run(s, steps).value)
    decreases |steps|
  {
    hide Inv, Enabled, Next;
    if steps != [] {
      StepKeeps(s, steps[0]);
      RunKeeps(Next(s, steps[0]), steps[1..]);
    }
  }

  lemma WireFinal(s: Server, response: Response)
    requires Inv(s) && response in s.wire
    ensures IsProvisional(response.status) || s.final == Some(response)
  {
    var i :| 0 <= i < |s.decided| && s.decided[i] == response;
  }

  /** Over every run: the final is written at most once and stays, it is set exactly when the state is
      Completed or Confirmed, the state only moves forward, and only an INVITE is ever Confirmed. */
  lemma FinalIsWrittenOnce(invite: bool, steps: seq<Step>, more: seq<Step>)
    requires Run(Init(invite), steps).Some? && Run(Run(Init(invite), steps).value, more).Some?
    ensures var s := Run(Init(invite), steps).value;
            var s' := Run(s, more).value;
            && (s.final.Some? ==> s'.final == s.final)
            && (s.final.Some? <==> s.state == Completed || s.state == Confirmed)
            && Order(s.state) <= Order(s'.state)
            && (s.state == Confirmed <==> s.acked) && (s.acked ==> invite)
  {
    RunKeeps(Init(invite), steps);
    RunKeeps(Run(Init(invite), steps).value, more);
  }

  /** Over every run: what the transaction decides to send is a list of provisionals followed by copies of
      the one recorded final, everything on the wire was decided, and every final on the wire is that one. */
  lemma OnlyTheFinalIsRepeated(invite: bool, steps: seq<Step>)
    requires Run(Init(invite), steps).Some?
    ensures var s := Run(Init(invite), steps).value;
            && (forall i, j :: 0 <= i < j < |s.decided| && IsFinalCode(s.decided[i].status) ==> s.decided[j] == s.decided[i])
            && (forall r :: r in s.wire ==> r in s.decided)
            && (forall r :: r in s.wire ==> IsProvisional(r.status) || s.final == Some(r))
  {
    RunKeeps(Init(invite), steps);
    var s := Run(Init(invite), steps).value;
    forall r | r in s.wire ensures IsProvisional(r.status) || s.final == Some(r) {
      WireFinal(s, r);
    }
  }

  // ------------------------------------------------------------------ the order on the wire

  /** No provisional follows a final. */
  predicate InOrder(wire: seq<Response>) {
    forall i, j :: 0 <= i < j < |wire| && IsFinalCode(wire[i].status) ==> !IsProvisional(wire[j].status)
  }

  predicate ProvisionalPending(s: Server) { exists p :: p in s.outbox && IsProvisional(p.response.status) }

  /** The final is decided, no provisional waits to be sent, and none came late so far. */
  predicate Settled(s: Server) { s.final.Some? && !ProvisionalPending(s) && InOrder(s.wire) }

  lemma SettledSend(s: Server, pending: Pending, ok: bool)
    requires Settled(s) && pending in s.outbox
    ensures Settled(Sent(s, pending, ok))
  {
    var s' := Sent(s, pending, ok);
    assert forall p :: p in s'.outbox ==> p in s.outbox;
  }

  lemma SettledStep(s: Server, step: Step)
    requires Inv(s) && Settled(s) && Enabled(s, step)
    ensures Settled(Next(s, step))
  {
    hide OneFinalAtTheEnd, Sent, InOrder;
    if step.Send? {
      SettledSend(s, step.pending, step.ok);
    }
  }

  lemma {:induction false} SettledRun(s: Server, steps: seq<Step>)
    requires Inv(s) && Settled(s) && Run(s, steps).Some?
    ensures Settled(Run(s, steps).value)
    decreases |steps|
  {
    hide Inv, Enabled, Next, Settled;
    if steps != [] {
      StepKeeps(s, steps[0]);
      SettledStep(s, steps[0]);
      SettledRun(Next(s, steps[0]), steps[1..]);
    }
  }

  /** Some continuation puts a provisional behind a final on the wire. */
  ghost predicate CanMisorder(s: Server) {
    exists more :: Run(s, more).Some? && !InOrder(Run(s, more).value.wire)
  }

  lemma NoFinalIsInOrder(s: Server)
    requires Inv(s) && s.final.None?
    ensures InOrder(s.wire) && forall r :: r in s.wire ==> IsProvisional(r.status)
  {
    forall r | r in s.wire ensures IsProvisional(r.status) {
      WireFinal(s, r);
    }
    assert forall i :: 0 <= i < |s.wire| ==> s.wire[i] in s.wire;
  }

  lemma RunTwo(s: Server, first: Step, second: Step)
    requires Enabled(s, first) && Enabled(Next(s, first), second)
    ensures Run(s, [first, second]) == Some(Next(Next(s, first), second))
  {
    hide Next, Enabled;
    assert [first, second][1..] == [second] && [second][1..] == [];
    assert Run(Next(s, first), [second]) == Some(Next(Next(s, first), second));
  }

  /** Send the final first and then the provisional that was decided before it. */
  lemma Overtake(s: Server, response: Response, p: Pending)
    requires s.final.None? && IsFinalCode(response.status) && p in s.outbox && IsProvisional(p.response.status)
    ensures var more := [Send(Pending(response, true), true), Send(p, true)];
            var s' := Next(s, Respond(response));
            Run(s', more).Some? && Run(s', more).value.wire == s.wire + [response, p.response]
  {
    hide Run;
    var s' := Next(s, Respond(response));
    var first, second := Send(Pending(response, true), true), Send(p, true);
    assert Enabled(s', first) && Enabled(Next(s', first), second);
    RunTwo(s', first, second);
    assert s.wire + [response] + [p.response] == s.wire + [response, p.response];
  }

  /** At the moment a final is recorded it is settled whether the order on the wire can break: exactly when a
      provisional that was decided before it is still waiting to be sent. */
  lemma OrderBreaksExactlyWhen(invite: bool, steps: seq<Step>, response: Response)
    requires Run(Init(invite), steps).Some?
    requires Run(Init(invite), steps).value.final.None? && IsFinalCode(response.status)
    ensures var s := Run(Init(invite), steps).value;
            CanMisorder(Next(s, Respond(response))) <==> ProvisionalPending(s)
  {
    hide Run, InOrder;
    RunKeeps(Init(invite), steps);
    var s := Run(Init(invite), steps).value;
    var s' := Next(s, Respond(response));
    NoFinalIsInOrder(s);
    if ProvisionalPending(s) {
      var p :| p in s.outbox && IsProvisional(p.response.status);
      Overtake(s, response, p);
      Misordered(s.wire, response, p.response);
    } else {
      AnswerKeeps(s, response);
      forall more | Run(s', more).Some? ensures InOrder(Run(s', more).value.wire) {
        SettledRun(s', more);
      }
    }
  }

  lemma Misordered(wire: seq<Response>, final: Response, late: Response)
    requires IsFinalCode(final.status) && IsProvisional(late.status)
    ensures !InOrder(wire + [final, late])
  {
    var w := wire + [final, late];
    assert w[|wire|] == final && w[|wire| + 1] == late;
  }

  /** The window is real: the 200 is decided after the 180 and sent before it. */
  lemma ProvisionalAfterFinal() returns (steps: seq<Step>)
    ensures Run(Init(true), steps).Some?
    ensures Run(Init(true), steps).value.wire == [Response(200, 2), Response(180, 1)]
  {
    var s0, ringing, ok := Init(true), Response(180, 1), Response(200, 2);
    var s1 := Next(s0, Respond(ringing));
    var more := [Send(Pending(ok, true), true), Send(Pending(ringing, true), true)];
    Overtake(s1, ok, Pending(ringing, true));
    var tail := [Respond(ok)] + more;
    assert tail[1..] == more;
    steps := [Respond(ringing)] + tail;
    assert steps[1..] == tail;
    assert Run(s1, tail) == Run(Next(s1, Respond(ok)), more);
    assert Run(s0, steps) == Run(s1, tail);
    assert s1.wire + [ok, ringing] == [ok, ringing];
  }

  /** Every call of Respond comes after the send of the one before. */
  predicate Sequential(s: Server, steps: seq<Step>)
    decreases |steps|
  {
    steps != [] && Enabled(s, steps[0]) ==>
      && (steps[0].Respond? ==> forall p :: p in s.outbox ==> !p.answer)
      && Sequential(Next(s, steps[0]), steps[1..])
  }

  /** Whatever waits and is not Respond's own send is a copy of the final. */
  predicate CopiesOfFinal(s: Server) { forall p :: p in s.outbox && !p.answer ==> s.final == Some(p.response) }

  predicate Orderly(s: Server) {
    CopiesOfFinal(s) && (s.final.Some? ==> !ProvisionalPending(s)) && InOrder(s.wire)
  }

  lemma CopiesStep(s: Server, step: Step)
    requires CopiesOfFinal(s) && Enabled(s, step)
    ensures CopiesOfFinal(Next(s, step))
  {
    hide Sent, Answer;
    match step
    case Respond(response) => CopiesAnswer(s, response);
    case Send(pending, ok) => CopiesSent(s, pending, ok);
    case _ =>
  }

  lemma CopiesAnswer(s: Server, response: Response)
    requires CopiesOfFinal(s)
    ensures CopiesOfFinal(Answer(s, response))
  {
  }

  lemma CopiesSent(s: Server, pending: Pending, ok: bool)
    requires CopiesOfFinal(s) && pending in s.outbox
    ensures CopiesOfFinal(Sent(s, pending, ok))
  {
    var s' := Sent(s, pending, ok);
    assert s'.outbox == s.outbox - multiset{pending};
    assert forall p :: p in s'.outbox ==> p in s.outbox;
  }

  /** The step that records the final finds no provisional waiting. */
  lemma RecordStep(s: Server, step: Step)
    requires CopiesOfFinal(s) && Enabled(s, step) && s.final.None? && Next(s, step).final.Some?
    requires step.Respond? ==> forall p :: p in s.outbox ==> !p.answer
    ensures !ProvisionalPending(Next(s, step)) && Next(s, step).wire == s.wire
  {
  }

  lemma OrderlyStep(s: Server, step: Step)
    requires Inv(s) && Orderly(s) && Enabled(s, step)
    requires step.Respond? ==> forall p :: p in s.outbox ==> !p.answer
    ensures Orderly(Next(s, step))
  {
    hide Inv, InOrder, Next, Enabled, CopiesOfFinal, ProvisionalPending;
    StepKeeps(s, step);
    CopiesStep(s, step);
    if s.final.Some? {
      SettledStep(s, step);
    } else if Next(s, step).final.None? {
      NoFinalIsInOrder(Next(s, step));
    } else {
      RecordStep(s, step);
    }
  }

  /** For a caller that responds one call after the other, no provisional ever follows the final on the wire. */
  lemma {:induction false} SequentialRun(s: Server, steps: seq<Step>)
    requires Inv(s) && Orderly(s) && Sequential(s, steps) && Run(s, steps).Some?
    ensures InOrder(Run(s, steps).value.wire)
    decreases |steps|
  {
    hide Inv, Enabled, Next, InOrder, ProvisionalPending, CopiesOfFinal;
    if steps != [] {
      StepKeeps(s, steps[0]);
      OrderlyStep(s, steps[0]);
      SequentialRun(Next(s, steps[0]), steps[1..]);
    }
  }

  lemma SequentialKeepsOrder(invite: bool, steps: seq<Step>)
    requires Sequential(Init(invite), steps) && Run(Init(invite), steps).Some?
    ensures InOrder(Run(Init(invite), steps).value.wire)
  {
    hide Run, Sequential;
    SequentialRun(Init(invite), steps);
  }

  // ------------------------------------------------------------------ the object itself

  /** ServerTx with its fields updated in place. */
  class ServerTx {
    const invite: bool
    var state: TxState
    var final: Option<Response>
    var finishes: nat
    ghost var decided: seq<Response>
    ghost var outbox: multiset<Pending>

    ghost function View(context: Server): Server
      reads this
    {
      context.(invite := invite, state := state, final := final, finishes := finishes, decided := decided, outbox := outbox)
    }

    constructor (invite: bool)
      ensures View(Init(invite)) == Init(invite)
    {
      this.invite := invite;
      state, final, finishes, decided, outbox := Proceeding, None, 0, [], multiset{};
    }

    /** Respond up to the point where its lock is released; `send` says that a send follows and `refused`
        that the call returns an error. */
    method Reply(response: Response, ghost context: Server) returns (send: bool, refused: bool)
      modifies this
      ensures View(context) == Answer(old(View(context)), response)
      ensures send <==> View(context).decided != old(View(context)).decided
      ensures refused <==>
                || response.status < 100 || response.status > 699
                || (response.status < 200 && old(state) != Proceeding)
      ensures refused ==> !send && View(context) == old(View(context))
    {
      if response.status < 100 || response.status > 699 {
        return false, true;
      }
      if response.status < 200 {
        if state == Completed || state == Confirmed {
          return false, true;
        }
        state := Proceeding;
      } else if final.Some? {
        return false, false;
      } else {
        final := Some(response);
        state := Completed;
      }
      decided := decided + [response];
      outbox := outbox + multiset{Pending(response, true)};
      return true, false;
    }

    method ReceiveAck(ghost context: Server)
      modifies this
      ensures View(context).(acked := Next(old(View(context)), TakeAck).acked) == Next(old(View(context)), TakeAck)
    {
      if !invite {
        return;
      }
      if state == Completed {
        state := Confirmed;
        finishes := finishes + 1;
      }
    }

    method ReceiveRetransmission(ghost context: Server) returns (copy: Option<Response>)
      modifies this
      ensures View(context) == Next(old(View(context)), RequestAgain)
      ensures old(View(context)).decided + (if copy.Some? then [copy.value] else []) == View(context).decided
      ensures Inv(old(View(context))) ==> copy == old(final)
    {
      copy := None;
      if final.Some? && (state == Completed || state == Confirmed) {
        copy := final;
        decided := decided + [final.value];
        outbox := outbox + multiset{Pending(final.value, false)};
      }
    }
  }
}
