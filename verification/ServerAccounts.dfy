/** What a server transaction decides, sends and schedules, counted over whole runs (transaction.go, Respond,
    receiveACK, receiveRetransmission, startFinalRetransmit and finish). */
module ServerAccounts {
  import opened Basics
  import opened ServerTransaction

  function Bit(b: bool): nat { if b then 1 else 0 }

  // ------------------------------------------------------------------ what one step counts for

  /** The step repeats the final: a copy of the request, or a tick of the loop before the ACK. */
  predicate Repeats(s: Server, step: Step) {
    || (step.RequestAgain? && s.state != Proceeding)
    || (step.LoopTick? && s.state == Completed)
  }

  /** The step answers with a provisional that is still in order. */
  predicate Announces(s: Server, step: Step) {
    step.Respond? && 100 <= step.response.status < 200 && s.state == Proceeding
  }

  /** The step schedules the end of the transaction: the send of its own final, which for an INVITE must succeed, or
      the first ACK. */
  predicate Schedules(s: Server, step: Step) {
    || (step.Send? && step.pending.answer && 200 <= step.pending.response.status <= 699 && (!s.invite || step.ok))
    || (step.TakeAck? && s.invite && s.state == Completed)
  }

  datatype Tally = Tally(repeats: nat, announced: nat, sends: nat, successes: nat, scheduled: nat, finished: nat, acks: nat)

  const ZERO: Tally := Tally(0, 0, 0, 0, 0, 0, 0)

  function Add(t: Tally, s: Server, step: Step): Tally {
    Tally(t.repeats + Bit(Repeats(s, step)), t.announced + Bit(Announces(s, step)), t.sends + Bit(step.Send?),
          t.successes + Bit(step.Send? && step.ok), t.scheduled + Bit(Schedules(s, step)), t.finished + Bit(step.Finish?),
          t.acks + Bit(step.TakeAck? && s.invite && s.state == Completed))
  }

  /** The steps of a run, counted. */
  function Count(t: Tally, s: Server, steps: seq<Step>): Tally
    decreases |steps|
  {
    if steps == [] || !Enabled(s, steps[0]) then t
    else Count(Add(t, s, steps[0]), Next(s, steps[0]), steps[1..])
  }

  function Finals(decided: seq<Response>): nat {
    if decided == [] then 0
    else Finals(decided[..|decided| - 1]) + Bit(200 <= decided[|decided| - 1].status <= 699)
  }

  lemma FinalsAppend(decided: seq<Response>, r: Response)
    ensures Finals(decided + [r]) == Finals(decided) + Bit(200 <= r.status <= 699)
  {
    assert (decided + [r])[..|decided|] == decided;
  }

  // ------------------------------------------------------------------ the accounts

  /** The final was decided once and once for every repeat, each announced provisional once; what is decided is pending
      or was sent; the wire holds the successful sends; every scheduled finish is outstanding or ran; and the
      transaction is confirmed by the one ACK that counts. */
  predicate Balanced(s: Server, t: Tally) {
    && Finals(s.decided) == Bit(s.final.Some?) + t.repeats
    && |s.decided| == Finals(s.decided) + t.announced
    && |s.decided| == |s.outbox| + t.sends
    && |s.wire| == t.successes
    && s.finishes + t.finished == t.scheduled
    && t.acks == Bit(s.state == Confirmed)
  }

  lemma DecideBalances(s: Server, r: Response, answer: bool)
    ensures var d := Decide(s, r, answer);
            && Finals(d.decided) == Finals(s.decided) + Bit(200 <= r.status <= 699)
            && |d.decided| == |s.decided| + 1 && |d.outbox| == |s.outbox| + 1
            && d == s.(decided := d.decided, outbox := d.outbox)
  {
    FinalsAppend(s.decided, r);
  }

  lemma AnswerBalances(s: Server, response: Response, t: Tally)
    requires Inv(s) && Balanced(s, t)
    ensures Balanced(Answer(s, response), Add(t, s, Respond(response)))
  {
    hide OneFinalAtTheEnd, Finals, Decide;
    DecideBalances(s.(state := Proceeding), response, true);
    DecideBalances(s.(final := Some(response), state := Completed), response, true);
  }

  lemma SentBalances(s: Server, pending: Pending, ok: bool, t: Tally)
    requires Balanced(s, t) && pending in s.outbox
    ensures Balanced(Sent(s, pending, ok), Add(t, s, Send(pending, ok)))
  {
    hide Finals;
    assert |s.outbox - multiset{pending}| == |s.outbox| - 1;
  }

  lemma StepBalances(s: Server, step: Step, t: Tally)
    requires Inv(s) && Balanced(s, t) && Enabled(s, step)
    ensures Balanced(Next(s, step), Add(t, s, step))
  {
    hide OneFinalAtTheEnd, Finals, Decide, Answer, Sent;
    match step
    case Respond(response) => AnswerBalances(s, response, t);
    case Send(pending, ok) => SentBalances(s, pending, ok, t);
    case RequestAgain =>
      if s.final.Some? {
        DecideBalances(s, s.final.value, false);
      }
    case LoopTick =>
      if s.final.Some? {
        DecideBalances(s, s.final.value, false);
      }
    case _ =>
  }

  lemma {:induction false} RunBalances(s: Server, steps: seq<Step>, t: Tally)
    requires Inv(s) && Balanced(s, t) && Run(s, steps).Some?
    ensures Balanced(Run(s, steps).value, Count(t, s, steps))
    decreases |steps|
  {
    hide Inv, Balanced, Next, Enabled, Add;
    if steps != [] {
      StepKeeps(s, steps[0]);
      StepBalances(s, steps[0], t);
      RunBalances(Next(s, steps[0]), steps[1..], Add(t, s, steps[0]));
    }
  }

  /** Over every run: the final is decided once by the Respond that records it, once for every repeated request after
      that and once for every tick of the loop before the ACK, and not otherwise; every provisional answered before it
      is decided once. Whatever is decided is pending or was sent, and the wire holds the sends that succeeded. The
      end is scheduled once for the final's own send and once for the ACK, and the transaction is confirmed exactly by
      the first ACK. */
  lemma ServerAccount(invite: bool, steps: seq<Step>)
    requires Run(Init(invite), steps).Some?
    ensures Balanced(Run(Init(invite), steps).value, Count(ZERO, Init(invite), steps))
  {
    hide Run, Count, Inv, Balanced, Init;
    StartBalances(invite);
    RunBalances(Init(invite), steps, ZERO);
  }

  lemma StartBalances(invite: bool)
    ensures Inv(Init(invite)) && Balanced(Init(invite), ZERO)
  {
  }

  // ------------------------------------------------------------------ the loop goes on until the ACK

  predicate Repeating(s: Server) { s.invite && s.state == Completed && s.final.Some? && s.loop == Sleeping }

  predicate Quiets(step: Step) { step.TakeAck? || step.LoopStop? }

  lemma RepeatingStep(s: Server, step: Step)
    requires Repeating(s) && Enabled(s, step) && !Quiets(step)
    ensures Repeating(Next(s, step)) && Next(s, step).final == s.final
  {
  }

  lemma {:induction false} RepeatingRun(s: Server, steps: seq<Step>)
    requires Repeating(s) && Run(s, steps).Some? && forall i :: 0 <= i < |steps| ==> !Quiets(steps[i])
    ensures Repeating(Run(s, steps).value) && Run(s, steps).value.final == s.final
    decreases |steps|
  {
    hide Repeating, Next, Enabled;
    if steps != [] {
      RepeatingStep(s, steps[0]);
      RepeatingRun(Next(s, steps[0]), steps[1..]);
    }
  }

  /** Once an INVITE's final has been sent, and until an ACK is taken or the loop is stopped, the loop can tick at any
      time and each tick puts one more copy of the final on its way. */
  lemma RepeatedUntilAcked(steps: seq<Step>, final: Response, more: seq<Step>)
    requires Run(Init(true), steps).Some?
    requires var s := Run(Init(true), steps).value;
             && s.state == Completed && s.final == Some(final) && Pending(final, true) in s.outbox
             && Run(Next(s, Send(Pending(final, true), true)), more).Some?
    requires forall i :: 0 <= i < |more| ==> !Quiets(more[i])
    ensures var s := Run(Next(Run(Init(true), steps).value, Send(Pending(final, true), true)), more).value;
            && Enabled(s, LoopTick)
            && Next(s, LoopTick).outbox == s.outbox + multiset{Pending(final, false)}
            && Enabled(Next(s, LoopTick), Send(Pending(final, false), true))
            && Enabled(Next(s, LoopTick), LoopTick)
  {
    hide Run;
    RunKeeps(Init(true), steps);
    var s := Run(Init(true), steps).value;
    assert s.invite && IsFinalCode(final.status);
    assert Repeating(Next(s, Send(Pending(final, true), true)));
    RepeatingRun(Next(s, Send(Pending(final, true), true)), more);
  }

  // ------------------------------------------------------------------ a loop that has ended

  /** The loop is off and no send is left that would start it. */
  predicate LoopIsOver(s: Server) {
    s.loop == Off && s.final.Some? && s.state != Proceeding && forall p :: p in s.outbox ==> !p.answer
  }

  lemma OverStep(s: Server, step: Step)
    requires LoopIsOver(s) && Enabled(s, step)
    ensures LoopIsOver(Next(s, step)) && !step.LoopTick?
  {
    var s' := Next(s, step);
    assert step.Send? ==> forall p :: p in s'.outbox ==> p in s.outbox;
  }

  lemma {:induction false} OverRun(s: Server, steps: seq<Step>)
    requires LoopIsOver(s) && Run(s, steps).Some?
    ensures LoopIsOver(Run(s, steps).value) && forall i :: 0 <= i < |steps| ==> !steps[i].LoopTick?
    decreases |steps|
  {
    hide LoopIsOver, Next, Enabled;
    if steps != [] {
      OverStep(s, steps[0]);
      OverRun(Next(s, steps[0]), steps[1..]);
    }
  }

  /** A loop that is stopped, and one that ticks after the ACK, never ticks again; copies of the final then go out only
      for repeated requests. */
  lemma EndedLoopIsSilent(s: Server, step: Step, steps: seq<Step>)
    requires Inv(s) && Enabled(s, step) && s.final.Some? && (forall p :: p in s.outbox ==> !p.answer)
    requires step.LoopStop? || (step.LoopTick? && s.state == Confirmed)
    requires Run(Next(s, step), steps).Some?
    ensures forall i :: 0 <= i < |steps| ==> !steps[i].LoopTick?
  {
    hide Run;
    OverRun(Next(s, step), steps);
  }
}
