/** One client transaction and the server side of its key, joined by a network that loses, duplicates and
    reorders (transaction.go, handleRequest and handleResponse). Whatever was once sent may be delivered
    any number of times, in any order, or never. The branch is fresh, so only server transactions opened
    by this request answer it. A removed server transaction keeps running its timers and its handler, and
    a copy of the request that arrives after the removal opens another one. */
module Exchange {
  import opened Basics
  import C = ClientTransaction
  import S = ServerTransaction

  datatype Exchange = Exchange(
    client: C.Client,
    servers: seq<S.Server>,        // every server transaction opened for the key, oldest first
    table: Option<nat>,            // the one TxManager.txs holds
    removals: nat,                 // times the key was deleted from the table
    handled: nat                   // calls of the application's request handler
  )

  datatype Step =
    | ClientStep(step: C.Step)
    | RequestArrives
    | ServerStep(at: nat, action: S.Step)

  function Init(invite: bool): Exchange { Exchange(C.Init(invite), [], None, 0, 0) }

  predicate OnWire(servers: seq<S.Server>, response: Response) {
    exists i :: 0 <= i < |servers| && response in servers[i].wire
  }

  predicate Enabled(x: Exchange, step: Step) {
    match step
    case ClientStep(cs) => C.Enabled(x.client, cs) && (cs.Lookup? ==> OnWire(x.servers, cs.response))
    case RequestArrives => C.RequestCopy in x.client.wire && (x.table.Some? ==> x.table.value < |x.servers|)
    case ServerStep(at, ss) =>
      && at < |x.servers| && S.Enabled(x.servers[at], ss)
      && (ss.TakeAck? ==> exists sent :: sent in x.client.wire && sent.Ack?)
  }

  function Next(x: Exchange, step: Step): Exchange
    requires Enabled(x, step)
  {
    match step
    case ClientStep(cs) => x.(client := C.Next(x.client, cs))
    case RequestArrives =>
      if x.table.None? then
        x.(servers := x.servers + [S.Init(x.client.invite)], table := Some(|x.servers|), handled := x.handled + 1)
      else x.(servers := x.servers[x.table.value := S.Next(x.servers[x.table.value], S.RequestAgain)])
    case ServerStep(at, ss) =>
      var x' := x.(servers := x.servers[at := S.Next(x.servers[at], ss)]);
      // finish deletes by key, whichever transaction the table holds by then
      if ss.Finish? && x.table.Some? then x'.(table := None, removals := x.removals + 1) else x'
  }

  function Run(x: Exchange, steps: seq<Step>): Option<Exchange>
    decreases |steps|
  {
    if steps == [] then Some(x)
    else if Enabled(x, steps[0]) then Run(Next(x, steps[0]), steps[1..])
    else None
  }

  predicate RepliesKnown(servers: seq<S.Server>, events: seq<C.TxEvent>) {
    forall e :: e in events && e.Reply? ==> OnWire(servers, e.response)
  }

  predicate Inv(x: Exchange) {
    && (forall i :: 0 <= i < |x.servers| ==> S.Inv(x.servers[i]))
    && (x.table.Some? ==> x.table.value < |x.servers|)
    && x.handled == |x.servers| == x.removals + (if x.table.Some? then 1 else 0)
    && (forall r :: r in x.client.entering ==> OnWire(x.servers, r))
    && RepliesKnown(x.servers, x.client.offered)
    && RepliesKnown(x.servers, x.client.delivered)
  }

  /** The servers only gain members and sent messages. */
  predicate Grows(servers: seq<S.Server>, servers': seq<S.Server>) {
    && |servers| <= |servers'|
    && forall i :: 0 <= i < |servers| ==> servers[i].wire <= servers'[i].wire
  }

  lemma WireGrows(servers: seq<S.Server>, servers': seq<S.Server>, response: Response)
    requires Grows(servers, servers') && OnWire(servers, response)
    ensures OnWire(servers', response)
  {
    var i :| 0 <= i < |servers| && response in servers[i].wire;
    var k :| 0 <= k < |servers[i].wire| && servers[i].wire[k] == response;
    assert servers'[i].wire[k] == response;
  }

  lemma ServersGrow(x: Exchange, x': Exchange)
    requires Inv(x) && Grows(x.servers, x'.servers) && x'.client == x.client
    ensures forall r :: r in x'.client.entering ==> OnWire(x'.servers, r)
    ensures RepliesKnown(x'.servers, x'.client.offered) && RepliesKnown(x'.servers, x'.client.delivered)
  {
    forall r | OnWire(x.servers, r) ensures OnWire(x'.servers, r) {
      WireGrows(x.servers, x'.servers, r);
    }
  }

  /** A client step only adds a timeout or the response that it takes in. */
  predicate AddsOnly(events: seq<C.TxEvent>, events': seq<C.TxEvent>, step: C.Step) {
    || events' == events
    || events' == events + [C.Timeout]
    || (step.Enter? && events' == events + [C.Reply(step.response)])
  }

  lemma ReceiveAdds(c: C.Client, response: Response)
    ensures AddsOnly(c.offered, C.Receive(c, response).offered, C.Enter(response))
    ensures AddsOnly(c.delivered, C.Receive(c, response).delivered, C.Enter(response))
    ensures C.Receive(c, response).entering == c.entering
  {
    hide AddsOnly;
    AddsNothingOrOne(c.offered, response);
    AddsNothingOrOne(c.delivered, response);
  }

  lemma AddsNothingOrOne(events: seq<C.TxEvent>, response: Response)
    ensures AddsOnly(events, events, C.Enter(response))
    ensures AddsOnly(events, events + [C.Reply(response)], C.Enter(response))
  {
  }

  lemma AddsNothingOrTimeout(events: seq<C.TxEvent>, step: C.Step)
    ensures AddsOnly(events, events, step) && AddsOnly(events, events + [C.Timeout], step)
  {
  }

  lemma EnterAdds(c: C.Client, response: Response)
    requires C.Enabled(c, C.Enter(response))
    ensures AddsOnly(c.offered, C.Next(c, C.Enter(response)).offered, C.Enter(response))
    ensures AddsOnly(c.delivered, C.Next(c, C.Enter(response)).delivered, C.Enter(response))
    ensures forall r :: r in C.Next(c, C.Enter(response)).entering ==> r in c.entering
  {
    hide C.Receive, AddsOnly;
    ReceiveAdds(c.(entering := c.entering - multiset{response}), response);
  }

  lemma ClientAdds(c: C.Client, step: C.Step)
    requires C.Enabled(c, step)
    ensures AddsOnly(c.offered, C.Next(c, step).offered, step)
    ensures AddsOnly(c.delivered, C.Next(c, step).delivered, step)
    ensures forall r :: r in C.Next(c, step).entering ==> r in c.entering || (step.Lookup? && r == step.response)
  {
    hide C.Receive, AddsOnly;
    if step.Enter? {
      EnterAdds(c, step.response);
    } else {
      AddsNothingOrTimeout(c.offered, step);
      AddsNothingOrTimeout(c.delivered, step);
    }
  }

  lemma ClientKeeps(x: Exchange, step: C.Step)
    requires Inv(x) && Enabled(x, ClientStep(step))
    ensures Inv(Next(x, ClientStep(step)))
  {
    hide C.Next, OnWire, S.Inv;
    ClientAdds(x.client, step);
    assert step.Enter? ==> step.response in x.client.entering;
  }

  lemma ServerKeeps(x: Exchange, x': Exchange, at: nat, step: S.Step)
    requires Inv(x) && at < |x.servers| && S.Enabled(x.servers[at], step)
    requires x'.servers == x.servers[at := S.Next(x.servers[at], step)]
    requires x'.client == x.client
    ensures forall i :: 0 <= i < |x'.servers| ==> S.Inv(x'.servers[i])
    ensures forall r :: r in x'.client.entering ==> OnWire(x'.servers, r)
    ensures RepliesKnown(x'.servers, x'.client.offered) && RepliesKnown(x'.servers, x'.client.delivered)
  {
    S.StepKeeps(x.servers[at], step);
    hide S.Inv, S.Next, OnWire, RepliesKnown;
    ServersGrow(x, x');
  }

  lemma StepKeeps(x: Exchange, step: Step)
    requires Inv(x) && Enabled(x, step)
    ensures Inv(Next(x, step))
  {
    hide C.Next, C.Enabled, OnWire, RepliesKnown, S.Inv;
    match step
    case ClientStep(cs) => ClientKeeps(x, cs);
    case RequestArrives =>
      var x' := Next(x, step);
      if x.table.Some? {
        ServerKeeps(x, x', x.table.value, S.RequestAgain);
      } else {
        InitKeeps(x.client.invite);
        ServersGrow(x, x');
      }
    case ServerStep(at, ss) => ServerKeeps(x, Next(x, step), at, ss);
  }

  lemma InitKeeps(invite: bool)
    ensures S.Inv(S.Init(invite))
  {
  }

  lemma {:induction false} RunKeeps(x: Exchange, steps: seq<Step>)
    requires Inv(x) && Run(x, steps).Some?
    ensures Inv(Run(x, steps).value)
    decreases |steps|
  {
    hide Inv, Enabled, Next;
    if steps != [] {
      StepKeeps(x, steps[0]);
      RunKeeps(Next(x, steps[0]), steps[1..]);
    }
  }

  /** The handler runs once for every server transaction opened, one more time than the key was removed
      while the table still holds it, and so at most once as long as it was never removed. */
  lemma HandledAtMostOnce(invite: bool, steps: seq<Step>)
    requires Run(Init(invite), steps).Some?
    ensures var x := Run(Init(invite), steps).value;
            && x.handled == x.removals + (if x.table.Some? then 1 else 0)
            && (x.removals == 0 ==> x.handled <= 1)
  {
    RunKeeps(Init(invite), steps);
  }

  lemma FinalIsKnown(x: Exchange, e: C.TxEvent)
    requires Inv(x) && e in x.client.delivered && C.IsFinalReply(e)
    ensures exists i :: 0 <= i < |x.servers| && x.servers[i].final == Some(e.response)
  {
    var i :| 0 <= i < |x.servers| && e.response in x.servers[i].wire;
    S.WireFinal(x.servers[i], e.response);
  }

  /** Every final response that the client delivers to its user was recorded as the final of a server
      transaction opened by this request, and of the only one as long as the key was never removed. */
  lemma ClientDeliversServersFinal(invite: bool, steps: seq<Step>, e: C.TxEvent)
    requires Run(Init(invite), steps).Some?
    requires e in Run(Init(invite), steps).value.client.delivered && C.IsFinalReply(e)
    ensures var x := Run(Init(invite), steps).value;
            && (exists i :: 0 <= i < |x.servers| && x.servers[i].final == Some(e.response))
            && (x.removals == 0 ==> |x.servers| == 1 && x.servers[0].final == Some(e.response))
  {
    RunKeeps(Init(invite), steps);
    hide Run, RepliesKnown, S.Inv;
    FinalIsKnown(Run(Init(invite), steps).value, e);
  }

  lemma {:induction false} RunExtend(x: Exchange, steps: seq<Step>, step: Step)
    requires Run(x, steps).Some? && Enabled(Run(x, steps).value, step)
    ensures Run(x, steps + [step]) == Some(Next(Run(x, steps).value, step))
    decreases |steps|
  {
    if steps == [] {
      assert Run(Next(x, step), [step][1..]) == Some(Next(x, step));
    } else {
      RunExtend(Next(x, steps[0]), steps[1..], step);
      assert (steps + [step])[1..] == steps[1..] + [step];
    }
  }

  /** The condition is needed: after a removal a late copy of the request is handled a second time. */
  lemma HandledAgainAfterRemoval() returns (steps: seq<Step>)
    ensures Run(Init(false), steps).Some? && Run(Init(false), steps).value.handled == 2
  {
    var ok := Response(200, 1);
    var start := Init(false);
    assert Run(start, []) == Some(start);
    hide Run;
    steps := [];
    RunExtend(start, steps, RequestArrives);
    steps := steps + [RequestArrives];
    RunExtend(start, steps, ServerStep(0, S.Respond(ok)));
    steps := steps + [ServerStep(0, S.Respond(ok))];
    RunExtend(start, steps, ServerStep(0, S.Send(S.Pending(ok, true), true)));
    steps := steps + [ServerStep(0, S.Send(S.Pending(ok, true), true))];
    RunExtend(start, steps, ServerStep(0, S.Finish));
    steps := steps + [ServerStep(0, S.Finish)];
    RunExtend(start, steps, RequestArrives);
    steps := steps + [RequestArrives];
  }

  /** Over every run: a copy of the request that finds a transaction with a recorded final puts one more copy of that
      final on its way and does not reach the handler; one that finds none in the table is handled. */
  lemma RepeatIsAnswered(invite: bool, steps: seq<Step>)
    requires Run(Init(invite), steps).Some? && Enabled(Run(Init(invite), steps).value, RequestArrives)
    ensures var x := Run(Init(invite), steps).value;
            var x' := Next(x, RequestArrives);
            && (x.table.None? ==> x'.handled == x.handled + 1 && x'.table == Some(|x.servers|))
            && (x.table.Some? ==>
                  var s, s' := x.servers[x.table.value], x'.servers[x.table.value];
                  && x'.handled == x.handled && x'.table == x.table
                  && s'.outbox == s.outbox + (if s.final.Some? then multiset{S.Pending(s.final.value, false)} else multiset{}))
  {
    RunKeeps(Init(invite), steps);
    hide Run, RepliesKnown;
  }

  // ------------------------------------------------------------------ a call in which the first answer is lost

  /** The client has only sent its request, and this is the one server transaction. */
  function One(server: S.Server): Exchange { Exchange(C.Init(true), [server], Some(0), 0, 1) }

  lemma OneStep(server: S.Server, step: S.Step)
    requires S.Enabled(server, step) && !step.TakeAck? && !step.Finish?
    ensures Enabled(One(server), ServerStep(0, step)) && Next(One(server), ServerStep(0, step)) == One(S.Next(server, step))
  {
    hide S.Next, S.Enabled;
    assert [server][0 := S.Next(server, step)] == [S.Next(server, step)];
  }

  lemma FirstRequest()
    ensures Enabled(Init(true), RequestArrives) && Next(Init(true), RequestArrives) == One(S.Init(true))
  {
    assert [] + [S.Init(true)] == [S.Init(true)];
  }

  /** An INVITE answered with ok, with these copies decided, waiting and sent. */
  function Answering(ok: Response, loop: S.Loop, finishes: nat, decided: seq<Response>, waiting: multiset<S.Pending>,
                     sent: seq<Response>): S.Server
  {
    S.Server(true, S.Completed, Some(ok), loop, false, finishes, decided, waiting, sent, false)
  }

  lemma AnsweringSteps(ok: Response)
    requires IsSuccess(ok.status)
    ensures var p, q := S.Pending(ok, true), S.Pending(ok, false);
            var d1, d2 := Answering(ok, S.Off, 0, [ok], multiset{p}, []), Answering(ok, S.Sleeping, 1, [ok], multiset{}, [ok]);
            var d3 := Answering(ok, S.Sleeping, 1, [ok, ok], multiset{q}, [ok]);
            && S.Next(S.Init(true), S.Respond(ok)) == d1
            && S.Enabled(d1, S.Send(p, true)) && S.Next(d1, S.Send(p, true)) == d2
            && S.Enabled(d2, S.LoopTick) && S.Next(d2, S.LoopTick) == d3
            && S.Enabled(d3, S.Send(q, true))
            && S.Next(d3, S.Send(q, true)) == Answering(ok, S.Sleeping, 1, [ok, ok], multiset{}, [ok, ok])
  {
    var p, q := S.Pending(ok, true), S.Pending(ok, false);
    assert multiset{} + multiset{p} == multiset{p} && multiset{p} - multiset{p} == multiset{};
    assert multiset{} + multiset{q} == multiset{q} && multiset{q} - multiset{q} == multiset{};
    assert [] + [ok] == [ok] && [ok] + [ok] == [ok, ok];
  }

  /** The server has sent its answer twice, and the client has seen none yet. */
  function Answered(ok: Response): Exchange {
    One(Answering(ok, S.Sleeping, 1, [ok, ok], multiset{}, [ok, ok]))
  }

  lemma ServerAnswersTwice(ok: Response) returns (steps: seq<Step>)
    requires IsSuccess(ok.status)
    ensures Run(Init(true), steps) == Some(Answered(ok))
  {
    hide Run, Enabled, Next, S.Next, S.Enabled, One;
    var start, p, q := Init(true), S.Pending(ok, true), S.Pending(ok, false);
    var d1, d2 := Answering(ok, S.Off, 0, [ok], multiset{p}, []), Answering(ok, S.Sleeping, 1, [ok], multiset{}, [ok]);
    RunNothing(start);
    FirstRequest();
    AnsweringSteps(ok);
    RunExtend(start, [], RequestArrives);
    steps := [] + [RequestArrives];
    assert S.Enabled(S.Init(true), S.Respond(ok)) by { CanRespond(S.Init(true), ok); }
    OneStep(S.Init(true), S.Respond(ok));
    RunExtend(start, steps, ServerStep(0, S.Respond(ok)));
    steps := steps + [ServerStep(0, S.Respond(ok))];
    OneStep(d1, S.Send(p, true));
    RunExtend(start, steps, ServerStep(0, S.Send(p, true)));
    steps := steps + [ServerStep(0, S.Send(p, true))];
    OneStep(d2, S.LoopTick);
    RunExtend(start, steps, ServerStep(0, S.LoopTick));
    steps := steps + [ServerStep(0, S.LoopTick)];
    OneStep(Answering(ok, S.Sleeping, 1, [ok, ok], multiset{q}, [ok]), S.Send(q, true));
    RunExtend(start, steps, ServerStep(0, S.Send(q, true)));
    steps := steps + [ServerStep(0, S.Send(q, true))];
  }

  lemma CanRespond(server: S.Server, response: Response)
    ensures S.Enabled(server, S.Respond(response))
  {
  }

  lemma RunNothing(x: Exchange)
    ensures Run(x, []) == Some(x)
  {
  }

  /** Whatever 2xx the server gives: if its first copy is lost, the loop sends another, the client reports it and
      acknowledges it, and the server is confirmed; the request was handled once. */
  lemma LostAnswerIsRepaired(ok: Response) returns (steps: seq<Step>)
    requires IsSuccess(ok.status)
    ensures Run(Init(true), steps).Some?
    ensures var x := Run(Init(true), steps).value;
            && x.client.delivered == [C.Reply(ok)] && x.client.wire == [C.RequestCopy, C.Ack(ok)]
            && x.client.state == C.Completed
            && |x.servers| == 1 && x.servers[0].state == S.Confirmed && x.servers[0].wire == [ok, ok]
            && x.handled == 1
  {
    hide Run;
    var start := Init(true);
    steps := ServerAnswersTwice(ok);
    RunExtend(start, steps, ClientStep(C.Start));
    steps := steps + [ClientStep(C.Start)];
    assert ok in Answered(ok).servers[0].wire;
    RunExtend(start, steps, ClientStep(C.Lookup(ok)));
    steps := steps + [ClientStep(C.Lookup(ok))];
    RunExtend(start, steps, ClientStep(C.Enter(ok)));
    steps := steps + [ClientStep(C.Enter(ok))];
    var x := Run(start, steps).value;
    assert x.client.wire == [C.RequestCopy, C.Ack(ok)] && x.client.delivered == [C.Reply(ok)] && x.client.state == C.Completed;
    assert x.client.wire[1] == C.Ack(ok);
    RunExtend(start, steps, ServerStep(0, S.TakeAck));
    steps := steps + [ServerStep(0, S.TakeAck)];
  }
}
