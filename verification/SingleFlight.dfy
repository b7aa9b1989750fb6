/** Single-flight dialling of stream connections (transport.go, getStreamConn) as a state machine over the
    lock sections of any number of concurrent callers. Connections also enter the pool when a peer connects
    and leave it when they break or idle out. */
module SingleFlight {
  import opened Basics

  datatype Outcome = Connected(conn: nat) | Failed(error: nat)

  /** Where a caller's answer came from. */
  datatype Source = FromPool | OwnDial(call: nat) | WaitedDial(call: nat) | TooMany

  datatype Caller =
    | Arriving(key: string)
    | Dialing(key: string, call: nat)                      // between the two lock sections
    | Publishing(key: string, call: nat, outcome: Outcome) // after the second, before wg.Done
    | WaitingOn(key: string, call: nat)
    | Returned(key: string, outcome: Outcome, source: Source)

  /** A dialCall: its key, its owner, and its result once wg.Done has run. */
  datatype Call = Call(key: string, owner: nat, result: Option<Outcome>)

  datatype State = State(
    limit: nat,
    pool: map<string, nat>,            // tcpConns
    inflight: map<string, nat>,        // key to dialCall
    calls: seq<Call>,                  // every dialCall ever made
    callers: seq<Caller>,
    known: set<(string, nat)>          // connections ever pooled, with their key
  )

  datatype Step =
    | Arrive(key: string)
    | Enter(caller: nat)
    | EndDial(caller: nat, outcome: Outcome)
    | Publish(caller: nat)
    | Wake(caller: nat)
    | Accept(key: string, conn: nat)
    | Evict(key: string)

  const REFUSED: Outcome := Failed(0)

  function Init(limit: nat): State { State(limit, map[], map[], [], [], {}) }

  predicate Enabled(s: State, step: Step) {
    match step
    case Arrive(_) => true
    case Enter(i) => i < |s.callers| && s.callers[i].Arriving?
    case EndDial(i, _) => i < |s.callers| && s.callers[i].Dialing?
    case Publish(i) => i < |s.callers| && s.callers[i].Publishing? && s.callers[i].call < |s.calls|
    case Wake(i) =>
      i < |s.callers| && s.callers[i].WaitingOn? && s.callers[i].call < |s.calls| && s.calls[s.callers[i].call].result.Some?
    case Accept(_, _) => true
    case Evict(_) => true
  }

  function Move(s: State, i: nat, c: Caller): State
    requires i < |s.callers|
  {
    s.(callers := s.callers[i := c])
  }

  function Pooled(s: State, key: string, conn: nat): State {
    s.(pool := s.pool[key := conn], known := s.known + {(key, conn)})
  }

  function Next(s: State, step: Step): State
    requires Enabled(s, step)
  {
    match step
    case Arrive(key) => s.(callers := s.callers + [Arriving(key)])
    case Enter(i) =>
      var key := s.callers[i].key;
      if key in s.pool then Move(s, i, Returned(key, Connected(s.pool[key]), FromPool))
      else if key in s.inflight then Move(s, i, WaitingOn(key, s.inflight[key]))
      else if |s.pool| >= s.limit then Move(s, i, Returned(key, REFUSED, TooMany))
      else
        var call := |s.calls|;
        Move(s, i, Dialing(key, call)).(calls := s.calls + [Call(key, i, None)], inflight := s.inflight[key := call])
    case EndDial(i, outcome) =>
      var Dialing(key, call) := s.callers[i];
      var s' := Move(s, i, Publishing(key, call, outcome)).(inflight := s.inflight - {key});
      if outcome.Connected? then Pooled(s', key, outcome.conn) else s'
    case Publish(i) =>
      var Publishing(key, call, outcome) := s.callers[i];
      Move(s, i, Returned(key, outcome, OwnDial(call))).(calls := s.calls[call := s.calls[call].(result := Some(outcome))])
    case Wake(i) =>
      var WaitingOn(key, call) := s.callers[i];
      if key in s.pool then Move(s, i, Returned(key, Connected(s.pool[key]), FromPool))
      else Move(s, i, Returned(key, s.calls[call].result.value, WaitedDial(call)))
    case Accept(key, conn) => Pooled(s, key, conn)
    case Evict(key) => s.(pool := s.pool - {key})
  }

  function Run(s: State, steps: seq<Step>): Option<State>
    decreases |steps|
  {
    if steps == [] then Some(s)
    else if Enabled(s, steps[0]) then Run(Next(s, steps[0]), steps[1..])
    else None
  }

  // ------------------------------------------------------------------ the invariant

  /** Call d belongs to key, and its owner is still at work on it or has published it. */
  predicate CallOk(s: State, d: nat)
    requires d < |s.calls|
  {
    var call := s.calls[d];
    && call.owner < |s.callers|
    && var owner := s.callers[call.owner];
       && owner.key == call.key
       && match call.result
          case None => (owner.Dialing? || owner.Publishing?) && owner.call == d
          case Some(outcome) => owner == Returned(call.key, outcome, OwnDial(d))
  }

  predicate CallerOk(s: State, i: nat)
    requires i < |s.callers|
  {
    match s.callers[i]
    case Arriving(_) => true
    case Dialing(key, d) =>
      d < |s.calls| && s.calls[d] == Call(key, i, None) && key in s.inflight && s.inflight[key] == d
    case Publishing(key, d, outcome) =>
      && d < |s.calls| && s.calls[d] == Call(key, i, None)
      && (outcome.Connected? ==> (key, outcome.conn) in s.known)
    case WaitingOn(key, d) => d < |s.calls| && s.calls[d].key == key
    case Returned(key, outcome, source) =>
      match source
      case FromPool => outcome.Connected? && (key, outcome.conn) in s.known
      case OwnDial(d) => d < |s.calls| && s.calls[d] == Call(key, i, Some(outcome))
      case WaitedDial(d) => d < |s.calls| && s.calls[d].key == key && s.calls[d].result == Some(outcome)
      case TooMany => outcome == REFUSED
  }

  predicate Inv(s: State) {
    && (forall d :: 0 <= d < |s.calls| ==> CallOk(s, d))
    && (forall i :: 0 <= i < |s.callers| ==> CallerOk(s, i))
    && (forall key :: key in s.inflight ==>
          var d := s.inflight[key];
          && d < |s.calls| && s.calls[d].key == key
          && s.calls[d].owner < |s.callers| && s.callers[s.calls[d].owner] == Dialing(key, d))
    && (forall key :: key in s.pool ==> (key, s.pool[key]) in s.known)
  }

  /** Caller i has not registered anything yet, so moving it on disturbs no call. */
  lemma MoveArriving(s: State, s': State, i: nat, c: Caller)
    requires Inv(s) && i < |s.callers| && s.callers[i].Arriving?
    requires s' == Move(s, i, c) && c.key == s.callers[i].key && CallerOk(s', i)
    requires !c.Dialing? && !c.Publishing?
    ensures Inv(s')
  {
    forall d | 0 <= d < |s'.calls| ensures CallOk(s', d) {
      assert CallOk(s, d);
    }
    forall j | 0 <= j < |s'.callers| ensures CallerOk(s', j) {
      assert CallerOk(s, j);
    }
  }

  lemma StartDial(s: State, i: nat, key: string)
    requires Inv(s) && i < |s.callers| && s.callers[i] == Arriving(key) && key !in s.inflight
    ensures Inv(Move(s, i, Dialing(key, |s.calls|)).(
                  calls := s.calls + [Call(key, i, None)], inflight := s.inflight[key := |s.calls|]))
  {
    var s' := Move(s, i, Dialing(key, |s.calls|)).(
                calls := s.calls + [Call(key, i, None)], inflight := s.inflight[key := |s.calls|]);
    forall d | 0 <= d < |s'.calls| ensures CallOk(s', d) {
      if d < |s.calls| {
        assert CallOk(s, d);
      }
    }
    forall j | 0 <= j < |s'.callers| ensures CallerOk(s', j) {
      assert CallerOk(s, j);
    }
  }

  lemma EnterKeeps(s: State, i: nat)
    requires Inv(s) && Enabled(s, Enter(i))
    ensures Inv(Next(s, Enter(i)))
  {
    var s', key := Next(s, Enter(i)), s.callers[i].key;
    if key !in s.pool && key !in s.inflight && |s.pool| < s.limit {
      StartDial(s, i, key);
    } else {
      MoveArriving(s, s', i, s'.callers[i]);
    }
  }

  lemma EndDialKeeps(s: State, i: nat, outcome: Outcome)
    requires Inv(s) && Enabled(s, EndDial(i, outcome))
    ensures Inv(Next(s, EndDial(i, outcome)))
  {
    var s' := Next(s, EndDial(i, outcome));
    assert CallerOk(s, i);
    forall d | 0 <= d < |s'.calls| ensures CallOk(s', d) {
      assert CallOk(s, d);
    }
    forall j | 0 <= j < |s'.callers| ensures CallerOk(s', j) {
      assert CallerOk(s, j);
    }
  }

  lemma PublishKeeps(s: State, i: nat)
    requires Inv(s) && Enabled(s, Publish(i))
    ensures Inv(Next(s, Publish(i)))
  {
    var s' := Next(s, Publish(i));
    assert CallerOk(s, i);
    forall d | 0 <= d < |s'.calls| ensures CallOk(s', d) {
      assert CallOk(s, d);
    }
    forall j | 0 <= j < |s'.callers| ensures CallerOk(s', j) {
      assert CallerOk(s, j);
    }
  }

  lemma WakeKeeps(s: State, i: nat)
    requires Inv(s) && Enabled(s, Wake(i))
    ensures Inv(Next(s, Wake(i)))
  {
    var s' := Next(s, Wake(i));
    assert CallerOk(s, i);
    forall d | 0 <= d < |s'.calls| ensures CallOk(s', d) {
      assert CallOk(s, d);
    }
    forall j | 0 <= j < |s'.callers| ensures CallerOk(s', j) {
      assert CallerOk(s, j);
    }
  }

  lemma OtherKeeps(s: State, step: Step)
    requires Inv(s) && Enabled(s, step) && (step.Arrive? || step.Accept? || step.Evict?)
    ensures Inv(Next(s, step))
  {
    var s' := Next(s, step);
    forall d | 0 <= d < |s'.calls| ensures CallOk(s', d) {
      assert CallOk(s, d);
    }
    forall j | 0 <= j < |s'.callers| ensures CallerOk(s', j) {
      if j < |s.callers| {
        assert CallerOk(s, j);
      }
    }
  }

  lemma StepKeeps(s: State, step: Step)
    requires Inv(s) && Enabled(s, step)
    ensures Inv(Next(s, step))
  {
    hide Inv, Enabled, Next;
    match step
    case Enter(i) => EnterKeeps(s, i);
    case EndDial(i, outcome) => EndDialKeeps(s, i, outcome);
    case Publish(i) => PublishKeeps(s, i);
    case Wake(i) => WakeKeeps(s, i);
    case _ => OtherKeeps(s, step);
  }

  lemma {:induction false} RunKeeps(s: State, steps: seq<Step>)
    requires Inv(s) && Run(s, steps).Some?
    ensures Inv(Run(s, steps).value)
    decreases |steps|
  {
    hide Inv, Enabled, Next;
    if steps != [] {
      StepKeeps(s, steps[0]);
      RunKeeps(Next(s, steps[0]), steps[1..]);
    }
  }

  // ------------------------------------------------------------------ theorems over every interleaving

  /** At most one dial per key is in progress, and inflight holds a key exactly while its owner is dialling. */
  lemma OneDialPerKey(limit: nat, steps: seq<Step>, key: string)
    requires Run(Init(limit), steps).Some?
    ensures var s := Run(Init(limit), steps).value;
            && (forall i, j | 0 <= i < |s.callers| && 0 <= j < |s.callers| ::
                  s.callers[i].Dialing? && s.callers[j].Dialing? && s.callers[i].key == s.callers[j].key ==> i == j)
            && (key in s.inflight <==> exists i :: 0 <= i < |s.callers| && s.callers[i].Dialing? && s.callers[i].key == key)
            && (key in s.inflight ==>
                  var d := s.inflight[key];
                  d < |s.calls| && s.calls[d].owner < |s.callers| && s.callers[s.calls[d].owner] == Dialing(key, d))
  {
    RunKeeps(Init(limit), steps);
    var s := Run(Init(limit), steps).value;
    forall i, j | 0 <= i < |s.callers| && 0 <= j < |s.callers| && s.callers[i].Dialing? && s.callers[j].Dialing?
                  && s.callers[i].key == s.callers[j].key
      ensures i == j
    {
      assert CallerOk(s, i) && CallerOk(s, j);
    }
    if i :| 0 <= i < |s.callers| && s.callers[i].Dialing? && s.callers[i].key == key {
      assert CallerOk(s, i);
    }
  }

  /** Every caller that has returned got a connection that was pooled for its key, or the outcome of its own dial,
      or the outcome of the dial of its key that it waited on, or the refusal at the connection limit. */
  lemma AnswersAreExplained(limit: nat, steps: seq<Step>, i: nat)
    requires Run(Init(limit), steps).Some?
    requires var s := Run(Init(limit), steps).value; i < |s.callers| && s.callers[i].Returned?
    ensures var s := Run(Init(limit), steps).value;
            var Returned(key, outcome, source) := s.callers[i];
            match source
            case FromPool => outcome.Connected? && (key, outcome.conn) in s.known
            case OwnDial(d) => d < |s.calls| && s.calls[d] == Call(key, i, Some(outcome))
            case WaitedDial(d) => d < |s.calls| && s.calls[d].key == key && s.calls[d].result == Some(outcome) && s.calls[d].owner != i
            case TooMany => outcome == REFUSED
  {
    RunKeeps(Init(limit), steps);
    var s := Run(Init(limit), steps).value;
    assert CallerOk(s, i);
    if s.callers[i].source.WaitedDial? {
      assert CallOk(s, s.callers[i].source.call);
    }
  }

  lemma {:induction false} RunSplit(s: State, steps: seq<Step>, n: nat)
    requires n <= |steps| && Run(s, steps).Some?
    ensures Run(s, steps[..n]).Some? && Run(Run(s, steps[..n]).value, steps[n..]) == Run(s, steps)
    decreases |steps|
  {
    hide Next, Enabled;
    if n == 0 {
      assert steps[..0] == [] && steps[0..] == steps;
    } else {
      RunSplit(Next(s, steps[0]), steps[1..], n - 1);
      assert steps[..n][1..] == steps[1..][..n - 1] && steps[n..] == steps[1..][n - 1..];
    }
  }

  /** The step by which caller i returns the pooled connection. */
  predicate TakesFromPool(s: State, step: Step, i: nat, key: string, conn: nat) {
    && i < |s.callers| && !s.callers[i].Returned? && s.callers[i].key == key
    && (step == Enter(i) || step == Wake(i))
    && key in s.pool && s.pool[key] == conn
  }

  lemma PoolStep(s: State, step: Step, i: nat)
    requires Enabled(s, step) && i < |Next(s, step).callers|
    requires Next(s, step).callers[i].Returned? && Next(s, step).callers[i].source.FromPool?
    requires Next(s, step).callers[i].outcome.Connected?
    ensures var c := Next(s, step).callers[i];
            (i < |s.callers| && s.callers[i] == c) || TakesFromPool(s, step, i, c.key, c.outcome.conn)
  {
  }

  /** A connection returned from the pool was in the pool under the caller's key at the very step of the return. */
  lemma {:induction false} PoolAnswersAreCurrent(limit: nat, steps: seq<Step>, i: nat)
    requires Run(Init(limit), steps).Some?
    requires var s := Run(Init(limit), steps).value;
             i < |s.callers| && s.callers[i].Returned? && s.callers[i].source.FromPool?
    ensures var c := Run(Init(limit), steps).value.callers[i];
            && c.outcome.Connected?
            && exists n :: 0 <= n < |steps| && Run(Init(limit), steps[..n]).Some?
                           && TakesFromPool(Run(Init(limit), steps[..n]).value, steps[n], i, c.key, c.outcome.conn)
    decreases |steps|
  {
    hide Next, Enabled, TakesFromPool;
    AnswersAreExplained(limit, steps, i);
    if steps != [] {
      var n := |steps| - 1;
      RunSplit(Init(limit), steps, n);
      var s, step := Run(Init(limit), steps[..n]).value, steps[n];
      assert steps[n..] == [step] && [step][1..] == [];
      assert Enabled(s, step) && Run(s, [step]) == Some(Next(s, step));
      PoolStep(s, step, i);
      var c := Next(s, step).callers[i];
      if !TakesFromPool(s, step, i, c.key, c.outcome.conn) {
        PoolAnswersAreCurrent(limit, steps[..n], i);
        var k :| 0 <= k < n && Run(Init(limit), steps[..n][..k]).Some?
                 && TakesFromPool(Run(Init(limit), steps[..n][..k]).value, steps[..n][k], i, c.key, c.outcome.conn);
        assert steps[..n][..k] == steps[..k] && steps[..n][k] == steps[k];
      }
    }
  }

  /** Why a caller returns at this step: it found its key pooled when it entered or woke up, was refused at the limit
      with its key neither pooled nor being dialled, woke up without a pooled connection to the outcome of the dial it
      waited on, or published its own dial. */
  predicate Explains(s: State, step: Step, i: nat, answer: Caller)
    requires answer.Returned?
  {
    && i < |s.callers| && !s.callers[i].Returned? && s.callers[i].key == answer.key
    && match answer.source
       case FromPool => answer.outcome.Connected? && TakesFromPool(s, step, i, answer.key, answer.outcome.conn)
       case TooMany =>
         && step == Enter(i) && s.callers[i].Arriving? && answer.outcome == REFUSED
         && answer.key !in s.pool && answer.key !in s.inflight && |s.pool| >= s.limit
       case WaitedDial(d) =>
         && step == Wake(i) && s.callers[i] == WaitingOn(answer.key, d) && answer.key !in s.pool
         && d < |s.calls| && s.calls[d].result == Some(answer.outcome)
       case OwnDial(d) => step == Publish(i) && s.callers[i] == Publishing(answer.key, d, answer.outcome)
  }

  lemma ReturnStep(s: State, step: Step, i: nat)
    requires Enabled(s, step) && i < |Next(s, step).callers| && Next(s, step).callers[i].Returned?
    ensures (i < |s.callers| && s.callers[i] == Next(s, step).callers[i]) || Explains(s, step, i, Next(s, step).callers[i])
  {
  }

  /** Every answer is explained by the tables at the very step at which it was given. */
  lemma {:induction false} AnswersAreGivenFor(limit: nat, steps: seq<Step>, i: nat)
    requires Run(Init(limit), steps).Some?
    requires var s := Run(Init(limit), steps).value; i < |s.callers| && s.callers[i].Returned?
    ensures exists n :: 0 <= n < |steps| && Run(Init(limit), steps[..n]).Some?
                        && Explains(Run(Init(limit), steps[..n]).value, steps[n], i, Run(Init(limit), steps).value.callers[i])
    decreases |steps|
  {
    hide Next, Enabled, Explains;
    if steps != [] {
      var n := |steps| - 1;
      RunSplit(Init(limit), steps, n);
      var s, step := Run(Init(limit), steps[..n]).value, steps[n];
      assert steps[n..] == [step] && [step][1..] == [];
      assert Enabled(s, step) && Run(s, [step]) == Some(Next(s, step));
      ReturnStep(s, step, i);
      var answer := Next(s, step).callers[i];
      if !Explains(s, step, i, answer) {
        AnswersAreGivenFor(limit, steps[..n], i);
        var k :| 0 <= k < n && Run(Init(limit), steps[..n][..k]).Some?
                 && Explains(Run(Init(limit), steps[..n][..k]).value, steps[..n][k], i, answer);
        assert steps[..n][..k] == steps[..k] && steps[..n][k] == steps[k];
      }
    }
  }

  /** What a caller meets on its way in: the pooled connection, the dial under way, the limit, or a dial of its own,
      in this order. */
  lemma EntersInOrder(s: State, i: nat)
    requires Enabled(s, Enter(i))
    ensures var key, s' := s.callers[i].key, Next(s, Enter(i));
            && (key in s.pool ==> s'.callers[i] == Returned(key, Connected(s.pool[key]), FromPool))
            && (key !in s.pool && key in s.inflight ==> s'.callers[i] == WaitingOn(key, s.inflight[key]))
            && (key !in s.pool && key !in s.inflight && |s.pool| >= s.limit ==> s'.callers[i] == Returned(key, REFUSED, TooMany))
            && (key !in s.pool && key !in s.inflight && |s.pool| < s.limit ==>
                  s'.callers[i] == Dialing(key, |s.calls|) && key in s'.inflight && s'.inflight[key] == |s.calls|)
            && (key in s.pool || key in s.inflight || |s.pool| >= s.limit ==> s'.inflight == s.inflight && s'.calls == s.calls)
            && s'.pool == s.pool
  {
  }

  /** A caller that waits gets the pooled connection when there is one, and the outcome of the dial otherwise. */
  lemma WakesInOrder(s: State, i: nat)
    requires Enabled(s, Wake(i))
    ensures var WaitingOn(key, d) := s.callers[i];
            var s' := Next(s, Wake(i));
            && (key in s.pool ==> s'.callers[i] == Returned(key, Connected(s.pool[key]), FromPool))
            && (key !in s.pool ==> s'.callers[i] == Returned(key, s.calls[d].result.value, WaitedDial(d)))
            && s'.pool == s.pool && s'.inflight == s.inflight
  {
  }

  /** No waiter is forgotten: the dial it waits on is published, or its owner can take the step that leads there. */
  lemma WaitersAreServed(limit: nat, steps: seq<Step>, i: nat)
    requires Run(Init(limit), steps).Some?
    requires var s := Run(Init(limit), steps).value; i < |s.callers| && s.callers[i].WaitingOn?
    ensures var s := Run(Init(limit), steps).value;
            var d := s.callers[i].call;
            && d < |s.calls| && s.calls[d].key == s.callers[i].key
            && (|| Enabled(s, Wake(i))
                || Enabled(s, Publish(s.calls[d].owner))
                || forall outcome :: Enabled(s, EndDial(s.calls[d].owner, outcome)))
  {
    RunKeeps(Init(limit), steps);
    var s := Run(Init(limit), steps).value;
    assert CallerOk(s, i);
    assert CallOk(s, s.callers[i].call);
  }

  /** Two callers of one key below the limit: the second waits for the first and both get its connection, from the
      pool, and when the dial fails both get its error. */
  lemma SecondCallerShares(limit: nat, key: string, outcome: Outcome) returns (steps: seq<Step>)
    requires limit > 0
    ensures Run(Init(limit), steps).Some?
    ensures var s := Run(Init(limit), steps).value;
            && |s.calls| == 1 && |s.callers| == 2
            && s.callers[0] == Returned(key, outcome, OwnDial(0))
            && s.callers[1] == Returned(key, outcome, if outcome.Connected? then FromPool else WaitedDial(0))
  {
    hide Run;
    var start := Init(limit);
    steps := SecondCallerWaits(limit, key);
    RunExtend(start, steps, EndDial(0, outcome));
    steps := steps + [EndDial(0, outcome)];
    RunExtend(start, steps, Publish(0));
    steps := steps + [Publish(0)];
    RunExtend(start, steps, Wake(1));
    steps := steps + [Wake(1)];
  }

  lemma SecondCallerWaits(limit: nat, key: string) returns (steps: seq<Step>)
    requires limit > 0
    ensures Run(Init(limit), steps) ==
            Some(State(limit, map[], map[key := 0], [Call(key, 0, None)], [Dialing(key, 0), WaitingOn(key, 0)], {}))
  {
    hide Run;
    var start := Init(limit);
    RunNothing(start);
    steps := [];
    RunExtend(start, steps, Arrive(key));
    steps := steps + [Arrive(key)];
    RunExtend(start, steps, Arrive(key));
    steps := steps + [Arrive(key)];
    assert [Arriving(key)] + [Arriving(key)] == [Arriving(key), Arriving(key)];
    RunExtend(start, steps, Enter(0));
    steps := steps + [Enter(0)];
    RunExtend(start, steps, Enter(1));
    steps := steps + [Enter(1)];
    var s := Run(start, steps).value;
    assert s.callers == [Dialing(key, 0), WaitingOn(key, 0)];
    assert s.calls == [Call(key, 0, None)] && s.inflight == map[key := 0] && s.pool == map[];
  }

  // ------------------------------------------------------------------ the limit on connections

  /** This step starts a dial. */
  predicate StartsDial(s: State, step: Step) {
    && step.Enter? && step.caller < |s.callers|
    && s.callers[step.caller].key !in s.pool && s.callers[step.caller].key !in s.inflight && |s.pool| < s.limit
  }

  /** Keys that have a connection or are being dialled. */
  function Taken(s: State): set<string> { s.pool.Keys + s.inflight.Keys }

  /** Connections come from dials alone, and none starts unless there is room for all that are under way. */
  predicate Reserved(s: State, steps: seq<Step>)
    decreases |steps|
  {
    steps != [] && Enabled(s, steps[0]) ==>
      && !steps[0].Accept?
      && (StartsDial(s, steps[0]) ==> |Taken(s)| < s.limit)
      && Reserved(Next(s, steps[0]), steps[1..])
  }

  lemma Grows(a: set<string>, b: set<string>, key: string)
    requires a <= b + {key}
    ensures |a| <= |b| + 1
  {
    Subset(a, b + {key});
  }

  lemma {:induction false} Subset(a: set<string>, b: set<string>)
    requires a <= b
    ensures |a| <= |b|
  {
    if a != {} {
      var x :| x in a;
      Subset(a - {x}, b - {x});
    }
  }

  lemma TablesShrink(s: State, step: Step)
    requires Enabled(s, step) && !step.Accept? && !step.EndDial? && !StartsDial(s, step)
    ensures Next(s, step).inflight == s.inflight && Next(s, step).limit == s.limit
    ensures Next(s, step).pool == s.pool || (step.Evict? && Next(s, step).pool == s.pool - {step.key})
  {
  }

  lemma TablesMove(s: State, step: Step)
    requires Enabled(s, step) && step.EndDial?
    ensures var key := s.callers[step.caller].key;
            && Next(s, step).inflight == s.inflight - {key} && Next(s, step).limit == s.limit
            && Next(s, step).pool == (if step.outcome.Connected? then s.pool[key := step.outcome.conn] else s.pool)
  {
  }

  lemma TakenAfter(s: State, step: Step)
    requires Enabled(s, step) && !step.Accept? && !StartsDial(s, step)
    requires step.EndDial? ==> s.callers[step.caller].key in s.inflight
    ensures Taken(Next(s, step)) <= Taken(s) && Next(s, step).limit == s.limit
  {
    hide Next;
    if step.EndDial? {
      TablesMove(s, step);
    } else {
      TablesShrink(s, step);
    }
  }

  lemma TakenByDial(s: State, step: Step)
    requires Enabled(s, step) && StartsDial(s, step)
    ensures Taken(Next(s, step)) <= Taken(s) + {s.callers[step.caller].key} && Next(s, step).limit == s.limit
  {
  }

  lemma DialledIsInflight(s: State, step: Step)
    requires Inv(s) && Enabled(s, step) && step.EndDial?
    ensures s.callers[step.caller].key in s.inflight
  {
    assert CallerOk(s, step.caller);
  }

  lemma ReservedStep(s: State, step: Step)
    requires Inv(s) && Enabled(s, step) && !step.Accept? && (StartsDial(s, step) ==> |Taken(s)| < s.limit)
    requires |Taken(s)| <= s.limit
    ensures |Taken(Next(s, step))| <= s.limit && Next(s, step).limit == s.limit
  {
    hide Inv, Next, Enabled, Taken;
    if StartsDial(s, step) {
      TakenByDial(s, step);
      Grows(Taken(Next(s, step)), Taken(s), s.callers[step.caller].key);
    } else {
      if step.EndDial? {
        DialledIsInflight(s, step);
      }
      TakenAfter(s, step);
      Subset(Taken(Next(s, step)), Taken(s));
    }
  }

  lemma {:induction false} ReservedRun(s: State, steps: seq<Step>)
    requires Inv(s) && Run(s, steps).Some? && Reserved(s, steps) && |Taken(s)| <= s.limit
    ensures |Taken(Run(s, steps).value)| <= s.limit
    decreases |steps|
  {
    hide Inv, Next, Enabled, Taken, StartsDial;
    if steps != [] {
      StepKeeps(s, steps[0]);
      ReservedStep(s, steps[0]);
      ReservedRun(Next(s, steps[0]), steps[1..]);
    }
  }

  /** If every dial starts with room for all dials under way, the pool stays within the limit. */
  lemma LimitHoldsWhenReserved(limit: nat, steps: seq<Step>)
    requires Run(Init(limit), steps).Some? && Reserved(Init(limit), steps)
    ensures |Run(Init(limit), steps).value.pool| <= limit
  {
    hide Run, Reserved;
    ReservedRun(Init(limit), steps);
    var s := Run(Init(limit), steps).value;
    Subset(s.pool.Keys, Taken(s));
    assert |s.pool| == |s.pool.Keys|;
  }

  // -- the code does not make sure of that

  lemma RunNothing(s: State)
    ensures Run(s, []) == Some(s)
  {
  }

  lemma {:induction false} RunExtend(s: State, steps: seq<Step>, step: Step)
    requires Run(s, steps).Some? && Enabled(Run(s, steps).value, step)
    ensures Run(s, steps + [step]) == Some(Next(Run(s, steps).value, step))
    decreases |steps|
  {
    hide Next, Enabled;
    if steps == [] {
      assert [step][1..] == [];
      RunNothing(Next(s, step));
    } else {
      RunExtend(Next(s, steps[0]), steps[1..], step);
      assert (steps + [step])[1..] == steps[1..] + [step];
    }
  }

  function NthKey(i: nat): string { seq(i, _ => 'k') }

  lemma KeysDiffer(i: nat, j: nat)
    ensures i != j ==> NthKey(i) != NthKey(j)
  {
    assert |NthKey(i)| == i && |NthKey(j)| == j;
  }

  /** n callers with different keys are dialling, except that the first m are done. */
  ghost predicate Racing(s: State, n: nat, m: nat) {
    && m <= n == |s.callers| && |s.pool| == m
    && (forall i :: m <= i < n ==> s.callers[i].Dialing? && s.callers[i].key == NthKey(i))
    && (forall key :: key in s.pool ==> |key| < m)
    && (forall key :: key in s.inflight ==> |key| < n)
  }

  lemma OneMoreDials(s: State, n: nat)
    requires Racing(s, n, 0) && s.limit > 0
    ensures Enabled(s, Arrive(NthKey(n))) && Enabled(Next(s, Arrive(NthKey(n))), Enter(n))
    ensures var s' := Next(Next(s, Arrive(NthKey(n))), Enter(n));
            Racing(s', n + 1, 0) && s'.limit == s.limit
  {
    assert |NthKey(n)| == n;
  }

  lemma OneMorePools(s: State, n: nat, m: nat)
    requires Racing(s, n, m) && m < n
    ensures Enabled(s, EndDial(m, Connected(0)))
    ensures Racing(Next(s, EndDial(m, Connected(0))), n, m + 1)
  {
    assert |NthKey(m)| == m && NthKey(m) !in s.pool;
  }

  lemma {:induction false} RaceStart(limit: nat, n: nat) returns (steps: seq<Step>)
    requires limit > 0
    ensures Run(Init(limit), steps).Some? && DialsOnly(steps)
    ensures Racing(Run(Init(limit), steps).value, n, 0) && Run(Init(limit), steps).value.limit == limit
  {
    hide Run, Next, Enabled;
    if n == 0 {
      steps := [];
      RunNothing(Init(limit));
    } else {
      steps := RaceStart(limit, n - 1);
      hide Racing;
      OneMoreDials(Run(Init(limit), steps).value, n - 1);
      RunExtend(Init(limit), steps, Arrive(NthKey(n - 1)));
      steps := steps + [Arrive(NthKey(n - 1))];
      RunExtend(Init(limit), steps, Enter(n - 1));
      steps := steps + [Enter(n - 1)];
    }
  }

  lemma {:induction false} RaceEnd(limit: nat, n: nat, m: nat) returns (steps: seq<Step>)
    requires limit > 0 && m <= n
    ensures Run(Init(limit), steps).Some? && DialsOnly(steps) && Racing(Run(Init(limit), steps).value, n, m)
  {
    hide Run, Next, Enabled, Racing;
    if m == 0 {
      steps := RaceStart(limit, n);
    } else {
      steps := RaceEnd(limit, n, m - 1);
      OneMorePools(Run(Init(limit), steps).value, n, m - 1);
      RunExtend(Init(limit), steps, EndDial(m - 1, Connected(0)));
      steps := steps + [EndDial(m - 1, Connected(0))];
    }
  }

  predicate DialsOnly(steps: seq<Step>) { forall i :: 0 <= i < |steps| ==> !steps[i].Accept? }

  /** Some run of dials alone overfills the pool to this size. */
  ghost predicate CanReach(limit: nat, size: nat) {
    exists steps :: Run(Init(limit), steps).Some? && DialsOnly(steps) && |Run(Init(limit), steps).value.pool| == size
  }

  /** The limit is tested when a dial starts and not when its connection is pooled: with any positive limit, callers
      of different keys that pass the test together can fill the pool to any size at all. */
  lemma LimitBreaks(limit: nat, size: nat)
    requires limit > 0
    ensures CanReach(limit, size)
  {
    hide Run;
    var steps := RaceEnd(limit, size, size);
    assert |Run(Init(limit), steps).value.pool| == size;
  }

  // ------------------------------------------------------------------ the tables themselves

  datatype Decision = UseConn(conn: nat) | WaitFor(call: nat) | Refuse | Dial(call: nat)

  /** tcpConns and inflight of the Transport, updated in place by the two lock sections of getStreamConn. */
  class ConnTable {
    const limit: nat
    var tcpConns: map<string, nat>
    var inflight: map<string, nat>

    constructor (limit: nat)
      ensures this.limit == limit && tcpConns == map[] && inflight == map[]
    {
      this.limit := limit;
      tcpConns, inflight := map[], map[];
    }

    ghost predicate Represents(s: State)
      reads this
    {
      limit == s.limit && tcpConns == s.pool && inflight == s.inflight
    }

    /** The first lock section; `call` is the fresh dialCall it may register. */
    method Decide(key: string, call: nat, ghost s: State, ghost i: nat) returns (decision: Decision)
      requires Represents(s) && Enabled(s, Enter(i)) && s.callers[i].key == key && call == |s.calls|
      modifies this
      ensures Represents(Next(s, Enter(i)))
      ensures match decision
              case UseConn(conn) => Next(s, Enter(i)).callers[i] == Returned(key, Connected(conn), FromPool)
              case WaitFor(d) => Next(s, Enter(i)).callers[i] == WaitingOn(key, d)
              case Refuse => Next(s, Enter(i)).callers[i] == Returned(key, REFUSED, TooMany)
              case Dial(d) => d == call && Next(s, Enter(i)).callers[i] == Dialing(key, call)
    {
      if key in tcpConns {
        return UseConn(tcpConns[key]);
      }
      if key in inflight {
        return WaitFor(inflight[key]);
      }
      if |tcpConns| >= limit {
        return Refuse;
      }
      inflight := inflight[key := call];
      return Dial(call);
    }

    /** The second lock section, after the dial. */
    method Settle(key: string, outcome: Outcome, ghost s: State, ghost i: nat)
      requires Represents(s) && Enabled(s, EndDial(i, outcome)) && s.callers[i].key == key
      modifies this
      ensures Represents(Next(s, EndDial(i, outcome)))
    {
      inflight := inflight - {key};
      if outcome.Connected? {
        tcpConns := tcpConns[key := outcome.conn];
      }
    }

    /** The section a waiter runs after wg.Wait returns. */
    method AfterWait(key: string, published: Outcome, ghost s: State, ghost i: nat) returns (outcome: Outcome)
      requires Represents(s) && Enabled(s, Wake(i)) && s.callers[i].key == key
      requires s.calls[s.callers[i].call].result == Some(published)
      ensures Next(s, Wake(i)).callers[i].outcome == outcome && Represents(Next(s, Wake(i)))
    {
      if key in tcpConns {
        return Connected(tcpConns[key]);
      }
      return published;
    }
  }
}
