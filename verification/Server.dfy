/** The concrete HTTP server: its serve goroutine, its two workers, accepted connections, and any number
    of Shutdown callers, under every interleaving. It is shown to meet the contract in Lifecycle. */
module Server {
  import opened Wrappers
  import opened Lifecycle
  import opened Ranks

  type Tid = nat

  datatype Once = Idle | Busy(owner: Tid) | Finished

  /** The serve goroutine, with the result of http.Server.Serve in hand. */
  datatype ServePc =
    | Serving
    | Cancelling(result: Option<Error>)
    | ClosingHttp(result: Option<Error>)
    | Draining(result: Option<Error>)
    | Joining(result: Option<Error>)
    | Recording(result: Option<Error>)
    | Broadcasting
    | Returned

  /** A caller of Shutdown. */
  datatype CallerPc =
    | Called
    | CallerCancelling
    | CallerClosingHttp
    | CallerDraining
    | AwaitingDone
    | Answered(result: Option<Error>)

  datatype State = State(
    serve: ServePc,
    cancelled: bool,          // the context of both workers
    updaterRunning: bool,
    watcherRunning: bool,
    httpClosing: bool,        // http.Server.Shutdown has closed the listener
    active: nat,              // accepted connections not yet drained
    callers: map<Tid, CallerPc>,
    shutdownOnce: Once,
    shutdownErr: Option<Error>,
    terminalErr: Option<Error>,
    done: bool)

  /** newServerFromConfig returns a server whose three goroutines have been started. */
  const STARTED := State(Serving, false, true, true, false, 0, map[], Idle, None, None, false)

  datatype Action =
    | ServeFails(err: Error)
    | ServeSeesShutdown
    | ServeStep
    | Accept
    | Drain
    | UpdaterExits
    | WatcherExits
    | CallShutdown(t: Tid)
    | CallerStep(t: Tid)
    | DrainFails(t: Tid, err: Error)   // http.Server.Shutdown returns an error: its timeout, or closing the listener

  /** net/http: Serve ends with a real error only before anyone has called http.Server.Shutdown. */
  function StepServe(s: State): Option<State> {
    match s.serve
    case Cancelling(r) => Some(s.(serve := ClosingHttp(r), cancelled := true))
    case ClosingHttp(r) => Some(s.(serve := Draining(r), httpClosing := true))
    case Draining(r) => if s.active == 0 then Some(s.(serve := Joining(r))) else None
    case Joining(r) => if s.updaterRunning || s.watcherRunning then None else Some(s.(serve := Recording(r)))
    case Recording(r) => Some(s.(serve := Broadcasting, terminalErr := r))
    case Broadcasting => Some(s.(serve := Returned, done := true))
    case _ => None
  }

  function Move(s: State, t: Tid, pc: CallerPc): State {
    s.(callers := s.callers[t := pc])
  }

  /** A caller cancels the workers and closes the listener at most; everything else is not his. */
  predicate CallerLeaves(s: State, s': State) {
    && s'.serve == s.serve && s'.updaterRunning == s.updaterRunning && s'.watcherRunning == s.watcherRunning
    && s'.active == s.active && s'.terminalErr == s.terminalErr && s'.done == s.done
    && (s.cancelled ==> s'.cancelled) && (s.httpClosing ==> s'.httpClosing)
  }

  function StepCaller(s: State, t: Tid): (r: Option<State>)
    requires t in s.callers
    ensures r.Some? ==> CallerLeaves(s, r.value)
  {
    match s.callers[t]
    case Called =>
      if s.shutdownOnce.Idle? then Some(Move(s, t, CallerCancelling).(shutdownOnce := Busy(t)))
      else if s.shutdownOnce.Busy? then None
      else Some(Move(s, t, Answered(s.shutdownErr)))
    case CallerCancelling => Some(Move(s, t, CallerClosingHttp).(cancelled := true))
    case CallerClosingHttp => Some(Move(s, t, CallerDraining).(httpClosing := true))
    case CallerDraining => if s.active == 0 then Some(Move(s, t, AwaitingDone).(shutdownErr := None)) else None
    case AwaitingDone => if s.done then Some(Move(s, t, Answered(s.shutdownErr)).(shutdownOnce := Finished)) else None
    case Answered(_) => None
  }

  function Step(s: State, a: Action): Option<State> {
    match a
    // net/http: Serve ends with a real error only before anyone has called http.Server.Shutdown
    case ServeFails(err) => if s.serve.Serving? && !s.httpClosing then Some(s.(serve := Cancelling(Some(err)))) else None
    case ServeSeesShutdown => if s.serve.Serving? && s.httpClosing then Some(s.(serve := Cancelling(None))) else None
    case ServeStep => StepServe(s)
    case Accept => if s.serve.Serving? && !s.httpClosing then Some(s.(active := s.active + 1)) else None
    case Drain => if s.active > 0 then Some(s.(active := s.active - 1)) else None
    case UpdaterExits => if s.updaterRunning && s.cancelled then Some(s.(updaterRunning := false)) else None
    case WatcherExits => if s.watcherRunning then Some(s.(watcherRunning := false)) else None
    case CallShutdown(t) => if t in s.callers then None else Some(Move(s, t, Called))
    case CallerStep(t) => if t in s.callers then StepCaller(s, t) else None
    case DrainFails(t, err) =>
      if t in s.callers && s.callers[t].CallerDraining? then Some(Move(s, t, AwaitingDone).(shutdownErr := Some(err))) else None
  }

  function Exec(s: State, actions: seq<Action>): Option<State>
    decreases |actions|
  {
    if actions == [] then Some(s)
    else match Step(s, actions[0])
      case None => None
      case Some(s') => Exec(s', actions[1..])
  }

  // ---------- the invariant ----------

  /** Every resource the server owns is gone: no accepting, no connection, no worker. */
  predicate Quiescent(s: State) {
    s.httpClosing && s.active == 0 && !s.updaterRunning && !s.watcherRunning
  }

  predicate RunsOnce(pc: CallerPc) {
    !pc.Called? && !pc.Answered?
  }

  ghost predicate ServeOk(s: State) {
    match s.serve
    case Serving => !s.done && s.terminalErr.None?
    case Cancelling(_) => !s.done && s.terminalErr.None?
    case ClosingHttp(_) => s.cancelled && !s.done && s.terminalErr.None?
    case Draining(_) => s.cancelled && s.httpClosing && !s.done && s.terminalErr.None?
    case Joining(_) => s.cancelled && s.httpClosing && s.active == 0 && !s.done && s.terminalErr.None?
    case Recording(_) => Quiescent(s) && !s.done && s.terminalErr.None?
    case Broadcasting => Quiescent(s) && !s.done
    case Returned => Quiescent(s) && s.done
  }

  ghost predicate CallerOk(s: State, t: Tid, pc: CallerPc) {
    && (RunsOnce(pc) ==> s.shutdownOnce == Busy(t))
    && (match pc
        case CallerClosingHttp => s.cancelled
        case CallerDraining => s.cancelled && s.httpClosing
        case AwaitingDone => s.cancelled && s.httpClosing
        case Answered(r) => s.shutdownOnce.Finished? && r == s.shutdownErr
        case _ => true)
  }

  ghost predicate CallersOk(s: State) {
    && (forall t :: t in s.callers ==> CallerOk(s, t, s.callers[t]))
    && (s.shutdownOnce.Busy? ==> s.shutdownOnce.owner in s.callers && RunsOnce(s.callers[s.shutdownOnce.owner]))
    && (s.shutdownOnce.Finished? ==> s.done)
  }

  ghost predicate Inv(s: State) {
    ServeOk(s) && CallersOk(s)
  }

  predicate OfCaller(a: Action) {
    a.CallShutdown? || a.CallerStep? || a.DrainFails?
  }

  /** A step that no caller takes leaves the callers where they are, and what they rely on stays. */
  lemma OwnStepIs(s: State, a: Action, s': State)
    requires Step(s, a) == Some(s') && !OfCaller(a)
    ensures s'.callers == s.callers && s'.shutdownOnce == s.shutdownOnce && s'.shutdownErr == s.shutdownErr
    ensures (s.cancelled ==> s'.cancelled) && (s.httpClosing ==> s'.httpClosing) && (s.done ==> s'.done)
  {
    match a
    case ServeStep =>
      match s.serve {
        case Cancelling(_) =>
        case ClosingHttp(_) =>
        case Draining(_) =>
        case Joining(_) =>
        case Recording(_) =>
        case Broadcasting =>
        case _ =>
      }
    case _ =>
  }

  lemma OwnStepCallers(s: State, a: Action, s': State)
    requires CallersOk(s) && Step(s, a) == Some(s') && !OfCaller(a)
    ensures CallersOk(s')
  {
    OwnStepIs(s, a, s');
    forall t | t in s.callers ensures CallerOk(s', t, s.callers[t]) {
      assert CallerOk(s, t, s.callers[t]);
    }
  }

  lemma OwnStepServe(s: State, a: Action, s': State)
    requires ServeOk(s) && Step(s, a) == Some(s') && !OfCaller(a)
    ensures ServeOk(s')
  {
  }

  /** Any step of the serve goroutine, the workers or the connections. */
  lemma OwnStepKeeps(s: State, a: Action, s': State)
    requires Inv(s) && Step(s, a) == Some(s') && !OfCaller(a)
    ensures Inv(s')
  {
    OwnStepCallers(s, a, s');
    OwnStepServe(s, a, s');
  }

  /** Where a caller's step takes him. */
  function NextPc(s: State, a: Action): (pc: CallerPc)
    requires OfCaller(a)
  {
    if a.CallShutdown? || a.t !in s.callers then Called
    else if a.DrainFails? then AwaitingDone
    else
      match s.callers[a.t]
      case Called => if s.shutdownOnce.Idle? then CallerCancelling else Answered(s.shutdownErr)
      case CallerCancelling => CallerClosingHttp
      case CallerClosingHttp => CallerDraining
      case CallerDraining => AwaitingDone
      case AwaitingDone => Answered(s.shutdownErr)
      case Answered(r) => Answered(r)
  }

  lemma StepCallerIs(s: State, t: Tid, s': State)
    requires t in s.callers && StepCaller(s, t) == Some(s')
    ensures s'.callers == s.callers[t := NextPc(s, CallerStep(t))]
  {
    var pc := NextPc(s, CallerStep(t));
    assert s'.callers == Move(s, t, pc).callers;
  }

  lemma CallerStepIs(s: State, a: Action, s': State)
    requires Step(s, a) == Some(s') && OfCaller(a)
    ensures s'.callers == s.callers[a.t := NextPc(s, a)]
    ensures CallerLeaves(s, s')
  {
    match a
    case CallShutdown(t) =>
    case DrainFails(t, _) =>
    case CallerStep(t) =>
      StepCallerIs(s, t, s');
  }

  lemma CallerStepServe(s: State, a: Action, s': State)
    requires ServeOk(s) && Step(s, a) == Some(s') && OfCaller(a)
    ensures ServeOk(s')
  {
    CallerStepIs(s, a, s');
  }

  /** Who does not run inside the once-guard stays well while its owner moves, or somebody new comes in. */
  lemma OtherCallerKeeps(s: State, a: Action, s': State, u: Tid)
    requires CallersOk(s) && Step(s, a) == Some(s') && OfCaller(a) && u in s.callers && u != a.t
    ensures CallerOk(s', u, s.callers[u])
  {
    assert CallerOk(s, u, s.callers[u]);
    if a.t in s.callers { assert CallerOk(s, a.t, s.callers[a.t]); }
  }

  lemma OwnCallerKeeps(s: State, a: Action, s': State)
    requires CallersOk(s) && Step(s, a) == Some(s') && OfCaller(a)
    ensures CallerOk(s', a.t, NextPc(s, a))
  {
    if a.t in s.callers {
      assert CallerOk(s, a.t, s.callers[a.t]);
    }
  }

  lemma GuardKeeps(s: State, a: Action, s': State)
    requires CallersOk(s) && Step(s, a) == Some(s') && OfCaller(a)
    ensures s'.shutdownOnce.Busy? ==> s'.shutdownOnce.owner in s'.callers && RunsOnce(s'.callers[s'.shutdownOnce.owner])
    ensures s'.shutdownOnce.Finished? ==> s'.done
  {
    CallerStepIs(s, a, s');
    if a.t in s.callers {
      assert CallerOk(s, a.t, s.callers[a.t]);
    }
  }

  lemma CallerStepKeeps(s: State, a: Action, s': State)
    requires Inv(s) && Step(s, a) == Some(s') && OfCaller(a)
    ensures Inv(s')
  {
    CallerStepServe(s, a, s');
    CallerStepIs(s, a, s');
    OwnCallerKeeps(s, a, s');
    GuardKeeps(s, a, s');
    forall u | u in s.callers && u != a.t ensures CallerOk(s', u, s.callers[u]) {
      OtherCallerKeeps(s, a, s', u);
    }
  }

  lemma StepKeeps(s: State, a: Action, s': State)
    requires Inv(s) && Step(s, a) == Some(s')
    ensures Inv(s')
  {
    if OfCaller(a) { CallerStepKeeps(s, a, s'); } else { OwnStepKeeps(s, a, s'); }
  }

  lemma {:induction false} ExecKeeps(s: State, actions: seq<Action>, s': State)
    requires Inv(s) && Exec(s, actions) == Some(s')
    ensures Inv(s')
    decreases |actions|
  {
    if actions != [] {
      StepKeeps(s, actions[0], Step(s, actions[0]).value);
      ExecKeeps(Step(s, actions[0]).value, actions[1..], s');
    }
  }

  // ---------- the contract ----------

  /** The server as its supervisor sees it. */
  function Abstract(s: State): Instance {
    Instance(s.callers != map[], s.done, if s.done then s.terminalErr else None,
             if s.shutdownOnce.Finished? then Some(s.shutdownErr) else None)
  }

  /** One step of the contract machine, or nothing the supervisor can see. */
  ghost predicate Refines(i: Instance, i': Instance) {
    i' == i || exists e :: Apply(i, e) == Some(i')
  }

  lemma StepRefines(s: State, a: Action, s': State)
    requires Inv(s) && Step(s, a) == Some(s')
    ensures Refines(Abstract(s), Abstract(s'))
  {
    var i, i' := Abstract(s), Abstract(s');
    match a
    case CallShutdown(t) => assert Apply(i, StopRequested) == Some(i');
    case CallerStep(t) =>
      assert CallerOk(s, t, s.callers[t]);
      if s.callers[t].AwaitingDone? {
        assert s'.callers != map[];
        assert Apply(i, ShutdownReturned(s.shutdownErr)) == Some(i');
      } else {
        assert s'.callers != map[];
      }
    case DrainFails(t, _) =>
      assert CallerOk(s, t, s.callers[t]);
      assert s'.callers != map[];
    case ServeStep =>
      if s'.done && !s.done {
        assert Apply(i, Ended(s'.terminalErr)) == Some(i');
      }
    case _ =>
  }

  /** Every run of the server, seen through Abstract, is a run of the contract. */
  lemma {:induction false} ServerMeetsContract(s: State, actions: seq<Action>, s': State)
    requires Inv(s) && Exec(s, actions) == Some(s')
    ensures exists events :: Behaves(Abstract(s), events, Abstract(s'))
    decreases |actions|
  {
    if actions == [] {
      assert Behaves(Abstract(s), [], Abstract(s'));
    } else {
      var s1 := Step(s, actions[0]).value;
      StepRefines(s, actions[0], s1);
      StepKeeps(s, actions[0], s1);
      ServerMeetsContract(s1, actions[1..], s');
      var events :| Behaves(Abstract(s1), events, Abstract(s'));
      if Abstract(s1) != Abstract(s) {
        var e :| Apply(Abstract(s), e) == Some(Abstract(s1));
        assert ([e] + events)[1..] == events;
        assert Behaves(Abstract(s), [e] + events, Abstract(s'));
      }
    }
  }

  /** The contract machine goes from i to j through these events. */
  ghost predicate Behaves(i: Instance, events: seq<Event>, j: Instance)
    decreases |events|
  {
    if events == [] then i == j
    else Apply(i, events[0]).Some? && Behaves(Apply(i, events[0]).value, events[1..], j)
  }

  lemma {:induction false} DoneStays(s: State, actions: seq<Action>, s': State)
    requires Inv(s) && s.done && Exec(s, actions) == Some(s')
    ensures Quiescent(s) && Quiescent(s') && s'.done && s'.terminalErr == s.terminalErr
    decreases |actions|
  {
    if actions != [] {
      var s1 := Step(s, actions[0]).value;
      StepKeeps(s, actions[0], s1);
      assert s1.done && s1.terminalErr == s.terminalErr by {
        if actions[0].CallerStep? { assert CallerOk(s, actions[0].t, s.callers[actions[0].t]); }
      }
      DoneStays(s1, actions[1..], s');
    }
  }

  /** Done closes only when every owned resource has gone; from then on nothing comes back and Err is constant. */
  lemma DoneIsFinal(before: seq<Action>, s: State, after: seq<Action>, s': State)
    requires Exec(STARTED, before) == Some(s) && s.done && Exec(s, after) == Some(s')
    ensures Quiescent(s) && Quiescent(s') && s'.done && s'.terminalErr == s.terminalErr
  {
    ExecKeeps(STARTED, before, s);
    DoneStays(s, after, s');
  }

  /** From start: the server behaves like a fresh contract instance, and all Shutdown callers get one
      answer, only after Done. */
  lemma StartedServerKeepsContract(actions: seq<Action>, s: State)
    requires Exec(STARTED, actions) == Some(s)
    ensures exists events :: Behaves(FRESH, events, Abstract(s))
    ensures s.done ==> Quiescent(s)
    ensures forall t, u :: t in s.callers && u in s.callers && s.callers[t].Answered? && s.callers[u].Answered? ==>
              s.done && s.callers[t] == s.callers[u]
  {
    assert Abstract(STARTED) == FRESH;
    ServerMeetsContract(STARTED, actions, s);
    ExecKeeps(STARTED, actions, s);
    forall t | t in s.callers && s.callers[t].Answered? ensures s.done && s.callers[t].result == s.shutdownErr {
      assert CallerOk(s, t, s.callers[t]);
    }
  }

  /** The serve goroutine has its result and has not yet recorded it. */
  predicate InHand(s: State) {
    !s.serve.Serving? && !s.serve.Broadcasting? && !s.serve.Returned?
  }

  lemma ServeKeepsResult(s: State, s': State)
    requires InHand(s) && StepServe(s) == Some(s')
    ensures if s'.serve.Broadcasting? then s'.terminalErr == s.serve.result else InHand(s') && s'.serve.result == s.serve.result
  {
    match s.serve
    case Cancelling(_) =>
    case ClosingHttp(_) =>
    case Draining(_) =>
    case Joining(_) =>
    case Recording(_) =>
  }

  lemma CallersLeaveServe(s: State, a: Action, s': State)
    requires InHand(s) && Step(s, a) == Some(s') && !a.ServeStep?
    ensures s'.serve == s.serve
  {
    if OfCaller(a) {
      CallerStepIs(s, a, s');
    }
  }

  /** What is in hand is what will be recorded, whatever Shutdown callers do meanwhile. */
  lemma {:induction false} ResultIsRecorded(s: State, actions: seq<Action>, s': State)
    requires Inv(s) && InHand(s) && Exec(s, actions) == Some(s') && s'.done
    ensures s'.terminalErr == s.serve.result
    decreases |actions|
  {
    if actions != [] {
      var s1 := Step(s, actions[0]).value;
      StepKeeps(s, actions[0], s1);
      if actions[0].ServeStep? { ServeKeepsResult(s, s1); } else { CallersLeaveServe(s, actions[0], s1); }
      if s1.serve.Broadcasting? {
        RecordedResultStays(s1, actions[1..], s');
      } else {
        ResultIsRecorded(s1, actions[1..], s');
      }
    }
  }

  lemma {:induction false} RecordedResultStays(s: State, actions: seq<Action>, s': State)
    requires Inv(s) && (s.serve.Broadcasting? || s.serve.Returned?) && Exec(s, actions) == Some(s')
    ensures s'.terminalErr == s.terminalErr
    decreases |actions|
  {
    if actions != [] {
      StepKeeps(s, actions[0], Step(s, actions[0]).value);
      RecordedResultStays(Step(s, actions[0]).value, actions[1..], s');
    }
  }

  // ---------- where the results come from ----------

  lemma {:induction false} LastStep(s: State, actions: seq<Action>, s': State) returns (before: State)
    requires actions != [] && Exec(s, actions) == Some(s')
    ensures Exec(s, actions[..|actions| - 1]) == Some(before) && Step(before, actions[|actions| - 1]) == Some(s')
    decreases |actions|
  {
    if |actions| == 1 {
      before := s;
    } else {
      before := LastStep(Step(s, actions[0]).value, actions[1..], s');
      assert actions[1..][..|actions| - 2] == actions[..|actions| - 1][1..];
    }
  }

  /** The result of Serve, from the moment there is one. */
  function ServeResult(s: State): (r: Option<Option<Error>>) {
    if s.serve.Serving? then None else if InHand(s) then Some(s.serve.result) else Some(s.terminalErr)
  }

  /** A real error came from Serve itself, nil from its end after a Shutdown, and there is no result without either. */
  ghost predicate ResultFrom(actions: seq<Action>, r: Option<Option<Error>>) {
    && (forall e :: ServeFails(e) in actions <==> r == Some(Some(e)))
    && (ServeSeesShutdown in actions <==> r == Some(None))
  }

  lemma ResultStep(before: State, a: Action, s: State)
    requires Step(before, a) == Some(s)
    ensures a.ServeFails? || a.ServeSeesShutdown? ==> ServeResult(before).None?
    ensures ServeResult(s) == if a.ServeFails? then Some(Some(a.err)) else if a.ServeSeesShutdown? then Some(None) else ServeResult(before)
  {
    if OfCaller(a) {
      CallerStepIs(before, a, s);
    } else if a.ServeStep? && InHand(before) {
      ServeKeepsResult(before, s);
    }
  }

  lemma {:induction false} ResultHasCause(actions: seq<Action>, s: State)
    requires Exec(STARTED, actions) == Some(s)
    ensures ResultFrom(actions, ServeResult(s))
    decreases |actions|
  {
    if actions != [] {
      var before := LastStep(STARTED, actions, s);
      var a := actions[|actions| - 1];
      ResultHasCause(actions[..|actions| - 1], before);
      ResultStep(before, a, s);
      assert forall b :: b in actions <==> b in actions[..|actions| - 1] || b == a;
    }
  }

  /** The published error is the error Serve returned, and nil exactly when Serve ended because of a Shutdown. */
  lemma ErrIsServeResult(actions: seq<Action>, s: State)
    requires Exec(STARTED, actions) == Some(s) && s.done
    ensures forall e :: s.terminalErr == Some(e) <==> ServeFails(e) in actions
    ensures s.terminalErr.None? <==> ServeSeesShutdown in actions
  {
    ResultHasCause(actions, s);
    ExecKeeps(STARTED, actions, s);
  }

  /** Somebody has come past closing and draining HTTP. */
  predicate HttpDrained(s: State) {
    || s.shutdownOnce.Finished?
    || (s.shutdownOnce.Busy? && s.shutdownOnce.owner in s.callers && s.callers[s.shutdownOnce.owner].AwaitingDone?)
  }

  /** The error to answer is that of draining, if draining failed. */
  ghost predicate AnswerFrom(actions: seq<Action>, s: State) {
    && (forall t, e :: DrainFails(t, e) in actions ==> HttpDrained(s) && s.shutdownErr == Some(e))
    && (HttpDrained(s) && s.shutdownErr.Some? ==> exists t :: DrainFails(t, s.shutdownErr.value) in actions)
  }

  lemma AnswerStep(before: State, a: Action, s: State)
    requires Inv(before) && Step(before, a) == Some(s)
    ensures HttpDrained(before) ==> HttpDrained(s) && s.shutdownErr == before.shutdownErr && !a.DrainFails?
    ensures a.DrainFails? ==> HttpDrained(s) && s.shutdownErr == Some(a.err)
    ensures !HttpDrained(before) && HttpDrained(s) && !a.DrainFails? ==> s.shutdownErr.None?
  {
    if OfCaller(a) {
      CallerStepIs(before, a, s);
      if a.t in before.callers {
        assert CallerOk(before, a.t, before.callers[a.t]);
      }
    } else {
      OwnStepIs(before, a, s);
    }
  }

  lemma {:induction false} AnswerHasCause(actions: seq<Action>, s: State)
    requires Exec(STARTED, actions) == Some(s)
    ensures AnswerFrom(actions, s)
    decreases |actions|
  {
    if actions != [] {
      var before := LastStep(STARTED, actions, s);
      var a := actions[|actions| - 1];
      AnswerHasCause(actions[..|actions| - 1], before);
      ExecKeeps(STARTED, actions[..|actions| - 1], before);
      AnswerStep(before, a, s);
      assert forall b :: b in actions <==> b in actions[..|actions| - 1] || b == a;
      if HttpDrained(before) && before.shutdownErr.Some? {
        var t :| DrainFails(t, before.shutdownErr.value) in actions[..|actions| - 1];
        assert DrainFails(t, before.shutdownErr.value) in actions;
      }
    }
  }

  /** Every Shutdown answers with the error of draining HTTP, and with nil exactly when draining went well. */
  lemma ShutdownAnswersDrainResult(actions: seq<Action>, s: State, t: Tid, r: Option<Error>)
    requires Exec(STARTED, actions) == Some(s) && t in s.callers && s.callers[t] == Answered(r)
    ensures forall e :: r == Some(e) <==> exists u :: DrainFails(u, e) in actions
    ensures r.None? <==> forall u, e :: DrainFails(u, e) !in actions
  {
    AnswerHasCause(actions, s);
    ExecKeeps(STARTED, actions, s);
    assert CallerOk(s, t, s.callers[t]);
  }

  lemma {:induction false} OneStepMore(s: State, actions: seq<Action>, before: State, a: Action)
    requires Exec(s, actions) == Some(before)
    ensures Exec(s, actions + [a]) == Step(before, a)
    decreases |actions|
  {
    if actions == [] {
      assert [a][1..] == [];
    } else {
      OneStepMore(Step(s, actions[0]).value, actions[1..], before, a);
      assert (actions + [a])[1..] == actions[1..] + [a];
    }
  }

  /** Serve has ended, and caller 0 is draining. */
  lemma EndBegins(result: Option<Error>) returns (actions: seq<Action>, s: State)
    ensures Exec(STARTED, actions) == Some(s)
    ensures s == State(Cancelling(result), true, true, true, true, 0, map[0 := CallerDraining], Busy(0), None, None, false)
  {
    hide Exec;
    actions, s := NothingYet();
    if result.Some? {
      actions, s := Then(actions, s, ServeFails(result.value));
    }
    actions, s := Then(actions, s, CallShutdown(0));
    actions, s := Then(actions, s, CallerStep(0));
    actions, s := Then(actions, s, CallerStep(0));
    actions, s := Then(actions, s, CallerStep(0));
    if result.None? {
      actions, s := Then(actions, s, ServeSeesShutdown);
    }
  }

  lemma NothingYet() returns (actions: seq<Action>, s: State)
    ensures actions == [] && s == STARTED && Exec(STARTED, actions) == Some(s)
  {
    actions, s := [], STARTED;
  }

  /** Everything the server owns is gone. */
  lemma EndGoesOn(result: Option<Error>, answer: Option<Error>) returns (actions: seq<Action>, s: State)
    ensures Exec(STARTED, actions) == Some(s)
    ensures s == State(Recording(result), true, false, false, true, 0, map[0 := AwaitingDone], Busy(0), answer, None, false)
  {
    hide Exec;
    actions, s := EndBegins(result);
    actions, s := Then(actions, s, if answer.Some? then DrainFails(0, answer.value) else CallerStep(0));
    actions, s := Then(actions, s, ServeStep);
    actions, s := Then(actions, s, ServeStep);
    actions, s := Then(actions, s, ServeStep);
    actions, s := Then(actions, s, UpdaterExits);
    actions, s := Then(actions, s, WatcherExits);
    actions, s := Then(actions, s, ServeStep);
  }

  /** All these ends occur: Serve with any result of its own or none, and draining with any error or none. */
  lemma EveryEndOccurs(result: Option<Error>, answer: Option<Error>) returns (actions: seq<Action>, s: State)
    ensures Exec(STARTED, actions) == Some(s) && s.done && s.terminalErr == result
    ensures s.callers == map[0 := Answered(answer)]
  {
    hide Exec;
    actions, s := EndGoesOn(result, answer);
    actions, s := Then(actions, s, ServeStep);
    actions, s := Then(actions, s, ServeStep);
    actions, s := Then(actions, s, CallerStep(0));
  }

  lemma Then(actions: seq<Action>, s: State, a: Action) returns (actions': seq<Action>, s': State)
    requires Exec(STARTED, actions) == Some(s) && Step(s, a).Some?
    ensures actions' == actions + [a] && Step(s, a) == Some(s') && Exec(STARTED, actions') == Some(s')
  {
    actions', s' := actions + [a], Step(s, a).value;
    OneStepMore(STARTED, actions, s, a);
  }

  // ---------- every Shutdown comes to its end ----------

  /** A step that no caller of the server brings about by coming anew, and no client by connecting. */
  predicate Internal(a: Action) {
    !a.CallShutdown? && !a.Accept?
  }

  function CallerLeft(pc: CallerPc): (n: nat) {
    match pc
    case Called => 5
    case CallerCancelling => 4
    case CallerClosingHttp => 3
    case CallerDraining => 2
    case AwaitingDone => 1
    case Answered(_) => 0
  }

  function ServeLeft(pc: ServePc): (n: nat) {
    match pc
    case Serving => 7
    case Cancelling(_) => 6
    case ClosingHttp(_) => 5
    case Draining(_) => 4
    case Joining(_) => 3
    case Recording(_) => 2
    case Broadcasting => 1
    case Returned => 0
  }

  /** What callers, the serve goroutine, connections and workers still have to do. */
  ghost function Rank(s: State): (r: nat) {
    Total(s.callers, CallerLeft) + ServeLeft(s.serve) + s.active
    + (if s.updaterRunning then 1 else 0) + (if s.watcherRunning then 1 else 0)
  }

  lemma CallerAdvances(s: State, a: Action, s': State)
    requires Step(s, a) == Some(s') && (a.CallerStep? || a.DrainFails?)
    ensures a.t in s.callers && CallerLeft(NextPc(s, a)) < CallerLeft(s.callers[a.t])
  {
  }

  lemma OwnStepCounts(s: State, a: Action, s': State)
    requires Step(s, a) == Some(s') && Internal(a) && !OfCaller(a)
    ensures s'.callers == s.callers && Rank(s') < Rank(s)
  {
    OwnStepIs(s, a, s');
    match a
    case ServeStep =>
      match s.serve {
        case Cancelling(_) =>
        case ClosingHttp(_) =>
        case Draining(_) =>
        case Joining(_) =>
        case Recording(_) =>
        case Broadcasting =>
        case _ =>
      }
    case _ =>
  }

  /** Every internal step brings the server nearer to its rest. */
  lemma StepCounts(s: State, a: Action, s': State)
    requires Step(s, a) == Some(s') && Internal(a)
    ensures s.callers.Keys <= s'.callers.Keys && Rank(s') < Rank(s)
  {
    if OfCaller(a) {
      CallerStepIs(s, a, s');
      CallerAdvances(s, a, s');
      TotalAfter(s.callers, CallerLeft, a.t, NextPc(s, a));
    } else {
      OwnStepCounts(s, a, s');
    }
  }

  predicate AllInternal(actions: seq<Action>) {
    forall i :: 0 <= i < |actions| ==> Internal(actions[i])
  }

  lemma {:induction false} StepsAreBounded(s: State, actions: seq<Action>, s': State)
    requires Exec(s, actions) == Some(s') && AllInternal(actions)
    ensures |actions| + Rank(s') <= Rank(s) && s.callers.Keys <= s'.callers.Keys
    decreases |actions|
  {
    if actions != [] {
      var s1 := Step(s, actions[0]).value;
      StepCounts(s, actions[0], s1);
      StepsAreBounded(s1, actions[1..], s');
    }
  }

  lemma NextMove(s: State, t: Tid) returns (a: Action)
    requires Inv(s) && t in s.callers
    ensures s.callers[t].Answered? || (Step(s, a).Some? && Internal(a) && !a.ServeFails?)
  {
    assert CallerOk(s, t, s.callers[t]);
    var o := if s.shutdownOnce.Busy? then s.shutdownOnce.owner else t;
    assert CallerOk(s, o, s.callers[o]);
    a := if !s.callers[o].AwaitingDone? && !(s.callers[o].CallerDraining? && s.active > 0) then CallerStep(o)
         else if s.active > 0 then Drain
         else if s.done then CallerStep(o)
         else if s.serve.Serving? then ServeSeesShutdown
         else if s.serve.Joining? && s.updaterRunning then UpdaterExits
         else if s.serve.Joining? && s.watcherRunning then WatcherExits
         else ServeStep;
  }

  /** Shutdown causes the end: until its caller has its answer, some goroutine of the server can move. */
  lemma ShutdownIsNeverStuck(actions: seq<Action>, s: State, t: Tid) returns (a: Action)
    requires Exec(STARTED, actions) == Some(s) && t in s.callers && !s.callers[t].Answered?
    ensures Step(s, a).Some? && Internal(a) && !a.ServeFails?
  {
    ExecKeeps(STARTED, actions, s);
    a := NextMove(s, t);
  }

  /** A Shutdown returns, whoever moves when: without new calls and connections a run has at most so many steps, and it
      can always go on until the caller has its answer. */
  lemma ShutdownReturns(before: seq<Action>, s: State, t: Tid, actions: seq<Action>, s': State) returns (a: Action)
    requires Exec(STARTED, before) == Some(s) && t in s.callers
    requires Exec(s, actions) == Some(s') && AllInternal(actions)
    ensures |actions| <= Rank(s) && t in s'.callers
    ensures s'.callers[t].Answered? || (Step(s', a).Some? && Internal(a))
  {
    ExecKeeps(STARTED, before, s);
    ExecKeeps(s, actions, s');
    StepsAreBounded(s, actions, s');
    a := NextMove(s', t);
  }
}
