/** The server supervisor under every interleaving of Reload and Shutdown callers, watcher goroutines
    and servers that end on their own. One step is one point where another goroutine may run. */
module Supervisor {
  import opened Wrappers
  import opened Lifecycle
  import opened Ranks

  type Tid = nat
  type Id = nat

  datatype Owned = Owned(inst: Instance, observed: bool, watcher: Option<Tid>)

  /** sync.Once: callers that find it Busy block until it is Finished. */
  datatype Once = Idle | Busy(owner: Tid) | Finished

  datatype Pc =
    | ReloadCalled
    | ReloadEntered
    | ReloadLoading
    | ReloadStopping(id: Id)
    | ReloadObserving(id: Id, result: Option<Error>)
    | ReloadStopped(result: Option<Error>)
    | ReloadStarting
    | ReloadAdopting(id: Id)
    | ReloadFailing(err: Error, finishing: bool)
    | ReloadReturned(result: Option<Error>)
    | ShutdownCalled
    | ShutdownLocking
    | ShutdownEntered
    | ShutdownStopping(id: Id)
    | ShutdownObserving(id: Id)
    | ShutdownFinishing(finishing: bool)
    | ShutdownUnlocking
    | ShutdownPublishing
    | ShutdownReturned(result: Option<Error>)
    | WatchAwaiting(id: Id)
    | WatchFailing(id: Id, err: Error, finishing: bool)
    | WatchClosing(id: Id)
    | WatchReturned

  datatype State = State(
    threads: map<Tid, Pc>,
    mu: Option<Tid>,
    current: Option<Id>,
    closed: bool,
    servers: seq<Owned>,
    once: Once,
    terminalErr: Option<Error>,
    done: bool,
    shutdownOnce: Once,
    shutdownErr: Option<Error>,
    shutdownDone: bool)

  const INIT := State(map[], None, None, false, [], Idle, None, false, Idle, None, false)

  /** How the world answers a step: the config loader, the server factory, an instance's Shutdown. */
  datatype Choice =
    | Plain
    | LoadFails(err: Error)
    | FactoryFails(err: Error)
    | FactoryReturnsNil
    | InstanceAnswers(result: Option<Error>)
    | Spawn(tid: Tid)

  datatype Action =
    | CallReload(t: Tid)
    | CallShutdown(t: Tid)
    | Run(t: Tid, choice: Choice)
    | ServerEnds(id: Id, err: Option<Error>)

  function At(s: State, t: Tid, pc: Pc): State {
    s.(threads := s.threads[t := pc])
  }

  function SetInst(s: State, id: Id, inst: Instance): State
    requires id < |s.servers|
  {
    s.(servers := s.servers[id := s.servers[id].(inst := inst)])
  }

  /** Reload's deferred unlock. */
  function Leave(s: State, t: Tid, result: Option<Error>): State {
    At(s, t, ReloadReturned(result)).(mu := None)
  }

  /** No server is started, and a recorded terminal result is not touched. */
  ghost predicate Harmless(s: State, s': State) {
    && |s'.servers| == |s.servers|
    && (!s.once.Idle? ==> !s'.once.Idle? && s'.terminalErr == s.terminalErr && (s.done ==> s'.done))
  }

  /** finish(err) called by thread t: `begun` is the pc inside the once body, `after` the pc behind it.
      The body writes the terminal error and only then closes done; these are two steps. */
  function Finish(s: State, t: Tid, err: Option<Error>, finishing: bool, begun: Pc, after: Pc): (r: Option<State>)
    ensures r.Some? ==> Harmless(s, r.value)
  {
    if finishing then Some(At(s, t, after).(done := true, once := Finished))
    else if s.once.Idle? then Some(At(s, t, begun).(once := Busy(t), terminalErr := err))
    else if s.once.Busy? then None
    else Some(At(s, t, after))
  }

  // ---------- Reload ----------

  function LockForReload(s: State, t: Tid): (r: Option<State>)
    ensures r.Some? ==> Harmless(s, r.value)
  {
    if s.mu.Some? then None else Some(At(s, t, ReloadEntered).(mu := Some(t)))
  }

  function CheckOpen(s: State, t: Tid): (r: Option<State>)
    ensures r.Some? ==> Harmless(s, r.value)
  {
    if s.closed then Some(Leave(s, t, Some(SupervisorClosed)))
    else if s.terminalErr.Some? then Some(Leave(s, t, s.terminalErr))
    else Some(At(s, t, ReloadLoading))
  }

  /** s.load; a failed load leaves a running server alone, and is terminal when there is none. */
  function LoadCandidate(s: State, t: Tid, c: Choice): (r: Option<State>)
    ensures r.Some? ==> Harmless(s, r.value)
  {
    if c.LoadFails? then
      if s.current.None? then Some(At(s, t, ReloadFailing(c.err, false))) else Some(Leave(s, t, Some(c.err)))
    else if s.current.None? then Some(At(s, t, ReloadStarting))
    else TakeCurrent(s, t, ReloadStopping(s.current.value))
  }

  /** current := nil, and Shutdown is called on what it was. */
  function TakeCurrent(s: State, t: Tid, pc: Pc): (r: Option<State>)
    requires s.current.Some?
    ensures r.Some? ==> Harmless(s, r.value)
  {
    var id := s.current.value;
    if id >= |s.servers| then None
    else Some(At(SetInst(s, id, s.servers[id].inst.(stopRequested := true)), t, pc).(current := None))
  }

  /** The instance's Shutdown returns to thread t. */
  function Answer(s: State, t: Tid, id: Id, c: Choice, pc: Pc): (r: Option<State>)
    ensures r.Some? ==> Harmless(s, r.value)
  {
    if !c.InstanceAnswers? || id >= |s.servers| then None else
    var answered := Apply(s.servers[id].inst, Event.ShutdownReturned(c.result));
    if answered.None? then None else Some(At(SetInst(s, id, answered.value), t, pc))
  }

  /** <-current.observed */
  function AwaitObserved(s: State, t: Tid, id: Id, pc: Pc): (r: Option<State>)
    ensures r.Some? ==> Harmless(s, r.value)
  {
    if id < |s.servers| && s.servers[id].observed then Some(At(s, t, pc)) else None
  }

  function CheckStopped(s: State, t: Tid, result: Option<Error>): (r: Option<State>)
    ensures r.Some? ==> Harmless(s, r.value)
  {
    if result.Some? then Some(At(s, t, ReloadFailing(result.value, false)))
    else if s.terminalErr.Some? then Some(Leave(s, t, s.terminalErr))
    else Some(At(s, t, ReloadStarting))
  }

  function StartCandidate(s: State, t: Tid, c: Choice): Option<State> {
    if c.FactoryFails? then Some(At(s, t, ReloadFailing(c.err, false)))
    else if c.FactoryReturnsNil? then Some(At(s, t, ReloadFailing(NilServer, false)))
    else Some(At(s, t, ReloadAdopting(|s.servers|)).(servers := s.servers + [Owned(FRESH, false, None)]))
  }

  /** s.current = owned; go s.watch(owned) */
  function Adopt(s: State, t: Tid, id: Id, c: Choice): (r: Option<State>)
    ensures r.Some? ==> Harmless(s, r.value)
  {
    if !c.Spawn? || c.tid in s.threads || id >= |s.servers| then None
    else Some(At(Leave(s, t, None), c.tid, WatchAwaiting(id)).(current := Some(id),
              servers := s.servers[id := s.servers[id].(watcher := Some(c.tid))]))
  }

  function FailReload(s: State, t: Tid, e: Error, finishing: bool): (r: Option<State>)
    ensures r.Some? ==> Harmless(s, r.value)
  {
    var s' := Finish(s, t, Some(e), finishing, ReloadFailing(e, true), ReloadReturned(Some(e)));
    if s'.Some? && s'.value.threads[t].ReloadReturned? then Some(s'.value.(mu := None)) else s'
  }

  function StepReload(s: State, t: Tid, c: Choice): (r: Option<State>)
    requires t in s.threads
    ensures r.Some? && !s.threads[t].ReloadStarting? ==> Harmless(s, r.value)
  {
    match s.threads[t]
    case ReloadCalled => LockForReload(s, t)
    case ReloadEntered => CheckOpen(s, t)
    case ReloadLoading => LoadCandidate(s, t, c)
    case ReloadStopping(id) => if c.InstanceAnswers? then Answer(s, t, id, c, ReloadObserving(id, c.result)) else None
    case ReloadObserving(id, r) => AwaitObserved(s, t, id, ReloadStopped(r))
    case ReloadStopped(r) => CheckStopped(s, t, r)
    case ReloadStarting => StartCandidate(s, t, c)
    case ReloadAdopting(id) => Adopt(s, t, id, c)
    case ReloadFailing(e, finishing) => FailReload(s, t, e, finishing)
    case _ => None
  }

  // ---------- Shutdown ----------

  function EnterOnce(s: State, t: Tid): (r: Option<State>)
    ensures r.Some? ==> Harmless(s, r.value)
  {
    match s.shutdownOnce
    case Idle => Some(At(s, t, ShutdownLocking).(shutdownOnce := Busy(t)))
    case Busy(_) => None
    case Finished => if s.shutdownDone then Some(At(s, t, Pc.ShutdownReturned(s.shutdownErr))) else None
  }

  function LockForShutdown(s: State, t: Tid): (r: Option<State>)
    ensures r.Some? ==> Harmless(s, r.value)
  {
    if s.mu.Some? then None else Some(At(s, t, ShutdownEntered).(mu := Some(t)))
  }

  function Close(s: State, t: Tid): (r: Option<State>)
    ensures r.Some? ==> Harmless(s, r.value)
  {
    var s' := s.(closed := true);
    if s.current.None? then Some(At(s', t, ShutdownFinishing(false))) else TakeCurrent(s', t, ShutdownStopping(s.current.value))
  }

  function AnswerShutdown(s: State, t: Tid, id: Id, c: Choice): (r: Option<State>)
    ensures r.Some? ==> Harmless(s, r.value)
  {
    if c.InstanceAnswers? then Answer(s.(shutdownErr := c.result), t, id, c, ShutdownObserving(id)) else None
  }

  function PublishShutdown(s: State, t: Tid): (r: Option<State>)
    ensures r.Some? ==> Harmless(s, r.value)
  {
    Some(At(s, t, Pc.ShutdownReturned(s.shutdownErr)).(shutdownDone := true, shutdownOnce := Finished))
  }

  function StepShutdown(s: State, t: Tid, c: Choice): (r: Option<State>)
    requires t in s.threads
    ensures r.Some? ==> Harmless(s, r.value)
  {
    match s.threads[t]
    case ShutdownCalled => EnterOnce(s, t)
    case ShutdownLocking => LockForShutdown(s, t)
    case ShutdownEntered => Close(s, t)
    case ShutdownStopping(id) => AnswerShutdown(s, t, id, c)
    case ShutdownObserving(id) => AwaitObserved(s, t, id, ShutdownFinishing(false))
    case ShutdownFinishing(finishing) => Finish(s, t, s.shutdownErr, finishing, ShutdownFinishing(true), ShutdownUnlocking)
    case ShutdownUnlocking => Some(At(s, t, ShutdownPublishing).(mu := None))
    case ShutdownPublishing => PublishShutdown(s, t)
    case _ => None
  }

  // ---------- watch ----------

  function AwaitDone(s: State, t: Tid, id: Id): (r: Option<State>)
    ensures r.Some? ==> Harmless(s, r.value)
  {
    if id >= |s.servers| || !s.servers[id].inst.done then None
    else if s.servers[id].inst.err.Some? then Some(At(s, t, WatchFailing(id, s.servers[id].inst.err.value, false)))
    else Some(At(s, t, WatchClosing(id)))
  }

  function CloseObserved(s: State, t: Tid, id: Id): (r: Option<State>)
    ensures r.Some? ==> Harmless(s, r.value)
  {
    if id >= |s.servers| then None
    else Some(At(s, t, WatchReturned).(servers := s.servers[id := s.servers[id].(observed := true)]))
  }

  function StepWatch(s: State, t: Tid): (r: Option<State>)
    requires t in s.threads
    ensures r.Some? ==> Harmless(s, r.value)
  {
    match s.threads[t]
    case WatchAwaiting(id) => AwaitDone(s, t, id)
    case WatchFailing(id, e, finishing) => Finish(s, t, Some(e), finishing, WatchFailing(id, e, true), WatchClosing(id))
    case WatchClosing(id) => CloseObserved(s, t, id)
    case _ => None
  }

  function StepThread(s: State, t: Tid, c: Choice): Option<State>
    requires t in s.threads
  {
    var pc := s.threads[t];
    if IsWatch(pc) then StepWatch(s, t)
    else if IsShutdown(pc) then StepShutdown(s, t, c)
    else StepReload(s, t, c)
  }

  predicate IsWatch(pc: Pc) {
    pc.WatchAwaiting? || pc.WatchFailing? || pc.WatchClosing? || pc.WatchReturned?
  }

  predicate IsShutdown(pc: Pc) {
    pc.ShutdownCalled? || pc.ShutdownLocking? || pc.ShutdownEntered? || pc.ShutdownStopping? || pc.ShutdownObserving?
    || pc.ShutdownFinishing? || pc.ShutdownUnlocking? || pc.ShutdownPublishing? || pc.ShutdownReturned?
  }

  /** None when the action is not possible in s (blocked, or no such thread). */
  function Step(s: State, a: Action): Option<State> {
    match a
    case CallReload(t) => if t in s.threads then None else Some(At(s, t, ReloadCalled))
    case CallShutdown(t) => if t in s.threads then None else Some(At(s, t, ShutdownCalled))
    case Run(t, c) => if t in s.threads then StepThread(s, t, c) else None
    case ServerEnds(id, err) =>
      if id >= |s.servers| then None else
      var ended := Apply(s.servers[id].inst, Ended(err));
      if ended.None? then None else Some(SetInst(s, id, ended.value))
  }

  function Exec(s: State, actions: seq<Action>): Option<State>
    decreases |actions|
  {
    if actions == [] then Some(s)
    else match Step(s, actions[0])
      case None => None
      case Some(s') => Exec(s', actions[1..])
  }

  // ---------- the invariant ----------

  predicate Holds(pc: Pc) {
    pc.ReloadEntered? || pc.ReloadLoading? || pc.ReloadStopping? || pc.ReloadObserving? || pc.ReloadStopped?
    || pc.ReloadStarting? || pc.ReloadAdopting? || pc.ReloadFailing?
    || pc.ShutdownEntered? || pc.ShutdownStopping? || pc.ShutdownObserving? || pc.ShutdownFinishing? || pc.ShutdownUnlocking?
  }

  /** The pcs that run inside shutdownOnce. */
  predicate RunsOnce(pc: Pc) {
    IsShutdown(pc) && !pc.ShutdownCalled? && !pc.ShutdownReturned?
  }

  /** The instance the mutex holder has taken out of, or not yet put into, `current`. */
  predicate HoldsInstance(pc: Pc, id: Id) {
    match pc
    case ReloadStopping(i) => i == id
    case ReloadObserving(i, _) => i == id
    case ReloadAdopting(i) => i == id
    case ShutdownStopping(i) => i == id
    case ShutdownObserving(i) => i == id
    case _ => false
  }

  predicate Drained(o: Owned) {
    o.inst.done && o.observed
  }

  ghost predicate Owner(s: State, id: Id) {
    s.current == Some(id) || (s.mu.Some? && s.mu.value in s.threads && HoldsInstance(s.threads[s.mu.value], id))
  }

  ghost predicate LockOk(s: State) {
    && (s.mu.Some? ==> s.mu.value in s.threads && Holds(s.threads[s.mu.value]))
    && (s.shutdownOnce.Busy? ==> s.shutdownOnce.owner in s.threads && RunsOnce(s.threads[s.shutdownOnce.owner]))
    && (s.once.Busy? ==> s.once.owner in s.threads && InFinish(s.threads[s.once.owner]))
  }

  ghost predicate OwnersOk(s: State) {
    && (forall id :: 0 <= id < |s.servers| && !Drained(s.servers[id]) ==> Owner(s, id))
    && (s.current.Some? ==> s.current.value < |s.servers| && s.servers[s.current.value].watcher.Some?
                            && s.servers[s.current.value].inst.shutdown.None?)
    && (forall id :: 0 <= id < |s.servers| && s.servers[id].watcher.Some? && !s.servers[id].observed ==>
          s.servers[id].watcher.value in s.threads && Watches(s.threads[s.servers[id].watcher.value], id))
  }

  predicate Watches(pc: Pc, id: Id) {
    match pc
    case WatchAwaiting(i) => i == id
    case WatchFailing(i, _, _) => i == id
    case WatchClosing(i) => i == id
    case _ => false
  }

  /** No terminal result yet, or one that is an error. */
  predicate NotYetNil(s: State) {
    s.once.Idle? || s.terminalErr.Some?
  }

  /** What holds for the thread at pc; `t` is its own name. */
  ghost predicate ThreadOk(s: State, t: Tid, pc: Pc) {
    && (Holds(pc) ==> s.mu == Some(t) && (pc.ReloadEntered? || pc.ShutdownEntered? || pc.ReloadLoading? || s.current.None?))
    && (RunsOnce(pc) ==> s.shutdownOnce == Busy(t))
    && (InFinish(pc) ==> s.once == Busy(t))
    && (if IsWatch(pc) then WatchOk(s, t, pc) else if IsShutdown(pc) then ShutdownOk(s, pc) else ReloadOk(s, pc))
  }

  ghost predicate ReloadOk(s: State, pc: Pc) {
    match pc
    case ReloadLoading => !s.closed && (s.current.None? ==> s.once.Idle?)
    case ReloadStopping(id) =>
      && !s.closed && id < |s.servers| && s.servers[id].inst.stopRequested
      && s.servers[id].inst.shutdown.None? && s.servers[id].watcher.Some?
    case ReloadObserving(id, r) =>
      !s.closed && id < |s.servers| && s.servers[id].inst.done && s.servers[id].inst.shutdown == Some(r) && s.servers[id].watcher.Some?
    case ReloadStopped(_) => !s.closed
    case ReloadStarting => !s.closed && s.once.Idle?
    case ReloadAdopting(id) =>
      && !s.closed && s.once.Idle? && id < |s.servers| && !s.servers[id].observed
      && s.servers[id].watcher.None? && s.servers[id].inst.shutdown.None?
    case ReloadFailing(_, finishing) => !s.closed
    case _ => true
  }

  ghost predicate ShutdownOk(s: State, pc: Pc) {
    match pc
    case ShutdownLocking => !s.closed && s.shutdownErr.None?
    case ShutdownEntered => !s.closed && s.shutdownErr.None?
    case ShutdownStopping(id) =>
      && s.closed && NotYetNil(s) && id < |s.servers| && s.servers[id].inst.stopRequested && s.shutdownErr.None?
      && s.servers[id].inst.shutdown.None? && s.servers[id].watcher.Some?
    case ShutdownObserving(id) =>
      && s.closed && NotYetNil(s) && id < |s.servers| && s.servers[id].inst.done
      && s.servers[id].inst.shutdown == Some(s.shutdownErr) && s.servers[id].watcher.Some?
    case ShutdownFinishing(finishing) => s.closed && (!finishing ==> NotYetNil(s))
    case ShutdownUnlocking => s.closed && s.once.Finished?
    case ShutdownPublishing => s.closed && s.once.Finished? && s.current.None?
    case ShutdownReturned(r) => s.shutdownDone && r == s.shutdownErr
    case _ => true
  }

  ghost predicate WatchOk(s: State, t: Tid, pc: Pc) {
    match pc
    case WatchAwaiting(id) => id < |s.servers| && !s.servers[id].observed && s.servers[id].watcher == Some(t)
    case WatchFailing(id, e, finishing) =>
      && id < |s.servers| && !s.servers[id].observed && s.servers[id].watcher == Some(t)
      && s.servers[id].inst.done && s.servers[id].inst.err == Some(e)
    case WatchClosing(id) =>
      && id < |s.servers| && !s.servers[id].observed && s.servers[id].watcher == Some(t)
      && s.servers[id].inst.done && (s.servers[id].inst.err.Some? ==> s.once.Finished?)
    case _ => true
  }

  ghost predicate ThreadsOk(s: State) {
    forall t :: t in s.threads ==> ThreadOk(s, t, s.threads[t])
  }

  predicate InFinish(pc: Pc) {
    match pc
    case ReloadFailing(_, finishing) => finishing
    case ShutdownFinishing(finishing) => finishing
    case WatchFailing(_, _, finishing) => finishing
    case _ => false
  }

  ghost predicate TerminalOk(s: State) {
    && (s.done <==> s.once.Finished?)
    && (s.once.Idle? ==> s.terminalErr.None?)
    && (s.shutdownDone <==> s.shutdownOnce.Finished?)
    && (s.shutdownOnce.Idle? ==> !s.closed && s.shutdownErr.None?)
    && (s.shutdownDone ==> s.closed && s.current.None? && s.once.Finished?)
    && (s.closed && s.current.Some? ==> false)
    // a nil result is only ever given by Shutdown, when every server and every shutdown ended well
    && (!NotYetNil(s) ==> s.closed && AllWell(s))
  }

  ghost predicate AllWell(s: State) {
    forall id :: 0 <= id < |s.servers| ==>
      Drained(s.servers[id]) && s.servers[id].inst.err.None?
      && (s.servers[id].inst.shutdown.Some? ==> s.servers[id].inst.shutdown.value.None?)
  }

  /** The mutex holder is on its way to record a shutdown error. */
  ghost predicate WillReport(s: State) {
    s.mu.Some? && s.mu.value in s.threads &&
    match s.threads[s.mu.value]
    case ReloadObserving(_, r) => r.Some?
    case ReloadStopped(r) => r.Some?
    case ReloadFailing(_, _) => true
    case ShutdownObserving(_) => s.shutdownErr.Some?
    case ShutdownFinishing(_) => s.shutdownErr.Some?
    case _ => false
  }

  /** No error is lost: once observed, a server's error is in the terminal result or was too late for it. */
  ghost predicate ErrorsOk(s: State) {
    forall id :: 0 <= id < |s.servers| ==>
      && (s.servers[id].observed && s.servers[id].inst.err.Some? ==> s.once.Finished?)
      && (s.servers[id].observed ==> s.servers[id].inst.done)
      && (s.servers[id].inst.shutdown.Some? && s.servers[id].inst.shutdown.value.Some? ==> s.once.Finished? || WillReport(s))
      && (s.servers[id].inst.shutdown.Some? ==> s.servers[id].inst.done)
  }

  ghost predicate Inv(s: State) {
    LockOk(s) && OwnersOk(s) && ThreadsOk(s) && TerminalOk(s) && ErrorsOk(s)
  }

  lemma InitOk()
    ensures Inv(INIT)
  {
  }

  // ---------- every step keeps the invariant, one lemma per kind of step ----------

  /** What a step of the mutex holder t leaves alone. */
  ghost predicate HolderStep(s: State, t: Tid, s': State) {
    && s.mu == Some(t) && (s'.mu == Some(t) || s'.mu.None?)
    && |s.servers| <= |s'.servers|
    && (forall id :: 0 <= id < |s.servers| ==>
          && s'.servers[id].observed == s.servers[id].observed
          && (s.servers[id].watcher.Some? ==> s'.servers[id].watcher == s.servers[id].watcher)
          && s'.servers[id].inst.done == s.servers[id].inst.done && s'.servers[id].inst.err == s.servers[id].inst.err)
    && (s'.once == s.once || (s.once.Idle? && s'.once == Busy(t)) || (s.once == Busy(t) && s'.once.Finished?))
    && s'.shutdownOnce == s.shutdownOnce && s'.shutdownDone == s.shutdownDone
    && (s.shutdownOnce != Busy(t) ==> s'.shutdownErr == s.shutdownErr && s'.closed == s.closed)
    && (s.closed ==> s'.closed && s'.current == s.current)
  }

  lemma OtherThreadKeeps(s: State, t: Tid, s': State, u: Tid)
    requires HolderStep(s, t, s') && TerminalOk(s) && u in s.threads && u != t && ThreadOk(s, u, s.threads[u])
    ensures ThreadOk(s', u, s.threads[u])
  {
  }

  lemma LockForReloadKeeps(s: State, t: Tid, s': State)
    requires Inv(s) && t in s.threads && s.threads[t].ReloadCalled? && LockForReload(s, t) == Some(s')
    ensures Inv(s')
  {
    forall u | u in s.threads && u != t ensures ThreadOk(s', u, s.threads[u]) {
      assert ThreadOk(s, u, s.threads[u]);
    }
  }

  lemma AnswerReloadThreads(s: State, t: Tid, id: Id, c: Choice, s': State)
    requires Inv(s) && t in s.threads && s.threads[t] == ReloadStopping(id) && c.InstanceAnswers?
    requires Answer(s, t, id, c, ReloadObserving(id, c.result)) == Some(s')
    ensures ThreadsOk(s')
  {
    assert HolderStep(s, t, s');
    forall u | u in s.threads && u != t ensures ThreadOk(s', u, s.threads[u]) {
      OtherThreadKeeps(s, t, s', u);
    }
  }

  lemma AnswerReloadKeeps(s: State, t: Tid, id: Id, c: Choice, s': State)
    requires Inv(s) && t in s.threads && s.threads[t] == ReloadStopping(id) && c.InstanceAnswers?
    requires Answer(s, t, id, c, ReloadObserving(id, c.result)) == Some(s')
    ensures Inv(s')
  {
    AnswerReloadThreads(s, t, id, c, s');
    assert ThreadOk(s, t, s.threads[t]);
  }

  lemma ObserveReloadThreads(s: State, t: Tid, id: Id, r: Option<Error>, s': State)
    requires Inv(s) && t in s.threads && s.threads[t] == ReloadObserving(id, r) && AwaitObserved(s, t, id, ReloadStopped(r)) == Some(s')
    ensures ThreadsOk(s')
  {
    assert HolderStep(s, t, s');
    forall u | u in s.threads && u != t ensures ThreadOk(s', u, s.threads[u]) {
      OtherThreadKeeps(s, t, s', u);
    }
  }

  lemma ObserveReloadKeeps(s: State, t: Tid, id: Id, r: Option<Error>, s': State)
    requires Inv(s) && t in s.threads && s.threads[t] == ReloadObserving(id, r) && AwaitObserved(s, t, id, ReloadStopped(r)) == Some(s')
    ensures Inv(s')
  {
    ObserveReloadThreads(s, t, id, r, s');
    assert ThreadOk(s, t, s.threads[t]);
  }

  lemma StartCandidateThreads(s: State, t: Tid, s': State)
    requires Inv(s) && t in s.threads && s.threads[t].ReloadStarting? && StartCandidate(s, t, Plain) == Some(s')
    ensures ThreadsOk(s')
  {
    assert HolderStep(s, t, s');
    forall u | u in s.threads && u != t ensures ThreadOk(s', u, s.threads[u]) {
      OtherThreadKeeps(s, t, s', u);
    }
  }

  lemma StartCandidateKeeps(s: State, t: Tid, s': State)
    requires Inv(s) && t in s.threads && s.threads[t].ReloadStarting? && StartCandidate(s, t, Plain) == Some(s')
    ensures Inv(s')
  {
    StartCandidateThreads(s, t, s');
    assert ThreadOk(s, t, s.threads[t]);
  }

  lemma AdoptOwners(s: State, t: Tid, id: Id, c: Choice, s': State)
    requires Inv(s) && t in s.threads && s.threads[t] == ReloadAdopting(id) && Adopt(s, t, id, c) == Some(s')
    ensures OwnersOk(s')
  {
  }

  lemma AdoptThreads(s: State, t: Tid, id: Id, c: Choice, s': State)
    requires Inv(s) && t in s.threads && s.threads[t] == ReloadAdopting(id) && Adopt(s, t, id, c) == Some(s')
    ensures ThreadsOk(s')
  {
    assert HolderStep(s, t, s');
    forall u | u in s.threads && u != t ensures ThreadOk(s', u, s.threads[u]) {
      OtherThreadKeeps(s, t, s', u);
    }
  }

  lemma AdoptKeeps(s: State, t: Tid, id: Id, c: Choice, s': State)
    requires Inv(s) && t in s.threads && s.threads[t] == ReloadAdopting(id) && Adopt(s, t, id, c) == Some(s')
    ensures Inv(s')
  {
    AdoptOwners(s, t, id, c, s');
    AdoptThreads(s, t, id, c, s');
  }

  lemma BeginReloadFailThreads(s: State, t: Tid, e: Error, s': State)
    requires Inv(s) && t in s.threads && s.threads[t] == ReloadFailing(e, false) && s.once.Idle?
    requires s' == At(s, t, ReloadFailing(e, true)).(once := Busy(t), terminalErr := Some(e))
    ensures ThreadsOk(s')
  {
    assert HolderStep(s, t, s');
    forall u | u in s.threads && u != t ensures ThreadOk(s', u, s.threads[u]) {
      OtherThreadKeeps(s, t, s', u);
    }
  }

  lemma BeginReloadFailKeeps(s: State, t: Tid, e: Error, s': State)
    requires Inv(s) && t in s.threads && s.threads[t] == ReloadFailing(e, false) && s.once.Idle?
    requires s' == At(s, t, ReloadFailing(e, true)).(once := Busy(t), terminalErr := Some(e))
    ensures Inv(s')
  {
    BeginReloadFailThreads(s, t, e, s');
    assert ThreadOk(s, t, s.threads[t]);
  }

  lemma EndReloadFailThreads(s: State, t: Tid, e: Error, s': State)
    requires Inv(s) && t in s.threads && s.threads[t] == ReloadFailing(e, true)
    requires s' == At(s, t, ReloadReturned(Some(e))).(done := true, once := Finished, mu := None)
    ensures ThreadsOk(s')
  {
    assert HolderStep(s, t, s');
    forall u | u in s.threads && u != t ensures ThreadOk(s', u, s.threads[u]) {
      OtherThreadKeeps(s, t, s', u);
    }
  }

  lemma EndReloadFailKeeps(s: State, t: Tid, e: Error, s': State)
    requires Inv(s) && t in s.threads && s.threads[t] == ReloadFailing(e, true)
    requires s' == At(s, t, ReloadReturned(Some(e))).(done := true, once := Finished, mu := None)
    ensures Inv(s')
  {
    EndReloadFailThreads(s, t, e, s');
    assert ThreadOk(s, t, s.threads[t]);
  }

  lemma FailReloadKeeps(s: State, t: Tid, e: Error, finishing: bool, s': State)
    requires Inv(s) && t in s.threads && s.threads[t] == ReloadFailing(e, finishing) && FailReload(s, t, e, finishing) == Some(s')
    ensures Inv(s')
  {
    if finishing { EndReloadFailKeeps(s, t, e, s'); }
    else if s.once.Idle? { BeginReloadFailKeeps(s, t, e, s'); }
    else { LeaveKeeps(s, t, Some(e)); }
  }

  lemma EnterOnceThreads(s: State, t: Tid, s': State)
    requires LockOk(s) && ThreadsOk(s) && TerminalOk(s)
    requires t in s.threads && s.threads[t].ShutdownCalled? && EnterOnce(s, t) == Some(s')
    ensures ThreadsOk(s')
  {
    forall u | u in s.threads && u != t ensures ThreadOk(s', u, s.threads[u]) {
      assert ThreadOk(s, u, s.threads[u]);
    }
  }

  lemma EnterOnceKeeps(s: State, t: Tid, s': State)
    requires Inv(s) && t in s.threads && s.threads[t].ShutdownCalled? && EnterOnce(s, t) == Some(s')
    ensures Inv(s')
  {
    EnterOnceThreads(s, t, s');
    assert ThreadOk(s, t, s.threads[t]);
    OwnersStay(s, t, s');
  }

  lemma LockForShutdownKeeps(s: State, t: Tid, s': State)
    requires Inv(s) && t in s.threads && s.threads[t].ShutdownLocking? && LockForShutdown(s, t) == Some(s')
    ensures Inv(s')
  {
    forall u | u in s.threads && u != t ensures ThreadOk(s', u, s.threads[u]) {
      assert ThreadOk(s, u, s.threads[u]);
    }
  }

  lemma AnswerShutdownThreads(s: State, t: Tid, id: Id, c: Choice, s': State)
    requires Inv(s) && t in s.threads && s.threads[t] == ShutdownStopping(id) && AnswerShutdown(s, t, id, c) == Some(s')
    ensures ThreadsOk(s')
  {
    assert HolderStep(s, t, s');
    forall u | u in s.threads && u != t ensures ThreadOk(s', u, s.threads[u]) {
      OtherThreadKeeps(s, t, s', u);
    }
  }

  lemma AnswerShutdownKeeps(s: State, t: Tid, id: Id, c: Choice, s': State)
    requires Inv(s) && t in s.threads && s.threads[t] == ShutdownStopping(id) && AnswerShutdown(s, t, id, c) == Some(s')
    ensures Inv(s')
  {
    AnswerShutdownThreads(s, t, id, c, s');
    assert ThreadOk(s, t, s.threads[t]);
  }

  lemma ObserveShutdownThreads(s: State, t: Tid, id: Id, s': State)
    requires Inv(s) && t in s.threads && s.threads[t] == ShutdownObserving(id)
    requires AwaitObserved(s, t, id, ShutdownFinishing(false)) == Some(s')
    ensures ThreadsOk(s')
  {
    assert HolderStep(s, t, s');
    forall u | u in s.threads && u != t ensures ThreadOk(s', u, s.threads[u]) {
      OtherThreadKeeps(s, t, s', u);
    }
  }

  lemma ObserveShutdownKeeps(s: State, t: Tid, id: Id, s': State)
    requires Inv(s) && t in s.threads && s.threads[t] == ShutdownObserving(id)
    requires AwaitObserved(s, t, id, ShutdownFinishing(false)) == Some(s')
    ensures Inv(s')
  {
    ObserveShutdownThreads(s, t, id, s');
    assert ThreadOk(s, t, s.threads[t]);
  }

  lemma FinishShutdownThreads(s: State, t: Tid, finishing: bool, s': State)
    requires Inv(s) && t in s.threads && s.threads[t] == ShutdownFinishing(finishing)
    requires Finish(s, t, s.shutdownErr, finishing, ShutdownFinishing(true), ShutdownUnlocking) == Some(s')
    ensures ThreadsOk(s')
  {
    assert HolderStep(s, t, s');
    forall u | u in s.threads && u != t ensures ThreadOk(s', u, s.threads[u]) {
      OtherThreadKeeps(s, t, s', u);
    }
  }

  lemma FinishShutdownKeeps(s: State, t: Tid, finishing: bool, s': State)
    requires Inv(s) && t in s.threads && s.threads[t] == ShutdownFinishing(finishing)
    requires Finish(s, t, s.shutdownErr, finishing, ShutdownFinishing(true), ShutdownUnlocking) == Some(s')
    ensures Inv(s')
  {
    FinishShutdownThreads(s, t, finishing, s');
    assert ThreadOk(s, t, s.threads[t]);
  }

  lemma UnlockThreads(s: State, t: Tid, s': State)
    requires Inv(s) && t in s.threads && s.threads[t].ShutdownUnlocking? && Some(At(s, t, ShutdownPublishing).(mu := None)) == Some(s')
    ensures ThreadsOk(s')
  {
    assert HolderStep(s, t, s');
    forall u | u in s.threads && u != t ensures ThreadOk(s', u, s.threads[u]) {
      OtherThreadKeeps(s, t, s', u);
    }
  }

  lemma UnlockKeeps(s: State, t: Tid, s': State)
    requires Inv(s) && t in s.threads && s.threads[t].ShutdownUnlocking? && Some(At(s, t, ShutdownPublishing).(mu := None)) == Some(s')
    ensures Inv(s')
  {
    UnlockThreads(s, t, s');
    assert ThreadOk(s, t, s.threads[t]);
  }

  lemma PublishShutdownThreads(s: State, t: Tid, s': State)
    requires Inv(s) && t in s.threads && s.threads[t].ShutdownPublishing? && PublishShutdown(s, t) == Some(s')
    ensures ThreadsOk(s')
  {
    forall u | u in s.threads && u != t ensures ThreadOk(s', u, s.threads[u]) {
      assert ThreadOk(s, u, s.threads[u]);
    }
  }

  lemma PublishShutdownKeeps(s: State, t: Tid, s': State)
    requires Inv(s) && t in s.threads && s.threads[t].ShutdownPublishing? && PublishShutdown(s, t) == Some(s')
    ensures Inv(s')
  {
    PublishShutdownThreads(s, t, s');
    assert ThreadOk(s, t, s.threads[t]);
  }

  ghost predicate MayLeave(s: State, t: Tid) {
    && t in s.threads
    && (s.threads[t].ReloadEntered? || s.threads[t].ReloadLoading? || s.threads[t] == ReloadStopped(None)
        || (s.threads[t].ReloadFailing? && !s.threads[t].finishing && s.once.Finished?))
  }

  lemma LeaveThreads(s: State, t: Tid, result: Option<Error>)
    requires Inv(s) && MayLeave(s, t)
    ensures ThreadsOk(Leave(s, t, result))
  {
    var s' := Leave(s, t, result);
    forall u | u in s.threads && u != t ensures ThreadOk(s', u, s.threads[u]) {
      OtherThreadKeeps(s, t, s', u);
    }
  }

  /** Reload gives up and unlocks with nothing in hand. */
  lemma LeaveKeeps(s: State, t: Tid, result: Option<Error>)
    requires Inv(s) && MayLeave(s, t)
    ensures Inv(Leave(s, t, result))
  {
    LeaveThreads(s, t, result);
    assert ThreadOk(s, t, s.threads[t]);
  }

  /** Only the pc of a lock holder that holds no instance changes. */
  lemma HolderPcKeeps(s: State, t: Tid, pc: Pc)
    requires Inv(s) && t in s.threads && Holds(s.threads[t]) && Holds(pc) && ThreadOk(s, t, pc)
    requires forall id :: !HoldsInstance(s.threads[t], id)
    requires !InFinish(s.threads[t]) && RunsOnce(s.threads[t]) == RunsOnce(pc) && !IsWatch(pc)
    requires WillReport(s) ==> WillReport(At(s, t, pc))
    ensures Inv(At(s, t, pc))
  {
    var s' := At(s, t, pc);
    forall u | u in s.threads && u != t ensures ThreadOk(s', u, s.threads[u]) {
      OtherThreadKeeps(s, t, s', u);
    }
  }

  lemma TakeCurrentThreads(s: State, t: Tid, pc: Pc, s': State)
    requires Inv(s) && t in s.threads && s.current.Some? && TakeCurrent(s, t, pc) == Some(s')
    requires s.threads[t].ReloadLoading? && pc == ReloadStopping(s.current.value)
    ensures ThreadsOk(s')
  {
    assert HolderStep(s, t, s');
    forall u | u in s.threads && u != t ensures ThreadOk(s', u, s.threads[u]) {
      OtherThreadKeeps(s, t, s', u);
    }
  }

  lemma TakeCurrentKeeps(s: State, t: Tid, pc: Pc, s': State)
    requires Inv(s) && t in s.threads && s.current.Some? && TakeCurrent(s, t, pc) == Some(s')
    requires s.threads[t].ReloadLoading? && pc == ReloadStopping(s.current.value)
    ensures Inv(s')
  {
    TakeCurrentThreads(s, t, pc, s');
    assert ThreadOk(s, t, s.threads[t]);
  }

  lemma TakeForShutdownThreads(s: State, t: Tid, s': State)
    requires Inv(s) && t in s.threads && s.current.Some? && s.threads[t].ShutdownEntered?
    requires TakeCurrent(s.(closed := true), t, ShutdownStopping(s.current.value)) == Some(s')
    ensures ThreadsOk(s')
  {
    assert HolderStep(s, t, s');
    forall u | u in s.threads && u != t ensures ThreadOk(s', u, s.threads[u]) {
      OtherThreadKeeps(s, t, s', u);
    }
  }

  lemma TakeForShutdownKeeps(s: State, t: Tid, s': State)
    requires Inv(s) && t in s.threads && s.current.Some? && s.threads[t].ShutdownEntered?
    requires TakeCurrent(s.(closed := true), t, ShutdownStopping(s.current.value)) == Some(s')
    ensures Inv(s')
  {
    TakeForShutdownThreads(s, t, s');
    assert ThreadOk(s, t, s.threads[t]);
  }

  lemma CloseEmptyKeeps(s: State, t: Tid)
    requires Inv(s) && t in s.threads && s.current.None? && s.threads[t].ShutdownEntered?
    ensures Inv(At(s.(closed := true), t, ShutdownFinishing(false)))
  {
    var s' := At(s.(closed := true), t, ShutdownFinishing(false));
    forall u | u in s.threads && u != t ensures ThreadOk(s', u, s.threads[u]) {
      OtherThreadKeeps(s, t, s', u);
    }
  }

  /** Servers and ownership stay, whatever else a watcher's step does. */
  ghost predicate SameHolders(s: State, t: Tid, s': State) {
    && s'.servers == s.servers && s'.current == s.current && s'.mu == s.mu && s.mu != Some(t)
    && s'.shutdownErr == s.shutdownErr
    && (forall u :: u in s.threads ==> u in s'.threads && (u != t ==> s'.threads[u] == s.threads[u]))
  }

  lemma OwnersStay(s: State, t: Tid, s': State)
    requires LockOk(s) && OwnersOk(s) && SameHolders(s, t, s')
    requires t in s.threads ==> forall id :: Watches(s.threads[t], id) ==> Watches(s'.threads[t], id)
    ensures OwnersOk(s') && (WillReport(s) ==> WillReport(s'))
  {
    assert forall i :: Owner(s, i) ==> Owner(s', i);
  }

  lemma WatcherThreadsKeep(s: State, t: Tid, pc: Pc)
    requires ThreadsOk(s)
    ensures forall u :: u in s.threads && u != t ==> ThreadOk(At(s, t, pc), u, s.threads[u])
  {
    forall u | u in s.threads && u != t ensures ThreadOk(At(s, t, pc), u, s.threads[u]) {
      assert ThreadOk(s, u, s.threads[u]);
    }
  }

  /** Only the pc of a watcher changes, and it keeps watching the same instance. */
  lemma WatcherPcKeeps(s: State, t: Tid, id: Id, pc: Pc)
    requires Inv(s) && t in s.threads && Watches(s.threads[t], id) && Watches(pc, id)
    requires !InFinish(s.threads[t]) && ThreadOk(s, t, pc)
    ensures Inv(At(s, t, pc))
  {
    WatchedIsOwned(s, t, id);
    WatcherThreadsKeep(s, t, pc);
    OwnersStay(s, t, At(s, t, pc));
  }

  /** While an instance is watched the mutex holder cannot be between two servers. */
  lemma WatchedIsOwned(s: State, t: Tid, id: Id)
    requires Inv(s) && t in s.threads && Watches(s.threads[t], id)
    ensures s.mu != Some(t) && s.shutdownOnce != Busy(t) && NotYetNil(s)
    ensures s.mu.Some? ==> s.mu.value in s.threads && !s.threads[s.mu.value].ReloadStarting? && !s.threads[s.mu.value].ReloadAdopting?
                           && (s.threads[s.mu.value].ReloadLoading? ==> s.current.Some?)
  {
    assert ThreadOk(s, t, s.threads[t]);
    assert Owner(s, id);
  }

  lemma BeginFailKeeps(s: State, t: Tid, id: Id, e: Error, s': State)
    requires Inv(s) && t in s.threads && s.threads[t] == WatchFailing(id, e, false) && s.once.Idle?
    requires s' == At(s, t, WatchFailing(id, e, true)).(once := Busy(t), terminalErr := Some(e))
    ensures Inv(s')
  {
    WatchedIsOwned(s, t, id);
    OwnersStay(s, t, s');
    forall u | u in s'.threads ensures ThreadOk(s', u, s'.threads[u]) {
      FinishingThread(s, t, id, s', u);
    }
  }

  lemma EndFailKeeps(s: State, t: Tid, id: Id, e: Error, s': State)
    requires Inv(s) && t in s.threads && s.threads[t] == WatchFailing(id, e, true)
    requires s' == At(s, t, WatchClosing(id)).(done := true, once := Finished)
    ensures Inv(s')
  {
    WatchedIsOwned(s, t, id);
    OwnersStay(s, t, s');
    forall u | u in s'.threads ensures ThreadOk(s', u, s'.threads[u]) {
      FinishingThread(s, t, id, s', u);
    }
  }

  /** A watcher that begins or ends its finish leaves every thread well. */
  lemma FinishingThread(s: State, t: Tid, id: Id, s': State, u: Tid)
    requires Inv(s) && t in s.threads && s.threads[t].WatchFailing? && s.threads[t].id == id && u in s.threads
    requires var e := s.threads[t].err;
             if s.threads[t].finishing then s' == At(s, t, WatchClosing(id)).(done := true, once := Finished)
             else s.once.Idle? && s' == At(s, t, WatchFailing(id, e, true)).(once := Busy(t), terminalErr := Some(e))
    ensures ThreadOk(s', u, s'.threads[u])
  {
    WatchedIsOwned(s, t, id);
    assert ThreadOk(s, u, s.threads[u]);
  }

  lemma CloseObservedThread(s: State, t: Tid, id: Id, s': State, u: Tid)
    requires Inv(s) && t in s.threads && s.threads[t] == WatchClosing(id) && CloseObserved(s, t, id) == Some(s')
    requires u in s.threads && u != t
    ensures ThreadOk(s', u, s.threads[u])
  {
    WatchedIsOwned(s, t, id);
    assert ThreadOk(s, t, s.threads[t]) && ThreadOk(s, u, s.threads[u]);
  }

  lemma CloseObservedThreads(s: State, t: Tid, id: Id, s': State)
    requires Inv(s) && t in s.threads && s.threads[t] == WatchClosing(id) && CloseObserved(s, t, id) == Some(s')
    ensures ThreadsOk(s')
  {
    forall u | u in s'.threads ensures ThreadOk(s', u, s'.threads[u]) {
      if u != t {
        CloseObservedThread(s, t, id, s', u);
      }
    }
  }

  lemma CloseObservedOwners(s: State, t: Tid, id: Id, s': State)
    requires Inv(s) && t in s.threads && s.threads[t] == WatchClosing(id) && CloseObserved(s, t, id) == Some(s')
    ensures OwnersOk(s')
  {
    WatchedIsOwned(s, t, id);
    assert forall i :: Owner(s, i) ==> Owner(s', i);
  }

  lemma CloseObservedKeeps(s: State, t: Tid, id: Id, s': State)
    requires Inv(s) && t in s.threads && s.threads[t] == WatchClosing(id) && CloseObserved(s, t, id) == Some(s')
    ensures Inv(s')
  {
    WatchedIsOwned(s, t, id);
    CloseObservedThreads(s, t, id, s');
    CloseObservedOwners(s, t, id, s');
    assert ThreadOk(s, t, s.threads[t]);
  }

  lemma LoadCandidateKeeps(s: State, t: Tid, c: Choice, s': State)
    requires Inv(s) && t in s.threads && s.threads[t].ReloadLoading? && LoadCandidate(s, t, c) == Some(s')
    ensures Inv(s')
  {
    if c.LoadFails? {
      if s.current.None? { HolderPcKeeps(s, t, ReloadFailing(c.err, false)); } else { LeaveKeeps(s, t, Some(c.err)); }
    } else if s.current.None? {
      HolderPcKeeps(s, t, ReloadStarting);
    } else {
      TakeCurrentKeeps(s, t, ReloadStopping(s.current.value), s');
    }
  }

  lemma CheckOpenKeeps(s: State, t: Tid, s': State)
    requires Inv(s) && t in s.threads && s.threads[t].ReloadEntered? && CheckOpen(s, t) == Some(s')
    ensures Inv(s')
  {
    if s.closed { LeaveKeeps(s, t, Some(SupervisorClosed)); }
    else if s.terminalErr.Some? { LeaveKeeps(s, t, s.terminalErr); }
    else { NothingPending(s, t); HolderPcKeeps(s, t, ReloadLoading); }
  }

  lemma CheckStoppedKeeps(s: State, t: Tid, r: Option<Error>, s': State)
    requires Inv(s) && t in s.threads && s.threads[t] == ReloadStopped(r) && CheckStopped(s, t, r) == Some(s')
    ensures Inv(s')
  {
    if r.Some? { HolderPcKeeps(s, t, ReloadFailing(r.value, false)); }
    else if s.terminalErr.Some? { LeaveKeeps(s, t, s.terminalErr); }
    else { NothingPending(s, t); HolderPcKeeps(s, t, ReloadStarting); }
  }

  lemma ReloadKeeps(s: State, t: Tid, c: Choice, s': State)
    requires Inv(s) && t in s.threads && !IsWatch(s.threads[t]) && !IsShutdown(s.threads[t]) && StepReload(s, t, c) == Some(s')
    ensures Inv(s')
  {
    match s.threads[t]
    case ReloadCalled => LockForReloadKeeps(s, t, s');
    case ReloadEntered => CheckOpenKeeps(s, t, s');
    case ReloadLoading => LoadCandidateKeeps(s, t, c, s');
    case ReloadStopping(id) => AnswerReloadKeeps(s, t, id, c, s');
    case ReloadObserving(id, r) => ObserveReloadKeeps(s, t, id, r, s');
    case ReloadStopped(r) => CheckStoppedKeeps(s, t, r, s');
    case ReloadStarting =>
      if c.FactoryFails? { HolderPcKeeps(s, t, ReloadFailing(c.err, false)); }
      else if c.FactoryReturnsNil? { HolderPcKeeps(s, t, ReloadFailing(NilServer, false)); }
      else { StartCandidateKeeps(s, t, s'); }
    case ReloadAdopting(id) => AdoptKeeps(s, t, id, c, s');
    case ReloadFailing(e, finishing) => FailReloadKeeps(s, t, e, finishing, s');
    case _ =>
  }

  /** With the mutex held, no instance in hand and no error recorded, nobody is inside finish. */
  lemma NothingPending(s: State, t: Tid)
    requires Inv(s) && t in s.threads && s.terminalErr.None?
    requires (s.threads[t].ReloadEntered? && !s.closed) || s.threads[t] == ReloadStopped(None)
    ensures s.current.None? ==> s.once.Idle?
  {
    assert ThreadOk(s, t, s.threads[t]);
  }

  lemma ShutdownKeeps(s: State, t: Tid, c: Choice, s': State)
    requires Inv(s) && t in s.threads && IsShutdown(s.threads[t]) && StepShutdown(s, t, c) == Some(s')
    ensures Inv(s')
  {
    match s.threads[t]
    case ShutdownCalled => EnterOnceKeeps(s, t, s');
    case ShutdownLocking => LockForShutdownKeeps(s, t, s');
    case ShutdownEntered => if s.current.None? { CloseEmptyKeeps(s, t); } else { TakeForShutdownKeeps(s, t, s'); }
    case ShutdownStopping(id) => AnswerShutdownKeeps(s, t, id, c, s');
    case ShutdownObserving(id) => ObserveShutdownKeeps(s, t, id, s');
    case ShutdownFinishing(finishing) => FinishShutdownKeeps(s, t, finishing, s');
    case ShutdownUnlocking => UnlockKeeps(s, t, s');
    case ShutdownPublishing => PublishShutdownKeeps(s, t, s');
    case _ =>
  }

  lemma WatchKeeps(s: State, t: Tid, s': State)
    requires Inv(s) && t in s.threads && IsWatch(s.threads[t]) && StepWatch(s, t) == Some(s')
    ensures Inv(s')
  {
    assert ThreadOk(s, t, s.threads[t]);
    match s.threads[t]
    case WatchAwaiting(id) => WatcherPcKeeps(s, t, id, s'.threads[t]);
    case WatchFailing(id, e, finishing) =>
      if finishing { EndFailKeeps(s, t, id, e, s'); }
      else if s.once.Idle? { BeginFailKeeps(s, t, id, e, s'); }
      else { WatcherPcKeeps(s, t, id, WatchClosing(id)); }
    case WatchClosing(id) => CloseObservedKeeps(s, t, id, s');
    case _ =>
  }

  lemma CallKeeps(s: State, t: Tid, pc: Pc)
    requires Inv(s) && t !in s.threads && (pc.ReloadCalled? || pc.ShutdownCalled?)
    ensures Inv(At(s, t, pc))
  {
    WatcherThreadsKeep(s, t, pc);
    OwnersStay(s, t, At(s, t, pc));
  }

  lemma EndsKeeps(s: State, id: Id, err: Option<Error>, s': State)
    requires Inv(s) && Step(s, ServerEnds(id, err)) == Some(s')
    ensures Inv(s')
  {
    assert Owner(s, id);
    assert forall i :: Owner(s, i) ==> Owner(s', i);
    forall u | u in s.threads ensures ThreadOk(s', u, s.threads[u]) {
      assert ThreadOk(s, u, s.threads[u]);
    }
  }

  lemma StepKeeps(s: State, a: Action, s': State)
    requires Inv(s) && Step(s, a) == Some(s')
    ensures Inv(s')
  {
    match a
    case CallReload(t) => CallKeeps(s, t, ReloadCalled);
    case CallShutdown(t) => CallKeeps(s, t, ShutdownCalled);
    case Run(t, c) =>
      if IsWatch(s.threads[t]) { WatchKeeps(s, t, s'); }
      else if IsShutdown(s.threads[t]) { ShutdownKeeps(s, t, c, s'); }
      else { ReloadKeeps(s, t, c, s'); }
    case ServerEnds(id, err) => EndsKeeps(s, id, err, s');
  }

  lemma {:induction false} ExecKeeps(s: State, actions: seq<Action>, s': State)
    requires Inv(s) && Exec(s, actions) == Some(s')
    ensures Inv(s')
    decreases |actions|
  {
    if actions != [] {
      StepKeeps(s, actions[0], Step(s, actions[0]).value);
      ExecKeeps(Step(s, actions[0]).value, actions[1..], s');
    }
  }

  // ---------- the theorems ----------

  /** In every reachable state at most one started server is not yet ended and observed to be so. */
  lemma AtMostOneLive(actions: seq<Action>, s: State, i: Id, j: Id)
    requires Exec(INIT, actions) == Some(s)
    requires i < |s.servers| && j < |s.servers| && !Drained(s.servers[i]) && !Drained(s.servers[j])
    ensures i == j
  {
    InitOk();
    ExecKeeps(INIT, actions, s);
    if s.mu.Some? {
      assert ThreadOk(s, s.mu.value, s.threads[s.mu.value]);
    }
    assert Owner(s, i) && Owner(s, j);
  }

  /** The factory runs, whatever comes of it, only when every earlier server has ended and been observed, no terminal
      result has been recorded, and the supervisor is open. */
  lemma FactoryRunsDrained(actions: seq<Action>, s: State, t: Tid)
    requires Exec(INIT, actions) == Some(s) && t in s.threads && s.threads[t].ReloadStarting?
    ensures !s.closed && s.once.Idle? && !s.done && s.terminalErr.None?
    ensures forall i :: 0 <= i < |s.servers| ==> Drained(s.servers[i])
  {
    InitOk();
    ExecKeeps(INIT, actions, s);
    assert ThreadOk(s, t, s.threads[t]);
    forall i | 0 <= i < |s.servers| ensures Drained(s.servers[i]) {
      assert !Drained(s.servers[i]) ==> Owner(s, i);
    }
  }

  /** So a server is started only then, one at a time. */
  lemma StartsOnlyAfterDrain(actions: seq<Action>, s: State, a: Action, s': State)
    requires Exec(INIT, actions) == Some(s) && Step(s, a) == Some(s')
    requires |s'.servers| != |s.servers|
    ensures |s'.servers| == |s.servers| + 1 && !s.closed && s.once.Idle? && !s.done && s.terminalErr.None?
    ensures forall i :: 0 <= i < |s.servers| ==> Drained(s.servers[i])
    ensures s'.servers == s.servers + [Owned(FRESH, false, None)]
  {
    OnlyTheFactoryStarts(s, a.t, a.choice, s');
    FactoryRunsDrained(actions, s, a.t);
  }

  lemma OnlyTheFactoryStarts(s: State, t: Tid, c: Choice, s': State)
    requires t in s.threads && StepThread(s, t, c) == Some(s') && !Harmless(s, s')
    ensures s.threads[t].ReloadStarting? && StartCandidate(s, t, c) == Some(s')
  {
  }

  /** Once a finish has begun the number of servers is fixed, and the terminal error with it. */
  lemma TerminalStep(s: State, a: Action, s': State)
    requires Inv(s) && Step(s, a) == Some(s') && !s.once.Idle?
    ensures !s'.once.Idle? && s'.terminalErr == s.terminalErr && |s'.servers| == |s.servers| && (s.done ==> s'.done)
  {
    if a.Run? {
      assert ThreadOk(s, a.t, s.threads[a.t]);
      if !Harmless(s, s') {
        OnlyTheFactoryStarts(s, a.t, a.choice, s');
        assert false;
      }
    }
  }

  lemma {:induction false} TerminalIsFinal(s: State, actions: seq<Action>, s': State)
    requires Inv(s) && Exec(s, actions) == Some(s') && !s.once.Idle?
    ensures !s'.once.Idle? && s'.terminalErr == s.terminalErr && |s'.servers| == |s.servers| && (s.done ==> s'.done)
    decreases |actions|
  {
    if actions != [] {
      var s1 := Step(s, actions[0]).value;
      StepKeeps(s, actions[0], s1);
      TerminalStep(s, actions[0], s1);
      TerminalIsFinal(s1, actions[1..], s');
    }
  }

  /** After Done closes, Err never changes and no server is ever started again. */
  lemma ErrStableAfterDone(before: seq<Action>, s: State, after: seq<Action>, s': State)
    requires Exec(INIT, before) == Some(s) && s.done && Exec(s, after) == Some(s')
    ensures s'.done && s'.terminalErr == s.terminalErr && |s'.servers| == |s.servers|
  {
    InitOk();
    ExecKeeps(INIT, before, s);
    TerminalIsFinal(s, after, s');
  }

  /** A nil result means that everything ever started ended well, and so did every supervisor-issued shutdown. */
  lemma NilResultMeansAllWell(actions: seq<Action>, s: State)
    requires Exec(INIT, actions) == Some(s) && s.done && s.terminalErr.None?
    ensures s.closed && AllWell(s)
  {
    InitOk();
    ExecKeeps(INIT, actions, s);
  }

  /** When any Shutdown call has returned: the supervisor is terminal, nothing runs, nothing will be
      started by anyone, and every Shutdown call returns the same error. */
  lemma ShutdownReturnsDrained(before: seq<Action>, s: State, t: Tid, after: seq<Action>, s': State, u: Tid)
    requires Exec(INIT, before) == Some(s) && t in s.threads && s.threads[t].ShutdownReturned?
    requires Exec(s, after) == Some(s') && u in s'.threads && s'.threads[u].ShutdownReturned?
    ensures s.done && s'.servers == s.servers && s'.terminalErr == s.terminalErr
    ensures forall i :: 0 <= i < |s'.servers| ==> Drained(s'.servers[i])
    ensures s'.threads[u] == s.threads[t]
  {
    InitOk();
    ExecKeeps(INIT, before, s);
    assert ThreadOk(s, t, s.threads[t]);
    ClosedForGood(s, after, s');
    assert ThreadOk(s', u, s'.threads[u]);
  }

  lemma ClosedStep(s: State, a: Action, s': State)
    requires Inv(s) && s.shutdownDone && Step(s, a) == Some(s')
    ensures s'.shutdownDone && s'.shutdownErr == s.shutdownErr && s'.servers == s.servers
    ensures forall i :: 0 <= i < |s.servers| ==> Drained(s.servers[i])
  {
    AllDrainedWhenClosed(s);
    if a.Run? {
      assert ThreadOk(s, a.t, s.threads[a.t]);
    }
  }

  lemma AllDrainedWhenClosed(s: State)
    requires Inv(s) && s.shutdownDone
    ensures forall i :: 0 <= i < |s.servers| ==> Drained(s.servers[i])
  {
    if s.mu.Some? {
      assert ThreadOk(s, s.mu.value, s.threads[s.mu.value]);
    }
    forall i | 0 <= i < |s.servers| ensures Drained(s.servers[i]) {
      assert !Drained(s.servers[i]) ==> Owner(s, i);
    }
  }

  lemma {:induction false} ClosedForGood(s: State, actions: seq<Action>, s': State)
    requires Inv(s) && s.shutdownDone && Exec(s, actions) == Some(s')
    ensures Inv(s') && s'.shutdownDone && s'.shutdownErr == s.shutdownErr && s'.servers == s.servers && s'.terminalErr == s.terminalErr
    ensures forall i :: 0 <= i < |s.servers| ==> Drained(s.servers[i])
    decreases |actions|
  {
    AllDrainedWhenClosed(s);
    if actions != [] {
      var s1 := Step(s, actions[0]).value;
      StepKeeps(s, actions[0], s1);
      TerminalStep(s, actions[0], s1);
      ClosedStep(s, actions[0], s1);
      ClosedForGood(s1, actions[1..], s');
    }
  }

  // ---------- nobody is stuck ----------

  predicate Returned(pc: Pc) {
    pc.ReloadReturned? || pc.ShutdownReturned? || pc.WatchReturned?
  }

  /** a is possible, and it is a move of a goroutine that exists, or the end of a server that was asked to stop. */
  ghost predicate Moves(s: State, a: Action) {
    && Step(s, a).Some?
    && (a.Run? || (a.ServerEnds? && a.id < |s.servers| && s.servers[a.id].inst.stopRequested))
  }

  lemma FinisherMoves(s: State) returns (a: Action)
    requires Inv(s) && s.once.Busy?
    ensures Moves(s, a)
  {
    a := Run(s.once.owner, Plain);
    assert ThreadOk(s, s.once.owner, s.threads[s.once.owner]);
  }

  lemma WatcherMoves(s: State, id: Id) returns (a: Action)
    requires Inv(s) && id < |s.servers| && s.servers[id].watcher.Some? && !s.servers[id].observed && s.servers[id].inst.done
    ensures Moves(s, a)
  {
    var w := s.servers[id].watcher.value;
    assert Watches(s.threads[w], id) && ThreadOk(s, w, s.threads[w]);
    if s.once.Busy? {
      a := FinisherMoves(s);
    } else {
      a := Run(w, Plain);
    }
  }

  lemma InstanceMoves(s: State, t: Tid, id: Id) returns (a: Action)
    requires Inv(s) && t in s.threads && id < |s.servers|
    requires s.threads[t] == ReloadStopping(id) || s.threads[t] == ShutdownStopping(id)
    ensures Moves(s, a)
  {
    assert ThreadOk(s, t, s.threads[t]);
    a := if s.servers[id].inst.done then Run(t, InstanceAnswers(None)) else ServerEnds(id, None);
  }

  lemma ObserverMoves(s: State, t: Tid, id: Id) returns (a: Action)
    requires Inv(s) && t in s.threads && s.mu == Some(t)
    requires s.threads[t].ShutdownObserving? || s.threads[t].ReloadObserving?
    requires s.threads[t].id == id
    ensures Moves(s, a)
  {
    assert ThreadOk(s, t, s.threads[t]);
    if s.servers[id].observed { a := Run(t, Plain); } else { a := WatcherMoves(s, id); }
  }

  lemma AdopterMoves(s: State, t: Tid) returns (a: Action)
    requires Inv(s) && t in s.threads && s.threads[t].ReloadAdopting?
    ensures Moves(s, a)
  {
    assert ThreadOk(s, t, s.threads[t]);
    var u := FreshName(s.threads.Keys);
    a := Run(t, Spawn(u));
  }

  lemma HolderMoves(s: State) returns (a: Action)
    requires Inv(s) && s.mu.Some?
    ensures Moves(s, a)
  {
    var t := s.mu.value;
    var pc := s.threads[t];
    assert ThreadOk(s, t, pc);
    match pc
    case ReloadStopping(id) => a := InstanceMoves(s, t, id);
    case ShutdownStopping(id) => a := InstanceMoves(s, t, id);
    case ReloadObserving(id, _) => a := ObserverMoves(s, t, id);
    case ShutdownObserving(id) => a := ObserverMoves(s, t, id);
    case ReloadAdopting(_) => a := AdopterMoves(s, t);
    case _ =>
      if s.once.Busy? { a := FinisherMoves(s); } else { a := Run(t, Plain); }
  }

  lemma CallMoves(s: State, t: Tid) returns (a: Action)
    requires Inv(s) && t in s.threads && !Returned(s.threads[t])
    ensures Moves(s, a) || (s.threads[t].WatchAwaiting? && s.threads[t].id < |s.servers| && !s.servers[s.threads[t].id].inst.done)
  {
    assert ThreadOk(s, t, s.threads[t]);
    if s.mu.Some? {
      a := HolderMoves(s);
    } else if IsWatch(s.threads[t]) {
      var id := s.threads[t].id;
      if s.servers[id].inst.done { a := WatcherMoves(s, id); } else { a := Run(t, Plain); }
    } else if s.threads[t].ShutdownCalled? && s.shutdownOnce.Busy? {
      var o := s.shutdownOnce.owner;
      assert ThreadOk(s, o, s.threads[o]);
      a := Run(o, Plain);
    } else {
      a := Run(t, Plain);
    }
  }

  /** In every reachable state, while some call has not returned, some goroutine can move, or a server that was asked
      to stop has yet to end, or the thread just watches a running server. */
  lemma NoDeadlock(actions: seq<Action>, s: State, t: Tid) returns (a: Action)
    requires Exec(INIT, actions) == Some(s) && t in s.threads && !Returned(s.threads[t])
    ensures Moves(s, a) || (s.threads[t].WatchAwaiting? && s.threads[t].id < |s.servers| && !s.servers[s.threads[t].id].inst.done)
  {
    InitOk();
    ExecKeeps(INIT, actions, s);
    a := CallMoves(s, t);
  }

  // ---------- every call comes to its end ----------

  /** How many steps a thread can still take, counting the watcher and the server end that a Reload brings about. */
  function Left(pc: Pc): (n: nat) {
    match pc
    case ReloadCalled => 13
    case ReloadEntered => 12
    case ReloadLoading => 11
    case ReloadStopping(_) => 10
    case ReloadObserving(_, _) => 9
    case ReloadStopped(_) => 8
    case ReloadStarting => 7
    case ReloadAdopting(_) => 5
    case ReloadFailing(_, finishing) => if finishing then 1 else 2
    case ReloadReturned(_) => 0
    case ShutdownCalled => 9
    case ShutdownLocking => 8
    case ShutdownEntered => 7
    case ShutdownStopping(_) => 6
    case ShutdownObserving(_) => 5
    case ShutdownFinishing(finishing) => if finishing then 3 else 4
    case ShutdownUnlocking => 2
    case ShutdownPublishing => 1
    case ShutdownReturned(_) => 0
    case WatchAwaiting(_) => 4
    case WatchFailing(_, _, finishing) => if finishing then 2 else 3
    case WatchClosing(_) => 1
    case WatchReturned => 0
  }

  /** The servers that have not ended. */
  function Running(servers: seq<Owned>): (r: nat) {
    if servers == [] then 0
    else Running(servers[..|servers| - 1]) + if servers[|servers| - 1].inst.done then 0 else 1
  }

  /** What is still to be done, when nobody calls anew. */
  ghost function Rank(s: State): (r: nat) {
    Total(s.threads, Left) + Running(s.servers)
  }

  lemma {:induction false} RunningAlike(a: seq<Owned>, b: seq<Owned>)
    requires |a| == |b| && forall i :: 0 <= i < |a| ==> a[i].inst.done == b[i].inst.done
    ensures Running(a) == Running(b)
  {
    if a != [] {
      RunningAlike(a[..|a| - 1], b[..|b| - 1]);
    }
  }

  lemma {:induction false} OneEnds(a: seq<Owned>, id: Id, o: Owned)
    requires id < |a| && !a[id].inst.done && o.inst.done
    ensures Running(a[id := o]) == Running(a) - 1
  {
    var k := |a| - 1;
    if id == k {
      assert a[id := o][..k] == a[..k];
    } else {
      assert a[id := o][..k] == a[..k][id := o];
      OneEnds(a[..k], id, o);
    }
  }

  /** A step that only moves thread t, and ends no server. */
  ghost predicate OnlyMoves(s: State, t: Tid, pc: Pc, s': State) {
    && s'.threads == s.threads[t := pc]
    && |s'.servers| == |s.servers|
    && (forall i :: 0 <= i < |s.servers| ==> s'.servers[i].inst.done == s.servers[i].inst.done)
  }

  lemma FinishAdvances(s: State, t: Tid, err: Option<Error>, finishing: bool, begun: Pc, after: Pc, s': State)
    requires Finish(s, t, err, finishing, begun, after) == Some(s')
    ensures OnlyMoves(s, t, if !finishing && s.once.Idle? then begun else after, s')
  {
  }

  lemma FailAdvances(s: State, t: Tid, e: Error, finishing: bool, s': State)
    requires FailReload(s, t, e, finishing) == Some(s')
    ensures OnlyMoves(s, t, if !finishing && s.once.Idle? then ReloadFailing(e, true) else ReloadReturned(Some(e)), s')
  {
  }

  lemma AnswerAdvances(s: State, t: Tid, id: Id, c: Choice, pc: Pc, s': State)
    requires Answer(s, t, id, c, pc) == Some(s')
    ensures OnlyMoves(s, t, pc, s')
  {
  }

  lemma TakeAdvances(s: State, t: Tid, pc: Pc, s': State)
    requires s.current.Some? && TakeCurrent(s, t, pc) == Some(s')
    ensures OnlyMoves(s, t, pc, s')
  {
  }

  lemma CloseAdvances(s: State, t: Tid, id: Id, s': State)
    requires CloseObserved(s, t, id) == Some(s')
    ensures OnlyMoves(s, t, WatchReturned, s')
  {
  }

  lemma WatchAdvances(s: State, t: Tid, s': State) returns (pc: Pc)
    requires t in s.threads && StepWatch(s, t) == Some(s')
    ensures OnlyMoves(s, t, pc, s') && Left(pc) < Left(s.threads[t])
  {
    match s.threads[t]
    case WatchAwaiting(id) =>
      pc := if s.servers[id].inst.err.Some? then WatchFailing(id, s.servers[id].inst.err.value, false) else WatchClosing(id);
    case WatchFailing(id, e, finishing) =>
      FinishAdvances(s, t, Some(e), finishing, WatchFailing(id, e, true), WatchClosing(id), s');
      pc := if !finishing && s.once.Idle? then WatchFailing(id, e, true) else WatchClosing(id);
    case WatchClosing(id) =>
      CloseAdvances(s, t, id, s');
      pc := WatchReturned;
    case _ =>
  }

  lemma ShutdownAdvances(s: State, t: Tid, c: Choice, s': State) returns (pc: Pc)
    requires t in s.threads && IsShutdown(s.threads[t]) && StepShutdown(s, t, c) == Some(s')
    ensures OnlyMoves(s, t, pc, s') && Left(pc) < Left(s.threads[t]) && IsShutdown(pc)
  {
    match s.threads[t]
    case ShutdownEntered =>
      if s.current.None? {
        pc := ShutdownFinishing(false);
      } else {
        pc := ShutdownStopping(s.current.value);
        TakeAdvances(s.(closed := true), t, pc, s');
      }
    case ShutdownStopping(id) =>
      pc := ShutdownObserving(id);
      AnswerAdvances(s.(shutdownErr := c.result), t, id, c, pc, s');
    case ShutdownFinishing(finishing) =>
      FinishAdvances(s, t, s.shutdownErr, finishing, ShutdownFinishing(true), ShutdownUnlocking, s');
      pc := if !finishing && s.once.Idle? then ShutdownFinishing(true) else ShutdownUnlocking;
    case _ => pc := ShutdownWaits(s, t, c, s');
  }

  lemma ShutdownWaits(s: State, t: Tid, c: Choice, s': State) returns (pc: Pc)
    requires t in s.threads && IsShutdown(s.threads[t]) && StepShutdown(s, t, c) == Some(s')
    requires !s.threads[t].ShutdownEntered? && !s.threads[t].ShutdownStopping? && !s.threads[t].ShutdownFinishing?
    ensures OnlyMoves(s, t, pc, s') && Left(pc) < Left(s.threads[t]) && IsShutdown(pc)
  {
    match s.threads[t]
    case ShutdownCalled => pc := if s.shutdownOnce.Idle? then ShutdownLocking else Pc.ShutdownReturned(s.shutdownErr);
    case ShutdownLocking => pc := ShutdownEntered;
    case ShutdownObserving(id) => pc := ShutdownFinishing(false);
    case ShutdownUnlocking => pc := ShutdownPublishing;
    case ShutdownPublishing => pc := Pc.ShutdownReturned(s.shutdownErr);
    case _ =>
  }

  /** Reload's steps, but for those that start a server or its watcher. */
  lemma ReloadAdvances(s: State, t: Tid, c: Choice, s': State) returns (pc: Pc)
    requires t in s.threads && !IsWatch(s.threads[t]) && !IsShutdown(s.threads[t]) && StepReload(s, t, c) == Some(s')
    requires !s.threads[t].ReloadAdopting? && (s.threads[t].ReloadStarting? ==> c.FactoryFails? || c.FactoryReturnsNil?)
    ensures OnlyMoves(s, t, pc, s') && Left(pc) < Left(s.threads[t])
  {
    match s.threads[t]
    case ReloadLoading =>
      if c.LoadFails? {
        pc := if s.current.None? then ReloadFailing(c.err, false) else ReloadReturned(Some(c.err));
      } else if s.current.None? {
        pc := ReloadStarting;
      } else {
        pc := ReloadStopping(s.current.value);
        TakeAdvances(s, t, pc, s');
      }
    case ReloadStopping(id) =>
      pc := ReloadObserving(id, c.result);
      AnswerAdvances(s, t, id, c, pc, s');
    case ReloadFailing(e, finishing) =>
      FailAdvances(s, t, e, finishing, s');
      pc := if !finishing && s.once.Idle? then ReloadFailing(e, true) else ReloadReturned(Some(e));
    case _ => pc := ReloadChecks(s, t, c, s');
  }

  lemma ReloadChecks(s: State, t: Tid, c: Choice, s': State) returns (pc: Pc)
    requires t in s.threads && !IsWatch(s.threads[t]) && !IsShutdown(s.threads[t]) && StepReload(s, t, c) == Some(s')
    requires !s.threads[t].ReloadLoading? && !s.threads[t].ReloadStopping? && !s.threads[t].ReloadFailing?
    requires !s.threads[t].ReloadAdopting? && (s.threads[t].ReloadStarting? ==> c.FactoryFails? || c.FactoryReturnsNil?)
    ensures OnlyMoves(s, t, pc, s') && Left(pc) < Left(s.threads[t])
  {
    match s.threads[t]
    case ReloadCalled => pc := ReloadEntered;
    case ReloadEntered =>
      pc := if s.closed then ReloadReturned(Some(SupervisorClosed))
            else if s.terminalErr.Some? then ReloadReturned(s.terminalErr) else ReloadLoading;
    case ReloadObserving(id, r) => pc := ReloadStopped(r);
    case ReloadStopped(r) =>
      pc := if r.Some? then ReloadFailing(r.value, false)
            else if s.terminalErr.Some? then ReloadReturned(s.terminalErr) else ReloadStarting;
    case ReloadStarting => pc := ReloadFailing(if c.FactoryFails? then c.err else NilServer, false);
    case _ =>
  }

  /** A server more, which the thread was counted for. */
  lemma StartCounts(s: State, t: Tid, c: Choice, s': State)
    requires t in s.threads && s.threads[t].ReloadStarting? && StartCandidate(s, t, c) == Some(s')
    requires !c.FactoryFails? && !c.FactoryReturnsNil?
    ensures Rank(s') < Rank(s)
  {
    TotalAfter(s.threads, Left, t, ReloadAdopting(|s.servers|));
    assert s'.servers[..|s'.servers| - 1] == s.servers;
  }

  /** A watcher more, which the thread was counted for. */
  lemma AdoptCounts(s: State, t: Tid, id: Id, c: Choice, s': State)
    requires t in s.threads && s.threads[t] == ReloadAdopting(id) && Adopt(s, t, id, c) == Some(s')
    ensures Rank(s') < Rank(s)
  {
    var left := s.threads[t := ReloadReturned(None)];
    TotalAfter(s.threads, Left, t, ReloadReturned(None));
    TotalAfter(left, Left, c.tid, WatchAwaiting(id));
    RunningAlike(s.servers, s'.servers);
    assert s'.threads == left[c.tid := WatchAwaiting(id)] && c.tid !in left;
  }

  lemma MoveCounts(s: State, t: Tid, pc: Pc, s': State)
    requires t in s.threads && OnlyMoves(s, t, pc, s') && Left(pc) < Left(s.threads[t])
    ensures Rank(s') < Rank(s)
  {
    TotalAfter(s.threads, Left, t, pc);
    RunningAlike(s.servers, s'.servers);
  }

  lemma ThreadCounts(s: State, t: Tid, c: Choice, s': State)
    requires t in s.threads && StepThread(s, t, c) == Some(s')
    ensures Rank(s') < Rank(s)
  {
    var pc := s.threads[t];
    if pc.ReloadAdopting? {
      AdoptCounts(s, t, pc.id, c, s');
    } else if pc.ReloadStarting? && !c.FactoryFails? && !c.FactoryReturnsNil? {
      StartCounts(s, t, c, s');
    } else {
      var next;
      if IsWatch(pc) { next := WatchAdvances(s, t, s'); }
      else if IsShutdown(pc) { next := ShutdownAdvances(s, t, c, s'); }
      else { next := ReloadAdvances(s, t, c, s'); }
      MoveCounts(s, t, next, s');
    }
  }

  /** Every step but a new call brings the system nearer to its rest. */
  lemma StepCounts(s: State, a: Action, s': State)
    requires Step(s, a) == Some(s') && (a.Run? || a.ServerEnds?)
    ensures Rank(s') < Rank(s)
  {
    if a.ServerEnds? {
      OneEnds(s.servers, a.id, s'.servers[a.id]);
    } else {
      ThreadCounts(s, a.t, a.choice, s');
    }
  }

  /** Goroutines move, and servers end; nobody calls Reload or Shutdown anew. */
  predicate NoNewCalls(actions: seq<Action>) {
    forall i :: 0 <= i < |actions| ==> actions[i].Run? || actions[i].ServerEnds?
  }

  /** Without new calls there are only so many steps, in whatever order they come. */
  lemma {:induction false} StepsAreBounded(s: State, actions: seq<Action>, s': State)
    requires Exec(s, actions) == Some(s') && NoNewCalls(actions)
    ensures |actions| + Rank(s') <= Rank(s)
    decreases |actions|
  {
    if actions != [] {
      var s1 := Step(s, actions[0]).value;
      StepCounts(s, actions[0], s1);
      StepsAreBounded(s1, actions[1..], s');
    }
  }

  lemma ShutdownStays(s: State, a: Action, s': State, t: Tid)
    requires Step(s, a) == Some(s') && a.Run? && t in s.threads && IsShutdown(s.threads[t])
    ensures t in s'.threads && IsShutdown(s'.threads[t])
  {
    var u, c := a.t, a.choice;
    var pc := s.threads[u];
    if pc.ReloadAdopting? {
    } else if pc.ReloadStarting? && !c.FactoryFails? && !c.FactoryReturnsNil? {
    } else {
      var next;
      if IsWatch(pc) { next := WatchAdvances(s, u, s'); }
      else if IsShutdown(pc) { next := ShutdownAdvances(s, u, c, s'); }
      else { next := ReloadAdvances(s, u, c, s'); }
    }
  }

  /** Every Shutdown call can come to its end, without any new call. */
  lemma {:induction false} ShutdownCanReturn(s: State, t: Tid) returns (actions: seq<Action>, s': State)
    requires Inv(s) && t in s.threads && IsShutdown(s.threads[t])
    ensures Exec(s, actions) == Some(s') && NoNewCalls(actions) && t in s'.threads && s'.threads[t].ShutdownReturned?
    decreases Rank(s)
  {
    if s.threads[t].ShutdownReturned? {
      actions, s' := [], s;
    } else {
      var a := CallMoves(s, t);
      var s1 := Step(s, a).value;
      StepKeeps(s, a, s1);
      StepCounts(s, a, s1);
      if a.Run? {
        ShutdownStays(s, a, s1, t);
      }
      var more;
      more, s' := ShutdownCanReturn(s1, t);
      actions := [a] + more;
      assert actions[0] == a && actions[1..] == more;
    }
  }

  lemma ShutdownMoves(s: State, t: Tid) returns (a: Action)
    requires Inv(s) && t in s.threads && IsShutdown(s.threads[t])
    ensures s.threads[t].ShutdownReturned? || Moves(s, a)
  {
    a := Run(t, Plain);
    if !s.threads[t].ShutdownReturned? {
      a := CallMoves(s, t);
    }
  }

  /** And it does, whoever moves when: without new calls a run has at most so many steps, and it can always go on until
      the call has returned. */
  lemma ShutdownReturns(before: seq<Action>, s: State, t: Tid, actions: seq<Action>, s': State) returns (a: Action)
    requires Exec(INIT, before) == Some(s) && t in s.threads && IsShutdown(s.threads[t])
    requires Exec(s, actions) == Some(s') && NoNewCalls(actions)
    ensures |actions| <= Rank(s) && t in s'.threads
    ensures s'.threads[t].ShutdownReturned? || Moves(s', a)
  {
    InitOk();
    ExecKeeps(INIT, before, s);
    ExecKeeps(s, actions, s');
    StepsAreBounded(s, actions, s');
    ShutdownStaysFor(s, actions, s', t);
    a := ShutdownMoves(s', t);
  }

  lemma {:induction false} ShutdownStaysFor(s: State, actions: seq<Action>, s': State, t: Tid)
    requires Exec(s, actions) == Some(s') && NoNewCalls(actions) && t in s.threads && IsShutdown(s.threads[t])
    ensures t in s'.threads && IsShutdown(s'.threads[t])
    decreases |actions|
  {
    if actions != [] {
      var s1 := Step(s, actions[0]).value;
      if actions[0].Run? {
        ShutdownStays(s, actions[0], s1, t);
      }
      ShutdownStaysFor(s1, actions[1..], s', t);
    }
  }
}
