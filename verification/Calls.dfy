/** What a Reload, a Shutdown and the watcher of a server come upon in the supervisor, and what they make of it. The notes
    are taken from where a thread stands and how the world answers it, and not from what the step does. */
module Calls {
  import opened Wrappers
  import opened Lifecycle
  import opened Supervisor

  datatype Note =
    | Refused(err: Error)                       // Reload: closed, or a terminal error is recorded
    | LoadFailed(err: Error, serving: bool)     // no candidate, with or without a current server
    | Loaded(current: Option<Id>)               // a valid candidate
    | Stopped(result: Option<Error>)            // the current server's answer to Shutdown
    | FoundFatal(err: Error)                    // a terminal error turned up meanwhile
    | BuildFailed(err: Error)                   // the factory gave an error or nothing
    | Built(id: Id)
    | Adopted(id: Id)
    | Closed(current: Option<Id>)               // Shutdown
    | Saw(id: Id, result: Option<Error>)        // watcher: this server has ended

  /** What thread t comes upon when it goes on from here and the world answers so. */
  function NoteOf(s: State, t: Tid, c: Choice): (n: Option<Note>)
    requires t in s.threads
  {
    match s.threads[t]
    case ReloadEntered =>
      if s.closed then Some(Refused(SupervisorClosed)) else if s.terminalErr.Some? then Some(Refused(s.terminalErr.value)) else None
    case ReloadLoading => Some(if c.LoadFails? then LoadFailed(c.err, s.current.Some?) else Loaded(s.current))
    case ReloadStopping(_) => if c.InstanceAnswers? then Some(Stopped(c.result)) else None
    case ReloadStopped(r) => if r.None? && s.terminalErr.Some? then Some(FoundFatal(s.terminalErr.value)) else None
    case ReloadStarting =>
      Some(if c.FactoryFails? then BuildFailed(c.err) else if c.FactoryReturnsNil? then BuildFailed(NilServer) else Built(|s.servers|))
    case ReloadAdopting(id) => Some(Adopted(id))
    case ShutdownEntered => Some(Closed(s.current))
    case ShutdownStopping(_) => if c.InstanceAnswers? then Some(Stopped(c.result)) else None
    case WatchAwaiting(id) => if id < |s.servers| then Some(Saw(id, s.servers[id].inst.err)) else None
    case _ => None
  }

  function NewNotes(s: State, a: Action, t: Tid): (r: seq<Note>) {
    if a.Run? && a.t == t && t in s.threads then
      match NoteOf(s, t, a.choice)
      case None => []
      case Some(n) => [n]
    else []
  }

  /** What thread t has come upon in this run, in order. */
  function Notes(actions: seq<Action>, t: Tid): (r: seq<Note>)
    decreases |actions|
  {
    if actions == [] then []
    else
      var n := |actions| - 1;
      Notes(actions[..n], t) +
      match Exec(INIT, actions[..n])
      case None => []
      case Some(s) => NewNotes(s, actions[n], t)
  }

  // ---------- the course of a call ----------

  /** A valid candidate, and the way is free for it. */
  predicate Ready(notes: seq<Note>) {
    || notes == [Loaded(None)]
    || (|notes| == 2 && notes[0].Loaded? && notes[0].current.Some? && notes[1] == Stopped(None))
  }

  /** This error ends a Reload, and the supervisor with it. */
  predicate Fails(notes: seq<Note>, e: Error) {
    || notes == [LoadFailed(e, false)]
    || (|notes| == 2 && notes[0].Loaded? && notes[0].current.Some? && notes[1] == Stopped(Some(e)))
    || (|notes| >= 2 && Ready(notes[..|notes| - 1]) && notes[|notes| - 1] == BuildFailed(e))
  }

  /** This error ends a Reload, and nothing else happens. */
  predicate Declines(notes: seq<Note>, e: Error) {
    || notes == [Refused(e)]
    || notes == [LoadFailed(e, true)]
    || (|notes| == 3 && Ready(notes[..2]) && notes[0].current.Some? && notes[2] == FoundFatal(e))
  }

  /** A new server is current. */
  predicate Succeeds(notes: seq<Note>) {
    var n := |notes|;
    n >= 3 && Ready(notes[..n - 2]) && notes[n - 2].Built? && notes[n - 1] == Adopted(notes[n - 2].id)
  }

  predicate Closes(notes: seq<Note>, answer: Option<Error>) {
    || (notes == [Closed(None)] && answer.None?)
    || (|notes| == 2 && notes[0].Closed? && notes[0].current.Some? && notes[1] == Stopped(answer))
  }

  predicate Fits(s: State, pc: Pc, notes: seq<Note>) {
    match pc
    case ReloadCalled => notes == []
    case ReloadEntered => notes == []
    case ReloadLoading => notes == []
    case ReloadStopping(id) => notes == [Loaded(Some(id))]
    case ReloadObserving(id, r) => notes == [Loaded(Some(id)), Stopped(r)]
    case ReloadStopped(r) => |notes| == 2 && notes[0].Loaded? && notes[0].current.Some? && notes[1] == Stopped(r)
    case ReloadStarting => Ready(notes)
    case ReloadAdopting(id) => |notes| >= 2 && Ready(notes[..|notes| - 1]) && notes[|notes| - 1] == Built(id)
    case ReloadFailing(e, _) => Fails(notes, e)
    case ReloadReturned(r) =>
      if r.None? then Succeeds(notes) else (Fails(notes, r.value) && s.once.Finished?) || Declines(notes, r.value)
    case ShutdownCalled => notes == []
    case ShutdownLocking => notes == []
    case ShutdownEntered => notes == []
    case ShutdownStopping(id) => notes == [Closed(Some(id))]
    case ShutdownObserving(id) => notes == [Closed(Some(id)), Stopped(s.shutdownErr)]
    case ShutdownFinishing(_) => Closes(notes, s.shutdownErr)
    case ShutdownUnlocking => Closes(notes, s.shutdownErr)
    case ShutdownPublishing => Closes(notes, s.shutdownErr)
    case ShutdownReturned(_) => notes == [] || Closes(notes, if |notes| == 2 && notes[1].Stopped? then notes[1].result else None)
    case WatchAwaiting(_) => notes == []
    case WatchFailing(id, e, _) => notes == [Saw(id, Some(e))]
    case WatchClosing(id) => |notes| == 1 && notes[0].Saw? && notes[0].id == id
    case WatchReturned => |notes| == 1 && notes[0].Saw?
  }

  // ---------- one step ----------

  /** Other threads stay where they are. */
  lemma OthersStay(s: State, a: Action, s': State, u: Tid)
    requires Step(s, a) == Some(s') && u in s.threads
    ensures u in s'.threads && (!(a.Run? && a.t == u) ==> s'.threads[u] == s.threads[u])
  {
    hide StepThread;
    if a.Run? {
      RunStays(s, a.t, a.choice, s', u);
    }
  }

  /** New ones have come upon nothing. */
  lemma NewcomerFits(s: State, a: Action, s': State, u: Tid)
    requires Step(s, a) == Some(s') && u !in s.threads && u in s'.threads
    ensures Fits(s', s'.threads[u], [])
  {
    if a.Run? {
      hide StepThread, Fits;
      RunAdds(s, a.t, a.choice, s', u);
    }
  }

  lemma RunAdds(s: State, t: Tid, c: Choice, s': State, u: Tid)
    requires t in s.threads && StepThread(s, t, c) == Some(s') && u !in s.threads && u in s'.threads
    ensures Fits(s', s'.threads[u], [])
  {
    var pc := s.threads[t];
    hide StepWatch, StepShutdown, StepReload, Left;
    if pc.ReloadAdopting? {
      AdoptStays(s, t, pc.id, c, s', u);
    } else if pc.ReloadStarting? && !c.FactoryFails? && !c.FactoryReturnsNil? {
      StartStays(s, t, c, s');
    } else {
      var next;
      if IsWatch(pc) { next := WatchAdvances(s, t, s'); }
      else if IsShutdown(pc) { next := ShutdownAdvances(s, t, c, s'); }
      else { next := ReloadAdvances(s, t, c, s'); }
    }
  }

  lemma RunStays(s: State, t: Tid, c: Choice, s': State, u: Tid)
    requires t in s.threads && StepThread(s, t, c) == Some(s') && u in s.threads
    ensures u in s'.threads && (t != u ==> s'.threads[u] == s.threads[u])
  {
    var pc := s.threads[t];
    hide StepWatch, StepShutdown, StepReload, Left;
    if pc.ReloadAdopting? {
      AdoptStays(s, t, pc.id, c, s', u);
    } else if pc.ReloadStarting? && !c.FactoryFails? && !c.FactoryReturnsNil? {
      StartStays(s, t, c, s');
    } else {
      var next;
      if IsWatch(pc) { next := WatchAdvances(s, t, s'); }
      else if IsShutdown(pc) { next := ShutdownAdvances(s, t, c, s'); }
      else { next := ReloadAdvances(s, t, c, s'); }
    }
  }

  lemma AdoptStays(s: State, t: Tid, id: Id, c: Choice, s': State, u: Tid)
    requires t in s.threads && s.threads[t] == ReloadAdopting(id) && StepReload(s, t, c) == Some(s')
    ensures t in s'.threads && s'.threads[t] == ReloadReturned(None) && s'.current == Some(id)
    ensures u in s.threads && u != t ==> u in s'.threads && s'.threads[u] == s.threads[u]
    ensures c.Spawn? && c.tid !in s.threads && c.tid in s'.threads && s'.threads[c.tid] == WatchAwaiting(id)
    ensures s'.threads.Keys == s.threads.Keys + {c.tid}
  {
  }

  lemma StartStays(s: State, t: Tid, c: Choice, s': State)
    requires t in s.threads && s.threads[t].ReloadStarting? && StepReload(s, t, c) == Some(s')
    requires !c.FactoryFails? && !c.FactoryReturnsNil?
    ensures s'.threads == s.threads[t := ReloadAdopting(|s.servers|)]
  {
  }

  // ---------- a Reload goes on ----------

  lemma EnteredFits(s: State, t: Tid, c: Choice, s': State)
    requires t in s.threads && s.threads[t].ReloadEntered? && StepReload(s, t, c) == Some(s')
    ensures t in s'.threads && Fits(s', s'.threads[t], NewNotes(s, Run(t, c), t))
  {
  }

  lemma LoadingFits(s: State, t: Tid, c: Choice, s': State)
    requires t in s.threads && s.threads[t].ReloadLoading? && StepReload(s, t, c) == Some(s')
    ensures t in s'.threads && Fits(s', s'.threads[t], NewNotes(s, Run(t, c), t))
  {
    if !c.LoadFails? && s.current.Some? {
      TakeAdvances(s, t, ReloadStopping(s.current.value), s');
    }
  }

  lemma StoppingFits(s: State, t: Tid, c: Choice, s': State, id: Id)
    requires t in s.threads && s.threads[t] == ReloadStopping(id) && StepReload(s, t, c) == Some(s')
    ensures t in s'.threads && Fits(s', s'.threads[t], [Loaded(Some(id))] + NewNotes(s, Run(t, c), t))
  {
    AnswerAdvances(s, t, id, c, ReloadObserving(id, c.result), s');
    assert [Loaded(Some(id))] + [Stopped(c.result)] == [Loaded(Some(id)), Stopped(c.result)];
  }

  lemma StoppedFits(s: State, t: Tid, c: Choice, s': State, notes: seq<Note>)
    requires t in s.threads && s.threads[t].ReloadStopped? && StepReload(s, t, c) == Some(s') && Fits(s, s.threads[t], notes)
    ensures t in s'.threads && Fits(s', s'.threads[t], notes + NewNotes(s, Run(t, c), t))
  {
    var notes' := notes + NewNotes(s, Run(t, c), t);
    assert notes'[..2] == notes && (NewNotes(s, Run(t, c), t) == [] ==> notes' == notes);
  }

  lemma StartingFits(s: State, t: Tid, c: Choice, s': State, notes: seq<Note>)
    requires t in s.threads && s.threads[t].ReloadStarting? && StepReload(s, t, c) == Some(s') && Ready(notes)
    ensures t in s'.threads && Fits(s', s'.threads[t], notes + NewNotes(s, Run(t, c), t))
  {
    var notes' := notes + NewNotes(s, Run(t, c), t);
    assert notes'[..|notes|] == notes;
  }

  lemma AdoptingFits(s: State, t: Tid, c: Choice, s': State, notes: seq<Note>, id: Id)
    requires t in s.threads && s.threads[t] == ReloadAdopting(id) && StepReload(s, t, c) == Some(s') && Fits(s, s.threads[t], notes)
    ensures t in s'.threads && Fits(s', s'.threads[t], notes + NewNotes(s, Run(t, c), t))
  {
    AdoptStays(s, t, id, c, s', t);
    var notes' := notes + NewNotes(s, Run(t, c), t);
    assert notes'[..|notes'| - 2] == notes[..|notes| - 1] && notes'[|notes'| - 1] == Adopted(id);
  }

  lemma FailingFits(s: State, t: Tid, c: Choice, s': State, notes: seq<Note>)
    requires t in s.threads && s.threads[t].ReloadFailing? && StepReload(s, t, c) == Some(s') && Fits(s, s.threads[t], notes)
    ensures t in s'.threads && Fits(s', s'.threads[t], notes) && NewNotes(s, Run(t, c), t) == []
  {
    var e, finishing := s.threads[t].err, s.threads[t].finishing;
    FailAdvances(s, t, e, finishing, s');
    hide Fails, Declines, Succeeds;
  }

  lemma QuietFits(s: State, t: Tid, c: Choice, s': State, notes: seq<Note>)
    requires t in s.threads && StepReload(s, t, c) == Some(s') && Fits(s, s.threads[t], notes)
    requires s.threads[t].ReloadCalled? || s.threads[t].ReloadObserving?
    ensures t in s'.threads && Fits(s', s'.threads[t], notes) && NewNotes(s, Run(t, c), t) == []
  {
  }

  lemma ReloadFits(s: State, t: Tid, c: Choice, s': State, notes: seq<Note>)
    requires t in s.threads && !IsWatch(s.threads[t]) && !IsShutdown(s.threads[t]) && Fits(s, s.threads[t], notes)
    requires StepReload(s, t, c) == Some(s')
    ensures t in s'.threads && Fits(s', s'.threads[t], notes + NewNotes(s, Run(t, c), t))
  {
    assert [] + NewNotes(s, Run(t, c), t) == NewNotes(s, Run(t, c), t) && notes + [] == notes;
    hide NewNotes, LockForReload, CheckOpen, LoadCandidate, Answer, AwaitObserved, CheckStopped, StartCandidate, Adopt, FailReload;
    match s.threads[t]
    case ReloadEntered => EnteredFits(s, t, c, s');
    case ReloadLoading => LoadingFits(s, t, c, s');
    case ReloadStopping(id) => StoppingFits(s, t, c, s', id);
    case ReloadStopped(r) => StoppedFits(s, t, c, s', notes);
    case ReloadStarting => StartingFits(s, t, c, s', notes);
    case ReloadAdopting(id) => AdoptingFits(s, t, c, s', notes, id);
    case ReloadFailing(_, _) => FailingFits(s, t, c, s', notes);
    case ReloadReturned(_) =>
    case _ => QuietFits(s, t, c, s', notes);
  }

  // ---------- so does a Shutdown, and a watcher ----------

  lemma ClosingFits(s: State, t: Tid, c: Choice, s': State)
    requires t in s.threads && s.threads[t].ShutdownEntered? && StepShutdown(s, t, c) == Some(s') && s.shutdownErr.None?
    ensures t in s'.threads && Fits(s', s'.threads[t], NewNotes(s, Run(t, c), t))
  {
    if s.current.Some? {
      TakeAdvances(s.(closed := true), t, ShutdownStopping(s.current.value), s');
    }
  }

  lemma AnsweredFits(s: State, t: Tid, c: Choice, s': State, id: Id)
    requires t in s.threads && s.threads[t] == ShutdownStopping(id) && StepShutdown(s, t, c) == Some(s')
    ensures t in s'.threads && Fits(s', s'.threads[t], [Closed(Some(id))] + NewNotes(s, Run(t, c), t))
  {
    AnswerAdvances(s.(shutdownErr := c.result), t, id, c, ShutdownObserving(id), s');
    assert s'.shutdownErr == c.result;
    assert [Closed(Some(id))] + [Stopped(c.result)] == [Closed(Some(id)), Stopped(c.result)];
  }

  lemma FinishingFits(s: State, t: Tid, c: Choice, s': State, notes: seq<Note>)
    requires t in s.threads && s.threads[t].ShutdownFinishing? && StepShutdown(s, t, c) == Some(s') && Fits(s, s.threads[t], notes)
    ensures t in s'.threads && Fits(s', s'.threads[t], notes) && NewNotes(s, Run(t, c), t) == []
  {
    FinishAdvances(s, t, s.shutdownErr, s.threads[t].finishing, ShutdownFinishing(true), ShutdownUnlocking, s');
    assert s'.shutdownErr == s.shutdownErr;
    hide Closes;
  }

  lemma PublishingFits(s: State, t: Tid, c: Choice, s': State, notes: seq<Note>)
    requires t in s.threads && s.threads[t].ShutdownPublishing? && StepShutdown(s, t, c) == Some(s') && Fits(s, s.threads[t], notes)
    ensures t in s'.threads && Fits(s', s'.threads[t], notes) && NewNotes(s, Run(t, c), t) == []
  {
    hide Ready, Fails, Declines, Succeeds;
  }

  lemma WaitingFits(s: State, t: Tid, c: Choice, s': State, notes: seq<Note>)
    requires t in s.threads && Fits(s, s.threads[t], notes) && StepShutdown(s, t, c) == Some(s')
    requires s.threads[t].ShutdownCalled? || s.threads[t].ShutdownLocking? || s.threads[t].ShutdownObserving? ||
             s.threads[t].ShutdownUnlocking?
    ensures t in s'.threads && Fits(s', s'.threads[t], notes) && NewNotes(s, Run(t, c), t) == []
  {
    hide Ready, Fails, Declines, Succeeds;
    match s.threads[t]
    case ShutdownCalled =>
    case ShutdownLocking =>
    case ShutdownObserving(_) =>
    case ShutdownUnlocking =>
  }

  lemma ShutdownFits(s: State, t: Tid, c: Choice, s': State, notes: seq<Note>)
    requires t in s.threads && IsShutdown(s.threads[t]) && Fits(s, s.threads[t], notes)
    requires StepShutdown(s, t, c) == Some(s') && (s.threads[t].ShutdownEntered? ==> s.shutdownErr.None?)
    ensures t in s'.threads && Fits(s', s'.threads[t], notes + NewNotes(s, Run(t, c), t))
  {
    assert notes + [] == notes && [] + NewNotes(s, Run(t, c), t) == NewNotes(s, Run(t, c), t);
    hide NewNotes, EnterOnce, LockForShutdown, Close, AnswerShutdown, AwaitObserved, Finish, PublishShutdown;
    match s.threads[t]
    case ShutdownEntered => ClosingFits(s, t, c, s');
    case ShutdownStopping(id) => AnsweredFits(s, t, c, s', id);
    case ShutdownFinishing(_) => FinishingFits(s, t, c, s', notes);
    case ShutdownPublishing => PublishingFits(s, t, c, s', notes);
    case ShutdownReturned(_) =>
    case _ => WaitingFits(s, t, c, s', notes);
  }

  lemma AwaitingFits(s: State, t: Tid, c: Choice, s': State)
    requires t in s.threads && s.threads[t].WatchAwaiting? && StepWatch(s, t) == Some(s')
    ensures t in s'.threads && Fits(s', s'.threads[t], NewNotes(s, Run(t, c), t))
  {
  }

  lemma ReportingFits(s: State, t: Tid, c: Choice, s': State, notes: seq<Note>)
    requires t in s.threads && s.threads[t].WatchFailing? && StepWatch(s, t) == Some(s') && Fits(s, s.threads[t], notes)
    ensures t in s'.threads && Fits(s', s'.threads[t], notes) && NewNotes(s, Run(t, c), t) == []
  {
    var id, e, finishing := s.threads[t].id, s.threads[t].err, s.threads[t].finishing;
    FinishAdvances(s, t, Some(e), finishing, WatchFailing(id, e, true), WatchClosing(id), s');
  }

  lemma WatchFits(s: State, t: Tid, c: Choice, s': State, notes: seq<Note>)
    requires t in s.threads && IsWatch(s.threads[t]) && Fits(s, s.threads[t], notes) && StepWatch(s, t) == Some(s')
    ensures t in s'.threads && Fits(s', s'.threads[t], notes + NewNotes(s, Run(t, c), t))
  {
    assert notes + [] == notes && [] + NewNotes(s, Run(t, c), t) == NewNotes(s, Run(t, c), t);
    match s.threads[t]
    case WatchAwaiting(_) => AwaitingFits(s, t, c, s');
    case WatchFailing(_, _, _) => ReportingFits(s, t, c, s', notes);
    case WatchClosing(id) => CloseAdvances(s, t, id, s');
    case _ =>
  }

  lemma OwnFits(s: State, t: Tid, c: Choice, s': State, notes: seq<Note>)
    requires Inv(s) && t in s.threads && Fits(s, s.threads[t], notes) && StepThread(s, t, c) == Some(s')
    ensures t in s'.threads && Fits(s', s'.threads[t], notes + NewNotes(s, Run(t, c), t))
  {
    assert ThreadOk(s, t, s.threads[t]);
    hide Fits, NewNotes, StepWatch, StepShutdown, StepReload, Inv;
    if IsWatch(s.threads[t]) { WatchFits(s, t, c, s', notes); }
    else if IsShutdown(s.threads[t]) { ShutdownFits(s, t, c, s', notes); }
    else { ReloadFits(s, t, c, s', notes); }
  }

  /** Only the answer to a Shutdown changes what Shutdown will return, and the terminal result stays once it is begun. */
  lemma SharedStays(s: State, a: Action, s': State)
    requires Step(s, a) == Some(s')
    ensures s'.shutdownErr != s.shutdownErr ==> a.Run? && a.t in s.threads && s.threads[a.t].ShutdownStopping?
    ensures s.once.Finished? ==> s'.once.Finished?
  {
    if a.Run? {
      hide StepWatch, StepShutdown, StepReload;
      var pc := s.threads[a.t];
      if IsWatch(pc) { WatchShares(s, a.t, s'); }
      else if IsShutdown(pc) { ShutdownShares(s, a.t, a.choice, s'); }
      else { ReloadShares(s, a.t, a.choice, s'); }
    }
  }

  lemma WatchShares(s: State, t: Tid, s': State)
    requires t in s.threads && StepWatch(s, t) == Some(s')
    ensures s'.shutdownErr == s.shutdownErr && (s.once.Finished? ==> s'.once.Finished?)
  {
  }

  lemma ShutdownShares(s: State, t: Tid, c: Choice, s': State)
    requires t in s.threads && StepShutdown(s, t, c) == Some(s')
    ensures (s'.shutdownErr != s.shutdownErr ==> s.threads[t].ShutdownStopping?) && (s.once.Finished? ==> s'.once.Finished?)
  {
    match s.threads[t]
    case ShutdownEntered =>
    case ShutdownStopping(_) =>
    case ShutdownFinishing(_) =>
    case _ =>
  }

  lemma ReloadShares(s: State, t: Tid, c: Choice, s': State)
    requires t in s.threads && StepReload(s, t, c) == Some(s')
    ensures s'.shutdownErr == s.shutdownErr && (s.once.Finished? ==> s'.once.Finished?)
  {
    hide LockForReload, CheckOpen, LoadCandidate, Answer, AwaitObserved, CheckStopped, StartCandidate, Adopt, FailReload;
    match s.threads[t]
    case ReloadFailing(e, finishing) => FailShares(s, t, e, finishing, s');
    case ReloadLoading => LoadShares(s, t, c, s');
    case ReloadAdopting(id) => AdoptShares(s, t, id, c, s');
    case ReloadStopping(id) => AnswerShares(s, t, id, c, ReloadObserving(id, c.result), s');
    case _ => CheckShares(s, t, c, s');
  }

  lemma FailShares(s: State, t: Tid, e: Error, finishing: bool, s': State)
    requires FailReload(s, t, e, finishing) == Some(s')
    ensures s'.shutdownErr == s.shutdownErr && (s.once.Finished? ==> s'.once.Finished?)
    ensures s'.servers == s.servers && s'.shutdownOnce == s.shutdownOnce
  {
    var finished := Finish(s, t, Some(e), finishing, ReloadFailing(e, true), ReloadReturned(Some(e)));
    FinishShares(s, t, Some(e), finishing, ReloadFailing(e, true), ReloadReturned(Some(e)), finished.value);
    hide Finish;
  }

  lemma FinishShares(s: State, t: Tid, err: Option<Error>, finishing: bool, begun: Pc, after: Pc, s': State)
    requires Finish(s, t, err, finishing, begun, after) == Some(s')
    ensures s'.shutdownErr == s.shutdownErr && (s.once.Finished? ==> s'.once.Finished?)
    ensures s'.servers == s.servers && s'.shutdownOnce == s.shutdownOnce
  {
    hide Harmless;
    if finishing {
    } else if s.once.Idle? {
    }
  }

  lemma LoadShares(s: State, t: Tid, c: Choice, s': State)
    requires LoadCandidate(s, t, c) == Some(s')
    ensures s'.shutdownErr == s.shutdownErr && s'.once == s.once && s'.shutdownOnce == s.shutdownOnce
  {
  }

  lemma AdoptShares(s: State, t: Tid, id: Id, c: Choice, s': State)
    requires Adopt(s, t, id, c) == Some(s')
    ensures s'.shutdownErr == s.shutdownErr && s'.once == s.once && s'.shutdownOnce == s.shutdownOnce
    ensures |s'.servers| == |s.servers| && forall i :: 0 <= i < |s.servers| ==> s'.servers[i].inst == s.servers[i].inst
  {
  }

  lemma AnswerShares(s: State, t: Tid, id: Id, c: Choice, pc: Pc, s': State)
    requires Answer(s, t, id, c, pc) == Some(s')
    ensures s'.shutdownErr == s.shutdownErr && s'.once == s.once && s'.shutdownOnce == s.shutdownOnce
  {
  }

  lemma CheckShares(s: State, t: Tid, c: Choice, s': State)
    requires t in s.threads && StepReload(s, t, c) == Some(s')
    requires !s.threads[t].ReloadFailing? && !s.threads[t].ReloadLoading? && !s.threads[t].ReloadAdopting? && !s.threads[t].ReloadStopping?
    ensures s'.shutdownErr == s.shutdownErr && s'.once == s.once && s'.shutdownOnce == s.shutdownOnce
    ensures !s.threads[t].ReloadStarting? ==> s'.servers == s.servers
  {
    match s.threads[t]
    case ReloadCalled =>
    case ReloadEntered =>
    case ReloadObserving(_, _) =>
    case ReloadStopped(_) =>
    case ReloadStarting =>
    case _ =>
  }

  /** Who stays where he is still fits. */
  lemma OtherFits(s: State, a: Action, s': State, u: Tid, notes: seq<Note>)
    requires Inv(s) && Step(s, a) == Some(s') && u in s.threads && !(a.Run? && a.t == u) && Fits(s, s.threads[u], notes)
    ensures u in s'.threads && Fits(s', s'.threads[u], notes)
  {
    OthersStay(s, a, s', u);
    SharedStays(s, a, s');
    assert ThreadOk(s, u, s.threads[u]);
    if s'.shutdownErr != s.shutdownErr {
      assert ThreadOk(s, a.t, s.threads[a.t]);
    }
    hide Step, Inv;
  }

  // ---------- whole runs ----------

  lemma {:induction false} LastStep(s: State, actions: seq<Action>, s': State) returns (before: State)
    requires actions != [] && Exec(s, actions) == Some(s')
    ensures Exec(s, actions[..|actions| - 1]) == Some(before) && Step(before, actions[|actions| - 1]) == Some(s')
    decreases |actions|
  {
    hide Step;
    if |actions| == 1 {
      before := s;
    } else {
      before := LastStep(Step(s, actions[0]).value, actions[1..], s');
      assert actions[1..][..|actions| - 2] == actions[..|actions| - 1][1..];
    }
  }

  lemma LastNotes(actions: seq<Action>, before: State, t: Tid)
    requires actions != [] && Exec(INIT, actions[..|actions| - 1]) == Some(before)
    ensures Notes(actions, t) == Notes(actions[..|actions| - 1], t) + NewNotes(before, actions[|actions| - 1], t)
  {
  }

  lemma {:induction false} NoNotesYet(actions: seq<Action>, s: State, t: Tid)
    requires Exec(INIT, actions) == Some(s) && t !in s.threads
    ensures Notes(actions, t) == []
    decreases |actions|
  {
    if actions != [] {
      hide Step, Exec, NewNotes;
      var before := LastStep(INIT, actions, s);
      var front, a := actions[..|actions| - 1], actions[|actions| - 1];
      if t in before.threads {
        OthersStay(before, a, s, t);
      }
      NoNotesYet(front, before, t);
      LastNotes(actions, before, t);
      NothingNew(before, a, t);
    }
  }

  lemma NothingNew(s: State, a: Action, t: Tid)
    ensures t !in s.threads || !(a.Run? && a.t == t) ==> NewNotes(s, a, t) == []
  {
  }

  ghost predicate AllFit(actions: seq<Action>, s: State) {
    forall t :: t in s.threads ==> Fits(s, s.threads[t], Notes(actions, t))
  }

  /** In every run every call is where its notes say. */
  lemma {:induction false} CallsFit(actions: seq<Action>, s: State)
    requires Exec(INIT, actions) == Some(s)
    ensures AllFit(actions, s)
    decreases |actions|
  {
    if actions != [] {
      hide Step, Exec, NewNotes, Fits, Inv, Notes;
      var before := LastStep(INIT, actions, s);
      var front, a := actions[..|actions| - 1], actions[|actions| - 1];
      CallsFit(front, before);
      InitOk();
      ExecKeeps(INIT, front, before);
      forall t | t in s.threads ensures Fits(s, s.threads[t], Notes(actions, t)) {
        LastNotes(actions, before, t);
        NothingNew(before, a, t);
        if t !in before.threads {
          NoNotesYet(front, before, t);
          NewcomerFits(before, a, s, t);
        } else if a.Run? && a.t == t {
          StepIsRun(before, t, a.choice, s);
          OwnFits(before, t, a.choice, s, Notes(front, t));
        } else {
          assert Notes(front, t) + [] == Notes(front, t);
          OtherFits(before, a, s, t, Notes(front, t));
        }
      }
    }
  }

  lemma StepIsRun(s: State, t: Tid, c: Choice, s': State)
    requires Step(s, Run(t, c)) == Some(s')
    ensures t in s.threads && StepThread(s, t, c) == Some(s')
  {
  }

  // ---------- what calls do to servers and results ----------

  /** This is an error that takes the supervisor down. */
  function Fatal(n: Note): (e: Option<Error>) {
    match n
    case LoadFailed(err, serving) => if serving then None else Some(err)
    case Stopped(result) => result
    case BuildFailed(err) => Some(err)
    case Saw(_, result) => result
    case _ => None
  }

  ghost predicate Causes(notes: seq<Note>, e: Error) {
    exists i :: 0 <= i < |notes| && Fatal(notes[i]) == Some(e)
  }

  /** A valid candidate is to take the server's place, or a Shutdown came upon it. */
  ghost predicate Asks(notes: seq<Note>, id: Id) {
    Loaded(Some(id)) in notes || Closed(Some(id)) in notes
  }

  /** A Shutdown came upon no server, or upon one that gave this answer. */
  predicate ClosedWith(notes: seq<Note>, answer: Option<Error>) {
    && notes != [] && notes[0].Closed?
    && if notes[0].current.None? then answer.None? else |notes| >= 2 && notes[1] == Stopped(answer)
  }

  ghost predicate TerminalSourced(actions: seq<Action>, s: State) {
    if s.once.Idle? then true
    else if s.terminalErr.Some? then exists t :: Causes(Notes(actions, t), s.terminalErr.value)
    else exists t :: ClosedWith(Notes(actions, t), None)
  }

  ghost predicate StopsSourced(actions: seq<Action>, s: State) {
    forall id :: 0 <= id < |s.servers| && s.servers[id].inst.stopRequested ==> exists t :: Asks(Notes(actions, t), id)
  }

  ghost predicate Builds(notes: seq<Note>, id: Id) {
    Built(id) in notes
  }

  ghost predicate WasBuilt(actions: seq<Action>, id: Id) {
    exists t :: Builds(Notes(actions, t), id)
  }

  ghost predicate ServersSourced(actions: seq<Action>, s: State) {
    forall id :: 0 <= id < |s.servers| ==> WasBuilt(actions, id)
  }

  ghost predicate AnswerSourced(actions: seq<Action>, s: State) {
    s.shutdownOnce.Finished? ==> exists t :: ClosedWith(Notes(actions, t), s.shutdownErr)
  }

  lemma FinishBegins(s: State, a: Action, s': State, notes: seq<Note>)
    requires Inv(s) && Step(s, a) == Some(s') && s.once.Idle? && !s'.once.Idle?
    requires a.Run? && a.t in s.threads ==> Fits(s, s.threads[a.t], notes)
    ensures a.Run? && a.t in s.threads
    ensures if s'.terminalErr.Some? then Causes(notes, s'.terminalErr.value) else ClosedWith(notes, None)
  {
    if a.Run? {
      var pc := s.threads[a.t];
      assert ThreadOk(s, a.t, pc);
      hide Inv;
      hide StepWatch, StepShutdown, StepReload;
      if IsWatch(pc) { WatchBegins(s, a.t, s', notes); }
      else if IsShutdown(pc) { ShutdownBegins(s, a.t, a.choice, s', notes); }
      else { ReloadBegins(s, a.t, a.choice, s', notes); }
    }
  }

  lemma WatchBegins(s: State, t: Tid, s': State, notes: seq<Note>)
    requires t in s.threads && StepWatch(s, t) == Some(s') && s.once.Idle? && !s'.once.Idle? && Fits(s, s.threads[t], notes)
    requires !InFinish(s.threads[t])
    ensures s'.terminalErr.Some? && Causes(notes, s'.terminalErr.value)
  {
    match s.threads[t]
    case WatchAwaiting(_) =>
    case WatchFailing(id, e, finishing) => assert Fatal(notes[0]) == Some(e);
    case WatchClosing(_) =>
    case _ =>
  }

  lemma ShutdownBegins(s: State, t: Tid, c: Choice, s': State, notes: seq<Note>)
    requires t in s.threads && StepShutdown(s, t, c) == Some(s') && s.once.Idle? && !s'.once.Idle? && Fits(s, s.threads[t], notes)
    requires !InFinish(s.threads[t])
    ensures if s'.terminalErr.Some? then Causes(notes, s'.terminalErr.value) else ClosedWith(notes, None)
  {
    match s.threads[t]
    case ShutdownEntered =>
    case ShutdownStopping(_) =>
    case ShutdownFinishing(_) =>
      if s'.terminalErr.Some? {
        assert Fatal(notes[1]) == s'.terminalErr;
      }
    case _ =>
  }

  lemma ReloadBegins(s: State, t: Tid, c: Choice, s': State, notes: seq<Note>)
    requires t in s.threads && StepReload(s, t, c) == Some(s') && s.once.Idle? && !s'.once.Idle? && Fits(s, s.threads[t], notes)
    requires !InFinish(s.threads[t])
    ensures s'.terminalErr.Some? && Causes(notes, s'.terminalErr.value)
  {
    hide LockForReload, CheckOpen, LoadCandidate, Answer, AwaitObserved, CheckStopped, StartCandidate, Adopt, FailReload, Ready, Succeeds,
         Declines;
    match s.threads[t]
    case ReloadFailing(e, finishing) =>
      FailBegins(s, t, e, finishing, s');
      assert Fatal(notes[|notes| - 1]) == Some(e);
    case ReloadLoading => LoadShares(s, t, c, s');
    case ReloadAdopting(id) => AdoptShares(s, t, id, c, s');
    case ReloadStopping(id) => AnswerShares(s, t, id, c, ReloadObserving(id, c.result), s');
    case _ => CheckShares(s, t, c, s');
  }

  lemma FailBegins(s: State, t: Tid, e: Error, finishing: bool, s': State)
    requires FailReload(s, t, e, finishing) == Some(s') && s.once.Idle? && !s'.once.Idle? && !finishing
    ensures s'.terminalErr == Some(e)
  {
  }

  /** A server that was not there, or was not asked to stop, before this step. */
  predicate NewlyAsked(s: State, s': State, id: Id) {
    id < |s'.servers| && s'.servers[id].inst.stopRequested && (id < |s.servers| ==> !s.servers[id].inst.stopRequested)
  }

  /** The servers and what they are asked change only where notes are taken. */
  ghost predicate ServersNoted(s: State, t: Tid, c: Choice, s': State) {
    var notes := NewNotes(s, Run(t, c), t);
    && |s.servers| <= |s'.servers|
    && (forall id: Id :: NewlyAsked(s, s', id) ==> Loaded(Some(id)) in notes || Closed(Some(id)) in notes)
    && (forall id: Id :: |s.servers| <= id < |s'.servers| ==> Built(id) in notes)
  }

  lemma ServersStep(s: State, a: Action, s': State)
    requires Step(s, a) == Some(s')
    ensures !a.Run? ==> |s'.servers| == |s.servers| && forall id: Id :: !NewlyAsked(s, s', id)
    ensures a.Run? ==> ServersNoted(s, a.t, a.choice, s')
  {
    if a.Run? {
      hide StepWatch, StepShutdown, StepReload, NewNotes;
      var pc := s.threads[a.t];
      if IsWatch(pc) { WatchServers(s, a.t, s'); }
      else if IsShutdown(pc) { ShutdownServers(s, a.t, a.choice, s'); }
      else { ReloadServers(s, a.t, a.choice, s'); }
    }
  }

  lemma WatchServers(s: State, t: Tid, s': State)
    requires t in s.threads && StepWatch(s, t) == Some(s')
    ensures |s'.servers| == |s.servers| && forall id: Id :: !NewlyAsked(s, s', id)
  {
  }

  lemma AnswerServers(s: State, t: Tid, id: Id, c: Choice, pc: Pc, s': State)
    requires Answer(s, t, id, c, pc) == Some(s')
    ensures |s'.servers| == |s.servers| && forall i: Id :: !NewlyAsked(s, s', i)
  {
  }

  lemma TakeServers(s: State, t: Tid, pc: Pc, s': State)
    requires s.current.Some? && TakeCurrent(s, t, pc) == Some(s')
    ensures |s'.servers| == |s.servers| && forall i: Id :: NewlyAsked(s, s', i) ==> s.current == Some(i)
  {
  }

  lemma WaitingServers(s: State, t: Tid, c: Choice, s': State)
    requires t in s.threads && StepShutdown(s, t, c) == Some(s')
    requires !s.threads[t].ShutdownEntered? && !s.threads[t].ShutdownStopping?
    ensures s'.servers == s.servers
  {
    hide Close, AnswerShutdown;
  }

  lemma ShutdownServers(s: State, t: Tid, c: Choice, s': State)
    requires t in s.threads && StepShutdown(s, t, c) == Some(s')
    ensures ServersNoted(s, t, c, s')
  {
    hide NewNotes, EnterOnce, LockForShutdown, Close, Answer, AwaitObserved, Finish, PublishShutdown;
    match s.threads[t]
    case ShutdownEntered => CloseServers(s, t, c, s');
    case ShutdownStopping(id) =>
      AnswerServers(s.(shutdownErr := c.result), t, id, c, ShutdownObserving(id), s');
      assert forall i: Id :: NewlyAsked(s, s', i) <==> NewlyAsked(s.(shutdownErr := c.result), s', i);
    case _ => WaitingServers(s, t, c, s');
  }

  lemma CloseServers(s: State, t: Tid, c: Choice, s': State)
    requires t in s.threads && s.threads[t].ShutdownEntered? && Close(s, t) == Some(s')
    ensures ServersNoted(s, t, c, s')
  {
    if s.current.Some? {
      TakeServers(s.(closed := true), t, ShutdownStopping(s.current.value), s');
    }
    assert NewNotes(s, Run(t, c), t) == [Closed(s.current)];
    assert forall id: Id :: NewlyAsked(s, s', id) <==> NewlyAsked(s.(closed := true), s', id);
  }

  lemma ReloadServers(s: State, t: Tid, c: Choice, s': State)
    requires t in s.threads && StepReload(s, t, c) == Some(s')
    ensures ServersNoted(s, t, c, s')
  {
    hide LockForReload, CheckOpen, LoadCandidate, Answer, AwaitObserved, CheckStopped, StartCandidate, Adopt, FailReload;
    match s.threads[t]
    case ReloadLoading => LoadServers(s, t, c, s');
    case ReloadStopping(id) => AnswerServers(s, t, id, c, ReloadObserving(id, c.result), s');
    case ReloadStarting => StartServers(s, t, c, s');
    case _ => QuietServers(s, t, c, s');
  }

  lemma LoadServers(s: State, t: Tid, c: Choice, s': State)
    requires t in s.threads && s.threads[t].ReloadLoading? && LoadCandidate(s, t, c) == Some(s')
    ensures ServersNoted(s, t, c, s')
  {
    if !c.LoadFails? && s.current.Some? {
      TakeServers(s, t, ReloadStopping(s.current.value), s');
      assert NewNotes(s, Run(t, c), t) == [Loaded(s.current)];
    } else {
      assert s'.servers == s.servers;
    }
  }

  lemma StartServers(s: State, t: Tid, c: Choice, s': State)
    requires t in s.threads && s.threads[t].ReloadStarting? && StartCandidate(s, t, c) == Some(s')
    ensures ServersNoted(s, t, c, s')
  {
    if !c.FactoryFails? && !c.FactoryReturnsNil? {
      assert NewNotes(s, Run(t, c), t) == [Built(|s.servers|)];
    }
  }

  lemma QuietServers(s: State, t: Tid, c: Choice, s': State)
    requires t in s.threads && StepReload(s, t, c) == Some(s')
    requires !s.threads[t].ReloadLoading? && !s.threads[t].ReloadStopping? && !s.threads[t].ReloadStarting?
    ensures ServersNoted(s, t, c, s')
  {
    hide LockForReload, CheckOpen, AwaitObserved, CheckStopped, Adopt, FailReload, NewNotes;
    match s.threads[t]
    case ReloadFailing(e, finishing) => FailShares(s, t, e, finishing, s');
    case ReloadAdopting(id) => AdoptShares(s, t, id, c, s');
    case _ => CheckShares(s, t, c, s');
  }

  /** Shutdown's answer is published by a thread that has it. */
  lemma AnswerPublished(s: State, a: Action, s': State, notes: seq<Note>)
    requires Inv(s) && Step(s, a) == Some(s') && s'.shutdownOnce.Finished?
    requires a.Run? && a.t in s.threads ==> Fits(s, s.threads[a.t], notes)
    ensures s'.shutdownErr == s.shutdownErr
    ensures !s.shutdownOnce.Finished? ==> a.Run? && a.t in s.threads && ClosedWith(notes, s'.shutdownErr)
  {
    SharedStays(s, a, s');
    if a.Run? {
      var pc := s.threads[a.t];
      assert ThreadOk(s, a.t, pc);
      hide Inv, Fits;
      hide StepWatch, StepShutdown, StepReload;
      if IsWatch(pc) { WatchPublishes(s, a.t, s'); }
      else if IsShutdown(pc) { ShutdownPublishes(s, a.t, a.choice, s', notes); }
      else { ReloadPublishes(s, a.t, a.choice, s'); }
    }
  }

  lemma WatchPublishes(s: State, t: Tid, s': State)
    requires t in s.threads && StepWatch(s, t) == Some(s')
    ensures s'.shutdownOnce == s.shutdownOnce
  {
  }

  lemma ShutdownPublishes(s: State, t: Tid, c: Choice, s': State, notes: seq<Note>)
    requires t in s.threads && StepShutdown(s, t, c) == Some(s') && Fits(s, s.threads[t], notes)
    ensures s.threads[t].ShutdownStopping? ==> s'.shutdownOnce == s.shutdownOnce
    ensures s'.shutdownOnce.Finished? && !s.shutdownOnce.Finished? ==> ClosedWith(notes, s'.shutdownErr)
  {
    match s.threads[t]
    case ShutdownEntered =>
    case ShutdownStopping(_) =>
    case ShutdownFinishing(_) =>
    case ShutdownPublishing =>
    case _ =>
  }

  lemma ReloadPublishes(s: State, t: Tid, c: Choice, s': State)
    requires t in s.threads && StepReload(s, t, c) == Some(s')
    ensures s'.shutdownOnce == s.shutdownOnce
  {
    hide LockForReload, CheckOpen, LoadCandidate, Answer, AwaitObserved, CheckStopped, StartCandidate, Adopt, FailReload;
    match s.threads[t]
    case ReloadFailing(e, finishing) => FailShares(s, t, e, finishing, s');
    case ReloadLoading => LoadShares(s, t, c, s');
    case ReloadAdopting(id) => AdoptShares(s, t, id, c, s');
    case ReloadStopping(id) => AnswerShares(s, t, id, c, ReloadObserving(id, c.result), s');
    case _ => CheckShares(s, t, c, s');
  }

  // ---------- in every run ----------

  ghost predicate Sourced(actions: seq<Action>, s: State) {
    TerminalSourced(actions, s) && StopsSourced(actions, s) && ServersSourced(actions, s) && AnswerSourced(actions, s)
  }

  /** What was there one action ago is still there. */
  lemma NotesStay(actions: seq<Action>, before: State, t: Tid)
    requires actions != [] && Exec(INIT, actions[..|actions| - 1]) == Some(before)
    ensures Notes(actions[..|actions| - 1], t) <= Notes(actions, t)
    ensures forall n :: n in Notes(actions[..|actions| - 1], t) ==> n in Notes(actions, t)
    ensures forall e :: Causes(Notes(actions[..|actions| - 1], t), e) ==> Causes(Notes(actions, t), e)
    ensures forall r :: ClosedWith(Notes(actions[..|actions| - 1], t), r) ==> ClosedWith(Notes(actions, t), r)
    ensures forall id :: Asks(Notes(actions[..|actions| - 1], t), id) ==> Asks(Notes(actions, t), id)
  {
    LastNotes(actions, before, t);
    var old', new' := Notes(actions[..|actions| - 1], t), Notes(actions, t);
    assert forall i :: 0 <= i < |old'| ==> new'[i] == old'[i];
  }

  lemma TerminalStays(actions: seq<Action>, before: State, s: State)
    requires actions != [] && Exec(INIT, actions[..|actions| - 1]) == Some(before) && Inv(before)
    requires Step(before, actions[|actions| - 1]) == Some(s)
    requires TerminalSourced(actions[..|actions| - 1], before) && AllFit(actions[..|actions| - 1], before)
    ensures TerminalSourced(actions, s)
  {
    var front, a := actions[..|actions| - 1], actions[|actions| - 1];
    hide Step, Exec, Notes, Causes, ClosedWith, Inv, Fits;
    if !before.once.Idle? {
      TerminalStep(before, a, s);
      var t :| if before.terminalErr.Some? then Causes(Notes(front, t), before.terminalErr.value) else ClosedWith(Notes(front, t), None);
      NotesStay(actions, before, t);
    } else if !s.once.Idle? {
      FinishBegins(before, a, s, if a.Run? then Notes(front, a.t) else []);
      NotesStay(actions, before, a.t);
    }
  }

  lemma StopsStay(actions: seq<Action>, before: State, s: State)
    requires actions != [] && Exec(INIT, actions[..|actions| - 1]) == Some(before)
    requires Step(before, actions[|actions| - 1]) == Some(s) && StopsSourced(actions[..|actions| - 1], before)
    ensures StopsSourced(actions, s)
  {
    var front, a := actions[..|actions| - 1], actions[|actions| - 1];
    hide Step, Exec, Notes;
    ServersStep(before, a, s);
    forall id | 0 <= id < |s.servers| && s.servers[id].inst.stopRequested ensures exists t :: Asks(Notes(actions, t), id) {
      if NewlyAsked(before, s, id) {
        LastNotes(actions, before, a.t);
        assert Asks(Notes(actions, a.t), id);
      } else {
        var t :| Asks(Notes(front, t), id);
        NotesStay(actions, before, t);
      }
    }
  }

  lemma ServersStay(actions: seq<Action>, before: State, s: State)
    requires actions != [] && Exec(INIT, actions[..|actions| - 1]) == Some(before)
    requires Step(before, actions[|actions| - 1]) == Some(s) && ServersSourced(actions[..|actions| - 1], before)
    ensures ServersSourced(actions, s)
  {
    var front, a := actions[..|actions| - 1], actions[|actions| - 1];
    hide Step, Exec, Notes;
    ServersStep(before, a, s);
    forall id | 0 <= id < |s.servers| ensures WasBuilt(actions, id) {
      if id < |before.servers| {
        assert WasBuilt(front, id);
        var t :| Builds(Notes(front, t), id);
        NotesStay(actions, before, t);
      } else {
        LastNotes(actions, before, a.t);
        assert Builds(Notes(actions, a.t), id);
      }
    }
  }

  lemma AnswerStays(actions: seq<Action>, before: State, s: State)
    requires actions != [] && Exec(INIT, actions[..|actions| - 1]) == Some(before) && Inv(before)
    requires Step(before, actions[|actions| - 1]) == Some(s)
    requires AnswerSourced(actions[..|actions| - 1], before) && AllFit(actions[..|actions| - 1], before)
    ensures AnswerSourced(actions, s)
  {
    var front, a := actions[..|actions| - 1], actions[|actions| - 1];
    hide Step, Exec, Notes, ClosedWith, Inv, Fits;
    if s.shutdownOnce.Finished? {
      AnswerPublished(before, a, s, if a.Run? then Notes(front, a.t) else []);
      if before.shutdownOnce.Finished? {
        var t :| ClosedWith(Notes(front, t), before.shutdownErr);
        NotesStay(actions, before, t);
      } else {
        NotesStay(actions, before, a.t);
      }
    }
  }

  lemma {:induction false} AllSourced(actions: seq<Action>, s: State)
    requires Exec(INIT, actions) == Some(s)
    ensures Sourced(actions, s)
    decreases |actions|
  {
    if actions != [] {
      hide Step, Exec, Inv, AllFit, TerminalSourced, StopsSourced, ServersSourced, AnswerSourced;
      var before := LastStep(INIT, actions, s);
      var front := actions[..|actions| - 1];
      AllSourced(front, before);
      CallsFit(front, before);
      InitOk();
      ExecKeeps(INIT, front, before);
      TerminalStays(actions, before, s);
      StopsStay(actions, before, s);
      ServersStay(actions, before, s);
      AnswerStays(actions, before, s);
    }
  }

  // ---------- the theorems ----------

  /** The error a Reload ends with when this is the last it comes upon. */
  function ErrorOf(n: Note): (e: Option<Error>) {
    match n
    case Refused(err) => Some(err)
    case LoadFailed(err, _) => Some(err)
    case Stopped(result) => result
    case FoundFatal(err) => Some(err)
    case BuildFailed(err) => Some(err)
    case _ => None
  }

  /** Reload answers nil exactly when it has made a new server current, and otherwise with the error that it came upon
      last. Unless that error was of no consequence for the current server, the supervisor is down. */
  lemma ReloadAnswers(actions: seq<Action>, s: State, t: Tid, r: Option<Error>)
    requires Exec(INIT, actions) == Some(s) && t in s.threads && s.threads[t] == ReloadReturned(r)
    ensures var notes := Notes(actions, t);
            && notes != [] && ErrorOf(notes[|notes| - 1]) == r
            && (r.None? <==> exists id :: Adopted(id) in notes)
            && (r.Some? ==> s.done || Declines(notes, r.value))
  {
    CallsFit(actions, s);
    InitOk();
    ExecKeeps(INIT, actions, s);
    NotesTellAnswer(s, r, Notes(actions, t));
  }

  lemma NotesTellAnswer(s: State, r: Option<Error>, notes: seq<Note>)
    requires Fits(s, ReloadReturned(r), notes)
    ensures notes != [] && ErrorOf(notes[|notes| - 1]) == r
    ensures r.None? <==> exists id :: Adopted(id) in notes
    ensures r.Some? ==> s.once.Finished? || Declines(notes, r.value)
  {
    var n := |notes|;
    if r.None? {
      assert Adopted(notes[n - 1].id) in notes;
    } else if Fails(notes, r.value) {
      assert n >= 2 ==> forall i :: 0 <= i < n - 1 ==> notes[..n - 1][i] == notes[i];
    } else {
      assert n == 3 ==> notes[..2][0] == notes[0] && notes[..2][1] == notes[1];
    }
  }

  /** A candidate that does not load leaves the current server, and everything else, as it is. */
  lemma FailedLoadDisturbsNothing(actions: seq<Action>, s: State, t: Tid, e: Error)
    requires Exec(INIT, actions) == Some(s) && t in s.threads && s.threads[t].ReloadLoading? && s.current.Some?
    ensures Step(s, Run(t, LoadFails(e))) == Some(s.(mu := None, threads := s.threads[t := ReloadReturned(Some(e))]))
  {
  }

  /** Whatever the loader or the factory does, the Reload goes on. */
  lemma AnyCandidateIsAnswered(actions: seq<Action>, s: State, t: Tid, c: Choice)
    requires Exec(INIT, actions) == Some(s) && t in s.threads && (s.threads[t].ReloadLoading? || s.threads[t].ReloadStarting?)
    ensures Step(s, Run(t, c)).Some?
  {
    InitOk();
    ExecKeeps(INIT, actions, s);
  }

  /** A server is asked to stop only for a candidate that has loaded, or by a Shutdown. */
  lemma StopsAreMeant(actions: seq<Action>, s: State, id: Id)
    requires Exec(INIT, actions) == Some(s) && id < |s.servers| && s.servers[id].inst.stopRequested
    ensures exists t :: Asks(Notes(actions, t), id)
  {
    AllSourced(actions, s);
  }

  ghost predicate BuiltForLoaded(actions: seq<Action>, id: Id) {
    exists t :: Builds(Notes(actions, t), id) && Notes(actions, t)[0].Loaded?
  }

  /** The factory runs only for a candidate that has loaded, and every server came from such a run. */
  lemma ServersAreOfLoadedCandidates(actions: seq<Action>, s: State)
    requires Exec(INIT, actions) == Some(s)
    ensures forall t :: t in s.threads && s.threads[t].ReloadStarting? ==> Ready(Notes(actions, t))
    ensures forall id :: 0 <= id < |s.servers| ==> BuiltForLoaded(actions, id)
  {
    CallsFit(actions, s);
    AllSourced(actions, s);
    forall id | 0 <= id < |s.servers| ensures BuiltForLoaded(actions, id) {
      assert WasBuilt(actions, id);
      var t :| Builds(Notes(actions, t), id);
      if t !in s.threads {
        NoNotesYet(actions, s, t);
      }
      BuiltIsLoaded(s, s.threads[t], Notes(actions, t), id);
    }
  }

  lemma BuiltIsLoaded(s: State, pc: Pc, notes: seq<Note>, id: Id)
    requires Fits(s, pc, notes) && Builds(notes, id)
    ensures notes[0].Loaded?
  {
    if |notes| >= 3 {
      assert notes[..2][0] == notes[0] && notes[..|notes| - 1][0] == notes[0] && notes[..|notes| - 2][0] == notes[0];
    } else if |notes| == 2 {
      assert notes[..1][0] == notes[0];
    }
  }

  /** The terminal error is one that some Reload, Shutdown or watcher came upon; a terminal nil is that of a Shutdown which
      found no server, or one that it stopped without error. */
  lemma TerminalResultHasCause(actions: seq<Action>, s: State)
    requires Exec(INIT, actions) == Some(s) && s.done
    ensures s.terminalErr.Some? ==> exists t :: Causes(Notes(actions, t), s.terminalErr.value)
    ensures s.terminalErr.None? ==> exists t :: ClosedWith(Notes(actions, t), None)
  {
    AllSourced(actions, s);
    InitOk();
    ExecKeeps(INIT, actions, s);
  }

  /** Every Shutdown answers as the server did that was current when the first one came, and nil when there was none. */
  lemma ShutdownAnswers(actions: seq<Action>, s: State, t: Tid, r: Option<Error>)
    requires Exec(INIT, actions) == Some(s) && t in s.threads && s.threads[t] == Pc.ShutdownReturned(r)
    ensures exists u :: ClosedWith(Notes(actions, u), r)
  {
    AllSourced(actions, s);
    InitOk();
    ExecKeeps(INIT, actions, s);
    assert ThreadOk(s, t, s.threads[t]);
  }
}
