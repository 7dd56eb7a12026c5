/** The single-permit refresh manager, with any number of callers and readers at once. */
module RefreshManager {
  import opened Wrappers
  import opened Disk
  import opened Generation
  import opened History

  /** What work returns: nil, or one of any number of errors. */
  datatype Outcome = Nil | Fails(number: nat)

  /** What Do returns: the error of the caller's context, or what the work has returned. */
  datatype Answer = ContextError | WorkSaid(result: Outcome)

  /** A caller of Do: waiting for the permit, holding it, working since it saw `begun` with `rest` still to do, or gone. */
  datatype Phase =
    | Waiting
    | Admitted
    | Working(begun: View, published: bool, rest: seq<Effect>, result: Outcome)
    | Returned(answer: Answer)

  /** A snapshot, and the disk when it was published. */
  datatype Publication = Publication(files: Files, snapshot: Snapshot)

  /** `ended` are the callers whose context has ended; `published` starts with what Init published; `seen` holds every
      snapshot a reader was given. */
  datatype State = State(permits: nat, view: View, callers: map<nat, Phase>, ended: set<nat>, published: seq<Publication>,
                         seen: seq<Snapshot>)

  datatype Action =
    | Call(id: nat)
    | EndContext(id: nat)
    | AbandonWait(id: nat)
    | TakePermit(id: nat)
    | GiveUp(id: nat)
    | StartWork(id: nat, script: seq<Effect>, result: Outcome)
    | Work(id: nat)
    | GivePermitBack(id: nat)
    | ReadSnapshot

  predicate IsWorking(s: State, id: nat) {
    id in s.callers && s.callers[id].Working?
  }

  predicate IsWaiting(s: State, id: nat) {
    id in s.callers && s.callers[id].Waiting?
  }

  predicate IsAdmitted(s: State, id: nat) {
    id in s.callers && s.callers[id].Admitted?
  }

  predicate Holds(phase: Phase) {
    phase.Admitted? || phase.Working?
  }

  function Holders(s: State): (r: set<nat>) {
    set id | id in s.callers && Holds(s.callers[id])
  }

  /** The next effect of somebody's work, whatever it is. */
  function Worked(s: State, id: nat): (r: State)
    requires IsWorking(s, id) && s.callers[id].rest != []
  {
    var c := s.callers[id];
    var e := c.rest[0];
    s.(view := Apply(s.view, e),
       callers := s.callers[id := Working(c.begun, c.published || e.Publish?, c.rest[1..], c.result)],
       published := if e.Publish? then s.published + [Publication(s.view.files, e.snapshot)] else s.published)
  }

  /** One step of one goroutine. A waiter whose context has ended may give up waiting, or still take the permit, and then
      gives it back without working. Work is a script, which says what it will do to disk and memory, and does it effect
      by effect. The permit goes back when the work is over, whatever it did and returned. */
  function Step(s: State, a: Action): (r: Option<State>) {
    match a
    case Call(id) =>
      if id in s.callers then None else Some(s.(callers := s.callers[id := Waiting]))
    case EndContext(id) => Some(s.(ended := s.ended + {id}))
    case AbandonWait(id) =>
      if IsWaiting(s, id) && id in s.ended then Some(s.(callers := s.callers[id := Returned(ContextError)])) else None
    case TakePermit(id) =>
      if IsWaiting(s, id) && s.permits > 0 then Some(s.(permits := s.permits - 1, callers := s.callers[id := Admitted]))
      else None
    case GiveUp(id) =>
      if IsAdmitted(s, id) && id in s.ended
      then Some(s.(permits := s.permits + 1, callers := s.callers[id := Returned(ContextError)]))
      else None
    case StartWork(id, script, result) =>
      if IsAdmitted(s, id) && id !in s.ended
      then Some(s.(callers := s.callers[id := Working(s.view, false, script, result)]))
      else None
    case Work(id) =>
      if IsWorking(s, id) && s.callers[id].rest != [] then Some(Worked(s, id)) else None
    case GivePermitBack(id) =>
      if IsWorking(s, id) && s.callers[id].rest == []
      then Some(s.(permits := s.permits + 1, callers := s.callers[id := Returned(WorkSaid(s.callers[id].result))]))
      else None
    case ReadSnapshot => Some(s.(seen := s.seen + [s.view.current]))
  }

  function Exec(s: State, actions: seq<Action>): (r: Option<State>)
    decreases actions
  {
    if actions == [] then Some(s)
    else
      match Step(s, actions[0])
      case None => None
      case Some(t) => Exec(t, actions[1..])
  }

  // ---------- the permit, whatever the work does ----------

  /** After Init: one permit and no callers. */
  ghost predicate Initial(lib: Library, cfg: Config, s: State) {
    && s.permits == 1 && s.callers == map[] && s.ended == {} && s.seen == []
    && s.published == [Publication(s.view.files, s.view.current)]
    && !s.view.unrestored && Coherent(lib, cfg, s.view.files, s.view.current)
  }

  predicate OnePermit(s: State) {
    s.permits + |Holders(s)| == 1
  }

  lemma HoldersAfter(s: State, id: nat, phase: Phase)
    ensures Holders(s.(callers := s.callers[id := phase])) ==
            if Holds(phase) then Holders(s) + {id} else Holders(s) - {id}
  {
  }

  lemma OnlyHolder(s: State, id: nat)
    requires OnePermit(s) && (IsAdmitted(s, id) || IsWorking(s, id))
    ensures Holders(s) == {id} && s.permits == 0
  {
    assert id in Holders(s);
    assert |Holders(s) - {id}| == |Holders(s)| - 1;
    assert Holders(s) == (Holders(s) - {id}) + {id};
  }

  lemma SameCallers(s: State, t: State)
    requires s.callers == t.callers
    ensures Holders(s) == Holders(t)
  {
  }

  /** One caller comes into another phase, and the permit changes hands with that. */
  lemma PhaseKeepsPermit(s: State, id: nat, phase: Phase, t: State)
    requires OnePermit(s) && t.callers == s.callers[id := phase]
    requires t.permits + (if Holds(phase) then 1 else 0) == s.permits + (if id in Holders(s) then 1 else 0)
    ensures OnePermit(t)
  {
    HoldersAfter(s, id, phase);
    SameCallers(t, s.(callers := s.callers[id := phase]));
    hide Holders;
    assert |Holders(s) + {id}| == |Holders(s)| + (if id in Holders(s) then 0 else 1);
    assert |Holders(s) - {id}| == |Holders(s)| - (if id in Holders(s) then 1 else 0);
  }

  lemma StepKeepsPermit(s: State, a: Action)
    requires OnePermit(s) && Step(s, a).Some?
    ensures OnePermit(Step(s, a).value)
  {
    var t := Step(s, a).value;
    if a.ReadSnapshot? || a.EndContext? {
      SameCallers(s, t);
    } else {
      assert a.id in Holders(s) <==> IsAdmitted(s, a.id) || IsWorking(s, a.id);
      hide Holders, OnePermit;
      PhaseKeepsPermit(s, a.id, t.callers[a.id], t);
    }
  }

  lemma {:induction false} ExecKeepsPermit(s: State, actions: seq<Action>)
    requires OnePermit(s) && Exec(s, actions).Some?
    ensures OnePermit(Exec(s, actions).value)
    decreases actions
  {
    if actions != [] {
      StepKeepsPermit(s, actions[0]);
      ExecKeepsPermit(Step(s, actions[0]).value, actions[1..]);
    }
  }

  lemma InitialOnePermit(lib: Library, cfg: Config, s: State)
    requires Initial(lib, cfg, s)
    ensures OnePermit(s)
  {
    assert Holders(s) == {};
  }

  /** Free permits and holders always make one, so two callers never work at once. */
  lemma PermitsAreConserved(lib: Library, cfg: Config, s0: State, actions: seq<Action>, id: nat, other: nat)
    requires Initial(lib, cfg, s0) && Exec(s0, actions).Some?
    ensures var s := Exec(s0, actions).value;
            s.permits + |Holders(s)| == 1 && (id in Holders(s) && other in Holders(s) ==> id == other)
  {
    InitialOnePermit(lib, cfg, s0);
    ExecKeepsPermit(s0, actions);
    var s := Exec(s0, actions).value;
    if id in Holders(s) && other in Holders(s) {
      OnlyHolder(s, id);
    }
  }

  /** An idle manager gives the permit to any waiter: nobody can be left waiting for a permit that is nowhere. */
  lemma IdlePermitIsFree(lib: Library, cfg: Config, s0: State, actions: seq<Action>, id: nat)
    requires Initial(lib, cfg, s0) && Exec(s0, actions).Some?
    requires var s := Exec(s0, actions).value; Holders(s) == {} && IsWaiting(s, id)
    ensures Step(Exec(s0, actions).value, TakePermit(id)).Some?
  {
    InitialOnePermit(lib, cfg, s0);
    ExecKeepsPermit(s0, actions);
  }

  /** What a worker still has to do by itself. */
  function Remaining(id: nat, n: nat): (r: seq<Action>) {
    if n == 0 then [GivePermitBack(id)] else [Work(id)] + Remaining(id, n - 1)
  }

  /** A worker comes to the end of any script by its own steps, and then the permit is free again and the caller has what
      the work returned. */
  lemma {:induction false} PermitComesBack(s: State, id: nat)
    requires OnePermit(s) && IsWorking(s, id)
    ensures var end := Exec(s, Remaining(id, |s.callers[id].rest|));
            && end.Some? && end.value.permits == 1 && Holders(end.value) == {}
            && end.value.view == After(s.view, s.callers[id].rest)
            && id in end.value.callers && end.value.callers[id] == Returned(WorkSaid(s.callers[id].result))
    decreases |s.callers[id].rest|
  {
    var n := |s.callers[id].rest|;
    OnlyHolder(s, id);
    if n == 0 {
      HoldersAfter(s, id, Returned(WorkSaid(s.callers[id].result)));
      OneStep(s, GivePermitBack(id), []);
      assert Remaining(id, 0) == [GivePermitBack(id)] + [];
      var t := Step(s, GivePermitBack(id)).value;
      assert Holders(t) == {};
    } else {
      OneStep(s, Work(id), Remaining(id, n - 1));
      StepKeepsPermit(s, Work(id));
      PermitComesBack(Step(s, Work(id)).value, id);
    }
  }

  lemma OneStep(s: State, a: Action, rest: seq<Action>)
    ensures Exec(s, [a] + rest) == match Step(s, a) case None => None case Some(t) => Exec(t, rest)
  {
    assert ([a] + rest)[0] == a && ([a] + rest)[1..] == rest;
  }

  /** Who has the permit and has not begun can always go on: to his work, or, when his context has ended, out. */
  lemma AdmittedGoesOn(s: State, id: nat, script: seq<Effect>, result: Outcome)
    requires OnePermit(s) && IsAdmitted(s, id)
    ensures id !in s.ended ==> Step(s, StartWork(id, script, result)).Some?
    ensures id in s.ended ==>
              var end := Step(s, GiveUp(id));
              && end.Some? && end.value.permits == 1 && Holders(end.value) == {} && end.value.view == s.view
              && end.value.callers[id] == Returned(ContextError)
  {
    OnlyHolder(s, id);
    HoldersAfter(s, id, Returned(ContextError));
    if id in s.ended {
      assert Holders(Step(s, GiveUp(id)).value) == Holders(s.(callers := s.callers[id := Returned(ContextError)]));
    }
  }

  // ---------- what a caller is told ----------

  /** What a caller's work returns, or has returned. */
  function SaidBy(s: State, id: nat): (r: Option<Outcome>) {
    if id !in s.callers then None
    else
      match s.callers[id]
      case Working(_, _, _, result) => Some(result)
      case Returned(answer) => if answer.WorkSaid? then Some(answer.result) else None
      case _ => None
  }

  ghost predicate Began(actions: seq<Action>, id: nat, result: Outcome) {
    exists script :: StartWork(id, script, result) in actions
  }

  lemma BeganAt(actions: seq<Action>, id: nat, result: Outcome)
    requires actions != []
    ensures Began(actions, id, result) <==>
            (actions[0].StartWork? && actions[0].id == id && actions[0].result == result) || Began(actions[1..], id, result)
  {
    assert actions == [actions[0]] + actions[1..];
    if actions[0].StartWork? {
      assert actions[0] == StartWork(actions[0].id, actions[0].script, actions[0].result) && actions[0] in actions;
    }
    if script :| StartWork(id, script, result) in actions[1..] {
      assert StartWork(id, script, result) in actions;
    }
  }

  lemma SaidMore(s: State, a: Action, id: nat, result: Outcome)
    requires Step(s, a).Some?
    ensures SaidBy(Step(s, a).value, id) == Some(result) <==>
            SaidBy(s, id) == Some(result) || (a.StartWork? && a.id == id && a.result == result)
  {
  }

  lemma {:induction false} Told(s: State, actions: seq<Action>, id: nat, result: Outcome)
    requires Exec(s, actions).Some?
    ensures var t := Exec(s, actions).value;
            && (id in t.ended <==> id in s.ended || EndContext(id) in actions)
            && (SaidBy(t, id) == Some(result) <==> SaidBy(s, id) == Some(result) || Began(actions, id, result))
            && (id in t.callers && t.callers[id] == Returned(ContextError) ==>
                  id in t.ended || (id in s.callers && s.callers[id] == Returned(ContextError)))
    decreases actions
  {
    if actions != [] {
      var t := Step(s, actions[0]).value;
      assert actions == [actions[0]] + actions[1..];
      BeganAt(actions, id, result);
      SaidMore(s, actions[0], id, result);
      Told(t, actions[1..], id, result);
    }
  }

  /** Do returns the error of the context only when the context has ended and the work has not been begun; else it returns
      what the work has returned, and that was begun. */
  lemma DoAnswers(lib: Library, cfg: Config, s0: State, actions: seq<Action>, id: nat, result: Outcome)
    requires Initial(lib, cfg, s0) && Exec(s0, actions).Some?
    ensures var s := Exec(s0, actions).value;
            id in s.callers && s.callers[id] == Returned(ContextError) ==>
              EndContext(id) in actions && !Began(actions, id, result)
    ensures var s := Exec(s0, actions).value;
            id in s.callers && s.callers[id] == Returned(WorkSaid(result)) ==> Began(actions, id, result)
  {
    Told(s0, actions, id, result);
  }

  lemma {:induction false} ExecSplit(s: State, first: seq<Action>, second: seq<Action>)
    ensures Exec(s, first + second) == match Exec(s, first) case None => None case Some(t) => Exec(t, second)
    decreases first
  {
    if first == [] {
      assert first + second == second;
    } else {
      assert first + second == [first[0]] + (first[1..] + second);
      if Step(s, first[0]).Some? {
        ExecSplit(Step(s, first[0]).value, first[1..], second);
      }
    }
  }

  /** Work begins with the permit, and never when the context has ended, be it before the permit was taken or after. */
  lemma NoWorkAfterTheEnd(lib: Library, cfg: Config, s0: State, actions: seq<Action>, k: nat)
    requires Initial(lib, cfg, s0) && Exec(s0, actions).Some? && k < |actions| && actions[k].StartWork?
    ensures EndContext(actions[k].id) !in actions[..k] && TakePermit(actions[k].id) in actions[..k]
  {
    var front, id := actions[..k], actions[k].id;
    assert actions == front + ([actions[k]] + actions[k + 1..]);
    ExecSplit(s0, front, [actions[k]] + actions[k + 1..]);
    var s := Exec(s0, front).value;
    OneStep(s, actions[k], actions[k + 1..]);
    Told(s0, front, id, Nil);
    AdmissionTaken(s0, front, id);
  }

  lemma {:induction false} AdmissionTaken(s: State, actions: seq<Action>, id: nat)
    requires Exec(s, actions).Some? && IsAdmitted(Exec(s, actions).value, id)
    ensures IsAdmitted(s, id) || TakePermit(id) in actions
    decreases actions
  {
    if actions != [] {
      assert actions == [actions[0]] + actions[1..];
      AdmissionTaken(Step(s, actions[0]).value, actions[1..], id);
    }
  }

  // ---------- disk and memory, when all work keeps its order ----------

  /** Everybody who begins to work in this run works in the order that Handler's operations are proved to keep. */
  ghost predicate Orderly(lib: Library, cfg: Config, s: State, actions: seq<Action>)
    decreases actions
  {
    actions == [] || (
      && (actions[0].StartWork? ==> Keeps(lib, cfg, s.view, s.view, false, actions[0].script))
      && (Step(s, actions[0]).Some? ==> Orderly(lib, cfg, Step(s, actions[0]).value, actions[1..])))
  }

  /** One generation in memory and on disk, unless a restore failed. */
  ghost predicate OneGeneration(lib: Library, cfg: Config, v: View) {
    v.unrestored || Coherent(lib, cfg, v.files, v.current)
  }

  /** Memory while somebody works: what it was at the beginning, or, behind the publication, what the disk gives. */
  ghost predicate InStep(lib: Library, cfg: Config, v: View, c: Phase)
    requires c.Working?
  {
    && OneGeneration(lib, cfg, c.begun)
    && (if c.published then DiskBuild(lib, cfg, v.files) == Some(v.current) && !v.unrestored else v.current == c.begun.current)
    && Keeps(lib, cfg, c.begun, v, c.published, c.rest)
  }

  /** The empty snapshot of Init, or what the disk gave when it was published. */
  ghost predicate Proper(lib: Library, cfg: Config, p: Publication) {
    p.snapshot == EMPTY || DiskBuild(lib, cfg, p.files) == Some(p.snapshot)
  }

  predicate Published(published: seq<Publication>, snapshot: Snapshot) {
    exists k :: 0 <= k < |published| && published[k].snapshot == snapshot
  }

  /** All publications are proper, the last one is in memory, and readers were given none but these. */
  ghost predicate ProperlyPublished(lib: Library, cfg: Config, published: seq<Publication>, seen: seq<Snapshot>,
                                    current: Snapshot)
  {
    && (forall k :: 0 <= k < |published| ==> Proper(lib, cfg, published[k]))
    && published != [] && published[|published| - 1].snapshot == current
    && (forall i :: 0 <= i < |seen| ==> Published(published, seen[i]))
  }

  ghost predicate WorkersInStep(lib: Library, cfg: Config, s: State) {
    forall id :: IsWorking(s, id) ==> InStep(lib, cfg, s.view, s.callers[id])
  }

  predicate Idle(s: State) {
    forall id :: id in s.callers ==> !IsWorking(s, id)
  }

  ghost predicate Inv(lib: Library, cfg: Config, s: State) {
    && OnePermit(s)
    && (Idle(s) ==> OneGeneration(lib, cfg, s.view))
    && WorkersInStep(lib, cfg, s)
    && ProperlyPublished(lib, cfg, s.published, s.seen, s.view.current)
  }

  /** Steps of callers who do not work. */
  lemma BystanderKeeps(lib: Library, cfg: Config, s: State, a: Action)
    requires Inv(lib, cfg, s) && Step(s, a).Some?
    requires a.Call? || a.EndContext? || a.AbandonWait? || a.TakePermit? || a.GiveUp?
    ensures Inv(lib, cfg, Step(s, a).value)
  {
    hide InStep, OneGeneration, ProperlyPublished, OnePermit;
    var t := Step(s, a).value;
    StepKeepsPermit(s, a);
    forall id | IsWorking(t, id) ensures InStep(lib, cfg, t.view, t.callers[id]) {
      assert IsWorking(s, id);
    }
    if Idle(t) {
      forall id | id in s.callers ensures !IsWorking(s, id) {
        assert id in t.callers && !IsWorking(t, id);
      }
    }
  }

  /** With one caller at work at most, only he has to be in step. */
  lemma OnlyOneInStep(lib: Library, cfg: Config, s: State, id: nat)
    requires Holders(s) <= {id} && (IsWorking(s, id) ==> InStep(lib, cfg, s.view, s.callers[id]))
    ensures WorkersInStep(lib, cfg, s)
  {
    forall other | IsWorking(s, other) ensures InStep(lib, cfg, s.view, s.callers[other]) {
      assert other in Holders(s);
    }
  }

  lemma StartWorkKeeps(lib: Library, cfg: Config, s: State, a: Action)
    requires Inv(lib, cfg, s) && a.StartWork? && Step(s, a).Some?
    requires Keeps(lib, cfg, s.view, s.view, false, a.script)
    ensures Inv(lib, cfg, Step(s, a).value)
  {
    var t := Step(s, a).value;
    StepKeepsPermit(s, a);
    OnlyHolder(s, a.id);
    OnlyHolder(t, a.id);
    forall id | id in s.callers ensures !IsWorking(s, id) {
      assert IsWorking(s, id) ==> id in Holders(s);
    }
    OnlyOneInStep(lib, cfg, t, a.id);
    assert IsWorking(t, a.id);
  }

  /** One effect of orderly work keeps memory in step with the disk. */
  lemma EffectInStep(lib: Library, cfg: Config, v: View, c: Phase)
    requires c.Working? && c.rest != [] && InStep(lib, cfg, v, c)
    ensures var e := c.rest[0]; InStep(lib, cfg, Apply(v, e), Working(c.begun, c.published || e.Publish?, c.rest[1..], c.result))
    ensures var e := c.rest[0]; e.Publish? ==> DiskBuild(lib, cfg, v.files) == Some(e.snapshot)
  {
    var e := c.rest[0];
    assert Allowed(lib, cfg, c.begun, v, c.published, e);
    if e.DiskIs? && c.published {
      SameCacheSameBuild(lib, cfg, v.files, e.files);
    }
  }

  lemma PublicationKeeps(lib: Library, cfg: Config, published: seq<Publication>, seen: seq<Snapshot>, current: Snapshot,
                         p: Publication)
    requires ProperlyPublished(lib, cfg, published, seen, current) && Proper(lib, cfg, p)
    ensures ProperlyPublished(lib, cfg, published + [p], seen, p.snapshot)
  {
    var more := published + [p];
    forall i | 0 <= i < |seen| ensures Published(more, seen[i]) {
      assert Published(published, seen[i]);
      var k :| 0 <= k < |published| && published[k].snapshot == seen[i];
      assert more[k].snapshot == seen[i];
    }
  }

  lemma WorkKeeps(lib: Library, cfg: Config, s: State, id: nat)
    requires Inv(lib, cfg, s) && Step(s, Work(id)).Some?
    ensures Inv(lib, cfg, Step(s, Work(id)).value)
  {
    var t := Step(s, Work(id)).value;
    StepKeepsPermit(s, Work(id));
    OnlyHolder(t, id);
    EffectInStep(lib, cfg, s.view, s.callers[id]);
    OnlyOneInStep(lib, cfg, t, id);
    var e := s.callers[id].rest[0];
    if e.Publish? {
      PublicationKeeps(lib, cfg, s.published, s.seen, s.view.current, Publication(s.view.files, e.snapshot));
    }
  }

  lemma GivePermitBackKeeps(lib: Library, cfg: Config, s: State, id: nat)
    requires Inv(lib, cfg, s) && Step(s, GivePermitBack(id)).Some?
    ensures Inv(lib, cfg, Step(s, GivePermitBack(id)).value)
  {
    var t := Step(s, GivePermitBack(id)).value;
    StepKeepsPermit(s, GivePermitBack(id));
    OnlyHolder(s, id);
    HoldersAfter(s, id, Returned(WorkSaid(s.callers[id].result)));
    OnlyOneInStep(lib, cfg, t, id);
    var b := s.callers[id].begun;
    OutcomeKeepsCoherence(lib, cfg, b.files, b.current, b.unrestored, s.view.files, s.view.current, s.view.unrestored);
  }

  lemma ReadKeeps(lib: Library, cfg: Config, s: State)
    requires Inv(lib, cfg, s)
    ensures Inv(lib, cfg, s.(seen := s.seen + [s.view.current]))
  {
    var t := s.(seen := s.seen + [s.view.current]);
    assert Holders(t) == Holders(s);
    assert Published(s.published, s.view.current);
    forall id | IsWorking(t, id) ensures InStep(lib, cfg, t.view, t.callers[id]) {
      assert IsWorking(s, id);
    }
  }

  lemma StepKeeps(lib: Library, cfg: Config, s: State, a: Action)
    requires Inv(lib, cfg, s) && Step(s, a).Some?
    requires a.StartWork? ==> Keeps(lib, cfg, s.view, s.view, false, a.script)
    ensures Inv(lib, cfg, Step(s, a).value)
  {
    match a {
      case StartWork(_, _, _) => StartWorkKeeps(lib, cfg, s, a);
      case Work(id) => WorkKeeps(lib, cfg, s, id);
      case GivePermitBack(id) => GivePermitBackKeeps(lib, cfg, s, id);
      case ReadSnapshot => ReadKeeps(lib, cfg, s);
      case _ => BystanderKeeps(lib, cfg, s, a);
    }
  }

  lemma {:induction false} ExecKeeps(lib: Library, cfg: Config, s: State, actions: seq<Action>)
    requires Inv(lib, cfg, s) && Exec(s, actions).Some? && Orderly(lib, cfg, s, actions)
    ensures Inv(lib, cfg, Exec(s, actions).value)
    decreases actions
  {
    if actions != [] {
      StepKeeps(lib, cfg, s, actions[0]);
      ExecKeeps(lib, cfg, Step(s, actions[0]).value, actions[1..]);
    }
  }

  lemma InitialInv(lib: Library, cfg: Config, s: State)
    requires Initial(lib, cfg, s)
    ensures Inv(lib, cfg, s)
  {
    assert Holders(s) == {};
  }

  // ---------- over all orderly runs ----------

  /** Whenever nobody works, the published snapshot is the empty one or what the disk gives, unless a restore failed. */
  lemma OneGenerationWhenIdle(lib: Library, cfg: Config, s0: State, actions: seq<Action>)
    requires Initial(lib, cfg, s0) && Exec(s0, actions).Some? && Orderly(lib, cfg, s0, actions)
    ensures var s := Exec(s0, actions).value;
            Idle(s) && !s.view.unrestored ==> Coherent(lib, cfg, s.view.files, s.view.current)
  {
    InitialInv(lib, cfg, s0);
    ExecKeeps(lib, cfg, s0, actions);
  }

  /** Files first, the snapshot second, at every moment of every such run: while somebody works, memory is what it was
      when he began, until he publishes; from then on it is what the disk gives. And a step that changes memory leaves
      the disk as it is, and takes memory to what that disk gives. */
  lemma DiskFirst(lib: Library, cfg: Config, s0: State, actions: seq<Action>, a: Action, id: nat)
    requires Initial(lib, cfg, s0) && Exec(s0, actions).Some? && Orderly(lib, cfg, s0, actions)
    ensures var s := Exec(s0, actions).value;
            IsWorking(s, id) ==>
              if s.callers[id].published then DiskBuild(lib, cfg, s.view.files) == Some(s.view.current)
              else s.view.current == s.callers[id].begun.current
    ensures var s := Exec(s0, actions).value;
            Step(s, a).Some? && Step(s, a).value.view.current != s.view.current ==>
              var v := Step(s, a).value.view;
              a.Work? && v.files == s.view.files && DiskBuild(lib, cfg, v.files) == Some(v.current)
  {
    InitialInv(lib, cfg, s0);
    ExecKeeps(lib, cfg, s0, actions);
    var s := Exec(s0, actions).value;
    if a.Work? && Step(s, a).Some? {
      EffectInStep(lib, cfg, s.view, s.callers[a.id]);
    }
  }

  /** Every snapshot that a reader gets, at whatever moment, was published, and but for the empty one of Init it was
      what the disk gave when it was published. */
  lemma ReadersSeeDiskGenerations(lib: Library, cfg: Config, s0: State, actions: seq<Action>, i: nat)
    requires Initial(lib, cfg, s0) && Exec(s0, actions).Some? && Orderly(lib, cfg, s0, actions)
    requires i < |Exec(s0, actions).value.seen|
    ensures var s := Exec(s0, actions).value;
            s.seen[i] == EMPTY ||
            exists k :: 0 <= k < |s.published| && s.published[k].snapshot == s.seen[i]
                        && DiskBuild(lib, cfg, s.published[k].files) == Some(s.seen[i])
  {
    InitialInv(lib, cfg, s0);
    ExecKeeps(lib, cfg, s0, actions);
    var s := Exec(s0, actions).value;
    assert Published(s.published, s.seen[i]);
    var k :| 0 <= k < |s.published| && s.published[k].snapshot == s.seen[i];
    assert Proper(lib, cfg, s.published[k]);
  }

  /** So every reader gets the empty snapshot of the start, or one with nodes and with exactly the enabled templates, all of
      which compile. */
  lemma ReadersSeeUsableSnapshots(lib: Library, cfg: Config, s0: State, actions: seq<Action>, i: nat)
    requires Initial(lib, cfg, s0) && Exec(s0, actions).Some? && Orderly(lib, cfg, s0, actions)
    requires i < |Exec(s0, actions).value.seen|
    ensures Servable(lib, cfg, Exec(s0, actions).value.seen[i])
  {
    ReadersSeeDiskGenerations(lib, cfg, s0, actions, i);
  }

  // ---------- the operations are runs ----------

  /** Taking the permit, and doing the first n effects of a script. */
  function Begun(id: nat, script: seq<Effect>, result: Outcome, n: nat): (r: seq<Action>) {
    [TakePermit(id)] + ([StartWork(id, script, result)] + seq(n, i => Work(id)))
  }

  lemma WorkOnce(id: nat, n: nat)
    requires n > 0
    ensures seq(n, i => Work(id)) == [Work(id)] + seq(n - 1, i => Work(id))
  {
  }

  lemma {:induction false} WorkFor(s: State, id: nat, n: nat)
    requires IsWorking(s, id) && n <= |s.callers[id].rest|
    ensures var t := Exec(s, seq(n, i => Work(id)));
            && t.Some? && t.value.view == After(s.view, s.callers[id].rest[..n]) && IsWorking(t.value, id)
            && t.value.callers[id].rest == s.callers[id].rest[n..]
    decreases n
  {
    var rest := s.callers[id].rest;
    if n == 0 {
      assert rest[..0] == [] && seq(0, i => Work(id)) == [];
    } else {
      WorkOnce(id, n);
      OneStep(s, Work(id), seq(n - 1, i => Work(id)));
      WorkFor(Step(s, Work(id)).value, id, n - 1);
      assert rest[..n][0] == rest[0] && rest[..n][1..] == rest[1..][..n - 1] && rest[1..][n - 1..] == rest[n..];
    }
  }

  /** A stretch of work, as Handler's operations record it, is a run view by view: after its n-th effect the machine
      stands where disk and memory stood. */
  lemma ScriptIsARun(s: State, id: nat, script: seq<Effect>, result: Outcome, n: nat)
    requires s.permits > 0 && IsWaiting(s, id) && id !in s.ended && n <= |script|
    ensures var t := Exec(s, Begun(id, script, result, n));
            && t.Some? && t.value.view == After(s.view, script[..n]) && IsWorking(t.value, id)
            && t.value.callers[id].rest == script[n..]
  {
    var works := seq(n, i => Work(id));
    var admitted := Step(s, TakePermit(id)).value;
    OneStep(s, TakePermit(id), [StartWork(id, script, result)] + works);
    OneStep(admitted, StartWork(id, script, result), works);
    WorkFor(Step(admitted, StartWork(id, script, result)).value, id, n);
  }
}
