/** The file watcher's event loop: one shared timer serves a deadline for every watched path. */
module Watcher {
  import opened Wrappers
  import opened Names

  /** time.Second, in nanoseconds */
  const DEFAULT_DEBOUNCE: int := 1_000_000_000

  /** What the loop's select delivers. Times are readings of a clock that never goes back: `at` is the first reading
      while the step is handled, `armedAt` the one taken when the timer is reset. A path is None when it has no
      canonical form; `ran` is the number of callbacks after which the context is found ended. */
  datatype Step =
    | Event(writes: bool, path: Option<string>, at: nat, armedAt: nat)
    | Tick(at: nat, armedAt: nat, ran: nat)
    | WatchError
    | Stop

  /** A callback run for a path, in the batch of a tick. */
  datatype Call = Call(path: string, at: nat)

  datatype State = State(deadlines: map<string, nat>, timer: Option<nat>, running: bool, calls: seq<Call>)

  const INITIAL := State(map[], None, true, [])

  // ---------- one step ----------

  predicate IsEarliest(d: nat, deadlines: map<string, nat>) {
    (exists p :: p in deadlines && deadlines[p] == d) && forall p :: p in deadlines ==> d <= deadlines[p]
  }

  lemma {:induction false} EarliestExists(deadlines: map<string, nat>)
    requires deadlines != map[]
    ensures exists d: nat :: IsEarliest(d, deadlines)
    decreases |deadlines|
  {
    var p :| p in deadlines;
    var rest := map q | q in deadlines && q != p :: deadlines[q];
    if rest == map[] {
      assert forall q :: q in deadlines && q != p ==> q in rest;
      assert IsEarliest(deadlines[p], deadlines);
    } else {
      assert rest.Keys == deadlines.Keys - {p};
      EarliestExists(rest);
      var d: nat :| IsEarliest(d, rest);
      var q :| q in rest && rest[q] == d;
      assert q in deadlines && deadlines[q] == d;
      assert forall x :: x in deadlines && x != p ==> x in rest && rest[x] == deadlines[x];
      assert IsEarliest(if deadlines[p] < d then deadlines[p] else d, deadlines);
    }
  }

  ghost function Earliest(deadlines: map<string, nat>): (d: nat)
    requires deadlines != map[]
    ensures IsEarliest(d, deadlines)
  {
    EarliestExists(deadlines);
    var d: nat :| IsEarliest(d, deadlines);
    d
  }

  /** When the timer is set to go off: at the earliest deadline, or at once when that has passed. */
  ghost function Armed(deadlines: map<string, nat>, now: nat): (r: Option<nat>) {
    if deadlines == map[] then None
    else if Earliest(deadlines) < now then Some(now) else Some(Earliest(deadlines))
  }

  /** The paths whose deadline has passed. */
  function Due(deadlines: map<string, nat>, now: nat): (r: set<string>) {
    set p | p in deadlines && deadlines[p] <= now
  }

  function CallsFor(names: seq<string>, at: nat): (r: seq<Call>)
    ensures |r| == |names| && forall i :: 0 <= i < |r| ==> r[i] == Call(names[i], at)
  {
    seq(|names|, i requires 0 <= i < |names| => Call(names[i], at))
  }

  function Without(deadlines: map<string, nat>, gone: set<string>): (r: map<string, nat>) {
    map p | p in deadlines && p !in gone :: deadlines[p]
  }

  ghost function TickFrom(s: State, at: nat, armedAt: nat, ran: nat): (r: State) {
    var left := Without(s.deadlines, Due(s.deadlines, at));
    var due := Listing(Due(s.deadlines, at));
    State(left, Armed(left, armedAt), ran >= |due|, s.calls + CallsFor(if ran < |due| then due[..ran] else due, at))
  }

  predicate Relevant(targets: set<string>, e: Step) {
    e.Event? && e.writes && e.path.Some? && e.path.value in targets
  }

  ghost function Next(targets: set<string>, debounce: nat, s: State, e: Step): (r: State) {
    if !s.running then s
    else
      match e
      case Event(_, _, at, armedAt) =>
        if !Relevant(targets, e) then s
        else
          var d := s.deadlines[e.path.value := at + debounce];
          s.(deadlines := d, timer := Armed(d, armedAt))
      case Tick(at, armedAt, ran) => if s.timer.None? then s else TickFrom(s, at, armedAt, ran)
      case WatchError => s
      case Stop => s.(running := false)
  }

  ghost function Run(targets: set<string>, debounce: nat, trace: seq<Step>): (r: State) {
    if trace == [] then INITIAL
    else Next(targets, debounce, Run(targets, debounce, trace[..|trace| - 1]), trace[|trace| - 1])
  }

  // ---------- the loop ----------

  lemma LeaveOne(start: map<string, nat>, now: nat, rest: set<string>, path: string)
    requires path in rest && rest <= start.Keys
    ensures path in Without(start, Due(start, now) - rest) && Without(start, Due(start, now) - rest)[path] == start[path]
    ensures start[path] <= now ==> path !in Due(start, now) - rest
    ensures start[path] <= now ==> Due(start, now) - (rest - {path}) == (Due(start, now) - rest) + {path}
    ensures start[path] <= now ==>
              Without(start, Due(start, now) - (rest - {path})) == Without(Without(start, Due(start, now) - rest), {path})
    ensures start[path] > now ==> Due(start, now) - (rest - {path}) == Due(start, now) - rest
  {
  }

  class Loop {
    const targets: set<string>
    const debounce: nat
    var deadlines: map<string, nat>
    var timer: Option<nat>
    var running: bool
    ghost var calls: seq<Call>

    ghost function View(): State
      reads this
    {
      State(deadlines, timer, running, calls)
    }

    constructor (targets: set<string>, debounce: int)
      ensures this.targets == targets && this.debounce == (if debounce <= 0 then DEFAULT_DEBOUNCE else debounce)
      ensures View() == INITIAL
    {
      this.targets := targets;
      this.debounce := if debounce <= 0 then DEFAULT_DEBOUNCE else debounce;
      deadlines, timer, running, calls := map[], None, true, [];
    }

    /** resetTimer; the zero time stands for "none yet", which no deadline is. */
    method ResetTimer(now: nat)
      requires forall p :: p in deadlines ==> deadlines[p] > 0
      modifies `timer
      ensures timer == Armed(deadlines, now)
    {
      if |deadlines| == 0 {
        timer := None;
        return;
      }
      var earliest: nat := 0;
      var rest := deadlines.Keys;
      while rest != {}
        invariant rest <= deadlines.Keys && (earliest == 0 <==> rest == deadlines.Keys)
        invariant earliest != 0 ==> exists p :: p in deadlines.Keys - rest && deadlines[p] == earliest
        invariant forall p :: p in deadlines.Keys - rest ==> earliest <= deadlines[p]
        decreases |rest|
      {
        var path :| path in rest;
        rest := rest - {path};
        if earliest == 0 || deadlines[path] < earliest {
          earliest := deadlines[path];
        }
      }
      assert IsEarliest(earliest, deadlines);
      var delay := earliest - now;
      if delay < 0 {
        delay := 0;
      }
      timer := Some(now + delay);
    }

    method HandleEvent(writes: bool, path: Option<string>, at: nat, armedAt: nat)
      requires running && debounce > 0 && forall p :: p in deadlines ==> deadlines[p] > 0
      modifies this
      ensures View() == Next(targets, debounce, old(View()), Event(writes, path, at, armedAt))
    {
      if !writes || path.None? || path.value !in targets {
        return;
      }
      deadlines := deadlines[path.value := at + debounce];
      ResetTimer(armedAt);
    }

    /** The timer's channel delivers. */
    method HandleTick(at: nat, armedAt: nat, ran: nat)
      requires running && timer.Some? && forall p :: p in deadlines ==> deadlines[p] > 0
      modifies this
      ensures View() == Next(targets, debounce, old(View()), Tick(at, armedAt, ran))
    {
      var due := TakeDue(at);
      due := SortStrings(due);
      ListingIsUnique(due, Listing(Due(old(deadlines), at)));
      ResetTimer(armedAt);
      var n := 0;
      while n < |due|
        invariant 0 <= n <= |due| && n <= ran && calls == old(calls) + CallsFor(due[..n], at)
        modifies `running, `calls
        invariant running
      {
        if n == ran {
          running := false;
          return;
        }
        calls := calls + [Call(due[n], at)];
        assert due[..n + 1] == due[..n] + [due[n]];
        n := n + 1;
      }
      assert due[..n] == due;
    }

    /** Takes the passed deadlines out of the map, in any order. */
    method TakeDue(now: nat) returns (due: seq<string>)
      modifies `deadlines
      ensures deadlines == Without(old(deadlines), Due(old(deadlines), now))
      ensures Members(due) == Due(old(deadlines), now)
      ensures Distinct(due)
    {
      ghost var all := Due(deadlines, now);
      due := [];
      var rest := deadlines.Keys;
      while rest != {}
        invariant rest <= old(deadlines).Keys
        invariant Members(due) == all - rest && Distinct(due)
        invariant deadlines == Without(old(deadlines), all - rest)
        decreases |rest|
      {
        var path :| path in rest;
        LeaveOne(old(deadlines), now, rest, path);
        rest := rest - {path};
        if deadlines[path] <= now {
          AppendName(due, path);
          due := due + [path];
          deadlines := Without(deadlines, {path});
        }
      }
      assert all - rest == all;
    }

    /** The loop, for the steps its select delivers; a timer that is not set delivers nothing. */
    method Watch(trace: seq<Step>)
      requires debounce > 0 && View() == INITIAL
      modifies this
      ensures View() == Run(targets, debounce, trace)
    {
      var n := 0;
      while n < |trace| && running
        invariant 0 <= n <= |trace| && View() == Run(targets, debounce, trace[..n])
      {
        assert trace[..n + 1][..n] == trace[..n];
        DeadlinesArePositive(targets, debounce, trace[..n]);
        match trace[n] {
          case Event(writes, path, at, armedAt) =>
            HandleEvent(writes, path, at, armedAt);
          case Tick(at, armedAt, ran) =>
            if timer.Some? {
              HandleTick(at, armedAt, ran);
            }
          case WatchError =>
          case Stop =>
            running := false;
        }
        n := n + 1;
      }
      if n < |trace| {
        StoppedForGood(targets, debounce, trace, n);
      } else {
        assert trace[..n] == trace;
      }
    }
  }

  lemma {:induction false} DeadlinesArePositive(targets: set<string>, debounce: nat, trace: seq<Step>)
    requires debounce > 0
    ensures forall p :: p in Run(targets, debounce, trace).deadlines ==> Run(targets, debounce, trace).deadlines[p] > 0
  {
    if trace != [] {
      DeadlinesArePositive(targets, debounce, trace[..|trace| - 1]);
    }
  }

  lemma {:induction false} StoppedForGood(targets: set<string>, debounce: nat, trace: seq<Step>, n: nat)
    requires n <= |trace| && !Run(targets, debounce, trace[..n]).running
    ensures Run(targets, debounce, trace) == Run(targets, debounce, trace[..n])
    decreases |trace|
  {
    if n == |trace| {
      assert trace[..n] == trace;
    } else {
      var front := trace[..|trace| - 1];
      assert front[..n] == trace[..n];
      StoppedForGood(targets, debounce, front, n);
    }
  }

  // ---------- one timer is as good as one for each path ----------

  /** A path with a timer of its own: when that goes off, if set, and when it went off. */
  datatype Own = Own(pending: Option<nat>, calls: seq<nat>)

  /** The path is written, or its timer goes off. */
  datatype OwnStep = Touch(at: nat) | Expire(at: nat)

  predicate Touches(targets: set<string>, e: Step, p: string) {
    Relevant(targets, e) && e.path == Some(p)
  }

  /** Writing sets the timer anew; a timer that is set goes off at its time or later. */
  function OwnNext(debounce: nat, o: Own, e: OwnStep): (r: Option<Own>) {
    match e
    case Touch(at) => Some(Own(Some(at + debounce), o.calls))
    case Expire(at) => if o.pending.Some? && o.pending.value <= at then Some(Own(None, o.calls + [at])) else None
  }

  function OwnRun(debounce: nat, steps: seq<OwnStep>): (r: Option<Own>) {
    if steps == [] then Some(Own(None, []))
    else
      match OwnRun(debounce, steps[..|steps| - 1])
      case None => None
      case Some(o) => OwnNext(debounce, o, steps[|steps| - 1])
  }

  /** What one step of the loop is for one path. */
  ghost function StepsFor(targets: set<string>, s: State, e: Step, p: string): (r: seq<OwnStep>) {
    if Touches(targets, e, p) then [Touch(e.at)]
    else if e.Tick? && p in Due(s.deadlines, e.at) then [Expire(e.at)]
    else []
  }

  ghost function OwnSteps(targets: set<string>, debounce: nat, trace: seq<Step>, p: string): (r: seq<OwnStep>) {
    if trace == [] then []
    else
      var front := trace[..|trace| - 1];
      OwnSteps(targets, debounce, front, p) + StepsFor(targets, Run(targets, debounce, front), trace[|trace| - 1], p)
  }

  function CallsOf(calls: seq<Call>, p: string): (r: seq<nat>) {
    if calls == [] then []
    else CallsOf(calls[..|calls| - 1], p) + if calls[|calls| - 1].path == p then [calls[|calls| - 1].at] else []
  }

  lemma {:induction false} CallsOfSum(a: seq<Call>, b: seq<Call>, p: string)
    ensures CallsOf(a + b, p) == CallsOf(a, p) + CallsOf(b, p)
  {
    if b == [] {
      assert a + b == a;
    } else {
      var n := |b| - 1;
      assert (a + b)[..|a + b| - 1] == a + b[..n];
      CallsOfSum(a, b[..n], p);
    }
  }

  /** A batch runs every one of its paths once. */
  lemma {:induction false} CallsOfBatch(names: seq<string>, at: nat, p: string)
    requires Increasing(names)
    ensures CallsOf(CallsFor(names, at), p) == if p in Members(names) then [at] else []
  {
    if names != [] {
      var n := |names| - 1;
      CallsOfBatch(names[..n], at, p);
      assert CallsFor(names, at)[..n] == CallsFor(names[..n], at);
      MembersOfOneMore(names, n);
      assert names[..n + 1] == names;
      LessIsStrict(names[n], names[n]);
      assert forall i :: 0 <= i < n ==> Less(names[i], names[n]);
    }
  }

  function PendingOf(deadlines: map<string, nat>, p: string): (r: Option<nat>) {
    if p in deadlines then Some(deadlines[p]) else None
  }

  ghost predicate Armable(s: State) {
    s.running ==> (s.timer.Some? <==> s.deadlines != map[])
  }

  lemma {:induction false} AlwaysArmable(targets: set<string>, debounce: nat, trace: seq<Step>)
    ensures Armable(Run(targets, debounce, trace))
  {
    if trace != [] {
      AlwaysArmable(targets, debounce, trace[..|trace| - 1]);
    }
  }

  lemma TickRefines(s: State, at: nat, armedAt: nat, ran: nat, p: string)
    requires TickFrom(s, at, armedAt, ran).running
    ensures var due := p in s.deadlines && s.deadlines[p] <= at;
            var t := TickFrom(s, at, armedAt, ran);
            && PendingOf(t.deadlines, p) == (if due then None else PendingOf(s.deadlines, p))
            && CallsOf(t.calls, p) == CallsOf(s.calls, p) + (if due then [at] else [])
  {
    var due := Listing(Due(s.deadlines, at));
    CallsOfBatch(due, at, p);
    CallsOfSum(s.calls, CallsFor(due, at), p);
  }

  lemma OwnStepMore(debounce: nat, steps: seq<OwnStep>, more: seq<OwnStep>)
    requires |more| <= 1 && OwnRun(debounce, steps).Some?
    ensures OwnRun(debounce, steps + more) ==
            if more == [] then OwnRun(debounce, steps) else OwnNext(debounce, OwnRun(debounce, steps).value, more[0])
  {
    if more == [] {
      assert steps + more == steps;
    } else {
      assert (steps + more)[..|steps + more| - 1] == steps;
    }
  }

  /** A path as the shared loop has it. */
  function OwnOf(s: State, p: string): (r: Own) {
    Own(PendingOf(s.deadlines, p), CallsOf(s.calls, p))
  }

  lemma StepRefines(targets: set<string>, debounce: nat, s: State, e: Step, p: string)
    requires Armable(s) && Next(targets, debounce, s, e).running
    ensures var (steps, end) := (StepsFor(targets, s, e, p), OwnOf(Next(targets, debounce, s, e), p));
            if steps == [] then OwnOf(s, p) == end else OwnNext(debounce, OwnOf(s, p), steps[0]) == Some(end)
  {
    if e.Tick? && s.timer.Some? {
      hide TickFrom, CallsOf;
      TickRefines(s, e.at, e.armedAt, e.ran, p);
    } else {
      hide TickFrom, CallsOf, Armed;
    }
  }

  /** Until it ends, the loop treats every path as a trailing debouncer does that has a timer of its own: what it does
      for the path is a run of that debouncer, with the same deadline pending and the same calls. */
  lemma {:induction false} RefinesOwnTimers(targets: set<string>, debounce: nat, trace: seq<Step>, p: string)
    requires Run(targets, debounce, trace).running
    ensures OwnRun(debounce, OwnSteps(targets, debounce, trace, p)) == Some(OwnOf(Run(targets, debounce, trace), p))
  {
    if trace != [] {
      var front, e := trace[..|trace| - 1], trace[|trace| - 1];
      var s := Run(targets, debounce, front);
      RefinesOwnTimers(targets, debounce, front, p);
      AlwaysArmable(targets, debounce, front);
      StepRefines(targets, debounce, s, e, p);
      OwnStepMore(debounce, OwnSteps(targets, debounce, front, p), StepsFor(targets, s, e, p));
    }
  }

  // ---------- when the timer goes off, and what runs then ----------

  /** The last reading of the clock. */
  function Clock(trace: seq<Step>): (now: nat) {
    if trace == [] then 0
    else
      match trace[|trace| - 1]
      case Event(_, _, _, armedAt) => armedAt
      case Tick(_, armedAt, _) => armedAt
      case WatchError => Clock(trace[..|trace| - 1])
      case Stop => Clock(trace[..|trace| - 1])
  }

  /** The clock never goes back. */
  predicate Timed(trace: seq<Step>) {
    trace == [] || (
      var front, e := trace[..|trace| - 1], trace[|trace| - 1];
      Timed(front) && (e.Event? || e.Tick? ==> Clock(front) <= e.at <= e.armedAt))
  }

  /** While a path is pending the timer is set: for the earliest deadline, unless that had passed when it was set. */
  lemma {:induction false} TimerIsSetForTheEarliest(targets: set<string>, debounce: nat, trace: seq<Step>)
    requires Timed(trace) && Run(targets, debounce, trace).running && Run(targets, debounce, trace).deadlines != map[]
    ensures var s := Run(targets, debounce, trace);
            && s.timer.Some?
            && (s.timer.value == Earliest(s.deadlines) || Earliest(s.deadlines) < s.timer.value <= Clock(trace))
  {
    var front := trace[..|trace| - 1];
    var s, t := Run(targets, debounce, front), Run(targets, debounce, trace);
    AlwaysArmable(targets, debounce, front);
    if s.deadlines != map[] {
      TimerIsSetForTheEarliest(targets, debounce, front);
    }
    assert Clock(front) <= Clock(trace);
  }

  /** No path waits for another: the shared timer is never set later than the path's own would be, unless that time
      has passed already, and then it is not set for any time to come. */
  lemma NoPathWaits(targets: set<string>, debounce: nat, trace: seq<Step>, p: string)
    requires Timed(trace) && Run(targets, debounce, trace).running
    requires var own := OwnRun(debounce, OwnSteps(targets, debounce, trace, p)); own.Some? && own.value.pending.Some?
    ensures var timer := Run(targets, debounce, trace).timer;
            var own := OwnRun(debounce, OwnSteps(targets, debounce, trace, p)).value;
            timer.Some? && (timer.value <= own.pending.value || own.pending.value < timer.value <= Clock(trace))
  {
    RefinesOwnTimers(targets, debounce, trace, p);
    TimerIsSetForTheEarliest(targets, debounce, trace);
  }

  /** The last event processed for a pending path is what its deadline counts from. */
  lemma {:induction false} PendingSince(targets: set<string>, debounce: nat, trace: seq<Step>, p: string) returns (j: nat)
    requires p in Run(targets, debounce, trace).deadlines
    ensures j < |trace| && Touches(targets, trace[j], p) && Run(targets, debounce, trace).deadlines[p] == trace[j].at + debounce
    ensures Run(targets, debounce, trace).running ==> forall n :: j < n < |trace| ==> !Touches(targets, trace[n], p)
  {
    var front, e := trace[..|trace| - 1], trace[|trace| - 1];
    if Run(targets, debounce, front).running && Touches(targets, e, p) {
      j := |trace| - 1;
    } else {
      j := PendingSince(targets, debounce, front, p);
    }
  }

  /** A call at step k of a path whose last event, at step j, is at least the debounce time ago. */
  predicate Trailing(targets: set<string>, debounce: nat, trace: seq<Step>, c: Call, j: nat, k: nat) {
    && j < k < |trace| && Touches(targets, trace[j], c.path)
    && trace[k].Tick? && trace[k].at == c.at && trace[j].at + debounce <= c.at
    && forall n :: j < n < k ==> !Touches(targets, trace[n], c.path)
  }

  lemma {:induction false} CallsAreTrailing(targets: set<string>, debounce: nat, trace: seq<Step>, i: nat)
    returns (j: nat, k: nat)
    requires i < |Run(targets, debounce, trace).calls|
    ensures Trailing(targets, debounce, trace, Run(targets, debounce, trace).calls[i], j, k)
  {
    var front, e := trace[..|trace| - 1], trace[|trace| - 1];
    var s := Run(targets, debounce, front);
    if i < |s.calls| {
      j, k := CallsAreTrailing(targets, debounce, front, i);
      CallsGrow(targets, debounce, s, e);
      assert forall n :: 0 <= n < |front| ==> front[n] == trace[n];
    } else {
      k := |trace| - 1;
      var p := CalledNow(targets, debounce, s, e, i);
      j := PendingSince(targets, debounce, front, p);
      assert forall n :: 0 <= n < |front| ==> front[n] == trace[n];
    }
  }

  lemma CallsGrow(targets: set<string>, debounce: nat, s: State, e: Step)
    ensures s.calls <= Next(targets, debounce, s, e).calls
  {
  }

  lemma CalledNow(targets: set<string>, debounce: nat, s: State, e: Step, i: nat) returns (p: string)
    requires |s.calls| <= i < |Next(targets, debounce, s, e).calls|
    ensures s.running && e.Tick? && Next(targets, debounce, s, e).calls[i] == Call(p, e.at)
    ensures p in s.deadlines && s.deadlines[p] <= e.at
  {
    assert s.running && e.Tick? && s.timer.Some?;
    p := BatchCalls(s, e.at, e.armedAt, e.ran, i);
  }

  lemma BatchCalls(s: State, at: nat, armedAt: nat, ran: nat, i: nat) returns (p: string)
    requires |s.calls| <= i < |TickFrom(s, at, armedAt, ran).calls|
    ensures TickFrom(s, at, armedAt, ran).calls[i] == Call(p, at) && p in Due(s.deadlines, at)
  {
    var due := Listing(Due(s.deadlines, at));
    p := due[i - |s.calls|];
    assert p in Members(due);
  }

  /** The calls of one batch run in the order of their paths. */
  lemma BatchInOrder(targets: set<string>, debounce: nat, s: State, e: Step, i: nat, j: nat)
    requires |s.calls| <= i < j < |Next(targets, debounce, s, e).calls|
    ensures Less(Next(targets, debounce, s, e).calls[i].path, Next(targets, debounce, s, e).calls[j].path)
  {
    var due := Listing(Due(s.deadlines, e.at));
    assert Less(due[i - |s.calls|], due[j - |s.calls|]);
  }

  /** Pending, or called more than n times. */
  ghost predicate Served(s: State, p: string, n: nat) {
    p in s.deadlines || n < |CallsOf(s.calls, p)|
  }

  lemma StepServes(targets: set<string>, debounce: nat, s: State, e: Step, p: string, n: nat)
    requires Armable(s) && Next(targets, debounce, s, e).running && |CallsOf(s.calls, p)| >= n
    requires Served(s, p, n) || Touches(targets, e, p)
    ensures Served(Next(targets, debounce, s, e), p, n)
    ensures |CallsOf(Next(targets, debounce, s, e).calls, p)| >= |CallsOf(s.calls, p)|
  {
    if e.Tick? && s.timer.Some? {
      TickRefines(s, e.at, e.armedAt, e.ran, p);
    }
  }

  /** Until the loop ends, every processed event is followed by a call of its path, or the path is still pending. */
  lemma {:induction false} NothingIsLost(targets: set<string>, debounce: nat, trace: seq<Step>, j: nat, p: string)
    requires j < |trace| && Touches(targets, trace[j], p) && Run(targets, debounce, trace).running
    ensures |CallsOf(Run(targets, debounce, trace).calls, p)| >= |CallsOf(Run(targets, debounce, trace[..j]).calls, p)|
    ensures Served(Run(targets, debounce, trace), p, |CallsOf(Run(targets, debounce, trace[..j]).calls, p)|)
    decreases |trace|
  {
    var front, e := trace[..|trace| - 1], trace[|trace| - 1];
    assert front[..j] == trace[..j];
    AlwaysArmable(targets, debounce, front);
    if j < |front| {
      NothingIsLost(targets, debounce, front, j, p);
    } else {
      assert front == trace[..j];
    }
    StepServes(targets, debounce, Run(targets, debounce, front), e, p,
               |CallsOf(Run(targets, debounce, trace[..j]).calls, p)|);
  }

  lemma DueIsCalled(targets: set<string>, debounce: nat, s: State, e: Step, p: string, n: nat)
    requires Armable(s) && e.Tick? && Next(targets, debounce, s, e).running && |CallsOf(s.calls, p)| >= n && Served(s, p, n)
    requires p in s.deadlines ==> s.deadlines[p] <= e.at
    ensures |CallsOf(Next(targets, debounce, s, e).calls, p)| > n && p !in Next(targets, debounce, s, e).deadlines
  {
    if s.timer.Some? {
      TickRefines(s, e.at, e.armedAt, e.ran, p);
      hide TickFrom, CallsOf;
    }
  }

  /** A tick that comes when the debounce time since the last event of a path is over leaves no call of it open, if the
      batch is carried out. */
  lemma CalledOnceDue(targets: set<string>, debounce: nat, trace: seq<Step>, j: nat, p: string)
    requires j < |trace| && Touches(targets, trace[j], p) && forall n :: j < n < |trace| ==> !Touches(targets, trace[n], p)
    requires var e := trace[|trace| - 1]; e.Tick? && trace[j].at + debounce <= e.at
    requires Run(targets, debounce, trace).running
    ensures |CallsOf(Run(targets, debounce, trace).calls, p)| > |CallsOf(Run(targets, debounce, trace[..j]).calls, p)|
    ensures p !in Run(targets, debounce, trace).deadlines
  {
    hide Next, CallsOf, Armable, Served;
    var front, e := trace[..|trace| - 1], trace[|trace| - 1];
    var s := Run(targets, debounce, front);
    assert front[..j] == trace[..j];
    if !s.running {
      StoppedForGood(targets, debounce, trace, |front|);
    }
    NothingIsLost(targets, debounce, front, j, p);
    AlwaysArmable(targets, debounce, front);
    if p in s.deadlines {
      var i := PendingSince(targets, debounce, front, p);
      assert front[j] == trace[j] && front[i] == trace[i];
    }
    DueIsCalled(targets, debounce, s, e, p, |CallsOf(Run(targets, debounce, trace[..j]).calls, p)|);
  }

  /** The loop ends at Stop, or in a batch: of the paths due then, exactly those behind the first `ran` are not called. */
  lemma EndsInABatch(targets: set<string>, debounce: nat, s: State, e: Step, p: string)
    requires s.running && !Next(targets, debounce, s, e).running && !e.Stop?
    ensures e.Tick? && e.ran < |Due(s.deadlines, e.at)|
    ensures |Next(targets, debounce, s, e).calls| == |s.calls| + e.ran
    ensures PendingOf(Next(targets, debounce, s, e).deadlines, p) ==
            if p in Due(s.deadlines, e.at) then None else PendingOf(s.deadlines, p)
  {
    ListingLength(Due(s.deadlines, e.at));
  }
}
