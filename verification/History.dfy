/** What a piece of work does to the disk and to memory, one effect after the other, and which order it has to keep. */
module History {
  import opened Wrappers
  import opened Disk
  import opened Generation

  /** What the work under the permit may change, and readers may see of it. */
  datatype View = View(files: Files, current: Snapshot, unrestored: bool)

  /** A disk operation leaves the disk like this; a snapshot is published; a rollback could not put some file back. */
  datatype Effect = DiskIs(files: Files) | Publish(snapshot: Snapshot) | RestoreFailed

  /** Something that happened when the disk's log had `at` entries. */
  datatype Event = Event(at: nat, effect: Effect)

  /** How far disk and memory had come at some moment. */
  datatype Mark = Mark(view: View, log: seq<Files>, events: seq<Event>, next: nat, failures: seq<Op>)

  function Apply(v: View, e: Effect): (r: View) {
    match e
    case DiskIs(files) => v.(files := files)
    case Publish(snapshot) => v.(current := snapshot, unrestored := false)
    case RestoreFailed => v.(unrestored := true)
  }

  function After(v: View, script: seq<Effect>): (r: View)
    decreases script
  {
    if script == [] then v else After(Apply(v, script[0]), script[1..])
  }

  // ---------- memory, and the script of a stretch of work ----------

  /** The published snapshot: the last one, or the empty one that Init publishes. */
  function CurrentOf(events: seq<Event>): (r: Snapshot)
    decreases events
  {
    if events == [] then EMPTY
    else
      var (before, last) := (events[..|events| - 1], events[|events| - 1].effect);
      if last.Publish? then last.snapshot else CurrentOf(before)
  }

  predicate UnrestoredOf(events: seq<Event>) {
    events != [] && events[|events| - 1].effect.RestoreFailed?
  }

  /** The events happened in this order while the log grew from `from` entries to `to`. */
  predicate Between(events: seq<Event>, from: nat, to: nat)
    decreases events
  {
    if events == [] then from <= to else from <= events[0].at && Between(events[1..], events[0].at, to)
  }

  function DiskEffects(log: seq<Files>): (r: seq<Effect>) {
    seq(|log|, i requires 0 <= i < |log| => DiskIs(log[i]))
  }

  /** Disk operations and events in the order in which they happened. */
  function Script(log: seq<Files>, from: nat, events: seq<Event>): (r: seq<Effect>)
    requires Between(events, from, |log|)
    decreases events
  {
    if events == [] then DiskEffects(log[from..])
    else
      EventsWithin(events, from, |log|);
      DiskEffects(log[from..events[0].at]) + [events[0].effect] + Script(log, events[0].at, events[1..])
  }

  lemma {:induction false} EventsWithin(events: seq<Event>, from: nat, to: nat)
    requires Between(events, from, to)
    ensures from <= to && (events != [] ==> events[0].at <= to)
    decreases events
  {
    if events != [] {
      EventsWithin(events[1..], events[0].at, to);
    }
  }

  // ---------- the order work has to keep ----------

  /** Files first, the snapshot second. Before the publication the disk may change in any way; the one snapshot that is
      published is what the disk gives at that moment; behind it no cached file changes; and at the end disk and memory
      have one of the outcomes work may have. A failed restore is noted only when some cached file is not as it was. */
  ghost predicate Keeps(lib: Library, cfg: Config, begun: View, v: View, published: bool, script: seq<Effect>)
    decreases script
  {
    if script == [] then Outcome(lib, cfg, begun.files, begun.current, begun.unrestored, v.files, v.current, v.unrestored)
    else Allowed(lib, cfg, begun, v, published, script[0])
         && Keeps(lib, cfg, begun, Apply(v, script[0]), published || script[0].Publish?, script[1..])
  }

  ghost predicate Allowed(lib: Library, cfg: Config, begun: View, v: View, published: bool, e: Effect) {
    match e
    case DiskIs(files) => published ==> SameCache(cfg, v.files, files)
    case Publish(snapshot) => !published && DiskBuild(lib, cfg, v.files) == Some(snapshot)
    case RestoreFailed => !published && !SameCache(cfg, begun.files, v.files)
  }

  /** Work that keeps the order ends in one of the outcomes, wherever it stands. */
  lemma {:induction false} OrderEndsInOutcome(lib: Library, cfg: Config, begun: View, v: View, published: bool, script: seq<Effect>)
    requires Keeps(lib, cfg, begun, v, published, script)
    ensures var w := After(v, script);
            Outcome(lib, cfg, begun.files, begun.current, begun.unrestored, w.files, w.current, w.unrestored)
    decreases script
  {
    if script != [] {
      OrderEndsInOutcome(lib, cfg, begun, Apply(v, script[0]), published || script[0].Publish?, script[1..]);
    }
  }

  lemma FirstEffect(e: Effect, rest: seq<Effect>)
    ensures ([e] + rest)[0] == e && ([e] + rest)[1..] == rest
  {
  }

  lemma FirstDiskEffect(log: seq<Files>)
    requires log != []
    ensures DiskEffects(log) == [DiskIs(log[0])] + DiskEffects(log[1..])
  {
  }

  /** Disk operations before the publication lead to their last state. */
  lemma {:induction false} DiskRun(lib: Library, cfg: Config, begun: View, v: View, log: seq<Files>, rest: seq<Effect>)
    ensures var w := v.(files := LastOf(v.files, log));
            && (Keeps(lib, cfg, begun, v, false, DiskEffects(log) + rest) <==> Keeps(lib, cfg, begun, w, false, rest))
            && After(v, DiskEffects(log) + rest) == After(w, rest)
    decreases log
  {
    if log == [] {
      assert DiskEffects(log) + rest == rest;
    } else {
      FirstDiskEffect(log);
      var behind := DiskEffects(log[1..]) + rest;
      assert DiskEffects(log) + rest == [DiskIs(log[0])] + behind;
      FirstEffect(DiskIs(log[0]), behind);
      DiskRun(lib, cfg, begun, v.(files := log[0]), log[1..], rest);
    }
  }

  /** So do disk operations behind it that leave the cached files alone. */
  lemma {:induction false} QuietRun(lib: Library, cfg: Config, begun: View, v: View, log: seq<Files>)
    requires forall k :: 0 <= k < |log| ==> SameCache(cfg, v.files, log[k])
    ensures var w := v.(files := LastOf(v.files, log));
            && After(v, DiskEffects(log)) == w
            && (Outcome(lib, cfg, begun.files, begun.current, begun.unrestored, w.files, w.current, w.unrestored)
                ==> Keeps(lib, cfg, begun, v, true, DiskEffects(log)))
    decreases log
  {
    if log != [] {
      FirstDiskEffect(log);
      FirstEffect(DiskIs(log[0]), DiskEffects(log[1..]));
      var next := v.(files := log[0]);
      assert SameCache(cfg, v.files, log[0]);
      forall k | 0 <= k < |log[1..]| ensures SameCache(cfg, next.files, log[1..][k]) {
        assert log[1..][k] == log[k + 1];
        SameCacheBoth(cfg, v.files, log[0], log[k + 1]);
      }
      QuietRun(lib, cfg, begun, next, log[1..]);
    }
  }

  lemma SameCacheBoth(cfg: Config, files: Files, a: Files, b: Files)
    requires SameCache(cfg, files, a) && SameCache(cfg, files, b)
    ensures SameCache(cfg, a, b)
  {
    forall p | cfg.Caches(p) ensures Same(a, b, p) {
      assert Same(files, a, p) && Same(files, b, p);
    }
  }

  // ---------- the three shapes work has ----------

  lemma OneScript(log: seq<Files>, from: nat, e: Event)
    requires from <= e.at <= |log|
    ensures Between([e], from, |log|)
    ensures Script(log, from, [e]) == DiskEffects(log[from..e.at]) + ([e.effect] + DiskEffects(log[e.at..]))
  {
    assert [e][1..] == [];
  }

  /** Without a publication and a failed restore, work is in order when it leaves the cached files as they were. */
  lemma NothingPublished(lib: Library, cfg: Config, v: View, log: seq<Files>, from: nat)
    requires from <= |log|
    ensures var (script, end) := (Script(log, from, []), LastOf(v.files, log[from..]));
            && After(v, script) == v.(files := end)
            && (v.unrestored || SameCache(cfg, v.files, end) ==> Keeps(lib, cfg, v, v, false, script))
  {
    var script := Script(log, from, []);
    assert script == DiskEffects(log[from..]) + [];
    DiskRun(lib, cfg, v, v, log[from..], []);
  }

  lemma RestoreFailedOnce(lib: Library, cfg: Config, v: View, log: seq<Files>, from: nat, at: nat)
    requires from <= at <= |log| && !SameCache(cfg, v.files, LastOf(v.files, log[from..at]))
    ensures Between([Event(at, RestoreFailed)], from, |log|)
    ensures var script := Script(log, from, [Event(at, RestoreFailed)]);
            && After(v, script) == View(LastOf(v.files, log[from..]), v.current, true)
            && Keeps(lib, cfg, v, v, false, script)
  {
    OneScript(log, from, Event(at, RestoreFailed));
    var rest := DiskEffects(log[at..]);
    var w := v.(files := LastOf(v.files, log[from..at]));
    DiskRun(lib, cfg, v, v, log[from..at], [RestoreFailed] + rest);
    FirstEffect(RestoreFailed, rest);
    assert rest + [] == rest;
    DiskRun(lib, cfg, v, w.(unrestored := true), log[at..], []);
  }

  /** With one publication and nothing but temporary files behind it, work is in order exactly when the disk gave the
      snapshot at that moment. */
  lemma PublishedOnce(lib: Library, cfg: Config, v: View, log: seq<Files>, from: nat, at: nat, snapshot: Snapshot)
    requires from <= at <= |log|
    requires var stored := LastOf(v.files, log[from..at]); forall k :: at <= k < |log| ==> SameCache(cfg, stored, log[k])
    ensures Between([Event(at, Publish(snapshot))], from, |log|)
    ensures var (script, stored) := (Script(log, from, [Event(at, Publish(snapshot))]), LastOf(v.files, log[from..at]));
            && After(v, script) == View(LastOf(v.files, log[from..]), snapshot, false)
            && (Keeps(lib, cfg, v, v, false, script) <==> DiskBuild(lib, cfg, stored) == Some(snapshot))
  {
    OneScript(log, from, Event(at, Publish(snapshot)));
    var rest := DiskEffects(log[at..]);
    var stored := LastOf(v.files, log[from..at]);
    var w := View(stored, snapshot, false);
    var end := LastOf(stored, log[at..]);
    DiskRun(lib, cfg, v, v, log[from..at], [Publish(snapshot)] + rest);
    FirstEffect(Publish(snapshot), rest);
    forall k | 0 <= k < |log[at..]| ensures SameCache(cfg, stored, log[at..][k]) {
      assert log[at..][k] == log[at + k];
    }
    QuietRun(lib, cfg, v, w, log[at..]);
    SameCacheSameBuild(lib, cfg, stored, end);
  }
}
