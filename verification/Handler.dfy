/** The refresh operations: each builds a candidate, commits files first, and publishes the snapshot second. */
module Handler {
  import opened Wrappers
  import opened Disk
  import opened Names
  import opened Generation
  import opened History
  import opened Interrupted
  import B = Batch

  /** The entries of an open batch hold these contents for these destinations, in this order. */
  ghost predicate StagedAs(es: seq<B.Entry>, files: Files, paths: seq<Path>, datas: seq<Bytes>) {
    && |es| == |paths| == |datas|
    && forall i :: 0 <= i < |es| ==>
         && es[i].destination == paths[i] && es[i].stage.Some? && es[i].stage.value in files
         && files[es[i].stage.value] == Regular(datas[i])
  }

  /** Some node has a tag. */
  predicate SomeTag(nodes: seq<S.Node>) {
    exists i :: 0 <= i < |nodes| && nodes[i].tag != []
  }

  /** At each of these paths there is nothing, or a regular file. */
  predicate PlainAt(paths: seq<Path>, files: Files) {
    forall i :: 0 <= i < |paths| && paths[i] in files ==> files[paths[i]].Regular?
  }

  class Handler {
    const lib: Library
    const cfg: Config
    const disk: Disk
    var current: Snapshot
    /** A failed commit could not put some file back, and no later success has replaced them all. */
    ghost var unrestored: bool
    /** What the fetches have brought so far. */
    ghost var fetches: seq<Bytes>
    /** How often a fetch has brought nothing, or the context has ended. */
    ghost var setbacks: nat
    /** The publications and failed restores so far, and how far the disk's log was at each. */
    ghost var events: seq<Event>

    /** Init: the empty snapshot is published first, then what is on disk, if that is complete. */
    constructor (lib: Library, cfg: Config, disk: Disk)
      requires disk.Valid()
      modifies disk`failures
      ensures Valid() && this.lib == lib && this.cfg == cfg && this.disk == disk && !unrestored
      ensures Coherent(lib, cfg, disk.files, current)
      ensures disk.failures == old(disk.failures) ==>
                current == if DiskBuild(lib, cfg, disk.files).Some? then DiskBuild(lib, cfg, disk.files).value else EMPTY
    {
      this.lib, this.cfg, this.disk, current, unrestored, fetches, events := lib, cfg, disk, EMPTY, false, [], [];
      setbacks := 0;
      new;
      var loaded := LoadSnapshotFromDisk();
      if loaded.Some? {
        ApplySnapshot(loaded.value);
      }
    }

    ghost predicate Valid()
      reads this, disk
    {
      && disk.Valid() && Servable(lib, cfg, current)
      && current == CurrentOf(events) && unrestored == UnrestoredOf(events)
      && (events != [] ==> events[|events| - 1].at <= |disk.log|)
    }

    /** Where disk and memory are now. */
    ghost function Here(): (r: Mark)
      reads this, disk
    {
      Mark(View(disk.files, current, unrestored), disk.log, events, disk.next, disk.failures)
    }

    /** Disk operations and events have been added since then, in step with each other. */
    ghost predicate WentOnFrom(m: Mark)
      reads this, disk
    {
      && Valid() && m.log <= disk.log && m.events <= events
      && Between(events[|m.events|..], |m.log|, |disk.log|)
    }

    /** All that was done to disk and memory since then. */
    ghost function DoneSince(m: Mark): (r: seq<Effect>)
      requires WentOnFrom(m)
      reads this, disk
    {
      Script(disk.log, |m.log|, events[|m.events|..])
    }

    /** What was done leads from the view of then to the one of now, in the order that work has to keep. */
    ghost predicate InOrderSince(m: Mark)
      reads this, disk
    {
      && WentOnFrom(m) && After(m.view, DoneSince(m)) == Here().view
      && Keeps(lib, cfg, m.view, m.view, false, DoneSince(m))
    }

    /** Nothing has gone wrong since then. */
    ghost predicate Undisturbed(failures: seq<Op>, setbacks: nat)
      reads this, disk
    {
      disk.failures == failures && this.setbacks == setbacks
    }

    method ContextEnded() returns (ended: bool)
      modifies `setbacks
      ensures setbacks == old(setbacks) + if ended then 1 else 0
    {
      ended := *;
      if ended {
        setbacks := setbacks + 1;
      }
    }

    /** The only place where the published snapshot changes. */
    method ApplySnapshot(candidate: Snapshot)
      requires Valid() && Usable(lib, cfg.Enabled(), candidate)
      modifies `current, `unrestored, `events
      ensures Valid() && current == candidate && !unrestored
      ensures events == old(events) + [Event(|disk.log|, Publish(candidate))]
    {
      current, unrestored := candidate, false;
      events := events + [Event(|disk.log|, Publish(candidate))];
      assert events[..|events| - 1] == old(events);
    }

    /** enabledTemplateNames */
    method EnabledTemplateNames() returns (names: seq<string>)
      ensures Increasing(names) && Members(names) == cfg.Enabled()
    {
      names := [];
      var rest := cfg.templates.Keys;
      while rest != {}
        invariant rest <= cfg.templates.Keys
        invariant Distinct(names) && Members(names) == cfg.Enabled() - rest
        decreases |rest|
      {
        var name :| name in rest;
        rest := rest - {name};
        if cfg.templates[name] {
          AppendName(names, name);
          names := names + [name];
        }
      }
      names := SortStrings(names);
    }

    /** buildSnapshot */
    method BuildSnapshot(nodeBytes: Bytes, templateBytes: map<string, Bytes>) returns (r: Option<Snapshot>)
      ensures r == Build(lib, cfg.Enabled(), nodeBytes, templateBytes)
      ensures r.Some? <==>
                && lib.parse(nodeBytes).Some? && SomeTag(lib.parse(nodeBytes).value)
                && forall name :: name in cfg.Enabled() ==> name in templateBytes && lib.compiles(templateBytes[name])
      ensures r.Some? ==>
                && S.Lists(S.Firsts(lib.parse(nodeBytes).value), lib.parse(nodeBytes).value, r.value.nodes)
                && r.value.templates.Keys == cfg.Enabled()
                && forall name :: name in cfg.Enabled() ==> r.value.templates[name] == templateBytes[name]
    {
      hide S.Lists, S.Firsts;
      var nodeFile := lib.parse(nodeBytes);
      if nodeFile.None? || |nodeFile.value| == 0 {
        return None;
      }
      var _, kept := S.BuildNodes(nodeFile.value);
      S.KeptIffTagged(nodeFile.value);
      if |kept| == 0 {
        return None;
      }
      var names := EnabledTemplateNames();
      var templates: map<string, Bytes> := map[];
      for i := 0 to |names|
        invariant templates.Keys == Members(names[..i])
        invariant forall n :: n in templates ==> n in templateBytes && lib.compiles(templateBytes[n]) && templates[n] == templateBytes[n]
      {
        var name := names[i];
        MembersOfOneMore(names, i);
        assert name in Members(names);
        if name !in templateBytes || !lib.compiles(templateBytes[name]) {
          return None;
        }
        templates := templates[name := templateBytes[name]];
      }
      assert names[..|names|] == names;
      assert templates == map n | n in cfg.Enabled() :: templateBytes[n];
      r := Some(Snapshot(kept, templates));
    }

    method LoadSnapshotFromDisk() returns (r: Option<Snapshot>)
      modifies disk`failures
      ensures r.Some? ==> DiskBuild(lib, cfg, disk.files) == r
      ensures old(disk.failures) <= disk.failures && (disk.failures == old(disk.failures) ==> r == DiskBuild(lib, cfg, disk.files))
    {
      hide Config.PathOf, Config.NodePath, Config.Enabled, Build, Usable;
      var nodeBytes := disk.Read(cfg.NodePath());
      if nodeBytes.None? {
        return None;
      }
      var names := EnabledTemplateNames();
      var templateBytes: map<string, Bytes> := map[];
      for i := 0 to |names|
        invariant templateBytes.Keys == Members(names[..i])
        invariant forall n :: n in templateBytes ==>
                    Readable(disk.files, cfg.PathOf(n)) && templateBytes[n] == Text(disk.files, cfg.PathOf(n))
        invariant old(disk.failures) <= disk.failures
      {
        MembersOfOneMore(names, i);
        assert names[i] in Members(names);
        var data := disk.Read(cfg.PathOf(names[i]));
        if data.None? {
          return None;
        }
        templateBytes := templateBytes[names[i] := data.value];
      }
      assert names[..|names|] == names;
      assert templateBytes == Texts(cfg, disk.files);
      r := BuildSnapshot(nodeBytes.value, templateBytes);
    }

    /** reloadSnapshot's work */
    method ReloadSnapshot() returns (ok: bool)
      requires Valid()
      modifies `current, `unrestored, `events, `setbacks, disk`failures
      ensures InOrderSince(old(Here()))
      ensures ok ==> DiskBuild(lib, cfg, disk.files) == Some(current) && !unrestored
      ensures Undisturbed(old(disk.failures), old(setbacks)) ==> (ok <==> DiskBuild(lib, cfg, disk.files).Some?)
      ensures !ok ==> current == old(current) && unrestored == old(unrestored)
      ensures Outcome(lib, cfg, old(disk.files), old(current), old(unrestored), disk.files, current, unrestored)
    {
      hide DiskBuild, Build, Usable, Servable, Keeps, After, Script, CurrentOf, UnrestoredOf, LastOf, Between;
      assert disk.log[..|disk.log|] == disk.log;
      var candidate := LoadSnapshotFromDisk();
      BuiltIsUsable(disk.files);
      var cancelled := ContextEnded();
      if candidate.None? || cancelled {
        NothingNew(old(Here()));
        return false;
      }
      ApplySnapshot(candidate.value);
      ok := true;
      PublishedInOrder(old(Here()), |disk.log|);
    }

    lemma BuiltIsUsable(files: Files)
      ensures DiskBuild(lib, cfg, files).Some? ==> Usable(lib, cfg.Enabled(), DiskBuild(lib, cfg, files).value)
    {
    }

    /** The mark was set while this disk was in use. */
    ghost predicate Passed(m: Mark)
      reads this, disk
    {
      Valid() && m.log <= disk.log && m.view.files == LastOf(disk.start, m.log)
    }

    /** A stretch of work without events. */
    lemma NothingNew(m: Mark)
      requires Passed(m) && events == m.events && current == m.view.current && unrestored == m.view.unrestored
      requires unrestored || SameCache(cfg, m.view.files, disk.files)
      ensures InOrderSince(m)
    {
      assert events[|m.events|..] == [];
      NothingPublished(lib, cfg, m.view, disk.log, |m.log|);
    }

    /** The disk when its log had `at` entries. */
    ghost function StoredAt(at: nat): (r: Files)
      requires at <= |disk.log|
      reads disk
    {
      LastOf(disk.start, disk.log[..at])
    }

    /** A stretch of work with one publication, and no change of cached files behind it. */
    ghost predicate PublishedSince(m: Mark, at: nat)
      reads this, disk
    {
      && |m.log| <= at <= |disk.log|
      && events == m.events + [Event(at, Publish(current))]
      && forall k :: at <= k < |disk.log| ==> SameCache(cfg, StoredAt(at), disk.log[k])
    }

    lemma PublishedInOrder(m: Mark, at: nat)
      requires Passed(m) && PublishedSince(m, at)
      ensures WentOnFrom(m) && (InOrderSince(m) <==> DiskBuild(lib, cfg, StoredAt(at)) == Some(current))
    {
      assert events[|m.events|..] == [Event(at, Publish(current))];
      assert StoredAt(at) == LastOf(m.view.files, disk.log[|m.log|..at]);
      PublishedOnce(lib, cfg, m.view, disk.log, |m.log|, at, current);
    }

    /** A stretch of work that failed, perhaps with a failed restore. */
    lemma FailedInOrder(m: Mark, at: nat)
      requires Passed(m) && current == m.view.current && |m.log| <= at <= |disk.log|
      requires if events == m.events
               then unrestored == m.view.unrestored && (unrestored || SameCache(cfg, m.view.files, disk.files))
               else events == m.events + [Event(at, RestoreFailed)] && !SameCache(cfg, m.view.files, StoredAt(at))
      ensures InOrderSince(m)
    {
      hide SameCache, Keeps, Script, Servable, Between;
      if events == m.events {
        NothingNew(m);
      } else {
        assert events[|m.events|..] == [Event(at, RestoreFailed)];
        assert StoredAt(at) == LastOf(m.view.files, disk.log[|m.log|..at]);
        RestoreFailedOnce(lib, cfg, m.view, disk.log, |m.log|, at);
      }
    }

    method StageOne(batch: B.Batch, destination: Path, data: Bytes, validate: Bytes -> bool,
                    ghost paths: seq<Path>, ghost datas: seq<Bytes>) returns (ok: bool)
      requires Valid() && batch.disk == disk && batch.Open() && destination.Formal?
      requires StagedAs(batch.entries, disk.files, paths, datas)
      modifies batch, disk
      ensures Valid() && old(disk.log) <= disk.log
      ensures batch.Open() && SameFormal(old(disk.files), disk.files)
      ensures AllSameFormal(old(disk.files), disk.log[|old(disk.log)|..])
      ensures old(disk.failures) <= disk.failures && old(disk.next) <= disk.next
      ensures ok ==> StagedAs(batch.entries, disk.files, paths + [destination], datas + [data])
      ensures disk.failures == old(disk.failures) && validate(data) && destination !in paths ==> ok
    {
      NotStagedYet(batch.entries, batch.destinations, disk.files, paths, datas, destination);
      var result := batch.Stage(destination, data, validate);
      ok := result.Staged?;
    }

    /** What is staged are these paths and no others. */
    lemma NotStagedYet(es: seq<B.Entry>, destinations: set<Path>, files: Files, paths: seq<Path>, datas: seq<Bytes>, p: Path)
      requires B.OpenOn(es, destinations, files) && StagedAs(es, files, paths, datas)
      ensures p !in paths ==> p !in destinations
    {
      if p in destinations {
        var e :| e in es && e.destination == p;
        var i :| 0 <= i < |es| && es[i] == e;
        assert paths[i] == p;
      }
    }

    /** All these bytes pass the validation of their stages, and no two of these paths are the same. */
    ghost predicate Stageable(nodeBytes: Bytes, names: seq<string>, templateBytes: map<string, Bytes>) {
      && Distinct(names) && NodesOf(lib, nodeBytes) != []
      && (forall n :: n in names ==> n in templateBytes && lib.compiles(templateBytes[n]) && cfg.OwnPath(n))
    }

    lemma NextIsNew(nodeBytes: Bytes, names: seq<string>, templateBytes: map<string, Bytes>, i: nat)
      requires Stageable(nodeBytes, names, templateBytes) && i < |names| && Members(names) == cfg.Enabled()
      ensures cfg.PathOf(names[i]) !in CachePaths(cfg, names)[..i + 1] && lib.compiles(templateBytes[names[i]])
    {
      assert names[i] in names && cfg.OwnPath(names[i]);
      var paths := CachePaths(cfg, names);
      forall j | 0 <= j < i + 1 ensures paths[j] != cfg.PathOf(names[i]) {
        assert j > 0 ==> names[j - 1] in Members(names);
      }
    }

    /** The staging part of refreshAll. */
    method StageAll(batch: B.Batch, nodeBytes: Bytes, names: seq<string>, templateBytes: map<string, Bytes>) returns (ok: bool)
      requires Valid() && batch.disk == disk && batch.Open() && batch.entries == []
      requires Members(names) == cfg.Enabled() && templateBytes.Keys == cfg.Enabled()
      modifies batch, disk
      ensures Valid() && old(disk.log) <= disk.log
      ensures batch.Open() && SameFormal(old(disk.files), disk.files)
      ensures AllSameFormal(old(disk.files), disk.log[|old(disk.log)|..])
      ensures old(disk.failures) <= disk.failures && old(disk.next) <= disk.next
      ensures forall n :: n in names ==> n in templateBytes
      ensures ok ==> StagedAs(batch.entries, disk.files, CachePaths(cfg, names), CacheDatas(nodeBytes, names, templateBytes))
      ensures disk.failures == old(disk.failures) && Stageable(nodeBytes, names, templateBytes) ==> ok
    {
      hide CurrentOf, UnrestoredOf, LastOf, Servable, Usable, Config.PathOf, Config.NodePath, Config.OwnPath, SameFormal, AllSameFormal,
           NodesOf;
      assert Stageable(nodeBytes, names, templateBytes) ==> NodesOf(lib, nodeBytes) != [];
      assert forall i :: 0 <= i < |names| ==> names[i] in Members(names);
      StagedNothing(batch.entries, disk.files);
      FirstPath(nodeBytes, names, templateBytes);
      ok := StageOne(batch, cfg.NodePath(), nodeBytes, b => NodesOf(lib, b) != [], [], []);
      hide *;
      ghost var n0 := |old(disk.log)|;
      var i := 0;
      while ok && i < |names|
        invariant 0 <= i <= |names| && batch.Open() && SameFormal(old(disk.files), disk.files)
        invariant Valid() && old(disk.log) <= disk.log && AllSameFormal(old(disk.files), disk.log[n0..])
        invariant old(disk.failures) <= disk.failures && old(disk.next) <= disk.next
        invariant disk.failures == old(disk.failures) && Stageable(nodeBytes, names, templateBytes) ==> ok
        invariant ok ==>
                    StagedAs(batch.entries, disk.files, CachePaths(cfg, names)[..i + 1], CacheDatas(nodeBytes, names, templateBytes)[..i + 1])
      {
        ghost var before, log := disk.files, disk.log;
        ok := StageTemplate(batch, nodeBytes, names, templateBytes, i);
        SameFormalBoth(old(disk.files), before, disk.files);
        AllSameFormalBoth(old(disk.files), before, n0, log, disk.log);
        i := i + 1;
      }
      if ok {
        AllStaged(nodeBytes, names, templateBytes);
      }
    }

    /** One turn of that loop. */
    method StageTemplate(batch: B.Batch, ghost nodeBytes: Bytes, names: seq<string>, templateBytes: map<string, Bytes>, i: nat)
      returns (ok: bool)
      requires Valid() && batch.disk == disk && batch.Open()
      requires i < |names| && Members(names) == cfg.Enabled() && forall n :: n in names ==> n in templateBytes
      requires StagedAs(batch.entries, disk.files, CachePaths(cfg, names)[..i + 1], CacheDatas(nodeBytes, names, templateBytes)[..i + 1])
      modifies batch, disk
      ensures Valid() && old(disk.log) <= disk.log
      ensures batch.Open() && SameFormal(old(disk.files), disk.files)
      ensures AllSameFormal(old(disk.files), disk.log[|old(disk.log)|..])
      ensures old(disk.failures) <= disk.failures && old(disk.next) <= disk.next
      ensures ok ==>
                StagedAs(batch.entries, disk.files, CachePaths(cfg, names)[..i + 2], CacheDatas(nodeBytes, names, templateBytes)[..i + 2])
      ensures disk.failures == old(disk.failures) && Stageable(nodeBytes, names, templateBytes) ==> ok
    {
      if Stageable(nodeBytes, names, templateBytes) {
        NextIsNew(nodeBytes, names, templateBytes, i);
      }
      OneMore(nodeBytes, names, templateBytes, i);
      ok := StageOne(batch, cfg.PathOf(names[i]), templateBytes[names[i]], lib.compiles,
                     CachePaths(cfg, names)[..i + 1], CacheDatas(nodeBytes, names, templateBytes)[..i + 1]);
    }

    lemma StagedNothing(es: seq<B.Entry>, files: Files)
      requires es == []
      ensures StagedAs(es, files, [], [])
    {
    }

    lemma FirstPath(nodeBytes: Bytes, names: seq<string>, templateBytes: map<string, Bytes>)
      requires forall n :: n in names ==> n in templateBytes
      ensures |CachePaths(cfg, names)| == |CacheDatas(nodeBytes, names, templateBytes)| == |names| + 1
      ensures CachePaths(cfg, names)[..1] == [cfg.NodePath()] && CacheDatas(nodeBytes, names, templateBytes)[..1] == [nodeBytes]
    {
    }

    lemma AllStaged(nodeBytes: Bytes, names: seq<string>, templateBytes: map<string, Bytes>)
      requires forall n :: n in names ==> n in templateBytes
      ensures CachePaths(cfg, names)[..|names| + 1] == CachePaths(cfg, names)
      ensures CacheDatas(nodeBytes, names, templateBytes)[..|names| + 1] == CacheDatas(nodeBytes, names, templateBytes)
    {
    }

    lemma SameFormalBoth(a: Files, b: Files, c: Files)
      requires SameFormal(a, b) && SameFormal(b, c)
      ensures SameFormal(a, c)
    {
      forall p: Path | p.Formal? ensures Same(a, c, p) {
        assert Same(a, b, p) && Same(b, c, p);
      }
    }

    lemma AllSameFormalBoth(a: Files, b: Files, n: nat, log: seq<Files>, log': seq<Files>)
      requires SameFormal(a, b) && n <= |log| && log <= log' && AllSameFormal(a, log[n..]) && AllSameFormal(b, log'[|log|..])
      ensures AllSameFormal(a, log'[n..])
    {
      assert log'[n..] == log[n..] + log'[|log|..];
      forall k | 0 <= k < |log'[|log|..]| ensures SameFormal(a, log'[|log|..][k]) {
        SameFormalBoth(a, b, log'[|log|..][k]);
      }
    }

    lemma OneMore(nodeBytes: Bytes, names: seq<string>, templateBytes: map<string, Bytes>, i: nat)
      requires i < |names| && forall n :: n in names ==> n in templateBytes
      ensures CachePaths(cfg, names)[..i + 2] == CachePaths(cfg, names)[..i + 1] + [cfg.PathOf(names[i])]
      ensures CacheDatas(nodeBytes, names, templateBytes)[..i + 2]
              == CacheDatas(nodeBytes, names, templateBytes)[..i + 1] + [templateBytes[names[i]]]
    {
    }

    ghost predicate Holds(files: Files, paths: seq<Path>, datas: seq<Bytes>)
      requires |paths| == |datas|
    {
      forall i :: 0 <= i < |paths| ==> paths[i] in files && files[paths[i]] == Regular(datas[i])
    }

    /** Commits a batch. */
    method CommitFiles(batch: B.Batch, ghost paths: seq<Path>, ghost datas: seq<Bytes>) returns (ok: bool)
      requires disk.Valid() && batch.disk == disk && batch.Open() && StagedAs(batch.entries, disk.files, paths, datas)
      modifies batch, disk
      ensures disk.Valid() && B.Owned(batch.entries) && old(disk.log) <= disk.log
      ensures forall p: Path :: p.Formal? && p !in paths ==> Same(old(disk.files), disk.files, p)
      ensures ok ==> Holds(disk.files, paths, datas)
      ensures old(disk.failures) <= disk.failures
      ensures (ok ==> PlainAt(paths, old(disk.files))) && (disk.failures == old(disk.failures) && PlainAt(paths, old(disk.files)) ==> ok)
      ensures !ok ==>
                B.KeptOrLost(old(disk.next), old(disk.files), disk.files, disk.failures[|old(disk.failures)|..], B.Removable(batch.entries))
      ensures ok || SameAt(paths, old(disk.files), disk.files) ==>
                AllPartlyStored(old(disk.files), disk.log[|old(disk.log)|..], paths, datas)
    {
      ghost var t, failures, log := batch.Pending(), disk.failures, disk.log;
      assert t.dests == paths;
      PlainTxn(t, paths);
      hide PlainAt, B.AllPlain;
      var result, _ := batch.Commit();
      ok := result.Committed?;
      if ok || SameAt(paths, t.orig, disk.files) {
        assert !ok ==> B.AsBefore(t, disk.files);
        CommitIsPartlyStored(t, disk.log[|log|..], paths, datas);
      }
      if !ok {
        B.CommitKeptOrLost(t, batch.entries, disk.files, disk.failures[|failures|..]);
      }
    }

    lemma PlainTxn(t: B.Txn, paths: seq<Path>)
      requires t.dests == paths
      ensures B.AllPlain(t) <==> PlainAt(paths, t.orig)
    {
      assert forall i :: 0 <= i < |paths| ==> B.Plain(t, i) == (paths[i] in t.orig ==> t.orig[paths[i]].Regular?);
    }

    /** What a failed attempt to store files leaves: every configured file as it was, or, if the operation that would
        have restored it failed, with its old content kept in the backup; and a failed restore is noted exactly when
        some cached file is not as it was. The backups are not among the files that may still be removed. */
    ghost predicate NotStored(m: Mark, removable: set<Path>)
      reads this, disk
    {
      && Passed(m) && current == m.view.current && m.failures <= disk.failures
      && B.KeptOrLost(m.next, m.view.files, disk.files, disk.failures[|m.failures|..], removable)
      && if SameCache(cfg, m.view.files, disk.files)
         then events == m.events && unrestored == m.view.unrestored
         else events == m.events + [Event(|disk.log|, RestoreFailed)]
    }

    /** Commits a batch, and notes a failed restore. */
    method CommitBatch(batch: B.Batch, ghost paths: seq<Path>, ghost datas: seq<Bytes>) returns (ok: bool)
      requires Valid() && batch.disk == disk && batch.Open() && StagedAs(batch.entries, disk.files, paths, datas)
      modifies batch, disk, `unrestored, `events
      ensures Valid() && B.Owned(batch.entries) && old(disk.log) <= disk.log
      ensures forall p: Path :: p.Formal? && p !in paths ==> Same(old(disk.files), disk.files, p)
      ensures ok ==> Holds(disk.files, paths, datas) && events == old(events) && unrestored == old(unrestored)
      ensures old(disk.failures) <= disk.failures
      ensures (ok ==> PlainAt(paths, old(disk.files))) && (disk.failures == old(disk.failures) && PlainAt(paths, old(disk.files)) ==> ok)
      ensures !ok ==> NotStored(old(Here()), B.Removable(batch.entries))
      ensures ok || SameAt(paths, old(disk.files), disk.files) ==>
                AllPartlyStored(old(disk.files), disk.log[|old(disk.log)|..], paths, datas)
    {
      hide StagedAs, Holds, B.KeptOrLost, B.Owned, B.OpenOn, PartlyStored, AllPartlyStored, SameAt, PlainAt,
           Usable, Servable, SameCache, LastOf;
      ok := CommitFiles(batch, paths, datas);
      if !ok && !SameCache(cfg, old(disk.files), disk.files) {
        unrestored := true;
        events := events + [Event(|disk.log|, RestoreFailed)];
        assert events[..|events| - 1] == old(events);
      }
    }

    lemma HeldBuilds(files: Files, nodeBytes: Bytes, names: seq<string>, templateBytes: map<string, Bytes>)
      requires Members(names) == cfg.Enabled() == templateBytes.Keys && forall n :: n in names ==> n in templateBytes
      requires Holds(files, CachePaths(cfg, names), CacheDatas(nodeBytes, names, templateBytes))
      ensures DiskBuild(lib, cfg, files) == Build(lib, cfg.Enabled(), nodeBytes, templateBytes)
      ensures Text(files, cfg.NodePath()) == nodeBytes && Texts(cfg, files) == templateBytes
    {
      var paths, datas := CachePaths(cfg, names), CacheDatas(nodeBytes, names, templateBytes);
      assert paths[0] == cfg.NodePath() && datas[0] == nodeBytes;
      forall n | n in cfg.Enabled() ensures Readable(files, cfg.PathOf(n)) && Text(files, cfg.PathOf(n)) == templateBytes[n] {
        var i :| 0 <= i < |names| && names[i] == n;
        assert paths[i + 1] == cfg.PathOf(n) && datas[i + 1] == templateBytes[n];
      }
      assert Texts(cfg, files) == templateBytes;
    }

    /** One fetch, or None for an error. */
    method Fetch() returns (r: Option<Bytes>)
      modifies `fetches, `setbacks
      ensures fetches == if r.Some? then old(fetches) + [r.value] else old(fetches)
      ensures setbacks == old(setbacks) + if r.Some? then 0 else 1
    {
      r := *;
      if r.Some? {
        fetches := fetches + [r.value];
      } else {
        setbacks := setbacks + 1;
      }
    }

    ghost function InOrder(names: seq<string>, texts: map<string, Bytes>): (r: seq<Bytes>)
      requires Members(names) <= texts.Keys
    {
      seq(|names|, i requires 0 <= i < |names| => assert names[i] in Members(names); texts[names[i]])
    }

    /** These were the fetches: the node list, and when that can be used every enabled template. */
    ghost predicate Brought(before: seq<Bytes>, payload: Bytes, texts: map<string, Bytes>)
      reads this
    {
      if lib.normalize(payload).None? then fetches == before + [payload]
      else texts.Keys == cfg.Enabled() && fetches == before + [payload] + InOrder(Listing(cfg.Enabled()), texts)
    }

    /** Fetches the node list and every enabled template. */
    method FetchAll(names: seq<string>) returns (r: Option<(Bytes, map<string, Bytes>)>, ghost payload: Bytes)
      requires Increasing(names) && Members(names) == cfg.Enabled()
      modifies `fetches, `setbacks
      ensures old(setbacks) <= setbacks && (setbacks == old(setbacks) ==> (r.Some? <==> lib.normalize(payload).Some?))
      ensures setbacks == old(setbacks) && r.None? ==> fetches == old(fetches) + [payload]
      ensures r.Some? ==>
                && r.value.1.Keys == cfg.Enabled() && lib.normalize(payload) == Some(r.value.0)
                && fetches == old(fetches) + [payload] + InOrder(names, r.value.1)
    {
      payload := [];
      var fetched := Fetch();
      if fetched.None? {
        return None, payload;
      }
      payload := fetched.value;
      var normalized := lib.normalize(fetched.value);
      if normalized.None? {
        return None, payload;
      }
      var templateBytes: map<string, Bytes> := map[];
      for i := 0 to |names|
        invariant templateBytes.Keys == Members(names[..i])
        invariant fetches == old(fetches) + [payload] + InOrder(names[..i], templateBytes) && old(setbacks) <= setbacks
      {
        MembersOfOneMore(names, i);
        var data := Fetch();
        if data.None? {
          return None, payload;
        }
        InOrderGrows(names, i, templateBytes, data.value);
        templateBytes := templateBytes[names[i] := data.value];
      }
      assert names[..|names|] == names;
      var cancelled := ContextEnded();
      r := if cancelled then None else Some((normalized.value, templateBytes));
    }

    lemma InOrderGrows(names: seq<string>, i: nat, texts: map<string, Bytes>, data: Bytes)
      requires Increasing(names) && i < |names| && texts.Keys == Members(names[..i])
      ensures Members(names[..i + 1]) <= texts[names[i] := data].Keys
      ensures InOrder(names[..i + 1], texts[names[i] := data]) == InOrder(names[..i], texts) + [data]
    {
      MembersOfOneMore(names, i);
      forall k | 0 <= k < i ensures names[k] != names[i] {
        LessIsStrict(names[k], names[i]);
      }
    }

    /** The deferred Abort of a batch: no formal file changes. */
    method AbortBatch(batch: B.Batch)
      requires Valid() && batch.disk == disk && B.Owned(batch.entries)
      modifies batch, disk
      ensures Valid() && old(disk.log) <= disk.log && old(disk.failures) <= disk.failures
      ensures SameFormal(old(disk.files), disk.files)
      ensures forall k :: |old(disk.log)| <= k < |disk.log| ==> SameFormal(old(disk.files), disk.log[k])
      ensures AllSameFormal(old(disk.files), disk.log[|old(disk.log)|..])
      ensures forall p :: p !in old(B.Removable(batch.entries)) ==> Same(old(disk.files), disk.files, p)
      ensures forall p: Path :: p.Formal? ==> p !in old(B.Removable(batch.entries))
    {
      var _ := batch.Abort();
    }

    /** A batch takes no destination twice. */
    lemma AllOwnPaths(es: seq<B.Entry>, destinations: set<Path>, files: Files, names: seq<string>, datas: seq<Bytes>)
      requires B.OpenOn(es, destinations, files) && StagedAs(es, files, CachePaths(cfg, names), datas) && Members(names) == cfg.Enabled()
      ensures forall name :: name in cfg.Enabled() ==> cfg.OwnPath(name)
    {
      forall name | name in cfg.Enabled() ensures cfg.OwnPath(name) {
        var i :| 0 <= i < |names| && names[i] == name;
        OwnDestination(es, destinations, files, names, datas, i);
        forall other | other in cfg.Enabled() && other != name ensures cfg.PathOf(other) != cfg.PathOf(name) {
          var j :| 0 <= j < |names| && names[j] == other;
        }
      }
    }

    lemma OwnDestination(es: seq<B.Entry>, destinations: set<Path>, files: Files, names: seq<string>, datas: seq<Bytes>, i: nat)
      requires B.OpenOn(es, destinations, files) && StagedAs(es, files, CachePaths(cfg, names), datas) && i < |names|
      ensures cfg.PathOf(names[i]) != cfg.NodePath()
      ensures forall j :: 0 <= j < |names| && j != i ==> cfg.PathOf(names[j]) != cfg.PathOf(names[i])
    {
      var paths := CachePaths(cfg, names);
      assert es[0].destination == paths[0] && es[i + 1].destination == paths[i + 1];
      forall j | 0 <= j < |names| && j != i ensures cfg.PathOf(names[j]) != cfg.PathOf(names[i]) {
        assert es[j + 1].destination == paths[j + 1];
      }
    }

    /** Staging and committing the node list and every template. */
    method StoreAll(nodeBytes: Bytes, names: seq<string>, templateBytes: map<string, Bytes>) returns (ok: bool, batch: B.Batch)
      requires Valid() && Members(names) == cfg.Enabled() == templateBytes.Keys
      modifies disk, `unrestored, `events, `setbacks
      ensures Valid() && old(disk.log) <= disk.log && fresh(batch) && batch.disk == disk && B.Owned(batch.entries)
      ensures ok ==> events == old(events)
      ensures ok ==> DiskBuild(lib, cfg, disk.files) == Build(lib, cfg.Enabled(), nodeBytes, templateBytes)
      ensures ok ==> Text(disk.files, cfg.NodePath()) == nodeBytes && Texts(cfg, disk.files) == templateBytes
      ensures ok ==> forall name :: name in cfg.Enabled() ==> cfg.OwnPath(name)
      ensures old(disk.failures) <= disk.failures && old(setbacks) <= setbacks
      ensures ok ==> PlainAt(CachePaths(cfg, names), old(disk.files))
      ensures Undisturbed(old(disk.failures), old(setbacks)) && Stageable(nodeBytes, names, templateBytes) ==>
                PlainAt(CachePaths(cfg, names), old(disk.files)) ==> ok
      ensures !ok ==> NotStored(old(Here()), B.Removable(batch.entries))
      ensures ok || SameCache(cfg, old(disk.files), disk.files) ==>
                RefreshStates(cfg, old(disk.files), disk.log[|old(disk.log)|..], nodeBytes, names, templateBytes)
    {
      hide CurrentOf, UnrestoredOf, B.KeptOrLost, B.Removable, StagedAs, Holds, SameFormal, LastOf, AllSameFormal, AllPartlyStored,
           SameCache, SameAt, CachePaths, CacheDatas, PlainAt, Usable, Servable;
      assert forall i :: 0 <= i < |names| ==> names[i] in Members(names);
      batch := new B.Batch(disk);
      var staged := StageAll(batch, nodeBytes, names, templateBytes);
      ghost var m, log := Here(), disk.log;
      ghost var paths, datas := CachePaths(cfg, names), CacheDatas(nodeBytes, names, templateBytes);
      StagingStoresNothing(old(disk.files), log[|old(disk.log)|..], nodeBytes, names, templateBytes);
      CachedPathsSame(old(disk.files), disk.files, disk.files, nodeBytes, names, templateBytes);
      SamePlain(paths, old(disk.files), disk.files);
      var cancelled := ContextEnded();
      if !staged || cancelled {
        OnlyStaged(old(Here()), B.Removable(batch.entries));
        return false, batch;
      }
      AllOwnPaths(batch.entries, batch.destinations, disk.files, names, CacheDatas(nodeBytes, names, templateBytes));
      ok := CommitBatch(batch, CachePaths(cfg, names), CacheDatas(nodeBytes, names, templateBytes));
      if ok {
        HeldBuilds(disk.files, nodeBytes, names, templateBytes);
      } else {
        NotStoredSince(old(Here()), m, B.Removable(batch.entries));
      }
      if ok || SameCache(cfg, old(disk.files), disk.files) {
        CachedPathsSame(old(disk.files), m.view.files, disk.files, nodeBytes, names, templateBytes);
        StoredFurther(old(disk.files), m.view.files, |old(disk.log)|, log, disk.log, paths, datas);
      }
    }

    lemma StagingStoresNothing(before: Files, states: seq<Files>, nodeBytes: Bytes, names: seq<string>,
                               texts: map<string, Bytes>)
      requires AllSameFormal(before, states) && forall x :: x in names ==> x in texts
      ensures AllPartlyStored(before, states, CachePaths(cfg, names), CacheDatas(nodeBytes, names, texts))
    {
      forall k | 0 <= k < |states| ensures PartlyStored(before, states[k], CachePaths(cfg, names), CacheDatas(nodeBytes, names, texts)) {
        NothingStoredYet(before, states[k], CachePaths(cfg, names), CacheDatas(nodeBytes, names, texts));
      }
    }

    lemma CachedPathsSame(before: Files, staged: Files, after: Files, nodeBytes: Bytes, names: seq<string>,
                          texts: map<string, Bytes>)
      requires SameFormal(before, staged) && Members(names) == cfg.Enabled() && forall x :: x in names ==> x in texts
      ensures AllFormal(CachePaths(cfg, names)) && |CachePaths(cfg, names)| == |CacheDatas(nodeBytes, names, texts)|
      ensures SameCache(cfg, before, after) ==> SameAt(CachePaths(cfg, names), staged, after)
    {
      var paths := CachePaths(cfg, names);
      if SameCache(cfg, before, after) {
        forall i | 0 <= i < |paths| ensures Same(staged, after, paths[i]) {
          assert i > 0 ==> names[i - 1] in Members(names);
          assert cfg.Caches(paths[i]);
          assert Same(before, staged, paths[i]);
        }
      }
    }

    lemma SamePlain(paths: seq<Path>, a: Files, b: Files)
      requires SameFormal(a, b) && AllFormal(paths)
      ensures PlainAt(paths, a) <==> PlainAt(paths, b)
    {
      forall i | 0 <= i < |paths| ensures Same(a, b, paths[i]) {
      }
    }

    /** Staging alone stores nothing. */
    lemma OnlyStaged(m: Mark, removable: set<Path>)
      requires Passed(m) && SameFormal(m.view.files, disk.files) && m.failures <= disk.failures
      requires current == m.view.current && events == m.events && unrestored == m.view.unrestored
      ensures NotStored(m, removable)
    {
      FormalSameBuild(m.view.files, disk.files);
    }

    /** Seen from before the staging, a failed commit is the same. */
    lemma NotStoredSince(m0: Mark, m: Mark, removable: set<Path>)
      requires Passed(m0) && NotStored(m, removable) && SameFormal(m0.view.files, m.view.files)
      requires m0.next <= m.next && m0.failures <= m.failures && m0.events == m.events
      requires m0.view.current == m.view.current && m0.view.unrestored == m.view.unrestored
      ensures NotStored(m0, removable)
    {
      var late, all := disk.failures[|m.failures|..], disk.failures[|m0.failures|..];
      assert all == m.failures[|m0.failures|..] + late;
      B.KeptSince(m0.next, m.next, m0.view.files, m.view.files, disk.files, late, all, removable);
      SameCacheFrom(m0.view.files, m.view.files, disk.files);
    }

    lemma SameCacheFrom(a: Files, b: Files, c: Files)
      requires SameFormal(a, b)
      ensures SameCache(cfg, a, c) <==> SameCache(cfg, b, c)
    {
      forall p | cfg.Caches(p) ensures Same(a, c, p) <==> Same(b, c, p) {
        assert p.Formal?;
        assert Same(a, b, p);
      }
    }

    /** What a full refresh is about to commit and publish. */
    method PrepareAll(names: seq<string>)
      returns (r: Option<((Bytes, map<string, Bytes>), Snapshot)>, ghost payload: Bytes, ghost texts: map<string, Bytes>)
      requires names == Listing(cfg.Enabled())
      modifies `fetches, `setbacks
      ensures old(setbacks) <= setbacks && (r.Some? ==> texts == r.value.0.1)
      ensures setbacks == old(setbacks) ==>
                && Brought(old(fetches), payload, texts)
                && (r.Some? <==> lib.normalize(payload).Some? && Build(lib, cfg.Enabled(), lib.normalize(payload).value, texts).Some?)
      ensures r.Some? ==>
                && r.value.0.1.Keys == cfg.Enabled() && lib.normalize(payload) == Some(r.value.0.0)
                && fetches == old(fetches) + [payload] + InOrder(Listing(cfg.Enabled()), r.value.0.1)
                && Build(lib, cfg.Enabled(), r.value.0.0, r.value.0.1) == Some(r.value.1)
    {
      var fetched;
      fetched, payload := FetchAll(names);
      texts := map[];
      if fetched.None? {
        return None, payload, texts;
      }
      texts := fetched.value.1;
      var candidate := BuildSnapshot(fetched.value.0, fetched.value.1);
      r := if candidate.None? then None else Some((fetched.value, candidate.value));
    }

    lemma FormalSameBuild(a: Files, b: Files)
      requires SameFormal(a, b)
      ensures SameCache(cfg, a, b) && DiskBuild(lib, cfg, a) == DiskBuild(lib, cfg, b)
      ensures Text(a, cfg.NodePath()) == Text(b, cfg.NodePath()) && Texts(cfg, a) == Texts(cfg, b)
    {
      forall p | cfg.Caches(p) ensures Same(a, b, p) {
        assert p.Formal?;
      }
      SameCacheSameBuild(lib, cfg, a, b);
    }

    /** Nothing that a snapshot is built from has changed since. */
    lemma QuietSince(at: nat, stored: Files)
      requires at <= |disk.log| && stored == StoredAt(at)
      requires forall k :: at <= k < |disk.log| ==> SameFormal(stored, disk.log[k])
      ensures forall k :: at <= k < |disk.log| ==> SameCache(cfg, StoredAt(at), disk.log[k])
    {
      forall k | at <= k < |disk.log| ensures SameCache(cfg, StoredAt(at), disk.log[k]) {
        FormalSameBuild(stored, disk.log[k]);
      }
    }

    /** What a failed refresh leaves: memory as it was; every configured file as it was, or, if the operation that would
        have restored it failed, with its old content kept in a backup; and a failed restore is noted exactly when some
        cached file is not as it was. */
    ghost predicate NothingStored(m: Mark)
      reads this, disk
    {
      && current == m.view.current && m.failures <= disk.failures
      && B.KeptOrLost(m.next, m.view.files, disk.files, disk.failures[|m.failures|..], {})
      && if SameCache(cfg, m.view.files, disk.files) then events == m.events && unrestored == m.view.unrestored
         else unrestored && |events| == |m.events| + 1
    }

    lemma OutcomeOfNothing(m: Mark)
      requires NothingStored(m)
      ensures Outcome(lib, cfg, m.view.files, m.view.current, m.view.unrestored, disk.files, current, unrestored)
    {
      hide DiskBuild, B.KeptOrLost;
    }

    /** A refresh that fails before it touches the disk. */
    lemma NothingTouched(m: Mark)
      requires Passed(m) && disk.files == m.view.files && m.failures <= disk.failures
      requires events == m.events && current == m.view.current && unrestored == m.view.unrestored
      ensures NothingStored(m) && InOrderSince(m)
    {
      NothingNew(m);
    }

    /** How a refresh ends: the snapshot is published when the files are committed, and the batch is aborted. */
    method Finish(ok: bool, batch: B.Batch, candidate: Snapshot, ghost m: Mark)
      requires Valid() && batch.disk == disk && B.Owned(batch.entries) && (ok ==> Usable(lib, cfg.Enabled(), candidate))
      requires if ok then Passed(m) && events == m.events && current == m.view.current else NotStored(m, B.Removable(batch.entries))
      modifies batch, disk, `current, `unrestored, `events
      ensures Valid() && old(disk.log) <= disk.log && old(disk.failures) <= disk.failures
      ensures SameFormal(old(disk.files), disk.files) && WentOnFrom(m)
      ensures ok ==> current == candidate && !unrestored
      ensures ok ==> PublishedSince(m, |old(disk.log)|) && StoredAt(|old(disk.log)|) == old(disk.files)
      ensures ok ==> (InOrderSince(m) <==> DiskBuild(lib, cfg, old(disk.files)) == Some(candidate))
      ensures !ok ==> InOrderSince(m) && NothingStored(m)
      ensures AllSameFormal(old(disk.files), disk.log[|old(disk.log)|..])
    {
      hide B.KeptOrLost, B.Removable, B.Owned, DiskBuild, Keeps, After, Script, AllSameFormal, Usable, Servable;
      ghost var at, stored := |disk.log|, disk.files;
      ghost var removable, failures := B.Removable(batch.entries), disk.failures;
      assert disk.log[..at] == disk.log;
      if ok {
        ApplySnapshot(candidate);
      }
      AbortBatch(batch);
      if ok {
        QuietSince(at, stored);
        PublishedInOrder(m, at);
      } else {
        NothingStoredAfter(m, stored, removable, failures);
        FailedInOrder(m, at);
      }
    }

    /** The Abort behind a failed attempt keeps all of that. */
    lemma NothingStoredAfter(m: Mark, stored: Files, removable: set<Path>, failures: seq<Op>)
      requires Valid() && m.failures <= failures <= disk.failures && current == m.view.current
      requires B.KeptOrLost(m.next, m.view.files, stored, failures[|m.failures|..], removable)
      requires (forall p :: p !in removable ==> Same(stored, disk.files, p)) && forall p: Path :: p.Formal? ==> p !in removable
      requires if SameCache(cfg, m.view.files, stored) then events == m.events && unrestored == m.view.unrestored
               else unrestored && |events| == |m.events| + 1
      ensures NothingStored(m) && (SameCache(cfg, m.view.files, stored) <==> SameCache(cfg, m.view.files, disk.files))
    {
      assert disk.failures[|m.failures|..] == failures[|m.failures|..] + disk.failures[|failures|..];
      B.KeptByCleanup(m.next, m.view.files, stored, disk.files, failures[|m.failures|..], disk.failures[|m.failures|..], removable);
      forall p | cfg.Caches(p) ensures Same(m.view.files, stored, p) <==> Same(m.view.files, disk.files, p) {
        assert p.Formal? && Same(stored, disk.files, p);
      }
    }

    /** The files first, the snapshot second. */
    method StoreAndPublish(nodeBytes: Bytes, names: seq<string>, templateBytes: map<string, Bytes>, candidate: Snapshot)
      returns (ok: bool)
      requires Valid() && Members(names) == cfg.Enabled() == templateBytes.Keys
      requires Build(lib, cfg.Enabled(), nodeBytes, templateBytes) == Some(candidate)
      modifies `current, `unrestored, `events, `setbacks, disk
      ensures Valid() && InOrderSince(old(Here()))
      ensures old(disk.failures) <= disk.failures && old(setbacks) <= setbacks
      ensures Undisturbed(old(disk.failures), old(setbacks)) && Distinct(names) ==>
                (ok <==> AllOwn() && PlainAt(CachePaths(cfg, names), old(disk.files)))
      ensures ok ==>
                && DiskBuild(lib, cfg, disk.files) == Some(current) && !unrestored && current == candidate
                && Text(disk.files, cfg.NodePath()) == nodeBytes && Texts(cfg, disk.files) == templateBytes
                && (forall name :: name in cfg.Enabled() ==> cfg.OwnPath(name))
      ensures !ok ==> NothingStored(old(Here()))
      ensures old(disk.log) <= disk.log
      ensures ok || SameCache(cfg, old(disk.files), disk.files) ==>
                RefreshStates(cfg, old(disk.files), disk.log[|old(disk.log)|..], nodeBytes, names, templateBytes)
    {
      hide DiskBuild, Build, Text, Texts, StoredAt, WentOnFrom, InOrderSince, PublishedSince, NothingStored, NotStored, SameFormal,
           SameCache, RefreshStates, AllSameFormal, CurrentOf, UnrestoredOf, PlainAt, CachePaths, Usable, Servable, Config.OwnPath,
           Stageable, Members;
      BuiltIsStageable(nodeBytes, names, templateBytes);
      var batch;
      ok, batch := StoreAll(nodeBytes, names, templateBytes);
      ghost var stored, log := disk.files, disk.log;
      Finish(ok, batch, candidate, old(Here()));
      FormalSameBuild(stored, disk.files);
      SameCacheBefore(old(disk.files), stored, disk.files);
      if ok || SameCache(cfg, old(disk.files), disk.files) {
        assert log[..|old(disk.log)|] == old(disk.log);
        RefreshCleaned(cfg, disk.start, |old(disk.log)|, log, disk.log, nodeBytes, names, templateBytes);
      }
    }

    /** Every enabled template has a path of its own. */
    ghost predicate AllOwn() {
      forall name :: name in cfg.Enabled() ==> cfg.OwnPath(name)
    }

    lemma BuiltIsStageable(nodeBytes: Bytes, names: seq<string>, templateBytes: map<string, Bytes>)
      requires Members(names) == cfg.Enabled() && Build(lib, cfg.Enabled(), nodeBytes, templateBytes).Some?
      ensures Distinct(names) && AllOwn() ==> Stageable(nodeBytes, names, templateBytes)
      ensures Usable(lib, cfg.Enabled(), Build(lib, cfg.Enabled(), nodeBytes, templateBytes).value)
    {
      assert forall n :: n in names ==> n in Members(names);
    }

    lemma SameCacheBefore(a: Files, b: Files, c: Files)
      requires SameFormal(b, c)
      ensures SameCache(cfg, a, c) <==> SameCache(cfg, a, b)
    {
      forall p | cfg.Caches(p) ensures Same(a, c, p) <==> Same(a, b, p) {
        assert p.Formal?;
        assert Same(b, c, p);
      }
    }

    /** refreshAll: on success the disk holds what was just fetched, the templates in the order of their names, and
        the published snapshot is built from it. */
    method RefreshAll() returns (ok: bool, ghost payload: Bytes, ghost nodeBytes: Bytes, ghost texts: map<string, Bytes>)
      requires Valid()
      modifies `current, `unrestored, `fetches, `events, `setbacks, disk
      ensures Valid() && InOrderSince(old(Here()))
      ensures Undisturbed(old(disk.failures), old(setbacks)) ==> Brought(old(fetches), payload, texts)
      ensures Undisturbed(old(disk.failures), old(setbacks)) ==>
                (ok <==>
                  && lib.normalize(payload).Some? && Build(lib, cfg.Enabled(), lib.normalize(payload).value, texts).Some?
                  && AllOwn() && PlainAt(CachePaths(cfg, Listing(cfg.Enabled())), old(disk.files)))
      ensures ok ==> DiskBuild(lib, cfg, disk.files) == Some(current) && !unrestored
      ensures ok ==> forall name :: name in cfg.Enabled() ==> cfg.OwnPath(name)
      ensures ok ==> lib.normalize(payload) == Some(Text(disk.files, cfg.NodePath()))
      ensures ok ==> fetches == old(fetches) + [payload] + InOrder(Listing(cfg.Enabled()), Texts(cfg, disk.files))
      ensures !ok ==> NothingStored(old(Here()))
      ensures old(disk.log) <= disk.log
      ensures disk.log != old(disk.log) ==>
                && lib.normalize(payload) == Some(nodeBytes) && texts.Keys == cfg.Enabled()
                && fetches == old(fetches) + [payload] + InOrder(Listing(cfg.Enabled()), texts)
                && (ok || SameCache(cfg, old(disk.files), disk.files) ==>
                      RefreshStates(cfg, old(disk.files), disk.log[|old(disk.log)|..], nodeBytes, Listing(cfg.Enabled()), texts))
      ensures Outcome(lib, cfg, old(disk.files), old(current), old(unrestored), disk.files, current, unrestored)
    {
      hide RefreshStates, SameCache, NothingStored, SameFormal, DiskBuild, Build, Text, Texts, InOrderSince, CurrentOf, UnrestoredOf,
           Config.OwnPath, PlainAt, CachePaths, Usable, Servable, AllOwn;
      nodeBytes, texts := [], map[];
      var names := EnabledTemplateNames();
      ListingIsUnique(names, Listing(cfg.Enabled()));
      ListingIsDistinct(cfg.Enabled());
      var prepared;
      prepared, payload, texts := PrepareAll(names);
      if prepared.None? {
        NothingTouched(old(Here()));
        OutcomeOfNothing(old(Here()));
        return false, payload, nodeBytes, texts;
      }
      nodeBytes, texts := prepared.value.0.0, prepared.value.0.1;
      ok := StoreAndPublish(prepared.value.0.0, names, prepared.value.0.1, prepared.value.1);
      if !ok {
        OutcomeOfNothing(old(Here()));
      }
    }

    ghost predicate OthersReadableFor(name: string, files: Files) {
      forall other :: other in cfg.Enabled() && other != name ==> Readable(files, cfg.PathOf(other))
    }

    /** The other templates' cached bytes, with the new ones for this template. */
    method ReadOthers(names: seq<string>, name: string, data: Bytes) returns (r: Option<map<string, Bytes>>)
      requires Members(names) == cfg.Enabled()
      modifies disk`failures
      ensures old(disk.failures) <= disk.failures
      ensures disk.failures == old(disk.failures) ==> (r.Some? <==> OthersReadableFor(name, disk.files))
      ensures r.Some? ==> r.value == WithNew(cfg, disk.files, name, data)
      ensures r.Some? ==> forall other :: other in cfg.Enabled() && other != name ==> Readable(disk.files, cfg.PathOf(other))
    {
      var templateBytes: map<string, Bytes> := map[];
      assert Members(names[..0]) == {};
      hide Members, Config.PathOf;
      for i := 0 to |names|
        invariant templateBytes.Keys == Members(names[..i])
        invariant forall n :: n in templateBytes ==>
                    && templateBytes[n] == (if n == name then data else Text(disk.files, cfg.PathOf(n)))
                    && (n != name ==> Readable(disk.files, cfg.PathOf(n)))
        invariant old(disk.failures) <= disk.failures
      {
        MembersOfOneMore(names, i);
        if names[i] == name {
          templateBytes := templateBytes[name := data];
        } else {
          EachIsMember(names, i);
          var cached := disk.Read(cfg.PathOf(names[i]));
          if cached.None? {
            return None;
          }
          templateBytes := templateBytes[names[i] := cached.value];
        }
      }
      assert names[..|names|] == names;
      r := Some(templateBytes);
    }

    lemma EachIsMember(names: seq<string>, i: nat)
      requires i < |names|
      ensures names[i] in Members(names)
    {
    }

    /** Staging and committing one template. */
    method StoreOne(name: string, data: Bytes) returns (ok: bool, batch: B.Batch)
      requires Valid() && name in cfg.Enabled()
      modifies disk, `unrestored, `events, `setbacks
      ensures old(disk.failures) <= disk.failures && old(setbacks) <= setbacks
      ensures (ok ==> PlainAt([cfg.PathOf(name)], old(disk.files)))
              && (Undisturbed(old(disk.failures), old(setbacks)) && lib.compiles(data) && PlainAt([cfg.PathOf(name)], old(disk.files)) ==> ok)
      ensures Valid() && old(disk.log) <= disk.log && fresh(batch) && batch.disk == disk && B.Owned(batch.entries)
      ensures ok ==> events == old(events)
      ensures ok ==> OneHolds(old(disk.files), disk.files, cfg.PathOf(name), data)
      ensures !ok ==> NotStored(old(Here()), B.Removable(batch.entries))
    {
      hide CurrentOf, UnrestoredOf, B.KeptOrLost, B.Removable, Holds, SameFormal, OneHolds, LastOf, PlainAt, Usable, Servable,
           Config.PathOf, SameCache, StagedAs, B.Owned, Keeps;
      StagedNothing([], disk.files);
      batch := new B.Batch(disk);
      var p := cfg.PathOf(name);
      var staged := StageOne(batch, p, data, lib.compiles, [], []);
      ghost var m := Here();
      SamePlain([p], old(disk.files), disk.files);
      var cancelled := ContextEnded();
      if !staged || cancelled {
        OnlyStaged(old(Here()), B.Removable(batch.entries));
        return false, batch;
      }
      ghost var paths, datas, before := [p], [data], disk.files;
      assert [] + [p] == paths && [] + [data] == datas;
      ok := CommitBatch(batch, paths, datas);
      if ok {
        OneCommitted(old(disk.files), before, disk.files, paths, datas, p, data);
      } else {
        NotStoredSince(old(Here()), m, B.Removable(batch.entries));
      }
    }

    lemma OneCommitted(start: Files, before: Files, after: Files, paths: seq<Path>, datas: seq<Bytes>, p: Path, data: Bytes)
      requires paths == [p] && datas == [data] && SameFormal(start, before) && Holds(after, paths, datas)
      requires forall q: Path :: q.Formal? && q !in paths ==> Same(before, after, q)
      ensures OneHolds(start, after, p, data)
    {
      assert paths[0] == p && datas[0] == data;
      forall q: Path | q.Formal? && q != p ensures Same(start, after, q) {
        assert Same(start, before, q) && Same(before, after, q);
      }
    }

    /** What an on-demand refresh is about to commit and publish. */
    method PrepareTemplate(name: string) returns (r: Option<(Bytes, Snapshot)>, ghost data: Bytes)
      modifies `fetches, `setbacks, disk`failures
      ensures old(disk.failures) <= disk.failures && old(setbacks) <= setbacks && (r.Some? ==> data == r.value.0)
      ensures Undisturbed(old(disk.failures), old(setbacks)) ==>
                (r.Some? <==>
                  && name in cfg.Enabled() && Readable(disk.files, cfg.NodePath()) && OthersReadableFor(name, disk.files)
                  && Build(lib, cfg.Enabled(), Text(disk.files, cfg.NodePath()), WithNew(cfg, disk.files, name, data)).Some?)
      ensures setbacks == old(setbacks) ==> fetches == old(fetches) + if name in cfg.Enabled() then [data] else []
      ensures r.Some? ==> fetches == old(fetches) + [r.value.0]
      ensures r.Some? ==>
                && name in cfg.Enabled() && Readable(disk.files, cfg.NodePath())
                && (forall other :: other in cfg.Enabled() && other != name ==> Readable(disk.files, cfg.PathOf(other)))
                && Build(lib, cfg.Enabled(), Text(disk.files, cfg.NodePath()), WithNew(cfg, disk.files, name, r.value.0)) == Some(r.value.1)
    {
      data := [];
      if name !in cfg.templates || !cfg.templates[name] {
        return None, data;
      }
      var fetched := Fetch();
      if fetched.None? {
        return None, data;
      }
      data := fetched.value;
      var nodeBytes := disk.Read(cfg.NodePath());
      if nodeBytes.None? {
        return None, data;
      }
      var names := EnabledTemplateNames();
      var templateBytes := ReadOthers(names, name, fetched.value);
      if templateBytes.None? {
        return None, data;
      }
      var candidate := BuildSnapshot(nodeBytes.value, templateBytes.value);
      r := if candidate.None? then None else Some((fetched.value, candidate.value));
    }

    /** One file first, the snapshot second; `at` is how far the disk's log was at the publication. */
    method StoreAndPublishOne(name: string, data: Bytes, candidate: Snapshot) returns (ok: bool, ghost at: nat)
      requires Valid() && name in cfg.Enabled() && Usable(lib, cfg.Enabled(), candidate)
      modifies `current, `unrestored, `events, `setbacks, disk
      ensures old(disk.failures) <= disk.failures && old(setbacks) <= setbacks
      ensures (ok ==> PlainAt([cfg.PathOf(name)], old(disk.files)))
              && (Undisturbed(old(disk.failures), old(setbacks)) && lib.compiles(data) && PlainAt([cfg.PathOf(name)], old(disk.files)) ==> ok)
      ensures Valid() && WentOnFrom(old(Here()))
      ensures ok ==> PublishedSince(old(Here()), at) && OneHolds(old(disk.files), StoredAt(at), cfg.PathOf(name), data)
      ensures ok ==> current == candidate && !unrestored && SameFormal(StoredAt(at), disk.files)
      ensures !ok ==> InOrderSince(old(Here())) && NothingStored(old(Here()))
    {
      var batch;
      ok, batch := StoreOne(name, data);
      at := |disk.log|;
      Finish(ok, batch, candidate, old(Here()));
    }

    /** refreshTemplate: `data` is what was fetched. Memory agrees with the disk at the publication, and afterwards,
        exactly when Agrees says so, which it always does for a template with a path of its own. */
    method RefreshTemplate(name: string) returns (ok: bool, ghost data: Bytes, ghost at: nat)
      requires Valid()
      modifies `current, `unrestored, `fetches, `events, `setbacks, disk
      ensures Valid() && WentOnFrom(old(Here()))
      ensures Undisturbed(old(disk.failures), old(setbacks)) ==>
                (ok <==>
                  && name in cfg.Enabled() && Readable(old(disk.files), cfg.NodePath()) && OthersReadableFor(name, old(disk.files))
                  && Build(lib, cfg.Enabled(), Text(old(disk.files), cfg.NodePath()), WithNew(cfg, old(disk.files), name, data)).Some?
                  && PlainAt([cfg.PathOf(name)], old(disk.files)))
      ensures Undisturbed(old(disk.failures), old(setbacks)) ==>
                fetches == old(fetches) + if name in cfg.Enabled() then [data] else []
      ensures ok ==> fetches == old(fetches) + [data]
      ensures ok ==>
                && name in cfg.Enabled() && Replaced(cfg, old(disk.files), name, data, disk.files) && !unrestored
                && Build(lib, cfg.Enabled(), Text(old(disk.files), cfg.NodePath()), WithNew(cfg, old(disk.files), name, data))
                   == Some(current)
                && (DiskBuild(lib, cfg, disk.files) == Some(current) <==> Agrees(lib, cfg, old(disk.files), name, data))
      ensures ok ==> PublishedSince(old(Here()), at) && Replaced(cfg, old(disk.files), name, data, StoredAt(at))
      ensures ok ==> (InOrderSince(old(Here())) <==> Agrees(lib, cfg, old(disk.files), name, data))
      ensures !ok ==> InOrderSince(old(Here())) && NothingStored(old(Here()))
      ensures cfg.OwnPath(name) ==> InOrderSince(old(Here()))
    {
      hide NothingStored, WentOnFrom, InOrderSince, PublishedSince, DiskBuild, Build, Text, WithNew, Replaced, Agrees, OneHolds, SameFormal,
           PlainAt, Usable, Servable, OthersReadableFor, CurrentOf, UnrestoredOf;
      at := |disk.log|;
      var prepared;
      prepared, data := PrepareTemplate(name);
      if prepared.None? {
        NothingTouched(old(Here()));
        return false, data, at;
      }
      NewTextCompiles(Text(disk.files, cfg.NodePath()), disk.files, name, data);
      ghost var m := Here();
      ok, at := StoreAndPublishOne(name, prepared.value.0, prepared.value.1);
      AsFromEarlier(old(Here()), m, at);
      if ok {
        AgreesInOrder(old(disk.files), name, data, StoredAt(at), disk.files);
        PublishedInOrder(old(Here()), at);
      }
    }

    lemma NewTextCompiles(nodeBytes: Bytes, files: Files, name: string, data: Bytes)
      requires name in cfg.Enabled() && Build(lib, cfg.Enabled(), nodeBytes, WithNew(cfg, files, name, data)).Some?
      ensures lib.compiles(data) && Usable(lib, cfg.Enabled(), Build(lib, cfg.Enabled(), nodeBytes, WithNew(cfg, files, name, data)).value)
    {
      assert WithNew(cfg, files, name, data)[name] == data;
    }

    /** Between these two marks nothing was done but reading. */
    lemma AsFromEarlier(m0: Mark, m: Mark, at: nat)
      requires m0.view == m.view && m0.log == m.log && m0.events == m.events && m0.next == m.next && m0.failures <= m.failures
      ensures (WentOnFrom(m) ==> WentOnFrom(m0)) && (InOrderSince(m) ==> InOrderSince(m0))
      ensures (PublishedSince(m, at) ==> PublishedSince(m0, at)) && (NothingStored(m) ==> NothingStored(m0))
    {
      if NothingStored(m) {
        var late, all := disk.failures[|m.failures|..], disk.failures[|m0.failures|..];
        assert all == m.failures[|m0.failures|..] + late;
        B.KeptSince(m0.next, m.next, m0.view.files, m.view.files, disk.files, late, all, {});
      }
    }

    /** From the one file that was replaced to what a snapshot sees of it. */
    lemma AgreesInOrder(files: Files, name: string, data: Bytes, stored: Files, end: Files)
      requires name in cfg.Enabled() && Readable(files, cfg.NodePath())
      requires forall other :: other in cfg.Enabled() && other != name ==> Readable(files, cfg.PathOf(other))
      requires Build(lib, cfg.Enabled(), Text(files, cfg.NodePath()), WithNew(cfg, files, name, data)) == Some(current)
      requires OneHolds(files, stored, cfg.PathOf(name), data) && SameFormal(stored, end)
      ensures Replaced(cfg, files, name, data, stored) && Replaced(cfg, files, name, data, end)
      ensures DiskBuild(lib, cfg, stored) == Some(current) <==> Agrees(lib, cfg, files, name, data)
      ensures DiskBuild(lib, cfg, end) == Some(current) <==> Agrees(lib, cfg, files, name, data)
      ensures cfg.OwnPath(name) ==> Agrees(lib, cfg, files, name, data)
    {
      OneReplaced(files, name, data, stored, stored);
      OneReplaced(files, name, data, stored, end);
      OnDemandAgreement(lib, cfg, files, name, data, stored, current);
      OnDemandAgreement(lib, cfg, files, name, data, end, current);
      if cfg.OwnPath(name) {
        OwnPathAgrees(lib, cfg, files, name, data);
      }
    }

    ghost predicate OneHolds(files: Files, files': Files, p: Path, data: Bytes) {
      && p in files' && files'[p] == Regular(data)
      && forall q: Path :: q.Formal? && q != p ==> Same(files, files', q)
    }

    lemma OneReplaced(files: Files, name: string, data: Bytes, stored: Files, end: Files)
      requires name in cfg.Enabled() && OneHolds(files, stored, cfg.PathOf(name), data) && SameFormal(stored, end)
      ensures Replaced(cfg, files, name, data, end)
    {
      assert Same(stored, end, cfg.PathOf(name));
      forall q | cfg.Caches(q) && q != cfg.PathOf(name) ensures Same(files, end, q) {
        assert q.Formal?;
        assert Same(stored, end, q);
      }
    }
  }
}
