/** What a full refresh that is interrupted leaves for the next start: the new bytes up to some point of the order in which
    it replaces the cached files, the old ones behind it. */
module Interrupted {
  import opened Wrappers
  import opened Disk
  import opened Names
  import opened Generation
  import B = Batch

  /** The files of a full refresh, in the order in which they are replaced: the node list, and the templates by name. */
  ghost function CachePaths(cfg: Config, names: seq<string>): (r: seq<Path>) {
    [cfg.NodePath()] + seq(|names|, i requires 0 <= i < |names| => cfg.PathOf(names[i]))
  }

  ghost function CacheDatas(nodeBytes: Bytes, names: seq<string>, texts: map<string, Bytes>): (r: seq<Bytes>)
    requires forall n :: n in names ==> n in texts
  {
    [nodeBytes] + seq(|names|, i requires 0 <= i < |names| => texts[names[i]])
  }

  /** No formal file differs. */
  ghost predicate SameFormal(a: Files, b: Files) {
    forall p: Path :: p.Formal? ==> Same(a, b, p)
  }

  ghost predicate SameAt(paths: seq<Path>, a: Files, b: Files) {
    forall i :: 0 <= i < |paths| ==> Same(a, b, paths[i])
  }

  ghost predicate AllSameFormal(before: Files, states: seq<Files>) {
    forall k :: 0 <= k < |states| ==> SameFormal(before, states[k])
  }

  /** The first n paths hold their new bytes, and every other configured file is as it was. */
  ghost predicate StoredUpTo(before: Files, s: Files, paths: seq<Path>, datas: seq<Bytes>, n: nat) {
    && n <= |paths| == |datas|
    && (forall i :: 0 <= i < n ==> paths[i] in s && s[paths[i]] == Regular(datas[i]))
    && (forall i :: n <= i < |paths| ==> Same(before, s, paths[i]))
    && (forall p: Path :: p.Formal? && p !in paths ==> Same(before, s, p))
  }

  ghost predicate PartlyStored(before: Files, s: Files, paths: seq<Path>, datas: seq<Bytes>) {
    exists n: nat :: StoredUpTo(before, s, paths, datas, n)
  }

  ghost predicate AllPartlyStored(before: Files, states: seq<Files>, paths: seq<Path>, datas: seq<Bytes>) {
    forall k :: 0 <= k < |states| ==> PartlyStored(before, states[k], paths, datas)
  }

  ghost predicate AllFormal(paths: seq<Path>) {
    forall i :: 0 <= i < |paths| ==> paths[i].Formal?
  }

  /** All states that a refresh which fetched this goes through. */
  ghost predicate RefreshStates(cfg: Config, before: Files, states: seq<Files>, nodeBytes: Bytes,
                                names: seq<string>, texts: map<string, Bytes>) {
    && (forall x :: x in names ==> x in texts)
    && AllPartlyStored(before, states, CachePaths(cfg, names), CacheDatas(nodeBytes, names, texts))
  }

  lemma CommitIsPartlyStored(t: B.Txn, states: seq<Files>, paths: seq<Path>, datas: seq<Bytes>)
    requires t.WellFormed() && B.AllPartlyDone(t, states)
    requires t.dests == paths && |datas| == |paths| && forall i :: 0 <= i < |paths| ==> t.news[i] == Regular(datas[i])
    ensures AllPartlyStored(t.orig, states, paths, datas)
  {
    forall k | 0 <= k < |states| ensures PartlyStored(t.orig, states[k], paths, datas) {
      assert B.PartlyDone(t, states[k]);
      var n: nat :| n <= |t.dests| && B.DoneUpTo(t, n, states[k]);
      assert StoredUpTo(t.orig, states[k], paths, datas, n);
    }
  }

  /** Temporary files make no difference, before or after. */
  lemma StoredStill(before: Files, before': Files, s: Files, s': Files, paths: seq<Path>, datas: seq<Bytes>)
    requires PartlyStored(before, s, paths, datas) && AllFormal(paths) && SameFormal(before', before) && SameFormal(s, s')
    ensures PartlyStored(before', s', paths, datas)
  {
    var n: nat :| StoredUpTo(before, s, paths, datas, n);
    assert forall i :: 0 <= i < |paths| ==> Same(before', before, paths[i]) && Same(s, s', paths[i]);
    forall p: Path | p.Formal? && p !in paths ensures Same(before', s', p) {
      assert Same(before', before, p) && Same(before, s, p) && Same(s, s', p);
    }
    assert StoredUpTo(before', s', paths, datas, n);
  }

  /** A stretch of the log, and then one that began with the same configured files. */
  lemma StoredFurther(before: Files, staged: Files, n: nat, log: seq<Files>, log': seq<Files>, paths: seq<Path>,
                      datas: seq<Bytes>)
    requires n <= |log| && log <= log' && SameFormal(before, staged) && AllFormal(paths)
    requires AllPartlyStored(before, log[n..], paths, datas) && AllPartlyStored(staged, log'[|log|..], paths, datas)
    ensures AllPartlyStored(before, log'[n..], paths, datas)
  {
    var late := log'[|log|..];
    assert log'[n..] == log[n..] + late;
    forall k | 0 <= k < |late| ensures PartlyStored(before, late[k], paths, datas) {
      StoredStill(staged, before, late[k], late[k], paths, datas);
    }
  }

  /** And one in which only temporary files change. */
  lemma StoredAndCleaned(before: Files, stored: Files, n: nat, log: seq<Files>, log': seq<Files>, paths: seq<Path>,
                         datas: seq<Bytes>)
    requires n <= |log| && log <= log' && AllSameFormal(stored, log'[|log|..]) && AllFormal(paths)
    requires AllPartlyStored(before, log[n..], paths, datas) && PartlyStored(before, stored, paths, datas)
    ensures AllPartlyStored(before, log'[n..], paths, datas)
  {
    var late := log'[|log|..];
    assert log'[n..] == log[n..] + late;
    assert SameFormal(before, before);
    forall k | 0 <= k < |late| ensures PartlyStored(before, late[k], paths, datas) {
      assert SameFormal(stored, late[k]);
      StoredStill(before, before, stored, late[k], paths, datas);
    }
  }

  lemma NothingStoredYet(before: Files, s: Files, paths: seq<Path>, datas: seq<Bytes>)
    requires SameFormal(before, s) && AllFormal(paths) && |paths| == |datas|
    ensures PartlyStored(before, s, paths, datas)
  {
    assert forall i :: 0 <= i < |paths| ==> Same(before, s, paths[i]);
    assert StoredUpTo(before, s, paths, datas, 0);
  }

  /** A refresh that goes on with nothing but temporary files. */
  lemma RefreshCleaned(cfg: Config, start: Files, n: nat, log: seq<Files>, log': seq<Files>, nodeBytes: Bytes,
                       names: seq<string>,
                       texts: map<string, Bytes>)
    requires n <= |log| && log <= log' && AllSameFormal(LastOf(start, log), log'[|log|..])
    requires RefreshStates(cfg, LastOf(start, log[..n]), log[n..], nodeBytes, names, texts)
    ensures RefreshStates(cfg, LastOf(start, log[..n]), log'[n..], nodeBytes, names, texts)
  {
    var before, stored := LastOf(start, log[..n]), LastOf(start, log);
    var paths, datas := CachePaths(cfg, names), CacheDatas(nodeBytes, names, texts);
    if n == |log| {
      assert log[..n] == log;
      NothingStoredYet(before, stored, paths, datas);
    } else {
      assert log[n..][|log| - 1 - n] == stored;
    }
    StoredAndCleaned(before, stored, n, log, log', paths, datas);
  }

  // ---------- what the next start finds ----------

  /** The node list is the new one unless nothing was replaced yet, and then the first templates are. */
  function MixedNodes(cfg: Config, before: Files, nodeBytes: Bytes, n: nat): (r: Bytes) {
    if n == 0 then Text(before, cfg.NodePath()) else nodeBytes
  }

  function MixedTexts(cfg: Config, before: Files, names: seq<string>, texts: map<string, Bytes>,
                      n: nat): (r: map<string, Bytes>)
    requires cfg.Enabled() <= texts.Keys && n <= |names| + 1
  {
    map name | name in cfg.Enabled() :: if n > 0 && name in names[..n - 1] then texts[name] else Text(before, cfg.PathOf(name))
  }

  /** All that is not replaced yet could be read before. */
  predicate OthersReadable(cfg: Config, before: Files, names: seq<string>, n: nat)
    requires n <= |names| + 1
  {
    && (n == 0 ==> Readable(before, cfg.NodePath()))
    && forall i :: 0 <= i < |names| && n <= i + 1 ==> Readable(before, cfg.PathOf(names[i]))
  }

  lemma InterruptedText(cfg: Config, before: Files, s: Files, nodeBytes: Bytes, names: seq<string>, texts: map<string, Bytes>,
                        n: nat, i: nat)
    requires Distinct(names) && Members(names) == cfg.Enabled() == texts.Keys && forall x :: x in names ==> x in texts
    requires StoredUpTo(before, s, CachePaths(cfg, names), CacheDatas(nodeBytes, names, texts), n) && i < |names|
    ensures names[i] in cfg.Enabled()
    ensures Text(s, cfg.PathOf(names[i])) == MixedTexts(cfg, before, names, texts, n)[names[i]]
    ensures Readable(s, cfg.PathOf(names[i])) <==> i + 1 < n || Readable(before, cfg.PathOf(names[i]))
  {
    var paths, datas := CachePaths(cfg, names), CacheDatas(nodeBytes, names, texts);
    assert names[i] in Members(names);
    assert paths[i + 1] == cfg.PathOf(names[i]) && datas[i + 1] == texts[names[i]];
    if i + 1 < n {
      assert names[..n - 1][i] == names[i];
    } else {
      assert Same(before, s, paths[i + 1]);
      assert n > 0 ==> forall j :: 0 <= j < n - 1 ==> names[..n - 1][j] == names[j] != names[i];
    }
  }

  lemma InterruptedNodes(cfg: Config, before: Files, s: Files, nodeBytes: Bytes, names: seq<string>,
                         texts: map<string, Bytes>, n: nat)
    requires forall x :: x in names ==> x in texts
    requires StoredUpTo(before, s, CachePaths(cfg, names), CacheDatas(nodeBytes, names, texts), n)
    ensures Text(s, cfg.NodePath()) == MixedNodes(cfg, before, nodeBytes, n)
    ensures Readable(s, cfg.NodePath()) <==> n > 0 || Readable(before, cfg.NodePath())
  {
    var paths, datas := CachePaths(cfg, names), CacheDatas(nodeBytes, names, texts);
    assert paths[0] == cfg.NodePath() && datas[0] == nodeBytes;
  }

  lemma SameMap<K, V>(a: map<K, V>, b: map<K, V>)
    requires a.Keys == b.Keys && forall k :: k in a ==> a[k] == b[k]
    ensures a == b
  {
  }

  lemma InterruptedTexts(cfg: Config, before: Files, s: Files, nodeBytes: Bytes, names: seq<string>,
                         texts: map<string, Bytes>, n: nat)
    requires Distinct(names) && Members(names) == cfg.Enabled() == texts.Keys && forall x :: x in names ==> x in texts
    requires StoredUpTo(before, s, CachePaths(cfg, names), CacheDatas(nodeBytes, names, texts), n)
    ensures n <= |names| + 1 && Texts(cfg, s) == MixedTexts(cfg, before, names, texts, n)
  {
    assert n <= |names| + 1;
    hide StoredUpTo, CachePaths, CacheDatas, Text, Readable, Config.PathOf, Config.NodePath, Config.Enabled, Distinct;
    var mixed := MixedTexts(cfg, before, names, texts, n);
    assert mixed.Keys == cfg.Enabled() == Texts(cfg, s).Keys;
    forall name | name in cfg.Enabled() ensures Texts(cfg, s)[name] == mixed[name] {
      var i :| 0 <= i < |names| && names[i] == name;
      InterruptedText(cfg, before, s, nodeBytes, names, texts, n, i);
    }
    SameMap(Texts(cfg, s), mixed);
  }

  lemma InterruptedReadable(cfg: Config, before: Files, s: Files, nodeBytes: Bytes, names: seq<string>,
                            texts: map<string, Bytes>, n: nat)
    requires Distinct(names) && Members(names) == cfg.Enabled() == texts.Keys && forall x :: x in names ==> x in texts
    requires StoredUpTo(before, s, CachePaths(cfg, names), CacheDatas(nodeBytes, names, texts), n)
    ensures n <= |names| + 1
    ensures OthersReadable(cfg, before, names, n) <==>
            Readable(s, cfg.NodePath()) && forall name :: name in cfg.Enabled() ==> Readable(s, cfg.PathOf(name))
  {
    assert n <= |names| + 1;
    hide StoredUpTo, CachePaths, CacheDatas, Readable, Config.PathOf, Config.NodePath, Config.Enabled, MixedTexts, MixedNodes;
    InterruptedNodes(cfg, before, s, nodeBytes, names, texts, n);
    forall i | 0 <= i < |names|
      ensures names[i] in cfg.Enabled()
      ensures Readable(s, cfg.PathOf(names[i])) <==> i + 1 < n || Readable(before, cfg.PathOf(names[i]))
    {
      InterruptedText(cfg, before, s, nodeBytes, names, texts, n, i);
    }
    forall name | name in cfg.Enabled() ensures exists i :: 0 <= i < |names| && names[i] == name {
    }
  }

  ghost function MixedBuild(lib: Library, cfg: Config, before: Files, nodeBytes: Bytes, names: seq<string>,
                            texts: map<string, Bytes>,
                            n: nat): (r: Option<Snapshot>)
    requires cfg.Enabled() <= texts.Keys && n <= |names| + 1
  {
    if OthersReadable(cfg, before, names, n)
    then Build(lib, cfg.Enabled(), MixedNodes(cfg, before, nodeBytes, n), MixedTexts(cfg, before, names, texts, n))
    else None
  }

  /** Exactly what the disk gives when the first n files are replaced. */
  lemma InterruptedBuild(lib: Library, cfg: Config, before: Files, s: Files, nodeBytes: Bytes, names: seq<string>,
                         texts: map<string, Bytes>, n: nat)
    requires Distinct(names) && Members(names) == cfg.Enabled() == texts.Keys && forall x :: x in names ==> x in texts
    requires StoredUpTo(before, s, CachePaths(cfg, names), CacheDatas(nodeBytes, names, texts), n)
    ensures n <= |names| + 1 && DiskBuild(lib, cfg, s) == MixedBuild(lib, cfg, before, nodeBytes, names, texts, n)
  {
    hide StoredUpTo, CachePaths, CacheDatas, Build, Text, Texts, Readable, Config.PathOf, Config.NodePath, Config.Enabled, Members,
         MixedTexts, MixedNodes, OthersReadable;
    InterruptedNodes(cfg, before, s, nodeBytes, names, texts, n);
    InterruptedTexts(cfg, before, s, nodeBytes, names, texts, n);
    InterruptedReadable(cfg, before, s, nodeBytes, names, texts, n);
  }

  /** Wherever a full refresh dies, the next start finds one of these: the generation of before, or of what was fetched the
      node list and the templates up to some name, with the old ones behind it. */
  lemma InterruptedRefresh(lib: Library, cfg: Config, before: Files, states: seq<Files>, nodeBytes: Bytes,
                           texts: map<string, Bytes>, k: nat)
    requires RefreshStates(cfg, before, states, nodeBytes, Listing(cfg.Enabled()), texts)
    requires texts.Keys == cfg.Enabled() && k < |states|
    ensures exists n: nat :: n <= |Listing(cfg.Enabled())| + 1 &&
              DiskBuild(lib, cfg, states[k]) == MixedBuild(lib, cfg, before, nodeBytes, Listing(cfg.Enabled()), texts, n)
  {
    var names := Listing(cfg.Enabled());
    forall i, j | 0 <= i < j < |names| ensures names[i] != names[j] {
      LessIsStrict(names[i], names[j]);
    }
    hide MixedBuild, DiskBuild, StoredUpTo, CachePaths, CacheDatas, Config.Enabled, Config.PathOf, Config.NodePath, Listing;
    assert PartlyStored(before, states[k], CachePaths(cfg, names), CacheDatas(nodeBytes, names, texts));
    var n: nat :| StoredUpTo(before, states[k], CachePaths(cfg, names), CacheDatas(nodeBytes, names, texts), n);
    InterruptedBuild(lib, cfg, before, states[k], nodeBytes, names, texts, n);
  }

  /** At its two ends that is the generation of before and the one fetched. */
  lemma WholeGenerations(lib: Library, cfg: Config, before: Files, nodeBytes: Bytes, names: seq<string>,
                         texts: map<string, Bytes>)
    requires Members(names) == cfg.Enabled() == texts.Keys
    ensures MixedBuild(lib, cfg, before, nodeBytes, names, texts, 0) == DiskBuild(lib, cfg, before)
    ensures MixedBuild(lib, cfg, before, nodeBytes, names, texts, |names| + 1) == Build(lib, cfg.Enabled(), nodeBytes, texts)
  {
    hide Config.PathOf, Config.NodePath, Config.Enabled, Text, Readable, Build;
    assert names[..|names|] == names;
    assert forall name :: name in Members(names) <==> name in names;
    SameMap(MixedTexts(cfg, before, names, texts, 0), Texts(cfg, before));
    SameMap(MixedTexts(cfg, before, names, texts, |names| + 1), texts);
    NothingReplaced(cfg, before, names);
  }

  lemma NothingReplaced(cfg: Config, before: Files, names: seq<string>)
    requires Members(names) == cfg.Enabled()
    ensures OthersReadable(cfg, before, names, 0) <==>
            Readable(before, cfg.NodePath()) && forall name :: name in cfg.Enabled() ==> Readable(before, cfg.PathOf(name))
  {
    hide Config.PathOf, Config.NodePath, Config.Enabled, Readable;
    assert forall i :: 0 <= i < |names| ==> names[i] in Members(names);
    forall name | name in cfg.Enabled() ensures exists i :: 0 <= i < |names| && names[i] == name {
    }
  }

  lemma StoredNodesOnly(cfg: Config, names: seq<string>, one: Bytes, two: Bytes, texts: map<string, Bytes>)
    requires cfg.NodePath() !in CachePaths(cfg, names)[1..] && forall x :: x in names ==> x in texts
    ensures StoredUpTo(Filled(cfg, one), Filled(cfg, one)[cfg.NodePath() := Regular(two)],
                       CachePaths(cfg, names), CacheDatas(two, names, texts), 1)
  {
    hide Config.PathOf, Config.NodePath, Filled;
    var paths := CachePaths(cfg, names);
    forall i | 1 <= i < |paths| ensures paths[i] != cfg.NodePath() {
      assert paths[1..][i - 1] == paths[i];
    }
    assert paths[0] == cfg.NodePath();
  }

  lemma OldTextsLeft(cfg: Config, names: seq<string>, one: Bytes, texts: map<string, Bytes>)
    requires Members(names) == cfg.Enabled() == texts.Keys
    ensures OthersReadable(cfg, Filled(cfg, one), names, 1)
    ensures MixedTexts(cfg, Filled(cfg, one), names, texts, 1) == map name | name in cfg.Enabled() :: one
  {
    hide Filled, Config.PathOf, Config.NodePath, Config.Enabled;
    assert names[..0] == [];
    assert forall i :: 0 <= i < |names| ==> names[i] in Members(names);
    SameMap(MixedTexts(cfg, Filled(cfg, one), names, texts, 1), map name | name in cfg.Enabled() :: one);
  }

  lemma FilledBuild(lib: Library, cfg: Config, one: Bytes, two: Bytes)
    requires Telling(lib, one, two) && NodesOf(lib, two) != []
    ensures var ones := map name | name in cfg.Enabled() :: one;
            && DiskBuild(lib, cfg, Filled(cfg, one)) == Build(lib, cfg.Enabled(), one, ones)
            && Build(lib, cfg.Enabled(), two, ones).Some?
  {
    hide Filled, Config.PathOf, Config.NodePath, Config.Enabled, NodesOf;
    SameMap(Texts(cfg, Filled(cfg, one)), map name | name in cfg.Enabled() :: one);
  }

  lemma BuildsDiffer(lib: Library, enabled: set<string>, b: Bytes, texts: map<string, Bytes>, b': Bytes,
                     texts': map<string, Bytes>,
                     name: string)
    requires Build(lib, enabled, b, texts).Some? && texts.Keys == enabled == texts'.Keys && name in enabled
    requires NodesOf(lib, b) != NodesOf(lib, b') || texts[name] != texts'[name]
    ensures Build(lib, enabled, b, texts) != Build(lib, enabled, b', texts')
  {
    hide NodesOf;
    if Build(lib, enabled, b', texts').Some? {
      assert Build(lib, enabled, b, texts).value.templates[name] == texts[name];
      assert Build(lib, enabled, b', texts').value.templates[name] == texts'[name];
    }
  }

  lemma NamesAreEnabled(cfg: Config, names: seq<string>, texts: map<string, Bytes>)
    requires names != [] && Members(names) == cfg.Enabled() == texts.Keys
    ensures (forall x :: x in names ==> x in texts) && names[0] in cfg.Enabled()
  {
    assert forall x :: x in names ==> x in Members(names);
    assert names[0] in Members(names);
  }

  /** In between it need be neither: once the node list alone is replaced, the next start publishes the new nodes with the
      old templates. */
  lemma InterruptedMixesGenerations(lib: Library, cfg: Config, names: seq<string>, one: Bytes, two: Bytes)
    requires Distinct(names) && Members(names) == cfg.Enabled() && names != [] && cfg.NodePath() !in CachePaths(cfg, names)[1..]
    requires one != two && Telling(lib, one, two) && NodesOf(lib, two) != []
    ensures var before := Filled(cfg, one);
            var s, texts := before[cfg.NodePath() := Regular(two)], map name | name in cfg.Enabled() :: two;
            && (forall x :: x in names ==> x in texts)
            && StoredUpTo(before, s, CachePaths(cfg, names), CacheDatas(two, names, texts), 1)
            && DiskBuild(lib, cfg, s).Some?
            && DiskBuild(lib, cfg, s) != DiskBuild(lib, cfg, before)
            && DiskBuild(lib, cfg, s) != Build(lib, cfg.Enabled(), two, texts)
  {
    var before := Filled(cfg, one);
    var s, texts := before[cfg.NodePath() := Regular(two)], map name | name in cfg.Enabled() :: two;
    var ones := map name | name in cfg.Enabled() :: one;
    NamesAreEnabled(cfg, names, texts);
    assert NodesOf(lib, one) != NodesOf(lib, two);
    hide Filled, NodesOf, StoredUpTo, CachePaths, CacheDatas, DiskBuild, Build, Config.PathOf, Config.NodePath, Config.Enabled,
         Readable, Text, Distinct, Telling, Usable, Members, MixedTexts, OthersReadable;
    StoredNodesOnly(cfg, names, one, two, texts);
    InterruptedBuild(lib, cfg, before, s, two, names, texts, 1);
    OldTextsLeft(cfg, names, one, texts);
    FilledBuild(lib, cfg, one, two);
    BuildsDiffer(lib, cfg.Enabled(), two, ones, one, ones, names[0]);
    BuildsDiffer(lib, cfg.Enabled(), two, ones, two, texts, names[0]);
  }
}
