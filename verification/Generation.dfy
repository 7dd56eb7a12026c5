/** One generation of data: the cached files, and the snapshot built from them. */
module Generation {
  import opened Wrappers
  import opened Disk
  import opened CachePath
  import S = Subscription

  /** What the service computes with foreign libraries: normalising a subscription payload to the cached JSON form,
      the outbounds of a cached node file, and whether a template compiles. */
  datatype Library = Library(normalize: Bytes -> Option<Bytes>, parse: Bytes -> Option<seq<S.Node>>, compiles: Bytes -> bool)

  /** The cache directory, the name of the node file in it, and which templates are configured and enabled. */
  datatype Config = Config(directory: string, nodeFile: string, templates: map<string, bool>)
  {
    /** GetNodeFilePath */
    function NodePath(): (p: Path)
      ensures p.Formal?
    {
      Join(directory, nodeFile)
    }

    /** GetTemplateFilePathByName */
    function PathOf(name: string): (p: Path)
      ensures p.Formal?
    {
      Join(directory, TemplateFile(name))
    }

    function Enabled(): (r: set<string>) {
      set name | name in templates && templates[name]
    }

    /** The files a snapshot is built from. */
    predicate Caches(p: Path) {
      p == NodePath() || exists name :: name in Enabled() && PathOf(name) == p
    }

    /** Enabled templates are cached under different paths, none of them the node file's. */
    predicate OwnPath(name: string) {
      PathOf(name) != NodePath() && forall other :: other in Enabled() && other != name ==> PathOf(other) != PathOf(name)
    }
  }

  /** A compiled template is determined by its source. */
  datatype Snapshot = Snapshot(nodes: seq<S.Node>, templates: map<string, Bytes>)

  const EMPTY := Snapshot([], map[])

  /** The nodes of a node file; none when it does not parse or holds no node with a tag. */
  function NodesOf(lib: Library, nodeBytes: Bytes): (r: seq<S.Node>) {
    match lib.parse(nodeBytes)
    case None => []
    case Some(outbounds) => S.KeptNodes(outbounds)
  }

  /** It has nodes, and exactly the enabled templates, all of which compile. */
  predicate Usable(lib: Library, enabled: set<string>, x: Snapshot) {
    x.nodes != [] && x.templates.Keys == enabled && forall name :: name in enabled ==> lib.compiles(x.templates[name])
  }

  /** The empty snapshot of the start, or a usable one. */
  predicate Servable(lib: Library, cfg: Config, x: Snapshot) {
    x == EMPTY || Usable(lib, cfg.Enabled(), x)
  }

  /** A snapshot with nodes, and with every enabled template compiled: or nothing. */
  function Build(lib: Library, enabled: set<string>, nodeBytes: Bytes, templateBytes: map<string, Bytes>): (r: Option<Snapshot>)
    ensures r.Some? ==> Usable(lib, enabled, r.value)
  {
    if NodesOf(lib, nodeBytes) == [] || exists name :: name in enabled && (name !in templateBytes || !lib.compiles(templateBytes[name]))
    then None
    else Some(Snapshot(NodesOf(lib, nodeBytes), map name | name in enabled :: templateBytes[name]))
  }

  predicate Readable(files: Files, p: Path) {
    p in files && files[p].Regular?
  }

  function Text(files: Files, p: Path): (r: Bytes) {
    if Readable(files, p) then files[p].data else []
  }

  function Texts(cfg: Config, files: Files): (r: map<string, Bytes>) {
    map name | name in cfg.Enabled() :: Text(files, cfg.PathOf(name))
  }

  /** The snapshot of what is on disk. */
  ghost function DiskBuild(lib: Library, cfg: Config, files: Files): (r: Option<Snapshot>) {
    if !Readable(files, cfg.NodePath()) || exists name :: name in cfg.Enabled() && !Readable(files, cfg.PathOf(name)) then None
    else Build(lib, cfg.Enabled(), Text(files, cfg.NodePath()), Texts(cfg, files))
  }

  ghost predicate SameCache(cfg: Config, a: Files, b: Files) {
    forall p :: cfg.Caches(p) ==> Same(a, b, p)
  }

  lemma SameCacheSameBuild(lib: Library, cfg: Config, a: Files, b: Files)
    requires SameCache(cfg, a, b)
    ensures DiskBuild(lib, cfg, a) == DiskBuild(lib, cfg, b)
    ensures Text(a, cfg.NodePath()) == Text(b, cfg.NodePath()) && Texts(cfg, a) == Texts(cfg, b)
  {
    assert Same(a, b, cfg.NodePath());
    forall name | name in cfg.Enabled() ensures Same(a, b, cfg.PathOf(name)) {
      assert cfg.Caches(cfg.PathOf(name));
    }
    assert Texts(cfg, a) == Texts(cfg, b);
  }

  /** The published snapshot is the initial one, or exactly what the files on disk give. */
  ghost predicate Coherent(lib: Library, cfg: Config, files: Files, current: Snapshot) {
    current == EMPTY || DiskBuild(lib, cfg, files) == Some(current)
  }

  /** What one piece of work under the permit may do to disk and memory. `unrestored` says that a failed commit could
      not put some file back. */
  ghost predicate Outcome(lib: Library, cfg: Config, files: Files, current: Snapshot, unrestored: bool,
                          files': Files, current': Snapshot, unrestored': bool)
  {
    || (DiskBuild(lib, cfg, files') == Some(current') && !unrestored')
    || (current' == current && (unrestored' || (!unrestored && SameCache(cfg, files, files'))))
  }

  /** Work takes coherent disk and memory to coherent disk and memory, unless a restore failed. */
  lemma OutcomeKeepsCoherence(lib: Library, cfg: Config, files: Files, current: Snapshot, unrestored: bool,
                              files': Files, current': Snapshot, unrestored': bool)
    requires Outcome(lib, cfg, files, current, unrestored, files', current', unrestored')
    requires unrestored || Coherent(lib, cfg, files, current)
    ensures unrestored' || Coherent(lib, cfg, files', current')
  {
    if SameCache(cfg, files, files') {
      SameCacheSameBuild(lib, cfg, files, files');
    }
  }

  // ---------- refreshing one template from what else is cached ----------

  /** The bytes an on-demand refresh builds from: one template's are new, the others' are as cached. */
  function WithNew(cfg: Config, files: Files, name: string, data: Bytes): (r: map<string, Bytes>) {
    map n | n in cfg.Enabled() :: if n == name then data else Text(files, cfg.PathOf(n))
  }

  /** When replacing the one file leaves disk and the new snapshot at the same generation: always, when the template
      has its path for itself. */
  ghost predicate Agrees(lib: Library, cfg: Config, files: Files, name: string, data: Bytes) {
    var p := cfg.PathOf(name);
    && (forall other :: other in cfg.Enabled() && other != name && cfg.PathOf(other) == p ==> p in files && files[p] == Regular(data))
    && (cfg.NodePath() == p ==> NodesOf(lib, data) == NodesOf(lib, Text(files, p)))
  }

  lemma OwnPathAgrees(lib: Library, cfg: Config, files: Files, name: string, data: Bytes)
    requires cfg.OwnPath(name)
    ensures Agrees(lib, cfg, files, name, data)
  {
  }

  /** files' is files with the template's cache replaced, as far as a snapshot can see. */
  ghost predicate Replaced(cfg: Config, files: Files, name: string, data: Bytes, files': Files) {
    var p := cfg.PathOf(name);
    && p in files' && files'[p] == Regular(data)
    && forall q :: cfg.Caches(q) && q != p ==> Same(files, files', q)
  }

  /** The exact condition for an on-demand refresh to leave memory equal to what the disk gives. */
  lemma OnDemandAgreement(lib: Library, cfg: Config, files: Files, name: string, data: Bytes, files': Files, candidate: Snapshot)
    requires name in cfg.Enabled() && Readable(files, cfg.NodePath())
    requires forall other :: other in cfg.Enabled() && other != name ==> Readable(files, cfg.PathOf(other))
    requires Build(lib, cfg.Enabled(), Text(files, cfg.NodePath()), WithNew(cfg, files, name, data)) == Some(candidate)
    requires Replaced(cfg, files, name, data, files')
    ensures DiskBuild(lib, cfg, files') == Some(candidate) <==> Agrees(lib, cfg, files, name, data)
  {
    CachesReadable(cfg, files, name, data, files');
    TextsAgree(cfg, files, name, data, files');
    NodesAgree(lib, cfg, files, name, data, files');
    SameBuild(lib, cfg.Enabled(), Text(files, cfg.NodePath()), WithNew(cfg, files, name, data), candidate,
              Text(files', cfg.NodePath()), Texts(cfg, files'));
  }

  lemma SameBuild(lib: Library, enabled: set<string>, nodeBytes: Bytes, texts: map<string, Bytes>, snapshot: Snapshot,
                  nodeBytes': Bytes, texts': map<string, Bytes>)
    requires Build(lib, enabled, nodeBytes, texts) == Some(snapshot) && texts.Keys == enabled == texts'.Keys
    ensures Build(lib, enabled, nodeBytes', texts') == Some(snapshot) <==>
            NodesOf(lib, nodeBytes') == NodesOf(lib, nodeBytes) && texts' == texts
  {
    assert snapshot.templates == texts;
    if Build(lib, enabled, nodeBytes', texts') == Some(snapshot) {
      assert snapshot.templates == texts';
    }
  }

  lemma CachesReadable(cfg: Config, files: Files, name: string, data: Bytes, files': Files)
    requires name in cfg.Enabled() && Readable(files, cfg.NodePath()) && Replaced(cfg, files, name, data, files')
    requires forall other :: other in cfg.Enabled() && other != name ==> Readable(files, cfg.PathOf(other))
    ensures Readable(files', cfg.NodePath()) && forall n :: n in cfg.Enabled() ==> Readable(files', cfg.PathOf(n))
  {
    assert cfg.Caches(cfg.NodePath());
    forall n | n in cfg.Enabled() ensures Readable(files', cfg.PathOf(n)) {
      assert cfg.Caches(cfg.PathOf(n));
    }
  }

  lemma TextsAgree(cfg: Config, files: Files, name: string, data: Bytes, files': Files)
    requires name in cfg.Enabled() && Replaced(cfg, files, name, data, files')
    requires forall other :: other in cfg.Enabled() && other != name ==> Readable(files, cfg.PathOf(other))
    ensures Texts(cfg, files') == WithNew(cfg, files, name, data) <==>
            forall other :: other in cfg.Enabled() && other != name && cfg.PathOf(other) == cfg.PathOf(name) ==>
              cfg.PathOf(name) in files && files[cfg.PathOf(name)] == Regular(data)
  {
    var now, given := Texts(cfg, files'), WithNew(cfg, files, name, data);
    assert given.Keys == now.Keys && now[name] == given[name];
    forall n | n in cfg.Enabled() && n != name && cfg.PathOf(n) != cfg.PathOf(name) ensures now[n] == given[n] {
      assert cfg.Caches(cfg.PathOf(n));
      assert Same(files, files', cfg.PathOf(n));
    }
    assert forall n :: n in cfg.Enabled() && n != name && cfg.PathOf(n) == cfg.PathOf(name) ==>
             now[n] == data && given[n] == files[cfg.PathOf(n)].data;
  }

  lemma NodesAgree(lib: Library, cfg: Config, files: Files, name: string, data: Bytes, files': Files)
    requires Readable(files, cfg.NodePath()) && Replaced(cfg, files, name, data, files')
    ensures NodesOf(lib, Text(files', cfg.NodePath())) ==
            if cfg.NodePath() == cfg.PathOf(name) then NodesOf(lib, data) else NodesOf(lib, Text(files, cfg.NodePath()))
  {
    assert cfg.Caches(cfg.NodePath());
    assert cfg.NodePath() != cfg.PathOf(name) ==> Same(files, files', cfg.NodePath());
  }

  lemma BuildSome(lib: Library, enabled: set<string>, nodeBytes: Bytes, texts: map<string, Bytes>)
    requires NodesOf(lib, nodeBytes) != [] && texts.Keys == enabled && forall n :: n in enabled ==> lib.compiles(texts[n])
    ensures Build(lib, enabled, nodeBytes, texts) == Some(Snapshot(NodesOf(lib, nodeBytes), texts))
  {
    assert texts == map n | n in enabled :: texts[n];
  }

  lemma OneNodeKept(node: S.Node)
    requires node.tag != []
    ensures S.KeptNodes([node]) == [node]
  {
    assert [node][..0] == [] && !S.HasTag([], node.tag);
  }

  /** Both compile as templates, and as node files they hold different nodes. */
  ghost predicate Telling(lib: Library, one: Bytes, two: Bytes) {
    NodesOf(lib, one) != [] && NodesOf(lib, two) != NodesOf(lib, one) && lib.compiles(one) && lib.compiles(two)
  }

  lemma TellingLibrary(one: Bytes, two: Bytes, x: S.Node, y: S.Node) returns (lib: Library)
    requires one != two && x != y && x.tag != [] && y.tag != []
    ensures Telling(lib, one, two)
  {
    lib := Library(b => Some(b), b => Some([if b == one then x else y]), b => true);
    OneNodeKept(x);
    OneNodeKept(y);
    assert lib.parse(one) == Some([x]) && lib.parse(two) == Some([y]);
    assert [x][0] != [y][0];
  }

  ghost function Filled(cfg: Config, data: Bytes): (files: Files)
    ensures Readable(files, cfg.NodePath()) && Text(files, cfg.NodePath()) == data
    ensures forall n :: n in cfg.Enabled() ==> Readable(files, cfg.PathOf(n)) && files[cfg.PathOf(n)] == Regular(data)
  {
    var paths := {cfg.NodePath()} + (set n | n in cfg.Enabled() :: cfg.PathOf(n));
    map p | p in paths :: Regular(data)
  }

  /** From a disk that gives a snapshot, the on-demand refresh of this template publishes one that the disk does not
      give afterwards. */
  ghost predicate Splits(lib: Library, cfg: Config, name: string, one: Bytes, two: Bytes) {
    var files := Filled(cfg, one);
    var built := Build(lib, cfg.Enabled(), Text(files, cfg.NodePath()), WithNew(cfg, files, name, two));
    && DiskBuild(lib, cfg, files).Some? && built.Some?
    && DiskBuild(lib, cfg, files[cfg.PathOf(name) := Regular(two)]) != built
  }

  /** Without a path of its own, a template is refreshed wrongly whenever that brings anything new. */
  lemma SharedPathSplitsGenerations(lib: Library, cfg: Config, name: string, one: Bytes, two: Bytes)
    requires name in cfg.Enabled() && !cfg.OwnPath(name) && one != two && Telling(lib, one, two)
    ensures Splits(lib, cfg, name, one, two)
  {
    var files := Filled(cfg, one);
    var texts := WithNew(cfg, files, name, two);
    BuildSome(lib, cfg.Enabled(), one, Texts(cfg, files));
    BuildSome(lib, cfg.Enabled(), one, texts);
    DoesNotAgree(lib, cfg, name, one, two);
    OnDemandAgreement(lib, cfg, files, name, two, files[cfg.PathOf(name) := Regular(two)], Snapshot(NodesOf(lib, one), texts));
  }

  lemma DoesNotAgree(lib: Library, cfg: Config, name: string, one: Bytes, two: Bytes)
    requires name in cfg.Enabled() && !cfg.OwnPath(name) && one != two && Telling(lib, one, two)
    ensures !Agrees(lib, cfg, Filled(cfg, one), name, two)
  {
    var files := Filled(cfg, one);
    assert files[cfg.PathOf(name)] == Regular(one);
  }

  // ---------- which names have paths of their own ----------

  /** Enabled names without slashes never collide with each other; what is left is the node file. */
  lemma PlainNamesOwnPaths(cfg: Config, name: string)
    requires cfg.directory != [] && Plain(cfg.nodeFile) && name in cfg.Enabled()
    requires forall n :: n in cfg.Enabled() ==> '/' !in n
    ensures cfg.OwnPath(name) <==> TemplateFile(name) != cfg.nodeFile
  {
    TemplateFileIsPlain(name);
    if TemplateFile(name) != cfg.nodeFile {
      JoinPlainIsInjective(cfg.directory, TemplateFile(name), cfg.nodeFile);
    }
    forall other | other in cfg.Enabled() && other != name ensures cfg.PathOf(other) != cfg.PathOf(name) {
      PlainNamesAreApart(cfg.directory, other, name);
    }
  }

  /** With "a" and "x/../template_a" enabled, for any such names, refreshing "a" on demand splits the generations. */
  lemma DetourSplitsGenerations(lib: Library, cfg: Config, x: string, a: string, one: Bytes, two: Bytes)
    requires cfg.directory != [] && '/' !in x && '/' !in a && a in cfg.Enabled() && Detour(x, a) in cfg.Enabled()
    requires one != two && Telling(lib, one, two)
    ensures Splits(lib, cfg, a, one, two) && Splits(lib, cfg, Detour(x, a), one, two)
  {
    DetoursCollide(cfg.directory, x, a);
    SharedPathSplitsGenerations(lib, cfg, a, one, two);
    SharedPathSplitsGenerations(lib, cfg, Detour(x, a), one, two);
  }

  /** So does a node file that is named like the cached file of an enabled template. */
  lemma NodeFileSplitsGenerations(lib: Library, cfg: Config, a: string, one: Bytes, two: Bytes)
    requires a in cfg.Enabled() && cfg.nodeFile == TemplateFile(a) && one != two && Telling(lib, one, two)
    ensures Splits(lib, cfg, a, one, two)
  {
    SharedPathSplitsGenerations(lib, cfg, a, one, two);
  }
}
