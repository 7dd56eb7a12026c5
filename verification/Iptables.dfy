/** The iptables backend of one address family: setting the rules up, and cleaning up after whatever happened. */
module Iptables {
  import opened Wrappers
  import opened Chains
  import opened Runs

  const IFNAMSIZ: nat := 16

  /** The local networks the IPv4 rules exclude. */
  const LOCAL_NETS: seq<Net> := [
    Net(0x00000000, 8), Net(0x0A000000, 8), Net(0x64400000, 10), Net(0x7F000000, 8),
    Net(0xA9FE0000, 16), Net(0xAC100000, 12), Net(0xC0A80000, 16), Net(0xE0000000, 3)
  ]

  const JUMP_S := Rule(Always, Jump(FakeS))
  const JUMP_D := Rule(Always, Jump(FakeD))

  /** The options the rules depend on. */
  datatype Config = Config(mark: Bits, mask: Bits, queue: nat, excluded: seq<Net>, allDevices: bool, devices: seq<string>)

  // ---------- what never changes, whatever fails ----------

  /** Somebody else's table: none of the tool's chains, and nothing that jumps to them. */
  ghost predicate Pristine(base: Table) {
    && Prerouting in base && Postrouting in base && FakeS !in base && FakeD !in base && FakeR !in base
    && !Referenced(base, FakeS) && !Referenced(base, FakeD) && !Referenced(base, FakeR)
  }

  /** A hook holds the foreign rules in their order, and before them at most one jump, to a chain that exists. */
  ghost predicate HookOk(base: Table, t: Table, hook: Chain, jump: Rule)
    requires hook in base && jump.target.Jump?
  {
    hook in t && (t[hook] == base[hook] || (t[hook] == [jump] + base[hook] && jump.target.chain in t))
  }

  /** The tool's own rules leave their chain, or go to the rule chain where that is allowed and exists. */
  ghost predicate OwnRules(rules: seq<Rule>, mayJump: bool, t: Table) {
    forall i :: 0 <= i < |rules| ==>
      || rules[i].target.Return? || rules[i].target.Queue?
      || (mayJump && rules[i].target == Jump(FakeR) && FakeR in t)
  }

  ghost predicate OwnChain(t: Table, c: Chain, mayJump: bool) {
    c in t ==> OwnRules(t[c], mayJump, t)
  }

  /** Everything a crash between any two commands leaves intact. */
  ghost predicate Inv(base: Table, t: Table)
    requires Pristine(base)
  {
    && HookOk(base, t, Prerouting, JUMP_S) && HookOk(base, t, Postrouting, JUMP_D)
    && OwnChain(t, FakeS, true) && OwnChain(t, FakeD, true) && OwnChain(t, FakeR, false)
    && forall c: Chain :: c.Other? ==> (c in t <==> c in base) && (c in t ==> t[c] == base[c])
  }

  ghost predicate AllInv(base: Table, log: seq<Table>)
    requires Pristine(base)
  {
    forall k :: 0 <= k < |log| ==> Inv(base, log[k])
  }

  lemma PristineInv(base: Table)
    requires Pristine(base)
    ensures Inv(base, base)
  {
  }

  lemma NotReferenced(t: Table, c: Chain, x: Chain)
    requires !Referenced(t, c) && x in t
    ensures !JumpsTo(t[x], c)
  {
  }

  /** What Inv says to somebody who lists the rules: no hook jumps to the tool twice, a jump leads to a chain, and
      without it the foreign rules are there in their order. */
  lemma AtMostOneJump(base: Table, t: Table, i: nat, j: nat)
    requires Pristine(base) && Inv(base, t)
    ensures i < j < |t[Prerouting]| ==> !(t[Prerouting][i].target == t[Prerouting][j].target == Jump(FakeS))
    ensures i < j < |t[Postrouting]| ==> !(t[Postrouting][i].target == t[Postrouting][j].target == Jump(FakeD))
    ensures JumpsTo(t[Prerouting], FakeS) ==> FakeS in t && t[Prerouting][1..] == base[Prerouting]
    ensures JumpsTo(t[Postrouting], FakeD) ==> FakeD in t && t[Postrouting][1..] == base[Postrouting]
  {
    NotReferenced(base, FakeS, Prerouting);
    NotReferenced(base, FakeD, Postrouting);
    if i < j < |t[Prerouting]| && t[Prerouting] != base[Prerouting] {
      assert t[Prerouting][j] == base[Prerouting][j - 1];
    }
    if i < j < |t[Postrouting]| && t[Postrouting] != base[Postrouting] {
      assert t[Postrouting][j] == base[Postrouting][j - 1];
    }
  }

  // ---------- cleaning up ----------

  function CleanupCommands(): (r: seq<Command>) {
    [Flush(FakeR), Flush(FakeS), Flush(FakeD),
     Delete(Prerouting, JUMP_S), Delete(Postrouting, JUMP_D),
     DeleteChain(FakeR), DeleteChain(FakeS), DeleteChain(FakeD)]
  }

  predicate IsCleanup(cmd: Command) {
    || ((cmd.Flush? || cmd.DeleteChain?) && (cmd.chain.FakeS? || cmd.chain.FakeD? || cmd.chain.FakeR?))
    || cmd == Delete(Prerouting, JUMP_S) || cmd == Delete(Postrouting, JUMP_D)
  }

  lemma NoForeignJump(base: Table, hook: Chain, c: Chain)
    requires hook in base && !Referenced(base, c)
    ensures Rule(Always, Jump(c)) !in base[hook]
  {
    if Rule(Always, Jump(c)) in base[hook] {
      assert JumpsTo(base[hook], c);
    }
  }

  lemma DeleteJump(base: Table, t: Table, hook: Chain, c: Chain)
    requires hook in base && !Referenced(base, c) && HookOk(base, t, hook, Rule(Always, Jump(c)))
    ensures Attempt(t, Delete(hook, Rule(Always, Jump(c)))) == t[hook := base[hook]]
  {
    NoForeignJump(base, hook, c);
    var jump := Rule(Always, Jump(c));
    if t[hook] != base[hook] {
      assert t[hook][0] == jump;
      assert t[hook][1..] == base[hook];
    }
  }

  lemma RemoveChainKeeps(base: Table, t: Table, c: Chain)
    requires Pristine(base) && Inv(base, t) && (c.FakeS? || c.FakeD? || c.FakeR?) && Apply(t, DeleteChain(c)).Some?
    ensures Inv(base, t - {c})
  {
    NotReferenced(t, c, Prerouting);
    NotReferenced(t, c, Postrouting);
    assert t[Prerouting] == [JUMP_S] + base[Prerouting] ==> t[Prerouting][0] == JUMP_S;
    assert t[Postrouting] == [JUMP_D] + base[Postrouting] ==> t[Postrouting][0] == JUMP_D;
    if c.FakeR? {
      assert FakeS in t ==> !JumpsTo(t[FakeS], c);
      assert FakeD in t ==> !JumpsTo(t[FakeD], c);
    }
  }

  /** No command of a cleanup breaks anything, at whatever point of whatever it interrupts. */
  lemma CleanupCommandKeeps(base: Table, t: Table, cmd: Command)
    requires Pristine(base) && Inv(base, t) && IsCleanup(cmd)
    ensures Inv(base, Attempt(t, cmd))
  {
    if cmd.Delete? {
      DeleteJump(base, t, Prerouting, FakeS);
      DeleteJump(base, t, Postrouting, FakeD);
    } else if cmd.DeleteChain? && Apply(t, cmd).Some? {
      RemoveChainKeeps(base, t, cmd.chain);
    }
  }

  function Three(t: Table, a: Command, b: Command, c: Command): (r: Table) {
    Attempt(Attempt(Attempt(t, a), b), c)
  }

  lemma EightAttempts(t: Table, cmds: seq<Command>)
    requires |cmds| == 8
    ensures AttemptAll(t, cmds) ==
            Three(Attempt(Attempt(Three(t, cmds[0], cmds[1], cmds[2]), cmds[3]), cmds[4]), cmds[5], cmds[6], cmds[7])
  {
    hide Attempt;
    ThreeAttempts(t, cmds);
    var u := Three(t, cmds[0], cmds[1], cmds[2]);
    FirstAttempt(u, cmds[3..]);
    FirstAttempt(Attempt(u, cmds[3]), cmds[4..]);
    assert cmds[3..][1..] == cmds[4..] && cmds[4..][1..] == cmds[5..];
    ThreeAttempts(Attempt(Attempt(u, cmds[3]), cmds[4]), cmds[5..]);
    assert cmds[5..][3..] == [];
  }

  lemma ThreeAttempts(t: Table, cmds: seq<Command>)
    requires |cmds| >= 3
    ensures AttemptAll(t, cmds) == AttemptAll(Three(t, cmds[0], cmds[1], cmds[2]), cmds[3..])
  {
    hide Attempt;
    FirstAttempt(t, cmds);
    FirstAttempt(Attempt(t, cmds[0]), cmds[1..]);
    FirstAttempt(Attempt(Attempt(t, cmds[0]), cmds[1]), cmds[2..]);
    assert cmds[1..][1..] == cmds[2..] && cmds[2..][1..] == cmds[3..];
  }

  lemma FirstAttempt(t: Table, cmds: seq<Command>)
    requires cmds != []
    ensures AttemptAll(t, cmds) == AttemptAll(Attempt(t, cmds[0]), cmds[1..])
  {
  }

  /** The tool's chains hold no rules any more, and the hooks only foreign ones. */
  ghost predicate OnlyEmptyChainsLeft(base: Table, t: Table) {
    && Prerouting in base && Postrouting in base
    && (forall c :: c in t ==> if c.FakeS? || c.FakeD? || c.FakeR? then t[c] == [] else c in base && t[c] == base[c])
  }

  lemma RemoveEmptyChain(base: Table, t: Table, c: Chain)
    requires Pristine(base) && OnlyEmptyChainsLeft(base, t) && (c.FakeS? || c.FakeD? || c.FakeR?)
    ensures Attempt(t, DeleteChain(c)) == t - {c} && OnlyEmptyChainsLeft(base, t - {c})
  {
    forall x | x in t ensures !JumpsTo(t[x], c) {
      if x in base {
        NotReferenced(base, c, x);
      }
    }
    if c !in t {
      assert t - {c} == t;
    }
  }

  ghost predicate ChainsAreEmpty(t: Table) {
    && (FakeS in t ==> t[FakeS] == []) && (FakeD in t ==> t[FakeD] == []) && (FakeR in t ==> t[FakeR] == [])
  }

  lemma FlushAll(base: Table, t: Table)
    requires Pristine(base) && Inv(base, t)
    ensures Inv(base, Three(t, Flush(FakeR), Flush(FakeS), Flush(FakeD)))
    ensures ChainsAreEmpty(Three(t, Flush(FakeR), Flush(FakeS), Flush(FakeD)))
  {
    CleanupCommandKeeps(base, t, Flush(FakeR));
    CleanupCommandKeeps(base, Attempt(t, Flush(FakeR)), Flush(FakeS));
    CleanupCommandKeeps(base, Attempt(Attempt(t, Flush(FakeR)), Flush(FakeS)), Flush(FakeD));
  }

  lemma DeleteJumps(base: Table, t: Table)
    requires Pristine(base) && Inv(base, t) && ChainsAreEmpty(t)
    ensures var u := Attempt(Attempt(t, Delete(Prerouting, JUMP_S)), Delete(Postrouting, JUMP_D));
            OnlyEmptyChainsLeft(base, u) && base.Keys <= u.Keys
  {
    DeleteJump(base, t, Prerouting, FakeS);
    DeleteJump(base, t[Prerouting := base[Prerouting]], Postrouting, FakeD);
  }

  lemma RemoveAll(base: Table, t: Table)
    requires Pristine(base) && OnlyEmptyChainsLeft(base, t) && base.Keys <= t.Keys
    ensures Three(t, DeleteChain(FakeR), DeleteChain(FakeS), DeleteChain(FakeD)) == base
  {
    RemoveEmptyChain(base, t, FakeR);
    RemoveEmptyChain(base, t - {FakeR}, FakeS);
    RemoveEmptyChain(base, t - {FakeR} - {FakeS}, FakeD);
    assert t - {FakeR} - {FakeS} - {FakeD} == base;
  }

  /** Without faults a cleanup leaves nothing of the tool's and everything of the others'. */
  lemma CleanupRestores(base: Table, t: Table)
    requires Pristine(base) && Inv(base, t)
    ensures AttemptAll(t, CleanupCommands()) == base
  {
    EightAttempts(t, CleanupCommands());
    FlushAll(base, t);
    var t3 := Three(t, Flush(FakeR), Flush(FakeS), Flush(FakeD));
    DeleteJumps(base, t3);
    RemoveAll(base, Attempt(Attempt(t3, Delete(Prerouting, JUMP_S)), Delete(Postrouting, JUMP_D)));
  }

  function CleanupOrders(): (r: seq<Order<Command>>) {
    Unchecked(CleanupCommands())
  }

  lemma TriedOrNot(t: Table, cmd: Command, fate: Fate)
    ensures Effect(Apply, t, cmd, fate) == if fate.NotStarted? then t else Attempt(t, cmd)
  {
  }

  lemma {:induction false} CleanupPart(base: Table, t: Table, cmds: seq<Command>, fates: seq<Fate>)
    requires Pristine(base) && Inv(base, t) && forall k :: 0 <= k < |cmds| ==> IsCleanup(cmds[k])
    ensures AllInv(base, States(Apply, t, Unchecked(cmds), fates))
    ensures Play(Apply, t, Unchecked(cmds), fates).end == if |cmds| <= |fates| then Finished else Cut
    ensures NoFaults(fates) && |cmds| <= |fates| ==> Play(Apply, t, Unchecked(cmds), fates).state == AttemptAll(t, cmds)
    decreases |cmds|
  {
    if cmds != [] {
      UncheckedFirst(cmds);
      if fates != [] {
        hide Inv, IsCleanup, Attempt;
        CleanupCommandKeeps(base, t, cmds[0]);
        TriedOrNot(t, cmds[0], fates[0]);
        CleanupPart(base, Effect(Apply, t, cmds[0], fates[0]), cmds[1..], fates[1..]);
      }
    }
  }

  /** However its commands fare, a cleanup keeps everything intact at each of them; and without faults it restores the
      others' table. */
  lemma CleanupRun(base: Table, t: Table, fates: seq<Fate>)
    requires Pristine(base) && Inv(base, t)
    ensures AllInv(base, States(Apply, t, CleanupOrders(), fates)) && Inv(base, Play(Apply, t, CleanupOrders(), fates).state)
    ensures Play(Apply, t, CleanupOrders(), fates).end == if |CleanupOrders()| <= |fates| then Finished else Cut
    ensures NoFaults(fates) && |CleanupOrders()| <= |fates| ==> Play(Apply, t, CleanupOrders(), fates).state == base
  {
    var cmds := CleanupCommands();
    assert forall k :: 0 <= k < |cmds| ==> IsCleanup(cmds[k]);
    hide Inv, IsCleanup, CleanupCommands, AttemptAll, Play, States;
    CleanupPart(base, t, cmds, fates);
    CleanupRestores(base, t);
    RunEndsThere(Apply, t, CleanupOrders(), fates);
  }

  lemma KeptAlong(base: Table, from: Past<Table>, orders: seq<Order<Command>>, to: Past<Table>, end: End)
    requires Pristine(base) && Inv(base, from.state) && Went(Apply, from, orders, to, end)
    requires AllInv(base, States(Apply, from.state, orders, NewFates(from, to)))
    ensures Inv(base, to.state) && AllInv(base, NewStates(from, to))
  {
    hide Inv, States, Play;
  }

  lemma CleanedUp(base: Table, from: Past<Table>, to: Past<Table>)
    requires Pristine(base) && Inv(base, from.state) && Went(Apply, from, CleanupOrders(), to, Finished)
    ensures Inv(base, to.state) && AllInv(base, NewStates(from, to))
    ensures NoFaults(NewFates(from, to)) ==> to.state == base
  {
    hide Inv, CleanupOrders, Ran;
    CameToTheEnd(Apply, from, CleanupOrders(), to, Finished);
    CleanupRun(base, from.state, NewFates(from, to));
    KeptAlong(base, from, CleanupOrders(), to, Finished);
  }

  /** fh_ipt4_cleanup: every command is tried, none is checked. */
  method Cleanup(kernel: Kernel, ghost base: Table)
    requires Pristine(base) && Inv(base, kernel.table)
    modifies kernel
    ensures Went(Apply, old(kernel.Here()), CleanupOrders(), kernel.Here(), Finished)
    ensures Inv(base, kernel.table) && AllInv(base, NewStates(old(kernel.Here()), kernel.Here()))
    ensures NoFaults(NewFates(old(kernel.Here()), kernel.Here())) ==> kernel.table == base
  {
    hide Ran, Inv, CleanupCommands;
    var cmds := CleanupCommands();
    ghost var start := kernel.Here();
    WentNowhere(Apply, start);
    assert Unchecked(cmds[..0]) == [];
    for i := 0 to |cmds|
      invariant Went(Apply, start, Unchecked(cmds[..i]), kernel.Here(), Finished)
    {
      ghost var here := kernel.Here();
      var _ := kernel.Execute(cmds[i]);
      WentInTwo(Apply, start, Unchecked(cmds[..i]), here, [Order(cmds[i], false)], kernel.Here(), Finished);
      UncheckedGrows(cmds, i);
    }
    assert cmds[..|cmds|] == cmds;
    CleanedUp(base, start, kernel.Here());
  }

  // ---------- setting up ----------

  function ExcludeSources(nets: seq<Net>): (r: seq<Rule>) {
    seq(|nets|, i requires 0 <= i < |nets| => Rule(From(nets[i]), Return))
  }

  function ExcludeDestinations(nets: seq<Net>): (r: seq<Rule>) {
    seq(|nets|, i requires 0 <= i < |nets| => Rule(To(nets[i]), Return))
  }

  function DecideRules(cfg: Config): (r: seq<Rule>) {
    [Rule(Marked(cfg.mark, cfg.mask), Return), Rule(TcpFlags({SYN, FIN, RST}, {SYN}), Queue(cfg.queue))]
  }

  function FirstCommands(): (r: seq<Command>) {
    [New(FakeS), New(FakeD), Insert(Prerouting, JUMP_S), Insert(Postrouting, JUMP_D), New(FakeR)]
  }

  function SetupCommands(cfg: Config): (r: seq<Command>) {
    FirstCommands() + Appends(FakeS, ExcludeSources(cfg.excluded)) + Appends(FakeD, ExcludeDestinations(cfg.excluded))
    + Appends(FakeR, DecideRules(cfg))
  }

  function AckRule(cfg: Config): (r: Rule) {
    Rule(EarlyTcpFlags({SYN, ACK, FIN, RST}, {ACK}, 2, 4), Queue(cfg.queue))
  }

  predicate NamesFit(cfg: Config) {
    cfg.allDevices || forall i :: 0 <= i < |cfg.devices| ==> |cfg.devices[i]| < IFNAMSIZ
  }

  function InJumps(cfg: Config, n: nat): (r: seq<Rule>)
    requires n <= |cfg.devices|
  {
    seq(n, i requires 0 <= i < n => Rule(InVia(cfg.devices[i]), Jump(FakeR)))
  }

  function OutJumps(cfg: Config, n: nat): (r: seq<Rule>)
    requires n <= |cfg.devices|
  {
    seq(n, i requires 0 <= i < n => Rule(OutVia(cfg.devices[i]), Jump(FakeR)))
  }

  /** How many of the names fit before the first that does not. */
  function Fitting(devices: seq<string>): (n: nat)
    ensures n <= |devices| && (forall i :: 0 <= i < n ==> |devices[i]| < IFNAMSIZ)
    ensures n < |devices| ==> |devices[n]| >= IFNAMSIZ
  {
    if devices == [] || |devices[0]| >= IFNAMSIZ then 0 else 1 + Fitting(devices[1..])
  }

  function JumpCommands(devices: seq<string>, n: nat): (r: seq<Command>)
    requires n <= |devices|
    ensures |r| == 2 * n
  {
    if n == 0 then []
    else
      JumpCommands(devices, n - 1) +
      [Append(FakeS, Rule(InVia(devices[n - 1]), Jump(FakeR))), Append(FakeD, Rule(OutVia(devices[n - 1]), Jump(FakeR)))]
  }

  function DeviceCommands(cfg: Config): (r: seq<Command>) {
    if cfg.allDevices then [Append(FakeS, Rule(Always, Jump(FakeR))), Append(FakeD, Rule(Always, Jump(FakeR)))]
    else JumpCommands(cfg.devices, Fitting(cfg.devices))
  }

  /** The three chains in full. */
  function SourceRules(cfg: Config): (r: seq<Rule>) {
    ExcludeSources(cfg.excluded) + if cfg.allDevices then [Rule(Always, Jump(FakeR))] else InJumps(cfg, |cfg.devices|)
  }

  function DestinationRules(cfg: Config): (r: seq<Rule>) {
    ExcludeDestinations(cfg.excluded) + if cfg.allDevices then [Rule(Always, Jump(FakeR))] else OutJumps(cfg, |cfg.devices|)
  }

  function RuleChain(cfg: Config, ack: bool): (r: seq<Rule>) {
    if ack then DecideRules(cfg) + [AckRule(cfg)] else DecideRules(cfg)
  }

  function Hooked(base: Table, s: seq<Rule>, d: seq<Rule>, r: seq<Rule>): (t: Table)
    requires Prerouting in base && Postrouting in base
  {
    base[Prerouting := [JUMP_S] + base[Prerouting]][Postrouting := [JUMP_D] + base[Postrouting]]
    [FakeS := s][FakeD := d][FakeR := r]
  }

  /** The table a successful setup leaves. */
  function Installed(base: Table, cfg: Config, ack: bool): (t: Table)
    requires Prerouting in base && Postrouting in base
  {
    Hooked(base, SourceRules(cfg), DestinationRules(cfg), RuleChain(cfg, ack))
  }

  // ---------- the commands, one after the other ----------

  predicate IsFill(cmd: Command) {
    && cmd.Append? && (cmd.chain.FakeS? || cmd.chain.FakeD? || cmd.chain.FakeR?)
    && (cmd.rule.target.Return? || cmd.rule.target.Queue? || (cmd.rule.target == Jump(FakeR) && !cmd.chain.FakeR?))
  }

  lemma FillKeeps(base: Table, t: Table, cmd: Command)
    requires Pristine(base) && Inv(base, t) && IsFill(cmd)
    ensures Inv(base, Attempt(t, cmd))
  {
  }

  lemma NewKeeps(base: Table, t: Table, c: Chain)
    requires Pristine(base) && Inv(base, t) && (c.FakeS? || c.FakeD? || c.FakeR?)
    ensures Inv(base, Attempt(t, New(c)))
  {
  }

  lemma HookKeeps(base: Table, t: Table, hook: Chain, jump: Rule)
    requires Pristine(base) && Inv(base, t) && ((hook.Prerouting? && jump == JUMP_S) || (hook.Postrouting? && jump == JUMP_D))
    requires t[hook] == base[hook]
    ensures Inv(base, Attempt(t, Insert(hook, jump)))
  {
  }

  lemma FourApplied(t: Table, cmds: seq<Command>)
    requires |cmds| >= 5
    ensures Applied(t, cmds[..1]) == Apply(t, cmds[0])
    ensures Applied(t, cmds[..1]).Some? ==> Applied(t, cmds[..2]) == Apply(Applied(t, cmds[..1]).value, cmds[1])
    ensures Applied(t, cmds[..2]).Some? ==> Applied(t, cmds[..3]) == Apply(Applied(t, cmds[..2]).value, cmds[2])
    ensures Applied(t, cmds[..3]).Some? ==> Applied(t, cmds[..4]) == Apply(Applied(t, cmds[..3]).value, cmds[3])
    ensures Applied(t, cmds[..4]).Some? ==> Applied(t, cmds[..5]) == Apply(Applied(t, cmds[..4]).value, cmds[4])
  {
    OneMoreApplied(t, cmds, 0);
    OneMoreApplied(t, cmds, 1);
    OneMoreApplied(t, cmds, 2);
    OneMoreApplied(t, cmds, 3);
    OneMoreApplied(t, cmds, 4);
  }

  lemma OneMoreApplied(t: Table, cmds: seq<Command>, n: nat)
    requires n < |cmds|
    ensures Applied(t, cmds[..n]).Some? ==> Applied(t, cmds[..n + 1]) == Apply(Applied(t, cmds[..n]).value, cmds[n])
    ensures Applied(t, cmds[..0]) == Some(t)
  {
    assert cmds[..n + 1][..n] == cmds[..n];
  }

  lemma SetupShape(cfg: Config)
    ensures var cmds := SetupCommands(cfg);
            |cmds| >= 5 && cmds[..5] == FirstCommands() && forall k :: 5 <= k < |cmds| ==> IsFill(cmds[k])
  {
  }

  /** The hooks hold no jump when their chain is new. */
  lemma NewMeansUnhooked(base: Table, start: Table, cmds: seq<Command>, t: Table, k: nat)
    requires Pristine(base) && Inv(base, start) && |cmds| >= 5 && cmds[..5] == FirstCommands()
    requires 2 <= k <= 3 && Applied(start, cmds[..k]) == Some(t)
    ensures k == 2 ==> Prerouting in t && t[Prerouting] == base[Prerouting]
    ensures k == 3 ==> Postrouting in t && t[Postrouting] == base[Postrouting]
  {
    FourApplied(start, cmds);
    PrefixApplied(start, cmds[..k], 2);
    PrefixApplied(start, cmds[..k], 1);
    assert cmds[..k][..2] == cmds[..2] && cmds[..k][..1] == cmds[..1];
    assert cmds[0] == cmds[..5][0] == New(FakeS) && cmds[1] == cmds[..5][1] == New(FakeD);
    assert cmds[2] == cmds[..5][2] == Insert(Prerouting, JUMP_S);
  }

  lemma SetupStepKeeps(base: Table, start: Table, cmds: seq<Command>, k: nat, t: Table)
    requires Pristine(base) && Inv(base, start) && Inv(base, t)
    requires |cmds| >= 5 && cmds[..5] == FirstCommands() && forall j :: 5 <= j < |cmds| ==> IsFill(cmds[j])
    requires k < |cmds| && Applied(start, cmds[..k]) == Some(t)
    ensures Inv(base, Attempt(t, cmds[k]))
  {
    if k < 5 {
      assert cmds[k] == cmds[..5][k];
      if k == 2 || k == 3 {
        NewMeansUnhooked(base, start, cmds, t, k);
        HookKeeps(base, t, cmds[k].chain, cmds[k].rule);
      } else {
        NewKeeps(base, t, cmds[k].chain);
      }
    } else {
      FillKeeps(base, t, cmds[k]);
    }
  }

  /** The chains can only all be new in a table without any trace of the tool. */
  lemma StartsClean(base: Table, start: Table, cmds: seq<Command>)
    requires Pristine(base) && Inv(base, start) && |cmds| >= 5 && cmds[..5] == FirstCommands() && Applied(start, cmds).Some?
    ensures start == base
  {
    FourApplied(start, cmds);
    PrefixApplied(start, cmds, 5);
    PrefixApplied(start, cmds, 4);
    PrefixApplied(start, cmds, 3);
    PrefixApplied(start, cmds, 2);
    PrefixApplied(start, cmds, 1);
    assert cmds[0] == cmds[..5][0] == New(FakeS) && cmds[1] == cmds[..5][1] == New(FakeD);
    assert cmds[2] == cmds[..5][2] == Insert(Prerouting, JUMP_S) && cmds[3] == cmds[..5][3] == Insert(Postrouting, JUMP_D);
    assert cmds[4] == cmds[..5][4] == New(FakeR);
    assert FakeS !in start && FakeD !in start && FakeR !in start;
    assert start.Keys == base.Keys;
  }

  lemma FirstInstall(base: Table)
    requires Pristine(base)
    ensures Applied(base, FirstCommands()) == Some(Hooked(base, [], [], []))
  {
    var cmds := FirstCommands();
    FourApplied(base, cmds);
    assert cmds[..5] == cmds;
    assert base[FakeS := []][FakeD := []][Prerouting := [JUMP_S] + base[Prerouting]][Postrouting := [JUMP_D] + base[Postrouting]]
      [FakeR := []] == Hooked(base, [], [], []);
  }

  lemma FillSource(base: Table, s: seq<Rule>, d: seq<Rule>, r: seq<Rule>, rules: seq<Rule>)
    requires Prerouting in base && Postrouting in base
    requires forall i :: 0 <= i < |rules| ==> rules[i].target.Jump? ==> rules[i].target == Jump(FakeR)
    ensures Applied(Hooked(base, s, d, r), Appends(FakeS, rules)) == Some(Hooked(base, s + rules, d, r))
  {
    AppendsApplied(Hooked(base, s, d, r), FakeS, rules);
    assert Hooked(base, s, d, r)[FakeS := s + rules] == Hooked(base, s + rules, d, r);
  }

  lemma FillDestination(base: Table, s: seq<Rule>, d: seq<Rule>, r: seq<Rule>, rules: seq<Rule>)
    requires Prerouting in base && Postrouting in base
    requires forall i :: 0 <= i < |rules| ==> rules[i].target.Jump? ==> rules[i].target == Jump(FakeR)
    ensures Applied(Hooked(base, s, d, r), Appends(FakeD, rules)) == Some(Hooked(base, s, d + rules, r))
  {
    AppendsApplied(Hooked(base, s, d, r), FakeD, rules);
    assert Hooked(base, s, d, r)[FakeD := d + rules] == Hooked(base, s, d + rules, r);
  }

  lemma FillRule(base: Table, s: seq<Rule>, d: seq<Rule>, r: seq<Rule>, rules: seq<Rule>)
    requires Prerouting in base && Postrouting in base
    requires forall i :: 0 <= i < |rules| ==> !rules[i].target.Jump?
    ensures Applied(Hooked(base, s, d, r), Appends(FakeR, rules)) == Some(Hooked(base, s, d, r + rules))
  {
    AppendsApplied(Hooked(base, s, d, r), FakeR, rules);
    assert Hooked(base, s, d, r)[FakeR := r + rules] == Hooked(base, s, d, r + rules);
  }

  /** The table between the mandatory commands and the devices. */
  function Filled(base: Table, cfg: Config, ack: bool): (t: Table)
    requires Prerouting in base && Postrouting in base
  {
    Hooked(base, ExcludeSources(cfg.excluded), ExcludeDestinations(cfg.excluded), RuleChain(cfg, ack))
  }

  lemma SetupInstalls(base: Table, cfg: Config)
    requires Pristine(base)
    ensures Applied(base, SetupCommands(cfg)) ==
            Some(Filled(base, cfg, false))
  {
    FirstInstall(base);
    FillThree(base, FirstCommands(), ExcludeSources(cfg.excluded), ExcludeDestinations(cfg.excluded), DecideRules(cfg));
  }

  lemma FillThree(base: Table, first: seq<Command>, s: seq<Rule>, d: seq<Rule>, r: seq<Rule>)
    requires Prerouting in base && Postrouting in base && Applied(base, first) == Some(Hooked(base, [], [], []))
    requires forall i :: 0 <= i < |s| ==> !s[i].target.Jump?
    requires forall i :: 0 <= i < |d| ==> !d[i].target.Jump?
    requires forall i :: 0 <= i < |r| ==> !r[i].target.Jump?
    ensures Applied(base, first + Appends(FakeS, s) + Appends(FakeD, d) + Appends(FakeR, r)) == Some(Hooked(base, s, d, r))
  {
    var second := first + Appends(FakeS, s);
    var third := second + Appends(FakeD, d);
    assert [] + s == s && [] + d == d && [] + r == r;
    FillSource(base, [], [], [], s);
    AppliedInTwo(base, first, Appends(FakeS, s));
    FillDestination(base, s, [], [], d);
    AppliedInTwo(base, second, Appends(FakeD, d));
    FillRule(base, s, d, [], r);
    AppliedInTwo(base, third, Appends(FakeR, r));
  }

  // ---------- the setup as a run ----------

  /** What a run of the mandatory commands relies on: five first ones, then only rules for the tool's own chains. */
  ghost predicate SetupLike(cmds: seq<Command>) {
    |cmds| >= 5 && cmds[..5] == FirstCommands() && forall k :: 5 <= k < |cmds| ==> IsFill(cmds[k])
  }

  lemma SetupTurn(base: Table, start: Table, cmds: seq<Command>, n: nat, t: Table)
    requires Pristine(base) && Inv(base, start) && Inv(base, t) && SetupLike(cmds)
    requires n < |cmds| && Applied(start, cmds[..n]) == Some(t)
    ensures Inv(base, Attempt(t, cmds[n])) && Applied(start, cmds[..n + 1]) == Apply(t, cmds[n])
    ensures Applied(start, cmds).Some? ==> Apply(t, cmds[n]).Some?
  {
    SetupStepKeeps(base, start, cmds, n, t);
    OneMoreApplied(start, cmds, n);
    if Applied(start, cmds).Some? {
      PrefixApplied(start, cmds, n + 1);
    }
  }

  function AckOrders(cfg: Config): (r: seq<Order<Command>>) {
    [Order(Append(FakeR, AckRule(cfg)), false)]
  }

  function BuildOrders(cfg: Config): (r: seq<Order<Command>>) {
    Checked(SetupCommands(cfg)) + (AckOrders(cfg) + Checked(DeviceCommands(cfg)))
  }

  /** All that a setup does unless one of its checked commands fails. */
  function SetupOrders(cfg: Config): (r: seq<Order<Command>>) {
    CleanupOrders() + BuildOrders(cfg)
  }

  /** Of a setup's fates, the one of the optional rule, whose result nobody looks at. */
  predicate AckTried(cfg: Config, fates: seq<Fate>) {
    var n := |CleanupOrders()| + |SetupCommands(cfg)|;
    n < |fates| && !fates[n].NotStarted?
  }

  lemma {:induction false} MandatoryPart(base: Table, start: Table, cmds: seq<Command>, n: nat, t: Table, fates: seq<Fate>)
    requires Pristine(base) && Inv(base, start) && Inv(base, t) && SetupLike(cmds)
    requires n <= |cmds| && Applied(start, cmds[..n]) == Some(t)
    ensures AllInv(base, States(Apply, t, Checked(cmds[n..]), fates))
    ensures Inv(base, Play(Apply, t, Checked(cmds[n..]), fates).state)
    ensures Play(Apply, t, Checked(cmds[n..]), fates).end.Finished? ==>
              Applied(start, cmds) == Some(Play(Apply, t, Checked(cmds[n..]), fates).state)
    ensures NoFaults(fates) && Applied(start, cmds).Some? ==> !Play(Apply, t, Checked(cmds[n..]), fates).end.Stopped?
    decreases |cmds| - n
  {
    hide Inv, SetupLike, Attempt;
    if n == |cmds| {
      assert cmds[..n] == cmds && cmds[n..] == [];
    } else {
      CheckedFirst(cmds[n..]);
      assert cmds[n..][1..] == cmds[n + 1..];
      if fates != [] {
        SetupTurn(base, start, cmds, n, t);
        TriedOrNot(t, cmds[n], fates[0]);
        if Seen(Apply, t, cmds[n], fates[0]) {
          AcceptedAttempt(t, cmds[n]);
          MandatoryPart(base, start, cmds, n + 1, Attempt(t, cmds[n]), fates[1..]);
        }
      }
    }
  }

  lemma AcceptedAttempt(t: Table, cmd: Command)
    ensures Apply(t, cmd).Some? ==> Apply(t, cmd) == Some(Attempt(t, cmd))
  {
  }

  /** Rules in the tool's own chains break nothing, however they fare. */
  lemma {:induction false} FillPart(base: Table, t: Table, orders: seq<Order<Command>>, fates: seq<Fate>)
    requires Pristine(base) && Inv(base, t) && forall k :: 0 <= k < |orders| ==> IsFill(orders[k].command)
    ensures AllInv(base, States(Apply, t, orders, fates))
    decreases |orders|
  {
    hide Inv, IsFill, Attempt;
    if orders != [] && fates != [] {
      FillKeeps(base, t, orders[0].command);
      TriedOrNot(t, orders[0].command, fates[0]);
      if !Halts(Apply, t, orders[0], fates[0]) {
        FillPart(base, Effect(Apply, t, orders[0].command, fates[0]), orders[1..], fates[1..]);
      }
    }
  }

  lemma AppendOne(base: Table, s: seq<Rule>, d: seq<Rule>, r: seq<Rule>, rule: Rule)
    requires Prerouting in base && Postrouting in base && (rule.target.Jump? ==> rule.target == Jump(FakeR))
    ensures Apply(Hooked(base, s, d, r), Append(FakeS, rule)) == Some(Hooked(base, s + [rule], d, r))
    ensures Apply(Hooked(base, s, d, r), Append(FakeD, rule)) == Some(Hooked(base, s, d + [rule], r))
  {
    assert Hooked(base, s, d, r)[FakeS := s + [rule]] == Hooked(base, s + [rule], d, r);
    assert Hooked(base, s, d, r)[FakeD := d + [rule]] == Hooked(base, s, d + [rule], r);
  }

  lemma PairPart(base: Table, s: seq<Rule>, d: seq<Rule>, r: seq<Rule>, incoming: Rule, outgoing: Rule, fates: seq<Fate>)
    requires Prerouting in base && Postrouting in base && incoming.target == Jump(FakeR) && outgoing.target == Jump(FakeR)
    ensures var p := Play(Apply, Hooked(base, s, d, r), Checked([Append(FakeS, incoming), Append(FakeD, outgoing)]), fates);
            && (p.end.Finished? ==> p.state == Hooked(base, s + [incoming], d + [outgoing], r))
            && (NoFaults(fates) ==> !p.end.Stopped?)
  {
    hide Hooked, Apply;
    var orders: seq<Order<Command>> := Checked([Append(FakeS, incoming), Append(FakeD, outgoing)]);
    var t, u := Hooked(base, s, d, r), Hooked(base, s + [incoming], d, r);
    AppendOne(base, s, d, r, incoming);
    AppendOne(base, s + [incoming], d, r, outgoing);
    assert orders[0] == Order(Append(FakeS, incoming), true) && orders[1..][0] == Order(Append(FakeD, outgoing), true);
    assert orders[1..][1..] == [];
    if fates != [] {
      FirstOrder(Apply, t, orders, fates);
      if fates[0].Tried? && fates[1..] != [] {
        FirstOrder(Apply, u, orders[1..], fates[1..]);
      }
    }
  }

  lemma {:induction false} JumpsPart(base: Table, s: seq<Rule>, d: seq<Rule>, r: seq<Rule>, cfg: Config, n: nat,
                                     fates: seq<Fate>)
    requires Prerouting in base && Postrouting in base && n <= |cfg.devices|
    ensures var p := Play(Apply, Hooked(base, s, d, r), Checked(JumpCommands(cfg.devices, n)), fates);
            && (p.end.Finished? ==> p.state == Hooked(base, s + InJumps(cfg, n), d + OutJumps(cfg, n), r))
            && (NoFaults(fates) ==> !p.end.Stopped?)
    decreases n
  {
    hide Hooked, Apply;
    if n == 0 {
      assert s + InJumps(cfg, 0) == s && d + OutJumps(cfg, 0) == d;
    } else {
      var i := n - 1;
      JumpsPart(base, s, d, r, cfg, i, fates);
      var front := Checked(JumpCommands(cfg.devices, i));
      var pair := [Append(FakeS, Rule(InVia(cfg.devices[i]), Jump(FakeR))),
                   Append(FakeD, Rule(OutVia(cfg.devices[i]), Jump(FakeR)))];
      assert Checked(JumpCommands(cfg.devices, n)) == front + Checked(pair);
      PlaySplit(Apply, Hooked(base, s, d, r), front, Checked(pair), fates);
      if Play(Apply, Hooked(base, s, d, r), front, fates).end.Finished? {
        PairPart(base, s + InJumps(cfg, i), d + OutJumps(cfg, i), r, pair[0].rule, pair[1].rule, fates[2 * i..]);
        JumpsGrow(cfg, i, s, d);
      }
    }
  }

  lemma JumpsGrow(cfg: Config, i: nat, s: seq<Rule>, d: seq<Rule>)
    requires i < |cfg.devices|
    ensures (s + InJumps(cfg, i)) + [Rule(InVia(cfg.devices[i]), Jump(FakeR))] == s + InJumps(cfg, i + 1)
    ensures (d + OutJumps(cfg, i)) + [Rule(OutVia(cfg.devices[i]), Jump(FakeR))] == d + OutJumps(cfg, i + 1)
  {
  }

  /** One jump for each device at the end of both chains, in order, or one for all. */
  lemma DevicePart(base: Table, cfg: Config, ack: bool, fates: seq<Fate>)
    requires Prerouting in base && Postrouting in base
    ensures var p := Play(Apply, Filled(base, cfg, ack), Checked(DeviceCommands(cfg)), fates);
            && (p.end.Finished? && NamesFit(cfg) ==> p.state == Installed(base, cfg, ack))
            && (NoFaults(fates) ==> !p.end.Stopped?)
  {
    hide Hooked, Apply, Play, Checked, JumpCommands;
    var s, d, r := ExcludeSources(cfg.excluded), ExcludeDestinations(cfg.excluded), RuleChain(cfg, ack);
    if cfg.allDevices {
      PairPart(base, s, d, r, Rule(Always, Jump(FakeR)), Rule(Always, Jump(FakeR)), fates);
    } else {
      JumpsPart(base, s, d, r, cfg, Fitting(cfg.devices), fates);
    }
  }

  lemma AckAppended(base: Table, cfg: Config)
    requires Prerouting in base && Postrouting in base
    ensures Apply(Filled(base, cfg, false), Append(FakeR, AckRule(cfg))) == Some(Filled(base, cfg, true))
    ensures forall f: Fate ::
              Effect(Apply, Filled(base, cfg, false), Append(FakeR, AckRule(cfg)), f) == Filled(base, cfg, !f.NotStarted?)
  {
    var t := Filled(base, cfg, false);
    assert t[FakeR := RuleChain(cfg, false) + [AckRule(cfg)]] == Filled(base, cfg, true);
  }

  lemma AckPart(base: Table, cfg: Config, fates: seq<Fate>)
    requires Prerouting in base && Postrouting in base
    ensures var p := Play(Apply, Filled(base, cfg, false), AckOrders(cfg) + Checked(DeviceCommands(cfg)), fates);
            && (p.end.Finished? ==> fates != [])
            && (p.end.Finished? && NamesFit(cfg) ==> p.state == Installed(base, cfg, !fates[0].NotStarted?))
            && (NoFaults(fates) ==> !p.end.Stopped?)
  {
    hide Filled, Installed, Apply, DeviceCommands, NamesFit;
    var orders := AckOrders(cfg) + Checked(DeviceCommands(cfg));
    assert orders[1..] == Checked(DeviceCommands(cfg));
    if fates != [] {
      AckAppended(base, cfg);
      FirstOrder(Apply, Filled(base, cfg, false), orders, fates);
      DevicePart(base, cfg, !fates[0].NotStarted?, fates[1..]);
    }
  }

  lemma RestFills(cfg: Config)
    ensures var orders := AckOrders(cfg) + Checked(DeviceCommands(cfg));
            forall k :: 0 <= k < |orders| ==> IsFill(orders[k].command)
  {
    if !cfg.allDevices {
      JumpsFill(cfg.devices, Fitting(cfg.devices));
    }
  }

  lemma {:induction false} JumpsFill(devices: seq<string>, n: nat)
    requires n <= |devices|
    ensures forall k :: 0 <= k < 2 * n ==> IsFill(JumpCommands(devices, n)[k])
  {
    if n > 0 {
      JumpsFill(devices, n - 1);
    }
  }

  lemma IntactInTwo(base: Table, t: Table, a: seq<Order<Command>>, b: seq<Order<Command>>, fates: seq<Fate>)
    requires Pristine(base) && AllInv(base, States(Apply, t, a, fates))
    requires var first := Play(Apply, t, a, fates);
             first.end.Finished? ==> |a| <= |fates| && AllInv(base, States(Apply, first.state, b, fates[|a|..]))
    ensures AllInv(base, States(Apply, t, a + b, fates))
  {
    hide Inv, Play, States;
    PlaySplit(Apply, t, a, b, fates);
  }

  lemma AfterCleanup(base: Table, cfg: Config, t: Table, fates: seq<Fate>)
    requires Pristine(base) && Inv(base, t)
    ensures var p := Play(Apply, t, BuildOrders(cfg), fates);
            && AllInv(base, States(Apply, t, BuildOrders(cfg), fates))
            && (p.end.Finished? ==> |SetupCommands(cfg)| < |fates|)
            && (p.end.Finished? && NamesFit(cfg) ==> p.state == Installed(base, cfg, !fates[|SetupCommands(cfg)|].NotStarted?))
            && (NoFaults(fates) && t == base ==> !p.end.Stopped?)
  {
    var cmds := SetupCommands(cfg);
    var a, b := Checked(cmds), AckOrders(cfg) + Checked(DeviceCommands(cfg));
    SetupShape(cfg);
    SetupInstalls(base, cfg);
    assert cmds[..0] == [] && cmds[0..] == cmds;
    hide Inv, AllInv, Installed, NamesFit, SetupCommands, DeviceCommands, AckOrders, Play, States;
    MandatoryPart(base, t, cmds, 0, t, fates);
    PlaySplit(Apply, t, a, b, fates);
    var first := Play(Apply, t, a, fates);
    if first.end.Finished? {
      StartsClean(base, t, cmds);
      RestFills(cfg);
      FillPart(base, first.state, b, fates[|cmds|..]);
      AckPart(base, cfg, fates[|cmds|..]);
    }
    IntactInTwo(base, t, a, b, fates);
  }

  /** However its commands fare and wherever it is cut off, a setup keeps everything intact at each of them. When it
      comes to its end, it leaves exactly the intended table, with or without the optional rule; and without faults
      nothing stops it, whatever it has found. */
  lemma SetupRun(base: Table, cfg: Config, t: Table, fates: seq<Fate>)
    requires Pristine(base) && Inv(base, t)
    ensures var p := Play(Apply, t, SetupOrders(cfg), fates);
            && AllInv(base, States(Apply, t, SetupOrders(cfg), fates)) && Inv(base, p.state)
            && (p.end.Finished? && NamesFit(cfg) ==> p.state == Installed(base, cfg, AckTried(cfg, fates)))
            && (NoFaults(fates) ==> !p.end.Stopped? && (p.end.Finished? ==> AckTried(cfg, fates)))
  {
    hide Inv, AllInv, Installed, NamesFit, SetupCommands, BuildOrders, CleanupOrders, Play, States, Pristine;
    var a, b := CleanupOrders(), BuildOrders(cfg);
    var n := |a|;
    CleanupRun(base, t, fates);
    PlaySplit(Apply, t, a, b, fates);
    var first := Play(Apply, t, a, fates);
    if first.end.Finished? {
      AfterCleanup(base, cfg, first.state, fates[n..]);
    }
    IntactInTwo(base, t, a, b, fates);
    RunEndsThere(Apply, t, a + b, fates);
    LastIsIntact(base, t, States(Apply, t, a + b, fates));
  }

  lemma LastIsIntact(base: Table, t: Table, states: seq<Table>)
    requires Pristine(base) && Inv(base, t) && AllInv(base, states)
    ensures Inv(base, LastState(t, states))
  {
    hide Inv;
  }

  // ---------- the setup itself ----------

  /** What a setup that says ok, or that it failed, has done. */
  ghost predicate SetUp(from: Past<Table>, cfg: Config, to: Past<Table>, ok: bool) {
    if ok then Went(Apply, from, SetupOrders(cfg), to, Finished) && NamesFit(cfg)
    else Went(Apply, from, SetupOrders(cfg), to, Stopped) || (Went(Apply, from, SetupOrders(cfg), to, Finished) && !NamesFit(cfg))
  }

  /** The mandatory commands, up to the first that fails: they all succeed only in a table without a trace of the tool. */
  method RunCommands(kernel: Kernel, cmds: seq<Command>, ghost base: Table) returns (ok: bool)
    requires Pristine(base) && Inv(base, kernel.table) && SetupLike(cmds)
    modifies kernel
    ensures Went(Apply, old(kernel.Here()), Checked(cmds), kernel.Here(), if ok then Finished else Stopped)
    ensures Inv(base, kernel.table) && AllInv(base, NewStates(old(kernel.Here()), kernel.Here()))
    ensures ok ==> old(kernel.table) == base && Applied(base, cmds) == Some(kernel.table)
    ensures NoFaults(NewFates(old(kernel.Here()), kernel.Here())) && Applied(old(kernel.table), cmds).Some? ==> ok
  {
    hide Ran, Inv, SetupLike;
    ghost var start := kernel.Here();
    WentNowhere(Apply, start);
    assert Checked(cmds[..0]) == [];
    for i := 0 to |cmds|
      invariant Went(Apply, start, Checked(cmds[..i]), kernel.Here(), Finished)
    {
      ghost var here := kernel.Here();
      ok := kernel.Execute(cmds[i]);
      WentInTwo(Apply, start, Checked(cmds[..i]), here, [Order(cmds[i], true)], kernel.Here(), if ok then Finished else Stopped);
      CheckedGrows(cmds, i);
      if !ok {
        CheckedInTwo(cmds, i + 1);
        WentAndStopped(Apply, start, Checked(cmds[..i + 1]), Checked(cmds[i + 1..]), kernel.Here());
        MandatoryDone(base, start, cmds, kernel.Here(), Stopped);
        return;
      }
    }
    assert cmds[..|cmds|] == cmds;
    ok := true;
    MandatoryDone(base, start, cmds, kernel.Here(), Finished);
  }

  lemma MandatoryDone(base: Table, from: Past<Table>, cmds: seq<Command>, to: Past<Table>, end: End)
    requires Pristine(base) && Inv(base, from.state) && SetupLike(cmds) && Went(Apply, from, Checked(cmds), to, end)
    ensures Inv(base, to.state) && AllInv(base, NewStates(from, to))
    ensures end.Finished? ==> from.state == base && Applied(base, cmds) == Some(to.state)
    ensures NoFaults(NewFates(from, to)) && Applied(from.state, cmds).Some? ==> !end.Stopped?
  {
    assert cmds[..0] == [] && cmds[0..] == cmds;
    hide Inv, SetupLike, Play, States;
    MandatoryPart(base, from.state, cmds, 0, from.state, NewFates(from, to));
    CameToTheEnd(Apply, from, Checked(cmds), to, end);
    KeptAlong(base, from, Checked(cmds), to, end);
    if end.Finished? {
      StartsClean(base, from.state, cmds);
    }
  }

  /** The two jumps of one device, or of all devices. */
  method HookDevice(kernel: Kernel, incoming: Rule, outgoing: Rule) returns (ok: bool)
    modifies kernel
    ensures Went(Apply, old(kernel.Here()), Checked([Append(FakeS, incoming), Append(FakeD, outgoing)]), kernel.Here(),
                 if ok then Finished else Stopped)
  {
    hide Ran;
    ghost var first, second := [Order(Append(FakeS, incoming), true)], [Order(Append(FakeD, outgoing), true)];
    assert Checked([Append(FakeS, incoming), Append(FakeD, outgoing)]) == first + second;
    ok := kernel.Execute(Append(FakeS, incoming));
    if !ok {
      WentAndStopped(Apply, old(kernel.Here()), first, second, kernel.Here());
      return;
    }
    ghost var here := kernel.Here();
    ok := kernel.Execute(Append(FakeD, outgoing));
    WentInTwo(Apply, old(kernel.Here()), first, here, second, kernel.Here(), if ok then Finished else Stopped);
  }

  lemma {:induction false} JumpsInTwo(devices: seq<string>, i: nat, n: nat)
    requires i <= n <= |devices|
    ensures Checked(JumpCommands(devices, n)) == Checked(JumpCommands(devices, i)) + Checked(JumpCommands(devices, n)[2 * i..])
    decreases n - i
  {
    if i < n {
      JumpsInTwo(devices, i, n - 1);
      assert Checked(JumpCommands(devices, n))[..2 * (n - 1)] == Checked(JumpCommands(devices, n - 1));
    }
  }

  lemma DevicesDone(base: Table, cfg: Config, ack: bool, from: Past<Table>, to: Past<Table>, end: End)
    requires Pristine(base) && Inv(base, from.state) && from.state == Filled(base, cfg, ack)
    requires Went(Apply, from, Checked(DeviceCommands(cfg)), to, end)
    ensures Inv(base, to.state) && AllInv(base, NewStates(from, to))
    ensures end.Finished? && NamesFit(cfg) ==> to.state == Installed(base, cfg, ack)
    ensures NoFaults(NewFates(from, to)) ==> !end.Stopped?
  {
    RestFills(cfg);
    assert forall k :: 0 <= k < |DeviceCommands(cfg)| ==>
             Checked(DeviceCommands(cfg))[k] == (AckOrders(cfg) + Checked(DeviceCommands(cfg)))[k + 1];
    hide Inv, Filled, Installed, NamesFit, DeviceCommands, Play, States;
    FillPart(base, from.state, Checked(DeviceCommands(cfg)), NewFates(from, to));
    KeptAlong(base, from, Checked(DeviceCommands(cfg)), to, end);
    DevicePart(base, cfg, ack, NewFates(from, to));
    CameToTheEnd(Apply, from, Checked(DeviceCommands(cfg)), to, end);
  }

  /** ipt4_iface_setup */
  method DeviceSetup(kernel: Kernel, cfg: Config, ghost base: Table, ghost ack: bool) returns (ok: bool)
    requires Pristine(base) && Inv(base, kernel.table) && kernel.table == Filled(base, cfg, ack)
    modifies kernel
    ensures ok ==> NamesFit(cfg) && Went(Apply, old(kernel.Here()), Checked(DeviceCommands(cfg)), kernel.Here(), Finished)
    ensures !ok ==>
              || Went(Apply, old(kernel.Here()), Checked(DeviceCommands(cfg)), kernel.Here(), Stopped)
              || (!NamesFit(cfg) && Went(Apply, old(kernel.Here()), Checked(DeviceCommands(cfg)), kernel.Here(), Finished))
    ensures Inv(base, kernel.table) && AllInv(base, NewStates(old(kernel.Here()), kernel.Here()))
    ensures ok ==> kernel.table == Installed(base, cfg, ack)
    ensures NoFaults(NewFates(old(kernel.Here()), kernel.Here())) && NamesFit(cfg) ==> ok
  {
    hide Ran, Inv, Filled, Installed;
    ghost var start := kernel.Here();
    if cfg.allDevices {
      ok := HookDevice(kernel, Rule(Always, Jump(FakeR)), Rule(Always, Jump(FakeR)));
      DevicesDone(base, cfg, ack, start, kernel.Here(), if ok then Finished else Stopped);
      return;
    }
    WentNowhere(Apply, start);
    assert Checked(JumpCommands(cfg.devices, 0)) == [];
    for i := 0 to |cfg.devices|
      invariant i <= Fitting(cfg.devices) && Went(Apply, start, Checked(JumpCommands(cfg.devices, i)), kernel.Here(), Finished)
    {
      if |cfg.devices[i]| >= IFNAMSIZ {
        DevicesDone(base, cfg, ack, start, kernel.Here(), Finished);
        return false;
      }
      ghost var here := kernel.Here();
      ghost var end := NextDevice(cfg, i);
      ok := HookDevice(kernel, Rule(InVia(cfg.devices[i]), Jump(FakeR)), Rule(OutVia(cfg.devices[i]), Jump(FakeR)));
      WentInTwo(Apply, start, Checked(JumpCommands(cfg.devices, i)), here, end, kernel.Here(), if ok then Finished else Stopped);
      if !ok {
        JumpsInTwo(cfg.devices, i + 1, Fitting(cfg.devices));
        WentAndStopped(Apply, start, Checked(JumpCommands(cfg.devices, i + 1)),
                       Checked(DeviceCommands(cfg)[2 * (i + 1)..]), kernel.Here());
        DevicesDone(base, cfg, ack, start, kernel.Here(), Stopped);
        return;
      }
    }
    ok := true;
    DevicesDone(base, cfg, ack, start, kernel.Here(), Finished);
  }

  lemma NextDevice(cfg: Config, i: nat) returns (pair: seq<Order<Command>>)
    requires i < |cfg.devices|
    ensures pair == Checked([Append(FakeS, Rule(InVia(cfg.devices[i]), Jump(FakeR))),
                             Append(FakeD, Rule(OutVia(cfg.devices[i]), Jump(FakeR)))])
    ensures Checked(JumpCommands(cfg.devices, i + 1)) == Checked(JumpCommands(cfg.devices, i)) + pair
  {
    pair := Checked([Append(FakeS, Rule(InVia(cfg.devices[i]), Jump(FakeR))),
                     Append(FakeD, Rule(OutVia(cfg.devices[i]), Jump(FakeR)))]);
  }

  lemma IsSetUp(base: Table, cfg: Config, from: Past<Table>, to: Past<Table>, ok: bool)
    requires Pristine(base) && Inv(base, from.state) && SetUp(from, cfg, to, ok)
    ensures Inv(base, to.state) && AllInv(base, NewStates(from, to))
    ensures ok ==> to.state == Installed(base, cfg, AckTried(cfg, NewFates(from, to)))
    ensures NoFaults(NewFates(from, to)) ==> (ok <==> NamesFit(cfg)) && (ok ==> AckTried(cfg, NewFates(from, to)))
  {
    hide Inv, SetupOrders, Installed, Ran, AckTried, NamesFit;
    var end := if Went(Apply, from, SetupOrders(cfg), to, Finished) then Finished else Stopped;
    SetupRun(base, cfg, from.state, NewFates(from, to));
    CameToTheEnd(Apply, from, SetupOrders(cfg), to, end);
    RanThrough(from, cfg, to, end);
    if Went(Apply, from, SetupOrders(cfg), to, Stopped) {
      CameToTheEnd(Apply, from, SetupOrders(cfg), to, Stopped);
    }
    KeptAlong(base, from, SetupOrders(cfg), to, end);
  }

  lemma RanThrough(from: Past<Table>, cfg: Config, to: Past<Table>, end: End)
    requires Went(Apply, from, SetupOrders(cfg), to, end)
    ensures States(Apply, from.state, SetupOrders(cfg), NewFates(from, to)) == NewStates(from, to)
  {
  }

  lemma AckKeeps(base: Table, cfg: Config, t: Table)
    requires Pristine(base) && Inv(base, t)
    ensures Inv(base, Attempt(t, Append(FakeR, AckRule(cfg))))
    ensures forall f: Fate :: Inv(base, Effect(Apply, t, Append(FakeR, AckRule(cfg)), f))
  {
    FillKeeps(base, t, Append(FakeR, AckRule(cfg)));
    hide Inv;
  }

  lemma Assembled(cfg: Config, start: Past<Table>, cleaned: Past<Table>, filled: Past<Table>, acked: Past<Table>,
                  now: Past<Table>, end: End)
    requires Went(Apply, start, CleanupOrders(), cleaned, Finished)
    requires Went(Apply, cleaned, Checked(SetupCommands(cfg)), filled, Finished)
    requires Went(Apply, filled, AckOrders(cfg), acked, Finished)
    requires Went(Apply, acked, Checked(DeviceCommands(cfg)), now, end)
    ensures Went(Apply, start, SetupOrders(cfg), now, end)
  {
    hide Went, CleanupOrders, SetupCommands, DeviceCommands, AckOrders, Checked;
    var a, b, c, d := CleanupOrders(), Checked(SetupCommands(cfg)), AckOrders(cfg), Checked(DeviceCommands(cfg));
    WentInTwo(Apply, filled, c, acked, d, now, end);
    WentInTwo(Apply, cleaned, b, filled, c + d, now, end);
    WentInTwo(Apply, start, a, cleaned, b + (c + d), now, end);
  }

  lemma StoppedAtOnce(cfg: Config, start: Past<Table>, cleaned: Past<Table>, now: Past<Table>)
    requires Went(Apply, start, CleanupOrders(), cleaned, Finished)
    requires Went(Apply, cleaned, Checked(SetupCommands(cfg)), now, Stopped)
    ensures Went(Apply, start, SetupOrders(cfg), now, Stopped)
  {
    hide Went, CleanupOrders, SetupCommands, DeviceCommands, AckOrders, Checked;
    WentAndStopped(Apply, cleaned, Checked(SetupCommands(cfg)), AckOrders(cfg) + Checked(DeviceCommands(cfg)), now);
    WentInTwo(Apply, start, CleanupOrders(), cleaned, BuildOrders(cfg), now, Stopped);
  }

  /** fh_ipt4_setup. It carries out its orders and nothing else; every table on the way is as Inv says; a reported success
      means exactly the intended table, with or without the optional rule; and without faults only a device name that does
      not fit can make it fail. */
  method Setup(kernel: Kernel, cfg: Config, ghost base: Table) returns (ok: bool)
    requires Pristine(base) && Inv(base, kernel.table)
    modifies kernel
    ensures SetUp(old(kernel.Here()), cfg, kernel.Here(), ok)
    ensures Inv(base, kernel.table) && AllInv(base, NewStates(old(kernel.Here()), kernel.Here()))
    ensures ok ==> kernel.table == Installed(base, cfg, AckTried(cfg, NewFates(old(kernel.Here()), kernel.Here())))
    ensures NoFaults(NewFates(old(kernel.Here()), kernel.Here())) ==>
              (ok <==> NamesFit(cfg)) && (ok ==> kernel.table == Installed(base, cfg, true))
  {
    hide Went, Inv, Installed, Filled, SetupCommands, DeviceCommands, CleanupOrders, NamesFit, Checked, AckTried, Effect, Apply;
    ghost var start := kernel.Here();
    Cleanup(kernel, base);
    ghost var cleaned := kernel.Here();
    SetupShape(cfg);
    SetupInstalls(base, cfg);
    ok := RunCommands(kernel, SetupCommands(cfg), base);
    ghost var filled := kernel.Here();
    if !ok {
      StoppedAtOnce(cfg, start, cleaned, filled);
      IsSetUp(base, cfg, start, filled, ok);
      return;
    }
    AckAppended(base, cfg);
    AckKeeps(base, cfg, kernel.table);
    var _ := kernel.Execute(Append(FakeR, AckRule(cfg)));
    ghost var acked := kernel.Here();
    ok := DeviceSetup(kernel, cfg, base, !kernel.fates[|filled.fates|].NotStarted?);
    Assembled(cfg, start, cleaned, filled, acked, kernel.Here(),
              if !ok && Went(Apply, acked, Checked(DeviceCommands(cfg)), kernel.Here(), Stopped) then Stopped else Finished);
    IsSetUp(base, cfg, start, kernel.Here(), ok);
  }
}
