/** The nft backend of one address family. */
module Nftables {
  import opened Wrappers
  import opened Chains
  import opened Runs

  /** snprintf's buffer for one rule, and what the rule takes of it besides the device name. */
  const BUFFER: nat := 120
  const PREROUTING_TEXT: nat := 59
  const POSTROUTING_TEXT: nat := 60

  datatype NftCondition =
    | NoCondition
    | SAddr(net: Net)
    | DAddr(net: Net)
    | IifName(device: string)
    | OifName(device: string)
    | MarkAnd(mask: Bits, value: Bits)
    | FlagsAnd(examined: set<Flag>, raised: set<Flag>)
    | FlagsAndPackets(examined: set<Flag>, raised: set<Flag>, low: nat, high: nat)

  datatype NftVerdict = NftReturn | NftQueue(num: nat) | NftJump

  datatype NftRule = NftRule(condition: NftCondition, verdict: NftVerdict)

  /** Table fakehttp: chains fh_prerouting and fh_postrouting, and fh_rules, the only one that is jumped to. */
  datatype NftTable = NftTable(prerouting: seq<NftRule>, postrouting: seq<NftRule>, rules: seq<NftRule>)

  datatype NftChain = FhPrerouting | FhPostrouting | FhRules

  datatype NftCommand =
    | AddTable(content: NftTable)
    | AddRule(chain: NftChain, rule: NftRule)
    | DeleteTable

  function Grown(t: NftTable, c: NftChain, rules: seq<NftRule>): (r: NftTable) {
    match c
    case FhPrerouting => t.(prerouting := t.prerouting + rules)
    case FhPostrouting => t.(postrouting := t.postrouting + rules)
    case FhRules => t.(rules := t.rules + rules)
  }

  function AddedTo(t: Option<NftTable>, n: NftTable): (r: NftTable) {
    match t
    case None => n
    case Some(u) => NftTable(u.prerouting + n.prerouting, u.postrouting + n.postrouting, u.rules + n.rules)
  }

  /** One invocation of nft changes all or nothing; a table that is there already is added to. */
  function NftApply(t: Option<NftTable>, cmd: NftCommand): (r: Option<Option<NftTable>>) {
    match cmd
    case AddTable(n) => Some(Some(AddedTo(t, n)))
    case AddRule(c, rule) => if t.None? then None else Some(Some(Grown(t.value, c, [rule])))
    case DeleteTable => if t.None? then None else Some(None)
  }

  class NftKernel {
    var table: Option<NftTable>
    var log: seq<Option<NftTable>>
    ghost var fates: seq<Fate>

    constructor (table: Option<NftTable>)
      ensures this.table == table && log == [] && fates == []
    {
      this.table, log, fates := table, [], [];
    }

    ghost function Here(): (p: Past<Option<NftTable>>)
      reads this
    {
      Past(table, fates, log)
    }

    method Execute(cmd: NftCommand) returns (ok: bool)
      modifies this
      ensures ok ==> NftApply(old(table), cmd) == Some(table)
      ensures |fates| == |old(fates)| + 1 && fates[..|old(fates)|] == old(fates) && log == old(log) + [table]
      ensures table == Effect(NftApply, old(table), cmd, fates[|old(fates)|])
      ensures ok <==> Seen(NftApply, old(table), cmd, fates[|old(fates)|])
      ensures Went(NftApply, old(Here()), [Order(cmd, true)], Here(), if ok then Finished else Stopped)
      ensures Went(NftApply, old(Here()), [Order(cmd, false)], Here(), Finished)
    {
      var notStarted: bool, lost: bool := *, *;
      ghost var fate := if notStarted then NotStarted else if lost then Lost else Tried;
      if notStarted {
        ok := false;
      } else {
        var result := NftApply(table, cmd);
        ok := result.Some? && !lost;
        if result.Some? {
          table := result.value;
        }
      }
      fates, log := fates + [fate], log + [table];
      WentOne(NftApply, old(Here()), Order(cmd, true), fate, Here());
      WentOne(NftApply, old(Here()), Order(cmd, false), fate, Here());
    }
  }

  /** The local networks the nft configuration excludes. */
  const NFT_LOCAL_NETS: seq<Net> := [
    Net(0x00000000, 8), Net(0x0A000000, 8), Net(0x64400000, 10), Net(0x7F000000, 8),
    Net(0xA9FE0000, 16), Net(0xAC100000, 12), Net(0xC0A80000, 16), Net(0xE0000000, 3)
  ]

  datatype NftConfig = NftConfig(mark: Bits, mask: Bits, queue: nat, excluded: seq<Net>, allDevices: bool, devices: seq<string>)

  function NftExcludeSources(nets: seq<Net>): (r: seq<NftRule>) {
    seq(|nets|, i requires 0 <= i < |nets| => NftRule(SAddr(nets[i]), NftReturn))
  }

  function NftExcludeDestinations(nets: seq<Net>): (r: seq<NftRule>) {
    seq(|nets|, i requires 0 <= i < |nets| => NftRule(DAddr(nets[i]), NftReturn))
  }

  /** The configuration file: everything but the optional rule and the devices. */
  function BaseTable(cfg: NftConfig): (t: NftTable) {
    NftTable(NftExcludeSources(cfg.excluded), NftExcludeDestinations(cfg.excluded),
             [NftRule(MarkAnd(cfg.mask, cfg.mark), NftReturn), NftRule(FlagsAnd({SYN, FIN, RST}, {SYN}), NftQueue(cfg.queue))])
  }

  function NftAckRule(cfg: NftConfig): (r: NftRule) {
    NftRule(FlagsAndPackets({SYN, ACK, FIN, RST}, {ACK}, 2, 4), NftQueue(cfg.queue))
  }

  function IifJumps(devices: seq<string>): (r: seq<NftRule>) {
    seq(|devices|, i requires 0 <= i < |devices| => NftRule(IifName(devices[i]), NftJump))
  }

  function OifJumps(devices: seq<string>): (r: seq<NftRule>) {
    seq(|devices|, i requires 0 <= i < |devices| => NftRule(OifName(devices[i]), NftJump))
  }

  function WithAck(cfg: NftConfig, ack: bool): (t: NftTable) {
    if ack then Grown(BaseTable(cfg), FhRules, [NftAckRule(cfg)]) else BaseTable(cfg)
  }

  function Jumping(t: NftTable, pre: seq<NftRule>, post: seq<NftRule>): (r: NftTable) {
    Grown(Grown(t, FhPrerouting, pre), FhPostrouting, post)
  }

  /** One jump for each device at the end of both hooks, in order, or one for all. */
  function Jumped(t: NftTable, cfg: NftConfig): (r: NftTable) {
    if cfg.allDevices then Jumping(t, [NftRule(NoCondition, NftJump)], [NftRule(NoCondition, NftJump)])
    else Jumping(t, IifJumps(cfg.devices), OifJumps(cfg.devices))
  }

  /** The table a fault-free setup leaves. */
  function NftInstalled(cfg: NftConfig, ack: bool): (t: NftTable) {
    Jumped(WithAck(cfg, ack), cfg)
  }

  predicate TextsFit(devices: seq<string>) {
    forall i :: 0 <= i < |devices| ==> |devices[i]| + POSTROUTING_TEXT < BUFFER
  }

  predicate NftNamesFit(cfg: NftConfig) {
    cfg.allDevices || TextsFit(cfg.devices)
  }

  function NftFitting(devices: seq<string>): (n: nat)
    ensures n <= |devices| && TextsFit(devices[..n])
    ensures n < |devices| ==> |devices[n]| + POSTROUTING_TEXT >= BUFFER
  {
    if devices == [] || |devices[0]| + POSTROUTING_TEXT >= BUFFER then 0
    else 1 + NftFitting(devices[1..])
  }

  function NftJumpCommands(devices: seq<string>, n: nat): (r: seq<NftCommand>)
    requires n <= |devices|
    ensures |r| == 2 * n
  {
    if n == 0 then []
    else
      NftJumpCommands(devices, n - 1) +
      [AddRule(FhPrerouting, NftRule(IifName(devices[n - 1]), NftJump)),
       AddRule(FhPostrouting, NftRule(OifName(devices[n - 1]), NftJump))]
  }

  /** What is still done for the first device whose second text does not fit. */
  function LastHalf(devices: seq<string>): (r: seq<NftCommand>) {
    var n := NftFitting(devices);
    if n < |devices| && |devices[n]| + PREROUTING_TEXT < BUFFER then [AddRule(FhPrerouting, NftRule(IifName(devices[n]), NftJump))]
    else []
  }

  function NftDeviceCommands(cfg: NftConfig): (r: seq<NftCommand>) {
    if cfg.allDevices then
      [AddRule(FhPrerouting, NftRule(NoCondition, NftJump)), AddRule(FhPostrouting, NftRule(NoCondition, NftJump))]
    else NftJumpCommands(cfg.devices, NftFitting(cfg.devices)) + LastHalf(cfg.devices)
  }

  function NftCleanupOrders(): (r: seq<Order<NftCommand>>) {
    [Order(DeleteTable, false)]
  }

  function NftFirstOrders(cfg: NftConfig): (r: seq<Order<NftCommand>>) {
    [Order(DeleteTable, false), Order(AddTable(BaseTable(cfg)), true), Order(AddRule(FhRules, NftAckRule(cfg)), false)]
  }

  /** All that a setup does unless one of its checked commands fails. */
  function NftSetupOrders(cfg: NftConfig): (r: seq<Order<NftCommand>>) {
    NftFirstOrders(cfg) + Checked(NftDeviceCommands(cfg))
  }

  // ---------- what such runs leave ----------

  lemma NftPairPart(t: NftTable, pre: NftRule, post: NftRule, fates: seq<Fate>)
    ensures var p := Play(NftApply, Some(t), Checked([AddRule(FhPrerouting, pre), AddRule(FhPostrouting, post)]), fates);
            && (p.end.Finished? ==> p.state == Some(Jumping(t, [pre], [post])))
            && (NoFaults(fates) ==> !p.end.Stopped?)
  {
    var orders: seq<Order<NftCommand>> := Checked([AddRule(FhPrerouting, pre), AddRule(FhPostrouting, post)]);
    assert orders[0] == Order(AddRule(FhPrerouting, pre), true) && orders[1..][0] == Order(AddRule(FhPostrouting, post), true);
    assert orders[1..][1..] == [];
    if fates != [] {
      FirstOrder(NftApply, Some(t), orders, fates);
      if fates[0].Tried? && fates[1..] != [] {
        FirstOrder(NftApply, Some(Grown(t, FhPrerouting, [pre])), orders[1..], fates[1..]);
      }
    }
  }

  lemma {:induction false} NftJumpsPart(t: NftTable, devices: seq<string>, n: nat, fates: seq<Fate>)
    requires n <= |devices|
    ensures var p := Play(NftApply, Some(t), Checked(NftJumpCommands(devices, n)), fates);
            && (p.end.Finished? ==> p.state == Some(Jumping(t, IifJumps(devices[..n]), OifJumps(devices[..n]))))
            && (NoFaults(fates) ==> !p.end.Stopped?)
    decreases n
  {
    if n == 0 {
      assert IifJumps(devices[..0]) == [] && OifJumps(devices[..0]) == [];
      assert t.prerouting + [] == t.prerouting && t.postrouting + [] == t.postrouting;
    } else {
      var i := n - 1;
      NftJumpsPart(t, devices, i, fates);
      var front := Checked(NftJumpCommands(devices, i));
      var pre, post := NftRule(IifName(devices[i]), NftJump), NftRule(OifName(devices[i]), NftJump);
      var pair := Checked([AddRule(FhPrerouting, pre), AddRule(FhPostrouting, post)]);
      assert Checked(NftJumpCommands(devices, n)) == front + pair;
      JumpingMore(t, devices, i);
      hide NftApply, Play, Checked, Jumping;
      PlaySplit(NftApply, Some(t), front, pair, fates);
      if Play(NftApply, Some(t), front, fates).end.Finished? {
        NftPairPart(Jumping(t, IifJumps(devices[..i]), OifJumps(devices[..i])), pre, post, fates[2 * i..]);
      }
    }
  }

  lemma JumpingMore(t: NftTable, devices: seq<string>, i: nat)
    requires i < |devices|
    ensures Jumping(t, IifJumps(devices[..i + 1]), OifJumps(devices[..i + 1])) ==
            Jumping(Jumping(t, IifJumps(devices[..i]), OifJumps(devices[..i])),
                    [NftRule(IifName(devices[i]), NftJump)], [NftRule(OifName(devices[i]), NftJump)])
  {
    var pre, post := IifJumps(devices[..i]), OifJumps(devices[..i]);
    assert IifJumps(devices[..i + 1]) == pre + [NftRule(IifName(devices[i]), NftJump)];
    assert OifJumps(devices[..i + 1]) == post + [NftRule(OifName(devices[i]), NftJump)];
    var oneIn, oneOut := [NftRule(IifName(devices[i]), NftJump)], [NftRule(OifName(devices[i]), NftJump)];
    assert t.prerouting + (pre + oneIn) == (t.prerouting + pre) + oneIn;
    assert t.postrouting + (post + oneOut) == (t.postrouting + post) + oneOut;
  }

  lemma NftHalfPart(t: NftTable, devices: seq<string>, fates: seq<Fate>)
    ensures NoFaults(fates) ==> !Play(NftApply, Some(t), Checked(LastHalf(devices)), fates).end.Stopped?
  {
    var orders: seq<Order<NftCommand>> := Checked(LastHalf(devices));
    if orders != [] && fates != [] {
      FirstOrder(NftApply, Some(t), orders, fates);
      assert orders[1..] == [];
    }
  }

  lemma NftDevicePart(t: NftTable, cfg: NftConfig, fates: seq<Fate>)
    ensures var p := Play(NftApply, Some(t), Checked(NftDeviceCommands(cfg)), fates);
            && (p.end.Finished? && NftNamesFit(cfg) ==> p.state == Some(Jumped(t, cfg)))
            && (NoFaults(fates) ==> !p.end.Stopped?)
  {
    hide NftApply, Play, Jumping, NftJumpCommands, LastHalf;
    if cfg.allDevices {
      NftPairPart(t, NftRule(NoCondition, NftJump), NftRule(NoCondition, NftJump), fates);
    } else {
      var n := NftFitting(cfg.devices);
      var front, half := Checked(NftJumpCommands(cfg.devices, n)), Checked(LastHalf(cfg.devices));
      assert Checked(NftDeviceCommands(cfg)) == front + half;
      PlaySplit(NftApply, Some(t), front, half, fates);
      NftJumpsPart(t, cfg.devices, n, fates);
      if Play(NftApply, Some(t), front, fates).end.Finished? {
        NftHalfPart(Jumping(t, IifJumps(cfg.devices[..n]), OifJumps(cfg.devices[..n])), cfg.devices, fates[2 * n..]);
      }
      if NftNamesFit(cfg) {
        assert cfg.devices[..n] == cfg.devices;
        NoHalf(Some(Jumped(t, cfg)), cfg.devices, fates);
      }
    }
  }

  lemma NoHalf(t: Option<NftTable>, devices: seq<string>, fates: seq<Fate>)
    requires TextsFit(devices)
    ensures LastHalf(devices) == [] && NftFitting(devices) == |devices|
    ensures forall more: seq<Fate> :: Play(NftApply, t, Checked(LastHalf(devices)), more).state == t
  {
  }

  /** What the table is before the configuration is added, by the fate of the deletion. */
  function Left(t: Option<NftTable>, fate: Fate): (r: Option<NftTable>) {
    if fate.NotStarted? then t else None
  }

  lemma NftFirstPart(cfg: NftConfig, t: Option<NftTable>, fates: seq<Fate>)
    ensures var p := Play(NftApply, t, NftFirstOrders(cfg), fates);
            && (p.end.Finished? ==>
                  3 <= |fates| && p.state == Some(AddedTo(Left(t, fates[0]), WithAck(cfg, !fates[2].NotStarted?))))
            && (NoFaults(fates) ==> !p.end.Stopped?)
  {
    hide BaseTable, NftAckRule;
    var orders := NftFirstOrders(cfg);
    assert orders[1..][0] == orders[1] && orders[1..][1..] == orders[2..];
    assert orders[2..][0] == orders[2] && orders[2..][1..] == [];
    if fates != [] {
      FirstOrder(NftApply, t, orders, fates);
      if fates[1..] != [] {
        var u := Left(t, fates[0]);
        FirstOrder(NftApply, u, orders[1..], fates[1..]);
        if fates[1].Tried? && fates[1..][1..] != [] {
          assert fates[1..][1..][0] == fates[2];
          FirstOrder(NftApply, Some(AddedTo(u, BaseTable(cfg))), orders[2..], fates[1..][1..]);
          AddedAck(cfg, u);
        }
      }
    }
  }

  lemma AddedAck(cfg: NftConfig, t: Option<NftTable>)
    ensures Grown(AddedTo(t, BaseTable(cfg)), FhRules, [NftAckRule(cfg)]) == AddedTo(t, WithAck(cfg, true))
  {
    if t.Some? {
      assert (t.value.rules + BaseTable(cfg).rules) + [NftAckRule(cfg)] == t.value.rules + (BaseTable(cfg).rules + [NftAckRule(cfg)]);
    }
  }

  lemma AddedJumps(cfg: NftConfig, t: Option<NftTable>, n: NftTable)
    ensures Jumped(AddedTo(t, n), cfg) == AddedTo(t, Jumped(n, cfg))
  {
    if t.Some? {
      var pre := if cfg.allDevices then [NftRule(NoCondition, NftJump)] else IifJumps(cfg.devices);
      var post := if cfg.allDevices then [NftRule(NoCondition, NftJump)] else OifJumps(cfg.devices);
      assert (t.value.prerouting + n.prerouting) + pre == t.value.prerouting + (n.prerouting + pre);
      assert (t.value.postrouting + n.postrouting) + post == t.value.postrouting + (n.postrouting + post);
    }
  }

  /** A setup that comes to its end leaves exactly the intended table, behind what was there before only if the deletion
      was not started; and without faults nothing stops it, whatever it has found. */
  lemma NftSetupRun(cfg: NftConfig, t: Option<NftTable>, fates: seq<Fate>)
    ensures var p := Play(NftApply, t, NftSetupOrders(cfg), fates);
            && (p.end.Finished? && NftNamesFit(cfg) ==>
                  3 <= |fates| && p.state == Some(AddedTo(Left(t, fates[0]), NftInstalled(cfg, !fates[2].NotStarted?))))
            && (NoFaults(fates) ==> !p.end.Stopped?)
  {
    hide NftApply, Play, Jumped, NftNamesFit, WithAck, NftDeviceCommands, AddedTo;
    var a, b := NftFirstOrders(cfg), Checked(NftDeviceCommands(cfg));
    PlaySplit(NftApply, t, a, b, fates);
    NftFirstPart(cfg, t, fates);
    if Play(NftApply, t, a, fates).end.Finished? {
      var u, n := Left(t, fates[0]), WithAck(cfg, !fates[2].NotStarted?);
      NftDevicePart(AddedTo(u, n), cfg, fates[|a|..]);
      AddedJumps(cfg, u, n);
    }
  }

  // ---------- the operations ----------

  /** What a setup that says ok, or that it failed, has done. */
  ghost predicate NftSetUp(from: Past<Option<NftTable>>, cfg: NftConfig, to: Past<Option<NftTable>>, ok: bool) {
    if ok then Went(NftApply, from, NftSetupOrders(cfg), to, Finished) && NftNamesFit(cfg)
    else
      || Went(NftApply, from, NftSetupOrders(cfg), to, Stopped)
      || (Went(NftApply, from, NftSetupOrders(cfg), to, Finished) && !NftNamesFit(cfg))
  }

  /** fh_nft4_cleanup */
  method NftCleanup(kernel: NftKernel)
    modifies kernel
    ensures Went(NftApply, old(kernel.Here()), NftCleanupOrders(), kernel.Here(), Finished)
    ensures |kernel.fates| == |old(kernel.fates)| + 1
    ensures kernel.table == Left(old(kernel.table), kernel.fates[|old(kernel.fates)|])
  {
    var _ := kernel.Execute(DeleteTable);
  }

  /** nft4_iface_setup */
  method NftDeviceSetup(kernel: NftKernel, cfg: NftConfig, ghost t: NftTable) returns (ok: bool)
    requires kernel.table == Some(t)
    modifies kernel
    ensures ok ==> NftNamesFit(cfg) && Went(NftApply, old(kernel.Here()), Checked(NftDeviceCommands(cfg)), kernel.Here(), Finished)
    ensures !ok ==>
              || Went(NftApply, old(kernel.Here()), Checked(NftDeviceCommands(cfg)), kernel.Here(), Stopped)
              || (!NftNamesFit(cfg) && Went(NftApply, old(kernel.Here()), Checked(NftDeviceCommands(cfg)), kernel.Here(), Finished))
    ensures ok ==> kernel.table == Some(Jumped(t, cfg))
    ensures NoFaults(NewFates(old(kernel.Here()), kernel.Here())) && NftNamesFit(cfg) ==> ok
  {
    assert Checked(NftJumpCommands(cfg.devices, 0)) == [];
    hide Went, Jumped, NftJumpCommands, Checked, NftNamesFit;
    ghost var start := kernel.Here();
    if cfg.allDevices {
      AllDevicesFit(cfg);
      ok := NftHookDevice(kernel, NftRule(NoCondition, NftJump), NftRule(NoCondition, NftJump));
      NftDevicesDone(t, cfg, start, kernel.Here(), if ok then Finished else Stopped);
      return;
    }
    hide NftDeviceCommands;
    WentNowhere(NftApply, start);
    ghost var all := Checked(NftDeviceCommands(cfg));
    for i := 0 to |cfg.devices|
      invariant i <= NftFitting(cfg.devices)
      invariant Went(NftApply, start, Checked(NftJumpCommands(cfg.devices, i)), kernel.Here(), Finished)
    {
      ghost var here := kernel.Here();
      if |cfg.devices[i]| + PREROUTING_TEXT >= BUFFER {
        NoMoreDevices(cfg, i);
        NftDevicesDone(t, cfg, start, here, Finished);
        return false;
      }
      ok := kernel.Execute(AddRule(FhPrerouting, NftRule(IifName(cfg.devices[i]), NftJump)));
      ghost var first := FirstHalf(cfg, i);
      WentInTwo(NftApply, start, Checked(NftJumpCommands(cfg.devices, i)), here, first, kernel.Here(), if ok then Finished else Stopped);
      if !ok || |cfg.devices[i]| + POSTROUTING_TEXT >= BUFFER {
        if !ok {
          WentAndStopped(NftApply, start, all[..2 * i + 1], all[2 * i + 1..], kernel.Here());
        }
        NftDevicesDone(t, cfg, start, kernel.Here(), if ok then Finished else Stopped);
        return false;
      }
      ghost var there := kernel.Here();
      ok := kernel.Execute(AddRule(FhPostrouting, NftRule(OifName(cfg.devices[i]), NftJump)));
      ghost var second := SecondHalf(cfg, i);
      WentInTwo(NftApply, start, all[..2 * i + 1], there, second, kernel.Here(), if ok then Finished else Stopped);
      if !ok {
        WentAndStopped(NftApply, start, all[..2 * i + 2], all[2 * i + 2..], kernel.Here());
        NftDevicesDone(t, cfg, start, kernel.Here(), Stopped);
        return;
      }
    }
    ok := true;
    NoMoreDevices(cfg, |cfg.devices|);
    NftDevicesDone(t, cfg, start, kernel.Here(), Finished);
  }

  lemma {:induction false} NftJumpsInTwo(devices: seq<string>, i: nat, n: nat)
    requires i <= n <= |devices|
    ensures NftJumpCommands(devices, n)[..2 * i] == NftJumpCommands(devices, i)
    decreases n - i
  {
    if i < n {
      NftJumpsInTwo(devices, i, n - 1);
      assert NftJumpCommands(devices, n)[..2 * (n - 1)] == NftJumpCommands(devices, n - 1);
      assert NftJumpCommands(devices, n)[..2 * i] == NftJumpCommands(devices, n - 1)[..2 * i];
    }
  }

  lemma AllDevicesFit(cfg: NftConfig)
    requires cfg.allDevices
    ensures NftNamesFit(cfg)
  {
  }

  lemma NoMoreDevices(cfg: NftConfig, i: nat)
    requires !cfg.allDevices && i == NftFitting(cfg.devices)
    requires i < |cfg.devices| ==> |cfg.devices[i]| + PREROUTING_TEXT >= BUFFER
    ensures NftNamesFit(cfg) <==> i == |cfg.devices|
    ensures Checked(NftDeviceCommands(cfg)) == Checked(NftJumpCommands(cfg.devices, i))
  {
    assert cfg.devices[..|cfg.devices|] == cfg.devices;
    assert NftDeviceCommands(cfg) == NftJumpCommands(cfg.devices, i);
  }

  lemma FirstHalf(cfg: NftConfig, i: nat) returns (half: seq<Order<NftCommand>>)
    requires !cfg.allDevices && i <= NftFitting(cfg.devices) && i < |cfg.devices| && |cfg.devices[i]| + PREROUTING_TEXT < BUFFER
    ensures half == [Order(AddRule(FhPrerouting, NftRule(IifName(cfg.devices[i]), NftJump)), true)]
    ensures var all := Checked(NftDeviceCommands(cfg));
            && 2 * i + 1 <= |all| && all[..2 * i + 1] == Checked(NftJumpCommands(cfg.devices, i)) + half
            && (|cfg.devices[i]| + POSTROUTING_TEXT >= BUFFER ==> all[..2 * i + 1] == all && !NftNamesFit(cfg))
            && all[..2 * i + 1] + all[2 * i + 1..] == all
  {
    var n, cmds := NftFitting(cfg.devices), NftDeviceCommands(cfg);
    half := [Order(AddRule(FhPrerouting, NftRule(IifName(cfg.devices[i]), NftJump)), true)];
    NftJumpsInTwo(cfg.devices, i, n);
    assert cmds[..2 * i] == NftJumpCommands(cfg.devices, i);
    if i < n {
      NftJumpsInTwo(cfg.devices, i + 1, n);
      assert cmds[..2 * i + 2] == NftJumpCommands(cfg.devices, i + 1);
      assert cmds[..2 * i + 2][2 * i] == cmds[2 * i];
      assert n <= |cfg.devices| && cfg.devices[..n][i] == cfg.devices[i];
    }
    assert cmds[2 * i] == AddRule(FhPrerouting, NftRule(IifName(cfg.devices[i]), NftJump));
  }

  lemma SecondHalf(cfg: NftConfig, i: nat) returns (half: seq<Order<NftCommand>>)
    requires !cfg.allDevices && i <= NftFitting(cfg.devices) && i < |cfg.devices| && |cfg.devices[i]| + POSTROUTING_TEXT < BUFFER
    ensures half == [Order(AddRule(FhPostrouting, NftRule(OifName(cfg.devices[i]), NftJump)), true)]
    ensures i + 1 <= NftFitting(cfg.devices)
    ensures var all := Checked(NftDeviceCommands(cfg));
            && 2 * i + 2 <= |all| && all[..2 * i + 2] == all[..2 * i + 1] + half
            && all[..2 * i + 2] == Checked(NftJumpCommands(cfg.devices, i + 1))
            && all[..2 * i + 2] + all[2 * i + 2..] == all
  {
    var n, cmds := NftFitting(cfg.devices), NftDeviceCommands(cfg);
    half := [Order(AddRule(FhPostrouting, NftRule(OifName(cfg.devices[i]), NftJump)), true)];
    NftJumpsInTwo(cfg.devices, i + 1, n);
    assert cmds[..2 * i + 2] == NftJumpCommands(cfg.devices, i + 1);
    assert cmds[..2 * i + 2][2 * i + 1] == cmds[2 * i + 1];
  }

  /** The two jumps of all devices. */
  method NftHookDevice(kernel: NftKernel, pre: NftRule, post: NftRule) returns (ok: bool)
    modifies kernel
    ensures Went(NftApply, old(kernel.Here()), Checked([AddRule(FhPrerouting, pre), AddRule(FhPostrouting, post)]), kernel.Here(),
                 if ok then Finished else Stopped)
  {
    hide Ran;
    ghost var first, second := [Order(AddRule(FhPrerouting, pre), true)], [Order(AddRule(FhPostrouting, post), true)];
    assert Checked([AddRule(FhPrerouting, pre), AddRule(FhPostrouting, post)]) == first + second;
    ok := kernel.Execute(AddRule(FhPrerouting, pre));
    if !ok {
      WentAndStopped(NftApply, old(kernel.Here()), first, second, kernel.Here());
      return;
    }
    ghost var here := kernel.Here();
    ok := kernel.Execute(AddRule(FhPostrouting, post));
    WentInTwo(NftApply, old(kernel.Here()), first, here, second, kernel.Here(), if ok then Finished else Stopped);
  }

  lemma NftDevicesDone(t: NftTable, cfg: NftConfig, from: Past<Option<NftTable>>, to: Past<Option<NftTable>>, end: End)
    requires from.state == Some(t) && Went(NftApply, from, Checked(NftDeviceCommands(cfg)), to, end)
    ensures end.Finished? && NftNamesFit(cfg) ==> to.state == Some(Jumped(t, cfg))
    ensures NoFaults(NewFates(from, to)) ==> !end.Stopped?
  {
    hide NftApply, Play, Ran, Jumped, NftNamesFit, NftDeviceCommands;
    NftDevicePart(t, cfg, NewFates(from, to));
    CameToTheEnd(NftApply, from, Checked(NftDeviceCommands(cfg)), to, end);
  }

  lemma IsNftSetUp(cfg: NftConfig, from: Past<Option<NftTable>>, to: Past<Option<NftTable>>, ok: bool)
    requires NftSetUp(from, cfg, to, ok)
    ensures ok ==> 3 <= |NewFates(from, to)|
    ensures ok ==> var fates := NewFates(from, to);
                   to.state == Some(AddedTo(Left(from.state, fates[0]), NftInstalled(cfg, !fates[2].NotStarted?)))
    ensures NoFaults(NewFates(from, to)) ==> (ok <==> NftNamesFit(cfg)) && (ok ==> to.state == Some(NftInstalled(cfg, true)))
  {
    hide NftApply, Play, Ran, NftInstalled, NftNamesFit, NftSetupOrders;
    NftSetupRun(cfg, from.state, NewFates(from, to));
    if Went(NftApply, from, NftSetupOrders(cfg), to, Finished) {
      CameToTheEnd(NftApply, from, NftSetupOrders(cfg), to, Finished);
    }
    if Went(NftApply, from, NftSetupOrders(cfg), to, Stopped) {
      CameToTheEnd(NftApply, from, NftSetupOrders(cfg), to, Stopped);
    }
  }

  lemma NftAssembled(cfg: NftConfig, start: Past<Option<NftTable>>, cleaned: Past<Option<NftTable>>,
                     filled: Past<Option<NftTable>>,
                     acked: Past<Option<NftTable>>, now: Past<Option<NftTable>>, end: End)
    requires Went(NftApply, start, NftCleanupOrders(), cleaned, Finished)
    requires Went(NftApply, cleaned, [Order(AddTable(BaseTable(cfg)), true)], filled, Finished)
    requires Went(NftApply, filled, [Order(AddRule(FhRules, NftAckRule(cfg)), false)], acked, Finished)
    requires Went(NftApply, acked, Checked(NftDeviceCommands(cfg)), now, end)
    ensures Went(NftApply, start, NftSetupOrders(cfg), now, end)
  {
    hide Went, BaseTable, NftAckRule, NftDeviceCommands;
    var a, b: seq<Order<NftCommand>> := NftCleanupOrders(), [Order(AddTable(BaseTable(cfg)), true)];
    var c, d := [Order(AddRule(FhRules, NftAckRule(cfg)), false)], Checked(NftDeviceCommands(cfg));
    WentInTwo(NftApply, start, a, cleaned, b, filled, Finished);
    WentInTwo(NftApply, start, a + b, filled, c, acked, Finished);
    WentInTwo(NftApply, start, a + b + c, acked, d, now, end);
    assert a + b + c == NftFirstOrders(cfg);
  }

  lemma NftStoppedAtOnce(cfg: NftConfig, start: Past<Option<NftTable>>, cleaned: Past<Option<NftTable>>,
                         now: Past<Option<NftTable>>)
    requires Went(NftApply, start, NftCleanupOrders(), cleaned, Finished)
    requires Went(NftApply, cleaned, [Order(AddTable(BaseTable(cfg)), true)], now, Stopped)
    ensures Went(NftApply, start, NftSetupOrders(cfg), now, Stopped)
  {
    hide Went, BaseTable, NftAckRule, NftDeviceCommands;
    var a, b: seq<Order<NftCommand>> := NftCleanupOrders(), [Order(AddTable(BaseTable(cfg)), true)];
    var rest := NftSetupOrders(cfg)[2..];
    WentInTwo(NftApply, start, a, cleaned, b, now, Stopped);
    WentAndStopped(NftApply, start, a + b, rest, now);
    assert a + b + rest == NftSetupOrders(cfg);
  }

  /** fh_nft4_setup. A reported success means exactly the intended table, behind what an earlier run has left only if the
      deletion was not started; and without faults only a device name whose text does not fit can make it fail. */
  method NftSetup(kernel: NftKernel, cfg: NftConfig) returns (ok: bool)
    modifies kernel
    ensures NftSetUp(old(kernel.Here()), cfg, kernel.Here(), ok)
    ensures ok ==> 3 <= |NewFates(old(kernel.Here()), kernel.Here())|
    ensures ok ==> var fates := NewFates(old(kernel.Here()), kernel.Here());
                   kernel.table == Some(AddedTo(Left(old(kernel.table), fates[0]), NftInstalled(cfg, !fates[2].NotStarted?)))
    ensures NoFaults(NewFates(old(kernel.Here()), kernel.Here())) ==>
              (ok <==> NftNamesFit(cfg)) && (ok ==> kernel.table == Some(NftInstalled(cfg, true)))
  {
    hide Went, NftInstalled, BaseTable, NftAckRule, NftNamesFit, NftDeviceCommands;
    ghost var start := kernel.Here();
    NftCleanup(kernel);
    ghost var cleaned := kernel.Here();
    ok := kernel.Execute(AddTable(BaseTable(cfg)));
    ghost var filled := kernel.Here();
    if !ok {
      NftStoppedAtOnce(cfg, start, cleaned, filled);
      IsNftSetUp(cfg, start, filled, false);
      return;
    }
    var _ := kernel.Execute(AddRule(FhRules, NftAckRule(cfg)));
    ghost var acked := kernel.Here();
    ok := NftDeviceSetup(kernel, cfg, kernel.table.value);
    NftAssembled(cfg, start, cleaned, filled, acked, kernel.Here(),
                 if !ok && Went(NftApply, acked, Checked(NftDeviceCommands(cfg)), kernel.Here(), Stopped) then Stopped else Finished);
    IsNftSetUp(cfg, start, kernel.Here(), ok);
  }
}
