/** What the installed rules do to packets: both backends state one policy, as far as device names allow. */
module FirewallPolicy {
  import opened Wrappers
  import opened Chains
  import opened Iptables
  import opened Nftables

  /** A packet at a hook: addresses, mark, the device it came in by or goes out by, and for TCP its flags. `seen` is the
      number of packets of its connection so far, both ways. */
  datatype Packet = Packet(src: nat, dst: nat, mark: Bits, device: string, tcp: bool, flags: set<Flag>, seen: nat)

  datatype Hook = Entering | Leaving

  // ---------- one rule ----------

  /** How many addresses a network with this prefix length has. */
  function Size(bits: nat): (n: nat)
    ensures n > 0
    decreases 32 - bits
  {
    if bits >= 32 then 1 else 2 * Size(bits + 1)
  }

  /** The first bits of both addresses are the same. */
  predicate InNet(a: nat, net: Net) {
    a / Size(net.bits) == net.address / Size(net.bits)
  }

  predicate EndsWith(s: string, c: char) {
    s != [] && s[|s| - 1] == c
  }

  predicate StartsWith(s: string, prefix: string) {
    |prefix| <= |s| && s[..|prefix|] == prefix
  }

  /** iptables -i and -o: a name that ends with a plus stands for every device that begins with the rest. */
  predicate IptDevice(pattern: string, device: string) {
    if EndsWith(pattern, '+') then StartsWith(device, pattern[..|pattern| - 1]) else device == pattern
  }

  /** nft iifname and oifname: there it is a name that ends with an asterisk. */
  predicate NftDevice(pattern: string, device: string) {
    if EndsWith(pattern, '*') then StartsWith(device, pattern[..|pattern| - 1]) else device == pattern
  }

  /** Foreign conditions may be anything; `others` says which of them hold. */
  predicate Holds(c: Condition, p: Packet, others: set<string>) {
    match c
    case Always => true
    case From(net) => InNet(p.src, net)
    case To(net) => InNet(p.dst, net)
    case InVia(device) => IptDevice(device, p.device)
    case OutVia(device) => IptDevice(device, p.device)
    case Marked(mark, mask) => p.mark * mask == mark
    case TcpFlags(examined, raised) => p.tcp && p.flags * examined == raised
    case EarlyTcpFlags(examined, raised, low, high) => p.tcp && p.flags * examined == raised && low <= p.seen <= high
    case Foreign(text) => text in others
  }

  predicate NftHolds(c: NftCondition, p: Packet) {
    match c
    case NoCondition => true
    case SAddr(net) => InNet(p.src, net)
    case DAddr(net) => InNet(p.dst, net)
    case IifName(device) => NftDevice(device, p.device)
    case OifName(device) => NftDevice(device, p.device)
    case MarkAnd(mask, value) => p.mark * mask == value
    case FlagsAnd(examined, raised) => p.tcp && p.flags * examined == raised
    case FlagsAndPackets(examined, raised, low, high) => p.tcp && p.flags * examined == raised && low <= p.seen <= high
  }

  // ---------- a chain ----------

  /** The queue that a packet is sent to which reaches rule n of chain c, if any rule sends it to one before it leaves the
      chain. Other targets than the tool's let it go on. */
  function QueueOf(t: Table, c: Chain, n: nat, depth: nat, p: Packet, others: set<string>): (r: Option<nat>)
    decreases depth, if c in t then |t[c]| - n else 0
  {
    if c !in t || n >= |t[c]| then None
    else if !Holds(t[c][n].condition, p, others) then QueueOf(t, c, n + 1, depth, p, others)
    else
      match t[c][n].target
      case Return => None
      case Queue(q) => Some(q)
      case Jump(d) =>
        var inner := if depth > 0 then QueueOf(t, d, 0, depth - 1, p, others) else None;
        if inner.Some? then inner else QueueOf(t, c, n + 1, depth, p, others)
      case Else(_) => QueueOf(t, c, n + 1, depth, p, others)
  }

  /** The same for a chain of the nft table; `inner` is where chain fh_rules sends the packet. */
  function NftQueueOf(rules: seq<NftRule>, n: nat, inner: Option<nat>, p: Packet): (r: Option<nat>)
    decreases |rules| - n
  {
    if n >= |rules| then None
    else if !NftHolds(rules[n].condition, p) then NftQueueOf(rules, n + 1, inner, p)
    else
      match rules[n].verdict
      case NftReturn => None
      case NftQueue(q) => Some(q)
      case NftJump => if inner.Some? then inner else NftQueueOf(rules, n + 1, inner, p)
  }

  /** What happens behind the tool's jump at the head of a hook. */
  function IptSends(t: Table, hook: Hook, p: Packet, others: set<string>): (r: Option<nat>) {
    match hook
    case Entering =>
      if Prerouting in t && t[Prerouting] != [] && t[Prerouting][0] == JUMP_S then QueueOf(t, FakeS, 0, 1, p, others) else None
    case Leaving =>
      if Postrouting in t && t[Postrouting] != [] && t[Postrouting][0] == JUMP_D then QueueOf(t, FakeD, 0, 1, p, others) else None
  }

  function NftSends(t: NftTable, hook: Hook, p: Packet): (r: Option<nat>) {
    var inner := NftQueueOf(t.rules, 0, None, p);
    match hook
    case Entering => NftQueueOf(t.prerouting, 0, inner, p)
    case Leaving => NftQueueOf(t.postrouting, 0, inner, p)
  }

  // ---------- the policy ----------

  predicate InAny(a: nat, nets: seq<Net>) {
    exists i :: 0 <= i < |nets| && InNet(a, nets[i])
  }

  /** Opens a connection: SYN, with or without ACK. */
  predicate Opens(flags: set<Flag>) {
    SYN in flags && FIN !in flags && RST !in flags
  }

  predicate PureAck(flags: set<Flag>) {
    ACK in flags && SYN !in flags && FIN !in flags && RST !in flags
  }

  /** Not carrying the tool's mark, and opening a connection - or, with the optional rule, among its first answers. */
  predicate Chosen(mark: Bits, mask: Bits, ack: bool, p: Packet) {
    p.mark * mask != mark && p.tcp && (Opens(p.flags) || (ack && PureAck(p.flags) && 2 <= p.seen <= 4))
  }

  /** The remote end is not local, the device is covered, and the packet is chosen. */
  predicate Policy(mark: Bits, mask: Bits, ack: bool, nets: seq<Net>, covered: bool, hook: Hook, p: Packet) {
    && !InAny(if hook.Entering? then p.src else p.dst, nets)
    && covered && Chosen(mark, mask, ack, p)
  }

  /** To the one queue the tool listens to, or past it. */
  function Sent(chosen: bool, queue: nat): (r: Option<nat>) {
    if chosen then Some(queue) else None
  }

  predicate IptCovers(devices: seq<string>, device: string) {
    exists i :: 0 <= i < |devices| && IptDevice(devices[i], device)
  }

  predicate NftCovers(devices: seq<string>, device: string) {
    exists i :: 0 <= i < |devices| && NftDevice(devices[i], device)
  }

  // ---------- the iptables chains carry it out ----------

  lemma OpensMask(flags: set<Flag>, examined: set<Flag>, raised: set<Flag>)
    requires examined == {SYN, FIN, RST} && raised == {SYN}
    ensures flags * examined == raised <==> Opens(flags)
  {
    assert Opens(flags) ==> forall f :: f in flags * examined <==> f in raised;
    assert forall f :: f in flags * examined <==> f in flags && f in examined;
  }

  lemma PureAckMask(flags: set<Flag>, examined: set<Flag>, raised: set<Flag>)
    requires examined == {SYN, ACK, FIN, RST} && raised == {ACK}
    ensures flags * examined == raised <==> PureAck(flags)
  {
    assert PureAck(flags) ==> forall f :: f in flags * examined <==> f in raised;
    assert forall f :: f in flags * examined <==> f in flags && f in examined;
  }

  lemma MarkRule(cfg: Config, p: Packet, others: set<string>)
    ensures DecideRules(cfg)[0].target.Return?
    ensures Holds(DecideRules(cfg)[0].condition, p, others) == (p.mark * cfg.mask == cfg.mark)
  {
  }

  lemma SynRule(cfg: Config, p: Packet, others: set<string>)
    ensures DecideRules(cfg)[1].target == Queue(cfg.queue)
    ensures Holds(DecideRules(cfg)[1].condition, p, others) == (p.tcp && Opens(p.flags))
  {
    var c := DecideRules(cfg)[1].condition;
    OpensMask(p.flags, c.examined, c.raised);
  }

  lemma EarlyAckRule(cfg: Config, p: Packet, others: set<string>)
    ensures AckRule(cfg).target == Queue(cfg.queue)
    ensures Holds(AckRule(cfg).condition, p, others) == (p.tcp && PureAck(p.flags) && 2 <= p.seen <= 4)
  {
    var c := AckRule(cfg).condition;
    PureAckMask(p.flags, c.examined, c.raised);
  }

  lemma RuleStep(t: Table, c: Chain, n: nat, rule: Rule, p: Packet, others: set<string>)
    requires c in t && n < |t[c]| && t[c][n] == rule
    ensures rule.target.Return? ==>
              QueueOf(t, c, n, 0, p, others) == if Holds(rule.condition, p, others) then None else QueueOf(t, c, n + 1, 0, p, others)
    ensures rule.target.Queue? ==>
              QueueOf(t, c, n, 0, p, others) ==
              if Holds(rule.condition, p, others) then Some(rule.target.num) else QueueOf(t, c, n + 1, 0, p, others)
  {
  }

  lemma ChainEnd(t: Table, c: Chain, p: Packet, others: set<string>)
    requires c in t
    ensures QueueOf(t, c, |t[c]|, 0, p, others) == None
  {
  }

  /** A chain of one returning rule and then queueing ones. */
  lemma TwoOrThreeRules(t: Table, c: Chain, a: Rule, b: Rule, e: Rule, queue: nat, ack: bool, p: Packet, others: set<string>)
    requires c in t && t[c] == (if ack then [a, b] + [e] else [a, b])
    requires a.target.Return? && b.target == e.target == Queue(queue)
    ensures QueueOf(t, c, 0, 0, p, others) ==
            Sent(!Holds(a.condition, p, others) && (Holds(b.condition, p, others) || (ack && Holds(e.condition, p, others))), queue)
  {
    RuleStep(t, c, 0, a, p, others);
    RuleStep(t, c, 1, b, p, others);
    if ack {
      RuleStep(t, c, 2, e, p, others);
    }
    ChainEnd(t, c, p, others);
  }

  /** Chain FAKEHTTP_R in full: the mark returns, the others queue. */
  lemma RuleChainQueues(t: Table, cfg: Config, ack: bool, p: Packet, others: set<string>)
    requires FakeR in t && t[FakeR] == RuleChain(cfg, ack)
    ensures QueueOf(t, FakeR, 0, 0, p, others) == Sent(Chosen(cfg.mark, cfg.mask, ack, p), cfg.queue)
  {
    SynRule(cfg, p, others);
    EarlyAckRule(cfg, p, others);
    TwoOrThreeRules(t, FakeR, DecideRules(cfg)[0], DecideRules(cfg)[1], AckRule(cfg), cfg.queue, ack, p, others);
    MarkRule(cfg, p, others);
  }

  predicate AnyHolds(rules: seq<Rule>, n: nat, p: Packet, others: set<string>) {
    exists i :: n <= i < |rules| && Holds(rules[i].condition, p, others)
  }

  /** A chain of exclusions, then jumps to one chain. */
  predicate TwoParts(rules: seq<Rule>, k: nat, d: Chain) {
    && k <= |rules|
    && (forall i :: 0 <= i < k ==> rules[i].target == Return)
    && (forall i :: k <= i < |rules| ==> rules[i].target == Jump(d))
  }

  lemma {:induction false} JumpsQueue(t: Table, c: Chain, k: nat, n: nat, d: Chain, p: Packet, others: set<string>)
    requires c in t && TwoParts(t[c], k, d) && k <= n <= |t[c]|
    ensures QueueOf(t, c, n, 1, p, others) == if AnyHolds(t[c], n, p, others) then QueueOf(t, d, 0, 0, p, others) else None
    decreases |t[c]| - n
  {
    if n < |t[c]| {
      JumpsQueue(t, c, k, n + 1, d, p, others);
      assert AnyHolds(t[c], n, p, others) == (Holds(t[c][n].condition, p, others) || AnyHolds(t[c], n + 1, p, others));
    }
  }

  lemma {:induction false} ExclusionsQueue(t: Table, c: Chain, k: nat, n: nat, d: Chain, p: Packet, others: set<string>)
    requires c in t && TwoParts(t[c], k, d) && n <= k
    ensures QueueOf(t, c, n, 1, p, others) ==
            if !AnyHolds(t[c][..k], n, p, others) && AnyHolds(t[c], k, p, others) then QueueOf(t, d, 0, 0, p, others) else None
    decreases k - n
  {
    if n == k {
      JumpsQueue(t, c, k, n, d, p, others);
    } else {
      ExclusionsQueue(t, c, k, n + 1, d, p, others);
      var e := t[c][..k];
      assert e[n] == t[c][n];
      assert AnyHolds(e, n, p, others) == (Holds(e[n].condition, p, others) || AnyHolds(e, n + 1, p, others));
    }
  }

  lemma ExclusionsHold(e: seq<Rule>, nets: seq<Net>, a: nat, p: Packet, others: set<string>)
    requires |e| == |nets| && forall i :: 0 <= i < |e| ==> Holds(e[i].condition, p, others) == InNet(a, nets[i])
    ensures AnyHolds(e, 0, p, others) == InAny(a, nets)
  {
    if InAny(a, nets) {
      var i :| 0 <= i < |nets| && InNet(a, nets[i]);
      assert Holds(e[i].condition, p, others);
    }
  }

  lemma JumpsHold(rules: seq<Rule>, k: nat, devices: seq<string>, p: Packet, others: set<string>)
    requires |rules| == k + |devices|
    requires forall i :: k <= i < |rules| ==> Holds(rules[i].condition, p, others) == IptDevice(devices[i - k], p.device)
    ensures AnyHolds(rules, k, p, others) == IptCovers(devices, p.device)
  {
    if IptCovers(devices, p.device) {
      var i :| 0 <= i < |devices| && IptDevice(devices[i], p.device);
      assert Holds(rules[k + i].condition, p, others);
    }
  }

  lemma SourceParts(cfg: Config, p: Packet, others: set<string>)
    ensures var rules, k := SourceRules(cfg), |cfg.excluded|;
            && TwoParts(rules, k, FakeR)
            && AnyHolds(rules[..k], 0, p, others) == InAny(p.src, cfg.excluded)
            && AnyHolds(rules, k, p, others) == (cfg.allDevices || IptCovers(cfg.devices, p.device))
  {
    var rules, k := SourceRules(cfg), |cfg.excluded|;
    assert rules[..k] == ExcludeSources(cfg.excluded);
    ExclusionsHold(rules[..k], cfg.excluded, p.src, p, others);
    if cfg.allDevices {
      assert rules[k] == Rule(Always, Jump(FakeR));
    } else {
      JumpsHold(rules, k, cfg.devices, p, others);
    }
  }

  lemma DestinationParts(cfg: Config, p: Packet, others: set<string>)
    ensures var rules, k := DestinationRules(cfg), |cfg.excluded|;
            && TwoParts(rules, k, FakeR)
            && AnyHolds(rules[..k], 0, p, others) == InAny(p.dst, cfg.excluded)
            && AnyHolds(rules, k, p, others) == (cfg.allDevices || IptCovers(cfg.devices, p.device))
  {
    var rules, k := DestinationRules(cfg), |cfg.excluded|;
    assert rules[..k] == ExcludeDestinations(cfg.excluded);
    ExclusionsHold(rules[..k], cfg.excluded, p.dst, p, others);
    if cfg.allDevices {
      assert rules[k] == Rule(Always, Jump(FakeR));
    } else {
      JumpsHold(rules, k, cfg.devices, p, others);
    }
  }

  lemma EnteringChain(t: Table, cfg: Config, ack: bool, p: Packet, others: set<string>)
    requires FakeS in t && FakeR in t && t[FakeS] == SourceRules(cfg) && t[FakeR] == RuleChain(cfg, ack)
    ensures QueueOf(t, FakeS, 0, 1, p, others) ==
            Sent(Policy(cfg.mark, cfg.mask, ack, cfg.excluded, cfg.allDevices || IptCovers(cfg.devices, p.device), Entering, p), cfg.queue)
  {
    RuleChainQueues(t, cfg, ack, p, others);
    SourceParts(cfg, p, others);
    ExclusionsQueue(t, FakeS, |cfg.excluded|, 0, FakeR, p, others);
  }

  lemma LeavingChain(t: Table, cfg: Config, ack: bool, p: Packet, others: set<string>)
    requires FakeD in t && FakeR in t && t[FakeD] == DestinationRules(cfg) && t[FakeR] == RuleChain(cfg, ack)
    ensures QueueOf(t, FakeD, 0, 1, p, others) ==
            Sent(Policy(cfg.mark, cfg.mask, ack, cfg.excluded, cfg.allDevices || IptCovers(cfg.devices, p.device), Leaving, p), cfg.queue)
  {
    RuleChainQueues(t, cfg, ack, p, others);
    DestinationParts(cfg, p, others);
    ExclusionsQueue(t, FakeD, |cfg.excluded|, 0, FakeR, p, others);
  }

  /** The chains a setup installs send exactly the packets of the policy to the queue that was asked for, and none to any
      other. */
  lemma IptablesCarriesOutPolicy(base: Table, cfg: Config, ack: bool, hook: Hook, p: Packet, others: set<string>)
    requires Pristine(base)
    ensures IptSends(Installed(base, cfg, ack), hook, p, others) ==
            if Policy(cfg.mark, cfg.mask, ack, cfg.excluded, cfg.allDevices || IptCovers(cfg.devices, p.device), hook, p)
            then Some(cfg.queue) else None
  {
    var t := Installed(base, cfg, ack);
    if hook.Entering? {
      EnteringChain(t, cfg, ack, p, others);
    } else {
      LeavingChain(t, cfg, ack, p, others);
    }
  }

  // ---------- the nft table carries it out ----------

  predicate NftAnyHolds(rules: seq<NftRule>, n: nat, p: Packet) {
    exists i :: n <= i < |rules| && NftHolds(rules[i].condition, p)
  }

  predicate NftTwoParts(rules: seq<NftRule>, k: nat) {
    && k <= |rules|
    && (forall i :: 0 <= i < k ==> rules[i].verdict == NftReturn)
    && (forall i :: k <= i < |rules| ==> rules[i].verdict == NftJump)
  }

  lemma {:induction false} NftChainQueues(rules: seq<NftRule>, k: nat, n: nat, inner: Option<nat>, p: Packet)
    requires NftTwoParts(rules, k) && n <= |rules|
    ensures NftQueueOf(rules, n, inner, p) ==
            if !NftAnyHolds(rules[..k], n, p) && NftAnyHolds(rules, if n < k then k else n, p) then inner else None
    decreases |rules| - n
  {
    if n < |rules| {
      NftChainQueues(rules, k, n + 1, inner, p);
      if n < k {
        var e := rules[..k];
        assert e[n] == rules[n];
        assert NftAnyHolds(e, n, p) == (NftHolds(e[n].condition, p) || NftAnyHolds(e, n + 1, p));
      } else {
        assert NftAnyHolds(rules, n, p) == (NftHolds(rules[n].condition, p) || NftAnyHolds(rules, n + 1, p));
      }
    }
  }

  lemma NftRuleStep(rules: seq<NftRule>, n: nat, rule: NftRule, p: Packet)
    requires n < |rules| && rules[n] == rule
    ensures rule.verdict.NftReturn? ==>
              NftQueueOf(rules, n, None, p) == if NftHolds(rule.condition, p) then None else NftQueueOf(rules, n + 1, None, p)
    ensures rule.verdict.NftQueue? ==>
              NftQueueOf(rules, n, None, p) ==
              if NftHolds(rule.condition, p) then Some(rule.verdict.num) else NftQueueOf(rules, n + 1, None, p)
  {
  }

  lemma NftTwoOrThreeRules(rules: seq<NftRule>, a: NftRule, b: NftRule, e: NftRule, queue: nat, ack: bool, p: Packet)
    requires rules == (if ack then [a, b] + [e] else [a, b])
    requires a.verdict.NftReturn? && b.verdict == e.verdict == NftQueue(queue)
    ensures NftQueueOf(rules, 0, None, p) ==
            Sent(!NftHolds(a.condition, p) && (NftHolds(b.condition, p) || (ack && NftHolds(e.condition, p))), queue)
  {
    NftRuleStep(rules, 0, a, p);
    NftRuleStep(rules, 1, b, p);
    if ack {
      NftRuleStep(rules, 2, e, p);
    }
    assert NftQueueOf(rules, |rules|, None, p) == None;
  }

  lemma NftRulesQueue(cfg: NftConfig, ack: bool, p: Packet)
    ensures NftQueueOf(WithAck(cfg, ack).rules, 0, None, p) == Sent(Chosen(cfg.mark, cfg.mask, ack, p), cfg.queue)
  {
    var a, b, e := BaseTable(cfg).rules[0], BaseTable(cfg).rules[1], NftAckRule(cfg);
    NftTwoOrThreeRules(WithAck(cfg, ack).rules, a, b, e, cfg.queue, ack, p);
    OpensMask(p.flags, b.condition.examined, b.condition.raised);
    PureAckMask(p.flags, e.condition.examined, e.condition.raised);
  }

  lemma NftExclusionsHold(e: seq<NftRule>, nets: seq<Net>, a: nat, p: Packet)
    requires |e| == |nets| && forall i :: 0 <= i < |e| ==> NftHolds(e[i].condition, p) == InNet(a, nets[i])
    ensures NftAnyHolds(e, 0, p) == InAny(a, nets)
  {
    if InAny(a, nets) {
      var i :| 0 <= i < |nets| && InNet(a, nets[i]);
      assert NftHolds(e[i].condition, p);
    }
  }

  lemma NftJumpsHold(rules: seq<NftRule>, k: nat, devices: seq<string>, p: Packet)
    requires |rules| == k + |devices|
    requires forall i :: k <= i < |rules| ==> NftHolds(rules[i].condition, p) == NftDevice(devices[i - k], p.device)
    ensures NftAnyHolds(rules, k, p) == NftCovers(devices, p.device)
  {
    if NftCovers(devices, p.device) {
      var i :| 0 <= i < |devices| && NftDevice(devices[i], p.device);
      assert NftHolds(rules[k + i].condition, p);
    }
  }

  lemma NftSourceParts(cfg: NftConfig, ack: bool, p: Packet)
    ensures var rules, k := NftInstalled(cfg, ack).prerouting, |cfg.excluded|;
            && NftTwoParts(rules, k)
            && NftAnyHolds(rules[..k], 0, p) == InAny(p.src, cfg.excluded)
            && NftAnyHolds(rules, k, p) == (cfg.allDevices || NftCovers(cfg.devices, p.device))
  {
    var rules, k := NftInstalled(cfg, ack).prerouting, |cfg.excluded|;
    assert rules == NftExcludeSources(cfg.excluded) + if cfg.allDevices then [NftRule(NoCondition, NftJump)] else IifJumps(cfg.devices);
    assert rules[..k] == NftExcludeSources(cfg.excluded);
    NftExclusionsHold(rules[..k], cfg.excluded, p.src, p);
    if cfg.allDevices {
      assert rules[k] == NftRule(NoCondition, NftJump);
    } else {
      NftJumpsHold(rules, k, cfg.devices, p);
    }
  }

  lemma NftDestinationParts(cfg: NftConfig, ack: bool, p: Packet)
    ensures var rules, k := NftInstalled(cfg, ack).postrouting, |cfg.excluded|;
            && NftTwoParts(rules, k)
            && NftAnyHolds(rules[..k], 0, p) == InAny(p.dst, cfg.excluded)
            && NftAnyHolds(rules, k, p) == (cfg.allDevices || NftCovers(cfg.devices, p.device))
  {
    var rules, k := NftInstalled(cfg, ack).postrouting, |cfg.excluded|;
    assert rules == NftExcludeDestinations(cfg.excluded) +
                    if cfg.allDevices then [NftRule(NoCondition, NftJump)] else OifJumps(cfg.devices);
    assert rules[..k] == NftExcludeDestinations(cfg.excluded);
    NftExclusionsHold(rules[..k], cfg.excluded, p.dst, p);
    if cfg.allDevices {
      assert rules[k] == NftRule(NoCondition, NftJump);
    } else {
      NftJumpsHold(rules, k, cfg.devices, p);
    }
  }

  /** So does the nft table a setup leaves. */
  lemma NftCarriesOutPolicy(cfg: NftConfig, ack: bool, hook: Hook, p: Packet)
    ensures NftSends(NftInstalled(cfg, ack), hook, p) ==
            if Policy(cfg.mark, cfg.mask, ack, cfg.excluded, cfg.allDevices || NftCovers(cfg.devices, p.device), hook, p)
            then Some(cfg.queue) else None
  {
    var t, k := NftInstalled(cfg, ack), |cfg.excluded|;
    NftRulesQueue(cfg, ack, p);
    assert t.rules == WithAck(cfg, ack).rules;
    var inner := NftQueueOf(t.rules, 0, None, p);
    if hook.Entering? {
      NftSourceParts(cfg, ack, p);
      NftChainQueues(t.prerouting, k, 0, inner, p);
    } else {
      NftDestinationParts(cfg, ack, p);
      NftChainQueues(t.postrouting, k, 0, inner, p);
    }
  }

  // ---------- both backends, one policy ----------

  /** The options of one run, as the nft backend gets them. */
  function ForNft(cfg: Config): (n: NftConfig) {
    NftConfig(cfg.mark, cfg.mask, cfg.queue, NFT_LOCAL_NETS, cfg.allDevices, cfg.devices)
  }

  /** For one packet the backends agree exactly when they cover its device alike, or nothing hangs on the device. */
  lemma BackendsAgreeOnPacket(base: Table, cfg: Config, ack: bool, hook: Hook, p: Packet, others: set<string>)
    requires Pristine(base) && cfg.excluded == LOCAL_NETS
    ensures IptSends(Installed(base, cfg, ack), hook, p, others) == NftSends(NftInstalled(ForNft(cfg), ack), hook, p)
            <==> || cfg.allDevices || IptCovers(cfg.devices, p.device) == NftCovers(cfg.devices, p.device)
                 || !Policy(cfg.mark, cfg.mask, ack, LOCAL_NETS, true, hook, p)
  {
    IptablesCarriesOutPolicy(base, cfg, ack, hook, p, others);
    NftCarriesOutPolicy(ForNft(cfg), ack, hook, p);
    assert NFT_LOCAL_NETS == LOCAL_NETS;
  }

  /** Alike on every device name a kernel can have. */
  ghost predicate CoverAlike(devices: seq<string>) {
    forall device: string :: 0 < |device| < IFNAMSIZ ==> IptCovers(devices, device) == NftCovers(devices, device)
  }

  ghost predicate AgreeOnAll(base: Table, cfg: Config, ack: bool, others: set<string>)
    requires Pristine(base)
  {
    forall hook: Hook, p: Packet :: 0 < |p.device| < IFNAMSIZ ==>
      IptSends(Installed(base, cfg, ack), hook, p, others) == NftSends(NftInstalled(ForNft(cfg), ack), hook, p)
  }

  /** This network, private and shared ones, loopback, link-local, and everything from multicast on. */
  predicate IsLocal(address: nat) {
    var a, b := address / 0x100_0000, address / 0x1_0000 % 0x100;
    || a == 0 || a == 10 || a == 127 || a >= 224
    || (a == 100 && 64 <= b < 128) || (a == 169 && b == 254) || (a == 172 && 16 <= b < 32) || (a == 192 && b == 168)
  }

  lemma SizesAre()
    ensures Size(3) == 0x2000_0000 && Size(8) == 0x100_0000 && Size(10) == 0x40_0000 && Size(12) == 0x10_0000 && Size(16) == 0x1_0000
  {
    assert Size(16) == 0x1_0000 by { assert Size(24) == 0x100; }
  }

  /** The networks that both backends exclude hold exactly these addresses. */
  lemma LocalNetsAreLocal(address: nat)
    requires address < 0x1_0000_0000
    ensures InAny(address, LOCAL_NETS) <==> IsLocal(address)
    ensures InAny(address, NFT_LOCAL_NETS) <==> IsLocal(address)
  {
    SizesAre();
    var nets := LOCAL_NETS;
    assert NFT_LOCAL_NETS == nets;
    assert InNet(address, nets[0]) <==> address / 0x100_0000 == 0;
    assert InNet(address, nets[1]) <==> address / 0x100_0000 == 10;
    assert InNet(address, nets[2]) <==> address / 0x40_0000 == 401;
    assert InNet(address, nets[3]) <==> address / 0x100_0000 == 127;
    assert InNet(address, nets[4]) <==> address / 0x1_0000 == 0xA9FE;
    assert InNet(address, nets[5]) <==> address / 0x10_0000 == 0xAC1;
    assert InNet(address, nets[6]) <==> address / 0x1_0000 == 0xC0A8;
    assert InNet(address, nets[7]) <==> address / 0x2000_0000 == 7;
  }

  const PUBLIC: nat := 0x08080808

  lemma PublicIsNotLocal()
    ensures !InAny(PUBLIC, LOCAL_NETS)
  {
    LocalNetsAreLocal(PUBLIC);
  }

  /** The first packet of a connection to a public address, sent by this device. */
  function Opening(device: string): (p: Packet) {
    Packet(0, PUBLIC, {}, device, true, {SYN}, 0)
  }

  lemma OpeningIsChosen(cfg: Config, ack: bool, device: string)
    requires cfg.mark != {}
    ensures Policy(cfg.mark, cfg.mask, ack, LOCAL_NETS, true, Leaving, Opening(device))
  {
    PublicIsNotLocal();
    assert {} * cfg.mask == {};
  }

  /** Whatever the list, the backends treat every packet alike exactly when they cover all devices alike. */
  lemma AgreementIsCoverage(base: Table, cfg: Config, ack: bool, others: set<string>)
    requires Pristine(base) && cfg.excluded == LOCAL_NETS && !cfg.allDevices && cfg.mark != {}
    ensures AgreeOnAll(base, cfg, ack, others) <==> CoverAlike(cfg.devices)
  {
    forall device: string | 0 < |device| < IFNAMSIZ
      ensures IptSends(Installed(base, cfg, ack), Leaving, Opening(device), others)
              == NftSends(NftInstalled(ForNft(cfg), ack), Leaving, Opening(device))
              <==> IptCovers(cfg.devices, device) == NftCovers(cfg.devices, device)
    {
      OpeningIsChosen(cfg, ack, device);
      BackendsAgreeOnPacket(base, cfg, ack, Leaving, Opening(device), others);
    }
    if CoverAlike(cfg.devices) {
      forall hook: Hook, p: Packet | 0 < |p.device| < IFNAMSIZ
        ensures IptSends(Installed(base, cfg, ack), hook, p, others) == NftSends(NftInstalled(ForNft(cfg), ack), hook, p)
      {
        BackendsAgreeOnPacket(base, cfg, ack, hook, p, others);
      }
    }
    if AgreeOnAll(base, cfg, ack, others) {
      forall device: string | 0 < |device| < IFNAMSIZ ensures IptCovers(cfg.devices, device) == NftCovers(cfg.devices, device) {
        assert Opening(device).device == device;
      }
    }
  }

  function Stem(pattern: string): (s: string)
    requires pattern != []
  {
    pattern[..|pattern| - 1]
  }

  /** A pattern that ends with c, and whose stem begins the given one. */
  predicate WiderPattern(devices: seq<string>, c: char, stem: string) {
    exists j :: 0 <= j < |devices| && EndsWith(devices[j], c) && StartsWith(stem, Stem(devices[j]))
  }

  /** For every pattern that ends with c there is one at least as wide that ends with d. */
  predicate Matched(devices: seq<string>, c: char, d: char) {
    forall i :: 0 <= i < |devices| && EndsWith(devices[i], c) ==> WiderPattern(devices, d, Stem(devices[i]))
  }

  /** Whatever one backend reads as a pattern, the other covers by a pattern at least as wide. */
  predicate Balanced(devices: seq<string>) {
    Matched(devices, '+', '*') && Matched(devices, '*', '+')
  }

  lemma StartsFurther(s: string, stem: string, shorter: string)
    requires StartsWith(s, stem) && StartsWith(stem, shorter)
    ensures StartsWith(s, shorter)
  {
    assert s[..|shorter|] == s[..|stem|][..|shorter|];
  }

  lemma BalancedCovers(devices: seq<string>, device: string)
    requires Balanced(devices)
    ensures IptCovers(devices, device) == NftCovers(devices, device)
  {
    if IptCovers(devices, device) {
      IptToNft(devices, device);
    }
    if NftCovers(devices, device) {
      NftToIpt(devices, device);
    }
  }

  lemma BalancedCoversAlike(devices: seq<string>)
    requires Balanced(devices)
    ensures CoverAlike(devices)
  {
    forall device: string ensures IptCovers(devices, device) == NftCovers(devices, device) {
      BalancedCovers(devices, device);
    }
  }

  lemma IptToNft(devices: seq<string>, d: string)
    requires Matched(devices, '+', '*') && IptCovers(devices, d)
    ensures NftCovers(devices, d)
  {
    var i :| 0 <= i < |devices| && IptDevice(devices[i], d);
    if EndsWith(devices[i], '+') {
      var j :| 0 <= j < |devices| && EndsWith(devices[j], '*') && StartsWith(Stem(devices[i]), Stem(devices[j]));
      StartsFurther(d, Stem(devices[i]), Stem(devices[j]));
      assert NftDevice(devices[j], d);
    } else {
      assert StartsWith(d, d[..if d == [] then 0 else |d| - 1]);
      assert NftDevice(devices[i], d);
    }
  }

  lemma NftToIpt(devices: seq<string>, d: string)
    requires Matched(devices, '*', '+') && NftCovers(devices, d)
    ensures IptCovers(devices, d)
  {
    var i :| 0 <= i < |devices| && NftDevice(devices[i], d);
    if EndsWith(devices[i], '*') {
      var j :| 0 <= j < |devices| && EndsWith(devices[j], '+') && StartsWith(Stem(devices[i]), Stem(devices[j]));
      StartsFurther(d, Stem(devices[i]), Stem(devices[j]));
      assert IptDevice(devices[j], d);
    } else {
      assert StartsWith(d, d[..if d == [] then 0 else |d| - 1]);
      assert IptDevice(devices[i], d);
    }
  }

  predicate AnyEndsWith(devices: seq<string>, c: char) {
    exists i :: 0 <= i < |devices| && EndsWith(devices[i], c)
  }

  /** main takes names that fit a kernel's; with more than 68 of them, a list could name all the devices of a pattern. */
  predicate ShortList(devices: seq<string>) {
    |devices| <= 68 && forall i :: 0 <= i < |devices| ==> |devices[i]| < IFNAMSIZ
  }

  /** The k-th device whose name is one character longer: from the semicolon to the tilde, 68 characters. */
  function Extension(stem: string, k: nat): (d: string)
    requires k < 68
    ensures StartsWith(d, stem) && |d| == |stem| + 1 && !EndsWith(d, '+') && !EndsWith(d, '*')
  {
    stem + [(';' as int + k) as char]
  }

  lemma ExtensionsDiffer(stem: string, j: nat, k: nat)
    requires j < k < 68
    ensures Extension(stem, j) != Extension(stem, k)
  {
    assert Extension(stem, j)[|stem|] != Extension(stem, k)[|stem|];
  }

  /** Fewer names than extensions leave one of them free. */
  lemma {:induction false} SomeFree(devices: seq<string>, stem: string, n: nat) returns (k: nat)
    requires |devices| < n <= 68
    ensures k < n && Extension(stem, k) !in devices
    decreases n
  {
    k := n - 1;
    if Extension(stem, k) in devices {
      var last := Extension(stem, k);
      var j :| 0 <= j < |devices| && devices[j] == last;
      var rest := devices[..j] + devices[j + 1..];
      k := SomeFree(rest, stem, n - 1);
      ExtensionsDiffer(stem, k, n - 1);
      assert devices == devices[..j] + [last] + devices[j + 1..];
    }
  }

  predicate IsPattern(name: string) {
    EndsWith(name, '+') || EndsWith(name, '*')
  }

  /** The one extension of a shorter stem that this name covers, if it covers just one. */
  function Key(name: string): (d: string) {
    if IsPattern(name) then Stem(name) else name
  }

  /** A kernel's device that begins like this pattern, while the other names neither name it nor begin like it at its
      full length. */
  lemma Unnamed(devices: seq<string>, i: nat) returns (d: string)
    requires ShortList(devices) && i < |devices| && IsPattern(devices[i])
    ensures StartsWith(d, Stem(devices[i])) && |d| == |devices[i]| && 0 < |d| < IFNAMSIZ && !IsPattern(d)
    ensures forall j :: 0 <= j < |devices| && j != i ==> d != Key(devices[j])
  {
    var keys := seq(|devices|, j requires 0 <= j < |devices| => Key(devices[j]));
    var others := keys[..i] + keys[i + 1..];
    var k := SomeFree(others, Stem(devices[i]), 68);
    d := Extension(Stem(devices[i]), k);
    forall j | 0 <= j < |devices| && j != i ensures d != Key(devices[j]) {
      assert Key(devices[j]) == keys[j] == others[if j < i then j else j - 1];
    }
  }

  /** What such a device is covered by is a pattern at least as wide. */
  lemma CoveredByWider(devices: seq<string>, i: nat, d: string, j: nat, c: char)
    requires i < |devices| && j < |devices| && IsPattern(devices[i]) && StartsWith(d, Stem(devices[i])) && |d| == |devices[i]|
    requires EndsWith(devices[j], c) && (c == '+' || c == '*') && StartsWith(d, Stem(devices[j])) && d != Stem(devices[j])
    ensures WiderPattern(devices, c, Stem(devices[i]))
  {
    var stem, other := Stem(devices[i]), Stem(devices[j]);
    assert stem == d[..|stem|] && |other| <= |stem|;
    assert stem[..|other|] == d[..|other|];
    assert StartsWith(stem, other);
  }

  lemma CoversNeedWider(devices: seq<string>, i: nat)
    requires ShortList(devices) && i < |devices| && IsPattern(devices[i]) && CoverAlike(devices)
    ensures WiderPattern(devices, if EndsWith(devices[i], '+') then '*' else '+', Stem(devices[i]))
  {
    var d := Unnamed(devices, i);
    if EndsWith(devices[i], '+') {
      assert IptDevice(devices[i], d);
      var j :| 0 <= j < |devices| && NftDevice(devices[j], d);
      CoveredByWider(devices, i, d, j, '*');
    } else {
      assert NftDevice(devices[i], d);
      var j :| 0 <= j < |devices| && IptDevice(devices[j], d);
      CoveredByWider(devices, i, d, j, '+');
    }
  }

  /** For every short list of names, patterns of either kind included. */
  lemma CoverageIsBalance(devices: seq<string>)
    requires ShortList(devices)
    ensures CoverAlike(devices) <==> Balanced(devices)
  {
    if CoverAlike(devices) {
      forall i | 0 <= i < |devices| && IsPattern(devices[i])
        ensures WiderPattern(devices, if EndsWith(devices[i], '+') then '*' else '+', Stem(devices[i]))
      {
        CoversNeedWider(devices, i);
      }
    }
    if Balanced(devices) {
      BalancedCoversAlike(devices);
    }
  }

  /** So for every short list the backends treat all packets alike if and only if it is balanced. */
  lemma AgreementIsBalance(base: Table, cfg: Config, ack: bool, others: set<string>)
    requires Pristine(base) && cfg.excluded == LOCAL_NETS && !cfg.allDevices && cfg.mark != {} && ShortList(cfg.devices)
    ensures AgreeOnAll(base, cfg, ack, others) <==> Balanced(cfg.devices)
  {
    AgreementIsCoverage(base, cfg, ack, others);
    CoverageIsBalance(cfg.devices);
  }

  /** Without nft patterns in the list, the backends agree on every device exactly when it holds no iptables pattern. */
  lemma PlusSplitsBackends(devices: seq<string>)
    requires ShortList(devices) && !AnyEndsWith(devices, '*')
    ensures CoverAlike(devices) <==> !AnyEndsWith(devices, '+')
  {
    CoverageIsBalance(devices);
  }

  /** And the other way round. */
  lemma AsteriskSplitsBackends(devices: seq<string>)
    requires ShortList(devices) && !AnyEndsWith(devices, '+')
    ensures CoverAlike(devices) <==> !AnyEndsWith(devices, '*')
  {
    CoverageIsBalance(devices);
  }

  /** With one name that ends with a plus, a connection opened by any device that begins with the rest is queued by
      iptables and not by nft, whatever the mark. */
  lemma PlusNameSplits(base: Table, cfg: Config, ack: bool, others: set<string>, stem: string, device: string)
    requires Pristine(base) && cfg.excluded == LOCAL_NETS && !cfg.allDevices && cfg.mark != {}
    requires cfg.devices == [stem + ['+']] && StartsWith(device, stem) && device != stem + ['+']
    ensures IptSends(Installed(base, cfg, ack), Leaving, Opening(device), others) == Some(cfg.queue)
    ensures NftSends(NftInstalled(ForNft(cfg), ack), Leaving, Opening(device)) == None
  {
    var pattern := stem + ['+'];
    assert pattern[..|pattern| - 1] == stem;
    assert IptDevice(cfg.devices[0], device) && !NftDevice(cfg.devices[0], device);
    OpeningIsChosen(cfg, ack, device);
    IptablesCarriesOutPolicy(base, cfg, ack, Leaving, Opening(device), others);
    NftCarriesOutPolicy(ForNft(cfg), ack, Leaving, Opening(device));
  }

  /** For instance "ppp+", and a connection that "ppp0" opens. */
  lemma PppSplits(base: Table, cfg: Config, ack: bool, others: set<string>)
    requires Pristine(base) && cfg.excluded == LOCAL_NETS && !cfg.allDevices && cfg.mark != {} && cfg.devices == ["ppp+"]
    ensures IptSends(Installed(base, cfg, ack), Leaving, Opening("ppp0"), others) == Some(cfg.queue)
    ensures NftSends(NftInstalled(ForNft(cfg), ack), Leaving, Opening("ppp0")) == None
  {
    assert "ppp" + ['+'] == "ppp+";
    PlusNameSplits(base, cfg, ack, others, "ppp", "ppp0");
  }

  /** For every list of plain names, every packet and either hook, with the optional rule in both or in neither. */
  lemma BackendsAgree(base: Table, cfg: Config, ack: bool, hook: Hook, p: Packet, others: set<string>)
    requires Pristine(base) && cfg.excluded == LOCAL_NETS
    requires cfg.allDevices || (!AnyEndsWith(cfg.devices, '+') && !AnyEndsWith(cfg.devices, '*')) || Balanced(cfg.devices)
    ensures IptSends(Installed(base, cfg, ack), hook, p, others) == NftSends(NftInstalled(ForNft(cfg), ack), hook, p)
  {
    BackendsAgreeOnPacket(base, cfg, ack, hook, p, others);
    if !cfg.allDevices {
      BalancedCovers(cfg.devices, p.device);
    }
  }

  // ---------- the tool's own packets ----------

  /** What main makes of -m and -x, or None when it refuses them. */
  function EffectiveMask(mark: Bits, mask: Bits): (r: Option<Bits>) {
    if mask == {} then Some(mark) else if mark * mask != mark then None else Some(mask)
  }

  /** A packet sent with the tool's own mark is queued by neither backend, whatever else the rules say. */
  lemma OwnPacketsAreNeverQueued(base: Table, cfg: Config, mask: Bits, ack: bool, hook: Hook, p: Packet, others: set<string>)
    requires Pristine(base) && EffectiveMask(cfg.mark, mask) == Some(cfg.mask) && p.mark == cfg.mark
    ensures IptSends(Installed(base, cfg, ack), hook, p, others) == NftSends(NftInstalled(ForNft(cfg), ack), hook, p) == None
  {
    assert p.mark * cfg.mask == cfg.mark;
    IptablesCarriesOutPolicy(base, cfg, ack, hook, p, others);
    NftCarriesOutPolicy(ForNft(cfg), ack, hook, p);
  }
}
