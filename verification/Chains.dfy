/** The mangle table of one address family: chains of rules, and what one iptables command does to them. */
module Chains {
  import opened Runs
  import opened Wrappers

  /** The two hooks the tool uses, its own three chains, and everybody else's. */
  datatype Chain = Prerouting | Postrouting | FakeS | FakeD | FakeR | Other(name: string)

  /** A mark or a mask, as the set of its bits. */
  type Bits = set<nat>

  /** A network of IPv4 addresses: those whose first `bits` bits are those of `address`. */
  datatype Net = Net(address: nat, bits: nat)

  datatype Flag = SYN | ACK | FIN | RST

  datatype Condition =
    | Always
    | From(net: Net)
    | To(net: Net)
    | InVia(device: string)
    | OutVia(device: string)
    | Marked(mark: Bits, mask: Bits)
    | TcpFlags(examined: set<Flag>, raised: set<Flag>)
    | EarlyTcpFlags(examined: set<Flag>, raised: set<Flag>, low: nat, high: nat)
    | Foreign(text: string)

  datatype Target = Return | Queue(num: nat) | Jump(chain: Chain) | Else(text: string)

  datatype Rule = Rule(condition: Condition, target: Target)

  type Table = map<Chain, seq<Rule>>

  /** -N, -A, -I, -D, -F and -X */
  datatype Command =
    | New(chain: Chain)
    | Append(chain: Chain, rule: Rule)
    | Insert(chain: Chain, rule: Rule)
    | Delete(chain: Chain, rule: Rule)
    | Flush(chain: Chain)
    | DeleteChain(chain: Chain)

  predicate BuiltIn(c: Chain) {
    c.Prerouting? || c.Postrouting?
  }

  predicate JumpsTo(rules: seq<Rule>, c: Chain) {
    exists i :: 0 <= i < |rules| && rules[i].target == Jump(c)
  }

  predicate Referenced(t: Table, c: Chain) {
    exists x :: x in t && JumpsTo(t[x], c)
  }

  predicate Usable(t: Table, rule: Rule) {
    rule.target.Jump? ==> rule.target.chain in t
  }

  function WithoutFirst(rules: seq<Rule>, rule: Rule): (r: seq<Rule>) {
    if rules == [] then [] else if rules[0] == rule then rules[1..] else [rules[0]] + WithoutFirst(rules[1..], rule)
  }

  /** The table after a command, or None when the command is refused. */
  function Apply(t: Table, cmd: Command): (r: Option<Table>) {
    match cmd
    case New(c) => if c in t then None else Some(t[c := []])
    case Append(c, rule) => if c in t && Usable(t, rule) then Some(t[c := t[c] + [rule]]) else None
    case Insert(c, rule) => if c in t && Usable(t, rule) then Some(t[c := [rule] + t[c]]) else None
    case Delete(c, rule) => if c in t && rule in t[c] then Some(t[c := WithoutFirst(t[c], rule)]) else None
    case Flush(c) => if c in t then Some(t[c := []]) else None
    case DeleteChain(c) => if c in t && !BuiltIn(c) && t[c] == [] && !Referenced(t, c) then Some(t - {c}) else None
  }

  /** The table after an attempt that is neither interrupted nor lost. */
  function Attempt(t: Table, cmd: Command): (r: Table) {
    match Apply(t, cmd) case Some(u) => u case None => t
  }

  function AttemptAll(t: Table, cmds: seq<Command>): (r: Table)
    decreases |cmds|
  {
    if cmds == [] then t else AttemptAll(Attempt(t, cmds[0]), cmds[1..])
  }

  /** The table after commands that are all accepted. */
  function Applied(t: Table, cmds: seq<Command>): (r: Option<Table>) {
    if cmds == [] then Some(t)
    else
      match Applied(t, cmds[..|cmds| - 1])
      case None => None
      case Some(u) => Apply(u, cmds[|cmds| - 1])
  }

  lemma {:induction false} AppliedInTwo(t: Table, a: seq<Command>, b: seq<Command>)
    requires Applied(t, a).Some?
    ensures Applied(t, a + b) == Applied(Applied(t, a).value, b)
  {
    if b == [] {
      assert a + b == a;
    } else {
      var n := |b| - 1;
      AppliedInTwo(t, a, b[..n]);
      assert (a + b)[..|a + b| - 1] == a + b[..n];
    }
  }

  lemma {:induction false} PrefixApplied(t: Table, cmds: seq<Command>, n: nat)
    requires n <= |cmds| && Applied(t, cmds).Some?
    ensures Applied(t, cmds[..n]).Some?
    decreases |cmds|
  {
    if n == |cmds| {
      assert cmds[..n] == cmds;
    } else {
      var front := cmds[..|cmds| - 1];
      PrefixApplied(t, front, n);
      assert front[..n] == cmds[..n];
    }
  }

  function Appends(c: Chain, rules: seq<Rule>): (r: seq<Command>) {
    seq(|rules|, i requires 0 <= i < |rules| => Append(c, rules[i]))
  }

  lemma {:induction false} AppendsApplied(t: Table, c: Chain, rules: seq<Rule>)
    requires c in t && forall i :: 0 <= i < |rules| ==> Usable(t, rules[i])
    ensures Applied(t, Appends(c, rules)) == Some(t[c := t[c] + rules])
  {
    if rules == [] {
      assert t[c] + rules == t[c];
      assert t[c := t[c]] == t;
    } else {
      var n := |rules| - 1;
      AppendsApplied(t, c, rules[..n]);
      assert Appends(c, rules)[..n] == Appends(c, rules[..n]);
      assert rules == rules[..n] + [rules[n]];
      assert (t[c] + rules[..n]) + [rules[n]] == t[c] + rules;
      var u := t[c := t[c] + rules[..n]];
      assert u[c := u[c] + [rules[n]]] == t[c := t[c] + rules];
    }
  }

  /** The kernel's table, changed by commands that may also fail for reasons of their own: the process is not started,
      the lock is not had, or the result is lost. `fates` notes what became of each command, `log` the table after it, so
      that a statement about all of `log` is one about a crash between any two commands. */
  class Kernel {
    var table: Table
    var log: seq<Table>
    ghost var fates: seq<Fate>

    constructor (table: Table)
      ensures this.table == table && log == [] && fates == []
    {
      this.table, log, fates := table, [], [];
    }

    ghost function Here(): (p: Past<Table>)
      reads this
    {
      Past(table, fates, log)
    }

    /** fh_execute_command */
    method Execute(cmd: Command) returns (ok: bool)
      modifies this
      ensures ok ==> Apply(old(table), cmd) == Some(table)
      ensures |fates| == |old(fates)| + 1 && fates[..|old(fates)|] == old(fates) && log == old(log) + [table]
      ensures table == Effect(Apply, old(table), cmd, fates[|old(fates)|])
      ensures ok <==> Seen(Apply, old(table), cmd, fates[|old(fates)|])
      ensures Went(Apply, old(Here()), [Order(cmd, true)], Here(), if ok then Finished else Stopped)
      ensures Went(Apply, old(Here()), [Order(cmd, false)], Here(), Finished)
    {
      var notStarted: bool, lost: bool := *, *;
      ghost var fate := if notStarted then NotStarted else if lost then Lost else Tried;
      if notStarted {
        ok := false;
      } else {
        var result := Apply(table, cmd);
        ok := result.Some? && !lost;
        if result.Some? {
          table := result.value;
        }
      }
      fates, log := fates + [fate], log + [table];
      WentOne(Apply, old(Here()), Order(cmd, true), fate, Here());
      WentOne(Apply, old(Here()), Order(cmd, false), fate, Here());
    }
  }
}
