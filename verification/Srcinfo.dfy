/** The ring of the last 500 peers, written forwards and searched backwards. */
module Srcinfo {
  import opened Wrappers

  const CAPACITY: nat := 500

  /** A socket address; only the IP takes part in a lookup, and only for the two known families. */
  datatype Addr = Inet(ip: nat, port: nat) | Inet6(ip6: seq<byte>, port: nat) | OtherFamily(family: nat)

  datatype Info = Info(addr: Addr, ttl: byte, hwaddr: seq<byte>)

  datatype Slot = Uninitialized | Initialized(info: Info)

  predicate SameIp(a: Addr, b: Addr) {
    match (a, b)
    case (Inet(ip, _), Inet(ip', _)) => ip == ip'
    case (Inet6(ip, _), Inet6(ip', _)) => ip == ip'
    case _ => false
  }

  /** The part of the history the ring still remembers. */
  function Recent(puts: seq<Info>): (r: seq<Info>) {
    if |puts| <= CAPACITY then puts else puts[|puts| - CAPACITY..]
  }

  /** info is the newest record for addr among puts. */
  ghost predicate IsNewest(puts: seq<Info>, addr: Addr, info: Info) {
    exists k :: 0 <= k < |puts| && puts[k] == info && SameIp(addr, info.addr)
                && forall j :: k < j < |puts| ==> !SameIp(addr, puts[j].addr)
  }

  ghost predicate Unknown(puts: seq<Info>, addr: Addr) {
    forall k :: 0 <= k < |puts| ==> !SameIp(addr, puts[k].addr)
  }

  /** The backwards index, kept non-negative by adding CAPACITY first, names the put i places before the last. */
  lemma BackwardsIndex(n: nat, i: nat)
    requires i < CAPACITY
    ensures i < n ==> (n % CAPACITY + CAPACITY - i - 1) % CAPACITY == (n - 1 - i) % CAPACITY
    ensures n <= i ==> (n % CAPACITY + CAPACITY - i - 1) % CAPACITY == n + CAPACITY - i - 1
  {
    if n <= i {
      assert n % CAPACITY == n;
    } else {
      var q, r := n / CAPACITY, n % CAPACITY;
      if r - 1 - i >= 0 {
        SameResidue(q, r - 1 - i);
        SameResidue(1, r - 1 - i);
      } else {
        SameResidue(q - 1, r - 1 - i + CAPACITY);
      }
    }
  }

  lemma SameResidue(q: nat, r: nat)
    requires r < CAPACITY
    ensures (q * CAPACITY + r) % CAPACITY == r
  {
  }

  class Ring {
    const srci: array<Slot>
    var end: nat
    ghost var puts: seq<Info>

    ghost predicate Valid()
      reads this, srci
    {
      && srci.Length == CAPACITY
      && end == |puts| % CAPACITY
      && (forall k :: 0 <= k < |puts| && |puts| - CAPACITY <= k ==> srci[k % CAPACITY] == Initialized(puts[k]))
      && (forall j :: |puts| <= j < CAPACITY ==> srci[j] == Uninitialized)
    }

    constructor ()
      ensures Valid() && puts == [] && fresh(srci)
    {
      srci := new Slot[CAPACITY](_ => Uninitialized);
      end, puts := 0, [];
    }

    /** Refuses an unknown address family without changing anything. */
    method Put(addr: Addr, ttl: byte, hwaddr: seq<byte>) returns (ok: bool)
      requires Valid()
      modifies this`end, this`puts, srci
      ensures Valid()
      ensures ok <==> !addr.OtherFamily?
      ensures puts == if ok then old(puts) + [Info(addr, ttl, hwaddr)] else old(puts)
      ensures !ok ==> srci[..] == old(srci[..]) && end == old(end)
    {
      if addr.OtherFamily? {
        return false;
      }
      srci[end] := Initialized(Info(addr, ttl, hwaddr));
      ghost var n := |puts|;
      assert forall k :: n - CAPACITY < k < n && 0 <= k ==> k % CAPACITY != n % CAPACITY by {
        forall k | n - CAPACITY < k < n && 0 <= k ensures k % CAPACITY != n % CAPACITY {
          DistinctResidues(k, n);
        }
      }
      end := (end + 1) % CAPACITY;
      puts := puts + [Info(addr, ttl, hwaddr)];
      ok := true;
    }

    /** Finds the newest of the last 500 records with this IP, and fails exactly when there is none. */
    method Get(addr: Addr) returns (r: Option<(byte, seq<byte>)>)
      requires Valid()
      ensures r.None? <==> Unknown(Recent(puts), addr)
      ensures r.Some? ==> exists info :: IsNewest(Recent(puts), addr, info) && r.value == (info.ttl, info.hwaddr)
    {
      ghost var n := |puts|;
      ghost var recent := Recent(puts);
      for i := 0 to CAPACITY
        invariant i <= |recent|
        invariant forall k :: |recent| - i <= k < |recent| ==> !SameIp(addr, recent[k].addr)
      {
        BackwardsIndex(n, i);
        var info := srci[(end + CAPACITY - i - 1) % CAPACITY];
        if info.Uninitialized? {
          return None;
        }
        assert i < n && info.info == puts[n - 1 - i] && info.info == recent[|recent| - 1 - i];
        if SameIp(addr, info.info.addr) {
          assert IsNewest(recent, addr, info.info);
          return Some((info.info.ttl, info.info.hwaddr));
        }
      }
      r := None;
    }
  }

  lemma DistinctResidues(k: nat, n: nat)
    requires k < n < k + CAPACITY
    ensures k % CAPACITY != n % CAPACITY
  {
  }

  /** There is at most one answer: the newest record is determined by the history and the address. */
  lemma NewestIsUnique(puts: seq<Info>, addr: Addr, a: Info, b: Info)
    requires IsNewest(puts, addr, a) && IsNewest(puts, addr, b)
    ensures a == b
  {
    var i :| 0 <= i < |puts| && puts[i] == a && SameIp(addr, a.addr) && forall j :: i < j < |puts| ==> !SameIp(addr, puts[j].addr);
    var k :| 0 <= k < |puts| && puts[k] == b && SameIp(addr, b.addr) && forall j :: k < j < |puts| ==> !SameIp(addr, puts[j].addr);
    assert i == k;
  }
}
