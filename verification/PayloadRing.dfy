/** The payload ring: a circular linked list built by inserting behind its first node, then rotated once. */
module PayloadRing {
  import opened Wrappers

  class Node {
    var payload: seq<byte>
    var next: Node?

    constructor ()
    {
      payload, next := [], null;
    }
  }

  /** The place in command-line order that comes after place j in the ring. */
  function Before(j: nat, n: nat): (r: nat)
    requires j < n
    ensures r < n
  {
    if j == 0 then n - 1 else j - 1
  }

  /** The place reached from the start after k steps. */
  function Place(k: nat, n: nat): (r: nat)
    requires n > 0
    ensures r < n
  {
    if k == 0 then n - 1 else Before(Place(k - 1, n), n)
  }

  /** Serving counts down from the last entry and wraps. */
  lemma {:induction false} PlaceCountsDown(k: nat, n: nat)
    requires n > 0
    ensures Place(k, n) == n - 1 - k % n
  {
    if k > 0 {
      PlaceCountsDown(k - 1, n);
      NextResidue(k - 1, (k - 1) / n, (k - 1) % n, n);
    }
  }

  /** The remainder goes up by one, or back to zero. */
  lemma NextResidue(k: nat, q: nat, r: nat, n: nat)
    requires r < n && k == q * n + r
    ensures (k + 1) % n == if r + 1 < n then r + 1 else 0
  {
    if r + 1 < n {
      Residue(k + 1, q, r + 1, n);
    } else {
      assert (q + 1) * n == q * n + n;
      Residue(k + 1, q + 1, 0, n);
    }
  }

  /** The remainder is the only r below n with k == q * n + r. */
  lemma Residue(k: nat, q: nat, r: nat, n: nat)
    requires r < n && k == q * n + r
    ensures k % n == r
  {
    var q', r' := k / n, k % n;
    if q < q' {
      LowerQuotient(q, q', r, r', n);
    } else if q' < q {
      LowerQuotient(q', q, r', r, n);
    }
  }

  lemma LowerQuotient(q: nat, q': nat, r: nat, r': nat, n: nat)
    requires q < q' && r < n
    ensures q * n + r < q' * n + r'
  {
    AtLeastOne(q' - q, n);
    assert q' * n == q * n + (q' - q) * n;
  }

  lemma {:induction false} AtLeastOne(a: nat, n: nat)
    requires a > 0
    ensures a * n >= n
  {
    if a > 1 {
      AtLeastOne(a - 1, n);
      assert a * n == (a - 1) * n + n;
    }
  }

  ghost function AllOf(nodes: seq<Node>): (r: set<Node>) {
    set n | n in nodes
  }

  class Payloads {
    var current: Node?
    /** The nodes in command-line order, how many payloads have been served, and what has been freed. */
    ghost var nodes: seq<Node>
    ghost var served: nat
    ghost var freed: set<Node>

    constructor ()
      ensures current == null && nodes == [] && freed == {}
    {
      current, nodes, served, freed := null, [], 0, {};
    }

    ghost predicate Cyclic()
      reads this, nodes
    {
      && (forall i, j :: 0 <= i < j < |nodes| ==> nodes[i] != nodes[j])
      && (forall j :: 0 <= j < |nodes| ==> nodes[j].next == nodes[Before(j, |nodes|)])
    }

    ghost predicate Linked()
      reads this, nodes
    {
      && Cyclic()
      && (forall j :: 0 <= j < |nodes| ==> nodes[j] !in freed)
    }

    /** A set-up ring of n > 0 nodes, positioned where `served` calls leave it. */
    ghost predicate Valid()
      reads this, nodes
    {
      |nodes| > 0 && Linked() && current == nodes[Place(served, |nodes|)]
    }

    /** free(): each node may be freed once, and is not used afterwards. */
    method Free(node: Node)
      requires node !in freed
      modifies this`freed
      ensures freed == old(freed) + {node}
    {
      freed := freed + {node};
    }

    /** Links a new node in behind the first one, or to itself when it is the first. */
    method Insert(node: Node)
      requires Linked() && node !in nodes && node !in freed
      requires current == if nodes == [] then null else nodes[0]
      modifies this`current, this`nodes, node, nodes
      ensures Linked() && nodes == old(nodes) + [node] && current == nodes[0]
      ensures forall x :: x in nodes ==> x.payload == old(x.payload)
    {
      if current != null {
        var next := current.next;
        current.next := node;
        node.next := next;
      } else {
        current := node;
        node.next := node;
      }
      nodes := nodes + [node];
    }

    /** built[i] is what the builder of command-line entry i gives; None when it reports an error.
        Allocation may fail too. A failed setup frees every node it made, once. */
    method Setup(built: seq<Option<seq<byte>>>) returns (ok: bool)
      requires current == null && nodes == [] && freed == {}
      modifies this
      ensures ok ==>
                && built != [] && Valid() && served == 0 && freed == {} && |nodes| == |built| && fresh(nodes)
                && (forall i :: 0 <= i < |built| ==> built[i].Some? && nodes[i].payload == built[i].value)
      ensures !ok ==> freed == AllOf(nodes)
      ensures built == [] || (exists i :: 0 <= i < |built| && built[i].None?) ==> !ok
    {
      for i := 0 to |built|
        invariant |nodes| == i && Linked() && fresh(nodes) && freed == {}
        invariant current == if i == 0 then null else nodes[0]
        invariant forall j :: 0 <= j < i ==> built[j].Some? && nodes[j].payload == built[j].value
      {
        var haveMemory: bool := *;
        if !haveMemory {
          Cleanup();
          return false;
        }
        var node := new Node();
        Insert(node);
        if built[i].None? {
          Cleanup();
          return false;
        }
        node.payload := built[i].value;
      }
      if current == null {
        return false;
      }
      current := current.next;
      served := 0;
      ok := true;
    }

    /** The k-th call since setup, counting from 0, serves entry n - 1 - (k mod n). */
    method Get() returns (payload: seq<byte>)
      requires Valid()
      modifies this`current, this`served
      ensures Valid() && served == old(served) + 1 && nodes == old(nodes)
      ensures payload == nodes[|nodes| - 1 - old(served) % |nodes|].payload
    {
      PlaceCountsDown(served, |nodes|);
      payload := current.payload;
      current := current.next;
      served := served + 1;
    }

    /** Reads the link of a node that has not been freed yet, then frees it. */
    method FreeOne(node: Node, ghost start: nat, ghost count: nat, ghost before: set<Node>) returns (nextNode: Node?)
      requires Cyclic() && start < |nodes| && count < |nodes| && node == nodes[Back(start, count, |nodes|)]
      requires freed == before + Passed(nodes, start, count) && forall x :: x in nodes ==> x !in before
      modifies this`freed
      ensures freed == before + Passed(nodes, start, count + 1)
      ensures nextNode == nodes[Back(start, count + 1, |nodes|)]
      ensures nextNode == nodes[start] <==> count + 1 == |nodes|
    {
      NotYetPassed(nodes, start, count, count);
      BackWraps(start, count + 1, |nodes|);
      nextNode := node.next;
      Free(node);
    }

    /** Frees every node exactly once, wherever `current` stands. `current` keeps its old value. */
    method Cleanup()
      requires Linked() && (if nodes == [] then current == null else current in nodes)
      modifies this`freed
      ensures freed == old(freed) + AllOf(nodes)
    {
      if current != null {
        CleanupFrom(current);
      }
    }

    method CleanupFrom(first: Node)
      requires Linked() && first == current && first in nodes
      modifies this`freed
      ensures freed == old(freed) + AllOf(nodes)
    {
      ghost var start: nat :| start < |nodes| && nodes[start] == first;
      ghost var count, before := 0, freed;
      assert Back(start, 0, |nodes|) == start && Passed(nodes, start, 0) == {};
      hide Back, Passed;
      var node: Node? := first;
      while node != null
        invariant 0 <= count < |nodes| && Cyclic() && forall x :: x in nodes ==> x !in before
        invariant node == nodes[Back(start, count, |nodes|)]
        invariant freed == before + Passed(nodes, start, count)
        decreases |nodes| - count
      {
        var nextNode := FreeOne(node, start, count, before);
        count := count + 1;
        if nextNode == first {
          break;
        }
        node := nextNode;
      }
      assert count == |nodes|;
      AllPassed(nodes, start);
    }
  }

  /** The place k steps after `start`. */
  function Back(start: nat, k: nat, n: nat): (r: nat)
    requires start < n
    ensures r < n
    ensures k <= n ==> r == if k <= start then start - k else start - k + n
  {
    if k == 0 then start else Before(Back(start, k - 1, n), n)
  }

  /** The nodes met in the first `count` steps from `start`. */
  ghost function Passed(nodes: seq<Node>, start: nat, count: nat): (r: set<Node>)
    requires start < |nodes|
  {
    if count == 0 then {} else Passed(nodes, start, count - 1) + {nodes[Back(start, count - 1, |nodes|)]}
  }

  lemma {:induction false} NotYetPassed(nodes: seq<Node>, start: nat, count: nat, k: nat)
    requires start < |nodes| && count <= k < |nodes|
    requires forall i, j :: 0 <= i < j < |nodes| ==> nodes[i] != nodes[j]
    ensures nodes[Back(start, k, |nodes|)] !in Passed(nodes, start, count)
  {
    if count > 0 {
      NotYetPassed(nodes, start, count - 1, k);
    }
  }

  lemma {:induction false} PassedHas(nodes: seq<Node>, start: nat, count: nat, k: nat)
    requires start < |nodes| && k < count
    ensures nodes[Back(start, k, |nodes|)] in Passed(nodes, start, count)
  {
    if k < count - 1 {
      PassedHas(nodes, start, count - 1, k);
    }
  }

  lemma {:induction false} PassedOnlyNodes(nodes: seq<Node>, start: nat, count: nat)
    requires start < |nodes|
    ensures forall x :: x in Passed(nodes, start, count) ==> x in nodes
  {
    if count > 0 {
      PassedOnlyNodes(nodes, start, count - 1);
    }
  }

  lemma AllPassed(nodes: seq<Node>, start: nat)
    requires start < |nodes|
    ensures Passed(nodes, start, |nodes|) == AllOf(nodes)
  {
    PassedOnlyNodes(nodes, start, |nodes|);
    forall x | x in nodes ensures x in Passed(nodes, start, |nodes|) {
      var j :| 0 <= j < |nodes| && nodes[j] == x;
      PassedHas(nodes, start, |nodes|, StepsTo(start, j, |nodes|));
    }
  }

  lemma BackWraps(start: nat, k: nat, n: nat)
    requires start < n && 0 < k <= n
    ensures Back(start, k, n) == start <==> k == n
  {
  }

  /** How many steps lead from `start` to place j. */
  function StepsTo(start: nat, j: nat, n: nat): (k: nat)
    requires start < n && j < n
    ensures k < n && Back(start, k, n) == j
  {
    if j <= start then start - j else start - j + n
  }
}
