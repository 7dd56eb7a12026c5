/** How much all threads together still have to do: a sum over their program counters, whatever their names. */
module Ranks {

  /** The sum over the threads named below n. */
  function SumBelow<T>(threads: map<nat, T>, left: T -> nat, n: nat): (r: nat) {
    if n == 0 then 0
    else SumBelow(threads, left, n - 1) + if n - 1 in threads then left(threads[n - 1]) else 0
  }

  ghost predicate NamedBelow<T>(threads: map<nat, T>, n: nat) {
    forall t :: t in threads ==> t < n
  }

  lemma {:induction false} FreshName(names: set<nat>) returns (u: nat)
    ensures u !in names && forall x :: x in names ==> x < u
    decreases names
  {
    u := 0;
    if names != {} {
      var x :| x in names;
      var v := FreshName(names - {x});
      u := if x < v then v else x + 1;
      assert forall y :: y in names ==> y == x || y in names - {x};
    }
  }

  ghost function Names<T>(threads: map<nat, T>): (n: nat)
    ensures NamedBelow(threads, n)
  {
    SomeBound(threads);
    var n: nat :| NamedBelow(threads, n);
    n
  }

  lemma SomeBound<T>(threads: map<nat, T>)
    ensures exists n: nat :: NamedBelow(threads, n)
  {
    var u := FreshName(threads.Keys);
    assert NamedBelow(threads, u);
  }

  ghost function Total<T>(threads: map<nat, T>, left: T -> nat): (r: nat) {
    SumBelow(threads, left, Names(threads))
  }

  lemma {:induction false} SumIsStable<T>(threads: map<nat, T>, left: T -> nat, m: nat, n: nat)
    requires m <= n && NamedBelow(threads, m)
    ensures SumBelow(threads, left, m) == SumBelow(threads, left, n)
    decreases n
  {
    if m < n {
      SumIsStable(threads, left, m, n - 1);
    }
  }

  lemma {:induction false} SumAfter<T>(threads: map<nat, T>, left: T -> nat, n: nat, t: nat, pc: T)
    ensures SumBelow(threads[t := pc], left, n) ==
            if t >= n then SumBelow(threads, left, n)
            else SumBelow(threads, left, n) + left(pc) - if t in threads then left(threads[t]) else 0
  {
    if n > 0 {
      SumAfter(threads, left, n - 1, t, pc);
    }
  }

  /** One thread's move, or a new thread, changes the total by what it changes for that thread. */
  lemma TotalAfter<T>(threads: map<nat, T>, left: T -> nat, t: nat, pc: T)
    ensures Total(threads[t := pc], left) == Total(threads, left) + left(pc) - if t in threads then left(threads[t]) else 0
  {
    var after := threads[t := pc];
    var n := Names(after) + Names(threads);
    SumIsStable(threads, left, Names(threads), n);
    SumIsStable(after, left, Names(after), n);
    assert t in after && t < Names(after);
    SumAfter(threads, left, n, t, pc);
  }
}
