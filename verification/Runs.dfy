/** Command sequences that external programs carry out, and everything that can become of them: a command may not be
    started, its success may not be seen, a checked one may end the run, and the whole process may die after any of them. */
module Runs {
  import opened Wrappers

  /** What becomes of one command: it is tried, or not even started, or tried without its success being seen. */
  datatype Fate = Tried | NotStarted | Lost

  /** A command, and whether the run goes on only when it is seen to succeed. */
  datatype Order<+C> = Order(command: C, checked: bool)

  /** How far a run has come: to its end, to a checked command that failed, or nowhere yet. */
  datatype End = Finished | Stopped | Cut

  datatype Played<+T> = Played(state: T, end: End)

  function Effect<T, C>(apply: (T, C) -> Option<T>, t: T, c: C, f: Fate): (r: T) {
    if f.NotStarted? then t
    else
      match apply(t, c)
      case None => t
      case Some(u) => u
  }

  predicate Seen<T, C>(apply: (T, C) -> Option<T>, t: T, c: C, f: Fate) {
    f.Tried? && apply(t, c).Some?
  }

  predicate Halts<T, C>(apply: (T, C) -> Option<T>, t: T, o: Order<C>, f: Fate) {
    o.checked && !Seen(apply, t, o.command, f)
  }

  /** What a run makes of a state when its commands meet these fates, one after the other; it is cut when they end first. */
  function Play<T, C>(apply: (T, C) -> Option<T>, t: T, orders: seq<Order<C>>, fates: seq<Fate>): (r: Played<T>)
    decreases |orders|
  {
    if orders == [] then Played(t, Finished)
    else if fates == [] then Played(t, Cut)
    else
      var u := Effect(apply, t, orders[0].command, fates[0]);
      if Halts(apply, t, orders[0], fates[0]) then Played(u, Stopped) else Play(apply, u, orders[1..], fates[1..])
  }

  /** The states it goes through, one for each command. */
  function States<T, C>(apply: (T, C) -> Option<T>, t: T, orders: seq<Order<C>>, fates: seq<Fate>): (r: seq<T>)
    ensures |r| <= |orders| && |r| <= |fates|
    decreases |orders|
  {
    if orders == [] || fates == [] then []
    else
      var u := Effect(apply, t, orders[0].command, fates[0]);
      [u] + if Halts(apply, t, orders[0], fates[0]) then [] else States(apply, u, orders[1..], fates[1..])
  }

  /** From t the run has come to this end, with exactly these fates, through these states. */
  ghost predicate Ran<T, C>(apply: (T, C) -> Option<T>, t: T, orders: seq<Order<C>>, fates: seq<Fate>,
                            states: seq<T>, end: End) {
    && Play(apply, t, orders, fates).end == end && States(apply, t, orders, fates) == states && |states| == |fates|
  }

  function LastState<T>(t: T, states: seq<T>): (r: T) {
    if states == [] then t else states[|states| - 1]
  }

  predicate NoFaults(fates: seq<Fate>) {
    forall k :: 0 <= k < |fates| ==> fates[k].Tried?
  }

  function Unchecked<C>(cmds: seq<C>): (r: seq<Order<C>>) {
    seq(|cmds|, i requires 0 <= i < |cmds| => Order(cmds[i], false))
  }

  function Checked<C>(cmds: seq<C>): (r: seq<Order<C>>) {
    seq(|cmds|, i requires 0 <= i < |cmds| => Order(cmds[i], true))
  }

  lemma JoinedFirst<X>(a: seq<X>, b: seq<X>)
    requires a != []
    ensures a + b != [] && (a + b)[0] == a[0] && (a + b)[1..] == a[1..] + b
  {
  }

  /** The last state is the one a run leaves. */
  lemma {:induction false} RunEndsThere<T, C>(apply: (T, C) -> Option<T>, t: T, orders: seq<Order<C>>, fates: seq<Fate>)
    ensures Play(apply, t, orders, fates).state == LastState(t, States(apply, t, orders, fates))
    decreases |orders|
  {
    if orders != [] && fates != [] && !Halts(apply, t, orders[0], fates[0]) {
      RunEndsThere(apply, Effect(apply, t, orders[0].command, fates[0]), orders[1..], fates[1..]);
    }
  }

  /** Every state on the way is the one of the same run cut there. */
  lemma {:induction false} StateOnTheWay<T, C>(apply: (T, C) -> Option<T>, t: T, orders: seq<Order<C>>,
                                               fates: seq<Fate>, k: nat)
    requires k < |States(apply, t, orders, fates)|
    ensures States(apply, t, orders, fates)[k] == Play(apply, t, orders, fates[..k + 1]).state
    decreases k
  {
    var u := Effect(apply, t, orders[0].command, fates[0]);
    assert fates[..k + 1][0] == fates[0] && fates[..k + 1][1..] == fates[1..][..k];
    if k == 0 {
      assert fates[..1][1..] == [];
      NothingMet(apply, u, orders[1..]);
    } else {
      StateOnTheWay(apply, u, orders[1..], fates[1..], k - 1);
    }
  }

  lemma NothingMet<T, C>(apply: (T, C) -> Option<T>, t: T, orders: seq<Order<C>>)
    ensures Play(apply, t, orders, []).state == t
  {
  }

  lemma FirstOrder<T, C>(apply: (T, C) -> Option<T>, t: T, orders: seq<Order<C>>, fates: seq<Fate>)
    requires orders != [] && fates != []
    ensures var u := Effect(apply, t, orders[0].command, fates[0]);
            if Halts(apply, t, orders[0], fates[0]) then
              Play(apply, t, orders, fates) == Played(u, Stopped) && States(apply, t, orders, fates) == [u]
            else
              && Play(apply, t, orders, fates) == Play(apply, u, orders[1..], fates[1..])
              && States(apply, t, orders, fates) == [u] + States(apply, u, orders[1..], fates[1..])
  {
  }

  /** Of a run in two parts: its second part adds to what the first one, if finished, leaves and goes through. */
  ghost predicate GoesOn<T(!new), C(!new)>(apply: (T, C) -> Option<T>, t: T, a: seq<Order<C>>, b: seq<Order<C>>,
                                           fates: seq<Fate>) {
    var first := Play(apply, t, a, fates);
    if first.end.Finished? then
      && |a| <= |fates| && |States(apply, t, a, fates)| == |a|
      && Play(apply, t, a + b, fates) == Play(apply, first.state, b, fates[|a|..])
      && States(apply, t, a + b, fates) == States(apply, t, a, fates) + States(apply, first.state, b, fates[|a|..])
    else Play(apply, t, a + b, fates) == first && States(apply, t, a + b, fates) == States(apply, t, a, fates)
  }

  lemma {:induction false} PlaySplit<T(!new), C(!new)>(apply: (T, C) -> Option<T>, t: T, a: seq<Order<C>>,
                                                       b: seq<Order<C>>, fates: seq<Fate>)
    ensures GoesOn(apply, t, a, b, fates)
    decreases |a|
  {
    if a == [] {
      assert a + b == b && fates[0..] == fates;
    } else if fates != [] {
      hide Play, States, Halts, Effect;
      JoinedFirst(a, b);
      FirstOrder(apply, t, a, fates);
      FirstOrder(apply, t, a + b, fates);
      if !Halts(apply, t, a[0], fates[0]) {
        var u := Effect(apply, t, a[0].command, fates[0]);
        PlaySplit(apply, u, a[1..], b, fates[1..]);
        OneOrderMore(apply, t, u, a, b, fates);
      }
    }
  }

  lemma OneOrderMore<T(!new), C(!new)>(apply: (T, C) -> Option<T>, t: T, u: T, a: seq<Order<C>>, b: seq<Order<C>>,
                                       fates: seq<Fate>)
    requires a != [] && fates != [] && GoesOn(apply, u, a[1..], b, fates[1..])
    requires Play(apply, t, a, fates) == Play(apply, u, a[1..], fates[1..])
    requires Play(apply, t, a + b, fates) == Play(apply, u, a[1..] + b, fates[1..])
    requires States(apply, t, a, fates) == [u] + States(apply, u, a[1..], fates[1..])
    requires States(apply, t, a + b, fates) == [u] + States(apply, u, a[1..] + b, fates[1..])
    ensures GoesOn(apply, t, a, b, fates)
  {
    hide Play, States, Halts, Effect;
    assert |a| <= |fates| ==> fates[1..][|a[1..]|..] == fates[|a|..];
  }

  /** Fates beyond the last command make no difference. */
  lemma {:induction false} Surplus<T, C>(apply: (T, C) -> Option<T>, t: T, orders: seq<Order<C>>, fates: seq<Fate>,
                                         more: seq<Fate>)
    requires |orders| <= |fates|
    ensures Play(apply, t, orders, fates + more) == Play(apply, t, orders, fates)
    ensures States(apply, t, orders, fates + more) == States(apply, t, orders, fates)
    decreases |orders|
  {
    if orders != [] {
      JoinedFirst(fates, more);
      Surplus(apply, Effect(apply, t, orders[0].command, fates[0]), orders[1..], fates[1..], more);
    }
  }

  /** A run that is stopped within its first part is stopped. */
  lemma StoppedEarly<T(!new), C(!new)>(apply: (T, C) -> Option<T>, t: T, a: seq<Order<C>>, b: seq<Order<C>>,
                                       fates: seq<Fate>, states: seq<T>)
    requires Ran(apply, t, a, fates, states, Stopped)
    ensures Ran(apply, t, a + b, fates, states, Stopped)
  {
    PlaySplit(apply, t, a, b, fates);
  }

  /** A run that finishes its first part goes on with the second. */
  lemma RanInTwo<T(!new), C(!new)>(apply: (T, C) -> Option<T>, t: T, a: seq<Order<C>>, fa: seq<Fate>, sa: seq<T>,
                       b: seq<Order<C>>, fb: seq<Fate>, sb: seq<T>, end: End)
    requires Ran(apply, t, a, fa, sa, Finished) && Ran(apply, LastState(t, sa), b, fb, sb, end)
    ensures Ran(apply, t, a + b, fa + fb, sa + sb, end)
  {
    hide Play, States;
    RunEndsThere(apply, t, a, fa);
    PlaySplit(apply, t, a, b, fa);
    Surplus(apply, t, a, fa, fb);
    PlaySplit(apply, t, a, b, fa + fb);
    assert (fa + fb)[|a|..] == fb;
  }

  /** One command. */
  lemma RanOne<T, C>(apply: (T, C) -> Option<T>, t: T, o: Order<C>, f: Fate)
    ensures var u := Effect(apply, t, o.command, f);
            Ran(apply, t, [o], [f], [u], if Halts(apply, t, o, f) then Stopped else Finished)
  {
    assert [o][1..] == [] && [f][1..] == [];
  }

  /** A run is cut only where its fates end. */
  lemma {:induction false} EnoughFates<T, C>(apply: (T, C) -> Option<T>, t: T, orders: seq<Order<C>>, fates: seq<Fate>)
    requires |orders| <= |fates|
    ensures !Play(apply, t, orders, fates).end.Cut?
    decreases |orders|
  {
    if orders != [] && !Halts(apply, t, orders[0], fates[0]) {
      EnoughFates(apply, Effect(apply, t, orders[0].command, fates[0]), orders[1..], fates[1..]);
    }
  }

  // ---------- what a kernel goes through ----------

  /** A kernel's state, and behind it the fates of all commands it was ever asked for and the states after them. */
  datatype Past<+T> = Past(state: T, fates: seq<Fate>, states: seq<T>)

  predicate IsSince<T(==)>(from: Past<T>, to: Past<T>) {
    from.fates <= to.fates && from.states <= to.states
  }

  function NewFates<T>(from: Past<T>, to: Past<T>): (r: seq<Fate>)
    requires |from.fates| <= |to.fates|
  {
    to.fates[|from.fates|..]
  }

  function NewStates<T>(from: Past<T>, to: Past<T>): (r: seq<T>)
    requires |from.states| <= |to.states|
  {
    to.states[|from.states|..]
  }

  /** From the one to the other, exactly this run took place. */
  ghost predicate Went<T(!new), C(!new)>(apply: (T, C) -> Option<T>, from: Past<T>, orders: seq<Order<C>>,
                                         to: Past<T>, end: End) {
    && IsSince(from, to) && to.state == LastState(from.state, NewStates(from, to))
    && Ran(apply, from.state, orders, NewFates(from, to), NewStates(from, to), end)
  }

  lemma WentNowhere<T(!new), C(!new)>(apply: (T, C) -> Option<T>, from: Past<T>)
    ensures Went(apply, from, [], from, Finished)
  {
  }

  lemma WentOne<T(!new), C(!new)>(apply: (T, C) -> Option<T>, from: Past<T>, o: Order<C>, f: Fate, to: Past<T>)
    requires to.fates == from.fates + [f] && to.states == from.states + [to.state]
    requires to.state == Effect(apply, from.state, o.command, f)
    ensures Went(apply, from, [o], to, if Halts(apply, from.state, o, f) then Stopped else Finished)
  {
    assert NewFates(from, to) == [f] && NewStates(from, to) == [to.state];
    RanOne(apply, from.state, o, f);
  }

  lemma WentInTwo<T(!new), C(!new)>(apply: (T, C) -> Option<T>, from: Past<T>, a: seq<Order<C>>, mid: Past<T>, b: seq<Order<C>>,
                                    to: Past<T>, end: End)
    requires Went(apply, from, a, mid, Finished) && Went(apply, mid, b, to, end)
    ensures Went(apply, from, a + b, to, end)
  {
    hide Ran;
    assert NewFates(from, to) == NewFates(from, mid) + NewFates(mid, to);
    assert NewStates(from, to) == NewStates(from, mid) + NewStates(mid, to);
    RanInTwo(apply, from.state, a, NewFates(from, mid), NewStates(from, mid), b, NewFates(mid, to), NewStates(mid, to), end);
  }

  lemma WentAndStopped<T(!new), C(!new)>(apply: (T, C) -> Option<T>, from: Past<T>, a: seq<Order<C>>,
                                         b: seq<Order<C>>, to: Past<T>)
    requires Went(apply, from, a, to, Stopped)
    ensures Went(apply, from, a + b, to, Stopped)
  {
    hide Ran;
    StoppedEarly(apply, from.state, a, b, NewFates(from, to), NewStates(from, to));
  }

  /** A process that dies on the way leaves the state of the same run with fewer fates. */
  lemma DiedOnTheWay<T(!new), C(!new)>(apply: (T, C) -> Option<T>, from: Past<T>, orders: seq<Order<C>>,
                                       to: Past<T>, end: End, k: nat)
    requires Went(apply, from, orders, to, end) && k < |NewStates(from, to)|
    ensures k < |NewFates(from, to)|
    ensures NewStates(from, to)[k] == Play(apply, from.state, orders, NewFates(from, to)[..k + 1]).state
  {
    hide Play, States;
    StateOnTheWay(apply, from.state, orders, NewFates(from, to), k);
  }

  /** And one that comes to its end leaves the state of the whole run. */
  lemma CameToTheEnd<T(!new), C(!new)>(apply: (T, C) -> Option<T>, from: Past<T>, orders: seq<Order<C>>, to: Past<T>, end: End)
    requires Went(apply, from, orders, to, end)
    ensures Play(apply, from.state, orders, NewFates(from, to)) == Played(to.state, end)
  {
    hide Play, States;
    RunEndsThere(apply, from.state, orders, NewFates(from, to));
  }

  // ---------- orders all of which are checked, or none ----------

  lemma CheckedFirst<C>(cmds: seq<C>)
    requires cmds != []
    ensures Checked(cmds) != [] && Checked(cmds)[0] == Order(cmds[0], true) && Checked(cmds)[1..] == Checked(cmds[1..])
  {
  }

  lemma UncheckedFirst<C>(cmds: seq<C>)
    requires cmds != []
    ensures Unchecked(cmds) != [] && Unchecked(cmds)[0] == Order(cmds[0], false) && Unchecked(cmds)[1..] == Unchecked(cmds[1..])
  {
  }

  lemma CheckedGrows<C>(cmds: seq<C>, i: nat)
    requires i < |cmds|
    ensures Checked(cmds[..i + 1]) == Checked(cmds[..i]) + [Order(cmds[i], true)]
  {
  }

  lemma UncheckedGrows<C>(cmds: seq<C>, i: nat)
    requires i < |cmds|
    ensures Unchecked(cmds[..i + 1]) == Unchecked(cmds[..i]) + [Order(cmds[i], false)]
  {
  }

  lemma CheckedInTwo<C>(cmds: seq<C>, i: nat)
    requires i <= |cmds|
    ensures Checked(cmds) == Checked(cmds[..i]) + Checked(cmds[i..])
  {
  }
}
