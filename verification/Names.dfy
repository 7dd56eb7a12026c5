/** Names in byte order, and sorting them. */
module Names {
  predicate Less(a: string, b: string) {
    b != [] && (a == [] || a[0] < b[0] || (a[0] == b[0] && Less(a[1..], b[1..])))
  }

  lemma {:induction false} LessIsStrict(a: string, b: string)
    ensures !(Less(a, b) && Less(b, a)) && (a == b ==> !Less(a, b))
  {
    if a != [] && b != [] && a[0] == b[0] {
      LessIsStrict(a[1..], b[1..]);
    }
  }

  lemma {:induction false} LessIsTotal(a: string, b: string)
    ensures Less(a, b) || a == b || Less(b, a)
  {
    if a != [] && b != [] && a[0] == b[0] {
      LessIsTotal(a[1..], b[1..]);
      assert a[1..] == b[1..] ==> a == [a[0]] + a[1..] == b;
    }
  }

  lemma {:induction false} LessIsTransitive(a: string, b: string, c: string)
    requires Less(a, b) && Less(b, c)
    ensures Less(a, c)
  {
    if a != [] && a[0] == b[0] && b[0] == c[0] {
      LessIsTransitive(a[1..], b[1..], c[1..]);
    }
  }

  /** The order of bytes: one is the beginning of the other, or has the smaller byte where they first differ. */
  lemma {:induction false} LessIsByteOrder(a: string, b: string)
    ensures Less(a, b) <==> (a < b || exists k :: 0 <= k < |a| && k < |b| && a[..k] == b[..k] && a[k] < b[k])
  {
    if a != [] && b != [] && a[0] == b[0] {
      LessIsByteOrder(a[1..], b[1..]);
      assert a == [a[0]] + a[1..] && b == [b[0]] + b[1..];
      assert a[1..] < b[1..] <==> a < b;
      if k :| 0 <= k < |a[1..]| && k < |b[1..]| && a[1..][..k] == b[1..][..k] && a[1..][k] < b[1..][k] {
        assert a[..k + 1] == [a[0]] + a[1..][..k] && b[..k + 1] == [b[0]] + b[1..][..k];
        assert a[k + 1] < b[k + 1];
      }
      if k :| 0 <= k < |a| && k < |b| && a[..k] == b[..k] && a[k] < b[k] {
        assert a[1..][..k - 1] == a[..k][1..] && b[1..][..k - 1] == b[..k][1..];
        assert a[1..][k - 1] < b[1..][k - 1];
      }
    } else if a != [] && b != [] {
      assert a[..0] == b[..0];
      if k :| 0 <= k < |a| && k < |b| && a[..k] == b[..k] && a[k] < b[k] {
        assert k > 0 ==> a[..k][0] == b[..k][0];
      }
    }
  }

  predicate Increasing(s: seq<string>) {
    forall i, j :: 0 <= i < j < |s| ==> Less(s[i], s[j])
  }

  predicate Distinct(s: seq<string>) {
    forall i, j :: 0 <= i < j < |s| ==> s[i] != s[j]
  }

  function Members(s: seq<string>): (r: set<string>) {
    set i | 0 <= i < |s| :: s[i]
  }

  /** A set of names has only one increasing listing. */
  lemma {:induction false} ListingIsUnique(s: seq<string>, t: seq<string>)
    requires Increasing(s) && Increasing(t) && Members(s) == Members(t)
    ensures s == t
  {
    assert (s != [] ==> s[0] in Members(s)) && (t != [] ==> t[0] in Members(t));
    if s != [] && t != [] {
      HeadIsLeast(s, t);
      HeadIsLeast(t, s);
      LessIsStrict(s[0], t[0]);
      TailMembers(s);
      TailMembers(t);
      ListingIsUnique(s[1..], t[1..]);
      assert s == [s[0]] + s[1..] && t == [t[0]] + t[1..];
    }
  }

  lemma HeadIsLeast(s: seq<string>, t: seq<string>)
    requires s != [] && t != [] && Increasing(s) && Members(s) == Members(t)
    ensures s[0] == t[0] || Less(s[0], t[0])
  {
    assert t[0] in Members(t);
    var i :| 0 <= i < |s| && s[i] == t[0];
  }

  lemma TailMembers(s: seq<string>)
    requires s != [] && Increasing(s)
    ensures Increasing(s[1..]) && Members(s[1..]) == Members(s) - {s[0]}
  {
    var t := s[1..];
    forall x ensures x in Members(t) <==> x in Members(s) - {s[0]} {
      if x in Members(t) {
        var i :| 0 <= i < |t| && t[i] == x;
        assert s[i + 1] == x;
        LessIsStrict(s[0], s[i + 1]);
      }
      if x in Members(s) && x != s[0] {
        var i :| 0 <= i < |s| && s[i] == x;
        assert t[i - 1] == x;
      }
    }
  }

  /** sort.Strings, on names that are all different */
  method SortStrings(names: seq<string>) returns (sorted: seq<string>)
    requires Distinct(names)
    ensures Increasing(sorted) && Members(sorted) == Members(names)
  {
    sorted := [];
    var n := 0;
    while n < |names|
      invariant 0 <= n <= |names| && Increasing(sorted) && Members(sorted) == Members(names[..n])
    {
      assert names[n] !in Members(names[..n]);
      MembersOfOneMore(names, n);
      sorted := Insert(sorted, names[n]);
      n := n + 1;
    }
    assert names[..n] == names;
  }

  lemma MembersOfOneMore(s: seq<string>, n: nat)
    requires n < |s|
    ensures Members(s[..n + 1]) == Members(s[..n]) + {s[n]}
  {
    var a, b := s[..n], s[..n + 1];
    forall x ensures x in Members(b) <==> x in Members(a) || x == s[n] {
      if x in Members(a) {
        var i :| 0 <= i < |a| && a[i] == x;
        assert b[i] == x;
      }
      if x in Members(b) {
        var i :| 0 <= i < |b| && b[i] == x;
        assert i < n ==> a[i] == x;
      }
      assert b[n] == s[n];
    }
  }

  lemma AppendName(due: seq<string>, path: string)
    requires Distinct(due) && path !in Members(due)
    ensures Distinct(due + [path]) && Members(due + [path]) == Members(due) + {path}
  {
    var r := due + [path];
    assert forall i :: 0 <= i < |due| ==> due[i] in Members(due);
    MembersOfOneMore(r, |due|);
    assert r[..|due|] == due && r[..|due| + 1] == r;
  }

  method Insert(sorted: seq<string>, name: string) returns (r: seq<string>)
    requires Increasing(sorted) && name !in Members(sorted)
    ensures Increasing(r) && Members(r) == Members(sorted) + {name}
  {
    var k := 0;
    while k < |sorted| && Less(sorted[k], name)
      invariant 0 <= k <= |sorted| && forall i :: 0 <= i < k ==> Less(sorted[i], name)
    {
      k := k + 1;
    }
    r := sorted[..k] + [name] + sorted[k..];
    InsertedInOrder(sorted, k, name);
  }

  lemma InsertedInOrder(sorted: seq<string>, k: nat, name: string)
    requires Increasing(sorted) && k <= |sorted| && name !in Members(sorted)
    requires forall i :: 0 <= i < k ==> Less(sorted[i], name)
    requires k < |sorted| ==> !Less(sorted[k], name)
    ensures var r := sorted[..k] + [name] + sorted[k..]; Increasing(r) && Members(r) == Members(sorted) + {name}
  {
    forall i | k <= i < |sorted| ensures Less(name, sorted[i]) {
      assert sorted[k] in Members(sorted);
      LessIsTotal(sorted[k], name);
      if i > k {
        LessIsTransitive(name, sorted[k], sorted[i]);
      }
    }
    InsertedMembers(sorted, k, name);
  }

  lemma InsertedMembers(sorted: seq<string>, k: nat, name: string)
    requires k <= |sorted|
    ensures Members(sorted[..k] + [name] + sorted[k..]) == Members(sorted) + {name}
  {
    var r := sorted[..k] + [name] + sorted[k..];
    assert forall i :: 0 <= i < |sorted| ==> r[if i < k then i else i + 1] == sorted[i];
    assert r[k] == name;
    forall x ensures x in Members(r) <==> x in Members(sorted) || x == name {
      if x in Members(sorted) {
        var i :| 0 <= i < |sorted| && sorted[i] == x;
        assert r[if i < k then i else i + 1] == x;
      }
      if x in Members(r) {
        var i :| 0 <= i < |r| && r[i] == x;
        assert i < k ==> sorted[i] == x;
        assert i > k ==> sorted[i - 1] == x;
      }
    }
  }

  ghost predicate IsLeast(m: string, names: set<string>) {
    m in names && forall x :: x in names && x != m ==> Less(m, x)
  }

  lemma LeastOfMore(p: string, q: string, names: set<string>)
    requires p in names && IsLeast(q, names - {p})
    ensures IsLeast(p, names) || IsLeast(q, names)
  {
    LessIsTotal(p, q);
    if Less(p, q) {
      forall x | x in names && x != p && x != q ensures Less(p, x) {
        LessIsTransitive(p, q, x);
      }
    }
  }

  lemma {:induction false} LeastExists(names: set<string>)
    requires names != {}
    ensures exists m :: IsLeast(m, names)
  {
    var p :| p in names;
    if names == {p} {
      assert IsLeast(p, names);
    } else {
      assert names - {p} != {};
      LeastExists(names - {p});
      var q :| IsLeast(q, names - {p});
      LeastOfMore(p, q, names);
    }
  }

  /** The increasing listing of a set of names. */
  ghost function Listing(names: set<string>): (r: seq<string>)
    ensures Increasing(r) && Members(r) == names
  {
    if names == {} then assert Members([]) == {}; []
    else
      LeastExists(names);
      var m :| IsLeast(m, names);
      var rest := Listing(names - {m});
      assert forall i :: 0 <= i < |rest| ==> rest[i] in Members(rest);
      MembersCons(m, rest);
      [m] + rest
  }

  lemma ListingIsDistinct(names: set<string>)
    ensures Distinct(Listing(names))
  {
    var r := Listing(names);
    forall i, j | 0 <= i < j < |r| ensures r[i] != r[j] {
      LessIsStrict(r[i], r[j]);
    }
  }

  lemma MembersCons(m: string, rest: seq<string>)
    ensures Members([m] + rest) == Members(rest) + {m}
  {
    InsertedMembers(rest, 0, m);
    assert rest[..0] + [m] + rest[0..] == [m] + rest;
  }

  lemma {:induction false} ListingLength(names: set<string>)
    ensures |Listing(names)| == |names|
  {
    if names != {} {
      var rest := Listing(names)[1..];
      TailMembers(Listing(names));
      var m := Listing(names)[0];
      assert m in Members(Listing(names));
      ListingLength(names - {m});
      ListingIsUnique(rest, Listing(names - {m}));
    }
  }
}
