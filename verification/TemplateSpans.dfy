/** Rewriting a whole template: the closed {{ }} spans one after the other. */
module TemplateSpans {
  import opened Wrappers
  import opened Template

  /** The byte c stands twice at k. */
  predicate PairAt(s: string, c: char, k: nat) {
    k + 1 < |s| && s[k] == c && s[k + 1] == c
  }

  /** strings.Index from a position on: the first place where c stands twice, or -1. */
  function FindPair(s: string, c: char, from: nat): (r: int)
    requires from <= |s|
    ensures r == -1 || from <= r <= |s| - 2
    decreases |s| - from
  {
    if |s| - from < 2 then -1 else if PairAt(s, c, from) then from else FindPair(s, c, from + 1)
  }

  lemma {:induction false} FoundPair(s: string, c: char, from: nat)
    requires from <= |s|
    ensures var r := FindPair(s, c, from);
            && (r >= 0 ==> PairAt(s, c, r) && forall k: nat :: from <= k < r ==> !PairAt(s, c, k))
            && (r < 0 ==> forall k: nat :: from <= k ==> !PairAt(s, c, k))
    decreases |s| - from
  {
    if |s| - from >= 2 && !PairAt(s, c, from) {
      FoundPair(s, c, from + 1);
    }
  }

  lemma FirstPair(s: string, c: char, from: nat, n: nat)
    requires from <= n && PairAt(s, c, n) && forall k: nat :: from <= k < n ==> !PairAt(s, c, k)
    ensures FindPair(s, c, from) == n
  {
    FoundPair(s, c, from);
  }

  /** Where an expression begins and where it ends. */
  datatype Split = NoSpan | Span(open: nat, close: nat)

  /** The first closed span from pos on, as the scanner delimits it: from an opening pair to the next closing pair. */
  function FirstSpan(s: string, pos: nat): (r: Split)
    requires pos <= |s|
    ensures r.Span? ==> pos + 2 <= r.open <= r.close <= r.close + 2 <= |s|
  {
    var a := FindPair(s, '{', pos);
    if a < 0 then NoSpan
    else
      var b := FindPair(s, '}', a + 2);
      if b < 0 then NoSpan else Span(a + 2, b)
  }

  /** The template from pos on, with the rewriting of every expression. */
  function Injected(s: string, pos: nat, f: string -> string): (r: string)
    requires pos <= |s|
    decreases |s| - pos
  {
    match FirstSpan(s, pos)
    case NoSpan => s[pos..]
    case Span(a, b) => s[pos..a] + f(s[a..b]) + s[b..b + 2] + Injected(s, b + 2, f)
  }

  lemma InjectedSpan(s: string, pos: nat, a: nat, b: nat, f: string -> string)
    requires pos <= |s| && FirstSpan(s, pos) == Span(a, b)
    ensures Injected(s, pos, f) == s[pos..a] + f(s[a..b]) + s[b..b + 2] + Injected(s, b + 2, f)
  {
  }

  function Rewriter(arg: string): (f: string -> string)
    ensures forall e {:trigger f(e)} :: f(e) == Rewritten(e, Plain, arg)
  {
    e => Rewritten(e, Plain, arg)
  }

  /** The template that is compiled instead of the source. */
  function WithContext(source: string): (r: string) {
    Injected(source, 0, Rewriter(ARGUMENT))
  }

  /** injectNotesFilterContext */
  method InjectNotesFilterContext(source: string) returns (out: string)
    ensures out == WithContext(source)
  {
    ghost var f := Rewriter(ARGUMENT);
    out := [];
    var pos := 0;
    while pos < |source|
      invariant 0 <= pos <= |source|
      invariant out + Injected(source, pos, f) == Injected(source, 0, f)
    {
      out, pos := CopySpan(source, pos, out, ARGUMENT, f);
    }
    NothingLeft(source, f);
  }

  lemma NothingLeft(s: string, f: string -> string)
    ensures Injected(s, |s|, f) == []
  {
  }

  /** One turn of the loop: up to and including the next closed span, or everything that is left. */
  method CopySpan(source: string, pos: nat, before: string, arg: string, ghost f: string -> string)
    returns (out: string, pos': nat)
    requires pos < |source| && f == Rewriter(arg)
    ensures pos < pos' <= |source| && out + Injected(source, pos', f) == before + Injected(source, pos, f)
  {
    var start := FindPair(source, '{', pos);
    if start < 0 {
      NoSpanStep(source, pos, before, |source|, f);
      return before + source[pos..], |source|;
    }
    out := before + source[pos..start + 2];
    out, pos' := CopyExpression(source, pos, start + 2, out, before, arg, f);
  }

  /** The rest of the turn, behind the opening braces. */
  method CopyExpression(source: string, ghost pos: nat, from: nat, sofar: string, ghost before: string, arg: string,
                        ghost f: string -> string)
    returns (out: string, pos': nat)
    requires pos < from <= |source| && f == Rewriter(arg)
    requires from >= 2 && FindPair(source, '{', pos) == from - 2 && sofar == before + source[pos..from]
    ensures pos < pos' <= |source| && out + Injected(source, pos', f) == before + Injected(source, pos, f)
  {
    var end := FindPair(source, '}', from);
    assert FirstSpan(source, pos) == if end < 0 then NoSpan else Span(from, end);
    if end < 0 {
      NoSpanStep(source, pos, before, from, f);
      return sofar + source[from..], |source|;
    }
    var expression := RewriteNotesFilters(source[from..end], arg);
    SpanStep(source, pos, before, from, end, f);
    out := sofar + expression + "}}";
    pos' := end + 2;
  }

  lemma NoSpanStep(source: string, pos: nat, out: string, m: nat, f: string -> string)
    requires pos <= m <= |source| && FirstSpan(source, pos).NoSpan?
    ensures out + Injected(source, pos, f) == ((out + source[pos..m]) + source[m..]) + Injected(source, |source|, f)
    ensures out + Injected(source, pos, f) == (out + source[pos..]) + Injected(source, |source|, f)
  {
    assert source[pos..] == source[pos..m] + source[m..];
    NothingLeft(source, f);
  }

  lemma SpanStep(source: string, pos: nat, out: string, from: nat, to: nat, f: string -> string)
    requires pos <= |source| && FirstSpan(source, pos) == Span(from, to)
    ensures out + Injected(source, pos, f) ==
            ((out + source[pos..from]) + f(source[from..to]) + "}}") + Injected(source, to + 2, f)
  {
    InjectedSpan(source, pos, from, to, f);
    SpanParts(source, pos, from, to);
    assert source[to..to + 2] == "}}";
    Join4(out, source[pos..from], f(source[from..to]), source[to..to + 2], Injected(source, to + 2, f));
  }

  lemma Join4(out: string, a: string, b: string, c: string, d: string)
    ensures out + (a + b + c + d) == ((out + a) + b + c) + d
  {
  }

  // ---------- applying it twice ----------

  predicate ClosesAt(e: string, c: char, k: nat) {
    k < |e| && e[k] == c ==> k + 1 < |e| && e[k + 1] != c
  }

  /** Followed by a c, the text holds no pair of it before that. */
  predicate Closes(e: string, c: char) {
    forall k: nat :: k < |e| ==> ClosesAt(e, c, k)
  }

  /** The bytes up to and including the opening pair. */
  predicate Opens(head: string, c: char) {
    |head| >= 2 && PairAt(head, c, |head| - 2) && forall k: nat :: k < |head| - 2 ==> !PairAt(head, c, k)
  }

  lemma SpanParts(s: string, pos: nat, a: nat, b: nat)
    requires pos <= |s| && FirstSpan(s, pos) == Span(a, b)
    ensures Opens(s[pos..a], '{') && Closes(s[a..b], '}') && s[b] == '}' && s[b + 1] == '}'
  {
    var head, e := s[pos..a], s[a..b];
    FoundPair(s, '{', pos);
    FoundPair(s, '}', a);
    assert forall k: nat :: PairAt(head, '{', k) ==> PairAt(s, '{', pos + k);
    forall k: nat | k < |e| ensures ClosesAt(e, '}', k) {
      assert !PairAt(s, '}', a + k);
    }
  }

  /** And these parts make a span. */
  lemma SpanFound(r: string, m: nat, a: nat, b: nat)
    requires m <= a <= b <= b + 2 <= |r| && r[b] == '}' && r[b + 1] == '}'
    requires Opens(r[m..a], '{') && Closes(r[a..b], '}')
    ensures FirstSpan(r, m) == Span(a, b)
  {
    OpeningPair(r, m, a);
    ClosingPair(r, a, b);
  }

  lemma OpeningPair(r: string, m: nat, a: nat)
    requires m <= a <= |r| && Opens(r[m..a], '{')
    ensures FindPair(r, '{', m) == a - 2
  {
    var head := r[m..a];
    forall k: nat | m <= k < a - 2 ensures !PairAt(r, '{', k) {
      assert !PairAt(head, '{', k - m);
    }
    FirstPair(r, '{', m, a - 2);
  }

  lemma ClosingPair(r: string, a: nat, b: nat)
    requires a <= b <= b + 2 <= |r| && r[b] == '}' && r[b + 1] == '}' && Closes(r[a..b], '}')
    ensures FindPair(r, '}', a) == b
  {
    var e := r[a..b];
    forall k: nat | a <= k < b ensures !PairAt(r, '}', k) {
      assert ClosesAt(e, '}', k - a);
    }
    FirstPair(r, '}', a, b);
  }

  lemma {:induction false} RewritingCloses(s: string, q: Context, arg: string)
    requires Closes(s, '}') && '}' !in arg
    ensures Closes(Rewritten(s, q, arg), '}')
    decreases |s|
  {
    if s == [] {
    } else if q.Plain? && FilterLength(s).Some? {
      var n := FilterLength(s).value;
      ClosesTail(s, n);
      RewritingCloses(s[n..], Plain, arg);
      FilterHasNoBrace(s, n);
      ClosesAfter(s[..n] + Missing(s[n..], arg), Rewritten(s[n..], Plain, arg));
    } else {
      ClosesTail(s, 1);
      RewritingCloses(s[1..], Next(q, s[0]), arg);
      FirstByteKept(s[1..], Next(q, s[0]), arg);
      ClosesCons(s, s[1..], Rewritten(s[1..], Next(q, s[0]), arg));
    }
  }

  lemma ClosesTail(s: string, n: nat)
    requires n <= |s| && Closes(s, '}')
    ensures Closes(s[n..], '}')
  {
    var t := s[n..];
    forall k: nat | k < |t| ensures ClosesAt(t, '}', k) {
      assert ClosesAt(s, '}', n + k);
    }
  }

  lemma ClosesCons(s: string, t: string, rest: string)
    requires s != [] && t == s[1..] && Closes(s, '}') && Closes(rest, '}')
    requires (|rest| > 0 <==> t != []) && (t != [] ==> rest[0] == t[0])
    ensures Closes([s[0]] + rest, '}')
  {
    var r := [s[0]] + rest;
    forall k: nat | k < |r| ensures ClosesAt(r, '}', k) {
      assert k > 0 ==> ClosesAt(rest, '}', k - 1);
      assert ClosesAt(s, '}', 0);
    }
  }

  lemma FilterHasNoBrace(s: string, n: nat)
    requires FilterLength(s) == Some(n)
    ensures '}' !in s[..n]
  {
    var m, t := n - 9, s[1..];
    assert forall k :: 1 <= k < m ==> s[k] == t[k - 1] && IsBlank(t[k - 1]);
  }

  lemma ClosesAfter(a: string, b: string)
    requires '}' !in a && Closes(b, '}')
    ensures Closes(a + b, '}')
  {
    var r := a + b;
    forall k: nat | k < |r| ensures ClosesAt(r, '}', k) {
      assert k >= |a| ==> ClosesAt(b, '}', k - |a|);
      assert k < |a| ==> r[k] == a[k];
    }
  }

  lemma SamePair(r: string, m: nat, s: string, pos: nat, c: char, k: nat)
    requires m <= |r| && pos <= |s| && r[m..] == s[pos..]
    ensures PairAt(r, c, m + k) == PairAt(s, c, pos + k)
  {
    assert k < |s| - pos ==> r[m..][k] == r[m + k] && s[pos..][k] == s[pos + k];
    assert k + 1 < |s| - pos ==> r[m..][k + 1] == r[m + k + 1] && s[pos..][k + 1] == s[pos + k + 1];
  }

  /** Two texts with the same rest hold the same pairs in it. */
  lemma PairShift(r: string, m: nat, s: string, pos: nat, c: char, i: nat)
    requires m <= |r| && pos <= |s| && r[m..] == s[pos..] && i <= |s| - pos
    ensures FindPair(r, c, m + i) == if FindPair(s, c, pos + i) < 0 then -1 else FindPair(s, c, pos + i) - pos + m
  {
    var x, y := FindPair(r, c, m + i), FindPair(s, c, pos + i);
    FoundPair(r, c, m + i);
    FoundPair(s, c, pos + i);
    if x >= 0 {
      SamePair(r, m, s, pos, c, x - m);
    }
    if y >= 0 {
      SamePair(r, m, s, pos, c, y - pos);
    }
  }

  lemma NoSpanThere(r: string, m: nat, s: string, pos: nat)
    requires m <= |r| && pos <= |s| && r[m..] == s[pos..] && FirstSpan(s, pos).NoSpan?
    ensures FirstSpan(r, m).NoSpan?
  {
    PairShift(r, m, s, pos, '{', 0);
    if FindPair(s, '{', pos) >= 0 {
      PairShift(r, m, s, pos, '}', FindPair(s, '{', pos) + 2 - pos);
    }
  }

  /** Applying f once more changes nothing. */
  ghost predicate Settles(f: string -> string) {
    forall e {:trigger f(f(e))} :: f(f(e)) == f(e)
  }

  ghost predicate KeepsClosed(f: string -> string) {
    forall e {:trigger f(e)} :: Closes(e, '}') ==> Closes(f(e), '}')
  }

  /** Read from m on, a text that ends with a result is left alone there. */
  lemma {:induction false} InjectingSettles(s: string, pos: nat, r: string, m: nat, f: string -> string)
    requires pos <= |s| && m <= |r| && r[m..] == Injected(s, pos, f) && Settles(f) && KeepsClosed(f)
    ensures Injected(r, m, f) == r[m..]
    decreases |s| - pos
  {
    hide *;
    if FirstSpan(s, pos).Span? {
      var a, b := FirstSpan(s, pos).open, FirstSpan(s, pos).close;
      var a', b' := ResultParts(s, pos, a, b, r, m, f);
      InjectingSettles(s, b + 2, r, b' + 2, f);
      SpanUnchanged(r, m, a', b', f);
    } else {
      RestSettles(s, pos, r, m, f);
    }
  }

  lemma RestSettles(s: string, pos: nat, r: string, m: nat, f: string -> string)
    requires pos <= |s| && m <= |r| && FirstSpan(s, pos).NoSpan? && r[m..] == Injected(s, pos, f)
    ensures Injected(r, m, f) == r[m..]
  {
    NoSpanThere(r, m, s, pos);
  }

  /** Where the parts of a rewritten span are in the result. */
  lemma ResultParts(s: string, pos: nat, a: nat, b: nat, r: string, m: nat, f: string -> string) returns (a': nat, b': nat)
    requires pos <= |s| && m <= |r| && r[m..] == Injected(s, pos, f) && Settles(f) && KeepsClosed(f)
    requires FirstSpan(s, pos) == Span(a, b)
    ensures m <= a' <= b' <= b' + 2 <= |r| && FirstSpan(r, m) == Span(a', b') && f(r[a'..b']) == r[a'..b']
    ensures r[b' + 2..] == Injected(s, b + 2, f)
  {
    var e := s[a..b];
    a', b' := m + (a - pos), m + (a - pos) + |f(e)|;
    InjectedSpan(s, pos, a, b, f);
    SpanParts(s, pos, a, b);
    PartsOf(r, m, a', b', s[pos..a], f(e), s[b..b + 2], Injected(s, b + 2, f));
    assert f(f(e)) == f(e);
    SpanFound(r, m, a', b');
  }

  lemma PartsOf(r: string, m: nat, a: nat, b: nat, head: string, e: string, close: string, tail: string)
    requires m <= |r| && r[m..] == head + e + close + tail && a == m + |head| && b == a + |e| && |close| == 2
    ensures b + 2 <= |r| && r[m..a] == head && r[a..b] == e && r[b..b + 2] == close && r[b + 2..] == tail
    ensures r[b] == close[0] && r[b + 1] == close[1]
  {
    var t := r[m..];
    assert forall k :: 0 <= k < |t| ==> r[m + k] == t[k];
    assert r[m..a] == t[..|head|] && r[a..b] == t[|head|..|head| + |e|];
    assert r[b..b + 2] == t[|head| + |e|..|head| + |e| + 2] && r[b + 2..] == t[|head| + |e| + 2..];
  }

  lemma SpanUnchanged(r: string, m: nat, a: nat, b: nat, f: string -> string)
    requires m <= |r| && FirstSpan(r, m) == Span(a, b) && f(r[a..b]) == r[a..b] && Injected(r, b + 2, f) == r[b + 2..]
    ensures Injected(r, m, f) == r[m..]
  {
    InjectedSpan(r, m, a, b, f);
    FourParts(r, m, a, b);
  }

  lemma FourParts(r: string, m: nat, a: nat, b: nat)
    requires m <= a <= b <= b + 2 <= |r|
    ensures r[m..a] + r[a..b] + r[b..b + 2] + r[b + 2..] == r[m..]
  {
  }

  /** Rewriting a template twice is rewriting it once. */
  lemma RewritingTwice(source: string)
    ensures WithContext(WithContext(source)) == WithContext(source)
  {
    var arg := ARGUMENT;
    var f := Rewriter(arg);
    ArgumentIsFit();
    forall e ensures f(f(e)) == f(e) && (Closes(e, '}') ==> Closes(f(e), '}')) {
      RewriterSettles(e, arg);
    }
    var r := Injected(source, 0, f);
    assert r[0..] == r;
    InjectingSettles(source, 0, r, 0, f);
  }

  lemma RewriterSettles(e: string, arg: string)
    requires Fit(arg)
    ensures Rewritten(Rewritten(e, Plain, arg), Plain, arg) == Rewritten(e, Plain, arg)
    ensures Closes(e, '}') ==> Closes(Rewritten(e, Plain, arg), '}')
  {
    RewritingIsIdempotent(e, Plain, arg);
    if Closes(e, '}') {
      RewritingCloses(e, Plain, arg);
    }
  }

  /** The argument that is put in is fit for all of this. */
  lemma ArgumentIsFit()
    ensures Fit(ARGUMENT)
  {
    var a := ARGUMENT;
    assert forall k :: 0 <= k < |a| ==> a[k] == ':' || a[k] == '_' || 'a' <= a[k] <= 'z';
  }

  // ---------- exactly where the argument goes ----------

  /** The positions from pos on behind which the argument is missing: those of the next span's expression,
      and those of what follows the span. */
  function Places(s: string, pos: nat): (r: set<nat>)
    requires pos <= |s|
    decreases |s| - pos
  {
    match FirstSpan(s, pos)
    case NoSpan => {}
    case Span(a, b) => Moved(ArgumentPlaces(s[a..b]), a) + Places(s, b + 2)
  }

  function Moved(places: set<nat>, start: nat): (r: set<nat>)
    ensures forall k :: k in r <==> k >= start && k - start in places
  {
    set k | k in places :: start + k
  }

  lemma {:induction false} PlacesInRange(s: string, pos: nat)
    requires pos <= |s|
    ensures forall k :: k in Places(s, pos) ==> pos < k <= |s|
    decreases |s| - pos
  {
    if FirstSpan(s, pos).Span? {
      PlacesInRange(s, FirstSpan(s, pos).close + 2);
    }
  }

  lemma PlacesOfSpan(s: string, pos: nat, a: nat, b: nat)
    requires pos <= |s| && FirstSpan(s, pos) == Span(a, b)
    ensures forall k :: k in Places(s, pos) <==> (a < k <= b && k - a in ArgumentPlaces(s[a..b])) || k in Places(s, b + 2)
  {
    hide *;
    SpanPlaces(s, pos, a, b);
    PlacesWithin(s[a..b]);
  }

  lemma SpanPlaces(s: string, pos: nat, a: nat, b: nat)
    requires pos <= |s| && FirstSpan(s, pos) == Span(a, b)
    ensures Places(s, pos) == Moved(ArgumentPlaces(s[a..b]), a) + Places(s, b + 2)
  {
    hide FirstSpan, ArgumentPlaces;
  }

  lemma PlacesWithin(e: string)
    ensures forall k :: k in ArgumentPlaces(e) ==> 0 < k <= |e|
  {
    hide FilterEndsAt, ColonNext;
  }

  ghost predicate Weaves(f: string -> string, arg: string) {
    forall e {:trigger f(e)} :: f(e) == Woven(e, ArgumentPlaces(e), 0, |e|, arg)
  }

  /** From pos on, `at` holds exactly the places that lack the argument. */
  ghost predicate AreThePlaces(s: string, at: set<nat>, pos: nat)
    requires pos <= |s|
  {
    forall k :: pos < k ==> (k in at <==> k in Places(s, pos))
  }

  /** The result is the source with the argument put in at exactly these places, every byte kept in order. */
  lemma {:induction false} InjectedIsWoven(s: string, at: set<nat>, pos: nat, f: string -> string, arg: string)
    requires pos <= |s| && Weaves(f, arg) && AreThePlaces(s, at, pos)
    ensures Injected(s, pos, f) == Woven(s, at, pos, |s|, arg)
    decreases |s| - pos
  {
    hide *;
    if FirstSpan(s, pos).NoSpan? {
      RestIsWoven(s, at, pos, f, arg);
    } else {
      var a, b := FirstSpan(s, pos).open, FirstSpan(s, pos).close;
      PlacesBeyond(s, at, pos, a, b);
      InjectedIsWoven(s, at, b + 2, f, arg);
      SpanWoven(s, at, pos, a, b, f, arg);
    }
  }

  lemma RestIsWoven(s: string, at: set<nat>, pos: nat, f: string -> string, arg: string)
    requires pos <= |s| && FirstSpan(s, pos).NoSpan? && AreThePlaces(s, at, pos)
    ensures Injected(s, pos, f) == Woven(s, at, pos, |s|, arg)
  {
    WovenPlain(s, at, pos, |s|, arg);
    assert s[pos..] == s[pos..|s|];
  }

  lemma PlacesBeyond(s: string, at: set<nat>, pos: nat, a: nat, b: nat)
    requires pos <= |s| && FirstSpan(s, pos) == Span(a, b) && AreThePlaces(s, at, pos)
    ensures AreThePlaces(s, at, b + 2)
  {
    hide FirstSpan, Places;
    PlacesOfSpan(s, pos, a, b);
  }

  lemma PlacesInside(s: string, at: set<nat>, pos: nat, a: nat, b: nat)
    requires pos <= |s| && FirstSpan(s, pos) == Span(a, b) && AreThePlaces(s, at, pos)
    ensures forall k :: pos < k <= b + 2 ==> (k in at <==> a < k <= b && k - a in ArgumentPlaces(s[a..b]))
  {
    hide FirstSpan, Places;
    PlacesOfSpan(s, pos, a, b);
    PlacesInRange(s, b + 2);
  }

  lemma SpanWoven(s: string, at: set<nat>, pos: nat, a: nat, b: nat, f: string -> string, arg: string)
    requires pos <= |s| && Weaves(f, arg) && FirstSpan(s, pos) == Span(a, b)
    requires AreThePlaces(s, at, pos)
    requires Injected(s, b + 2, f) == Woven(s, at, b + 2, |s|, arg)
    ensures Injected(s, pos, f) == Woven(s, at, pos, |s|, arg)
  {
    hide FirstSpan, Places, Woven, Injected;
    InjectedSpan(s, pos, a, b, f);
    PlacesInside(s, at, pos, a, b);
    SpanIsWoven(s, at, pos, a, b, ArgumentPlaces(s[a..b]), arg);
    assert f(s[a..b]) == Woven(s[a..b], ArgumentPlaces(s[a..b]), 0, b - a, arg);
  }

  lemma SpanIsWoven(s: string, at: set<nat>, pos: nat, a: nat, b: nat, inside: set<nat>, arg: string)
    requires pos <= a <= b <= b + 2 <= |s|
    requires forall k :: pos < k <= b + 2 ==> (k in at <==> a < k <= b && k - a in inside)
    ensures Woven(s, at, pos, |s|, arg) ==
            s[pos..a] + Woven(s[a..b], inside, 0, b - a, arg) + s[b..b + 2] + Woven(s, at, b + 2, |s|, arg)
  {
    hide Woven;
    WovenPlain(s, at, pos, a, arg);
    WovenShift(s, at, a, s[a..b], inside, 0, arg);
    WovenPlain(s, at, b, b + 2, arg);
    WovenThreeCuts(s, at, pos, a, b, b + 2, arg);
  }

  lemma RewriterWeaves(arg: string)
    ensures Weaves(Rewriter(arg), arg)
  {
    var f := Rewriter(arg);
    forall e ensures f(e) == Woven(e, ArgumentPlaces(e), 0, |e|, arg) {
      RewritingInsertsExactly(e, arg);
    }
  }

  /** The whole result: the source, with the argument in exactly the places that lack it. */
  lemma ContextInsertedExactly(source: string)
    ensures WithContext(source) == Woven(source, Places(source, 0), 0, |source|, ARGUMENT)
  {
    hide Rewriter, Places, Woven, Injected, Weaves;
    var arg := ARGUMENT;
    RewriterWeaves(arg);
    InjectedIsWoven(source, Places(source, 0), 0, Rewriter(arg), arg);
  }

  lemma WovenThreeCuts(s: string, at: set<nat>, pos: nat, a: nat, b: nat, c: nat, arg: string)
    requires pos <= a <= b <= c <= |s|
    ensures Woven(s, at, pos, |s|, arg) ==
            Woven(s, at, pos, a, arg) + Woven(s, at, a, b, arg) + Woven(s, at, b, c, arg) + Woven(s, at, c, |s|, arg)
  {
    WovenSplit(s, at, pos, a, |s|, arg);
    WovenSplit(s, at, a, b, |s|, arg);
    WovenSplit(s, at, b, c, |s|, arg);
    Join3(Woven(s, at, pos, a, arg), Woven(s, at, a, b, arg), Woven(s, at, b, c, arg), Woven(s, at, c, |s|, arg));
  }

  lemma Join3(a: string, b: string, c: string, d: string)
    ensures a + (b + (c + d)) == a + b + c + d
  {
  }

  /** How many of the first k bytes have the argument put in behind them. */
  function Before(at: set<nat>, k: nat): (n: nat) {
    if k == 0 then 0 else Before(at, k - 1) + if k in at then 1 else 0
  }

  /** Where byte k of the source is found in the result. */
  lemma {:induction false} ByteKept(s: string, at: set<nat>, k: nat, arg: string)
    requires k < |s|
    ensures var j := k + |arg| * Before(at, k); j < |Woven(s, at, 0, |s|, arg)| && Woven(s, at, 0, |s|, arg)[j] == s[k]
  {
    WovenSplit(s, at, 0, k, |s|, arg);
    WovenLength(s, at, k, arg);
    WovenOne(s, at, k, |s|, arg);
  }

  lemma {:induction false} WovenLength(s: string, at: set<nat>, k: nat, arg: string)
    requires k <= |s|
    ensures |Woven(s, at, 0, k, arg)| == k + |arg| * Before(at, k)
  {
    if k > 0 {
      WovenLength(s, at, k - 1, arg);
      WovenSplit(s, at, 0, k - 1, k, arg);
      assert Woven(s, at, k - 1, k, arg) == [s[k - 1]] + (if k in at then arg else []) + [];
      OneMore(|arg|, Before(at, k - 1));
    }
  }

  lemma OneMore(x: nat, n: nat)
    ensures x * (n + 1) == x * n + x
  {
  }
}
