/** Turning a URI list into nodes with unique tags, and building the node part of a snapshot from them. */
module Subscription {
  import opened Wrappers
  import opened Decimal

  /** A node object: its "tag" when that is a string, "" otherwise, and everything else. */
  datatype Node = Node(tag: string, rest: string)

  const MAX_SKIP_SAMPLES: nat := 5

  // ---------- lines ----------

  /** unicode.IsSpace */
  predicate IsSpace(c: char) {
    var n := c as int;
    (9 <= n <= 13) || n == 32 || n == 0x85 || n == 0xA0 || n == 0x1680 || (0x2000 <= n <= 0x200A)
    || n == 0x2028 || n == 0x2029 || n == 0x202F || n == 0x205F || n == 0x3000
  }

  function TrimLeft(s: string): (r: string)
    ensures r == [] || !IsSpace(r[0])
    ensures |r| <= |s| && r == s[|s| - |r|..]
  {
    if s != [] && IsSpace(s[0]) then TrimLeft(s[1..]) else s
  }

  function TrimRight(s: string): (r: string)
    ensures r == [] || !IsSpace(r[|r| - 1])
    ensures |r| <= |s| && r == s[..|r|]
  {
    if s != [] && IsSpace(s[|s| - 1]) then TrimRight(s[..|s| - 1]) else s
  }

  function Trim(s: string): (r: string) {
    TrimRight(TrimLeft(s))
  }

  /** The maximal pieces without line breaks, from i on; `piece` is the current one. */
  function Pieces(s: string, i: nat, piece: string): (r: seq<string>)
    requires i <= |s|
    decreases |s| - i
  {
    if i == |s| then (if piece == [] then [] else [piece])
    else if s[i] == '\n' || s[i] == '\r' then (if piece == [] then [] else [piece]) + Pieces(s, i + 1, [])
    else Pieces(s, i + 1, piece + [s[i]])
  }

  predicate IsComment(s: string) {
    (|s| >= 1 && s[0] == '#') || (|s| >= 2 && s[0] == '/' && s[1] == '/')
  }

  function KeepLines(raw: seq<string>): (r: seq<string>)
    ensures |r| <= |raw|
    ensures forall l :: l in r ==> l != [] && !IsComment(l)
  {
    if raw == [] then []
    else
      var line := Trim(raw[0]);
      (if line == [] || IsComment(line) then [] else [line]) + KeepLines(raw[1..])
  }

  function SplitLines(s: string): (r: seq<string>)
    ensures forall l :: l in r ==> l != [] && !IsComment(l)
  {
    KeepLines(Pieces(s, 0, []))
  }

  /** A line splitLines gives back as it is. */
  predicate Clean(l: string) {
    l != [] && !IsComment(l) && !IsSpace(l[0]) && !IsSpace(l[|l| - 1]) && '\n' !in l && '\r' !in l
  }

  function Joined(lines: seq<string>): (s: string) {
    if lines == [] then "" else lines[0] + "\n" + Joined(lines[1..])
  }

  lemma {:induction false} PiecesOfLine(s: string, i: nat, piece: string, line: string)
    requires i + |line| < |s| && s[i..i + |line|] == line && s[i + |line|] == '\n' && '\n' !in line && '\r' !in line
    requires piece + line != []
    ensures Pieces(s, i, piece) == [piece + line] + Pieces(s, i + |line| + 1, [])
    decreases |line|
  {
    if line == [] {
      assert piece + line == piece;
    } else {
      assert s[i] == line[0] && s[i] in line;
      assert s[i + 1..i + |line|] == line[1..];
      assert (piece + [s[i]]) + line[1..] == piece + line;
      PiecesOfLine(s, i + 1, piece + [s[i]], line[1..]);
    }
  }

  lemma {:induction false} PiecesOfJoined(s: string, i: nat, lines: seq<string>)
    requires i <= |s| && s[i..] == Joined(lines) && forall l :: l in lines ==> Clean(l)
    ensures Pieces(s, i, []) == lines
    decreases |lines|
  {
    if lines != [] {
      var line := lines[0];
      assert line in lines;
      assert s[i..][..|line|] == line && s[i..][|line|] == '\n';
      assert s[i..i + |line|] == line && s[i + |line|] == '\n';
      assert [] + line == line;
      PiecesOfLine(s, i, [], line);
      assert s[i + |line| + 1..] == s[i..][|line| + 1..] == Joined(lines[1..]);
      PiecesOfJoined(s, i + |line| + 1, lines[1..]);
    }
  }

  lemma {:induction false} KeepsCleanLines(lines: seq<string>)
    requires forall l :: l in lines ==> Clean(l)
    ensures KeepLines(lines) == lines
  {
    if lines != [] {
      assert lines[0] in lines;
      assert Trim(lines[0]) == lines[0];
      KeepsCleanLines(lines[1..]);
    }
  }

  /** Clean lines written one per line are read back exactly. */
  lemma LinesReadBack(lines: seq<string>)
    requires forall l :: l in lines ==> Clean(l)
    ensures SplitLines(Joined(lines)) == lines
  {
    var s := Joined(lines);
    assert s[0..] == s;
    PiecesOfJoined(s, 0, lines);
    KeepsCleanLines(lines);
  }

  predicate IsBreak(c: char) {
    c == '\n' || c == '\r'
  }

  predicate NoBreak(s: string) {
    forall i :: 0 <= i < |s| ==> !IsBreak(s[i])
  }

  predicate AllBreaks(s: string) {
    forall i :: 0 <= i < |s| ==> IsBreak(s[i])
  }

  /** Lines, with or without anything on them, and behind each its line breaks. */
  datatype Written = Written(line: string, breaks: string)

  function TextOf(ws: seq<Written>): (s: string) {
    if ws == [] then "" else ws[0].line + ws[0].breaks + TextOf(ws[1..])
  }

  function LinesOf(ws: seq<Written>): (r: seq<string>) {
    seq(|ws|, i requires 0 <= i < |ws| => ws[i].line)
  }

  /** Only behind the last line there need be no break. */
  predicate WellWritten(ws: seq<Written>) {
    && (forall i :: 0 <= i < |ws| ==> NoBreak(ws[i].line) && AllBreaks(ws[i].breaks))
    && (forall i :: 0 <= i < |ws| - 1 ==> ws[i].breaks != [])
  }

  function NonBlank(lines: seq<string>): (r: seq<string>) {
    if lines == [] then [] else (if lines[0] == [] then [] else [lines[0]]) + NonBlank(lines[1..])
  }

  lemma {:induction false} PiecesPassLine(s: string, i: nat, piece: string, line: string)
    requires i + |line| <= |s| && s[i..i + |line|] == line && NoBreak(line)
    ensures Pieces(s, i, piece) == Pieces(s, i + |line|, piece + line)
    decreases |line|
  {
    if line == [] {
      assert piece + line == piece;
    } else {
      assert s[i] == line[0] && s[i + 1..i + |line|] == line[1..];
      assert (piece + [s[i]]) + line[1..] == piece + line;
      PiecesPassLine(s, i + 1, piece + [s[i]], line[1..]);
    }
  }

  lemma {:induction false} PiecesPassBreaks(s: string, i: nat, breaks: string)
    requires i + |breaks| <= |s| && s[i..i + |breaks|] == breaks && AllBreaks(breaks)
    ensures Pieces(s, i, []) == Pieces(s, i + |breaks|, [])
    decreases |breaks|
  {
    if breaks != [] {
      assert s[i] == breaks[0] && s[i + 1..i + |breaks|] == breaks[1..];
      PiecesPassBreaks(s, i + 1, breaks[1..]);
      assert [] + Pieces(s, i + 1, []) == Pieces(s, i + 1, []);
    }
  }

  lemma PiecesOfOne(s: string, i: nat, line: string, breaks: string)
    requires i + |line| + |breaks| <= |s| && NoBreak(line) && AllBreaks(breaks)
    requires s[i..i + |line|] == line && s[i + |line|..i + |line| + |breaks|] == breaks
    requires breaks == [] ==> i + |line| == |s|
    ensures Pieces(s, i, []) == (if line == [] then [] else [line]) + Pieces(s, i + |line| + |breaks|, [])
  {
    var j := i + |line|;
    assert [] + line == line;
    PiecesPassLine(s, i, [], line);
    if breaks != [] {
      assert s[j] == breaks[0] && s[j + 1..j + |breaks|] == breaks[1..];
      PiecesPassBreaks(s, j + 1, breaks[1..]);
    }
  }

  lemma {:induction false} PiecesOfText(s: string, i: nat, ws: seq<Written>)
    requires i <= |s| && s[i..] == TextOf(ws) && WellWritten(ws)
    ensures Pieces(s, i, []) == NonBlank(LinesOf(ws))
    decreases |ws|
  {
    if ws != [] {
      var line, breaks := ws[0].line, ws[0].breaks;
      assert LinesOf(ws)[1..] == LinesOf(ws[1..]) && LinesOf(ws)[0] == line;
      hide Pieces, NoBreak, AllBreaks, TextOf, LinesOf;
      TextBegins(s, i, ws);
      PiecesOfOne(s, i, line, breaks);
      PiecesOfText(s, i + |line| + |breaks|, ws[1..]);
    }
  }

  lemma TextBegins(s: string, i: nat, ws: seq<Written>)
    requires ws != [] && i <= |s| && s[i..] == TextOf(ws)
    ensures var j, k := i + |ws[0].line|, i + |ws[0].line| + |ws[0].breaks|;
            && k <= |s| && s[i..j] == ws[0].line && s[j..k] == ws[0].breaks && s[k..] == TextOf(ws[1..])
            && (|ws| == 1 ==> k == |s|)
  {
    var t, n, m := s[i..], |ws[0].line|, |ws[0].line| + |ws[0].breaks|;
    assert |ws| == 1 ==> ws[1..] == [];
    assert t[..n] == ws[0].line && t[n..m] == ws[0].breaks && t[m..] == TextOf(ws[1..]);
    assert s[i..i + n] == t[..n] && s[i + n..i + m] == t[n..m] && s[i + m..] == t[m..];
  }

  lemma {:induction false} KeptWithoutBlank(lines: seq<string>)
    ensures KeepLines(NonBlank(lines)) == KeepLines(lines)
  {
    if lines != [] {
      KeptWithoutBlank(lines[1..]);
      var rest := NonBlank(lines[1..]);
      assert ([lines[0]] + rest)[1..] == rest && [] + rest == rest;
      assert [] + KeepLines(lines[1..]) == KeepLines(lines[1..]);
    }
  }

  /** Whatever the line breaks are, splitLines works on the lines between them. */
  lemma AnyBreaksSplit(ws: seq<Written>)
    requires WellWritten(ws)
    ensures SplitLines(TextOf(ws)) == KeepLines(LinesOf(ws))
  {
    var s := TextOf(ws);
    assert s[0..] == s;
    PiecesOfText(s, 0, ws);
    KeptWithoutBlank(LinesOf(ws));
  }

  predicate AllSpace(s: string) {
    forall i :: 0 <= i < |s| ==> IsSpace(s[i])
  }

  lemma {:induction false} TrimmedLeft(before: string, s: string)
    requires AllSpace(before) && (s == [] || !IsSpace(s[0]))
    ensures TrimLeft(before + s) == s
  {
    if before == [] {
      assert before + s == s;
    } else {
      assert (before + s)[1..] == before[1..] + s;
      TrimmedLeft(before[1..], s);
    }
  }

  lemma {:induction false} TrimmedRight(s: string, behind: string)
    requires AllSpace(behind) && (s == [] || !IsSpace(s[|s| - 1]))
    ensures TrimRight(s + behind) == s
  {
    if behind == [] {
      assert s + behind == s;
    } else {
      var n := |behind| - 1;
      assert (s + behind)[..|s + behind| - 1] == s + behind[..n];
      TrimmedRight(s, behind[..n]);
    }
  }

  /** Blanks around a line are taken off, and nothing else is. */
  lemma TrimTakesBlanksOff(before: string, s: string, behind: string)
    requires AllSpace(before) && AllSpace(behind) && (s == [] || (!IsSpace(s[0]) && !IsSpace(s[|s| - 1])))
    ensures Trim(before + s + behind) == s
  {
    if s == [] {
      assert before + s + behind == (before + behind) + [];
      TrimmedLeft(before + behind, []);
    } else {
      assert before + s + behind == before + (s + behind);
      TrimmedLeft(before, s + behind);
      TrimmedRight(s, behind);
    }
  }

  // ---------- picking in order ----------

  function PickedBefore(picked: set<nat>, i: nat): (r: set<nat>) {
    set j | j in picked && j < i
  }

  /** How many of the picked places come before place i: what stands there stands there in a list of what is picked. */
  function Place(picked: set<nat>, i: nat): (n: nat) {
    |PickedBefore(picked, i)|
  }

  /** One more place behind all the others. */
  lemma OnePickMore(picked: set<nat>, n: nat)
    requires forall i :: i in picked ==> i < n
    ensures Place(picked + {n}, n) == |picked| && |picked + {n}| == |picked| + 1
    ensures forall i :: i in picked ==> Place(picked + {n}, i) == Place(picked, i) < |picked|
  {
    assert PickedBefore(picked + {n}, n) == picked;
    forall i | i in picked ensures Place(picked + {n}, i) == Place(picked, i) < |picked| {
      assert PickedBefore(picked + {n}, i) == PickedBefore(picked, i);
      assert PickedBefore(picked, i) <= picked - {i};
      SubsetSize(PickedBefore(picked, i), picked - {i});
    }
  }

  lemma {:induction false} SubsetSize(a: set<nat>, b: set<nat>)
    requires a <= b
    ensures |a| <= |b|
    decreases a
  {
    if a != {} {
      var x :| x in a;
      SubsetSize(a - {x}, b - {x});
    }
  }

  /** `to` lists these values, those at the picked places, in order. */
  ghost predicate Lists<T>(picked: set<nat>, values: seq<T>, to: seq<T>) {
    && |to| == |picked|
    && forall i :: i in picked ==> i < |values| && Place(picked, i) < |to| && to[Place(picked, i)] == values[i]
  }

  lemma ListsOneMore<T>(picked: set<nat>, values: seq<T>, to: seq<T>, values': seq<T>)
    requires Lists(picked, values, to) && |values'| == |values| + 1 && values'[..|values|] == values
    ensures Lists(picked, values', to)
    ensures Lists(picked + {|values|}, values', to + [values'[|values|]])
  {
    OnePickMore(picked, |values|);
    assert forall i :: i in picked ==> values'[..|values|][i] == values'[i];
  }

  function Trimmed(lines: seq<string>): (r: seq<string>) {
    seq(|lines|, i requires 0 <= i < |lines| => Trim(lines[i]))
  }

  /** The lines that say something, once the blanks around them are gone. */
  function Telling(trimmed: seq<string>): (r: set<nat>) {
    set i | 0 <= i < |trimmed| && trimmed[i] != [] && !IsComment(trimmed[i])
  }

  /** Exactly these are kept, without the blanks, in order. */
  lemma {:induction false} TellingLinesAreKept(lines: seq<string>)
    ensures Lists(Telling(Trimmed(lines)), Trimmed(lines), KeepLines(lines))
  {
    if lines == [] {
      assert Telling(Trimmed(lines)) == {};
    } else {
      var n := |lines| - 1;
      var front := lines[..n];
      var was, now := Trimmed(front), Trimmed(lines);
      assert now[..n] == was && now[n] == Trim(lines[n]);
      assert lines == front + [lines[n]];
      hide *;
      TellingLinesAreKept(front);
      KeptInTwo(front, [lines[n]]);
      TellingOneMore(was, now);
      OneKept(lines[n]);
      ListsOneMore(Telling(was), was, KeepLines(front), now);
      assert KeepLines(front) + [] == KeepLines(front);
    }
  }

  lemma TellingOneMore(was: seq<string>, now: seq<string>)
    requires |now| == |was| + 1 && now[..|was|] == was
    ensures Telling(now) ==
            if now[|was|] != [] && !IsComment(now[|was|]) then Telling(was) + {|was|} else Telling(was)
  {
    assert forall i :: 0 <= i < |was| ==> now[..|was|][i] == now[i];
  }

  lemma OneKept(line: string)
    ensures KeepLines([line]) == if Trim(line) == [] || IsComment(Trim(line)) then [] else [Trim(line)]
  {
    assert [line][1..] == [];
  }

  lemma {:induction false} KeptInTwo(a: seq<string>, b: seq<string>)
    ensures KeepLines(a + b) == KeepLines(a) + KeepLines(b)
  {
    hide Trim, IsComment;
    if a == [] {
      assert a + b == b && [] + KeepLines(b) == KeepLines(b);
    } else {
      assert (a + b)[1..] == a[1..] + b && (a + b)[0] == a[0];
      KeptInTwo(a[1..], b);
      var line := Trim(a[0]);
      var first := if line == [] || IsComment(line) then [] else [line];
      assert first + (KeepLines(a[1..]) + KeepLines(b)) == (first + KeepLines(a[1..])) + KeepLines(b);
    }
  }

  // ---------- unique tags ----------

  function Candidate(tag: string, n: nat): (s: string)
    ensures s != []
  {
    tag + " #" + Dec(n)
  }

  lemma CandidateIsInjective(tag: string, m: nat, n: nat)
    requires Candidate(tag, m) == Candidate(tag, n)
    ensures m == n
  {
    var k := |tag| + 2;
    assert Candidate(tag, m)[k..] == Dec(m) && Candidate(tag, n)[k..] == Dec(n);
    DecIsInjective(m, n);
  }

  /** The tag a node starts from: its own, or its 1-based place when it has none. */
  function BaseTag(tag: string, i: nat): (s: string)
    ensures s != []
  {
    if tag == [] then "node-" + Dec(i + 1) else tag
  }

  /** The tags that are taken decide: the base tag if it is free, else the base tag with the smallest number that is. */
  ghost predicate TagFor(taken: set<string>, base: string, tag: string) {
    if base !in taken then tag == base
    else exists n: nat :: n > 0 && tag == Candidate(base, n) && tag !in taken && AllTaken(taken, base, n)
  }

  /** Numbers from 1 to n - 1. */
  ghost predicate AllTaken(taken: set<string>, base: string, n: nat) {
    forall m: nat :: 0 < m < n ==> Candidate(base, m) in taken
  }

  function Tags(nodes: seq<Node>): (r: set<string>) {
    set i | 0 <= i < |nodes| :: nodes[i].tag
  }

  /** A final tag is the base tag, or the base tag with a positive number. */
  ghost predicate DerivedFrom(base: string, tag: string) {
    tag == base || exists n: nat :: n > 0 && tag == Candidate(base, n)
  }

  predicate Distinct(nodes: seq<Node>) {
    forall i, j :: 0 <= i < j < |nodes| ==> nodes[i].tag != nodes[j].tag
  }

  predicate NonEmpty(nodes: seq<Node>) {
    forall i :: 0 <= i < |nodes| ==> nodes[i].tag != []
  }

  /** The search for a free "tag #n". Only finitely many names are taken, so it ends. */
  method FreeCandidate(tag: string, start: nat, seen: map<string, nat>) returns (candidate: string, ghost n: nat)
    ensures candidate !in seen && start <= n && candidate == Candidate(tag, n)
    ensures forall m: nat :: start <= m < n ==> Candidate(tag, m) in seen
  {
    var k := start;
    candidate := Candidate(tag, k);
    ghost var tried: set<string> := {};
    while candidate in seen
      invariant start <= k && candidate == Candidate(tag, k)
      invariant forall m: nat :: start <= m < k ==> Candidate(tag, m) in seen
      invariant tried <= seen.Keys && |tried| == k - start
      invariant forall s :: s in tried ==> exists m: nat :: m < k && s == Candidate(tag, m)
      decreases |seen.Keys| - |tried|
    {
      if candidate in tried {
        var m: nat :| m < k && candidate == Candidate(tag, m);
        CandidateIsInjective(tag, m, k);
        assert false;
      }
      FitsInside(tried + {candidate}, seen.Keys);
      tried := tried + {candidate};
      k := k + 1;
      candidate := Candidate(tag, k);
    }
    n := k;
  }

  lemma {:induction false} FitsInside(a: set<string>, b: set<string>)
    requires a <= b
    ensures |a| <= |b|
    decreases a
  {
    if a != {} {
      var x :| x in a;
      FitsInside(a - {x}, b - {x});
    }
  }

  /** The first i nodes have final tags, each chosen by those before it, and these are the ones in `seen`; the other nodes
      are untouched. */
  ghost predicate DedupedUpTo(was: seq<Node>, now: seq<Node>, i: nat, seen: set<string>) {
    && i <= |was| == |now|
    && (forall k :: i <= k < |now| ==> now[k] == was[k])
    && (forall k :: 0 <= k < i ==> Retagged(was[k], now, k) && now[k].tag in seen)
    && (forall j, k :: 0 <= j < k < i ==> now[j].tag != now[k].tag)
    && seen == Tags(now[..i])
  }

  ghost predicate Retagged(was: Node, now: seq<Node>, k: nat)
    requires k < |now|
  {
    now[k].rest == was.rest && now[k].tag != [] && TagFor(Tags(now[..k]), BaseTag(was.tag, k), now[k].tag)
  }

  /** The number kept for a tag is one of which no smaller one is free. */
  ghost predicate CountsOk(seen: map<string, nat>) {
    forall t :: t in seen ==> AllTaken(seen.Keys, t, seen[t] + 1)
  }

  lemma DedupeStep(was: seq<Node>, now: seq<Node>, i: nat, seen: set<string>, tag: string)
    requires DedupedUpTo(was, now, i, seen) && i < |was| && tag !in seen && tag != []
    requires TagFor(seen, BaseTag(was[i].tag, i), tag)
    ensures DedupedUpTo(was, now[i := now[i].(tag := tag)], i + 1, seen + {tag})
  {
    var now' := now[i := now[i].(tag := tag)];
    assert now'[..i] == now[..i];
    forall k | 0 <= k < i ensures Retagged(was[k], now', k) {
      assert Retagged(was[k], now, k);
      assert now'[..k] == now[..k];
    }
    TagsOfOneMore(now', i);
  }

  lemma TagsOfOneMore(nodes: seq<Node>, i: nat)
    requires i < |nodes|
    ensures Tags(nodes[..i + 1]) == Tags(nodes[..i]) + {nodes[i].tag}
  {
    assert nodes[..i + 1] == nodes[..i] + [nodes[i]];
    forall t ensures t in Tags(nodes[..i + 1]) <==> t in Tags(nodes[..i]) + {nodes[i].tag} {
      if t in Tags(nodes[..i]) {
        var k :| 0 <= k < i && nodes[..i][k].tag == t;
        assert nodes[..i + 1][k].tag == t;
      }
      assert nodes[..i + 1][i].tag == nodes[i].tag;
    }
  }

  /** So far nothing has been renamed, and only the tags met so far are taken. */
  ghost predicate UnchangedUpTo(was: seq<Node>, now: seq<Node>, i: nat, seen: set<string>) {
    now == was && i <= |was| && forall s :: s in seen ==> HasTag(was[..i], s)
  }

  lemma UnchangedStep(was: seq<Node>, now: seq<Node>, i: nat, seen: set<string>, tag: string)
    requires UnchangedUpTo(was, now, i, seen) && i < |was| && NonEmpty(was) && Distinct(was)
    requires BaseTag(was[i].tag, i) !in seen ==> tag == BaseTag(was[i].tag, i)
    ensures UnchangedUpTo(was, now[i := now[i].(tag := tag)], i + 1, seen + {tag})
  {
    assert was[i].tag !in seen;
    assert was[..i + 1] == was[..i] + [was[i]];
    HasTagAppend(was[..i], was[i]);
  }

  /** The tag node i gets, given the tags in use. */
  method PickTag(own: string, i: nat, seen: map<string, nat>) returns (tag: string, seen': map<string, nat>)
    requires CountsOk(seen)
    ensures tag !in seen && tag != [] && seen'.Keys == seen.Keys + {tag} && CountsOk(seen')
    ensures TagFor(seen.Keys, BaseTag(own, i), tag)
  {
    tag := own;
    if tag == "" {
      tag := "node-" + Dec(i + 1);
    }
    ghost var base := tag;
    seen' := seen;
    if tag in seen {
      var n := seen[tag] + 1;
      seen' := seen'[tag := n];
      assert seen'.Keys == seen.Keys;
      ghost var m;
      var candidate;
      candidate, m := FreeCandidate(tag, n, seen');
      tag := candidate;
      assert AllTaken(seen.Keys, base, n) && AllTaken(seen.Keys, base, m);
      assert AllTaken(seen.Keys + {tag}, base, n + 1);
    }
    seen' := seen'[tag := 0];
    MoreTaken(seen, base, seen', tag);
  }

  /** With one tag more, what was taken still is. */
  lemma MoreTaken(seen: map<string, nat>, base: string, seen': map<string, nat>, tag: string)
    requires CountsOk(seen) && seen'.Keys == seen.Keys + {tag} && tag in seen' && seen'[tag] == 0
    requires forall t :: t in seen && t != base && t != tag ==> seen'[t] == seen[t]
    requires base in seen' && base != tag ==> AllTaken(seen'.Keys, base, seen'[base] + 1)
    ensures CountsOk(seen')
  {
    forall t | t in seen' ensures AllTaken(seen'.Keys, t, seen'[t] + 1) {
      if t != tag && t != base {
        assert AllTaken(seen.Keys, t, seen[t] + 1);
      }
    }
  }

  /** dedupeTags: makes all tags non-empty and different, in place, changing as little as it can. */
  method DedupeTags(nodes: array<Node>)
    modifies nodes
    ensures NonEmpty(nodes[..]) && Distinct(nodes[..])
    ensures forall i :: 0 <= i < nodes.Length ==> nodes[i].rest == old(nodes[i].rest)
    ensures forall i :: 0 <= i < nodes.Length ==> TagFor(Tags(nodes[..i]), BaseTag(old(nodes[i].tag), i), nodes[i].tag)
    ensures forall i :: 0 <= i < nodes.Length ==> DerivedFrom(BaseTag(old(nodes[i].tag), i), nodes[i].tag)
    ensures old(NonEmpty(nodes[..]) && Distinct(nodes[..])) ==> nodes[..] == old(nodes[..])
  {
    ghost var was := nodes[..];
    var seen: map<string, nat> := map[];
    for i := 0 to nodes.Length
      invariant DedupedUpTo(was, nodes[..], i, seen.Keys) && CountsOk(seen)
      invariant NonEmpty(was) && Distinct(was) ==> UnchangedUpTo(was, nodes[..], i, seen.Keys)
    {
      ghost var now := nodes[..];
      assert now[i] == was[i];
      var tag, seen' := PickTag(nodes[i].tag, i, seen);
      DedupeStep(was, now, i, seen.Keys, tag);
      if NonEmpty(was) && Distinct(was) {
        UnchangedStep(was, now, i, seen.Keys, tag);
      }
      nodes[i] := nodes[i].(tag := tag);
      assert nodes[..] == now[i := now[i].(tag := tag)];
      seen := seen';
    }
    forall i | 0 <= i < nodes.Length
      ensures nodes[i].rest == was[i].rest && nodes[i].tag != [] && TagFor(Tags(nodes[..i]), BaseTag(was[i].tag, i), nodes[i].tag)
    {
      assert Retagged(was[i], nodes[..], i);
      assert nodes[..][..i] == nodes[..i];
    }
  }

  // ---------- the URI list ----------

  datatype Info = Info(nodeCount: nat, skipped: nat, samples: seq<string>)

  /** What ParseURI makes of a line: a node, or the reason why not. */
  type Parser = string -> Result<Node, string>

  function NodeOf(r: Result<Node, string>): (s: seq<Node>) {
    if r.Success? then [r.value] else []
  }

  function ReasonOf(r: Result<Node, string>): (s: seq<string>) {
    if r.Failure? then [r.error] else []
  }

  /** The nodes, and the reasons for the refused lines, in line order. */
  function Parsed(lines: seq<string>, parse: Parser): (r: seq<Node>) {
    if lines == [] then [] else Parsed(lines[..|lines| - 1], parse) + NodeOf(parse(lines[|lines| - 1]))
  }

  function Refused(lines: seq<string>, parse: Parser): (r: seq<string>) {
    if lines == [] then [] else Refused(lines[..|lines| - 1], parse) + ReasonOf(parse(lines[|lines| - 1]))
  }

  function NodesAt(lines: seq<string>, parse: Parser): (r: seq<Node>) {
    seq(|lines|, i requires 0 <= i < |lines| => if parse(lines[i]).Success? then parse(lines[i]).value else Node("", ""))
  }

  function ReasonsAt(lines: seq<string>, parse: Parser): (r: seq<string>) {
    seq(|lines|, i requires 0 <= i < |lines| => if parse(lines[i]).Failure? then parse(lines[i]).error else "")
  }

  function Good(lines: seq<string>, parse: Parser): (r: set<nat>) {
    set i | 0 <= i < |lines| && parse(lines[i]).Success?
  }

  function Bad(lines: seq<string>, parse: Parser): (r: set<nat>) {
    set i | 0 <= i < |lines| && parse(lines[i]).Failure?
  }

  lemma PlacesOneMore(lines: seq<string>, parse: Parser)
    requires lines != []
    ensures var n, front := |lines| - 1, lines[..|lines| - 1];
            && NodesAt(lines, parse)[..n] == NodesAt(front, parse) && ReasonsAt(lines, parse)[..n] == ReasonsAt(front, parse)
            && (if parse(lines[n]).Success?
                then Good(lines, parse) == Good(front, parse) + {n} && Bad(lines, parse) == Bad(front, parse)
                else Good(lines, parse) == Good(front, parse) && Bad(lines, parse) == Bad(front, parse) + {n})
  {
    assert forall i :: 0 <= i < |lines| - 1 ==> lines[..|lines| - 1][i] == lines[i];
  }

  /** The nodes are what the parser made of the lines it accepts, the reasons those of all others, each in line order. */
  lemma {:induction false} ParsedInOrder(lines: seq<string>, parse: Parser)
    ensures Lists(Good(lines, parse), NodesAt(lines, parse), Parsed(lines, parse))
    ensures Lists(Bad(lines, parse), ReasonsAt(lines, parse), Refused(lines, parse))
  {
    if lines == [] {
      assert Good(lines, parse) == {} && Bad(lines, parse) == {};
    } else {
      var front, result := lines[..|lines| - 1], parse(lines[|lines| - 1]);
      ParsedInOrder(front, parse);
      PlacesOneMore(lines, parse);
      hide Lists, Good, Bad, Place;
      ListsOneMore(Good(front, parse), NodesAt(front, parse), Parsed(front, parse), NodesAt(lines, parse));
      ListsOneMore(Bad(front, parse), ReasonsAt(front, parse), Refused(front, parse), ReasonsAt(lines, parse));
      assert Parsed(front, parse) + [] == Parsed(front, parse) && Refused(front, parse) + [] == Refused(front, parse);
    }
  }

  lemma {:induction false} EveryLineCounted(lines: seq<string>, parse: Parser)
    ensures |Parsed(lines, parse)| + |Refused(lines, parse)| == |lines|
  {
    if lines != [] {
      EveryLineCounted(lines[..|lines| - 1], parse);
    }
  }

  function Samples(refused: seq<string>): (r: seq<string>) {
    if |refused| <= MAX_SKIP_SAMPLES then refused else refused[..MAX_SKIP_SAMPLES]
  }

  /** nodes are the parsed ones, in order and with their content, under unique non-empty tags derived from their own. */
  ghost predicate UniquelyTagged(parsed: seq<Node>, nodes: seq<Node>) {
    && |nodes| == |parsed| && NonEmpty(nodes) && Distinct(nodes)
    && (forall i :: 0 <= i < |nodes| ==>
          nodes[i].rest == parsed[i].rest && TagFor(Tags(nodes[..i]), BaseTag(parsed[i].tag, i), nodes[i].tag))
    && (NonEmpty(parsed) && Distinct(parsed) ==> nodes == parsed)
  }

  /** Normalize on a URI list, up to JSON encoding: None when no line gives a node. Every kept line becomes
      a node or is counted as skipped, and a snapshot built from the nodes drops none of them. */
  method NormalizeList(body: string, parse: Parser) returns (r: Option<seq<Node>>, info: Info)
    ensures var lines := SplitLines(body);
            && info.skipped == |Refused(lines, parse)| && info.samples == Samples(Refused(lines, parse))
            && (r.None? <==> Parsed(lines, parse) == [])
            && Lists(Good(lines, parse), NodesAt(lines, parse), Parsed(lines, parse))
            && Lists(Bad(lines, parse), ReasonsAt(lines, parse), Refused(lines, parse))
            && (r.Some? ==>
                  && info.nodeCount == |r.value| && info.nodeCount + info.skipped == |lines|
                  && UniquelyTagged(Parsed(lines, parse), r.value) && KeptNodes(r.value) == r.value)
  {
    hide Lists, Good, Bad, Parsed, Refused, Samples, SplitLines, UniquelyTagged, KeptNodes;
    var lines := SplitLines(body);
    var outbounds, skipped, samples := ParseLines(lines, parse);
    ParsedInOrder(lines, parse);
    if |outbounds| == 0 {
      return None, Info(0, skipped, samples);
    }
    EveryLineCounted(lines, parse);
    var nodes := Deduped(outbounds);
    r, info := Some(nodes), Info(|nodes|, skipped, samples);
  }

  method Deduped(outbounds: seq<Node>) returns (r: seq<Node>)
    ensures |r| == |outbounds| && UniquelyTagged(outbounds, r) && KeptNodes(r) == r
  {
    var nodes := new Node[|outbounds|](i requires 0 <= i < |outbounds| => outbounds[i]);
    hide *;
    assert nodes[..] == outbounds;
    assert forall i :: 0 <= i < |outbounds| ==> nodes[i] == outbounds[i];
    DedupeTags(nodes);
    r := nodes[..];
    SameRetagging(outbounds, nodes);
    DistinctNodesAreKept(r);
  }

  lemma SameRetagging(parsed: seq<Node>, nodes: array<Node>)
    requires |parsed| == nodes.Length && NonEmpty(nodes[..]) && Distinct(nodes[..])
    requires forall i :: 0 <= i < |parsed| ==> nodes[i].rest == parsed[i].rest
    requires forall i :: 0 <= i < |parsed| ==> TagFor(Tags(nodes[..i]), BaseTag(parsed[i].tag, i), nodes[i].tag)
    requires NonEmpty(parsed) && Distinct(parsed) ==> nodes[..] == parsed
    ensures UniquelyTagged(parsed, nodes[..])
  {
    hide TagFor, Tags, BaseTag, NonEmpty, Distinct;
    var r := nodes[..];
    forall i | 0 <= i < |r| ensures r[i].rest == parsed[i].rest && TagFor(Tags(r[..i]), BaseTag(parsed[i].tag, i), r[i].tag) {
      assert r[..i] == nodes[..i];
    }
  }

  /** The line loop of Normalize. */
  method ParseLines(lines: seq<string>, parse: Parser) returns (outbounds: seq<Node>, skipped: nat, samples: seq<string>)
    ensures outbounds == Parsed(lines, parse)
    ensures skipped == |Refused(lines, parse)| && samples == Samples(Refused(lines, parse))
  {
    outbounds, skipped, samples := [], 0, [];
    for i := 0 to |lines|
      invariant outbounds == Parsed(lines[..i], parse)
      invariant skipped == |Refused(lines[..i], parse)| && samples == Samples(Refused(lines[..i], parse))
    {
      assert lines[..i + 1][..i] == lines[..i];
      var result := parse(lines[i]);
      match result {
        case Failure(reason) =>
          skipped := skipped + 1;
          if |samples| < MAX_SKIP_SAMPLES {
            samples := samples + [reason];
          }
        case Success(node) =>
          outbounds := outbounds + [node];
      }
    }
    assert lines[..|lines|] == lines;
  }

  // ---------- the snapshot's nodes ----------

  /** The nodes buildSnapshot keeps: non-empty tag, and no earlier kept node with the same tag. */
  function KeptNodes(nodes: seq<Node>): (r: seq<Node>) {
    if nodes == [] then []
    else
      var n := |nodes| - 1;
      var before := KeptNodes(nodes[..n]);
      if nodes[n].tag == [] || HasTag(nodes[..n], nodes[n].tag) then before else before + [nodes[n]]
  }

  /** The places of the first node of each non-empty tag. */
  function Firsts(nodes: seq<Node>): (r: set<nat>) {
    set i | 0 <= i < |nodes| && nodes[i].tag != [] && !HasTag(nodes[..i], nodes[i].tag)
  }

  /** Exactly these are kept, in order. */
  lemma {:induction false} FirstsAreKept(nodes: seq<Node>)
    ensures Lists(Firsts(nodes), nodes, KeptNodes(nodes))
  {
    if nodes == [] {
      assert Firsts(nodes) == {};
    } else {
      var n := |nodes| - 1;
      var front := nodes[..n];
      FirstsAreKept(front);
      FirstsOneMore(nodes);
      hide Lists, Firsts, HasTag;
      ListsOneMore(Firsts(front), front, KeptNodes(front), nodes);
    }
  }

  lemma FirstsOneMore(nodes: seq<Node>)
    requires nodes != []
    ensures var n, front := |nodes| - 1, nodes[..|nodes| - 1];
            Firsts(nodes) == if nodes[n].tag == [] || HasTag(front, nodes[n].tag) then Firsts(front) else Firsts(front) + {n}
  {
    var n, front := |nodes| - 1, nodes[..|nodes| - 1];
    hide HasTag;
    assert forall i :: 0 <= i < n ==> front[..i] == nodes[..i] && front[i] == nodes[i];
    assert forall i :: i in Firsts(nodes) && i < n <==> i in Firsts(front);
  }

  predicate HasTag(nodes: seq<Node>, tag: string) {
    exists i :: 0 <= i < |nodes| && nodes[i].tag == tag
  }

  lemma HasTagAppend(nodes: seq<Node>, node: Node)
    ensures forall s :: HasTag(nodes + [node], s) <==> HasTag(nodes, s) || node.tag == s
  {
    forall s ensures HasTag(nodes + [node], s) <==> HasTag(nodes, s) || node.tag == s {
      if HasTag(nodes, s) {
        var i :| 0 <= i < |nodes| && nodes[i].tag == s;
        assert (nodes + [node])[i].tag == s;
      }
      assert (nodes + [node])[|nodes|] == node;
    }
  }

  /** The node loop of buildSnapshot. */
  method BuildNodes(outbounds: seq<Node>) returns (names: seq<string>, kept: seq<Node>)
    ensures kept == KeptNodes(outbounds) && Lists(Firsts(outbounds), outbounds, kept)
    ensures |names| == |kept| && forall i :: 0 <= i < |kept| ==> names[i] == kept[i].tag
  {
    var seen: set<string> := {};
    names, kept := [], [];
    for i := 0 to |outbounds|
      invariant kept == KeptNodes(outbounds[..i])
      invariant |names| == |kept| && forall k :: 0 <= k < |kept| ==> names[k] == kept[k].tag
      invariant forall s :: s in seen <==> s != [] && HasTag(outbounds[..i], s)
    {
      var node := outbounds[i];
      assert outbounds[..i + 1][..i] == outbounds[..i];
      assert outbounds[..i + 1] == outbounds[..i] + [node];
      HasTagAppend(outbounds[..i], node);
      if node.tag == "" || node.tag in seen {
        continue;
      }
      seen := seen + {node.tag};
      names := names + [node.tag];
      kept := kept + [node];
    }
    assert outbounds[..|outbounds|] == outbounds;
    FirstsAreKept(outbounds);
  }

  lemma {:induction false} KeptAtMost(nodes: seq<Node>)
    ensures |KeptNodes(nodes)| <= |nodes|
  {
    if nodes != [] {
      KeptAtMost(nodes[..|nodes| - 1]);
    }
  }

  /** Some node is kept exactly when some node has a tag. */
  lemma {:induction false} KeptIffTagged(nodes: seq<Node>)
    ensures KeptNodes(nodes) != [] <==> exists i :: 0 <= i < |nodes| && nodes[i].tag != []
  {
    if nodes != [] {
      var n := |nodes| - 1;
      KeptIffTagged(nodes[..n]);
      if HasTag(nodes[..n], nodes[n].tag) && nodes[n].tag != [] {
        var i :| 0 <= i < n && nodes[..n][i].tag == nodes[n].tag;
        assert nodes[i].tag != [];
      }
      assert forall i :: 0 <= i < n ==> nodes[..n][i] == nodes[i];
    }
  }

  lemma {:induction false} DistinctNodesAreKept(nodes: seq<Node>)
    requires NonEmpty(nodes) && Distinct(nodes)
    ensures KeptNodes(nodes) == nodes
  {
    if nodes != [] {
      var n := |nodes| - 1;
      DistinctNodesAreKept(nodes[..n]);
      assert nodes == nodes[..n] + [nodes[n]];
    }
  }

  /** A snapshot drops no node exactly when all tags are non-empty and different. */
  lemma {:induction false} NothingDroppedIffUnique(nodes: seq<Node>)
    ensures KeptNodes(nodes) == nodes <==> NonEmpty(nodes) && Distinct(nodes)
  {
    if nodes != [] {
      var n := |nodes| - 1;
      NothingDroppedIffUnique(nodes[..n]);
      KeptAtMost(nodes[..n]);
      assert nodes == nodes[..n] + [nodes[n]];
      if KeptNodes(nodes) == nodes {
        assert KeptNodes(nodes) == KeptNodes(nodes[..n]) + [nodes[n]];
        assert KeptNodes(nodes[..n]) == nodes[..n];
      }
    }
  }
}
