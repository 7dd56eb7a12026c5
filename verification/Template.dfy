/** Rewriting template source: every NotesName filter without an argument is given the request's context. */
module Template {
  import opened Wrappers

  /** The argument that the template engine gets; the proofs use only that it is a Fit argument. */
  const ARGUMENT: string := ":__refresh_filter"

  /** Starts with the colon, and holds no bar, no quote and no closing brace. */
  predicate Fit(arg: string) {
    arg != [] && arg[0] == ':' && AllInert(arg) && '}' !in arg
  }

  /** The word NotesName at n. */
  predicate NameAt(s: string, n: nat) {
    && n + 9 <= |s|
    && s[n] == 'N' && s[n + 1] == 'o' && s[n + 2] == 't' && s[n + 3] == 'e' && s[n + 4] == 's'
    && s[n + 5] == 'N' && s[n + 6] == 'a' && s[n + 7] == 'm' && s[n + 8] == 'e'
  }

  predicate IsIdentifierByte(c: char) {
    c == '_' || 'a' <= c <= 'z' || 'A' <= c <= 'Z' || '0' <= c <= '9'
  }

  predicate IsQuote(c: char) {
    c == '\'' || c == '"'
  }

  /** A byte the rewriting always copies. */
  predicate IsInert(c: char) {
    c != '|' && !IsQuote(c)
  }

  predicate AllInert(s: string) {
    forall k :: 0 <= k < |s| ==> IsInert(s[k])
  }

  /** Blanks allowed between the bar and the filter name. */
  predicate IsBlank(c: char) {
    c == ' ' || c == '\t' || c == '\r' || c == '\n'
  }

  /** Blanks allowed between the filter name and the colon. */
  predicate IsInlineBlank(c: char) {
    c == ' ' || c == '\t'
  }

  /** Outside quotes, or inside quotes of the given kind, just after a backslash or not. */
  datatype Context = Plain | Quoted(quote: char, escaped: bool)

  function Next(q: Context, c: char): Context {
    match q
    case Plain => if IsQuote(c) then Quoted(c, false) else Plain
    case Quoted(quote, escaped) =>
      if escaped then Quoted(quote, false)
      else if c == '\\' then Quoted(quote, true)
      else if c == quote then Plain
      else q
  }

  function Blanks(s: string): (n: nat)
    ensures n <= |s| && (forall k :: 0 <= k < n ==> IsBlank(s[k])) && (n < |s| ==> !IsBlank(s[n]))
  {
    if s != [] && IsBlank(s[0]) then 1 + Blanks(s[1..]) else 0
  }

  /** After optional inline blanks comes a colon. */
  predicate ColonNext(s: string) {
    s != [] && (s[0] == ':' || (IsInlineBlank(s[0]) && ColonNext(s[1..])))
  }

  /** The length of "| NotesName" at the start of s, when that is a whole filter name. */
  function FilterLength(s: string): (r: Option<nat>)
    ensures r.Some? ==> 10 <= r.value <= |s|
  {
    if s == [] || s[0] != '|' then None
    else
      var n := 1 + Blanks(s[1..]);
      if NameAt(s, n) && (n + 9 == |s| || !IsIdentifierByte(s[n + 9])) then Some(n + 9) else None
  }

  /** What is put in behind a filter name that is followed by s. */
  function Missing(s: string, arg: string): (r: string) {
    if ColonNext(s) then [] else arg
  }

  /** The rewriting of the rest of an expression. */
  function Rewritten(s: string, q: Context, arg: string): (r: string)
    decreases |s|
  {
    if s == [] then []
    else if q.Plain? && FilterLength(s).Some? then
      var n := FilterLength(s).value;
      s[..n] + Missing(s[n..], arg) + Rewritten(s[n..], Plain, arg)
    else [s[0]] + Rewritten(s[1..], Next(q, s[0]), arg)
  }

  function ContextOf(quote: Option<char>, escaped: bool): (q: Context) {
    if quote.None? then Plain else Quoted(quote.value, escaped)
  }

  /** rewriteNotesFilters */
  method RewriteNotesFilters(expression: string, arg: string) returns (out: string)
    ensures out == Rewritten(expression, Plain, arg)
  {
    out := [];
    var quote: Option<char>, escaped := None, false;
    var i := 0;
    while i < |expression|
      invariant 0 <= i <= |expression| && (escaped ==> quote.Some?)
      invariant out + Rewritten(expression[i..], ContextOf(quote, escaped), arg) == Rewritten(expression, Plain, arg)
    {
      var ch := expression[i];
      if quote.Some? {
        CopyStep(out, expression, i, ContextOf(quote, escaped), arg);
        out := out + [ch];
        if escaped {
          escaped := false;
        } else if ch == '\\' {
          escaped := true;
        } else if ch == quote.value {
          quote := None;
        }
        i := i + 1;
        continue;
      }
      if IsQuote(ch) {
        CopyStep(out, expression, i, Plain, arg);
        quote := Some(ch);
        out := out + [ch];
        i := i + 1;
        continue;
      }
      if ch != '|' {
        CopyStep(out, expression, i, Plain, arg);
        out := out + [ch];
        i := i + 1;
        continue;
      }
      out, i := CopyBar(expression, i, out, arg);
    }
    assert expression[i..] == [];
  }

  /** The turn of the loop at a bar: with a whole filter name, or the bar alone. */
  method CopyBar(expression: string, i: nat, before: string, arg: string) returns (out: string, i': nat)
    requires i < |expression| && expression[i] == '|'
    ensures i < i' <= |expression|
    ensures out + Rewritten(expression[i'..], Plain, arg) == before + Rewritten(expression[i..], Plain, arg)
  {
    var nameStart := SkipBlanks(expression, i + 1);
    var nameEnd := nameStart + 9;
    if NameAt(expression, nameStart) && (nameEnd == |expression| || !IsIdentifierByte(expression[nameEnd])) {
      FilterFound(expression, i, nameStart);
      FilterCopied(before, expression, i, nameEnd, arg);
      out := before + expression[i..nameEnd];
      var lookahead := SkipInlineBlanks(expression, nameEnd);
      if lookahead >= |expression| || expression[lookahead] != ':' {
        out := out + arg;
      }
      i' := nameEnd;
    } else {
      FilterMissing(expression, i, nameStart);
      CopyStep(before, expression, i, Plain, arg);
      out := before + [expression[i]];
      i' := i + 1;
    }
  }

  lemma CopyStep(out: string, e: string, i: nat, q: Context, arg: string)
    requires i < |e| && (q.Quoted? || e[i] != '|' || FilterLength(e[i..]).None?)
    ensures out + Rewritten(e[i..], q, arg) == (out + [e[i]]) + Rewritten(e[i + 1..], Next(q, e[i]), arg)
  {
    var s := e[i..];
    assert s[0] == e[i] && s[1..] == e[i + 1..];
    assert Rewritten(s, q, arg) == [s[0]] + Rewritten(s[1..], Next(q, s[0]), arg);
  }

  method SkipBlanks(s: string, from: nat) returns (i: nat)
    requires from <= |s|
    ensures i == from + Blanks(s[from..]) && i <= |s|
  {
    i := from;
    while i < |s| && IsBlank(s[i])
      invariant from <= i <= |s| && from + Blanks(s[from..]) == i + Blanks(s[i..])
    {
      assert s[i..][1..] == s[i + 1..];
      i := i + 1;
    }
  }

  method SkipInlineBlanks(s: string, from: nat) returns (i: nat)
    requires from <= |s|
    ensures from <= i <= |s| && (i < |s| && s[i] == ':' <==> ColonNext(s[from..]))
  {
    i := from;
    while i < |s| && IsInlineBlank(s[i])
      invariant from <= i <= |s| && ColonNext(s[from..]) == ColonNext(s[i..])
    {
      assert s[i..][1..] == s[i + 1..];
      i := i + 1;
    }
  }

  lemma FilterFound(e: string, i: nat, nameStart: nat)
    requires i < |e| && e[i] == '|' && nameStart == i + 1 + Blanks(e[i + 1..]) && NameAt(e, nameStart)
    requires nameStart + 9 == |e| || !IsIdentifierByte(e[nameStart + 9])
    ensures FilterLength(e[i..]) == Some(nameStart + 9 - i)
  {
    var s := e[i..];
    assert s[1..] == e[i + 1..];
  }

  lemma FilterCopied(out: string, e: string, i: nat, k: nat, arg: string)
    requires i < k <= |e| && FilterLength(e[i..]) == Some(k - i)
    ensures out + Rewritten(e[i..], Plain, arg) == ((out + e[i..k]) + Missing(e[k..], arg)) + Rewritten(e[k..], Plain, arg)
    ensures ColonNext(e[k..]) ==> out + Rewritten(e[i..], Plain, arg) == (out + e[i..k]) + Rewritten(e[k..], Plain, arg)
  {
    RewrittenFilter(e, i, k - i, arg);
    Regroup2(out, e[i..k], Missing(e[k..], arg), Rewritten(e[k..], Plain, arg), Rewritten(e[i..], Plain, arg));
  }

  lemma Regroup2(a: string, b: string, c: string, d: string, bcd: string)
    requires bcd == b + c + d
    ensures a + bcd == ((a + b) + c) + d
    ensures c == [] ==> a + bcd == (a + b) + d
  {
  }

  lemma FilterMissing(e: string, i: nat, nameStart: nat)
    requires i < |e| && e[i] == '|' && nameStart == i + 1 + Blanks(e[i + 1..])
    requires !(NameAt(e, nameStart) && (nameStart + 9 == |e| || !IsIdentifierByte(e[nameStart + 9])))
    ensures FilterLength(e[i..]) == None
  {
    var s, n := e[i..], nameStart - i;
    assert s[1..] == e[i + 1..];
    assert n + 9 <= |s| ==> s[n..n + 9] == e[nameStart..nameStart + 9];
  }

  // ---------- quoted text ----------

  /** How a text is written between quotes of one kind. */
  function Escaped(text: string, quote: char): (r: string) {
    if text == [] then []
    else (if text[0] == quote || text[0] == '\\' then ['\\', text[0]] else [text[0]]) + Escaped(text[1..], quote)
  }

  /** Any text can be quoted, bars and filter names included: it is left as it is, and what follows is rewritten as if it
      stood alone. */
  lemma QuotedTextIsKept(text: string, quote: char, rest: string, arg: string)
    requires IsQuote(quote)
    ensures var quoted := [quote] + Escaped(text, quote) + [quote];
            Rewritten(quoted + rest, Plain, arg) == quoted + Rewritten(rest, Plain, arg)
  {
    hide Rewritten, Escaped;
    var inside := Escaped(text, quote) + [quote];
    var quoted := [quote] + Escaped(text, quote) + [quote];
    assert quoted == [quote] + inside;
    FirstCopied(quote, inside + rest, Plain, arg);
    InsideQuotes(text, quote, rest, arg);
    assert quoted + rest == [quote] + (inside + rest);
    assert quoted + Rewritten(rest, Plain, arg) == [quote] + (inside + Rewritten(rest, Plain, arg));
  }

  lemma FirstCopied(c: char, rest: string, q: Context, arg: string)
    requires q.Quoted? || c != '|'
    ensures Rewritten([c] + rest, q, arg) == [c] + Rewritten(rest, Next(q, c), arg)
  {
    var s := [c] + rest;
    assert s[0] == c && s[1..] == rest;
  }

  lemma {:induction false} InsideQuotes(text: string, quote: char, rest: string, arg: string)
    requires IsQuote(quote)
    ensures var inside := Escaped(text, quote) + [quote];
            Rewritten(inside + rest, Quoted(quote, false), arg) == inside + Rewritten(rest, Plain, arg)
  {
    hide Rewritten;
    if text == [] {
      FirstCopied(quote, rest, Quoted(quote, false), arg);
      assert Escaped(text, quote) + [quote] == [quote];
    } else {
      var c, tail := text[0], Escaped(text[1..], quote) + [quote];
      InsideQuotes(text[1..], quote, rest, arg);
      if c == quote || c == '\\' {
        EscapedCopied(c, quote, tail, rest, arg);
        assert Escaped(text, quote) + [quote] == ['\\', c] + tail;
      } else {
        UnescapedCopied(c, quote, tail, rest, arg);
        assert Escaped(text, quote) + [quote] == [c] + tail;
      }
    }
  }

  lemma EscapedCopied(c: char, quote: char, tail: string, rest: string, arg: string)
    requires IsQuote(quote)
    requires Rewritten(tail + rest, Quoted(quote, false), arg) == tail + Rewritten(rest, Plain, arg)
    ensures Rewritten(['\\', c] + tail + rest, Quoted(quote, false), arg) == ['\\', c] + tail + Rewritten(rest, Plain, arg)
  {
    hide Rewritten;
    var r := Rewritten(rest, Plain, arg);
    FirstCopied('\\', [c] + (tail + rest), Quoted(quote, false), arg);
    FirstCopied(c, tail + rest, Quoted(quote, true), arg);
    assert ['\\', c] + tail + rest == ['\\'] + ([c] + (tail + rest));
    assert ['\\', c] + tail + r == ['\\'] + ([c] + (tail + r));
  }

  lemma UnescapedCopied(c: char, quote: char, tail: string, rest: string, arg: string)
    requires IsQuote(quote) && c != quote && c != '\\'
    requires Rewritten(tail + rest, Quoted(quote, false), arg) == tail + Rewritten(rest, Plain, arg)
    ensures Rewritten([c] + tail + rest, Quoted(quote, false), arg) == [c] + tail + Rewritten(rest, Plain, arg)
  {
    hide Rewritten;
    FirstCopied(c, tail + rest, Quoted(quote, false), arg);
    assert [c] + tail + rest == [c] + (tail + rest);
  }

  lemma NameIsWord(s: string, n: nat)
    requires n + 9 <= |s|
    ensures NameAt(s, n) <==> s[n..n + 9] == "NotesName"
  {
    var word, part := "NotesName", s[n..n + 9];
    assert part == [s[n], s[n + 1], s[n + 2], s[n + 3], s[n + 4], s[n + 5], s[n + 6], s[n + 7], s[n + 8]];
    assert word == ['N', 'o', 't', 'e', 's', 'N', 'a', 'm', 'e'];
  }

  /** A bar, any blanks and the word NotesName are a filter unless the word goes on. */
  lemma WordIsFilter(blanks: string, word: string, rest: string)
    requires (forall k :: 0 <= k < |blanks| ==> IsBlank(blanks[k])) && word == "NotesName"
    ensures FilterLength(['|'] + blanks + word + rest) ==
            if rest == [] || !IsIdentifierByte(rest[0]) then Some(|blanks| + 10) else None
  {
    hide NameAt;
    assert |word| == 9 && word[0] == 'N';
    var tail := blanks + word + rest;
    var s, n := ['|'] + blanks + word + rest, 1 + |blanks|;
    assert s == ['|'] + tail && s[1..] == tail && tail[|blanks|] == word[0];
    BlanksUpTo(tail, |blanks|);
    assert s[n..n + 9] == word;
    NameIsWord(s, n);
    assert rest != [] ==> s[n + 9] == rest[0];
  }

  // ---------- applying it twice ----------

  lemma {:induction false} InertIsCopied(a: string, b: string, arg: string)
    requires AllInert(a)
    ensures Rewritten(a + b, Plain, arg) == a + Rewritten(b, Plain, arg)
  {
    if a == [] {
      assert a + b == b;
    } else {
      assert (a + b)[1..] == a[1..] + b;
      InertIsCopied(a[1..], b, arg);
    }
  }

  lemma FirstByteKept(s: string, q: Context, arg: string)
    ensures |Rewritten(s, q, arg)| > 0 <==> s != []
    ensures s != [] ==> Rewritten(s, q, arg)[0] == s[0]
  {
  }

  /** What looks inert at the front of the result was there before. */
  lemma {:induction false} InertPrefix(s: string, j: nat, arg: string)
    requires j <= |Rewritten(s, Plain, arg)| && AllInert(Rewritten(s, Plain, arg)[..j])
    ensures j <= |s| && s[..j] == Rewritten(s, Plain, arg)[..j]
    ensures Rewritten(s, Plain, arg)[j..] == Rewritten(s[j..], Plain, arg)
    decreases j
  {
    if j > 0 {
      var r := Rewritten(s, Plain, arg);
      FirstByteKept(s, Plain, arg);
      assert r[..j][0] == r[0] == s[0];
      assert r == [s[0]] + Rewritten(s[1..], Plain, arg);
      assert r[1..] == Rewritten(s[1..], Plain, arg);
      assert r[..j] == [s[0]] + r[1..][..j - 1];
      InertPrefix(s[1..], j - 1, arg);
      assert s[..j] == [s[0]] + s[1..][..j - 1];
      assert r[j..] == r[1..][j - 1..] && s[j..] == s[1..][j - 1..];
    }
  }

  lemma {:induction false} ColonStays(s: string, arg: string)
    requires ColonNext(s)
    ensures ColonNext(Rewritten(s, Plain, arg))
  {
    InertIsCopied([s[0]], s[1..], arg);
    assert [s[0]] + s[1..] == s;
    var r := Rewritten(s, Plain, arg);
    assert r[1..] == Rewritten(s[1..], Plain, arg);
    if s[0] != ':' {
      ColonStays(s[1..], arg);
    }
  }

  /** Whether a filter starts here depends on the blanks, the name and one byte more. */
  lemma FilterLengthDependsOnFront(s: string, s': string, n: nat)
    requires FilterLength(s) == Some(n) && n <= |s'| && s[..n] == s'[..n]
    requires |s'| == n || !IsIdentifierByte(s'[n])
    ensures FilterLength(s') == Some(n)
  {
    var m := n - 9;
    assert forall k :: 0 <= k < n ==> s[k] == s[..n][k] == s'[..n][k] == s'[k];
    BlanksUpTo(s'[1..], m - 1);
  }

  lemma {:induction false} BlanksUpTo(s: string, n: nat)
    requires n < |s| && (forall k :: 0 <= k < n ==> IsBlank(s[k])) && !IsBlank(s[n])
    ensures Blanks(s) == n
    decreases n
  {
    if n > 0 {
      BlanksUpTo(s[1..], n - 1);
    }
  }

  /** The inert front of a result, and the byte behind it, were there before. */
  lemma InertFront(s: string, j: nat, arg: string)
    requires j <= |Rewritten(s, Plain, arg)| && AllInert(Rewritten(s, Plain, arg)[..j])
    ensures j <= |s| && s[..j] == Rewritten(s, Plain, arg)[..j]
    ensures j < |s| ==> j < |Rewritten(s, Plain, arg)| && Rewritten(s, Plain, arg)[j] == s[j]
  {
    InertPrefix(s, j, arg);
    FirstByteKept(s[j..], Plain, arg);
    var t, r := s[j..], Rewritten(s, Plain, arg)[j..];
    assert j < |s| ==> r[0] == t[0] == s[j];
  }

  lemma AfterBar(s: string, rest: string, j: nat)
    requires s != [] && s[1..] == rest && j <= |rest|
    ensures s[1..j + 1] == rest[..j] && s[..j + 1] == [s[0]] + rest[..j]
    ensures j < |rest| ==> s[j + 1] == rest[j]
  {
  }

  /** A bar that starts a filter after the rewriting started the same filter before it. */
  lemma NoFilterStays(s: string, s': string, arg: string)
    requires s != [] && s' != [] && s[0] == s'[0] && s'[1..] == Rewritten(s[1..], Plain, arg)
    requires FilterLength(s).None?
    ensures FilterLength(s').None?
  {
    if FilterLength(s').Some? {
      FilterWasThere(s, s', s[1..], s'[1..], FilterLength(s').value, arg);
    }
  }

  lemma FilterWasThere(s: string, s': string, rest: string, r: string, n: nat, arg: string)
    requires s != [] && s' != [] && s[0] == s'[0] && s[1..] == rest && s'[1..] == r && r == Rewritten(rest, Plain, arg)
    requires FilterLength(s') == Some(n)
    ensures FilterLength(s) == Some(n)
  {
    FilterIsInert(s', n);
    AfterBar(s', r, n - 1);
    InertFront(rest, n - 1, arg);
    AfterBar(s, rest, n - 1);
    FilterLengthDependsOnFront(s', s, n);
  }

  lemma FilterIsInert(s: string, n: nat)
    requires FilterLength(s) == Some(n)
    ensures AllInert(s[1..n]) && s[0] == '|'
  {
    var m := n - 9;
    forall k | 1 <= k < n ensures IsInert(s[k]) {
      if k < m {
        assert IsBlank(s[1..][k - 1]);
      }
    }
  }

  /** What follows a filter name in the result holds the colon, and is left alone. */
  lemma TailAgain(t: string, arg: string)
    requires Fit(arg) && (t == [] || !IsIdentifierByte(t[0]))
    requires Rewritten(Rewritten(t, Plain, arg), Plain, arg) == Rewritten(t, Plain, arg)
    ensures var tail := Missing(t, arg) + Rewritten(t, Plain, arg);
            ColonNext(tail) && !IsIdentifierByte(tail[0]) && Rewritten(tail, Plain, arg) == tail
  {
    var rest := Rewritten(t, Plain, arg);
    if ColonNext(t) {
      ColonStays(t, arg);
      assert [] + rest == rest;
    } else {
      InertIsCopied(arg, rest, arg);
    }
  }

  /** The same filter starts every text with the same front. */
  lemma FilterStays(s: string, n: nat, head: string, tail: string)
    requires FilterLength(s) == Some(n) && head == s[..n] && (tail == [] || !IsIdentifierByte(tail[0]))
    ensures FilterLength(head + tail) == Some(n)
  {
    var r := head + tail;
    assert r[..n] == s[..n];
    FilterLengthDependsOnFront(s, r, n);
  }

  lemma FilterAgain(head: string, tail: string, arg: string)
    requires FilterLength(head + tail) == Some(|head|) && ColonNext(tail) && Rewritten(tail, Plain, arg) == tail
    ensures Rewritten(head + tail, Plain, arg) == head + tail
  {
    var r := head + tail;
    RewrittenFilter(r, 0, |head|, arg);
    assert r[0..] == r && r[0..|head|] == head && r[|head|..] == tail;
    assert head + [] == head;
  }

  lemma FilterStep(s: string, n: nat, arg: string)
    requires Fit(arg)
    requires FilterLength(s) == Some(n) && Rewritten(Rewritten(s[n..], Plain, arg), Plain, arg) == Rewritten(s[n..], Plain, arg)
    ensures Rewritten(Rewritten(s, Plain, arg), Plain, arg) == Rewritten(s, Plain, arg)
  {
    var head, t := s[..n], s[n..];
    var tail := Missing(t, arg) + Rewritten(t, Plain, arg);
    TailAgain(t, arg);
    FilterStays(s, n, head, tail);
    FilterAgain(head, tail, arg);
    assert Rewritten(s, Plain, arg) == head + tail by {
      RewrittenFilter(s, 0, n, arg);
      assert s[0..] == s && s[0..n] == head;
      Associate(head, Missing(t, arg), Rewritten(t, Plain, arg));
    }
  }

  lemma Associate(a: string, b: string, c: string)
    ensures a + b + c == a + (b + c)
  {
  }

  lemma {:induction false} RewritingIsIdempotent(s: string, q: Context, arg: string)
    requires Fit(arg)
    ensures Rewritten(Rewritten(s, q, arg), q, arg) == Rewritten(s, q, arg)
    decreases |s|
  {
    if s == [] {
    } else if q.Plain? && FilterLength(s).Some? {
      RewritingIsIdempotent(s[FilterLength(s).value..], Plain, arg);
      FilterStep(s, FilterLength(s).value, arg);
    } else {
      var rest := Rewritten(s[1..], Next(q, s[0]), arg);
      RewritingIsIdempotent(s[1..], Next(q, s[0]), arg);
      var r := [s[0]] + rest;
      assert r[1..] == rest;
      if q.Plain? && s[0] == '|' {
        NoFilterStays(s, r, arg);
      }
    }
  }

  // ---------- exactly where the argument goes ----------

  /** The quoting context after the first k bytes. */
  function ContextAt(e: string, k: nat): (q: Context)
    requires k <= |e|
  {
    if k == 0 then Plain else Next(ContextAt(e, k - 1), e[k - 1])
  }

  /** A bar outside quotes at i, blanks, and the whole word NotesName ending at k. */
  predicate FilterAt(e: string, i: nat, k: nat) {
    && i + 10 <= k <= |e|
    && e[i] == '|' && ContextAt(e, i).Plain?
    && (forall j :: i < j < k - 9 ==> IsBlank(e[j]))
    && NameAt(e, k - 9)
    && (k == |e| || !IsIdentifierByte(e[k]))
  }

  predicate FilterEndsAt(e: string, k: nat) {
    exists i: nat :: i < k && FilterAt(e, i, k)
  }

  /** The positions of an expression behind which the argument is missing. */
  function ArgumentPlaces(e: string): (r: set<nat>) {
    set k: nat | 0 < k <= |e| && FilterEndsAt(e, k) && !ColonNext(e[k..])
  }

  /** The bytes i..j of s, with the argument put in behind every prefix whose length is in `at`. */
  function Woven(s: string, at: set<nat>, i: nat, j: nat, arg: string): (r: string)
    requires i <= j <= |s|
    decreases j - i
  {
    if i == j then [] else [s[i]] + (if i + 1 in at then arg else []) + Woven(s, at, i + 1, j, arg)
  }

  lemma {:induction false} WovenSplit(s: string, at: set<nat>, i: nat, m: nat, j: nat, arg: string)
    requires i <= m <= j <= |s|
    ensures Woven(s, at, i, j, arg) == Woven(s, at, i, m, arg) + Woven(s, at, m, j, arg)
    decreases m - i
  {
    if i < m {
      WovenSplit(s, at, i + 1, m, j, arg);
    }
  }

  lemma {:induction false} WovenPlain(s: string, at: set<nat>, i: nat, j: nat, arg: string)
    requires i <= j <= |s| && forall k :: i < k <= j ==> k !in at
    ensures Woven(s, at, i, j, arg) == s[i..j]
    decreases j - i
  {
    if i < j {
      WovenPlain(s, at, i + 1, j, arg);
    }
  }

  lemma WovenOne(s: string, at: set<nat>, i: nat, j: nat, arg: string)
    requires i < j <= |s|
    ensures Woven(s, at, i, j, arg) == [s[i]] + (if i + 1 in at then arg else []) + Woven(s, at, i + 1, j, arg)
  {
  }

  lemma {:induction false} WovenShift(s: string, at: set<nat>, off: nat, e: string, at': set<nat>, i: nat, arg: string)
    requires off + |e| <= |s| && (forall k :: 0 <= k < |e| ==> e[k] == s[off + k]) && i <= |e|
    requires forall k :: i < k <= |e| ==> (k in at' <==> off + k in at)
    ensures Woven(s, at, off + i, off + |e|, arg) == Woven(e, at', i, |e|, arg)
    decreases |e| - i
  {
    if i < |e| {
      WovenOne(s, at, off + i, off + |e|, arg);
      WovenOne(e, at', i, |e|, arg);
      WovenShift(s, at, off, e, at', i + 1, arg);
      assert i + 1 in at' <==> off + (i + 1) in at;
    }
  }

  lemma FilterAtHasLength(e: string, i: nat, k: nat)
    requires FilterAt(e, i, k)
    ensures FilterLength(e[i..]) == Some(k - i)
  {
    var s, m := e[i..], k - 9;
    var t := s[1..];
    assert t == e[i + 1..];
    assert forall j :: 0 <= j < m - i - 1 ==> t[j] == e[i + 1 + j];
    assert t[m - i - 1] == e[m];
    BlanksUpTo(t, m - i - 1);
  }

  lemma LengthIsFilterAt(e: string, i: nat, n: nat)
    requires i < |e| && ContextAt(e, i).Plain? && FilterLength(e[i..]) == Some(n)
    ensures FilterAt(e, i, i + n)
  {
    var s, m := e[i..], i + n - 9;
    var t := s[1..];
    forall j | i < j < m ensures IsBlank(e[j]) {
      assert e[j] == t[j - i - 1];
    }
  }

  lemma FilterLengthIff(e: string, i: nat, k: nat)
    requires i < |e| && ContextAt(e, i).Plain?
    ensures FilterAt(e, i, k) <==> k > i && FilterLength(e[i..]) == Some(k - i)
  {
    if FilterAt(e, i, k) {
      FilterAtHasLength(e, i, k);
    } else if k > i && FilterLength(e[i..]) == Some(k - i) {
      LengthIsFilterAt(e, i, k - i);
    }
  }

  lemma {:induction false} InertKeepsPlain(e: string, i: nat, k: nat)
    requires i <= k <= |e| && ContextAt(e, i).Plain? && forall j :: i <= j < k ==> !IsQuote(e[j])
    ensures ContextAt(e, k).Plain?
    decreases k - i
  {
    if i < k {
      InertKeepsPlain(e, i, k - 1);
    }
  }

  /** No filter that begins before i reaches beyond i. */
  ghost predicate NoneOpen(e: string, i: nat) {
    forall b: nat, k: nat :: b < i < k ==> !FilterAt(e, b, k)
  }

  lemma CopiedByte(e: string, i: nat)
    requires i < |e| && NoneOpen(e, i) && (e[i] != '|' || !ContextAt(e, i).Plain? || FilterLength(e[i..]).None?)
    ensures NoneOpen(e, i + 1) && i + 1 !in ArgumentPlaces(e)
  {
    forall k: nat | i < k ensures !FilterAt(e, i, k) {
      if e[i] == '|' && ContextAt(e, i).Plain? {
        FilterLengthIff(e, i, k);
      }
    }
  }

  /** Inside a filter there is neither a bar nor a quote. */
  lemma FilterBytesInert(e: string, i: nat, k: nat)
    requires FilterAt(e, i, k)
    ensures forall j :: i < j < k ==> IsInert(e[j])
    ensures ContextAt(e, k).Plain?
  {
    FilterAtHasLength(e, i, k);
    var s := e[i..];
    FilterIsInert(s, k - i);
    forall j | i < j < k ensures IsInert(e[j]) {
      assert e[j] == s[1..k - i][j - i - 1];
    }
    assert ContextAt(e, i + 1).Plain?;
    InertKeepsPlain(e, i + 1, k);
  }

  /** While one filter is open no other one ends. */
  lemma OneFilterAtATime(e: string, i: nat, k: nat, b: nat, j: nat)
    requires NoneOpen(e, i) && FilterAt(e, i, k) && b < k && i < j && FilterAt(e, b, j)
    ensures b == i && j == k
  {
    FilterBytesInert(e, i, k);
    FilterAtHasLength(e, i, k);
    FilterAtHasLength(e, b, j);
  }

  lemma CopiedFilter(e: string, i: nat, k: nat)
    requires NoneOpen(e, i) && FilterAt(e, i, k)
    ensures NoneOpen(e, k) && forall j :: i < j < k ==> j !in ArgumentPlaces(e)
  {
    forall b: nat, j: nat | b < k < j ensures !FilterAt(e, b, j) {
      if FilterAt(e, b, j) {
        OneFilterAtATime(e, i, k, b, j);
      }
    }
    forall j | i < j < k ensures j !in ArgumentPlaces(e) {
      if j in ArgumentPlaces(e) {
        var b: nat :| b < j && FilterAt(e, b, j);
        OneFilterAtATime(e, i, k, b, j);
      }
    }
  }

  lemma WovenUpTo(s: string, at: set<nat>, i: nat, k: nat, arg: string)
    requires i < k <= |s| && forall j :: i < j < k ==> j !in at
    ensures Woven(s, at, i, |s|, arg) == s[i..k] + (if k in at then arg else []) + Woven(s, at, k, |s|, arg)
  {
    WovenSplit(s, at, i, k - 1, |s|, arg);
    WovenPlain(s, at, i, k - 1, arg);
    var x, w := if k in at then arg else [], Woven(s, at, k, |s|, arg);
    Regroup(s[i..k - 1], [s[k - 1]], x, w);
    assert s[i..k] == s[i..k - 1] + [s[k - 1]];
  }

  lemma Regroup(a: string, b: string, c: string, d: string)
    ensures a + (b + c + d) == (a + b) + c + d
  {
  }

  lemma PlaceOfFilter(e: string, i: nat, k: nat)
    requires FilterAt(e, i, k)
    ensures k in ArgumentPlaces(e) <==> !ColonNext(e[k..])
  {
    assert FilterEndsAt(e, k);
  }

  lemma RewrittenFilter(e: string, i: nat, n: nat, arg: string)
    requires i + n <= |e| && FilterLength(e[i..]) == Some(n)
    ensures Rewritten(e[i..], Plain, arg) == e[i..i + n] + Missing(e[i + n..], arg) + Rewritten(e[i + n..], Plain, arg)
  {
    var s := e[i..];
    assert s[..n] == e[i..i + n] && s[n..] == e[i + n..];
  }

  lemma SameFilter(e: string, at: set<nat>, i: nat, n: nat, arg: string)
    requires i + n <= |e| && FilterLength(e[i..]) == Some(n)
    requires (forall j :: i < j < i + n ==> j !in at) && (i + n in at <==> !ColonNext(e[i + n..]))
    requires Rewritten(e[i + n..], Plain, arg) == Woven(e, at, i + n, |e|, arg)
    ensures Rewritten(e[i..], Plain, arg) == Woven(e, at, i, |e|, arg)
  {
    WovenUpTo(e, at, i, i + n, arg);
    RewrittenFilter(e, i, n, arg);
  }

  lemma SameByte(e: string, at: set<nat>, i: nat, q: Context, arg: string)
    requires i < |e| && i + 1 !in at && (q.Quoted? || FilterLength(e[i..]).None?)
    requires Rewritten(e[i + 1..], Next(q, e[i]), arg) == Woven(e, at, i + 1, |e|, arg)
    ensures Rewritten(e[i..], q, arg) == Woven(e, at, i, |e|, arg)
  {
    var rest := e[i..];
    assert rest[0] == e[i] && rest[1..] == e[i + 1..];
    assert Rewritten(rest, q, arg) == [rest[0]] + Rewritten(rest[1..], Next(q, rest[0]), arg);
    WovenOne(e, at, i, |e|, arg);
    assert [e[i]] + [] == [e[i]];
  }

  /** The rewriting from position i on puts the argument in exactly the places that lack it. */
  lemma {:induction false} RewrittenIsWoven(e: string, at: set<nat>, i: nat, arg: string)
    requires i <= |e| && NoneOpen(e, i) && at == ArgumentPlaces(e)
    ensures Rewritten(e[i..], ContextAt(e, i), arg) == Woven(e, at, i, |e|, arg)
    decreases |e| - i
  {
    if i < |e| {
      var q := ContextAt(e, i);
      if q.Plain? && FilterLength(e[i..]).Some? {
        var n := FilterLength(e[i..]).value;
        FilterFrom(e, at, i, n);
        RewrittenIsWoven(e, at, i + n, arg);
        SameFilter(e, at, i, n, arg);
      } else {
        CopiedByte(e, i);
        RewrittenIsWoven(e, at, i + 1, arg);
        SameByte(e, at, i, q, arg);
      }
    }
  }

  lemma FilterFrom(e: string, at: set<nat>, i: nat, n: nat)
    requires i < |e| && NoneOpen(e, i) && at == ArgumentPlaces(e) && ContextAt(e, i).Plain? && FilterLength(e[i..]) == Some(n)
    ensures i + n <= |e| && NoneOpen(e, i + n) && ContextAt(e, i + n).Plain?
    ensures (forall j :: i < j < i + n ==> j !in at) && (i + n in at <==> !ColonNext(e[i + n..]))
  {
    LengthIsFilterAt(e, i, n);
    PassFilter(e, at, i, i + n);
  }

  lemma PassFilter(e: string, at: set<nat>, i: nat, k: nat)
    requires NoneOpen(e, i) && FilterAt(e, i, k) && at == ArgumentPlaces(e)
    ensures NoneOpen(e, k) && ContextAt(e, k).Plain?
    ensures (forall j :: i < j < k ==> j !in at) && (k in at <==> !ColonNext(e[k..]))
  {
    CopiedFilter(e, i, k);
    FilterBytesInert(e, i, k);
    PlaceOfFilter(e, i, k);
  }

  lemma RewritingInsertsExactly(e: string, arg: string)
    ensures Rewritten(e, Plain, arg) == Woven(e, ArgumentPlaces(e), 0, |e|, arg)
  {
    RewrittenIsWoven(e, ArgumentPlaces(e), 0, arg);
    assert e[0..] == e;
  }
}
