/** The port bitmap and its spec parser: comma-separated ports and ranges, each number read by strtoul. */
module Portmap {
  import opened Wrappers
  import opened Decimal

  const PORTS: nat := 65536
  const BYTES: nat := 8192

  // ---------- bits ----------

  /** 1u << k */
  function Mask(k: nat): (m: bv8)
    requires k < 8
  {
    if k == 0 then 1 else if k == 1 then 2 else if k == 2 then 4 else if k == 3 then 8
    else if k == 4 then 16 else if k == 5 then 32 else if k == 6 then 64 else 128
  }

  lemma SetBit(b: bv8, i: nat, j: nat)
    requires i < 8 && j < 8
    ensures ((b | Mask(i)) & Mask(j) != 0) <==> (i == j || b & Mask(j) != 0)
  {
  }

  predicate IsSet(bits: seq<bv8>, p: nat)
    requires |bits| == BYTES && p < PORTS
  {
    bits[p / 8] & Mask(p % 8) != 0
  }

  // ---------- strtoul with base 0 ----------

  predicate IsSpace(c: char) {
    c == ' ' || ('\t' <= c <= '\r')
  }

  function SkipSpaces(s: string, i: nat): (r: nat)
    requires i <= |s|
    ensures i <= r <= |s|
    decreases |s| - i
  {
    if i < |s| && IsSpace(s[i]) then SkipSpaces(s, i + 1) else i
  }

  function SkipDigits(s: string, i: nat, base: nat): (r: nat)
    requires i <= |s|
    ensures i <= r <= |s|
    ensures forall k :: i <= k < r ==> DigitValue(s[k]) < base
    decreases |s| - i
  {
    if i < |s| && DigitValue(s[i]) < base then SkipDigits(s, i + 1, base) else i
  }

  /** Where the digits start, and in which base: 0x needs a hexadecimal digit behind it. */
  function BaseAt(s: string, i: nat): (r: (nat, nat))
    requires i <= |s|
    ensures i <= r.0 <= |s|
  {
    if i + 2 < |s| && s[i] == '0' && (s[i + 1] == 'x' || s[i + 1] == 'X') && DigitValue(s[i + 2]) < 16 then (i + 2, 16)
    else if i < |s| && s[i] == '0' then (i, 8)
    else (i, 10)
  }

  /** strtoul(s, &end, 0) where unsigned long holds 0..max: the value, and where reading stopped.
      Without digits nothing is consumed; too large a number gives max; a minus sign negates modulo max + 1. */
  function Strtoul(s: string, max: nat): (r: (nat, nat))
    ensures r.0 <= max && r.1 <= |s|
  {
    var i := SkipSpaces(s, 0);
    var signed := i < |s| && (s[i] == '+' || s[i] == '-');
    var (start, base) := BaseAt(s, if signed then i + 1 else i);
    var end := SkipDigits(s, start, base);
    if end == start then (0, 0)
    else
      var v := Value(s[start..end], base);
      if v > max then (max, end)
      else if signed && s[i] == '-' && v > 0 then (max + 1 - v, end)
      else (v, end)
  }

  // ---------- what a spec means ----------

  datatype Range = Range(first: nat, last: nat)

  /** The ports from `from` up to but not including `to`. */
  function Interval(from: nat, to: nat): (s: set<nat>)
    ensures forall p :: p in s <==> from <= p < to
  {
    if to <= from then {} else Interval(from, to - 1) + {to - 1 as nat}
  }

  function PortsIn(r: Range): (s: set<nat>) {
    Interval(r.first, r.last + 1)
  }

  /** The ports of a list of ranges. */
  function Union(rs: seq<Range>): (s: set<nat>) {
    if rs == [] then {} else PortsIn(rs[0]) + Union(rs[1..])
  }

  /** One port number: all of s must be consumed, and it must lie in 1..65535. */
  function Port(s: string, max: nat): (r: Option<nat>)
    ensures r.Some? ==> 1 <= r.value <= 65535
  {
    var (v, end) := Strtoul(s, max);
    if end == 0 || end != |s| || v == 0 || v > 65535 then None else Some(v)
  }

  function FindChar(s: string, c: char): (r: Option<nat>)
    ensures r.Some? ==> r.value < |s| && s[r.value] == c && forall k :: 0 <= k < r.value ==> s[k] != c
    ensures r.None? ==> forall k :: 0 <= k < |s| ==> s[k] != c
  {
    if s == [] then None
    else if s[0] == c then Some(0)
    else match FindChar(s[1..], c)
      case None => None
      case Some(i) => Some(i + 1)
  }

  function Meaning(tok: string, max: nat): (r: Option<Range>)
    ensures r.Some? ==> 1 <= r.value.first <= r.value.last <= 65535
  {
    match FindChar(tok, '-')
    case None =>
      (match Port(tok, max)
       case None => None
       case Some(p) => Some(Range(p, p)))
    case Some(dash) =>
      match Port(tok[..dash], max)
      case None => None
      case Some(first) =>
        match Port(tok[dash + 1..], max)
        case None => None
        case Some(last) => if first > last then None else Some(Range(first, last))
  }

  /** strtok_r(s, ","): the maximal comma-free pieces that are not empty. */
  function Tokens(s: string): (r: seq<string>)
    ensures forall t :: t in r ==> t != [] && ',' !in t
  {
    if s == [] then []
    else match FindChar(s, ',')
      case None => [s]
      case Some(i) => (if i == 0 then [] else [s[..i]]) + Tokens(s[i + 1..])
  }

  function Meanings(toks: seq<string>, max: nat): (r: seq<Option<Range>>)
    ensures |r| == |toks| && forall i :: 0 <= i < |r| ==> r[i] == Meaning(toks[i], max)
  {
    seq(|toks|, i requires 0 <= i < |toks| => Meaning(toks[i], max))
  }

  /** The ranges up to the first token without a meaning. */
  function Leading(ms: seq<Option<Range>>): (r: seq<Range>)
    ensures |r| <= |ms|
  {
    if ms == [] || ms[0].None? then [] else [ms[0].value] + Leading(ms[1..])
  }

  predicate AllMeaningful(ms: seq<Option<Range>>) {
    forall i :: 0 <= i < |ms| ==> ms[i].Some?
  }

  /** The ports a spec adds. */
  function Listed(spec: string, max: nat): (s: set<nat>) {
    Union(Leading(Meanings(Tokens(spec), max)))
  }

  predicate Meaningful(spec: string, max: nat) {
    spec != [] && AllMeaningful(Meanings(Tokens(spec), max))
  }

  lemma RangesBegin(ms: seq<Option<Range>>)
    ensures ms[0..] == ms && ms[..|ms|] == ms && AllMeaningful(ms[..0]) && Union(Leading(ms[|ms|..])) == {}
  {
  }

  lemma RangesEnd(ms: seq<Option<Range>>, i: nat)
    requires i < |ms| && ms[i].None?
    ensures Union(Leading(ms[i..])) == {} && !AllMeaningful(ms)
  {
    assert Leading(ms[i..]) == [];
  }

  lemma OneMoreRange(ms: seq<Option<Range>>, i: nat)
    requires i < |ms| && ms[i].Some?
    ensures Union(Leading(ms[i..])) == PortsIn(ms[i].value) + Union(Leading(ms[i + 1..]))
    ensures AllMeaningful(ms[..i]) ==> AllMeaningful(ms[..i + 1])
  {
    assert ms[i..][1..] == ms[i + 1..] && ms[..i + 1] == ms[..i] + [ms[i]];
  }

  class Map {
    var bitmap: array?<bv8>

    constructor ()
      ensures bitmap == null
    {
      bitmap := null;
    }

    ghost predicate Valid()
      reads this
    {
      bitmap != null ==> bitmap.Length == BYTES
    }

    /** fs_portmap_get: no bitmap holds no port. */
    predicate Get(p: nat)
      requires Valid() && p < PORTS
      reads this, bitmap
    {
      bitmap != null && IsSet(bitmap[..], p)
    }

    /** The bitmap as a set of ports. */
    ghost function Ports(): (s: set<nat>)
      requires Valid()
      reads this, bitmap
      ensures forall p: nat :: p in s <==> p < PORTS && Get(p)
    {
      set p: nat | p < PORTS && Get(p)
    }

    method Set(p: nat)
      requires Valid() && bitmap != null && p < PORTS
      modifies bitmap
      ensures Ports() == old(Ports()) + {p}
    {
      ghost var was := bitmap[..];
      bitmap[p / 8] := bitmap[p / 8] | Mask(p % 8);
      forall q | 0 <= q < PORTS ensures IsSet(bitmap[..], q) <==> q == p || IsSet(was, q) {
        if q / 8 == p / 8 {
          SetBit(was[p / 8], p % 8, q % 8);
        }
      }
    }

    method SetRange(r: Range)
      requires Valid() && bitmap != null && r.last < PORTS
      modifies bitmap
      ensures Ports() == old(Ports()) + PortsIn(r)
    {
      var p := r.first;
      hide Get;
      while p <= r.last
        invariant r.first <= p && (p <= r.last + 1 || p == r.first)
        invariant Ports() == old(Ports()) + Interval(r.first, p)
        decreases r.last + 1 - p
      {
        Set(p);
        p := p + 1;
      }
    }

    /** Sets one range, in a new bitmap if there is none yet. */
    method Add(r: Range) returns (ok: bool)
      requires Valid() && r.last < PORTS
      modifies this, bitmap
      ensures Valid() && (old(bitmap) != null ==> ok && bitmap == old(bitmap)) && (bitmap != old(bitmap) ==> fresh(bitmap))
      ensures ok ==> bitmap != null
      ensures Ports() == if ok then old(Ports()) + PortsIn(r) else old(Ports())
    {
      if bitmap == null {
        var haveMemory: bool := *;
        if !haveMemory {
          return false;
        }
        bitmap := new bv8[BYTES](_ => 0);
        assert Ports() == {};
      }
      SetRange(r);
      ok := true;
    }

    /** fs_portmap_parse: the listed ports are added to those already there. On an error the tokens before
        the bad one stay added. Only a missing bitmap can make a meaningful spec fail, for lack of memory. */
    method Parse(spec: string, max: nat) returns (ok: bool)
      requires Valid()
      modifies this, bitmap
      ensures Valid() && (old(bitmap) != null ==> bitmap == old(bitmap)) && (bitmap != old(bitmap) ==> fresh(bitmap))
      ensures ok ==> Meaningful(spec, max)
      ensures Meaningful(spec, max) && old(bitmap) != null ==> ok
      ensures ok || (old(bitmap) != null && spec != []) ==> Ports() == old(Ports()) + Listed(spec, max)
      ensures ok ==> (bitmap == null <==> old(bitmap) == null && Tokens(spec) == [])
    {
      if spec == [] {
        return false;
      }
      ok := AddAll(Meanings(Tokens(spec), max));
    }

    /** The token loop: adds each range until a token has none. */
    method AddAll(ms: seq<Option<Range>>) returns (ok: bool)
      requires Valid() && forall i :: 0 <= i < |ms| && ms[i].Some? ==> ms[i].value.last < PORTS
      modifies this, bitmap
      ensures Valid() && (old(bitmap) != null ==> bitmap == old(bitmap)) && (bitmap != old(bitmap) ==> fresh(bitmap))
      ensures ok ==> AllMeaningful(ms)
      ensures AllMeaningful(ms) && old(bitmap) != null ==> ok
      ensures ok || old(bitmap) != null ==> Ports() == old(Ports()) + Union(Leading(ms))
      ensures ok ==> (bitmap == null <==> old(bitmap) == null && ms == [])
    {
      RangesBegin(ms);
      hide Get, Leading, Union, AllMeaningful;
      for i := 0 to |ms|
        invariant Valid() && (old(bitmap) != null ==> bitmap == old(bitmap)) && (bitmap != old(bitmap) ==> fresh(bitmap))
        invariant bitmap == null <==> old(bitmap) == null && i == 0
        invariant AllMeaningful(ms[..i])
        invariant Ports() + Union(Leading(ms[i..])) == old(Ports()) + Union(Leading(ms))
      {
        if ms[i].None? {
          RangesEnd(ms, i);
          return false;
        }
        OneMoreRange(ms, i);
        var added := Add(ms[i].value);
        if !added {
          return false;
        }
      }
      ok := true;
    }
  }

  /** The gate in front of the packet handler: process a packet or let it pass untouched. */
  method Gate(white: Map, black: Map, sport: nat, dport: nat) returns (process: bool)
    requires white.Valid() && black.Valid() && sport < PORTS && dport < PORTS
    ensures process <==>
              (white.bitmap == null || white.Get(sport) || white.Get(dport)) && !black.Get(sport) && !black.Get(dport)
  {
    if white.bitmap != null {
      if !(white.Get(sport) || white.Get(dport)) {
        return false;
      }
    }
    if black.bitmap != null {
      if black.Get(sport) || black.Get(dport) {
        return false;
      }
    }
    process := true;
  }

  // ---------- written specs are read back ----------

  /** The narrowest unsigned long. */
  const ULONG32: nat := 0xFFFF_FFFF

  function Written(r: Range): (s: string) {
    if r.first == r.last then Dec(r.first) else Dec(r.first) + "-" + Dec(r.last)
  }

  function WrittenList(rs: seq<Range>): (s: string)
    requires rs != []
  {
    if |rs| == 1 then Written(rs[0]) else Written(rs[0]) + "," + WrittenList(rs[1..])
  }

  lemma {:induction false} AllDigits(s: string, i: nat, base: nat)
    requires i <= |s| && forall k :: i <= k < |s| ==> DigitValue(s[k]) < base
    ensures SkipDigits(s, i, base) == |s|
    decreases |s| - i
  {
    if i < |s| {
      AllDigits(s, i + 1, base);
    }
  }

  /** Digits only, without spaces or sign: all of s is read. */
  lemma StrtoulOfDigits(s: string, base: nat, max: nat)
    requires s != [] && '0' <= s[0] <= '9' && BaseAt(s, 0) == (0, base)
    requires forall k :: 0 <= k < |s| ==> DigitValue(s[k]) < base
    ensures Strtoul(s, max) == (if Value(s, base) > max then max else Value(s, base), |s|)
  {
    assert SkipSpaces(s, 0) == 0;
    AllDigits(s, 0, base);
    assert s[0..|s|] == s;
  }

  lemma StrtoulOfDecimal(n: nat, max: nat)
    ensures Strtoul(Dec(n), max) == (if n > max then max else n, |Dec(n)|)
  {
    var s := Dec(n);
    ValueOfDec(n);
    if n == 0 {
      assert s == ['0'] && ['0'][..0] == [];
      assert Value(s, 8) == 0;
      StrtoulOfDigits(s, 8, max);
    } else {
      StrtoulOfDigits(s, 10, max);
    }
  }

  /** A decimal number is a port exactly when it lies in 1..65535. */
  lemma PortOfDecimal(n: nat, max: nat)
    requires ULONG32 <= max
    ensures Port(Dec(n), max) == if 1 <= n <= 65535 then Some(n) else None
  {
    StrtoulOfDecimal(n, max);
  }

  lemma {:induction false} FindFirst(a: string, c: char, b: string)
    requires c !in a
    ensures FindChar(a + [c] + b, c) == Some(|a|)
  {
    var s := a + [c] + b;
    if a != [] {
      assert s[1..] == a[1..] + [c] + b;
      FindFirst(a[1..], c, b);
    }
  }

  lemma {:induction false} FindNone(a: string, c: char)
    requires c !in a
    ensures FindChar(a, c) == None
  {
    if a != [] {
      FindNone(a[1..], c);
    }
  }

  lemma MeaningOfOne(a: string, p: nat, max: nat)
    requires '-' !in a && Port(a, max) == Some(p)
    ensures Meaning(a, max) == Some(Range(p, p))
  {
    FindNone(a, '-');
  }

  lemma MeaningOfPair(a: string, b: string, first: nat, last: nat, max: nat)
    requires '-' !in a && Port(a, max) == Some(first) && Port(b, max) == Some(last) && first <= last
    ensures Meaning(a + "-" + b, max) == Some(Range(first, last))
  {
    var s := a + ['-'] + b;
    FindFirst(a, '-', b);
    assert s[..|a|] == a && s[|a| + 1..] == b;
  }

  lemma MeaningOfWritten(r: Range, max: nat)
    requires 1 <= r.first <= r.last <= 65535 && ULONG32 <= max
    ensures Meaning(Written(r), max) == Some(r)
  {
    PortOfDecimal(r.first, max);
    PortOfDecimal(r.last, max);
    if r.first == r.last {
      MeaningOfOne(Dec(r.first), r.first, max);
    } else {
      MeaningOfPair(Dec(r.first), Dec(r.last), r.first, r.last, max);
    }
  }

  lemma TokensOfList(first: string, rest: string)
    requires first != [] && ',' !in first
    ensures Tokens(first + "," + rest) == [first] + Tokens(rest)
  {
    var s := first + "," + rest;
    assert s == first + [','] + rest;
    FindFirst(first, ',', rest);
    assert s[..|first|] == first && s[|first| + 1..] == rest;
  }

  /** The spec s lists exactly the ranges rs. */
  predicate Lists(s: string, rs: seq<Range>, max: nat) {
    Meaningful(s, max) && Leading(Meanings(Tokens(s), max)) == rs
  }

  lemma OneToken(first: string, r: Range, max: nat)
    requires first != [] && ',' !in first && Meaning(first, max) == Some(r)
    ensures Lists(first, [r], max)
  {
    FindNone(first, ',');
    assert Meanings([first], max) == [Some(r)];
    assert Leading([Some(r)]) == [r] + Leading([]);
  }

  lemma OneMoreToken(first: string, r: Range, rest: string, rs: seq<Range>, max: nat)
    requires first != [] && ',' !in first && Meaning(first, max) == Some(r) && Lists(rest, rs, max)
    ensures Lists(first + "," + rest, [r] + rs, max)
  {
    TokensOfList(first, rest);
    MeaningsCons(first, Tokens(rest), max);
    LeadingCons(r, Meanings(Tokens(rest), max));
  }

  lemma MeaningsCons(tok: string, toks: seq<string>, max: nat)
    ensures Meanings([tok] + toks, max) == [Meaning(tok, max)] + Meanings(toks, max)
  {
    var all := Meanings([tok] + toks, max);
    assert forall i :: 1 <= i < |all| ==> all[i] == Meaning(toks[i - 1], max);
  }

  lemma LeadingCons(r: Range, ms: seq<Option<Range>>)
    ensures Leading([Some(r)] + ms) == [r] + Leading(ms)
    ensures AllMeaningful(ms) ==> AllMeaningful([Some(r)] + ms)
  {
    assert ([Some(r)] + ms)[1..] == ms;
  }

  /** Writing any non-empty list of ranges and parsing it gives back exactly these ranges, and so these ports. */
  lemma {:induction false} WrittenListReadBack(rs: seq<Range>, max: nat)
    requires rs != [] && ULONG32 <= max
    requires forall i :: 0 <= i < |rs| ==> 1 <= rs[i].first <= rs[i].last <= 65535
    ensures Lists(WrittenList(rs), rs, max) && Listed(WrittenList(rs), max) == Union(rs)
    decreases |rs|
  {
    var first := Written(rs[0]);
    MeaningOfWritten(rs[0], max);
    WrittenIsToken(rs[0]);
    if |rs| == 1 {
      OneToken(first, rs[0], max);
      assert rs == [rs[0]];
    } else {
      var rest := WrittenList(rs[1..]);
      WrittenListReadBack(rs[1..], max);
      OneMoreToken(first, rs[0], rest, rs[1..], max);
      assert WrittenList(rs) == first + "," + rest && rs == [rs[0]] + rs[1..];
    }
  }

  lemma WrittenIsToken(r: Range)
    ensures Written(r) != [] && ',' !in Written(r)
  {
  }

  // ---------- every string of digits, and what it is read as ----------

  predicate AllBelow(s: string, base: nat) {
    forall k :: 0 <= k < |s| ==> DigitValue(s[k]) < base
  }

  predicate Digits(s: string) {
    s != [] && forall k :: 0 <= k < |s| ==> '0' <= s[k] <= '9'
  }

  function InRange(v: nat): (r: Option<nat>) {
    if 1 <= v <= 65535 then Some(v) else None
  }

  lemma {:induction false} ReadsAllDigits(s: string, i: nat, base: nat)
    requires i <= |s|
    ensures SkipDigits(s, i, base) == |s| <==> forall k :: i <= k < |s| ==> DigitValue(s[k]) < base
    decreases |s| - i
  {
    if i < |s| && DigitValue(s[i]) < base {
      ReadsAllDigits(s, i + 1, base);
    }
  }

  /** What a string of digits means: octal with a leading zero, decimal without. */
  lemma PortOfDigits(s: string, max: nat)
    requires Digits(s) && ULONG32 <= max
    ensures var base := if s[0] == '0' then 8 else 10;
            Port(s, max) == if AllBelow(s, base) then InRange(Value(s, base)) else None
  {
    var base := if s[0] == '0' then 8 else 10;
    assert SkipSpaces(s, 0) == 0 && BaseAt(s, 0) == (0, base);
    ReadsAllDigits(s, 0, base);
    assert s[0..|s|] == s;
  }

  /** The octal value of octal digits is the decimal one only up to 7. */
  lemma {:induction false} OctalBelowDecimal(s: string)
    requires AllBelow(s, 8)
    ensures Value(s, 8) <= Value(s, 10) && (Value(s, 8) == Value(s, 10) <==> Value(s, 10) < 8)
  {
    if s != [] {
      OctalBelowDecimal(s[..|s| - 1]);
    }
  }

  lemma {:induction false} SmallValueIsOctal(s: string)
    requires Digits(s) && Value(s, 10) < 8
    ensures AllBelow(s, 8)
  {
    var front := s[..|s| - 1];
    assert Value(front, 10) == 0;
    ZeroValue(front);
  }

  lemma {:induction false} ZeroValue(s: string)
    requires Value(s, 10) == 0
    ensures forall k :: 0 <= k < |s| ==> s[k] == '0'
  {
    if s != [] {
      ZeroValue(s[..|s| - 1]);
    }
  }

  /** The exact condition for a string of digits to be read as the decimal number it shows: no leading zero, or a value
      below 8, or out of range in either reading. */
  lemma ReadAsDecimal(s: string, max: nat)
    requires Digits(s) && ULONG32 <= max
    ensures Port(s, max) == InRange(Value(s, 10)) <==>
            || s[0] != '0' || Value(s, 10) < 8
            || (Value(s, 10) > 65535 && !(AllBelow(s, 8) && 1 <= Value(s, 8) <= 65535))
  {
    PortOfDigits(s, max);
    if Value(s, 10) < 8 {
      SmallValueIsOctal(s);
    }
    if AllBelow(s, 8) {
      OctalBelowDecimal(s);
    }
  }

  /** What 0x means: the hexadecimal number behind it, if everything behind it is a hexadecimal digit. */
  lemma PortOfHexadecimal(x: char, h: string, max: nat)
    requires (x == 'x' || x == 'X') && ULONG32 <= max
    ensures Port(['0', x] + h, max) == if h != [] && AllBelow(h, 16) then InRange(Value(h, 16)) else None
  {
    var s := ['0', x] + h;
    assert SkipSpaces(s, 0) == 0;
    assert forall k :: 0 <= k < |h| ==> h[k] == s[k + 2];
    hide Value, SkipSpaces;
    if h != [] && DigitValue(h[0]) < 16 {
      assert BaseAt(s, 0) == (2, 16);
      ReadsAllDigits(s, 2, 16);
      assert s[2..|s|] == h;
    } else {
      assert BaseAt(s, 0) == (0, 8) && s[1] == x;
      assert SkipDigits(s, 1, 8) == 1 && SkipDigits(s, 0, 8) == 1;
    }
  }

  /** A number written with a leading zero, and the port that is opened instead. */
  lemma LeadingZeroIsOctal(max: nat)
    requires ULONG32 <= max
    ensures Port("010", max) == Some(8) && Port("08", max) == None
  {
    var o, e := "010", "08";
    assert o[..2] == "01" && "01"[..1] == "0" && "0"[..0] == "";
    assert Value("0", 8) == 0 && Value("01", 8) == 1 && Value(o, 8) == 8;
    PortOfDigits(o, max);
    PortOfDigits(e, max);
    assert DigitValue(e[1]) == 8;
  }
}
