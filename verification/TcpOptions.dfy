/** Parsing an IPv4/TCP packet and erasing TCP Fast Open options in place. */
module TcpOptions {
  import opened Wrappers

  const IP_HEADER: nat := 20
  const TCP_HEADER: nat := 20
  const NOP: byte := 1
  const FAST_OPEN: byte := 34

  datatype Parsed = Parsed(tcp: nat, tcpLen: nat, ttl: byte, saddr: seq<byte>, daddr: seq<byte>, payloadLen: nat)

  /** fh_pkt4_parse: None for every malformed packet. */
  method Parse4(pkt: array<byte>) returns (r: Option<Parsed>)
    ensures r.Some? ==>
              && IP_HEADER <= r.value.tcp <= 60 && TCP_HEADER <= r.value.tcpLen <= 60
              && r.value.tcp + r.value.tcpLen + r.value.payloadLen == pkt.Length
              && r.value.tcp == (pkt[0] as int % 16) * 4 && r.value.tcpLen == (pkt[r.value.tcp + 12] as int / 16) * 4
              && r.value.ttl == pkt[8] && r.value.saddr == pkt[12..16] && r.value.daddr == pkt[16..20]
    ensures r.Some? <==>
              && pkt.Length >= IP_HEADER
              && pkt[9] == 6
              && var tcp := (pkt[0] as int % 16) * 4;
                 tcp >= IP_HEADER && pkt.Length >= tcp + TCP_HEADER
                 && var len := (pkt[tcp + 12] as int / 16) * 4; len >= TCP_HEADER && pkt.Length >= tcp + len
  {
    if pkt.Length < IP_HEADER {
      return None;
    }
    var ipLen := (pkt[0] as int % 16) * 4;
    if ipLen < IP_HEADER {
      return None;
    }
    if pkt[9] != 6 {
      return None;
    }
    if pkt.Length < ipLen + TCP_HEADER {
      return None;
    }
    var doff := pkt[ipLen + 12] as int / 16;
    if doff < TCP_HEADER / 4 {
      return None;
    }
    var tcpLen := doff * 4;
    if pkt.Length < ipLen + tcpLen {
      return None;
    }
    r := Some(Parsed(ipLen, tcpLen, pkt[8], pkt[12..16], pkt[16..20], pkt.Length - ipLen - tcpLen));
  }

  // ---------- the option area as a sequence ----------

  /** A well-formed option with a length byte starts at i. */
  predicate HasOption(o: seq<byte>, i: nat) {
    i + 1 < |o| && o[i] != 0 && o[i] != NOP && 2 <= o[i + 1] && i + o[i + 1] as int <= |o|
  }

  datatype Opt = Opt(at: nat, data: seq<byte>)

  /** The options other than NOP, as a receiver walks them: section 3.2 of RFC 9293. Kind 0 ends the list. */
  function Walk(o: seq<byte>, i: nat): (r: seq<Opt>)
    requires i <= |o|
    decreases |o| - i
  {
    if i == |o| || o[i] == 0 then []
    else if o[i] == NOP then Walk(o, i + 1)
    else if !HasOption(o, i) then []
    else [Opt(i, o[i..i + o[i + 1] as int])] + Walk(o, i + o[i + 1] as int)
  }

  predicate IsFastOpen(x: Opt) {
    x.data != [] && x.data[0] == FAST_OPEN
  }

  function WithoutFastOpen(xs: seq<Opt>): (r: seq<Opt>) {
    if xs == [] then [] else (if IsFastOpen(xs[0]) then [] else [xs[0]]) + WithoutFastOpen(xs[1..])
  }

  /** o with n bytes from i on turned into NOPs. */
  function Fill(o: seq<byte>, i: nat, n: nat): (r: seq<byte>)
    requires i + n <= |o|
    ensures |r| == |o|
    ensures forall k :: 0 <= k < |o| ==> r[k] == if i <= k < i + n then NOP else o[k]
  {
    o[..i] + seq(n, _ => NOP) + o[i + n..]
  }

  /** What the removal loop leaves when it continues from i. Unlike a receiver it walks on past kind 0. */
  function Scrub(o: seq<byte>, i: nat): (r: seq<byte>)
    requires i <= |o|
    ensures |r| == |o|
    decreases |o| - i
  {
    if i == |o| then o
    else if o[i] == 0 || o[i] == NOP then Scrub(o, i + 1)
    else if !HasOption(o, i) then o
    else
      var n := o[i + 1] as int;
      Scrub(if o[i] == FAST_OPEN then Fill(o, i, n) else o, i + n)
  }

  /** Whether that loop meets a Fast Open option. */
  predicate Meets(o: seq<byte>, i: nat)
    requires i <= |o|
    decreases |o| - i
  {
    i < |o| &&
    if o[i] == 0 || o[i] == NOP then Meets(o, i + 1)
    else HasOption(o, i) && (o[i] == FAST_OPEN || Meets(o, i + o[i + 1] as int))
  }

  /** memset */
  method SetBytes(a: array<byte>, from: nat, n: nat, value: byte)
    requires from + n <= a.Length
    modifies a
    ensures forall k :: 0 <= k < a.Length ==> a[k] == if from <= k < from + n then value else old(a[k])
  {
    for j := 0 to n
      invariant forall k :: 0 <= k < a.Length ==> a[k] == if from <= k < from + j then value else old(a[k])
    {
      a[from + j] := value;
    }
  }

  lemma FillInside(was: seq<byte>, now: seq<byte>, base: nat, n: nat, i: nat, len: nat)
    requires |was| == |now| && base + n <= |was| && i + len <= n
    requires forall k :: 0 <= k < |was| ==> now[k] == if base + i <= k < base + i + len then NOP else was[k]
    ensures now[..base] == was[..base] && now[base + n..] == was[base + n..]
    ensures now[base..base + n] == Fill(was[base..base + n], i, len)
  {
  }

  /** remove_tfo_cookie on the TCP header at `tcp`, checksum apart: true when nothing was removed. */
  method RemoveFastOpen(pkt: array<byte>, tcp: nat) returns (notFound: bool)
    requires tcp + TCP_HEADER <= pkt.Length && tcp + (pkt[tcp + 12] as int / 16) * 4 <= pkt.Length
    modifies pkt
    ensures var len := (old(pkt[tcp + 12]) as int / 16) * 4;
            if len < TCP_HEADER then notFound && pkt[..] == old(pkt[..])
            else
              && pkt[..tcp + TCP_HEADER] == old(pkt[..tcp + TCP_HEADER]) && pkt[tcp + len..] == old(pkt[tcp + len..])
              && pkt[tcp + TCP_HEADER..tcp + len] == Scrub(old(pkt[tcp + TCP_HEADER..tcp + len]), 0)
              && notFound == !Meets(old(pkt[tcp + TCP_HEADER..tcp + len]), 0)
              && Erased(old(pkt[tcp + TCP_HEADER..tcp + len]), pkt[tcp + TCP_HEADER..tcp + len], !notFound)
  {
    var doff := pkt[tcp + 12] as int / 16;
    if doff < TCP_HEADER / 4 {
      return true;
    }
    LoopErases(pkt[tcp + TCP_HEADER..tcp + doff * 4]);
    notFound := ScrubArea(pkt, tcp + TCP_HEADER, doff * 4 - TCP_HEADER);
  }

  /** The removal loop over the n option bytes at base. */
  method ScrubArea(pkt: array<byte>, base: nat, n: nat) returns (notFound: bool)
    requires base + n <= pkt.Length
    modifies pkt
    ensures pkt[..base] == old(pkt[..base]) && pkt[base + n..] == old(pkt[base + n..])
    ensures pkt[base..base + n] == Scrub(old(pkt[base..base + n]), 0)
    ensures notFound == !Meets(old(pkt[base..base + n]), 0)
  {
    notFound := true;
    ghost var before := pkt[..];
    ghost var o := pkt[base..base + n];
    var i := 0;
    while i < n
      invariant 0 <= i <= n
      invariant pkt[..base] == before[..base] && pkt[base + n..] == before[base + n..]
      invariant Scrub(pkt[base..base + n], i) == Scrub(o, 0)
      invariant Meets(o, 0) == (!notFound || Meets(pkt[base..base + n], i))
    {
      ghost var now := pkt[base..base + n];
      var kind := pkt[base + i];
      assert kind == now[i];
      if kind == 0 || kind == 1 {
        i := i + 1;
        continue;
      }
      if i + 1 >= n {
        break;
      }
      var len := pkt[base + i + 1] as int;
      assert len == now[i + 1] as int;
      if len < 2 || i + len > n {
        break;
      }
      if kind == FAST_OPEN {
        notFound := false;
        ghost var was := pkt[..];
        SetBytes(pkt, base + i, len, NOP);
        FillInside(was, pkt[..], base, n, i, len);
      }
      i := i + len;
    }
  }

  // ---------- what that means for a receiver ----------

  lemma {:induction false} ScrubKeepsPrefix(o: seq<byte>, i: nat)
    requires i <= |o|
    ensures Scrub(o, i)[..i] == o[..i]
    decreases |o| - i
  {
    if i == |o| {
    } else if o[i] == 0 || o[i] == NOP {
      ScrubKeepsPrefix(o, i + 1);
      assert Scrub(o, i)[..i] == Scrub(o, i)[..i + 1][..i] == o[..i + 1][..i];
    } else if HasOption(o, i) {
      var n := o[i + 1] as int;
      var o' := if o[i] == FAST_OPEN then Fill(o, i, n) else o;
      ScrubKeepsPrefix(o', i + n);
      assert Scrub(o, i)[..i] == Scrub(o, i)[..i + n][..i] == o'[..i + n][..i] == o[..i];
    }
  }

  /** A run of NOPs is skipped. */
  lemma {:induction false} WalkSkipsNops(o: seq<byte>, i: nat, n: nat)
    requires i + n <= |o| && forall k :: i <= k < i + n ==> o[k] == NOP
    ensures Walk(o, i) == Walk(o, i + n) && Scrub(o, i) == Scrub(o, i + n) && Meets(o, i) == Meets(o, i + n)
    decreases n
  {
    if n > 0 {
      WalkSkipsNops(o, i + 1, n - 1);
    }
  }

  /** One option at i, kept or erased; s is what the rest of the loop makes of it. */
  lemma OptionStep(o: seq<byte>, i: nat, s: seq<byte>)
    requires HasOption(o, i) && |s| == |o|
    requires var n := o[i + 1] as int;
             && s[..i + n] == (if o[i] == FAST_OPEN then Fill(o, i, n) else o)[..i + n]
             && Walk(s, i + n) == WithoutFastOpen(Walk(o, i + n))
    ensures Walk(s, i) == WithoutFastOpen(Walk(o, i))
  {
    var n := o[i + 1] as int;
    var first := Opt(i, o[i..i + n]);
    var o' := if o[i] == FAST_OPEN then Fill(o, i, n) else o;
    assert forall k :: i <= k < i + n ==> s[k] == s[..i + n][k] == o'[k];
    assert Walk(o, i) == [first] + Walk(o, i + n);
    assert ([first] + Walk(o, i + n))[1..] == Walk(o, i + n);
    assert IsFastOpen(first) <==> o[i] == FAST_OPEN;
    if o[i] == FAST_OPEN {
      WalkSkipsNops(s, i, n);
    } else {
      assert s[i..i + n] == o[i..i + n];
    }
  }

  /** After the removal a receiver finds no Fast Open option, and all its other options where they were. */
  lemma {:induction false} ReceiverSeesOthersUnchanged(o: seq<byte>, i: nat)
    requires i <= |o|
    ensures Walk(Scrub(o, i), i) == WithoutFastOpen(Walk(o, i))
    decreases |o| - i
  {
    if i < |o| && (o[i] == 0 || o[i] == NOP) {
      var s := Scrub(o, i + 1);
      ScrubKeepsPrefix(o, i + 1);
      assert s[i] == s[..i + 1][i] == o[i];
      ReceiverSeesOthersUnchanged(o, i + 1);
    } else if i < |o| && HasOption(o, i) {
      var n := o[i + 1] as int;
      var o' := if o[i] == FAST_OPEN then Fill(o, i, n) else o;
      var s := Scrub(o', i + n);
      assert Scrub(o, i) == s;
      ScrubKeepsPrefix(o', i + n);
      ReceiverSeesOthersUnchanged(o', i + n);
      WalkDependsOnSuffix(o, o', i + n);
      OptionStep(o, i, s);
    }
  }

  lemma {:induction false} WalkDependsOnSuffix(o: seq<byte>, o': seq<byte>, i: nat)
    requires |o| == |o'| && i <= |o| && forall j :: i <= j < |o| ==> o[j] == o'[j]
    ensures Walk(o, i) == Walk(o', i)
    decreases |o| - i
  {
    if i < |o| && o[i] == NOP {
      WalkDependsOnSuffix(o, o', i + 1);
    } else if i < |o| && HasOption(o, i) {
      var n := o[i + 1] as int;
      WalkDependsOnSuffix(o, o', i + n);
      assert o[i..i + n] == o'[i..i + n];
    }
  }

  lemma {:induction false} NoFastOpenLeft(xs: seq<Opt>)
    ensures forall x :: x in WithoutFastOpen(xs) ==> !IsFastOpen(x) && x in xs
    ensures forall x :: x in xs && !IsFastOpen(x) ==> x in WithoutFastOpen(xs)
  {
    if xs != [] {
      NoFastOpenLeft(xs[1..]);
      assert xs == [xs[0]] + xs[1..];
    }
  }

  /** A second run finds nothing and changes nothing. */
  lemma {:induction false} SecondRunFindsNothing(o: seq<byte>, i: nat)
    requires i <= |o|
    ensures !Meets(Scrub(o, i), i) && Scrub(Scrub(o, i), i) == Scrub(o, i)
    decreases |o| - i
  {
    if i == |o| {
    } else if o[i] == 0 || o[i] == NOP {
      ScrubKeepsPrefix(o, i + 1);
      assert Scrub(o, i)[i] == Scrub(o, i)[..i + 1][i] == o[i];
      SecondRunFindsNothing(o, i + 1);
    } else if HasOption(o, i) {
      var n := o[i + 1] as int;
      var o' := if o[i] == FAST_OPEN then Fill(o, i, n) else o;
      var s := Scrub(o, i);
      ScrubKeepsPrefix(o', i + n);
      assert forall k :: i <= k < i + n ==> s[k] == s[..i + n][k] == o'[k];
      SecondRunFindsNothing(o', i + n);
      if o[i] == FAST_OPEN {
        WalkSkipsNops(s, i, n);
      }
    }
  }

  /** Byte k lies in a Fast Open option the loop meets from i on. */
  predicate Covered(o: seq<byte>, i: nat, k: nat)
    requires i <= |o|
    decreases |o| - i
  {
    i < |o| &&
    if o[i] == 0 || o[i] == NOP then Covered(o, i + 1, k)
    else HasOption(o, i) && ((o[i] == FAST_OPEN && i <= k < i + o[i + 1] as int) || Covered(o, i + o[i + 1] as int, k))
  }

  /** Every byte is either kept, or was part of what the loop takes for a Fast Open option and is a NOP now. */
  lemma {:induction false} OnlyFastOpenBytesChange(o: seq<byte>, i: nat, k: nat)
    requires i <= |o| && k < |o|
    ensures Scrub(o, i)[k] == if Covered(o, i, k) then NOP else o[k]
    decreases |o| - i
  {
    if i == |o| {
    } else if o[i] == 0 || o[i] == NOP {
      OnlyFastOpenBytesChange(o, i + 1, k);
    } else if HasOption(o, i) {
      var n := o[i + 1] as int;
      var o' := if o[i] == FAST_OPEN then Fill(o, i, n) else o;
      var s := Scrub(o', i + n);
      assert Scrub(o, i) == s;
      OnlyFastOpenBytesChange(o', i + n, k);
      CoveredDependsOnSuffix(o, o', i + n, k);
      assert s[k] == if Covered(o, i + n, k) then NOP else o'[k];
      if k < i + n {
        CoveredIsAhead(o, i + n, k);
        assert s[k] == o'[k];
      }
    }
  }

  lemma {:induction false} CoveredIsAhead(o: seq<byte>, i: nat, k: nat)
    requires k < i <= |o|
    ensures !Covered(o, i, k)
    decreases |o| - i
  {
    if i < |o| {
      if o[i] == 0 || o[i] == NOP {
        CoveredIsAhead(o, i + 1, k);
      } else if HasOption(o, i) {
        CoveredIsAhead(o, i + o[i + 1] as int, k);
      }
    }
  }

  lemma {:induction false} CoveredDependsOnSuffix(o: seq<byte>, o': seq<byte>, i: nat, k: nat)
    requires |o| == |o'| && i <= |o| && forall j :: i <= j < |o| ==> o[j] == o'[j]
    ensures Covered(o, i, k) == Covered(o', i, k)
    decreases |o| - i
  {
    if i < |o| {
      if o[i] == 0 || o[i] == NOP {
        CoveredDependsOnSuffix(o, o', i + 1, k);
      } else if HasOption(o, i) {
        CoveredDependsOnSuffix(o, o', i + o[i + 1] as int, k);
      }
    }
  }

  // ---------- behind the end of the list ----------

  /** Where a receiver's walk stops: at the end, at kind 0, or at a malformed option. */
  function ListEnd(o: seq<byte>, i: nat): (e: nat)
    requires i <= |o|
    ensures i <= e <= |o|
    decreases |o| - i
  {
    if i == |o| || o[i] == 0 then i
    else if o[i] == NOP then ListEnd(o, i + 1)
    else if !HasOption(o, i) then i
    else ListEnd(o, i + o[i + 1] as int)
  }

  /** Byte k lies in one of these options that is a Fast Open option (section 4.1.1 of RFC 7413). */
  predicate InFastOpen(xs: seq<Opt>, k: nat) {
    exists x :: x in xs && IsFastOpen(x) && x.at <= k < x.at + |x.data|
  }

  predicate AnyFastOpen(xs: seq<Opt>) {
    exists x :: x in xs && IsFastOpen(x)
  }

  lemma OptionFirst(x: Opt, xs: seq<Opt>, k: nat)
    ensures InFastOpen([x] + xs, k) <==> (IsFastOpen(x) && x.at <= k < x.at + |x.data|) || InFastOpen(xs, k)
    ensures AnyFastOpen([x] + xs) <==> IsFastOpen(x) || AnyFastOpen(xs)
  {
    var all := [x] + xs;
    assert all[0] == x && forall y :: y in all <==> y == x || y in xs;
  }

  /** A byte the loop erases is in a Fast Open option that the receiver reads, or behind the end of its list. */
  lemma {:induction false} ErasedOrBehind(o: seq<byte>, i: nat, k: nat)
    requires i <= |o|
    ensures Covered(o, i, k) <==> InFastOpen(Walk(o, i), k) || Covered(o, ListEnd(o, i), k)
    ensures Meets(o, i) <==> AnyFastOpen(Walk(o, i)) || Meets(o, ListEnd(o, i))
    decreases |o| - i
  {
    if i < |o| && o[i] == NOP {
      ErasedOrBehind(o, i + 1, k);
    } else if i < |o| && HasOption(o, i) {
      var n := o[i + 1] as int;
      ErasedOrBehind(o, i + n, k);
      OptionFirst(Opt(i, o[i..i + n]), Walk(o, i + n), k);
    }
  }

  lemma {:induction false} OptionsBeforeEnd(o: seq<byte>, i: nat)
    requires i <= |o|
    ensures forall x :: x in Walk(o, i) ==> x.at + |x.data| <= ListEnd(o, i)
    decreases |o| - i
  {
    if i < |o| && o[i] == NOP {
      OptionsBeforeEnd(o, i + 1);
    } else if i < |o| && HasOption(o, i) {
      OptionsBeforeEnd(o, i + o[i + 1] as int);
    }
  }

  /** A loop that meets a Fast Open option changes at least its first byte. */
  lemma {:induction false} MeetingCovers(o: seq<byte>, i: nat) returns (k: nat)
    requires i <= |o| && Meets(o, i)
    ensures i <= k < |o| && o[k] == FAST_OPEN && Covered(o, i, k)
    decreases |o| - i
  {
    if o[i] == 0 || o[i] == NOP {
      k := MeetingCovers(o, i + 1);
    } else if o[i] == FAST_OPEN {
      k := i;
    } else {
      k := MeetingCovers(o, i + o[i + 1] as int);
    }
  }

  /** Nothing differs outside the Fast Open options a receiver reads. */
  predicate OnlyReadOptionsDiffer(before: seq<byte>, after: seq<byte>) {
    |after| == |before| && forall k :: 0 <= k < |before| && after[k] != before[k] ==> InFastOpen(Walk(before, 0), k)
  }

  lemma BytesAfterErasing(o: seq<byte>)
    ensures forall k :: 0 <= k < |o| ==>
              Scrub(o, 0)[k] == if InFastOpen(Walk(o, 0), k) || Covered(o, ListEnd(o, 0), k) then NOP else o[k]
  {
    forall k | 0 <= k < |o|
      ensures Scrub(o, 0)[k] == if InFastOpen(Walk(o, 0), k) || Covered(o, ListEnd(o, 0), k) then NOP else o[k]
    {
      OnlyFastOpenBytesChange(o, 0, k);
      ErasedOrBehind(o, 0, k);
    }
  }

  /** The exact condition for the loop to change only what a receiver reads as Fast Open: it meets none behind the end
      of the receiver's list. */
  lemma ErasesOnlyReadOptions(o: seq<byte>)
    ensures OnlyReadOptionsDiffer(o, Scrub(o, 0)) <==> !Meets(o, ListEnd(o, 0))
  {
    var e := ListEnd(o, 0);
    BytesAfterErasing(o);
    if Meets(o, e) {
      var k := MeetingCovers(o, e);
      OptionsBeforeEnd(o, 0);
      assert Scrub(o, 0)[k] != o[k] && !InFastOpen(Walk(o, 0), k);
    } else {
      NothingCovered(o, e);
    }
  }

  lemma {:induction false} NothingCovered(o: seq<byte>, i: nat)
    requires i <= |o| && !Meets(o, i)
    ensures forall k: nat :: !Covered(o, i, k)
    decreases |o| - i
  {
    if i < |o| {
      if o[i] == 0 || o[i] == NOP {
        NothingCovered(o, i + 1);
      } else if HasOption(o, i) {
        NothingCovered(o, i + o[i + 1] as int);
      }
    }
  }

  /** An option area whose list ends at once: a receiver reads nothing, and yet the loop reports a removal and erases
      four bytes. */
  lemma BytesBehindTheListAreErased(o: seq<byte>)
    requires o == [0, FAST_OPEN, 4, 7, 7]
    ensures Walk(o, 0) == [] && Meets(o, 0) && Scrub(o, 0) == [0, NOP, NOP, NOP, NOP]
    ensures !OnlyReadOptionsDiffer(o, Scrub(o, 0))
  {
    var s := Fill(o, 1, 4);
    assert HasOption(o, 1) && Scrub(o, 0) == Scrub(o, 1) == Scrub(s, 5) == s;
    assert s[1] == NOP;
    ErasesOnlyReadOptions(o);
  }

  /** What erasing means to a receiver of the option area, and to the bytes it does not read. */
  ghost predicate Erased(before: seq<byte>, after: seq<byte>, modified: bool) {
    var options, end := Walk(before, 0), ListEnd(before, 0);
    && |after| == |before|
    && Walk(after, 0) == WithoutFastOpen(options)
    && (forall x :: x in Walk(after, 0) ==> !IsFastOpen(x))
    && !Meets(after, 0)
    && (!modified ==> after == before)
    && (forall k :: 0 <= k < |before| ==> after[k] == if InFastOpen(options, k) || Covered(before, end, k) then NOP else before[k])
    && (modified <==> AnyFastOpen(options) || Meets(before, end))
    && (OnlyReadOptionsDiffer(before, after) <==> !Meets(before, end))
  }

  lemma LoopErases(o: seq<byte>)
    ensures Erased(o, Scrub(o, 0), Meets(o, 0))
  {
    ReceiverSeesOthersUnchanged(o, 0);
    NoFastOpenLeft(Walk(o, 0));
    SecondRunFindsNothing(o, 0);
    BytesAfterErasing(o);
    ErasedOrBehind(o, 0, 0);
    ErasesOnlyReadOptions(o);
    if !Meets(o, 0) {
      NothingMetNothingChanged(o, 0);
    }
  }

  lemma {:induction false} NothingMetNothingChanged(o: seq<byte>, i: nat)
    requires i <= |o| && !Meets(o, i)
    ensures Scrub(o, i) == o
    decreases |o| - i
  {
    if i < |o| {
      if o[i] == 0 || o[i] == NOP {
        NothingMetNothingChanged(o, i + 1);
      } else if HasOption(o, i) {
        NothingMetNothingChanged(o, i + o[i + 1] as int);
      }
    }
  }

  /** The SYN path of the packet handler: parse, then erase Fast Open in the option area the parser accepted. */
  method HandleSyn(pkt: array<byte>) returns (r: Option<Parsed>, modified: bool)
    modifies pkt
    ensures r.None? ==> pkt[..] == old(pkt[..]) && !modified
    ensures r.Some? ==>
              var from, end := r.value.tcp + TCP_HEADER, r.value.tcp + r.value.tcpLen;
              && IP_HEADER + TCP_HEADER <= from <= end <= pkt.Length
              && pkt[..from] == old(pkt[..from]) && pkt[end..] == old(pkt[end..])
              && Erased(old(pkt[from..end]), pkt[from..end], modified)
  {
    r := Parse4(pkt);
    modified := false;
    if r.Some? {
      var notFound := RemoveFastOpen(pkt, r.value.tcp);
      modified := !notFound;
    }
  }
}
