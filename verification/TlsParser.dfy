/** A strict ClientHello parser, independent of the builder: section 7.4.1.2 of RFC 5246 for the message,
    section 3 of RFC 6066 for server_name, section 3 of RFC 7685 for padding. */
module TlsParser {
  import opened Wrappers
  import opened TlsHello

  type Bytes = seq<byte>

  datatype Extension = Extension(kind: nat, data: Bytes)

  datatype ClientHello = ClientHello(
    version: Bytes, random: Bytes, session: Bytes, suites: Bytes, compression: Bytes, extensions: seq<Extension>)

  function Number(s: Bytes): (n: nat) {
    if s == [] then 0 else Number(s[..|s| - 1]) * 256 + s[|s| - 1] as nat
  }

  /** The first n bytes, and what follows. */
  function Take(s: Bytes, n: nat): (r: Option<(Bytes, Bytes)>)
    ensures r.Some? ==> r.value.0 + r.value.1 == s && |r.value.0| == n
  {
    if n <= |s| then Some((s[..n], s[n..])) else None
  }

  /** A vector with a length prefix of w bytes. */
  function Vector(s: Bytes, w: nat): (r: Option<(Bytes, Bytes)>)
    ensures r.Some? ==> |r.value.0| + |r.value.1| + w == |s|
  {
    match Take(s, w)
    case None => None
    case Some((prefix, rest)) => Take(rest, Number(prefix))
  }

  function Extensions(s: Bytes): (r: Option<seq<Extension>>)
    decreases |s|
  {
    if s == [] then Some([])
    else match FirstExtension(s)
      case None => None
      case Some((e, more)) => Prepend(e, Extensions(more))
  }

  function FirstExtension(s: Bytes): (r: Option<(Extension, Bytes)>)
    ensures r.Some? ==> |r.value.1| < |s|
  {
    match Take(s, 2)
    case None => None
    case Some((kind, rest)) =>
      match Vector(rest, 2)
      case None => None
      case Some((data, more)) => Some((Extension(Number(kind), data), more))
  }

  function Prepend(e: Extension, rest: Option<seq<Extension>>): Option<seq<Extension>> {
    if rest.None? then None else Some([e] + rest.value)
  }

  /** Cipher suites, compression methods and the extension block; everything must be consumed. */
  function Offers(s: Bytes): (r: Option<(Bytes, Bytes, seq<Extension>)>) {
    match Vector(s, 2)
    case None => None
    case Some((suites, s1)) =>
      match Vector(s1, 1)
      case None => None
      case Some((compression, s2)) =>
        match Vector(s2, 2)
        case None => None
        case Some((block, s3)) =>
          if s3 != [] || suites == [] || |suites| % 2 != 0 || compression == [] then None
          else match Extensions(block)
            case None => None
            case Some(es) => Some((suites, compression, es))
  }

  /** The body of a ClientHello. */
  function Body(s: Bytes): (r: Option<ClientHello>) {
    match Take(s, 2)
    case None => None
    case Some((version, s1)) =>
      match Take(s1, 32)
      case None => None
      case Some((random, s2)) =>
        match Vector(s2, 1)
        case None => None
        case Some((session, s3)) =>
          match Offers(s3)
          case None => None
          case Some((suites, compression, es)) =>
            if |session| <= 32 then Some(ClientHello(version, random, session, suites, compression, es)) else None
  }

  /** A handshake record that holds exactly one ClientHello. */
  function Record(s: Bytes): (r: Option<ClientHello>) {
    match Take(s, 3)
    case None => None
    case Some((head, s1)) =>
      if head != [22, 3, 3] then None else
      match Vector(s1, 2)
      case None => None
      case Some((fragment, s2)) =>
        if s2 != [] || fragment == [] || fragment[0] != 1 then None else
        match Vector(fragment[1..], 3)
        case None => None
        case Some((body, s3)) => if s3 == [] then Body(body) else None
  }

  /** The host name of a server_name extension: one list, one entry of type host_name, not empty. */
  function HostName(data: Bytes): (r: Option<Bytes>) {
    match Vector(data, 2)
    case None => None
    case Some((list, rest)) =>
      if rest != [] || list == [] || list[0] != 0 then None else
      match Vector(list[1..], 2)
      case None => None
      case Some((name, more)) => if more == [] && name != [] then Some(name) else None
  }

  predicate IsPadding(data: Bytes) {
    forall i :: 0 <= i < |data| ==> data[i] == 0
  }

  // ---------- pieces ----------

  lemma TakeFront(a: Bytes, b: Bytes)
    ensures Take(a + b, |a|) == Some((a, b))
  {
    assert (a + b)[..|a|] == a && (a + b)[|a|..] == b;
  }

  lemma Number1(a: byte)
    ensures Number([a]) == a as nat
  {
    assert [a][..0] == [];
  }

  lemma Number2(a: byte, b: byte)
    ensures Number([a, b]) == a as nat * 256 + b as nat
  {
    assert [a, b][..1] == [a];
    Number1(a);
  }

  lemma Number3(a: byte, b: byte, c: byte)
    ensures Number([a, b, c]) == (a as nat * 256 + b as nat) * 256 + c as nat
  {
    assert [a, b, c][..2] == [a, b];
    Number2(a, b);
  }

  lemma VectorFront(prefix: Bytes, data: Bytes, rest: Bytes)
    requires Number(prefix) == |data|
    ensures Vector(prefix + data + rest, |prefix|) == Some((data, rest))
  {
    assert prefix + data + rest == prefix + (data + rest);
    TakeFront(prefix, data + rest);
    TakeFront(data, rest);
  }

  lemma NumberBe16(n: nat)
    requires n < 0x1_0000
    ensures Number(Be16(n)) == n
  {
    Number2((n / 256) as byte, (n % 256) as byte);
  }

  lemma ExtensionFront(kind: nat, data: Bytes, more: Bytes)
    requires kind < 0x1_0000 && |data| < 0x1_0000
    ensures FirstExtension(Be16(kind) + Be16(|data|) + data + more) == Some((Extension(kind, data), more))
  {
    var s := Be16(kind) + Be16(|data|) + data + more;
    assert s == Be16(kind) + (Be16(|data|) + data + more);
    TakeFront(Be16(kind), Be16(|data|) + data + more);
    NumberBe16(kind);
    NumberBe16(|data|);
    VectorFront(Be16(|data|), data, more);
  }

  lemma OneMore(s: Bytes, e: Extension, more: Bytes, es: seq<Extension>)
    requires FirstExtension(s) == Some((e, more)) && Extensions(more) == Some(es)
    ensures Extensions(s) == Some([e] + es)
  {
    assert FirstExtension([]) == None;
  }

  /** Three fixed extensions in front of a block that parses. */
  lemma ThreeMore(s0: Bytes, s1: Bytes, s2: Bytes, s3: Bytes, e0: Extension, e1: Extension, e2: Extension, es: seq<Extension>)
    requires FirstExtension(s0) == Some((e0, s1)) && FirstExtension(s1) == Some((e1, s2)) && FirstExtension(s2) == Some((e2, s3))
    requires Extensions(s3) == Some(es)
    ensures Extensions(s0) == Some([e0] + ([e1] + ([e2] + es)))
  {
    OneMore(s2, e2, s3, es);
    OneMore(s1, e1, s2, [e2] + es);
    OneMore(s0, e0, s1, [e1] + ([e2] + es));
  }

  lemma VectorExact(prefix: Bytes, data: Bytes)
    requires Number(prefix) == |data|
    ensures Vector(prefix + data, |prefix|) == Some((data, []))
  {
    assert prefix + data == prefix + data + [];
    VectorFront(prefix, data, []);
  }

  // ---------- the built record ----------

  const GROUPS: Bytes := [0x00, 0x02, 0x00, 0x17]
  const ALGORITHMS: Bytes := [0x00, 0x02, 0x04, 0x03]
  const ALPN: Bytes := [0x00, 0x09, 0x08, 104, 116, 116, 112, 47, 49, 46, 49]

  function NameData(host: Bytes): (r: Bytes)
    requires |host| <= MAX_NAME
    ensures |r| == |host| + 5
  {
    Be16(|host| + 3) + ([0] + (Be16(|host|) + host))
  }

  function Names(host: Bytes): (r: Bytes)
    requires |host| <= MAX_NAME
    ensures |r| == SNI_AREA
  {
    NameExt(host) + PadExt(MAX_NAME - |host|)
  }

  function FromAlpn(names: Bytes): (r: Bytes)
    ensures |r| == 15 + |names|
  {
    Be16(16) + Be16(|ALPN|) + ALPN + names
  }

  function FromAlgorithms(names: Bytes): (r: Bytes)
    ensures |r| == 23 + |names|
  {
    Be16(13) + Be16(|ALGORITHMS|) + ALGORITHMS + FromAlpn(names)
  }

  /** The extension block. */
  function Block(names: Bytes): (r: Bytes)
    ensures |r| == 31 + |names|
  {
    Be16(10) + Be16(|GROUPS|) + GROUPS + FromAlgorithms(names)
  }

  /** The five extensions a receiver must find, filling their block without a gap. */
  function Expected(host: Bytes): (r: seq<Extension>)
    requires |host| <= MAX_NAME
    ensures |r| == 5 && r[3] == Extension(0, NameData(host)) && r[4] == Extension(21, Zeros(MAX_NAME - |host|))
  {
    [Extension(10, GROUPS)] + ([Extension(13, ALGORITHMS)] + ([Extension(16, ALPN)]
    + ([Extension(0, NameData(host))] + [Extension(21, Zeros(MAX_NAME - |host|))])))
  }

  lemma NameExtSplits(host: Bytes)
    requires |host| <= MAX_NAME
    ensures NameExt(host) == Be16(0) + Be16(|NameData(host)|) + NameData(host)
  {
  }

  lemma PadParses(n: nat)
    requires n <= MAX_NAME
    ensures FirstExtension(PadExt(n)) == Some((Extension(21, Zeros(n)), []))
  {
    assert PadExt(n) == Be16(21) + Be16(|Zeros(n)|) + Zeros(n) + [];
    ExtensionFront(21, Zeros(n), []);
  }

  lemma NameParses(host: Bytes)
    requires |host| <= MAX_NAME
    ensures FirstExtension(Names(host)) == Some((Extension(0, NameData(host)), PadExt(MAX_NAME - |host|)))
  {
    NameExtSplits(host);
    ExtensionFront(0, NameData(host), PadExt(MAX_NAME - |host|));
  }

  lemma NamesParse(host: Bytes)
    requires |host| <= MAX_NAME
    ensures Extensions(Names(host)) == Some([Extension(0, NameData(host))] + [Extension(21, Zeros(MAX_NAME - |host|))])
  {
    var pad, last := PadExt(MAX_NAME - |host|), Extension(21, Zeros(MAX_NAME - |host|));
    PadParses(MAX_NAME - |host|);
    NameParses(host);
    LastTwo(Names(host), pad, Extension(0, NameData(host)), last);
  }

  lemma LastTwo(s: Bytes, s1: Bytes, e: Extension, e1: Extension)
    requires FirstExtension(s) == Some((e, s1)) && FirstExtension(s1) == Some((e1, []))
    ensures Extensions(s) == Some([e] + [e1])
  {
    OneMore(s1, e1, [], []);
    assert [e1] + [] == [e1];
    OneMore(s, e, s1, [e1]);
  }

  lemma FixedParse(names: Bytes)
    ensures FirstExtension(Block(names)) == Some((Extension(10, GROUPS), FromAlgorithms(names)))
    ensures FirstExtension(FromAlgorithms(names)) == Some((Extension(13, ALGORITHMS), FromAlpn(names)))
    ensures FirstExtension(FromAlpn(names)) == Some((Extension(16, ALPN), names))
  {
    ExtensionFront(10, GROUPS, FromAlgorithms(names));
    ExtensionFront(13, ALGORITHMS, FromAlpn(names));
    ExtensionFront(16, ALPN, names);
  }

  lemma BlockParses(names: Bytes, es: seq<Extension>)
    requires Extensions(names) == Some(es)
    ensures Extensions(Block(names)) == Some([Extension(10, GROUPS)] + ([Extension(13, ALGORITHMS)] + ([Extension(16, ALPN)] + es)))
  {
    FixedParse(names);
    ThreeMore(Block(names), FromAlgorithms(names), FromAlpn(names), names,
              Extension(10, GROUPS), Extension(13, ALGORITHMS), Extension(16, ALPN), es);
  }

  lemma ExpectedExtensions(host: Bytes)
    requires |host| <= MAX_NAME
    ensures Extensions(Block(Names(host))) == Some(Expected(host))
  {
    NamesParse(host);
    BlockParses(Names(host), [Extension(0, NameData(host))] + [Extension(21, Zeros(MAX_NAME - |host|))]);
  }

  function BodyBytes(random: Bytes, session: Bytes, host: Bytes): (r: Bytes)
    requires |random| == 32 && |session| == 32 && |host| <= MAX_NAME
    ensures |r| == 381
  {
    [3, 3] + (random + ([32] + session + ([0, 2] + [0xc0, 0x2b] + ([1] + [0] + ([1, 0x32] + Block(Names(host)))))))
  }

  lemma OffersParse(block: Bytes, es: seq<Extension>)
    requires |block| == 306 && Extensions(block) == Some(es)
    ensures Offers([0, 2] + [0xc0, 0x2b] + ([1] + [0] + ([1, 0x32] + block))) == Some(([0xc0, 0x2b], [0], es))
  {
    var s2 := [1, 0x32] + block;
    Number2(0, 2);
    VectorFront([0, 2], [0xc0, 0x2b], [1] + [0] + s2);
    Number1(1);
    VectorFront([1], [0], s2);
    Number2(1, 0x32);
    VectorExact([1, 0x32], block);
  }

  lemma BodyParses(random: Bytes, session: Bytes, host: Bytes)
    requires |random| == 32 && |session| == 32 && |host| <= MAX_NAME
    ensures Body(BodyBytes(random, session, host)) ==
            Some(ClientHello([3, 3], random, session, [0xc0, 0x2b], [0], Expected(host)))
  {
    var s3 := [0, 2] + [0xc0, 0x2b] + ([1] + [0] + ([1, 0x32] + Block(Names(host))));
    ExpectedExtensions(host);
    OffersParse(Block(Names(host)), Expected(host));
    var s2 := [32] + session + s3;
    TakeFront([3, 3], random + s2);
    TakeFront(random, s2);
    Number1(32);
    VectorFront([32], session, s3);
  }

  /** The flat record is the nested one. */
  lemma HelloIsNested(random: Bytes, session: Bytes, host: Bytes)
    requires |random| == 32 && |session| == 32 && |host| <= MAX_NAME
    ensures Hello(random, session, host) == [22, 3, 3] + ([1, 0x81] + ([1] + ([0, 1, 0x7d] + BodyBytes(random, session, host))))
  {
    assert DATA_01 == [22, 3, 3] + [1, 0x81] + [1] + [0, 1, 0x7d] + [3, 3];
    DataTwo(Names(host));
    var tail := [0, 2] + [0xc0, 0x2b] + ([1] + [0] + ([1, 0x32] + Block(Names(host))));
    assert BodyBytes(random, session, host) == [3, 3] + random + [32] + session + tail;
    assert Hello(random, session, host) == DATA_01 + random + [32] + session + (DATA_02 + Names(host));
  }

  const F10: Bytes := [0, 10, 0, 4, 0x00, 0x02, 0x00, 0x17]
  const F13: Bytes := [0, 13, 0, 4, 0x00, 0x02, 0x04, 0x03]
  const F16: Bytes := [0, 16, 0, 11, 0x00, 0x09, 0x08, 104, 116, 116, 112, 47, 49, 46, 49]

  lemma FixedBytes()
    ensures F10 == Be16(10) + Be16(|GROUPS|) + GROUPS
    ensures F13 == Be16(13) + Be16(|ALGORITHMS|) + ALGORITHMS
    ensures F16 == Be16(16) + Be16(|ALPN|) + ALPN
  {
  }

  lemma Regroup(a: Bytes, b: Bytes, c: Bytes, names: Bytes)
    ensures (a + b + c) + names == a + (b + (c + names))
  {
  }

  lemma BlockIsFixedPlusNames(names: Bytes)
    ensures Block(names) == (F10 + F13 + F16) + names
  {
    FixedBytes();
    Regroup(F10, F13, F16, names);
  }

  lemma DataTwo(names: Bytes)
    ensures DATA_02 + names == [0, 2] + [0xc0, 0x2b] + ([1] + [0] + ([1, 0x32] + Block(names)))
  {
    var head := [0, 2, 0xc0, 0x2b, 1, 0, 1, 0x32];
    assert DATA_02 == head + (F10 + F13 + F16);
    BlockIsFixedPlusNames(names);
    assert DATA_02 + names == head + ((F10 + F13 + F16) + names);
    HeadOf(Block(names));
  }

  lemma HeadOf(rest: Bytes)
    ensures [0, 2] + [0xc0, 0x2b] + ([1] + [0] + ([1, 0x32] + rest)) == [0, 2, 0xc0, 0x2b, 1, 0, 1, 0x32] + rest
  {
  }

  /** Every built record is one well-formed ClientHello whose nested lengths all agree. */
  lemma BuiltRecordParses(random: Bytes, session: Bytes, host: Bytes)
    requires |random| == 32 && |session| == 32 && |host| <= MAX_NAME
    ensures Record(Hello(random, session, host)) ==
            Some(ClientHello([3, 3], random, session, [0xc0, 0x2b], [0], Expected(host)))
    ensures IsPadding(Expected(host)[4].data)
  {
    var body := BodyBytes(random, session, host);
    var fragment := [1] + ([0, 1, 0x7d] + body);
    HelloIsNested(random, session, host);
    TakeFront([22, 3, 3], [1, 0x81] + fragment);
    Number2(1, 0x81);
    VectorExact([1, 0x81], fragment);
    assert fragment[1..] == [0, 1, 0x7d] + body;
    Number3(0, 1, 0x7d);
    VectorExact([0, 1, 0x7d], body);
    BodyParses(random, session, host);
  }

  /** The name read back is the host name, for exactly the names that are not empty. */
  lemma NameReadBack(host: Bytes)
    requires |host| <= MAX_NAME
    ensures HostName(Expected(host)[3].data) == if host != [] then Some(host) else None
  {
    var list := [0] + (Be16(|host|) + host);
    NumberBe16(|host| + 3);
    VectorExact(Be16(|host| + 3), list);
    assert list[1..] == Be16(|host|) + host;
    NumberBe16(|host|);
    VectorExact(Be16(|host|), host);
  }
}
