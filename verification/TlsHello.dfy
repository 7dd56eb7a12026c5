/** The decoy TLS ClientHello: a fixed-size record filled in place, whose padding absorbs the host name. */
module TlsHello {
  import opened Wrappers

  const SIZE: nat := 390
  const SNI_AREA: nat := 275
  const NAME_HEAD: nat := 9
  const PAD_HEAD: nat := 4
  const MAX_NAME: nat := 262

  const DATA_01: seq<byte> := [0x16, 0x03, 0x03, 0x01, 0x81, 0x01, 0x00, 0x01, 0x7d, 0x03, 0x03]
  const DATA_02: seq<byte> :=
    [0x00, 0x02, 0xc0, 0x2b, 0x01, 0x00, 0x01, 0x32,
     0x00, 0x0a, 0x00, 0x04, 0x00, 0x02, 0x00, 0x17,
     0x00, 0x0d, 0x00, 0x04, 0x00, 0x02, 0x04, 0x03,
     0x00, 0x10, 0x00, 0x0b, 0x00, 0x09, 0x08, 104, 116, 116, 112, 47, 49, 46, 49]

  function Be16(n: nat): (r: seq<byte>)
    requires n < 0x1_0000
    ensures |r| == 2
  {
    [(n / 256) as byte, (n % 256) as byte]
  }

  function Zeros(n: nat): (r: seq<byte>)
    ensures |r| == n
  {
    seq(n, _ => 0)
  }

  function NameExt(host: seq<byte>): (r: seq<byte>)
    requires |host| <= MAX_NAME
    ensures |r| == NAME_HEAD + |host|
  {
    Be16(0) + Be16(|host| + 5) + Be16(|host| + 3) + [0] + Be16(|host|) + host
  }

  function PadExt(n: nat): (r: seq<byte>)
    requires n <= MAX_NAME
    ensures |r| == PAD_HEAD + n
  {
    Be16(21) + Be16(n) + Zeros(n)
  }

  /** The finished record. */
  function Hello(random: seq<byte>, session: seq<byte>, host: seq<byte>): (r: seq<byte>)
    requires |random| == 32 && |session| == 32 && |host| <= MAX_NAME
    ensures |r| == SIZE
  {
    DATA_01 + random + [32] + session + DATA_02 + NameExt(host) + PadExt(MAX_NAME - |host|)
  }

  /** A size_t value stored in a 32-bit int. */
  function ToInt32(x: int): (r: int)
    ensures -0x8000_0000 <= r < 0x8000_0000
  {
    var m := x % 0x1_0000_0000;
    if m < 0x8000_0000 then m else m - 0x1_0000_0000
  }

  /** memcpy */
  method Copy(dst: array<byte>, at: nat, src: seq<byte>)
    requires at + |src| <= dst.Length
    modifies dst
    ensures dst[..] == old(dst[..at]) + src + old(dst[at + |src|..])
  {
    for i := 0 to |src|
      invariant dst[..] == old(dst[..at]) + src[..i] + old(dst[at + i..])
    {
      dst[at + i] := src[i];
      assert src[..i + 1] == src[..i] + [src[i]];
    }
    assert src[..|src|] == src;
  }

  /** memcpy over a known part of the buffer. */
  method CopyOver(dst: array<byte>, at: nat, src: seq<byte>, ghost p: seq<byte>, ghost q: seq<byte>, ghost r: seq<byte>)
    requires dst[..] == p + q + r && |p| == at && |q| == |src|
    modifies dst
    ensures dst[..] == p + src + r
  {
    Copy(dst, at, src);
  }

  /** Writes src at the front of the `left` zero bytes that follow what is done. */
  method Put(dst: array<byte>, at: nat, src: seq<byte>, ghost head: seq<byte>, ghost left: nat, ghost rest: seq<byte>)
    requires dst[..] == head + Zeros(left) + rest && |head| == at && |src| <= left
    modifies dst
    ensures dst[..] == (head + src) + Zeros(left - |src|) + rest
  {
    assert Zeros(left) == Zeros(|src|) + Zeros(left - |src|);
    assert dst[..] == head + Zeros(|src|) + (Zeros(left - |src|) + rest);
    CopyOver(dst, at, src, head, Zeros(|src|), Zeros(left - |src|) + rest);
    assert head + src + (Zeros(left - |src|) + rest) == (head + src) + Zeros(left - |src|) + rest;
  }

  /** make_tls_client_hello into a buffer of which `size` bytes may be used; the two random fields are inputs.
      The lengths are computed as size_t and stored in an int. */
  method MakeClientHello(buffer: array<byte>, size: nat, random: seq<byte>, session: seq<byte>, host: seq<byte>)
    returns (ok: bool, len: nat)
    requires size <= buffer.Length && |random| == 32 && |session| == 32
    requires |host| < 0x8000_0000
    modifies buffer
    ensures ok <==> size >= SIZE && |host| <= MAX_NAME
    ensures ok ==> len == SIZE && buffer[..] == Hello(random, session, host) + old(buffer[SIZE..])
    ensures !ok ==> len == size
    ensures buffer[size..] == old(buffer[size..])
  {
    len := size;
    if size < SIZE {
      return false, len;
    }
    ghost var rest := buffer[SIZE..];
    CopyTemplate(buffer, random, session);
    assert buffer[SIZE..] == rest;
    assert buffer[size..] == rest[size - SIZE..];
    var padding := ToInt32(SNI_AREA - NAME_HEAD - |host| - PAD_HEAD);
    if padding < 0 {
      return false, len;
    }
    FillNames(buffer, host, DATA_01 + random + [32] + session + DATA_02, rest);
    assert buffer[..] == Hello(random, session, host) + rest;
    assert buffer[size..] == rest[size - SIZE..];
    len := SIZE;
    ok := true;
  }

  /** Copies the template and fills in the two random fields; the name area is zero. */
  method CopyTemplate(buffer: array<byte>, random: seq<byte>, session: seq<byte>)
    requires SIZE <= buffer.Length && |random| == 32 && |session| == 32
    modifies buffer
    ensures buffer[..] == (DATA_01 + random + [32] + session + DATA_02) + Zeros(SNI_AREA) + old(buffer[SIZE..])
  {
    ghost var rest := buffer[SIZE..];
    ghost var tail := DATA_02 + Zeros(SNI_AREA) + rest;
    Copy(buffer, 0, DATA_01 + Zeros(32) + [32] + Zeros(32) + DATA_02 + Zeros(SNI_AREA));
    assert buffer[..] == DATA_01 + Zeros(32) + ([32] + Zeros(32) + tail);
    CopyOver(buffer, 11, random, DATA_01, Zeros(32), [32] + Zeros(32) + tail);
    assert buffer[..] == (DATA_01 + random + [32]) + Zeros(32) + tail;
    CopyOver(buffer, 44, session, DATA_01 + random + [32], Zeros(32), tail);
  }

  /** Writes the server_name extension and the padding extension over the zeroed area. */
  method FillNames(buffer: array<byte>, host: seq<byte>, ghost head: seq<byte>, ghost rest: seq<byte>)
    requires |head| == SIZE - SNI_AREA && |host| <= MAX_NAME
    requires buffer[..] == head + Zeros(SNI_AREA) + rest
    modifies buffer
    ensures buffer[..] == head + (NameExt(host) + PadExt(MAX_NAME - |host|)) + rest
  {
    var at, n := SIZE - SNI_AREA, |host|;
    assert Zeros(0) == [];
    assert Zeros(SNI_AREA - 6) == [0] + Zeros(SNI_AREA - 7);
    hide Zeros, Be16;
    Put(buffer, at, Be16(0), head, SNI_AREA, rest);
    ghost var d := head + Be16(0);
    Put(buffer, at + 2, Be16(n + 5), d, SNI_AREA - 2, rest);
    d := d + Be16(n + 5);
    Put(buffer, at + 4, Be16(n + 3), d, SNI_AREA - 4, rest);
    d := d + Be16(n + 3) + [0];
    Put(buffer, at + 7, Be16(n), d, SNI_AREA - 7, rest);
    d := d + Be16(n);
    Put(buffer, at + 9, host, d, SNI_AREA - 9, rest);
    d := d + host;
    assert d == head + NameExt(host);
    Put(buffer, at + 9 + n, Be16(21), d, SNI_AREA - 9 - n, rest);
    Put(buffer, at + 11 + n, Be16(MAX_NAME - n), d + Be16(21), SNI_AREA - 11 - n, rest);
    ghost var e := d + Be16(21) + Be16(MAX_NAME - n);
    Put(buffer, at + 13 + n, Zeros(MAX_NAME - n), e, MAX_NAME - n, rest);
    assert e + Zeros(MAX_NAME - n) + Zeros(0) == head + (NameExt(host) + PadExt(MAX_NAME - n));
  }
}
