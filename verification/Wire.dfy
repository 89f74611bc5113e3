/** Bytes, network byte order and the four-byte RTCP common header.

    A packet is a sequence of bytes. The bit fields of RTCPCommonHeader (version:2,
    padding:1, count:5) are written out as quotients and remainders of its first byte. */
module Wire {
  type Byte = x: int | 0 <= x < 256
  type U32 = x: int | 0 <= x < 0x1_0000_0000
  type Name = s: seq<Byte> | |s| == 4 witness [0, 0, 0, 0]
  type Text = s: seq<Byte> | |s| <= 255

  const RTP_VERSION := 2
  const TYPE_SR: Byte := 200
  const TYPE_RR: Byte := 201
  const TYPE_SDES: Byte := 202
  const TYPE_BYE: Byte := 203
  const TYPE_APP: Byte := 204

  const HEADER_SIZE := 4
  const SENDER_INFO_SIZE := 20
  const BLOCK_SIZE := 24
  const MAX_COUNT := 31
  /** The largest packet whose length in words, minus one, fits the 16-bit length field. */
  const MAX_WORD_COUNTED := 262144

  // ----- 32-bit values in network byte order (htonl, ntohl) -----

  function Net32(x: U32): (b: seq<Byte>)
    ensures |b| == 4
  {
    [x / 0x100_0000, x / 0x1_0000 % 256, x / 256 % 256, x % 256]
  }

  function U32At(d: seq<Byte>, o: nat): U32
    requires o + 4 <= |d|
  {
    BigEndian(d[o], d[o + 1], d[o + 2], d[o + 3])
  }

  function BigEndian(a: Byte, b: Byte, c: Byte, d: Byte): U32 {
    (a as int) * 0x100_0000 + (b as int) * 0x1_0000 + (c as int) * 256 + d as int
  }

  lemma BigEndianDigits(x: U32)
    ensures BigEndian(x / 0x100_0000, x / 0x1_0000 % 256, x / 256 % 256, x % 256) == x
  {
    var high := x / 0x1_0000;
    assert high == (high / 256) * 256 + high % 256;
    assert high / 256 == x / 0x100_0000;
  }

  /** Decoding an encoded value anywhere in a buffer gives the value back. */
  lemma Net32RoundTrip(d: seq<Byte>, o: nat, x: U32)
    requires o + 4 <= |d| && d[o..o + 4] == Net32(x)
    ensures U32At(d, o) == x
  {
    var b := d[o..o + 4];
    assert b[0] == d[o] && b[1] == d[o + 1] && b[2] == d[o + 2] && b[3] == d[o + 3];
    BigEndianDigits(x);
  }

  /** The bytes of a value that was read are the bytes it was read from. */
  lemma U32AtBytes(d: seq<Byte>, o: nat)
    requires o + 4 <= |d|
    ensures Net32(U32At(d, o)) == d[o..o + 4]
  {
    var x := U32At(d, o);
    var h2 := (d[o] as int) * 256 + d[o + 1] as int;
    var h3 := h2 * 256 + d[o + 2] as int;
    ByteAndRest(x, h3, d[o + 3]);
    ByteAndRest(h3, h2, d[o + 2]);
    ByteAndRest(h2, d[o], d[o + 1]);
    assert x / 0x1_0000 == h2 && x / 0x100_0000 == d[o];
  }

  /** Network order: the first byte in which two values differ decides which is smaller. */
  lemma NetworkOrder(x: U32, y: U32, k: nat)
    requires k < 4 && Net32(x)[..k] == Net32(y)[..k] && Net32(x)[k] < Net32(y)[k]
    ensures x < y
  {
    var a, b := Net32(x), Net32(y);
    assert forall i :: 0 <= i < k ==> a[i] == a[..k][i] == b[..k][i] == b[i];
    BigEndianDigits(x);
    BigEndianDigits(y);
    assert k > 0 ==> a[0] == b[0];
    assert k > 1 ==> a[1] == b[1];
    assert k > 2 ==> a[2] == b[2];
  }

  lemma ByteAndRest(x: nat, rest: nat, last: Byte)
    requires x == rest * 256 + last
    ensures x / 256 == rest && x % 256 == last
  {
  }

  // ----- the common header -----

  /** The header of a packet of `size` bytes. The conversion to uint16_t keeps the length modulo 65536. */
  function Header(count: nat, ptype: Byte, size: nat): (h: seq<Byte>)
    requires count <= MAX_COUNT && HEADER_SIZE <= size && size % 4 == 0
    ensures |h| == HEADER_SIZE
  {
    var words := (size / 4 - 1) % 0x1_0000;
    [RTP_VERSION * 64 + count, ptype, words / 256, words % 256]
  }

  function Version(p: seq<Byte>): nat
    requires HEADER_SIZE <= |p|
  {
    p[0] / 64
  }

  predicate PaddingBit(p: seq<Byte>)
    requires HEADER_SIZE <= |p|
  {
    p[0] / 32 % 2 == 1
  }

  function Count(p: seq<Byte>): (c: nat)
    requires HEADER_SIZE <= |p|
  {
    p[0] % 32
  }

  function PType(p: seq<Byte>): Byte
    requires HEADER_SIZE <= |p|
  {
    p[1]
  }

  /** The packet size the header's length field announces. */
  function AnnouncedSize(p: seq<Byte>): (n: nat)
    requires HEADER_SIZE <= |p|
    ensures HEADER_SIZE <= n <= MAX_WORD_COUNTED && n % 4 == 0
  {
    ((p[2] as int) * 256 + p[3] as int + 1) * 4
  }

  /** Reading back a written header: the announced size is exact just when the packet is
      small enough for the 16-bit length field, and is too small otherwise. */
  lemma HeaderFields(p: seq<Byte>, count: nat, ptype: Byte, size: nat)
    requires count <= MAX_COUNT && HEADER_SIZE <= size && size % 4 == 0
    requires HEADER_SIZE <= |p| && p[..HEADER_SIZE] == Header(count, ptype, size)
    ensures Version(p) == RTP_VERSION && !PaddingBit(p)
    ensures Count(p) == count && PType(p) == ptype
    ensures AnnouncedSize(p) == size <==> size <= MAX_WORD_COUNTED
    ensures size > MAX_WORD_COUNTED ==> AnnouncedSize(p) < size
  {
  }

  /** The fields of any header, received or written: two bits of version, one of padding, five of count,
      then the type and the number of words after the first. */
  lemma HeaderBits(p: seq<Byte>, v: nat, b: nat, c: nat)
    requires HEADER_SIZE <= |p| && v < 4 && b < 2 && c < 32 && p[0] == 64 * v + 32 * b + c
    ensures Version(p) == v && (PaddingBit(p) <==> b == 1) && Count(p) == c && PType(p) == p[1]
    ensures AnnouncedSize(p) == 4 * (256 * (p[2] as int) + p[3] as int + 1)
  {
    assert p[0] / 32 == 2 * v + b;
  }

  /** The first byte of a packet of version 2 tells whether it is padded. */
  lemma FirstByte(p: seq<Byte>)
    requires HEADER_SIZE <= |p|
    ensures Version(p) == 2 <==> 128 <= p[0] < 192
    ensures 128 <= p[0] < 192 ==> (PaddingBit(p) <==> 160 <= p[0])
  {
    HeaderBits(p, p[0] / 64, p[0] % 64 / 32, p[0] % 32);
  }

  /** The length without the padding that the last byte counts; none if that count is not
      a multiple of four or does not leave a byte (page 37 of RFC 3550). */
  function UnpaddedLength(p: seq<Byte>): (n: Option<nat>)
    requires HEADER_SIZE <= |p|
    ensures n.Some? ==> 0 < n.value <= |p|
  {
    if !PaddingBit(p) then Some(|p|)
    else
      var padcount := p[|p| - 1];
      if padcount % 4 != 0 || padcount >= |p| then None else Some(|p| - padcount)
  }

  /** A padded packet loses as many bytes as its last one says, if these are whole words and leave a byte. */
  lemma PaddingRemoved(p: seq<Byte>, n: nat)
    requires HEADER_SIZE <= |p| && 160 <= p[0] < 192 && p[|p| - 1] == n
    ensures UnpaddedLength(p) == Some(|p| - n) <==> n % 4 == 0 && n < |p|
    ensures UnpaddedLength(p).None? <==> n % 4 != 0 || n >= |p|
  {
    FirstByte(p);
  }

  /** Without the padding bit nothing is removed. */
  lemma NothingRemoved(p: seq<Byte>)
    requires HEADER_SIZE <= |p| && 128 <= p[0] < 160
    ensures UnpaddedLength(p) == Some(|p|)
  {
    FirstByte(p);
  }

  datatype Option<+T> = None | Some(value: T)

  // ----- alignment and concatenation -----

  function Align4(n: nat): (r: nat)
    ensures n <= r < n + 4 && r % 4 == 0
  {
    if n % 4 == 0 then n else n + (4 - n % 4)
  }

  lemma Mod4Sum(a: nat, b: nat)
    requires a % 4 == 0 && b % 4 == 0
    ensures (a + b) % 4 == 0
  {
  }

  lemma AlignShift(o: nat, n: nat)
    requires o % 4 == 0
    ensures Align4(o + n) == o + Align4(n)
  {
  }

  function Zeros(n: nat): (z: seq<Byte>)
    ensures |z| == n && forall i :: 0 <= i < n ==> z[i] == 0
  {
    seq(n, i => 0)
  }

  lemma SliceOfPrefix(d: seq<Byte>, n: nat, a: nat, b: nat)
    requires a <= b <= n <= |d|
    ensures d[..n][a..b] == d[a..b]
  {
  }

  lemma SliceOfSlice(d: seq<Byte>, o: nat, n: nat, a: nat, b: nat)
    requires o <= n <= |d| && a <= b <= n - o
    ensures d[o..n][a..b] == d[o + a..o + b]
  {
    assert forall i :: 0 <= i < b - a ==> d[o..n][a..b][i] == d[o + a..o + b][i];
  }

  lemma PrefixSlice(a: seq<Byte>, b: seq<Byte>)
    requires a <= b
    ensures b[..|a|] == a
  {
  }

  lemma SliceJoin(d: seq<Byte>, a: nat, b: nat, c: nat)
    requires a <= b <= c <= |d|
    ensures d[a..c] == d[a..b] + d[b..c]
  {
  }

  lemma Associates(a: seq<Byte>, b: seq<Byte>, c: seq<Byte>)
    ensures (a + b) + c == a + (b + c)
  {
  }

  function Flatten(ps: seq<seq<Byte>>): seq<Byte> {
    if ps == [] then [] else ps[0] + Flatten(ps[1..])
  }

  lemma {:induction false} FlattenAppend(a: seq<seq<Byte>>, b: seq<seq<Byte>>)
    ensures Flatten(a + b) == Flatten(a) + Flatten(b)
  {
    if a == [] {
      assert a + b == b;
    } else {
      assert (a + b)[0] == a[0] && (a + b)[1..] == a[1..] + b;
      FlattenAppend(a[1..], b);
    }
  }

  /** The piece at index `k`, between the pieces before and after it. */
  lemma FlattenSplit(ps: seq<seq<Byte>>, k: nat)
    requires k < |ps|
    ensures Flatten(ps) == Flatten(ps[..k]) + ps[k] + Flatten(ps[k + 1..])
  {
    assert ps == ps[..k] + ps[k..];
    FlattenAppend(ps[..k], ps[k..]);
    assert ps[k..][1..] == ps[k + 1..];
  }

  lemma FlattenOne(p: seq<Byte>)
    ensures Flatten([p]) == p
  {
  }

  lemma FlattenCons(p: seq<Byte>, rest: seq<seq<Byte>>)
    ensures Flatten([p] + rest) == p + Flatten(rest)
  {
  }

  lemma FlattenPush(a: seq<seq<Byte>>, p: seq<Byte>)
    ensures Flatten(a + [p]) == Flatten(a) + p
  {
    FlattenAppend(a, [p]);
    FlattenOne(p);
  }
}
