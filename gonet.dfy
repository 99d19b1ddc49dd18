/**
 * The parts of Go's `net` package the route-count collector relies on: addresses in their
 * 4- and 16-byte forms, and masks with their prefix length.
 */
module GoNet {
  import opened Optional

  type Byte = b: int | 0 <= b < 256

  /** net.IP: 4 bytes, 16 bytes, or (malformed) any other length. */
  type IP = seq<Byte>

  /** net.IPMask */
  type IPMask = seq<Byte>

  /** net.IPNet */
  datatype IPNet = IPNet(ip: IP, mask: IPMask)

  const V4_IN_V6_PREFIX: IP := [0, 0, 0, 0, 0, 0, 0, 0, 0, 0, 0xff, 0xff]
  /** net.IPv4zero, which net.IPv4 builds in its 16-byte form. */
  const IPV4_ZERO: IP := V4_IN_V6_PREFIX + [0, 0, 0, 0]
  const IPV6_ZERO: IP := [0, 0, 0, 0, 0, 0, 0, 0, 0, 0, 0, 0, 0, 0, 0, 0]

  /** net.IP.To4: the 4-byte form of an IPv4 address (plain or IPv4-mapped), else nil. */
  function To4(ip: IP): (r: Option<IP>)
    ensures r.Some? ==> |r.value| == 4
  {
    if |ip| == 4 then Some(ip)
    else if |ip| == 16 && ip[..12] == V4_IN_V6_PREFIX then Some(ip[12..])
    else None
  }

  /** net.IP.Equal: the same address, an IPv4 address being equal to its IPv4-mapped form. */
  predicate IPEqual(x: IP, y: IP) {
    if |x| == |y| then x == y
    else if |x| == 4 && |y| == 16 then y[..12] == V4_IN_V6_PREFIX && x == y[12..]
    else if |x| == 16 && |y| == 4 then x[..12] == V4_IN_V6_PREFIX && y == x[12..]
    else false
  }

  /** The number of leading one bits of a mask byte, or -1 if its ones are not contiguous from the top. */
  function ByteOnes(b: Byte): (k: int)
    ensures -1 <= k <= 7
  {
    if b == 0x00 then 0 else if b == 0x80 then 1 else if b == 0xc0 then 2
    else if b == 0xe0 then 3 else if b == 0xf0 then 4 else if b == 0xf8 then 5
    else if b == 0xfc then 6 else if b == 0xfe then 7 else -1
  }

  predicate AllZero(m: IPMask) {
    forall k :: 0 <= k < |m| ==> m[k] == 0
  }

  /** simpleMaskLength: the prefix length of a canonical mask (ones then zeros), else -1. */
  function MaskLength(m: IPMask): (n: int)
    ensures -1 <= n <= 8 * |m|
  {
    if m == [] then 0
    else if m[0] == 0xff then
      var n := MaskLength(m[1..]);
      if n < 0 then -1 else 8 + n
    else if ByteOnes(m[0]) >= 0 && AllZero(m[1..]) then ByteOnes(m[0])
    else -1
  }

  /** net.IPMask.Size: (ones, bits), or (0, 0) for a non-canonical mask. */
  function MaskSize(m: IPMask): (int, int) {
    var ones := MaskLength(m);
    if ones < 0 then (0, 0) else (ones, 8 * |m|)
  }

  /** The mask byte with `k` leading ones. */
  function PrefixByte(k: nat): Byte
    requires k <= 8
  {
    [0x00, 0x80, 0xc0, 0xe0, 0xf0, 0xf8, 0xfc, 0xfe, 0xff][k]
  }

  function Zeros(n: nat): (m: IPMask)
    ensures |m| == n && AllZero(m)
  {
    seq(n, _ => 0)
  }

  /** net.CIDRMask(ones, 8 * bytes): `ones` one bits followed by zero bits. */
  function CIDRMask(ones: nat, bytes: nat): (m: IPMask)
    requires ones <= 8 * bytes
    ensures |m| == bytes
  {
    if bytes == 0 then []
    else if ones >= 8 then [0xff] + CIDRMask(ones - 8, bytes - 1)
    else [PrefixByte(ones)] + Zeros(bytes - 1)
  }

  /** The size of a mask built by CIDRMask is the prefix length it was built with. */
  lemma {:induction false} MaskSizeOfCIDR(ones: nat, bytes: nat)
    requires ones <= 8 * bytes
    ensures MaskSize(CIDRMask(ones, bytes)) == (ones, 8 * bytes)
  {
    var m := CIDRMask(ones, bytes);
    if bytes > 0 {
      if ones >= 8 {
        MaskSizeOfCIDR(ones - 8, bytes - 1);
        assert m[1..] == CIDRMask(ones - 8, bytes - 1);
      } else {
        assert m[1..] == Zeros(bytes - 1);
      }
    }
  }
}
