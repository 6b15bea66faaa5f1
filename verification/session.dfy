/**
 * Connection-topology virtualisation: the address rewrite applied to every
 * connection attempt. Bits selected by the mask come from the real subnet,
 * the others from the advertised (virtual) address; the port is kept.
 */
module Session {
  import opened Wrappers

  /** The four octets of an IPv4 address, most significant first. */
  type Octets = s: seq<bv8> | |s| == 4 witness [0, 0, 0, 0]

  /** A TCP port, Rust's `u16`. */
  type Port = p: int | 0 <= p < 0x1_0000

  datatype Ipv4Addr = Ipv4Addr(octets: Octets)

  /** The eight 16-bit segments of an IPv6 address. */
  type Segments = s: seq<bv16> | |s| == 8 witness [0, 0, 0, 0, 0, 0, 0, 0]

  /** A socket address of either family. */
  datatype SocketAddr =
    | V4(ip: Ipv4Addr, port: Port)
    | V6(segments: Segments, port: Port)

  /** The only failure: an address family the rewrite does not support. */
  datatype AddressError = Ipv6Unsupported

  /** The mask the session bootstrap configures: `255.255.255.0`. */
  const PROXY_MASK: Ipv4Addr := Ipv4Addr([255, 255, 255, 0])

  /** One octet: unmasked bits of `virt`, masked bits of `actual`. */
  function MergeOctet(virt: bv8, mask: bv8, actual: bv8): bv8 {
    (virt & !mask) | (actual & mask)
  }

  /**
   * The physical address for a virtual one. IPv4 addresses are rewritten
   * octet by octet; an IPv6 address is a fatal configuration error, never
   * passed through.
   */
  function Rewrite(addr: SocketAddr, mask: Ipv4Addr, actual: Ipv4Addr): (r: Result<SocketAddr, AddressError>)
    ensures addr.V6? <==> r == Err(Ipv6Unsupported)
    ensures addr.V4? ==> r.Ok? && r.value.V4? && r.value.port == addr.port
    ensures addr.V4? ==> forall i :: 0 <= i < 4 ==>
      && r.value.ip.octets[i] & mask.octets[i] == actual.octets[i] & mask.octets[i]
      && r.value.ip.octets[i] & !mask.octets[i] == addr.ip.octets[i] & !mask.octets[i]
  {
    match addr
    case V4(ip, port) =>
      var v, m, a := ip.octets, mask.octets, actual.octets;
      Ok(V4(Ipv4Addr([MergeOctet(v[0], m[0], a[0]), MergeOctet(v[1], m[1], a[1]),
                      MergeOctet(v[2], m[2], a[2]), MergeOctet(v[3], m[3], a[3])]),
            port))
    case V6(_, _) => Err(Ipv6Unsupported)
  }

  /**
   * An octet agreeing with `actual` on the masked bits and with `virt` on
   * the others is the merged octet: the rewrite's contract pins it down.
   */
  lemma MergeOctetUnique(x: bv8, virt: bv8, mask: bv8, actual: bv8)
    requires x & mask == actual & mask
    requires x & !mask == virt & !mask
    ensures x == MergeOctet(virt, mask, actual)
  {
  }

  /** An all-zero mask leaves the address as it was. */
  lemma ZeroMaskIsIdentity(addr: SocketAddr, actual: Ipv4Addr)
    requires addr.V4?
    ensures Rewrite(addr, Ipv4Addr([0, 0, 0, 0]), actual) == Ok(addr)
  {
    var r := Rewrite(addr, Ipv4Addr([0, 0, 0, 0]), actual).value;
    assert r.ip.octets == addr.ip.octets;
  }

  /** An all-ones mask replaces the whole IP by `actual` and keeps the port. */
  lemma FullMaskIsActual(addr: SocketAddr, actual: Ipv4Addr)
    requires addr.V4?
    ensures Rewrite(addr, Ipv4Addr([255, 255, 255, 255]), actual) == Ok(V4(actual, addr.port))
  {
    var r := Rewrite(addr, Ipv4Addr([255, 255, 255, 255]), actual).value;
    assert r.ip.octets == actual.octets;
  }

  lemma MergeOctetIdempotent(virt: bv8, mask: bv8, actual: bv8)
    ensures MergeOctet(MergeOctet(virt, mask, actual), mask, actual) == MergeOctet(virt, mask, actual)
  {
  }

  /** Rewriting a rewritten address changes nothing more. */
  lemma RewriteIdempotent(addr: SocketAddr, mask: Ipv4Addr, actual: Ipv4Addr)
    requires addr.V4?
    ensures Rewrite(Rewrite(addr, mask, actual).value, mask, actual) == Rewrite(addr, mask, actual)
  {
  }

  /**
   * Under the bootstrap mask only the last octet of the virtual address
   * survives; the first three come from the real subnet.
   */
  lemma ProxyMaskKeepsLastOctet(addr: SocketAddr, actual: Ipv4Addr)
    requires addr.V4?
    ensures Rewrite(addr, PROXY_MASK, actual).value.ip.octets
         == actual.octets[..3] + [addr.ip.octets[3]]
  {
  }

  /** `10.0.0.7:9042` behind the subnet `127.0.0.0/24` connects to `127.0.0.7:9042`. */
  lemma ProxyExample()
    ensures Rewrite(V4(Ipv4Addr([10, 0, 0, 7]), 9042), PROXY_MASK, Ipv4Addr([127, 0, 0, 0]))
         == Ok(V4(Ipv4Addr([127, 0, 0, 7]), 9042))
  {
  }

  /** The address as one 32-bit word, first octet in the high byte. */
  function ToWord(a: Ipv4Addr): bv32 {
    (a.octets[0] as bv32 << 24) | (a.octets[1] as bv32 << 16)
    | (a.octets[2] as bv32 << 8) | (a.octets[3] as bv32)
  }

  /**
   * The octet-wise rewrite is the whole-address transform
   * `(virtual & !mask) | (subnet & mask)` on 32-bit words.
   */
  lemma RewriteIsWordTransform(addr: SocketAddr, mask: Ipv4Addr, actual: Ipv4Addr)
    requires addr.V4?
    ensures ToWord(Rewrite(addr, mask, actual).value.ip)
         == (ToWord(addr.ip) & !ToWord(mask)) | (ToWord(actual) & ToWord(mask))
  {
  }
}
