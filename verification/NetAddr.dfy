/** IP addresses and CIDR prefixes as numbers, as far as the name filter uses Go's `netip`. */
module NetAddr {
  import opened Division
  import opened Word32
  import RndisNetwork

  datatype Addr = Addr(is4: bool, value: nat, zone: string)

  /** The address of a prefix is kept as its network bits and its host bits. */
  datatype AnyPrefix = Prefix(is4: bool, bits: nat, net: nat, host: nat)

  function Width(is4: bool): nat {
    if is4 then 32 else 128
  }

  /** A prefix as it is parsed is never longer than its addresses. */
  type Prefix = p: AnyPrefix | p.bits <= Width(p.is4) witness Prefix(true, 0, 0, 0)

  /** The number of addresses of a prefix. */
  function Size(p: Prefix): nat {
    Pow2(Width(p.is4) - p.bits)
  }

  /** The address that the prefix was written with, and the first one of its range. */
  function Base(p: Prefix): nat {
    p.net * Size(p) + p.host
  }

  function First(p: Prefix): nat {
    p.net * Size(p)
  }

  /** `Prefix.Masked`: the host bits are cleared. */
  function Masked(p: Prefix): Prefix {
    p.(host := 0)
  }

  /** `Prefix.Contains`: the same family, no zone, and the same network bits. */
  predicate Contains(p: Prefix, ip: Addr) {
    p.is4 == ip.is4 && ip.zone == "" && ip.value / Size(p) == p.net
  }

  /** The addresses of a prefix: from its first one on, as many as it has. */
  predicate InRange(p: Prefix, ip: Addr) {
    p.is4 == ip.is4 && ip.zone == "" && First(p) <= ip.value < First(p) + Size(p)
  }

  lemma {:induction false} QuotientIff(value: nat, size: nat, q: nat)
    requires size > 0
    ensures value / size == q <==> q * size <= value < q * size + size
  {
    var product := q * size;
    if product <= value < product + size {
      Quotient(value, size, q, value - product);
    }
    if value / size == q {
      assert value == product + value % size;
    }
  }

  /** A masked prefix contains exactly the addresses of its range. */
  lemma {:induction false} ContainsIff(p: Prefix, ip: Addr)
    ensures Contains(Masked(p), ip) <==> InRange(p, ip)
  {
    QuotientIff(ip.value, Size(p), p.net);
  }

  /** For IPv4 that is the subnet of the address written, from its network address to its broadcast address. */
  lemma {:induction false} RangeIsSubnet(p: Prefix, ip: Addr)
    requires p.is4 && ip.is4 && ip.zone == "" && p.host < Size(p) && Base(p) < WORDS
    ensures InRange(p, ip) <==>
            RndisNetwork.Network(Base(p), p.bits) <= ip.value <= RndisNetwork.Broadcast(Base(p), p.bits)
  {
    Quotient(Base(p), Size(p), p.net, p.host);
  }
}
