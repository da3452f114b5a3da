/** The IPv4 arithmetic of the RNDIS gadget: subnet masks, leased client addresses and the DHCP pool. */
module RndisNetwork {
  import opened Text
  import opened Word32
  import opened Division

  /** `mask_to_prefix`: count the ones, then check that they are all at the high end. */
  function MaskToPrefix(mask: Word): Option<nat> {
    var prefix := OnesCount(mask, 32);
    if ShiftLeft(WORDS - 1, 32 - prefix) != mask then None else Some(prefix)
  }

  /** `p` ones followed by `32 - p` zeros. */
  ghost predicate IsMask(mask: Word, p: nat) {
    p <= 32 && forall i: nat :: i < 32 ==> Bit(mask, i) == if i >= 32 - p then 1 else 0
  }

  lemma {:induction false} HighOnesAreMask(p: nat)
    requires p <= 32
    ensures Pow2(32 - p) <= WORDS && WORDS - Pow2(32 - p) < WORDS
    ensures IsMask(WORDS - Pow2(32 - p), p)
  {
    Pow2Values();
    ShiftedOnes(32 - p);
    var mask := WORDS - Pow2(32 - p);
    forall i: nat | i < 32 ensures Bit(mask, i) == if i >= 32 - p then 1 else 0 {
      MaskBits(32, 32 - p, i);
    }
  }

  /** A mask is converted exactly when it is contiguous, and to the number of its leading ones. */
  lemma {:induction false} MaskToPrefixIff(mask: Word, p: nat)
    ensures MaskToPrefix(mask) == Some(p) <==> IsMask(mask, p)
  {
    if p <= 32 {
      HighOnesAreMask(p);
      ShiftedOnes(32 - p);
      if IsMask(mask, p) {
        Pow2Values();
        MaskOnes(32, 32 - p);
        BitsDetermine(32, mask, WORDS - Pow2(32 - p));
      }
    }
  }

  // ----- subnets -----

  /** `Prefix.Masked`. */
  function Masked(addr: Word, bits: nat): Word
    requires bits <= 32
  {
    And(addr, ShiftLeft(WORDS - 1, 32 - bits))
  }

  /** The size of a subnet with `bits` network bits. */
  function Size(bits: nat): nat
    requires bits <= 32
  {
    Pow2(32 - bits)
  }

  lemma {:induction false} SizeFits(bits: nat)
    requires bits <= 32
    ensures Size(bits) <= WORDS && (bits < 32 ==> Size(bits) >= 2) && (bits < 30 ==> Size(bits) >= 8)
  {
    Pow2Values();
    Pow2Monotone(32 - bits, 32);
    if bits < 32 {
      Pow2Monotone(1, 32 - bits);
    }
    if bits < 30 {
      assert Pow2(3) == 8;
      Pow2Monotone(3, 32 - bits);
    }
  }

  /** The first address of the subnet. */
  function Network(addr: Word, bits: nat): int
    requires bits <= 32
  {
    addr - addr % Size(bits)
  }

  /** The last address of the subnet. */
  function Broadcast(addr: Word, bits: nat): int
    requires bits <= 32
  {
    Network(addr, bits) + Size(bits) - 1
  }

  /** Two addresses are in one subnet when their network bits agree. */
  predicate SameSubnet(a: int, b: int, bits: nat)
    requires bits <= 32
  {
    a / Size(bits) == b / Size(bits)
  }

  /** Masking gives the first address of the subnet. */
  lemma {:induction false} MaskedIsNetwork(addr: Word, bits: nat)
    requires bits <= 32
    ensures Masked(addr, bits) == Network(addr, bits)
  {
    Pow2Values();
    ShiftedOnes(32 - bits);
    AndMask(32, 32 - bits, addr);
  }

  /** `subnet_last` of an IPv4 prefix. */
  function SubnetLast(addr: Word, bits: nat): Option<Word>
    requires bits <= 32
  {
    if bits >= 32 then None
    else Some(Or(Masked(addr, bits), BitNot(ShiftLeft(WORDS - 1, 32 - bits))))
  }

  lemma {:induction false} WholeBlock(q: nat, size: nat, count: nat)
    requires size > 0 && q * size < count * size
    ensures q * size + size <= count * size
  {
    var e := q - count;
    assert e * size == q * size - count * size;
    Multiple(e, size);
  }

  lemma {:induction false} Block(a: nat, size: nat, count: nat)
    requires size > 0 && count * size == WORDS && a < WORDS
    ensures var first := a - a % size;
            0 <= first <= a && first % size == 0 && first / size == a / size && first + size <= WORDS
  {
    var q := a / size;
    var product := q * size;
    assert a == product + a % size;
    Quotient(product, size, q, 0);
    WholeBlock(q, size, count);
  }

  lemma {:induction false} Pow2Product(j: nat, k: nat)
    ensures Pow2(j) * Pow2(k) == Pow2(j + k)
  {
    if j > 0 {
      Pow2Product(j - 1, k);
      assert Pow2(j) * Pow2(k) == 2 * (Pow2(j - 1) * Pow2(k));
    }
  }

  lemma {:induction false} NetworkFits(addr: Word, bits: nat)
    requires bits <= 32
    ensures var net := Network(addr, bits);
            && 0 <= net <= addr && net + Size(bits) <= WORDS
            && net % Size(bits) == 0 && net / Size(bits) == addr / Size(bits)
  {
    Pow2Values();
    Pow2Product(bits, 32 - bits);
    Block(addr, Size(bits), Pow2(bits));
  }

  /** Or-ing the inverted mask gives the last address of the subnet. */
  lemma {:induction false} SubnetLastIsBroadcast(addr: Word, bits: nat)
    requires bits < 32
    ensures SubnetLast(addr, bits) == Some(Broadcast(addr, bits))
  {
    MaskedIsNetwork(addr, bits);
    NetworkFits(addr, bits);
    ShiftedOnes(32 - bits);
    LowOnes(Network(addr, bits), bits);
  }

  lemma {:induction false} LowOnes(net: nat, bits: nat)
    requires bits <= 32 && net < WORDS && net % Size(bits) == 0
    ensures Size(bits) <= WORDS && Or(net, Size(bits) - 1) == net + Size(bits) - 1
  {
    SizeFits(bits);
    Pow2Values();
    OrLowOnes(32, 32 - bits, net);
  }

  lemma {:induction false} InSubnet(net: nat, bits: nat, host: nat)
    requires bits <= 32 && net % Size(bits) == 0 && host < Size(bits)
    ensures SameSubnet(net + host, net, bits)
  {
    var size := Size(bits);
    assert net == (net / size) * size;
    Quotient(net + host, size, net / size, host);
  }

  // ----- the leased client address -----

  /** The four bytes of an address, high byte first. */
  function Bytes(w: Word): (b: seq<nat>)
    ensures |b| == 4 && forall i :: 0 <= i < 4 ==> b[i] < 256
  {
    [w / 256 / 256 / 256, w / 256 / 256 % 256, w / 256 % 256, w % 256]
  }

  function FromBytes(b: seq<nat>): Word
    requires |b| == 4 && forall i :: 0 <= i < 4 ==> b[i] < 256
  {
    ((b[0] * 256 + b[1]) * 256 + b[2]) * 256 + b[3]
  }

  /** The first `k` bytes of one address and the rest of another. */
  function Splice(network: Word, k: nat, template: Word): Word
    requires k <= 4
  {
    FromBytes(Bytes(network)[..k] + Bytes(template)[k..])
  }

  /** The client address: the template's low bytes on an aligned prefix, otherwise broadcast minus two. */
  function ClientIp(network: Word, prefix: nat, template: Word): int
    requires prefix < 32
  {
    if prefix % 8 != 0 then SubnetLast(network, prefix).value - 2
    else Splice(network, prefix / 8, template)
  }

  /** `calc_client_ip`, which overwrites the host bytes of the network address in place. */
  method CalcClientIp(network: Word, prefix: nat, template: Word) returns (ip: int)
    requires prefix < 32
    ensures ip == ClientIp(network, prefix, template)
  {
    if prefix % 8 != 0 {
      return SubnetLast(network, prefix).value - 2;
    }
    var nb, cb := Bytes(network), Bytes(template);
    var n := new nat[4](i requires 0 <= i < 4 => nb[i]);
    var i := prefix / 8;
    while i < 4
      invariant prefix / 8 <= i <= 4
      invariant forall j :: 0 <= j < 4 ==> n[j] == if prefix / 8 <= j < i then cb[j] else nb[j]
    {
      n[i] := cb[i];
      i := i + 1;
    }
    assert n[..] == nb[..prefix / 8] + cb[prefix / 8..];
    ip := FromBytes(n[..]);
  }

  /** Splitting a word after its first `k` bytes. */
  lemma {:induction false} ByteSplit(w: Word)
    ensures var b := Bytes(w);
            && w == b[0] * 0x100_0000 + w % 0x100_0000 && w % 0x100_0000 == (b[1] * 256 + b[2]) * 256 + b[3]
            && w == (b[0] * 256 + b[1]) * 0x1_0000 + w % 0x1_0000 && w % 0x1_0000 == b[2] * 256 + b[3]
            && w == ((b[0] * 256 + b[1]) * 256 + b[2]) * 256 + w % 256 && w % 256 == b[3]
  {
    var b := Bytes(w);
    var x, y := w / 256, w / 256 / 256;
    assert w == x * 256 + b[3] && x == y * 256 + b[2] && y == b[0] * 256 + b[1];
    Quotient(w, 0x1_0000, y, b[2] * 256 + b[3]);
    Quotient(w, 0x100_0000, b[0], (b[1] * 256 + b[2]) * 256 + b[3]);
  }

  lemma {:induction false} ByteSizes()
    ensures Size(0) == WORDS && Size(8) == 0x100_0000 && Size(16) == 0x1_0000 && Size(24) == 0x100
  {
    Pow2Values();
  }

  // A network's host bytes are zero, and the template's make up its host part.

  lemma {:induction false} Splice0(template: Word)
    ensures Splice(0, 0, template) == template && Bytes(0) == [0, 0, 0, 0]
  {
    ByteSplit(template);
    assert Bytes(0)[..0] + Bytes(template)[0..] == Bytes(template);
  }

  lemma {:induction false} Splice1(network: Word, template: Word)
    requires network % 0x100_0000 == 0
    ensures Splice(network, 1, template) == network + template % 0x100_0000
    ensures Bytes(network)[1] == Bytes(network)[2] == Bytes(network)[3] == 0
  {
    ByteSplit(network);
    ByteSplit(template);
    var n, t := Bytes(network), Bytes(template);
    assert n[..1] + t[1..] == [n[0], t[1], t[2], t[3]];
  }

  lemma {:induction false} Splice2(network: Word, template: Word)
    requires network % 0x1_0000 == 0
    ensures Splice(network, 2, template) == network + template % 0x1_0000
    ensures Bytes(network)[2] == Bytes(network)[3] == 0
  {
    ByteSplit(network);
    ByteSplit(template);
    var n, t := Bytes(network), Bytes(template);
    assert n[..2] + t[2..] == [n[0], n[1], t[2], t[3]];
  }

  lemma {:induction false} Splice3(network: Word, template: Word)
    requires network % 0x100 == 0
    ensures Splice(network, 3, template) == network + template % 0x100
    ensures Bytes(network)[3] == 0
  {
    ByteSplit(network);
    ByteSplit(template);
    var n, t := Bytes(network), Bytes(template);
    assert n[..3] + t[3..] == [n[0], n[1], n[2], t[3]];
  }

  /** The size of the subnets whose network part is `k` bytes long. */
  function ByteSize(k: nat): nat {
    match k
    case 0 => WORDS
    case 1 => 0x100_0000
    case 2 => 0x1_0000
    case _ => 0x100
  }

  /** Splicing after `k` bytes of a network adds the template's host part; the network's own is zero. */
  predicate SpliceAdds(network: Word, k: nat, template: Word)
    requires k < 4
  {
    && Splice(network, k, template) == network + template % ByteSize(k)
    && forall j :: k <= j < 4 ==> Bytes(network)[j] == 0
  }

  lemma {:induction false} SpliceAddsAt(network: Word, template: Word)
    ensures network == 0 ==> SpliceAdds(network, 0, template)
    ensures network % 0x100_0000 == 0 ==> SpliceAdds(network, 1, template)
  {
    Splice0(template);
    if network % 0x100_0000 == 0 {
      Splice1(network, template);
    }
  }

  lemma {:induction false} SpliceAddsLow(network: Word, template: Word)
    ensures network % 0x1_0000 == 0 ==> SpliceAdds(network, 2, template)
    ensures network % 0x100 == 0 ==> SpliceAdds(network, 3, template)
  {
    if network % 0x1_0000 == 0 {
      Splice2(network, template);
    }
    if network % 0x100 == 0 {
      Splice3(network, template);
    }
  }

  lemma {:induction false} AlignedAt(network: Word, k: nat, template: Word)
    requires k < 4 && network % ByteSize(k) == 0
    ensures SpliceAdds(network, k, template)
  {
    SpliceAddsAt(network, template);
    SpliceAddsLow(network, template);
    WholeWord(network);
  }

  lemma {:induction false} WholeWord(w: Word)
    ensures w % WORDS == 0 ==> w == 0
  {
  }

  lemma {:induction false} BoundarySize(prefix: nat)
    requires prefix < 32 && prefix % 8 == 0
    ensures prefix / 8 < 4 && Size(prefix) == ByteSize(prefix / 8)
  {
    ByteSizes();
  }

  /** On a byte boundary the address is the network plus the template's host part. */
  lemma {:induction false} AlignedClientIp(network: Word, prefix: nat, template: Word)
    requires prefix < 32 && prefix % 8 == 0 && network % Size(prefix) == 0
    ensures ClientIp(network, prefix, template) == network + template % Size(prefix)
  {
    BoundarySize(prefix);
    AlignedAt(network, prefix / 8, template);
  }

  /**
   * The documented rule of the template, byte by byte: network bytes in front, and behind them the
   * template's byte unless it is zero, which stands for the upstream byte.
   */
  lemma {:induction false} ZeroByteTakesUpstream(network: Word, prefix: nat, template: Word, i: nat)
    requires prefix < 32 && prefix % 8 == 0 && network % Size(prefix) == 0 && i < 4
    ensures var nb, tb := Bytes(network), Bytes(template);
            && 0 <= ClientIp(network, prefix, template) < WORDS
            && Bytes(ClientIp(network, prefix, template))[i] == if i < prefix / 8 || tb[i] == 0 then nb[i] else tb[i]
  {
    BoundarySize(prefix);
    AlignedAt(network, prefix / 8, template);
    BytesOfSplice(network, prefix / 8, template);
  }

  lemma {:induction false} BytesOfSplice(network: Word, k: nat, template: Word)
    requires k <= 4
    ensures Bytes(Splice(network, k, template)) == Bytes(network)[..k] + Bytes(template)[k..]
  {
    BytesFromBytes(Bytes(network)[..k] + Bytes(template)[k..]);
  }

  /** An address is its bytes. */
  lemma {:induction false} BytesFromBytes(b: seq<nat>)
    requires |b| == 4 && forall i :: 0 <= i < 4 ==> b[i] < 256
    ensures Bytes(FromBytes(b)) == b
  {
    var y := b[0] * 256 + b[1];
    var x := y * 256 + b[2];
    assert FromBytes(b) == x * 256 + b[3];
    Quotient(x * 256 + b[3], 256, x, b[3]);
    Quotient(y * 256 + b[2], 256, y, b[2]);
    Quotient(b[0] * 256 + b[1], 256, b[0], b[1]);
  }

  /** What `apply_dhcp_lease` configures: nothing for a broken mask or a prefix of /30 and longer. */
  function Lease(mask: Word, router: Word, template: Word): Option<(int, nat)> {
    match MaskToPrefix(mask)
    case None => None
    case Some(p) =>
      if p >= 30 then None else Some((ClientIp(Masked(router, p), p, template), p))
  }

  /** The offset of the client address in the router's subnet. */
  function HostOffset(p: nat, template: Word): int
    requires p <= 32
  {
    if p % 8 == 0 then template % Size(p) else Size(p) - 3
  }

  lemma {:induction false} LeaseAddress(router: Word, p: nat, template: Word)
    requires p < 30
    ensures var net := Network(router, p);
            && 0 <= net && net + Size(p) <= WORDS && 0 <= HostOffset(p, template) < Size(p)
            && ClientIp(net, p, template) == net + HostOffset(p, template)
            && SameSubnet(net + HostOffset(p, template), router, p)
  {
    NetworkFits(router, p);
    SizeFits(p);
    var net := Network(router, p);
    if p % 8 == 0 {
      AlignedClientIp(net, p, template);
    } else {
      SubnetLastIsBroadcast(net, p);
    }
    InSubnet(net, p, HostOffset(p, template));
  }

  /** A lease is used exactly when its mask is contiguous and shorter than /30. */
  lemma {:induction false} LeaseUsedIff(mask: Word, router: Word, template: Word)
    ensures Lease(mask, router, template).Some? <==> exists p: nat :: p < 30 && IsMask(mask, p)
  {
    var m := MaskToPrefix(mask);
    if m.Some? {
      MaskToPrefixIff(mask, m.value);
    }
    if p: nat :| p < 30 && IsMask(mask, p) {
      MaskToPrefixIff(mask, p);
    }
  }

  /**
   * The leased address lies in the router's subnet. On a byte boundary it is the network plus the
   * template's host part, so it is a host address exactly when that part is neither all zeros nor
   * all ones, and it clashes with the router exactly when that part is the router's own; elsewhere
   * it always is a host address, and it clashes with the router exactly when the router itself sits
   * two below the broadcast address.
   */
  lemma {:induction false} LeaseArithmetic(mask: Word, router: Word, template: Word)
    requires Lease(mask, router, template).Some?
    ensures var Some((ip, p)) := Lease(mask, router, template);
            && p < 30 && IsMask(mask, p) && SameSubnet(ip, router, p)
            && (p % 8 == 0 ==>
                  && ip == Network(router, p) + template % Size(p)
                  && (Network(router, p) < ip < Broadcast(router, p) <==> 0 < template % Size(p) < Size(p) - 1)
                  && (ip == router <==> router % Size(p) == template % Size(p)))
            && (p % 8 != 0 ==>
                  && Network(router, p) < ip < Broadcast(router, p)
                  && (ip == router <==> router % Size(p) == Size(p) - 3))
  {
    var p := MaskToPrefix(mask).value;
    MaskToPrefixIff(mask, p);
    MaskedIsNetwork(router, p);
    LeaseAddress(router, p, template);
    SizeFits(p);
  }

  lemma {:induction false} AlignedLease(mask: Word, p: nat, router: Word, template: Word)
    requires p < 30 && p % 8 == 0 && IsMask(mask, p) && router % Size(p) == template % Size(p)
    ensures Lease(mask, router, template) == Some((router, p))
  {
    MaskToPrefixIff(mask, p);
    LeaseArithmetic(mask, router, template);
  }

  /** 192.168.137.1/24 and the template 0.0.0.1: the stick takes the router's own address. */
  lemma {:induction false} AlignedClash(mask: Word, router: Word, template: Word)
    requires mask == 0xffff_ff00 && router == 0xc0a8_8901 && template == 1
    ensures Lease(mask, router, template) == Some((router, 24))
  {
    ByteSizes();
    HighOnesAreMask(24);
    AlignedLease(mask, 24, router, template);
  }

  // ----- the DHCP pool -----

  /** The pool that `start_dnsmasq` derives from the stick's own address, or none. */
  function Pool(own: Word, bits: nat): Option<(int, int)>
    requires bits <= 32
  {
    match SubnetLast(own, bits)
    case None => None
    case Some(last) =>
      if own + 1 >= WORDS then None            // there is no next address
      else if own + 1 > last - 1 then None
      else Some((own + 1, last - 1))
  }

  predicate InPool(pool: Option<(int, int)>, x: int) {
    pool.Some? && pool.value.0 <= x <= pool.value.1
  }

  /**
   * The pool is exactly what lies strictly between the stick and the broadcast address, hence in
   * the subnet and without router, network or broadcast; it is dropped exactly when that is empty.
   */
  lemma {:induction false} PoolIsBetween(own: Word, bits: nat)
    requires bits <= 32
    ensures var pool, net, last := Pool(own, bits), Network(own, bits), Broadcast(own, bits);
            && (forall x {:trigger InPool(pool, x)} :: InPool(pool, x) <==> own < x < last)
            && (forall x {:trigger InPool(pool, x)} :: InPool(pool, x) ==>
                 SameSubnet(x, own, bits) && x != own && x != net && x != last)
            && (pool.None? <==> last - own <= 1)
            && (bits == 32 ==> pool.None?)
  {
    NetworkFits(own, bits);
    SizeFits(bits);
    if bits < 32 {
      SubnetLastIsBroadcast(own, bits);
      forall x: int | own < x < Broadcast(own, bits) ensures SameSubnet(x, own, bits) {
        InSubnet(Network(own, bits), bits, x - Network(own, bits));
      }
    }
  }
}
