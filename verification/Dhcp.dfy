/** The DHCP range a portal derives from its CIDR, in the wrapping 32-bit arithmetic of the source. */
module Dhcp {
  import opened Options
  import opened Arithmetic

  /** An IPv4 address as its four bytes, the form in which addresses are formatted and parsed. */
  datatype Quad = Quad(a: bv8, b: bv8, c: bv8, d: bv8)

  function U32ToIP(v: bv32): Quad {
    Quad(((v >> 24) & 0xFF) as bv8, ((v >> 16) & 0xFF) as bv8, ((v >> 8) & 0xFF) as bv8, (v & 0xFF) as bv8)
  }

  function IPToU32(q: Quad): bv32 {
    ((q.a as bv32) << 24) | ((q.b as bv32) << 16) | ((q.c as bv32) << 8) | (q.d as bv32)
  }

  /** Packing four bytes and unpacking a word undo each other. */
  lemma PackingIsInverse(v: bv32, q: Quad)
    ensures IPToU32(U32ToIP(v)) == v && U32ToIP(IPToU32(q)) == q
  {
  }

  /** The first byte is the most significant one. */
  lemma FirstByteIsHighest(v: bv32)
    ensures var q := U32ToIP(v);
            && q.a as bv32 == v >> 24 && q.b as bv32 == (v >> 16) & 0xFF
            && q.c as bv32 == (v >> 8) & 0xFF && q.d as bv32 == v & 0xFF
    ensures U32ToIP(0x0A01_16FE) == Quad(10, 1, 22, 254) && IPToU32(Quad(10, 1, 22, 254)) == 0x0A01_16FE
  {
  }

  // ---------- the range ----------

  const WORD: int := 0x1_0000_0000

  /** A 32-bit word as an integer. */
  type U32 = x: int | 0 <= x < WORD

  /** The result of a 32-bit operation: arithmetic wraps around. */
  function Wrap(x: int): U32 {
    x % WORD
  }

  function Pow2(n: nat): int {
    if n == 0 then 1 else 2 * Pow2(n - 1)
  }

  /** The greatest offset of a network, the one of its broadcast address. A shift by 32 leaves 0. */
  function MaxHost(hostBits: nat): U32
    requires hostBits <= 32
  {
    Wrap(Wrap(Pow2(hostBits)) - 1)
  }

  lemma {:induction false} Pow2Splits(n: nat, k: nat)
    requires k <= n
    ensures 0 < Pow2(k) && Pow2(n) == Pow2(k) * Pow2(n - k)
  {
    if k > 0 {
      Pow2Splits(n - 1, k - 1);
    } else if n > 0 {
      Pow2Splits(n - 1, 0);
    }
  }

  lemma WordIsPow2()
    ensures Pow2(32) == WORD && Pow2(31) == WORD / 2 && Pow2(2) == 4
  {
    assert Pow2(8) == 256;
    Pow2Splits(16, 8);
    Pow2Splits(32, 16);
  }

  /** The address with its host bits cleared. */
  function NetworkOf(addr: U32, hostBits: nat): int {
    Pow2Splits(hostBits, 0);
    Pow2Splits(hostBits, hostBits);
    addr - addr % Pow2(hostBits)
  }

  predicate Contains(base: U32, hostBits: nat, addr: U32) {
    NetworkOf(addr, hostBits) == base
  }

  predicate IsNetwork(base: U32, hostBits: nat) {
    Contains(base, hostBits, base)
  }

  /** A host address is in the network and is neither the network nor the broadcast address. */
  predicate IsHost(base: U32, hostBits: nat, addr: U32) {
    Contains(base, hostBits, addr) && addr != base && addr != base + Pow2(hostBits) - 1
  }

  /** Where the range starts: at the hint when it is a host of the network, else at 100, unless that
      lies too close to the end. */
  function StartOffset(base: U32, hostBits: nat, hint: Option<U32>): U32
    requires hostBits <= 32
  {
    var maxHost := MaxHost(hostBits);
    var offset: U32 :=
      if hint.Some? && Contains(base, hostBits, hint.value) && 0 < Wrap(hint.value - base) < maxHost
      then Wrap(hint.value - base) else 100;
    if offset >= Wrap(maxHost - 1) then 2 else offset
  }

  function DhcpRangeFor(base: U32, hostBits: nat, hint: Option<U32>): Option<(U32, U32)>
    requires hostBits <= 32
  {
    if hostBits < 2 then None
    else
      var maxHost := MaxHost(hostBits);
      var start := Wrap(base + StartOffset(base, hostBits, hint));
      var end := Wrap(start + 100);
      Some((start, if Wrap(end - base) >= maxHost then Wrap(Wrap(base + maxHost) - 1) else end))
  }

  /** The checks of PortalCreate on the addresses the request gives or leaves to be derived. */
  predicate PortalCreateAccepts(base: U32, hostBits: nat, givenStart: Option<U32>, givenEnd: Option<U32>)
    requires hostBits <= 32
  {
    var derived := DhcpRangeFor(base, hostBits, givenStart);
    if (givenStart.None? || givenEnd.None?) && derived.None? then false
    else
      var start := if givenStart.Some? then givenStart.value else derived.value.0;
      var end := if givenEnd.Some? then givenEnd.value else derived.value.1;
      Contains(base, hostBits, start) && Contains(base, hostBits, end) && start <= end
  }

  // ---------- the shape of a network ----------

  lemma {:induction false} Pow2IsMonotone(k: nat, n: nat)
    requires k <= n
    ensures 0 < Pow2(k) <= Pow2(n)
  {
    if k < n {
      Pow2IsMonotone(k, n - 1);
    } else if k > 0 {
      Pow2IsMonotone(k - 1, k - 1);
    }
  }

  lemma SizeShape(hostBits: nat)
    requires 2 <= hostBits <= 32
    ensures 4 <= Pow2(hostBits) && MaxHost(hostBits) == Pow2(hostBits) - 1
    ensures if hostBits < 32 then Pow2(hostBits) <= WORD / 2 else Pow2(hostBits) == WORD
  {
    hide Pow2;
    WordIsPow2();
    Pow2IsMonotone(2, hostBits);
    if hostBits < 32 {
      Pow2IsMonotone(hostBits, 31);
    }
  }

  lemma RoomForOneMore(base: int, size: int, blocks: int)
    requires size > 0 && 0 <= base < size * blocks && base % size == 0
    ensures base + size <= size * blocks
  {
    var k := base / size;
    assert base == size * k;
    CancelFactorStrict(k, blocks, size);
    MulMono(k + 1, blocks, size);
  }

  lemma SameBlock(base: int, size: int, addr: int)
    requires size > 0 && base % size == 0
    ensures addr - addr % size == base <==> base <= addr < base + size
  {
    var k, j := base / size, addr / size;
    assert base == size * k && addr == size * j + addr % size;
    if base <= addr < base + size {
      assert size * (k + 1) == base + size && size * (j + 1) == size * j + size;
      CancelFactorStrict(k, j + 1, size);
      CancelFactorStrict(j, k + 1, size);
    }
  }

  /** A network fits below 2^32, and its addresses form an interval. */
  lemma NetworkShape(base: U32, hostBits: nat)
    requires hostBits <= 32 && IsNetwork(base, hostBits)
    ensures base + Pow2(hostBits) <= WORD
    ensures forall addr: U32 :: Contains(base, hostBits, addr) <==> base <= addr < base + Pow2(hostBits)
  {
    hide Pow2;
    WordIsPow2();
    Pow2Splits(32, hostBits);
    RoomForOneMore(base, Pow2(hostBits), Pow2(32 - hostBits));
    forall addr: U32
      ensures Contains(base, hostBits, addr) <==> base <= addr < base + Pow2(hostBits)
    {
      SameBlock(base, Pow2(hostBits), addr);
    }
  }

  // ---------- the range is made of hosts ----------

  lemma OffsetIsAHost(base: U32, hostBits: nat, hint: Option<U32>)
    requires 2 <= hostBits <= 32
    ensures 0 < StartOffset(base, hostBits, hint) < Pow2(hostBits) - 1
  {
    hide Pow2, MaxHost, Contains;
    SizeShape(hostBits);
  }

  lemma WrapOnce(x: int)
    requires 0 <= x < 2 * WORD
    ensures Wrap(x) == if x < WORD then x else x - WORD
  {
  }

  lemma WrapDifference(x: U32, y: U32)
    ensures Wrap(x - y) == if x < y then x - y + WORD else x - y
  {
  }

  /** The two ends of the range without the wrapping. */
  lemma RangeEnds(base: U32, hostBits: nat, hint: Option<U32>)
    requires 2 <= hostBits <= 32 && IsNetwork(base, hostBits)
    ensures var r := DhcpRangeFor(base, hostBits, hint); var offset := StartOffset(base, hostBits, hint);
            && r.Some? && r.value.0 == base + offset
            && (offset + 100 < WORD ==>
                  r.value.1 == base + if offset + 100 >= Pow2(hostBits) - 1 then Pow2(hostBits) - 2 else offset + 100)
            && (offset + 100 >= WORD ==> r.value.1 == offset + 100 - WORD)
  {
    hide Pow2, MaxHost, Contains, StartOffset, NetworkOf, Wrap;
    SizeShape(hostBits);
    NetworkShape(base, hostBits);
    OffsetIsAHost(base, hostBits, hint);
    var offset := StartOffset(base, hostBits, hint);
    WrapOnce(base + offset);
    WrapOnce(base + offset + 100);
    var end := Wrap(base + offset + 100);
    WrapDifference(end, base);
    WrapOnce(base + MaxHost(hostBits));
    WrapOnce(base + MaxHost(hostBits) - 1);
  }

  /** For every network with 2 to 32 host bits and every hint, both ends of the range are hosts in
      order, if and only if adding 100 to the offset does not wrap around; only a network of 32 host
      bits can wrap. */
  lemma DerivedRangeIsValidIff(base: U32, hostBits: nat, hint: Option<U32>)
    requires 2 <= hostBits <= 32 && IsNetwork(base, hostBits)
    ensures var r := DhcpRangeFor(base, hostBits, hint);
            && r.Some?
            && ((r.value.0 <= r.value.1 && IsHost(base, hostBits, r.value.0) && IsHost(base, hostBits, r.value.1))
                <==> StartOffset(base, hostBits, hint) + 100 < WORD)
    ensures hostBits < 32 ==> StartOffset(base, hostBits, hint) + 100 < WORD
  {
    hide Pow2, NetworkOf, MaxHost, Contains, DhcpRangeFor, StartOffset;
    SizeShape(hostBits);
    NetworkShape(base, hostBits);
    OffsetIsAHost(base, hostBits, hint);
    RangeEnds(base, hostBits, hint);
  }

  /** The range that is derived for a network with 2 to 31 host bits: it starts at the hint when that is a host
      but the last one, and otherwise at the third address of a network of at most 64, or for a hint at the
      last host, and at the 101st of a larger one; it ends 100 addresses later or at the last host. */
  lemma DerivedRangeLaw(base: U32, hostBits: nat, hint: Option<U32>)
    requires 2 <= hostBits <= 31 && IsNetwork(base, hostBits)
    ensures var r := DhcpRangeFor(base, hostBits, hint); var last := base + Pow2(hostBits) - 2;
            && r.Some?
            && r.value.0 == (if hint.Some? && base < hint.value < last then hint.value
                             else if hostBits <= 6 || hint == Some(last) then base + 2 else base + 100)
            && r.value.1 == if r.value.0 + 100 <= last then r.value.0 + 100 else last
  {
    hide Pow2, NetworkOf, MaxHost, Contains, DhcpRangeFor;
    SizeShape(hostBits);
    NetworkShape(base, hostBits);
    RangeEnds(base, hostBits, hint);
    SmallNetworks(hostBits);
    if hint.Some? {
      WrapDifference(hint.value, base);
    }
  }

  /** A request that gives neither address is accepted exactly when the network has at least four addresses. */
  lemma FullyDerivedRangeIsAcceptedIff(base: U32, hostBits: nat)
    requires hostBits <= 32 && IsNetwork(base, hostBits)
    ensures PortalCreateAccepts(base, hostBits, None, None) <==> hostBits >= 2
  {
    hide Pow2, NetworkOf, MaxHost, Contains;
    if hostBits >= 2 {
      SizeShape(hostBits);
      NetworkShape(base, hostBits);
      DerivedRangeIsValidIff(base, hostBits, None);
    }
  }

  /** A request that gives only the start is accepted exactly when the network has at least four addresses
      and the start is one of them other than the broadcast address and, in a network of more than 64
      addresses, other than the last host, since the end is then derived from the default start and falls
      before it. In a /0 it must also not be among the last 100 addresses, where the end wraps around. */
  lemma GivenStartIsAcceptedIff(base: U32, hostBits: nat, start: U32)
    requires hostBits <= 32 && IsNetwork(base, hostBits)
    ensures PortalCreateAccepts(base, hostBits, Some(start), None) <==>
            && 2 <= hostBits
            && Contains(base, hostBits, start)
            && start != base + Pow2(hostBits) - 1
            && (start == base + Pow2(hostBits) - 2 ==> hostBits <= 6)
            && (hostBits == 32 ==> start + 100 < WORD)
  {
    hide Pow2, NetworkOf, MaxHost, Contains;
    if hostBits >= 2 {
      SizeShape(hostBits);
      NetworkShape(base, hostBits);
      RangeEnds(base, hostBits, Some(start));
      SmallNetworks(hostBits);
    }
  }

  /** A request that gives only the end is accepted exactly when the network has at least four addresses
      and the end is one of them and not before the default start, which is its third address in a
      network of at most 64 and its 101st in a larger one. */
  lemma GivenEndIsAcceptedIff(base: U32, hostBits: nat, end: U32)
    requires hostBits <= 32 && IsNetwork(base, hostBits)
    ensures PortalCreateAccepts(base, hostBits, None, Some(end)) <==>
            && 2 <= hostBits
            && Contains(base, hostBits, end)
            && base + (if hostBits <= 6 then 2 else 100) <= end
  {
    hide Pow2, NetworkOf, MaxHost, Contains;
    if hostBits >= 2 {
      SizeShape(hostBits);
      NetworkShape(base, hostBits);
      RangeEnds(base, hostBits, None);
      SmallNetworks(hostBits);
    }
  }

  /** A request that gives both is accepted exactly when they are addresses of the network in order, its
      network and broadcast addresses included. */
  lemma GivenBothAreAcceptedIff(base: U32, hostBits: nat, start: U32, end: U32)
    requires hostBits <= 32 && IsNetwork(base, hostBits)
    ensures PortalCreateAccepts(base, hostBits, Some(start), Some(end)) <==>
            base <= start <= end < base + Pow2(hostBits)
  {
    hide Pow2, NetworkOf, Contains, DhcpRangeFor;
    NetworkShape(base, hostBits);
  }

  /** In 10.0.22.0/24 a range from .254 is refused, one from .253 or from the network address is not. */
  lemma LastHostIsRefused()
    ensures var base := 0x0A00_1600;
            && IsNetwork(base, 8)
            && !PortalCreateAccepts(base, 8, Some(base + 254), None)
            && PortalCreateAccepts(base, 8, Some(base + 253), None)
            && PortalCreateAccepts(base, 8, Some(base), None)
  {
    var base := 0x0A00_1600;
    assert Pow2(8) == 256 && IsNetwork(base, 8);
    NetworkShape(base, 8);
    hide Pow2, NetworkOf, MaxHost, Contains, PortalCreateAccepts;
    GivenStartIsAcceptedIff(base, 8, base + 254);
    GivenStartIsAcceptedIff(base, 8, base + 253);
    GivenStartIsAcceptedIff(base, 8, base);
  }

  lemma SmallNetworks(hostBits: nat)
    requires 2 <= hostBits <= 32
    ensures hostBits <= 6 ==> Pow2(hostBits) <= 64
    ensures hostBits > 6 ==> Pow2(hostBits) >= 128
  {
    assert Pow2(6) == 64 && Pow2(7) == 128;
    if hostBits <= 6 {
      Pow2IsMonotone(hostBits, 6);
    } else {
      Pow2IsMonotone(7, hostBits);
    }
  }
}
