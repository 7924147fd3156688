/**
 IP addresses and CIDR prefixes as numbers, with the operations of Go's net/netip that the bouncer
 uses: Masked, Contains, Unmap, Is4In6.  IPv4-mapped IPv6 addresses are those of section 2.5.5.2 of
 RFC 4291.
 */
module NetAddr {
  import opened Wrappers

  const V4_SIZE: nat := 0x1_0000_0000
  const V6_SIZE: nat := 0x1_0000_0000_0000_0000_0000_0000_0000_0000
  const MAPPED_TOP: nat := 0xffff

  datatype RawAddr = V4(n: nat) | V6(n: nat, zone: string)
  {
    predicate InRange() {
      if V4? then n < V4_SIZE else n < V6_SIZE
    }

    function BitLen(): nat {
      if V4? then 32 else 128
    }

    predicate HasZone() {
      V6? && zone != ""
    }

    /** An IPv6 address whose upper 96 bits are those of ::ffff:0:0/96. */
    predicate Is4In6() {
      V6? && Shr(n, 32) == MAPPED_TOP
    }
  }

  type Addr = a: RawAddr | a.InRange() witness V4(0)

  datatype RawPrefix = Prefix(addr: Addr, bits: nat)

  /** A parsed prefix: no zone, and no more bits than its address has. */
  type Prefix = p: RawPrefix | p.bits <= p.addr.BitLen() && !p.addr.HasZone() witness Prefix(V4(0), 0)

  /** Text parsing is the library's business: each parser is an arbitrary partial function. */
  datatype Parsers = Parsers(addr: string -> Option<Addr>, prefix: string -> Option<Prefix>)

  /** `n >> k` and `n << k`. */
  function Shr(n: nat, k: nat): nat {
    if k == 0 then n else Shr(n / 2, k - 1)
  }

  function Shl(n: nat, k: nat): nat {
    if k == 0 then n else 2 * Shl(n, k - 1)
  }

  function Unmap(a: Addr): (r: Addr)
    ensures !r.Is4In6()
  {
    if a.Is4In6() then
      MappedRange(a.n);
      V4(a.n - MAPPED_TOP * V4_SIZE)
    else a
  }

  /** The IPv4-mapped IPv6 form of an IPv4 address. */
  function Mapped(a: Addr): (r: Addr)
    requires a.V4?
    ensures r.Is4In6() && Unmap(r) == a
  {
    MappedRange(MAPPED_TOP * V4_SIZE + a.n);
    V6(MAPPED_TOP * V4_SIZE + a.n, "")
  }

  function HostBits(p: Prefix): nat {
    p.addr.BitLen() - p.bits
  }

  /** `n` with its lowest `k` bits cleared. */
  function ClearLow(n: nat, k: nat): (r: nat)
    ensures r <= n
    ensures Shr(r, k) == Shr(n, k)
  {
    ClearLowBelow(n, k);
    ShrOfShl(Shr(n, k), k, k);
    Shl(Shr(n, k), k)
  }

  function WithNumber(a: Addr, n: nat): (r: Addr)
    requires n <= a.n
  {
    if a.V4? then V4(n) else V6(n, "")
  }

  function Masked(p: Prefix): (r: Prefix)
    ensures r.bits == p.bits && r.addr.V4? == p.addr.V4?
  {
    Prefix(WithNumber(p.addr, ClearLow(p.addr.n, HostBits(p))), p.bits)
  }

  predicate IsMasked(p: Prefix) {
    Masked(p) == p
  }

  /** Same family, and the prefix's leading bits agree; zones play no part. */
  predicate Covers(p: Prefix, a: Addr) {
    p.addr.V4? == a.V4? && Shr(a.n, HostBits(p)) == Shr(p.addr.n, HostBits(p))
  }

  /** netip's Prefix.Contains: a zoned address is in no prefix. */
  predicate Contains(p: Prefix, a: Addr) {
    !a.HasZone() && Covers(p, a)
  }

  // ----- shifts -----

  lemma {:induction false} ShrOfShl(n: nat, k: nat, j: nat)
    requires j <= k
    ensures Shr(Shl(n, k), j) == Shl(n, k - j)
  {
    if j > 0 {
      ShrOfShl(n, k - 1, j - 1);
    }
  }

  /** Shifting right by `k` yields `q` exactly on the block of 2^k numbers starting at `q << k`. */
  lemma {:induction false} ShrBlock(n: nat, q: nat, k: nat)
    ensures Shr(n, k) == q <==> Shl(q, k) <= n < Shl(q + 1, k)
  {
    if k > 0 {
      ShrBlock(n / 2, q, k - 1);
    }
  }

  lemma ClearLowBelow(n: nat, k: nat)
    ensures Shl(Shr(n, k), k) <= n
  {
  }

  lemma {:induction false} ShrOfSum(t: nat, j: nat, n: nat, k: nat)
    ensures Shr(Shl(t, k + j) + n, k) == Shl(t, j) + Shr(n, k)
  {
    if k > 0 {
      ShrOfSum(t, j, n / 2, k - 1);
      assert (Shl(t, k + j) + n) / 2 == Shl(t, k - 1 + j) + n / 2;
    }
  }

  lemma {:induction false} ShlOfSum(t: nat, j: nat, k: nat)
    ensures Shl(Shl(t, j), k) == Shl(t, j + k)
  {
    if k > 0 {
      ShlOfSum(t, j, k - 1);
    }
  }

  lemma ShlBy8(t: nat)
    ensures Shl(t, 8) == 256 * t
  {
    assert Shl(t, 2) == 2 * Shl(t, 1) == 4 * t;
    assert Shl(t, 4) == 2 * Shl(t, 3) == 4 * Shl(t, 2);
    assert Shl(t, 6) == 2 * Shl(t, 5) == 4 * Shl(t, 4);
    assert Shl(t, 8) == 2 * Shl(t, 7) == 4 * Shl(t, 6);
  }

  lemma ShlBy32(t: nat)
    ensures Shl(t, 32) == t * V4_SIZE
  {
    ShlOfSum(t, 8, 24);
    ShlOfSum(Shl(t, 8), 8, 16);
    ShlOfSum(Shl(Shl(t, 8), 8), 8, 8);
    ShlBy8(t);
    ShlBy8(256 * t);
    ShlBy8(65536 * t);
    ShlBy8(16777216 * t);
  }

  /** The IPv4-mapped addresses are the block of 2^32 numbers that starts at ::ffff:0:0. */
  lemma MappedRange(n: nat)
    ensures Shr(n, 32) == MAPPED_TOP <==> MAPPED_TOP * V4_SIZE <= n < (MAPPED_TOP + 1) * V4_SIZE
  {
    ShrBlock(n, MAPPED_TOP, 32);
    ShlBy32(MAPPED_TOP);
    ShlBy32(MAPPED_TOP + 1);
  }

  /** Agreement on more leading bits implies agreement on fewer. */
  lemma CoarserAgrees(x: nat, y: nat, k: nat, l: nat)
    requires k <= l
    requires Shr(x, k) == Shr(y, k)
    ensures Shr(x, l) == Shr(y, l)
  {
  }

  // ----- what the arithmetic means: bits -----

  function BitAt(n: nat, k: nat): nat {
    Shr(n, k) % 2
  }

  /** Bit `i` of an address, the most significant first. */
  function Bit(a: Addr, i: nat): nat
    requires i < a.BitLen()
  {
    BitAt(a.n, a.BitLen() - 1 - i)
  }

  lemma {:induction false} ShrNext(n: nat, k: nat)
    ensures Shr(n, k + 1) == Shr(n, k) / 2
  {
    if k > 0 {
      ShrNext(n / 2, k - 1);
    }
  }

  /** Numbers of `len` bits agree above position `k` exactly when they agree bit by bit there. */
  lemma {:induction false} AgreeBitwise(x: nat, y: nat, k: nat, len: nat)
    requires k <= len && Shr(x, len) == Shr(y, len)
    ensures Shr(x, k) == Shr(y, k) <==> forall j :: k <= j < len ==> BitAt(x, j) == BitAt(y, j)
    decreases len - k
  {
    if k < len {
      AgreeBitwise(x, y, k + 1, len);
      ShrNext(x, k);
      ShrNext(y, k);
      assert Shr(x, k) == 2 * Shr(x, k + 1) + BitAt(x, k) && Shr(y, k) == 2 * Shr(y, k + 1) + BitAt(y, k);
    }
  }

  lemma NothingAbove(a: Addr)
    ensures Shr(a.n, a.BitLen()) == 0
  {
    ShrBlock(a.n, 0, a.BitLen());
    ShlZero(a.BitLen());
    ShlBy32(1);
    ShlBy128();
  }

  lemma ShlBy64(t: nat)
    ensures Shl(t, 64) == t * V4_SIZE * V4_SIZE
  {
    ShlOfSum(t, 32, 32);
    ShlBy32(t);
    ShlBy32(t * V4_SIZE);
  }

  lemma ShlBy128()
    ensures Shl(1, 128) == V6_SIZE
  {
    ShlOfSum(1, 64, 64);
    ShlBy64(1);
    ShlBy64(V4_SIZE * V4_SIZE);
  }

  lemma {:induction false} ShlZero(k: nat)
    ensures Shl(0, k) == 0
  {
    if k > 0 {
      ShlZero(k - 1);
    }
  }

  /** A prefix covers the addresses of its family whose first bits, as many as it is long, are its own. */
  lemma CoversIffBits(p: Prefix, a: Addr)
    ensures Covers(p, a) <==> p.addr.V4? == a.V4? && forall i :: 0 <= i < p.bits ==> Bit(a, i) == Bit(p.addr, i)
  {
    if p.addr.V4? == a.V4? {
      var len := a.BitLen();
      NothingAbove(a);
      NothingAbove(p.addr);
      AgreeBitwise(a.n, p.addr.n, HostBits(p), len);
      if forall i :: 0 <= i < p.bits ==> Bit(a, i) == Bit(p.addr, i) {
        forall j | HostBits(p) <= j < len
          ensures BitAt(a.n, j) == BitAt(p.addr.n, j)
        {
          assert Bit(a, len - 1 - j) == Bit(p.addr, len - 1 - j);
        }
      } else {
        var i :| 0 <= i < p.bits && Bit(a, i) != Bit(p.addr, i);
        assert BitAt(a.n, len - 1 - i) != BitAt(p.addr.n, len - 1 - i);
      }
    }
  }

  /** The IPv4-mapped addresses ::ffff:0:0 to ::ffff:ffff:ffff stand for their last 32 bits; others for themselves. */
  lemma UnmapMeaning(a: Addr)
    ensures a.Is4In6() <==> a.V6? && 0xffff_0000_0000 <= a.n <= 0xffff_ffff_ffff
    ensures Unmap(a) == if a.V6? && 0xffff_0000_0000 <= a.n <= 0xffff_ffff_ffff then V4(a.n - 0xffff_0000_0000) else a
  {
    MappedRange(a.n);
  }

  // ----- masking and mapping keep meaning -----

  /** Masking never changes which addresses a prefix covers. */
  lemma MaskedCovers(p: Prefix, a: Addr)
    ensures Covers(Masked(p), a) <==> Covers(p, a)
  {
  }

  lemma MaskedIsMasked(p: Prefix)
    ensures IsMasked(Masked(p))
  {
  }

  /** A masked prefix whose base address is IPv4-mapped fixes at least the 96 mapping bits. */
  lemma MappedNeedsNinetySixBits(p: Prefix)
    ensures Masked(p).addr.Is4In6() ==> p.bits >= 96
  {
    var k := HostBits(p);
    if p.addr.V6? && k > 32 {
      ShrOfShl(Shr(p.addr.n, k), k, 32);
      assert Shr(Masked(p).addr.n, 32) == 2 * Shl(Shr(p.addr.n, k), k - 32 - 1);
    }
  }

  /** Masking below the mapping bits leaves them alone. */
  lemma MaskedKeepsMapping(p: Prefix)
    requires p.addr.V6? && p.bits >= 96
    ensures Masked(p).addr.Is4In6() <==> p.addr.Is4In6()
  {
    CoarserAgrees(Masked(p).addr.n, p.addr.n, HostBits(p), 32);
  }

  /** An IPv4-mapped prefix rewritten to IPv4 covers `x` exactly when the original covers mapped `x`. */
  lemma UnmappedCovers(p: Prefix, x: Addr)
    requires p.addr.Is4In6() && p.bits >= 96 && x.V4?
    ensures Covers(Prefix(Unmap(p.addr), p.bits - 96), x) <==> Covers(p, Mapped(x))
  {
    var k := HostBits(p);
    ShlBy32(MAPPED_TOP);
    ShrOfSum(MAPPED_TOP, 32 - k, Unmap(p.addr).n, k);
    ShrOfSum(MAPPED_TOP, 32 - k, x.n, k);
  }

  /** Of two prefixes covering a common address, the longer lies inside the shorter. */
  lemma LongerIsInside(p: Prefix, q: Prefix, a: Addr, x: Addr)
    requires Covers(p, a) && Covers(q, a) && q.bits <= p.bits && Covers(p, x)
    ensures Covers(q, x)
  {
    CoarserAgrees(x.n, a.n, HostBits(p), HostBits(q));
  }

  /** The one masked prefix of the given length that covers `a`. */
  function Slot(a: Addr, bits: nat): (p: Prefix)
    requires bits <= a.BitLen()
    ensures p.bits == bits && IsMasked(p) && Covers(p, a)
  {
    Masked(Prefix(WithNumber(a, a.n), bits))
  }

  lemma SlotUnique(p: Prefix, a: Addr)
    requires IsMasked(p) && Covers(p, a)
    ensures p.bits <= a.BitLen() && p == Slot(a, p.bits)
  {
  }

  // ----- longest-match table (section 5.1 of RFC 4632) -----

  /** A routing table: at most one value for each prefix, all inserted masked. */
  type Table<V> = map<Prefix, V>

  ghost predicate AllMasked<V>(t: Table<V>) {
    forall p :: p in t ==> IsMasked(p)
  }

  function Insert<V>(t: Table<V>, p: Prefix, v: V): Table<V> {
    t[Masked(p) := v]
  }

  datatype Match<V> = Match(prefix: Prefix, value: V)

  /** The entry with the longest covering prefix of at most `bits` bits. */
  function LookupFrom<V>(t: Table<V>, a: Addr, bits: nat): Option<Match<V>>
    requires bits <= a.BitLen()
    decreases bits
  {
    if Slot(a, bits) in t then Some(Match(Slot(a, bits), t[Slot(a, bits)]))
    else if bits == 0 then None
    else LookupFrom(t, a, bits - 1)
  }

  function Lookup<V>(t: Table<V>, a: Addr): Option<Match<V>> {
    LookupFrom(t, a, a.BitLen())
  }

  ghost predicate LongestMatch<V>(t: Table<V>, a: Addr, bits: nat, r: Option<Match<V>>) {
    match r
    case None => forall p :: p in t && Covers(p, a) ==> p.bits > bits
    case Some(m) =>
      && m.prefix in t && t[m.prefix] == m.value && Covers(m.prefix, a)
      && forall p :: p in t && Covers(p, a) && p.bits <= bits ==> p.bits <= m.prefix.bits
  }

  lemma {:induction false} LookupFromIsLongest<V>(t: Table<V>, a: Addr, bits: nat)
    requires AllMasked(t) && bits <= a.BitLen()
    ensures LongestMatch(t, a, bits, LookupFrom(t, a, bits))
    decreases bits
  {
    if Slot(a, bits) in t {
    } else {
      if bits > 0 {
        LookupFromIsLongest(t, a, bits - 1);
      }
      forall p | p in t && Covers(p, a)
        ensures p.bits != bits
      {
        SlotUnique(p, a);
      }
    }
  }

  /** Lookup answers with the longest stored prefix covering the address, or with nothing if none does. */
  lemma LookupIsLongest<V>(t: Table<V>, a: Addr)
    requires AllMasked(t)
    ensures LongestMatch(t, a, a.BitLen(), Lookup(t, a))
    ensures Lookup(t, a).None? ==> forall p :: p in t ==> !Covers(p, a)
    ensures Lookup(t, a).Some? ==> forall p :: p in t && Covers(p, a) ==> p.bits <= Lookup(t, a).value.prefix.bits
  {
    LookupFromIsLongest(t, a, a.BitLen());
    forall p | p in t && Covers(p, a)
      ensures p.bits <= a.BitLen()
    {
      SlotUnique(p, a);
    }
  }
}
