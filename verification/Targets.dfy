/**
 Addresses in their 16 byte form, and the two places that decide whether a host is
 protected: the byte and mask test in user space and the prefix trie in the kernel.
 IPv4 is stored in the IPv4-mapped form of section 2.5.5.2 of RFC 4291.
 */
module Targets {
  import opened Options

  type Octets4 = s: seq<bv8> | |s| == 4 witness [0, 0, 0, 0]
  type Addr = s: seq<bv8> | |s| == 16 witness [0, 0, 0, 0, 0, 0, 0, 0, 0, 0, 0, 0, 0, 0, 0, 0]

  datatype IpAddr = V4(v4: Octets4) | V6(v6: Addr)

  const MAPPED_PREFIX: seq<bv8> := [0, 0, 0, 0, 0, 0, 0, 0, 0, 0, 0xff, 0xff]
  const V4_MAPPED_PREFIX_OFFSET: nat := 96

  function V4Mapped(o: Octets4): Addr {
    MAPPED_PREFIX + o
  }

  predicate IsMapped(a: Addr) {
    a[..12] == MAPPED_PREFIX
  }

  function ToAddr(ip: IpAddr): Addr {
    match ip
    case V4(o) => V4Mapped(o)
    case V6(a) => a
  }

  function FromAddr(a: Addr): IpAddr {
    if IsMapped(a) then V4(a[12..]) else V6(a)
  }

  /** An address has one 16 byte form unless it is an IPv6 address that is itself IPv4-mapped. */
  predicate Canonical(ip: IpAddr) {
    ip.V6? ==> !IsMapped(ip.v6)
  }

  /** The stored form of an IPv4 address, byte by byte: ten of zero, two of ones, and its own four. */
  lemma MappedForm(o: Octets4)
    ensures var a := ToAddr(V4(o));
            && (forall i :: 0 <= i < 10 ==> a[i] == 0) && a[10] == 0xFF && a[11] == 0xFF && a[12..] == o
            && FromAddr(a) == V4(o)
  {
  }

  /** Reading back what was stored gives the address itself exactly for canonical addresses. */
  lemma AddressRoundTrip(ip: IpAddr)
    ensures FromAddr(ToAddr(ip)) == ip <==> Canonical(ip)
    ensures Canonical(FromAddr(ToAddr(ip)))
  {
  }

  /** Storing what was read back gives the stored key. */
  lemma StoredRoundTrip(a: Addr)
    ensures ToAddr(FromAddr(a)) == a
  {
  }

  /** No two stored keys read back as the same address. */
  lemma FromAddrInjective(a: Addr, b: Addr)
    ensures FromAddr(a) == FromAddr(b) <==> a == b
  {
  }

  // ----- prefixes, bit by bit -----

  /** Bit j of an octet alone, the most significant bit first. */
  function Single(j: nat): bv8
    requires j < 8
  {
    if j == 0 then 0x80 else if j == 1 then 0x40 else if j == 2 then 0x20 else if j == 3 then 0x10
    else if j == 4 then 0x08 else if j == 5 then 0x04 else if j == 6 then 0x02 else 0x01
  }

  predicate OctetBit(o: bv8, j: nat)
    requires j < 8
  {
    o & Single(j) != 0
  }

  predicate Bit(o: seq<bv8>, i: nat)
    requires i < 8 * |o|
  {
    OctetBit(o[i / 8], i % 8)
  }

  /** The first n bits of two byte strings are the same. */
  ghost predicate SameBits(a: seq<bv8>, b: seq<bv8>, n: nat)
    requires n <= 8 * |a| && n <= 8 * |b|
  {
    forall i :: 0 <= i < n ==> Bit(a, i) == Bit(b, i)
  }

  predicate SameUnder(a: bv8, b: bv8, mask: bv8) {
    a & mask == b & mask
  }

  /** The mask that user space builds for the last, partial octet. */
  function Mask(extra: nat): bv8
    requires 1 <= extra <= 7
  {
    (0xFF as bv8) << (8 - extra)
  }

  /** The same mask, written out. */
  function Leading(n: nat): bv8
    requires 1 <= n <= 7
  {
    if n == 1 then 0x80 else if n == 2 then 0xC0 else if n == 3 then 0xE0
    else if n == 4 then 0xF0 else if n == 5 then 0xF8 else if n == 6 then 0xFC else 0xFE
  }

  lemma MaskIsLeading(extra: nat)
    requires 1 <= extra <= 7
    ensures Mask(extra) == Leading(extra)
  {
  }

  // One lemma per mask keeps each bit-vector query on literals.
  lemma Under1(a: bv8, b: bv8) ensures SameUnder(a, b, 0x80) <==> OctetBit(a, 0) == OctetBit(b, 0) {}
  lemma Under2(a: bv8, b: bv8) ensures SameUnder(a, b, 0xC0) <==> SameUnder(a, b, 0x80) && OctetBit(a, 1) == OctetBit(b, 1) {}
  lemma Under3(a: bv8, b: bv8) ensures SameUnder(a, b, 0xE0) <==> SameUnder(a, b, 0xC0) && OctetBit(a, 2) == OctetBit(b, 2) {}
  lemma Under4(a: bv8, b: bv8) ensures SameUnder(a, b, 0xF0) <==> SameUnder(a, b, 0xE0) && OctetBit(a, 3) == OctetBit(b, 3) {}
  lemma Under5(a: bv8, b: bv8) ensures SameUnder(a, b, 0xF8) <==> SameUnder(a, b, 0xF0) && OctetBit(a, 4) == OctetBit(b, 4) {}
  lemma Under6(a: bv8, b: bv8) ensures SameUnder(a, b, 0xFC) <==> SameUnder(a, b, 0xF8) && OctetBit(a, 5) == OctetBit(b, 5) {}
  lemma Under7(a: bv8, b: bv8) ensures SameUnder(a, b, 0xFE) <==> SameUnder(a, b, 0xFC) && OctetBit(a, 6) == OctetBit(b, 6) {}
  lemma Under8(a: bv8, b: bv8) ensures a == b <==> SameUnder(a, b, 0xFE) && OctetBit(a, 7) == OctetBit(b, 7) {}

  /** Equal under the mask of n leading ones is equal in the first n bits. */
  lemma {:induction false} LeadingCompares(a: bv8, b: bv8, n: nat)
    requires 1 <= n <= 7
    ensures SameUnder(a, b, Leading(n)) <==> forall j :: 0 <= j < n ==> OctetBit(a, j) == OctetBit(b, j)
  {
    hide OctetBit, SameUnder;
    if n == 1 {
      Under1(a, b);
    } else {
      LeadingCompares(a, b, n - 1);
      if n == 2 { Under2(a, b); }
      else if n == 3 { Under3(a, b); }
      else if n == 4 { Under4(a, b); }
      else if n == 5 { Under5(a, b); }
      else if n == 6 { Under6(a, b); }
      else { Under7(a, b); }
    }
  }

  lemma OctetEqual(a: bv8, b: bv8)
    requires forall j :: 0 <= j < 8 ==> OctetBit(a, j) == OctetBit(b, j)
    ensures a == b
  {
    hide OctetBit, SameUnder;
    LeadingCompares(a, b, 7);
    Under8(a, b);
  }

  /** Equal leading bytes and equal leading bits are the same thing. */
  lemma SameBytes(a: seq<bv8>, b: seq<bv8>, n: nat)
    requires n <= |a| && n <= |b|
    ensures SameBits(a, b, 8 * n) <==> a[..n] == b[..n]
  {
    hide OctetBit;
    if a[..n] == b[..n] {
      forall i | 0 <= i < 8 * n
        ensures Bit(a, i) == Bit(b, i)
      {
        assert a[..n][i / 8] == b[..n][i / 8];
      }
    }
    if SameBits(a, b, 8 * n) {
      forall k | 0 <= k < n
        ensures a[k] == b[k]
      {
        OctetOf(a, b, n, k);
      }
    }
  }

  lemma OctetOf(a: seq<bv8>, b: seq<bv8>, n: nat, k: nat)
    requires k < n <= |a| && n <= |b| && SameBits(a, b, 8 * n)
    ensures a[k] == b[k]
  {
    hide OctetBit;
    forall j | 0 <= j < 8
      ensures OctetBit(a[k], j) == OctetBit(b[k], j)
    {
      var i := 8 * k + j;
      assert i / 8 == k && i % 8 == j;
      assert Bit(a, i) == Bit(b, i);
    }
    OctetEqual(a[k], b[k]);
  }

  /** Splitting a bit prefix into whole bytes and the leading bits of the next byte. */
  lemma BitsSplit(a: seq<bv8>, b: seq<bv8>, bytes: nat, extra: nat)
    requires extra < 8 && 8 * bytes + extra <= 8 * |a| && 8 * bytes + extra <= 8 * |b|
    ensures SameBits(a, b, 8 * bytes + extra) <==>
              SameBits(a, b, 8 * bytes) &&
              (extra > 0 ==> forall j :: 0 <= j < extra ==> OctetBit(a[bytes], j) == OctetBit(b[bytes], j))
  {
    hide OctetBit;
    var n := 8 * bytes + extra;
    if SameBits(a, b, n) && extra > 0 {
      forall j | 0 <= j < extra
        ensures OctetBit(a[bytes], j) == OctetBit(b[bytes], j)
      {
        var i := 8 * bytes + j;
        assert i / 8 == bytes && i % 8 == j;
        assert Bit(a, i) == Bit(b, i);
      }
    }
    if SameBits(a, b, 8 * bytes) && (extra > 0 ==> forall j :: 0 <= j < extra ==> OctetBit(a[bytes], j) == OctetBit(b[bytes], j)) {
      forall i | 0 <= i < n
        ensures Bit(a, i) == Bit(b, i)
      {
        if i >= 8 * bytes {
          assert i / 8 == bytes && i % 8 == i - 8 * bytes;
        }
      }
    }
  }

  // ----- user space -----

  datatype VictimTargets = List(ips: seq<IpAddr>) | Subnet(ip: IpAddr, prefix: nat)

  /** What a target set means: listed, or agreeing with the subnet on its first `prefix` bits. */
  ghost predicate Covers(t: VictimTargets, ip: IpAddr) {
    match t
    case List(ips) => ip in ips
    case Subnet(V4(net), prefix) => ip.V4? && prefix <= 32 && SameBits(net, ip.v4, prefix)
    case Subnet(V6(net), prefix) => ip.V6? && prefix <= 128 && SameBits(net, ip.v6, prefix)
  }

  /** Whole bytes in a loop, then one masked byte. */
  method PrefixMatches(net: seq<bv8>, target: seq<bv8>, bits: nat) returns (b: bool)
    requires |net| == |target|
    ensures b <==> bits <= 8 * |net| && SameBits(net, target, bits)
  {
    hide OctetBit, Mask, Bit, SameUnder;
    if bits > 8 * |net| {
      return false;
    }
    var bytes, extra := bits / 8, bits % 8;
    BitsSplit(net, target, bytes, extra);
    SameBytes(net, target, bytes);
    for i := 0 to bytes
      invariant net[..i] == target[..i]
    {
      if net[i] != target[i] {
        assert net[..bytes][i] != target[..bytes][i];
        return false;
      }
    }
    if extra > 0 {
      var mask := Mask(extra);
      MaskIsLeading(extra);
      LeadingCompares(net[bytes], target[bytes], extra);
      if !SameUnder(net[bytes], target[bytes], mask) {
        return false;
      }
    }
    return true;
  }

  method Contains(t: VictimTargets, target: IpAddr) returns (b: bool)
    ensures b <==> Covers(t, target)
  {
    match t {
      case List(ips) => b := target in ips;
      case Subnet(ip, prefix) =>
        if ip.V4? && target.V4? {
          b := PrefixMatches(ip.v4, target.v4, prefix);
        } else if ip.V6? && target.V6? {
          b := PrefixMatches(ip.v6, target.v6, prefix);
        } else {
          b := false;
        }
    }
  }

  /** Protected in user space; no target set at all means every address is tracked. */
  method IsEffectivelyProtected(targets: Option<VictimTargets>, exclude: seq<IpAddr>, ip: IpAddr) returns (b: bool)
    ensures b <==> if targets.Some? then Protected(targets.value, exclude, ip) else ip !in exclude
  {
    var matches := true;
    if targets.Some? {
      matches := Contains(targets.value, ip);
    }
    b := matches && ip !in exclude;
  }

  ghost predicate Protected(t: VictimTargets, exclude: seq<IpAddr>, ip: IpAddr) {
    Covers(t, ip) && ip !in exclude
  }

  // ----- the kernel tries -----

  datatype Entry = Entry(addr: Addr, prefixLen: nat)

  /** The entries loaded for a target set: full length for a list, one entry for a subnet. */
  function TargetEntries(t: VictimTargets): seq<Entry> {
    match t
    case List(ips) => seq(|ips|, i requires 0 <= i < |ips| => Entry(ToAddr(ips[i]), 128))
    case Subnet(ip, prefix) =>
      [Entry(ToAddr(ip), if ip.V4? then V4_MAPPED_PREFIX_OFFSET + prefix else prefix)]
  }

  function ExcludedEntries(exclude: seq<IpAddr>): seq<Entry> {
    seq(|exclude|, i requires 0 <= i < |exclude| => Entry(ToAddr(exclude[i]), 128))
  }

  /** A lookup with a full length key finds something when some entry's prefix covers it; a longer prefix fails to load. */
  ghost predicate TrieFinds(entries: seq<Entry>, addr: Addr) {
    exists i :: 0 <= i < |entries| && entries[i].prefixLen <= 128 && SameBits(entries[i].addr, addr, entries[i].prefixLen)
  }

  ghost predicate KernelProtected(t: VictimTargets, exclude: seq<IpAddr>, addr: Addr) {
    TrieFinds(TargetEntries(t), addr) && !TrieFinds(ExcludedEntries(exclude), addr)
  }

  /** The other address with the same stored form: an IPv4 address and its IPv4-mapped IPv6 form are twins. */
  function Twin(ip: IpAddr): Option<IpAddr> {
    match ip
    case V4(o) => Some(V6(V4Mapped(o)))
    case V6(a) => if IsMapped(a) then Some(V4(a[12..])) else None
  }

  lemma SameStored(x: IpAddr, ip: IpAddr)
    ensures ToAddr(x) == ToAddr(ip) <==> x == ip || Twin(ip) == Some(x)
  {
    AddressRoundTrip(x);
    AddressRoundTrip(ip);
    if ToAddr(x) == ToAddr(ip) && x != ip {
      assert x.V4? != ip.V4?;
      assert FromAddr(ToAddr(x)) == FromAddr(ToAddr(ip));
    }
    if Twin(ip) == Some(x) && ip.V6? {
      assert ip.v6 == ip.v6[..12] + ip.v6[12..];
    }
  }

  /** Full length entries are found exactly by the addresses they were made from and by their twins. */
  lemma FullEntries(ips: seq<IpAddr>, entries: seq<Entry>, ip: IpAddr)
    requires |entries| == |ips| && forall i :: 0 <= i < |ips| ==> entries[i] == Entry(ToAddr(ips[i]), 128)
    ensures TrieFinds(entries, ToAddr(ip)) <==> ip in ips || (Twin(ip).Some? && Twin(ip).value in ips)
  {
    hide SameBits, ToAddr, Twin;
    forall i | 0 <= i < |ips|
      ensures SameBits(entries[i].addr, ToAddr(ip), 128) <==> ips[i] == ip || Twin(ip) == Some(ips[i])
    {
      SameBytes(ToAddr(ips[i]), ToAddr(ip), 16);
      assert ToAddr(ips[i])[..16] == ToAddr(ips[i]) && ToAddr(ip)[..16] == ToAddr(ip);
      SameStored(ips[i], ip);
    }
    if i :| 0 <= i < |ips| && (ips[i] == ip || Twin(ip) == Some(ips[i])) {
      assert SameBits(entries[i].addr, ToAddr(ip), entries[i].prefixLen);
    }
  }

  /** Shifting an IPv4 prefix by 96 in the mapped form compares the same bits. */
  lemma MappedShift(a: Octets4, b: Octets4, prefix: nat)
    requires prefix <= 32
    ensures SameBits(V4Mapped(a), V4Mapped(b), 96 + prefix) <==> SameBits(a, b, prefix)
  {
    hide OctetBit;
    var x, y := V4Mapped(a), V4Mapped(b);
    forall i | 0 <= i < prefix
      ensures Bit(x, 96 + i) == Bit(a, i) && Bit(y, 96 + i) == Bit(b, i)
    {
      assert (96 + i) / 8 == 12 + i / 8 && (96 + i) % 8 == i % 8;
    }
    if SameBits(a, b, prefix) {
      SameBytes(x, y, 12);
      assert x[..12] == MAPPED_PREFIX == y[..12];
      forall i | 0 <= i < 96 + prefix
        ensures Bit(x, i) == Bit(y, i)
      {
        if i >= 96 {
          assert Bit(x, 96 + (i - 96)) == Bit(a, i - 96);
        }
      }
    }
    if SameBits(x, y, 96 + prefix) {
      forall i | 0 <= i < prefix
        ensures Bit(a, i) == Bit(b, i)
      {
        assert Bit(x, 96 + i) == Bit(y, 96 + i);
      }
    }
  }

  /** An address that agrees with a mapped one on 96 bits is mapped itself. */
  lemma MappedBySharing(a: Octets4, b: Addr, n: nat)
    requires 96 <= n <= 128 && SameBits(V4Mapped(a), b, n)
    ensures IsMapped(b)
  {
    hide OctetBit;
    assert SameBits(V4Mapped(a), b, 96);
    SameBytes(V4Mapped(a), b, 12);
    assert V4Mapped(a)[..12] == MAPPED_PREFIX;
  }

  ghost predicate TwinCovered(t: VictimTargets, ip: IpAddr) {
    Twin(ip).Some? && Covers(t, Twin(ip).value)
  }

  ghost predicate TwinExcluded(exclude: seq<IpAddr>, ip: IpAddr) {
    Twin(ip).Some? && Twin(ip).value in exclude
  }

  lemma SubnetEntry(t: VictimTargets, ip: IpAddr)
    requires t.Subnet?
    ensures TrieFinds(TargetEntries(t), ToAddr(ip)) <==> Covers(t, ip) || TwinCovered(t, ip)
  {
    hide OctetBit, Bit;
    var e := TargetEntries(t)[0];
    assert TrieFinds(TargetEntries(t), ToAddr(ip)) <==> e.prefixLen <= 128 && SameBits(e.addr, ToAddr(ip), e.prefixLen);
    if t.ip.V4? && t.prefix <= 32 {
      if ip.V4? {
        MappedShift(t.ip.v4, ip.v4, t.prefix);
      } else if IsMapped(ip.v6) {
        assert ip.v6 == V4Mapped(ip.v6[12..]);
        MappedShift(t.ip.v4, ip.v6[12..], t.prefix);
      } else if SameBits(e.addr, ToAddr(ip), e.prefixLen) {
        MappedBySharing(t.ip.v4, ip.v6, e.prefixLen);
        assert false;
      }
    }
  }

  /** What the kernel decides about the stored form, in terms of the configured addresses. */
  lemma KernelDecides(t: VictimTargets, exclude: seq<IpAddr>, ip: IpAddr)
    ensures KernelProtected(t, exclude, ToAddr(ip)) <==>
              (Covers(t, ip) || TwinCovered(t, ip)) && ip !in exclude && !TwinExcluded(exclude, ip)
  {
    hide TrieFinds, SameBits, ToAddr, Twin;
    FullEntries(exclude, ExcludedEntries(exclude), ip);
    match t {
      case List(ips) => FullEntries(ips, TargetEntries(t), ip);
      case Subnet(_, _) => SubnetEntry(t, ip);
    }
  }

  /** The disagreements: only the twin of a protected address is excluded, or only the twin of an address is protected. */
  ghost predicate TwinMatters(t: VictimTargets, exclude: seq<IpAddr>, ip: IpAddr) {
    ip !in exclude && if Covers(t, ip) then TwinExcluded(exclude, ip) else TwinCovered(t, ip) && !TwinExcluded(exclude, ip)
  }

  /**
   For every target set, exclusion list and address: the kernel decision on the 16 byte form equals the
   user space decision exactly when the address's twin makes no difference.
   */
  lemma DecisionsAgree(t: VictimTargets, exclude: seq<IpAddr>, ip: IpAddr)
    ensures (KernelProtected(t, exclude, ToAddr(ip)) <==> Protected(t, exclude, ip)) <==> !TwinMatters(t, exclude, ip)
  {
    hide KernelProtected, Covers, TwinCovered, TwinExcluded, ToAddr;
    KernelDecides(t, exclude, ip);
  }

  /** With no IPv4-mapped IPv6 address configured, one case is left: an IPv6 subnet that covers an IPv4 address's mapped form. */
  lemma CanonicalDecisionsAgree(t: VictimTargets, exclude: seq<IpAddr>, ip: IpAddr)
    requires Canonical(ip) && (t.List? ==> forall i :: 0 <= i < |t.ips| ==> Canonical(t.ips[i]))
    requires (t.Subnet? ==> Canonical(t.ip)) && forall i :: 0 <= i < |exclude| ==> Canonical(exclude[i])
    ensures (KernelProtected(t, exclude, ToAddr(ip)) <==> Protected(t, exclude, ip)) <==>
              !(t.Subnet? && t.ip.V6? && ip.V4? && t.prefix <= 128 && SameBits(t.ip.v6, ToAddr(ip), t.prefix) && ip !in exclude)
  {
    hide KernelProtected, SameBits;
    DecisionsAgree(t, exclude, ip);
    AddressRoundTrip(ip);
    if ip.V4? {
      assert IsMapped(V4Mapped(ip.v4)) by {
        assert V4Mapped(ip.v4)[..12] == MAPPED_PREFIX;
      }
    }
  }

  /** An exclusion written in mapped form takes the host out of the kernel's tries while user space still protects it. */
  lemma MappedExclusionDisagrees(ip: IpAddr)
    requires ip.V4?
    ensures Protected(List([ip]), [V6(ToAddr(ip))], ip)
    ensures !KernelProtected(List([ip]), [V6(ToAddr(ip))], ToAddr(ip))
  {
    hide KernelProtected;
    KernelDecides(List([ip]), [V6(ToAddr(ip))], ip);
  }
}
