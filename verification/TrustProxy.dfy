/** The TRUST_PROXY setting and how many IPv4 peers an accepted value can trust. */
module TrustProxy {
  import opened Text
  import opened IpText
  import opened IpSpelling

  datatype Setting = Unset | Hops(n: nat) | Loopback | List(entries: seq<string>)

  const MAX_HOPS := 10
  const MIN_IPV4_PREFIX := 8
  const MIN_IPV6_PREFIX := 32

  function Pow2(n: nat): (p: nat)
    ensures p >= 1
  {
    if n == 0 then 1 else 2 * Pow2(n - 1)
  }

  /** `v >> n`. */
  function ShiftRight(v: nat, n: nat): nat { if n == 0 then v else ShiftRight(v / 2, n - 1) }

  const IPV4_COUNT := 0x1_0000_0000
  const IPV4_MAPPED_BASE := 0xffff * IPV4_COUNT

  /** The 128-bit number of `::ffff:a.b.c.d`. */
  function MappedForm(peer: nat): nat { IPV4_MAPPED_BASE + peer }

  // ---- one entry

  /** One to three digits. */
  predicate PrefixText(p: string) { 1 <= |p| <= 3 && forall c <- p :: IsDigit(c) }

  predicate IsIpOrCidr(entry: string) {
    var cut := Cut(entry, '/');
    if cut.1.None? then IsIP(entry) != 0
    else
      IsIP(cut.0) != 0 && PrefixText(cut.1.value)
      && DecValue(cut.1.value) <= if IsIP(cut.0) == 4 then 32 else 128
  }

  function Prefix(entry: string): nat
    requires IsIpOrCidr(entry) && Cut(entry, '/').1.Some?
  {
    DecValue(Cut(entry, '/').1.value)
  }

  datatype TooBroadReason = ShortIpv4 | ShortIpv6 | ContainsMapped | ShortMapped

  /** Why an entry is too broad to trust; none when it is acceptable. */
  function TooBroad(entry: string): Option<TooBroadReason>
    requires IsIpOrCidr(entry)
  {
    var cut := Cut(entry, '/');
    if cut.1.None? then None
    else
      var prefix := Prefix(entry);
      if IsIP(cut.0) == 4 then (if prefix < MIN_IPV4_PREFIX then Some(ShortIpv4) else None)
      else if prefix < MIN_IPV6_PREFIX then Some(ShortIpv6)
      else
        AcceptedReads(cut.0);
        var value, shift := Ipv6ToInt(cut.0).value, 128 - prefix;
        if prefix <= 96 && ShiftRight(value, shift) == ShiftRight(IPV4_MAPPED_BASE, shift) then Some(ContainsMapped)
        else if ShiftRight(value, 32) == ShiftRight(IPV4_MAPPED_BASE, 32) && prefix - 96 < MIN_IPV4_PREFIX
        then Some(ShortMapped)
        else None
  }

  /** How Express matches an IPv4 peer: against an IPv6 entry as its IPv4-mapped address. */
  predicate TrustsPeer(entry: string, peer: nat)
    requires IsIpOrCidr(entry)
  {
    var cut := Cut(entry, '/');
    if cut.1.None? then
      if IsIP(entry) == 4 then Ipv4Value(entry) == peer else Ipv6ToInt(entry) == Some(MappedForm(peer))
    else
      var prefix := Prefix(entry);
      if IsIP(cut.0) == 4 then ShiftRight(Ipv4Value(cut.0), 32 - prefix) == ShiftRight(peer, 32 - prefix)
      else
        AcceptedReads(cut.0);
        ShiftRight(Ipv6ToInt(cut.0).value, 128 - prefix) == ShiftRight(MappedForm(peer), 128 - prefix)
  }

  /** The IPv4 peers an entry trusts. */
  ghost function Peers(entry: string): set<nat>
    requires IsIpOrCidr(entry)
  {
    set v: nat | v < IPV4_COUNT && TrustsPeer(entry, v)
  }

  // ---- arithmetic of blocks

  lemma {:induction false} Pow2Add(a: nat, b: nat)
    ensures Pow2(a + b) == Pow2(a) * Pow2(b)
  {
    if a > 0 {
      Pow2Add(a - 1, b);
      Double(Pow2(a - 1), Pow2(b));
    }
  }

  lemma Double(a: nat, b: nat)
    ensures 2 * (a * b) == (2 * a) * b
  {
  }

  lemma Pow2Values()
    ensures Pow2(24) == 0x100_0000 && Pow2(32) == IPV4_COUNT
  {
    assert Pow2(4) == 16 && Pow2(8) == 256;
    Pow2Add(8, 8);
    Pow2Add(16, 8);
    Pow2Add(24, 8);
  }

  lemma {:induction false} Pow2Monotone(a: nat, b: nat)
    requires a <= b
    ensures Pow2(a) <= Pow2(b)
    ensures a < b ==> Pow2(a) < Pow2(b)
    decreases b
  {
    if a < b { Pow2Monotone(a, b - 1); }
  }

  ghost function Range(lo: nat, hi: nat): (r: set<nat>)
    ensures forall v: nat {:trigger v in r} :: v in r <==> lo <= v < hi
    ensures lo <= hi ==> |r| == hi - lo
    decreases hi - lo
  {
    if lo >= hi then {} else {lo} + Range(lo + 1, hi)
  }

  /** A shifted value is the number of the block of size `Pow2(n)` it lies in. */
  lemma {:induction false} ShiftIs(v: nat, n: nat, q: nat)
    ensures ShiftRight(v, n) == q <==> q * Pow2(n) <= v < q * Pow2(n) + Pow2(n)
  {
    hide Pow2;
    Pow2Step(n);
    if n > 0 {
      var x, p := q * Pow2(n - 1), Pow2(n - 1);
      ShiftIs(v / 2, n - 1, q);
      DoubleRight(q, p);
      Halves(v, x, p);
    }
  }

  lemma Pow2Step(n: nat)
    ensures n == 0 ==> Pow2(n) == 1
    ensures n > 0 ==> Pow2(n) == 2 * Pow2(n - 1)
  {
  }

  lemma DoubleRight(q: nat, p: nat)
    ensures q * (2 * p) == 2 * (q * p)
  {
  }

  lemma Halves(v: nat, x: nat, p: nat)
    ensures x <= v / 2 < x + p <==> 2 * x <= v < 2 * x + 2 * p
  {
  }

  lemma {:induction false} ShiftTwice(v: nat, a: nat, b: nat)
    ensures ShiftRight(v, a + b) == ShiftRight(ShiftRight(v, a), b)
  {
    if a > 0 { ShiftTwice(v / 2, a - 1, b); }
  }

  /** A multiple of the block size shifts out evenly. */
  lemma {:induction false} ShiftMultiple(m: nat, n: nat, v: nat)
    ensures ShiftRight(m * Pow2(n) + v, n) == m + ShiftRight(v, n)
  {
    if n > 0 {
      Double(Pow2(n - 1), m);
      assert (m * Pow2(n) + v) / 2 == m * Pow2(n - 1) + v / 2;
      ShiftMultiple(m, n - 1, v / 2);
    }
  }

  ghost function Block(a: nat, n: nat): set<nat> {
    set v: nat | v < IPV4_COUNT && ShiftRight(v, n) == ShiftRight(a, n)
  }

  /** The peers sharing the leading bits of an IPv4 address number two to the free bits. */
  lemma BlockSize(a: nat, n: nat)
    requires n <= 32 && a < IPV4_COUNT
    ensures |Block(a, n)| == Pow2(n)
  {
    hide Pow2, ShiftRight;
    var k, q := Pow2(n), ShiftRight(a, n);
    BlockFits(a, n);
    forall v: nat ensures v in Block(a, n) <==> v in Range(q * k, q * k + k) { ShiftIs(v, n, q); }
    assert Block(a, n) == Range(q * k, q * k + k);
  }

  lemma BlockFits(a: nat, n: nat)
    requires n <= 32 && a < IPV4_COUNT
    ensures ShiftRight(a, n) * Pow2(n) + Pow2(n) <= IPV4_COUNT
  {
    hide Pow2, ShiftRight;
    Pow2Values();
    Pow2Add(32 - n, n);
    ShiftIs(a, n, ShiftRight(a, n));
    Fits(ShiftRight(a, n), Pow2(32 - n), Pow2(n));
  }

  lemma Fits(q: nat, m: nat, k: nat)
    requires q * k < m * k
    ensures q * k + k <= m * k
  {
    if m <= q { MulMonotone(m, q, k); } else { MulMonotone(q + 1, m, k); }
  }

  lemma MulMonotone(a: nat, b: nat, k: nat)
    requires a <= b
    ensures a * k <= b * k
  {
  }

  // ---- how many peers one entry trusts

  lemma OctetsBound(a: nat, b: nat, c: nat, d: nat)
    requires a < 256 && b < 256 && c < 256 && d < 256
    ensures ((a * 256 + b) * 256 + c) * 256 + d < IPV4_COUNT
  {
  }

  lemma Ipv4Bound(s: string)
    requires IsIPv4(s)
    ensures Ipv4Value(s) < IPV4_COUNT
  {
    hide SplitOn, NumeralValue;
    var ps := SplitOn(s, ".");
    assert ps[0] in ps && ps[1] in ps && ps[2] in ps && ps[3] in ps;
    OctetsBound(OctetValue(ps[0]), OctetValue(ps[1]), OctetValue(ps[2]), OctetValue(ps[3]));
  }

  /** Shifting an IPv4-mapped address by 32 bits leaves the mapped marker. */
  lemma MappedTop(v: nat)
    ensures ShiftRight(v, 32) == 0xffff <==> IPV4_MAPPED_BASE <= v < IPV4_MAPPED_BASE + IPV4_COUNT
  {
    hide Pow2, ShiftRight;
    Pow2Values();
    ShiftIs(v, 32, 0xffff);
  }

  /** A range of /96 or shorter sees only the marker, so it trusts every IPv4 peer or none. */
  lemma ShortRangeSeesMarker(v: nat, shift: nat)
    requires v < IPV4_COUNT && shift >= 32
    ensures ShiftRight(MappedForm(v), shift) == ShiftRight(IPV4_MAPPED_BASE, shift)
  {
    hide Pow2, ShiftRight;
    MappedTop(IPV4_MAPPED_BASE + v);
    MappedTop(IPV4_MAPPED_BASE);
    ShiftTwice(IPV4_MAPPED_BASE + v, 32, shift - 32);
    ShiftTwice(IPV4_MAPPED_BASE, 32, shift - 32);
  }

  /** A range longer than /96 sees the marker and the leading bits of the IPv4 address. */
  lemma LongRangeSeesPeer(v: nat, n: nat)
    requires n <= 32
    ensures ShiftRight(MappedForm(v), n) == 0xffff * Pow2(32 - n) + ShiftRight(v, n)
  {
    hide Pow2, ShiftRight;
    Pow2Values();
    Pow2Add(32 - n, n);
    MulAssociates(0xffff, Pow2(32 - n), Pow2(n));
    ShiftMultiple(0xffff * Pow2(32 - n), n, v);
  }

  lemma MulAssociates(a: nat, b: nat, c: nat)
    ensures a * (b * c) == (a * b) * c
  {
  }

  /** The peers whose mapped form shares the leading bits of `value`. */
  ghost function MappedPeers(value: nat, shift: nat): set<nat> {
    set v: nat | v < IPV4_COUNT && ShiftRight(value, shift) == ShiftRight(MappedForm(v), shift)
  }

  lemma ShortRangePeers(value: nat, shift: nat)
    requires shift >= 32
    ensures |MappedPeers(value, shift)| ==
      if ShiftRight(value, shift) == ShiftRight(IPV4_MAPPED_BASE, shift) then IPV4_COUNT else 0
  {
    hide Pow2, ShiftRight, MappedForm;
    forall v: nat | v < IPV4_COUNT
      ensures ShiftRight(MappedForm(v), shift) == ShiftRight(IPV4_MAPPED_BASE, shift)
    {
      ShortRangeSeesMarker(v, shift);
    }
    if ShiftRight(value, shift) == ShiftRight(IPV4_MAPPED_BASE, shift) {
      assert MappedPeers(value, shift) == Range(0, IPV4_COUNT);
    } else {
      assert MappedPeers(value, shift) == {};
    }
  }

  lemma LongRangePeers(value: nat, n: nat)
    requires n <= 32
    ensures |MappedPeers(value, n)| == if ShiftRight(value, 32) == 0xffff then Pow2(n) else 0
  {
    hide Pow2, ShiftRight;
    MappedTop(value);
    if ShiftRight(value, 32) == 0xffff {
      var a := value - IPV4_MAPPED_BASE;
      LongRangeSeesPeer(a, n);
      forall v: nat ensures v in MappedPeers(value, n) <==> v in Block(a, n) { LongRangeSeesPeer(v, n); }
      assert MappedPeers(value, n) == Block(a, n);
      BlockSize(a, n);
    } else {
      forall v: nat | v < IPV4_COUNT ensures ShiftRight(value, n) != ShiftRight(MappedForm(v), n) {
        MappedTop(IPV4_MAPPED_BASE + v);
        ShiftTwice(value, n, 32 - n);
        ShiftTwice(IPV4_MAPPED_BASE + v, n, 32 - n);
      }
      assert MappedPeers(value, n) == {};
    }
  }

  /** An IPv6 range is accepted exactly when its prefix is at least 32 and it trusts at most 2^24
      IPv4 peers. */
  lemma Ipv6RangeBound(entry: string)
    requires IsIpOrCidr(entry) && Cut(entry, '/').1.Some? && IsIP(Cut(entry, '/').0) == 6
    ensures TooBroad(entry) == None <==> Prefix(entry) >= 32 && |Peers(entry)| <= 0x100_0000
  {
    Pow2Values();
    hide Pow2, ShiftRight, IsIP, Ipv6ToInt, Cut, PrefixText, NumeralValue;
    var address := Cut(entry, '/').0;
    AcceptedReads(address) by { FamilySix(address); }
    var value, prefix := Ipv6ToInt(address).value, Prefix(entry);
    assert Peers(entry) == MappedPeers(value, 128 - prefix);
    MappedTop(IPV4_MAPPED_BASE);
    Pow2Values();
    if prefix <= 96 {
      ShortRangePeers(value, 128 - prefix);
      ShiftTwice(value, 32, 96 - prefix);
      ShiftTwice(IPV4_MAPPED_BASE, 32, 96 - prefix);
    } else {
      LongRangePeers(value, 128 - prefix);
      Pow2Order(128 - prefix, 24);
    }
  }

  lemma FamilySix(s: string)
    requires IsIP(s) == 6
    ensures IsIPv6(s)
  {
    hide IsIPv6, IsIPv4;
  }

  lemma Pow2Order(a: nat, b: nat)
    ensures Pow2(a) <= Pow2(b) <==> a <= b
  {
    hide Pow2;
    if a <= b { Pow2Monotone(a, b); } else { Pow2Monotone(b, a); }
  }

  /** An IPv4 range is accepted exactly when it trusts at most 2^24 peers; it trusts two to the
      number of its free bits. */
  lemma Ipv4RangeBound(entry: string)
    requires IsIpOrCidr(entry) && Cut(entry, '/').1.Some? && IsIP(Cut(entry, '/').0) == 4
    ensures |Peers(entry)| == Pow2(32 - Prefix(entry))
    ensures TooBroad(entry) == None <==> |Peers(entry)| <= 0x100_0000
  {
    Pow2Values();
    hide Pow2, ShiftRight, Ipv6ToInt, Cut, PrefixText, NumeralValue, IsIPv6, SplitOn, AllOctets;
    var a := Ipv4Value(Cut(entry, '/').0);
    Ipv4Bound(Cut(entry, '/').0);
    assert Peers(entry) == Block(a, 32 - Prefix(entry));
    BlockSize(a, 32 - Prefix(entry));
    Pow2Order(32 - Prefix(entry), 24);
  }

  /** A bare address trusts one IPv4 peer at most. */
  lemma BareAddressBound(entry: string)
    requires IsIpOrCidr(entry) && Cut(entry, '/').1.None?
    ensures TooBroad(entry) == None && |Peers(entry)| <= 1
  {
    hide Ipv6ToInt, Cut, IsIPv6, SplitOn, AllOctets;
    if v :| v in Peers(entry) {
      assert Peers(entry) == {v};
    } else {
      assert Peers(entry) == {};
    }
  }

  lemma AcceptedEntryBound(entry: string)
    requires IsIpOrCidr(entry) && TooBroad(entry) == None
    ensures |Peers(entry)| <= Pow2(24)
  {
    hide Peers, TooBroad, IsIPv4, IsIPv6, Cut, PrefixText, NumeralValue, Pow2;
    Pow2Values();
    if Cut(entry, '/').1.None? { BareAddressBound(entry); }
    else if IsIP(Cut(entry, '/').0) == 4 { Ipv4RangeBound(entry); }
    else { Ipv6RangeBound(entry); }
  }

  // ---- the setting

  function TrimAll(parts: seq<string>): (r: seq<string>)
    ensures |r| == |parts|
  {
    if parts == [] then [] else [Trim(parts[0])] + TrimAll(parts[1..])
  }

  /** The TRUST_PROXY value; `expressRejects` tells whether Express itself refuses the list. */
  function ParseTrustProxy(raw: Option<string>, expressRejects: seq<string> -> bool): Result<Setting> {
    var value := Trim(if raw.Some? then raw.value else "");
    if value == "" then Ok(Unset)
    else if Lower(value) == "true" then Throws
    else if IsDecimal(value) then (if DecValue(value) > MAX_HOPS then Throws else Ok(Hops(DecValue(value))))
    else if value == "loopback" then Ok(Loopback)
    else
      var entries := TrimAll(SplitOn(value, ","));
      if exists e <- entries :: e == "" || !IsIpOrCidr(e) then Throws
      else if exists e <- entries :: TooBroad(e).Some? then Throws
      else if expressRejects(entries) then Throws
      else Ok(List(entries))
  }

  ghost function TrustedPeers(entries: seq<string>): set<nat>
    requires forall e <- entries :: IsIpOrCidr(e)
  {
    if entries == [] then {} else Peers(entries[0]) + TrustedPeers(entries[1..])
  }

  lemma {:induction false} EntriesBound(entries: seq<string>)
    requires forall e <- entries :: IsIpOrCidr(e) && TooBroad(e) == None
    ensures |TrustedPeers(entries)| <= |entries| * Pow2(24)
  {
    hide IsIpOrCidr, TooBroad, Peers, Pow2;
    if entries != [] {
      AcceptedEntryBound(entries[0]);
      EntriesBound(entries[1..]);
      UnionSize(Peers(entries[0]), TrustedPeers(entries[1..]));
    }
  }

  lemma UnionSize(a: set<nat>, b: set<nat>)
    ensures |a + b| <= |a| + |b|
  {
    assert a + b == a + (b - a);
    assert |a + b| == |a| + |b - a|;
    assert |b| == |b - a| + |b * a| by { assert b == (b - a) + (b * a); }
  }

  /** An accepted list of `n` entries trusts at most n times 2^24 IPv4 peers; an accepted hop count
      is at most ten. */
  lemma AcceptedSettingBound(raw: Option<string>, expressRejects: seq<string> -> bool)
    requires ParseTrustProxy(raw, expressRejects).Ok?
    ensures var s := ParseTrustProxy(raw, expressRejects).value;
      && (s.Hops? ==> s.n <= 10)
      && (s.List? ==> (forall e <- s.entries :: IsIpOrCidr(e)) && |TrustedPeers(s.entries)| <= |s.entries| * 0x100_0000)
  {
    hide IsIpOrCidr, TooBroad, Peers, Pow2, SplitOn, Trim, Lower, NumeralValue, TrustedPeers, TrimAll;
    Pow2Values();
    match ParseTrustProxy(raw, expressRejects).value
    case List(entries) => EntriesBound(entries);
    case _ =>
  }
}
