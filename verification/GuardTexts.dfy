/** The guard on texts other than canonical ones: dotted quads, alone and inside IPv6 literals, operator prefixes,
    capital letters; and the IPv4 ranges as numbers. */
module GuardTexts {
  import opened Text
  import opened IpText
  import opened IpSpelling
  import opened Rfc5952
  import opened UrlGuard
  import opened UrlGuardRanges

  // ---- IPv4 literals are four numbers below 256

  /** A numeral without leading zeros is the decimal text of its value. */
  lemma {:induction false} DecOfValue(p: string)
    requires IsDecimal(p) && (p[0] == '0' ==> |p| == 1)
    ensures Dec(DecValue(p)) == p
    decreases |p|
  {
    var front, last := p[..|p| - 1], p[|p| - 1];
    assert last in p && p == front + [last] && (forall c <- front :: c in p);
    DigitsBack(last);
    NumeralLast(DecValue(p), 10);
    if front == "" {
      assert p == [last] && DecValue("") == 0;
      assert DecValue(p) == DigitValue(last);
    } else {
      assert front[0] == p[0] && front[0] in front;
      DecOfValue(front);
      LeadingDigit(front);
      assert DecValue(p) == DecValue(front) * 10 + DigitValue(last);
      assert DecValue(p) / 10 == DecValue(front) && DecValue(p) % 10 == DigitValue(last);
    }
  }

  lemma DigitsBack(c: char)
    requires IsDigit(c)
    ensures DigitChar(DigitValue(c)) == c
  {
  }

  lemma {:induction false} LeadingDigit(p: string)
    requires IsDecimal(p) && p[0] != '0'
    ensures DecValue(p) >= 1
    decreases |p|
  {
    if |p| > 1 {
      var front := p[..|p| - 1];
      assert front[0] == p[0] && (forall c <- front :: c in p);
      LeadingDigit(front);
    } else {
      assert p[..|p| - 1] == "";
    }
  }

  lemma OctetIsNumber(p: string)
    requires IsOctet(p)
    ensures OctetValue(p) < 256 && p == Dec(OctetValue(p))
  {
    DecOfValue(p);
  }

  function Quad(a: nat, b: nat, c: nat, d: nat): string { Join([Dec(a), Dec(b), Dec(c), Dec(d)], ".") }

  /** Exactly the texts of four numbers below 256 with dots between them are IPv4 literals, and each literal's
      value is those numbers in base 256. */
  lemma Ipv4IsQuad(s: string) returns (a: nat, b: nat, c: nat, d: nat)
    requires IsIPv4(s)
    ensures a < 256 && b < 256 && c < 256 && d < 256 && s == Quad(a, b, c, d)
    ensures Ipv4Value(s) == a * 0x100_0000 + b * 0x1_0000 + c * 0x100 + d
  {
    hide IsOctet, OctetValue, Numeral, Join, SplitOn;
    var ps := SplitOn(s, ".");
    assert AllOctets(ps) && ps[0] in ps && ps[1] in ps && ps[2] in ps && ps[3] in ps;
    a, b, c, d := OctetValue(ps[0]), OctetValue(ps[1]), OctetValue(ps[2]), OctetValue(ps[3]);
    OctetIsNumber(ps[0]); OctetIsNumber(ps[1]); OctetIsNumber(ps[2]); OctetIsNumber(ps[3]);
    JoinSplit(s, ".");
    assert ps == [Dec(a), Dec(b), Dec(c), Dec(d)];
  }

  lemma QuadIsIpv4(a: nat, b: nat, c: nat, d: nat)
    requires a < 256 && b < 256 && c < 256 && d < 256
    ensures IsIPv4(Quad(a, b, c, d)) && SplitOn(Quad(a, b, c, d), ".") == [Dec(a), Dec(b), Dec(c), Dec(d)]
  {
    hide Numeral, NumeralValue, IsOctet, Join, SplitOn, OctetValue;
    DecIsOctet(a); DecIsOctet(b); DecIsOctet(c); DecIsOctet(d);
    QuadText([Dec(a), Dec(b), Dec(c), Dec(d)]);
  }

  // ---- the blocked IPv4 ranges

  /** 0/8, 10/8, 100.64/10, 127/8, 169.254/16, 172.16/12, 192.168/16 and 224/3, as numbers. */
  predicate InBlockedRange(v: nat) {
    || v <= 0x00ff_ffff
    || 0x0a00_0000 <= v <= 0x0aff_ffff
    || 0x6440_0000 <= v <= 0x647f_ffff
    || 0x7f00_0000 <= v <= 0x7fff_ffff
    || 0xa9fe_0000 <= v <= 0xa9fe_ffff
    || 0xac10_0000 <= v <= 0xac1f_ffff
    || 0xc0a8_0000 <= v <= 0xc0a8_ffff
    || 0xe000_0000 <= v
  }

  lemma RangeOfBytes(a: nat, b: nat, c: nat, d: nat)
    requires a < 256 && b < 256 && c < 256 && d < 256
    ensures BlockedV4(a, b) <==> InBlockedRange(a * 0x100_0000 + b * 0x1_0000 + c * 0x100 + d)
  {
  }

  /** Every IPv4 literal is judged by whether its number lies in one of the ranges. */
  lemma Ipv4Judged(s: string, prefixes: seq<string>)
    requires IsIPv4(s)
    ensures IsBlocked(s, prefixes) <==> InBlockedRange(Ipv4Value(s))
  {
    hide Numeral, IsOctet, OctetValue, Ipv4Value, InBlockedRange, BlockedV4, Join, SplitOn, EmbeddedV4;
    var a, b, c, d := Ipv4IsQuad(s);
    QuadIsIpv4(a, b, c, d);
    DecIsOctet(a); DecIsOctet(b);
    RangeOfBytes(a, b, c, d);
  }

  // ---- dotted quads inside IPv6 literals

  lemma Ipv4Octets(q: string) returns (quad: seq<string>)
    requires IsIPv4(q)
    ensures |quad| == 4 && AllOctets(quad) && q == Join(quad, ".") && ':' !in q && '%' !in q && q != ""
    ensures IsDotted(q) && Lower(q) == q
  {
    hide IsOctet, Join, SplitOn;
    quad := SplitOn(q, ".");
    JoinSplit(q, ".");
    QuadText(quad);
    forall p | p in quad ensures NoCapitals(p) { OctetIsDecimal(p); }
    assert Lower(".") == "." by { LowerDot(); }
    QuadLower(quad);
  }

  lemma LowerDot()
    ensures Lower(".") == "." && Lower(":") == ":"
  {
  }

  lemma {:induction false} QuadLower(ps: seq<string>)
    requires forall p <- ps :: NoCapitals(p)
    ensures Lower(Join(ps, ".")) == Join(ps, ".")
  {
    LowerDot();
    if |ps| > 1 {
      assert ps[0] in ps && forall p <- ps[1..] :: p in ps;
      QuadLower(ps[1..]);
      LowerConcat(ps[0], ".");
      LowerConcat(ps[0] + ".", Join(ps[1..], "."));
      LowerUnchanged(ps[0]);
    } else if |ps| == 1 {
      assert ps[0] in ps;
      LowerUnchanged(ps[0]);
    }
  }

  /** A literal with hex groups, `::`, more hex groups and a dotted quad is an IPv6 literal. */
  lemma QuadTailIsV6(head: seq<string>, tail: seq<string>, q: string)
    requires AllHex(head) && AllHex(tail) && |head| + |tail| <= 5 && IsIPv4(q)
    ensures IsIP(Join(head, ":") + "::" + Join(tail + [q], ":")) == 6
  {
    hide Join, SplitOn, IsIPv6, IsHexGroup, IsOctet;
    var quad := Ipv4Octets(q);
    var sp := Spelling(head, true, tail, Some(quad), None);
    LegalIsAccepted(sp);
    var s := Join(head, ":") + "::" + Join(tail + [q], ":");
    assert QuadPiece(sp) == [q] && Core(sp) == s && Show(sp) == s + "" == s;
    assert s[|Join(head, ":")|] == ':';
    ColonIsNoV4(s);
  }

  lemma ColonIsNoV4(s: string)
    requires ':' in s
    ensures !IsIPv4(s)
  {
    hide IsOctet, Join, SplitOn;
    if IsIPv4(s) {
      var quad := SplitOn(s, ".");
      JoinSplit(s, ".");
      QuadText(quad);
    }
  }

  /** The pieces between colons of such a literal. */
  lemma PiecesOf(ps: seq<string>)
    requires ps != [] && forall p <- ps :: ':' !in p
    ensures SplitOn(Join(ps, ":"), ":") == ps
  {
    hide SplitOn, Join;
    assert ":" == [':'];
    SplitJoin(ps, ':');
  }

  lemma TwoJoined(p: string, q: string)
    ensures Join([p, q], ":") == p + ":" + q
  {
  }

  /** `::ffff:` and a dotted quad is judged by the quad, whatever the prefixes. */
  lemma MappedQuadJudged(q: string, prefixes: seq<string>)
    requires IsIPv4(q)
    ensures IsBlocked("::ffff:" + q, prefixes) == IsBlocked(q, prefixes)
  {
    hide IsIPv4, IsIPv6, SplitOn, Join, OperatorPrefixes, Lower, IsDotted;
    var quad := Ipv4Octets(q);
    var s := "::ffff:" + q;
    assert IsHexGroup("ffff");
    QuadTailIsV6([], ["ffff"], q);
    EmptyAndOne("ffff", q);
    assert "::" + "ffff" + ":" == "::ffff:";
    MappedPieces(q);
    assert ["", "", "ffff", q][..3] == ["", "", "ffff"];
    LowerWritten("::ffff:", q);
    assert s[2] == 'f' && "::1"[2] == '1' && |s| > 2;
  }

  lemma EmptyAndOne(g: string, q: string)
    ensures Join([], ":") + "::" + Join([g] + [q], ":") == "::" + g + ":" + q
    ensures Join([], ":") + "::" + Join([] + [q], ":") == "::" + q
    ensures Join(["64", "ff9b"], ":") + "::" + Join([] + [q], ":") == "64:ff9b::" + q
  {
    TwoJoined(g, q);
    assert [g] + [q] == [g, q] && [] + [q] == [q];
    JoinSingle(q, ":");
    TwoJoined("64", "ff9b");
    assert "64" + ":" + "ff9b" + "::" == "64:ff9b::";
  }

  lemma MappedPieces(q: string)
    requires ':' !in q
    ensures SplitOn("::ffff:" + q, ":") == ["", "", "ffff", q]
    ensures SplitOn("::" + q, ":") == ["", "", q]
    ensures SplitOn("64:ff9b::" + q, ":") == ["64", "ff9b", "", q]
  {
    hide SplitOn;
    PiecesOf(["", "", "ffff", q]);
    PiecesOf(["", "", q]);
    PiecesOf(["64", "ff9b", "", q]);
    FourJoined("", "", "ffff", q);
    FourJoined("64", "ff9b", "", q);
    ThreeJoined("", "", q);
    assert "" + ":" + "" + ":" + "ffff" + ":" == "::ffff:" && "64" + ":" + "ff9b" + ":" + "" + ":" == "64:ff9b::";
    assert "" + ":" + "" + ":" == "::";
  }

  lemma ThreeJoined(a: string, b: string, c: string)
    ensures Join([a, b, c], ":") == a + ":" + b + ":" + c
  {
    assert [a, b, c][1..] == [b, c];
    TwoJoined(b, c);
  }

  lemma FourJoined(a: string, b: string, c: string, d: string)
    ensures Join([a, b, c, d], ":") == a + ":" + b + ":" + c + ":" + d
  {
    assert [a, b, c, d][1..] == [b, c, d];
    ThreeJoined(b, c, d);
  }

  lemma LowerWritten(head: string, q: string)
    requires Lower(q) == q && forall c <- head :: !('A' <= c <= 'Z')
    ensures Lower(head + q) == head + q
  {
    LowerConcat(head, q);
    LowerUnchanged(head);
  }

  /** `64:ff9b::` and a dotted quad is judged by the quad, whatever the prefixes. */
  lemma Nat64QuadJudged(q: string, prefixes: seq<string>)
    requires IsIPv4(q)
    ensures IsBlocked("64:ff9b::" + q, prefixes) == IsBlocked(q, prefixes)
  {
    hide IsIPv4, IsIPv6, SplitOn, Join, OperatorPrefixes, Lower, IsDotted;
    var quad := Ipv4Octets(q);
    var s := "64:ff9b::" + q;
    assert AllHex(["64", "ff9b"]);
    QuadTailIsV6(["64", "ff9b"], [], q);
    EmptyAndOne("", q);
    MappedPieces(q);
    LowerWritten("64:ff9b::", q);
    assert s[0] == '6' && "::1"[0] == ':' && "::"[0] == ':';
  }

  /** `::` and a dotted quad is judged by the quad, unless an operator's prefix claims the text first. */
  lemma CompatibleQuadJudged(q: string, prefixes: seq<string>)
    requires IsIPv4(q) && OperatorPrefixes("::" + q, prefixes).None?
    ensures IsBlocked("::" + q, prefixes) == IsBlocked(q, prefixes)
  {
    hide IsIPv4, IsIPv6, SplitOn, Join, OperatorPrefixes, Lower, IsDotted;
    var quad := Ipv4Octets(q);
    var s := "::" + q;
    QuadTailIsV6([], [], q);
    EmptyAndOne("", q);
    MappedPieces(q);
    LowerWritten("::", q);
    assert |s| > 3 by { QuadLong(q); }
  }

  lemma QuadLong(q: string)
    requires IsIPv4(q)
    ensures |q| >= 2
  {
    hide IsOctet, SplitOn;
    var quad := SplitOn(q, ".");
    JoinSplit(q, ".");
    assert quad[0] in quad && IsOctet(quad[0]);
    OctetPiece(quad[0]);
    assert Join(quad, ".") == quad[0] + "." + Join(quad[1..], ".");
  }

  /** The cloud metadata address in the spelling that maps it into IPv6. */
  lemma MetadataMappedBlocked(prefixes: seq<string>)
    ensures IsBlocked("::ffff:" + Quad(169, 254, 169, 254), prefixes)
  {
    hide IsBlocked, InBlockedRange, Quad, IsIPv4, Ipv4Value;
    var q := Quad(169, 254, 169, 254);
    QuadIsIpv4(169, 254, 169, 254);
    MappedQuadJudged(q, prefixes);
    Ipv4Judged(q, prefixes);
    QuadValue(169, 254, 169, 254);
    assert InBlockedRange(0xa9fe_a9fe) by { InMetadataRange(); }
  }

  lemma InMetadataRange()
    ensures InBlockedRange(0xa9fe_a9fe)
  {
  }

  lemma QuadValue(a: nat, b: nat, c: nat, d: nat)
    requires a < 256 && b < 256 && c < 256 && d < 256
    ensures IsIPv4(Quad(a, b, c, d))
    ensures Ipv4Value(Quad(a, b, c, d)) == a * 0x100_0000 + b * 0x1_0000 + c * 0x100 + d
  {
    hide Numeral, NumeralValue, IsOctet, Join, SplitOn, OctetValue;
    QuadIsIpv4(a, b, c, d);
    DecIsOctet(a); DecIsOctet(b); DecIsOctet(c); DecIsOctet(d);
  }

  // ---- operator prefixes

  /** What may follow an operator's prefix, and the quad it stands for. */
  lemma SuffixReads(q: string, hi: nat, lo: nat)
    requires hi < 0x1_0000 && lo < 0x1_0000
    ensures IsIPv4(q) ==> Suffix(q) == Some(q)
    ensures Suffix(Numeral(hi, 16) + ":" + Numeral(lo, 16)) == Some(Dotted(hi, lo))
    ensures Suffix(Numeral(lo, 16)) == Some(Dotted(0, lo))
  {
    hide Numeral, NumeralValue, IsHexGroup, Dotted, SplitOn, Join, IsIPv4, GroupValue, IsDotted;
    HexNumeral(hi);
    HexNumeral(lo);
    HexPiece(Numeral(hi, 16));
    HexPiece(Numeral(lo, 16));
    TwoJoined(Numeral(hi, 16), Numeral(lo, 16));
    PiecesOf([Numeral(hi, 16), Numeral(lo, 16)]);
    OnePiece(Numeral(lo, 16));
    HexIsNotDotted(Numeral(lo, 16));
    if IsIPv4(q) {
      var quad := Ipv4Octets(q);
      OnePiece(q);
    }
  }

  lemma OnePiece(p: string)
    requires ':' !in p
    ensures SplitOn(p, ":") == [p]
  {
    hide SplitOn;
    PiecesOf([p]);
    JoinSingle(p, ":");
  }

  lemma HexIsNotDotted(p: string)
    requires IsHexGroup(p)
    ensures !IsDotted(p)
  {
    hide SplitOn;
    HexPiece(p);
    forall i | 0 <= i < |p| ensures !("." <= p[i..]) { assert p[i] in p && p[i..][0] == p[i]; }
    SplitNone(p, ".");
  }

  /** A prefix claims an address when the address starts with it and what follows can be read. */
  predicate Claims(prefix: string, v6: string) { prefix <= v6 && Suffix(v6[|prefix|..]).Some? }

  /** The first prefix in the list that claims an address decides what is read; without one nothing is. */
  lemma {:induction false} FirstClaim(v6: string, before: seq<string>, prefix: string, after: seq<string>)
    requires forall p <- before :: !Claims(p, v6)
    ensures OperatorPrefixes(v6, before) == None
    ensures Claims(prefix, v6) ==>
      OperatorPrefixes(v6, before + [prefix] + after) == Suffix(v6[|prefix|..])
  {
    hide Suffix;
    var all := before + [prefix] + after;
    if before == [] {
      assert all == [prefix] + after;
    } else {
      assert before[0] in before && forall p <- before[1..] :: p in before;
      FirstClaim(v6, before[1..], prefix, after);
      assert all[1..] == before[1..] + [prefix] + after;
    }
  }

  /** An address under an operator's prefix is judged by the address that follows it, unless an earlier pattern
      or an earlier prefix claims it. */
  lemma PrefixJudges(before: seq<string>, prefix: string, after: seq<string>, suffix: string)
    requires var s := prefix + suffix; IsIP(s) == 6 && Lower(s) == s && s != "::" && s != "::1"
    requires Mapped(SplitOn(prefix + suffix, ":")).None? && Nat64(SplitOn(prefix + suffix, ":")).None?
    requires Suffix(suffix).Some? && forall p <- before :: !Claims(p, prefix + suffix)
    ensures var all := before + [prefix] + after;
      IsBlocked(prefix + suffix, all) == IsBlocked(Suffix(suffix).value, all)
  {
    hide IsIP, SplitOn, Mapped, Nat64, Suffix, SixToFour, Teredo, Compatible, Lower, OperatorPrefixes;
    var s := prefix + suffix;
    assert s[|prefix|..] == suffix;
    FirstClaim(s, before, prefix, after);
  }

  // ---- capital letters

  /** A literal is judged like its lower-case form. */
  lemma CapitalsDoNotMatter(s: string, g: seq<nat>)
    requires IsAddress(g) && IsIP(s) == 6 && Lower(s) == Canon(g)
    ensures IsBlocked(s, []) == IsBlocked(Canon(g), [])
  {
    hide IsIP, EmbeddedV4, Canon, BlockedLead, SplitOn, Lower;
    CanonLower(g);
    CanonFamily(g);
  }

  // ---- zones

  /** A zone may follow an IPv6 literal: `%` and at least one letter, digit, hyphen, dot or colon. */
  lemma ZonesAccepted(core: string, zone: string)
    requires IsIPv6Core(core) && '%' !in core
    ensures IsIPv6(core + "%" + zone) <==>
      zone != "" && forall c <- zone ::
        'a' <= c <= 'z' || 'A' <= c <= 'Z' || '0' <= c <= '9' || c == '-' || c == '.' || c == ':'
  {
    hide IsIPv6Core;
    assert "%" == ['%'];
    CutAt(core, '%', zone);
  }
}
