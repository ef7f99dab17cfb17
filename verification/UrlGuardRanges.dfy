/** On canonical text the classifier is a check of numeric ranges. */
module UrlGuardRanges {
  import opened Text
  import opened IpText
  import opened IpSpelling
  import opened Rfc5952
  import opened UrlGuard

  predicate ZeroUpTo(g: seq<nat>, n: nat)
    requires n <= |g|
  {
    forall i :: 0 <= i < n ==> g[i] == 0
  }

  /** `::ffff:0:0/96`. */
  predicate IsMapped(g: seq<nat>)
    requires IsAddress(g)
  {
    ZeroUpTo(g, 5) && g[5] == 0xffff
  }

  /** `64:ff9b::/96` with a nonzero embedded address. */
  predicate IsNat64(g: seq<nat>)
    requires IsAddress(g)
  {
    g[0] == 0x64 && g[1] == 0xff9b && g[2] == 0 && g[3] == 0 && g[4] == 0 && g[5] == 0 && (g[6] != 0 || g[7] != 0)
  }

  /** Group `i` is inside the elided run of the canonical text. */
  predicate Elided(g: seq<nat>, i: nat)
    requires IsAddress(g)
  {
    RunLength(g) >= 2 && RunStart(g) <= i < RunStart(g) + RunLength(g)
  }

  /** `2002::/16` whose second and third groups are written out. */
  predicate IsSixToFour(g: seq<nat>)
    requires IsAddress(g)
  {
    g[0] == 0x2002 && !Elided(g, 1) && !Elided(g, 2)
  }

  /** `2001::/32` with nothing elided, or exactly the flags and the port. */
  predicate IsTeredo(g: seq<nat>)
    requires IsAddress(g)
  {
    g[0] == 0x2001 && g[1] == 0 && (RunLength(g) < 2 || (RunStart(g) == 4 && RunLength(g) == 2))
  }

  /** `::/96`. */
  predicate IsCompatible(g: seq<nat>)
    requires IsAddress(g)
  {
    ZeroUpTo(g, 6)
  }

  /** The embedded IPv4 address the guard judges an address by: its two 16-bit halves. */
  function Decoded(g: seq<nat>): Option<(nat, nat)>
    requires IsAddress(g)
  {
    if IsMapped(g) || IsNat64(g) then Some((g[6], g[7]))
    else if IsSixToFour(g) then Some((g[1], g[2]))
    else if IsTeredo(g) then Some((Flip(g[6]), Flip(g[7])))
    else if IsCompatible(g) then Some((g[6], g[7]))
    else None
  }

  /** The hex text of a first group starts with the two digits of `x`. */
  predicate LeadsWith(g0: nat, x: nat) { g0 == x || g0 / 16 == x || g0 / 256 == x }

  predicate LeadBlocked(g0: nat) { g0 == 0xfe80 || LeadsWith(g0, 0xfc) || LeadsWith(g0, 0xfd) || LeadsWith(g0, 0xff) }

  // ---- the pieces of the canonical text

  lemma HexNames()
    ensures Numeral(0xffff, 16) == "ffff" && Numeral(0x64, 16) == "64" && Numeral(0xff9b, 16) == "ff9b"
    ensures Numeral(0x2002, 16) == "2002" && Numeral(0x2001, 16) == "2001" && Numeral(0, 16) == "0"
  {
    assert Numeral(0xf, 16) == "f" && Numeral(0xff, 16) == "ff" && Numeral(0xfff, 16) == "fff";
    assert Numeral(0x6, 16) == "6" && Numeral(0xff9, 16) == "ff9";
    assert Numeral(0x2, 16) == "2" && Numeral(0x20, 16) == "20" && Numeral(0x200, 16) == "200";
  }

  lemma HexNamed(x: nat)
    ensures Numeral(x, 16) == "ffff" <==> x == 0xffff
    ensures Numeral(x, 16) == "64" <==> x == 0x64
    ensures Numeral(x, 16) == "ff9b" <==> x == 0xff9b
    ensures Numeral(x, 16) == "2002" <==> x == 0x2002
    ensures Numeral(x, 16) == "2001" <==> x == 0x2001
    ensures Numeral(x, 16) == "0" <==> x == 0
  {
    hide Numeral;
    HexNames();
    if Numeral(x, 16) == "ffff" { NumeralInjective(x, 0xffff, 16); }
    if Numeral(x, 16) == "64" { NumeralInjective(x, 0x64, 16); }
    if Numeral(x, 16) == "ff9b" { NumeralInjective(x, 0xff9b, 16); }
    if Numeral(x, 16) == "2002" { NumeralInjective(x, 0x2002, 16); }
    if Numeral(x, 16) == "2001" { NumeralInjective(x, 0x2001, 16); }
    if Numeral(x, 16) == "0" { NumeralInjective(x, 0, 16); }
  }

  /** Piece `i` of the canonical text is the hex text of group `j`. */
  ghost predicate Spells(g: seq<nat>, i: nat, j: nat)
    requires IsAddress(g)
  {
    i < |CanonPieces(g)| && j < 8 && CanonPieces(g)[i] == Numeral(g[j], 16)
  }

  lemma PiecesWhole(g: seq<nat>)
    requires IsAddress(g) && RunLength(g) < 2
    ensures |CanonPieces(g)| == 8 && forall i: nat :: i < 8 ==> Spells(g, i, i)
  {
    hide RunLength, RunStart, Numeral;
  }

  /** Where the pieces after the elided run start. */
  function TailAt(g: seq<nat>): nat
    requires IsAddress(g)
  {
    if RunStart(g) == 0 then 2 else RunStart(g) + 1
  }

  lemma PiecesElided(g: seq<nat>)
    requires IsAddress(g) && RunLength(g) >= 2
    ensures var s, l, ps := RunStart(g), RunLength(g), CanonPieces(g);
      && s + l <= 8 && |ps| == TailAt(g) + (if s + l == 8 then 1 else 8 - s - l)
      && ps[TailAt(g) - 1] == "" && (s == 0 ==> ps[0] == "") && (s + l == 8 ==> ps[TailAt(g)] == "")
  {
    hide RunLength, RunStart, Numeral;
    RunFacts(g);
  }

  lemma HeadPiece(g: seq<nat>, i: nat)
    requires IsAddress(g) && i < 8 && (RunLength(g) < 2 || i < RunStart(g))
    ensures Spells(g, i, i) && Named(g, i, i)
  {
    hide RunLength, RunStart, Numeral, Named;
    RunFacts(g);
    SpelledHex(g, i, i);
  }

  lemma TailSpells(g: seq<nat>, j: nat)
    requires IsAddress(g) && RunLength(g) >= 2 && RunStart(g) + RunLength(g) <= j < 8
    ensures Spells(g, TailAt(g) + j - (RunStart(g) + RunLength(g)), j)
  {
    hide RunLength, RunStart, Numeral;
    RunFacts(g);
    assert HexTexts(g[RunStart(g) + RunLength(g)..])[j - (RunStart(g) + RunLength(g))] == Numeral(g[j], 16);
  }

  lemma TailPiece(g: seq<nat>, j: nat)
    requires IsAddress(g) && RunLength(g) >= 2 && RunStart(g) + RunLength(g) <= j < 8
    ensures Spells(g, TailAt(g) + j - (RunStart(g) + RunLength(g)), j)
    ensures Named(g, TailAt(g) + j - (RunStart(g) + RunLength(g)), j)
  {
    hide RunLength, RunStart, Numeral, Named, CanonPieces, TailAt;
    TailSpells(g, j);
    SpelledHex(g, TailAt(g) + j - (RunStart(g) + RunLength(g)), j);
  }

  /** What the patterns can tell of the hex text of group `j`, standing as piece `i`. */
  ghost predicate Named(g: seq<nat>, i: nat, j: nat)
    requires IsAddress(g)
  {
    && i < |CanonPieces(g)| && j < 8
    && var p := CanonPieces(g)[i];
    && p != "" && IsHexGroup(p) && GroupValue(p) == g[j] && !IsDotted(p)
    && (p == "ffff" <==> g[j] == 0xffff) && (p == "64" <==> g[j] == 0x64) && (p == "ff9b" <==> g[j] == 0xff9b)
    && (p == "2002" <==> g[j] == 0x2002) && (p == "2001" <==> g[j] == 0x2001) && (p == "0" <==> g[j] == 0)
  }

  lemma SpelledHex(g: seq<nat>, i: nat, j: nat)
    requires IsAddress(g) && Spells(g, i, j)
    ensures Named(g, i, j)
  {
    hide Numeral, NumeralValue, CanonPieces, SplitOn;
    HexNumeral(g[j]);
    HexNamed(g[j]);
    var p := CanonPieces(g)[i];
    HexPiece(p);
    forall k | 0 <= k < |p| ensures !("." <= p[k..]) { assert p[k] in p && p[k..][0] == p[k]; }
    SplitNone(p, ".");
  }

  lemma NoDottedEmpty()
    ensures !IsDotted("") && !IsHexGroup("")
  {
    assert SplitOn("", ".") == [""];
  }

  // ---- each pattern on canonical text

  lemma StartsElided(g: seq<nat>)
    requires IsAddress(g)
    ensures var ps := CanonPieces(g);
      && |ps| >= 3
      && (ps[0] == "" <==> RunLength(g) >= 2 && RunStart(g) == 0)
      && (ps[0] == "" ==> ps[1] == "" && RunLength(g) <= 8)
      && (ps[0] == "" ==> |ps| == 2 + if RunLength(g) == 8 then 1 else 8 - RunLength(g))
  {
    hide RunLength, RunStart, CanonPieces, Numeral, NumeralValue;
    RunFacts(g);
    if RunLength(g) < 2 {
      PiecesWhole(g);
      HeadPiece(g, 0);
    } else {
      PiecesElided(g);
      if RunStart(g) > 0 { HeadPiece(g, 0); }
    }
  }

  lemma MappedCanon(g: seq<nat>)
    requires IsAddress(g)
    ensures Mapped(CanonPieces(g)) == if IsMapped(g) then Some(Dotted(g[6], g[7])) else None
  {
    hide RunLength, RunStart, CanonPieces, Numeral, NumeralValue, Dotted, SplitOn, IsHexGroup, GroupValue, IsDotted;
    StartsElided(g);
    RunFacts(g);
    var ps, l := CanonPieces(g), RunLength(g);
    if IsMapped(g) { MappedRun(g); }
    if ps[0] == "" {
      if l == 5 {
        TailPiece(g, 5); TailPiece(g, 6); TailPiece(g, 7);
        assert ps[..3] == ["", "", "ffff"] <==> g[5] == 0xffff;
      } else if l == 6 {
        TailPiece(g, 7);
      }
    } else {
      assert ps[..3][0] == ps[0];
    }
  }

  lemma MappedRun(g: seq<nat>)
    requires IsAddress(g) && IsMapped(g)
    ensures RunStart(g) == 0 && RunLength(g) == 5
  {
    hide RunLength, RunStart;
    RunIs(g, 0, 5);
  }

  lemma Nat64Canon(g: seq<nat>)
    requires IsAddress(g)
    ensures Nat64(CanonPieces(g)) == if IsNat64(g) then Some(Dotted(g[6], g[7])) else None
  {
    hide RunLength, RunStart, CanonPieces, Numeral, NumeralValue, Dotted, SplitOn, IsHexGroup, GroupValue, IsDotted;
    RunFacts(g);
    var ps, s, l := CanonPieces(g), RunStart(g), RunLength(g);
    if IsNat64(g) { Nat64Run(g); }
    NoDottedEmpty();
    if l < 2 {
      PiecesWhole(g);
    } else {
      PiecesElided(g);
      if s == 2 {
        HeadPiece(g, 0); HeadPiece(g, 1);
        assert ps[..3] == ["64", "ff9b", ""] <==> g[0] == 0x64 && g[1] == 0xff9b;
        if l == 4 { TailPiece(g, 6); TailPiece(g, 7); }
        if l == 5 { TailPiece(g, 7); }
      } else if s == 0 {
        assert ps[..3][0] == "";
      } else if s == 1 {
        assert ps[..3][1] == "";
      } else {
        HeadPiece(g, 2);
        assert ps[..3][2] == ps[2];
      }
    }
  }

  lemma Nat64Run(g: seq<nat>)
    requires IsAddress(g) && IsNat64(g)
    ensures RunStart(g) == 2 && RunLength(g) == if g[6] == 0 then 5 else 4
  {
    hide RunLength, RunStart;
    RunIs(g, 2, if g[6] == 0 then 5 else 4);
  }

  lemma SixToFourCanon(g: seq<nat>)
    requires IsAddress(g)
    ensures SixToFour(CanonPieces(g)) == if IsSixToFour(g) then Some(Dotted(g[1], g[2])) else None
  {
    hide RunLength, RunStart, CanonPieces, Numeral, NumeralValue, Dotted, SplitOn, IsHexGroup, GroupValue, IsDotted;
    RunFacts(g);
    var ps, s, l := CanonPieces(g), RunStart(g), RunLength(g);
    NoDottedEmpty();
    if l < 2 {
      PiecesWhole(g);
      HeadPiece(g, 0); HeadPiece(g, 1); HeadPiece(g, 2);
    } else {
      PiecesElided(g);
      if s > 0 { HeadPiece(g, 0); }
      if s > 2 { HeadPiece(g, 1); HeadPiece(g, 2); }
    }
  }

  lemma TeredoCanon(g: seq<nat>)
    requires IsAddress(g)
    ensures Teredo(CanonPieces(g)) == if IsTeredo(g) then Some(Dotted(Flip(g[6]), Flip(g[7]))) else None
  {
    hide RunLength, RunStart, CanonPieces, Numeral, NumeralValue, Dotted, SplitOn, IsHexGroup, GroupValue, IsDotted,
      Flip;
    RunFacts(g);
    var ps, s, l := CanonPieces(g), RunStart(g), RunLength(g);
    NoDottedEmpty();
    if l < 2 {
      PiecesWhole(g);
      HeadPiece(g, 0); HeadPiece(g, 1); HeadPiece(g, 2); HeadPiece(g, 3);
      HeadPiece(g, 4); HeadPiece(g, 5); HeadPiece(g, 6); HeadPiece(g, 7);
      assert AllHex(ps[2..]);
    } else {
      PiecesElided(g);
      if |ps| == 7 {
        if s == 4 {
          HeadPiece(g, 0); HeadPiece(g, 1); HeadPiece(g, 2); HeadPiece(g, 3);
          TailPiece(g, 6); TailPiece(g, 7);
          assert AllHex(ps[2..4]);
        } else if s == 0 {
        } else if s <= 3 {
          TeredoElidedEarly(g);
        } else {
          HeadPiece(g, 4);
        }
      } else if |ps| == 8 {
        TeredoElidedLate(g);
      }
    }
  }

  lemma TeredoElidedEarly(g: seq<nat>)
    requires IsAddress(g) && RunLength(g) >= 2 && 1 <= RunStart(g) <= 3 && |CanonPieces(g)| == 7
    ensures Teredo(CanonPieces(g)) == None
  {
    hide RunLength, RunStart, CanonPieces, Numeral, NumeralValue, Dotted, SplitOn, IsHexGroup, GroupValue, IsDotted;
    RunFacts(g);
    PiecesElided(g);
    NoDottedEmpty();
    var ps := CanonPieces(g);
    assert ps[RunStart(g)] == "";
    if RunStart(g) >= 2 { assert ps[2..4][RunStart(g) - 2] == ""; assert "" in ps[2..4]; }
  }

  lemma TeredoElidedLate(g: seq<nat>)
    requires IsAddress(g) && RunLength(g) >= 2 && |CanonPieces(g)| == 8
    ensures Teredo(CanonPieces(g)) == None
  {
    hide RunLength, RunStart, CanonPieces, Numeral, NumeralValue, Dotted, SplitOn, IsHexGroup, GroupValue, IsDotted;
    RunFacts(g);
    PiecesElided(g);
    NoDottedEmpty();
    var ps := CanonPieces(g);
    if RunStart(g) >= 2 { assert ps[2..][RunStart(g) - 2] == ""; assert "" in ps[2..]; }
  }

  lemma CompatibleCanon(g: seq<nat>)
    requires IsAddress(g) && !IsMapped(g) && exists i :: 0 <= i < 8 && g[i] != 0
    ensures Compatible(CanonPieces(g)) == if IsCompatible(g) then Some(Dotted(g[6], g[7])) else None
  {
    hide RunLength, RunStart, CanonPieces, Numeral, NumeralValue, Dotted, SplitOn, IsHexGroup, GroupValue, IsDotted;
    StartsElided(g);
    RunFacts(g);
    var ps, l := CanonPieces(g), RunLength(g);
    if IsCompatible(g) { CompatibleRun(g); }
    NoDottedEmpty();
    if ps[0] == "" {
      assert ps[..2] == ["", ""];
      if l == 6 { TailPiece(g, 6); TailPiece(g, 7); }
      if l == 7 { TailPiece(g, 7); }
    } else {
      assert ps[..2][0] == ps[0];
    }
  }

  lemma CompatibleRun(g: seq<nat>)
    requires IsAddress(g) && IsCompatible(g) && exists i :: 0 <= i < 8 && g[i] != 0
    ensures RunStart(g) == 0 && RunLength(g) == if g[6] == 0 then 7 else 6
  {
    hide RunLength, RunStart;
    RunIs(g, 0, if g[6] == 0 then 7 else 6);
  }

  // ---- the prefixes of the text

  /** The number the first two hex digits make. */
  function TopTwo(x: nat): nat { if x < 0x100 then x else if x < 0x1000 then x / 16 else x / 256 }

  lemma FirstDigits(x: nat)
    requires x < 0x1_0000
    ensures x < 16 ==> |Numeral(x, 16)| == 1
    ensures x >= 16 ==> |Numeral(x, 16)| >= 2 && Numeral(x, 16)[..2] == Numeral(TopTwo(x), 16)
    ensures |Numeral(x, 16)| == 4 <==> x >= 0x1000
  {
    hide Numeral;
    NumeralLast(x, 16);
    NumeralLast(x / 16, 16);
    NumeralLast(x / 16 / 16, 16);
    NumeralLast(x / 16 / 16 / 16, 16);
  }

  lemma LeadNames()
    ensures Numeral(0xfc, 16) == "fc" && Numeral(0xfd, 16) == "fd" && Numeral(0xff, 16) == "ff"
    ensures Numeral(0xfe80, 16) == "fe80"
  {
    assert Numeral(0xf, 16) == "f" && Numeral(0xfe, 16) == "fe" && Numeral(0xfe8, 16) == "fe8";
  }

  lemma TwoDigitLead(x: nat, name: string, value: nat, rest: string)
    requires x < 0x1_0000 && 16 <= value < 256 && |name| == 2 && ':' !in name && Numeral(value, 16) == name
    ensures name <= Numeral(x, 16) + ":" + rest <==> LeadsWith(x, value)
  {
    hide Numeral;
    FirstDigits(x);
    var t := Numeral(x, 16) + ":" + rest;
    if x >= 16 {
      assert t[..2] == Numeral(x, 16)[..2];
      if TopTwo(x) != value && Numeral(TopTwo(x), 16) == name { NumeralInjective(TopTwo(x), value, 16); }
    } else {
      assert t[1] == ':' && name[1] in name;
    }
  }

  lemma LeadOfText(x: nat, rest: string)
    requires x < 0x1_0000
    ensures BlockedLead(Numeral(x, 16) + ":" + rest) <==> LeadBlocked(x)
  {
    hide Numeral, LeadsWith;
    LeadNames();
    TwoDigitLead(x, "fc", 0xfc, rest);
    TwoDigitLead(x, "fd", 0xfd, rest);
    TwoDigitLead(x, "ff", 0xff, rest);
    FourDigitLead(x, rest);
  }

  lemma FourDigitLead(x: nat, rest: string)
    requires x < 0x1_0000
    ensures "fe80" <= Numeral(x, 16) + ":" + rest <==> x == 0xfe80
  {
    hide Numeral;
    LeadNames();
    FirstDigits(x);
    NumeralLength(x);
    var n := Numeral(x, 16);
    var t := n + ":" + rest;
    if |n| == 4 {
      assert t[..4] == n;
      if n == "fe80" { NumeralInjective(x, 0xfe80, 16); }
    } else {
      assert t[|n|] == ':' && "fe80"[|n|] != ':';
    }
  }

  // ---- the classifier on canonical text

  lemma DecIsOctet(v: nat)
    requires v < 256
    ensures IsOctet(Dec(v)) && OctetValue(Dec(v)) == v
  {
    hide Numeral, NumeralValue;
    NumeralRoundTrip(v, 10);
    NumeralNoLeadingZero(v, 10);
    NumeralLast(v, 10);
    NumeralLast(v / 10, 10);
    NumeralLast(v / 10 / 10, 10);
  }

  /** The judgement of a dotted quad is the range check of its first two bytes. */
  lemma DottedBlocked(hi: nat, lo: nat, prefixes: seq<string>)
    requires hi < 0x1_0000 && lo < 0x1_0000
    ensures IsBlocked(Dotted(hi, lo), prefixes) == BlockedV4(hi / 256, hi % 256)
  {
    hide Numeral, NumeralValue, IsOctet, Join, SplitOn, OctetValue, BlockedV4, EmbeddedV4, IsIPv6;
    var ps := [Dec(hi / 256), Dec(hi % 256), Dec(lo / 256), Dec(lo % 256)];
    DecIsOctet(hi / 256); DecIsOctet(hi % 256); DecIsOctet(lo / 256); DecIsOctet(lo % 256);
    assert AllOctets(ps);
    QuadText(ps);
  }

  lemma CanonFamily(g: seq<nat>)
    requires IsAddress(g)
    ensures IsIP(Canon(g)) == 6
  {
    hide Numeral, CanonPieces, Canon, Join, SplitOn, IsIPv6, Ipv6ToInt;
    CanonText(g);
    CanonNoDot(g);
    var t := Canon(g);
    forall i | 0 <= i < |t| ensures !("." <= t[i..]) { assert t[i] in t && t[i..][0] == t[i]; }
    SplitNone(t, ".");
  }

  lemma CanonNoDot(g: seq<nat>)
    requires IsAddress(g)
    ensures '.' !in Canon(g)
  {
    hide RunStart, RunLength, Numeral, Join, SplitOn, Canon, IsIPv6, Ipv6ToInt;
    CanonText(g);
    RunFacts(g);
    forall i | 0 <= i < |CanonPieces(g)| ensures '.' !in CanonPieces(g)[i] {}
    JoinAvoids(CanonPieces(g), ":", '.');
  }

  lemma EmbeddedCanon(g: seq<nat>)
    requires IsAddress(g) && exists i :: 0 <= i < 8 && g[i] != 0
    ensures EmbeddedV4(Canon(g), []) ==
      if Decoded(g).Some? then Some(Dotted(Decoded(g).value.0, Decoded(g).value.1)) else None
  {
    hide RunLength, RunStart, CanonPieces, Canon, Dotted, SplitOn, Mapped, Nat64, SixToFour, Teredo, Compatible,
      Ipv6ToInt,
      IsIPv6, IsNat64, IsSixToFour, IsTeredo, IsCompatible, Join, Flip;
    CanonText(g);
    MappedCanon(g);
    Nat64Canon(g);
    SixToFourCanon(g);
    TeredoCanon(g);
    if !IsMapped(g) { CompatibleCanon(g); }
  }

  lemma CanonLead(g: seq<nat>)
    requires IsAddress(g)
    ensures BlockedLead(Canon(g)) <==> LeadBlocked(g[0])
  {
    hide RunLength, RunStart, CanonPieces, Canon, SplitOn, Numeral, NumeralValue, BlockedLead, LeadBlocked,
      Ipv6ToInt, IsIPv6;
    CanonText(g);
    StartsElided(g);
    RunFacts(g);
    var ps := CanonPieces(g);
    var rest := Join(ps[1..], ":");
    assert Canon(g) == ps[0] + ":" + rest;
    if ps[0] == "" {
      assert g[0] == 0;
      NoLeadColon(rest);
    } else {
      if RunLength(g) < 2 { HeadPiece(g, 0); } else { HeadPiece(g, 0); }
      LeadOfText(g[0], rest);
    }
  }

  lemma NoLeadColon(rest: string)
    ensures !BlockedLead("" + ":" + rest) && !LeadBlocked(0)
  {
    assert ("" + ":" + rest)[0] == ':';
  }

  /** On canonical text, for every address: the guard judges the embedded IPv4 address when it
      decodes one, and the first group otherwise. */
  lemma GuardIsRangeCheck(g: seq<nat>)
    requires IsAddress(g)
    ensures IsBlocked(Canon(g), []) ==
      if Decoded(g).Some? then BlockedV4(Decoded(g).value.0 / 256, Decoded(g).value.0 % 256) else LeadBlocked(g[0])
  {
    hide RunLength, RunStart, CanonPieces, Canon, Dotted, EmbeddedV4, BlockedV4, BlockedLead, LeadBlocked, IsIP,
      Lower, Decoded;
    CanonFamily(g);
    CanonLower(g);
    if Canon(g) == "::" || Canon(g) == "::1" {
      LowAddress(g);
    } else {
      NonZero(g);
      EmbeddedCanon(g);
      CanonLead(g);
      if Decoded(g).Some? {
        DecodedSmall(g);
        DottedBlocked(Decoded(g).value.0, Decoded(g).value.1, []);
      }
    }
  }

  lemma DecodedSmall(g: seq<nat>)
    requires IsAddress(g) && Decoded(g).Some?
    ensures Decoded(g).value.0 < 0x1_0000 && Decoded(g).value.1 < 0x1_0000
  {
  }

  lemma LowAddress(g: seq<nat>)
    requires IsAddress(g) && (Canon(g) == "::" || Canon(g) == "::1")
    ensures Decoded(g).Some? && BlockedV4(Decoded(g).value.0 / 256, Decoded(g).value.0 % 256)
  {
    hide RunLength, RunStart, CanonPieces, Canon, Numeral, NumeralValue, Ipv6ToInt, IsIPv6;
    CanonText(g);
    LowTexts();
    StartsElided(g);
    RunFacts(g);
    assert RunLength(g) >= 7;
    assert ZeroUpTo(g, 6) && g[6] == 0;
  }

  lemma LowTexts()
    ensures SplitOn("::", ":") == ["", "", ""] && SplitOn("::1", ":") == ["", "", "1"]
  {
    EmptySplit();
    assert "1"[0..] == "1" && "1"[0] != ":"[0];
    forall i | 0 <= i < |"1"| ensures !(":" <= "1"[i..]) { assert i == 0; }
    SplitNone("1", ":");
    SplitHead("", ":", "");
    SplitHead("", ":", "1");
    SplitHead("", ":", ":");
    SplitHead("", ":", ":1");
    assert "" + ":" + "" == ":" && "" + ":" + "1" == ":1" && "" + ":" + ":" == "::" && "" + ":" + ":1" == "::1";
  }

  lemma NonZero(g: seq<nat>)
    requires IsAddress(g)
    ensures Canon(g) == "::" || exists i :: 0 <= i < 8 && g[i] != 0
  {
    hide CanonPieces, Canon, Numeral, NumeralValue, Ipv6ToInt, IsIPv6, SplitOn;
    if forall i :: 0 <= i < 8 ==> g[i] == 0 {
      RunIs(g, 0, 8);
      PiecesElided(g);
      CanonText(g);
      assert CanonPieces(g) == ["", "", ""];
      assert ["", "", ""][1..] == ["", ""] && ["", ""][1..] == [""];
      assert Join(["", ""], ":") == ":";
    }
  }

  // ---- what this says of each embedding

  /** Every IPv4-mapped address, and every NAT64 address with a nonzero embedded part. */
  lemma EmbeddedTailAgrees(g: seq<nat>)
    requires IsAddress(g) && (IsMapped(g) || IsNat64(g) || IsCompatible(g))
    ensures IsBlocked(Canon(g), []) == BlockedV4(g[6] / 256, g[6] % 256)
  {
    hide IsBlocked, Canon, BlockedV4;
    GuardIsRangeCheck(g);
  }

  /** A 6to4 address is blocked exactly when its embedded address is and its text spells that out;
      a nonzero third group is enough for the latter. */
  lemma SixToFourExact(g: seq<nat>)
    requires IsAddress(g) && g[0] == 0x2002
    ensures IsBlocked(Canon(g), []) <==> !Elided(g, 1) && !Elided(g, 2) && BlockedV4(g[1] / 256, g[1] % 256)
    ensures g[2] != 0 ==> !Elided(g, 1) && !Elided(g, 2)
  {
    hide IsBlocked, Canon, BlockedV4, RunStart, RunLength;
    RunFacts(g);
    GuardIsRangeCheck(g);
  }

  /** A Teredo address is blocked exactly when its client address is and its text leaves the
      client's groups in a place the guard reads. */
  lemma TeredoExact(g: seq<nat>)
    requires IsAddress(g) && g[0] == 0x2001 && g[1] == 0
    ensures IsBlocked(Canon(g), []) <==> IsTeredo(g) && BlockedV4((0xffff - g[6]) / 256, (0xffff - g[6]) % 256)
  {
    hide IsBlocked, Canon, BlockedV4, RunStart, RunLength;
    GuardIsRangeCheck(g);
  }

  /** Unique local and multicast addresses are all blocked; of the link-local range fe80::/10, those
      whose first group is fe80. */
  lemma NativeRanges(g: seq<nat>)
    requires IsAddress(g)
    ensures g[0] / 512 == 0x7e ==> IsBlocked(Canon(g), [])
    ensures g[0] / 256 == 0xff ==> IsBlocked(Canon(g), [])
    ensures g[0] / 64 == 0x3fa ==> (IsBlocked(Canon(g), []) <==> g[0] == 0xfe80)
  {
    hide IsBlocked, Canon, BlockedV4, RunStart, RunLength;
    GuardIsRangeCheck(g);
  }

  // ---- addresses the guard misses or catches by their text

  lemma ShortHexNames()
    ensures Numeral(0x2002, 16) == "2002" && Numeral(0xa00, 16) == "a00" && Numeral(1, 16) == "1"
    ensures Numeral(0x2001, 16) == "2001" && Numeral(0xf5ff, 16) == "f5ff" && Numeral(0xfffe, 16) == "fffe"
    ensures Numeral(0xfe81, 16) == "fe81" && Numeral(0xfc, 16) == "fc"
  {
    HexNames();
    assert Numeral(0xa, 16) == "a" && Numeral(0xa0, 16) == "a0" && Numeral(0xf, 16) == "f" && Numeral(0xff, 16) == "ff";
    assert Numeral(0xf5, 16) == "f5" && Numeral(0xf5f, 16) == "f5f" && Numeral(0xfff, 16) == "fff";
    assert Numeral(0xfe, 16) == "fe" && Numeral(0xfe8, 16) == "fe8";
  }

  lemma OneElided(g: seq<nat>, s: nat, l: nat)
    requires IsAddress(g) && s + l <= 8 && l >= 2
    requires (forall k :: s <= k < s + l ==> g[k] == 0) && (forall k :: 0 <= k < s || s + l <= k < 8 ==> g[k] != 0)
    ensures Canon(g) == Join(HexTexts(g[..s]), ":") + "::" + Join(HexTexts(g[s + l..]), ":")
  {
    hide RunStart, RunLength;
    RunIs(g, s, l);
    assert HexTexts(g[s + l..]) + [] == HexTexts(g[s + l..]);
  }

  lemma PairJoined(a: nat, b: nat)
    ensures Join(HexTexts([a, b]), ":") == Numeral(a, 16) + ":" + Numeral(b, 16)
    ensures Join(HexTexts([a]), ":") == Numeral(a, 16)
  {
    hide Numeral;
    assert HexTexts([a, b])[1..] == [Numeral(b, 16)];
  }

  lemma SixToFourText()
    ensures IsAddress([0x2002, 0x0a00, 0, 0, 0, 0, 0, 1])
    ensures Canon([0x2002, 0x0a00, 0, 0, 0, 0, 0, 1]) == "2002" + ":" + "a00" + "::" + "1"
  {
    hide Numeral, Canon, HexTexts, Join;
    ShortHexNames();
    var g := [0x2002, 0x0a00, 0, 0, 0, 0, 0, 1];
    OneElided(g, 2, 5);
    assert g[..2] == [0x2002, 0x0a00] && g[7..] == [1];
    PairJoined(0x2002, 0x0a00);
    PairJoined(1, 0);
  }

  lemma TeredoText()
    ensures IsAddress([0x2001, 0, 0, 0, 0, 0, 0xf5ff, 0xfffe])
    ensures Canon([0x2001, 0, 0, 0, 0, 0, 0xf5ff, 0xfffe]) == "2001" + "::" + ("f5ff" + ":" + "fffe")
  {
    hide Numeral, Canon, HexTexts, Join;
    ShortHexNames();
    var g := [0x2001, 0, 0, 0, 0, 0, 0xf5ff, 0xfffe];
    OneElided(g, 1, 5);
    assert g[..1] == [0x2001] && g[6..] == [0xf5ff, 0xfffe];
    PairJoined(0x2001, 0);
    PairJoined(0xf5ff, 0xfffe);
  }

  lemma LinkLocalText()
    ensures IsAddress([0xfe81, 0, 0, 0, 0, 0, 0, 1])
    ensures Canon([0xfe81, 0, 0, 0, 0, 0, 0, 1]) == "fe81" + "::" + "1"
  {
    hide Numeral, Canon, HexTexts, Join;
    ShortHexNames();
    var g := [0xfe81, 0, 0, 0, 0, 0, 0, 1];
    OneElided(g, 1, 6);
    assert g[..1] == [0xfe81] && g[7..] == [1];
    PairJoined(0xfe81, 0);
    PairJoined(1, 0);
  }

  lemma OverBlockedText()
    ensures IsAddress([0x00fc, 0, 0, 0, 0, 0, 0, 1])
    ensures Canon([0x00fc, 0, 0, 0, 0, 0, 0, 1]) == "fc" + "::" + "1"
  {
    hide Numeral, Canon, HexTexts, Join;
    ShortHexNames();
    var g := [0x00fc, 0, 0, 0, 0, 0, 0, 1];
    OneElided(g, 1, 6);
    assert g[..1] == [0x00fc] && g[7..] == [1];
    PairJoined(0x00fc, 0);
    PairJoined(1, 0);
  }

  /** 2002:a00::1 embeds the private address 10.0.0.0 and passes: its third group is elided. */
  lemma SixToFourMissed()
    ensures var g := [0x2002, 0x0a00, 0, 0, 0, 0, 0, 1];
      IsAddress(g) && BlockedV4(g[1] / 256, g[1] % 256) && !IsBlocked(Canon(g), [])
    ensures !IsBlocked("2002" + ":" + "a00" + "::" + "1", [])
  {
    hide IsBlocked, Canon, RunStart, RunLength;
    SixToFourText();
    var g := [0x2002, 0x0a00, 0, 0, 0, 0, 0, 1];
    RunIs(g, 2, 5);
    SixToFourExact(g);
  }

  /** 2001::f5ff:fffe carries the private client address 10.0.0.1 and passes: its server groups are elided. */
  lemma TeredoMissed()
    ensures var g := [0x2001, 0, 0, 0, 0, 0, 0xf5ff, 0xfffe];
      IsAddress(g) && BlockedV4((0xffff - g[6]) / 256, (0xffff - g[6]) % 256) && !IsBlocked(Canon(g), [])
    ensures !IsBlocked("2001" + "::" + ("f5ff" + ":" + "fffe"), [])
  {
    hide IsBlocked, Canon, RunStart, RunLength;
    TeredoText();
    var g := [0x2001, 0, 0, 0, 0, 0, 0xf5ff, 0xfffe];
    RunIs(g, 1, 5);
    TeredoExact(g);
  }

  /** fe81::1 is link-local and passes. */
  lemma LinkLocalMissed()
    ensures var g := [0xfe81, 0, 0, 0, 0, 0, 0, 1]; IsAddress(g) && g[0] / 64 == 0x3fa && !IsBlocked(Canon(g), [])
    ensures !IsBlocked("fe81" + "::" + "1", [])
  {
    hide IsBlocked, Canon;
    LinkLocalText();
    NativeRanges([0xfe81, 0, 0, 0, 0, 0, 0, 1]);
  }

  /** First groups of fewer than four digits whose text starts like a blocked range's. */
  predicate LooksBlocked(g0: nat) { g0 in {0xfc, 0xfd, 0xff} || g0 / 16 in {0xfc, 0xfd, 0xff} }

  /** Exactly which addresses without an embedded IPv4 address are blocked: fc00::/7, ff00::/8, those whose
      first group is fe80, and, although they lie in none of these, those whose first group only looks so. */
  lemma LeadsBlocked(g: seq<nat>)
    requires IsAddress(g) && Decoded(g).None?
    ensures IsBlocked(Canon(g), []) <==>
      g[0] / 512 == 0x7e || g[0] / 256 == 0xff || g[0] == 0xfe80 || LooksBlocked(g[0])
    ensures LooksBlocked(g[0]) ==> g[0] / 512 != 0x7e && g[0] / 256 != 0xff && g[0] / 64 != 0x3fa
  {
    hide IsBlocked, Canon, RunStart, RunLength, Decoded;
    GuardIsRangeCheck(g);
    LeadsSplit(g[0]);
  }

  lemma LeadsSplit(x: nat)
    requires x < 0x1_0000
    ensures LeadBlocked(x) <==> x / 512 == 0x7e || x / 256 == 0xff || x == 0xfe80 || LooksBlocked(x)
    ensures LooksBlocked(x) ==> x / 512 != 0x7e && x / 256 != 0xff && x / 64 != 0x3fa
  {
  }

  /** fc::1 lies outside fc00::/7 and is blocked. */
  lemma OverBlocked()
    ensures var g := [0x00fc, 0, 0, 0, 0, 0, 0, 1]; IsAddress(g) && g[0] / 512 != 0x7e && IsBlocked(Canon(g), [])
    ensures IsBlocked("fc" + "::" + "1", [])
  {
    hide IsBlocked, Canon, RunStart, RunLength;
    OverBlockedText();
    LeadsBlocked([0x00fc, 0, 0, 0, 0, 0, 0, 1]);
  }
}
