/** The text classifier that keeps webhooks away from private addresses, and its agreement with
    numeric ranges on canonical text. */
module UrlGuard {
  import opened Text
  import opened IpText
  import opened IpSpelling
  import opened Rfc5952

  /** The blocked IPv4 ranges, by the first two bytes. */
  predicate BlockedV4(a: nat, b: nat) {
    || a == 0 || a == 10 || a == 127
    || (a == 169 && b == 254)
    || (a == 172 && 16 <= b <= 31)
    || (a == 192 && b == 168)
    || (a == 100 && 64 <= b <= 127)
    || a >= 224
  }

  /** `\d+\.\d+\.\d+\.\d+`. */
  predicate IsDotted(p: string) {
    var ps := SplitOn(p, ".");
    |ps| == 4 && AllDigits(ps)
  }

  /** Two 16-bit groups as a dotted quad. */
  function Dotted(hi: nat, lo: nat): string {
    Join([Dec(hi / 256), Dec(hi % 256), Dec(lo / 256), Dec(lo % 256)], ".")
  }

  /** What one of the patterns says of an address: it does not match, or the embedded address
      to judge instead, written out. */
  type Embedded = Option<string>

  function HexPair(hi: string, lo: string): Embedded
  {
    if IsHexGroup(hi) && IsHexGroup(lo) then Some(Dotted(GroupValue(hi), GroupValue(lo))) else None
  }

  function HexSingle(lo: string): Embedded {
    if IsHexGroup(lo) then Some(Dotted(0, GroupValue(lo))) else None
  }

  function DottedPiece(p: string): Embedded { if IsDotted(p) then Some(p) else None }

  /** `value ^ 0xffff` on 16 bits. */
  function Flip(v: nat): nat { if v <= 0xffff then 0xffff - v else 0 }

  function InvertedPair(hi: string, lo: string): Embedded {
    if IsHexGroup(hi) && IsHexGroup(lo) then Some(Dotted(Flip(GroupValue(hi)), Flip(GroupValue(lo)))) else None
  }

  function First(a: Embedded, b: Embedded): Embedded { if a.Some? then a else b }

  /** `^::ffff:` with a dotted quad or two hex groups. */
  function Mapped(ps: seq<string>): Embedded {
    if |ps| == 4 && ps[..3] == ["", "", "ffff"] then DottedPiece(ps[3])
    else if |ps| == 5 && ps[..3] == ["", "", "ffff"] then HexPair(ps[3], ps[4])
    else None
  }

  /** `^64:ff9b::` with a dotted quad, two hex groups or one. */
  function Nat64(ps: seq<string>): Embedded {
    if |ps| == 5 && ps[..3] == ["64", "ff9b", ""] then HexPair(ps[3], ps[4])
    else if |ps| == 4 && ps[..3] == ["64", "ff9b", ""] then First(DottedPiece(ps[3]), HexSingle(ps[3]))
    else None
  }

  /** What follows an operator's prefix: a dotted quad, two hex groups or one. */
  function Suffix(suffix: string): Embedded {
    var ps := SplitOn(suffix, ":");
    if |ps| == 1 then First(DottedPiece(ps[0]), HexSingle(ps[0]))
    else if |ps| == 2 then HexPair(ps[0], ps[1])
    else None
  }

  function OperatorPrefixes(v6: string, prefixes: seq<string>): Embedded {
    if prefixes == [] then None
    else if prefixes[0] <= v6
    then First(Suffix(v6[|prefixes[0]|..]), OperatorPrefixes(v6, prefixes[1..]))
    else OperatorPrefixes(v6, prefixes[1..])
  }

  /** `^2002:` and the two groups after it. */
  function SixToFour(ps: seq<string>): Embedded {
    if |ps| >= 3 && ps[0] == "2002" then HexPair(ps[1], ps[2]) else None
  }

  /** Teredo in eight groups, or with flags and port elided. */
  function Teredo(ps: seq<string>): Embedded {
    if |ps| == 8 && ps[0] == "2001" && ps[1] == "0" && AllHex(ps[2..]) then InvertedPair(ps[6], ps[7])
    else if |ps| == 7 && ps[0] == "2001" && ps[1] == "0" && AllHex(ps[2..4]) && ps[4] == ""
    then InvertedPair(ps[5], ps[6])
    else None
  }

  /** `^::` with a dotted quad, two hex groups or one. */
  function Compatible(ps: seq<string>): Embedded {
    if |ps| == 4 && ps[..2] == ["", ""] then HexPair(ps[2], ps[3])
    else if |ps| == 3 && ps[..2] == ["", ""] then First(DottedPiece(ps[2]), HexSingle(ps[2]))
    else None
  }

  /** The patterns in the order they are tried. */
  function EmbeddedV4(v6: string, prefixes: seq<string>): Embedded {
    var ps := SplitOn(v6, ":");
    First(Mapped(ps), First(Nat64(ps), First(OperatorPrefixes(v6, prefixes),
      First(SixToFour(ps), First(Teredo(ps), Compatible(ps))))))
  }

  // ---- the recursion ends after one step

  /** Without a colon a text is no IPv6 literal. */
  lemma NotV6(s: string)
    requires ':' !in s
    ensures !IsIPv6(s)
  {
    hide IsHexGroup, IsIPv4;
    var core := Cut(s, '%').0;
    assert forall c <- core :: c in s;
    forall i | 0 <= i < |core| ensures !("::" <= core[i..]) && !(":" <= core[i..]) {
      assert core[i] in core && core[i..][0] == core[i];
    }
    SplitNone(core, "::");
    SplitNone(core, ":");
  }

  lemma DottedNoColon(hi: nat, lo: nat)
    ensures ':' !in Dotted(hi, lo)
  {
    hide Numeral, Join;
    var ps := [Dec(hi / 256), Dec(hi % 256), Dec(lo / 256), Dec(lo % 256)];
    forall p | p in ps ensures ':' !in p { assert forall c <- p :: IsDigit(c); }
    JoinAvoids(ps, ".", ':');
  }

  lemma IsDottedNoColon(p: string)
    requires IsDotted(p)
    ensures ':' !in p
  {
    hide SplitOn, Join;
    var ps := SplitOn(p, ".");
    JoinSplit(p, ".");
    forall q | q in ps ensures ':' !in q { assert IsDecimal(q); }
    JoinAvoids(ps, ".", ':');
  }

  ghost predicate NoColon(e: Embedded) { e.Some? ==> ':' !in e.value }

  lemma PairsNoColon(hi: string, lo: string)
    ensures NoColon(HexPair(hi, lo)) && NoColon(HexSingle(lo)) && NoColon(InvertedPair(hi, lo))
    ensures NoColon(DottedPiece(lo))
  {
    hide Dotted, SplitOn, IsDotted, GroupValue;
    if IsHexGroup(hi) && IsHexGroup(lo) {
      DottedNoColon(GroupValue(hi), GroupValue(lo));
      DottedNoColon(Flip(GroupValue(hi)), Flip(GroupValue(lo)));
    }
    if IsHexGroup(lo) { DottedNoColon(0, GroupValue(lo)); }
    if IsDotted(lo) { IsDottedNoColon(lo); }
  }

  lemma {:induction false} PrefixesNoColon(v6: string, prefixes: seq<string>)
    ensures NoColon(OperatorPrefixes(v6, prefixes))
  {
    hide HexPair, HexSingle, DottedPiece, SplitOn;
    if prefixes != [] {
      PrefixesNoColon(v6, prefixes[1..]);
      if prefixes[0] <= v6 {
        var ps := SplitOn(v6[|prefixes[0]|..], ":");
        PairsNoColon(ps[0], ps[0]);
        if |ps| == 2 { PairsNoColon(ps[0], ps[1]); }
      }
    }
  }

  /** What a pattern extracts is never itself an IPv6 literal. */
  lemma EmbeddedNoColon(v6: string, prefixes: seq<string>)
    ensures NoColon(EmbeddedV4(v6, prefixes))
  {
    hide HexPair, HexSingle, DottedPiece, InvertedPair, SplitOn, OperatorPrefixes, AllHex;
    var ps := SplitOn(v6, ":");
    PrefixesNoColon(v6, prefixes);
    if |ps| >= 3 { PairsNoColon(ps[1], ps[2]); }
    if |ps| >= 4 { PairsNoColon(ps[2], ps[3]); }
    if |ps| >= 5 { PairsNoColon(ps[3], ps[4]); }
    if |ps| == 7 { PairsNoColon(ps[5], ps[6]); }
    if |ps| == 8 { PairsNoColon(ps[6], ps[7]); }
  }

  // ---- the classifier

  predicate BlockedLead(v6: string) { "fe80" <= v6 || "fc" <= v6 || "fd" <= v6 || "ff" <= v6 }

  /** `isBlockedAddress`, with the operator's NAT64 prefixes. */
  function IsBlocked(ip: string, prefixes: seq<string>): bool
    decreases IsIP(ip)
  {
    if IsIP(ip) == 0 then true
    else if IsIP(ip) == 4 then
      var ps := SplitOn(ip, ".");
      assert AllOctets(ps) && ps[0] in ps && ps[1] in ps;
      BlockedV4(OctetValue(ps[0]), OctetValue(ps[1]))
    else
      var v6 := Lower(ip);
      if v6 == "::" || v6 == "::1" then true
      else
        var e := EmbeddedV4(v6, prefixes);
        if e.Some? then
          EmbeddedNoColon(v6, prefixes);
          NotV6(e.value);
          IsBlocked(e.value, prefixes)
        else BlockedLead(v6)
  }
}
