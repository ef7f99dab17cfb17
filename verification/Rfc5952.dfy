/** The canonical text of an IPv6 address (RFC 5952 section 4): lower-case hex without leading
    zeros, the longest zero run of two groups or more elided, the first of them on a tie. */
module Rfc5952 {
  import opened Text
  import opened IpText
  import opened IpSpelling

  predicate IsAddress(g: seq<nat>) { |g| == 8 && forall i :: 0 <= i < 8 ==> g[i] < 0x1_0000 }

  /** The number of zero groups from `i` on. */
  function ZeroRun(g: seq<nat>, i: nat): (n: nat)
    requires i <= |g|
    ensures i + n <= |g| && (forall k :: i <= k < i + n ==> g[k] == 0) && (i + n < |g| ==> g[i + n] != 0)
    decreases |g| - i
  {
    if i < |g| && g[i] == 0 then 1 + ZeroRun(g, i + 1) else 0
  }

  /** The start of the longest zero run among those starting before `n`, the first on a tie. */
  function BestStart(g: seq<nat>, n: nat): (s: nat)
    requires 1 <= n <= |g|
    ensures s < n && forall i :: 0 <= i < n ==> ZeroRun(g, i) <= ZeroRun(g, s)
    ensures forall i :: 0 <= i < s ==> ZeroRun(g, i) < ZeroRun(g, s)
  {
    if n == 1 then 0
    else
      var s := BestStart(g, n - 1);
      if ZeroRun(g, n - 1) > ZeroRun(g, s) then n - 1 else s
  }

  function RunStart(g: seq<nat>): nat
    requires IsAddress(g)
  {
    BestStart(g, 8)
  }

  function RunLength(g: seq<nat>): nat
    requires IsAddress(g)
  {
    ZeroRun(g, BestStart(g, 8))
  }

  /** A run that no other reaches, and no earlier one matches, is the elided one. */
  lemma RunIs(g: seq<nat>, s: nat, l: nat)
    requires IsAddress(g) && s + l <= 8 && l >= 1
    requires (forall k :: s <= k < s + l ==> g[k] == 0) && (s + l < 8 ==> g[s + l] != 0) && (s > 0 ==> g[s - 1] != 0)
    requires forall i :: 0 <= i < s ==> ZeroRun(g, i) < l
    requires forall i :: s + l <= i < 8 ==> ZeroRun(g, i) <= l
    ensures RunStart(g) == s && RunLength(g) == l
  {
    assert ZeroRun(g, s) == l;
    var b := BestStart(g, 8);
    assert ZeroRun(g, b) >= l;
  }

  function HexTexts(g: seq<nat>): (r: seq<string>)
    ensures |r| == |g| && forall i :: 0 <= i < |g| ==> r[i] == Numeral(g[i], 16)
  {
    seq(|g|, i requires 0 <= i < |g| => Numeral(g[i], 16))
  }

  /** How RFC 5952 spells an address. */
  function CanonSpelling(g: seq<nat>): Spelling
    requires IsAddress(g)
  {
    var s, l := RunStart(g), RunLength(g);
    if l < 2 then Spelling(HexTexts(g), false, [], None, None)
    else Spelling(HexTexts(g[..s]), true, HexTexts(g[s + l..]), None, None)
  }

  function Canon(g: seq<nat>): string
    requires IsAddress(g)
  {
    Core(CanonSpelling(g))
  }

  /** The canonical text between its colons. */
  function CanonPieces(g: seq<nat>): seq<string>
    requires IsAddress(g)
  {
    var s, l := RunStart(g), RunLength(g);
    if l < 2 then HexTexts(g)
    else
      (if s == 0 then [""] else HexTexts(g[..s])) + [""] + (if s + l == 8 then [""] else HexTexts(g[s + l..]))
  }

  lemma HexTextsAllHex(g: seq<nat>)
    requires forall i :: 0 <= i < |g| ==> g[i] < 0x1_0000
    ensures AllHex(HexTexts(g)) && GroupValues(HexTexts(g)) == g
  {
    hide Numeral, IsHexGroup, GroupValue;
    forall i | 0 <= i < |g| ensures IsHexGroup(HexTexts(g)[i]) && GroupValue(HexTexts(g)[i]) == g[i] {
      HexNumeral(g[i]);
    }
  }

  lemma CanonLegal(g: seq<nat>)
    requires IsAddress(g)
    ensures Legal(CanonSpelling(g)) && Show(CanonSpelling(g)) == Canon(g)
    ensures Denote(CanonSpelling(g)) == g
  {
    hide Core, RunStart, RunLength, BestStart, ZeroRun, HexTexts, IsHexGroup;
    RunFacts(g);
    var s, l := RunStart(g), RunLength(g);
    assert Core(CanonSpelling(g)) + "" == Core(CanonSpelling(g));
    if l < 2 {
      HexTextsAllHex(g);
    } else {
      HexTextsAllHex(g[..s]);
      HexTextsAllHex(g[s + l..]);
      assert g == g[..s] + Zeros(l) + g[s + l..];
    }
  }

  lemma RunFacts(g: seq<nat>)
    requires IsAddress(g)
    ensures RunStart(g) < 8 && RunStart(g) + RunLength(g) <= 8
    ensures forall k :: RunStart(g) <= k < RunStart(g) + RunLength(g) ==> g[k] == 0
    ensures RunStart(g) + RunLength(g) < 8 ==> g[RunStart(g) + RunLength(g)] != 0
    ensures RunStart(g) > 0 && RunLength(g) > 0 ==> g[RunStart(g) - 1] != 0
    ensures forall i: nat :: i + 1 < 8 && g[i] == 0 && g[i + 1] == 0 ==> RunLength(g) >= 2
  {
    var s := RunStart(g);
    if s > 0 { assert ZeroRun(g, s - 1) < ZeroRun(g, s); }
    forall i: nat | i + 1 < 8 && g[i] == 0 && g[i + 1] == 0 ensures RunLength(g) >= 2 {
      assert ZeroRun(g, i) == 1 + ZeroRun(g, i + 1);
      assert ZeroRun(g, i + 1) >= 1;
    }
  }

  /** The canonical text is accepted, is lower case, splits into its pieces, and reads as its groups. */
  lemma CanonText(g: seq<nat>)
    requires IsAddress(g)
    ensures IsIPv6(Canon(g)) && Ipv6ToInt(Canon(g)) == Some(Fold(g))
    ensures SplitOn(Canon(g), ":") == CanonPieces(g) && Join(CanonPieces(g), ":") == Canon(g)
  {
    hide Core, RunStart, RunLength, Ipv6ToInt, IsIPv6, SplitOn, Fold, Join, HexTexts, Legal, Denote;
    CanonLegal(g);
    LegalIsAccepted(CanonSpelling(g));
    SpellingReads(CanonSpelling(g));
    LegalIsWellPieced(CanonSpelling(g));
    CoreSplits(CanonSpelling(g));
    CoreIsJoin(CanonSpelling(g));
    CanonColonPieces(g);
  }

  lemma CanonColonPieces(g: seq<nat>)
    requires IsAddress(g)
    ensures ColonPieces(CanonSpelling(g)) == CanonPieces(g)
  {
    hide RunStart, RunLength;
    RunFacts(g);
  }

  lemma CanonLower(g: seq<nat>)
    requires IsAddress(g)
    ensures Lower(Canon(g)) == Canon(g) && Canon(g) != ""
  {
    hide CanonPieces, Join, Canon, SplitOn, Lower;
    CanonText(g);
    PiecesLower(g);
    JoinLower(CanonPieces(g));
    assert SplitOn("", ":") == [""] by { EmptySplit(); }
  }

  lemma EmptySplit()
    ensures SplitOn("", ":") == [""]
  {
  }

  predicate NoCapitals(s: string) { forall c <- s :: !('A' <= c <= 'Z') }

  lemma PiecesLower(g: seq<nat>)
    requires IsAddress(g)
    ensures |CanonPieces(g)| >= 2
    ensures forall p <- CanonPieces(g) :: NoCapitals(p)
  {
    hide RunStart, RunLength, Numeral;
    RunFacts(g);
    var s, l := RunStart(g), RunLength(g);
    forall i | 0 <= i < |CanonPieces(g)| ensures NoCapitals(CanonPieces(g)[i]) {}
  }

  lemma {:induction false} JoinLower(ps: seq<string>)
    requires forall p <- ps :: NoCapitals(p)
    ensures Lower(Join(ps, ":")) == Join(ps, ":")
  {
    if |ps| > 1 {
      assert ps[0] in ps && forall p <- ps[1..] :: p in ps;
      JoinLower(ps[1..]);
      LowerConcat(ps[0], ":");
      LowerConcat(ps[0] + ":", Join(ps[1..], ":"));
      LowerUnchanged(ps[0]);
      LowerUnchanged(":");
    } else if |ps| == 1 {
      assert ps[0] in ps;
      LowerUnchanged(ps[0]);
    }
  }

  lemma LowerUnchanged(p: string)
    requires NoCapitals(p)
    ensures Lower(p) == p
  {
    forall i | 0 <= i < |p| ensures Lower(p)[i] == p[i] { assert p[i] in p; }
  }
}
