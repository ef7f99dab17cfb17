/** The TRUST_PROXY value as it is written: which texts give which setting, and the number of a mapped peer. */
module ProxyTexts {
  import opened Text
  import opened IpText
  import opened IpSpelling
  import opened GuardTexts
  import opened TrustProxy
  import UrlGuardRanges

  // ---- hop counts and words

  /** White space around the value does not matter. */
  lemma BlankAround(lead: string, v: string, trail: string)
    requires v != "" && !IsSpace(v[0]) && !IsSpace(v[|v| - 1])
    requires (forall c <- lead :: IsSpace(c)) && forall c <- trail :: IsSpace(c)
    ensures Trim(lead + v + trail) == v
  {
    hide IsSpace;
    assert lead + v + trail == lead + (v + trail);
    BlankSkipped(lead, v + trail);
    SpacesTrail(v, trail);
  }

  lemma {:induction false} SpacesTrail(v: string, trail: string)
    requires (forall c <- trail :: IsSpace(c)) && v != "" && !IsSpace(v[|v| - 1])
    ensures TrimEnd(v + trail) == v
    decreases |trail|
  {
    hide IsSpace;
    if trail == "" {
      assert v + trail == v;
    } else {
      var front := trail[..|trail| - 1];
      assert trail[|trail| - 1] in trail && (forall c <- front :: c in trail);
      assert (v + trail)[..|v + trail| - 1] == v + front && (v + trail)[|v + trail| - 1] == trail[|trail| - 1];
      SpacesTrail(v, front);
    }
  }

  lemma DecIsSolid(n: nat)
    ensures IsDecimal(Dec(n)) && !IsSpace(Dec(n)[0]) && !IsSpace(Dec(n)[|Dec(n)| - 1])
    ensures Lower(Dec(n)) != "true"
  {
    hide Numeral;
    assert Dec(n)[0] in Dec(n) && Dec(n)[|Dec(n)| - 1] in Dec(n);
    assert Lower(Dec(n))[0] == Dec(n)[0] && "true"[0] == 't';
  }

  /** A number written in decimal is the hop count it says, up to ten; above that it is refused. */
  lemma HopsWritten(n: nat, lead: string, trail: string, expressRejects: seq<string> -> bool)
    requires (forall c <- lead :: IsSpace(c)) && forall c <- trail :: IsSpace(c)
    ensures ParseTrustProxy(Some(lead + Dec(n) + trail), expressRejects) == if n <= 10 then Ok(Hops(n)) else Throws
  {
    hide Numeral, NumeralValue, Trim, Lower, IsSpace, SplitOn;
    DecIsSolid(n);
    BlankAround(lead, Dec(n), trail);
    NumeralRoundTrip(n, 10);
  }

  /** Nothing and blanks leave the setting unset, `loopback` is taken as it is, and `true` is refused however it is
      capitalised. */
  lemma WordsWritten(raw: string, expressRejects: seq<string> -> bool)
    ensures ParseTrustProxy(None, expressRejects) == Ok(Unset)
    ensures Trim(raw) == "" ==> ParseTrustProxy(Some(raw), expressRejects) == Ok(Unset)
    ensures Trim(raw) == "loopback" ==> ParseTrustProxy(Some(raw), expressRejects) == Ok(Loopback)
    ensures Lower(Trim(raw)) == "true" ==> ParseTrustProxy(Some(raw), expressRejects).Throws?
  {
    hide SplitOn, IsIpOrCidr, TooBroad, NumeralValue;
    assert Trim("") == "";
    LoopbackIsNoNumber();
    assert Lower("") == "";
    hide Trim, Lower;
  }

  lemma LoopbackIsNoNumber()
    ensures !IsDecimal("loopback") && Lower("loopback") != "true"
  {
    assert "loopback"[0] == 'l' && 'l' in "loopback";
    assert |Lower("loopback")| == 8;
  }

  // ---- lists of addresses and ranges

  /** The characters of an address, a zone included, are no comma, no slash and no space. */
  predicate Quiet(s: string) { forall c <- s :: c != ',' && c != '/' && !IsSpace(c) }

  lemma {:induction false} QuietJoin(ps: seq<string>, sep: string)
    requires (forall p <- ps :: Quiet(p)) && Quiet(sep)
    ensures Quiet(Join(ps, sep))
  {
    hide Quiet;
    if |ps| > 1 {
      assert ps[0] in ps && forall p <- ps[1..] :: p in ps;
      QuietJoin(ps[1..], sep);
      QuietConcat(ps[0], sep);
      QuietConcat(ps[0] + sep, Join(ps[1..], sep));
    } else if |ps| == 1 {
      assert ps[0] in ps;
    } else {
      assert Quiet("") by { QuietNothing(); }
    }
  }

  lemma QuietNothing()
    ensures Quiet("") && Quiet(":") && Quiet(".") && Quiet("::") && Quiet("%")
  {
  }

  lemma QuietConcat(a: string, b: string)
    requires Quiet(a) && Quiet(b)
    ensures Quiet(a + b)
  {
    hide IsSpace;
  }

  lemma QuietPiece(p: string)
    ensures IsHexGroup(p) ==> Quiet(p)
    ensures IsDecimal(p) ==> Quiet(p)
  {
  }

  lemma QuietZone(z: string)
    requires forall c <- z :: ZoneChar(c)
    ensures Quiet(z)
  {
  }

  lemma AddressIsQuiet(s: string)
    requires IsIP(s) != 0
    ensures Quiet(s) && s != "" && ('.' in s || ':' in s)
  {
    hide Quiet, IsHexGroup, IsOctet, SplitOn, Join, IsSpace, ZoneChar;
    QuietNothing();
    if IsIPv4(s) {
      var quad := SplitOn(s, ".");
      JoinSplit(s, ".");
      QuadQuiet(quad);
      QuadText(quad);
      DotIn(quad);
    } else {
      var sp := AcceptedIsLegal(s);
      CoreQuiet(sp);
      ColonIn(sp);
      if sp.zone.Some? {
        QuietZone(sp.zone.value);
        QuietConcat("%", sp.zone.value);
        QuietConcat(Core(sp), "%" + sp.zone.value);
      } else {
        assert Core(sp) + "" == Core(sp);
      }
    }
  }

  lemma QuadQuiet(quad: seq<string>)
    requires |quad| == 4 && AllOctets(quad)
    ensures Quiet(Join(quad, "."))
  {
    hide Quiet, Join;
    QuietNothing();
    forall p | p in quad ensures Quiet(p) { OctetIsDecimal(p); QuietPiece(p); }
    QuietJoin(quad, ".");
  }

  lemma DotIn(quad: seq<string>)
    requires |quad| == 4
    ensures '.' in Join(quad, ".")
  {
    assert Join(quad, ".") == quad[0] + "." + Join(quad[1..], ".");
    assert Join(quad, ".")[|quad[0]|] == '.';
  }

  lemma CoreQuiet(sp: Spelling)
    requires Legal(sp)
    ensures Quiet(Core(sp))
  {
    hide Quiet, Join, IsHexGroup, IsOctet;
    QuietNothing();
    forall p | p in sp.head || p in sp.tail ensures Quiet(p) { QuietPiece(p); }
    if sp.quad.Some? { QuadQuiet(sp.quad.value); }
    QuietJoin(sp.head, ":");
    QuietJoin(sp.tail + QuadPiece(sp), ":");
    QuietJoin(sp.head + QuadPiece(sp), ":");
    QuietConcat(Join(sp.head, ":"), "::");
    QuietConcat(Join(sp.head, ":") + "::", Join(sp.tail + QuadPiece(sp), ":"));
  }

  lemma ColonIn(sp: Spelling)
    requires Legal(sp)
    ensures ':' in Core(sp) && Core(sp) != "" && ':' in Show(sp)
  {
    hide IsHexGroup, IsOctet;
    if sp.elided {
      assert Core(sp)[|Join(sp.head, ":")|] == ':';
    } else {
      var ps := sp.head + QuadPiece(sp);
      assert |ps| >= 2;
      assert Join(ps, ":") == ps[0] + ":" + Join(ps[1..], ":");
      assert Core(sp)[|ps[0]|] == ':';
    }
    assert Show(sp)[..|Core(sp)|] == Core(sp);
  }

  predicate Solid(e: string) { e != "" && (forall c <- e :: c != ',' && !IsSpace(c)) && ('.' in e || ':' in e) }

  /** An entry has no comma and no space, with a prefix length or without. */
  lemma EntryIsSolid(e: string)
    requires IsIpOrCidr(e)
    ensures Solid(e) && Trim(e) == e
  {
    hide IsIP, IsSpace, Trim, NumeralValue;
    var cut := Cut(e, '/');
    assert e == cut.0 + if cut.1.Some? then ['/'] + cut.1.value else "";
    if cut.1.None? {
      assert cut.0 == e;
      AddressIsQuiet(e);
    } else {
      AddressIsQuiet(cut.0);
      assert IsDecimal(cut.1.value);
      QuietPiece(cut.1.value);
      assert e == cut.0 + (['/'] + cut.1.value) && e[..|cut.0|] == cut.0;
      assert !IsSpace('/') by { SlashIsNoSpace(); }
    }
    SolidIsTrimmed(e);
  }

  lemma SlashIsNoSpace()
    ensures !IsSpace('/')
  {
  }

  lemma SolidIsTrimmed(e: string)
    requires Solid(e)
    ensures Trim(e) == e && !IsSpace(e[0]) && !IsSpace(e[|e| - 1])
  {
    hide IsSpace;
    assert e[0] in e && e[|e| - 1] in e;
    BlankAround("", e, "");
    assert "" + e + "" == e;
  }

  /** An address with a number after a slash is an entry exactly up to 32 or 128, and the number is its prefix. */
  lemma RangeWritten(address: string, n: nat)
    requires IsIP(address) != 0
    ensures IsIpOrCidr(address + "/" + Dec(n)) <==> n <= if IsIPv4(address) then 32 else 128
    ensures Cut(address + "/" + Dec(n), '/').1.Some?
    ensures IsIpOrCidr(address + "/" + Dec(n)) ==> Prefix(address + "/" + Dec(n)) == n
  {
    hide IsIPv4, IsIPv6, Numeral, NumeralValue, IsSpace;
    AddressIsQuiet(address);
    assert "/" == ['/'];
    assert '/' !in address;
    CutAt(address, '/', Dec(n));
    NumeralRoundTrip(n, 10);
    if n < 1000 { ShortDec(n); }
  }

  lemma ShortDec(n: nat)
    requires n < 1000
    ensures |Dec(n)| <= 3
  {
    NumeralLast(n, 10);
    NumeralLast(n / 10, 10);
    NumeralLast(n / 100, 10);
  }

  /** A list of addresses and ranges, with a comma and any blanks between two, is taken entry by entry: refused
      exactly when an entry is too broad or Express refuses the list. */
  lemma ListWritten(entries: seq<string>, blank: string, expressRejects: seq<string> -> bool)
    requires entries != [] && (forall e <- entries :: IsIpOrCidr(e)) && forall c <- blank :: IsSpace(c)
    ensures ParseTrustProxy(Some(Join(entries, "," + blank)), expressRejects) ==
      if (exists e <- entries :: TooBroad(e).Some?) || expressRejects(entries) then Throws else Ok(List(entries))
  {
    hide IsIpOrCidr, TooBroad, Solid, Trim, Lower, Join, SplitOn, NumeralValue, IsSpace;
    var v := Join(entries, "," + blank);
    forall e | e in entries ensures Solid(e) && Trim(e) == e && e != "" { EntryIsSolid(e); SolidHasText(e); }
    ListIsSolid(entries, blank);
    ListIsNoWord(v);
    ListSplits(entries, blank);
    TrimmedPieces(entries, blank);
  }

  lemma SolidHasText(e: string)
    requires Solid(e)
    ensures e != "" && ',' !in e
  {
  }

  /** What splitting at the commas gives: every piece but the first starts with the blanks. */
  function Spaced(entries: seq<string>, blank: string): (r: seq<string>)
    ensures |r| == |entries|
  {
    if entries == [] then [] else [blank + entries[0]] + Spaced(entries[1..], blank)
  }

  lemma {:induction false} JoinSpaced(entries: seq<string>, blank: string)
    ensures entries != [] ==> blank + Join(entries, "," + blank) == Join(Spaced(entries, blank), ",")
  {
    if |entries| > 1 {
      JoinSpaced(entries[1..], blank);
      assert blank + Join(entries, "," + blank)
          == (blank + entries[0]) + "," + (blank + Join(entries[1..], "," + blank));
    }
  }

  lemma ListSplits(entries: seq<string>, blank: string)
    requires entries != [] && (forall e <- entries :: Solid(e)) && forall c <- blank :: IsSpace(c)
    ensures SplitOn(Join(entries, "," + blank), ",") == [entries[0]] + Spaced(entries[1..], blank)
  {
    hide SplitOn, Join, IsSpace, Spaced, Solid;
    var pieces := [entries[0]] + Spaced(entries[1..], blank);
    assert forall e <- entries[1..] :: e in entries;
    SpacedHasNoComma(entries[1..], blank);
    assert ',' !in entries[0] by { SolidHasText(entries[0]); }
    SplitJoin(pieces, ',');
    JoinPieces(entries, blank);
    assert "," == [','];
  }

  lemma JoinPieces(entries: seq<string>, blank: string)
    requires entries != []
    ensures Join([entries[0]] + Spaced(entries[1..], blank), ",") == Join(entries, "," + blank)
  {
    hide Join;
    if |entries| == 1 {
      JoinSingle(entries[0], ",");
      JoinSingle(entries[0], "," + blank);
      assert entries == [entries[0]] && [entries[0]] + Spaced(entries[1..], blank) == [entries[0]];
    } else {
      hide Spaced;
      var first, rest := entries[0], entries[1..];
      JoinSpaced(rest, blank);
      JoinPrefix(first, Spaced(rest, blank), ",");
      JoinPrefix(first, rest, "," + blank);
      assert entries == [first] + rest;
      Regroup(first, ",", blank, Join(rest, "," + blank));
    }
  }

  lemma Regroup(a: string, b: string, c: string, d: string)
    ensures a + b + (c + d) == a + (b + c) + d
  {
  }

  lemma {:induction false} SpacedHasNoComma(entries: seq<string>, blank: string)
    requires (forall e <- entries :: Solid(e)) && forall c <- blank :: IsSpace(c)
    ensures forall p <- Spaced(entries, blank) :: ',' !in p
  {
    hide Solid;
    if entries != [] {
      assert entries[0] in entries && forall x <- entries[1..] :: x in entries;
      SpacedHasNoComma(entries[1..], blank);
      SolidHasText(entries[0]);
      assert ',' !in blank;
      forall p | p in Spaced(entries, blank) ensures ',' !in p {
        assert p == blank + entries[0] || p in Spaced(entries[1..], blank);
      }
    }
  }

  lemma {:induction false} TrimSpaced(entries: seq<string>, blank: string)
    requires (forall e <- entries :: Solid(e)) && forall c <- blank :: IsSpace(c)
    ensures TrimAll(Spaced(entries, blank)) == entries
  {
    hide Trim, IsSpace;
    if entries != [] {
      var e := entries[0];
      assert e in entries && forall x <- entries[1..] :: x in entries;
      SolidIsTrimmed(e);
      BlankAround(blank, e, "");
      assert blank + e + "" == blank + e;
      TrimSpaced(entries[1..], blank);
      assert Spaced(entries, blank)[1..] == Spaced(entries[1..], blank);
    }
  }

  lemma TrimmedPieces(entries: seq<string>, blank: string)
    requires entries != [] && (forall e <- entries :: Solid(e)) && forall c <- blank :: IsSpace(c)
    ensures TrimAll([entries[0]] + Spaced(entries[1..], blank)) == entries
  {
    hide Trim, IsSpace, Solid;
    assert entries[0] in entries && forall x <- entries[1..] :: x in entries;
    SolidIsTrimmed(entries[0]);
    TrimSpaced(entries[1..], blank);
    assert ([entries[0]] + Spaced(entries[1..], blank))[1..] == Spaced(entries[1..], blank);
  }

  lemma ListIsSolid(entries: seq<string>, blank: string)
    requires entries != [] && forall e <- entries :: Solid(e)
    ensures var v := Join(entries, "," + blank); Trim(v) == v && v != "" && ('.' in v || ':' in v)
  {
    hide IsSpace, Trim;
    var v := Join(entries, "," + blank);
    var first, last := entries[0], entries[|entries| - 1];
    assert first in entries && last in entries;
    StartsAndEnds(entries, blank);
    assert first[0] in first && last[|last| - 1] in last;
    assert v[..|first|] == first;
    assert forall c <- v[..|first|] :: c in v;
    BlankAround("", v, "");
    assert "" + v + "" == v;
  }

  lemma {:induction false} StartsAndEnds(ps: seq<string>, blank: string)
    requires ps != [] && forall p <- ps :: p != ""
    ensures var v, last := Join(ps, "," + blank), ps[|ps| - 1];
      && last in ps && ps[0] <= v && v != "" && v[|v| - 1] == last[|last| - 1]
  {
    hide Join;
    assert ps[0] in ps;
    if |ps| > 1 {
      assert forall p <- ps[1..] :: p in ps;
      StartsAndEnds(ps[1..], blank);
      JoinPrefix(ps[0], ps[1..], "," + blank);
      assert ps == [ps[0]] + ps[1..];
      var rest := Join(ps[1..], "," + blank);
      assert Join(ps, "," + blank) == (ps[0] + ("," + blank)) + rest;
    } else {
      JoinSingle(ps[0], "," + blank);
      assert ps == [ps[0]];
    }
  }

  /** An accepted list has one entry for each piece between the commas. */
  lemma AcceptedListIs(raw: string, expressRejects: seq<string> -> bool)
    requires ParseTrustProxy(Some(raw), expressRejects).Ok? && ParseTrustProxy(Some(raw), expressRejects).value.List?
    ensures var entries, pieces := ParseTrustProxy(Some(raw), expressRejects).value.entries, SplitOn(Trim(raw), ",");
      && |entries| == |pieces|
      && (forall i :: 0 <= i < |pieces| ==> entries[i] == Trim(pieces[i]) && IsIpOrCidr(entries[i]))
  {
    hide IsIpOrCidr, TooBroad, Trim, Lower, SplitOn, NumeralValue;
    TrimAllAt(SplitOn(Trim(raw), ","));
  }

  lemma {:induction false} TrimAllAt(parts: seq<string>)
    ensures forall i :: 0 <= i < |parts| ==> TrimAll(parts)[i] == Trim(parts[i])
  {
    hide Trim;
    if parts != [] { TrimAllAt(parts[1..]); }
  }

  lemma ListIsNoWord(v: string)
    requires '.' in v || ':' in v
    ensures !IsDecimal(v) && v != "loopback" && Lower(v) != "true"
  {
    assert forall c <- "loopback" :: c != '.' && c != ':';
    assert forall c <- "true" :: c != '.' && c != ':';
    var i :| 0 <= i < |v| && (v[i] == '.' || v[i] == ':');
    assert Lower(v)[i] in Lower(v) && Lower(v)[i] == v[i];
  }

  // ---- peers

  /** The number a peer is compared by is the number of its mapped spelling. */
  lemma MappedFormIs(a: nat, b: nat, c: nat, d: nat)
    requires a < 256 && b < 256 && c < 256 && d < 256
    ensures IsIPv4(Quad(a, b, c, d))
    ensures Ipv6ToInt("::ffff:" + Quad(a, b, c, d)) == Some(MappedForm(Ipv4Value(Quad(a, b, c, d))))
  {
    hide Numeral, NumeralValue, IsOctet, Join, SplitOn, OctetValue, Ipv6ToInt, Ipv4Value;
    QuadIsIpv4(a, b, c, d);
    QuadValue(a, b, c, d);
    var quad := [Dec(a), Dec(b), Dec(c), Dec(d)];
    OctetsOf(a, b, c, d);
    var sp := Spelling([], true, ["ffff"], Some(quad), None);
    FfffIs();
    SpellingReads(sp);
    assert QuadPiece(sp) == [Quad(a, b, c, d)];
    assert Show(sp) == "::ffff:" + Quad(a, b, c, d) by { MappedShown(Quad(a, b, c, d), sp); }
    assert Denote(sp) == [0, 0, 0, 0, 0, 0xffff, a * 256 + b, c * 256 + d];
    FoldMapped(a * 256 + b, c * 256 + d);
  }

  lemma MappedShown(quad: string, sp: Spelling)
    requires sp.head == [] && sp.elided && sp.tail == ["ffff"] && sp.zone.None? && QuadPiece(sp) == [quad]
    ensures Show(sp) == "::ffff:" + quad
  {
    EmptyAndOne("ffff", quad);
    assert "::" + "ffff" + ":" == "::ffff:";
    assert Show(sp) == "::ffff:" + quad + "";
  }

  lemma OctetsOf(a: nat, b: nat, c: nat, d: nat)
    requires a < 256 && b < 256 && c < 256 && d < 256
    ensures var quad := [Dec(a), Dec(b), Dec(c), Dec(d)];
      AllOctets(quad) && QuadValues(quad) == [a * 256 + b, c * 256 + d]
  {
    hide Numeral, NumeralValue, IsOctet, OctetValue;
    UrlGuardRanges.DecIsOctet(a); UrlGuardRanges.DecIsOctet(b);
    UrlGuardRanges.DecIsOctet(c); UrlGuardRanges.DecIsOctet(d);
  }

  lemma FfffIs()
    ensures IsHexGroup("ffff") && AllHex(["ffff"]) && GroupValues(["ffff"]) == [0xffff]
  {
    hide Numeral, NumeralValue;
    UrlGuardRanges.HexNames();
    HexNumeral(0xffff);
  }

  lemma FoldMapped(hi: nat, lo: nat)
    ensures Fold([0, 0, 0, 0, 0, 0xffff, hi, lo]) == MappedForm(hi * 0x1_0000 + lo)
  {
    var g := [0, 0, 0, 0, 0, 0xffff, hi, lo];
    assert g[..7] == [0, 0, 0, 0, 0, 0xffff, hi] && g[..7][..6] == [0, 0, 0, 0, 0, 0xffff];
    assert [0, 0, 0, 0, 0, 0xffff][..5] == [0, 0, 0, 0, 0];
    assert Fold([0]) == 0 by { assert [0][..0] == []; }
    assert Fold([0, 0]) == 0 by { assert [0, 0][..1] == [0]; }
    assert Fold([0, 0, 0]) == 0 by { assert [0, 0, 0][..2] == [0, 0]; }
    assert Fold([0, 0, 0, 0]) == 0 by { assert [0, 0, 0, 0][..3] == [0, 0, 0]; }
    assert Fold([0, 0, 0, 0, 0]) == 0 by { assert [0, 0, 0, 0, 0][..4] == [0, 0, 0, 0]; }
    assert Fold([0, 0, 0, 0, 0, 0xffff]) == 0xffff;
    assert Fold(g[..7]) == 0xffff * 0x1_0000 + hi;
  }

  /** A hex group is a 16-bit number. */
  lemma GroupIsSixteenBits(p: string)
    requires IsHexGroup(p)
    ensures GroupValue(p) < 0x1_0000
  {
    ShortNumeral(p);
  }

  lemma {:induction false} ShortNumeral(p: string)
    requires forall c <- p :: IsHexDigit(c)
    ensures |p| <= 4 ==> NumeralValue(p, 16) < 0x1_0000
    ensures |p| <= 3 ==> NumeralValue(p, 16) < 0x1000
    ensures |p| <= 2 ==> NumeralValue(p, 16) < 0x100
    ensures |p| <= 1 ==> NumeralValue(p, 16) < 0x10
    ensures p == "" ==> NumeralValue(p, 16) == 0
    decreases |p|
  {
    if p != "" {
      assert forall c <- p[..|p| - 1] :: c in p;
      ShortNumeral(p[..|p| - 1]);
    }
  }
}
