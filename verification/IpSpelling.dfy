/** Every legal spelling of an address is accepted and read back as the same number. */
module IpSpelling {
  import opened Text
  import opened IpText

  /** A piece between colons: not empty and without a colon. */
  ghost predicate Piece(p: string) { p != "" && ':' !in p }

  ghost predicate AllPieces(ps: seq<string>) { forall p <- ps :: Piece(p) }

  /** No two colons meet in joined pieces, and none stands at an end. */
  lemma {:induction false} JoinedHasNoDouble(ps: seq<string>)
    requires ps != [] && AllPieces(ps)
    ensures var s := Join(ps, ":"); s != "" && s[0] != ':' && s[|s| - 1] != ':'
    ensures forall i :: 0 <= i < |Join(ps, ":")| ==> !("::" <= Join(ps, ":")[i..])
    decreases |ps|
  {
    var p := ps[0];
    assert p in ps;
    assert forall k :: 0 <= k < |p| ==> p[k] in p;
    if |ps| > 1 {
      assert forall q <- ps[1..] :: q in ps;
      JoinedHasNoDouble(ps[1..]);
      var rest := Join(ps[1..], ":");
      var s := p + ":" + rest;
      forall i | 0 <= i < |s| ensures !("::" <= s[i..]) {
        if i > |p| {
          assert s[i..] == rest[i - |p| - 1..];
        } else if i + 1 < |s| {
          assert s[i..][0] == s[i] && s[i..][1] == s[i + 1];
          assert i < |p| ==> s[i] == p[i];
          assert i == |p| ==> s[i + 1] == rest[0];
        }
      }
    } else {
      forall i | 0 <= i < |p| ensures !("::" <= p[i..]) {
        assert p[i..][0] == p[i];
      }
    }
  }

  lemma SplitWhole(ps: seq<string>)
    requires ps != [] && AllPieces(ps)
    ensures SplitOn(Join(ps, ":"), "::") == [Join(ps, ":")] && Pieces(Join(ps, ":")) == ps
  {
    JoinedHasNoDouble(ps);
    SplitNone(Join(ps, ":"), "::");
    PiecesSplit(ps);
  }

  lemma PiecesSplit(ps: seq<string>)
    requires ps != [] && AllPieces(ps)
    ensures SplitOn(Join(ps, ":"), ":") == ps
  {
    assert ":" == [':'];
    forall p | p in ps ensures ':' !in p { assert Piece(p); }
    SplitJoin(ps, ':');
  }

  lemma HalfPieces(ps: seq<string>)
    requires AllPieces(ps)
    ensures Pieces(Join(ps, ":")) == ps
  {
    if ps != [] {
      SplitWhole(ps);
      JoinedHasNoDouble(ps);
    }
  }

  lemma SplitElided(head: seq<string>, tail: seq<string>)
    requires AllPieces(head) && AllPieces(tail)
    ensures var s := Join(head, ":") + "::" + Join(tail, ":");
      SplitOn(s, "::") == [Join(head, ":"), Join(tail, ":")]
  {
    var h, t := Join(head, ":"), Join(tail, ":");
    assert Free(h, "::") by {
      if head != [] {
        JoinedHasNoDouble(head);
        forall i | 0 <= i < |h| ensures !("::" <= (h + "::")[i..]) {
          assert (h + "::")[i..][0] == h[i];
          if i + 1 < |h| { assert (h + "::")[i..][1] == h[i..][1]; }
        }
      }
    }
    SplitHead(h, "::", t);
    if tail != [] { SplitWhole(tail); } else { assert SplitOn("", "::") == [""]; }
  }

  lemma HexPiece(p: string)
    requires IsHexGroup(p)
    ensures Piece(p) && '.' !in p && '%' !in p
  {
  }

  lemma HexPieces(ps: seq<string>)
    requires AllHex(ps)
    ensures AllPieces(ps) && forall p <- ps :: '.' !in p && '%' !in p
  {
    forall p | p in ps ensures Piece(p) && '.' !in p && '%' !in p { HexPiece(p); }
  }

  // ---- without a dotted quad

  /** The number of a literal whose pieces are all hex. */
  lemma PlainReads(head: seq<string>, elided: bool, tail: seq<string>)
    requires AllHex(head) && AllHex(tail)
    requires if elided then |head| + |tail| <= 7 else tail == [] && |head| == 8
    ensures var text := if elided then Join(head, ":") + "::" + Join(tail, ":") else Join(head, ":");
      var halves := SplitOn(text, "::");
      && |halves| == (if elided then 2 else 1)
      && Pieces(halves[0]) == head && (if |halves| > 1 then Pieces(halves[1]) else []) == tail
  {
    hide SplitOn, Join, Pieces;
    HexPieces(head);
    HexPieces(tail);
    if elided {
      SplitElided(head, tail);
      HalfPieces(head);
      HalfPieces(tail);
    } else {
      SplitWhole(head);
    }
  }

  // ---- with a dotted quad

  lemma HexNumeral(n: nat)
    requires n < 0x1_0000
    ensures IsHexGroup(Numeral(n, 16)) && GroupValue(Numeral(n, 16)) == n
  {
    NumeralRoundTrip(n, 16);
    NumeralLength(n);
  }

  lemma NumeralLength(n: nat)
    requires n < 0x1_0000
    ensures |Numeral(n, 16)| <= 4
  {
    hide Numeral;
    NumeralLast(n, 16);
    NumeralLast(n / 16, 16);
    NumeralLast(n / 16 / 16, 16);
    NumeralLast(n / 16 / 16 / 16, 16);
  }

  lemma OctetPiece(p: string)
    requires IsOctet(p)
    ensures p != "" && ':' !in p && '.' !in p && '%' !in p
  {
  }

  /** A dotted quad splits into its octets and is one piece between colons. */
  lemma QuadText(quad: seq<string>)
    requires |quad| == 4 && AllOctets(quad)
    ensures SplitOn(Join(quad, "."), ".") == quad && IsIPv4(Join(quad, ".")) && AllDigits(quad)
    ensures Piece(Join(quad, ".")) && '%' !in Join(quad, ".") && !IsHexGroup(Join(quad, "."))
  {
    hide IsOctet;
    assert "." == ['.'];
    forall p | p in quad ensures p != "" && ':' !in p && '.' !in p && '%' !in p && IsDecimal(p) {
      OctetPiece(p);
      OctetIsDecimal(p);
    }
    SplitJoin(quad, '.');
    JoinAvoids(quad, ".", ':');
    JoinAvoids(quad, ".", '%');
    assert quad[0] in quad;
    assert Join(quad, ".") == quad[0] + "." + Join(quad[1..], ".");
    assert Join(quad, ".")[|quad[0]|] == '.' && '.' in Join(quad, ".");
  }

  lemma OctetIsDecimal(p: string)
    requires IsOctet(p)
    ensures IsDecimal(p)
  {
  }

  lemma {:induction false} JoinAvoids(ps: seq<string>, sep: string, c: char)
    requires c !in sep && forall p <- ps :: c !in p
    ensures c !in Join(ps, sep)
  {
    if |ps| > 1 {
      assert ps[0] in ps && forall p <- ps[1..] :: p in ps;
      JoinAvoids(ps[1..], sep, c);
    } else if |ps| == 1 {
      assert ps[0] in ps;
    }
  }

  /** The core text as pieces between single colons. */
  function ColonPieces(sp: Spelling): seq<string> {
    var last := QuadPiece(sp);
    if sp.elided then
      (if sp.head == [] then [""] else sp.head) + [""] + (if sp.tail + last == [] then [""] else sp.tail + last)
    else sp.head + last
  }

  ghost predicate WellPieced(sp: Spelling) {
    AllHex(sp.head) && AllHex(sp.tail) && (sp.quad.Some? ==> |sp.quad.value| == 4 && AllOctets(sp.quad.value))
    && (!sp.elided ==> sp.tail == [] && sp.head != [])
  }

  lemma SpellingPieces(sp: Spelling)
    requires WellPieced(sp)
    ensures AllPieces(sp.head) && AllPieces(sp.tail + QuadPiece(sp)) && AllPieces(sp.head + QuadPiece(sp))
    ensures '%' !in Core(sp)
    ensures forall p <- ColonPieces(sp) :: ':' !in p
  {
    hide IsOctet, IsHexGroup;
    HexPieces(sp.head);
    HexPieces(sp.tail);
    if sp.quad.Some? { QuadText(sp.quad.value); }
    forall p | p in sp.head + QuadPiece(sp) || p in sp.tail + QuadPiece(sp) ensures Piece(p) && '%' !in p {}
    JoinAvoids(sp.head, ":", '%');
    JoinAvoids(sp.tail + QuadPiece(sp), ":", '%');
    JoinAvoids(sp.head + QuadPiece(sp), ":", '%');
  }

  lemma CoreIsJoin(sp: Spelling)
    requires WellPieced(sp)
    ensures ColonPieces(sp) != [] && Core(sp) == Join(ColonPieces(sp), ":")
  {
    hide QuadPiece, IsHexGroup, IsOctet, Join;
    if sp.elided {
      var t := sp.tail + QuadPiece(sp);
      OrEmpty(sp.head);
      OrEmpty(t);
      ElidedJoin(if sp.head == [] then [""] else sp.head, if t == [] then [""] else t);
    }
  }

  lemma OrEmpty(ps: seq<string>)
    ensures Join(if ps == [] then [""] else ps, ":") == Join(ps, ":")
  {
  }

  lemma ElidedJoin(a: seq<string>, c: seq<string>)
    requires a != [] && c != []
    ensures Join(a + [""] + c, ":") == Join(a, ":") + "::" + Join(c, ":")
  {
    JoinConcat(a + [""], c, ":");
    JoinConcat(a, [""], ":");
    assert Join([""], ":") == "";
  }

  lemma CoreSplits(sp: Spelling)
    requires WellPieced(sp)
    ensures SplitOn(Core(sp), ":") == ColonPieces(sp)
  {
    hide Core, ColonPieces;
    SpellingPieces(sp);
    CoreIsJoin(sp);
    assert ":" == [':'];
    SplitJoin(ColonPieces(sp), ':');
  }

  /** The same address with the quad as two hex groups. */
  function Undotted(sp: Spelling): Spelling
    requires sp.quad.Some? ==> |sp.quad.value| == 4 && AllDigits(sp.quad.value)
  {
    if sp.quad.None? then sp
    else
      var two := [QuadHigh(sp.quad.value), QuadLow(sp.quad.value)];
      if sp.elided then sp.(tail := sp.tail + two, quad := None) else sp.(head := sp.head + two, quad := None)
  }

  lemma UndotReads(sp: Spelling)
    requires WellPieced(sp)
    ensures sp.quad.Some? ==> AllDigits(sp.quad.value)
    ensures sp.quad.Some? ==> IsHexGroup(QuadHigh(sp.quad.value)) && IsHexGroup(QuadLow(sp.quad.value))
    ensures sp.quad.Some? ==>
      [GroupValue(QuadHigh(sp.quad.value)), GroupValue(QuadLow(sp.quad.value))] == QuadValues(sp.quad.value)
    ensures WellPieced(Undotted(sp)) && UndotTail(Core(sp)) == Core(Undotted(sp))
  {
    hide Core, Numeral, NumeralValue, SplitOn, Join, IsIPv4;
    CoreSplits(sp);
    var ps := ColonPieces(sp);
    if sp.quad.Some? {
      var quad := sp.quad.value;
      QuadText(quad);
      QuadHex(quad);
      UndotPieces(sp);
      CoreIsJoin(Undotted(sp));
    } else {
      NoQuadLast(sp);
    }
  }

  lemma QuadHex(quad: seq<string>)
    requires |quad| == 4 && AllOctets(quad) && AllDigits(quad)
    ensures IsHexGroup(QuadHigh(quad)) && IsHexGroup(QuadLow(quad))
    ensures [GroupValue(QuadHigh(quad)), GroupValue(QuadLow(quad))] == QuadValues(quad)
  {
    hide Numeral, NumeralValue;
    assert quad[0] in quad && quad[1] in quad && quad[2] in quad && quad[3] in quad;
    HexNumeral(DecValue(quad[0]) * 256 + DecValue(quad[1]));
    HexNumeral(DecValue(quad[2]) * 256 + DecValue(quad[3]));
  }

  lemma UndotPieces(sp: Spelling)
    requires WellPieced(sp) && sp.quad.Some? && AllDigits(sp.quad.value)
    ensures var ps := ColonPieces(sp);
      && |ps| >= 2 && ps[|ps| - 1] == Join(sp.quad.value, ".")
      && ps[..|ps| - 1] + [QuadHigh(sp.quad.value), QuadLow(sp.quad.value)] == ColonPieces(Undotted(sp))
  {
    hide QuadHigh, QuadLow, Join, IsHexGroup, IsOctet;
  }

  lemma NoQuadLast(sp: Spelling)
    requires WellPieced(sp) && sp.quad.None?
    ensures var ps := ColonPieces(sp); ps != [] && |SplitOn(ps[|ps| - 1], ".")| == 1
  {
    var ps := ColonPieces(sp);
    var last := ps[|ps| - 1];
    HexPieces(sp.head);
    HexPieces(sp.tail);
    assert last == "" || last in sp.head || last in sp.tail;
    forall i | 0 <= i < |last| ensures !("." <= last[i..]) { assert last[i] in last && last[i..][0] == last[i]; }
    SplitNone(last, ".");
  }

  // ---- the results

  lemma {:induction false} CutAt(s: string, c: char, rest: string)
    requires c !in s
    ensures Cut(s + [c] + rest, c) == (s, Some(rest)) && Cut(s, c) == (s, None)
    decreases |s|
  {
    var t := s + [c] + rest;
    if s == "" {
      assert t[0] == c && t[1..] == rest;
    } else {
      assert s[0] in s && forall x <- s[1..] :: x in s;
      assert t[1..] == s[1..] + [c] + rest;
      CutAt(s[1..], c, rest);
      assert [s[0]] + s[1..] == s;
    }
  }

  lemma ShowCut(sp: Spelling)
    requires WellPieced(sp)
    ensures Cut(Show(sp), '%') == (Core(sp), sp.zone)
  {
    hide Core, Cut;
    SpellingPieces(sp);
    if sp.zone.Some? {
      CutAt(Core(sp), '%', sp.zone.value);
      assert Core(sp) + ['%'] + sp.zone.value == Core(sp) + ("%" + sp.zone.value);
    } else {
      CutAt(Core(sp), '%', "");
      assert Core(sp) + "" == Core(sp);
    }
  }

  lemma LegalIsWellPieced(sp: Spelling)
    requires Legal(sp)
    ensures WellPieced(sp)
  {
    hide IsHexGroup, IsOctet, ZoneChar;
  }

  /** `isIP` accepts every legal spelling. */
  lemma LegalIsAccepted(sp: Spelling)
    requires Legal(sp)
    ensures IsIPv6(Show(sp))
  {
    hide Core, Cut, IsHexGroup, IsOctet, ZoneChar, IsIPv6Core;
    LegalIsWellPieced(sp);
    ShowCut(sp);
    CoreAccepted(sp);
  }

  lemma CoreAccepted(sp: Spelling)
    requires Legal(sp)
    ensures IsIPv6Core(Core(sp))
  {
    hide IsHexGroup, IsOctet, ZoneChar, SplitOn, Join, IsIPv4, Pieces, GroupsOk, GroupCount;
    LegalIsWellPieced(sp);
    SpellingPieces(sp);
    if sp.elided {
      var t := sp.tail + QuadPiece(sp);
      SplitElided(sp.head, t);
      HalfPieces(sp.head);
      HalfPieces(t);
      GroupsAccepted(sp.tail, sp.quad);
    } else {
      var t := sp.head + QuadPiece(sp);
      SplitWhole(t);
      GroupsAccepted(sp.head, sp.quad);
    }
  }

  lemma GroupsAccepted(ps: seq<string>, quad: Option<seq<string>>)
    requires AllHex(ps) && (quad.Some? ==> |quad.value| == 4 && AllOctets(quad.value))
    ensures var t := ps + if quad.Some? then [Join(quad.value, ".")] else [];
      GroupsOk(t) && GroupCount(t) == |ps| + if quad.Some? then 2 else 0
  {
    hide IsOctet, SplitOn, Join, IsIPv4;
    if quad.Some? {
      QuadText(quad.value);
      assert (ps + [Join(quad.value, ".")])[..|ps|] == ps;
    } else {
      assert ps + [] == ps;
      if ps != [] { assert ps[|ps| - 1] in ps; }
    }
  }

  /** Whatever spelling is used, the number read is the number of the eight groups it stands for. */
  lemma SpellingReads(sp: Spelling)
    requires Legal(sp)
    ensures Ipv6ToInt(Show(sp)) == Some(Fold(Denote(sp)))
  {
    hide Core, Show, Cut, Fold, IsOctet, ZoneChar, SplitOn, Join, Pieces, NumeralValue, Numeral, UndotTail;
    LegalIsWellPieced(sp);
    ShowCut(sp);
    UndotReads(sp);
    var u := Undotted(sp);
    UndottedReads(u, sp);
    UndottedDenotes(sp);
  }

  lemma UndottedReads(u: Spelling, sp: Spelling)
    requires Legal(sp) && WellPieced(u) && u.quad.None? && u.elided == sp.elided
    requires if u.elided then |u.head| + |u.tail| <= 7 else u.tail == [] && |u.head| == 8
    ensures var halves := SplitOn(Core(u), "::");
      && |halves| == (if u.elided then 2 else 1)
      && Pieces(halves[0]) == u.head && (if |halves| > 1 then Pieces(halves[1]) else []) == u.tail
  {
    hide SplitOn, Join, Pieces, IsHexGroup, IsOctet;
    PlainReads(u.head, u.elided, u.tail);
    assert u.tail + [] == u.tail && u.head + [] == u.head;
  }

  lemma UndottedDenotes(sp: Spelling)
    requires Legal(sp) && WellPieced(Undotted(sp))
    requires sp.quad.Some? ==> IsHexGroup(QuadHigh(sp.quad.value)) && IsHexGroup(QuadLow(sp.quad.value))
    requires sp.quad.Some? ==>
      [GroupValue(QuadHigh(sp.quad.value)), GroupValue(QuadLow(sp.quad.value))] == QuadValues(sp.quad.value)
    ensures var u := Undotted(sp);
      Denote(sp) == GroupValues(u.head) + Zeros(if u.elided then 8 - |u.head| - |u.tail| else 0) + GroupValues(u.tail)
  {
    hide QuadHigh, QuadLow, IsHexGroup, IsOctet, GroupValue, QuadValues, ZoneChar;
  }

  // ---- every accepted literal is a legal spelling

  lemma HalfJoins(half: string)
    ensures Join(Pieces(half), ":") == half
  {
    hide SplitOn;
    JoinSplit(half, ":");
  }

  /** The hex pieces and the dotted quad, if any, of a half. */
  lemma GroupsSplit(ps: seq<string>) returns (hex: seq<string>, quad: Option<seq<string>>)
    requires GroupsOk(ps)
    ensures AllHex(hex) && (quad.Some? ==> |quad.value| == 4 && AllOctets(quad.value))
    ensures ps == hex + if quad.Some? then [Join(quad.value, ".")] else []
    ensures GroupCount(ps) == |hex| + if quad.Some? then 2 else 0
  {
    hide SplitOn, Join, IsHexGroup, IsOctet;
    if AllHex(ps) {
      hex, quad := ps, None;
      assert ps + [] == ps;
      if ps != [] { assert ps[|ps| - 1] in ps; }
    } else {
      var last := ps[|ps| - 1];
      hex, quad := ps[..|ps| - 1], Some(SplitOn(last, "."));
      JoinSplit(last, ".");
      QuadText(quad.value);
    }
  }

  /** Every literal `isIP` accepts is a legal spelling of some address. */
  lemma AcceptedIsLegal(s: string) returns (sp: Spelling)
    requires IsIPv6(s)
    ensures Legal(sp) && Show(sp) == s
  {
    hide SplitOn, Join, IsHexGroup, IsOctet, Cut, ZoneChar, GroupsOk, GroupCount, Pieces;
    var cut := Cut(s, '%');
    var core := cut.0;
    assert s == core + if cut.1.Some? then ['%'] + cut.1.value else "";
    var halves := SplitOn(core, "::");
    JoinSplit(core, "::");
    if |halves| == 1 {
      JoinOne(halves[0], "::");
      HalfJoins(core);
      var hex, quad := GroupsSplit(Pieces(core));
      sp := Spelling(hex, false, [], quad, cut.1);
    } else {
      JoinTwo(halves[0], halves[1], "::");
      assert halves == [halves[0], halves[1]];
      HalfJoins(halves[0]);
      HalfJoins(halves[1]);
      var hex, quad := GroupsSplit(Pieces(halves[1]));
      sp := Spelling(Pieces(halves[0]), true, hex, quad, cut.1);
    }
    assert Core(sp) == core;
    assert core + "" == core;
  }

  lemma JoinOne(a: string, sep: string)
    ensures Join([a], sep) == a
  {
  }

  lemma JoinTwo(a: string, b: string, sep: string)
    ensures Join([a, b], sep) == a + sep + b
  {
    assert [a, b][1..] == [b];
  }

  /** An accepted literal always has a number. */
  lemma AcceptedReads(s: string)
    requires IsIPv6(s)
    ensures Ipv6ToInt(s).Some?
  {
    hide Legal, Show, IsIPv6, Ipv6ToInt, Denote;
    var sp := AcceptedIsLegal(s);
    SpellingReads(sp);
  }
}
