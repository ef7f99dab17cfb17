/** IP addresses as text: what counts as an address, how an IPv6 literal may be spelled (RFC 4291
    section 2.2), and how its number is read. */
module IpText {
  import opened Text

  // ---- syntax

  predicate IsOctet(p: string) {
    IsDecimal(p) && |p| <= 3 && (p[0] == '0' ==> |p| == 1) && DecValue(p) <= 255
  }

  predicate AllOctets(ps: seq<string>) { forall p <- ps :: IsOctet(p) }

  predicate IsIPv4(s: string) {
    var ps := SplitOn(s, ".");
    |ps| == 4 && AllOctets(ps)
  }

  predicate IsHexGroup(p: string) { 1 <= |p| <= 4 && forall c <- p :: IsHexDigit(c) }

  predicate AllHex(ps: seq<string>) { forall p <- ps :: IsHexGroup(p) }

  /** The colon-separated pieces of a half; an empty half has none. */
  function Pieces(half: string): seq<string> { if half == "" then [] else SplitOn(half, ":") }

  /** Hex groups, of which the last may be a dotted quad standing for two. */
  predicate GroupsOk(ps: seq<string>) {
    AllHex(ps) || (ps != [] && AllHex(ps[..|ps| - 1]) && IsIPv4(ps[|ps| - 1]))
  }

  function GroupCount(ps: seq<string>): nat {
    if ps != [] && !IsHexGroup(ps[|ps| - 1]) then |ps| + 1 else |ps|
  }

  predicate IsIPv6Core(s: string) {
    var halves := SplitOn(s, "::");
    if |halves| == 1 then GroupsOk(Pieces(s)) && GroupCount(Pieces(s)) == 8
    else
      |halves| == 2 && AllHex(Pieces(halves[0])) && GroupsOk(Pieces(halves[1]))
      && |Pieces(halves[0])| + GroupCount(Pieces(halves[1])) <= 7
  }

  predicate ZoneChar(c: char) {
    IsDigit(c) || 'a' <= c <= 'z' || 'A' <= c <= 'Z' || c == '-' || c == '.' || c == ':'
  }

  /** The text before the first occurrence of `c`, and the text after it if there is one. */
  function Cut(s: string, c: char): (r: (string, Option<string>))
    ensures c !in r.0 && s == r.0 + if r.1.Some? then [c] + r.1.value else ""
  {
    if s == "" then ("", None)
    else if s[0] == c then ("", Some(s[1..]))
    else
      var rest := Cut(s[1..], c);
      ([s[0]] + rest.0, rest.1)
  }

  predicate IsIPv6(s: string) {
    var cut := Cut(s, '%');
    IsIPv6Core(cut.0) && (cut.1.Some? ==> cut.1.value != "" && forall c <- cut.1.value :: ZoneChar(c))
  }

  /** `net.isIP`. */
  function IsIP(s: string): nat { if IsIPv4(s) then 4 else if IsIPv6(s) then 6 else 0 }

  // ---- reading numbers

  function OctetValue(p: string): nat
    requires IsOctet(p)
  {
    DecValue(p)
  }

  function Ipv4Value(s: string): nat
    requires IsIPv4(s)
  {
    var ps := SplitOn(s, ".");
    assert AllOctets(ps) && ps[0] in ps && ps[1] in ps && ps[2] in ps && ps[3] in ps;
    ((OctetValue(ps[0]) * 256 + OctetValue(ps[1])) * 256 + OctetValue(ps[2])) * 256 + OctetValue(ps[3])
  }

  function GroupValue(p: string): nat
    requires IsHexGroup(p)
  {
    NumeralValue(p, 16)
  }

  /** `groups.reduce((acc, g) => (acc << 16n) | ...)`. */
  function Fold(gs: seq<nat>): nat { if gs == [] then 0 else Fold(gs[..|gs| - 1]) * 0x1_0000 + gs[|gs| - 1] }

  function GroupValues(ps: seq<string>): (r: seq<nat>)
    requires AllHex(ps)
    ensures |r| == |ps| && forall i :: 0 <= i < |ps| ==> IsHexGroup(ps[i]) && r[i] == GroupValue(ps[i])
  {
    seq(|ps|, i requires 0 <= i < |ps| => assert ps[i] in ps; GroupValue(ps[i]))
  }

  function Zeros(n: nat): seq<nat> { seq(n, _ => 0) }

  predicate AllDigits(ps: seq<string>) { forall p <- ps :: IsDecimal(p) }

  /** The literal with a dotted quad at its end written as two hex groups. */
  function UndotTail(text: string): string {
    var ps := SplitOn(text, ":");
    var quad := SplitOn(ps[|ps| - 1], ".");
    if |ps| >= 2 && |quad| == 4 && AllDigits(quad) then
      Join(ps[..|ps| - 1] + [QuadHigh(quad), QuadLow(quad)], ":")
    else text
  }

  function QuadHigh(quad: seq<string>): string
    requires |quad| == 4 && AllDigits(quad)
  {
    assert quad[0] in quad && quad[1] in quad;
    Numeral(DecValue(quad[0]) * 256 + DecValue(quad[1]), 16)
  }

  function QuadLow(quad: seq<string>): string
    requires |quad| == 4 && AllDigits(quad)
  {
    assert quad[2] in quad && quad[3] in quad;
    Numeral(DecValue(quad[2]) * 256 + DecValue(quad[3]), 16)
  }

  /** The 128-bit number of an IPv6 literal; none where a group is not a hex number. */
  function Ipv6ToInt(address: string): Option<nat> {
    var text := UndotTail(Cut(address, '%').0);
    var halves := SplitOn(text, "::");
    var head := Pieces(halves[0]);
    var tail := if |halves| > 1 then Pieces(halves[1]) else [];
    if !AllHex(head) || !AllHex(tail) then None
    else
      var fill := if |halves| == 2 && |head| + |tail| <= 8 then 8 - |head| - |tail| else 0;
      Some(Fold(GroupValues(head) + Zeros(fill) + GroupValues(tail)))
  }

  // ---- legal spellings

  /** A way to write an address: hex groups before and, when a zero run is elided, after `::`; the
      last two groups may be a dotted quad; a zone may follow. */
  datatype Spelling = Spelling(head: seq<string>, elided: bool, tail: seq<string>, quad: Option<seq<string>>,
                               zone: Option<string>)

  ghost predicate Legal(sp: Spelling) {
    && AllHex(sp.head) && AllHex(sp.tail)
    && (sp.quad.Some? ==> |sp.quad.value| == 4 && AllOctets(sp.quad.value))
    && (sp.zone.Some? ==> sp.zone.value != "" && forall c <- sp.zone.value :: ZoneChar(c))
    && (if sp.elided then |sp.head| + |sp.tail| + QuadCount(sp) <= 7
        else sp.tail == [] && |sp.head| + QuadCount(sp) == 8)
  }

  function QuadCount(sp: Spelling): nat { if sp.quad.Some? then 2 else 0 }

  function QuadPiece(sp: Spelling): seq<string> { if sp.quad.Some? then [Join(sp.quad.value, ".")] else [] }

  function Core(sp: Spelling): string {
    if sp.elided then Join(sp.head, ":") + "::" + Join(sp.tail + QuadPiece(sp), ":")
    else Join(sp.head + QuadPiece(sp), ":")
  }

  function Show(sp: Spelling): string { Core(sp) + if sp.zone.Some? then "%" + sp.zone.value else "" }

  function QuadValues(quad: seq<string>): seq<nat>
    requires |quad| == 4 && AllOctets(quad)
  {
    assert quad[0] in quad && quad[1] in quad && quad[2] in quad && quad[3] in quad;
    [OctetValue(quad[0]) * 256 + OctetValue(quad[1]), OctetValue(quad[2]) * 256 + OctetValue(quad[3])]
  }

  /** The eight 16-bit groups a spelling stands for. */
  ghost function Denote(sp: Spelling): (r: seq<nat>)
    requires Legal(sp)
    ensures |r| == 8
  {
    var last := if sp.quad.Some? then QuadValues(sp.quad.value) else [];
    GroupValues(sp.head)
    + Zeros(if sp.elided then 8 - |sp.head| - |sp.tail| - QuadCount(sp) else 0)
    + GroupValues(sp.tail) + last
  }
}
