/** The opaque page token: base64url over the JSON text of an offset. */
module PageToken {
  import opened Text

  /** The 64 characters of base64url. */
  function Char64(v: nat): (c: char)
    requires v < 64
  {
    if v < 26 then 'A' + v as char
    else if v < 52 then 'a' + (v - 26) as char
    else if v < 62 then '0' + (v - 52) as char
    else if v == 62 then '-' else '_'
  }

  function Value64(c: char): Option<nat> {
    if 'A' <= c <= 'Z' then Some((c - 'A') as nat)
    else if 'a' <= c <= 'z' then Some((c - 'a') as nat + 26)
    else if '0' <= c <= '9' then Some((c - '0') as nat + 52)
    else if c == '-' then Some(62) else if c == '_' then Some(63) else None
  }

  lemma Value64OfChar64(v: nat)
    requires v < 64
    ensures Value64(Char64(v)) == Some(v)
  {
  }

  predicate IsAscii(s: string) { forall i :: 0 <= i < |s| ==> s[i] < '\U{0080}' }

  type Octet = x: int | 0 <= x < 256
  type Sextet = x: int | 0 <= x < 64

  /** Three bytes as four base-64 digits, and back. */
  function Pack(a: Octet, b: Octet, c: Octet): (Sextet, Sextet, Sextet, Sextet) {
    (a / 4, a % 4 * 16 + b / 16, b % 16 * 4 + c / 64, c % 64)
  }

  function Unpack(w: Sextet, x: Sextet, y: Sextet, z: Sextet): (Octet, Octet, Octet) {
    (w * 4 + x / 16, x % 16 * 16 + y / 4, y % 4 * 64 + z)
  }

  lemma UnpackPack(a: Octet, b: Octet, c: Octet)
    ensures var p := Pack(a, b, c); Unpack(p.0, p.1, p.2, p.3) == (a, b, c)
    ensures c == 0 ==> Pack(a, b, c).3 == 0
    ensures b == 0 && c == 0 ==> Pack(a, b, c).2 == 0
  {
    assert (a % 4 * 16 + b / 16) / 16 == a % 4 && (a % 4 * 16 + b / 16) % 16 == b / 16;
    assert (b % 16 * 4 + c / 64) / 4 == b % 16 && (b % 16 * 4 + c / 64) % 4 == c / 64;
  }

  function Byte(c: char): Octet
    requires c < '\U{0080}'
  {
    c as int
  }

  function AsciiChar(b: Octet): Option<char> { if b < 128 then Some(b as char) else None }

  lemma AsciiCharOfByte(c: char)
    requires c < '\U{0080}'
    ensures AsciiChar(Byte(c)) == Some(c)
  {
  }

  /** `Buffer.from(s).toString("base64url")` on ASCII text: no padding, so a final group of two
      bytes or one gives three characters or two. */
  function Encode(s: string): string
    requires IsAscii(s)
  {
    if s == "" then ""
    else
      var p := Pack(Byte(s[0]), if |s| > 1 then Byte(s[1]) else 0, if |s| > 2 then Byte(s[2]) else 0);
      [Char64(p.0), Char64(p.1)]
      + (if |s| > 1 then [Char64(p.2)] else [])
      + (if |s| > 2 then [Char64(p.3)] + Encode(s[3..]) else [])
  }

  /** The value of the character at `i`, zero past the end. */
  function At(t: string, i: nat): Option<Sextet> {
    if i >= |t| then Some(0)
    else if Value64(t[i]).Some? && Value64(t[i]).value < 64 then Some(Value64(t[i]).value)
    else None
  }

  /** The ASCII text a base64url text stands for, if it is one. */
  function Decode(t: string): Option<string> {
    if t == "" then Some("")
    else if |t| == 1 || At(t, 0).None? || At(t, 1).None? || At(t, 2).None? || At(t, 3).None? then None
    else
      var u := Unpack(At(t, 0).value, At(t, 1).value, At(t, 2).value, At(t, 3).value);
      var x, y, z := AsciiChar(u.0), AsciiChar(u.1), AsciiChar(u.2);
      if x.None? || y.None? || z.None? then None
      else if |t| == 2 then Some([x.value])
      else if |t| == 3 then Some([x.value, y.value])
      else
        var rest := Decode(t[4..]);
        if rest.Some? then Some([x.value, y.value, z.value] + rest.value) else None
  }

  lemma AtChar64(t: string, i: nat, v: Sextet)
    requires i < |t| && t[i] == Char64(v)
    ensures At(t, i) == Some(v)
  {
    Value64OfChar64(v);
  }

  lemma {:induction false} DecodeEncode(s: string)
    requires IsAscii(s)
    ensures Decode(Encode(s)) == Some(s)
    decreases |s|
  {
    hide Pack, Unpack, Char64, Value64, At, AsciiChar, Byte;
    if s != "" {
      var a, b, c := Byte(s[0]), if |s| > 1 then Byte(s[1]) else 0, if |s| > 2 then Byte(s[2]) else 0;
      var p := Pack(a, b, c);
      UnpackPack(a, b, c);
      var t := Encode(s);
      AtChar64(t, 0, p.0);
      AtChar64(t, 1, p.1);
      if |s| > 1 { AtChar64(t, 2, p.2); } else { AtEnd(t, 2); }
      if |s| > 2 { AtChar64(t, 3, p.3); } else { AtEnd(t, 3); }
      AsciiCharOfByte(s[0]);
      if |s| > 1 { AsciiCharOfByte(s[1]); } else { AsciiZero(); }
      if |s| > 2 {
        AsciiCharOfByte(s[2]);
        assert t[4..] == Encode(s[3..]);
        DecodeEncode(s[3..]);
        assert [s[0], s[1], s[2]] + s[3..] == s;
      } else {
        AsciiZero();
        assert |s| == 1 ==> s == [s[0]];
        assert |s| == 2 ==> s == [s[0], s[1]];
      }
    }
  }

  lemma AtEnd(t: string, i: nat)
    requires i >= |t|
    ensures At(t, i) == Some(0)
  {
  }

  lemma AsciiZero()
    ensures AsciiChar(0).Some?
  {
  }

  // ---- the token of an offset

  const HEAD := "{\"offset\":"

  function OffsetJson(n: nat): string { HEAD + Dec(n) + "}" }

  function EncodePageToken(n: nat): string
  {
    OffsetJsonAscii(n);
    Encode(OffsetJson(n))
  }

  lemma OffsetJsonAscii(n: nat)
    ensures IsAscii(OffsetJson(n))
  {
    hide Numeral;
    forall i | 0 <= i < |Dec(n)| ensures Dec(n)[i] < '\U{0080}' { assert Dec(n)[i] in Dec(n); }
  }

  /** The offset in the JSON text of a token the service made itself. */
  function ParseOffset(s: string): Option<nat> {
    if |s| > |HEAD| + 1 && HEAD <= s && s[|s| - 1] == '}' && IsDecimal(s[|HEAD|..|s| - 1])
    then Some(DecValue(s[|HEAD|..|s| - 1])) else None
  }

  /** `foreign` is what lenient base64 and JSON parsing make of any other token: an offset, or none. */
  function ResolveOffset(token: Option<string>, offset: Option<nat>, foreign: string -> Option<nat>): nat {
    var fallback := if offset.Some? then offset.value else 0;
    if token.None? || token.value == "" then fallback
    else
      var own := Decode(token.value);
      if own.Some? && ParseOffset(own.value).Some? then ParseOffset(own.value).value
      else if foreign(token.value).Some? then foreign(token.value).value
      else fallback
  }

  /** Reading a page token gives back the offset it was made from, whatever else the request says. */
  lemma TokenRoundTrip(n: nat, offset: Option<nat>, foreign: string -> Option<nat>)
    ensures ResolveOffset(Some(EncodePageToken(n)), offset, foreign) == n
  {
    hide Decode, Encode, Numeral, NumeralValue;
    var s := OffsetJson(n);
    OffsetJsonAscii(n);
    EncodeNotEmpty(s);
    DecodeEncode(s);
    assert s[|HEAD|..|s| - 1] == Dec(n) && s[..|HEAD|] == HEAD;
    NumeralRoundTrip(n, 10);
  }

  lemma EncodeNotEmpty(s: string)
    requires IsAscii(s) && s != ""
    ensures Encode(s) != ""
  {
    hide Pack, Char64;
  }

  // ---- the encoding as RFC 4648 section 5 writes it

  /** The four base-64 digits of a group are those of its 24-bit number. */
  lemma GroupIsNumber(a: Octet, b: Octet, c: Octet)
    ensures var p := Pack(a, b, c);
      p.0 * 0x4_0000 + p.1 * 0x1000 + p.2 * 0x40 + p.3 == a * 0x1_0000 + b * 0x100 + c
  {
    assert a == a / 4 * 4 + a % 4 && b == b / 16 * 16 + b % 16 && c == c / 64 * 64 + c % 64;
  }

  /** The digits, in their order. */
  lemma DigitsWritten(v: nat)
    requires v < 64
    ensures v < 26 ==> Char64(v) == "ABCDEFGHIJKLMNOPQRSTUVWXYZ"[v]
    ensures 26 <= v < 52 ==> Char64(v) == "abcdefghijklmnopqrstuvwxyz"[v - 26]
    ensures 52 <= v ==> Char64(v) == "0123456789-_"[v - 52]
  {
  }

  /** The token of an offset is the base64url text of `{"offset":n}`; the first nine bytes never change. */
  lemma TokenWritten(n: nat)
    ensures IsAscii(":" + Dec(n) + "}")
    ensures EncodePageToken(n) == "eyJv" + ("ZmZz" + ("ZXQi" + Encode(":" + Dec(n) + "}")))
  {
    hide Numeral, Encode;
    OffsetJsonAscii(n);
    var rest := ":" + Dec(n) + "}";
    assert OffsetJson(n) == "{\"o" + ("ffs" + ("et\"" + rest));
    forall i | 0 <= i < |rest| ensures rest[i] < '\U{0080}' { assert OffsetJson(n)[9 + i] == rest[i]; }
    GroupsWritten();
    EncodeGroup("et\"", rest);
    EncodeGroup("ffs", "et\"" + rest);
    EncodeGroup("{\"o", "ffs" + ("et\"" + rest));
  }

  lemma GroupsWritten()
    ensures IsAscii("{\"o") && IsAscii("ffs") && IsAscii("et\"")
    ensures Group("{\"o") == "eyJv" && Group("ffs") == "ZmZz" && Group("et\"") == "ZXQi"
  {
  }

  function Group(s: string): string
    requires |s| == 3 && IsAscii(s)
  {
    var p := Pack(Byte(s[0]), Byte(s[1]), Byte(s[2]));
    [Char64(p.0), Char64(p.1), Char64(p.2), Char64(p.3)]
  }

  lemma EncodeGroup(s: string, rest: string)
    requires |s| == 3 && IsAscii(s) && IsAscii(rest)
    ensures IsAscii(s + rest) && Encode(s + rest) == Group(s) + Encode(rest)
  {
    hide Pack, Char64, Byte;
    assert (s + rest)[3..] == rest;
  }

  /** A request without a token starts at its offset, or at 0; a token the service did not make gives what lenient
      parsing finds in it, and otherwise is as good as none. */
  lemma OtherOffsets(token: Option<string>, offset: Option<nat>, foreign: string -> Option<nat>)
    ensures token == None || token == Some("") ==>
      ResolveOffset(token, offset, foreign) == if offset.Some? then offset.value else 0
    ensures token.Some? && token.value != ""
            && (Decode(token.value).None? || ParseOffset(Decode(token.value).value).None?) ==>
      ResolveOffset(token, offset, foreign) ==
        if foreign(token.value).Some? then foreign(token.value).value else ResolveOffset(None, offset, foreign)
  {
    hide Decode, ParseOffset;
  }
}
