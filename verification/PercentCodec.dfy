/** `encodeURIComponent` and `decodeURIComponent`. */
module PercentCodec {
  import opened Text

  type Octet = b: int | 0 <= b < 256

  predicate Unreserved(c: char) {
    'a' <= c <= 'z' || 'A' <= c <= 'Z' || '0' <= c <= '9' || c in "-_.!~*'()"
  }

  /** The UTF-8 bytes of a character. */
  function Utf8(c: char): seq<Octet> {
    var n := c as int;
    if n < 0x80 then [n]
    else if n < 0x800 then [0xc0 + n / 64, 0x80 + n % 64]
    else if n < 0x1_0000 then [0xe0 + n / 4096, 0x80 + n / 64 % 64, 0x80 + n % 64]
    else [0xf0 + n / 262144, 0x80 + n / 4096 % 64, 0x80 + n / 64 % 64, 0x80 + n % 64]
  }

  function UpperHex(v: int): (c: char)
    requires 0 <= v < 16
    ensures IsHexDigit(c) && DigitValue(c) == v && c != ':' && c != '%'
  {
    if v < 10 then '0' + v as char else 'A' + (v - 10) as char
  }

  function Percent(b: Octet): (s: string)
    ensures |s| == 3
  {
    ['%', UpperHex(b / 16), UpperHex(b % 16)]
  }

  function Percents(bs: seq<Octet>): string {
    if bs == [] then "" else Percent(bs[0]) + Percents(bs[1..])
  }

  function EncodeChar(c: char): string { if Unreserved(c) then [c] else Percents(Utf8(c)) }

  function Encode(s: string): string { if s == "" then "" else EncodeChar(s[0]) + Encode(s[1..]) }

  /** The byte written as `%XX` at the start of `s`. */
  function ByteAt(s: string): Option<Octet> {
    if |s| >= 3 && s[0] == '%' && IsHexDigit(s[1]) && IsHexDigit(s[2])
    then Some(DigitValue(s[1]) * 16 + DigitValue(s[2])) else None
  }

  /** The continuation byte at the start of `s`, as six bits. */
  function Continuation(s: string): Option<int> {
    var b := ByteAt(s);
    if b.Some? && 0x80 <= b.value < 0xc0 then Some(b.value - 0x80) else None
  }

  function CharOf(n: int, least: int): Option<char> {
    if least <= n && (0 <= n < 0xd800 || 0xe000 <= n < 0x11_0000) then Some(n as char) else None
  }

  /** One percent-encoded character at the start of `s`, and how much of `s` it takes. */
  function DecodeOne(s: string): (r: Option<(char, nat)>)
    ensures r.Some? ==> 0 < r.value.1 <= |s|
  {
    var b := ByteAt(s);
    if b.None? then None
    else if b.value < 0x80 then Some((b.value as char, 3))
    else
      var length := if 0xc0 <= b.value < 0xe0 then 2 else if 0xe0 <= b.value < 0xf0 then 3
                    else if 0xf0 <= b.value < 0xf8 then 4 else 0;
      if length == 0 || |s| < 3 * length then None
      else
        var x := Continuation(s[3..]);
        var y := if length >= 3 then Continuation(s[6..]) else Some(0);
        var z := if length == 4 then Continuation(s[9..]) else Some(0);
        if x.None? || y.None? || z.None? then None
        else
          var c := if length == 2 then CharOf((b.value - 0xc0) * 64 + x.value, 0x80)
                   else if length == 3 then CharOf((b.value - 0xe0) * 4096 + x.value * 64 + y.value, 0x800)
                   else CharOf((b.value - 0xf0) * 262144 + x.value * 4096 + y.value * 64 + z.value, 0x1_0000);
          if c.Some? then Some((c.value, 3 * length)) else None
  }

  /** It throws on a malformed sequence. */
  function Decode(s: string): Result<string> {
    if s == "" then Ok("")
    else if s[0] != '%' then
      var rest := Decode(s[1..]);
      if rest.Ok? then Ok([s[0]] + rest.value) else Throws
    else
      var one := DecodeOne(s);
      if one.None? then Throws
      else
        var rest := Decode(s[one.value.1..]);
        if rest.Ok? then Ok([one.value.0] + rest.value) else Throws
  }

  // ---- the round trip

  lemma PercentReads(b: Octet, rest: string)
    ensures ByteAt(Percent(b) + rest) == Some(b) && (Percent(b) + rest)[3..] == rest
  {
  }

  lemma ContinuationReads(v: int, rest: string)
    requires 0 <= v < 64
    ensures Continuation(Percent(0x80 + v) + rest) == Some(v)
  {
    PercentReads(0x80 + v, rest);
  }

  lemma PercentsOne(a: Octet)
    ensures Percents([a]) == Percent(a)
  {
    assert [a][1..] == [];
    assert Percent(a) + "" == Percent(a);
  }

  lemma PercentsPush(a: Octet, bs: seq<Octet>)
    ensures Percents([a] + bs) == Percent(a) + Percents(bs)
  {
    assert ([a] + bs)[1..] == bs;
  }

  lemma Base64Digits(n: nat)
    ensures n / 64 / 64 == n / 4096 && n / 4096 / 64 == n / 262144
    ensures n == n / 64 * 64 + n % 64
    ensures n == n / 4096 * 4096 + n / 64 % 64 * 64 + n % 64
    ensures n == n / 262144 * 262144 + n / 4096 % 64 * 4096 + n / 64 % 64 * 64 + n % 64
  {
  }

  lemma DecodeTwo(n: int, rest: string)
    requires 0x80 <= n < 0x800
    ensures DecodeOne(Percent(0xc0 + n / 64) + (Percent(0x80 + n % 64) + rest)) == Some((n as char, 6))
  {
    hide Percent, ByteAt, Continuation;
    PercentReads(0xc0 + n / 64, Percent(0x80 + n % 64) + rest);
    ContinuationReads(n % 64, rest);
    Base64Digits(n);
  }

  lemma ThreeByteChar(s: string, b: int, x: int, y: int, n: int)
    requires |s| >= 9 && ByteAt(s) == Some(0xe0 + b) && 0 <= b < 16
    requires Continuation(s[3..]) == Some(x) && Continuation(s[6..]) == Some(y)
    requires n == b * 4096 + x * 64 + y && CharOf(n, 0x800).Some?
    ensures DecodeOne(s) == Some((CharOf(n, 0x800).value, 9))
  {
    hide ByteAt, Continuation, CharOf;
  }

  lemma FourByteChar(s: string, b: int, x: int, y: int, z: int, n: int)
    requires |s| >= 12 && ByteAt(s) == Some(0xf0 + b) && 0 <= b < 8
    requires Continuation(s[3..]) == Some(x) && Continuation(s[6..]) == Some(y) && Continuation(s[9..]) == Some(z)
    requires n == b * 262144 + x * 4096 + y * 64 + z && CharOf(n, 0x1_0000).Some?
    ensures DecodeOne(s) == Some((CharOf(n, 0x1_0000).value, 12))
  {
    hide ByteAt, Continuation, CharOf;
  }

  lemma DecodeThree(n: int, rest: string)
    requires 0x800 <= n < 0x1_0000 && (n < 0xd800 || 0xe000 <= n)
    ensures DecodeOne(Percent(0xe0 + n / 4096) + (Percent(0x80 + n / 64 % 64) + (Percent(0x80 + n % 64) + rest)))
      == Some((n as char, 9))
  {
    hide Percent, ByteAt, Continuation, DecodeOne;
    var t := Percent(0x80 + n % 64) + rest;
    var s := Percent(0xe0 + n / 4096) + (Percent(0x80 + n / 64 % 64) + t);
    PercentReads(0xe0 + n / 4096, Percent(0x80 + n / 64 % 64) + t);
    PercentReads(0x80 + n / 64 % 64, t);
    ContinuationReads(n / 64 % 64, t);
    ContinuationReads(n % 64, rest);
    assert s[6..] == s[3..][3..] == t;
    Base64Digits(n);
    ThreeByteChar(s, n / 4096, n / 64 % 64, n % 64, n);
  }

  lemma DecodeFour(n: int, rest: string)
    requires 0x1_0000 <= n < 0x11_0000
    ensures DecodeOne(Percent(0xf0 + n / 262144) + (Percent(0x80 + n / 4096 % 64) +
      (Percent(0x80 + n / 64 % 64) + (Percent(0x80 + n % 64) + rest)))) == Some((n as char, 12))
  {
    hide Percent, ByteAt, Continuation, DecodeOne;
    var u := Percent(0x80 + n % 64) + rest;
    var t := Percent(0x80 + n / 64 % 64) + u;
    var s := Percent(0xf0 + n / 262144) + (Percent(0x80 + n / 4096 % 64) + t);
    PercentReads(0xf0 + n / 262144, Percent(0x80 + n / 4096 % 64) + t);
    PercentReads(0x80 + n / 4096 % 64, t);
    PercentReads(0x80 + n / 64 % 64, u);
    ContinuationReads(n / 4096 % 64, t);
    ContinuationReads(n / 64 % 64, u);
    ContinuationReads(n % 64, rest);
    assert s[6..] == s[3..][3..] == t;
    assert s[9..] == s[6..][3..] == u;
    Base64Digits(n);
    FourByteChar(s, n / 262144, n / 4096 % 64, n / 64 % 64, n % 64, n);
  }

  /** One encoded character reads back as itself and leaves what follows. */
  lemma EncodedCharReads(c: char, rest: string)
    requires !Unreserved(c)
    ensures var e := EncodeChar(c);
      |e| >= 3 && e[0] == '%' && DecodeOne(e + rest) == Some((c, |e|))
  {
    hide DecodeOne, Percent, Percents, ByteAt;
    var n := c as int;
    var bs := Utf8(c);
    PercentHead(bs[0]);
    if n < 0x80 {
      PercentsOne(n);
      AsciiReads(n, rest);
    } else if n < 0x800 {
      TwoPercents(bs[0], bs[1], rest);
      DecodeTwo(n, rest);
    } else if n < 0x1_0000 {
      ThreePercents(bs[0], bs[1], bs[2], rest);
      DecodeThree(n, rest);
    } else {
      FourPercents(bs[0], bs[1], bs[2], bs[3], rest);
      DecodeFour(n, rest);
    }
  }

  lemma PercentHead(b: Octet)
    ensures Percent(b)[0] == '%'
  {
  }

  lemma AsciiReads(n: int, rest: string)
    requires 0 <= n < 0x80
    ensures DecodeOne(Percent(n) + rest) == Some((n as char, 3))
  {
    hide Percent;
    PercentReads(n, rest);
  }

  lemma TwoPercents(a: Octet, b: Octet, rest: string)
    ensures Percents([a, b]) + rest == Percent(a) + (Percent(b) + rest) && |Percents([a, b])| == 6
    ensures Percents([a, b])[0] == Percent(a)[0]
  {
    hide Percent;
    PercentsOne(b);
    PercentsPush(a, [b]);
    assert [a] + [b] == [a, b];
  }

  lemma ThreePercents(a: Octet, b: Octet, c: Octet, rest: string)
    ensures Percents([a, b, c]) + rest == Percent(a) + (Percent(b) + (Percent(c) + rest)) && |Percents([a, b, c])| == 9
    ensures Percents([a, b, c])[0] == Percent(a)[0]
  {
    hide Percent;
    TwoPercents(b, c, rest);
    PercentsPush(a, [b, c]);
    assert [a] + [b, c] == [a, b, c];
    assert Percent(a) + Percents([b, c]) + rest == Percent(a) + (Percents([b, c]) + rest);
  }

  lemma FourPercents(a: Octet, b: Octet, c: Octet, d: Octet, rest: string)
    ensures Percents([a, b, c, d]) + rest == Percent(a) + (Percent(b) + (Percent(c) + (Percent(d) + rest)))
    ensures |Percents([a, b, c, d])| == 12 && Percents([a, b, c, d])[0] == Percent(a)[0]
  {
    hide Percent;
    ThreePercents(b, c, d, rest);
    PercentsPush(a, [b, c, d]);
    assert [a] + [b, c, d] == [a, b, c, d];
    assert Percent(a) + Percents([b, c, d]) + rest == Percent(a) + (Percents([b, c, d]) + rest);
  }

  /** Decoding undoes encoding, for every text. */
  lemma {:induction false} DecodeEncode(s: string)
    ensures Decode(Encode(s)) == Ok(s)
  {
    hide DecodeOne, Percents, Utf8;
    if s != "" {
      var c, rest := s[0], Encode(s[1..]);
      DecodeEncode(s[1..]);
      assert [c] + s[1..] == s;
      var e := EncodeChar(c);
      if Unreserved(c) {
        assert (e + rest)[1..] == rest;
      } else {
        EncodedCharReads(c, rest);
        assert (e + rest)[|e|..] == rest;
      }
    }
  }

  /** Percent-encoding leaves no colon. */
  lemma {:induction false} EncodeHasNoColon(s: string)
    ensures ':' !in Encode(s) && (s != "" ==> Encode(s) != "")
  {
    hide Utf8;
    if s != "" {
      EncodeHasNoColon(s[1..]);
      PercentsHaveNoColon(Utf8(s[0]));
      Utf8NotEmpty(s[0]);
    }
  }

  lemma Utf8NotEmpty(c: char)
    ensures Utf8(c) != []
  {
  }

  lemma {:induction false} PercentsHaveNoColon(bs: seq<Octet>)
    ensures ':' !in Percents(bs) && (bs != [] ==> Percents(bs) != "")
  {
    if bs != [] { PercentsHaveNoColon(bs[1..]); }
  }

  /** Letters, digits and nine marks are left as they are; everything else is written byte by byte, in capitals. */
  lemma CharsWritten(c: char)
    ensures 'a' <= c <= 'z' || 'A' <= c <= 'Z' || '0' <= c <= '9' ==> EncodeChar(c) == [c]
    ensures c == '-' || c == '_' || c == '.' || c == '~' || c == '!' || c == '*' || c == '(' || c == ')' ==>
      EncodeChar(c) == [c]
    ensures c == '\'' ==> EncodeChar(c) == [c]
    ensures EncodeChar(' ') == "%20" && EncodeChar('%') == "%25" && EncodeChar('&') == "%26"
    ensures EncodeChar('+') == "%2B" && EncodeChar('/') == "%2F" && EncodeChar(':') == "%3A" && EncodeChar('=') == "%3D"
    ensures EncodeChar('\U{00E4}') == "%C3" + "%A4" && EncodeChar('\U{20AC}') == "%E2" + "%82" + "%AC"
  {
    hide Utf8, Unreserved, Percent, Percents;
    PercentsWritten();
    Spelled(' ');
    Spelled('%');
    Spelled('&');
    Spelled('+');
    Spelled('/');
    Spelled(':');
    Spelled('=');
    LongSpelled();
    LeftAlone(c);
  }

  lemma LeftAlone(c: char)
    ensures 'a' <= c <= 'z' || 'A' <= c <= 'Z' || '0' <= c <= '9' ==> Unreserved(c)
    ensures c == '-' || c == '_' || c == '.' || c == '~' ==> Unreserved(c)
    ensures c == '!' || c == '*' || c == '(' || c == ')' ==> Unreserved(c)
    ensures c == '\'' ==> Unreserved(c)
  {
  }

  lemma Spelled(c: char)
    requires c < '\U{0080}' && c in " %&+/:="
    ensures EncodeChar(c) == Percent(c as int)
  {
    hide Percent, Percents;
    PercentsOne(c as int);
  }

  lemma LongSpelled()
    ensures EncodeChar('\U{00E4}') == Percent(0xc3) + Percent(0xa4)
    ensures EncodeChar('\U{20AC}') == Percent(0xe2) + Percent(0x82) + Percent(0xac)
  {
    hide Percent, Percents;
    PercentsOne(0xa4);
    PercentsOne(0xac);
    PercentsPush(0xc3, [0xa4]);
    PercentsPush(0x82, [0xac]);
    PercentsPush(0xe2, [0x82, 0xac]);
    assert Utf8('\U{00E4}') == [0xc3] + [0xa4];
    assert Utf8('\U{20AC}') == [0xe2] + [0x82, 0xac] && [0x82, 0xac] == [0x82] + [0xac];
    assert Percent(0xe2) + (Percent(0x82) + Percent(0xac)) == Percent(0xe2) + Percent(0x82) + Percent(0xac);
  }

  lemma PercentsWritten()
    ensures Percent(0x20) == "%20" && Percent(0x25) == "%25" && Percent(0x26) == "%26" && Percent(0x2b) == "%2B"
    ensures Percent(0x2f) == "%2F" && Percent(0x3a) == "%3A" && Percent(0x3d) == "%3D"
    ensures Percent(0xc3) == "%C3" && Percent(0xa4) == "%A4" && Percent(0xe2) == "%E2"
    ensures Percent(0x82) == "%82" && Percent(0xac) == "%AC"
  {
  }
}
