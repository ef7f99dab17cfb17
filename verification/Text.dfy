/** Text as the service handles it: JavaScript's character classes, case folding on ASCII,
    split and join, and numerals in base 10 and 16. */
module Text {

  datatype Option<+T> = None | Some(value: T)

  /** A computation that may throw. */
  datatype Result<+T> = Ok(value: T) | Throws

  predicate IsDigit(c: char) { '0' <= c <= '9' }

  predicate IsHexDigit(c: char) { '0' <= c <= '9' || 'a' <= c <= 'f' || 'A' <= c <= 'F' }

  /** What `\s` matches and `trim` removes in JavaScript. */
  predicate IsSpace(c: char) {
    '\t' <= c <= '\r' || c == ' ' || c == '\U{00A0}' || c == '\U{1680}' || '\U{2000}' <= c <= '\U{200A}'
    || c == '\U{2028}' || c == '\U{2029}' || c == '\U{202F}' || c == '\U{205F}' || c == '\U{3000}'
    || c == '\U{FEFF}'
  }

  /** The white space of ECMAScript by its code points. */
  lemma SpacesAre(c: char)
    ensures IsSpace(c) <==>
      c as int in {9, 10, 11, 12, 13, 32, 160, 5760, 8192, 8193, 8194, 8195, 8196, 8197, 8198, 8199, 8200, 8201, 8202,
                   8232, 8233, 8239, 8287, 12288, 65279}
  {
  }

  /** What `.` does not match in JavaScript. */
  predicate IsLineTerminator(c: char) { c == '\n' || c == '\r' || c == '\U{2028}' || c == '\U{2029}' }

  lemma LineTerminatorsAre(c: char)
    ensures IsLineTerminator(c) <==> c as int in {10, 13, 8232, 8233}
  {
  }

  function LowerChar(c: char): char { if 'A' <= c <= 'Z' then c - 'A' + 'a' else c }

  function Lower(s: string): (r: string)
    ensures |r| == |s| && forall i :: 0 <= i < |s| ==> r[i] == LowerChar(s[i])
  {
    seq(|s|, i requires 0 <= i < |s| => LowerChar(s[i]))
  }

  lemma LowerConcat(a: string, b: string)
    ensures Lower(a + b) == Lower(a) + Lower(b)
  {
  }

  /** ASCII letters are folded and nothing else is. */
  lemma LowerLetters(c: char)
    ensures 'A' <= c <= 'Z' ==> LowerChar(c) as int == c as int + 32
    ensures c < 'A' || 'Z' < c ==> LowerChar(c) == c
  {
  }

  /** `a` occurs in `s` at some position. */
  predicate Contains(s: string, a: string) {
    exists i :: 0 <= i <= |s| && a <= s[i..]
  }

  predicate EndsWith(s: string, a: string) { |a| <= |s| && s[|s| - |a|..] == a }

  lemma EndsWithIff(s: string, a: string)
    ensures EndsWith(s, a) <==> exists front :: s == front + a
  {
    if EndsWith(s, a) { assert s == s[..|s| - |a|] + a; }
  }

  function LeadingSpaces(s: string): (n: nat)
    ensures n <= |s| && (n < |s| ==> !IsSpace(s[n])) && forall i :: 0 <= i < n ==> IsSpace(s[i])
  {
    if s == "" || !IsSpace(s[0]) then 0 else 1 + LeadingSpaces(s[1..])
  }

  /** The length of `s` without its trailing spaces. */
  function TrimmedLength(s: string): (n: nat)
    ensures n <= |s| && (n > 0 ==> !IsSpace(s[n - 1])) && forall i :: n <= i < |s| ==> IsSpace(s[i])
  {
    if s == "" || !IsSpace(s[|s| - 1]) then |s| else TrimmedLength(s[..|s| - 1])
  }

  function TrimStart(s: string): string { s[LeadingSpaces(s)..] }

  function TrimEnd(s: string): string { s[..TrimmedLength(s)] }

  function Trim(s: string): (r: string) { TrimEnd(TrimStart(s)) }

  /** White space in front is taken off, and nothing else. */
  lemma {:induction false} BlankSkipped(blank: string, s: string)
    requires (forall c <- blank :: IsSpace(c)) && s != "" && !IsSpace(s[0])
    ensures TrimStart(blank + s) == s
  {
    hide IsSpace;
    if blank == "" {
      assert blank + s == s;
    } else {
      assert blank[0] in blank && (forall c <- blank[1..] :: c in blank) && (blank + s)[1..] == blank[1..] + s;
      BlankSkipped(blank[1..], s);
    }
  }

  // ---- split and join

  /** JavaScript's `s.split(sep)` for a non-empty separator. */
  function SplitOn(s: string, sep: string): (r: seq<string>)
    requires sep != ""
    ensures |r| >= 1
  {
    if s == "" then [""]
    else if sep <= s then [""] + SplitOn(s[|sep|..], sep)
    else
      var rest := SplitOn(s[1..], sep);
      [[s[0]] + rest[0]] + rest[1..]
  }

  function Join(parts: seq<string>, sep: string): string {
    if |parts| == 0 then ""
    else if |parts| == 1 then parts[0]
    else parts[0] + sep + Join(parts[1..], sep)
  }

  /** No occurrence of `sep` starts inside `p` when `p` is followed by `sep`. */
  ghost predicate Free(p: string, sep: string) {
    forall i :: 0 <= i < |p| ==> !(sep <= (p + sep)[i..])
  }

  lemma {:induction false} SplitHead(p: string, sep: string, rest: string)
    requires sep != "" && Free(p, sep)
    ensures SplitOn(p + sep + rest, sep) == [p] + SplitOn(rest, sep)
    decreases |p|
  {
    var s := p + sep + rest;
    if p == "" {
      assert s[|sep|..] == rest;
    } else {
      assert !(sep <= (p + sep)[0..]);
      assert s[..|sep|] == (p + sep)[..|sep|];
      assert (p + sep)[0..] == p + sep;
      assert !(sep <= s);
      assert s[1..] == p[1..] + sep + rest;
      assert Free(p[1..], sep) by {
        forall i | 0 <= i < |p[1..]| ensures !(sep <= (p[1..] + sep)[i..]) {
          assert (p[1..] + sep)[i..] == (p + sep)[i + 1..];
        }
      }
      SplitHead(p[1..], sep, rest);
      assert [p[0]] + p[1..] == p;
      assert SplitOn(s, sep) == [[s[0]] + p[1..]] + SplitOn(rest, sep);
    }
  }

  lemma {:induction false} SplitNone(p: string, sep: string)
    requires sep != "" && forall i :: 0 <= i < |p| ==> !(sep <= p[i..])
    ensures SplitOn(p, sep) == [p]
    decreases |p|
  {
    if p != "" {
      assert p[0..] == p;
      forall i | 0 <= i < |p[1..]| ensures !(sep <= p[1..][i..]) {
        assert p[1..][i..] == p[i + 1..];
      }
      SplitNone(p[1..], sep);
      assert [p[0]] + p[1..] == p;
    }
  }

  /** Splitting what was joined with a one-character separator that no part contains. */
  lemma {:induction false} SplitJoin(parts: seq<string>, c: char)
    requires parts != [] && forall p :: p in parts ==> c !in p
    ensures SplitOn(Join(parts, [c]), [c]) == parts
  {
    var p := parts[0];
    if |parts| == 1 {
      forall i | 0 <= i < |p| ensures !([c] <= p[i..]) {
        assert p[i] in p;
      }
      SplitNone(p, [c]);
    } else {
      FreeChar(p, c);
      SplitJoin(parts[1..], c);
      SplitHead(p, [c], Join(parts[1..], [c]));
    }
  }

  lemma FreeChar(p: string, c: char)
    requires c !in p
    ensures Free(p, [c])
  {
    forall i | 0 <= i < |p| ensures !([c] <= (p + [c])[i..]) {
      assert (p + [c])[i..][0] == p[i] && p[i] in p;
    }
  }

  /** Joining what was split gives the text back. */
  lemma {:induction false} JoinSplit(s: string, sep: string)
    requires sep != ""
    ensures Join(SplitOn(s, sep), sep) == s
    decreases |s|
  {
    hide Join;
    if s == "" {
      JoinSingle("", sep);
    } else if sep <= s {
      JoinSplit(s[|sep|..], sep);
      JoinPrefix("", SplitOn(s[|sep|..], sep), sep);
      assert s == "" + sep + s[|sep|..];
    } else {
      JoinSplit(s[1..], sep);
      JoinHead([s[0]], SplitOn(s[1..], sep), sep);
      assert s == [s[0]] + s[1..];
    }
  }

  lemma JoinSingle(p: string, sep: string)
    ensures Join([p], sep) == p
  {
  }

  lemma JoinPrefix(p: string, parts: seq<string>, sep: string)
    requires parts != []
    ensures Join([p] + parts, sep) == p + sep + Join(parts, sep)
  {
    assert ([p] + parts)[1..] == parts;
  }

  lemma JoinHead(p: string, parts: seq<string>, sep: string)
    requires parts != []
    ensures Join([p + parts[0]] + parts[1..], sep) == p + Join(parts, sep)
  {
    assert ([p + parts[0]] + parts[1..])[1..] == parts[1..];
    if |parts| > 1 {
      assert p + parts[0] + sep + Join(parts[1..], sep) == p + (parts[0] + sep + Join(parts[1..], sep));
    }
  }

  lemma {:induction false} JoinConcat(a: seq<string>, b: seq<string>, sep: string)
    requires a != [] && b != []
    ensures Join(a + b, sep) == Join(a, sep) + sep + Join(b, sep)
  {
    if |a| > 1 {
      assert (a + b)[1..] == a[1..] + b;
      JoinConcat(a[1..], b, sep);
    } else {
      assert (a + b)[1..] == b;
    }
  }

  // ---- numerals

  function DigitValue(c: char): (v: nat)
    requires IsHexDigit(c)
    ensures v < 16 && (IsDigit(c) ==> v < 10)
  {
    if IsDigit(c) then (c - '0') as nat
    else if 'a' <= c <= 'f' then (c - 'a') as nat + 10
    else (c - 'A') as nat + 10
  }

  function DigitChar(v: nat): (c: char)
    requires v < 16
    ensures IsHexDigit(c) && DigitValue(c) == v && (v < 10 <==> IsDigit(c)) && !('A' <= c <= 'F')
  {
    if v < 10 then '0' + v as char else 'a' + (v - 10) as char
  }

  /** `n.toString(b)`. */
  function Numeral(n: nat, b: nat): (s: string)
    requires b == 10 || b == 16
    ensures s != "" && forall c <- s :: IsHexDigit(c) && !('A' <= c <= 'F') && (b == 10 ==> IsDigit(c))
  {
    if n < b then [DigitChar(n)] else Numeral(n / b, b) + [DigitChar(n % b)]
  }

  /** `parseInt(s, b)` on a string of digits of that base. */
  function NumeralValue(s: string, b: nat): nat
    requires b == 10 || b == 16
    requires forall c <- s :: IsHexDigit(c)
  {
    if s == "" then 0 else NumeralValue(s[..|s| - 1], b) * b + DigitValue(s[|s| - 1])
  }

  lemma {:induction false} NumeralRoundTrip(n: nat, b: nat)
    requires b == 10 || b == 16
    ensures NumeralValue(Numeral(n, b), b) == n
  {
    var s := Numeral(n, b);
    if n < b {
      assert s[..|s| - 1] == "";
    } else {
      assert s[..|s| - 1] == Numeral(n / b, b);
      NumeralRoundTrip(n / b, b);
    }
  }

  /** The last digit of a numeral and the rest. */
  lemma NumeralLast(n: nat, b: nat)
    requires b == 10 || b == 16
    ensures n < b ==> Numeral(n, b) == [DigitChar(n)]
    ensures n >= b ==> Numeral(n, b) == Numeral(n / b, b) + [DigitChar(n % b)]
  {
  }

  lemma NumeralInjective(m: nat, n: nat, b: nat)
    requires b == 10 || b == 16
    requires Numeral(m, b) == Numeral(n, b)
    ensures m == n
  {
    NumeralRoundTrip(m, b);
    NumeralRoundTrip(n, b);
  }

  /** A numeral has no leading zero, except the numeral of zero. */
  lemma {:induction false} NumeralNoLeadingZero(n: nat, b: nat)
    requires b == 10 || b == 16
    ensures Numeral(n, b)[0] == '0' <==> n == 0
    ensures n == 0 ==> Numeral(n, b) == "0"
  {
    if n >= b { NumeralNoLeadingZero(n / b, b); }
  }

  function Dec(n: nat): string { Numeral(n, 10) }

  predicate IsDecimal(s: string) { s != "" && forall c <- s :: IsDigit(c) }

  function DecValue(s: string): nat
    requires forall c <- s :: IsDigit(c)
  {
    assert forall c <- s :: IsDigit(c) ==> IsHexDigit(c);
    NumeralValue(s, 10)
  }
}
