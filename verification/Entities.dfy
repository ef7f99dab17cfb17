/** Decoding HTML entities: five replacement passes, and the single scan they amount to. */
module Entities {
  import opened Text

  datatype Entity = Apos | Quot | Gt | Lt | Amp

  function Spelling(e: Entity): string {
    match e
    case Apos => "&#x27;"
    case Quot => "&quot;"
    case Gt => "&gt;"
    case Lt => "&lt;"
    case Amp => "&amp;"
  }

  function Letter(e: Entity): char {
    match e
    case Apos => '\''
    case Quot => '"'
    case Gt => '>'
    case Lt => '<'
    case Amp => '&'
  }

  /** `s.replace(/e/g, c)`: occurrences from left to right, none inside another. */
  function ReplaceAll(s: string, e: Entity): string {
    if s == "" then ""
    else if Spelling(e) <= s then [Letter(e)] + ReplaceAll(s[|Spelling(e)|..], e)
    else [s[0]] + ReplaceAll(s[1..], e)
  }

  function DecodeHtml(input: string): string {
    ReplaceAll(ReplaceAll(ReplaceAll(ReplaceAll(ReplaceAll(input, Apos), Quot), Gt), Lt), Amp)
  }

  /** The entity of a given kind that a text starts with. */
  function Starts(s: string, kinds: set<Entity>): Option<Entity> {
    if Apos in kinds && Spelling(Apos) <= s then Some(Apos)
    else if Quot in kinds && Spelling(Quot) <= s then Some(Quot)
    else if Gt in kinds && Spelling(Gt) <= s then Some(Gt)
    else if Lt in kinds && Spelling(Lt) <= s then Some(Lt)
    else if Amp in kinds && Spelling(Amp) <= s then Some(Amp)
    else None
  }

  /** One scan that decodes each entity of the given kinds once and never looks at what it wrote. */
  function Scan(s: string, kinds: set<Entity>): string {
    if s == "" then ""
    else
      var e := Starts(s, kinds);
      if e.Some? then [Letter(e.value)] + Scan(s[|Spelling(e.value)|..], kinds) else [s[0]] + Scan(s[1..], kinds)
  }

  const ALL: set<Entity> := {Apos, Quot, Gt, Lt, Amp}

  // ---- spellings

  /** An ampersand, then no letter any entity stands for; the second character tells the kinds apart. */
  lemma SpellingFacts(e: Entity)
    ensures |Spelling(e)| >= 4 && Spelling(e)[0] == '&'
    ensures forall i :: 0 < i < |Spelling(e)| ==> Spelling(e)[i] != '&'
    ensures forall i :: 0 <= i < |Spelling(e)| ==> Spelling(e)[i] !in {'\'', '"', '>', '<'}
    ensures Spelling(e)[1] ==
      if e.Apos? then '#' else if e.Quot? then 'q' else if e.Gt? then 'g' else if e.Lt? then 'l' else 'a'
  {
  }

  lemma OneKindStarts(s: string, e: Entity, f: Entity)
    requires Spelling(e) <= s && Spelling(f) <= s
    ensures e == f
  {
    hide Spelling;
    SpellingFacts(e);
    SpellingFacts(f);
    assert s[1] == Spelling(e)[1] == Spelling(f)[1];
  }

  lemma StartsIs(s: string, kinds: set<Entity>, e: Entity)
    ensures Starts(s, kinds) == Some(e) <==> e in kinds && Spelling(e) <= s
  {
    hide Spelling;
    if e in kinds && Spelling(e) <= s {
      forall f | f in kinds && Spelling(f) <= s ensures f == e { OneKindStarts(s, e, f); }
    }
  }

  lemma StartsMore(s: string, kinds: set<Entity>, k: Entity)
    requires !(Spelling(k) <= s)
    ensures Starts(s, kinds + {k}) == Starts(s, kinds)
  {
    hide Spelling;
  }

  lemma OnlyAmpersandStarts(s: string, kinds: set<Entity>)
    requires s == "" || s[0] != '&'
    ensures Starts(s, kinds).None?
  {
    hide Spelling;
    SpellingFacts(Apos);
    SpellingFacts(Quot);
    SpellingFacts(Gt);
    SpellingFacts(Lt);
    SpellingFacts(Amp);
  }

  // ---- what a scan leaves alone

  predicate Plain(u: string) { forall c <- u :: c !in {'\'', '"', '>', '<'} }

  /** If the output of a scan that leaves ampersands alone starts with a text free of decoded letters,
      the input starts with it too, and the scan passed over it. */
  lemma {:induction false} PlainOutput(s: string, kinds: set<Entity>, u: string)
    requires Amp !in kinds && Plain(u) && u <= Scan(s, kinds)
    ensures u <= s && Scan(s, kinds) == u + Scan(s[|u|..], kinds)
    decreases |u|
  {
    hide Spelling;
    if u == "" {
      assert s[0..] == s;
    } else {
      var e := Starts(s, kinds);
      assert u[0] in u && Scan(s, kinds)[0] == u[0];
      assert e.None?;
      assert Scan(s, kinds)[1..] == Scan(s[1..], kinds);
      assert u[1..] <= Scan(s[1..], kinds);
      forall c | c in u[1..] ensures c in u { }
      PlainOutput(s[1..], kinds, u[1..]);
      assert u == [u[0]] + u[1..] && s[1..][|u[1..]|..] == s[|u|..];
    }
  }

  /** A scan passes over the characters before the next ampersand. */
  lemma {:induction false} NoAmpersandPasses(u: string, rest: string, kinds: set<Entity>)
    requires forall c <- u :: c != '&'
    ensures Scan(u + rest, kinds) == u + Scan(rest, kinds)
  {
    hide Starts;
    if u == "" {
      assert u + rest == rest;
    } else {
      assert u[0] in u && (forall c <- u[1..] :: c in u) && (u + rest)[1..] == u[1..] + rest;
      OnlyAmpersandStarts(u + rest, kinds);
      NoAmpersandPasses(u[1..], rest, kinds);
    }
  }

  /** A scan passes over an entity of a kind it does not decode. */
  lemma OtherEntityPasses(s: string, kinds: set<Entity>, k: Entity)
    requires k !in kinds && Spelling(k) <= s
    ensures Scan(s, kinds) == Spelling(k) + Scan(s[|Spelling(k)|..], kinds)
  {
    hide Spelling, Starts;
    SpellingFacts(k);
    NoneStarts(s, kinds, k);
    var u, rest := Spelling(k)[1..], s[|Spelling(k)|..];
    assert s[1..] == u + rest;
    forall c | c in u ensures c != '&' { var i :| 0 <= i < |u| && u[i] == c; assert Spelling(k)[i + 1] == c; }
    NoAmpersandPasses(u, rest, kinds);
    assert Spelling(k) == [s[0]] + u;
  }

  lemma NoneStarts(s: string, kinds: set<Entity>, k: Entity)
    requires k !in kinds && Spelling(k) <= s
    ensures Starts(s, kinds).None?
  {
    hide Starts;
    if Starts(s, kinds).Some? {
      var e := Starts(s, kinds).value;
      StartsIs(s, kinds, e);
      OneKindStarts(s, e, k);
    }
  }

  // ---- passes are one scan

  /** One more pass over a scan that has not touched ampersands is one scan for one more kind. */
  lemma {:induction false} PassJoinsScan(s: string, kinds: set<Entity>, k: Entity)
    requires Amp !in kinds && k !in kinds
    ensures ReplaceAll(Scan(s, kinds), k) == Scan(s, kinds + {k})
    decreases |s|
  {
    hide Spelling, Starts;
    if s != "" {
      SpellingFacts(k);
      var t := Scan(s, kinds);
      if Spelling(k) <= s {
        OtherEntityPasses(s, kinds, k);
        var rest := s[|Spelling(k)|..];
        StartsIs(s, kinds + {k}, k);
        PassJoinsScan(rest, kinds, k);
        assert t[|Spelling(k)|..] == Scan(rest, kinds);
      } else {
        StartsMore(s, kinds, k);
        NoNewEntity(s, kinds, k);
        var e := Starts(s, kinds);
        if e.Some? {
          SpellingFacts(e.value);
          StartsIs(s, kinds, e.value);
          PassJoinsScan(s[|Spelling(e.value)|..], kinds, k);
          assert t[1..] == Scan(s[|Spelling(e.value)|..], kinds);
        } else {
          PassJoinsScan(s[1..], kinds, k);
          assert t[1..] == Scan(s[1..], kinds);
        }
      }
    }
  }

  /** A scan that leaves ampersands alone makes no entity that was not there. */
  lemma NoNewEntity(s: string, kinds: set<Entity>, k: Entity)
    requires Amp !in kinds && !(Spelling(k) <= s)
    ensures !(Spelling(k) <= Scan(s, kinds))
  {
    hide Spelling, Starts, Scan;
    SpellingFacts(k);
    if Spelling(k) <= Scan(s, kinds) { PlainOutput(s, kinds, Spelling(k)); }
  }

  /** Any passes, each kind at most once and the ampersand last if at all, are one scan. */
  lemma {:induction false} PassesAreOneScan(s: string, order: seq<Entity>)
    requires forall i, j :: 0 <= i < j < |order| ==> order[i] != order[j] && order[i] != Amp
    ensures Passes(s, order) == Scan(s, Kinds(order))
    decreases |order|
  {
    hide ReplaceAll;
    if order == [] {
      assert Kinds(order) == {};
      ScanNothing(s);
    } else {
      var front, k := order[..|order| - 1], order[|order| - 1];
      PassesAreOneScan(s, front);
      assert Kinds(order) == Kinds(front) + {k} by { assert order == front + [k]; }
      PassJoinsScan(s, Kinds(front), k);
    }
  }

  function Passes(s: string, order: seq<Entity>): string {
    if order == [] then s else ReplaceAll(Passes(s, order[..|order| - 1]), order[|order| - 1])
  }

  function Kinds(order: seq<Entity>): set<Entity> { set e | e in order }

  lemma {:induction false} ScanNothing(s: string)
    ensures Scan(s, {}) == s
  {
    if s != "" {
      ScanNothing(s[1..]);
      assert s == [s[0]] + s[1..];
    }
  }

  /** The five passes decode each entity once, as a single scan does. */
  lemma DecodeIsOneScan(s: string)
    ensures DecodeHtml(s) == Scan(s, ALL)
  {
    hide ReplaceAll, Scan;
    ScanNothing(s);
    PassJoinsScan(s, {}, Apos);
    PassJoinsScan(s, {Apos}, Quot);
    PassJoinsScan(s, {Apos, Quot}, Gt);
    PassJoinsScan(s, {Apos, Quot, Gt}, Lt);
    PassJoinsScan(s, {Apos, Quot, Gt, Lt}, Amp);
    assert {} + {Apos} == {Apos} && {Apos} + {Quot} == {Apos, Quot};
    assert {Apos, Quot} + {Gt} == {Apos, Quot, Gt} && {Apos, Quot, Gt} + {Lt} == {Apos, Quot, Gt, Lt};
    assert {Apos, Quot, Gt, Lt} + {Amp} == ALL;
  }

  // ---- escaping

  function EscapeChar(c: char): string {
    if c == '&' then "&amp;"
    else if c == '<' then "&lt;"
    else if c == '>' then "&gt;"
    else if c == '"' then "&quot;"
    else if c == '\'' then "&#x27;"
    else [c]
  }

  lemma EscapeSpelled(e: Entity)
    ensures EscapeChar(Letter(e)) == Spelling(e)
  {
  }

  function Escape(s: string): string { if s == "" then "" else EscapeChar(s[0]) + Escape(s[1..]) }

  lemma ScanEscaped(c: char, rest: string)
    ensures Scan(EscapeChar(c) + rest, ALL) == [c] + Scan(rest, ALL)
  {
    hide Spelling, Starts;
    var s := EscapeChar(c) + rest;
    if c in {'&', '<', '>', '"', '\''} {
      var e :=
        if c == '&' then Amp else if c == '<' then Lt else if c == '>' then Gt else if c == '"' then Quot else Apos;
      EscapeSpelled(e);
      SpellingFacts(e);
      StartsIs(s, ALL, e);
      assert s[|Spelling(e)|..] == rest;
    } else {
      OnlyAmpersandStarts(s, ALL);
      assert s[1..] == rest;
    }
  }

  /** Decoding undoes character-wise escaping, on every text, escaped entities included. */
  lemma {:induction false} DecodeUndoesEscape(s: string)
    ensures DecodeHtml(Escape(s)) == s
  {
    hide DecodeHtml, Scan, EscapeChar;
    DecodeIsOneScan(Escape(s));
    if s == "" {
      EmptyScan();
    } else {
      DecodeUndoesEscape(s[1..]);
      DecodeIsOneScan(Escape(s[1..]));
      ScanEscaped(s[0], Escape(s[1..]));
      assert s == [s[0]] + s[1..];
    }
  }

  lemma EmptyScan()
    ensures Scan("", ALL) == ""
  {
  }

  // ---- why the ampersand pass comes last

  const OTHERS: set<Entity> := {Apos, Quot, Gt, Lt}

  /** The same passes with the ampersand's first. */
  function AmpersandFirst(s: string): string { Passes(ReplaceAll(s, Amp), [Apos, Quot, Gt, Lt]) }

  /** Escaping all but the ampersand. */
  function HalfChar(c: char): string { if c == '&' then "&" else EscapeChar(c) }

  function Half(s: string): string { if s == "" then "" else HalfChar(s[0]) + Half(s[1..]) }

  lemma SpecialChar(c: char) returns (e: Entity)
    requires c in {'<', '>', '"', '\''}
    ensures e in OTHERS && EscapeChar(c) == Spelling(e) && Letter(e) == c
  {
    e := if c == '<' then Lt else if c == '>' then Gt else if c == '"' then Quot else Apos;
  }

  lemma {:induction false} AmpersandPassHalves(s: string)
    ensures Scan(Escape(s), {Amp}) == Half(s)
  {
    hide Spelling, Starts;
    if s != "" {
      var c, rest := s[0], Escape(s[1..]);
      AmpersandPassHalves(s[1..]);
      var t := EscapeChar(c) + rest;
      if c == '&' {
        EscapeSpelled(Amp);
        SpellingFacts(Amp);
        StartsIs(t, {Amp}, Amp);
        assert t[|Spelling(Amp)|..] == rest;
      } else if c in {'<', '>', '"', '\''} {
        var e := SpecialChar(c);
        OtherEntityPasses(t, {Amp}, e);
        assert t[|Spelling(e)|..] == rest;
      } else {
        NoAmpersandPasses([c], rest, {Amp});
      }
    }
  }

  lemma {:induction false} HalfKeeps(u: string, rest: string)
    requires Plain(u)
    ensures Half(u + rest) == u + Half(rest)
  {
    hide HalfChar;
    if u == "" {
      assert u + rest == rest;
    } else {
      assert u[0] in u && (forall c <- u[1..] :: c in u);
      assert (u + rest)[0] == u[0] && (u + rest)[1..] == u[1..] + rest;
      OrdinaryChar(u[0]);
      HalfKeeps(u[1..], rest);
      assert [u[0]] + (u[1..] + Half(rest)) == u + Half(rest);
    }
  }

  lemma {:induction false} HalfShows(s: string, u: string)
    requires Plain(u) && (forall c <- u :: c != '&') && u <= Half(s)
    ensures u <= s
    decreases |u|
  {
    hide Spelling;
    if u != "" {
      var c := s[0];
      assert u[0] in u && Half(s)[0] == u[0];
      if c in {'<', '>', '"', '\''} {
        var e := SpecialChar(c);
        SpellingFacts(e);
      }
      assert HalfChar(c) == [c] && Half(s)[1..] == Half(s[1..]);
      assert forall x <- u[1..] :: x in u;
      HalfShows(s[1..], u[1..]);
      assert u == [u[0]] + u[1..];
    }
  }

  /** After the ampersand pass an escaped text decodes as the text itself would. */
  lemma {:induction false} HalfScans(s: string)
    ensures Scan(Half(s), OTHERS) == Scan(s, OTHERS)
    decreases |s|
  {
    hide Spelling, Starts, EscapeChar;
    if s != "" {
      var c, t := s[0], Half(s);
      var e := Starts(s, OTHERS);
      if e.Some? {
        StartsIs(s, OTHERS, e.value);
        SpellingFacts(e.value);
        EntityHalves(s, e.value);
        StartsIs(t, OTHERS, e.value);
        HalfScans(s[|Spelling(e.value)|..]);
      } else if c in {'<', '>', '"', '\''} {
        var k := SpecialChar(c);
        SpellingFacts(k);
        StartsIs(t, OTHERS, k);
        assert t[|Spelling(k)|..] == Half(s[1..]);
        HalfScans(s[1..]);
      } else {
        NoneStartsHalf(s);
        assert t[0] == c && t[1..] == Half(s[1..]) by { OrdinaryChar(c); }
        HalfScans(s[1..]);
      }
    }
  }

  lemma OrdinaryChar(c: char)
    requires c !in {'<', '>', '"', '\''}
    ensures HalfChar(c) == [c]
  {
  }

  lemma EntityHalves(s: string, e: Entity)
    requires Spelling(e) <= s
    ensures var rest := s[|Spelling(e)|..]; Half(s) == Spelling(e) + Half(rest)
    ensures Spelling(e) <= Half(s) && Half(s)[|Spelling(e)|..] == Half(s[|Spelling(e)|..])
  {
    hide Spelling;
    SpellingFacts(e);
    var u, rest := Spelling(e), s[|Spelling(e)|..];
    assert s == u + rest;
    forall c | c in u ensures c !in {'\'', '"', '>', '<'} { var i :| 0 <= i < |u| && u[i] == c; }
    HalfKeeps(u, rest);
  }

  lemma NoneStartsHalf(s: string)
    requires s != "" && s[0] !in {'<', '>', '"', '\''} && Starts(s, OTHERS).None?
    ensures Starts(Half(s), OTHERS).None?
  {
    hide Spelling, Starts;
    OrdinaryChar(s[0]);
    var t := Half(s);
    if Starts(t, OTHERS).Some? {
      var e := Starts(t, OTHERS).value;
      StartsIs(t, OTHERS, e);
      SpellingFacts(e);
      var u := Spelling(e)[1..];
      forall c | c in u ensures c !in {'\'', '"', '>', '<'} && c != '&' {
        var i :| 0 <= i < |u| && u[i] == c;
        assert Spelling(e)[i + 1] == c;
      }
      assert u <= Half(s[1..]) by { assert t[1..] == Half(s[1..]) && u == t[1..][..|u|]; }
      HalfShows(s[1..], u);
      assert Spelling(e) <= s by { assert Spelling(e) == [s[0]] + u && s == [s[0]] + s[1..]; }
      StartsIs(s, OTHERS, e);
    }
  }

  /** A scan changes a text exactly when some entity of its kinds stands in it. */
  lemma {:induction false} ScanFixes(s: string, kinds: set<Entity>)
    ensures |Scan(s, kinds)| <= |s|
    ensures Scan(s, kinds) == s <==> forall i :: 0 <= i < |s| ==> Starts(s[i..], kinds).None?
    decreases |s|
  {
    hide Spelling, Starts;
    if s != "" {
      assert s[0..] == s;
      var e := Starts(s, kinds);
      if e.Some? {
        SpellingFacts(e.value);
        StartsIs(s, kinds, e.value);
        ScanFixes(s[|Spelling(e.value)|..], kinds);
      } else {
        ScanFixes(s[1..], kinds);
        forall i | 1 <= i < |s| ensures s[i..] == s[1..][i - 1..] { }
        assert Scan(s, kinds)[1..] == Scan(s[1..], kinds);
        if Scan(s[1..], kinds) == s[1..] {
          assert s == [s[0]] + s[1..];
          forall i | 0 <= i < |s| ensures Starts(s[i..], kinds).None? {
            if i > 0 { assert s[i..] == s[1..][i - 1..]; }
          }
        } else {
          var j :| 0 <= j < |s[1..]| && Starts(s[1..][j..], kinds).Some?;
          assert s[j + 1..] == s[1..][j..];
        }
      }
    }
  }

  /** With the ampersand pass first, decoding undoes escaping exactly on the texts in which no other
      entity is spelled out: on the rest it decodes twice. */
  lemma AmpersandFirstUndoesIff(s: string)
    ensures AmpersandFirst(Escape(s)) == s <==> forall i :: 0 <= i < |s| ==> Starts(s[i..], OTHERS).None?
  {
    hide Spelling, Starts, Scan, ReplaceAll, Passes, Kinds;
    var order := [Apos, Quot, Gt, Lt];
    assert Kinds(order) == OTHERS by { KindsOfOthers(); }
    ScanNothing(Escape(s));
    PassJoinsScan(Escape(s), {}, Amp);
    assert {} + {Amp} == {Amp};
    AmpersandPassHalves(s);
    PassesAreOneScan(Half(s), order);
    HalfScans(s);
    ScanFixes(s, OTHERS);
  }

  lemma KindsOfOthers()
    ensures Kinds([Apos, Quot, Gt, Lt]) == OTHERS
  {
    var order := [Apos, Quot, Gt, Lt];
    assert order[0] == Apos && order[1] == Quot && order[2] == Gt && order[3] == Lt;
  }

  /** So the order matters: an escaped `&lt;` comes back as `<`. */
  lemma AmpersandFirstDecodesTwice()
    ensures AmpersandFirst(Escape("&lt;")) != "&lt;" && DecodeHtml(Escape("&lt;")) == "&lt;"
  {
    hide AmpersandFirst, Escape, DecodeHtml;
    AmpersandFirstUndoesIff("&lt;");
    DecodeUndoesEscape("&lt;");
    assert "&lt;"[0..] == Spelling(Lt);
    StartsIs("&lt;"[0..], OTHERS, Lt);
  }
}
