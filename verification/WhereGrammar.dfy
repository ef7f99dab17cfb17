/** Joining conditions into text and parsing the text back gives the same condition tree. */
module WhereGrammar {
  import opened Text
  import opened WhereText

  /** Every space of `p` outside parentheses and literals is followed, within `p`, by a character
      that cannot continue an occurrence of `sep`. */
  ghost predicate Clear(p: string, m: Mode, sep: string)
    requires |sep| > 0
  {
    p == "" ||
    ((m == TOP && p[0] == ' ' ==> |sep| > 1 && |p| > 1 && p[1] != sep[1])
     && Clear(p[1..], Step(m, p[0]), sep))
  }

  lemma {:induction false} ScanConcat(a: string, b: string, m: Mode)
    ensures Scan(a + b, m) == Scan(b, Scan(a, m))
  {
    if a == "" {
      assert a + b == b;
    } else {
      assert (a + b)[1..] == a[1..] + b;
      ScanConcat(a[1..], b, Step(m, a[0]));
    }
  }

  lemma {:induction false} ClearConcat(a: string, b: string, m: Mode, sep: string)
    requires |sep| > 0 && Clear(a, m, sep) && Clear(b, Scan(a, m), sep)
    ensures Clear(a + b, m, sep)
  {
    if a == "" {
      assert a + b == b;
    } else {
      assert (a + b)[1..] == a[1..] + b;
      ClearConcat(a[1..], b, Step(m, a[0]), sep);
    }
  }

  lemma {:induction false} SplitTopPiece(p: string, rest: string, sep: string, m: Mode, acc: string)
    requires |sep| > 0 && sep[0] == ' ' && Clear(p, m, sep)
    ensures SplitTop(p + rest, sep, m, acc) == SplitTop(rest, sep, Scan(p, m), acc + p)
    decreases |p|
  {
    if p == "" {
      assert p + rest == rest && acc + p == acc;
    } else {
      assert (p + rest)[1..] == p[1..] + rest;
      assert acc + [p[0]] + p[1..] == acc + p;
      SplitTopPiece(p[1..], rest, sep, Step(m, p[0]), acc + [p[0]]);
    }
  }

  /** A separator of top-level operands: at least one character between its two outer spaces. */
  ghost predicate Operand(p: string, sep: string)
    requires |sep| > 0
  {
    Scan(p, TOP) == TOP && Clear(p, TOP, sep)
  }

  lemma {:induction false} SplitTopJoin(parts: seq<string>, sep: string)
    requires parts != [] && |sep| > 0 && sep[0] == ' '
    requires forall p <- parts :: Operand(p, sep)
    ensures SplitTop(Join(parts, sep), sep, TOP, "") == parts
  {
    hide Scan, Clear;
    var p := parts[0];
    assert p in parts && "" + p == p;
    if |parts| == 1 {
      assert p + "" == p;
      SplitTopPiece(p, "", sep, TOP, "");
    } else {
      var rest := Join(parts[1..], sep);
      assert p + sep + rest == p + (sep + rest);
      SplitTopPiece(p, sep + rest, sep, TOP, "");
      assert (sep + rest)[|sep|..] == rest;
      SplitTopJoin(parts[1..], sep);
    }
  }

  // ---- operands of AND and OR

  /** `s` stands on its own between the connectives and parses to `e`. */
  ghost predicate Unit(s: string, e: Expr, leaf: Leaves) {
    s != "" && s[0] !in "AO" && Operand(s, " OR ") && Operand(s, " AND ") && ParsePrim(s, leaf, |s|) == Some(e)
  }

  ghost predicate Units(parts: seq<string>, es: seq<Expr>, leaf: Leaves) {
    |parts| == |es| && forall i :: 0 <= i < |parts| ==> Unit(parts[i], es[i], leaf)
  }

  lemma {:induction false} UnitsParse(parts: seq<string>, es: seq<Expr>, leaf: Leaves, n: nat)
    requires Units(parts, es, leaf) && forall p <- parts :: |p| <= n
    ensures ParsePrims(parts, leaf, n) == Some(es)
    decreases |parts|
  {
    if parts != [] {
      PrimBound(parts[0], leaf, n);
      UnitsParse(parts[1..], es[1..], leaf, n);
      assert es == [es[0]] + es[1..];
    }
  }

  /** The bound only serves termination. */
  lemma PrimBound(s: string, leaf: Leaves, n: nat)
    requires |s| <= n
    ensures ParsePrim(s, leaf, n) == ParsePrim(s, leaf, |s|)
  {
  }

  /** A unit is a conjunction of one. */
  lemma UnitParsesAnd(p: string, e: Expr, leaf: Leaves, n: nat)
    requires Unit(p, e, leaf) && |p| <= n
    ensures ParseAnd(p, leaf, n) == Some(e)
  {
    SplitTopJoin([p], " AND ");
    assert Units([p], [e], leaf);
    UnitsParse([p], [e], leaf, n);
  }

  lemma {:induction false} UnitsParseAnd(parts: seq<string>, es: seq<Expr>, leaf: Leaves, n: nat)
    requires Units(parts, es, leaf) && forall p <- parts :: |p| <= n
    ensures ParseAnds(parts, leaf, n) == Some(es)
    decreases |parts|
  {
    hide Operand, ParsePrim, ParsePrims, SplitTop, ParseAnd, Unit;
    if parts != [] {
      UnitParsesAnd(parts[0], es[0], leaf, n);
      UnitsParseAnd(parts[1..], es[1..], leaf, n);
      assert es == [es[0]] + es[1..];
    }
  }

  lemma {:induction false} ScanJoin(parts: seq<string>, sep: string)
    requires parts != [] && Scan(sep, TOP) == TOP && forall p <- parts :: Scan(p, TOP) == TOP
    ensures Scan(Join(parts, sep), TOP) == TOP
  {
    if |parts| > 1 {
      ScanJoin(parts[1..], sep);
      ScanConcat(parts[0], sep, TOP);
      ScanConcat(parts[0] + sep, Join(parts[1..], sep), TOP);
    }
  }

  /** AND-joined operands hold no top-level OR. */
  lemma {:induction false} AndClearOfOr(parts: seq<string>, es: seq<Expr>, leaf: Leaves)
    requires parts != [] && Units(parts, es, leaf)
    ensures Join(parts, " AND ") != "" && Join(parts, " AND ")[0] == parts[0][0]
    ensures Clear(Join(parts, " AND "), TOP, " OR ")
  {
    hide ParsePrim, SplitTop;
    if |parts| > 1 {
      AndClearOfOr(parts[1..], es[1..], leaf);
      var rest := Join(parts[1..], " AND ");
      assert Unit(parts[1], es[1], leaf);
      AndTail(rest);
      ClearConcat(parts[0], " AND " + rest, TOP, " OR ");
      assert Join(parts, " AND ") == parts[0] + (" AND " + rest);
    }
  }

  lemma AndTail(rest: string)
    requires rest != "" && rest[0] != 'O' && Clear(rest, TOP, " OR ")
    ensures Clear(" AND " + rest, TOP, " OR ")
  {
    hide Scan, Clear;
    AndWord();
    SpaceBefore(rest, " OR ");
    ClearConcat(" AND", " " + rest, TOP, " OR ");
    assert " AND " + rest == " AND" + (" " + rest);
  }

  lemma AndWord()
    ensures Scan(" AND", TOP) == TOP && Clear(" AND", TOP, " OR ")
  {
    ScanBland(" AND", TOP);
    BlandClear("AND", TOP, " OR ");
    assert " AND"[1..] == "AND";
  }

  lemma SpaceBefore(rest: string, sep: string)
    requires |sep| > 1 && rest != "" && rest[0] != sep[1] && Clear(rest, TOP, sep)
    ensures Scan(" " + rest, TOP) == Scan(rest, TOP) && Clear(" " + rest, TOP, sep)
  {
    assert (" " + rest)[1..] == rest;
  }

  lemma {:induction false} PartsFit(parts: seq<string>, sep: string)
    ensures forall p <- parts :: |p| <= |Join(parts, sep)|
  {
    if |parts| > 1 { PartsFit(parts[1..], sep); }
  }

  /** What the connectives need of a unit's text. */
  lemma UnitsOperands(parts: seq<string>, es: seq<Expr>, leaf: Leaves)
    requires Units(parts, es, leaf)
    ensures forall p <- parts :: Operand(p, " OR ") && Operand(p, " AND ") && Scan(p, TOP) == TOP
  {
    hide ParsePrim, Scan, Clear;
    forall p | p in parts ensures Operand(p, " OR ") && Operand(p, " AND ") {
      var i :| 0 <= i < |parts| && parts[i] == p;
      assert Unit(parts[i], es[i], leaf);
    }
  }

  lemma AndParses(parts: seq<string>, es: seq<Expr>, leaf: Leaves)
    requires parts != [] && Units(parts, es, leaf)
    ensures ParseAnd(Join(parts, " AND "), leaf, |Join(parts, " AND ")|) == Some(MkAll(es))
  {
    hide Clear, Scan, Operand, SplitTop, Join, Unit;
    UnitsOperands(parts, es, leaf);
    SplitTopJoin(parts, " AND ");
    PartsFit(parts, " AND ");
    UnitsParse(parts, es, leaf, |Join(parts, " AND ")|);
  }

  lemma JoinOne(s: string, sep: string)
    ensures Join([s], sep) == s
  {
  }

  /** A text with no top-level OR is one disjunct. */
  lemma SingleDisjunct(s: string, e: Expr, leaf: Leaves)
    requires Operand(s, " OR ") && ParseAnd(s, leaf, |s|) == Some(e)
    ensures ParseOr(s, leaf) == Some(e)
  {
    hide Scan, Clear, SplitTop, Join, ParseAnd;
    SplitTopJoin([s], " OR ");
    JoinOne(s, " OR ");
    var parts := [s];
    assert parts[1..] == [];
    assert ParseAnds([], leaf, |s|) == Some([]);
    assert [e] + [] == [e];
  }

  /** Conditions joined with AND parse back to their conjunction, whatever stands inside each. */
  lemma AndTextParses(parts: seq<string>, es: seq<Expr>, leaf: Leaves)
    requires parts != [] && Units(parts, es, leaf)
    ensures ParseOr(Join(parts, " AND "), leaf) == Some(MkAll(es))
  {
    hide Clear, Unit, ParseAnd, ParseOr, Join, SplitTop, MkAll;
    ScanBland(" AND ", TOP);
    UnitsOperands(parts, es, leaf);
    ScanJoin(parts, " AND ");
    AndClearOfOr(parts, es, leaf);
    AndParses(parts, es, leaf);
    SingleDisjunct(Join(parts, " AND "), MkAll(es), leaf);
  }

  function Deeper(m: Mode): Mode {
    match m
    case Plain(d) => Plain(d + 1)
    case Quoted(d) => Quoted(d + 1)
    case Escaped(d) => Escaped(d + 1)
    case Broken => Broken
  }

  /** Inside one more pair of parentheses a balanced text scans the same way, never at top level. */
  lemma {:induction false} ScanDeeper(s: string, m: Mode, sep: string)
    requires |sep| > 0 && Scan(s, m) != Broken
    ensures Scan(s, Deeper(m)) == Deeper(Scan(s, m)) && Clear(s, Deeper(m), sep)
    decreases |s|
  {
    if s != "" {
      if Step(m, s[0]) == Broken { StuckBroken(s[1..]); }
      ScanDeeper(s[1..], Step(m, s[0]), sep);
    }
  }

  lemma {:induction false} StuckBroken(s: string)
    ensures Scan(s, Broken) == Broken
  {
    if s != "" { StuckBroken(s[1..]); }
  }

  /** A balanced text in parentheses has no separator at top level. */
  lemma GroupOperand(inner: string, sep: string)
    requires |sep| > 0 && Scan(inner, TOP) == TOP
    ensures Operand("(" + inner + ")", sep)
  {
    hide SplitTop;
    var g := "(" + inner + ")";
    assert g[1..] == inner + ")";
    ScanDeeper(inner, TOP, sep);
    ScanConcat(inner, ")", Plain(1));
    assert ")"[1..] == "";
    assert Scan(")", Plain(1)) == TOP && Clear(")", Plain(1), sep);
    ClearConcat(inner, ")", Plain(1), sep);
  }

  lemma OrParses(parts: seq<string>, es: seq<Expr>, leaf: Leaves)
    requires parts != [] && Units(parts, es, leaf)
    ensures Scan(Join(parts, " OR "), TOP) == TOP && ParseOr(Join(parts, " OR "), leaf) == Some(MkAny(es))
  {
    hide Clear, Unit, ParseAnd, Join, SplitTop, MkAny;
    ScanBland(" OR ", TOP);
    UnitsOperands(parts, es, leaf);
    ScanJoin(parts, " OR ");
    SplitTopJoin(parts, " OR ");
    PartsFit(parts, " OR ");
    UnitsParseAnd(parts, es, leaf, |Join(parts, " OR ")|);
  }

  lemma ParenthesesGroup(inner: string, leaf: Leaves)
    ensures ParsePrim("(" + inner + ")", leaf, |inner| + 2) == ParseOr(inner, leaf)
  {
    hide ParseOr;
    var g := "(" + inner + ")";
    assert g[1..|g| - 1] == inner;
  }

  /** Parenthesised alternatives parse back to their disjunction and stand as one operand. */
  lemma GroupParses(parts: seq<string>, es: seq<Expr>, leaf: Leaves)
    requires parts != [] && Units(parts, es, leaf)
    ensures Unit("(" + Join(parts, " OR ") + ")", MkAny(es), leaf)
  {
    hide Operand, ParseOr, ParsePrim, Join, Scan, MkAny;
    OrParses(parts, es, leaf);
    GroupOperand(Join(parts, " OR "), " OR ");
    GroupOperand(Join(parts, " OR "), " AND ");
    ParenthesesGroup(Join(parts, " OR "), leaf);
  }

  // ---- leaves

  /** No parenthesis, quote or backslash. */
  predicate Tame(w: string) { forall c <- w :: c != '(' && c != ')' && c != '\'' && c != '\\' }

  /** Tame and without a space. */
  predicate Bland(w: string) { Tame(w) && ' ' !in w }

  lemma {:induction false} ScanBland(w: string, m: Mode)
    requires Tame(w) && (m.Plain? || m.Quoted?)
    ensures Scan(w, m) == m
  {
    if w != "" {
      assert w[0] in w;
      assert forall c <- w[1..] :: c in w;
      ScanBland(w[1..], m);
    }
  }

  lemma {:induction false} BlandClear(w: string, m: Mode, sep: string)
    requires |sep| > 0 && Tame(w) && (m.Quoted? || (m.Plain? && ' ' !in w))
    ensures Clear(w, m, sep)
  {
    if w != "" {
      assert w[0] in w;
      assert forall c <- w[1..] :: c in w;
      BlandClear(w[1..], m, sep);
    }
  }

  /** A word: balanced, with no space at top level. */
  ghost predicate Word(w: string) { Operand(w, " ") }

  lemma {:induction false} WordClear(w: string, m: Mode, sep: string)
    requires |sep| > 0 && Clear(w, m, " ")
    ensures Clear(w, m, sep)
  {
    if w != "" { WordClear(w[1..], Step(m, w[0]), sep); }
  }

  lemma WordConcat(a: string, b: string)
    requires Word(a) && Word(b)
    ensures Word(a + b)
  {
    ScanConcat(a, b, TOP);
    ClearConcat(a, b, TOP, " ");
  }

  lemma BlandWord(w: string)
    requires Bland(w)
    ensures Word(w)
  {
    ScanBland(w, TOP);
    BlandClear(w, TOP, " ");
  }

  /** A quoted tame key is a word. */
  lemma QuotedWord(k: string)
    requires Tame(k)
    ensures Word("'" + k + "'")
  {
    var q := "'" + k + "'";
    assert q[1..] == k + "'";
    ScanBland(k, Quoted(0));
    BlandClear(k, Quoted(0), " ");
    assert "'"[1..] == "";
    assert Scan("'", Quoted(0)) == TOP && Clear("'", Quoted(0), " ");
    ScanConcat(k, "'", Quoted(0));
    ClearConcat(k, "'", Quoted(0), " ");
  }
}
