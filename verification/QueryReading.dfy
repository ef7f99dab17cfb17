/** What the parts of a query mean when they are written out: the text a query becomes, the cells its filters
    look at, the words and forms its free text is searched by. */
module QueryReading {
  import opened Text
  import opened LikePattern
  import opened WhereText
  import opened QuerySpec
  import opened QueryCompiler

  // ---- the text

  /** A comparison as it stands in the text. */
  function Comparison(column: string, op: string, param: string): string {
    column + " " + op + " " + ("{" + param + ":String}")
  }

  lemma NameTexts()
    ensures NameText(NTeam) == "teamId" && NameText(NSource) == "sourceId"
    ensures NameText(NStart) == "startTime" && NameText(NEnd) == "endTime"
    ensures NameText(NFilter(0)) == "f0" && NameText(NFilter(1)) == "f1" && NameText(NFilter(2)) == "f2"
    ensures NameText(NFilter(3)) == "f3" && NameText(NFilter(4)) == "f4"
  {
  }

  /** Names and operators as the database knows them. */
  lemma LeafWritten(p: string)
    ensures LeafSql(TeamId, Eq, p) == Comparison("team_id", "=", p)
    ensures LeafSql(SourceId, Eq, p) == Comparison("source_id", "=", p)
    ensures LeafSql(Timestamp, Ge, p) == Comparison("timestamp", ">=", p)
    ensures LeafSql(Timestamp, Le, p) == Comparison("timestamp", "<=", p)
  {
  }

  lemma FilterWritten(p: string, c: Column, op: Op)
    ensures c.Level? && op.Eq? ==> LeafSql(c, op, p) == Comparison("level", "=", p)
    ensures c.Service? && op.Neq? ==> LeafSql(c, op, p) == Comparison("service", "!=", p)
    ensures c.Host? && op.ILikeOp? ==> LeafSql(c, op, p) == Comparison("host", "ILIKE", p)
    ensures c.Message? && op.Gt? ==> LeafSql(c, op, p) == Comparison("message", ">", p)
    ensures c.Message? && op.ILikeOp? ==> LeafSql(c, op, p) == Comparison("message", "ILIKE", p)
    ensures c.Service? && op.ILikeOp? ==> LeafSql(c, op, p) == Comparison("service", "ILIKE", p)
    ensures c == Field("env") && op.Lt? ==> LeafSql(c, op, p) == Comparison("fields['" + "env" + "']", "<", p)
  {
    hide ColumnName;
    assert ColumnName(Level) == "level" && ColumnName(Service) == "service" by { NamesWritten(); }
    assert ColumnName(Host) == "host" && ColumnName(Message) == "message" by { NamesWritten(); }
  }

  lemma NamesWritten()
    ensures ColumnName(Level) == "level" && ColumnName(Service) == "service"
    ensures ColumnName(Host) == "host" && ColumnName(Message) == "message"
  {
  }

  /** One filter of each operator, on each kind of column. */
  predicate OneOfEach(fs: seq<LogFilter>) {
    && |fs| == 5
    && fs[0].field == "level" && fs[0].operator.FEq?
    && fs[1].field == "service" && fs[1].operator.FNeq?
    && fs[2].field == "host" && fs[2].operator.FContains?
    && fs[3].field == "message" && fs[3].operator.FGt?
    && fs[4].field == "Env!" && fs[4].operator.FLt?
  }

  lemma ColumnsOfEach(fs: seq<LogFilter>)
    requires OneOfEach(fs)
    ensures FilterColumn(fs[0]) == Some(Level) && FilterColumn(fs[1]) == Some(Service)
    ensures FilterColumn(fs[2]) == Some(Host) && FilterColumn(fs[3]) == Some(Message)
    ensures FilterColumn(fs[4]) == Some(Field("env"))
  {
    assert SEARCHABLE[0] == "level" && SEARCHABLE[1] == "service";
    assert SEARCHABLE[2] == "host" && SEARCHABLE[3] == "message";
    assert Sanitize("Env!") == "env" by { SanitizeEnv(); }
    assert "Env!" !in SEARCHABLE by { assert |"Env!"| == 4 && "Env!"[0] == 'E' && "host"[0] == 'h'; }
    hide Sanitize;
  }

  lemma SanitizeEnv()
    ensures Sanitize("Env!") == "env"
  {
    hide Sanitize;
    assert "Env!" == "E" + ("n" + ("v" + "!"));
    SanitizeConcat("E", "n" + ("v" + "!"));
    SanitizeConcat("n", "v" + "!");
    SanitizeConcat("v", "!");
    SanitizeOne('E'); SanitizeOne('n'); SanitizeOne('v'); SanitizeOne('!');
    assert ['E'] == "E" && ['n'] == "n" && ['v'] == "v" && ['!'] == "!";
    assert ('E' as int + 32) as char == 'e';
  }

  lemma FiveExprs(fs: seq<LogFilter>)
    requires |fs| == 5 && forall i :: 0 <= i < 5 ==> FilterColumn(fs[i]).Some?
    ensures FilterExprs(fs, 5) == [FilterExpr(fs[0], 0).value, FilterExpr(fs[1], 1).value, FilterExpr(fs[2], 2).value,
                                   FilterExpr(fs[3], 3).value, FilterExpr(fs[4], 4).value]
  {
    hide FilterColumn, NameText;
    assert FilterExprs(fs, 1) == [FilterExpr(fs[0], 0).value];
    assert FilterExprs(fs, 2) == FilterExprs(fs, 1) + [FilterExpr(fs[1], 1).value];
    assert FilterExprs(fs, 3) == FilterExprs(fs, 2) + [FilterExpr(fs[2], 2).value];
    assert FilterExprs(fs, 4) == FilterExprs(fs, 3) + [FilterExpr(fs[3], 3).value];
  }

  lemma ExprWritten(f: LogFilter, i: nat, c: Column, p: string)
    requires FilterColumn(f) == Some(c) && NameText(NFilter(i)) == p
    ensures FilterExpr(f, i) == Some(Leaf(c, OpOf(f.operator), p))
  {
    hide FilterColumn, NameText;
  }

  lemma OperatorsOfEach(fs: seq<LogFilter>)
    requires OneOfEach(fs)
    ensures |fs| == 5 && fs[0].operator.FEq? && fs[1].operator.FNeq? && fs[2].operator.FContains?
    ensures fs[3].operator.FGt? && fs[4].operator.FLt?
  {
  }

  lemma FiltersOfEach(fs: seq<LogFilter>)
    requires OneOfEach(fs)
    ensures Sqls(FilterExprs(fs, 5)) ==
      [Comparison("level", "=", "f0"), Comparison("service", "!=", "f1"), Comparison("host", "ILIKE", "f2"),
       Comparison("message", ">", "f3"), Comparison("fields['" + "env" + "']", "<", "f4")]
  {
    ColumnsOfEach(fs);
    NameTexts();
    hide FilterColumn, NameText, LeafSql, Comparison, OneOfEach, FilterExprs, FilterExpr;
    OperatorsOfEach(fs);
    FiveExprs(fs);
    ExprWritten(fs[0], 0, Level, "f0");
    ExprWritten(fs[1], 1, Service, "f1");
    ExprWritten(fs[2], 2, Host, "f2");
    ExprWritten(fs[3], 3, Message, "f3");
    ExprWritten(fs[4], 4, Field("env"), "f4");
    FilterWritten("f0", Level, Eq);
    FilterWritten("f1", Service, Neq);
    FilterWritten("f2", Host, ILikeOp);
    FilterWritten("f3", Message, Gt);
    FilterWritten("f4", Field("env"), Lt);
  }

  /** The conditions, in order, of a query with a source, both bounds and one filter of each operator; the
      WHERE text is these with AND between them. */
  lemma WhereWritten(q: Query)
    requires Given(q.sourceId) && Given(q.startTime) && Given(q.endTime) && OneOfEach(q.filters) && !Searches(q)
    ensures CondSqls(q) ==
      [Comparison("team_id", "=", "teamId"), Comparison("source_id", "=", "sourceId"),
       Comparison("timestamp", ">=", "startTime"), Comparison("timestamp", "<=", "endTime"),
       Comparison("level", "=", "f0"), Comparison("service", "!=", "f1"), Comparison("host", "ILIKE", "f2"),
       Comparison("message", ">", "f3"), Comparison("fields['" + "env" + "']", "<", "f4")]
  {
    hide FilterExprs, TokenSqls, NameText, LeafSql, Comparison, OneOfEach;
    OperatorsOfEach(q.filters);
    FiltersOfEach(q.filters);
    NameTexts();
    LeafWritten("teamId"); LeafWritten("sourceId"); LeafWritten("startTime"); LeafWritten("endTime");
    assert TokenSqls([]) == [];
  }

  /** The group one form of a token becomes. */
  lemma VariantWritten(p: string)
    ensures VariantSql(p) ==
      "(" + Comparison("message", "ILIKE", p) + " OR " + Comparison("service", "ILIKE", p) + " OR "
      + Comparison("host", "ILIKE", p) + ")"
  {
    hide LeafSql, Comparison;
    FilterWritten(p, Message, ILikeOp);
    FilterWritten(p, Service, ILikeOp);
    FilterWritten(p, Host, ILikeOp);
  }

  // ---- the cells

  /** What a filter on a column compares, with each operator written out: it says the same of a row whatever
      the value is, a number or a string. */
  predicate Compares(cell: string, op: FilterOp, v: string) {
    match op
    case FEq => cell == v
    case FNeq => cell != v
    case FGt => Below(v, cell)
    case FLt => Below(cell, v)
    case FContains => ILike(cell, "%" + v + "%")
  }

  lemma FilterLooksAt(f: LogFilter, row: Row, w: World)
    ensures f.field == "level" ==> (FilterHolds(f, row, w) <==> Compares(row.level, f.operator, ValueString(f.value)))
    ensures f.field == "service" ==>
      (FilterHolds(f, row, w) <==> Compares(row.service, f.operator, ValueString(f.value)))
    ensures f.field == "host" ==> (FilterHolds(f, row, w) <==> Compares(row.host, f.operator, ValueString(f.value)))
    ensures f.field == "message" ==>
      (FilterHolds(f, row, w) <==> Compares(row.message, f.operator, ValueString(f.value)))
  {
    hide ILike, Below, Sanitize;
    assert SEARCHABLE[0] == "level" && SEARCHABLE[1] == "service";
    assert SEARCHABLE[2] == "host" && SEARCHABLE[3] == "message";
  }

  /** Any other field is looked up in the row's map under its lower-cased letters, digits, `_` and `-`; an absent
      entry reads as empty, and a field with none of these characters asks nothing. */
  lemma OtherFieldLooksUp(f: LogFilter, row: Row, w: World)
    requires f.field != "level" && f.field != "service" && f.field != "host" && f.field != "message"
    requires f.field != "__pattern"
    ensures Sanitize(f.field) == "" ==> FilterHolds(f, row, w)
    ensures Sanitize(f.field) != "" ==>
      (FilterHolds(f, row, w) <==>
         Compares(if Sanitize(f.field) in row.fields then row.fields[Sanitize(f.field)] else "", f.operator,
                  ValueString(f.value)))
  {
    hide ILike, Below, Sanitize;
  }

  /** A pattern filter compares the message signature with the lower-cased value, and has no order. */
  lemma PatternLooksAt(f: LogFilter, row: Row, w: World)
    requires f.field == "__pattern"
    ensures FilterHolds(f, row, w) <==>
      f.operator.FGt? || f.operator.FLt? || Compares(w.sig(row.message), f.operator, Lower(ValueString(f.value)))
  {
    hide ILike, Below, Sanitize, Lower;
  }

  /** `Below` is the order of strings: a proper prefix, or the smaller character where they first differ. */
  ghost predicate FirstDifference(a: string, b: string, k: nat) {
    k <= |a| && k < |b| && a[..k] == b[..k] && (k == |a| || a[k] < b[k])
  }

  lemma LaterDifference(a: string, b: string, k: nat)
    requires FirstDifference(a, b, k)
    ensures k > 0 ==> a != "" && b != "" && a[0] == b[0]
  {
    if k > 0 { assert a[..k][0] == a[0] && b[..k][0] == b[0]; }
  }

  lemma {:induction false} BelowIsLexicographic(a: string, b: string)
    ensures Below(a, b) <==> exists k: nat :: FirstDifference(a, b, k)
  {
    if a == "" || b == "" || a[0] != b[0] {
      if k: nat :| FirstDifference(a, b, k) { LaterDifference(a, b, k); }
      if Below(a, b) { assert FirstDifference(a, b, 0); }
    } else {
      BelowIsLexicographic(a[1..], b[1..]);
      if k: nat :| FirstDifference(a[1..], b[1..], k) {
        assert a[..k + 1] == [a[0]] + a[1..][..k] && b[..k + 1] == [b[0]] + b[1..][..k];
        assert FirstDifference(a, b, k + 1);
      }
      if k: nat :| FirstDifference(a, b, k) {
        assert a[1..][..k - 1] == a[..k][1..] && b[1..][..k - 1] == b[..k][1..];
        assert FirstDifference(a[1..], b[1..], k - 1);
      }
    }
  }

  // ---- words and tokens

  lemma {:induction false} SanitizeConcat(a: string, b: string)
    ensures Sanitize(a + b) == Sanitize(a) + Sanitize(b)
  {
    if a == "" {
      assert a + b == b;
    } else {
      assert (a + b)[1..] == a[1..] + b;
      SanitizeConcat(a[1..], b);
    }
  }

  /** Sanitising works character by character: capitals are lowered, small letters, digits, `_` and `-` stay, and
      everything else goes. */
  lemma SanitizeOne(c: char)
    ensures 'A' <= c <= 'Z' ==> Sanitize([c]) == [(c as int + 32) as char]
    ensures 'a' <= c <= 'z' || '0' <= c <= '9' || c == '_' || c == '-' ==> Sanitize([c]) == [c]
    ensures !('A' <= c <= 'Z' || 'a' <= c <= 'z' || '0' <= c <= '9' || c == '_' || c == '-') ==> Sanitize([c]) == ""
  {
    assert [c][1..] == "";
    assert Sanitize("") == "";
  }

  predicate IsWord(s: string) { s != "" && forall c <- s :: !IsSpace(c) }

  /** The words of a text: `before`, space and all, then the rest. */
  lemma {:induction false} WordsTake(w: string, acc: string, rest: string)
    requires forall c <- w :: !IsSpace(c)
    ensures Words(w + rest, acc) == Words(rest, acc + w)
    decreases |w|
  {
    hide IsSpace;
    if w == "" {
      assert w + rest == rest && acc + w == acc;
    } else {
      assert w[0] in w && (forall c <- w[1..] :: c in w);
      assert (w + rest)[0] == w[0] && (w + rest)[1..] == w[1..] + rest;
      WordsTake(w[1..], acc + [w[0]], rest);
      assert acc + [w[0]] + w[1..] == acc + w;
    }
  }

  /** Splitting a text at white space: words written with one space or more after each come back. */
  lemma {:induction false} WordsAre(ws: seq<string>, gap: string)
    requires (forall w <- ws :: IsWord(w)) && gap != "" && forall c <- gap :: IsSpace(c)
    ensures Words(Spread(ws, gap), "") == ws
  {
    hide IsSpace;
    if ws != [] {
      var rest := Spread(ws[1..], gap);
      assert ws[0] in ws && forall w <- ws[1..] :: w in ws;
      assert Spread(ws, gap) == ws[0] + (gap + rest);
      WordsTake(ws[0], "", gap + rest);
      assert "" + ws[0] == ws[0];
      WordsGap(gap, rest, ws[0]);
      WordsAre(ws[1..], gap);
    }
  }

  function Spread(ws: seq<string>, gap: string): string { if ws == [] then "" else ws[0] + gap + Spread(ws[1..], gap) }

  lemma {:induction false} WordsGap(gap: string, rest: string, acc: string)
    requires forall c <- gap :: IsSpace(c)
    requires gap != "" || acc == ""
    ensures Words(gap + rest, acc) == (if acc == "" then [] else [acc]) + Words(rest, "")
    decreases |gap|
  {
    hide IsSpace;
    if gap == "" {
      assert gap + rest == rest;
    } else {
      assert gap[0] in gap && (forall c <- gap[1..] :: c in gap);
      assert (gap + rest)[0] == gap[0] && (gap + rest)[1..] == gap[1..] + rest;
      WordsGap(gap[1..], rest, "");
    }
  }

  /** The tokens are the sanitised words of two characters or more, and no other. */
  lemma {:induction false} TokensAre(ws: seq<string>, t: string)
    ensures t in KeepTokens(ws) <==> |t| > 1 && exists w <- ws :: Sanitize(w) == t
  {
    hide Sanitize;
    if ws != [] {
      TokensAre(ws[1..], t);
      if w :| w in ws && Sanitize(w) == t && |t| > 1 {
        if w != ws[0] { var i :| 0 <= i < |ws| && ws[i] == w; assert ws[1..][i - 1] == w; }
      }
      assert ws[0] in ws && forall w <- ws[1..] :: w in ws;
    }
  }

  // ---- forms of a token

  /** The forms of the mapped words, written out. */
  lemma MappedForms()
    ensures MappedVariants("fail") == Ok(["failed", "failure", "failures", "failing"])
    ensures MappedVariants("failed") == Ok(["fail", "failure", "failures", "failing"])
    ensures MappedVariants("failure") == Ok(["fail", "failed", "failures", "failing"])
    ensures MappedVariants("failures") == Ok(["fail", "failed", "failure", "failing"])
    ensures MappedVariants("failing") == Ok(["fail", "failed", "failure", "failures"])
    ensures MappedVariants("constructor").Throws? && MappedVariants("__proto__").Throws?
  {
    assert "constructor"[0] == 'c' && "__proto__"[0] == '_' && "fail"[0] == 'f' && "failed"[0] == 'f';
    assert "failure"[0] == 'f' && "failures"[0] == 'f' && "failing"[0] == 'f';
    assert "failing"[4] == 'i' && "failure"[4] == 'u';
  }

  /** Any other token is searched as it is and, from five characters on, without a final `s` or `ed`, from six
      on without a final `ing`. */
  lemma StrippedForms(stem: string)
    requires stem != "" && MappedVariants(stem + "s") == Ok([]) && MappedVariants(stem + "ed") == Ok([])
    requires MappedVariants(stem + "ing") == Ok([])
    ensures VariantSet(stem + "s") == if |stem| >= 4 then {stem + "s", stem} else {stem + "s"}
    ensures VariantSet(stem + "ed") == if |stem| >= 3 then {stem + "ed", stem} else {stem + "ed"}
    ensures VariantSet(stem + "ing") == if |stem| >= 3 then {stem + "ing", stem} else {stem + "ing"}
  {
    hide MappedVariants;
    var a, b, c := stem + "s", stem + "ed", stem + "ing";
    assert a[..|a| - 1] == stem && b[..|b| - 2] == stem && c[..|c| - 3] == stem;
    assert a[|a| - 1] == 's' && b[|b| - 1] == 'd' && c[|c| - 1] == 'g';
    assert a[|a| - 1..] == "s" && b[|b| - 2..] == "ed" && c[|c| - 3..] == "ing";
    EndsDiffer(a); EndsDiffer(b); EndsDiffer(c);
  }

  lemma EndsDiffer(s: string)
    ensures EndsWith(s, "s") ==> s[|s| - 1] == 's'
    ensures EndsWith(s, "ed") ==> s[|s| - 1] == 'd'
    ensures EndsWith(s, "ing") ==> s[|s| - 1] == 'g'
  {
    if EndsWith(s, "s") { assert s[|s| - 1..][0] == 's'; }
    if EndsWith(s, "ed") { assert s[|s| - 2..][1] == 'd'; }
    if EndsWith(s, "ing") { assert s[|s| - 3..][2] == 'g'; }
  }

  /** A token with none of these ends is searched as it is. */
  lemma PlainForm(token: string)
    requires MappedVariants(token) == Ok([])
    requires token == "" || token[|token| - 1] !in "sdg"
    ensures VariantSet(token) == {token}
  {
    hide MappedVariants;
    EndsDiffer(token);
    assert "sdg"[0] == 's' && "sdg"[1] == 'd' && "sdg"[2] == 'g';
  }

  /** The patterns of the message signature and what each is replaced with, in their order. */
  lemma SignatureWritten()
    ensures SIG_TEXT == SIG_HEAD + Join([Args(UUID_SQL, "<uuid>"), Args(TS_SQL, "<ts>"), Args(QUOTED_SQL, "<quoted>"),
                                         Args(HEX_SQL, "<hex>"), Args(ID_SQL, "<id>"), Args(NUMBER_SQL, "<n>")], ",")
  {
    hide UUID_SQL, TS_SQL, QUOTED_SQL, HEX_SQL, ID_SQL, NUMBER_SQL, SIG_HEAD, Args;
    SixJoined(Args(UUID_SQL, "<uuid>"), Args(TS_SQL, "<ts>"), Args(QUOTED_SQL, "<quoted>"), Args(HEX_SQL, "<hex>"),
              Args(ID_SQL, "<id>"), Args(NUMBER_SQL, "<n>"));
  }

  lemma SixJoined(a: string, b: string, c: string, d: string, e: string, f: string)
    ensures Join([a, b, c, d, e, f], ",") == a + ("," + (b + ("," + (c + ("," + (d + ("," + (e + ("," + f)))))))))
  {
    OneMore(a, [b, c, d, e, f]);
    OneMore(b, [c, d, e, f]);
    OneMore(c, [d, e, f]);
    OneMore(d, [e, f]);
    OneMore(e, [f]);
    hide Join;
    assert [a] + [b, c, d, e, f] == [a, b, c, d, e, f] && [b] + [c, d, e, f] == [b, c, d, e, f];
    assert [c] + [d, e, f] == [c, d, e, f] && [d] + [e, f] == [d, e, f] && [e] + [f] == [e, f];
    JoinSingle(f, ",");
  }

  lemma OneMore(a: string, rest: seq<string>)
    requires rest != []
    ensures Join([a] + rest, ",") == a + ("," + Join(rest, ","))
  {
    hide Join;
    JoinPrefix(a, rest, ",");
    assert a + "," + Join(rest, ",") == a + ("," + Join(rest, ","));
  }

  /** One call's arguments are quoted, and the shorter patterns are these. */
  lemma ArgumentsWritten(pattern: string, replacement: string)
    ensures Args(pattern, replacement) == "'" + pattern + "','" + replacement + "')"
  {
    assert "','" == "'" + "," + "'" && "')" == "'" + ")";
  }

  lemma ShortPatternsWritten()
    ensures HEX_SQL == "(?i)\\\\b0x[0-9a-f]+\\\\b" && NUMBER_SQL == "\\\\b\\\\d+\\\\b"
    ensures QUOTED_SQL == "\"[^\"]*\"|''[^'']*''"
  {
  }

  /** Free text narrows a search to the rows that hold each of its tokens, and is not looked at in a natural-language
      query. */
  lemma TextNarrows(q: Query, row: Row, w: World)
    ensures RowMatches(q, row, w) <==>
      && RowMatches(q.(text := None), row, w)
      && (q.text.Some? && q.text.value != "" && !q.natural ==> forall t <- Tokens(q.text.value) :: TokenHolds(t, row))
  {
    hide Tokens, TokenHolds, FilterHolds;
  }
}
