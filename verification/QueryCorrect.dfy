/** The compiled text, parsed and evaluated under the final parameters, selects exactly the rows
    the query asks for. */
module QueryCorrect {
  import opened Text
  import opened LikePattern
  import opened WhereText
  import opened WhereGrammar
  import opened WhereLeaves
  import opened QuerySpec
  import opened QueryCompiler

  // ---- the text parses to the conditions

  ghost predicate SafeLeaf(e: Expr) { e.Leaf? && SafeColumn(e.column) && SafeName(e.param) }

  lemma LeafUnits(es: seq<Expr>)
    requires forall e <- es :: SafeLeaf(e)
    ensures (forall e <- es :: e.Leaf?) && Units(Sqls(es), es, ParseLeaf)
  {
    hide LeafSql, Unit, SafeColumn, SafeName;
    assert forall e <- es :: SafeLeaf(e) ==> e.Leaf?;
    forall i | 0 <= i < |es| ensures Unit(Sqls(es)[i], es[i], ParseLeaf) {
      assert SafeLeaf(es[i]);
      LeafReads(es[i].column, es[i].op, es[i].param);
    }
  }

  lemma UnitsConcat(a: seq<string>, b: seq<string>, d: seq<Expr>, e: seq<Expr>)
    requires Units(a, d, ParseLeaf) && Units(b, e, ParseLeaf)
    ensures Units(a + b, d + e, ParseLeaf)
  {
    hide Unit;
  }

  lemma VariantUnit(p: string)
    requires SafeName(p)
    ensures Unit(VariantSql(p), VariantExpr(p), ParseLeaf)
  {
    hide LeafSql, SafeName, ParseLeaf;
    LeafReads(Message, ILikeOp, p); LeafReads(Service, ILikeOp, p); LeafReads(Host, ILikeOp, p);
    ThreeWayGroup(LeafSql(Message, ILikeOp, p), LeafSql(Service, ILikeOp, p), LeafSql(Host, ILikeOp, p),
                  VariantLeaves(p));
  }

  lemma ThreeWayGroup(a: string, b: string, c: string, es: seq<Expr>)
    requires |es| == 3 && Unit(a, es[0], ParseLeaf) && Unit(b, es[1], ParseLeaf) && Unit(c, es[2], ParseLeaf)
    ensures Unit("(" + a + " OR " + b + " OR " + c + ")", Any(es), ParseLeaf)
  {
    hide Unit;
    ThreeWayText(a, b, c);
    assert Units([a, b, c], es, ParseLeaf);
    GroupParses([a, b, c], es, ParseLeaf);
  }

  lemma ThreeWayText(a: string, b: string, c: string)
    ensures "(" + a + " OR " + b + " OR " + c + ")" == "(" + Join([a, b, c], " OR ") + ")"
  {
    JoinThree(a, b, c, " OR ");
  }

  lemma JoinThree(a: string, b: string, c: string, sep: string)
    ensures Join([a, b, c], sep) == a + sep + b + sep + c
  {
    assert [a, b, c][1..] == [b, c] && [b, c][1..] == [c];
    assert Join([b, c], sep) == b + sep + c;
  }

  lemma TokenUnit(t: nat, n: nat)
    requires n > 0
    ensures Unit("(" + Join(VariantSqls(t, n), " OR ") + ")", MkAny(VariantExprs(t, n)), ParseLeaf)
  {
    hide NameText, Unit, VariantSql, VariantExpr, Join;
    forall v | 0 <= v < n ensures Unit(VariantSqls(t, n)[v], VariantExprs(t, n)[v], ParseLeaf) {
      SearchNameSafe(t, v);
      VariantUnit(NameText(NSearch(t, v)));
    }
    GroupParses(VariantSqls(t, n), VariantExprs(t, n), ParseLeaf);
  }

  lemma TokenUnits(ts: seq<string>)
    requires forall t <- ts :: !TokenThrows(t)
    ensures Units(TokenSqls(ts), TokenExprs(ts), ParseLeaf)
  {
    hide Unit, NameText, OrderedForms, FormsOf, MappedVariants, VariantSql, VariantExpr, Join, MkAny;
    forall t | 0 <= t < |ts| ensures Unit(TokenSqls(ts)[t], TokenExprs(ts)[t], ParseLeaf) {
      assert ts[t] in ts;
      FormsAreSet(ts[t], MappedVariants(ts[t]).value);
      TokenUnit(t, |Variants(ts[t])|);
    }
  }

  lemma {:induction false} FilterLeavesSafe(fs: seq<LogFilter>, n: nat)
    requires n <= |fs|
    ensures forall e <- FilterExprs(fs, n) :: SafeLeaf(e)
  {
    hide NameText;
    if n > 0 {
      FilterLeavesSafe(fs, n - 1);
      FilterNameSafe(n - 1);
    }
  }

  lemma ScopeLeavesSafe(q: Query)
    ensures forall e <- ScopeExprs(q) :: SafeLeaf(e)
  {
    hide NameText;
    NameSafe(NTeam); NameSafe(NSource); NameSafe(NStart); NameSafe(NEnd);
  }

  /** The rendered WHERE text, with AND binding tighter than OR, means the list of conditions. */
  lemma WhereTextParses(q: Query)
    requires forall t <- SearchTokens(q) :: !TokenThrows(t)
    ensures ParseWhere(Join(CondSqls(q), " AND ")) == Some(MkAll(CondExprs(q)))
  {
    hide Unit, ParseOr, Join, CondSqls, CondExprs;
    CondUnits(q);
    AndTextParses(CondSqls(q), CondExprs(q), ParseLeaf);
  }

  lemma CondUnits(q: Query)
    requires forall t <- SearchTokens(q) :: !TokenThrows(t)
    ensures CondSqls(q) != [] && Units(CondSqls(q), CondExprs(q), ParseLeaf)
  {
    hide Unit, LeafSql, FilterExprs, NameText, FilterColumn;
    var fs := FilterExprs(q.filters, |q.filters|);
    ScopeLeavesSafe(q); LeafUnits(ScopeExprs(q));
    FilterLeavesSafe(q.filters, |q.filters|); LeafUnits(fs);
    TokenUnits(SearchTokens(q));
    UnitsConcat(Sqls(ScopeExprs(q)), Sqls(fs), ScopeExprs(q), fs);
    UnitsConcat(Sqls(ScopeExprs(q)) + Sqls(fs), TokenSqls(SearchTokens(q)), ScopeExprs(q) + fs,
                TokenExprs(SearchTokens(q)));
    assert |CondSqls(q)| >= |ScopeExprs(q)| >= 1;
  }

  // ---- the conditions mean the query

  ghost predicate AllHold(es: seq<Expr>, m: Params, row: Row, w: World) {
    forall e <- es :: Eval(e, m, row, w.sig)
  }

  lemma AllHoldConcat(a: seq<Expr>, b: seq<Expr>, m: Params, row: Row, w: World)
    ensures AllHold(a + b, m, row, w) <==> AllHold(a, m, row, w) && AllHold(b, m, row, w)
  {
    hide Eval;
    if AllHold(a + b, m, row, w) {
      forall e | e in a ensures Eval(e, m, row, w.sig) { assert e in a + b; }
      forall e | e in b ensures Eval(e, m, row, w.sig) { assert e in a + b; }
    }
  }

  lemma MkAllMeans(es: seq<Expr>, m: Params, row: Row, w: World)
    ensures Eval(MkAll(es), m, row, w.sig) <==> AllHold(es, m, row, w)
  {
    if |es| == 1 { assert es[0] in es; }
  }

  lemma MkAnyMeans(es: seq<Expr>, m: Params, row: Row, w: World)
    ensures Eval(MkAny(es), m, row, w.sig) <==> exists i :: 0 <= i < |es| && Eval(es[i], m, row, w.sig)
  {
    if Eval(MkAny(es), m, row, w.sig) && |es| != 1 {
      var e :| e in es && Eval(e, m, row, w.sig);
      var i :| 0 <= i < |es| && es[i] == e;
    }
    if i :| 0 <= i < |es| && Eval(es[i], m, row, w.sig) { assert es[i] in es; }
  }

  lemma ScopeMeans(q: Query, m: Params, row: Row, w: World)
    requires ScopeBound(m, q, w)
    ensures AllHold(ScopeExprs(q), m, row, w) <==>
      && row.teamId == q.teamId
      && (Given(q.sourceId) ==> row.sourceId == q.sourceId.value)
      && (Given(q.startTime) ==> row.timestamp >= w.parseDate(q.startTime.value).value)
      && (Given(q.endTime) ==> row.timestamp <= w.parseDate(q.endTime.value).value)
  {
    hide NameText;
    var a, b := Leaf(TeamId, Eq, NameText(NTeam)), Leaf(SourceId, Eq, NameText(NSource));
    var c, d := Leaf(Timestamp, Ge, NameText(NStart)), Leaf(Timestamp, Le, NameText(NEnd));
    var es := ScopeExprs(q);
    assert forall e :: e in es <==>
      e == a || (e == b && Given(q.sourceId)) || (e == c && Given(q.startTime)) || (e == d && Given(q.endTime));
    assert Eval(a, m, row, w.sig) <==> row.teamId == q.teamId;
    if Given(q.sourceId) { assert Eval(b, m, row, w.sig) <==> row.sourceId == q.sourceId.value; }
    if Given(q.startTime) { assert Eval(c, m, row, w.sig) <==> row.timestamp >= w.parseDate(q.startTime.value).value; }
    if Given(q.endTime) { assert Eval(d, m, row, w.sig) <==> row.timestamp <= w.parseDate(q.endTime.value).value; }
  }

  lemma FilterMeans(f: LogFilter, i: nat, m: Params, row: Row, w: World)
    requires FilterColumn(f).Some? && Bound(m, NFilter(i), FilterParam(f))
    ensures Eval(FilterExpr(f, i).value, m, row, w.sig) <==> FilterHolds(f, row, w)
  {
    hide ILike, Below, NameText, Sanitize;
  }

  lemma DroppedFilterHolds(f: LogFilter, row: Row, w: World)
    requires FilterColumn(f).None?
    ensures FilterHolds(f, row, w)
  {
    hide ILike, Below;
  }

  lemma {:induction false} FiltersMean(fs: seq<LogFilter>, n: nat, m: Params, row: Row, w: World)
    requires n <= |fs| && FiltersBound(m, fs, n)
    ensures AllHold(FilterExprs(fs, n), m, row, w) <==> forall i :: 0 <= i < n ==> FilterHolds(fs[i], row, w)
  {
    hide NameText, FilterHolds, FilterColumn, FilterParam;
    if n > 0 {
      var f := fs[n - 1];
      FiltersMean(fs, n - 1, m, row, w);
      var last := if FilterExpr(f, n - 1).Some? then [FilterExpr(f, n - 1).value] else [];
      AllHoldConcat(FilterExprs(fs, n - 1), last, m, row, w);
      if FilterColumn(f).Some? {
        FilterMeans(f, n - 1, m, row, w);
        assert FilterExpr(f, n - 1).value in last;
      } else {
        DroppedFilterHolds(f, row, w);
      }
    }
  }

  lemma VariantMeans(p: string, v: string, m: Params, row: Row, w: World)
    requires p in m && m[p] == Str("%" + v + "%")
    ensures Eval(VariantExpr(p), m, row, w.sig) <==>
      ILike(row.message, "%" + v + "%") || ILike(row.service, "%" + v + "%") || ILike(row.host, "%" + v + "%")
  {
    hide ILike;
    var es := VariantLeaves(p);
    assert Eval(es[0], m, row, w.sig) <==> ILike(row.message, "%" + v + "%");
    assert Eval(es[1], m, row, w.sig) <==> ILike(row.service, "%" + v + "%");
    assert Eval(es[2], m, row, w.sig) <==> ILike(row.host, "%" + v + "%");
    assert forall e :: e in es <==> e == es[0] || e == es[1] || e == es[2];
  }

  lemma TokenMeans(token: string, t: nat, m: Params, row: Row, w: World)
    requires !TokenThrows(token) && VariantsBound(m, t, Variants(token), |Variants(token)|)
    ensures Eval(MkAny(VariantExprs(t, |Variants(token)|)), m, row, w.sig) <==> TokenHolds(token, row)
  {
    hide NameText, ILike, OrderedForms, FormsOf, MappedVariants;
    var vs := Variants(token);
    var es := VariantExprs(t, |vs|);
    MkAnyMeans(es, m, row, w);
    FormsAreSet(token, MappedVariants(token).value);
    forall v: nat | v < |vs|
      ensures Eval(es[v], m, row, w.sig) <==>
        ILike(row.message, "%" + vs[v] + "%") || ILike(row.service, "%" + vs[v] + "%")
        || ILike(row.host, "%" + vs[v] + "%")
    {
      assert Bound(m, NSearch(t, v), Str("%" + vs[v] + "%"));
      VariantMeans(NameText(NSearch(t, v)), vs[v], m, row, w);
    }
    if TokenHolds(token, row) {
      var v :| v in VariantSet(token) &&
        (ILike(row.message, "%" + v + "%") || ILike(row.service, "%" + v + "%") || ILike(row.host, "%" + v + "%"));
      assert v in vs;
      var i :| 0 <= i < |vs| && vs[i] == v;
    }
    if i :| 0 <= i < |es| && Eval(es[i], m, row, w.sig) {
      assert vs[i] in vs && vs[i] in VariantSet(token);
    }
  }

  lemma TokensMean(ts: seq<string>, m: Params, row: Row, w: World)
    requires TokensBound(m, ts, |ts|) && forall t <- ts :: !TokenThrows(t)
    ensures AllHold(TokenExprs(ts), m, row, w) <==> forall t :: 0 <= t < |ts| ==> TokenHolds(ts[t], row)
  {
    hide TokenHolds, NameText, Variants, MappedVariants, MkAny, VariantExprs;
    var es := TokenExprs(ts);
    forall t: nat | t < |ts|
      ensures Eval(es[t], m, row, w.sig) <==> TokenHolds(ts[t], row)
    {
      TokenMeans(ts[t], t, m, row, w);
    }
    if forall t :: 0 <= t < |ts| ==> TokenHolds(ts[t], row) {
      forall e | e in es ensures Eval(e, m, row, w.sig) { var t :| 0 <= t < |es| && es[t] == e; }
    }
    if AllHold(es, m, row, w) {
      forall t | 0 <= t < |ts| ensures TokenHolds(ts[t], row) { assert es[t] in es; }
    }
  }

  /** Under the final parameters the conditions hold of exactly the rows the query asks for. */
  lemma ConditionsMeanQuery(q: Query, m: Params, row: Row, w: World)
    requires AllBound(m, q, w) && forall t <- SearchTokens(q) :: !TokenThrows(t)
    ensures Eval(MkAll(CondExprs(q)), m, row, w.sig) <==> RowMatches(q, row, w)
  {
    hide NameText, FilterHolds, TokenHolds, ScopeExprs, FilterExprs, TokenExprs, Eval, MkAll;
    var fs, ts := FilterExprs(q.filters, |q.filters|), SearchTokens(q);
    MkAllMeans(CondExprs(q), m, row, w);
    AllHoldConcat(ScopeExprs(q) + fs, TokenExprs(ts), m, row, w);
    AllHoldConcat(ScopeExprs(q), fs, m, row, w);
    ScopeMeans(q, m, row, w);
    FiltersMean(q.filters, |q.filters|, m, row, w);
    TokensMean(ts, m, row, w);
  }

  /** What a search returns for a row: the text is parsed and evaluated under the parameters. */
  predicate Selected(where: string, m: Params, row: Row, w: World) {
    ParseWhere(where).Some? && Eval(ParseWhere(where).value, m, row, w.sig)
  }

  /** Compiler correctness, for every query and every row. */
  lemma CompiledSelects(q: Query, m: Params, row: Row, w: World)
    requires AllBound(m, q, w) && forall t <- SearchTokens(q) :: !TokenThrows(t)
    ensures Selected(Join(CondSqls(q), " AND "), m, row, w) <==> RowMatches(q, row, w)
  {
    hide ParseWhere, RowMatches, Eval, Join, CondSqls, CondExprs;
    WhereTextParses(q);
    ConditionsMeanQuery(q, m, row, w);
  }
}
