/** The compiler as it runs: conditions are pushed and one parameter object is written in place. */
module QueryBuilder {
  import opened Text
  import opened WhereText
  import opened WhereLeaves
  import opened QuerySpec
  import opened QueryCompiler
  import opened QueryCorrect

  /** The `params` record shared by the builders. */
  class ParamMap {
    var entries: Params

    constructor ()
      ensures entries == map[]
    {
      entries := map[];
    }

    method Set(n: Name, v: Value)
      modifies this
      ensures entries == old(entries)[NameText(n) := v]
      ensures Bound(entries, n, v) && SameBut(old(entries), entries, n)
    {
      WriteKeepsOthers(entries, n, v);
      entries := entries[NameText(n) := v];
    }
  }

  /** Set semantics with insertion order, filled by a loop over the mapped variants. */
  method ExpandSearchTokenVariants(token: string) returns (r: Result<seq<string>>)
    ensures r.Throws? <==> TokenThrows(token)
    ensures r.Ok? ==> r.value == Variants(token)
    ensures r.Ok? ==> token in r.value && forall v :: v in r.value <==> v in VariantSet(token)
  {
    hide FormsOf, EndsWith, MappedVariants;
    var mapped := MappedVariants(token);
    if mapped.Throws? { return Throws; }
    var variants := [token];
    for i := 0 to |mapped.value|
      invariant variants == AddAll([token], mapped.value, i)
    {
      variants := AddNew(variants, mapped.value[i]);
    }
    if EndsWith(token, "s") && |token| > 4 { variants := AddNew(variants, token[..|token| - 1]); }
    if EndsWith(token, "ed") && |token| > 4 { variants := AddNew(variants, token[..|token| - 2]); }
    if EndsWith(token, "ing") && |token| > 5 { variants := AddNew(variants, token[..|token| - 3]); }
    FormsAreSet(token, mapped.value);
    r := Ok(variants);
  }

  /** Writes the filter's parameter and returns its condition; a dropped filter writes nothing. */
  method BuildFilterCondition(f: LogFilter, i: nat, params: ParamMap) returns (r: Option<string>)
    modifies params
    ensures FilterColumn(f).None? ==> r == None && params.entries == old(params.entries)
    ensures FilterColumn(f).Some? ==> r == Some(Sql(FilterExpr(f, i).value))
    ensures FilterColumn(f).Some? ==> params.entries == old(params.entries)[NameText(NFilter(i)) := FilterParam(f)]
    ensures FilterColumn(f).Some? ==> Bound(params.entries, NFilter(i), FilterParam(f))
    ensures SameBut(old(params.entries), params.entries, NFilter(i))
  {
    hide NameText, Sanitize, LeafSql, Lower;
    var name := NameText(NFilter(i));
    if f.field == "__pattern" {
      if f.operator.FEq? || f.operator.FNeq? {
        params.Set(NFilter(i), Str(Lower(ValueString(f.value))));
        return Some(LeafSql(Signature, if f.operator.FEq? then Eq else Neq, name));
      }
      if f.operator.FContains? {
        params.Set(NFilter(i), Str("%" + Lower(ValueString(f.value)) + "%"));
        return Some(LeafSql(Signature, ILikeOp, name));
      }
      return None;
    }
    var column;
    if f.field in SEARCHABLE {
      column := SearchableColumn(f.field);
    } else {
      var safeKey := Sanitize(f.field);
      if safeKey == "" { return None; }
      column := Field(safeKey);
    }
    ghost var before := params.entries;
    params.Set(NFilter(i), match f.value case FStr(s) => Str(s) case FNum(t) => Num(t));
    match f.operator
    case FEq => return Some(LeafSql(column, Eq, name));
    case FNeq => return Some(LeafSql(column, Neq, name));
    case FGt => return Some(LeafSql(column, Gt, name));
    case FLt => return Some(LeafSql(column, Lt, name));
    case FContains =>
      params.Set(NFilter(i), Str("%" + ValueString(f.value) + "%"));
      assert params.entries == before[name := Str("%" + ValueString(f.value) + "%")];
      WriteKeepsOthers(before, NFilter(i), Str("%" + ValueString(f.value) + "%"));
      return Some(LeafSql(column, ILikeOp, name));
  }

  // ---- what later writes keep

  /** Only search parameters of the tokens from `t` on have been written. */
  ghost predicate KeepsBefore(m: Params, m': Params, t: nat) {
    forall k: Name, x: Value :: !(k.NSearch? && k.t >= t) ==> (Bound(m', k, x) <==> Bound(m, k, x))
  }

  lemma KeepsMore(a: Params, b: Params, c: Params, s: nat, t: nat)
    requires KeepsBefore(a, b, s) && KeepsBefore(b, c, t) && s <= t
    ensures KeepsBefore(a, c, s)
  {
    hide Bound;
  }

  lemma VariantWritten(a: Params, m: Params, m': Params, t: nat, vs: seq<string>, v: nat)
    requires v < |vs| && KeepsBefore(a, m, t) && VariantsBound(m, t, vs, v)
    requires SameBut(m, m', NSearch(t, v)) && Bound(m', NSearch(t, v), Str("%" + vs[v] + "%"))
    ensures KeepsBefore(a, m', t) && VariantsBound(m', t, vs, v + 1)
  {
    hide Bound;
  }

  lemma TokenWritten(m: Params, m': Params, ts: seq<string>, t: nat)
    requires t < |ts| && TokensBound(m, ts, t) && KeepsBefore(m, m', t)
    requires !TokenThrows(ts[t]) && VariantsBound(m', t, Variants(ts[t]), |Variants(ts[t])|)
    ensures TokensBound(m', ts, t + 1)
  {
    hide Bound, Variants, TokenThrows;
    forall i: nat | i < t + 1
      ensures !TokenThrows(ts[i]) && VariantsBound(m', i, Variants(ts[i]), |Variants(ts[i])|)
    {
      if i < t {
        assert VariantsBound(m, i, Variants(ts[i]), |Variants(ts[i])|);
      }
    }
  }

  lemma SearchKeepsRest(m: Params, m': Params, q: Query, w: World)
    requires ScopeBound(m, q, w) && FiltersBound(m, q.filters, |q.filters|) && KeepsBefore(m, m', 0)
    ensures ScopeBound(m', q, w) && FiltersBound(m', q.filters, |q.filters|)
  {
    hide Bound, FilterColumn, FilterParam;
  }

  lemma FilterWritten(m: Params, m': Params, q: Query, w: World, i: nat)
    requires i < |q.filters| && ScopeBound(m, q, w) && FiltersBound(m, q.filters, i)
    requires SameBut(m, m', NFilter(i))
    requires FilterColumn(q.filters[i]).Some? ==> Bound(m', NFilter(i), FilterParam(q.filters[i]))
    ensures ScopeBound(m', q, w) && FiltersBound(m', q.filters, i + 1)
  {
    hide Bound, FilterColumn, FilterParam;
  }

  // ---- free text

  /** One condition per variant of one token. */
  method BuildTokenCondition(t: nat, token: string, params: ParamMap) returns (r: Result<string>)
    modifies params
    ensures r.Throws? <==> TokenThrows(token)
    ensures r.Ok? ==> r.value == "(" + Join(VariantSqls(t, |Variants(token)|), " OR ") + ")"
    ensures r.Ok? ==> VariantsBound(params.entries, t, Variants(token), |Variants(token)|)
    ensures KeepsBefore(old(params.entries), params.entries, t)
  {
    hide Bound, NameText, VariantSql, Variants, VariantSet, SameBut, Join;
    ghost var before := params.entries;
    var variants := ExpandSearchTokenVariants(token);
    if variants.Throws? { return Throws; }
    var vs := variants.value;
    var conditions: seq<string> := [];
    for v := 0 to |vs|
      invariant conditions == VariantSqls(t, v)
      invariant VariantsBound(params.entries, t, vs, v)
      invariant KeepsBefore(before, params.entries, t)
    {
      ghost var current := params.entries;
      params.Set(NSearch(t, v), Str("%" + vs[v] + "%"));
      VariantWritten(before, current, params.entries, t, vs, v);
      conditions := conditions + [VariantSql(NameText(NSearch(t, v)))];
    }
    r := Ok("(" + Join(conditions, " OR ") + ")");
  }

  method BuildSearchCondition(text: string, params: ParamMap) returns (r: Result<Option<string>>)
    modifies params
    ensures r.Throws? <==> exists t <- Tokens(text) :: TokenThrows(t)
    ensures r.Ok? ==> r.value == if Tokens(text) == [] then None else Some(Join(TokenSqls(Tokens(text)), " AND "))
    ensures r.Ok? ==> TokensBound(params.entries, Tokens(text), |Tokens(text)|)
    ensures KeepsBefore(old(params.entries), params.entries, 0)
  {
    hide Bound, Variants, TokenThrows, VariantSqls, VariantsBound, TokensBound, Tokens, TokenSqls, Join, KeepsBefore;
    ghost var before := params.entries;
    KeepsSelf(before);
    NoTokens(before);
    var tokens := Tokens(text);
    if |tokens| == 0 { return Ok(None); }
    var conditions: seq<string> := [];
    for t := 0 to |tokens|
      invariant (forall x <- tokens[..t] :: !TokenThrows(x)) && conditions == TokenSqls(tokens[..t])
      invariant TokensBound(params.entries, tokens, t)
      invariant KeepsBefore(before, params.entries, 0)
    {
      ghost var current := params.entries;
      var c := BuildTokenCondition(t, tokens[t], params);
      KeepsMore(before, current, params.entries, 0, t);
      if c.Throws? {
        assert tokens[t] in tokens;
        return Throws;
      }
      TokenWritten(current, params.entries, tokens, t);
      NextTokenSql(tokens, t);
      conditions := conditions + [c.value];
    }
    assert tokens[..|tokens|] == tokens;
    r := Ok(Some(Join(conditions, " AND ")));
  }

  lemma NextTokenSql(tokens: seq<string>, t: nat)
    requires t < |tokens| && (forall x <- tokens[..t] :: !TokenThrows(x)) && !TokenThrows(tokens[t])
    ensures forall x <- tokens[..t + 1] :: !TokenThrows(x)
    ensures TokenSqls(tokens[..t + 1]) ==
      TokenSqls(tokens[..t]) + ["(" + Join(VariantSqls(t, |Variants(tokens[t])|), " OR ") + ")"]
  {
    hide TokenThrows, VariantSqls, Variants, Join;
    assert tokens[..t + 1] == tokens[..t] + [tokens[t]];
  }

  lemma KeepsSelf(m: Params)
    ensures KeepsBefore(m, m, 0)
  {
  }

  // ---- the whole query

  lemma SqlsPush(es: seq<Expr>, e: Expr)
    requires e.Leaf? && forall x <- es :: x.Leaf?
    ensures (forall x <- es + [e] :: x.Leaf?) && Sqls(es + [e]) == Sqls(es) + [Sql(e)] && Sqls([e]) == [Sql(e)]
  {
    hide Sql;
  }

  lemma FilterPush(fs: seq<LogFilter>, i: nat)
    requires i < |fs|
    ensures FilterExpr(fs[i], i).Some? ==>
      Sqls(FilterExprs(fs, i + 1)) == Sqls(FilterExprs(fs, i)) + [Sql(FilterExpr(fs[i], i).value)]
    ensures FilterExpr(fs[i], i).None? ==> FilterExprs(fs, i + 1) == FilterExprs(fs, i)
  {
    hide FilterColumn, Sql;
    if FilterExpr(fs[i], i).Some? { SqlsPush(FilterExprs(fs, i), FilterExpr(fs[i], i).value); }
  }

  /** A pushed search condition reads like its tokens' conditions pushed one by one. */
  lemma SearchPush(q: Query, search: Option<string>)
    requires forall t <- SearchTokens(q) :: !TokenThrows(t)
    requires search == if SearchTokens(q) == [] then None else Some(Join(TokenSqls(SearchTokens(q)), " AND "))
    ensures var conditions := Sqls(ScopeExprs(q)) + Sqls(FilterExprs(q.filters, |q.filters|));
      Join(if search.Some? then conditions + [search.value] else conditions, " AND ") == Join(CondSqls(q), " AND ")
  {
    hide Sqls, ScopeExprs, FilterExprs, Join, TokenThrows, Tokens, Sql;
    var conditions := Sqls(ScopeExprs(q)) + Sqls(FilterExprs(q.filters, |q.filters|));
    assert |conditions| >= 1 by { ScopeNotEmpty(q); }
    if search.Some? {
      JoinLast(conditions, search.value, " AND ");
      JoinConcat(conditions, TokenSqls(SearchTokens(q)), " AND ");
    } else {
      assert conditions + [] == conditions;
    }
  }

  lemma ScopeNotEmpty(q: Query)
    ensures |Sqls(ScopeExprs(q))| >= 1
  {
    hide Sql;
  }

  /** The first stretch of the compiler: team, source and time bounds. */
  method AddScope(q: Query, w: World, params: ParamMap) returns (r: Result<seq<string>>)
    modifies params
    ensures r.Throws? <==>
      (Given(q.startTime) && w.parseDate(q.startTime.value).None?)
      || (Given(q.endTime) && w.parseDate(q.endTime.value).None?)
    ensures r.Ok? ==> r.value == Sqls(ScopeExprs(q)) && ScopeBound(params.entries, q, w)
  {
    hide Bound, NameText, LeafSql, Sqls;
    var conditions := [LeafSql(TeamId, Eq, NameText(NTeam))];
    ghost var es := [Leaf(TeamId, Eq, NameText(NTeam))];
    SqlsPush([], es[0]);
    params.Set(NTeam, Str(q.teamId));
    if Given(q.sourceId) {
      SqlsPush(es, Leaf(SourceId, Eq, NameText(NSource)));
      es := es + [Leaf(SourceId, Eq, NameText(NSource))];
      conditions := conditions + [LeafSql(SourceId, Eq, NameText(NSource))];
      params.Set(NSource, Str(q.sourceId.value));
    }
    if Given(q.startTime) {
      SqlsPush(es, Leaf(Timestamp, Ge, NameText(NStart)));
      es := es + [Leaf(Timestamp, Ge, NameText(NStart))];
      conditions := conditions + [LeafSql(Timestamp, Ge, NameText(NStart))];
      var at := w.parseDate(q.startTime.value);
      if at.None? { return Throws; }
      params.Set(NStart, Stamp(at.value));
    }
    if Given(q.endTime) {
      SqlsPush(es, Leaf(Timestamp, Le, NameText(NEnd)));
      es := es + [Leaf(Timestamp, Le, NameText(NEnd))];
      conditions := conditions + [LeafSql(Timestamp, Le, NameText(NEnd))];
      var at := w.parseDate(q.endTime.value);
      if at.None? { return Throws; }
      params.Set(NEnd, Stamp(at.value));
    }
    assert es == ScopeExprs(q);
    r := Ok(conditions);
  }

  /** Compiles a query; the text and parameters it returns select exactly the rows asked for. */
  method BuildScopedWhere(q: Query, w: World) returns (r: Result<(string, Params)>)
    ensures r.Throws? <==> QueryThrows(q, w)
    ensures r.Ok? ==> AllBound(r.value.1, q, w) && forall t <- SearchTokens(q) :: !TokenThrows(t)
    ensures r.Ok? ==> r.value.0 == Join(CondSqls(q), " AND ")
    ensures r.Ok? ==> forall row :: Selected(r.value.0, r.value.1, row, w) <==> RowMatches(q, row, w)
  {
    hide Bound, NameText, Join, LeafSql, FilterColumn, FilterParam, Tokens, TokenThrows, FilterExpr, ScopeBound,
      ScopeExprs,
      FiltersBound, TokensBound, Selected, RowMatches, TokenSqls, Sqls, FilterExprs, CondSqls, KeepsBefore;
    var params := new ParamMap();
    var scoped := AddScope(q, w, params);
    if scoped.Throws? { return Throws; }
    var conditions := scoped.value;
    ghost var scope := conditions;
    NoFilters(params.entries, q);

    for i := 0 to |q.filters|
      invariant conditions == scope + Sqls(FilterExprs(q.filters, i))
      invariant ScopeBound(params.entries, q, w) && FiltersBound(params.entries, q.filters, i)
    {
      ghost var before := params.entries;
      var cond := BuildFilterCondition(q.filters[i], i, params);
      FilterWritten(before, params.entries, q, w, i);
      FilterPush(q.filters, i);
      FilterExprGiven(q.filters[i], i);
      if cond.Some? { conditions := conditions + [cond.value]; }
    }

    ghost var pushed: Option<string> := None;
    if Searches(q) {
      ghost var before := params.entries;
      var search := BuildSearchCondition(q.text.value, params);
      if search.Throws? { return Throws; }
      SearchKeepsRest(before, params.entries, q, w);
      pushed := search.value;
      if search.value.Some? { conditions := conditions + [search.value.value]; }
    } else {
      NoTokens(params.entries);
    }
    SearchPush(q, pushed);
    r := Ok((Join(conditions, " AND "), params.entries));
    forall row ensures Selected(r.value.0, r.value.1, row, w) <==> RowMatches(q, row, w) {
      CompiledSelects(q, r.value.1, row, w);
    }
  }

  lemma NoFilters(m: Params, q: Query)
    ensures FiltersBound(m, q.filters, 0) && Sqls(FilterExprs(q.filters, 0)) == []
  {
  }

  lemma NoTokens(m: Params)
    ensures TokensBound(m, [], 0) && TokenSqls([]) == [] && forall ts :: TokensBound(m, ts, 0)
  {
  }

  lemma FilterExprGiven(f: LogFilter, i: nat)
    ensures FilterExpr(f, i).Some? <==> FilterColumn(f).Some?
  {
  }

  lemma JoinLast(parts: seq<string>, last: string, sep: string)
    requires parts != []
    ensures Join(parts + [last], sep) == Join(parts, sep) + sep + last
  {
    JoinConcat(parts, [last], sep);
  }

  lemma {:induction false} SanitizeSafe(s: string)
    requires forall c <- s :: SafeKeyChar(c)
    ensures Sanitize(s) == s
  {
    if s != "" {
      assert s[0] in s;
      SanitizeSafe(s[1..]);
    }
  }

  /** A safe word of two characters or more is its own token. */
  lemma WordIsToken(s: string)
    requires |s| > 1 && forall c <- s :: SafeKeyChar(c)
    ensures Tokens(s) == [s]
  {
    WordsFinish(s, "");
    assert "" + s == s;
    SanitizeSafe(s);
    assert [s][1..] == [] && KeepTokens([]) == [];
  }

  /** The concrete search that is refused although it is an ordinary word. */
  lemma InheritedNameRefused(q: Query, w: World)
    requires q.text == Some("constructor") && !q.natural
    ensures QueryThrows(q, w)
  {
    WordIsToken("constructor");
    assert TokenThrows("constructor") && "constructor" in Tokens("constructor");
  }
}
