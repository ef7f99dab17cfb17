/** The compiler from structured queries to a WHERE text and its parameter map. */
module QueryCompiler {
  import opened Text
  import opened WhereText
  import opened WhereGrammar
  import opened WhereLeaves
  import opened QuerySpec

  // ---- parameter names

  datatype Name = NTeam | NSource | NStart | NEnd | NFilter(i: nat) | NSearch(t: nat, v: nat)
                | NLimit | NOffset | NFacetLimit | NPatternLimit

  function NameText(n: Name): string {
    match n
    case NTeam => "teamId"
    case NSource => "sourceId"
    case NStart => "startTime"
    case NEnd => "endTime"
    case NFilter(i) => "f" + Dec(i)
    case NSearch(t, v) => "search_" + Dec(t) + "_" + Dec(v)
    case NLimit => "limit"
    case NOffset => "offset"
    case NFacetLimit => "facetLimit"
    case NPatternLimit => "patternLimit"
  }

  lemma SearchNamesDiffer(t: nat, v: nat, t': nat, v': nat)
    requires NameText(NSearch(t, v)) == NameText(NSearch(t', v'))
    ensures t == t' && v == v'
  {
    hide Numeral;
    var a, b := Dec(t) + "_" + Dec(v), Dec(t') + "_" + Dec(v');
    assert NameText(NSearch(t, v)) == "search_" + a && NameText(NSearch(t', v')) == "search_" + b;
    assert a == ("search_" + a)[7..] && b == ("search_" + b)[7..];
    PairsDiffer(Dec(t), Dec(v), Dec(t'), Dec(v'));
    NumeralInjective(t, t', 10);
    NumeralInjective(v, v', 10);
  }

  /** Two numerals around an underscore are determined by the text. */
  lemma PairsDiffer(x: string, y: string, x': string, y': string)
    requires '_' !in x && '_' !in x' && x + "_" + y == x' + "_" + y'
    ensures x == x' && y == y'
  {
    var a, b := x + "_" + y, x' + "_" + y';
    assert forall k :: 0 <= k < |x| ==> a[k] == x[k] && x[k] in x;
    assert forall k :: 0 <= k < |x'| ==> b[k] == x'[k] && x'[k] in x';
    assert a[|x|] == '_' && b[|x'|] == '_';
    assert |x| == |x'|;
    assert x == a[..|x|] && y == a[|x| + 1..];
  }

  /** All parameter names the service ever writes for one query are pairwise distinct. */
  lemma NamesDistinct(m: Name, n: Name)
    requires NameText(m) == NameText(n)
    ensures m == n
  {
    hide NameText, Numeral;
    NameStart(m);
    NameStart(n);
    match (m, n)
    case (NFilter(i), NFilter(j)) => FilterNamesDiffer(i, j);
    case (NSearch(t, v), NSearch(t', v')) => SearchNamesDiffer(t, v, t', v');
    case _ =>
  }

  lemma FilterNamesDiffer(i: nat, j: nat)
    requires NameText(NFilter(i)) == NameText(NFilter(j))
    ensures i == j
  {
    assert Dec(i) == NameText(NFilter(i))[1..] && Dec(j) == NameText(NFilter(j))[1..];
    NumeralInjective(i, j, 10);
  }

  /** The first two characters of a name; a filter's name goes on with a digit. */
  function Initials(n: Name): (char, char) {
    match n
    case NTeam => ('t', 'e')
    case NSource => ('s', 'o')
    case NStart => ('s', 't')
    case NEnd => ('e', 'n')
    case NFilter(i) => ('f', Dec(i)[0])
    case NSearch(_, _) => ('s', 'e')
    case NLimit => ('l', 'i')
    case NOffset => ('o', 'f')
    case NFacetLimit => ('f', 'a')
    case NPatternLimit => ('p', 'a')
  }

  /** The characters that tell the families of names apart. */
  lemma NameStart(n: Name)
    ensures |NameText(n)| > 1 && (NameText(n)[0], NameText(n)[1]) == Initials(n)
    ensures n.NFilter? ==> IsDigit(Initials(n).1)
  {
    hide Numeral;
    if n.NFilter? { assert Dec(n.i)[0] in Dec(n.i); }
  }

  lemma NameSafe(n: Name)
    requires !n.NSearch? && !n.NFilter?
    ensures SafeName(NameText(n))
  {
  }

  lemma FilterNameSafe(i: nat)
    ensures SafeName(NameText(NFilter(i)))
  {
    hide Numeral;
    forall c <- NameText(NFilter(i)) ensures c == 'f' || IsDigit(c) { assert c == 'f' || c in Dec(i); }
  }

  lemma SearchNameSafe(t: nat, v: nat)
    ensures SafeName(NameText(NSearch(t, v)))
  {
    hide Numeral;
    forall c <- NameText(NSearch(t, v)) ensures 'a' <= c <= 'z' || IsDigit(c) || c == '_' {
      assert c in "search_" || c in Dec(t) || c in "_" || c in Dec(v);
    }
  }

  ghost predicate Bound(m: Params, n: Name, v: Value) { NameText(n) in m && m[NameText(n)] == v }

  /** A write under one name leaves every other name as it was. */
  ghost predicate SameBut(m: Params, m': Params, n: Name) {
    forall k: Name, x: Value :: k != n ==> (Bound(m', k, x) <==> Bound(m, k, x))
  }

  lemma WriteKeepsOthers(m: Params, n: Name, v: Value)
    ensures Bound(m[NameText(n) := v], n, v) && SameBut(m, m[NameText(n) := v], n)
  {
    hide NameText;
    forall k: Name, x: Value | k != n
      ensures Bound(m[NameText(n) := v], k, x) <==> Bound(m, k, x)
    {
      if NameText(k) == NameText(n) { NamesDistinct(k, n); }
    }
  }

  // ---- what each part of the query compiles to

  function OpOf(f: FilterOp): Op {
    match f case FEq => Eq case FNeq => Neq case FGt => Gt case FLt => Lt case FContains => ILikeOp
  }

  function FilterParam(f: LogFilter): Value {
    var v := if f.field == "__pattern" then Lower(ValueString(f.value)) else ValueString(f.value);
    if f.operator.FContains? then Str("%" + v + "%")
    else if f.field == "__pattern" then Str(v)
    else match f.value case FStr(s) => Str(s) case FNum(t) => Num(t)
  }

  function FilterExpr(f: LogFilter, i: nat): Option<Expr> {
    if FilterColumn(f).Some? then Some(Leaf(FilterColumn(f).value, OpOf(f.operator), NameText(NFilter(i)))) else None
  }

  /** The text of a comparison. */
  function Sql(e: Expr): string
    requires e.Leaf?
  {
    LeafSql(e.column, e.op, e.param)
  }

  function FilterExprs(fs: seq<LogFilter>, n: nat): (r: seq<Expr>)
    requires n <= |fs|
    ensures forall e <- r :: e.Leaf?
  {
    if n == 0 then []
    else
      FilterExprs(fs, n - 1)
      + (if FilterExpr(fs[n - 1], n - 1).Some? then [FilterExpr(fs[n - 1], n - 1).value] else [])
  }

  function ScopeExprs(q: Query): (r: seq<Expr>)
    ensures forall e <- r :: e.Leaf?
  {
    [Leaf(TeamId, Eq, NameText(NTeam))]
    + (if Given(q.sourceId) then [Leaf(SourceId, Eq, NameText(NSource))] else [])
    + (if Given(q.startTime) then [Leaf(Timestamp, Ge, NameText(NStart))] else [])
    + (if Given(q.endTime) then [Leaf(Timestamp, Le, NameText(NEnd))] else [])
  }

  function Sqls(es: seq<Expr>): (r: seq<string>)
    requires forall e <- es :: e.Leaf?
    ensures |r| == |es| && forall i :: 0 <= i < |es| ==> r[i] == Sql(es[i])
  {
    seq(|es|, i requires 0 <= i < |es| => Sql(es[i]))
  }

  /** One variant: message, service or host matches its parameter. */
  function VariantLeaves(p: string): seq<Expr> {
    [Leaf(Message, ILikeOp, p), Leaf(Service, ILikeOp, p), Leaf(Host, ILikeOp, p)]
  }

  function VariantExpr(p: string): Expr { Any(VariantLeaves(p)) }

  function VariantSql(p: string): string {
    "(" + LeafSql(Message, ILikeOp, p) + " OR " + LeafSql(Service, ILikeOp, p)
    + " OR " + LeafSql(Host, ILikeOp, p) + ")"
  }

  function VariantExprs(t: nat, n: nat): (r: seq<Expr>)
    ensures |r| == n && forall v :: 0 <= v < n ==> r[v] == VariantExpr(NameText(NSearch(t, v)))
  {
    seq(n, v requires 0 <= v < n => VariantExpr(NameText(NSearch(t, v))))
  }

  function VariantSqls(t: nat, n: nat): (r: seq<string>)
    ensures |r| == n && forall v :: 0 <= v < n ==> r[v] == VariantSql(NameText(NSearch(t, v)))
  {
    seq(n, v requires 0 <= v < n => VariantSql(NameText(NSearch(t, v))))
  }

  function TokenExprs(ts: seq<string>): (r: seq<Expr>)
    requires forall t <- ts :: !TokenThrows(t)
    ensures |r| == |ts|
    ensures forall t :: 0 <= t < |ts| ==> r[t] == MkAny(VariantExprs(t, |Variants(ts[t])|))
  {
    seq(|ts|, t requires 0 <= t < |ts| => assert ts[t] in ts; MkAny(VariantExprs(t, |Variants(ts[t])|)))
  }

  function TokenSqls(ts: seq<string>): (r: seq<string>)
    requires forall t <- ts :: !TokenThrows(t)
    ensures |r| == |ts|
    ensures forall t :: 0 <= t < |ts| ==> r[t] == "(" + Join(VariantSqls(t, |Variants(ts[t])|), " OR ") + ")"
  {
    seq(|ts|, t requires 0 <= t < |ts| =>
      assert ts[t] in ts; "(" + Join(VariantSqls(t, |Variants(ts[t])|), " OR ") + ")")
  }

  function AddNew(vs: seq<string>, v: string): seq<string> { if v in vs then vs else vs + [v] }

  function AddAll(vs: seq<string>, more: seq<string>, n: nat): seq<string>
    requires n <= |more|
  {
    if n == 0 then vs else AddNew(AddAll(vs, more, n - 1), more[n - 1])
  }

  /** The variants in the insertion order of the Set. */
  function Variants(token: string): seq<string>
    requires !TokenThrows(token)
  {
    OrderedForms(token, MappedVariants(token).value)
  }

  function OrderedForms(token: string, mapped: seq<string>): seq<string> {
    var a := AddAll([token], mapped, |mapped|);
    var b := if EndsWith(token, "s") && |token| > 4 then AddNew(a, token[..|token| - 1]) else a;
    var c := if EndsWith(token, "ed") && |token| > 4 then AddNew(b, token[..|token| - 2]) else b;
    if EndsWith(token, "ing") && |token| > 5 then AddNew(c, token[..|token| - 3]) else c
  }

  lemma {:induction false} AddAllElements(vs: seq<string>, more: seq<string>, n: nat)
    requires n <= |more|
    ensures forall v :: v in AddAll(vs, more, n) <==> v in vs || v in more[..n]
    ensures vs <= AddAll(vs, more, n)
  {
    if n > 0 {
      AddAllElements(vs, more, n - 1);
      assert more[..n] == more[..n - 1] + [more[n - 1]];
    }
  }

  /** The ordered variants are the variant set, the token first. */
  lemma FormsAreSet(token: string, mapped: seq<string>)
    ensures OrderedForms(token, mapped) != [] && OrderedForms(token, mapped)[0] == token
    ensures forall v :: v in OrderedForms(token, mapped) <==> v in FormsOf(token, mapped)
  {
    hide AddAll, EndsWith;
    AddAllElements([token], mapped, |mapped|);
    assert mapped[..|mapped|] == mapped;
  }

  // ---- bindings

  ghost predicate ScopeBound(m: Params, q: Query, w: World) {
    && Bound(m, NTeam, Str(q.teamId))
    && (Given(q.sourceId) ==> Bound(m, NSource, Str(q.sourceId.value)))
    && (Given(q.startTime) ==>
          w.parseDate(q.startTime.value).Some? && Bound(m, NStart, Stamp(w.parseDate(q.startTime.value).value)))
    && (Given(q.endTime) ==>
          w.parseDate(q.endTime.value).Some? && Bound(m, NEnd, Stamp(w.parseDate(q.endTime.value).value)))
  }

  ghost predicate FiltersBound(m: Params, fs: seq<LogFilter>, n: nat)
    requires n <= |fs|
  {
    forall i: nat :: i < n && FilterColumn(fs[i]).Some? ==> Bound(m, NFilter(i), FilterParam(fs[i]))
  }

  ghost predicate VariantsBound(m: Params, t: nat, vs: seq<string>, n: nat)
    requires n <= |vs|
  {
    forall v: nat :: v < n ==> Bound(m, NSearch(t, v), Str("%" + vs[v] + "%"))
  }

  ghost predicate TokensBound(m: Params, ts: seq<string>, n: nat)
    requires n <= |ts|
  {
    forall t: nat :: t < n ==> !TokenThrows(ts[t]) && VariantsBound(m, t, Variants(ts[t]), |Variants(ts[t])|)
  }

  function SearchTokens(q: Query): (r: seq<string>)
    ensures forall t <- r :: forall c <- t :: SafeKeyChar(c)
  {
    if Searches(q) then Tokens(q.text.value) else []
  }

  ghost predicate AllBound(m: Params, q: Query, w: World) {
    && ScopeBound(m, q, w)
    && FiltersBound(m, q.filters, |q.filters|)
    && TokensBound(m, SearchTokens(q), |SearchTokens(q)|)
  }

  function CondExprs(q: Query): seq<Expr>
    requires forall t <- SearchTokens(q) :: !TokenThrows(t)
  {
    ScopeExprs(q) + FilterExprs(q.filters, |q.filters|) + TokenExprs(SearchTokens(q))
  }

  function CondSqls(q: Query): seq<string>
    requires forall t <- SearchTokens(q) :: !TokenThrows(t)
  {
    Sqls(ScopeExprs(q)) + Sqls(FilterExprs(q.filters, |q.filters|)) + TokenSqls(SearchTokens(q))
  }
}
