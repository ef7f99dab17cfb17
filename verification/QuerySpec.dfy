/** Structured log queries and the rows they ask for, stated without SQL. */
module QuerySpec {
  import opened Text
  import opened LikePattern
  import opened WhereText

  datatype FilterOp = FEq | FNeq | FGt | FLt | FContains

  /** A filter value: a string, or a number with its decimal spelling. */
  datatype FilterValue = FStr(s: string) | FNum(text: string)

  datatype LogFilter = LogFilter(field: string, operator: FilterOp, value: FilterValue)

  datatype Query = Query(teamId: string, sourceId: Option<string>, startTime: Option<string>,
                         endTime: Option<string>, text: Option<string>, natural: bool,
                         filters: seq<LogFilter>)

  /** What lies outside: `new Date(text)`, which fails on some texts, and the database's message signature. */
  datatype World = World(parseDate: string -> Option<int>, sig: string -> string)

  /** JavaScript truthiness of an optional string. */
  predicate Given(s: Option<string>) { s.Some? && s.value != "" }

  function ValueString(v: FilterValue): string {
    match v case FStr(s) => s case FNum(t) => t
  }

  predicate SafeKeyChar(c: char) { 'a' <= c <= 'z' || IsDigit(c) || c == '_' || c == '-' }

  /** `s.toLowerCase().replace(/[^a-z0-9_-]/g, "")`. */
  function Sanitize(s: string): (r: string)
    ensures |r| <= |s| && forall c <- r :: SafeKeyChar(c)
  {
    if s == "" then ""
    else
      var c := LowerChar(s[0]);
      (if SafeKeyChar(c) then [c] else "") + Sanitize(s[1..])
  }

  const SEARCHABLE: seq<string> := ["level", "service", "host", "message"]

  function SearchableColumn(f: string): Column
    requires f in SEARCHABLE
  {
    if f == "level" then Level else if f == "service" then Service else if f == "host" then Host else Message
  }

  /** The column a filter reads; none when the filter is dropped. */
  function FilterColumn(f: LogFilter): Option<Column> {
    if f.field == "__pattern" then (if f.operator.FGt? || f.operator.FLt? then None else Some(Signature))
    else if f.field in SEARCHABLE then Some(SearchableColumn(f.field))
    else if Sanitize(f.field) == "" then None
    else Some(Field(Sanitize(f.field)))
  }

  /** What a filter asks of a row; a dropped filter asks nothing. */
  predicate FilterHolds(f: LogFilter, row: Row, w: World) {
    FilterColumn(f).Some? ==>
      var cell := ColumnText(FilterColumn(f).value, row, w.sig);
      var v := if f.field == "__pattern" then Lower(ValueString(f.value)) else ValueString(f.value);
      match f.operator
      case FEq => cell == v
      case FNeq => cell != v
      case FGt => Below(v, cell)
      case FLt => Below(cell, v)
      case FContains => ILike(cell, "%" + v + "%")
  }

  // ---- free text

  /** The non-empty pieces between runs of white space, in order. */
  function Words(s: string, acc: string): seq<string>
    decreases |s|
  {
    if s == "" then (if acc == "" then [] else [acc])
    else if IsSpace(s[0]) then (if acc == "" then [] else [acc]) + Words(s[1..], "")
    else Words(s[1..], acc + [s[0]])
  }

  function KeepTokens(ws: seq<string>): (r: seq<string>)
    ensures forall t <- r :: |t| > 1 && forall c <- t :: SafeKeyChar(c)
  {
    if ws == [] then []
    else (if |Sanitize(ws[0])| > 1 then [Sanitize(ws[0])] else []) + KeepTokens(ws[1..])
  }

  function Tokens(s: string): (r: seq<string>)
    ensures forall t <- r :: |t| > 1 && forall c <- t :: SafeKeyChar(c)
  {
    KeepTokens(Words(s, ""))
  }

  /** The table of mapped variants; a token naming a member every JavaScript object inherits is
      looked up as that member, which cannot be iterated. */
  function MappedVariants(token: string): Result<seq<string>> {
    if token == "constructor" || token == "__proto__" then Throws
    else if token == "fail" then Ok(["failed", "failure", "failures", "failing"])
    else if token == "failed" then Ok(["fail", "failure", "failures", "failing"])
    else if token == "failure" then Ok(["fail", "failed", "failures", "failing"])
    else if token == "failures" then Ok(["fail", "failed", "failure", "failing"])
    else if token == "failing" then Ok(["fail", "failed", "failure", "failures"])
    else Ok([])
  }

  /** The forms a token is searched under, as a set. */
  function VariantSet(token: string): set<string>
    requires MappedVariants(token).Ok?
  {
    FormsOf(token, MappedVariants(token).value)
  }

  function FormsOf(token: string, mapped: seq<string>): set<string> {
    {token} + (set v | v in mapped)
    + (if EndsWith(token, "s") && |token| > 4 then {token[..|token| - 1]} else {})
    + (if EndsWith(token, "ed") && |token| > 4 then {token[..|token| - 2]} else {})
    + (if EndsWith(token, "ing") && |token| > 5 then {token[..|token| - 3]} else {})
  }

  predicate TokenThrows(token: string) { MappedVariants(token).Throws? }

  /** A token is found in a row when one of its forms matches the message, the service or the host. */
  predicate TokenHolds(token: string, row: Row) {
    MappedVariants(token).Ok? &&
    exists v <- VariantSet(token) ::
      ILike(row.message, "%" + v + "%") || ILike(row.service, "%" + v + "%") || ILike(row.host, "%" + v + "%")
  }

  predicate Searches(q: Query) { Given(q.text) && !q.natural }

  /** The rows a query asks for. */
  predicate RowMatches(q: Query, row: Row, w: World) {
    && row.teamId == q.teamId
    && (Given(q.sourceId) ==> row.sourceId == q.sourceId.value)
    && (Given(q.startTime) ==>
          w.parseDate(q.startTime.value).Some? && row.timestamp >= w.parseDate(q.startTime.value).value)
    && (Given(q.endTime) ==>
          w.parseDate(q.endTime.value).Some? && row.timestamp <= w.parseDate(q.endTime.value).value)
    && (forall i :: 0 <= i < |q.filters| ==> FilterHolds(q.filters[i], row, w))
    && (Searches(q) ==> forall i :: 0 <= i < |Tokens(q.text.value)| ==> TokenHolds(Tokens(q.text.value)[i], row))
  }

  /** When building the query throws instead: an unreadable time bound, or a search token that
      names an inherited object member. */
  predicate QueryThrows(q: Query, w: World) {
    || (Given(q.startTime) && w.parseDate(q.startTime.value).None?)
    || (Given(q.endTime) && w.parseDate(q.endTime.value).None?)
    || (Searches(q) && exists t <- Tokens(q.text.value) :: TokenThrows(t))
  }

  // ---- consequences for the reader of a search

  /** Variant expansion never loses a match: a row that contains the token is found. */
  lemma TokenFound(token: string, row: Row)
    requires MappedVariants(token).Ok? && forall c <- token :: SafeKeyChar(c)
    requires Contains(Lower(row.message), token) || Contains(Lower(row.service), token)
      || Contains(Lower(row.host), token)
    ensures TokenHolds(token, row)
  {
    assert '\\' !in token;
    LowerSafe(token);
    ILikeTerm(row.message, token);
    ILikeTerm(row.service, token);
    ILikeTerm(row.host, token);
    assert token in VariantSet(token);
  }

  lemma LowerSafe(t: string)
    requires forall c <- t :: SafeKeyChar(c)
    ensures Lower(t) == t
  {
    forall i | 0 <= i < |t| ensures Lower(t)[i] == t[i] { assert t[i] in t; }
  }

  /** A text without white space is one word. */
  lemma {:induction false} WordsFinish(s: string, acc: string)
    requires forall c <- s :: !IsSpace(c)
    ensures Words(s, acc) == if acc + s == "" then [] else [acc + s]
    decreases |s|
  {
    if s != "" {
      assert s[0] in s;
      WordsFinish(s[1..], acc + [s[0]]);
      assert acc + [s[0]] + s[1..] == acc + s;
    } else {
      assert acc + s == acc;
    }
  }
}
