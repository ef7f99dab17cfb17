/** The meaning of a WHERE text: a parser in which AND binds tighter than OR and parentheses
    group, and an evaluator of the parsed condition over a row and a parameter map. */
module WhereText {
  import opened Text
  import opened LikePattern

  // ---- rows, parameters, conditions

  datatype Row = Row(teamId: string, sourceId: string, timestamp: int, level: string, service: string,
                     host: string, message: string, fields: map<string, string>)

  /** A bound query parameter: a string, a number with its decimal spelling, or an instant. */
  datatype Value = Str(s: string) | Num(text: string) | Stamp(ms: int)

  type Params = map<string, Value>

  datatype Column = TeamId | SourceId | Timestamp | Level | Service | Host | Message | Field(key: string) | Signature

  datatype Op = Eq | Neq | Gt | Lt | Ge | Le | ILikeOp

  datatype Expr = Leaf(column: Column, op: Op, param: string) | All(es: seq<Expr>) | Any(es: seq<Expr>)

  /** What a column reads from a row; `sig` is the message signature the database computes. */
  function ColumnText(c: Column, row: Row, sig: string -> string): string {
    match c
    case TeamId => row.teamId
    case SourceId => row.sourceId
    case Timestamp => ""
    case Level => row.level
    case Service => row.service
    case Host => row.host
    case Message => row.message
    case Field(k) => if k in row.fields then row.fields[k] else ""
    case Signature => sig(row.message)
  }

  /** Lexicographic order on strings. */
  predicate Below(a: string, b: string) {
    b != "" && (a == "" || a[0] < b[0] || (a[0] == b[0] && Below(a[1..], b[1..])))
  }

  predicate CompareText(a: string, op: Op, b: string) {
    match op
    case Eq => a == b
    case Neq => a != b
    case Gt => Below(b, a)
    case Lt => Below(a, b)
    case Ge => !Below(a, b)
    case Le => !Below(b, a)
    case ILikeOp => ILike(a, b)
  }

  predicate CompareTime(a: int, op: Op, b: int) {
    match op
    case Eq => a == b
    case Neq => a != b
    case Gt => a > b
    case Lt => a < b
    case Ge => a >= b
    case Le => a <= b
    case ILikeOp => false
  }

  function ValueText(v: Value): string {
    match v
    case Str(s) => s
    case Num(t) => t
    case Stamp(_) => ""
  }

  /** An unbound parameter makes the condition false. */
  predicate Eval(e: Expr, params: Params, row: Row, sig: string -> string)
  {
    match e
    case Leaf(c, op, p) =>
      p in params &&
      (if c == Timestamp && params[p].Stamp? then CompareTime(row.timestamp, op, params[p].ms)
       else CompareText(ColumnText(c, row, sig), op, ValueText(params[p])))
    case All(es) => forall x <- es :: Eval(x, params, row, sig)
    case Any(es) => exists x <- es :: Eval(x, params, row, sig)
  }

  // ---- scanning: parenthesis depth and string literals

  datatype Mode = Plain(depth: nat) | Quoted(depth: nat) | Escaped(depth: nat) | Broken

  function Step(m: Mode, c: char): Mode {
    match m
    case Plain(d) =>
      if c == '(' then Plain(d + 1)
      else if c == ')' then (if d > 0 then Plain(d - 1) else Broken)
      else if c == '\'' then Quoted(d)
      else m
    case Quoted(d) => if c == '\'' then Plain(d) else if c == '\\' then Escaped(d) else m
    case Escaped(d) => Quoted(d)
    case Broken => Broken
  }

  function Scan(s: string, m: Mode): Mode {
    if s == "" then m else Scan(s[1..], Step(m, s[0]))
  }

  const TOP := Plain(0)

  /** Splits at the occurrences of `sep` outside parentheses and string literals. */
  function SplitTop(s: string, sep: string, m: Mode, acc: string): (r: seq<string>)
    requires sep != ""
    ensures |r| >= 1
    ensures forall p <- r :: |p| <= |acc| + |s|
    decreases |s|
  {
    if s == "" then [acc]
    else if m == TOP && sep <= s then [acc] + SplitTop(s[|sep|..], sep, TOP, "")
    else SplitTop(s[1..], sep, Step(m, s[0]), acc + [s[0]])
  }

  // ---- parsing

  // The message signature: six nested replaceRegexpAll calls around lowerUTF8(message).

  const CALL := "replaceRegexpAll("
  const SIG_HEAD := CALL + (CALL + (CALL + (CALL + (CALL + (CALL + LOWERED)))))
  const LOWERED := "lowerUTF8(" + ("message" + (")" + ","))

  /** A backslash inside a ClickHouse literal is written twice. */
  const BB := "\\\\"
  /** A quote inside a literal is written twice. */
  const QQ := "''"

  const UUID_SQL := "(?i)" + (BB + ("b[0-9a-f]{8}-" + (G4 + (G4 + (G4 + ("[0-9a-f]{12}" + (BB + "b")))))))
  const G4 := "[0-9a-f]{4}-"
  const TS_SQL := BB + ("b" + (BB + ("d{4}-" + (BB + ("d{2}-" + (BB + ("d{2}[t ]" + (BB + ("d{2}:" + (BB + ("d{2}:" +
    (BB + ("d{2}(?:[.,]" + (BB + ("d+)?(?:z|[+-]" + (BB + ("d{2}:" + (BB + ("d{2})?" + (BB + "b"))))))))))))))))))))
  const QUOTED_SQL := "\"[^\"]*\"|" + (QQ + ("[^" + (QQ + ("]*" + QQ))))
  const HEX_SQL := "(?i)" + (BB + ("b0x[0-9a-f]+" + (BB + "b")))
  const ID_SQL := BB + ("b[a-zA-Z_][a-zA-Z0-9_-]*" + (BB + ("d+[a-zA-Z0-9_-]*" + (BB + "b"))))
  const NUMBER_SQL := BB + ("b" + (BB + ("d+" + (BB + "b"))))

  /** The remaining two arguments of one call: the pattern and the replacement. */
  function Args(pattern: string, replacement: string): string {
    "'" + pattern + "'" + "," + ("'" + replacement + "'" + ")")
  }

  const SIG_TEXT := SIG_HEAD + SIG_ARGS
  const SIG_ARGS :=
    (Args(UUID_SQL, "<uuid>") + ("," + (Args(TS_SQL, "<ts>") + ("," + (Args(QUOTED_SQL, "<quoted>") + ("," +
    (Args(HEX_SQL, "<hex>") + ("," + (Args(ID_SQL, "<id>") + ("," + Args(NUMBER_SQL, "<n>")))))))))))

  function ColumnName(c: Column): string
    requires !c.Field?
  {
    match c
    case TeamId => "team_id"
    case SourceId => "source_id"
    case Timestamp => "timestamp"
    case Level => "level"
    case Service => "service"
    case Host => "host"
    case Message => "message"
    case Signature => SIG_TEXT
  }

  function ColumnSql(c: Column): string {
    if c.Field? then "fields['" + c.key + "']" else ColumnName(c)
  }

  function OpSql(op: Op): string {
    match op
    case Eq => "="
    case Neq => "!="
    case Gt => ">"
    case Lt => "<"
    case Ge => ">="
    case Le => "<="
    case ILikeOp => "ILIKE"
  }

  function ParamSql(name: string): string { "{" + name + ":String}" }

  function LeafSql(c: Column, op: Op, param: string): string {
    ColumnSql(c) + " " + OpSql(op) + " " + ParamSql(param)
  }

  /** The names the database knows its columns by. */
  function ParseName(s: string): Option<Column> {
    if s == "team_id" then Some(TeamId)
    else if s == "source_id" then Some(SourceId)
    else if s == "timestamp" then Some(Timestamp)
    else if s == "level" then Some(Level)
    else if s == "service" then Some(Service)
    else if s == "host" then Some(Host)
    else if s == "message" then Some(Message)
    else if s == SIG_TEXT then Some(Signature)
    else None
  }

  function ParseColumn(s: string): Option<Column> {
    if "fields['" <= s then
      if |s| >= 10 && EndsWith(s, "']") && '\'' !in s[8..|s| - 2] && '\\' !in s[8..|s| - 2]
      then Some(Field(s[8..|s| - 2])) else None
    else ParseName(s)
  }

  function ParseOp(s: string): Option<Op> {
    if s == "=" then Some(Eq)
    else if s == "!=" then Some(Neq)
    else if s == ">" then Some(Gt)
    else if s == "<" then Some(Lt)
    else if s == ">=" then Some(Ge)
    else if s == "<=" then Some(Le)
    else if s == "ILIKE" then Some(ILikeOp)
    else None
  }

  function ParseParam(s: string): Option<string> {
    if |s| >= 9 && "{" <= s && EndsWith(s, ":String}") then Some(s[1..|s| - 8]) else None
  }

  function ParseLeaf(s: string): Option<Expr> {
    var parts := SplitTop(s, " ", TOP, "");
    if |parts| != 3 then None
    else
      var c, op, p := ParseColumn(parts[0]), ParseOp(parts[1]), ParseParam(parts[2]);
      if c.Some? && op.Some? && p.Some? then Some(Leaf(c.value, op.value, p.value)) else None
  }

  function MkAny(es: seq<Expr>): Expr { if |es| == 1 then es[0] else Any(es) }

  function MkAll(es: seq<Expr>): Expr { if |es| == 1 then es[0] else All(es) }

  type Leaves = string -> Option<Expr>

  /** `or := and (" OR " and)*`, `and := prim (" AND " prim)*`, `prim := "(" or ")" | leaf`. */
  function ParseOr(s: string, leaf: Leaves): Option<Expr>
    decreases |s|, 3, 0
  {
    if Scan(s, TOP) != TOP then None
    else
      var es := ParseAnds(SplitTop(s, " OR ", TOP, ""), leaf, |s|);
      if es.Some? then Some(MkAny(es.value)) else None
  }

  function ParseAnds(parts: seq<string>, leaf: Leaves, n: nat): (r: Option<seq<Expr>>)
    requires forall p <- parts :: |p| <= n
    ensures r.Some? ==> |r.value| == |parts|
    decreases n, 2, |parts|
  {
    if parts == [] then Some([])
    else
      var e, es := ParseAnd(parts[0], leaf, n), ParseAnds(parts[1..], leaf, n);
      if e.Some? && es.Some? then Some([e.value] + es.value) else None
  }

  function ParseAnd(s: string, leaf: Leaves, n: nat): Option<Expr>
    requires |s| <= n
    decreases n, 1, 1 + |s|
  {
    var es := ParsePrims(SplitTop(s, " AND ", TOP, ""), leaf, n);
    if es.Some? then Some(MkAll(es.value)) else None
  }

  function ParsePrims(parts: seq<string>, leaf: Leaves, n: nat): (r: Option<seq<Expr>>)
    requires forall p <- parts :: |p| <= n
    ensures r.Some? ==> |r.value| == |parts|
    decreases n, 1, 0, |parts|
  {
    if parts == [] then Some([])
    else
      var e, es := ParsePrim(parts[0], leaf, n), ParsePrims(parts[1..], leaf, n);
      if e.Some? && es.Some? then Some([e.value] + es.value) else None
  }

  function ParsePrim(s: string, leaf: Leaves, n: nat): Option<Expr>
    requires |s| <= n
    decreases n, 0, 0
  {
    if |s| >= 2 && s[0] == '(' && s[|s| - 1] == ')' then ParseOr(s[1..|s| - 1], leaf) else leaf(s)
  }

  function ParseWhere(s: string): Option<Expr> { ParseOr(s, ParseLeaf) }
}
