/** A single comparison reads back as itself, the message signature included. */
module WhereLeaves {
  import opened Text
  import opened WhereText
  import opened WhereGrammar

  // ---- the signature expression is one word

  /** `b` stays inside the string literal it is written in. */
  ghost predicate InQuotes(b: string) {
    forall d: nat :: Scan(b, Quoted(d)) == Quoted(d) && Clear(b, Quoted(d), " ")
  }

  lemma {:induction false} PlainInQuotes(b: string)
    requires '\'' !in b && '\\' !in b
    ensures InQuotes(b)
  {
    forall d: nat ensures Scan(b, Quoted(d)) == Quoted(d) && Clear(b, Quoted(d), " ") { PlainInQuotesAt(b, d); }
  }

  lemma {:induction false} PlainInQuotesAt(b: string, d: nat)
    requires '\'' !in b && '\\' !in b
    ensures Scan(b, Quoted(d)) == Quoted(d) && Clear(b, Quoted(d), " ")
  {
    if b != "" {
      assert b[0] in b;
      PlainInQuotesAt(b[1..], d);
    }
  }

  lemma InQuotesConcat(a: string, b: string)
    requires InQuotes(a) && InQuotes(b)
    ensures InQuotes(a + b)
  {
    forall d: nat ensures Scan(a + b, Quoted(d)) == Quoted(d) && Clear(a + b, Quoted(d), " ") {
      ScanConcat(a, b, Quoted(d));
      ClearConcat(a, b, Quoted(d), " ");
    }
  }

  /** The doubled backslash and the doubled quote leave a literal open. */
  lemma DoubledInQuotes()
    ensures InQuotes(BB) && InQuotes(QQ)
  {
    forall d: nat
      ensures Scan(BB, Quoted(d)) == Quoted(d) && Clear(BB, Quoted(d), " ")
      ensures Scan(QQ, Quoted(d)) == Quoted(d) && Clear(QQ, Quoted(d), " ")
    {
      assert BB[1..] == "\\" && "\\"[1..] == "";
      assert Scan("\\", Escaped(d)) == Quoted(d) && Clear("\\", Escaped(d), " ");
      assert QQ[1..] == "'" && "'"[1..] == "";
      assert Scan("'", Plain(d)) == Quoted(d) && Clear("'", Plain(d), " ");
    }
  }

  lemma After(lead: string, plain: string, rest: string)
    requires InQuotes(lead) && InQuotes(rest) && '\'' !in plain && '\\' !in plain
    ensures InQuotes(lead + (plain + rest)) && InQuotes(plain + rest)
  {
    PlainInQuotes(plain);
    InQuotesConcat(plain, rest);
    InQuotesConcat(lead, plain + rest);
  }

  lemma WordBoundary() returns (end: string)
    ensures end == BB + "b" && InQuotes(end) && InQuotes(BB)
  {
    DoubledInQuotes();
    PlainInQuotes("b");
    InQuotesConcat(BB, "b");
    end := BB + "b";
  }

  lemma HexInQuotes()
    ensures InQuotes(HEX_SQL)
  {
    var t := WordBoundary();
    After(BB, "b0x[0-9a-f]+", t);
    After("", "(?i)", BB + ("b0x[0-9a-f]+" + t));
  }

  lemma IdInQuotes()
    ensures InQuotes(ID_SQL)
  {
    var t := WordBoundary();
    After(BB, "d+[a-zA-Z0-9_-]*", t);
    After(BB, "b[a-zA-Z_][a-zA-Z0-9_-]*", BB + ("d+[a-zA-Z0-9_-]*" + t));
  }

  lemma NumberInQuotes()
    ensures InQuotes(NUMBER_SQL)
  {
    var t := WordBoundary();
    After(BB, "d+", t);
    After(BB, "b", BB + ("d+" + t));
  }

  lemma QuotedInQuotes()
    ensures InQuotes(QUOTED_SQL)
  {
    DoubledInQuotes();
    After(QQ, "]*", QQ);
    After(QQ, "[^", QQ + ("]*" + QQ));
    After("", "\"[^\"]*\"|", QQ + ("[^" + (QQ + ("]*" + QQ))));
  }

  lemma UuidInQuotes()
    ensures InQuotes(UUID_SQL)
  {
    var t := WordBoundary();
    PlainInQuotes(G4);
    After("", "[0-9a-f]{12}", t); t := "[0-9a-f]{12}" + t;
    InQuotesConcat(G4, t); t := G4 + t;
    InQuotesConcat(G4, t); t := G4 + t;
    InQuotesConcat(G4, t); t := G4 + t;
    After(BB, "b[0-9a-f]{8}-", t); t := BB + ("b[0-9a-f]{8}-" + t);
    After("", "(?i)", t);
  }

  lemma TimestampInQuotes()
    ensures InQuotes(TS_SQL)
  {
    var t := WordBoundary();
    After(BB, "d{2})?", t); t := BB + ("d{2})?" + t);
    After(BB, "d{2}:", t); t := BB + ("d{2}:" + t);
    After(BB, "d+)?(?:z|[+-]", t); t := BB + ("d+)?(?:z|[+-]" + t);
    After(BB, "d{2}(?:[.,]", t); t := BB + ("d{2}(?:[.,]" + t);
    After(BB, "d{2}:", t); t := BB + ("d{2}:" + t);
    After(BB, "d{2}:", t); t := BB + ("d{2}:" + t);
    After(BB, "d{2}[t ]", t); t := BB + ("d{2}[t ]" + t);
    After(BB, "d{2}-", t); t := BB + ("d{2}-" + t);
    After(BB, "d{4}-", t); t := BB + ("d{4}-" + t);
    After(BB, "b", t); t := BB + ("b" + t);
  }

  // ---- the calls around the literals

  /** From any depth `a` to depth `b`, with no space at top level. */
  ghost predicate Moves(s: string, a: nat, b: nat) {
    Scan(s, Plain(a)) == Plain(b) && Clear(s, Plain(a), " ")
  }

  lemma MovesConcat(s: string, t: string, a: nat, b: nat, c: nat)
    requires Moves(s, a, b) && Moves(t, b, c)
    ensures Moves(s + t, a, c)
  {
    ScanConcat(s, t, Plain(a));
    ClearConcat(s, t, Plain(a), " ");
  }

  lemma BlandMoves(s: string, a: nat)
    requires Bland(s)
    ensures Moves(s, a, a)
  {
    ScanBland(s, Plain(a));
    BlandClear(s, Plain(a), " ");
  }

  lemma OpenMoves(name: string, a: nat)
    requires Bland(name)
    ensures Moves(name + "(", a, a + 1)
  {
    BlandMoves(name, a);
    assert "("[1..] == "";
    MovesConcat(name, "(", a, a, a + 1);
  }

  lemma CloseMoves(a: nat)
    ensures Moves(")", a + 1, a)
  {
    assert ")"[1..] == "";
  }

  lemma LiteralMoves(b: string, a: nat)
    requires InQuotes(b)
    ensures Moves("'" + b + "'", a, a)
  {
    var q := "'" + b + "'";
    assert q[1..] == b + "'" && "'"[1..] == "";
    assert Scan("'", Quoted(a)) == Plain(a) && Clear("'", Quoted(a), " ");
    ScanConcat(b, "'", Quoted(a));
    ClearConcat(b, "'", Quoted(a), " ");
  }

  lemma ArgsMoves(pattern: string, replacement: string, a: nat)
    requires InQuotes(pattern) && '\'' !in replacement && '\\' !in replacement
    ensures Moves(Args(pattern, replacement), a + 1, a)
  {
    PlainInQuotes(replacement);
    LiteralMoves(pattern, a + 1);
    LiteralMoves(replacement, a + 1);
    BlandMoves(",", a + 1);
    CloseMoves(a);
    MovesConcat("'" + pattern + "'", ",", a + 1, a + 1, a + 1);
    MovesConcat("'" + replacement + "'", ")", a + 1, a + 1, a);
    MovesConcat("'" + pattern + "'" + ",", "'" + replacement + "'" + ")", a + 1, a + 1, a);
  }

  lemma ColumnMoves()
    ensures Moves(LOWERED, 6, 6)
  {
    hide Scan, Clear;
    OpenMoves("lowerUTF8", 6);
    assert "lowerUTF8" + "(" == "lowerUTF8(";
    BlandMoves("message", 7);
    CloseMoves(6);
    BlandMoves(",", 6);
    MovesConcat(")", ",", 7, 6, 6);
    MovesConcat("message", ")" + ",", 7, 7, 6);
    MovesConcat("lowerUTF8(", "message" + (")" + ","), 6, 7, 6);
  }

  lemma NextCall(tail: string, a: nat) returns (t: string)
    requires Moves(tail, a + 1, 6)
    ensures t == CALL + tail && Moves(t, a, 6)
  {
    t := CALL + tail;
    OpenMoves("replaceRegexpAll", a);
    assert "replaceRegexpAll" + "(" == CALL;
    MovesConcat(CALL, tail, a, a + 1, 6);
  }

  lemma SixCalls(tail: string)
    requires Moves(tail, 6, 6)
    ensures Moves(CALL + (CALL + (CALL + (CALL + (CALL + (CALL + tail))))), 0, 6)
  {
    var t := NextCall(tail, 5);
    t := NextCall(t, 4);
    t := NextCall(t, 3);
    t := NextCall(t, 2);
    t := NextCall(t, 1);
    t := NextCall(t, 0);
  }

  lemma HeadMoves()
    ensures Moves(SIG_HEAD, 0, 6)
  {
    ColumnMoves();
    SixCalls(LOWERED);
  }

  /** The signature expression is balanced and has no space outside its literals and calls. */
  lemma SignatureIsWord()
    ensures Word(SIG_TEXT)
  {
    UuidInQuotes(); TimestampInQuotes(); QuotedInQuotes(); HexInQuotes(); IdInQuotes(); NumberInQuotes();
    HeadMoves();
    var t := Args(NUMBER_SQL, "<n>");
    ArgsMoves(NUMBER_SQL, "<n>", 0);
    ArgsMoves(ID_SQL, "<id>", 1); t := NextArgs(ID_SQL, "<id>", t, 1);
    ArgsMoves(HEX_SQL, "<hex>", 2); t := NextArgs(HEX_SQL, "<hex>", t, 2);
    ArgsMoves(QUOTED_SQL, "<quoted>", 3); t := NextArgs(QUOTED_SQL, "<quoted>", t, 3);
    ArgsMoves(TS_SQL, "<ts>", 4); t := NextArgs(TS_SQL, "<ts>", t, 4);
    ArgsMoves(UUID_SQL, "<uuid>", 5); t := NextArgs(UUID_SQL, "<uuid>", t, 5);
    MovesConcat(SIG_HEAD, t, 0, 6, 0);
  }

  lemma NextArgs(pattern: string, replacement: string, tail: string, a: nat) returns (t: string)
    requires Moves(Args(pattern, replacement), a + 1, a) && Moves(tail, a, 0)
    ensures t == Args(pattern, replacement) + ("," + tail) && Moves(t, a + 1, 0)
  {
    t := Args(pattern, replacement) + ("," + tail);
    BlandMoves(",", a);
    MovesConcat(",", tail, a, a, 0);
    MovesConcat(Args(pattern, replacement), "," + tail, a + 1, a, 0);
  }

  // ---- reading one comparison

  /** A map key or parameter name that needs no quoting. */
  predicate SafeName(k: string) {
    forall c <- k :: 'a' <= c <= 'z' || 'A' <= c <= 'Z' || IsDigit(c) || c == '_' || c == '-'
  }

  predicate SafeColumn(c: Column) { c.Field? ==> SafeName(c.key) }

  lemma FieldWord(k: string)
    requires SafeName(k)
    ensures Word("fields['" + k + "']") && ParseColumn("fields['" + k + "']") == Some(Field(k))
  {
    hide Scan, Clear;
    var s := "fields['" + k + "']";
    BlandWord("fields[");
    QuotedWord(k);
    BlandWord("]");
    WordConcat("fields[", "'" + k + "'");
    WordConcat("fields[" + ("'" + k + "'"), "]");
    assert s == "fields[" + ("'" + k + "'") + "]";
    assert s[8..|s| - 2] == k && s[|s| - 2..] == "']" && s[..8] == "fields['";
  }

  /** The two characters a column's name starts with. */
  function Initials(c: Column): (char, char) {
    match c
    case TeamId => ('t', 'e')
    case SourceId => ('s', 'o')
    case Timestamp => ('t', 'i')
    case Level => ('l', 'e')
    case Service => ('s', 'e')
    case Host => ('h', 'o')
    case Message => ('m', 'e')
    case Signature => ('r', 'e')
    case Field(_) => ('f', 'i')
  }

  lemma NameInitials(c: Column)
    requires !c.Field?
    ensures |ColumnName(c)| > 1 && (ColumnName(c)[0], ColumnName(c)[1]) == Initials(c)
  {
    match c
    case Signature => SignatureStart();
    case _ =>
  }

  /** The written names start as their columns' do. */
  lemma WrittenInitials()
    ensures ("team_id"[0], "team_id"[1]) == Initials(TeamId) && ("source_id"[0], "source_id"[1]) == Initials(SourceId)
    ensures ("timestamp"[0], "timestamp"[1]) == Initials(Timestamp) && ("level"[0], "level"[1]) == Initials(Level)
    ensures ("service"[0], "service"[1]) == Initials(Service) && ("host"[0], "host"[1]) == Initials(Host)
    ensures ("message"[0], "message"[1]) == Initials(Message)
  {
  }

  /** Every column's name is the one the database knows it by. */
  lemma NameReads(c: Column)
    requires !c.Field?
    ensures ParseName(ColumnName(c)) == Some(c)
  {
    hide SIG_TEXT;
    WrittenInitials();
    NameInitials(c);
  }

  lemma ColumnReads(c: Column)
    requires SafeColumn(c)
    ensures Word(ColumnSql(c)) && ParseColumn(ColumnSql(c)) == Some(c)
    ensures ColumnSql(c) != "" && ColumnSql(c)[0] !in "AO("
  {
    hide Scan, Clear;
    if c.Field? {
      FieldWord(c.key);
    } else {
      NameReads(c);
      NamedWord(c);
    }
  }

  lemma NamedWord(c: Column)
    requires !c.Field?
    ensures Word(ColumnName(c)) && ColumnName(c) != "" && ColumnName(c)[0] !in "AO(f"
  {
    hide Scan, Clear, ColumnName;
    NameInitials(c);
    if c == Signature { SignatureWord(); } else { NameBland(c); BlandWord(ColumnName(c)); }
  }

  lemma SignatureWord()
    ensures Word(ColumnName(Signature))
  {
    hide Scan, Clear, Args;
    SignatureIsWord();
  }

  lemma NameBland(c: Column)
    requires !c.Field? && c != Signature
    ensures Bland(ColumnName(c))
  {
  }

  lemma SignatureStart()
    ensures |SIG_TEXT| > 1 && SIG_TEXT[0] == 'r' && SIG_TEXT[1] == 'e'
  {
    hide Args;
    assert CALL[0] == 'r' && CALL[1] == 'e';
    assert SIG_HEAD[0] == 'r' && SIG_HEAD[1] == 'e';
  }

  /** Every operator is written as the database reads it. */
  lemma OpReads(op: Op)
    ensures Word(OpSql(op)) && ParseOp(OpSql(op)) == Some(op) && OpSql(op) != "" && OpSql(op)[0] !in "AO"
  {
    BlandWord(OpSql(op));
    assert "="[0] == '=' && "!="[0] == '!' && ">"[0] == '>' && ">="[0] == '>' && "<"[0] == '<' && "<="[0] == '<';
    assert "ILIKE"[0] == 'I';
  }

  lemma ParamReads(p: string)
    requires SafeName(p)
    ensures Word(ParamSql(p)) && ParseParam(ParamSql(p)) == Some(p) && ParamSql(p) != "" && ParamSql(p)[0] == '{'
  {
    var s := ParamSql(p);
    BlandWord("{"); BlandWord(p); BlandWord(":String}");
    WordConcat("{", p);
    WordConcat("{" + p, ":String}");
    assert s[1..|s| - 8] == p && s[|s| - 8..] == ":String}" && s[..1] == "{";
  }

  /** Every comparison the compiler writes is one operand and reads back as itself. */
  lemma LeafReads(c: Column, op: Op, p: string)
    requires SafeColumn(c) && SafeName(p)
    ensures Unit(LeafSql(c, op, p), Leaf(c, op, p), ParseLeaf)
  {
    hide ParseColumn, ParseOp, ParseParam, ColumnSql, OpSql, ParamSql, Scan, Clear, ParseName, ColumnName;
    var a, b, d := ColumnSql(c), OpSql(op), ParamSql(p);
    var s := LeafSql(c, op, p);
    ColumnReads(c); OpReads(op); ParamReads(p);
    assert s == Join([a, b, d], " ") by {
      assert [a, b, d][1..] == [b, d] && [b, d][1..] == [d];
      assert Join([b, d], " ") == b + " " + d;
    }
    SplitTopJoin([a, b, d], " ");
    LeafOperand(a, b, d, " OR ");
    LeafOperand(a, b, d, " AND ");
    assert s[0] == a[0];
  }

  lemma LeafOperand(a: string, b: string, d: string, sep: string)
    requires Word(a) && Word(b) && Word(d) && b != "" && d != "" && |sep| > 1 && b[0] != sep[1] && d[0] != sep[1]
    ensures Operand(a + " " + b + " " + d, sep)
  {
    WordClear(a, TOP, sep); WordClear(b, TOP, sep); WordClear(d, TOP, sep);
    SpacedOperand(b, d, sep);
    SpacedOperand(a, b + " " + d, sep);
    assert a + " " + b + " " + d == a + " " + (b + " " + d);
  }

  lemma SpacedOperand(a: string, b: string, sep: string)
    requires |sep| > 1 && Operand(a, sep) && Operand(b, sep) && b != "" && b[0] != sep[1]
    ensures Operand(a + " " + b, sep)
  {
    hide Scan, Clear;
    SpaceBefore(b, sep);
    assert a + " " + b == a + (" " + b);
    ScanConcat(a, " " + b, TOP);
    ClearConcat(a, " " + b, TOP, sep);
  }
}
