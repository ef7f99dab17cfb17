/** Natural-language searches: a translation's filters are vetted, its terms and time range folded into the query,
    and a search that finds nothing is repeated without the filters. */
module NaturalSearch {
  import opened Text
  import opened LikePattern
  import opened WhereText
  import opened QuerySpec
  import opened PageToken
  import opened Paging
  import opened Planner
  import opened PlannerWords

  // ---- planning

  datatype Translation = Translation(filters: seq<LogFilter>, timeRange: Option<(string, string)>,
                                     textTerms: seq<string>)

  const STOPWORDS: seq<string> := [
    "log", "logs", "entry", "entries", "event", "events", "record", "records", "item", "items", "row", "rows",
    "show", "find", "search", "get", "list", "display", "give", "fetch", "retrieve", "pull",
    "me", "my", "all", "the", "a", "an", "recent", "latest", "newest", "oldest"]

  /** `value.toLowerCase().split(/\s+/)` has the piece `term`. */
  predicate HasPiece(value: string, term: string) {
    var v := Lower(value);
    if term == "" then v == "" || IsSpace(v[0]) || IsSpace(v[|v| - 1]) else term in Words(v, "")
  }

  /** `s[i..j]` is a word of `s`: no white space in it, and only white space or nothing next to it. */
  predicate WordAt(s: string, i: nat, j: nat, word: string) {
    && i < j <= |s| && s[i..j] == word && (forall k :: i <= k < j ==> !IsSpace(s[k]))
    && (i > 0 ==> IsSpace(s[i - 1])) && (j < |s| ==> IsSpace(s[j]))
  }

  /** A term that is not empty is a piece of a value exactly when it is one of its words. */
  lemma PieceIff(value: string, term: string)
    ensures term != "" ==>
      (HasPiece(value, term) <==> exists i: nat, j: nat :: WordAt(Lower(value), i, j, term))
  {
    hide IsSpace, WordAt;
    if term != "" {
      WordsFound(Lower(value), "", term);
      assert "" + Lower(value) == Lower(value);
    }
  }

  lemma {:induction false} WordsFound(s: string, acc: string, word: string)
    requires word != "" && forall c <- acc :: !IsSpace(c)
    ensures word in Words(s, acc) <==> exists i: nat, j: nat :: WordAt(acc + s, i, j, word)
    decreases |s|
  {
    hide IsSpace, WordAt;
    if s == "" {
      assert acc + s == acc;
      OnlyWord(acc, word);
    } else if IsSpace(s[0]) {
      WordsFound(s[1..], "", word);
      assert "" + s[1..] == s[1..];
      WordsSplit(acc, s, word);
    } else {
      WordsFound(s[1..], acc + [s[0]], word);
      assert acc + [s[0]] + s[1..] == acc + s;
    }
  }

  lemma OnlyWord(acc: string, word: string)
    requires word != "" && forall c <- acc :: !IsSpace(c)
    ensures acc == word <==> exists i: nat, j: nat :: WordAt(acc, i, j, word)
  {
    hide IsSpace;
    assert forall k :: 0 <= k < |acc| ==> acc[k] in acc && !IsSpace(acc[k]);
    assert acc[0..|acc|] == acc;
    if acc == word { assert WordAt(acc, 0, |acc|, word); }
  }

  /** The words around a space are those before it and those after it. */
  lemma WordsSplit(acc: string, s: string, word: string)
    requires word != "" && (forall c <- acc :: !IsSpace(c)) && s != "" && IsSpace(s[0])
    ensures (exists i: nat, j: nat :: WordAt(acc + s, i, j, word)) <==>
      acc == word || exists i: nat, j: nat :: WordAt(s[1..], i, j, word)
  {
    hide IsSpace, WordAt;
    if acc == word { EarlierWord(acc, s); }
    if i: nat, j: nat :| WordAt(s[1..], i, j, word) { LaterWord(acc, s, word, i, j); }
    if i: nat, j: nat :| WordAt(acc + s, i, j, word) {
      WordBeforeOrAfter(acc, s, word, i, j);
      assert acc == word || exists k: nat, l: nat :: WordAt(s[1..], k, l, word);
    }
  }

  lemma EarlierWord(acc: string, s: string)
    requires acc != "" && (forall c <- acc :: !IsSpace(c)) && s != "" && IsSpace(s[0])
    ensures WordAt(acc + s, 0, |acc|, acc)
  {
    hide IsSpace;
    assert forall k :: 0 <= k < |acc| ==> (acc + s)[k] == acc[k] && acc[k] in acc;
    assert (acc + s)[0..|acc|] == acc && (acc + s)[|acc|] == s[0];
  }

  lemma WordBeforeOrAfter(acc: string, s: string, word: string, i: nat, j: nat)
    requires (forall c <- acc :: !IsSpace(c)) && s != "" && IsSpace(s[0]) && WordAt(acc + s, i, j, word)
    ensures acc == word || (|acc| < i < j && WordAt(s[1..], i - |acc| - 1, j - |acc| - 1, word))
  {
    hide IsSpace;
    var t, n := acc + s, |acc|;
    assert t[n] == s[0] && t[0..n] == acc;
    assert forall k :: 0 <= k < n ==> t[k] == acc[k] && acc[k] in acc && !IsSpace(t[k]);
    assert i != n;
    if i > n {
      assert t[i..j] == s[1..][i - n - 1..j - n - 1];
      assert forall k :: 0 <= k < |s| - 1 ==> s[1..][k] == t[n + 1 + k];
    } else {
      assert i == 0;
      assert j == n;
    }
  }

  lemma LaterWord(acc: string, s: string, word: string, i: nat, j: nat)
    requires s != "" && IsSpace(s[0]) && WordAt(s[1..], i, j, word)
    ensures WordAt(acc + s, |acc| + 1 + i, |acc| + 1 + j, word)
  {
    hide IsSpace;
    var t, n := acc + s, |acc| + 1;
    assert forall k :: 0 <= k < |s| - 1 ==> t[n + k] == s[1..][k];
    assert t[n + i..n + j] == word;
    assert i == 0 ==> t[n + i - 1] == s[0];
  }

  /** The empty piece is there when the value is empty, or white space begins or ends it. */
  lemma EmptyPieceIff(value: string)
    ensures HasPiece(value, "") <==>
      value == "" || IsSpace(Lower(value)[0]) || IsSpace(Lower(value)[|value| - 1])
  {
  }

  predicate Covered(term: string, fs: seq<LogFilter>) {
    exists f <- fs :: HasPiece(ValueString(f.value), Lower(term))
  }

  /** Text terms that are neither stop words, nor covered by a kept filter, nor repeated. */
  function UsefulTerms(terms: seq<string>, fs: seq<LogFilter>): seq<string> {
    if terms == [] then []
    else
      var before := UsefulTerms(terms[..|terms| - 1], fs);
      var term := terms[|terms| - 1];
      if Lower(term) in STOPWORDS || Covered(term, fs) || term in before then before else before + [term]
  }

  /** The structured query planned for a natural one: its own scope, the kept filters, the terms. */
  function Plan(q: Query, context: Option<(string, string)>, t: Translation, kept: seq<LogFilter>): Query {
    var terms := Trim(Join(UsefulTerms(t.textTerms, kept), " "));
    var start := if t.timeRange.Some? then Some(t.timeRange.value.0)
                 else if context.Some? then Some(context.value.0) else q.startTime;
    var end := if t.timeRange.Some? then Some(t.timeRange.value.1)
               else if context.Some? then Some(context.value.1) else q.endTime;
    Query(q.teamId, q.sourceId, start, end, if terms == "" then None else Some(terms), false, kept)
  }

  // ---- what a natural search asks for, without a planned query

  predicate IsStopword(s: string) {
    || s == "log" || s == "logs" || s == "entry" || s == "entries" || s == "event" || s == "events"
    || s == "record" || s == "records" || s == "item" || s == "items" || s == "row" || s == "rows"
    || s == "show" || s == "find" || s == "search" || s == "get" || s == "list" || s == "display"
    || s == "give" || s == "fetch" || s == "retrieve" || s == "pull"
    || s == "me" || s == "my" || s == "all" || s == "the" || s == "a" || s == "an"
    || s == "recent" || s == "latest" || s == "newest" || s == "oldest"
  }

  /** A term of the translation, however capitalised, that is no stop word and no word of a kept filter's value. */
  predicate Useful(term: string, t: Translation, kept: seq<LogFilter>) {
    && term in t.textTerms && !IsStopword(Lower(term))
    && forall f <- kept :: !HasPiece(ValueString(f.value), Lower(term))
  }

  /** The translation's range, else the one the form shows, else the query's own bounds; empty for none. */
  function RangeOf(q: Query, context: Option<(string, string)>, t: Translation): (string, string) {
    match (t.timeRange, context)
    case (Some(inferred), _) => inferred
    case (None, Some(shown)) => shown
    case (None, None) =>
      (if q.startTime.Some? then q.startTime.value else "", if q.endTime.Some? then q.endTime.value else "")
  }

  predicate Readable(bound: string, w: World) { bound == "" || w.parseDate(bound).Some? }

  /** The team, the source if one is given, and the range. */
  predicate InScope(q: Query, range: (string, string), row: Row, w: World) {
    && row.teamId == q.teamId
    && (q.sourceId.Some? && q.sourceId.value != "" ==> row.sourceId == q.sourceId.value)
    && (range.0 != "" ==> w.parseDate(range.0).Some? && row.timestamp >= w.parseDate(range.0).value)
    && (range.1 != "" ==> w.parseDate(range.1).Some? && row.timestamp <= w.parseDate(range.1).value)
  }

  /** Every token of every useful term is found. */
  predicate TermsFound(t: Translation, kept: seq<LogFilter>, row: Row) {
    forall term <- t.textTerms :: Useful(term, t, kept) ==> forall token <- Tokens(term) :: TokenHolds(token, row)
  }

  predicate Asked(q: Query, context: Option<(string, string)>, t: Translation, kept: seq<LogFilter>, row: Row,
                  w: World)
  {
    InScope(q, RangeOf(q, context, t), row, w) && TermsFound(t, kept, row)
  }

  predicate MeetsAll(fs: seq<LogFilter>, row: Row, w: World) { forall f <- fs :: FilterHolds(f, row, w) }

  /** The rows of a table that have a property, in table order. */
  function Rows(table: seq<Row>, p: Row -> bool): seq<Row> {
    if table == [] then [] else (if p(table[0]) then [table[0]] else []) + Rows(table[1..], p)
  }

  /** Each as often as it stands in the table. */
  lemma {:induction false} RowsCount(table: seq<Row>, p: Row -> bool, row: Row)
    ensures multiset(Rows(table, p))[row] == if p(row) then multiset(table)[row] else 0
  {
    if table != [] {
      RowsCount(table[1..], p, row);
      assert table == [table[0]] + table[1..];
    }
  }

  lemma {:induction false} RowsAre(table: seq<Row>, p: Row -> bool)
    ensures forall row :: row in Rows(table, p) <==> row in table && p(row)
    ensures Rows(table, p) == [] <==> forall row <- table :: !p(row)
  {
    if table != [] {
      var first, rest := table[0], table[1..];
      RowsAre(rest, p);
      assert table == [first] + rest;
      assert forall row :: row in table <==> row == first || row in rest;
    }
  }

  lemma {:induction false} RowsMatching(table: seq<Row>, p: Row -> bool, q: Query, w: World)
    requires forall row: Row :: p(row) <==> RowMatches(q, row, w)
    ensures Matching(table, q, w) == Rows(table, p)
  {
    hide RowMatches;
    if table != [] { RowsMatching(table[1..], p, q, w); }
  }

  lemma StopwordsAre(s: string)
    ensures s in STOPWORDS <==> IsStopword(s)
  {
    StopwordIsListed(s);
    ListedIsStopword(s);
  }

  lemma ListedIsStopword(s: string)
    ensures s in STOPWORDS ==> IsStopword(s)
  {
    hide IsStopword;
    if s in STOPWORDS {
      var i :| 0 <= i < |STOPWORDS| && STOPWORDS[i] == s;
      if i < 8 { FirstStopwords(i); } else if i < 16 { SecondStopwords(i); } else if i < 24 { ThirdStopwords(i); }
      else { LastStopwords(i); }
    }
  }

  lemma FirstStopwords(i: nat)
    requires i < 8
    ensures IsStopword(STOPWORDS[i])
  {
  }

  lemma SecondStopwords(i: nat)
    requires 8 <= i < 16
    ensures IsStopword(STOPWORDS[i])
  {
  }

  lemma ThirdStopwords(i: nat)
    requires 16 <= i < 24
    ensures IsStopword(STOPWORDS[i])
  {
  }

  lemma LastStopwords(i: nat)
    requires 24 <= i < |STOPWORDS|
    ensures IsStopword(STOPWORDS[i])
  {
  }

  lemma StopwordIsListed(s: string)
    ensures IsStopword(s) ==> s in STOPWORDS
  {
  }

  lemma {:induction false} UsefulTermsAre(terms: seq<string>, fs: seq<LogFilter>, term: string)
    ensures term in UsefulTerms(terms, fs) <==> term in terms && Lower(term) !in STOPWORDS && !Covered(term, fs)
    decreases |terms|
  {
    hide Covered, Lower;
    if terms != [] {
      UsefulTermsAre(terms[..|terms| - 1], fs, term);
      assert terms == terms[..|terms| - 1] + [terms[|terms| - 1]];
    }
  }

  lemma UsefulIs(t: Translation, kept: seq<LogFilter>, term: string)
    ensures term in UsefulTerms(t.textTerms, kept) <==> Useful(term, t, kept)
  {
    hide Lower, HasPiece, IsStopword;
    UsefulTermsAre(t.textTerms, kept, term);
    StopwordsAre(Lower(term));
  }

  /** The tokens a planned query searches by are those of the useful terms. */
  lemma PlannedTokens(q: Query, context: Option<(string, string)>, t: Translation, kept: seq<LogFilter>, token: string)
    ensures var plan := Plan(q, context, t, kept);
      (Searches(plan) && token in Tokens(plan.text.value))
      <==> exists term <- t.textTerms :: Useful(term, t, kept) && token in Tokens(term)
  {
    hide UsefulTerms, Tokens, Useful, Join, Trim, RangeOf;
    var terms := UsefulTerms(t.textTerms, kept);
    TokensOfJoined(terms, token);
    assert Tokens("") == [] by { NoTokensInNothing(); }
    forall term ensures term in terms <==> Useful(term, t, kept) { UsefulIs(t, kept, term); }
    if term :| term in terms && token in Tokens(term) { assert term in t.textTerms by { UsefulIsTerm(term, t, kept); } }
  }

  lemma UsefulIsTerm(term: string, t: Translation, kept: seq<LogFilter>)
    requires Useful(term, t, kept)
    ensures term in t.textTerms
  {
  }

  lemma NoTokensInNothing()
    ensures Tokens("") == []
  {
  }

  lemma TermsMean(q: Query, context: Option<(string, string)>, t: Translation, kept: seq<LogFilter>, row: Row)
    ensures var plan := Plan(q, context, t, kept);
      TermsFound(t, kept, row) <==>
        (Searches(plan) ==> forall token <- Tokens(plan.text.value) :: TokenHolds(token, row))
  {
    hide Tokens, TokenHolds, Useful, Plan;
    var plan := Plan(q, context, t, kept);
    if TermsFound(t, kept, row) && Searches(plan) {
      forall token | token in Tokens(plan.text.value) ensures TokenHolds(token, row) {
        PlannedTokens(q, context, t, kept, token);
        var term :| term in t.textTerms && Useful(term, t, kept) && token in Tokens(term);
      }
    }
    if Searches(plan) ==> forall token <- Tokens(plan.text.value) :: TokenHolds(token, row) {
      forall term, token | term in t.textTerms && Useful(term, t, kept) && token in Tokens(term)
        ensures TokenHolds(token, row)
      {
        PlannedTokens(q, context, t, kept, token);
      }
    }
  }

  /** What a planned query asks of a row. */
  lemma PlanMeans(q: Query, context: Option<(string, string)>, t: Translation, kept: seq<LogFilter>, row: Row, w: World)
    ensures RowMatches(Plan(q, context, t, kept), row, w) <==>
      Asked(q, context, t, kept, row, w) && MeetsAll(kept, row, w)
    ensures RowMatches(Plan(q, context, t, kept).(filters := []), row, w) <==> Asked(q, context, t, kept, row, w)
  {
    hide Tokens, TokenHolds, FilterHolds, Useful, UsefulTerms, Join, Trim;
    var plan := Plan(q, context, t, kept);
    TermsMean(q, context, t, kept, row);
    IndexedTokens(plan, row);
    assert MeetsAll(kept, row, w) <==> forall i :: 0 <= i < |kept| ==> FilterHolds(kept[i], row, w);
  }

  lemma IndexedTokens(q: Query, row: Row)
    ensures (Searches(q) ==> forall i :: 0 <= i < |Tokens(q.text.value)| ==> TokenHolds(Tokens(q.text.value)[i], row))
      <==> (Searches(q) ==> forall token <- Tokens(q.text.value) :: TokenHolds(token, row))
  {
    hide Tokens, TokenHolds;
    if Searches(q) { ByIndex(Tokens(q.text.value), row); }
  }

  lemma ByIndex(ts: seq<string>, row: Row)
    ensures (forall i :: 0 <= i < |ts| ==> TokenHolds(ts[i], row)) <==> (forall token <- ts :: TokenHolds(token, row))
  {
    hide TokenHolds;
    if forall i :: 0 <= i < |ts| ==> TokenHolds(ts[i], row) {
      forall token | token in ts ensures TokenHolds(token, row) { var i :| 0 <= i < |ts| && ts[i] == token; }
    }
    if forall token <- ts :: TokenHolds(token, row) {
      forall i | 0 <= i < |ts| ensures TokenHolds(ts[i], row) { assert ts[i] in ts; }
    }
  }

  lemma TokenThrowsMean(q: Query, context: Option<(string, string)>, t: Translation, kept: seq<LogFilter>)
    ensures var plan := Plan(q, context, t, kept);
      (Searches(plan) && exists token <- Tokens(plan.text.value) :: TokenThrows(token))
      <==> exists term <- t.textTerms :: Useful(term, t, kept) && exists token <- Tokens(term) :: TokenThrows(token)
  {
    hide Tokens, TokenThrows, Useful, Plan;
    var plan := Plan(q, context, t, kept);
    if Searches(plan) && exists token <- Tokens(plan.text.value) :: TokenThrows(token) {
      var token :| token in Tokens(plan.text.value) && TokenThrows(token);
      PlannedTokens(q, context, t, kept, token);
      var term :| term in t.textTerms && Useful(term, t, kept) && token in Tokens(term);
    }
    if term :| term in t.textTerms && Useful(term, t, kept) && exists token <- Tokens(term) :: TokenThrows(token) {
      var token :| token in Tokens(term) && TokenThrows(token);
      PlannedTokens(q, context, t, kept, token);
    }
  }

  lemma PlanThrows(q: Query, context: Option<(string, string)>, t: Translation, kept: seq<LogFilter>, w: World)
    ensures QueryThrows(Plan(q, context, t, kept), w) <==>
      || !Readable(RangeOf(q, context, t).0, w) || !Readable(RangeOf(q, context, t).1, w)
      || exists term <- t.textTerms :: Useful(term, t, kept) && exists token <- Tokens(term) :: TokenThrows(token)
  {
    hide Tokens, TokenThrows, Useful, UsefulTerms, Join, Trim;
    TokenThrowsMean(q, context, t, kept);
  }

  // ---- the search

  lemma UnfilteredThrows(q: Query, w: World)
    ensures QueryThrows(q.(filters := []), w) <==> QueryThrows(q, w)
  {
    hide Tokens, TokenThrows;
  }

  /** The natural search: vet, plan, search, and once more without filters when nothing is found. Its answer
      is the requested page, the total and the token of the table's rows in scope that hold the useful terms
      and meet the kept filters, if there are any, and of those that hold the terms otherwise. It throws exactly
      when a bound of the range cannot be read or a useful term has a token that throws. */
  method SearchNatural(r: Request, context: Option<(string, string)>, t: Translation, hints: Hints,
                       table: seq<Row>, w: World, foreign: string -> Option<nat>) returns (a: Result<Answer>)
    ensures var kept := Kept(t.filters, hints, |t.filters|);
      a.Throws? <==>
        || !Readable(RangeOf(r.query, context, t).0, w) || !Readable(RangeOf(r.query, context, t).1, w)
        || exists term <- t.textTerms :: Useful(term, t, kept) && exists token <- Tokens(term) :: TokenThrows(token)
    ensures a.Ok? ==>
      var kept := Kept(t.filters, hints, |t.filters|);
      var filtered := Rows(table, row => Asked(r.query, context, t, kept, row, w) && MeetsAll(kept, row, w));
      var relaxed := Rows(table, row => Asked(r.query, context, t, kept, row, w));
      a.value == PageOf(if filtered != [] then filtered else relaxed, r, foreign)
    ensures a.Ok? ==>
      var kept := Kept(t.filters, hints, |t.filters|);
      && (a.value.total == 0 <==> forall row <- table :: !Asked(r.query, context, t, kept, row, w))
      && forall row <- a.value.logs :: row in table && Asked(r.query, context, t, kept, row, w)
  {
    hide RowMatches, QueryThrows, Plan, Kept, PageOf, Matching, Asked, MeetsAll, Rows, Readable, Useful, Tokens;
    var kept, _ := ValidateGeneratedFilters(t.filters, hints);
    var planned := r.(query := Plan(r.query, context, t, kept));
    PlanThrows(r.query, context, t, kept, w);
    ghost var filteredRows, relaxedRows := PlannedRows(r.query, context, t, kept, table, w);
    var first := Search(planned, table, w, foreign);
    if first.Throws? { return Throws; }
    UnfilteredThrows(planned.query, w);
    PageOfIs(Matching(table, planned.query, w), planned, r, foreign);
    var unfiltered := planned.query.(filters := []);
    PageOfIs(Matching(table, unfiltered, w), planned.(query := unfiltered), r, foreign);
    PlanFilters(r.query, context, t, kept, table, w);
    ghost var p := row => Asked(r.query, context, t, kept, row, w) && MeetsAll(kept, row, w);
    ghost var q := row => Asked(r.query, context, t, kept, row, w);
    RowsAre(table, p);
    RowsAre(table, q);
    PageRows(filteredRows, r, foreign);
    PageRows(relaxedRows, r, foreign);
    a := first;
    if first.value.total == 0 && |kept| > 0 {
      var relaxed := Search(planned.(query := planned.query.(filters := [])), table, w, foreign);
      if relaxed.value.total > 0 { return relaxed; }
    }
    EmptyPage(r, foreign);
  }

  lemma PlannedRows(q: Query, context: Option<(string, string)>, t: Translation, kept: seq<LogFilter>, table: seq<Row>,
                    w: World)
    returns (filtered: seq<Row>, relaxed: seq<Row>)
    ensures filtered == Matching(table, Plan(q, context, t, kept), w)
    ensures relaxed == Matching(table, Plan(q, context, t, kept).(filters := []), w)
    ensures filtered == Rows(table, row => Asked(q, context, t, kept, row, w) && MeetsAll(kept, row, w))
    ensures relaxed == Rows(table, row => Asked(q, context, t, kept, row, w))
  {
    hide RowMatches, Plan, Matching, Asked, MeetsAll, Rows;
    var plan := Plan(q, context, t, kept);
    forall row: Row
      ensures RowMatches(plan, row, w) <==> Asked(q, context, t, kept, row, w) && MeetsAll(kept, row, w)
      ensures RowMatches(plan.(filters := []), row, w) <==> Asked(q, context, t, kept, row, w)
    {
      PlanMeans(q, context, t, kept, row, w);
    }
    filtered, relaxed := Matching(table, plan, w), Matching(table, plan.(filters := []), w);
    RowsMatching(table, row => Asked(q, context, t, kept, row, w) && MeetsAll(kept, row, w), plan, w);
    RowsMatching(table, row => Asked(q, context, t, kept, row, w), plan.(filters := []), w);
  }

  /** The answer depends on the request's page, not on its query. */
  lemma PageOfIs(rows: seq<Row>, planned: Request, r: Request, foreign: string -> Option<nat>)
    requires planned.limit == r.limit && planned.offset == r.offset && planned.pageToken == r.pageToken
    ensures PageOf(rows, planned, foreign) == PageOf(rows, r, foreign) && PageOf(rows, r, foreign).total == |rows|
  {
  }

  lemma PageRows(rows: seq<Row>, r: Request, foreign: string -> Option<nat>)
    ensures forall row <- PageOf(rows, r, foreign).logs :: row in rows
  {
  }

  lemma EmptyPage(r: Request, foreign: string -> Option<nat>)
    ensures PageOf([], r, foreign).total == 0
  {
  }

  lemma PlanFilters(q: Query, context: Option<(string, string)>, t: Translation, kept: seq<LogFilter>, table: seq<Row>,
                    w: World)
    ensures kept == [] ==>
      Matching(table, Plan(q, context, t, kept).(filters := []), w) == Matching(table, Plan(q, context, t, kept), w)
  {
    hide UsefulTerms, Trim, Join, Matching;
  }
}
