/** A search over an ordered table, one page at a time. */
module Paging {
  import opened Text
  import opened WhereText
  import opened QuerySpec
  import opened QueryCorrect
  import opened QueryCompiler
  import opened QueryBuilder
  import opened PageToken

  datatype Request = Request(query: Query, limit: Option<nat>, offset: Option<nat>, pageToken: Option<string>)

  datatype Answer = Answer(logs: seq<Row>, total: nat, nextPageToken: Option<string>)

  /** The rows a query asks for, in table order. */
  function Matching(table: seq<Row>, q: Query, w: World): seq<Row> {
    if table == [] then []
    else (if RowMatches(q, table[0], w) then [table[0]] else []) + Matching(table[1..], q, w)
  }

  /** What the database returns for a compiled query. */
  function SelectRows(table: seq<Row>, where: string, m: Params, w: World): seq<Row> {
    if table == [] then []
    else (if Selected(where, m, table[0], w) then [table[0]] else []) + SelectRows(table[1..], where, m, w)
  }

  lemma {:induction false} SelectRowsMatching(table: seq<Row>, where: string, m: Params, q: Query, w: World)
    requires forall row :: Selected(where, m, row, w) <==> RowMatches(q, row, w)
    ensures SelectRows(table, where, m, w) == Matching(table, q, w)
  {
    hide Selected, RowMatches;
    if table != [] { SelectRowsMatching(table[1..], where, m, q, w); }
  }

  function Min(a: nat, b: nat): nat { if a < b then a else b }

  /** `LIMIT limit OFFSET offset`. */
  function Page<T>(rows: seq<T>, limit: nat, offset: nat): seq<T> {
    rows[Min(offset, |rows|)..Min(offset + limit, |rows|)]
  }

  function NextToken(total: nat, limit: nat, offset: nat): Option<string> {
    if offset + limit < total then Some(EncodePageToken(offset + limit)) else None
  }

  /** The answer to a request when these are the rows its query asks for. */
  function PageOf(rows: seq<Row>, r: Request, foreign: string -> Option<nat>): Answer {
    var limit := if r.limit.Some? then r.limit.value else 100;
    var offset := ResolveOffset(r.pageToken, r.offset, foreign);
    Answer(Page(rows, limit, offset), |rows|, NextToken(|rows|, limit, offset))
  }

  /** One search: compile, count, fetch a page, and hand out the token of the next one. */
  method Search(r: Request, table: seq<Row>, w: World, foreign: string -> Option<nat>) returns (a: Result<Answer>)
    ensures a.Throws? <==> QueryThrows(r.query, w)
    ensures a.Ok? ==> a.value == PageOf(Matching(table, r.query, w), r, foreign)
  {
    hide RowMatches, Selected, QueryThrows, AllBound, ResolveOffset, NextToken;
    var compiled := BuildScopedWhere(r.query, w);
    if compiled.Throws? { return Throws; }
    var limit := if r.limit.Some? then r.limit.value else 100;
    var offset := ResolveOffset(r.pageToken, r.offset, foreign);
    var rows := SelectRows(table, compiled.value.0, compiled.value.1, w);
    SelectRowsMatching(table, compiled.value.0, compiled.value.1, r.query, w);
    a := Ok(Answer(Page(rows, limit, offset), |rows|, NextToken(|rows|, limit, offset)));
  }

  // ---- following the tokens

  /** The pages a client sees that starts at `offset` and follows each token. */
  function Crawl<T>(rows: seq<T>, limit: nat, offset: nat, foreign: string -> Option<nat>): seq<seq<T>>
    requires limit >= 1
    decreases |rows| - offset
  {
    var next := NextToken(|rows|, limit, offset);
    [Page(rows, limit, offset)] +
    if next.None? then []
    else
      TokenRoundTrip(offset + limit, None, foreign);
      Crawl(rows, limit, ResolveOffset(next, None, foreign), foreign)
  }

  function Flatten<T>(pages: seq<seq<T>>): seq<T> {
    if pages == [] then [] else pages[0] + Flatten(pages[1..])
  }

  /** How many pages of `d` rows hold `n` rows. */
  function Ceil(n: nat, d: nat): nat
    requires d >= 1
  {
    if n == 0 then 0 else 1 + Ceil(if n <= d then 0 else n - d, d)
  }

  /** It is the quotient rounded up. */
  lemma {:induction false} CeilRoundsUp(n: nat, d: nat)
    requires d >= 1
    ensures n <= Ceil(n, d) * d < n + d
  {
    if n > 0 { CeilRoundsUp(if n <= d then 0 else n - d, d); }
  }

  lemma CrawlStep<T>(rows: seq<T>, limit: nat, offset: nat, foreign: string -> Option<nat>)
    requires limit >= 1
    ensures Crawl(rows, limit, offset, foreign) ==
      [Page(rows, limit, offset)] + if offset + limit < |rows| then Crawl(rows, limit, offset + limit, foreign) else []
  {
    hide EncodePageToken, ResolveOffset, Page;
    if offset + limit < |rows| { TokenRoundTrip(offset + limit, None, foreign); }
  }

  lemma FlattenStep<T>(page: seq<T>, rest: seq<seq<T>>)
    ensures Flatten([page] + rest) == page + Flatten(rest)
  {
    assert ([page] + rest)[1..] == rest;
  }

  /** Following the tokens from any offset visits the remaining rows exactly once, in order, and
      stops after as many pages as they fill, one at least. */
  lemma {:induction false} CrawlVisitsAll<T>(rows: seq<T>, limit: nat, offset: nat, foreign: string -> Option<nat>)
    requires limit >= 1 && offset <= |rows|
    ensures Flatten(Crawl(rows, limit, offset, foreign)) == rows[offset..]
    ensures |Crawl(rows, limit, offset, foreign)| == if offset == |rows| then 1 else Ceil(|rows| - offset, limit)
    decreases |rows| - offset
  {
    hide Crawl, Flatten;
    var page := Page(rows, limit, offset);
    CrawlStep(rows, limit, offset, foreign);
    if offset + limit < |rows| {
      CrawlVisitsAll(rows, limit, offset + limit, foreign);
      FlattenStep(page, Crawl(rows, limit, offset + limit, foreign));
      assert rows[offset..] == page + rows[offset + limit..];
    } else {
      FlattenStep(page, []);
      FlattenNone<T>();
      assert page == rows[offset..] && page + [] == page;
    }
  }

  lemma FlattenNone<T>()
    ensures Flatten<T>([]) == []
  {
  }

  // ---- the same through whole searches

  /** The answers a client gets that repeats a request with the token of each answer until there is none. */
  function Answers(rows: seq<Row>, r: Request, foreign: string -> Option<nat>): seq<Answer>
    requires r.limit.None? || r.limit.value >= 1
    decreases |rows| - ResolveOffset(r.pageToken, r.offset, foreign)
  {
    var a := PageOf(rows, r, foreign);
    NextOffset(rows, r, foreign);
    [a] + if a.nextPageToken.None? then [] else Answers(rows, r.(pageToken := a.nextPageToken), foreign)
  }

  lemma NextOffset(rows: seq<Row>, r: Request, foreign: string -> Option<nat>)
    ensures var a, offset := PageOf(rows, r, foreign), ResolveOffset(r.pageToken, r.offset, foreign);
      var limit := if r.limit.Some? then r.limit.value else 100;
      && (a.nextPageToken.Some? <==> offset + limit < |rows|)
      && (a.nextPageToken.Some? ==> ResolveOffset(a.nextPageToken, r.offset, foreign) == offset + limit)
  {
    hide EncodePageToken, ResolveOffset, Page;
    var offset := ResolveOffset(r.pageToken, r.offset, foreign);
    TokenRoundTrip(offset + if r.limit.Some? then r.limit.value else 100, r.offset, foreign);
  }

  function LogsOf(answers: seq<Answer>): seq<Row> {
    if answers == [] then [] else answers[0].logs + LogsOf(answers[1..])
  }

  /** Following the tokens of whole answers: the rows from the requested offset on, each once, in order; every
      answer tells the full total and holds at most the limit, which is 100 unless the request sets one. */
  lemma {:induction false} AnswersVisitAll(rows: seq<Row>, r: Request, foreign: string -> Option<nat>)
    requires r.limit.None? || r.limit.value >= 1
    requires ResolveOffset(r.pageToken, r.offset, foreign) <= |rows|
    ensures LogsOf(Answers(rows, r, foreign)) == rows[ResolveOffset(r.pageToken, r.offset, foreign)..]
    ensures forall a <- Answers(rows, r, foreign) ::
      a.total == |rows| && |a.logs| <= if r.limit.Some? then r.limit.value else 100
    decreases |rows| - ResolveOffset(r.pageToken, r.offset, foreign)
  {
    hide ResolveOffset, NextToken, Answers, LogsOf;
    var a, offset := PageOf(rows, r, foreign), ResolveOffset(r.pageToken, r.offset, foreign);
    var limit := if r.limit.Some? then r.limit.value else 100;
    NextOffset(rows, r, foreign);
    FirstAnswer(rows, r, foreign);
    if a.nextPageToken.Some? {
      var next := r.(pageToken := a.nextPageToken);
      AnswersVisitAll(rows, next, foreign);
      LogsStep(a, Answers(rows, next, foreign));
      assert rows[offset..] == a.logs + rows[offset + limit..];
    } else {
      LogsStep(a, []);
      assert [a] + [] == [a] && a.logs + [] == a.logs;
      assert a.logs == rows[offset..];
    }
  }

  lemma FirstAnswer(rows: seq<Row>, r: Request, foreign: string -> Option<nat>)
    requires r.limit.None? || r.limit.value >= 1
    ensures var a := PageOf(rows, r, foreign);
      Answers(rows, r, foreign) ==
        [a] + if a.nextPageToken.None? then [] else Answers(rows, r.(pageToken := a.nextPageToken), foreign)
  {
    hide PageOf, ResolveOffset;
  }

  lemma LogsStep(a: Answer, rest: seq<Answer>)
    ensures LogsOf([a] + rest) == a.logs + LogsOf(rest) && LogsOf([]) == []
  {
    assert ([a] + rest)[1..] == rest;
  }
}
