/** What an update of the search screen does, field by field: what the next read of the URL shows for a field that
    was given, and for one that was not. */
module UrlUpdate {
  import opened Text
  import opened PercentCodec
  import opened UrlParams
  import opened UrlState
  import opened UrlLens

  // ---- what a read state always is

  lemma TrimTwice(s: string)
    ensures Trim(Trim(s)) == Trim(s)
  {
    hide IsSpace;
    var t := Trim(s);
    var a := TrimStart(s);
    assert t == a[..TrimmedLength(a)];
    if t != "" {
      assert t[0] == a[0] && a == s[LeadingSpaces(s)..] && !IsSpace(a[0]);
      assert LeadingSpaces(t) == 0 && t[0..] == t;
      assert !IsSpace(t[|t| - 1]);
      assert TrimmedLength(t) == |t|;
    }
  }

  lemma DecodedIsNotEmpty(s: string)
    requires s != "" && Decode(s).Ok?
    ensures Decode(s).value != ""
  {
    hide DecodeOne;
  }

  lemma {:induction false} ParsedChipsAreFull(tokens: seq<string>)
    requires ParseChips(tokens).Ok?
    ensures FullOnly(ParseChips(tokens).value)
  {
    hide ParseChip;
    if tokens != [] {
      ParsedChipsAreFull(tokens[1..]);
      if ParseChip(tokens[0]).value.Some? { ParsedChipIsFull(tokens[0]); }
    }
  }

  lemma ParsedChipIsFull(token: string)
    requires ParseChip(token).Ok? && ParseChip(token).value.Some?
    ensures FullChip(ParseChip(token).value.value)
  {
    hide Decode, SplitOn;
    var parts := SplitOn(token, "::");
    DecodedIsNotEmpty(parts[0]);
    DecodedIsNotEmpty(parts[1]);
  }

  lemma {:induction false} DistinctIsDistinct(vs: seq<string>)
    ensures DistinctOnly(DistinctColumns(vs))
    ensures forall v :: v in DistinctColumns(vs) <==> v in vs && v != ""
    decreases |vs|
  {
    hide DistinctOnly;
    if vs == [] {
      assert DistinctOnly([]) by { NothingRepeats(); }
    } else {
      var front, v := vs[..|vs| - 1], vs[|vs| - 1];
      assert vs == front + [v];
      DistinctIsDistinct(front);
      DistinctPush(DistinctColumns(front), v);
    }
  }

  /** Columns keep the order of their first occurrences: those of a front come first. */
  lemma {:induction false} FirstsAreKept(vs: seq<string>, i: nat)
    requires i <= |vs|
    ensures DistinctColumns(vs[..i]) <= DistinctColumns(vs)
    decreases |vs|
  {
    if i < |vs| {
      var front := vs[..|vs| - 1];
      assert front[..i] == vs[..i];
      FirstsAreKept(front, i);
    } else {
      assert vs[..i] == vs;
    }
  }

  lemma NothingRepeats()
    ensures DistinctOnly([])
  {
  }

  /** The normal form of every state that was read. */
  predicate Settled(s: State) {
    && Trim(s.query) == s.query && s.page >= 1 && s.pageSize in ALLOWED_PAGE_SIZES
    && FullOnly(s.exclusions) && FullOnly(s.facets) && DistinctOnly(s.columns) && IsRefresh(s.refresh)
    && IsDuration(s.duration) && (s.absolute || Listed(s.duration))
  }

  lemma ReadIsSettled(p: Pairs, local: (string, string), clock: Clock)
    requires Read(p, local, clock).Ok?
    ensures Settled(Read(p, local, clock).value)
  {
    hide KeyText, GetAll, Values, ParseChips, DistinctColumns, DecodeAll, Trim, ParseInt, DurationMs, InheritedName,
      FullOnly, DistinctOnly, TextOf;
    OneHour();
    TrimTwice(TextOf(Values(p, KQuery)));
    ParsedChipsAreFull(Values(p, KExclude));
    ParsedChipsAreFull(Values(p, KFacet));
    DistinctIsDistinct(DecodeAll(Values(p, KCol)).value);
    assert REFRESH_VALUES[0] == "off" && IsRefresh("off");
    assert ALLOWED_PAGE_SIZES[1] == DEFAULT_PAGE_SIZE && DEFAULT_PAGE_SIZE in ALLOWED_PAGE_SIZES;
  }

  // ---- field by field

  /** Search text, mode and the plain text filters: a field given is the one shown (the search text trimmed), one
      not given stays. */
  predicate TextsFollow(cur: State, u: Update, now: State) {
    && now.query == (if u.query.Some? then Trim(u.query.value) else cur.query)
    && now.patterns == (if u.patterns.Some? then u.patterns.value else cur.patterns)
    && now.viewId == (if u.viewId.Some? then u.viewId.value else cur.viewId)
    && now.sourceId == (if u.sourceId.Some? then u.sourceId.value else cur.sourceId)
    && now.level == (if u.level.Some? then u.level.value else cur.level)
    && now.service == (if u.service.Some? then u.service.value else cur.service)
    && now.host == (if u.host.Some? then u.host.value else cur.host)
    && now.sortBy == (if u.sortBy.Some? then u.sortBy.value else cur.sortBy)
    && now.sortDirection == (if u.sortDirection.Some? then u.sortDirection.value else cur.sortDirection)
  }

  /** Paging: page at least 1, a page size of the three allowed; a page that changes without a token clears it. */
  predicate PagingFollows(cur: State, u: Update, now: State) {
    && now.page == (if u.page.None? then cur.page else if u.page.value < 1 then 1 else u.page.value)
    && now.pageSize ==
         (if u.pageSize.None? then cur.pageSize
          else if u.pageSize.value == 25 || u.pageSize.value == 100 then u.pageSize.value else 50)
    && now.pageToken ==
         (if u.pageToken.Some? then u.pageToken.value
          else if u.page.Some? && u.page.value != cur.page then "" else cur.pageToken)
  }

  /** Chips and columns: chips with an empty part go, and so do empty and repeated columns. */
  predicate ListsFollow(cur: State, u: Update, now: State) {
    && now.exclusions == (if u.exclusions.Some? then FullChips(u.exclusions.value) else cur.exclusions)
    && now.facets == (if u.facets.Some? then FullChips(u.facets.value) else cur.facets)
    && now.columns == (if u.columns.Some? then DistinctColumns(u.columns.value) else cur.columns)
  }

  /** The time range: a start or an end that is given makes it absolute. An absolute range is the two bounds, given
      or kept, or the range kept on the screen while one is empty, and forgets the duration; a relative one goes
      back by its duration and is not shared. */
  predicate TimeFollows(cur: State, u: Update, now: State, local: (string, string), clock: Clock) {
    && now.absolute ==
         ((u.startTime.Some? && u.startTime.value != "") || (u.endTime.Some? && u.endTime.value != "")
          || (if u.absolute.Some? then u.absolute.value else cur.absolute))
    && now.refresh ==
         (if u.refresh.None? then cur.refresh
          else if u.refresh.value in ["10s", "30s", "1m"] then u.refresh.value else "off")
    && now.shareAbs == (now.absolute && (if u.shareAbs.Some? then u.shareAbs.value else cur.shareAbs))
    && (if now.absolute then
          var from := if u.startTime.Some? then u.startTime.value else cur.startTime;
          var to := if u.endTime.Some? then u.endTime.value else cur.endTime;
          (now.startTime, now.endTime) == (if from != "" && to != "" then (from, to) else local) && now.duration == "1h"
        else
          && now.duration == (if u.duration.None? then cur.duration
                              else if Listed(u.duration.value) then u.duration.value else "1h")
          && DurationMs(now.duration).Some?
          && (now.startTime, now.endTime) == clock.back(DurationMs(now.duration).value))
  }

  predicate Follows(cur: State, u: Update, now: State, local: (string, string), clock: Clock) {
    && TextsFollow(cur, u, now) && PagingFollows(cur, u, now) && ListsFollow(cur, u, now)
    && TimeFollows(cur, u, now, local, clock)
  }

  lemma TextsMerge(cur: State, u: Update, local: (string, string), clock: Clock)
    requires Settled(cur)
    ensures TextsFollow(cur, u, Normal(Merge(cur, u), local, clock))
  {
    hide Trim, FullChips, DistinctColumns, FullOnly, DistinctOnly, IsRefresh, DurationMs;
  }

  lemma PagingMerges(cur: State, u: Update, local: (string, string), clock: Clock)
    requires Settled(cur)
    ensures PagingFollows(cur, u, Normal(Merge(cur, u), local, clock))
  {
    hide Trim, FullChips, DistinctColumns, FullOnly, DistinctOnly, IsRefresh, DurationMs;
  }

  lemma ListsMerge(cur: State, u: Update, local: (string, string), clock: Clock)
    requires Settled(cur)
    ensures ListsFollow(cur, u, Normal(Merge(cur, u), local, clock))
  {
    hide Trim, FullChips, DistinctColumns, FullOnly, DistinctOnly, IsRefresh, DurationMs;
    FullChipsFixed(cur.exclusions);
    FullChipsFixed(cur.facets);
    DistinctColumnsFixed(cur.columns);
  }

  lemma RefreshIs(s: string)
    ensures IsRefresh(s) <==> s == "off" || s in ["10s", "30s", "1m"]
  {
  }

  lemma TimeMerges(cur: State, u: Update, local: (string, string), clock: Clock)
    requires Settled(cur) && Readable(Merge(cur, u))
    ensures TimeFollows(cur, u, Normal(Merge(cur, u), local, clock), local, clock)
  {
    hide Trim, FullChips, DistinctColumns, FullOnly, DistinctOnly, IsRefresh, DurationMs, InheritedName;
    OneHour();
    RefreshIs(cur.refresh);
    if u.refresh.Some? { RefreshIs(u.refresh.value); }
    RefreshIs("off");
  }

  /** An update that can be read again shows every given field as given and every other as it was. */
  lemma UpdateFollows(p: Pairs, u: Update, local: (string, string), clock: Clock)
    requires Read(p, local, clock).Ok?
    ensures var cur := Read(p, local, clock).value;
      var m := Merge(cur, u);
      var next := Read(Write(p, m), WriteLocal(local, m), clock);
      next.Ok? ==> Follows(cur, u, next.value, local, clock)
  {
    hide Read, Write, WriteLocal, Merge, Normal, Settled, Readable;
    hide TextsFollow, PagingFollows, ListsFollow, TimeFollows;
    var cur := Read(p, local, clock).value;
    ReadIsSettled(p, local, clock);
    PutGet(p, Merge(cur, u), local, clock);
    TextsMerge(cur, u, local, clock);
    PagingMerges(cur, u, local, clock);
    ListsMerge(cur, u, local, clock);
    if Readable(Merge(cur, u)) { TimeMerges(cur, u, local, clock); }
  }

  // ---- names and values as they stand in the URL

  /** The names of the parameters. */
  lemma KeysWritten()
    ensures KeyText(KQuery) == "q" && KeyText(KMode) == "mode" && KeyText(KPageToken) == "pageToken"
    ensures KeyText(KViewId) == "viewId" && KeyText(KPage) == "page" && KeyText(KPageSize) == "pageSize"
    ensures KeyText(KSourceId) == "sourceId" && KeyText(KExclude) == "exclude" && KeyText(KFacet) == "facet"
    ensures KeyText(KCol) == "col" && KeyText(KTr) == "tr" && KeyText(KDur) == "dur" && KeyText(KRefresh) == "refresh"
    ensures KeyText(KFrom) == "from" && KeyText(KTo) == "to" && KeyText(KShareAbs) == "shareAbs"
    ensures KeyText(KStartTime) == "startTime" && KeyText(KEndTime) == "endTime" && KeyText(KLevel) == "level"
    ensures KeyText(KService) == "service" && KeyText(KHost) == "host" && KeyText(KSortBy) == "sortBy"
    ensures KeyText(KSortDirection) == "sortDirection"
  {
  }

  /** The durations, in milliseconds. */
  lemma DurationsWritten()
    ensures DurationMs("5m") == Some(300_000) && DurationMs("15m") == Some(900_000)
    ensures DurationMs("1h") == Some(3_600_000) && DurationMs("6h") == Some(21_600_000)
    ensures DurationMs("24h") == Some(86_400_000)
    ensures DurationMs("7d") == Some(604_800_000)
    ensures forall s :: Listed(s) ==> s == "5m" || s == "15m" || s == "1h" || s == "6h" || s == "24h" || s == "7d"
  {
    assert "5m"[0] == '5' && "15m"[0] == '1' && "1h"[1] == 'h' && "6h"[0] == '6' && "24h"[0] == '2' && "7d"[0] == '7';
  }

  /** What a bare URL shows. */
  lemma BareUrl(local: (string, string), clock: Clock)
    ensures Read([], local, clock) ==
      Ok(State("", false, "", "", 1, 50, "", [], [], [], false, "1h", "off", false, clock.back(3_600_000).0,
               clock.back(3_600_000).1, "", "", "", "timestamp", "desc"))
  {
    hide KeyText, DurationMs, ParseInt, InheritedName;
    DurationsWritten();
    OneAndFifty();
    IntReads(1);
    IntReads(50);
    assert Trim("") == "";
    assert ALLOWED_PAGE_SIZES[1] == 50;
    forall k: Key ensures Values([], k) == [] { }
  }

  lemma BareTargets(cur: State, u: Update)
    requires !cur.absolute && cur.duration == "1h" && cur.host == "" && cur.level == "" && cur.query == ""
    requires u.service == Some("api") && u.startTime.None? && u.endTime.None? && u.absolute.None? && u.duration.None?
    requires u.host.None? && u.level.None? && u.query.None?
    ensures var m := Merge(cur, u);
      && Target(m, KService) == ["api"] && Target(m, KTr) == ["rel"] && Target(m, KDur) == ["1h"]
      && Target(m, KHost) == [] && Target(m, KLevel) == [] && Target(m, KQuery) == []
  {
    hide IntText, ChipTokens, Encodes;
  }

  /** Setting the service on a bare URL writes the mode, the duration and the service, and nothing else. */
  lemma ServiceOnBareUrl(local: (string, string), clock: Clock, u: Update)
    requires u == Update(None, None, None, None, None, None, None, None, None, None, None, None, None, None, None, None,
                         None, Some("api"), None, None, None)
    ensures Read([], local, clock).Ok?
    ensures var p := Write([], Merge(Read([], local, clock).value, u));
      && GetAll(p, "service") == ["api"] && GetAll(p, "tr") == ["rel"] && GetAll(p, "dur") == ["1h"]
      && GetAll(p, "host") == [] && GetAll(p, "level") == [] && GetAll(p, "q") == []
  {
    hide KeyText, Read, Write, GetAll, Merge, IntText, ChipTokens, Encodes, DurationMs, Target;
    BareUrl(local, clock);
    KeysWritten();
    var m := Merge(Read([], local, clock).value, u);
    BareTargets(Read([], local, clock).value, u);
    WriteGets([], m, KService); WriteGets([], m, KTr); WriteGets([], m, KDur);
    WriteGets([], m, KHost); WriteGets([], m, KLevel); WriteGets([], m, KQuery);
  }

  // ---- reading any URL

  /** The first value of a parameter, or the default. */
  function ValueOr(p: Pairs, name: string, default: string): string {
    if GetAll(p, name) == [] then default else GetAll(p, name)[0]
  }

  predicate TextsShow(p: Pairs, s: State) {
    && s.query == Trim(ValueOr(p, "q", "")) && (s.patterns <==> ValueOr(p, "mode", "") == "patterns")
    && s.pageToken == ValueOr(p, "pageToken", "") && s.viewId == ValueOr(p, "viewId", "")
    && s.sourceId == ValueOr(p, "sourceId", "") && s.level == ValueOr(p, "level", "")
    && s.service == ValueOr(p, "service", "") && s.host == ValueOr(p, "host", "")
    && s.sortBy == ValueOr(p, "sortBy", "timestamp") && s.sortDirection == ValueOr(p, "sortDirection", "desc")
  }

  predicate PagesShow(p: Pairs, s: State) {
    var page, size := ParseInt(ValueOr(p, "page", "1")), ParseInt(ValueOr(p, "pageSize", "50"));
    && s.page >= 1 && (page.Some? && page.value >= 1 ==> s.page == page.value)
    && (page.None? || page.value < 1 ==> s.page == 1)
    && (size == Some(25) || size == Some(50) || size == Some(100) ==> Some(s.pageSize) == size)
    && (size != Some(25) && size != Some(50) && size != Some(100) ==> s.pageSize == 50)
  }

  predicate ListsShow(p: Pairs, s: State) {
    && ParseChips(GetAll(p, "exclude")) == Ok(s.exclusions) && ParseChips(GetAll(p, "facet")) == Ok(s.facets)
    && ParseColumns(GetAll(p, "col")) == Ok(s.columns)
  }

  /** The mode, the duration, and the bounds: those under their newer names before those under the older ones. */
  predicate TimeShows(p: Pairs, s: State, local: (string, string), clock: Clock) {
    var from, to := ValueOr(p, "from", ValueOr(p, "startTime", "")), ValueOr(p, "to", ValueOr(p, "endTime", ""));
    var refresh := ValueOr(p, "refresh", "off");
    && (s.absolute <==> ValueOr(p, "tr", "") == "abs") && (s.shareAbs <==> ValueOr(p, "shareAbs", "") == "1")
    && s.refresh == (if refresh in ["10s", "30s", "1m"] then refresh else "off")
    && (DurationMs(ValueOr(p, "dur", "1h")).Some? ==> s.duration == ValueOr(p, "dur", "1h"))
    && (s.absolute ==>
          (s.startTime, s.endTime) ==
            if from != "" && clock.isDate(from) && to != "" && clock.isDate(to) then (from, to) else local)
    && (!s.absolute ==>
          DurationMs(s.duration).Some? && (s.startTime, s.endTime) == clock.back(DurationMs(s.duration).value))
  }

  /** What every URL that can be shown shows, parameter by parameter. */
  lemma ReadShows(p: Pairs, local: (string, string), clock: Clock)
    requires Read(p, local, clock).Ok?
    ensures var s := Read(p, local, clock).value;
      TextsShow(p, s) && PagesShow(p, s) && ListsShow(p, s) && TimeShows(p, s, local, clock)
  {
    hide KeyText, GetAll, ParseChips, ParseColumns, Trim, ParseInt, DurationMs, InheritedName;
    KeysWritten();
    RefreshIs(ValueOr(p, "refresh", "off"));
    OneHour();
    assert ALLOWED_PAGE_SIZES[0] == 25 && ALLOWED_PAGE_SIZES[1] == 50 && ALLOWED_PAGE_SIZES[2] == 100;
  }

  /** `parseInt` passes over white space and a plus sign, reads the digits and looks at nothing after them. */
  lemma DigitsRead(blank: string, plus: bool, n: nat, rest: string)
    requires (forall c <- blank :: IsSpace(c)) && (rest == "" || !IsDigit(rest[0]))
    ensures ParseInt(blank + ((if plus then "+" else "") + (Dec(n) + rest))) == Some(n)
  {
    hide Numeral, NumeralValue, LeadingDigits, IsSpace, TrimStart;
    var d := Dec(n);
    var body := d + rest;
    var s := (if plus then "+" else "") + body;
    DigitsLead(d, rest);
    NumeralRoundTrip(n, 10);
    assert d[0] in d && IsDigit(d[0]) && body[0] == d[0];
    DigitIsNoSpace(body[0]);
    assert "+" + body != "" && ("+" + body)[1..] == body && ("+" + body)[0] == '+';
    assert s == if plus then "+" + body else body;
    assert !IsSpace(s[0]) by { PlusIsNoSpace(); }
    BlankSkipped(blank, s);
  }

  lemma PlusIsNoSpace()
    ensures !IsSpace('+')
  {
  }

  lemma DigitIsNoSpace(c: char)
    requires IsDigit(c)
    ensures !IsSpace(c) && c != '-' && c != '+'
  {
  }

  lemma {:induction false} DigitsLead(d: string, rest: string)
    requires (forall c <- d :: IsDigit(c)) && (rest == "" || !IsDigit(rest[0]))
    ensures LeadingDigits(d + rest) == d
  {
    if d != "" {
      assert d[0] in d && (forall c <- d[1..] :: c in d) && (d + rest)[1..] == d[1..] + rest;
      DigitsLead(d[1..], rest);
      assert d == [d[0]] + d[1..];
    } else {
      assert d + rest == rest;
    }
  }
}
