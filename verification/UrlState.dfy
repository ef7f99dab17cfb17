/** The search screen's state as URL parameters: readers, the merge of an update, and the writer. */
module UrlState {
  import opened Text
  import opened PercentCodec
  import opened UrlParams

  // ---- keys

  datatype Key = KQuery | KMode | KPageToken | KViewId | KPage | KPageSize | KSourceId | KExclude | KFacet | KCol
               | KTr | KDur | KRefresh | KFrom | KTo | KShareAbs | KStartTime | KEndTime
               | KLevel | KService | KHost | KSortBy | KSortDirection

  function KeyText(k: Key): string {
    match k
    case KQuery => "q"
    case KMode => "mode"
    case KPageToken => "pageToken"
    case KViewId => "viewId"
    case KPage => "page"
    case KPageSize => "pageSize"
    case KSourceId => "sourceId"
    case KExclude => "exclude"
    case KFacet => "facet"
    case KCol => "col"
    case KTr => "tr"
    case KDur => "dur"
    case KRefresh => "refresh"
    case KFrom => "from"
    case KTo => "to"
    case KShareAbs => "shareAbs"
    case KStartTime => "startTime"
    case KEndTime => "endTime"
    case KLevel => "level"
    case KService => "service"
    case KHost => "host"
    case KSortBy => "sortBy"
    case KSortDirection => "sortDirection"
  }

  /** Length and two characters tell the keys apart. */
  function KeyMark(k: Key): (nat, char, char) {
    match k
    case KQuery => (1, 'q', 'q')
    case KMode => (4, 'm', 'o')
    case KPageToken => (9, 'p', 'a')
    case KViewId => (6, 'v', 'i')
    case KPage => (4, 'p', 'a')
    case KPageSize => (8, 'p', 'a')
    case KSourceId => (8, 's', 'o')
    case KExclude => (7, 'e', 'x')
    case KFacet => (5, 'f', 'a')
    case KCol => (3, 'c', 'o')
    case KTr => (2, 't', 'r')
    case KDur => (3, 'd', 'u')
    case KRefresh => (7, 'r', 'e')
    case KFrom => (4, 'f', 'r')
    case KTo => (2, 't', 'o')
    case KShareAbs => (8, 's', 'h')
    case KStartTime => (9, 's', 't')
    case KEndTime => (7, 'e', 'n')
    case KLevel => (5, 'l', 'e')
    case KService => (7, 's', 'e')
    case KHost => (4, 'h', 'o')
    case KSortBy => (6, 's', 'o')
    case KSortDirection => (13, 's', 'o')
  }

  lemma KeyMarks(k: Key)
    ensures var t := KeyText(k); |t| >= 1 && (|t|, t[0], if |t| > 1 then t[1] else t[0]) == KeyMark(k)
  {
  }

  /** Distinct keys have distinct names. */
  lemma KeysDistinct(k: Key, j: Key)
    requires KeyText(k) == KeyText(j)
    ensures k == j
  {
    hide KeyText;
    KeyMarks(k);
    KeyMarks(j);
  }

  // ---- state

  datatype Chip = Chip(field: string, value: string)

  datatype State = State(query: string, patterns: bool, pageToken: string, viewId: string, page: int, pageSize: int,
                         sourceId: string, exclusions: seq<Chip>, facets: seq<Chip>, columns: seq<string>,
                         absolute: bool, duration: string, refresh: string, shareAbs: bool,
                         startTime: string, endTime: string,
                         level: string, service: string, host: string, sortBy: string, sortDirection: string)

  /** Fields of an update; an absent field keeps the current value. */
  datatype Update = Update(query: Option<string>, patterns: Option<bool>, pageToken: Option<string>,
                           viewId: Option<string>,
                           page: Option<int>, pageSize: Option<int>, sourceId: Option<string>,
                           exclusions: Option<seq<Chip>>, facets: Option<seq<Chip>>, columns: Option<seq<string>>,
                           startTime: Option<string>, endTime: Option<string>, absolute: Option<bool>,
                           duration: Option<string>, refresh: Option<string>, shareAbs: Option<bool>,
                           level: Option<string>, service: Option<string>, host: Option<string>,
                           sortBy: Option<string>, sortDirection: Option<string>)

  /** The date functions of the platform: which texts are dates, and the range that ends at the
      screen's anchor and goes back so many milliseconds. */
  datatype Clock = Clock(isDate: string -> bool, back: nat -> (string, string))

  const DEFAULT_PAGE_SIZE := 50
  const ALLOWED_PAGE_SIZES := [25, 50, 100]
  const DEFAULT_DURATION := "1h"
  const REFRESH_VALUES := ["off", "10s", "30s", "1m"]

  /** The table of relative durations, in milliseconds. */
  function DurationMs(s: string): Option<nat> {
    if s == "5m" then Some(5 * 60 * 1000)
    else if s == "15m" then Some(15 * 60 * 1000)
    else if s == "1h" then Some(60 * 60 * 1000)
    else if s == "6h" then Some(6 * 60 * 60 * 1000)
    else if s == "24h" then Some(24 * 60 * 60 * 1000)
    else if s == "7d" then Some(7 * 24 * 60 * 60 * 1000)
    else None
  }

  /** Members every JavaScript object inherits: `in` finds them too, but none of them is a number. */
  const INHERITED := ["constructor", "__defineGetter__", "__defineSetter__", "hasOwnProperty", "__lookupGetter__",
    "__lookupSetter__", "isPrototypeOf", "propertyIsEnumerable", "toString", "valueOf", "__proto__", "toLocaleString"]

  predicate Listed(s: string) { DurationMs(s).Some? }

  predicate InheritedName(s: string) { s in INHERITED }

  // ---- codecs

  function ChipToken(c: Chip): string { Encode(c.field) + "::" + Encode(c.value) }

  function ChipTokens(cs: seq<Chip>): (r: seq<string>)
    ensures |r| == |cs| && forall i :: 0 <= i < |cs| ==> r[i] == ChipToken(cs[i])
  {
    seq(|cs|, i requires 0 <= i < |cs| => ChipToken(cs[i]))
  }

  /** A token without two non-empty parts is dropped; a malformed percent sequence throws. */
  function ParseChip(token: string): Result<Option<Chip>> {
    var parts := SplitOn(token, "::");
    if |parts| < 2 || parts[0] == "" || parts[1] == "" then Ok(None)
    else
      var f, v := Decode(parts[0]), Decode(parts[1]);
      if f.Ok? && v.Ok? then Ok(Some(Chip(f.value, v.value))) else Throws
  }

  function ParseChips(tokens: seq<string>): Result<seq<Chip>> {
    if tokens == [] then Ok([])
    else
      var c, rest := ParseChip(tokens[0]), ParseChips(tokens[1..]);
      if c.Throws? || rest.Throws? then Throws
      else Ok((if c.value.Some? then [c.value.value] else []) + rest.value)
  }

  function DecodeAll(vs: seq<string>): Result<seq<string>> {
    if vs == [] then Ok([])
    else
      var v, rest := Decode(vs[0]), DecodeAll(vs[1..]);
      if v.Ok? && rest.Ok? then Ok([v.value] + rest.value) else Throws
  }

  /** Non-empty values, each at its first occurrence. */
  function DistinctColumns(vs: seq<string>): seq<string> {
    if vs == [] then []
    else
      var front, v := DistinctColumns(vs[..|vs| - 1]), vs[|vs| - 1];
      if v == "" || v in vs[..|vs| - 1] then front else front + [v]
  }

  function ParseColumns(vs: seq<string>): Result<seq<string>> {
    var d := DecodeAll(vs);
    if d.Ok? then Ok(DistinctColumns(d.value)) else Throws
  }

  function LeadingDigits(s: string): string {
    if s != "" && IsDigit(s[0]) then [s[0]] + LeadingDigits(s[1..]) else ""
  }

  lemma {:induction false} LeadingDigitsAreDigits(s: string)
    ensures forall c <- LeadingDigits(s) :: IsDigit(c)
  {
    if s != "" && IsDigit(s[0]) { LeadingDigitsAreDigits(s[1..]); }
  }

  /** `Number.parseInt(s, 10)`; none for NaN. */
  function ParseInt(s: string): Option<int> {
    var t := TrimStart(s);
    var negative := t != "" && t[0] == '-';
    var body := if t != "" && (t[0] == '-' || t[0] == '+') then t[1..] else t;
    var digits := LeadingDigits(body);
    LeadingDigitsAreDigits(body);
    if digits == "" then None else Some(if negative then -(DecValue(digits) as int) else DecValue(digits))
  }

  // ---- reading

  function First(vs: seq<string>): Option<string> { if vs == [] then None else Some(vs[0]) }

  function TextOf(vs: seq<string>): string { if vs == [] then "" else vs[0] }

  function ReadPage(vs: seq<string>): int {
    var n := ParseInt(if vs == [] then "1" else vs[0]);
    if n.None? || n.value < 1 then 1 else n.value
  }

  function ReadPageSize(vs: seq<string>): int {
    var n := ParseInt(if vs == [] then "50" else vs[0]);
    if n.Some? && n.value in ALLOWED_PAGE_SIZES then n.value else DEFAULT_PAGE_SIZE
  }

  /** `value in RELATIVE_DURATION_MS`. */
  predicate IsDuration(s: string) { Listed(s) || InheritedName(s) }

  predicate IsRefresh(s: string) { s in REFRESH_VALUES }

  function ReadDuration(vs: seq<string>): string {
    if vs != [] && IsDuration(vs[0]) then vs[0] else DEFAULT_DURATION
  }

  function ReadRefresh(vs: seq<string>): string { if vs != [] && IsRefresh(vs[0]) then vs[0] else "off" }

  function ReadOr(vs: seq<string>, default: string): string { if vs == [] then default else vs[0] }

  /** The range of a duration; subtracting an inherited member gives no date, and printing that throws. */
  function RelativeRange(duration: string, clock: Clock): Result<(string, string)> {
    if Listed(duration) then Ok(clock.back(DurationMs(duration).value)) else Throws
  }

  /** The time range shown: the duration's in relative mode; in absolute mode two readable bounds in the
      URL (the older names second), else the range kept on the screen. */
  function ReadRange(absolute: bool, duration: string, from: Option<string>, to: Option<string>,
                     local: (string, string), clock: Clock): Result<(string, string)>
  {
    if !absolute then RelativeRange(duration, clock)
    else if from.Some? && from.value != "" && clock.isDate(from.value)
            && to.Some? && to.value != "" && clock.isDate(to.value)
    then Ok((from.value, to.value))
    else Ok(local)
  }

  function Values(p: Pairs, k: Key): seq<string> { GetAll(p, KeyText(k)) }

  function Or(a: Option<string>, b: Option<string>): Option<string> { if a.Some? then a else b }

  /** The state the screen reads from the parameters and the range it keeps itself. */
  function Read(p: Pairs, local: (string, string), clock: Clock): Result<State> {
    var exclusions, facets, columns :=
      ParseChips(Values(p, KExclude)), ParseChips(Values(p, KFacet)), ParseColumns(Values(p, KCol));
    if exclusions.Throws? || facets.Throws? || columns.Throws? then Throws
    else
      var absolute := TextOf(Values(p, KTr)) == "abs";
      var duration := ReadDuration(Values(p, KDur));
      var range := ReadRange(absolute, duration,
        Or(First(Values(p, KFrom)), First(Values(p, KStartTime))),
        Or(First(Values(p, KTo)), First(Values(p, KEndTime))),
        local, clock);
      if range.Throws? then Throws
      else Ok(State(
        Trim(TextOf(Values(p, KQuery))), TextOf(Values(p, KMode)) == "patterns", TextOf(Values(p, KPageToken)),
        TextOf(Values(p, KViewId)), ReadPage(Values(p, KPage)), ReadPageSize(Values(p, KPageSize)),
        TextOf(Values(p, KSourceId)), exclusions.value, facets.value, columns.value,
        absolute, duration, ReadRefresh(Values(p, KRefresh)), TextOf(Values(p, KShareAbs)) == "1",
        range.value.0, range.value.1,
        TextOf(Values(p, KLevel)), TextOf(Values(p, KService)), TextOf(Values(p, KHost)),
        ReadOr(Values(p, KSortBy), "timestamp"), ReadOr(Values(p, KSortDirection), "desc")))
  }

  // ---- merging

  function Else<T>(a: Option<T>, b: T): T { if a.Some? then a.value else b }

  predicate GivenText(a: Option<string>) { a.Some? && a.value != "" }

  function Merge(cur: State, u: Update): State {
    State(
      Else(u.query, cur.query), Else(u.patterns, cur.patterns),
      Else(u.pageToken, if u.page.Some? && u.page.value != cur.page then "" else cur.pageToken),
      Else(u.viewId, cur.viewId), Else(u.page, cur.page), Else(u.pageSize, cur.pageSize),
      Else(u.sourceId, cur.sourceId),
      Else(u.exclusions, cur.exclusions), Else(u.facets, cur.facets), Else(u.columns, cur.columns),
      if GivenText(u.startTime) || GivenText(u.endTime) then true else Else(u.absolute, cur.absolute),
      Else(u.duration, cur.duration), Else(u.refresh, cur.refresh), Else(u.shareAbs, cur.shareAbs),
      Else(u.startTime, cur.startTime), Else(u.endTime, cur.endTime),
      Else(u.level, cur.level), Else(u.service, cur.service), Else(u.host, cur.host),
      Else(u.sortBy, cur.sortBy), Else(u.sortDirection, cur.sortDirection))
  }

  // ---- writing

  function OneIf(b: bool, v: string): seq<string> { if b then [v] else [] }

  function IntText(n: int): string { if n < 0 then "-" + Dec(-n) else Dec(n) }

  function Encodes(vs: seq<string>): (r: seq<string>)
    ensures |r| == |vs| && forall i :: 0 <= i < |vs| ==> r[i] == Encode(vs[i])
  {
    seq(|vs|, i requires 0 <= i < |vs| => Encode(vs[i]))
  }

  /** What each key holds for a state. */
  function Target(m: State, k: Key): seq<string> {
    match k
    case KQuery => OneIf(m.query != "", m.query)
    case KMode => OneIf(m.patterns, "patterns")
    case KPageToken => OneIf(m.pageToken != "", m.pageToken)
    case KViewId => OneIf(m.viewId != "", m.viewId)
    case KPage => OneIf(m.page > 1, IntText(m.page))
    case KPageSize => OneIf(m.pageSize != DEFAULT_PAGE_SIZE, IntText(m.pageSize))
    case KSourceId => OneIf(m.sourceId != "", m.sourceId)
    case KExclude => ChipTokens(m.exclusions)
    case KFacet => ChipTokens(m.facets)
    case KCol => Encodes(m.columns)
    case KTr => [if m.absolute then "abs" else "rel"]
    case KDur => OneIf(!m.absolute, m.duration)
    case KRefresh => OneIf(m.refresh != "off", m.refresh)
    case KFrom => OneIf(m.absolute && m.shareAbs && m.startTime != "", m.startTime)
    case KTo => OneIf(m.absolute && m.shareAbs && m.endTime != "", m.endTime)
    case KShareAbs => OneIf(m.absolute && m.shareAbs, "1")
    case KStartTime => []
    case KEndTime => []
    case KLevel => OneIf(m.level != "", m.level)
    case KService => OneIf(m.service != "", m.service)
    case KHost => OneIf(m.host != "", m.host)
    case KSortBy => OneIf(m.sortBy != "timestamp", m.sortBy)
    case KSortDirection => OneIf(m.sortDirection != "desc", m.sortDirection)
  }

  predicate Repeatable(k: Key) { k == KExclude || k == KFacet || k == KCol }

  /** One key brought to its target: repeated keys are deleted and appended, the others set in place
      or deleted. */
  function WriteKey(p: Pairs, m: State, k: Key): Pairs {
    if Repeatable(k) then AppendAll(Delete(p, KeyText(k)), KeyText(k), Target(m, k))
    else if Target(m, k) == [] then Delete(p, KeyText(k))
    else SetKey(p, KeyText(k), Target(m, k)[0])
  }

  /** The order the writer visits the keys in. */
  function Order(m: State): seq<Key> {
    [KQuery, KMode, KPageToken, KViewId, KPage, KPageSize, KSourceId, KExclude, KFacet, KCol]
    + (if !m.absolute then [KTr, KDur, KRefresh, KFrom, KTo, KShareAbs, KStartTime, KEndTime]
       else [KTr, KShareAbs, KFrom, KTo, KDur, KRefresh, KStartTime, KEndTime])
    + [KLevel, KService, KHost, KSortBy, KSortDirection]
  }

  function WriteKeys(p: Pairs, m: State, ks: seq<Key>): Pairs {
    if ks == [] then p else WriteKey(WriteKeys(p, m, ks[..|ks| - 1]), m, ks[|ks| - 1])
  }

  function Write(p: Pairs, m: State): Pairs { WriteKeys(p, m, Order(m)) }

  /** The range the screen keeps after an update. */
  function WriteLocal(local: (string, string), m: State): (string, string) {
    if m.absolute && m.startTime != "" && m.endTime != "" then (m.startTime, m.endTime) else local
  }
}
