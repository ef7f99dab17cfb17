/** `updateSearch`: reads the screen's state, merges an update, and writes one parameter after another. */
module UrlWriter {
  import opened Text
  import opened PercentCodec
  import opened UrlParams
  import opened UrlState
  import UrlLens
  import UrlUpdate

  // ---- progress of a write: the keys before `i` in the writer's order are written

  const KEYS := 23

  ghost function KeyAt(m: State, i: nat): Key
    requires i < KEYS
  {
    Order(m)[i]
  }

  ghost function Wrote(p: Pairs, m: State, i: nat): Pairs
    requires i <= KEYS
  {
    WriteKeys(p, m, Order(m)[..i])
  }

  lemma WroteNext(p: Pairs, m: State, i: nat)
    requires i < KEYS
    ensures Wrote(p, m, i + 1) == WriteKey(Wrote(p, m, i), m, KeyAt(m, i))
  {
    hide WriteKey;
    var done := Order(m)[..i + 1];
    assert done[..i] == Order(m)[..i];
  }

  lemma WroteEnds(p: Pairs, m: State)
    ensures Wrote(p, m, 0) == p && Wrote(p, m, KEYS) == Write(p, m)
  {
    hide WriteKey;
    assert Order(m)[..KEYS] == Order(m);
  }

  lemma HeadKeys(m: State)
    ensures KeyAt(m, 0) == KQuery && KeyAt(m, 1) == KMode && KeyAt(m, 2) == KPageToken && KeyAt(m, 3) == KViewId
    ensures KeyAt(m, 4) == KPage && KeyAt(m, 5) == KPageSize && KeyAt(m, 6) == KSourceId
    ensures KeyAt(m, 7) == KExclude && KeyAt(m, 8) == KFacet && KeyAt(m, 9) == KCol
  {
  }

  lemma RelativeKeys(m: State)
    requires !m.absolute
    ensures KeyAt(m, 10) == KTr && KeyAt(m, 11) == KDur && KeyAt(m, 12) == KRefresh && KeyAt(m, 13) == KFrom
    ensures KeyAt(m, 14) == KTo && KeyAt(m, 15) == KShareAbs && KeyAt(m, 16) == KStartTime && KeyAt(m, 17) == KEndTime
  {
  }

  lemma AbsoluteKeys(m: State)
    requires m.absolute
    ensures KeyAt(m, 10) == KTr && KeyAt(m, 11) == KShareAbs && KeyAt(m, 12) == KFrom && KeyAt(m, 13) == KTo
    ensures KeyAt(m, 14) == KDur && KeyAt(m, 15) == KRefresh && KeyAt(m, 16) == KStartTime && KeyAt(m, 17) == KEndTime
  {
  }

  lemma TailKeys(m: State)
    ensures KeyAt(m, 18) == KLevel && KeyAt(m, 19) == KService && KeyAt(m, 20) == KHost
    ensures KeyAt(m, 21) == KSortBy && KeyAt(m, 22) == KSortDirection
  {
  }

  // ---- one parameter

  method SetOrDelete(params: SearchParams, k: Key, given: bool, value: string, ghost p: Pairs, ghost m: State,
                     ghost i: nat)
    requires i < KEYS && k == KeyAt(m, i) && params.pairs == Wrote(p, m, i)
    requires !Repeatable(k) && Target(m, k) == OneIf(given, value)
    modifies params
    ensures params.pairs == Wrote(p, m, i + 1)
  {
    hide Target, KeyText, Wrote, KeyAt;
    WroteNext(p, m, i);
    if given {
      params.Put(KeyText(k), value);
    } else {
      params.Remove(KeyText(k));
    }
  }

  lemma AppendOneMore(p: Pairs, k: string, vs: seq<string>, i: nat)
    requires i < |vs|
    ensures AppendAll(AppendAll(p, k, vs[..i]), k, [vs[i]]) == AppendAll(p, k, vs[..i + 1])
  {
  }

  lemma NothingAppended(p: Pairs, k: string)
    ensures AppendAll(p, k, []) == p
  {
  }

  method AppendEach(params: SearchParams, k: Key, values: seq<string>, ghost p: Pairs, ghost m: State, ghost i: nat)
    requires i < KEYS && k == KeyAt(m, i) && params.pairs == Wrote(p, m, i)
    requires Repeatable(k) && Target(m, k) == values
    modifies params
    ensures params.pairs == Wrote(p, m, i + 1)
  {
    hide Target, KeyText, Wrote, KeyAt, AppendAll;
    WroteNext(p, m, i);
    params.Remove(KeyText(k));
    ghost var cleared := params.pairs;
    NothingAppended(cleared, KeyText(k));
    for j := 0 to |values|
      invariant params.pairs == AppendAll(cleared, KeyText(k), values[..j])
    {
      AppendOneMore(cleared, KeyText(k), values, j);
      params.Append(KeyText(k), values[j]);
    }
    assert values[..|values|] == values;
  }

  // ---- the writer

  lemma TextTargets(m: State)
    ensures Target(m, KQuery) == OneIf(m.query != "", m.query) && Target(m, KMode) == OneIf(m.patterns, "patterns")
    ensures Target(m, KPageToken) == OneIf(m.pageToken != "", m.pageToken)
    ensures Target(m, KViewId) == OneIf(m.viewId != "", m.viewId)
    ensures Target(m, KPage) == OneIf(m.page > 1, IntText(m.page))
    ensures Target(m, KPageSize) == OneIf(m.pageSize != DEFAULT_PAGE_SIZE, IntText(m.pageSize))
    ensures Target(m, KSourceId) == OneIf(m.sourceId != "", m.sourceId)
  {
    hide IntText;
  }

  method WriteHead(params: SearchParams, m: State, ghost p: Pairs)
    requires params.pairs == Wrote(p, m, 0)
    modifies params
    ensures params.pairs == Wrote(p, m, 10)
  {
    hide Wrote, KeyAt, IntText, Target, OneIf, ChipTokens, Encodes;
    HeadKeys(m);
    TextTargets(m);
    UrlLens.ListTargets(m);
    SetOrDelete(params, KQuery, m.query != "", m.query, p, m, 0);
    SetOrDelete(params, KMode, m.patterns, "patterns", p, m, 1);
    SetOrDelete(params, KPageToken, m.pageToken != "", m.pageToken, p, m, 2);
    SetOrDelete(params, KViewId, m.viewId != "", m.viewId, p, m, 3);
    SetOrDelete(params, KPage, m.page > 1, IntText(m.page), p, m, 4);
    SetOrDelete(params, KPageSize, m.pageSize != DEFAULT_PAGE_SIZE, IntText(m.pageSize), p, m, 5);
    SetOrDelete(params, KSourceId, m.sourceId != "", m.sourceId, p, m, 6);
    AppendEach(params, KExclude, ChipTokens(m.exclusions), p, m, 7);
    AppendEach(params, KFacet, ChipTokens(m.facets), p, m, 8);
    AppendEach(params, KCol, Encodes(m.columns), p, m, 9);
  }

  lemma RelativeTargets(m: State)
    requires !m.absolute
    ensures Target(m, KTr) == OneIf(true, "rel") && Target(m, KDur) == OneIf(true, m.duration)
    ensures Target(m, KRefresh) == OneIf(m.refresh != "off", m.refresh)
    ensures Target(m, KFrom) == OneIf(false, "") && Target(m, KTo) == OneIf(false, "")
    ensures Target(m, KShareAbs) == OneIf(false, "")
    ensures Target(m, KStartTime) == OneIf(false, "") && Target(m, KEndTime) == OneIf(false, "")
  {
  }

  method WriteRelative(params: SearchParams, m: State, ghost p: Pairs)
    requires !m.absolute && params.pairs == Wrote(p, m, 10)
    modifies params
    ensures params.pairs == Wrote(p, m, 18)
  {
    hide Wrote, KeyAt, Target, OneIf;
    RelativeKeys(m);
    RelativeTargets(m);
    SetOrDelete(params, KTr, true, "rel", p, m, 10);
    SetOrDelete(params, KDur, true, m.duration, p, m, 11);
    SetOrDelete(params, KRefresh, m.refresh != "off", m.refresh, p, m, 12);
    SetOrDelete(params, KFrom, false, "", p, m, 13);
    SetOrDelete(params, KTo, false, "", p, m, 14);
    SetOrDelete(params, KShareAbs, false, "", p, m, 15);
    SetOrDelete(params, KStartTime, false, "", p, m, 16);
    SetOrDelete(params, KEndTime, false, "", p, m, 17);
  }

  lemma AbsoluteTargets(m: State)
    requires m.absolute
    ensures Target(m, KTr) == OneIf(true, "abs") && Target(m, KDur) == OneIf(false, "")
    ensures Target(m, KRefresh) == OneIf(m.refresh != "off", m.refresh)
    ensures Target(m, KShareAbs) == OneIf(m.shareAbs, "1")
    ensures Target(m, KFrom) == OneIf(m.shareAbs && m.startTime != "", m.startTime)
    ensures Target(m, KTo) == OneIf(m.shareAbs && m.endTime != "", m.endTime)
    ensures Target(m, KStartTime) == OneIf(false, "") && Target(m, KEndTime) == OneIf(false, "")
  {
  }

  method WriteAbsolute(params: SearchParams, m: State, ghost p: Pairs)
    requires m.absolute && params.pairs == Wrote(p, m, 10)
    modifies params
    ensures params.pairs == Wrote(p, m, 18)
  {
    hide Wrote, KeyAt, Target, OneIf;
    AbsoluteKeys(m);
    AbsoluteTargets(m);
    SetOrDelete(params, KTr, true, "abs", p, m, 10);
    SetOrDelete(params, KShareAbs, m.shareAbs, "1", p, m, 11);
    SetOrDelete(params, KFrom, m.shareAbs && m.startTime != "", m.startTime, p, m, 12);
    SetOrDelete(params, KTo, m.shareAbs && m.endTime != "", m.endTime, p, m, 13);
    SetOrDelete(params, KDur, false, "", p, m, 14);
    SetOrDelete(params, KRefresh, m.refresh != "off", m.refresh, p, m, 15);
    SetOrDelete(params, KStartTime, false, "", p, m, 16);
    SetOrDelete(params, KEndTime, false, "", p, m, 17);
  }

  lemma TailTargets(m: State)
    ensures Target(m, KLevel) == OneIf(m.level != "", m.level)
    ensures Target(m, KService) == OneIf(m.service != "", m.service)
    ensures Target(m, KHost) == OneIf(m.host != "", m.host)
    ensures Target(m, KSortBy) == OneIf(m.sortBy != "timestamp", m.sortBy)
    ensures Target(m, KSortDirection) == OneIf(m.sortDirection != "desc", m.sortDirection)
  {
  }

  method WriteTail(params: SearchParams, m: State, ghost p: Pairs)
    requires params.pairs == Wrote(p, m, 18)
    modifies params
    ensures params.pairs == Wrote(p, m, KEYS)
  {
    hide Wrote, KeyAt, Target, OneIf;
    TailKeys(m);
    TailTargets(m);
    SetOrDelete(params, KLevel, m.level != "", m.level, p, m, 18);
    SetOrDelete(params, KService, m.service != "", m.service, p, m, 19);
    SetOrDelete(params, KHost, m.host != "", m.host, p, m, 20);
    SetOrDelete(params, KSortBy, m.sortBy != "timestamp", m.sortBy, p, m, 21);
    SetOrDelete(params, KSortDirection, m.sortDirection != "desc", m.sortDirection, p, m, 22);
  }

  lemma KeptRange(local: (string, string), m: State)
    ensures WriteLocal(local, m) ==
      if m.absolute && m.startTime != "" && m.endTime != "" then (m.startTime, m.endTime) else local
  {
  }

  // ---- the screen

  class LogSearch {
    var url: Pairs
    var localRange: (string, string)

    constructor (url: Pairs, localRange: (string, string))
      ensures this.url == url && this.localRange == localRange
    {
      this.url := url;
      this.localRange := localRange;
    }

    /** A URL the readers reject leaves the screen as it is. What is written can be read, as the merged state
        normalised, unless that state is relative to an inherited name: then the next render throws. */
    method UpdateSearch(next: Update, clock: Clock) returns (done: bool)
      modifies this
      ensures done == Read(old(url), old(localRange), clock).Ok?
      ensures !done ==> url == old(url) && localRange == old(localRange)
      ensures done ==> var m := Merge(Read(old(url), old(localRange), clock).value, next);
        url == Write(old(url), m) && localRange == WriteLocal(old(localRange), m)
      ensures done ==> var m := Merge(Read(old(url), old(localRange), clock).value, next);
        Read(url, localRange, clock) ==
          if UrlLens.Readable(m) then Ok(UrlLens.Normal(m, old(localRange), clock)) else Throws
      ensures done && Read(url, localRange, clock).Ok? ==>
        UrlUpdate.Follows(Read(old(url), old(localRange), clock).value, next, Read(url, localRange, clock).value,
                          old(localRange), clock)
    {
      hide UrlUpdate.Follows, WriteLocal, Read, Merge, Wrote, Write, UrlLens.Readable, UrlLens.Normal;
      var cur := Read(url, localRange, clock);
      if cur.Throws? { return false; }
      var m := Merge(cur.value, next);
      UrlLens.PutGet(url, m, localRange, clock);
      UrlUpdate.UpdateFollows(url, next, localRange, clock);
      KeptRange(localRange, m);
      var params := new SearchParams(url);
      WroteEnds(url, m);
      WriteHead(params, m, url);
      if m.absolute {
        WriteAbsolute(params, m, url);
        if m.startTime != "" && m.endTime != "" { localRange := (m.startTime, m.endTime); }
      } else {
        WriteRelative(params, m, url);
      }
      WriteTail(params, m, url);
      url := params.pairs;
      return true;
    }
  }
}
