/** The writer and the readers form a lens. */
module UrlLens {
  import opened Text
  import opened PercentCodec
  import opened UrlParams
  import opened UrlState

  // ---- the writer, key by key

  lemma OneTarget(m: State, k: Key)
    requires !Repeatable(k)
    ensures |Target(m, k)| <= 1
  {
    hide IntText;
  }

  lemma WriteKeyGets(p: Pairs, m: State, k: Key, j: string)
    ensures GetAll(WriteKey(p, m, k), j) == if j == KeyText(k) then Target(m, k) else GetAll(p, j)
  {
    hide KeyText, Target, GetAll, SetKey, Delete, AppendAll;
    var n := KeyText(k);
    DeleteGets(p, n, j);
    if Repeatable(k) {
      AppendGets(Delete(p, n), n, Target(m, k), j);
    } else {
      OneTarget(m, k);
      if Target(m, k) != [] { SetGets(p, n, Target(m, k)[0], j); }
    }
  }

  lemma {:induction false} WriteKeysGets(p: Pairs, m: State, ks: seq<Key>, j: string)
    ensures forall k :: k in ks && KeyText(k) == j ==> GetAll(WriteKeys(p, m, ks), j) == Target(m, k)
    ensures (forall k :: k in ks ==> KeyText(k) != j) ==> GetAll(WriteKeys(p, m, ks), j) == GetAll(p, j)
    decreases |ks|
  {
    hide KeyText, Target, GetAll, WriteKey;
    if ks != [] {
      var front, last := ks[..|ks| - 1], ks[|ks| - 1];
      assert ks == front + [last];
      WriteKeysGets(p, m, front, j);
      WriteKeyGets(WriteKeys(p, m, front), m, last, j);
      forall k | k in ks && KeyText(k) == j ensures GetAll(WriteKeys(p, m, ks), j) == Target(m, k) {
        if KeyText(last) == j { KeysDistinct(k, last); }
      }
    }
  }

  lemma OrderHasAll(m: State, k: Key)
    ensures k in Order(m)
  {
    var a := [KQuery, KMode, KPageToken, KViewId, KPage, KPageSize, KSourceId, KExclude, KFacet, KCol];
    var c := [KLevel, KService, KHost, KSortBy, KSortDirection];
    assert forall x :: x in a || x in c ==> x in Order(m);
    match k
    case KQuery => assert a[0] == k; case KMode => assert a[1] == k; case KPageToken => assert a[2] == k;
    case KViewId => assert a[3] == k; case KPage => assert a[4] == k; case KPageSize => assert a[5] == k;
    case KSourceId => assert a[6] == k; case KExclude => assert a[7] == k; case KFacet => assert a[8] == k;
    case KCol => assert a[9] == k;
    case KLevel => assert c[0] == k; case KService => assert c[1] == k; case KHost => assert c[2] == k;
    case KSortBy => assert c[3] == k; case KSortDirection => assert c[4] == k;
    case _ => TimeKeys(m, k);
  }

  lemma TimeKeys(m: State, k: Key)
    requires k.KTr? || k.KDur? || k.KRefresh? || k.KFrom? || k.KTo? || k.KShareAbs? || k.KStartTime? || k.KEndTime?
    ensures k in Order(m)
  {
    var i := if k.KTr? then 10 else if k.KStartTime? then 16 else if k.KEndTime? then 17
             else if !m.absolute
             then (if k.KDur? then 11 else if k.KRefresh? then 12 else if k.KFrom? then 13
                   else if k.KTo? then 14 else 15)
             else (if k.KShareAbs? then 11 else if k.KFrom? then 12 else if k.KTo? then 13
                   else if k.KDur? then 14 else 15);
    assert Order(m)[i] == k;
  }

  /** After a write every managed key holds its target and every other key what it held. */
  lemma WriteGets(p: Pairs, m: State, k: Key)
    ensures Values(Write(p, m), k) == Target(m, k)
  {
    hide KeyText, Target, GetAll, WriteKeys, Order;
    OrderHasAll(m, k);
    WriteKeysGets(p, m, Order(m), KeyText(k));
  }

  ghost predicate Managed(j: string) { exists k: Key :: KeyText(k) == j }

  /** Unmanaged parameters are untouched. */
  lemma UnmanagedUntouched(p: Pairs, m: State, j: string)
    requires !Managed(j)
    ensures GetAll(Write(p, m), j) == GetAll(p, j)
  {
    hide KeyText, Target, GetAll, WriteKeys, Order;
    WriteKeysGets(p, m, Order(m), j);
  }

  function ManagedKeys(ks: seq<Key>): set<string> { set k | k in ks :: KeyText(k) }

  lemma {:induction false} WriteKeysOthers(p: Pairs, m: State, ks: seq<Key>, keys: set<string>)
    requires forall k <- ks :: KeyText(k) in keys
    ensures Others(WriteKeys(p, m, ks), keys) == Others(p, keys)
    decreases |ks|
  {
    hide KeyText, Target, SetKey, Delete, AppendAll, Others;
    if ks != [] {
      var front, last := ks[..|ks| - 1], ks[|ks| - 1];
      assert last in ks && forall k <- front :: k in ks;
      WriteKeysOthers(p, m, front, keys);
      var q, n := WriteKeys(p, m, front), KeyText(last);
      DeleteOthers(q, n, keys);
      if Repeatable(last) {
        AppendOthers(Delete(q, n), n, Target(m, last), keys);
      } else if Target(m, last) != [] {
        SetOthers(q, n, Target(m, last)[0], keys);
      }
    }
  }

  /** The pairs of unmanaged keys keep their order among themselves too. */
  lemma UnmanagedKeepOrder(p: Pairs, m: State)
    ensures Others(Write(p, m), ManagedKeys(Order(m))) == Others(p, ManagedKeys(Order(m)))
  {
    hide KeyText, WriteKeys, Others, Order;
    WriteKeysOthers(p, m, Order(m), ManagedKeys(Order(m)));
  }

  /** A second update overwrites the first, key by key, whatever key is asked for. */
  lemma PutPut(p: Pairs, a: State, b: State, j: string)
    ensures GetAll(Write(Write(p, a), b), j) == GetAll(Write(p, b), j)
  {
    hide KeyText, Target, GetAll, Write;
    if k: Key :| KeyText(k) == j {
      WriteGets(Write(p, a), b, k);
      WriteGets(p, b, k);
    } else {
      UnmanagedUntouched(Write(p, a), b, j);
      UnmanagedUntouched(p, a, j);
      UnmanagedUntouched(p, b, j);
    }
  }

  // ---- codecs

  predicate FullChip(c: Chip) { c.field != "" && c.value != "" }

  function FullChips(cs: seq<Chip>): seq<Chip> {
    if cs == [] then [] else (if FullChip(cs[0]) then [cs[0]] else []) + FullChips(cs[1..])
  }

  /** A chip's token reads back as the chip, or as nothing when one of its parts is empty. */
  lemma ChipReads(c: Chip)
    ensures ParseChip(ChipToken(c)) == Ok(if FullChip(c) then Some(c) else None)
  {
    hide Encode, Decode;
    EncodeHasNoColon(c.field);
    EncodeHasNoColon(c.value);
    DecodeEncode(c.field);
    DecodeEncode(c.value);
    assert Encode("") == "" by { EncodeEmpty(); }
    var f, v := Encode(c.field), Encode(c.value);
    forall i | 0 <= i < |f| ensures !("::" <= (f + "::")[i..]) { assert (f + "::")[i..][0] == f[i] && f[i] in f; }
    forall i | 0 <= i < |v| ensures !("::" <= v[i..]) { assert v[i..][0] == v[i] && v[i] in v; }
    SplitHead(f, "::", v);
    SplitNone(v, "::");
  }

  /** Of a token with more parts the first two are read, and one without a separator is dropped. */
  lemma LongTokenReads(c: Chip, rest: string)
    ensures FullChip(c) ==> ParseChip(ChipToken(c) + "::" + rest) == Ok(Some(c))
    ensures ParseChip(Encode(c.field)) == Ok(None)
  {
    hide Encode, Decode;
    EncodeHasNoColon(c.field);
    EncodeHasNoColon(c.value);
    DecodeEncode(c.field);
    DecodeEncode(c.value);
    var f, v := Encode(c.field), Encode(c.value);
    NoColonIsFree(f);
    NoColonIsFree(v);
    assert ChipToken(c) + "::" + rest == f + "::" + (v + "::" + rest);
    SplitHead(f, "::", v + "::" + rest);
    SplitHead(v, "::", rest);
    SplitNone(f, "::");
  }

  lemma NoColonIsFree(p: string)
    requires ':' !in p
    ensures Free(p, "::") && forall i :: 0 <= i < |p| ==> !("::" <= p[i..])
  {
    forall i | 0 <= i < |p| ensures !("::" <= (p + "::")[i..]) && !("::" <= p[i..]) {
      assert (p + "::")[i..][0] == p[i] && p[i] in p && p[i..][0] == p[i];
    }
  }

  lemma EncodeEmpty()
    ensures Encode("") == ""
  {
  }

  /** The chip codec is injective: no two chips share a token. */
  lemma ChipTokensDiffer(c: Chip, d: Chip)
    requires ChipToken(c) == ChipToken(d)
    ensures c == d
  {
    hide Encode, Decode;
    EncodeHasNoColon(c.field);
    EncodeHasNoColon(d.field);
    var f, g := Encode(c.field), Encode(d.field);
    var s := ChipToken(c);
    forall i | 0 <= i < |f| ensures s[i] != ':' { assert s[i] == f[i] && f[i] in f; }
    forall i | 0 <= i < |g| ensures s[i] != ':' { assert ChipToken(d)[i] == g[i] && g[i] in g; }
    assert s[|f|] == ':' && ChipToken(d)[|g|] == ':';
    assert f == s[..|f|] && g == ChipToken(d)[..|g|];
    assert Encode(c.value) == s[|f| + 2..] && Encode(d.value) == ChipToken(d)[|g| + 2..];
    DecodeEncode(c.field); DecodeEncode(d.field);
    DecodeEncode(c.value); DecodeEncode(d.value);
  }

  lemma {:induction false} ChipsRead(cs: seq<Chip>)
    ensures ParseChips(ChipTokens(cs)) == Ok(FullChips(cs))
  {
    hide ParseChip, ChipToken;
    if cs != [] {
      ChipReads(cs[0]);
      ChipsRead(cs[1..]);
      assert ChipTokens(cs)[1..] == ChipTokens(cs[1..]);
    }
  }

  lemma {:induction false} EncodesRead(vs: seq<string>)
    ensures DecodeAll(Encodes(vs)) == Ok(vs)
  {
    hide Encode, Decode;
    if vs != [] {
      DecodeEncode(vs[0]);
      EncodesRead(vs[1..]);
      assert Encodes(vs)[1..] == Encodes(vs[1..]);
      assert [vs[0]] + vs[1..] == vs;
    }
  }

  lemma {:induction false} AllDigitsLead(s: string)
    requires forall c <- s :: IsDigit(c)
    ensures LeadingDigits(s) == s
  {
    if s != "" {
      assert s[0] in s && forall c <- s[1..] :: c in s;
      AllDigitsLead(s[1..]);
      assert [s[0]] + s[1..] == s;
    }
  }

  /** `parseInt` undoes `String` on integers. */
  lemma IntReads(n: int)
    ensures ParseInt(IntText(n)) == Some(n)
  {
    hide Numeral, NumeralValue, LeadingDigits;
    var d := Dec(if n < 0 then -n else n);
    AllDigitsLead(d);
    NumeralRoundTrip(if n < 0 then -n else n, 10);
    assert d[0] in d && IsDigit(d[0]);
    assert ("-" + d)[1..] == d;
    NoLeadingSpace(IntText(n));
  }

  lemma NoLeadingSpace(s: string)
    requires s != "" && !IsSpace(s[0])
    ensures TrimStart(s) == s
  {
  }

  // ---- put, then get

  /** A written state can be read unless it is relative to an inherited name. */
  predicate Readable(m: State) { m.absolute || !InheritedName(m.duration) }

  /** What a state reads back as: the writer and readers normalise, each field on its own. */
  function Normal(m: State, local: (string, string), clock: Clock): State {
    var duration := if !m.absolute && Listed(m.duration) then m.duration else DEFAULT_DURATION;
    var range := if !m.absolute then clock.back(DurationMs(duration).value)
                 else if m.startTime != "" && m.endTime != "" then (m.startTime, m.endTime) else local;
    m.(query := Trim(m.query),
       page := if m.page < 1 then 1 else m.page,
       pageSize := if m.pageSize in ALLOWED_PAGE_SIZES then m.pageSize else DEFAULT_PAGE_SIZE,
       exclusions := FullChips(m.exclusions),
       facets := FullChips(m.facets),
       columns := DistinctColumns(m.columns),
       duration := duration,
       refresh := if IsRefresh(m.refresh) then m.refresh else "off",
       shareAbs := m.absolute && m.shareAbs,
       startTime := range.0,
       endTime := range.1)
  }

  lemma PageReads(m: State)
    ensures ReadPage(Target(m, KPage)) == if m.page < 1 then 1 else m.page
    ensures ReadPageSize(Target(m, KPageSize)) ==
      if m.pageSize in ALLOWED_PAGE_SIZES then m.pageSize else DEFAULT_PAGE_SIZE
  {
    hide IntText, ParseInt;
    IntReads(m.page);
    IntReads(m.pageSize);
    IntReads(1);
    IntReads(50);
    OneAndFifty();
    assert ALLOWED_PAGE_SIZES[1] == 50;
  }

  lemma OneAndFifty()
    ensures IntText(1) == "1" && IntText(50) == "50"
  {
    assert Numeral(5, 10) == "5";
  }

  lemma RangeReads(m: State, local: (string, string), clock: Clock, duration: string)
    ensures ReadRange(m.absolute, duration, Or(First(Target(m, KFrom)), First(Target(m, KStartTime))),
                      Or(First(Target(m, KTo)), First(Target(m, KEndTime))), WriteLocal(local, m), clock)
      == if !m.absolute then RelativeRange(duration, clock)
         else Ok(if m.startTime != "" && m.endTime != "" then (m.startTime, m.endTime) else local)
  {
  }

  lemma ChoicesRead(m: State)
    ensures ReadDuration(Target(m, KDur)) ==
      if !m.absolute && IsDuration(m.duration) then m.duration else DEFAULT_DURATION
    ensures ReadRefresh(Target(m, KRefresh)) == if IsRefresh(m.refresh) then m.refresh else "off"
  {
    hide IntText, ChipTokens, Encodes;
  }

  lemma FlagsRead(m: State)
    ensures (TextOf(Target(m, KTr)) == "abs") == m.absolute
    ensures (TextOf(Target(m, KShareAbs)) == "1") == (m.absolute && m.shareAbs)
    ensures (TextOf(Target(m, KMode)) == "patterns") == m.patterns
  {
    hide IntText, ChipTokens, Encodes;
    assert "abs"[0] != "rel"[0];
  }

  lemma SortReads(m: State)
    ensures ReadOr(Target(m, KSortBy), "timestamp") == m.sortBy
    ensures ReadOr(Target(m, KSortDirection), "desc") == m.sortDirection
  {
    hide IntText, ChipTokens, Encodes;
  }

  lemma TextsRead(m: State)
    ensures TextOf(Target(m, KQuery)) == m.query && TextOf(Target(m, KPageToken)) == m.pageToken
    ensures TextOf(Target(m, KViewId)) == m.viewId && TextOf(Target(m, KSourceId)) == m.sourceId
    ensures TextOf(Target(m, KLevel)) == m.level && TextOf(Target(m, KService)) == m.service
    ensures TextOf(Target(m, KHost)) == m.host
  {
    hide IntText, ChipTokens, Encodes;
  }

  lemma DurationReads(m: State)
    ensures ReadDuration(Target(m, KDur)) ==
      if !m.absolute && IsDuration(m.duration) then m.duration else DEFAULT_DURATION
    ensures IsDuration(m.duration) <==> Listed(m.duration) || InheritedName(m.duration)
    ensures Listed(m.duration) ==> !InheritedName(m.duration)
    ensures Listed(DEFAULT_DURATION)
  {
    hide Target, ReadDuration, DurationMs, InheritedName;
    ChoicesRead(m);
    ListedIsNotInherited(m.duration);
    assert Listed("1h") by { OneHour(); }
  }

  lemma OneHour()
    ensures DurationMs("1h") == Some(60 * 60 * 1000)
  {
  }

  lemma ListTargets(m: State)
    ensures Target(m, KExclude) == ChipTokens(m.exclusions) && Target(m, KFacet) == ChipTokens(m.facets)
    ensures Target(m, KCol) == Encodes(m.columns)
  {
  }

  /** No listed duration is an inherited name. */
  lemma ListedIsNotInherited(s: string)
    ensures Listed(s) ==> !InheritedName(s)
  {
    hide DurationMs, InheritedName;
    ListedIsShort(s);
    InheritedIsLong(s);
  }

  lemma ListedIsShort(s: string)
    ensures Listed(s) ==> |s| <= 3
  {
  }

  lemma InheritedIsLong(s: string)
    ensures InheritedName(s) ==> |s| >= 7
  {
  }

  /** Put-get, for every state: re-reading what was written gives the state normalised, and throws for
      exactly the states that are relative to an inherited name. */
  lemma PutGet(p: Pairs, m: State, local: (string, string), clock: Clock)
    ensures Read(Write(p, m), WriteLocal(local, m), clock) ==
      if Readable(m) then Ok(Normal(m, local, clock)) else Throws
  {
    hide Write, KeyText, GetAll, Values, ReadPage, ReadPageSize, ReadDuration, ReadRefresh, ReadRange, WriteLocal,
      ReadOr, Trim, DistinctColumns, FullChips, ParseChips, DecodeAll, TextOf, ChipTokens, Encodes, Target, IsDuration,
      Listed, InheritedName, DurationMs, IsRefresh, Or, First;
    ListTargets(m);
    forall k: Key ensures Values(Write(p, m), k) == Target(m, k) { WriteGets(p, m, k); }
    ChipsRead(m.exclusions);
    ChipsRead(m.facets);
    EncodesRead(m.columns);
    PageReads(m);
    ChoicesRead(m);
    FlagsRead(m);
    SortReads(m);
    TextsRead(m);
    RangeReads(m, local, clock, ReadDuration(Target(m, KDur)));
    DurationReads(m);
  }

  // ---- when nothing is normalised away

  predicate FullOnly(cs: seq<Chip>) { forall c <- cs :: FullChip(c) }

  predicate DistinctOnly(vs: seq<string>) {
    (forall v <- vs :: v != "") && forall i, j :: 0 <= i < j < |vs| ==> vs[i] != vs[j]
  }

  /** A caller can tell from the state alone, and the screen's own range, whether it survives the URL. */
  predicate Canonical(m: State, local: (string, string), clock: Clock) {
    && Trim(m.query) == m.query && m.page >= 1 && m.pageSize in ALLOWED_PAGE_SIZES
    && FullOnly(m.exclusions) && FullOnly(m.facets) && DistinctOnly(m.columns)
    && Listed(m.duration) && (m.absolute ==> m.duration == DEFAULT_DURATION)
    && IsRefresh(m.refresh)
    && (m.shareAbs ==> m.absolute)
    && (if m.absolute then (m.startTime != "" && m.endTime != "") || (m.startTime, m.endTime) == local
        else (m.startTime, m.endTime) == clock.back(DurationMs(m.duration).value))
  }

  lemma {:induction false} FullChipsFixed(cs: seq<Chip>)
    ensures |FullChips(cs)| <= |cs| && (FullChips(cs) == cs <==> FullOnly(cs))
  {
    if cs != [] {
      FullChipsFixed(cs[1..]);
      if FullChip(cs[0]) {
        assert cs == [cs[0]] + cs[1..];
        assert FullChips(cs)[1..] == FullChips(cs[1..]);
      } else {
        assert cs[0] in cs;
      }
    }
  }

  lemma DistinctPush(front: seq<string>, v: string)
    ensures DistinctOnly(front + [v]) <==> DistinctOnly(front) && v != "" && v !in front
  {
    var vs := front + [v];
    if DistinctOnly(vs) {
      assert v in vs && vs[|front|] == v;
      forall x | x in front ensures x != "" { assert x in vs; }
      forall i, j | 0 <= i < j < |front| ensures front[i] != front[j] { assert vs[i] != vs[j]; }
      forall i | 0 <= i < |front| ensures front[i] != v { assert vs[i] != vs[|front|]; }
    }
    if DistinctOnly(front) && v != "" && v !in front {
      forall i, j | 0 <= i < j < |vs| ensures vs[i] != vs[j] { if j == |front| { assert front[i] in front; } }
    }
  }

  lemma {:induction false} DistinctColumnsShrink(vs: seq<string>)
    ensures |DistinctColumns(vs)| <= |vs|
  {
    if vs != [] { DistinctColumnsShrink(vs[..|vs| - 1]); }
  }

  lemma {:induction false} DistinctColumnsFixed(vs: seq<string>)
    ensures DistinctColumns(vs) == vs <==> DistinctOnly(vs)
  {
    if vs != [] {
      hide DistinctOnly;
      var front, v := vs[..|vs| - 1], vs[|vs| - 1];
      DistinctColumnsFixed(front);
      DistinctColumnsShrink(front);
      DistinctPush(front, v);
      assert vs == front + [v];
      AppendEqual(DistinctColumns(front), front, v);
    }
  }

  lemma AppendEqual(a: seq<string>, b: seq<string>, v: string)
    ensures a + [v] == b + [v] <==> a == b
  {
    if a + [v] == b + [v] {
      assert a == (a + [v])[..|a|] && b == (b + [v])[..|b|];
    }
  }

  lemma CanonicalIsFixed(m: State, local: (string, string), clock: Clock)
    ensures Normal(m, local, clock) == m <==> Canonical(m, local, clock)
  {
    hide Trim, FullChips, FullOnly, DistinctOnly, DistinctColumns, DurationMs;
    FullChipsFixed(m.exclusions);
    FullChipsFixed(m.facets);
    DistinctColumnsFixed(m.columns);
    OneHour();
    assert REFRESH_VALUES[0] == "off" && "off" in REFRESH_VALUES;
    assert ALLOWED_PAGE_SIZES[1] == DEFAULT_PAGE_SIZE && DEFAULT_PAGE_SIZE in ALLOWED_PAGE_SIZES;
  }

  /** Exactly the canonical states come back as they were. */
  lemma ComesBackIff(p: Pairs, m: State, local: (string, string), clock: Clock)
    ensures Read(Write(p, m), WriteLocal(local, m), clock) == Ok(m) <==> Canonical(m, local, clock)
  {
    hide Read, Write, WriteLocal, Normal, Canonical, InheritedName, DurationMs;
    PutGet(p, m, local, clock);
    CanonicalIsFixed(m, local, clock);
    if Canonical(m, local, clock) { CanonicalIsListed(m, local, clock); }
    ListedIsNotInherited(m.duration);
  }

  lemma CanonicalIsListed(m: State, local: (string, string), clock: Clock)
    requires Canonical(m, local, clock)
    ensures Listed(m.duration)
  {
  }

  /** Exactly which URLs cannot be shown: one with a malformed percent sequence in a repeated parameter, or
      a relative one whose duration names an inherited member. */
  lemma ReadThrowsIff(p: Pairs, local: (string, string), clock: Clock)
    ensures Read(p, local, clock).Throws? <==>
      || ParseChips(Values(p, KExclude)).Throws? || ParseChips(Values(p, KFacet)).Throws?
      || ParseColumns(Values(p, KCol)).Throws?
      || (TextOf(Values(p, KTr)) != "abs" && Values(p, KDur) != [] && InheritedName(Values(p, KDur)[0]))
  {
    hide KeyText, GetAll, Values, ParseChips, ParseColumns, Trim, ReadPage, ReadPageSize, ReadRefresh, DurationMs,
      InheritedName;
    OneHour();
    ListedIsNotInherited(DEFAULT_DURATION);
    if Values(p, KDur) != [] { ListedIsNotInherited(Values(p, KDur)[0]); }
  }
}
