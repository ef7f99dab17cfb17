/** The planner's vetting of generated filters against the facet values known in scope. */
module Planner {
  import opened Text
  import opened LikePattern
  import opened WhereText
  import opened QuerySpec

  /** Lower-cased facet values known in scope; an absent set means no hint. */
  datatype Hints = Hints(service: Option<set<string>>, host: Option<set<string>>, level: Option<set<string>>)

  datatype Reason = EmptyValue | UnknownValue | Redundant

  datatype Pruned = Pruned(field: string, value: string, reason: Reason)

  datatype Verdict = Keep(filter: LogFilter) | Prune(pruned: Pruned)

  predicate NoHint(h: Option<set<string>>) { h.None? || h.value == {} }

  predicate SomeContains(h: set<string>, v: string) { exists k <- h :: Contains(k, v) }

  /** What becomes of one generated filter. */
  function Judge(f: LogFilter, hints: Hints): Verdict {
    if f.value.FNum? then Keep(f)
    else
      var original := Trim(f.value.s);
      var value := Lower(original);
      if value == "" then Prune(Pruned(f.field, original, EmptyValue))
      else if f.field == "service" then
        if NoHint(hints.service) then Keep(f)
        else if SomeContains(hints.service.value, value)
        then Keep(f.(operator := if f.operator.FEq? then FContains else f.operator))
        else Prune(Pruned(f.field, original, UnknownValue))
      else if f.field == "host" then
        if NoHint(hints.host) then Keep(f)
        else if (if f.operator.FContains? then SomeContains(hints.host.value, value) else value in hints.host.value)
        then Keep(f)
        else Prune(Pruned(f.field, original, UnknownValue))
      else if f.field == "level" then
        if NoHint(hints.level) || value in hints.level.value then Keep(f)
        else Prune(Pruned(f.field, original, UnknownValue))
      else if f.field == "message" then Prune(Pruned(f.field, original, Redundant))
      else Keep(f)
  }

  function Kept(fs: seq<LogFilter>, hints: Hints, n: nat): seq<LogFilter>
    requires n <= |fs|
  {
    if n == 0 then []
    else Kept(fs, hints, n - 1) + (if Judge(fs[n - 1], hints).Keep? then [Judge(fs[n - 1], hints).filter] else [])
  }

  function AllPruned(fs: seq<LogFilter>, hints: Hints, n: nat): seq<Pruned>
    requires n <= |fs|
  {
    if n == 0 then []
    else AllPruned(fs, hints, n - 1) + (if Judge(fs[n - 1], hints).Prune? then [Judge(fs[n - 1], hints).pruned] else [])
  }

  /** The loop over the generated filters, filling two lists. */
  method ValidateGeneratedFilters(fs: seq<LogFilter>, hints: Hints)
    returns (kept: seq<LogFilter>, pruned: seq<Pruned>)
    ensures kept == Kept(fs, hints, |fs|) && pruned == AllPruned(fs, hints, |fs|)
    ensures |kept| + |pruned| == |fs|
  {
    hide Lower, Trim, Contains;
    kept, pruned := [], [];
    for i := 0 to |fs|
      invariant kept == Kept(fs, hints, i) && pruned == AllPruned(fs, hints, i)
      invariant |kept| + |pruned| == i
    {
      var f := fs[i];
      if f.value.FNum? {
        kept := kept + [f];
        continue;
      }
      var original := Trim(f.value.s);
      var value := Lower(original);
      if value == "" {
        pruned := pruned + [Pruned(f.field, original, EmptyValue)];
        continue;
      }
      if f.field == "service" {
        if NoHint(hints.service) {
          kept := kept + [f];
          continue;
        }
        var operator := if f.operator.FEq? then FContains else f.operator;
        if SomeContains(hints.service.value, value) {
          kept := kept + [f.(operator := operator)];
        } else {
          pruned := pruned + [Pruned(f.field, original, UnknownValue)];
        }
        continue;
      }
      if f.field == "host" {
        if NoHint(hints.host) {
          kept := kept + [f];
          continue;
        }
        var valid := if f.operator.FContains? then SomeContains(hints.host.value, value) else value in hints.host.value;
        if valid { kept := kept + [f]; } else { pruned := pruned + [Pruned(f.field, original, UnknownValue)]; }
        continue;
      }
      if f.field == "level" {
        if NoHint(hints.level) || value in hints.level.value {
          kept := kept + [f];
        } else {
          pruned := pruned + [Pruned(f.field, original, UnknownValue)];
        }
        continue;
      }
      if f.field == "message" {
        pruned := pruned + [Pruned(f.field, original, Redundant)];
        continue;
      }
      kept := kept + [f];
    }
  }

  /** A text value no facet in scope has: no known service contains it, no known host is it or, where containment is
      asked for, contains it, and no known level is it. Without known values nothing is unknown. */
  predicate Unknown(field: string, contained: bool, value: string, hints: Hints) {
    || (field == "service" && hints.service.Some? && hints.service.value != {}
        && forall k <- hints.service.value :: !Contains(k, value))
    || (field == "host" && hints.host.Some? && hints.host.value != {}
        && forall k <- hints.host.value :: k != value && (contained ==> !Contains(k, value)))
    || (field == "level" && hints.level.Some? && hints.level.value != {} && value !in hints.level.value)
  }

  /** Exactly which filters are dropped, and what is reported of them: the blank ones, those on a value no facet has,
      and the ones on the message. Numbers are never dropped. */
  lemma PrunedIff(f: LogFilter, hints: Hints)
    ensures f.value.FNum? ==> Judge(f, hints) == Keep(f)
    ensures f.value.FStr? ==>
      var value := Trim(f.value.s);
      var unknown := Unknown(f.field, f.operator.FContains?, Lower(value), hints);
      && (Judge(f, hints).Prune? <==> value == "" || unknown || f.field == "message")
      && (Judge(f, hints).Prune? ==>
            Judge(f, hints).pruned == Pruned(f.field, value,
              if value == "" then EmptyValue else if f.field == "message" then Redundant else UnknownValue))
  {
    hide Trim;
    if f.value.FStr? {
      var value := Lower(Trim(f.value.s));
      assert |value| == |Trim(f.value.s)|;
      forall k | k == value ensures Contains(k, value) { assert value <= k[0..]; }
      hide Contains;
    }
  }

  /** Validation splits: the filter at each position is found in the one list or in the other, at
      the place its predecessors in that list determine, so both keep the input's order. */
  lemma {:induction false} ValidationSplits(fs: seq<LogFilter>, hints: Hints, n: nat, i: nat)
    requires i < n <= |fs|
    ensures |Kept(fs, hints, n)| + |AllPruned(fs, hints, n)| == n
    ensures Judge(fs[i], hints).Keep? ==> |Kept(fs, hints, i)| < |Kept(fs, hints, n)|
    ensures Judge(fs[i], hints).Keep? ==> Kept(fs, hints, n)[|Kept(fs, hints, i)|] == Judge(fs[i], hints).filter
    ensures Judge(fs[i], hints).Prune? ==> |AllPruned(fs, hints, i)| < |AllPruned(fs, hints, n)|
    ensures Judge(fs[i], hints).Prune? ==>
      AllPruned(fs, hints, n)[|AllPruned(fs, hints, i)|] == Judge(fs[i], hints).pruned
    ensures Kept(fs, hints, i) <= Kept(fs, hints, n) && AllPruned(fs, hints, i) <= AllPruned(fs, hints, n)
    decreases n
  {
    hide Judge;
    if n - 1 > i {
      ValidationSplits(fs, hints, n - 1, i);
    } else if i > 0 {
      ValidationSplits(fs, hints, i, 0);
    }
  }

  // ---- widening

  /** A kept filter is the generated one, except that a service equality becomes containment. */
  lemma KeptFilter(f: LogFilter, hints: Hints)
    requires Judge(f, hints).Keep?
    ensures Judge(f, hints).filter == f
      || (f.field == "service" && f.operator.FEq? && Judge(f, hints).filter == f.(operator := FContains))
  {
    hide Lower, Trim, Contains;
  }

  /** Rewriting `service = v` to `service ILIKE %v%` loses no row exactly when the value, read as
      a pattern, matches itself. */
  lemma WideningExact(v: string)
    ensures (forall row: Row, w: World ::
               FilterHolds(LogFilter("service", FEq, FStr(v)), row, w) ==>
                 FilterHolds(LogFilter("service", FContains, FStr(v)), row, w))
      <==> ILike(v, "%" + v + "%")
  {
    hide ILike;
    var eq, contains := LogFilter("service", FEq, FStr(v)), LogFilter("service", FContains, FStr(v));
    forall row: Row, w: World
      ensures FilterHolds(eq, row, w) <==> row.service == v
      ensures FilterHolds(contains, row, w) <==> ILike(row.service, "%" + v + "%")
    {
      ServiceFilter(eq, row, w);
      ServiceFilter(contains, row, w);
    }
    var own := Row("", "", 0, "", v, "", "", map[]);
    var w := World(s => None, s => s);
    assert FilterHolds(eq, own, w);
    assert FilterHolds(contains, own, w) <==> ILike(v, "%" + v + "%");
  }

  lemma ServiceFilter(f: LogFilter, row: Row, w: World)
    requires f.field == "service"
    ensures FilterColumn(f) == Some(Service) && ColumnText(Service, row, w.sig) == row.service
    ensures f.operator.FEq? ==> (FilterHolds(f, row, w) <==> row.service == ValueString(f.value))
    ensures f.operator.FContains? ==> (FilterHolds(f, row, w) <==> ILike(row.service, "%" + ValueString(f.value) + "%"))
  {
    hide ILike, Sanitize, Below;
    assert SEARCHABLE[1] == "service" && "service" in SEARCHABLE;
  }

  /** It does for every value without a backslash. */
  lemma PlainValueMatchesItself(v: string)
    requires '\\' !in v
    ensures ILike(v, "%" + v + "%")
  {
    hide Like;
    ILikeTerm(v, v);
    assert Lower(v)[0..] == Lower(v);
    assert Contains(Lower(v), Lower(v));
  }

  /** A value that the rewrite loses: the backslash takes the percent sign literally. */
  lemma WideningLoses()
    ensures !ILike("a\\%", "%" + "a\\%" + "%")
  {
    var s, t := "a\\%", "a%";
    FoldPattern(s);
    assert Lower(s) == s;
    var p := "%a\\%%";
    assert "%" + s + "%" == p;
    assert p[1..] == "a\\%%" && p[1..][1..] == "\\%%" && p[1..][1..][2..] == "%";
    assert s[1..] == "\\%" && s[2..] == "%" && s[1..][1..] == s[2..];
    assert !Like(s[1..], p[1..][1..]);
    assert !Like(s, p[1..]) && !Like(s[1..], p[1..]) && !Like(s[2..], p[1..]) && !Like("", p[1..]);
    assert s[2..][1..] == "";
    assert !Like("", p);
    assert !Like(s[2..], p);
    assert !Like(s[1..], p);
  }

  /** Of a service equality that is kept because the service is known: vetting it loses no row exactly when
      the value matches itself as a pattern. */
  lemma VettingWidensIff(v: string, hints: Hints)
    requires !NoHint(hints.service) && Judge(LogFilter("service", FEq, FStr(v)), hints).Keep?
    ensures (forall row: Row, w: World ::
               FilterHolds(LogFilter("service", FEq, FStr(v)), row, w) ==>
                 FilterHolds(Judge(LogFilter("service", FEq, FStr(v)), hints).filter, row, w))
      <==> ILike(v, "%" + v + "%")
  {
    hide FilterHolds, ILike, Lower, Trim, SomeContains;
    assert Judge(LogFilter("service", FEq, FStr(v)), hints).filter == LogFilter("service", FContains, FStr(v));
    WideningExact(v);
  }

  /** A known service that vetting loses: its row meets the generated filter and not the kept one. */
  lemma VettingLosesRow(w: World)
    ensures var f := LogFilter("service", FEq, FStr("a\\%"));
      var hints := Hints(Some({"a\\%"}), None, None);
      var row := Row("", "", 0, "", "a\\%", "", "", map[]);
      && Judge(f, hints).Keep? && FilterHolds(f, row, w) && !FilterHolds(Judge(f, hints).filter, row, w)
  {
    hide FilterHolds, ILike, Judge;
    var s := "a\\%";
    var f, row := LogFilter("service", FEq, FStr(s)), Row("", "", 0, "", s, "", "", map[]);
    assert Lower(Trim(s)) == s by { NothingToTrim(s); }
    assert Contains(s, s) by { assert s[0..] == s; }
    KnownServiceKept(s, {s}, s);
    var kept := Judge(f, Hints(Some({s}), None, None)).filter;
    ServiceFilter(f, row, w);
    ServiceFilter(kept, row, w);
    WideningLoses();
  }

  /** A service equality whose value occurs in a known service is kept as containment. */
  lemma KnownServiceKept(v: string, known: set<string>, k: string)
    requires k in known && Lower(Trim(v)) != "" && Contains(k, Lower(Trim(v)))
    ensures Judge(LogFilter("service", FEq, FStr(v)), Hints(Some(known), None, None))
      == Keep(LogFilter("service", FContains, FStr(v)))
  {
    hide Lower, Trim, Contains;
  }

  lemma NothingToTrim(s: string)
    requires s == "a\\%"
    ensures Lower(Trim(s)) == s
  {
    assert TrimStart(s) == s && TrimEnd(s) == s;
  }

  /** A filter whose rewrite, if any, widens. */
  predicate Widens(f: LogFilter) {
    f.field == "service" && f.operator.FEq? ==> ILike(ValueString(f.value), "%" + ValueString(f.value) + "%")
  }

  /** Pruning and rewriting only widen: a row that meets every generated filter meets every kept one. */
  lemma {:induction false} ValidationWidens(fs: seq<LogFilter>, hints: Hints, n: nat, row: Row, w: World)
    requires n <= |fs| && (forall f <- fs :: Widens(f)) && forall i :: 0 <= i < n ==> FilterHolds(fs[i], row, w)
    ensures forall g <- Kept(fs, hints, n) :: FilterHolds(g, row, w)
    decreases n
  {
    hide FilterHolds, Judge, Widens;
    if n > 0 {
      ValidationWidens(fs, hints, n - 1, row, w);
      if Judge(fs[n - 1], hints).Keep? { KeptHolds(fs[n - 1], hints, row, w); }
    }
  }

  lemma KeptHolds(f: LogFilter, hints: Hints, row: Row, w: World)
    requires Judge(f, hints).Keep? && Widens(f) && FilterHolds(f, row, w)
    ensures FilterHolds(Judge(f, hints).filter, row, w)
  {
    hide Judge, FilterHolds, ILike;
    KeptFilter(f, hints);
    var g := Judge(f, hints).filter;
    if g != f {
      ServiceFilter(f, row, w);
      ServiceFilter(g, row, w);
    }
  }
}
