/** Grouping errors into issues by fingerprint: one upsert per tracked entry, in whatever order they run. */
module Issues {
  import opened Text
  import opened LogParser
  import opened Ingestion

  datatype IssueStatus = New | Ongoing | Closed

  datatype Issue = Issue(count: nat, status: IssueStatus)

  /** Team and fingerprint. */
  type Key = (string, string)

  type Issues = map<Key, Issue>

  /** The hash of level, service and normalised message. */
  type Fingerprint = (Level, string, string) -> string

  function KeyOf(e: LogEntry, f: Fingerprint): Key { (e.team, f(e.level, e.service, e.message)) }

  /** Entries share an issue exactly when their team and the fingerprint of level, service and message agree. */
  lemma SameIssue(a: LogEntry, b: LogEntry, f: Fingerprint)
    ensures KeyOf(a, f) == KeyOf(b, f) <==>
      a.team == b.team && f(a.level, a.service, a.message) == f(b.level, b.service, b.message)
  {
  }

  function Track(issues: Issues, e: LogEntry, f: Fingerprint): Issues {
    var k := KeyOf(e, f);
    if k in issues then issues[k := Issue(issues[k].count + 1, Ongoing)] else issues[k := Issue(1, New)]
  }

  function TrackAll(issues: Issues, entries: seq<LogEntry>, f: Fingerprint): Issues {
    if entries == [] then issues else Track(TrackAll(issues, entries[..|entries| - 1], f), entries[|entries| - 1], f)
  }

  /** How many entries fall under a key. */
  function Matching(entries: seq<LogEntry>, k: Key, f: Fingerprint): nat {
    if entries == [] then 0
    else Matching(entries[..|entries| - 1], k, f) + if KeyOf(entries[|entries| - 1], f) == k then 1 else 0
  }

  /** An issue after any number of upserts depends only on how many fell under its key: the count rises
      by that number, and the status is NEW only for an issue created by its only entry. */
  lemma {:induction false} TrackAllAt(issues: Issues, entries: seq<LogEntry>, f: Fingerprint, k: Key)
    ensures var n := Matching(entries, k, f); var after := TrackAll(issues, entries, f);
      && (n == 0 ==> (k in after <==> k in issues) && (k in issues ==> after[k] == issues[k]))
      && (n > 0 ==> k in after && after[k].count == n + if k in issues then issues[k].count else 0)
      && (n > 0 ==> k in after && after[k].status == if k in issues || n > 1 then Ongoing else New)
    decreases |entries|
  {
    hide KeyOf;
    if entries != [] { TrackAllAt(issues, entries[..|entries| - 1], f, k); }
  }

  lemma {:induction false} MatchingCounts(entries: seq<LogEntry>, k: Key, f: Fingerprint, e: LogEntry)
    ensures Matching(entries + [e], k, f) == Matching(entries, k, f) + if KeyOf(e, f) == k then 1 else 0
  {
    assert (entries + [e])[..|entries|] == entries;
  }

  lemma {:induction false} MatchingConcat(a: seq<LogEntry>, b: seq<LogEntry>, k: Key, f: Fingerprint)
    ensures Matching(a + b, k, f) == Matching(a, k, f) + Matching(b, k, f)
    decreases |b|
  {
    hide KeyOf;
    if b == [] {
      assert a + b == a;
    } else {
      var front, e := b[..|b| - 1], b[|b| - 1];
      assert a + b == a + front + [e] && b == front + [e];
      MatchingCounts(a + front, k, f, e);
      MatchingCounts(front, k, f, e);
      MatchingConcat(a, front, k, f);
    }
  }

  /** Taking one entry out of a list takes one match out. */
  lemma MatchingWithout(entries: seq<LogEntry>, i: nat, k: Key, f: Fingerprint)
    requires i < |entries|
    ensures Matching(entries, k, f) ==
      Matching(entries[..i] + entries[i + 1..], k, f) + if KeyOf(entries[i], f) == k then 1 else 0
  {
    hide KeyOf;
    var a, b := entries[..i], entries[i + 1..];
    assert entries == a + [entries[i]] + b;
    MatchingConcat(a + [entries[i]], b, k, f);
    MatchingCounts(a, k, f, entries[i]);
    MatchingConcat(a, b, k, f);
  }

  lemma BagWithout(entries: seq<LogEntry>, i: nat)
    requires i < |entries|
    ensures multiset(entries[..i] + entries[i + 1..]) == multiset(entries) - multiset{entries[i]}
  {
    assert entries == entries[..i] + [entries[i]] + entries[i + 1..];
  }

  lemma {:induction false} MatchingPermutes(a: seq<LogEntry>, b: seq<LogEntry>, k: Key, f: Fingerprint)
    requires multiset(a) == multiset(b)
    ensures Matching(a, k, f) == Matching(b, k, f)
    decreases |a|
  {
    hide KeyOf, Matching;
    assert |multiset(a)| == |a| && |multiset(b)| == |b|;
    if a == [] {
      assert b == [];
    } else {
      var n := |a| - 1;
      var e := a[n];
      assert e in multiset(a);
      var i :| 0 <= i < |b| && b[i] == e;
      BagWithout(a, n);
      BagWithout(b, i);
      MatchingPermutes(a[..n] + a[n + 1..], b[..i] + b[i + 1..], k, f);
      MatchingWithout(a, n, k, f);
      MatchingWithout(b, i, k, f);
    }
  }

  /** The order in which the upserts run is of no account. */
  lemma AnyOrder(issues: Issues, a: seq<LogEntry>, b: seq<LogEntry>, f: Fingerprint)
    requires multiset(a) == multiset(b)
    ensures TrackAll(issues, a, f) == TrackAll(issues, b, f)
  {
    hide TrackAll, Matching;
    var x, y := TrackAll(issues, a, f), TrackAll(issues, b, f);
    forall k: Key ensures (k in x <==> k in y) && (k in x ==> x[k] == y[k]) {
      TrackAllAt(issues, a, f, k);
      TrackAllAt(issues, b, f, k);
      MatchingPermutes(a, b, k, f);
    }
    assert x.Keys == y.Keys;
  }

  // ---- totals

  ghost function Total(issues: Issues): nat
    decreases |issues|
  {
    if issues == map[] then 0 else var k :| k in issues; issues[k].count + Total(issues - {k})
  }

  lemma {:induction false} TotalWithout(issues: Issues, k: Key)
    requires k in issues
    ensures Total(issues) == issues[k].count + Total(issues - {k})
    decreases |issues|
  {
    var j :| j in issues && Total(issues) == issues[j].count + Total(issues - {j});
    if j != k {
      TotalWithout(issues - {j}, k);
      TotalWithout(issues - {k}, j);
      assert issues - {j} - {k} == issues - {k} - {j};
    }
  }

  lemma TrackAddsOne(issues: Issues, e: LogEntry, f: Fingerprint)
    ensures Total(Track(issues, e, f)) == Total(issues) + 1
  {
    var k := KeyOf(e, f);
    var after := Track(issues, e, f);
    TotalWithout(after, k);
    if k in issues {
      TotalWithout(issues, k);
      assert after - {k} == issues - {k};
    } else {
      assert after - {k} == issues;
    }
  }

  lemma {:induction false} TrackAllAdds(issues: Issues, entries: seq<LogEntry>, f: Fingerprint)
    ensures Total(TrackAll(issues, entries, f)) == Total(issues) + |entries|
    decreases |entries|
  {
    hide Track;
    if entries != [] {
      TrackAllAdds(issues, entries[..|entries| - 1], f);
      TrackAddsOne(TrackAll(issues, entries[..|entries| - 1], f), entries[|entries| - 1], f);
    }
  }

  function CountErrors(entries: seq<LogEntry>): nat {
    if entries == [] then 0
    else CountErrors(entries[..|entries| - 1]) + if entries[|entries| - 1].level in {Error, Fatal} then 1 else 0
  }

  lemma {:induction false} ErrorsCounted(entries: seq<LogEntry>)
    ensures |ErrorsOf(entries)| == CountErrors(entries)
    decreases |entries|
  {
    if entries != [] { ErrorsCounted(entries[..|entries| - 1]); }
  }

  /** An ingested batch, its upserts run in any order and all succeeding, raises the issue counts in total
      by exactly the number of error and fatal entries it accepted, and no other team's issue changes. */
  lemma BatchRaisesCounts(issues: Issues, logs: seq<Item>, format: Option<Format>, source: Source, p: Platform,
                          order: seq<LogEntry>, f: Fingerprint)
    requires multiset(order) == multiset(TrackedIn(Announced(Accepted(logs, format, source, p))))
    ensures Total(TrackAll(issues, order, f)) == Total(issues) + CountErrors(Accepted(logs, format, source, p))
    ensures forall k: Key :: k.0 != source.team ==>
      (k in TrackAll(issues, order, f) <==> k in issues) && (k in issues ==> TrackAll(issues, order, f)[k] == issues[k])
  {
    hide TrackAll, Matching, Accepted, Announced, TrackedIn, ErrorsOf, CountErrors, Total, EmittedIn, KeyOf;
    var accepted := Accepted(logs, format, source, p);
    AnnouncedOnce(accepted);
    ErrorsCounted(accepted);
    TrackAllAdds(issues, order, f);
    assert |order| == |multiset(order)| && |ErrorsOf(accepted)| == |multiset(ErrorsOf(accepted))|;
    AcceptedFromSource(logs, format, source, p);
    ErrorsFromSource(accepted, source);
    forall k: Key | k.0 != source.team
      ensures k in TrackAll(issues, order, f) <==> k in issues
      ensures (k in issues ==> TrackAll(issues, order, f)[k] == issues[k])
    {
      MatchingPermutes(order, ErrorsOf(accepted), k, f);
      NoneMatch(ErrorsOf(accepted), source, k, f);
      TrackAllAt(issues, order, f, k);
    }
  }

  lemma {:induction false} ErrorsFromSource(entries: seq<LogEntry>, source: Source)
    requires FromSource(entries, source)
    ensures FromSource(ErrorsOf(entries), source)
    decreases |entries|
  {
    if entries != [] {
      assert entries[|entries| - 1] in entries;
      ErrorsFromSource(entries[..|entries| - 1], source);
    }
  }

  lemma {:induction false} NoneMatch(entries: seq<LogEntry>, source: Source, k: Key, f: Fingerprint)
    requires FromSource(entries, source) && k.0 != source.team
    ensures Matching(entries, k, f) == 0
    decreases |entries|
  {
    if entries != [] {
      assert entries[|entries| - 1] in entries;
      NoneMatch(entries[..|entries| - 1], source, k, f);
    }
  }
}
