/** Ingesting a batch: accept or reject each item, store what was accepted, then announce it. */
module Ingestion {
  import opened Text
  import opened LogParser

  datatype Source = Source(team: string, id: string, name: string)

  /** An item is a raw line, or a record whose missing members get defaults. */
  datatype Item = Raw(text: string)
                | Record(timestamp: Option<string>, level: Option<Level>, service: Option<string>, host: Option<string>,
                         message: Option<string>, fields: Option<map<string, string>>)

  datatype Payload = Payload(logs: seq<Item>, format: Option<Format>)

  /** What one item yields: its entries, or a refusal. */
  function Parsed(item: Item, format: Option<Format>, source: Source, p: Platform): Result<seq<LogEntry>> {
    match item
    case Raw(text) =>
      ParseRaw(text, if format.Some? then format.value else DetectFormat(text), source.team, source.id, p)
    case Record(timestamp, level, service, host, message, fields) =>
      Ok([LogEntry(source.team, source.id, Given(timestamp, p.now), if level.Some? then level.value else Info,
                   Given(service, source.name), Given(host, "unknown"), Given(message, ""),
                   if fields.Some? then fields.value else map[])])
  }

  /** The entries of the items that do not throw, in order. */
  function Accepted(logs: seq<Item>, format: Option<Format>, source: Source, p: Platform): seq<LogEntry> {
    if logs == [] then []
    else
      var last := Parsed(logs[|logs| - 1], format, source, p);
      Accepted(logs[..|logs| - 1], format, source, p) + if last.Ok? then last.value else []
  }

  predicate IsTracked(e: LogEntry) { e.level == Error || e.level == Fatal }

  /** What the service does to the outside, in order. */
  datatype Effect = Inserted(entries: seq<LogEntry>) | Invalidated(team: string)
                  | Emitted(entry: LogEntry) | Tracked(entry: LogEntry)

  function Announce(e: LogEntry): seq<Effect> { [Emitted(e)] + if IsTracked(e) then [Tracked(e)] else [] }

  function Announced(entries: seq<LogEntry>): seq<Effect> {
    if entries == [] then [] else Announced(entries[..|entries| - 1]) + Announce(entries[|entries| - 1])
  }

  function Stored(entries: seq<LogEntry>, source: Source): seq<Effect> { [Inserted(entries), Invalidated(source.team)] }

  datatype Failure = NoSource | InsertFailed | InvalidateFailed

  datatype Outcome = Failure(why: Failure) | Response(accepted: nat, rejected: nat, errors: seq<nat>)

  /** The indices of exactly the items that throw, in increasing order. */
  ghost predicate AreErrors(errors: seq<nat>, logs: seq<Item>, format: Option<Format>, source: Source, p: Platform) {
    && (forall a, b :: 0 <= a < b < |errors| ==> errors[a] < errors[b])
    && (forall i :: i in errors <==> 0 <= i < |logs| && Parsed(logs[i], format, source, p).Throws?)
  }

  lemma OneMoreItem(errors: seq<nat>, logs: seq<Item>, i: nat, format: Option<Format>, source: Source, p: Platform)
    requires i < |logs| && AreErrors(errors, logs[..i], format, source, p)
    ensures AreErrors(if Parsed(logs[i], format, source, p).Ok? then errors else errors + [i],
                      logs[..i + 1], format, source, p)
    ensures var parsed := Parsed(logs[i], format, source, p);
      Accepted(logs[..i + 1], format, source, p) ==
        Accepted(logs[..i], format, source, p) + if parsed.Ok? then parsed.value else []
  {
    hide Parsed;
    assert logs[..i + 1][..i] == logs[..i];
    forall a | 0 <= a < |errors| ensures errors[a] < i { assert errors[a] in errors; }
  }

  class IngestionService {
    var trace: seq<Effect>

    constructor ()
      ensures trace == []
    {
      trace := [];
    }

    method AcceptEach(payload: Payload, source: Source, p: Platform) returns (entries: seq<LogEntry>, errors: seq<nat>)
      ensures entries == Accepted(payload.logs, payload.format, source, p)
      ensures AreErrors(errors, payload.logs, payload.format, source, p)
    {
      hide Parsed, AreErrors, Accepted;
      entries, errors := [], [];
      var logs := payload.logs;
      NoItems(payload.format, source, p);
      for i := 0 to |logs|
        invariant entries == Accepted(logs[..i], payload.format, source, p)
        invariant AreErrors(errors, logs[..i], payload.format, source, p)
      {
        var parsed := Parsed(logs[i], payload.format, source, p);
        OneMoreItem(errors, logs, i, payload.format, source, p);
        if parsed.Ok? {
          entries := entries + parsed.value;
        } else {
          errors := errors + [i];
        }
      }
      assert logs[..|logs|] == logs;
    }

    method AnnounceEach(entries: seq<LogEntry>)
      modifies this
      ensures trace == old(trace) + Announced(entries)
    {
      hide Announced;
      NothingAnnounced();
      for i := 0 to |entries|
        invariant trace == old(trace) + Announced(entries[..i])
      {
        AnnouncedNext(entries, i);
        trace := trace + [Emitted(entries[i])];
        if entries[i].level == Error || entries[i].level == Fatal { trace := trace + [Tracked(entries[i])]; }
      }
      assert entries[..|entries|] == entries;
    }

    /** `insertFails` and `cacheFails` say what the database and the cache do. */
    method Ingest(source: Option<Source>, payload: Payload, p: Platform, insertFails: bool, cacheFails: bool)
      returns (outcome: Outcome)
      modifies this
      ensures source.None? ==> outcome == Failure(NoSource) && trace == old(trace)
      ensures source.Some? ==> var entries := Accepted(payload.logs, payload.format, source.value, p);
        if entries == [] then outcome.Response? && trace == old(trace)
        else if insertFails then outcome == Failure(InsertFailed) && trace == old(trace)
        else if cacheFails then outcome == Failure(InvalidateFailed) && trace == old(trace) + [Inserted(entries)]
        else outcome.Response? && trace == old(trace) + Stored(entries, source.value) + Announced(entries)
      ensures outcome.Response? ==> source.Some? && outcome.rejected == |outcome.errors|
      ensures outcome.Response? ==> outcome.accepted == |Accepted(payload.logs, payload.format, source.value, p)|
      ensures outcome.Response? ==> AreErrors(outcome.errors, payload.logs, payload.format, source.value, p)
    {
      hide Parsed, AreErrors, Accepted, Announced;
      if source.None? { return Failure(NoSource); }
      var entries, errors := AcceptEach(payload, source.value, p);
      if entries != [] {
        if insertFails { return Failure(InsertFailed); }
        trace := trace + [Inserted(entries)];
        if cacheFails { return Failure(InvalidateFailed); }
        trace := trace + [Invalidated(source.value.team)];
        AnnounceEach(entries);
      }
      outcome := Response(|entries|, |errors|, errors);
    }
  }

  lemma NoItems(format: Option<Format>, source: Source, p: Platform)
    ensures Accepted([], format, source, p) == [] && AreErrors([], [], format, source, p)
  {
  }

  lemma NothingAnnounced()
    ensures Announced([]) == []
  {
  }

  lemma AnnouncedNext(entries: seq<LogEntry>, i: nat)
    requires i < |entries|
    ensures Announced(entries[..i + 1]) == Announced(entries[..i]) + Announce(entries[i])
  {
    assert entries[..i + 1][..i] == entries[..i];
  }

  // ---- conservation

  predicate FromSource(entries: seq<LogEntry>, source: Source) {
    forall e <- entries :: e.team == source.team && e.source == source.id
  }

  lemma {:induction false} ItemsFromSource(items: seq<JsonItem>, source: Source, p: Platform)
    requires ParseItems(items, source.team, source.id, p).Ok?
    ensures var r := ParseItems(items, source.team, source.id, p).value; |r| == |items| && FromSource(r, source)
  {
    if items != [] { ItemsFromSource(items[1..], source, p); }
  }

  /** Whatever the format, a parse yields the source's own entries: one for a line, one for each
      element of a JSON array. */
  lemma ParsedFromSource(item: Item, format: Option<Format>, source: Source, p: Platform)
    requires Parsed(item, format, source, p).Ok?
    ensures FromSource(Parsed(item, format, source, p).value, source)
    ensures var json := item.Raw? && (if format.Some? then format.value else DetectFormat(item.text)) == Json;
      |Parsed(item, format, source, p).value| == if json then |p.parseJson(item.text).value| else 1
  {
    hide DetectFormat, MatchRfc5424, MatchRfc3164, NormalizeLevel, ParseItems;
    if item.Raw? && p.parseJson(item.text).Some?
       && ParseItems(p.parseJson(item.text).value, source.team, source.id, p).Ok?
    {
      ItemsFromSource(p.parseJson(item.text).value, source, p);
    }
  }

  /** Every accepted entry carries the team and id of the source that was looked up, whatever the item
      says. */
  lemma {:induction false} AcceptedFromSource(logs: seq<Item>, format: Option<Format>, source: Source, p: Platform)
    ensures FromSource(Accepted(logs, format, source, p), source)
    decreases |logs|
  {
    hide Parsed;
    if logs != [] {
      var last := logs[|logs| - 1];
      AcceptedFromSource(logs[..|logs| - 1], format, source, p);
      if Parsed(last, format, source, p).Ok? { ParsedFromSource(last, format, source, p); }
    }
  }

  /** Splitting a batch in two and ingesting the halves accepts the same entries in the same order. */
  lemma {:induction false} AcceptedConcat(a: seq<Item>, b: seq<Item>, format: Option<Format>, source: Source,
                                          p: Platform)
    ensures Accepted(a + b, format, source, p) == Accepted(a, format, source, p) + Accepted(b, format, source, p)
    decreases |b|
  {
    hide Parsed;
    if b == [] {
      assert a + b == a;
    } else {
      var front, last := b[..|b| - 1], b[|b| - 1];
      assert (a + b)[..|a + b| - 1] == a + front && (a + b)[|a + b| - 1] == last;
      AcceptedConcat(a, front, format, source, p);
    }
  }

  function EmittedIn(trace: seq<Effect>): seq<LogEntry> {
    if trace == [] then []
    else var e := trace[|trace| - 1]; EmittedIn(trace[..|trace| - 1]) + if e.Emitted? then [e.entry] else []
  }

  function TrackedIn(trace: seq<Effect>): seq<LogEntry> {
    if trace == [] then []
    else var e := trace[|trace| - 1]; TrackedIn(trace[..|trace| - 1]) + if e.Tracked? then [e.entry] else []
  }

  function ErrorsOf(entries: seq<LogEntry>): seq<LogEntry> {
    if entries == [] then []
    else
      var e := entries[|entries| - 1];
      ErrorsOf(entries[..|entries| - 1]) + if e.level == Error || e.level == Fatal then [e] else []
  }

  lemma EffectPush(t: seq<Effect>, e: Effect)
    ensures EmittedIn(t + [e]) == EmittedIn(t) + if e.Emitted? then [e.entry] else []
    ensures TrackedIn(t + [e]) == TrackedIn(t) + if e.Tracked? then [e.entry] else []
  {
    assert (t + [e])[..|t|] == t;
  }

  lemma AnnouncePush(t: seq<Effect>, e: LogEntry)
    ensures EmittedIn(t + Announce(e)) == EmittedIn(t) + [e]
    ensures TrackedIn(t + Announce(e)) == TrackedIn(t) + if IsTracked(e) then [e] else []
  {
    hide EmittedIn, TrackedIn;
    EffectPush(t, Emitted(e));
    EffectPush(t + [Emitted(e)], Tracked(e));
    assert t + Announce(e) == if IsTracked(e) then t + [Emitted(e)] + [Tracked(e)] else t + [Emitted(e)];
    assert EmittedIn(t) + [e] + [] == EmittedIn(t) + [e] && TrackedIn(t) + [] == TrackedIn(t);
  }

  lemma ErrorsNext(entries: seq<LogEntry>)
    requires entries != []
    ensures var n := |entries| - 1;
      ErrorsOf(entries) == ErrorsOf(entries[..n]) + if IsTracked(entries[n]) then [entries[n]] else []
  {
  }

  /** Each accepted entry is emitted once, in order, and exactly the errors among them are tracked. */
  lemma {:induction false} AnnouncedOnce(entries: seq<LogEntry>)
    ensures EmittedIn(Announced(entries)) == entries && TrackedIn(Announced(entries)) == ErrorsOf(entries)
    decreases |entries|
  {
    if entries != [] {
      hide Announced, EmittedIn, TrackedIn, ErrorsOf, IsTracked, Announce;
      var n := |entries| - 1;
      assert entries[..n + 1] == entries && entries[..n] + [entries[n]] == entries;
      AnnouncedOnce(entries[..n]);
      AnnouncedNext(entries, n);
      ErrorsNext(entries);
      AnnouncePush(Announced(entries[..n]), entries[n]);
    }
  }
}
