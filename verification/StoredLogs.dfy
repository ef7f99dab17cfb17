/** What is stored for each kind of item, field by field, and which text is taken for JSON. */
module StoredLogs {
  import opened Text
  import opened LogParser
  import opened Ingestion
  import BsdSyslogLines

  predicate OfSource(e: LogEntry, source: Source) { e.team == source.team && e.source == source.id }

  /** A record is stored with what it gives, and otherwise now, at level info, under the source's name, from an
      unknown host, without text and without fields. */
  predicate RecordStored(r: Item, e: LogEntry, source: Source, now: string)
    requires r.Record?
  {
    && OfSource(e, source)
    && (r.timestamp.Some? ==> e.timestamp == r.timestamp.value) && (r.timestamp.None? ==> e.timestamp == now)
    && (r.level.Some? ==> e.level == r.level.value) && (r.level.None? ==> e.level == Info)
    && (r.service.Some? ==> e.service == r.service.value) && (r.service.None? ==> e.service == source.name)
    && (r.host.Some? ==> e.host == r.host.value) && (r.host.None? ==> e.host == "unknown")
    && (r.message.Some? ==> e.message == r.message.value) && (r.message.None? ==> e.message == "")
    && (r.fields.Some? ==> e.fields == r.fields.value) && (r.fields.None? ==> e.fields == map[])
  }

  /** A text in no format is stored whole, now, at the level its words suggest. */
  predicate TextStored(text: string, e: LogEntry, source: Source, now: string) {
    && OfSource(e, source) && e.timestamp == now && e.message == text
    && e.service == "unknown" && e.host == "unknown" && e.fields == map[] && LevelOf(text, e.level)
  }

  /** A level's own name in any case; otherwise error for anything with `err`, warn for anything with `warning`, and
      info for the rest. */
  predicate LevelOf(s: string, l: Level) {
    && (Lower(s) == "fatal" ==> l == Fatal) && (Lower(s) == "debug" ==> l == Debug)
    && (Contains(Lower(s), "err") ==> l == Error)
    && (!Contains(Lower(s), "err") && (Lower(s) == "warn" || Contains(Lower(s), "warning")) ==> l == Warn)
    && (l == Fatal ==> Lower(s) == "fatal") && (l == Debug ==> Lower(s) == "debug")
    && (l == Error ==> Contains(Lower(s), "err"))
    && (l == Warn ==> Lower(s) == "warn" || Contains(Lower(s), "warning"))
  }

  /** An element of a JSON text is stored with the members that are strings, and otherwise at info, from an unknown
      service and host, with the element printed as its text. */
  predicate ElementStored(i: JsonItem, e: LogEntry, source: Source, p: Platform)
    requires i.Item?
  {
    && OfSource(e, source)
    && (i.timestamp.Some? ==> p.isoDate(i.timestamp.value) == Some(e.timestamp))
    && (i.timestamp.None? ==> e.timestamp == p.now)
    && (i.level.Some? ==> LevelOf(i.level.value, e.level)) && (i.level.None? ==> e.level == Info)
    && (i.service.Some? ==> e.service == i.service.value) && (i.service.None? ==> e.service == "unknown")
    && (i.host.Some? ==> e.host == i.host.value) && (i.host.None? ==> e.host == "unknown")
    && (i.message.Some? ==> e.message == i.message.value) && (i.message.None? ==> e.message == i.text)
    && (i.fields.Some? ==> e.fields == i.fields.value) && (i.fields.None? ==> e.fields == map[])
  }

  predicate Storable(i: JsonItem, p: Platform) {
    i.Item? && (i.timestamp.Some? ==> p.isoDate(i.timestamp.value).Some?)
  }

  /** A record is never refused. */
  lemma RecordIs(r: Item, format: Option<Format>, source: Source, p: Platform)
    requires r.Record?
    ensures Parsed(r, format, source, p).Ok? && |Parsed(r, format, source, p).value| == 1
    ensures RecordStored(r, Parsed(r, format, source, p).value[0], source, p.now)
  {
  }

  /** Nor is a text said to be plain, whatever it looks like, or one that is found to be. */
  lemma TextIs(text: string, format: Option<Format>, source: Source, p: Platform)
    requires format == Some(Plain) || (format == None && DetectFormat(text) == Plain)
    ensures Parsed(Raw(text), format, source, p).Ok? && |Parsed(Raw(text), format, source, p).value| == 1
    ensures TextStored(text, Parsed(Raw(text), format, source, p).value[0], source, p.now)
  {
    hide DetectFormat, NormalizeLevel, Contains;
    LevelIs(text);
  }

  lemma LevelIs(s: string)
    ensures LevelOf(s, NormalizeLevel(s))
  {
    hide NormalizeLevel, Contains;
    BsdSyslogLines.LevelMeaning(s);
  }

  /** A line said or found to be syslog that is none is stored as a plain one. */
  lemma NoSyslogIs(text: string, format: Option<Format>, source: Source, p: Platform)
    requires format == Some(Rfc5424) ==> MatchRfc5424(text).None?
    requires format == Some(Rfc3164) ==> MatchRfc3164(text).None?
    requires format == Some(Rfc5424) || format == Some(Rfc3164)
    ensures Parsed(Raw(text), format, source, p).Ok? && |Parsed(Raw(text), format, source, p).value| == 1
    ensures TextStored(text, Parsed(Raw(text), format, source, p).value[0], source, p.now)
  {
    hide DetectFormat, NormalizeLevel, Contains, MatchRfc5424, MatchRfc3164;
    LevelIs(text);
  }

  /** JSON is accepted exactly when it parses and each element can be stored; its elements are stored in order. */
  lemma JsonIs(text: string, format: Option<Format>, source: Source, p: Platform)
    requires format == Some(Json) || (format == None && DetectFormat(text) == Json)
    ensures Parsed(Raw(text), format, source, p).Ok? <==>
      p.parseJson(text).Some? && forall i <- p.parseJson(text).value :: Storable(i, p)
    ensures Parsed(Raw(text), format, source, p).Ok? ==>
      ElementsStored(p.parseJson(text).value, Parsed(Raw(text), format, source, p).value, source, p)
  {
    hide DetectFormat, ParseItem, Storable, ElementStored;
    if p.parseJson(text).Some? { ElementsAre(p.parseJson(text).value, source, p); }
  }

  ghost predicate ElementsStored(items: seq<JsonItem>, entries: seq<LogEntry>, source: Source, p: Platform) {
    && |entries| == |items|
    && forall i :: 0 <= i < |items| ==> items[i].Item? && ElementStored(items[i], entries[i], source, p)
  }

  lemma {:induction false} ElementsAre(items: seq<JsonItem>, source: Source, p: Platform)
    ensures var r := ParseItems(items, source.team, source.id, p);
      && (r.Ok? <==> forall i <- items :: Storable(i, p))
      && (r.Ok? ==> ElementsStored(items, r.value, source, p))
  {
    hide ParseItem, Storable, ElementStored;
    if items != [] {
      ElementIs(items[0], source, p);
      ElementsAre(items[1..], source, p);
      assert items == [items[0]] + items[1..];
    }
  }

  lemma ElementIs(i: JsonItem, source: Source, p: Platform)
    ensures ParseItem(i, source.team, source.id, p).Ok? <==> Storable(i, p)
    ensures ParseItem(i, source.team, source.id, p).Ok? ==>
      i.Item? && ElementStored(i, ParseItem(i, source.team, source.id, p).value, source, p)
  {
    hide NormalizeLevel, Contains, LevelOf;
    InfoIsInfo();
    if i.Item? && i.level.Some? { LevelIs(i.level.value); }
  }

  lemma InfoIsInfo()
    ensures NormalizeLevel("info") == Info
  {
    hide NormalizeLevel;
    assert Lower("info") == "info";
    BsdSyslogLines.LevelMeaning("info");
    BsdSyslogLines.ContainsChar("info", "err", 'e');
    BsdSyslogLines.ContainsChar("info", "warning", 'w');
    hide Contains;
  }

  /** A text is taken for JSON exactly when its first character after white space opens an object or an array. */
  lemma JsonDetected(s: string)
    ensures DetectFormat(s) == Json <==>
      exists k :: 0 <= k < |s| && (s[k] == '{' || s[k] == '[') && forall i :: 0 <= i < k ==> IsSpace(s[i])
  {
    hide MatchRfc5424, MatchRfc3164;
    BracesAreSolid();
    hide IsSpace;
    var n := LeadingSpaces(s);
    var rest := s[n..];
    assert Trim(s) == rest[..TrimmedLength(rest)];
    if n < |s| {
      assert rest[0] == s[n];
      assert TrimmedLength(rest) > 0;
      assert Trim(s)[0] == s[n];
    }
    if k :| 0 <= k < |s| && (s[k] == '{' || s[k] == '[') && forall i :: 0 <= i < k ==> IsSpace(s[i]) {
      assert n == k;
    }
  }

  lemma BracesAreSolid()
    ensures !IsSpace('{') && !IsSpace('[')
  {
  }

  /** A format that is given is used, and one that is not is found out from the text. */
  lemma FormatIsDetected(text: string, source: Source, p: Platform)
    ensures Parsed(Raw(text), None, source, p) == Parsed(Raw(text), Some(DetectFormat(text)), source, p)
  {
  }
}
