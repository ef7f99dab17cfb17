/** Reading raw log lines. The two syslog patterns are scanned left to right: each part of them stops
    at a character the part itself cannot take, so the leftmost, longest reading is the only one. */
module LogParser {
  import opened Text

  datatype Level = Debug | Info | Warn | Error | Fatal

  datatype Format = Json | Rfc3164 | Rfc5424 | Plain

  datatype LogEntry = LogEntry(team: string, source: string, timestamp: string, level: Level, service: string,
                               host: string, message: string, fields: map<string, string>)

  /** What a pattern captures. */
  datatype Syslog = Syslog(timestamp: string, host: string, service: string, message: string)

  /** A parsed JSON value as the parser looks at it: the members it reads when they are strings, the
      fields when they are an object, and the text JSON prints for it. */
  datatype JsonItem = Null
                    | Item(timestamp: Option<string>, level: Option<string>, service: Option<string>,
                           host: Option<string>, message: Option<string>, fields: Option<map<string, string>>,
                           text: string)

  /** The platform: the clock, `new Date(s).toISOString()` where it succeeds, and `JSON.parse`, whose
      result is listed as one item unless it is an array. */
  datatype Platform = Platform(now: string, year: string, isoDate: string -> Option<string>,
                               parseJson: string -> Option<seq<JsonItem>>)

  // ---- levels

  function LevelNamed(value: string): Option<Level> {
    if value == "debug" then Some(Debug)
    else if value == "info" then Some(Info)
    else if value == "warn" then Some(Warn)
    else if value == "error" then Some(Error)
    else if value == "fatal" then Some(Fatal)
    else None
  }

  function NormalizeLevel(input: string): Level {
    var value := Lower(input);
    if LevelNamed(value).Some? then LevelNamed(value).value
    else if Contains(value, "err") then Error
    else if Contains(value, "warning") then Warn
    else Info
  }

  // ---- scanning

  function DigitRun(s: string): (n: nat)
    ensures n <= |s| && (n < |s| ==> !IsDigit(s[n])) && forall i :: 0 <= i < n ==> IsDigit(s[i])
  {
    if s == "" || !IsDigit(s[0]) then 0 else 1 + DigitRun(s[1..])
  }

  function WordRun(s: string): (n: nat)
    ensures n <= |s| && (n < |s| ==> IsSpace(s[n])) && forall i :: 0 <= i < n ==> !IsSpace(s[i])
  {
    if s == "" || IsSpace(s[0]) then 0 else 1 + WordRun(s[1..])
  }

  predicate IsClock(c: char) { IsDigit(c) || c == ':' }

  function ClockRun(s: string): (n: nat)
    ensures n <= |s| && (n < |s| ==> !IsClock(s[n])) && forall i :: 0 <= i < n ==> IsClock(s[i])
  {
    if s == "" || !IsClock(s[0]) then 0 else 1 + ClockRun(s[1..])
  }

  function UntilColon(s: string): (n: nat)
    ensures n <= |s| && (n < |s| ==> s[n] == ':') && forall i :: 0 <= i < n ==> s[i] != ':'
  {
    if s == "" || s[0] == ':' then 0 else 1 + UntilColon(s[1..])
  }

  /** `<` digits `>`: what follows. */
  function AfterPriority(s: string): Option<string> {
    if s == "" || s[0] != '<' then None
    else
      var n := DigitRun(s[1..]);
      if n == 0 || 1 + n == |s| || s[1 + n] != '>' then None else Some(s[n + 2..])
  }

  /** A non-empty run without spaces and one space: the run, and what follows. */
  function Word(s: string): Option<(string, string)> {
    var n := WordRun(s);
    if n == 0 || n == |s| then None else Some((s[..n], s[n + 1..]))
  }

  predicate OneLine(s: string) { forall c <- s :: !IsLineTerminator(c) }

  /** An optional space, then the message to the end, which no line terminator interrupts. */
  function Message(s: string): Option<string> {
    var m := if s != "" && IsSpace(s[0]) then s[1..] else s;
    if OneLine(m) then Some(m) else None
  }

  function DashMessage(s: string): Option<string> { Message(if s != "" && s[0] == '-' then s[1..] else s) }

  function MatchRfc5424(s: string): Option<Syslog> {
    var h := AfterPriority(s);
    if h.None? || |h.value| < 2 || h.value[0] != '1' || !IsSpace(h.value[1]) then None
    else
      var t := Words(h.value[2..], 5);
      if t.None? then None
      else
        var m := DashMessage(t.value.1);
        if m.None? then None else Some(Syslog(t.value.0[0], t.value.0[1], t.value.0[2], m.value))
  }

  /** `n` words in a row, each followed by one space. */
  function Words(s: string, n: nat): (r: Option<(seq<string>, string)>)
    ensures r.Some? ==> |r.value.0| == n
  {
    if n == 0 then Some(([], s))
    else
      var w := Word(s);
      if w.None? then None
      else
        var rest := Words(w.value.1, n - 1);
        if rest.None? then None else Some(([w.value.0] + rest.value.0, rest.value.1))
  }

  predicate IsUpper(c: char) { 'A' <= c <= 'Z' }

  predicate IsLowerCase(c: char) { 'a' <= c <= 'z' }

  /** A three-letter month name: what follows. */
  function AfterMonth(s: string): Option<string> {
    if |s| < 3 || !IsUpper(s[0]) || !IsLowerCase(s[1]) || !IsLowerCase(s[2]) then None else Some(s[3..])
  }

  /** One space or more. */
  function AfterGap(s: string): Option<string> {
    var n := LeadingSpaces(s);
    if n == 0 then None else Some(s[n..])
  }

  /** Digits and one space. */
  function AfterDay(s: string): Option<string> {
    var n := DigitRun(s);
    if n == 0 || n == |s| || !IsSpace(s[n]) then None else Some(s[n + 1..])
  }

  /** Digits and colons, and one space. */
  function AfterClock(s: string): Option<string> {
    var n := ClockRun(s);
    if n == 0 || n == |s| || !IsSpace(s[n]) then None else Some(s[n + 1..])
  }

  function AfterStamp(s: string): Option<string> {
    var m := AfterMonth(s);
    if m.None? then None
    else
      var g := AfterGap(m.value);
      if g.None? then None
      else
        var d := AfterDay(g.value);
        if d.None? then None else AfterClock(d.value)
  }

  function MatchRfc3164(s: string): Option<Syslog> {
    var h := AfterPriority(s);
    if h.None? || AfterStamp(h.value).None? then None
    else
      var afterStamp := AfterStamp(h.value).value;
      var w := Word(afterStamp);
      if w.None? then None
      else
        var k := UntilColon(w.value.1);
        if k == 0 || k == |w.value.1| then None
        else
          var m := Message(w.value.1[k + 1..]);
          if m.None? then None
          else Some(Syslog(h.value[..|h.value| - |afterStamp| - 1], w.value.0, w.value.1[..k], m.value))
  }

  // ---- the parser

  function DetectFormat(sample: string): Format {
    var trimmed := Trim(sample);
    if "{" <= trimmed || "[" <= trimmed then Json
    else if MatchRfc5424(trimmed).Some? then Rfc5424
    else if MatchRfc3164(trimmed).Some? then Rfc3164
    else Plain
  }

  function ParsePlain(raw: string, team: string, source: string, p: Platform): LogEntry {
    LogEntry(team, source, p.now, NormalizeLevel(raw), "unknown", "unknown", raw, map[])
  }

  function FromSyslog(m: Syslog, date: Option<string>, team: string, source: string): Result<LogEntry> {
    if date.None? then Throws
    else Ok(LogEntry(team, source, date.value, NormalizeLevel(m.message), m.service, m.host, m.message, map[]))
  }

  function ParseRfc3164(raw: string, team: string, source: string, p: Platform): Result<LogEntry> {
    var m := MatchRfc3164(raw);
    if m.None? then Ok(ParsePlain(raw, team, source, p))
    else FromSyslog(m.value, p.isoDate(p.year + " " + m.value.timestamp + " UTC"), team, source)
  }

  function ParseRfc5424(raw: string, team: string, source: string, p: Platform): Result<LogEntry> {
    var m := MatchRfc5424(raw);
    if m.None? then Ok(ParsePlain(raw, team, source, p))
    else FromSyslog(m.value, p.isoDate(m.value.timestamp), team, source)
  }

  function Given(o: Option<string>, default: string): string { if o.Some? then o.value else default }

  function ParseItem(i: JsonItem, team: string, source: string, p: Platform): Result<LogEntry> {
    if i.Null? then Throws
    else
      var date := if i.timestamp.Some? then p.isoDate(i.timestamp.value) else Some(p.now);
      if date.None? then Throws
      else Ok(LogEntry(team, source, date.value, NormalizeLevel(Given(i.level, "info")), Given(i.service, "unknown"),
                       Given(i.host, "unknown"), Given(i.message, i.text),
                       if i.fields.Some? then i.fields.value else map[]))
  }

  function ParseItems(items: seq<JsonItem>, team: string, source: string, p: Platform): Result<seq<LogEntry>> {
    if items == [] then Ok([])
    else
      var first, rest := ParseItem(items[0], team, source, p), ParseItems(items[1..], team, source, p);
      if first.Ok? && rest.Ok? then Ok([first.value] + rest.value) else Throws
  }

  function ParseJson(raw: string, team: string, source: string, p: Platform): Result<seq<LogEntry>> {
    var items := p.parseJson(raw);
    if items.None? then Throws else ParseItems(items.value, team, source, p)
  }

  function One(e: Result<LogEntry>): Result<seq<LogEntry>> { if e.Ok? then Ok([e.value]) else Throws }

  function ParseRaw(raw: string, format: Format, team: string, source: string, p: Platform): Result<seq<LogEntry>> {
    match format
    case Json => ParseJson(raw, team, source, p)
    case Rfc3164 => One(ParseRfc3164(raw, team, source, p))
    case Rfc5424 => One(ParseRfc5424(raw, team, source, p))
    case Plain => Ok([ParsePlain(raw, team, source, p)])
  }
}
