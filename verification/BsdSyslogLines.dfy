/** The older syslog line: printing one and reading it back, and its disjointness from the newer shape. */
module BsdSyslogLines {
  import opened Text
  import opened LogParser
  import opened SyslogLines

  // ---- the time stamp

  /** Month, a gap of spaces, day, one space, clock. */
  datatype Stamp = Stamp(month: string, gap: string, day: string, space: char, clock: string)

  function StampText(t: Stamp): string { t.month + t.gap + t.day + [t.space] + t.clock }

  predicate IsStamp(t: Stamp) {
    && |t.month| == 3 && IsUpper(t.month[0]) && IsLowerCase(t.month[1]) && IsLowerCase(t.month[2])
    && t.gap != "" && (forall c <- t.gap :: IsSpace(c))
    && IsDecimal(t.day) && IsSpace(t.space)
    && t.clock != "" && (forall c <- t.clock :: IsClock(c))
  }

  lemma {:induction false} GapRun(gap: string, rest: string)
    requires forall c <- gap :: IsSpace(c)
    requires rest != "" && !IsSpace(rest[0])
    ensures LeadingSpaces(gap + rest) == |gap|
  {
    if gap == "" {
      assert gap + rest == rest;
    } else {
      assert (gap + rest)[1..] == gap[1..] + rest;
      assert gap[0] in gap;
      GapRun(gap[1..], rest);
    }
  }

  lemma GapReads(gap: string, rest: string)
    requires gap != "" && (forall c <- gap :: IsSpace(c)) && rest != "" && !IsSpace(rest[0])
    ensures AfterGap(gap + rest) == Some(rest)
  {
    hide IsSpace;
    GapRun(gap, rest);
  }

  lemma DayReads(day: string, space: char, rest: string)
    requires IsDecimal(day) && IsSpace(space)
    ensures AfterDay(day + [space] + rest) == Some(rest)
  {
    SpaceIsNoDigit(space);
    hide IsSpace;
    assert day + [space] + rest == day + ([space] + rest);
    DigitsRun(day, [space] + rest);
  }

  lemma {:induction false} ClocksRun(clock: string, rest: string)
    requires forall c <- clock :: IsClock(c)
    requires rest != "" && !IsClock(rest[0])
    ensures ClockRun(clock + rest) == |clock|
  {
    if clock == "" {
      assert clock + rest == rest;
    } else {
      assert (clock + rest)[1..] == clock[1..] + rest;
      assert clock[0] in clock;
      ClocksRun(clock[1..], rest);
    }
  }

  lemma ClockReads(clock: string, space: char, rest: string)
    requires clock != "" && (forall c <- clock :: IsClock(c)) && IsSpace(space)
    ensures AfterClock(clock + [space] + rest) == Some(rest)
  {
    SpaceIsNoDigit(space);
    hide IsSpace;
    assert clock + [space] + rest == clock + ([space] + rest);
    ClocksRun(clock, [space] + rest);
  }

  lemma SpaceIsNoDigit(c: char)
    ensures IsSpace(c) ==> !IsDigit(c) && !IsClock(c)
  {
  }

  lemma StampReads(t: Stamp, space: char, rest: string)
    requires IsStamp(t) && IsSpace(space)
    ensures AfterStamp(StampText(t) + [space] + rest) == Some(rest)
  {
    hide IsSpace, IsClock, AfterGap, AfterDay, AfterClock;
    var afterDay := t.clock + [space] + rest;
    var afterGap := t.day + [t.space] + afterDay;
    var s := StampText(t) + [space] + rest;
    assert s == t.month + (t.gap + afterGap);
    assert s[3..] == t.gap + afterGap;
    DigitIsNoSpace(t.day);
    GapReads(t.gap, afterGap);
    DayReads(t.day, t.space, afterDay);
    ClockReads(t.clock, space, rest);
  }

  lemma DigitIsNoSpace(day: string)
    requires IsDecimal(day)
    ensures !IsSpace(day[0])
  {
    assert day[0] in day;
  }

  lemma {:induction false} ColonReads(service: string, rest: string)
    requires forall c <- service :: c != ':'
    ensures UntilColon(service + ":" + rest) == |service|
  {
    if service == "" {
      assert service + ":" + rest == ":" + rest;
    } else {
      assert (service + ":" + rest)[1..] == service[1..] + ":" + rest;
      assert service[0] in service && forall c <- service[1..] :: c in service;
      ColonReads(service[1..], rest);
    }
  }

  predicate IsTag(s: string) { s != "" && forall c <- s :: c != ':' }

  // ---- the shape

  function Line3164(d: string, t: Stamp, s1: char, host: string, s2: char, tag: string, rest: string): string {
    Priority(d) + (StampText(t) + [s1] + (host + [s2] + (tag + ":" + rest)))
  }

  /** Every line of the shape the second pattern describes matches it, with these parts. */
  lemma ShapeMatches3164(d: string, t: Stamp, s1: char, host: string, s2: char, tag: string, rest: string)
    requires IsDecimal(d) && IsStamp(t) && IsSpace(s1) && IsWord(host) && IsSpace(s2) && IsTag(tag)
    ensures MatchRfc3164(Line3164(d, t, s1, host, s2, tag, rest)) ==
      if Message(rest).None? then None else Some(Syslog(StampText(t), host, tag, Message(rest).value))
  {
    hide AfterPriority, Priority, AfterStamp, StampText, Message, Word, IsWord, IsSpace, IsStamp;
    var afterHost := tag + ":" + rest;
    var h := StampText(t) + [s1] + (host + [s2] + afterHost);
    PriorityReads(d, h);
    StampReads(t, s1, host + [s2] + afterHost);
    WordReads(host, s2, afterHost);
    ColonReads(tag, rest);
    assert |h| - |host + [s2] + afterHost| - 1 == |StampText(t)|;
    assert h[..|StampText(t)|] == StampText(t);
    assert afterHost[..|tag|] == tag && afterHost[|tag| + 1..] == rest;
  }

  lemma RunOf(s: string, n: nat)
    requires n <= |s|
    ensures forall c <- s[..n] :: exists i :: 0 <= i < n && s[i] == c
  {
    forall c | c in s[..n] ensures exists i :: 0 <= i < n && s[i] == c {
      var i :| 0 <= i < n && s[..n][i] == c;
      assert s[i] == c;
    }
  }

  lemma GapShape(s: string) returns (gap: string)
    requires AfterGap(s).Some?
    ensures gap != "" && (forall c <- gap :: IsSpace(c)) && s == gap + AfterGap(s).value
  {
    hide IsSpace;
    gap := s[..LeadingSpaces(s)];
    RunOf(s, LeadingSpaces(s));
  }

  lemma DayShape(s: string) returns (day: string, space: char)
    requires AfterDay(s).Some?
    ensures IsDecimal(day) && IsSpace(space) && s == day + [space] + AfterDay(s).value
  {
    hide IsSpace;
    day, space := s[..DigitRun(s)], s[DigitRun(s)];
    RunOf(s, DigitRun(s));
    CutAt(s, DigitRun(s));
  }

  lemma ClockShape(s: string) returns (clock: string, space: char)
    requires AfterClock(s).Some?
    ensures clock != "" && (forall c <- clock :: IsClock(c)) && IsSpace(space)
    ensures s == clock + [space] + AfterClock(s).value
  {
    hide IsSpace, IsClock;
    clock, space := s[..ClockRun(s)], s[ClockRun(s)];
    RunOf(s, ClockRun(s));
    CutAt(s, ClockRun(s));
  }

  lemma StampShape(s: string) returns (t: Stamp, space: char)
    requires AfterStamp(s).Some?
    ensures IsStamp(t) && IsSpace(space) && s == StampText(t) + [space] + AfterStamp(s).value
  {
    hide IsSpace, IsClock, AfterGap, AfterDay, AfterClock;
    var afterMonth := AfterMonth(s).value;
    var gap := GapShape(afterMonth);
    var day, sp := DayShape(AfterGap(afterMonth).value);
    var clock, last := ClockShape(AfterDay(AfterGap(afterMonth).value).value);
    t, space := Stamp(s[..3], gap, day, sp, clock), last;
    assert s == t.month + (gap + (day + [sp] + (clock + [last] + AfterStamp(s).value)));
  }

  /** And every line that matches is of that shape. */
  lemma MatchHasShape3164(s: string)
    returns (d: string, t: Stamp, s1: char, host: string, s2: char, tag: string, rest: string)
    requires MatchRfc3164(s).Some?
    ensures IsDecimal(d) && IsStamp(t) && IsSpace(s1) && IsWord(host) && IsSpace(s2) && IsTag(tag)
    ensures Message(rest).Some?
    ensures s == Line3164(d, t, s1, host, s2, tag, rest)
  {
    hide AfterPriority, Priority, AfterStamp, StampText, Message, Word, IsWord, IsSpace, IsStamp, IsTag;
    var h := AfterPriority(s).value;
    d := PriorityShape(s);
    t, s1 := StampShape(h);
    var afterStamp := AfterStamp(h).value;
    WordIs(afterStamp);
    var w := WordRun(afterStamp);
    host, s2 := afterStamp[..w], afterStamp[w];
    tag, rest := TagShape(afterStamp[w + 1..]);
    assert h == StampText(t) + [s1] + (host + [s2] + (tag + ":" + rest));
  }

  lemma TagShape(s: string) returns (tag: string, rest: string)
    requires 0 < UntilColon(s) < |s|
    ensures IsTag(tag) && s == tag + ":" + rest && rest == s[UntilColon(s) + 1..]
  {
    var k := UntilColon(s);
    tag, rest := s[..k], s[k + 1..];
    RunOf(s, k);
    CutAt(s, k);
  }

  /** No line is of both shapes. */
  lemma ShapesDisjoint(s: string)
    ensures MatchRfc5424(s).None? || MatchRfc3164(s).None?
  {
  }

  // ---- RFC 3164

  /** Section 4.1 of RFC 3164: a one-digit day is padded with a second space. */
  function PrintedStamp(month: string, day: string, clock: string): Stamp {
    Stamp(month, if |day| == 1 then "  " else " ", day, ' ', clock)
  }

  function Print3164(priority: string, t: Stamp, host: string, tag: string, m: Option<string>): string {
    Priority(priority) + StampText(t) + " " + host + " " + tag + ":" + Tail(m)
  }

  lemma PrintIsLine(priority: string, t: Stamp, host: string, tag: string, m: Option<string>)
    ensures Print3164(priority, t, host, tag, m) == Line3164(priority, t, ' ', host, ' ', tag, Tail(m))
  {
    hide Priority, StampText, Tail;
    var p, st := Priority(priority), StampText(t);
    assert p + st + " " + host + " " + tag + ":" + Tail(m) == p + (st + [' '] + (host + [' '] + (tag + ":" + Tail(m))));
  }

  /** Printing and matching gives the parts back exactly when the message stands on one line. */
  lemma Rfc3164RoundTrip(priority: string, month: string, day: string, clock: string, host: string, tag: string,
                         m: Option<string>)
    requires var t := PrintedStamp(month, day, clock); IsStamp(t)
    requires IsDecimal(priority) && IsWord(host) && IsTag(tag)
    ensures var t := PrintedStamp(month, day, clock);
      MatchRfc3164(Print3164(priority, t, host, tag, m)) ==
        if OneLine(MessageText(m)) then Some(Syslog(StampText(t), host, tag, MessageText(m))) else None
  {
    hide MatchRfc3164, Message, IsWord, IsStamp, OneLine, Tail, MessageText, StampText, Priority, Print3164, Line3164;
    var t := PrintedStamp(month, day, clock);
    PrintIsLine(priority, t, host, tag, m);
    ShapeMatches3164(priority, t, ' ', host, ' ', tag, Tail(m));
    TailReads(m);
  }

  /** A printed line is detected as what it is, and parsed to its host, service and message; the year,
      which the line does not carry, is the current one. */
  lemma Rfc3164Parses(priority: string, month: string, day: string, clock: string, host: string, tag: string,
                      m: Option<string>, team: string, source: string, p: Platform)
    requires var t := PrintedStamp(month, day, clock); IsStamp(t)
    requires IsDecimal(priority) && IsWord(host) && IsTag(tag) && OneLine(MessageText(m))
    ensures var t := PrintedStamp(month, day, clock);
      var line := Print3164(priority, t, host, tag, m);
      var date := p.isoDate(p.year + " " + StampText(t) + " UTC");
      && DetectFormat(line) == Rfc3164
      && ParseRaw(line, DetectFormat(line), team, source, p) ==
        if date.None? then Throws
        else Ok([LogEntry(team, source, date.value, NormalizeLevel(MessageText(m)), tag, host, MessageText(m), map[])])
  {
    hide MatchRfc5424, MatchRfc3164, Message, IsWord, IsStamp, IsTag, OneLine, Tail, MessageText, StampText, Line3164,
      NormalizeLevel, Trim, TrimEnd;
    var t := PrintedStamp(month, day, clock);
    var line := Print3164(priority, t, host, tag, m);
    Rfc3164RoundTrip(priority, month, day, clock, host, tag, m);
    var head := Priority(priority) + StampText(t) + " " + host + " " + tag + ":";
    assert head[0] == '<' && head[|head| - 1] == ':' && line == head + Tail(m);
    TrimLine(head, Tail(m));
    TrimmedTail(m);
    TrimmedIsLine(priority, t, host, tag, TrimEnd(Tail(m)));
    ShapeMatches3164(priority, t, ' ', host, ' ', tag, TrimEnd(Tail(m)));
    ShapesDisjoint(Trim(line));
    assert Trim(line)[0] == '<';
    assert DetectFormat(line) == Rfc3164;
  }

  lemma TrimmedIsLine(priority: string, t: Stamp, host: string, tag: string, rest: string)
    ensures Priority(priority) + StampText(t) + " " + host + " " + tag + ":" + rest
      == Line3164(priority, t, ' ', host, ' ', tag, rest)
  {
    hide Priority, StampText;
    var p, st := Priority(priority), StampText(t);
    assert p + st + " " + host + " " + tag + ":" + rest == p + (st + [' '] + (host + [' '] + (tag + ":" + rest)));
  }

  /** Which level a message is given: a level's own name, else by what it contains. */
  lemma LevelMeaning(s: string)
    ensures var v := Lower(s); var l := NormalizeLevel(s);
      && (l == Fatal <==> v == "fatal") && (l == Debug <==> v == "debug")
      && (l == Error <==> Contains(v, "err"))
      && (l == Warn <==> !Contains(v, "err") && (v == "warn" || Contains(v, "warning")))
  {
    var v := Lower(s);
    NoErrIn();
    hide Contains;
  }

  lemma ContainsChar(s: string, a: string, c: char)
    requires c in a
    ensures Contains(s, a) ==> c in s
  {
    if Contains(s, a) {
      var i :| 0 <= i <= |s| && a <= s[i..];
      var j :| 0 <= j < |a| && a[j] == c;
      assert s[i..][j] == c && s[i + j] == c;
    }
  }

  lemma NoErrIn()
    ensures !Contains("fatal", "err") && !Contains("debug", "err") && !Contains("info", "err")
    ensures !Contains("warn", "err")
    ensures !Contains("fatal", "warning") && !Contains("debug", "warning") && !Contains("info", "warning")
    ensures Contains("error", "err")
  {
    hide Contains;
    assert "err"[0] == 'e' && "err"[1] == 'r' && "warning"[0] == 'w';
    ContainsChar("fatal", "err", 'e');
    ContainsChar("debug", "err", 'r');
    ContainsChar("info", "err", 'e');
    ContainsChar("warn", "err", 'e');
    ContainsChar("fatal", "warning", 'w');
    ContainsChar("debug", "warning", 'w');
    ContainsChar("info", "warning", 'w');
    ContainsPrefix("error", "err");
  }

  lemma ContainsPrefix(s: string, a: string)
    requires a <= s
    ensures Contains(s, a)
  {
    assert a <= s[0..];
  }
}
