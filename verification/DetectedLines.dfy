/** What becomes of a line whose format was detected: detection trims the sample, parsing does not. */
module DetectedLines {
  import opened Text
  import opened LogParser
  import opened SyslogLines
  import opened BsdSyslogLines

  /** The white space a line ends in. */
  function Trailing(s: string): string { s[TrimmedLength(s)..] }

  /** What of it the message has to take in: all, but for the one space a pattern allows before the message
      when the trimmed line leaves that place empty. */
  function Unread(s: string, message: string): string {
    if message == "" && Trailing(s) != "" then Trailing(s)[1..] else Trailing(s)
  }

  /** The line is not indented, and no line terminator follows its message. */
  predicate ReadsOn(s: string, message: string) { s != "" && !IsSpace(s[0]) && OneLine(Unread(s, message)) }

  // ---- a trimmed line and its trailing white space

  lemma TrimAndTrail(s: string)
    requires s != "" && !IsSpace(s[0])
    ensures s == Trim(s) + Trailing(s) && Trim(s) != "" && !IsSpace(Trim(s)[|Trim(s)| - 1])
    ensures forall c <- Trailing(s) :: IsSpace(c)
  {
    hide IsSpace;
    assert TrimStart(s) == s;
    var n := TrimmedLength(s);
    forall c | c in Trailing(s) ensures IsSpace(c) {
      var i :| 0 <= i < |Trailing(s)| && Trailing(s)[i] == c;
      assert s[n + i] == c;
    }
  }

  /** A part of a trimmed line that runs to its end. */
  predicate EndsSolid(s: string) { s != "" ==> !IsSpace(s[|s| - 1]) }

  /** White space after a message that stands on one line: the message takes it in, if it stays on one line. */
  lemma MessageGrows(rest: string, space: string)
    requires Message(rest).Some? && EndsSolid(rest) && forall c <- space :: IsSpace(c)
    ensures var m := Message(rest).value;
      var u := if m == "" && space != "" then space[1..] else space;
      Message(rest + space) == if OneLine(u) then Some(m + u) else None
  {
    hide IsSpace, OneLine;
    var m := Message(rest).value;
    if rest == "" {
      assert rest + space == space;
      if space != "" { assert space[0] in space; }
      assert m == "" && OneLine(m);
      assert "" + (if space != "" then space[1..] else space) == if space != "" then space[1..] else space;
    } else {
      assert (rest + space)[0] == rest[0];
      assert (rest + space)[1..] == rest[1..] + space;
      assert m != "" by { assert |rest| == 1 ==> rest[|rest| - 1] == rest[0]; }
      OneLineConcat(m, space);
    }
  }

  lemma OneLineConcat(a: string, b: string)
    ensures OneLine(a + b) <==> OneLine(a) && OneLine(b)
  {
    hide IsLineTerminator;
    if OneLine(a + b) {
      forall c | c in a ensures !IsLineTerminator(c) { assert c in a + b; }
      forall c | c in b ensures !IsLineTerminator(c) { assert c in a + b; }
    }
    assert forall c <- a + b :: c in a || c in b;
  }

  lemma DashMessageGrows(rest: string, space: string)
    requires DashMessage(rest).Some? && rest != "" && EndsSolid(rest) && forall c <- space :: IsSpace(c)
    ensures var m := DashMessage(rest).value;
      var u := if m == "" && space != "" then space[1..] else space;
      DashMessage(rest + space) == if OneLine(u) then Some(m + u) else None
  {
    hide IsSpace, Message, OneLine;
    assert (rest + space)[0] == rest[0];
    if rest[0] == '-' {
      assert (rest + space)[1..] == rest[1..] + space;
      MessageGrows(rest[1..], space);
    } else {
      MessageGrows(rest, space);
    }
  }

  /** An indented line matches neither pattern. */
  lemma IndentedMatchesNot(s: string)
    requires s != "" && IsSpace(s[0])
    ensures MatchRfc5424(s).None? && MatchRfc3164(s).None?
  {
    assert AfterPriority(s).None?;
  }

  lemma {:induction false} SpacedEndsInSpace(ws: seq<(string, char)>)
    requires AllWords(ws) && ws != []
    ensures Spaced(ws) != "" && IsSpace(Spaced(ws)[|Spaced(ws)| - 1])
  {
    hide IsSpace, IsWord;
    assert ws[0] in ws && forall w <- ws[1..] :: w in ws;
    if |ws| > 1 { SpacedEndsInSpace(ws[1..]); }
  }

  lemma LastOf(head: string, rest: string)
    requires rest != ""
    ensures (head + rest)[|head + rest| - 1] == rest[|rest| - 1]
  {
  }

  /** What a solid text has after a space is not empty and is solid itself. */
  lemma SolidTail(head: string, rest: string)
    requires head != "" && IsSpace(head[|head| - 1]) && EndsSolid(head + rest)
    ensures rest != "" && EndsSolid(rest)
  {
    hide IsSpace;
    assert rest == "" ==> head + rest == head;
    assert rest != "" ==> (head + rest)[|head + rest| - 1] == rest[|rest| - 1];
  }

  // ---- RFC 5424

  /** A line detected as RFC 5424 matches the pattern exactly when it reads on; its message is then that of the
      trimmed line with the white space read on. */
  lemma Rfc5424Detected(s: string)
    requires DetectFormat(s).Rfc5424?
    ensures MatchRfc5424(Trim(s)).Some?
    ensures var m := MatchRfc5424(Trim(s)).value;
      MatchRfc5424(s) == if ReadsOn(s, m.message) then Some(m.(message := m.message + Unread(s, m.message))) else None
  {
    hide MatchRfc5424, MatchRfc3164, Trim, Trailing, DashMessage, IsSpace, OneLine, Spaced, Priority, AllWords,
      IsDecimal;
    var t := Trim(s);
    EmptyMatchesNot();
    if s != "" && IsSpace(s[0]) {
      IndentedMatchesNot(s);
    } else {
      assert s != "" by { TrimOfEmpty(); }
      TrimAndTrail(s);
      var d, s0, ws, rest := MatchHasShape5424(t);
      var head := Priority(d) + "1" + [s0] + Spaced(ws);
      SpacedEndsInSpace(ws);
      assert t == head + rest;
      LastOf(Priority(d) + "1" + [s0], Spaced(ws));
      SolidTail(head, rest);
      ShapeMatches5424(d, s0, ws, rest);
      DashMessageGrows(rest, Trailing(s));
      ShapeMatches5424(d, s0, ws, rest + Trailing(s));
      assert s == head + (rest + Trailing(s));
    }
  }

  lemma TrimOfEmpty()
    ensures Trim("") == ""
  {
  }

  lemma EmptyMatchesNot()
    ensures MatchRfc5424("").None? && MatchRfc3164("").None?
  {
  }

  // ---- RFC 3164

  /** The same for a line detected as RFC 3164. */
  lemma Rfc3164Detected(s: string)
    requires DetectFormat(s).Rfc3164?
    ensures MatchRfc3164(Trim(s)).Some?
    ensures var m := MatchRfc3164(Trim(s)).value;
      MatchRfc3164(s) == if ReadsOn(s, m.message) then Some(m.(message := m.message + Unread(s, m.message))) else None
  {
    hide MatchRfc5424, MatchRfc3164, Trim, Trailing, Message, IsSpace, OneLine, Priority, StampText, IsDecimal, IsStamp,
      IsWord, IsTag, Line3164;
    var t := Trim(s);
    EmptyMatchesNot();
    if s != "" && IsSpace(s[0]) {
      IndentedMatchesNot(s);
    } else {
      assert s != "" by { TrimOfEmpty(); }
      TrimAndTrail(s);
      var d, st, s1, host, s2, tag, rest := MatchHasShape3164(t);
      LineEnds(d, st, s1, host, s2, tag, rest, Trailing(s));
      ShapeMatches3164(d, st, s1, host, s2, tag, rest);
      MessageGrows(rest, Trailing(s));
      ShapeMatches3164(d, st, s1, host, s2, tag, rest + Trailing(s));
    }
  }

  lemma LineEnds(d: string, t: Stamp, s1: char, host: string, s2: char, tag: string, rest: string, more: string)
    ensures var line := Line3164(d, t, s1, host, s2, tag, rest);
      && line + more == Line3164(d, t, s1, host, s2, tag, rest + more)
      && |rest| < |line| && (rest != "" ==> line[|line| - 1] == rest[|rest| - 1])
  {
    hide Priority, StampText;
    var p, st := Priority(d), StampText(t);
    assert p + (st + [s1] + (host + [s2] + (tag + ":" + rest))) + more
      == p + (st + [s1] + (host + [s2] + (tag + ":" + (rest + more))));
  }

  // ---- what is stored

  /** The parts the pattern of the detected format finds in the trimmed line. */
  function Seen(s: string): Option<Syslog> {
    if DetectFormat(s).Rfc5424? then MatchRfc5424(Trim(s))
    else if DetectFormat(s).Rfc3164? then MatchRfc3164(Trim(s))
    else None
  }

  lemma MessageShorter5424(s: string)
    requires MatchRfc5424(s).Some?
    ensures |MatchRfc5424(s).value.message| < |s|
  {
    hide MatchRfc5424, Spaced, AllWords, IsDecimal, IsSpace;
    var d, s0, ws, rest := MatchHasShape5424(s);
    ShapeMatches5424(d, s0, ws, rest);
  }

  lemma MessageShorter3164(s: string)
    requires MatchRfc3164(s).Some?
    ensures |MatchRfc3164(s).value.message| < |s|
  {
    hide MatchRfc3164, IsDecimal, IsSpace, IsStamp, IsWord, IsTag, Line3164;
    var d, t, s1, host, s2, tag, rest := MatchHasShape3164(s);
    ShapeMatches3164(d, t, s1, host, s2, tag, rest);
    LineEnds(d, t, s1, host, s2, tag, rest, "");
  }

  /** A line detected as syslog ends up whole in a plain entry exactly when it does not read on: it is
      indented, or a line terminator follows its message. */
  lemma DetectedIsPlainIff(s: string, team: string, source: string, p: Platform)
    requires DetectFormat(s).Rfc5424? || DetectFormat(s).Rfc3164?
    ensures Seen(s).Some?
    ensures ParseRaw(s, DetectFormat(s), team, source, p) == Ok([ParsePlain(s, team, source, p)])
      <==> !ReadsOn(s, Seen(s).value.message)
  {
    hide MatchRfc5424, MatchRfc3164, Trim, DetectFormat, ReadsOn, Unread, NormalizeLevel;
    if DetectFormat(s).Rfc5424? {
      Rfc5424Detected(s);
      if MatchRfc5424(s).Some? { MessageShorter5424(s); }
    } else {
      Rfc3164Detected(s);
      if MatchRfc3164(s).Some? { MessageShorter3164(s); }
    }
  }

  // ---- lines as they arrive

  /** Printing a line and indenting it: detected, and kept as plain text. */
  lemma IndentedIsPlain(s: string, team: string, source: string, p: Platform)
    requires DetectFormat(s).Rfc5424? || DetectFormat(s).Rfc3164?
    ensures DetectFormat(" " + s) == DetectFormat(s)
    ensures ParseRaw(" " + s, DetectFormat(" " + s), team, source, p) == Ok([ParsePlain(" " + s, team, source, p)])
  {
    hide MatchRfc5424, MatchRfc3164, DetectFormat, ReadsOn, Trim, ParseRaw;
    TrimIndented(s);
    SameTrimSameFormat(s, " " + s);
    DetectedIsPlainIff(" " + s, team, source, p);
    assert !ReadsOn(" " + s, Seen(" " + s).value.message) by { IndentedReadsNotOn(s, Seen(" " + s).value.message); }
  }

  lemma IndentedReadsNotOn(s: string, message: string)
    ensures !ReadsOn(" " + s, message)
  {
  }

  lemma SameTrimSameFormat(a: string, b: string)
    requires Trim(a) == Trim(b)
    ensures DetectFormat(a) == DetectFormat(b)
  {
    hide Trim, MatchRfc5424, MatchRfc3164;
  }

  lemma TrimIndented(s: string)
    ensures Trim(" " + s) == Trim(s)
  {
    assert (" " + s)[1..] == s;
  }

  /** A line that is read, with a newline added: detected as before, and kept as plain text, unless it carries
      no message at all, when the newline is taken for the space before one. */
  lemma NewlineEndsPlain(s: string, team: string, source: string, p: Platform)
    requires DetectFormat(s).Rfc5424? || DetectFormat(s).Rfc3164?
    requires s == Trim(s)
    ensures DetectFormat(s + "\n") == DetectFormat(s) && Seen(s).Some?
    ensures ParseRaw(s + "\n", DetectFormat(s + "\n"), team, source, p) == Ok([ParsePlain(s + "\n", team, source, p)])
      <==> Seen(s).value.message != ""
  {
    hide MatchRfc5424, MatchRfc3164, DetectFormat, ReadsOn, Trim, ParseRaw;
    assert s != "" && !IsSpace(s[0]) && EndsSolid(s) by { DetectedIsSolid(s); }
    TrimNewline(s);
    SameTrimSameFormat(s, s + "\n");
    DetectedIsPlainIff(s + "\n", team, source, p);
    NewlineReadsOn(s, Seen(s).value.message);
  }

  lemma DetectedIsSolid(s: string)
    requires (DetectFormat(s).Rfc5424? || DetectFormat(s).Rfc3164?) && s == Trim(s)
    ensures s != "" && !IsSpace(s[0]) && EndsSolid(s)
  {
    hide MatchRfc5424, MatchRfc3164, IsSpace;
    EmptyMatchesNot();
  }

  lemma TrimNewline(s: string)
    requires s != "" && !IsSpace(s[0]) && EndsSolid(s)
    ensures Trim(s + "\n") == Trim(s) && Trailing(s + "\n") == "\n"
  {
    var t := s + "\n";
    assert t[..|t| - 1] == s && TrimmedLength(s) == |s|;
    assert TrimmedLength(t) == |s|;
    assert TrimStart(t) == t && TrimStart(s) == s;
  }

  lemma NewlineReadsOn(s: string, message: string)
    requires s != "" && !IsSpace(s[0]) && Trailing(s + "\n") == "\n"
    ensures ReadsOn(s + "\n", message) <==> message == ""
  {
    hide IsSpace, Trailing;
    assert (s + "\n")[0] == s[0];
    assert "\n"[0] in "\n" && IsLineTerminator("\n"[0]);
    assert "\n"[1..] == "";
  }
}
