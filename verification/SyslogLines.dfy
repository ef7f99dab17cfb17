/** Printing a syslog line and reading it back. */
module SyslogLines {
  import opened Text
  import opened LogParser

  // ---- what the patterns describe

  predicate IsWord(s: string) { s != "" && forall c <- s :: !IsSpace(c) }

  function Priority(digits: string): string { "<" + digits + ">" }

  lemma {:induction false} DigitsRun(d: string, rest: string)
    requires forall c <- d :: IsDigit(c)
    requires rest != "" ==> !IsDigit(rest[0])
    ensures DigitRun(d + rest) == |d|
  {
    if d == "" {
      assert d + rest == rest;
    } else {
      assert (d + rest)[1..] == d[1..] + rest;
      assert d[0] in d;
      DigitsRun(d[1..], rest);
    }
  }

  lemma PriorityReads(d: string, rest: string)
    requires IsDecimal(d)
    ensures AfterPriority(Priority(d) + rest) == Some(rest)
  {
    var s := Priority(d) + rest;
    assert s[1..] == d + (">" + rest);
    DigitsRun(d, ">" + rest);
    assert s[|d| + 1] == '>' && s[|d| + 2..] == rest;
  }

  lemma {:induction false} WordsRun(w: string, rest: string)
    requires forall c <- w :: !IsSpace(c)
    requires rest != "" ==> IsSpace(rest[0])
    ensures WordRun(w + rest) == |w|
  {
    if w == "" {
      assert w + rest == rest;
    } else {
      assert (w + rest)[1..] == w[1..] + rest;
      assert w[0] in w;
      WordsRun(w[1..], rest);
    }
  }

  lemma WordReads(w: string, space: char, rest: string)
    requires IsWord(w) && IsSpace(space)
    ensures Word(w + [space] + rest) == Some((w, rest))
  {
    assert w + [space] + rest == w + ([space] + rest);
    WordsRun(w, [space] + rest);
    assert (w + [space] + rest)[..|w|] == w;
  }

  /** A line's words, each with the space after it. */
  function Spaced(ws: seq<(string, char)>): string {
    if ws == [] then "" else ws[0].0 + [ws[0].1] + Spaced(ws[1..])
  }

  function Firsts(ws: seq<(string, char)>): (r: seq<string>)
    ensures |r| == |ws| && forall i :: 0 <= i < |ws| ==> r[i] == ws[i].0
  {
    seq(|ws|, i requires 0 <= i < |ws| => ws[i].0)
  }

  predicate AllWords(ws: seq<(string, char)>) { forall w <- ws :: IsWord(w.0) && IsSpace(w.1) }

  lemma SpacedStep(ws: seq<(string, char)>, rest: string)
    ensures ws == [] ==> Spaced(ws) + rest == rest && Words(rest, 0) == Some(([], rest)) && Firsts(ws) == []
    ensures ws != [] ==> Spaced(ws) + rest == ws[0].0 + [ws[0].1] + (Spaced(ws[1..]) + rest)
  {
    hide Word;
  }

  lemma WordsStep(s: string, n: nat)
    requires n > 0 && Word(s).Some?
    ensures var rest := Words(Word(s).value.1, n - 1);
      Words(s, n) == if rest.None? then None else Some(([Word(s).value.0] + rest.value.0, rest.value.1))
  {
    hide Word;
  }

  lemma {:induction false} SpacedReads(ws: seq<(string, char)>, rest: string)
    requires AllWords(ws)
    ensures Words(Spaced(ws) + rest, |ws|) == Some((Firsts(ws), rest))
  {
    hide Word, IsWord, Spaced, Words, IsSpace;
    SpacedStep(ws, rest);
    if ws != [] {
      var w := ws[0];
      assert w in ws && forall x <- ws[1..] :: x in ws;
      SpacedReads(ws[1..], rest);
      WordReads(w.0, w.1, Spaced(ws[1..]) + rest);
      WordsStep(w.0 + [w.1] + (Spaced(ws[1..]) + rest), |ws|);
      assert Firsts(ws) == [w.0] + Firsts(ws[1..]);
    }
  }

  /** Every line of the shape the first pattern describes matches it, with these parts. */
  lemma ShapeMatches5424(d: string, s0: char, ws: seq<(string, char)>, rest: string)
    requires IsDecimal(d) && IsSpace(s0) && |ws| == 5 && AllWords(ws)
    ensures MatchRfc5424(Priority(d) + "1" + [s0] + Spaced(ws) + rest) ==
      if DashMessage(rest).None? then None else Some(Syslog(ws[0].0, ws[1].0, ws[2].0, DashMessage(rest).value))
  {
    hide AfterPriority, Priority, Words, Spaced, DashMessage, AllWords;
    var h := "1" + [s0] + (Spaced(ws) + rest);
    assert Priority(d) + "1" + [s0] + Spaced(ws) + rest == Priority(d) + h;
    PriorityReads(d, h);
    assert h[2..] == Spaced(ws) + rest;
    SpacedReads(ws, rest);
  }

  /** And every line that matches is of that shape. */
  lemma MatchHasShape5424(s: string) returns (d: string, s0: char, ws: seq<(string, char)>, rest: string)
    requires MatchRfc5424(s).Some?
    ensures IsDecimal(d) && IsSpace(s0) && |ws| == 5 && AllWords(ws) && DashMessage(rest).Some?
    ensures s == Priority(d) + "1" + [s0] + Spaced(ws) + rest
  {
    hide Priority, Words, Spaced, DashMessage, AllWords, AfterPriority;
    var h := AfterPriority(s).value;
    d := PriorityShape(s);
    s0 := h[1];
    ws := WordsShape(h[2..], 5);
    rest := Words(h[2..], 5).value.1;
    assert h == "1" + [s0] + (Spaced(ws) + rest);
  }

  lemma PriorityShape(s: string) returns (d: string)
    requires AfterPriority(s).Some?
    ensures IsDecimal(d) && s == Priority(d) + AfterPriority(s).value
  {
    var n := DigitRun(s[1..]);
    d := s[1..][..n];
    assert s == "<" + d + ">" + s[n + 2..];
  }

  lemma {:induction false} WordsShape(s: string, n: nat) returns (ws: seq<(string, char)>)
    requires Words(s, n).Some?
    ensures |ws| == n && AllWords(ws) && s == Spaced(ws) + Words(s, n).value.1
  {
    hide IsSpace, Word, IsWord, Spaced, Words;
    WordsUnfold(s, n);
    if n == 0 {
      ws := [];
      SpacedStep(ws, s);
    } else {
      var k := WordRun(s);
      WordIs(s);
      var w := (s[..k], s[k]);
      var rest := WordsShape(s[k + 1..], n - 1);
      ws := [w] + rest;
      assert ws[1..] == rest;
      SpacedStep(ws, Words(s, n).value.1);
    }
  }

  lemma WordsUnfold(s: string, n: nat)
    requires Words(s, n).Some?
    ensures n == 0 ==> Words(s, n).value.1 == s
    ensures n > 0 ==> Word(s).Some? && Words(Word(s).value.1, n - 1).Some?
    ensures n > 0 ==> Words(s, n).value.1 == Words(Word(s).value.1, n - 1).value.1
  {
    hide Word;
  }

  lemma WordIs(s: string)
    requires Word(s).Some?
    ensures WordRun(s) < |s| && IsWord(s[..WordRun(s)]) && IsSpace(s[WordRun(s)])
    ensures Word(s) == Some((s[..WordRun(s)], s[WordRun(s) + 1..]))
    ensures s == s[..WordRun(s)] + [s[WordRun(s)]] + s[WordRun(s) + 1..]
  {
    hide IsSpace, WordRun, IsWord;
    RunIsWord(s);
    CutAt(s, WordRun(s));
  }

  lemma RunIsWord(s: string)
    requires WordRun(s) > 0
    ensures IsWord(s[..WordRun(s)])
  {
    hide IsSpace;
    var n := WordRun(s);
    forall c | c in s[..n] ensures !IsSpace(c) {
      var i :| 0 <= i < n && s[..n][i] == c;
      assert s[i] == c;
    }
  }

  lemma CutAt(s: string, k: nat)
    requires k < |s|
    ensures s == s[..k] + [s[k]] + s[k + 1..]
  {
  }

  lemma {:induction false} TrimEndConcat(a: string, b: string)
    requires a != "" && !IsSpace(a[|a| - 1])
    ensures TrimEnd(a + b) == a + TrimEnd(b)
    decreases |b|
  {
    if b == "" {
      assert a + b == a;
    } else {
      assert (a + b)[|a + b| - 1] == b[|b| - 1];
      assert (a + b)[..|a + b| - 1] == a + b[..|b| - 1];
      TrimEndConcat(a, b[..|b| - 1]);
    }
  }

  /** Trimming a line that starts with `<` leaves everything up to a non-space and trims the rest. */
  lemma TrimLine(head: string, rest: string)
    requires head != "" && head[0] == '<' && !IsSpace(head[|head| - 1])
    ensures Trim(head + rest) == head + TrimEnd(rest)
  {
    assert (head + rest)[0] == '<';
    assert TrimStart(head + rest) == head + rest;
    TrimEndConcat(head, rest);
  }

  lemma TrimKeepsOneLine(s: string)
    requires OneLine(s)
    ensures OneLine(TrimEnd(s))
  {
  }

  // ---- RFC 5424

  /** A line of section 6 of RFC 5424 up to its structured data: priority, version 1 and five words. */
  function Header5424(priority: string, stamp: string, host: string, app: string, proc: string, id: string): string {
    Priority(priority) + "1 " + Spaced([(stamp, ' '), (host, ' '), (app, ' '), (proc, ' '), (id, ' ')])
  }

  /** The message is optional, and stands after one space. */
  function Tail(message: Option<string>): string { if message.Some? then " " + message.value else "" }

  function MessageText(m: Option<string>): string { if m.Some? then m.value else "" }

  lemma HeaderReads(priority: string, stamp: string, host: string, app: string, proc: string, id: string, rest: string)
    requires IsDecimal(priority) && IsWord(stamp) && IsWord(host) && IsWord(app) && IsWord(proc) && IsWord(id)
    ensures MatchRfc5424(Header5424(priority, stamp, host, app, proc, id) + rest) ==
      if DashMessage(rest).None? then None else Some(Syslog(stamp, host, app, DashMessage(rest).value))
  {
    hide Priority, Spaced, DashMessage, MatchRfc5424, IsWord;
    var ws := [(stamp, ' '), (host, ' '), (app, ' '), (proc, ' '), (id, ' ')];
    ShapeMatches5424(priority, ' ', ws, rest);
    assert Priority(priority) + "1" + [' '] + Spaced(ws) + rest
      == Header5424(priority, stamp, host, app, proc, id) + rest;
  }

  lemma TailReads(m: Option<string>)
    ensures Message(Tail(m)) == if OneLine(MessageText(m)) then Some(MessageText(m)) else None
  {
    assert m.Some? ==> (" " + m.value)[1..] == m.value;
  }

  lemma DashTailReads(m: Option<string>)
    ensures DashMessage("-" + Tail(m)) == if OneLine(MessageText(m)) then Some(MessageText(m)) else None
  {
    TailReads(m);
    assert ("-" + Tail(m))[1..] == Tail(m);
  }

  /** Printing a line with no structured data and matching it gives the parts back, whatever the message,
      as long as it stands on one line; otherwise the line does not match at all. */
  lemma Rfc5424RoundTrip(priority: string, stamp: string, host: string, app: string, proc: string, id: string,
                         m: Option<string>)
    requires IsDecimal(priority) && IsWord(stamp) && IsWord(host) && IsWord(app) && IsWord(proc) && IsWord(id)
    ensures MatchRfc5424(Header5424(priority, stamp, host, app, proc, id) + "-" + Tail(m)) ==
      if OneLine(MessageText(m)) then Some(Syslog(stamp, host, app, MessageText(m))) else None
  {
    hide Header5424, MatchRfc5424, DashMessage, IsWord, OneLine, Tail, MessageText;
    HeaderReads(priority, stamp, host, app, proc, id, "-" + Tail(m));
    DashTailReads(m);
    assert Header5424(priority, stamp, host, app, proc, id) + "-" + Tail(m)
      == Header5424(priority, stamp, host, app, proc, id) + ("-" + Tail(m));
  }

  /** With structured data the parts still come back, but the data stays in front of the message. */
  lemma StructuredDataStays(priority: string, stamp: string, host: string, app: string, proc: string, id: string,
                            data: string, m: Option<string>)
    requires IsDecimal(priority) && IsWord(stamp) && IsWord(host) && IsWord(app) && IsWord(proc) && IsWord(id)
    requires data != "" && data[0] == '[' && OneLine(data + Tail(m))
    ensures MatchRfc5424(Header5424(priority, stamp, host, app, proc, id) + (data + Tail(m)))
      == Some(Syslog(stamp, host, app, data + Tail(m)))
  {
    hide Header5424, MatchRfc5424, IsWord, Tail;
    HeaderReads(priority, stamp, host, app, proc, id, data + Tail(m));
    assert (data + Tail(m))[0] == '[';
  }

  /** So of the lines with legal structured data, those and only those without any give their message back. */
  lemma MessageComesBackIff(priority: string, stamp: string, host: string, app: string, proc: string, id: string,
                            data: string, m: Option<string>)
    requires IsDecimal(priority) && IsWord(stamp) && IsWord(host) && IsWord(app) && IsWord(proc) && IsWord(id)
    requires data != "" && (data == "-" || data[0] == '[') && OneLine(data + Tail(m))
    ensures var line := Header5424(priority, stamp, host, app, proc, id) + (data + Tail(m));
      MatchRfc5424(line).Some? && (MatchRfc5424(line).value.message == MessageText(m) <==> data == "-")
  {
    hide Header5424, MatchRfc5424, IsWord, OneLine;
    if data == "-" {
      Rfc5424RoundTrip(priority, stamp, host, app, proc, id, m);
      var h := Header5424(priority, stamp, host, app, proc, id);
      assert h + (data + Tail(m)) == h + "-" + Tail(m);
      MessageOnOneLine(data, m);
    } else {
      StructuredDataStays(priority, stamp, host, app, proc, id, data, m);
      assert |data + Tail(m)| > |MessageText(m)|;
    }
  }

  lemma MessageOnOneLine(data: string, m: Option<string>)
    requires OneLine(data + Tail(m))
    ensures OneLine(MessageText(m))
  {
    forall c | c in MessageText(m) ensures !IsLineTerminator(c) { assert c in Tail(m) && c in data + Tail(m); }
  }

  /** A line with structured data, and what is taken for its message. */
  lemma StructuredDataExample()
    ensures var line := Header5424("34", "2003-10-11T22:14:15Z", "web", "su", "-", "-") + "[x@1] hi";
      MatchRfc5424(line) == Some(Syslog("2003-10-11T22:14:15Z", "web", "su", "[x@1] hi"))
  {
    hide Header5424, MatchRfc5424;
    WordsOfExample();
    assert "[x@1]" + Tail(Some("hi")) == "[x@1] hi";
    StructuredDataStays("34", "2003-10-11T22:14:15Z", "web", "su", "-", "-", "[x@1]", Some("hi"));
  }

  lemma WordsOfExample()
    ensures IsDecimal("34") && IsWord("2003-10-11T22:14:15Z") && IsWord("web") && IsWord("su") && IsWord("-")
    ensures OneLine("[x@1] hi")
  {
  }

  /** A printed line is detected as what it is, and parsed to its host, service and message. */
  lemma Rfc5424Parses(priority: string, stamp: string, host: string, app: string, proc: string, id: string,
                      m: Option<string>,
                      team: string, source: string, p: Platform)
    requires IsDecimal(priority) && IsWord(stamp) && IsWord(host) && IsWord(app) && IsWord(proc) && IsWord(id)
    requires OneLine(MessageText(m))
    ensures var line := Header5424(priority, stamp, host, app, proc, id) + "-" + Tail(m);
      && DetectFormat(line) == Rfc5424
      && ParseRaw(line, DetectFormat(line), team, source, p) ==
        if p.isoDate(stamp).None? then Throws
        else Ok([LogEntry(team, source, p.isoDate(stamp).value, NormalizeLevel(MessageText(m)), app, host,
                          MessageText(m), map[])])
  {
    hide MatchRfc5424, MatchRfc3164, DashMessage, Message, IsWord, Tail, MessageText, OneLine, NormalizeLevel, Trim,
      TrimEnd;
    var h := Header5424(priority, stamp, host, app, proc, id);
    var line := h + "-" + Tail(m);
    Rfc5424RoundTrip(priority, stamp, host, app, proc, id, m);
    StartsWithPriority(priority, stamp, host, app, proc, id);
    TrimLine(h + "-", Tail(m));
    TrimmedTail(m);
    assert h + "-" + TrimEnd(Tail(m)) == h + ("-" + TrimEnd(Tail(m)));
    HeaderReads(priority, stamp, host, app, proc, id, "-" + TrimEnd(Tail(m)));
    assert Trim(line) == h + ("-" + TrimEnd(Tail(m)));
    assert Trim(line)[0] == '<';
    assert DetectFormat(line) == Rfc5424;
  }

  lemma StartsWithPriority(priority: string, stamp: string, host: string, app: string, proc: string, id: string)
    ensures var h := Header5424(priority, stamp, host, app, proc, id); h != "" && h[0] == '<'
  {
    hide Spaced;
  }

  lemma TrimmedTail(m: Option<string>)
    requires OneLine(MessageText(m))
    ensures DashMessage("-" + TrimEnd(Tail(m))).Some? && Message(TrimEnd(Tail(m))).Some?
  {
    TrimKeepsOneLine(Tail(m));
    assert ("-" + TrimEnd(Tail(m)))[1..] == TrimEnd(Tail(m));
  }
}
