/** The words of joined and trimmed texts: what free text a planned query searches by. */
module PlannerWords {
  import opened Text
  import opened QuerySpec
  import opened QueryReading

  /** A space between two texts keeps their words apart. */
  lemma {:induction false} WordsApart(a: string, c: char, b: string, acc: string)
    requires IsSpace(c)
    ensures Words(a + [c] + b, acc) == Words(a, acc) + Words(b, "")
    decreases |a|
  {
    hide IsSpace;
    var s := a + [c] + b;
    if a == "" {
      assert s[0] == c && s[1..] == b;
      if acc == "" { assert [] + Words(b, "") == Words(b, ""); }
    } else {
      assert s[0] == a[0] && s[1..] == a[1..] + [c] + b;
      if IsSpace(a[0]) {
        WordsApart(a[1..], c, b, "");
        var first := if acc == "" then [] else [acc];
        assert first + (Words(a[1..], "") + Words(b, "")) == first + Words(a[1..], "") + Words(b, "");
      } else {
        WordsApart(a[1..], c, b, acc + [a[0]]);
      }
    }
  }

  function AllWords(terms: seq<string>): seq<string> {
    if terms == [] then [] else Words(terms[0], "") + AllWords(terms[1..])
  }

  lemma {:induction false} WordsOfJoined(terms: seq<string>)
    ensures Words(Join(terms, " "), "") == AllWords(terms)
  {
    hide Words;
    if |terms| == 0 {
      NoWords();
    } else if |terms| == 1 {
      assert terms[1..] == [];
      assert Words(terms[0], "") + [] == Words(terms[0], "");
    } else {
      WordsOfJoined(terms[1..]);
      assert " " == [' '];
      WordsApart(terms[0], ' ', Join(terms[1..], " "), "");
    }
  }

  lemma NoWords()
    ensures Words("", "") == []
  {
  }

  lemma {:induction false} SpacesAdd(s: string, gap: string)
    requires forall c <- gap :: IsSpace(c)
    ensures Words(s + gap, "") == Words(s, "") && Words(gap + s, "") == Words(s, "")
    decreases |gap|
  {
    hide IsSpace, Words;
    if gap == "" {
      assert s + gap == s && gap + s == s;
    } else {
      var front, c := gap[..|gap| - 1], gap[|gap| - 1];
      assert c in gap && forall x <- front :: x in gap;
      SpacesAdd(s, front);
      WordsApart(s + front, c, "", "");
      assert s + gap == s + front + [c] + "";
      NoWords();
      assert Words(s + front, "") + [] == Words(s + front, "");
      WordsApart(front, c, s, "");
      SpacesAdd("", front);
      assert front + [c] + s == gap + s && "" + front == front;
      assert [] + Words(s, "") == Words(s, "");
    }
  }

  /** Trimming a text changes none of its words. */
  lemma WordsOfTrimmed(s: string)
    ensures Words(Trim(s), "") == Words(s, "")
  {
    hide IsSpace, Words;
    var n := LeadingSpaces(s);
    var rest := s[n..];
    var k := TrimmedLength(rest);
    forall c | c in s[..n] ensures IsSpace(c) { var i :| 0 <= i < n && s[..n][i] == c; assert s[i] == c; }
    forall c | c in rest[k..] ensures IsSpace(c) {
      var i :| 0 <= i < |rest[k..]| && rest[k..][i] == c;
      assert rest[k + i] == c;
    }
    SpacesAdd(rest, s[..n]);
    assert s[..n] + rest == s;
    SpacesAdd(rest[..k], rest[k..]);
    assert rest[..k] + rest[k..] == rest;
  }

  lemma {:induction false} KeepConcat(a: seq<string>, b: seq<string>)
    ensures KeepTokens(a + b) == KeepTokens(a) + KeepTokens(b)
  {
    hide Sanitize;
    if a == [] {
      assert a + b == b;
    } else {
      assert (a + b)[1..] == a[1..] + b;
      KeepConcat(a[1..], b);
    }
  }

  /** The tokens of joined terms are the terms' own tokens. */
  lemma {:induction false} TokensOfAll(terms: seq<string>, t: string)
    ensures t in KeepTokens(AllWords(terms)) <==> exists term <- terms :: t in Tokens(term)
  {
    hide Words, KeepTokens;
    if terms == [] {
      assert KeepTokens([]) == [] by { KeepNone(); }
    } else {
      KeepConcat(Words(terms[0], ""), AllWords(terms[1..]));
      TokensOfAll(terms[1..], t);
      assert terms[0] in terms && forall x <- terms[1..] :: x in terms;
      if term :| term in terms && t in Tokens(term) {
        var i :| 0 <= i < |terms| && terms[i] == term;
        if i > 0 { assert terms[1..][i - 1] == term; }
      }
    }
  }

  lemma KeepNone()
    ensures KeepTokens([]) == []
  {
  }

  lemma TokensOfJoined(terms: seq<string>, t: string)
    ensures t in Tokens(Trim(Join(terms, " "))) <==> exists term <- terms :: t in Tokens(term)
  {
    hide Words, KeepTokens, Join, Trim;
    WordsOfTrimmed(Join(terms, " "));
    WordsOfJoined(terms);
    TokensOfAll(terms, t);
  }
}
