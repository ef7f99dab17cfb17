/** ClickHouse's LIKE, and what the pattern `%term%` means. */
module LikePattern {
  import opened Text

  /** `s LIKE p`: `%` any run, `_` any one character, a backslash before `%`, `_` or a
      backslash makes that character literal. */
  predicate Like(s: string, p: string)
    decreases |s| + |p|
  {
    if p == "" then s == ""
    else if p[0] == '%' then Like(s, p[1..]) || (s != "" && Like(s[1..], p))
    else if p[0] == '_' then s != "" && Like(s[1..], p[1..])
    else if p[0] == '\\' && |p| > 1 && p[1] in "%_\\" then s != "" && s[0] == p[1] && Like(s[1..], p[2..])
    else s != "" && s[0] == p[0] && Like(s[1..], p[1..])
  }

  predicate ILike(s: string, p: string) { Like(Lower(s), Lower(p)) }

  /** `t` matches the start of `s`, `_` standing for any character. */
  predicate WildPrefix(s: string, t: string) {
    |t| <= |s| && forall i :: 0 <= i < |t| ==> t[i] == '_' || s[i] == t[i]
  }

  lemma {:induction false} AnyTail(s: string)
    ensures Like(s, "%")
  {
    if s != "" { AnyTail(s[1..]); } else { assert Like(s, "%"[1..]); }
  }

  lemma {:induction false} LikePrefix(s: string, t: string)
    requires '%' !in t && '\\' !in t
    ensures Like(s, t + "%") <==> WildPrefix(s, t)
    decreases |t|
  {
    if t == "" {
      assert t + "%" == "%";
      AnyTail(s);
    } else {
      assert t[0] in t;
      assert (t + "%")[1..] == t[1..] + "%";
      if s != "" {
        LikePrefix(s[1..], t[1..]);
        if WildPrefix(s[1..], t[1..]) && (t[0] == '_' || s[0] == t[0]) {
          forall i | 0 <= i < |t| ensures t[i] == '_' || s[i] == t[i] {
            if i > 0 { assert t[1..][i - 1] == t[i]; }
          }
        }
      }
    }
  }

  /** `%t%` holds exactly when `t`, read with `_` as a wildcard, matches somewhere in `s`. */
  lemma {:induction false} LikeAnywhere(s: string, t: string)
    requires '%' !in t && '\\' !in t
    ensures Like(s, "%" + t + "%") <==> exists k :: 0 <= k <= |s| && WildPrefix(s[k..], t)
    decreases |s|
  {
    var p := "%" + t + "%";
    assert p[1..] == t + "%";
    LikePrefix(s, t);
    assert s[0..] == s;
    if s != "" {
      var rest := s[1..];
      LikeAnywhere(rest, t);
      if k :| 0 <= k <= |rest| && WildPrefix(rest[k..], t) {
        assert s[k + 1..] == rest[k..];
      }
      if k :| 1 <= k <= |s| && WildPrefix(s[k..], t) {
        assert rest[k - 1..] == s[k..];
      }
    }
  }

  /** A term without a backslash that occurs in `s` always matches `%term%`. */
  lemma {:induction false} OccurrenceMatches(s: string, t: string)
    requires '\\' !in t && Contains(s, t)
    ensures Like(s, "%" + t + "%")
    decreases |s|
  {
    var p := "%" + t + "%";
    assert p[1..] == t + "%";
    if t <= s {
      SelfPrefix(s, t);
    } else {
      var i :| 0 <= i <= |s| && t <= s[i..];
      assert s[0..] == s;
      assert s[1..][i - 1..] == s[i..];
      OccurrenceMatches(s[1..], t);
    }
  }

  lemma {:induction false} SelfPrefix(s: string, t: string)
    requires '\\' !in t && t <= s
    ensures Like(s, t + "%")
    decreases |t|
  {
    if t == "" {
      assert t + "%" == "%";
      AnyTail(s);
    } else {
      assert t[0] in t;
      assert (t + "%")[1..] == t[1..] + "%";
      SelfPrefix(s[1..], t[1..]);
      if t[0] == '%' {
        PercentAbsorbs(s, t[1..] + "%");
      }
    }
  }

  /** A `%` may stand for one more character. */
  lemma PercentAbsorbs(s: string, q: string)
    requires s != "" && Like(s[1..], q)
    ensures Like(s, "%" + q)
  {
    assert ("%" + q)[1..] == q;
    assert Like(s[1..], "%" + q);
  }

  /** With no wildcard and no backslash in the term, `%term%` is containment. */
  lemma LikeIsContainment(s: string, t: string)
    requires '%' !in t && '_' !in t && '\\' !in t
    ensures Like(s, "%" + t + "%") <==> Contains(s, t)
  {
    LikeAnywhere(s, t);
    forall k | 0 <= k <= |s|
      ensures WildPrefix(s[k..], t) <==> t <= s[k..]
    {
      if WildPrefix(s[k..], t) {
        forall i | 0 <= i < |t| ensures s[k..][i] == t[i] { assert t[i] in t; }
      }
    }
  }

  /** The case-insensitive pattern around a term folds the term only. */
  lemma FoldPattern(t: string)
    ensures Lower("%" + t + "%") == "%" + Lower(t) + "%"
    ensures forall c :: c in "%_\\" ==> (c in Lower(t) <==> c in t)
  {
    forall c | c in "%_\\" ensures c in Lower(t) <==> c in t {
      if c in Lower(t) {
        var i :| 0 <= i < |t| && Lower(t)[i] == c;
        assert t[i] == c;
      }
      if c in t {
        var i :| 0 <= i < |t| && t[i] == c;
        assert Lower(t)[i] == c;
      }
    }
  }

  /** The search condition's pattern, case-insensitively: an occurrence always matches, and a
      match is an occurrence when the term has no wildcard. */
  lemma ILikeTerm(s: string, t: string)
    requires '\\' !in t
    ensures Contains(Lower(s), Lower(t)) ==> ILike(s, "%" + t + "%")
    ensures '%' !in t && '_' !in t ==> (ILike(s, "%" + t + "%") <==> Contains(Lower(s), Lower(t)))
  {
    FoldPattern(t);
    assert '\\' in "%_\\" && '%' in "%_\\" && '_' in "%_\\";
    if Contains(Lower(s), Lower(t)) { OccurrenceMatches(Lower(s), Lower(t)); }
    if '%' !in t && '_' !in t { LikeIsContainment(Lower(s), Lower(t)); }
  }

  /** A text as a pattern for itself: a backslash before each character that means something else. */
  function Quoted(t: string): string {
    if t == "" then ""
    else (if t[0] == '%' || t[0] == '_' || t[0] == '\\' then ['\\', t[0]] else [t[0]]) + Quoted(t[1..])
  }

  /** A quoted text matches itself and nothing else. */
  lemma {:induction false} LikeQuoted(s: string, t: string)
    ensures Like(s, Quoted(t)) <==> s == t
    decreases |t|
  {
    if t != "" {
      var rest := Quoted(t[1..]);
      if t[0] == '%' || t[0] == '_' || t[0] == '\\' {
        assert Quoted(t)[2..] == rest && Quoted(t)[1] == t[0];
      } else {
        assert Quoted(t)[1..] == rest;
      }
      if s != "" {
        LikeQuoted(s[1..], t[1..]);
        assert s == [s[0]] + s[1..] && t == [t[0]] + t[1..];
      }
    }
  }
}
