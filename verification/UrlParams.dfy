/** `URLSearchParams`: an ordered list of pairs, a key possibly repeated. */
module UrlParams {
  import opened Text

  type Pairs = seq<(string, string)>

  function GetAll(p: Pairs, k: string): seq<string> {
    if p == [] then [] else (if p[0].0 == k then [p[0].1] else []) + GetAll(p[1..], k)
  }

  function Get(p: Pairs, k: string): Option<string> { if GetAll(p, k) == [] then None else Some(GetAll(p, k)[0]) }

  function Delete(p: Pairs, k: string): Pairs {
    if p == [] then [] else (if p[0].0 == k then [] else [p[0]]) + Delete(p[1..], k)
  }

  /** `set`: the first pair of the key takes the value in place and the others go; a new key is appended. */
  function SetKey(p: Pairs, k: string, v: string): Pairs {
    if p == [] then [(k, v)]
    else if p[0].0 == k then [(k, v)] + Delete(p[1..], k)
    else [p[0]] + SetKey(p[1..], k, v)
  }

  function AppendAll(p: Pairs, k: string, vs: seq<string>): Pairs {
    p + seq(|vs|, i requires 0 <= i < |vs| => (k, vs[i]))
  }

  lemma {:induction false} GetAllConcat(p: Pairs, q: Pairs, k: string)
    ensures GetAll(p + q, k) == GetAll(p, k) + GetAll(q, k)
  {
    if p == [] {
      assert p + q == q;
    } else {
      assert (p + q)[1..] == p[1..] + q;
      GetAllConcat(p[1..], q, k);
    }
  }

  lemma {:induction false} DeleteGets(p: Pairs, k: string, j: string)
    ensures GetAll(Delete(p, k), j) == if j == k then [] else GetAll(p, j)
  {
    if p != [] {
      DeleteGets(p[1..], k, j);
      GetAllConcat(if p[0].0 == k then [] else [p[0]], Delete(p[1..], k), j);
      OnePair(p[0], j);
    }
  }

  lemma OnePair(x: (string, string), j: string)
    ensures GetAll([x], j) == if x.0 == j then [x.1] else []
  {
    assert [x][1..] == [];
  }

  lemma {:induction false} SetGets(p: Pairs, k: string, v: string, j: string)
    ensures GetAll(SetKey(p, k, v), j) == if j == k then [v] else GetAll(p, j)
  {
    OnePair((k, v), j);
    if p != [] {
      if p[0].0 == k {
        DeleteGets(p[1..], k, j);
        GetAllConcat([(k, v)], Delete(p[1..], k), j);
      } else {
        SetGets(p[1..], k, v, j);
        GetAllConcat([p[0]], SetKey(p[1..], k, v), j);
        OnePair(p[0], j);
      }
    }
  }

  lemma {:induction false} AppendGets(p: Pairs, k: string, vs: seq<string>, j: string)
    ensures GetAll(AppendAll(p, k, vs), j) == GetAll(p, j) + if j == k then vs else []
  {
    var q := seq(|vs|, i requires 0 <= i < |vs| => (k, vs[i]));
    GetAllConcat(p, q, j);
    RepeatedKey(k, vs, j);
  }

  lemma {:induction false} RepeatedKey(k: string, vs: seq<string>, j: string)
    ensures GetAll(seq(|vs|, i requires 0 <= i < |vs| => (k, vs[i])), j) == if j == k then vs else []
  {
    var q := seq(|vs|, i requires 0 <= i < |vs| => (k, vs[i]));
    if vs != [] {
      var rest := vs[1..];
      var r := seq(|rest|, i requires 0 <= i < |rest| => (k, rest[i]));
      assert q[1..] == r;
      RepeatedKey(k, rest, j);
    }
  }

  // ---- the pairs of other keys, with their order

  function Others(p: Pairs, keys: set<string>): Pairs {
    if p == [] then [] else (if p[0].0 in keys then [] else [p[0]]) + Others(p[1..], keys)
  }

  lemma {:induction false} OthersConcat(p: Pairs, q: Pairs, keys: set<string>)
    ensures Others(p + q, keys) == Others(p, keys) + Others(q, keys)
  {
    if p == [] {
      assert p + q == q;
    } else {
      assert (p + q)[1..] == p[1..] + q;
      OthersConcat(p[1..], q, keys);
    }
  }

  lemma OneOther(x: (string, string), keys: set<string>)
    ensures Others([x], keys) == if x.0 in keys then [] else [x]
  {
    assert [x][1..] == [];
  }

  lemma {:induction false} DeleteOthers(p: Pairs, k: string, keys: set<string>)
    requires k in keys
    ensures Others(Delete(p, k), keys) == Others(p, keys)
  {
    if p != [] {
      DeleteOthers(p[1..], k, keys);
      OthersConcat(if p[0].0 == k then [] else [p[0]], Delete(p[1..], k), keys);
      OneOther(p[0], keys);
    }
  }

  lemma {:induction false} SetOthers(p: Pairs, k: string, v: string, keys: set<string>)
    requires k in keys
    ensures Others(SetKey(p, k, v), keys) == Others(p, keys)
  {
    OneOther((k, v), keys);
    if p != [] {
      if p[0].0 == k {
        DeleteOthers(p[1..], k, keys);
        OthersConcat([(k, v)], Delete(p[1..], k), keys);
      } else {
        SetOthers(p[1..], k, v, keys);
        OthersConcat([p[0]], SetKey(p[1..], k, v), keys);
        OneOther(p[0], keys);
      }
    }
  }

  lemma {:induction false} AppendOthers(p: Pairs, k: string, vs: seq<string>, keys: set<string>)
    requires k in keys
    ensures Others(AppendAll(p, k, vs), keys) == Others(p, keys)
  {
    if vs == [] {
      assert AppendAll(p, k, vs) == p;
    } else {
      var front := vs[..|vs| - 1];
      AppendOthers(p, k, front, keys);
      assert AppendAll(p, k, vs) == AppendAll(p, k, front) + [(k, vs[|vs| - 1])];
      OthersConcat(AppendAll(p, k, front), [(k, vs[|vs| - 1])], keys);
      OneOther((k, vs[|vs| - 1]), keys);
    }
  }

  /** The mutable object. */
  class SearchParams {
    var pairs: Pairs

    constructor (pairs: Pairs)
      ensures this.pairs == pairs
    {
      this.pairs := pairs;
    }

    method Remove(k: string)
      modifies this
      ensures pairs == Delete(old(pairs), k)
    {
      pairs := Delete(pairs, k);
    }

    method Put(k: string, v: string)
      modifies this
      ensures pairs == SetKey(old(pairs), k, v)
    {
      pairs := SetKey(pairs, k, v);
    }

    method Append(k: string, v: string)
      modifies this
      ensures pairs == AppendAll(old(pairs), k, [v])
    {
      pairs := pairs + [(k, v)];
    }
  }

  /** Setting replaces the first pair of the key where it stands and takes the later ones out; a new key comes last. */
  lemma {:induction false} SetInPlace(a: Pairs, k: string, v: string, x: string, b: Pairs)
    requires GetAll(a, k) == []
    ensures SetKey(a, k, v) == a + [(k, v)]
    ensures SetKey(a + [(k, x)] + b, k, v) == a + [(k, v)] + Delete(b, k)
  {
    var p := a + [(k, x)] + b;
    if a == [] {
      assert p[0] == (k, x) && p[1..] == b;
    } else {
      assert a[0].0 != k && GetAll(a[1..], k) == [];
      assert p[1..] == a[1..] + [(k, x)] + b;
      SetInPlace(a[1..], k, v, x, b);
      assert a == [a[0]] + a[1..];
    }
  }
}
