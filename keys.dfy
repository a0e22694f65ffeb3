/**
 * The cache key of a request (`construct_unique_key`): the base URL, followed,
 * when there are parameters, by `_` and the sorted `name_value` tokens joined
 * with `_`.
 */
module Keys {
  import opened Text

  /** A parameter value as the core passes it: a string or an integer. */
  datatype ParamValue = Str(text: string) | Int(number: int)

  /** One `name: value` entry of a request's `params` dictionary. */
  datatype Param = Param(name: string, value: ParamValue)

  /** `str(v)`, as the f-string `f'{k}_{params[k]}'` renders a value. */
  function Render(v: ParamValue): string
  {
    match v
    case Str(s) => s
    case Int(n) => if n < 0 then "-" + NatToString(-n) else NatToString(n)
  }

  /** The token `name_value` of one parameter. */
  function Token(p: Param): string
  {
    p.name + "_" + Render(p.value)
  }

  /** The tokens of the parameters, in the order the dictionary yields them. */
  function Tokens(params: seq<Param>): seq<string>
  {
    seq(|params|, i requires 0 <= i < |params| => Token(params[i]))
  }

  // ---------------------------------------------------------------------
  // Python's ordering of strings, and list.sort()
  // ---------------------------------------------------------------------

  /** Python's `a <= b` on strings: code points compared left to right, a proper prefix first. */
  predicate LessEq(a: string, b: string)
    decreases |a|
  {
    if a == [] then true
    else if b == [] then false
    else if a[0] != b[0] then a[0] < b[0]
    else LessEq(a[1..], b[1..])
  }

  lemma {:induction false} LessEqReflexive(a: string)
    ensures LessEq(a, a)
    decreases |a|
  {
    if a != [] {
      LessEqReflexive(a[1..]);
    }
  }

  lemma {:induction false} LessEqTotal(a: string, b: string)
    ensures LessEq(a, b) || LessEq(b, a)
    decreases |a|
  {
    if a != [] && b != [] && a[0] == b[0] {
      LessEqTotal(a[1..], b[1..]);
    }
  }

  lemma {:induction false} LessEqAntisymmetric(a: string, b: string)
    requires LessEq(a, b) && LessEq(b, a)
    ensures a == b
    decreases |a|
  {
    if a != [] && b != [] && a[0] == b[0] {
      LessEqAntisymmetric(a[1..], b[1..]);
      assert a == [a[0]] + a[1..] && b == [b[0]] + b[1..];
    }
  }

  lemma {:induction false} LessEqTransitive(a: string, b: string, c: string)
    requires LessEq(a, b) && LessEq(b, c)
    ensures LessEq(a, c)
    decreases |a|
  {
    if a != [] && b != [] && c != [] && a[0] == b[0] && b[0] == c[0] {
      LessEqTransitive(a[1..], b[1..], c[1..]);
    }
  }

  predicate Sorted(ts: seq<string>)
  {
    forall i, j :: 0 <= i < j < |ts| ==> LessEq(ts[i], ts[j])
  }

  /** Places `t` before the first element it does not exceed. */
  function Insert(t: string, ts: seq<string>): seq<string>
    decreases |ts|
  {
    if ts == [] then [t]
    else if LessEq(t, ts[0]) then [t] + ts
    else [ts[0]] + Insert(t, ts[1..])
  }

  /** Inserting adds exactly the inserted token. */
  lemma {:induction false} InsertCounts(t: string, ts: seq<string>)
    ensures multiset(Insert(t, ts)) == multiset(ts) + multiset{t}
    decreases |ts|
  {
    if ts != [] && !LessEq(t, ts[0]) {
      InsertCounts(t, ts[1..]);
      assert ts == [ts[0]] + ts[1..];
    }
  }

  lemma {:induction false} InsertSorted(t: string, ts: seq<string>)
    requires Sorted(ts)
    ensures Sorted(Insert(t, ts))
    decreases |ts|
  {
    if ts == [] {
    } else if LessEq(t, ts[0]) {
      forall j | 0 < j < |ts| ensures LessEq(t, ts[j]) {
        LessEqTransitive(t, ts[0], ts[j]);
      }
    } else {
      LessEqTotal(t, ts[0]);
      InsertSorted(t, ts[1..]);
      InsertCounts(t, ts[1..]);
      var r := Insert(t, ts[1..]);
      forall j | 0 <= j < |r| ensures LessEq(ts[0], r[j]) {
        assert r[j] in multiset(r);
        if r[j] != t {
          assert r[j] in multiset(ts[1..]);
          var k :| 0 <= k < |ts[1..]| && ts[1..][k] == r[j];
          assert ts[k + 1] == r[j];
        }
      }
      var out := [ts[0]] + r;
      forall i, j | 0 <= i < j < |out| ensures LessEq(out[i], out[j]) {
        if i > 0 {
          assert out[i] == r[i - 1] && out[j] == r[j - 1];
        }
      }
    }
  }

  /** `list.sort()` on strings: the same tokens, in ascending order. */
  function SortStrings(ts: seq<string>): seq<string>
    decreases |ts|
  {
    if ts == [] then [] else Insert(ts[0], SortStrings(ts[1..]))
  }

  /** The sort gives the same tokens, in ascending order. */
  lemma {:induction false} SortStringsSorts(ts: seq<string>)
    ensures Sorted(SortStrings(ts)) && multiset(SortStrings(ts)) == multiset(ts)
    decreases |ts|
  {
    if ts != [] {
      var rest := SortStrings(ts[1..]);
      SortStringsSorts(ts[1..]);
      InsertSorted(ts[0], rest);
      InsertCounts(ts[0], rest);
      assert ts == [ts[0]] + ts[1..];
    }
  }

  /** The first element of a sorted list is at most every element of it. */
  lemma SortedHeadLeast(s: seq<string>, x: string)
    requires Sorted(s) && x in s
    ensures LessEq(s[0], x)
  {
    var k :| 0 <= k < |s| && s[k] == x;
    if k == 0 {
      LessEqReflexive(x);
    }
  }

  lemma SortedTail(s: seq<string>)
    requires Sorted(s) && s != []
    ensures Sorted(s[1..])
  {
    forall i, j | 0 <= i < j < |s| - 1 ensures LessEq(s[1..][i], s[1..][j]) {
      assert s[1..][i] == s[i + 1] && s[1..][j] == s[j + 1];
    }
  }

  /** Removing one element from a sequence removes one occurrence from its multiset. */
  lemma MultisetRemove<T>(s: seq<T>, k: nat)
    requires k < |s|
    ensures multiset(s[..k] + s[k + 1..]) == multiset(s) - multiset{s[k]}
  {
    assert s == s[..k] + [s[k]] + s[k + 1..];
  }

  /** Putting back the element removed at `k`. */
  lemma MultisetRestore<T>(s: seq<T>, k: nat)
    requires k < |s|
    ensures multiset(s) == multiset(s[..k] + s[k + 1..]) + multiset{s[k]}
  {
    assert s == s[..k] + [s[k]] + s[k + 1..];
  }

  /** Putting the same element back into two sequences with the same multiset. */
  lemma MultisetPutBack<T>(x: seq<T>, i: nat, y: seq<T>, j: nat)
    requires i < |x| && j < |y| && x[i] == y[j]
    requires multiset(x[..i] + x[i + 1..]) == multiset(y[..j] + y[j + 1..])
    ensures multiset(x) == multiset(y)
  {
    MultisetRestore(x, i);
    MultisetRestore(y, j);
  }

  /** Two sequences with the same multiset and the same head have tails with the same multiset. */
  lemma MultisetTails<T>(a: seq<T>, b: seq<T>)
    requires a != [] && b != [] && a[0] == b[0]
    requires multiset(a) == multiset(b)
    ensures multiset(a[1..]) == multiset(b[1..])
  {
    assert a == [a[0]] + a[1..] && b == [b[0]] + b[1..];
    assert multiset(a) == multiset{a[0]} + multiset(a[1..]);
    assert multiset(b) == multiset{a[0]} + multiset(b[1..]);
    assert multiset(a[1..]) == multiset(a) - multiset{a[0]};
    assert multiset(b[1..]) == multiset(b) - multiset{a[0]};
  }

  /** Two sorted lists holding the same elements are the same list. */
  lemma {:induction false} SortedUnique(a: seq<string>, b: seq<string>)
    requires Sorted(a) && Sorted(b)
    requires multiset(a) == multiset(b)
    ensures a == b
    decreases |a|
  {
    assert |multiset(a)| == |a| && |multiset(b)| == |b|;
    if a != [] {
      assert a[0] in multiset(b) && b[0] in multiset(a);
      SortedHeadLeast(b, a[0]);
      SortedHeadLeast(a, b[0]);
      LessEqAntisymmetric(a[0], b[0]);
      MultisetTails(a, b);
      SortedTail(a);
      SortedTail(b);
      SortedUnique(a[1..], b[1..]);
      assert a == [a[0]] + a[1..] && b == [b[0]] + b[1..];
    }
  }

  // ---------------------------------------------------------------------
  // The key
  // ---------------------------------------------------------------------

  /**
   * `construct_unique_key(baseurl, params)`. `params` is `None` or a
   * dictionary; `None` and `{}` are both falsy and give the same key, and
   * both are the empty sequence here.
   */
  function UniqueKey(baseUrl: string, params: seq<Param>): string
  {
    if params == [] then baseUrl
    else baseUrl + "_" + Join("_", SortStrings(Tokens(params)))
  }

  /** The key starts with the base URL, and is the base URL alone exactly when there are no parameters. */
  lemma UniqueKeyShape(baseUrl: string, params: seq<Param>)
    ensures var key := UniqueKey(baseUrl, params);
            |baseUrl| <= |key| && key[..|baseUrl|] == baseUrl
            && (key == baseUrl <==> params == [])
  {
  }

  /** Dropping one element drops its image. */
  lemma ApplyRemove<A, B>(f: A -> B, s: seq<A>, k: nat)
    requires k < |s|
    ensures Apply(f, s[..k] + s[k + 1..]) == Apply(f, s)[..k] + Apply(f, s)[k + 1..]
  {
    var rest := s[..k] + s[k + 1..];
    var l, r := Apply(f, rest), Apply(f, s)[..k] + Apply(f, s)[k + 1..];
    forall i | 0 <= i < |l| ensures l[i] == r[i] {
      if i < k {
        assert rest[i] == s[i];
      } else {
        assert rest[i] == s[i + 1];
      }
    }
  }

  /** Where the first element of `a` sits in a reordering `b` of it, and what is left on both sides. */
  lemma PickFirst<T>(a: seq<T>, b: seq<T>) returns (k: nat)
    requires a != [] && multiset(a) == multiset(b)
    ensures k < |b| && b[k] == a[0]
    ensures multiset(a[1..]) == multiset(b[..k] + b[k + 1..])
  {
    assert a[0] in multiset(a);
    assert a[0] in b;
    k :| 0 <= k < |b| && b[k] == a[0];
    assert a[..0] + a[1..] == a[1..];
    MultisetRemove(a, 0);
    MultisetRemove(b, k);
  }

  /** Images of two sequences that agree once one matching element is taken out of each. */
  lemma ApplyPutBack<A, B>(f: A -> B, a: seq<A>, b: seq<A>, k: nat)
    requires a != [] && k < |b| && b[k] == a[0]
    requires multiset(Apply(f, a[1..])) == multiset(Apply(f, b[..k] + b[k + 1..]))
    ensures multiset(Apply(f, a)) == multiset(Apply(f, b))
  {
    var fa, fb := Apply(f, a), Apply(f, b);
    ApplyRemove(f, a, 0);
    ApplyRemove(f, b, k);
    assert a[..0] + a[1..] == a[1..];
    assert fa[..0] + fa[1..] == Apply(f, a[1..]);
    assert fa[0] == fb[k];
    MultisetPutBack(fa, 0, fb, k);
  }

  /** Reordering the elements reorders their images. */
  lemma {:induction false} ApplyPermutation<A, B>(f: A -> B, a: seq<A>, b: seq<A>)
    requires multiset(a) == multiset(b)
    ensures multiset(Apply(f, a)) == multiset(Apply(f, b))
    decreases |a|
  {
    if a != [] {
      var k := PickFirst(a, b);
      ApplyPermutation(f, a[1..], b[..k] + b[k + 1..]);
      ApplyPutBack(f, a, b, k);
    } else {
      assert |b| == |multiset(b)| == 0;
    }
  }

  /** Reordering parameters reorders their tokens. */
  lemma TokensPermutation(a: seq<Param>, b: seq<Param>)
    requires multiset(a) == multiset(b)
    ensures multiset(Tokens(a)) == multiset(Tokens(b))
  {
    ApplyPermutation(Token, a, b);
    assert Tokens(a) == Apply(Token, a);
    assert Tokens(b) == Apply(Token, b);
  }

  /** The key does not depend on the order in which the parameters were inserted. */
  lemma UniqueKeyOrderIndependent(baseUrl: string, p: seq<Param>, q: seq<Param>)
    requires multiset(p) == multiset(q)
    ensures UniqueKey(baseUrl, p) == UniqueKey(baseUrl, q)
  {
    assert |p| == |multiset(p)| == |multiset(q)| == |q|;
    if p != [] {
      TokensPermutation(p, q);
      SortStringsSorts(Tokens(p));
      SortStringsSorts(Tokens(q));
      SortedUnique(SortStrings(Tokens(p)), SortStrings(Tokens(q)));
    }
  }

  /**
   * The key is not unique for every request: an `_` inside a parameter name
   * or value can shift the boundary between two tokens.
   */
  lemma KeyCollision()
    ensures var p := [Param("a_b", Str("c"))];
            var q := [Param("a", Str("b_c"))];
            p != q && UniqueKey("u", p) == UniqueKey("u", q)
  {
    var p := [Param("a_b", Str("c"))];
    var q := [Param("a", Str("b_c"))];
    assert Token(p[0]) == "a_b_c" == Token(q[0]);
    assert Tokens(p) == ["a_b_c"] == Tokens(q);
  }
}
