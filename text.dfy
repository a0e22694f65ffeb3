/**
 * The operations of Python's `str` that the core relies on: `sep.join`,
 * `s.split(sep)`, `s.strip()`, `s.lower()`, `s.capitalize()` and `str(n)`
 * for a non-negative integer. Case mapping covers ASCII letters only.
 */
module Text {

  // ---------------------------------------------------------------------
  // Characters
  // ---------------------------------------------------------------------

  /** Python's `str.isspace` for a single character. */
  predicate IsSpace(c: char)
  {
    var n := c as int;
    (9 <= n <= 13) || (28 <= n <= 32) || n == 0x85 || n == 0xA0 || n == 0x1680
    || (0x2000 <= n <= 0x200A) || n == 0x2028 || n == 0x2029 || n == 0x202F
    || n == 0x205F || n == 0x3000
  }

  function LowerChar(c: char): char
  {
    if 'A' <= c <= 'Z' then (c as int + 32) as char else c
  }

  function UpperChar(c: char): char
  {
    if 'a' <= c <= 'z' then (c as int - 32) as char else c
  }

  /** `s.lower()` */
  function Lower(s: string): string
  {
    seq(|s|, i requires 0 <= i < |s| => LowerChar(s[i]))
  }

  /** `w.capitalize()`: the first character upper case, the rest lower case. */
  function Capitalize(w: string): string
  {
    if w == [] then [] else [UpperChar(w[0])] + Lower(w[1..])
  }

  /** Lower-casing is idempotent. */
  lemma {:induction false} LowerLower(s: string)
    ensures Lower(Lower(s)) == Lower(s)
  {
    var l := Lower(s);
    forall i | 0 <= i < |l| ensures Lower(l)[i] == l[i] {
      assert l[i] == LowerChar(s[i]);
    }
  }

  /** Case mapping turns no character into white space. */
  lemma CaseKeepsSpace(c: char)
    ensures IsSpace(UpperChar(c)) ==> UpperChar(c) == c
    ensures IsSpace(LowerChar(c)) ==> LowerChar(c) == c
  {
  }

  /** Upper-casing a character is idempotent. */
  lemma UpperUpper(c: char)
    ensures UpperChar(UpperChar(c)) == UpperChar(c)
  {
  }

  /** A capitalized word stays as it is. */
  lemma CapitalizeIdempotent(w: string)
    ensures Capitalize(Capitalize(w)) == Capitalize(w)
  {
    if w != [] {
      var tail := Lower(w[1..]);
      var r := [UpperChar(w[0])] + tail;
      assert Capitalize(w) == r;
      assert r[0] == UpperChar(w[0]) && r[1..] == tail;
      LowerLower(w[1..]);
      UpperUpper(w[0]);
    }
  }

  /** Capitalizing introduces no white space. */
  lemma CapitalizeNoNewSpace(w: string)
    ensures forall c :: c in Capitalize(w) && IsSpace(c) ==> c in w
  {
    var r := Capitalize(w);
    forall c | c in r && IsSpace(c) ensures c in w {
      var i :| 0 <= i < |r| && r[i] == c;
      if i == 0 {
        CaseKeepsSpace(w[0]);
      } else {
        assert r[i] == LowerChar(w[i]);
        CaseKeepsSpace(w[i]);
      }
    }
  }

  /** Case mapping keeps the length, and a capitalized word stays as it is. */
  lemma {:induction false} CapitalizeShape(w: string)
    ensures |Capitalize(w)| == |w|
    ensures Capitalize(Capitalize(w)) == Capitalize(w)
    ensures forall c :: c in Capitalize(w) && IsSpace(c) ==> c in w
  {
    CapitalizeIdempotent(w);
    CapitalizeNoNewSpace(w);
  }

  // ---------------------------------------------------------------------
  // Decimal rendering
  // ---------------------------------------------------------------------

  function Digit(d: nat): char
    requires d < 10
  {
    (d + 48) as char
  }

  /** `str(n)` for `n >= 0`: decimal digits without a leading zero. */
  function NatToString(n: nat): (s: string)
    ensures 1 <= |s|
    ensures forall i :: 0 <= i < |s| ==> '0' <= s[i] <= '9'
    ensures s[0] == '0' ==> n == 0
    ensures |s| == 1 <==> n < 10
    decreases n
  {
    if n < 10 then [Digit(n)] else NatToString(n / 10) + [Digit(n % 10)]
  }

  /** Distinct numbers render differently, so a rendered number identifies it. */
  lemma {:induction false} NatToStringInjective(a: nat, b: nat)
    requires NatToString(a) == NatToString(b)
    ensures a == b
    decreases a
  {
    var s := NatToString(a);
    if a < 10 {
      assert Digit(a) == s[0] == Digit(b);
    } else {
      var pa, pb := NatToString(a / 10), NatToString(b / 10);
      assert s == pa + [Digit(a % 10)] && s == pb + [Digit(b % 10)];
      assert Digit(a % 10) == s[|s| - 1] == Digit(b % 10);
      assert pa == s[..|s| - 1] == pb;
      NatToStringInjective(a / 10, b / 10);
    }
  }

  /** `f` applied to each element, as `map(f, s)` does. */
  function Apply<A, B>(f: A -> B, s: seq<A>): seq<B>
  {
    seq(|s|, i requires 0 <= i < |s| => f(s[i]))
  }

  // ---------------------------------------------------------------------
  // join and split
  // ---------------------------------------------------------------------

  /** `sep.join(parts)` */
  function Join(sep: string, parts: seq<string>): string
    decreases |parts|
  {
    if parts == [] then ""
    else if |parts| == 1 then parts[0]
    else parts[0] + sep + Join(sep, parts[1..])
  }

  /** `sep` occurs in `s` starting at index `j`. */
  predicate OccursAt(s: string, sep: string, j: nat)
  {
    j + |sep| <= |s| && s[j..j + |sep|] == sep
  }

  /**
   * `s.split(sep)` for a non-empty separator: the pieces between the
   * occurrences of `sep`, found left to right without overlap.
   */
  function Split(s: string, sep: string): (parts: seq<string>)
    requires sep != []
    ensures |parts| >= 1
    decreases |s|
  {
    if |s| < |sep| then [s]
    else if s[..|sep|] == sep then [""] + Split(s[|sep|..], sep)
    else
      var rest := Split(s[1..], sep);
      [[s[0]] + rest[0]] + rest[1..]
  }

  /** Joining the pieces of a split with the same separator gives back the string. */
  lemma {:induction false} JoinSplit(s: string, sep: string)
    requires sep != []
    ensures Join(sep, Split(s, sep)) == s
    decreases |s|
  {
    if |s| < |sep| {
    } else if s[..|sep|] == sep {
      var tail := s[|sep|..];
      var rest := Split(tail, sep);
      assert Split(s, sep) == [""] + rest;
      JoinSplit(tail, sep);
      JoinCons(sep, "", rest);
      assert s == sep + tail by {
        assert s == s[..|sep|] + tail;
      }
    } else {
      var tail := s[1..];
      var rest := Split(tail, sep);
      assert Split(s, sep) == [[s[0]] + rest[0]] + rest[1..];
      JoinSplit(tail, sep);
      JoinExtendFirst(sep, s[0], rest);
      assert s == [s[0]] + tail;
    }
  }

  /** Joining a piece in front of at least one other piece. */
  lemma JoinCons(sep: string, p: string, parts: seq<string>)
    requires |parts| >= 1
    ensures Join(sep, [p] + parts) == p + sep + Join(sep, parts)
  {
    assert ([p] + parts)[1..] == parts;
  }

  /** Putting a character in front of the first piece puts it in front of the join. */
  lemma JoinExtendFirst(sep: string, c: char, parts: seq<string>)
    requires |parts| >= 1
    ensures Join(sep, [[c] + parts[0]] + parts[1..]) == [c] + Join(sep, parts)
  {
    var ext := [[c] + parts[0]] + parts[1..];
    if |parts| > 1 {
      assert ext[1..] == parts[1..];
      assert Join(sep, ext) == ([c] + parts[0]) + sep + Join(sep, parts[1..]);
    }
  }

  /** A string in which `sep` does not occur splits into itself. */
  lemma {:induction false} SplitWhole(s: string, sep: string)
    requires sep != []
    requires forall j: nat :: !OccursAt(s, sep, j)
    ensures Split(s, sep) == [s]
    decreases |s|
  {
    if |s| >= |sep| {
      assert !OccursAt(s, sep, 0);
      var t := s[1..];
      forall j: nat ensures !OccursAt(t, sep, j) {
        assert !OccursAt(s, sep, j + 1);
        if j + |sep| <= |t| {
          assert t[j..j + |sep|] == s[j + 1..j + 1 + |sep|];
        }
      }
      SplitWhole(t, sep);
      assert [s[0]] + t == s;
    }
  }

  /** An occurrence in the tail of a string is an occurrence one place later in the string. */
  lemma OccursShift(s: string, sep: string, j: nat)
    requires s != []
    ensures OccursAt(s[1..], sep, j) <==> OccursAt(s, sep, j + 1)
  {
    if j + |sep| <= |s| - 1 {
      assert s[1..][j..j + |sep|] == s[j + 1..j + 1 + |sep|];
    }
  }

  /** A split cuts at the first occurrence of the separator and continues after it. */
  lemma {:induction false} SplitAtFirst(s: string, sep: string, i: nat)
    requires sep != []
    requires OccursAt(s, sep, i)
    requires forall j: nat :: j < i ==> !OccursAt(s, sep, j)
    ensures Split(s, sep) == [s[..i]] + Split(s[i + |sep|..], sep)
    decreases i
  {
    if i > 0 {
      assert !OccursAt(s, sep, 0);
      var t := s[1..];
      var rest := Split(t, sep);
      assert Split(s, sep) == [[s[0]] + rest[0]] + rest[1..];
      forall j: nat | j < i - 1 ensures !OccursAt(t, sep, j) {
        OccursShift(s, sep, j);
      }
      OccursShift(s, sep, i - 1);
      SplitAtFirst(t, sep, i - 1);
      assert t[..i - 1] == s[1..i];
      assert t[i - 1 + |sep|..] == s[i + |sep|..];
      assert [s[0]] + s[1..i] == s[..i];
    } else {
      assert s[..|sep|] == sep;
    }
  }

  /** No piece of a split on one character contains that character. */
  lemma {:induction false} SplitPiecesLackSeparator(s: string, c: char)
    ensures forall p :: p in Split(s, [c]) ==> c !in p
    decreases |s|
  {
    if |s| >= 1 {
      SplitPiecesLackSeparator(s[1..], c);
      if s[..1] != [c] {
        var rest := Split(s[1..], [c]);
        assert s[..1] == [s[0]];
        forall p | p in Split(s, [c]) ensures c !in p {
          if p == [s[0]] + rest[0] {
            assert rest[0] in rest;
          } else {
            assert p in rest[1..];
            assert p in rest;
          }
        }
      }
    }
  }

  /** A string lacking one of the characters of `sep` has no occurrence of `sep`. */
  lemma NoOccurrence(s: string, sep: string, k: nat)
    requires k < |sep| && sep[k] !in s
    ensures forall j: nat :: !OccursAt(s, sep, j)
  {
    forall j: nat ensures !OccursAt(s, sep, j) {
      if j + |sep| <= |s| {
        assert s[j..j + |sep|][k] == s[j + k] && s[j + k] in s;
      }
    }
  }

  /**
   * `(a + sep + b).split(sep)` is `[a, b]` when `sep` does not occur in `b`
   * and no occurrence of it starts inside `a`: the first cut is right after
   * `a`, and nothing after it is cut.
   */
  lemma SplitPair(a: string, sep: string, b: string)
    requires sep != []
    requires forall j: nat :: j < |a| ==> !OccursAt(a + sep + b, sep, j)
    requires forall j: nat :: !OccursAt(b, sep, j)
    ensures Split(a + sep + b, sep) == [a, b]
  {
    var s := a + sep + b;
    assert s[|a|..|a| + |sep|] == sep;
    SplitAtFirst(s, sep, |a|);
    assert s[..|a|] == a && s[|a| + |sep|..] == b;
    SplitWhole(b, sep);
  }

  /**
   * When some character `sep[k]` of the separator occurs neither in `a` nor
   * in `b` nor earlier in `sep`, `a + sep + b` meets what `SplitPair` asks.
   */
  lemma SeparatorMarked(a: string, sep: string, b: string, k: nat)
    requires k < |sep| && sep[k] !in a && sep[k] !in b
    requires forall i :: 0 <= i < k ==> sep[i] != sep[k]
    ensures forall j: nat :: j < |a| ==> !OccursAt(a + sep + b, sep, j)
    ensures forall j: nat :: !OccursAt(b, sep, j)
  {
    var s := a + sep + b;
    forall j: nat | j < |a| ensures !OccursAt(s, sep, j) {
      if j + |sep| <= |s| {
        assert s[j..j + |sep|][k] == s[j + k];
        if j + k < |a| {
          assert s[j + k] == a[j + k] && a[j + k] in a;
        } else {
          assert s[j + k] == sep[j + k - |a|];
        }
      }
    }
    NoOccurrence(b, sep, k);
  }

  /**
   * Splitting a join gives back the pieces, when no piece contains the first
   * character of the separator.
   */
  lemma {:induction false} SplitJoin(parts: seq<string>, sep: string)
    requires sep != [] && |parts| >= 1
    requires forall p :: p in parts ==> sep[0] !in p
    ensures Split(Join(sep, parts), sep) == parts
    decreases |parts|
  {
    var p := parts[0];
    assert p in parts;
    if |parts| == 1 {
      NoOccurrence(p, sep, 0);
      SplitWhole(p, sep);
    } else {
      var tail := Join(sep, parts[1..]);
      var s := Join(sep, parts);
      assert s == p + sep + tail;
      assert s[|p|..|p| + |sep|] == sep;
      forall j: nat | j < |p| ensures !OccursAt(s, sep, j) {
        assert s[j..j + |sep|][0] == s[j] == p[j] && p[j] in p;
      }
      SplitAtFirst(s, sep, |p|);
      assert s[..|p|] == p;
      assert s[|p| + |sep|..] == tail;
      forall q | q in parts[1..] ensures sep[0] !in q {
        assert q in parts;
      }
      SplitJoin(parts[1..], sep);
      assert parts == [p] + parts[1..];
    }
  }

  /** Joining three pieces. */
  lemma JoinThree(sep: string, a: string, b: string, c: string)
    ensures Join(sep, [a, b, c]) == a + sep + b + sep + c
  {
    assert [a, b, c][1..] == [b, c];
    assert [b, c][1..] == [c];
    assert Join(sep, [c]) == c;
    assert Join(sep, [b, c]) == b + sep + c;
    assert Join(sep, [a, b, c]) == a + sep + (b + sep + c);
    assert a + sep + (b + sep + c) == a + sep + b + sep + c;
  }

  /** Appending one more piece to a join. */
  lemma {:induction false} JoinSnoc(sep: string, parts: seq<string>, p: string)
    requires |parts| >= 1
    ensures Join(sep, parts + [p]) == Join(sep, parts) + sep + p
    decreases |parts|
  {
    if |parts| == 1 {
      assert (parts + [p])[1..] == [p];
    } else {
      assert (parts + [p])[1..] == parts[1..] + [p];
      JoinSnoc(sep, parts[1..], p);
    }
  }

  // ---------------------------------------------------------------------
  // strip
  // ---------------------------------------------------------------------

  function StripLeading(s: string): string
    decreases |s|
  {
    if s != [] && IsSpace(s[0]) then StripLeading(s[1..]) else s
  }

  function StripTrailing(s: string): string
    decreases |s|
  {
    if s != [] && IsSpace(s[|s| - 1]) then StripTrailing(s[..|s| - 1]) else s
  }

  /** `s.strip()`: `s` without its leading and trailing white space. */
  function Strip(s: string): string
  {
    StripTrailing(StripLeading(s))
  }

  /** `lstrip` drops exactly the white space at the front. */
  lemma {:induction false} StripLeadingShape(s: string)
    ensures var r := StripLeading(s);
            && |r| <= |s| && r == s[|s| - |r|..]
            && (r == [] || !IsSpace(r[0]))
            && forall i :: 0 <= i < |s| - |r| ==> IsSpace(s[i])
    decreases |s|
  {
    if s != [] && IsSpace(s[0]) {
      StripLeadingShape(s[1..]);
    }
  }

  /** `rstrip` drops exactly the white space at the back. */
  lemma {:induction false} StripTrailingShape(s: string)
    ensures var r := StripTrailing(s);
            && |r| <= |s| && r == s[..|r|]
            && (r == [] || !IsSpace(r[|r| - 1]))
            && forall i :: |r| <= i < |s| ==> IsSpace(s[i])
    decreases |s|
  {
    if s != [] && IsSpace(s[|s| - 1]) {
      StripTrailingShape(s[..|s| - 1]);
    }
  }

  /**
   * The stripped text is the piece of `s` after its leading white space,
   * and neither starts nor ends with white space.
   */
  lemma StripShape(s: string)
    ensures var r, k := Strip(s), |s| - |StripLeading(s)|;
            && 0 <= k && k + |r| <= |s| && r == s[k..k + |r|]
            && (r == [] || (!IsSpace(r[0]) && !IsSpace(r[|r| - 1])))
  {
    var l := StripLeading(s);
    StripLeadingShape(s);
    StripTrailingShape(l);
    var r := StripTrailing(l);
    var i := |s| - |l|;
    assert r == s[i..i + |r|];
  }

  /** Stripping a string with white space on its left only removes that white space. */
  lemma {:induction false} StripPadded(pad: string, s: string)
    requires forall c :: c in pad ==> IsSpace(c)
    requires s != [] && !IsSpace(s[0]) && !IsSpace(s[|s| - 1])
    ensures Strip(pad + s) == s
    decreases |pad|
  {
    if pad != [] {
      assert pad[0] in pad;
      assert (pad + s)[1..] == pad[1..] + s;
      forall c | c in pad[1..] ensures IsSpace(c) {
        assert c in pad;
      }
      StripPadded(pad[1..], s);
    }
  }
}
