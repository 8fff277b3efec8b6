/** Shared vocabulary: an Option type and the handful of JavaScript string
    operations the modelled code relies on (trim, case mapping, indexOf,
    includes, split, join, replaceAll, decimal conversion). */
module Common {

  datatype Option<+T> = None | Some(value: T)

  function Max(a: int, b: int): int { if a >= b then a else b }

  // ---------------------------------------------------------------------
  // Whitespace and trim (String.prototype.trim)
  // ---------------------------------------------------------------------

  /** The characters String.prototype.trim removes: the ECMAScript
      WhiteSpace and LineTerminator code points. */
  predicate IsSpace(c: char)
  {
    c == ' ' || c == '\t' || c == '\n' || c == '\r' || c == '\U{000B}' || c == '\U{000C}'
    || c == '\U{00A0}' || c == '\U{1680}' || ('\U{2000}' <= c <= '\U{200A}')
    || c == '\U{2028}' || c == '\U{2029}' || c == '\U{202F}' || c == '\U{205F}'
    || c == '\U{3000}' || c == '\U{FEFF}'
  }

  predicate Trimmed(s: string)
  {
    s == [] || (!IsSpace(s[0]) && !IsSpace(s[|s| - 1]))
  }

  /** String.prototype.trimStart. */
  function TrimStart(s: string): string
  {
    if |s| > 0 && IsSpace(s[0]) then TrimStart(s[1..]) else s
  }

  /** String.prototype.trimEnd. */
  function TrimEnd(s: string): string
  {
    if |s| > 0 && IsSpace(s[|s| - 1]) then TrimEnd(s[..|s| - 1]) else s
  }

  /** trimStart keeps a suffix that does not start with whitespace and cuts
      only whitespace. */
  lemma {:induction false} TrimStartSpec(s: string)
    ensures var r := TrimStart(s);
            |r| <= |s| && r == s[|s| - |r|..]
            && (r == [] || !IsSpace(r[0]))
            && forall i :: 0 <= i < |s| - |r| ==> IsSpace(s[i])
  {
    if |s| > 0 && IsSpace(s[0]) {
      TrimStartSpec(s[1..]);
      var r := TrimStart(s[1..]);
      assert s[1..][|s| - 1 - |r|..] == s[|s| - |r|..];
      forall i | 0 < i < |s| - |r| ensures IsSpace(s[i]) {
        assert s[i] == s[1..][i - 1];
      }
    }
  }

  /** trimEnd keeps a prefix that does not end with whitespace and cuts
      only whitespace. */
  lemma {:induction false} TrimEndSpec(s: string)
    ensures var r := TrimEnd(s);
            |r| <= |s| && r == s[..|r|]
            && (r == [] || !IsSpace(r[|r| - 1]))
            && forall i :: |r| <= i < |s| ==> IsSpace(s[i])
  {
    if |s| > 0 && IsSpace(s[|s| - 1]) {
      TrimEndSpec(s[..|s| - 1]);
      var r := TrimEnd(s[..|s| - 1]);
      assert s[..|s| - 1][..|r|] == s[..|r|];
      forall i | |r| <= i < |s| - 1 ensures IsSpace(s[i]) {
        assert s[i] == s[..|s| - 1][i];
      }
    }
  }

  /** r is the slice s[i..i+|r|] and everything around it is whitespace. */
  predicate SpaceAround(s: string, r: string, i: int)
  {
    0 <= i <= |s| - |r| && r == s[i..i + |r|]
    && (forall k :: 0 <= k < i ==> IsSpace(s[k]))
    && (forall k :: i + |r| <= k < |s| ==> IsSpace(s[k]))
  }

  lemma SliceAround(s: string, a: string, r: string)
    requires |a| <= |s| && a == s[|s| - |a|..] && forall k :: 0 <= k < |s| - |a| ==> IsSpace(s[k])
    requires |r| <= |a| && r == a[..|r|] && forall k :: |r| <= k < |a| ==> IsSpace(a[k])
    ensures SpaceAround(s, r, |s| - |a|)
  {
    var i := |s| - |a|;
    assert r == s[i..i + |r|];
    forall k | i + |r| <= k < |s|
      ensures IsSpace(s[k])
    {
      assert s[k] == a[k - i];
    }
  }

  lemma TrimSlice(s: string)
    ensures SpaceAround(s, TrimEnd(TrimStart(s)), |s| - |TrimStart(s)|)
  {
    TrimStartSpec(s);
    TrimEndSpec(TrimStart(s));
    SliceAround(s, TrimStart(s), TrimEnd(TrimStart(s)));
  }

  /** String.prototype.trim. */
  function Trim(s: string): string
  {
    TrimEnd(TrimStart(s))
  }

  /** Trim gives the slice of s that neither starts nor ends with
      whitespace, everything cut away being whitespace. */
  lemma TrimSpec(s: string)
    ensures Trimmed(Trim(s))
    ensures SpaceAround(s, Trim(s), |s| - |TrimStart(s)|)
  {
    TrimSlice(s);
    var a := TrimStart(s);
    TrimStartSpec(s);
    TrimEndSpec(a);
    assert Trim(s) != [] ==> Trim(s)[0] == a[0];
  }

  lemma TrimOfTrimmed(s: string)
    requires Trimmed(s)
    ensures Trim(s) == s
  {
  }

  /** Trimming twice is trimming once. */
  lemma TrimIdempotent(s: string)
    ensures Trim(Trim(s)) == Trim(s)
  {
    TrimSpec(s);
    TrimOfTrimmed(Trim(s));
  }

  /** Trim's result is the only non-blank-ended slice with nothing but
      whitespace around it. */
  lemma TrimUnique(s: string, r: string, i: int)
    requires Trimmed(r) && SpaceAround(s, r, i)
    ensures Trim(s) == r
  {
    var t := Trim(s);
    var j := |s| - |TrimStart(s)|;
    TrimSpec(s);
    BlankSliceAlone(s, r, i, t, j);
    BlankSliceAlone(s, t, j, r, i);
    SlicesAgree(s, r, i, t, j);
  }

  /** If the whole string is whitespace, no non-blank-ended slice has
      whitespace around it except the empty one. */
  lemma BlankSliceAlone(s: string, r: string, i: int, t: string, j: int)
    requires SpaceAround(s, r, i) && Trimmed(t) && SpaceAround(s, t, j)
    ensures r == [] ==> t == []
  {
    assert t != [] ==> s[j] == t[0];
  }

  /** Two non-empty, non-blank-ended slices with whitespace around them
      start and end at the same positions. */
  lemma SlicesAgree(s: string, r: string, i: int, t: string, j: int)
    requires Trimmed(r) && SpaceAround(s, r, i) && Trimmed(t) && SpaceAround(s, t, j)
    ensures r != [] && t != [] ==> r == t
  {
    assert r != [] ==> s[i] == r[0] && s[i + |r| - 1] == r[|r| - 1];
    assert t != [] ==> s[j] == t[0] && s[j + |t| - 1] == t[|t| - 1];
  }

  lemma PaddedSpaceAround(p: string, s: string, q: string, r: string, i: int)
    requires forall k :: 0 <= k < |p| ==> IsSpace(p[k])
    requires forall k :: 0 <= k < |q| ==> IsSpace(q[k])
    requires SpaceAround(s, r, i)
    ensures SpaceAround(p + s + q, r, |p| + i)
  {
    var w := p + s + q;
    assert w[|p| + i..|p| + i + |r|] == s[i..i + |r|];
    forall k | 0 <= k < |p| + i ensures IsSpace(w[k]) {
      if k >= |p| { assert w[k] == s[k - |p|]; }
    }
    forall k | |p| + i + |r| <= k < |w| ensures IsSpace(w[k]) {
      if k < |p| + |s| { assert w[k] == s[k - |p|]; } else { assert w[k] == q[k - |p| - |s|]; }
    }
  }

  /** Whitespace added around a string is trimmed away again. */
  lemma PaddedTrim(p: string, s: string, q: string)
    requires forall k :: 0 <= k < |p| ==> IsSpace(p[k])
    requires forall k :: 0 <= k < |q| ==> IsSpace(q[k])
    ensures Trim(p + s + q) == Trim(s)
  {
    var r := Trim(s);
    var i := |s| - |TrimStart(s)|;
    TrimSpec(s);
    PaddedSpaceAround(p, s, q, r, i);
    TrimUnique(p + s + q, r, |p| + i);
  }

  /** A prefix of a string that has no leading whitespace keeps that
      property; trimming it then only cuts at the end. */
  lemma TrimPrefixIsPrefix(p: string, s: string)
    requires p <= s
    requires s == [] || !IsSpace(s[0])
    ensures Trim(p) <= s
  {
    assert TrimStart(p) == p;
    TrimEndSpec(p);
  }

  // ---------------------------------------------------------------------
  // Case mapping (ASCII letters only)
  // ---------------------------------------------------------------------

  function LowerChar(c: char): char
  {
    if 'A' <= c <= 'Z' then (c as int + 32) as char else c
  }

  function UpperChar(c: char): char
  {
    if 'a' <= c <= 'z' then (c as int - 32) as char else c
  }

  function Lower(s: string): (r: string)
  {
    seq(|s|, i requires 0 <= i < |s| => LowerChar(s[i]))
  }

  function Upper(s: string): (r: string)
  {
    seq(|s|, i requires 0 <= i < |s| => UpperChar(s[i]))
  }

  /** Case mapping leaves whitespace alone and makes none. */
  lemma LowerCharSpace(c: char)
    ensures IsSpace(LowerChar(c)) <==> IsSpace(c)
    ensures LowerChar(LowerChar(c)) == LowerChar(c)
  {
  }

  lemma LowerSpaceAround(s: string, r: string, i: int)
    requires Trimmed(r) && SpaceAround(s, r, i)
    ensures Trimmed(Lower(r)) && SpaceAround(Lower(s), Lower(r), i)
  {
    var l := Lower(s);
    forall k | 0 <= k < |s| ensures IsSpace(l[k]) <==> IsSpace(s[k]) { LowerCharSpace(s[k]); }
    if r != [] { LowerCharSpace(r[0]); LowerCharSpace(r[|r| - 1]); }
    assert Lower(r) == l[i..i + |r|];
  }

  /** Lower-casing and trimming commute. */
  lemma TrimLower(s: string)
    ensures Trim(Lower(s)) == Lower(Trim(s))
  {
    var r := Trim(s);
    var i := |s| - |TrimStart(s)|;
    TrimSpec(s);
    LowerSpaceAround(s, r, i);
    TrimUnique(Lower(s), Lower(r), i);
  }

  lemma LowerIdempotent(s: string)
    ensures Lower(Lower(s)) == Lower(s)
  {
    forall k | 0 <= k < |s| ensures Lower(Lower(s))[k] == Lower(s)[k] { LowerCharSpace(s[k]); }
  }

  /** A separator that occurs in neither head splits a joined sequence at
      the same place. */
  lemma {:induction false} SeparatorUnique<T>(a: seq<T>, b: seq<T>, c: seq<T>, d: seq<T>, x: T)
    requires x !in a && x !in c && a + [x] + b == c + [x] + d
    ensures a == c && b == d
  {
    var k := a + [x] + b;
    if a == [] {
      assert k[0] == x;
      assert k[1..] == b;
    } else {
      assert k[0] == a[0] && (c + [x] + d)[0] == c[0];
      assert k[1..] == a[1..] + [x] + b;
      assert (c + [x] + d)[1..] == c[1..] + [x] + d;
      SeparatorUnique(a[1..], b, c[1..], d, x);
      assert a == [a[0]] + a[1..];
    }
  }

  /** Lower-casing after upper-casing is lower-casing. */
  lemma LowerOfUpper(s: string)
    ensures Lower(Upper(s)) == Lower(s)
  {
  }

  lemma LowerChars(s: string, t: string)
    ensures Lower(s + t) == Lower(s) + Lower(t)
  {
  }

  // ---------------------------------------------------------------------
  // Order-preserving sublists
  // ---------------------------------------------------------------------

  /** Decides whether a is an order-preserving sublist of b. */
  predicate Subsequence<T(==)>(a: seq<T>, b: seq<T>)
    decreases |b|
  {
    if a == [] then true
    else if b == [] then false
    else if a[|a| - 1] == b[|b| - 1] then Subsequence(a[..|a| - 1], b[..|b| - 1])
    else Subsequence(a, b[..|b| - 1])
  }

  /** Extending both lists by the same element keeps a sublist. */
  lemma SubsequenceSnoc<T>(a: seq<T>, b: seq<T>, x: T)
    requires Subsequence(a, b)
    ensures Subsequence(a + [x], b + [x])
  {
    assert (a + [x])[..|a|] == a;
    assert (b + [x])[..|b|] == b;
  }

  /** Dropping the last element of a sublist leaves a sublist. */
  lemma {:induction false} SubsequenceInit<T>(a: seq<T>, b: seq<T>)
    requires a != [] && Subsequence(a, b)
    ensures Subsequence(a[..|a| - 1], b)
    decreases |b|
  {
    var a' := a[..|a| - 1];
    var b' := b[..|b| - 1];
    if a[|a| - 1] != b[|b| - 1] {
      SubsequenceInit(a, b');
    }
    assert Subsequence(a', b');
    if a' != [] && a'[|a'| - 1] == b[|b| - 1] {
      SubsequenceInit(a', b');
    }
  }

  /** A sublist of b is a sublist of b extended at the end. */
  lemma SubsequenceExtend<T>(a: seq<T>, b: seq<T>, x: T)
    requires Subsequence(a, b)
    ensures Subsequence(a, b + [x])
  {
    var b' := b + [x];
    assert b'[..|b'| - 1] == b;
    if a != [] && a[|a| - 1] == x {
      SubsequenceInit(a, b);
    }
  }

  lemma {:induction false} SubsequenceMembers<T>(a: seq<T>, b: seq<T>)
    requires Subsequence(a, b)
    ensures forall x :: x in a ==> x in b
    decreases |b|
  {
    if a != [] && b != [] {
      var b' := b[..|b| - 1];
      if a[|a| - 1] == b[|b| - 1] {
        var a' := a[..|a| - 1];
        SubsequenceMembers(a', b');
        assert a == a' + [a[|a| - 1]];
        assert b == b' + [b[|b| - 1]];
      } else {
        SubsequenceMembers(a, b');
        assert b == b' + [b[|b| - 1]];
      }
    }
  }

  /** Array.prototype.filter: the elements satisfying f, in order. */
  function Filter<T>(s: seq<T>, f: T -> bool): (r: seq<T>)
    ensures |r| <= |s|
    decreases |s|
  {
    if s == [] then []
    else
      var init := Filter(s[..|s| - 1], f);
      if f(s[|s| - 1]) then init + [s[|s| - 1]] else init
  }

  /** filter keeps exactly the satisfying elements, in their order. */
  lemma {:induction false} FilterSpec<T>(s: seq<T>, f: T -> bool)
    ensures Subsequence(Filter(s, f), s)
    ensures forall x :: x in Filter(s, f) <==> x in s && f(x)
    decreases |s|
  {
    if s != [] {
      var s' := s[..|s| - 1];
      var x := s[|s| - 1];
      FilterSpec(s', f);
      assert s == s' + [x];
      if f(x) {
        SubsequenceSnoc(Filter(s', f), s', x);
      } else {
        SubsequenceExtend(Filter(s', f), s', x);
      }
    }
  }

  /** filter keeps everything exactly when every element satisfies f, and
      nothing exactly when none does. */
  lemma {:induction false} FilterAllNone<T>(s: seq<T>, f: T -> bool)
    ensures |Filter(s, f)| == |s| <==> forall i :: 0 <= i < |s| ==> f(s[i])
    ensures Filter(s, f) == [] <==> forall i :: 0 <= i < |s| ==> !f(s[i])
    decreases |s|
  {
    if s != [] {
      var s' := s[..|s| - 1];
      FilterAllNone(s', f);
      assert forall i :: 0 <= i < |s'| ==> s'[i] == s[i];
    }
  }

  /** filter distributes over concatenation. */
  lemma {:induction false} FilterConcat<T>(a: seq<T>, b: seq<T>, f: T -> bool)
    ensures Filter(a + b, f) == Filter(a, f) + Filter(b, f)
    decreases |b|
  {
    if b == [] {
      assert a + b == a;
    } else {
      var b', x := b[..|b| - 1], b[|b| - 1];
      var t := if f(x) then [x] else [];
      FilterConcat(a, b', f);
      assert (a + b)[..|a + b| - 1] == a + b';
      assert (a + b)[|a + b| - 1] == x;
      assert Filter(a + b, f) == Filter(a + b', f) + t;
      assert Filter(b, f) == Filter(b', f) + t;
      assert (Filter(a, f) + Filter(b', f)) + t == Filter(a, f) + (Filter(b', f) + t);
    }
  }

  /** Filtering by f and by its negation splits s in two. */
  lemma {:induction false} FilterPartition<T>(s: seq<T>, f: T -> bool, g: T -> bool)
    requires forall x :: g(x) == !f(x)
    ensures |Filter(s, f)| + |Filter(s, g)| == |s|
    ensures multiset(Filter(s, f)) + multiset(Filter(s, g)) == multiset(s)
    decreases |s|
  {
    if s != [] {
      var s' := s[..|s| - 1];
      FilterPartition(s', f, g);
      assert s == s' + [s[|s| - 1]];
    }
  }

  /** The index of the first element satisfying f, as Array.prototype.find
      and a loop with an early return both select it. */
  function FirstIndex<T>(s: seq<T>, f: T -> bool): (r: Option<nat>)
    ensures r.Some? ==> r.value < |s| && f(s[r.value])
    ensures r.Some? ==> forall j :: 0 <= j < r.value ==> !f(s[j])
    ensures r.None? <==> forall j :: 0 <= j < |s| ==> !f(s[j])
  {
    if s == [] then None
    else if f(s[0]) then Some(0)
    else match FirstIndex(s[1..], f)
      case None => None
      case Some(k) => Some(k + 1)
  }

  // ---------------------------------------------------------------------
  // Searching: indexOf, includes, startsWith
  // ---------------------------------------------------------------------

  predicate OccursAt(s: string, t: string, k: int)
  {
    0 <= k && k + |t| <= |s| && s[k..k + |t|] == t
  }

  /** The leftmost occurrence of t in s at or after position i. */
  function IndexOfFrom(s: string, t: string, i: nat): (r: Option<nat>)
    decreases |s| - i
    ensures r.Some? ==> i <= r.value && OccursAt(s, t, r.value)
    ensures r.Some? ==> forall k :: i <= k < r.value ==> !OccursAt(s, t, k)
    ensures r.None? ==> forall k :: i <= k ==> !OccursAt(s, t, k)
  {
    if i + |t| > |s| then None
    else if s[i..i + |t|] == t then Some(i)
    else IndexOfFrom(s, t, i + 1)
  }

  /** String.prototype.indexOf, with None for -1. */
  function IndexOf(s: string, t: string): (r: Option<nat>)
    ensures r.Some? ==> OccursAt(s, t, r.value) && forall k :: 0 <= k < r.value ==> !OccursAt(s, t, k)
    ensures r.None? ==> forall k :: !OccursAt(s, t, k)
  {
    IndexOfFrom(s, t, 0)
  }

  /** String.prototype.includes. */
  predicate Contains(s: string, t: string)
  {
    IndexOf(s, t).Some?
  }

  lemma ContainsAt(s: string, t: string, k: int)
    requires OccursAt(s, t, k)
    ensures Contains(s, t)
  {
  }

  lemma ContainsSelf(s: string)
    ensures Contains(s, s)
  {
    assert s[0..|s|] == s;
    ContainsAt(s, s, 0);
  }

  lemma EmptyOccurs(s: string)
    ensures Contains(s, "")
  {
    assert OccursAt(s, "", 0);
  }

  /** An occurrence inside a prefix is an occurrence in the whole string. */
  lemma ContainsPrefix(p: string, s: string, t: string)
    requires p <= s && Contains(p, t)
    ensures Contains(s, t)
  {
    var k := IndexOf(p, t).value;
    assert s[k..k + |t|] == p[k..k + |t|];
    ContainsAt(s, t, k);
  }

  /** A string has no occurrence of t if it is a prefix of one that has none. */
  lemma NoContainsPrefix(p: string, s: string, t: string)
    requires p <= s && !Contains(s, t)
    ensures !Contains(p, t)
  {
    if Contains(p, t) { ContainsPrefix(p, s, t); }
  }

  /** Everything before the first occurrence of t is free of t. */
  lemma NoContainsBeforeFirst(s: string, t: string, k: nat)
    requires |t| > 0 && IndexOf(s, t) == Some(k)
    ensures !Contains(s[..k], t)
  {
    if Contains(s[..k], t) {
      var j := IndexOf(s[..k], t).value;
      assert s[j..j + |t|] == s[..k][j..j + |t|];
      assert OccursAt(s, t, j) && j < k;
      assert false;
    }
  }

  // ---------------------------------------------------------------------
  // split / join / replaceAll with a non-empty string separator
  // ---------------------------------------------------------------------

  /** String.prototype.split with a non-empty string separator. */
  function Split(s: string, sep: string): (parts: seq<string>)
    requires |sep| > 0
    ensures |parts| >= 1
    ensures forall i :: 0 <= i < |parts| ==> !Contains(parts[i], sep)
    decreases |s|
  {
    match IndexOf(s, sep)
    case None => [s]
    case Some(k) =>
      NoContainsBeforeFirst(s, sep, k);
      [s[..k]] + Split(s[k + |sep|..], sep)
  }

  /** The part before the first separator: `s.split(sep)[0]`. */
  lemma SplitHead(s: string, sep: string)
    requires |sep| > 0
    ensures Split(s, sep)[0] <= s
  {
  }

  function Join(parts: seq<string>, sep: string): string
  {
    if |parts| == 0 then ""
    else if |parts| == 1 then parts[0]
    else parts[0] + sep + Join(parts[1..], sep)
  }

  lemma JoinThree(a: string, b: string, c: string, sep: string)
    ensures Join([a, b, c], sep) == a + sep + b + sep + c
  {
    assert [a, b, c][1..] == [b, c];
    JoinTwo(b, c, sep);
    assert a + sep + (b + sep + c) == a + sep + b + sep + c;
  }

  lemma JoinTwo(a: string, b: string, sep: string)
    ensures Join([a, b], sep) == a + sep + b
  {
    assert [a, b][1..] == [b];
  }

  /** Splitting and re-joining with the same separator gives back the input. */
  lemma {:induction false} JoinSplit(s: string, sep: string)
    requires |sep| > 0
    ensures Join(Split(s, sep), sep) == s
    decreases |s|
  {
    match IndexOf(s, sep)
    case None =>
    case Some(k) =>
      var rest := s[k + |sep|..];
      var parts := Split(s, sep);
      assert parts == [s[..k]] + Split(rest, sep);
      assert parts[1..] == Split(rest, sep);
      assert Join(parts, sep) == s[..k] + sep + Join(Split(rest, sep), sep);
      JoinSplit(rest, sep);
      assert s[k..k + |sep|] == sep;
      assert s == s[..k] + s[k..k + |sep|] + rest;
  }

  /** A string none of whose characters is c does not contain [c]. */
  lemma NotContainsChar(s: string, c: char)
    requires forall i :: 0 <= i < |s| ==> s[i] != c
    ensures !Contains(s, [c])
  {
    forall k | 0 <= k && k + 1 <= |s|
      ensures !OccursAt(s, [c], k)
    {
      assert s[k..k + 1][0] == s[k];
    }
  }

  /** No proper suffix of sep is also a prefix of it, so two occurrences
      of sep never overlap (every one-character separator is such). */
  predicate Borderless(sep: string)
  {
    forall k :: 0 < k < |sep| ==> sep[k..] != sep[..|sep| - k]
  }

  /** A borderless separator after a stretch free of it is the first one. */
  lemma FirstSeparator(p: string, sep: string, rest: string)
    requires |sep| > 0 && Borderless(sep) && !Contains(p, sep)
    ensures IndexOf(p + sep + rest, sep) == Some(|p|)
  {
    var s := p + sep + rest;
    assert s[|p|..|p| + |sep|] == sep;
    forall j | 0 <= j < |p| ensures !OccursAt(s, sep, j) {
      if j + |sep| <= |p| {
        assert s[j..j + |sep|] == p[j..j + |sep|];
        assert !OccursAt(p, sep, j);
      } else {
        var k := |p| - j;
        assert s[j..j + |sep|][k..] == s[|p|..j + |sep|] == sep[..|sep| - k];
        assert sep[k..] != sep[..|sep| - k];
      }
    }
    assert OccursAt(s, sep, |p|);
    assert IndexOf(s, sep).Some?;
  }

  /** Joining with a borderless separator that no part contains, then
      splitting, gives back the parts. */
  lemma {:induction false} SplitJoin(parts: seq<string>, sep: string)
    requires |sep| > 0 && Borderless(sep) && |parts| >= 1
    requires forall i :: 0 <= i < |parts| ==> !Contains(parts[i], sep)
    ensures Split(Join(parts, sep), sep) == parts
    decreases |parts|
  {
    if |parts| == 1 {
      assert IndexOf(parts[0], sep).None?;
    } else {
      var rest := Join(parts[1..], sep);
      FirstSeparator(parts[0], sep, rest);
      var s := parts[0] + sep + rest;
      assert s[|parts[0]| + |sep|..] == rest;
      assert s[..|parts[0]|] == parts[0];
      SplitJoin(parts[1..], sep);
    }
  }

  /** String.prototype.replaceAll with a non-empty string pattern. */
  function ReplaceAll(s: string, pat: string, rep: string): string
    requires |pat| > 0
  {
    Join(Split(s, pat), rep)
  }

  /** A string without the pattern comes back unchanged. */
  lemma ReplaceAllAbsent(s: string, pat: string, rep: string)
    requires |pat| > 0 && !Contains(s, pat)
    ensures ReplaceAll(s, pat, rep) == s
  {
  }

  // ---------------------------------------------------------------------
  // Decimal digits
  // ---------------------------------------------------------------------

  predicate IsDigit(c: char) { '0' <= c <= '9' }

  predicate AllDigits(s: string) { forall i :: 0 <= i < |s| ==> IsDigit(s[i]) }

  function DigitChar(d: nat): char
    requires d < 10
  {
    ('0' as int + d) as char
  }

  /** parseInt(s, 10) of a run of decimal digits. */
  function DigitsValue(s: string): nat
    requires AllDigits(s)
  {
    if s == [] then 0
    else DigitsValue(s[..|s| - 1]) * 10 + (s[|s| - 1] as int - '0' as int)
  }

  /** The decimal rendering of a natural number, as String(n) gives it. */
  function NatToString(n: nat): (r: string)
    ensures |r| >= 1 && AllDigits(r)
    ensures |r| > 1 ==> r[0] != '0'
  {
    if n < 10 then [DigitChar(n)] else NatToString(n / 10) + [DigitChar(n % 10)]
  }

  /** String(i) of an integer-valued number. */
  function IntToString(i: int): string
  {
    if i < 0 then "-" + NatToString(-i) else NatToString(i)
  }

  /** Decimal rendering and parsing are inverse. */
  lemma {:induction false} DigitsValueOfNatToString(n: nat)
    ensures DigitsValue(NatToString(n)) == n
  {
    if n >= 10 {
      DigitsValueOfNatToString(n / 10);
      var s := NatToString(n);
      assert s[..|s| - 1] == NatToString(n / 10);
    }
  }

  /** The longest run of digits s starts with. */
  function LeadingDigits(s: string): (d: string)
    ensures AllDigits(d) && d <= s
    ensures |d| < |s| ==> !IsDigit(s[|d|])
  {
    if s != [] && IsDigit(s[0]) then [s[0]] + LeadingDigits(s[1..]) else []
  }

  /** Number.parseInt(s, 10): leading white space, an optional sign, then
      as many decimal digits as there are; NaN (None) without a digit. */
  function ParseInt(s: string): Option<int>
  {
    var t := TrimStart(s);
    var signed := t != [] && (t[0] == '-' || t[0] == '+');
    var d := LeadingDigits(if signed then t[1..] else t);
    if d == [] then None
    else if signed && t[0] == '-' then Some(-(DigitsValue(d) as int))
    else Some(DigitsValue(d))
  }

  /** parseInt reads String(i) back as i. */
  lemma ParseIntOfIntToString(i: int)
    ensures ParseInt(IntToString(i)) == Some(i)
  {
    var n: nat := if i < 0 then -i else i;
    var d := NatToString(n);
    DigitsValueOfNatToString(n);
    LeadingDigitsOfDigits(d);
    if i < 0 {
      assert IntToString(i) == "-" + d;
      StartsUnspaced("-" + d);
      assert ("-" + d)[1..] == d;
    } else {
      StartsUnspaced(d);
    }
  }

  /** parseInt reads the digits a string starts with and ignores what
      follows them. */
  lemma ParseIntLeading(d: string, rest: string)
    requires AllDigits(d) && d != [] && (rest == [] || !IsDigit(rest[0]))
    ensures ParseInt(d + rest).Some? && ParseInt(d + rest).value == DigitsValue(d)
  {
    var s := d + rest;
    assert s[0] == d[0];
    StartsUnspaced(s);
    LeadingDigitsConcat(d, rest);
  }

  /** A run of digits is its own leading run. */
  lemma {:induction false} LeadingDigitsOfDigits(d: string)
    requires AllDigits(d)
    ensures LeadingDigits(d) == d
  {
    if d != [] {
      LeadingDigitsOfDigits(d[1..]);
      assert [d[0]] + d[1..] == d;
    }
  }

  /** The leading run of digits stops where the digits do. */
  lemma {:induction false} LeadingDigitsConcat(d: string, rest: string)
    requires AllDigits(d) && (rest == [] || !IsDigit(rest[0]))
    ensures LeadingDigits(d + rest) == d
  {
    if d != [] {
      assert (d + rest)[1..] == d[1..] + rest;
      LeadingDigitsConcat(d[1..], rest);
      assert [d[0]] + d[1..] == d;
    }
  }

  /** Nothing is trimmed from the front of a string starting with a
      non-space. */
  lemma StartsUnspaced(s: string)
    requires s != [] && !IsSpace(s[0])
    ensures TrimStart(s) == s
  {
  }
}
