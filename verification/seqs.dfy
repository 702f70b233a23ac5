/** Sequence helpers shared by the stores and the views: `Array.prototype.filter`,
    the insertion order of a JavaScript `Set`, occurrence counts and removal.
    Folds are defined from the left, the way a `forEach` loop visits an array. */
module Seqs {

  /** The last element and the rest of a non-empty sequence. */
  function Last<T>(s: seq<T>): T
    requires s != []
  {
    s[|s| - 1]
  }

  function Init<T>(s: seq<T>): (r: seq<T>)
    requires s != []
    ensures s == r + [Last(s)]
  {
    s[..|s| - 1]
  }

  /** `r` is obtained from `s` by deleting elements (greedy match from the end). */
  predicate IsSubseq<T(==,!new)>(r: seq<T>, s: seq<T>)
    decreases |s|
  {
    if r == [] then true
    else if s == [] then false
    else if Last(r) == Last(s) then IsSubseq(Init(r), Init(s))
    else IsSubseq(r, Init(s))
  }

  /** `s.filter(f)`: exactly the elements of `s` satisfying `f`, in their order. */
  function Filter<T(==,!new)>(s: seq<T>, f: T -> bool): (r: seq<T>)
    ensures |r| <= |s|
    ensures forall x :: x in r <==> x in s && f(x)
    ensures forall i :: 0 <= i < |r| ==> f(r[i])
    ensures IsSubseq(r, s)
  {
    if s == [] then []
    else
      var r := Filter(Init(s), f);
      if f(Last(s)) then
        assert Init(r + [Last(s)]) == r;
        r + [Last(s)]
      else
        assert r != [] ==> f(r[|r| - 1]);
        r
  }

  lemma {:induction false} FilterAppend<T(!new)>(a: seq<T>, b: seq<T>, f: T -> bool)
    ensures Filter(a + b, f) == Filter(a, f) + Filter(b, f)
    decreases |b|
  {
    if b == [] {
      assert a + b == a;
    } else {
      var x, b' := Last(b), Init(b);
      var tail := if f(x) then [x] else [];
      assert a + b == (a + b') + [x];
      FilterSnoc(a + b', x, f);
      FilterSnoc(b', x, f);
      FilterAppend(a, b', f);
      AppendAssoc(Filter(a, f), Filter(b', f), tail);
    }
  }

  /** Filtering keeps every element when all of them pass. */
  lemma {:induction false} FilterAll<T(!new)>(s: seq<T>, f: T -> bool)
    requires forall x :: x in s ==> f(x)
    ensures Filter(s, f) == s
    decreases |s|
  {
    if s != [] {
      FilterAll(Init(s), f);
    }
  }

  /** Number of occurrences of `x` in `s`. */
  function Count<T(==,!new)>(s: seq<T>, x: T): (n: nat)
    ensures n <= |s|
    ensures n > 0 <==> x in s
  {
    if s == [] then 0
    else Count(Init(s), x) + (if Last(s) == x then 1 else 0)
  }

  predicate NoDup<T(==,!new)>(s: seq<T>) {
    forall i, j :: 0 <= i < j < |s| ==> s[i] != s[j]
  }

  lemma PrefixSnoc<T>(s: seq<T>, i: nat)
    requires i < |s|
    ensures s[..i + 1] == s[..i] + [s[i]]
  {
  }

  lemma NoDupSnoc<T(!new)>(s: seq<T>, x: T)
    requires NoDup(s) && x !in s
    ensures NoDup(s + [x])
  {
    var t := s + [x];
    forall i, j | 0 <= i < j < |t| ensures t[i] != t[j] {
      assert t[i] == s[i];
      if j == |s| {
        assert s[i] in s;
      } else {
        assert t[j] == s[j];
      }
    }
  }

  /** `Array.from(new Set(s))`: the distinct elements of `s` in first-seen order. */
  function Distinct<T(==,!new)>(s: seq<T>): (r: seq<T>)
    ensures NoDup(r)
    ensures forall x :: x in r <==> x in s
    ensures |r| <= |s|
  {
    if s == [] then []
    else
      var d := Distinct(Init(s));
      if Last(s) in d then d else d + [Last(s)]
  }

  /** The elements of `s` that do not occur in `a`, in order. */
  function Without<T(==,!new)>(s: seq<T>, a: seq<T>): (r: seq<T>)
    ensures forall x :: x in r <==> x in s && x !in a
  {
    if s == [] then []
    else Without(Init(s), a) + (if Last(s) in a then [] else [Last(s)])
  }

  /** `s.filter(y => y !== x)`. */
  function Remove<T(==,!new)>(s: seq<T>, x: T): (r: seq<T>)
    ensures forall y :: y in r <==> y in s && y != x
    ensures |r| == |s| - Count(s, x)
  {
    if s == [] then []
    else Remove(Init(s), x) + (if Last(s) == x then [] else [Last(s)])
  }

  /** A duplicate-free sequence is its own set of first occurrences. */
  lemma {:induction false} DistinctOfNoDup<T(!new)>(s: seq<T>)
    requires NoDup(s)
    ensures Distinct(s) == s
    decreases |s|
  {
    if s != [] {
      DistinctOfNoDup(Init(s));
    }
  }

  /** The first occurrences of `a + b` are those of `a`, followed by the first
      occurrences of the elements of `b` that `a` does not already hold. */
  lemma {:induction false} DistinctAppend<T(!new)>(a: seq<T>, b: seq<T>)
    ensures Distinct(a + b) == Distinct(a) + Distinct(Without(b, a))
    decreases |b|
  {
    if b == [] {
      assert a + b == a;
    } else {
      var x, b' := Last(b), Init(b);
      assert a + b == (a + b') + [x];
      var da, w := Distinct(a), Without(b', a);
      DistinctSnoc(a + b', x);
      DistinctAppend(a, b');
      WithoutSnoc(b', x, a);
      assert Distinct(a + b') == da + Distinct(w);
      if x in a {
        assert x in da + Distinct(w);
        assert Without(b, a) == w;
      } else {
        DistinctSnoc(w, x);
        assert Without(b, a) == w + [x];
        if x in w {
          assert x in da + Distinct(w);
          assert Distinct(w + [x]) == Distinct(w);
        } else {
          assert x !in da + Distinct(w);
          assert Distinct(a + b) == (da + Distinct(w)) + [x];
          assert Distinct(w + [x]) == Distinct(w) + [x];
          AppendAssoc(da, Distinct(w), [x]);
        }
      }
    }
  }

  lemma AppendAssoc<T>(p: seq<T>, q: seq<T>, r: seq<T>)
    ensures (p + q) + r == p + (q + r)
  {
  }

  lemma DistinctSnoc<T(!new)>(s: seq<T>, x: T)
    ensures Distinct(s + [x]) == if x in Distinct(s) then Distinct(s) else Distinct(s) + [x]
  {
    assert Init(s + [x]) == s;
  }

  lemma WithoutSnoc<T(!new)>(s: seq<T>, x: T, a: seq<T>)
    ensures Without(s + [x], a) == Without(s, a) + (if x in a then [] else [x])
  {
    assert Init(s + [x]) == s;
  }

  /** Removing an element that was just appended to a list without it gives the list back. */
  lemma {:induction false} RemoveAppended<T(!new)>(s: seq<T>, x: T)
    requires x !in s
    ensures Remove(s + [x], x) == s
  {
    assert Init(s + [x]) == s;
    RemoveAbsent(s, x);
  }

  lemma {:induction false} RemoveAbsent<T(!new)>(s: seq<T>, x: T)
    requires x !in s
    ensures Remove(s, x) == s
    decreases |s|
  {
    if s != [] {
      RemoveAbsent(Init(s), x);
    }
  }

  /** Removing all copies of a value keeps a duplicate-free list duplicate-free. */
  lemma {:induction false} RemoveNoDup<T(!new)>(s: seq<T>, x: T)
    requires NoDup(s)
    ensures NoDup(Remove(s, x))
    decreases |s|
  {
    if s != [] {
      RemoveNoDup(Init(s), x);
      assert Last(s) !in Init(s) by {
        forall i | 0 <= i < |s| - 1 ensures s[i] != Last(s) { }
      }
    }
  }

  /** `s.slice(0, n)`. */
  function Take<T>(s: seq<T>, n: nat): (r: seq<T>)
    ensures |r| <= n && |r| <= |s|
    ensures |r| == if |s| < n then |s| else n
    ensures forall i :: 0 <= i < |r| ==> r[i] == s[i]
  {
    if |s| <= n then s else s[..n]
  }

  /** Deleting an element that fails the test does not change the filtered view. */
  lemma FilterRemoveAt<T(!new)>(s: seq<T>, i: nat, f: T -> bool)
    requires i < |s| && !f(s[i])
    ensures Filter(s[..i] + s[i + 1..], f) == Filter(s, f)
  {
    var a, b := s[..i], s[i + 1..];
    assert s == (a + [s[i]]) + b;
    FilterAppend(a + [s[i]], b, f);
    FilterSnocFailing(a, s[i], f);
    FilterAppend(a, b, f);
  }

  /** Replacing an element that fails the test by another that fails it does not
      change the filtered view. */
  lemma FilterUpdateAt<T(!new)>(s: seq<T>, i: nat, y: T, f: T -> bool)
    requires i < |s| && !f(s[i]) && !f(y)
    ensures Filter(s[i := y], f) == Filter(s, f)
  {
    var t := s[i := y];
    assert t[..i] == s[..i] && t[i + 1..] == s[i + 1..];
    FilterRemoveAt(s, i, f);
    FilterRemoveAt(t, i, f);
  }

  /** Appending an element that fails the test does not change the filtered view. */
  lemma FilterSnocFailing<T(!new)>(s: seq<T>, y: T, f: T -> bool)
    requires !f(y)
    ensures Filter(s + [y], f) == Filter(s, f)
  {
    assert Init(s + [y]) == s;
  }

  /** Appending an element adds it to the filtered view exactly when it passes. */
  lemma FilterSnoc<T(!new)>(s: seq<T>, y: T, f: T -> bool)
    ensures Filter(s + [y], f) == Filter(s, f) + (if f(y) then [y] else [])
  {
    assert Init(s + [y]) == s && Last(s + [y]) == y;
  }

  /** Nothing passes the test, so nothing is kept. */
  lemma {:induction false} FilterNone<T(!new)>(s: seq<T>, f: T -> bool)
    requires forall x :: x in s ==> !f(x)
    ensures Filter(s, f) == []
    decreases |s|
  {
    if s != [] {
      FilterNone(Init(s), f);
    }
  }

  /** A test and its negation split a sequence: each element is kept by exactly
      one of the two filters. */
  lemma {:induction false} FilterComplement<T(!new)>(s: seq<T>, f: T -> bool, g: T -> bool)
    requires forall x :: g(x) == !f(x)
    ensures |Filter(s, f)| + |Filter(s, g)| == |s|
    decreases |s|
  {
    if s != [] {
      FilterComplement(Init(s), f, g);
    }
  }

  /** The index of the first element passing the test, or |s| when none does. */
  function FirstIndex<T>(s: seq<T>, f: T -> bool): (i: nat)
    ensures i <= |s|
    ensures i < |s| ==> f(s[i])
    ensures forall j :: 0 <= j < i ==> !f(s[j])
  {
    if s == [] then 0
    else if f(s[0]) then 0
    else 1 + FirstIndex(s[1..], f)
  }

  /** Prepending an element that fails the test does not change the filtered view. */
  lemma FilterConsFailing<T(!new)>(y: T, s: seq<T>, f: T -> bool)
    requires !f(y)
    ensures Filter([y] + s, f) == Filter(s, f)
  {
    FilterAppend([y], s, f);
    assert Init([y]) == [];
  }

  /** Filtering by a weaker test first does not change a stronger filter. */
  lemma {:induction false} FilterImplied<T(!new)>(s: seq<T>, f: T -> bool, g: T -> bool)
    requires forall x :: g(x) ==> f(x)
    ensures Filter(Filter(s, f), g) == Filter(s, g)
  {
    if s != [] {
      FilterImplied(Init(s), f, g);
      var x := Last(s);
      if f(x) {
        assert Filter(s, f) == Filter(Init(s), f) + [x];
        assert Init(Filter(s, f)) == Filter(Init(s), f);
      }
    }
  }

  /** The first passing index is determined by the two facts its contract states. */
  lemma {:induction false} FirstIndexUnique<T>(s: seq<T>, f: T -> bool, i: nat)
    requires i <= |s| && (i < |s| ==> f(s[i])) && forall j :: 0 <= j < i ==> !f(s[j])
    ensures FirstIndex(s, f) == i
  {
    if s != [] && i > 0 {
      FirstIndexUnique(s[1..], f, i - 1);
    }
  }
}
