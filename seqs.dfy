/** Sequence operations shared by several components: removing every
    occurrence of a value (`Array.prototype.filter(v => v !== x)` and
    Firestore's `arrayRemove`) and the absence of duplicates. */
module Seqs {

  /** No element occurs twice. */
  predicate NoDuplicates<T(==)>(s: seq<T>) {
    forall i, j :: 0 <= i < j < |s| ==> s[i] != s[j]
  }

  /** The elements of `s` other than `x`, in their original order. */
  function Without<T(==)>(s: seq<T>, x: T): (r: seq<T>)
    ensures forall i :: 0 <= i < |r| ==> r[i] in s && r[i] != x
    ensures forall i :: 0 <= i < |s| && s[i] != x ==> s[i] in r
    ensures |r| <= |s|
  {
    if s == [] then []
    else (if s[0] == x then [] else [s[0]]) + Without(s[1..], x)
  }

  /** The count of `y` in a non-empty sequence splits at its head. */
  lemma HeadCount<T>(s: seq<T>, y: T)
    requires s != []
    ensures multiset(s)[y] == (if s[0] == y then 1 else 0) + multiset(s[1..])[y]
  {
    assert s == [s[0]] + s[1..];
  }

  /** `Array.prototype.filter`: the elements `keep` accepts, in order. */
  function Filter<T>(s: seq<T>, keep: T -> bool): (r: seq<T>)
    ensures |r| <= |s|
    ensures forall i :: 0 <= i < |r| ==> keep(r[i])
  {
    if s == [] then []
    else (if keep(s[0]) then [s[0]] else []) + Filter(s[1..], keep)
  }

  /** Filtering keeps exactly the accepted elements. */
  lemma {:induction false} FilterMembers<T>(s: seq<T>, keep: T -> bool)
    ensures forall x :: x in Filter(s, keep) <==> x in s && keep(x)
  {
    if s != [] {
      FilterMembers(s[1..], keep);
      assert s == [s[0]] + s[1..];
    }
  }

  /** Filtering distributes over concatenation. */
  lemma {:induction false} FilterAppend<T>(a: seq<T>, b: seq<T>, keep: T -> bool)
    ensures Filter(a + b, keep) == Filter(a, keep) + Filter(b, keep)
  {
    if a == [] {
      assert a + b == b;
    } else {
      assert (a + b)[0] == a[0] && (a + b)[1..] == a[1..] + b;
      FilterAppend(a[1..], b, keep);
    }
  }

  /** Splicing `x` in after elements that are never kept together with it
      puts `x` first among what is kept. */
  lemma {:induction false} FilterSpliceFront<T>(lo: seq<T>, x: T, hi: seq<T>, keep: T -> bool)
    requires forall k :: 0 <= k < |lo| ==> !(keep(x) && keep(lo[k]))
    ensures Filter(lo + [x] + hi, keep) == (if keep(x) then [x] else []) + Filter(lo + hi, keep)
  {
    var t := lo + [x] + hi;
    if lo == [] {
      assert t == [x] + hi && t[0] == x && t[1..] == hi;
      assert lo + hi == hi;
    } else {
      var u := lo + hi;
      var lo' := lo[1..];
      FilterSpliceFront(lo', x, hi, keep);
      assert t[0] == lo[0] && t[1..] == lo' + [x] + hi;
      assert u[0] == lo[0] && u[1..] == lo' + hi;
      var a := if keep(lo[0]) then [lo[0]] else [];
      var b := if keep(x) then [x] else [];
      assert Filter(t, keep) == a + (b + Filter(lo' + hi, keep));
      assert Filter(u, keep) == a + Filter(lo' + hi, keep);
      assert a == [] || b == [];
    }
  }

  /** Nothing is kept from a sequence `keep` rejects throughout. */
  lemma {:induction false} FilterNone<T>(a: seq<T>, keep: T -> bool)
    requires forall k :: 0 <= k < |a| ==> !keep(a[k])
    ensures Filter(a, keep) == []
  {
    if a != [] {
      FilterNone(a[1..], keep);
    }
  }

  /** A sequence is its prefix followed by the rest. */
  lemma TakeDrop<T>(s: seq<T>, p: nat)
    requires p <= |s|
    ensures s[..p] + s[p..] == s
  {
  }

  /** A non-empty sequence holds its head and its tail. */
  lemma HeadMultiset<T>(s: seq<T>)
    requires s != []
    ensures multiset(s) == multiset{s[0]} + multiset(s[1..])
  {
    assert s == [s[0]] + s[1..];
  }

  /** Removing `x` takes its count to zero and leaves the count of every
      other value alone. */
  lemma {:induction false} WithoutCount<T>(s: seq<T>, x: T, y: T)
    ensures multiset(Without(s, x))[y] == if y == x then 0 else multiset(s)[y]
  {
    if s != [] {
      var r := Without(s, x);
      WithoutCount(s[1..], x, y);
      HeadCount(s, y);
      if s[0] == x {
        assert r == Without(s[1..], x);
      } else {
        assert r[0] == s[0] && r[1..] == Without(s[1..], x);
        HeadCount(r, y);
      }
    }
  }

  /** Every occurrence of `x` goes; every other element stays as many
      times as it occurred. */
  lemma WithoutCounts<T>(s: seq<T>, x: T)
    ensures multiset(Without(s, x)) == multiset(s)[x := 0]
  {
    forall y
      ensures multiset(Without(s, x))[y] == multiset(s)[x := 0][y]
    {
      WithoutCount(s, x, y);
    }
  }

  /** Removal works element by element, so what is kept keeps its order:
      removing from a concatenation concatenates the removals. */
  lemma {:induction false} WithoutAppend<T>(s: seq<T>, t: seq<T>, x: T)
    ensures Without(s + t, x) == Without(s, x) + Without(t, x)
  {
    if s == [] {
      assert s + t == t;
    } else {
      var head := if s[0] == x then [] else [s[0]];
      assert (s + t)[0] == s[0] && (s + t)[1..] == s[1..] + t;
      assert Without(s + t, x) == head + Without(s[1..] + t, x);
      WithoutAppend(s[1..], t, x);
    }
  }

  /** A sequence that does not hold `x` is left as it is. */
  lemma {:induction false} WithoutAbsent<T>(s: seq<T>, x: T)
    requires x !in s
    ensures Without(s, x) == s
  {
    if s != [] {
      WithoutAbsent(s[1..], x);
      assert s == [s[0]] + s[1..];
    }
  }

  /** Removal never introduces a duplicate. */
  lemma {:induction false} WithoutNoDuplicates<T>(s: seq<T>, x: T)
    requires NoDuplicates(s)
    ensures NoDuplicates(Without(s, x))
  {
    if s != [] {
      var t := Without(s[1..], x);
      WithoutNoDuplicates(s[1..], x);
      if s[0] != x {
        assert s[0] !in s[1..];
        assert s[0] !in t;
        assert Without(s, x) == [s[0]] + t;
      }
    }
  }
}
