/** Array `filter`, `.length` of a filter, first-occurrence de-duplication
    (the key order of a JavaScript object filled by a `reduce`) and the
    facts about them that the views rely on. */
module Seqs {

  /** `s.filter(p)`: the elements of `s` that satisfy `p`, in order. */
  function Filter<T>(s: seq<T>, p: T -> bool): (r: seq<T>)
    ensures |r| <= |s|
    decreases |s|
  {
    if s == [] then []
    else (if p(s[0]) then [s[0]] else []) + Filter(s[1..], p)
  }

  /** Filtering keeps exactly the elements that pass. */
  lemma {:induction false} FilterMembers<T>(s: seq<T>, p: T -> bool, x: T)
    ensures x in Filter(s, p) <==> x in s && p(x)
    decreases |s|
  {
    if s != [] {
      FilterMembers(s[1..], p, x);
      assert s == [s[0]] + s[1..];
    }
  }

  /** `a` is obtained from `b` by deleting elements (order is kept). */
  predicate IsSubsequence<T(==)>(a: seq<T>, b: seq<T>)
    decreases |b|
  {
    if a == [] then true
    else if b == [] then false
    else if a[0] == b[0] then IsSubsequence(a[1..], b[1..])
    else IsSubsequence(a, b[1..])
  }

  lemma {:induction false} FilterAppend<T>(a: seq<T>, b: seq<T>, p: T -> bool)
    ensures Filter(a + b, p) == Filter(a, p) + Filter(b, p)
    decreases |a|
  {
    if a == [] {
      assert a + b == b;
    } else {
      var head := if p(a[0]) then [a[0]] else [];
      assert (a + b)[0] == a[0] && (a + b)[1..] == a[1..] + b;
      assert Filter(a + b, p) == head + Filter(a[1..] + b, p);
      FilterAppend(a[1..], b, p);
      assert Filter(a, p) == head + Filter(a[1..], p);
    }
  }

  lemma FilterCons<T>(x: T, s: seq<T>, p: T -> bool)
    ensures Filter([x] + s, p) == (if p(x) then [x] else []) + Filter(s, p)
  {
    assert ([x] + s)[1..] == s;
  }

  /** Filtering the last element onto a prefix: the step of a left-to-right scan. */
  lemma FilterSnoc<T>(s: seq<T>, i: nat, p: T -> bool)
    requires i < |s|
    ensures Filter(s[..i + 1], p) == Filter(s[..i], p) + (if p(s[i]) then [s[i]] else [])
  {
    assert s[..i + 1] == s[..i] + [s[i]];
    FilterAppend(s[..i], [s[i]], p);
  }

  /** The positions of `s` whose element passes `p`. */
  function IndicesWhere<T>(s: seq<T>, p: T -> bool): set<nat>
  {
    set i: nat | i < |s| && p(s[i])
  }

  /** A filter keeps one element per passing position: its length counts
      those positions. */
  lemma {:induction false} FilterCountIsIndexCount<T>(s: seq<T>, p: T -> bool)
    ensures |Filter(s, p)| == |IndicesWhere(s, p)|
    decreases |s|
  {
    if s != [] {
      var n := |s| - 1;
      FilterCountIsIndexCount(s[..n], p);
      FilterSnoc(s, n, p);
      assert s[..n + 1] == s;
      IndicesSnoc(s, n, p);
    }
  }

  /** One more element adds its position exactly when it passes. */
  lemma IndicesSnoc<T>(s: seq<T>, n: nat, p: T -> bool)
    requires n < |s|
    ensures n !in IndicesWhere(s[..n], p)
    ensures IndicesWhere(s[..n + 1], p) == IndicesWhere(s[..n], p) + (if p(s[n]) then {n} else {})
  {
    var a, b := IndicesWhere(s[..n + 1], p), IndicesWhere(s[..n], p) + (if p(s[n]) then {n} else {});
    forall i | i in a
      ensures i in b
    {
      assert s[..n + 1][i] == s[i];
    }
    forall i | i in b
      ensures i in a
    {
      assert i <= n;
      assert s[..n + 1][i] == s[i];
    }
  }

  lemma {:induction false} FilterIsSubsequence<T>(s: seq<T>, p: T -> bool)
    ensures IsSubsequence(Filter(s, p), s)
    decreases |s|
  {
    if s != [] {
      FilterIsSubsequence(s[1..], p);
      if p(s[0]) {
        assert Filter(s, p) == [s[0]] + Filter(s[1..], p);
      } else {
        assert Filter(s, p) == Filter(s[1..], p);
        SubsequenceOfTail(Filter(s[1..], p), s);
      }
    }
  }

  lemma {:induction false} SubsequenceOfTail<T>(a: seq<T>, b: seq<T>)
    requires b != [] && IsSubsequence(a, b[1..])
    ensures IsSubsequence(a, b)
    decreases |b|, |a|
  {
    if a != [] && a[0] == b[0] {
      // a[1..] is a subsequence of b[1..] because a is
      SubsequenceDropHead(a, b[1..]);
    }
  }

  lemma {:induction false} SubsequenceDropHead<T>(a: seq<T>, b: seq<T>)
    requires a != [] && IsSubsequence(a, b)
    ensures IsSubsequence(a[1..], b)
    decreases |b|, |a|
  {
    if b == [] {
    } else if a[0] == b[0] {
      if a[1..] != [] {
        SubsequenceOfTail(a[1..], b);
      }
    } else {
      SubsequenceDropHead(a, b[1..]);
      if a[1..] != [] {
        SubsequenceOfTail(a[1..], b);
      }
    }
  }

  /** Every element kept by `p` passes it, so filtering again keeps them all. */
  lemma {:induction false} FilterIdempotent<T>(s: seq<T>, p: T -> bool)
    ensures Filter(Filter(s, p), p) == Filter(s, p)
  {
    FilterAllPass(s, p);
    FilterKeepsAll(Filter(s, p), p);
  }

  lemma {:induction false} FilterAllPass<T>(s: seq<T>, p: T -> bool)
    ensures forall i :: 0 <= i < |Filter(s, p)| ==> p(Filter(s, p)[i])
    decreases |s|
  {
    if s != [] {
      FilterAllPass(s[1..], p);
    }
  }

  lemma {:induction false} FilterKeepsAll<T>(s: seq<T>, p: T -> bool)
    requires forall i :: 0 <= i < |s| ==> p(s[i])
    ensures Filter(s, p) == s
    decreases |s|
  {
    if s != [] {
      FilterKeepsAll(s[1..], p);
    }
  }

  /** Two predicates that never hold together count at most `|s|` elements between them. */
  lemma {:induction false} DisjointCounts<T>(s: seq<T>, p: T -> bool, q: T -> bool)
    requires forall x :: !(p(x) && q(x))
    ensures |Filter(s, p)| + |Filter(s, q)| <= |s|
    decreases |s|
  {
    if s != [] {
      DisjointCounts(s[1..], p, q);
    }
  }

  /** A predicate that implies another counts no more elements. */
  lemma {:induction false} ImpliedCount<T>(s: seq<T>, p: T -> bool, q: T -> bool)
    requires forall x :: p(x) ==> q(x)
    ensures |Filter(s, p)| <= |Filter(s, q)|
    decreases |s|
  {
    if s != [] {
      ImpliedCount(s[1..], p, q);
    }
  }

  /** Three predicates that never hold two at a time and each imply `a` count no more than `a` does. */
  lemma {:induction false} DisjointCounts3<T>(s: seq<T>, p: T -> bool, q: T -> bool, r: T -> bool, a: T -> bool)
    requires forall x :: !(p(x) && q(x)) && !(p(x) && r(x)) && !(q(x) && r(x))
    requires forall x :: (p(x) || q(x) || r(x)) ==> a(x)
    ensures |Filter(s, p)| + |Filter(s, q)| + |Filter(s, r)| <= |Filter(s, a)|
    decreases |s|
  {
    if s != [] {
      DisjointCounts3(s[1..], p, q, r, a);
    }
  }

  /** Filtering by `p` and then by `q` is filtering by their conjunction. */
  lemma {:induction false} FilterThenFilter<T>(s: seq<T>, p: T -> bool, q: T -> bool, r: T -> bool)
    requires forall x :: r(x) == (p(x) && q(x))
    ensures Filter(Filter(s, p), q) == Filter(s, r)
    decreases |s|
  {
    if s != [] {
      FilterThenFilter(s[1..], p, q, r);
      FilterCons(s[0], s[1..], p);
      FilterCons(s[0], s[1..], r);
      assert s == [s[0]] + s[1..];
      assert r(s[0]) == (p(s[0]) && q(s[0]));
      if p(s[0]) {
        FilterCons(s[0], Filter(s[1..], p), q);
      } else {
        assert Filter(s, p) == Filter(s[1..], p);
        assert Filter(s, r) == Filter(s[1..], r);
      }
    }
  }

  /** Predicates that agree on every element filter the same way. */
  lemma {:induction false} FilterExtensional<T>(s: seq<T>, p: T -> bool, q: T -> bool)
    requires forall x :: x in s ==> p(x) == q(x)
    ensures Filter(s, p) == Filter(s, q)
    decreases |s|
  {
    if s != [] {
      FilterExtensional(s[1..], p, q);
    }
  }

  /** The distinct elements of `s`, each at the place it first occurs: the key
      order of a JavaScript object whose keys are inserted while scanning `s`.
      What it holds is stated by `DistinctMembers`. */
  function Distinct<T(==)>(s: seq<T>): (r: seq<T>)
    ensures |r| <= |s|
    decreases |s|
  {
    if s == [] then []
    else
      var d := Distinct(s[..|s| - 1]);
      if s[|s| - 1] in d then d else d + [s[|s| - 1]]
  }

  /** Each element of `s` appears in `Distinct(s)` exactly once, and nothing else does. */
  lemma {:induction false} DistinctMembers<T>(s: seq<T>)
    ensures forall i :: 0 <= i < |Distinct(s)| ==> Distinct(s)[i] in s
    ensures forall i :: 0 <= i < |s| ==> s[i] in Distinct(s)
    ensures NoDuplicates(Distinct(s))
    decreases |s|
  {
    if s != [] {
      var p := s[..|s| - 1];
      DistinctMembers(p);
      assert s == p + [s[|s| - 1]];
      forall i | 0 <= i < |s|
        ensures s[i] in Distinct(s)
      {
        if i < |s| - 1 {
          assert s[i] == p[i];
        }
      }
    }
  }

  predicate NoDuplicates<T(==)>(s: seq<T>)
  {
    forall i, j :: 0 <= i < j < |s| ==> s[i] != s[j]
  }

  /** A count of `filter` does not depend on the order of the elements. */
  lemma {:induction false} FilterCountPermutation<T>(s: seq<T>, t: seq<T>, p: T -> bool)
    requires multiset(s) == multiset(t)
    ensures |Filter(s, p)| == |Filter(t, p)|
    decreases |s|
  {
    if s == [] {
      assert |t| == |multiset(t)| == 0;
    } else {
      var x := s[0];
      assert x in multiset(t);
      var j :| 0 <= j < |t| && t[j] == x;
      RemoveMatching(s, t, j);
      FilterCountPermutation(s[1..], t[..j] + t[j + 1..], p);
      FilterCountRemove(t, j, p);
      FilterCons(x, s[1..], p);
    }
  }

  /** Taking the head of `s` and a matching element out of `t` keeps them permutations. */
  lemma RemoveMatching<T>(s: seq<T>, t: seq<T>, j: nat)
    requires multiset(s) == multiset(t) && s != [] && j < |t| && t[j] == s[0]
    ensures multiset(s[1..]) == multiset(t[..j] + t[j + 1..])
  {
    var x := s[0];
    var rest := t[..j] + t[j + 1..];
    assert t == t[..j] + [x] + t[j + 1..];
    assert s == [x] + s[1..];
    assert multiset(s) == multiset{x} + multiset(s[1..]);
    assert multiset(t) == multiset(t[..j]) + multiset{x} + multiset(t[j + 1..]);
    assert multiset(rest) == multiset(t[..j]) + multiset(t[j + 1..]);
    forall y
      ensures multiset(s[1..])[y] == multiset(rest)[y]
    {
      assert multiset(s)[y] == multiset(t)[y];
    }
  }


  /** Removing the element at `j` loses one kept element exactly when it passes. */
  lemma FilterCountRemove<T>(t: seq<T>, j: nat, p: T -> bool)
    requires j < |t|
    ensures |Filter(t, p)| == |Filter(t[..j] + t[j + 1..], p)| + (if p(t[j]) then 1 else 0)
  {
    assert t == (t[..j] + [t[j]]) + t[j + 1..];
    FilterAppend(t[..j] + [t[j]], t[j + 1..], p);
    FilterAppend(t[..j], [t[j]], p);
    FilterAppend(t[..j], t[j + 1..], p);
  }


  // ---- grouping by a key (a `reduce` into an object keyed by `key(x)`) ----

  /** `s.map(f)`. */
  function Map<T, K>(s: seq<T>, f: T -> K): (r: seq<K>)
    ensures |r| == |s|
    ensures forall i :: 0 <= i < |s| ==> r[i] == f(s[i])
  {
    seq(|s|, i requires 0 <= i < |s| => f(s[i]))
  }

  /** Appending one element to the second part of a concatenation. */
  lemma AppendOne<T>(a: seq<T>, b: seq<T>, x: T)
    ensures a + (b + [x]) == a + b + [x]
  {
  }

  lemma MapAppend<T, K>(a: seq<T>, b: seq<T>, f: T -> K)
    ensures Map(a + b, f) == Map(a, f) + Map(b, f)
  {
  }

  /** Filtering and mapping a prefix one element longer: the step of a scan that collects images. */
  lemma MapFilterSnoc<T, K>(s: seq<T>, i: nat, p: T -> bool, f: T -> K)
    requires i < |s|
    ensures Map(Filter(s[..i + 1], p), f) == Map(Filter(s[..i], p), f) + (if p(s[i]) then [f(s[i])] else [])
  {
    FilterSnoc(s, i, p);
    MapAppend(Filter(s[..i], p), if p(s[i]) then [s[i]] else [], f);
  }

  /** Counting a mapped sequence by `p` counts the original by `p` after `f`. */
  lemma {:induction false} FilterMapCount<T, K>(s: seq<T>, f: T -> K, p: K -> bool, q: T -> bool)
    requires forall x :: q(x) == p(f(x))
    ensures |Filter(Map(s, f), p)| == |Filter(s, q)|
    decreases |s|
  {
    if s != [] {
      FilterMapCount(s[1..], f, p, q);
      assert Map(s, f)[1..] == Map(s[1..], f);
    }
  }

  function KeyIs<T, K(==)>(key: T -> K, k: K): T -> bool
  {
    (x: T) => key(x) == k
  }

  /** Sum over `keys` of the number of elements of `s` with each key. */
  function GroupTotal<T, K(==)>(keys: seq<K>, s: seq<T>, key: T -> K): nat
    decreases |keys|
  {
    if keys == [] then 0 else |Filter(s, KeyIs(key, keys[0]))| + GroupTotal(keys[1..], s, key)
  }

  lemma {:induction false} NoneKeptBy<T>(s: seq<T>, p: T -> bool)
    requires forall i :: 0 <= i < |s| ==> !p(s[i])
    ensures Filter(s, p) == []
    decreases |s|
  {
    if s != [] {
      NoneKeptBy(s[1..], p);
    }
  }

  /** The keys seen after one more element: its key is appended if it is new. */
  lemma DistinctKeysSnoc<T, K>(s: seq<T>, i: nat, key: T -> K)
    requires i < |s|
    ensures var d := Distinct(Map(s[..i], key));
      Distinct(Map(s[..i + 1], key)) == if key(s[i]) in d then d else d + [key(s[i])]
  {
    var m := Map(s[..i + 1], key);
    assert m[..|m| - 1] == Map(s[..i], key);
  }

  /** A key not yet seen has no elements. */
  lemma {:induction false} NoneWithKey<T, K>(s: seq<T>, key: T -> K, k: K)
    requires k !in Distinct(Map(s, key))
    ensures Filter(s, KeyIs(key, k)) == []
  {
    DistinctMembers(Map(s, key));
    forall i | 0 <= i < |s|
      ensures key(s[i]) != k
    {
      assert Map(s, key)[i] in Distinct(Map(s, key));
    }
    NoneKeptBy(s, KeyIs(key, k));
  }

  lemma {:induction false} GroupTotalAppend<T, K>(keys: seq<K>, k: K, s: seq<T>, key: T -> K)
    ensures GroupTotal(keys + [k], s, key) == GroupTotal(keys, s, key) + |Filter(s, KeyIs(key, k))|
    decreases |keys|
  {
    if keys != [] {
      assert (keys + [k])[1..] == keys[1..] + [k];
      GroupTotalAppend(keys[1..], k, s, key);
    }
  }

  /** One more element adds one to its own key's count and nothing to the others. */
  lemma {:induction false} GroupTotalSnoc<T, K>(keys: seq<K>, s: seq<T>, x: T, key: T -> K)
    requires NoDuplicates(keys)
    ensures GroupTotal(keys, s + [x], key) == GroupTotal(keys, s, key) + (if key(x) in keys then 1 else 0)
    decreases |keys|
  {
    if keys != [] {
      GroupTotalSnoc(keys[1..], s, x, key);
      FilterAppend(s, [x], KeyIs(key, keys[0]));
      assert key(x) in keys <==> key(x) == keys[0] || key(x) in keys[1..];
      assert keys[0] !in keys[1..];
    }
  }

  /** Every element lands in exactly one group: over the distinct keys, the
      group sizes sum to the length. */
  lemma {:induction false} GroupsCoverAll<T, K>(s: seq<T>, key: T -> K)
    ensures GroupTotal(Distinct(Map(s, key)), s, key) == |s|
    decreases |s|
  {
    if s != [] {
      var n := |s| - 1;
      var prefix := s[..n];
      var x := s[n];
      var keys := Distinct(Map(prefix, key));
      assert s == prefix + [x];
      assert Map(s, key)[..n] == Map(prefix, key);
      GroupsCoverAll(prefix, key);
      DistinctMembers(Map(prefix, key));
      GroupTotalSnoc(keys, prefix, x, key);
      if key(x) !in keys {
        GroupTotalAppend(keys, key(x), s, key);
        NoneWithKey(prefix, key, key(x));
        FilterAppend(prefix, [x], KeyIs(key, key(x)));
      }
    }
  }

  lemma {:induction false} NoDuplicatesCount<T>(a: seq<T>, x: T)
    requires NoDuplicates(a)
    ensures multiset(a)[x] <= 1
    decreases |a|
  {
    if a != [] {
      NoDuplicatesCount(a[1..], x);
      assert a == [a[0]] + a[1..];
      if a[0] == x {
        assert x !in a[1..];
      }
    }
  }

  /** Reordering keeps a list duplicate-free. */
  lemma NoDuplicatesPermutation<T>(a: seq<T>, b: seq<T>)
    requires NoDuplicates(a) && multiset(a) == multiset(b)
    ensures NoDuplicates(b)
  {
    forall i, j | 0 <= i < j < |b|
      ensures b[i] != b[j]
    {
      if b[i] == b[j] {
        assert b == b[..j] + [b[j]] + b[j + 1..];
        assert b[i] in b[..j];
        assert multiset(b)[b[i]] >= 2;
        NoDuplicatesCount(a, b[i]);
        assert false;
      }
    }
  }
}
