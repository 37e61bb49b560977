/** The seen-set both stages keep behind a mutex. The only operation either
    stage performs on it is one atomic test-and-insert. */
module Dedup {

  /** Reports whether `key` was already present and returns the set with
      `key` added: the lock-protected critical section of scanner.go and
      resolver.go. */
  function TestAndInsert<K>(seen: set<K>, key: K): (r: (bool, set<K>))
    ensures r.0 <==> key in seen
    ensures r.1 == seen + {key}
  {
    (key in seen, seen + {key})
  }

  /** No element occurs twice. */
  predicate Distinct<T(==)>(s: seq<T>) {
    forall i, j :: 0 <= i < j < |s| ==> s[i] != s[j]
  }

  function Elems<T>(s: seq<T>): set<T> {
    set x | x in s
  }

  lemma ElemsCons<T>(x: T, s: seq<T>)
    ensures Elems([x] + s) == {x} + Elems(s)
  {
    assert forall y :: y in [x] + s <==> y == x || y in s;
  }

  lemma DistinctCons<T>(x: T, s: seq<T>)
    requires Distinct(s) && x !in s
    ensures Distinct([x] + s)
  {
    var xs := [x] + s;
    forall i, j | 0 <= i < j < |xs|
      ensures xs[i] != xs[j]
    {
      assert xs[j] == s[j - 1];
      if i > 0 {
        assert xs[i] == s[i - 1];
      }
    }
  }

  lemma DistinctTail<T>(s: seq<T>)
    requires Distinct(s) && s != []
    ensures Distinct(s[1..]) && s[0] !in s[1..]
  {
    var t := s[1..];
    forall i, j | 0 <= i < j < |t|
      ensures t[i] != t[j]
    {
      assert t[i] == s[i + 1] && t[j] == s[j + 1];
    }
    forall i | 0 <= i < |t|
      ensures t[i] != s[0]
    {
      assert t[i] == s[i + 1];
    }
  }
}
