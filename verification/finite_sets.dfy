/** Sizes of finite sets and of lists without repetition. */
module FiniteSets {

  predicate Distinct<T(==)>(s: seq<T>) {
    forall i, k :: 0 <= i < k < |s| ==> s[i] != s[k]
  }

  /** `s` lists the members of `keys`, each once. */
  ghost predicate Enumerates<T(!new)>(s: seq<T>, keys: set<T>) {
    Distinct(s) && forall x :: x in s <==> x in keys
  }

  /** The numbers below `n`. */
  function UpTo(n: nat): (s: set<nat>)
    ensures |s| == n && forall k: nat :: k in s <==> k < n
  {
    if n == 0 then {} else UpTo(n - 1) + {n - 1}
  }

  function Members<T(==)>(s: seq<T>): set<T> { set x | x in s }

  lemma MembersLast<T>(s: seq<T>)
    requires s != []
    ensures Members(s) == Members(s[..|s| - 1]) + {s[|s| - 1]}
    ensures Distinct(s) <==> Distinct(s[..|s| - 1]) && s[|s| - 1] !in Members(s[..|s| - 1])
  {
  }

  /** A list has at most as many members as it is long, and as many exactly if it has no
      repetition. */
  lemma {:induction false} DistinctExactly<T>(s: seq<T>)
    ensures |Members(s)| <= |s| && (|Members(s)| == |s| <==> Distinct(s))
  {
    if s == [] {
      assert Members(s) == {};
    } else {
      var init, x := s[..|s| - 1], s[|s| - 1];
      DistinctExactly(init);
      MembersLast(s);
      hide Members;
      assert x in Members(init) ==> Members(init) + {x} == Members(init);
    }
  }

  lemma {:induction false} SubsetSize<T>(a: set<T>, b: set<T>)
    requires a <= b
    ensures |a| <= |b| && (|a| == |b| ==> a == b)
  {
    if x :| x in a {
      SubsetSize(a - {x}, b - {x});
      assert a == a - {x} + {x} && b == b - {x} + {x};
    } else {
      assert a == {};
    }
  }

  /** A list without repetition of members of `b` is no longer than `b` is large. */
  lemma DistinctAtMost<T>(s: seq<T>, b: set<T>)
    requires Distinct(s) && forall x :: x in s ==> x in b
    ensures |s| <= |b| && (|s| == |b| <==> forall x :: x in b ==> x in s)
  {
    DistinctExactly(s);
    assert Members(s) <= b;
    SubsetSize(Members(s), b);
    if |s| == |b| {
      assert forall x :: x in b ==> x in Members(s);
    }
    if forall x :: x in b ==> x in s {
      assert Members(s) == b;
    }
  }

  /** Some order in which a set can be walked. */
  ghost function AnyOrder<T(!new)>(keys: set<T>): (order: seq<T>)
    ensures Enumerates(order, keys)
  {
    if keys == {} then [] else
      var k :| k in keys;
      [k] + AnyOrder(keys - {k})
  }
}
