/** Folding a sequence with steps whose order does not matter. */
module Folds {
  import opened Common

  function Fold<X, A>(op: (X, A) -> A, unit: A, s: seq<X>): A {
    if s == [] then unit else op(Last(s), Fold(op, unit, s[..|s| - 1]))
  }

  ghost predicate Commutes<X(!new), A(!new)>(op: (X, A) -> A) {
    forall x, y, a :: op(x, op(y, a)) == op(y, op(x, a))
  }

  function Without<X>(s: seq<X>, i: nat): seq<X>
    requires i < |s|
  {
    s[..i] + s[i + 1..]
  }

  lemma WithoutMultiset<X>(s: seq<X>, i: nat)
    requires i < |s|
    ensures multiset(s) == multiset(Without(s, i)) + multiset{s[i]}
  {
    assert s == s[..i] + [s[i]] + s[i + 1..];
  }

  /** Any element may be folded in last. */
  lemma {:induction false} FoldLast<X(!new), A(!new)>(op: (X, A) -> A, unit: A, s: seq<X>, i: nat)
    requires Commutes(op) && i < |s|
    ensures Fold(op, unit, s) == op(s[i], Fold(op, unit, Without(s, i)))
  {
    var init := s[..|s| - 1];
    if i == |s| - 1 {
      assert Without(s, i) == init;
    } else {
      FoldLast(op, unit, init, i);
      assert Without(s, i)[..|s| - 2] == Without(init, i);
      assert Last(Without(s, i)) == Last(s);
    }
  }

  lemma {:induction false} FoldPermutes<X(!new), A(!new)>(op: (X, A) -> A, unit: A, s: seq<X>, t: seq<X>)
    requires Commutes(op) && multiset(s) == multiset(t)
    ensures Fold(op, unit, s) == Fold(op, unit, t)
  {
    if s == [] {
      assert |multiset(t)| == 0;
    } else {
      var x, init := Last(s), s[..|s| - 1];
      assert s == init + [x];
      assert x in multiset(s) && x in t;
      var i: nat :| i < |t| && t[i] == x;
      WithoutMultiset(t, i);
      assert multiset(init) == multiset(s) - multiset{x};
      assert multiset(Without(t, i)) == multiset(t) - multiset{x};
      FoldPermutes(op, unit, init, Without(t, i));
      FoldLast(op, unit, t, i);
    }
  }

  ghost predicate NoRepeats<X(!new)>(s: seq<X>) {
    forall i, j | 0 <= i < j < |s| :: s[i] != s[j]
  }

  /** Two listings of one set without repetition differ only in order. */
  ghost predicate Lists<X(!new)>(s: seq<X>, elements: set<X>) {
    (forall x :: x in s <==> x in elements) && NoRepeats(s)
  }

  lemma {:induction false} ListsMultiset<X(!new)>(s: seq<X>, elements: set<X>)
    requires Lists(s, elements)
    ensures multiset(s) == multiset(elements)
  {
    if s == [] {
      assert forall x :: x !in elements;
    } else {
      var x, init := Last(s), s[..|s| - 1];
      assert s == init + [x];
      assert forall y :: y in s <==> y in init || y == x;
      assert x !in init;
      ListsMultiset(init, elements - {x});
      assert elements == (elements - {x}) + {x};
    }
  }
}
