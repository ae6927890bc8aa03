/** Stable sorting by a key of reals, compared component by component, the way the ranking comparators do. */
module Ranking {
  import opened Common

  /** Comes before: smaller at the first component that differs. */
  predicate Precedes(left: seq<real>, right: seq<real>) {
    right != [] && (left == [] || left[0] < right[0] || (left[0] == right[0] && Precedes(left[1..], right[1..])))
  }

  /** A comparator that falls through to the next difference when one is zero. */
  function FirstNonZero(differences: seq<real>): real {
    if differences == [] then 0.0
    else if differences[0] != 0.0 then differences[0]
    else FirstNonZero(differences[1..])
  }

  function Differences(left: seq<real>, right: seq<real>): seq<real>
    requires |left| == |right|
  {
    seq(|left|, i requires 0 <= i < |left| => left[i] - right[i])
  }

  /** Falling through the differences is comparing component by component. */
  lemma {:induction false} FallThrough(left: seq<real>, right: seq<real>)
    requires |left| == |right|
    ensures FirstNonZero(Differences(left, right)) < 0.0 <==> Precedes(left, right)
    ensures FirstNonZero(Differences(left, right)) > 0.0 <==> Precedes(right, left)
  {
    if left != [] {
      FallThrough(left[1..], right[1..]);
      assert Differences(left, right)[1..] == Differences(left[1..], right[1..]);
    }
  }

  lemma {:induction false} PrecedesTransitive(a: seq<real>, b: seq<real>, c: seq<real>)
    ensures Precedes(a, b) && Precedes(b, c) ==> Precedes(a, c)
    ensures !Precedes(b, a) && !Precedes(c, b) ==> !Precedes(c, a)
  {
    if a != [] && b != [] && c != [] {
      PrecedesTransitive(a[1..], b[1..], c[1..]);
    }
  }

  lemma {:induction false} PrecedesAsymmetric(a: seq<real>, b: seq<real>)
    ensures Precedes(a, b) ==> !Precedes(b, a)
  {
    if a != [] && b != [] {
      PrecedesAsymmetric(a[1..], b[1..]);
    }
  }

  type Key<!X> = X -> seq<real>

  /** Puts an element behind everything that does not come after it. */
  function Place<X>(key: Key<X>, x: X, ranked: seq<X>): seq<X> {
    if ranked == [] then [x]
    else if Precedes(key(x), key(Last(ranked))) then Place(key, x, ranked[..|ranked| - 1]) + [Last(ranked)]
    else ranked + [x]
  }

  function StableSort<X>(key: Key<X>, s: seq<X>): seq<X> {
    if s == [] then [] else Place(key, Last(s), StableSort(key, s[..|s| - 1]))
  }

  predicate Ranked<X>(key: Key<X>, s: seq<X>) {
    forall i, j | 0 <= i < j < |s| :: !Precedes(key(s[j]), key(s[i]))
  }

  lemma {:induction false} PlaceKeeps<X>(key: Key<X>, x: X, ranked: seq<X>)
    ensures multiset(Place(key, x, ranked)) == multiset(ranked) + multiset{x} && |Place(key, x, ranked)| == |ranked| + 1
  {
    if ranked != [] {
      PlaceKeeps(key, x, ranked[..|ranked| - 1]);
      assert ranked == ranked[..|ranked| - 1] + [Last(ranked)];
    }
  }

  lemma {:induction false} PlaceRanks<X>(key: Key<X>, x: X, ranked: seq<X>)
    requires Ranked(key, ranked)
    ensures Ranked(key, Place(key, x, ranked))
    ensures forall y <- Place(key, x, ranked) :: y == x || y in ranked
  {
    if ranked != [] {
      var init, last := ranked[..|ranked| - 1], Last(ranked);
      if Precedes(key(x), key(last)) {
        PlaceRanks(key, x, init);
        var placed := Place(key, x, init);
        PrecedesAsymmetric(key(x), key(last));
        forall i | 0 <= i < |placed| ensures !Precedes(key(last), key(placed[i])) {
          assert placed[i] == x || placed[i] in init;
        }
      } else {
        forall i | 0 <= i < |ranked| ensures !Precedes(key(x), key(ranked[i])) {
          PrecedesTransitive(key(ranked[i]), key(last), key(x));
        }
      }
    }
  }

  lemma {:induction false} StableSortRanks<X>(key: Key<X>, s: seq<X>)
    ensures Ranked(key, StableSort(key, s)) && multiset(StableSort(key, s)) == multiset(s) &&
            |StableSort(key, s)| == |s|
  {
    if s != [] {
      var init := s[..|s| - 1];
      StableSortRanks(key, init);
      PlaceRanks(key, Last(s), StableSort(key, init));
      PlaceKeeps(key, Last(s), StableSort(key, init));
      assert s == init + [Last(s)];
    }
  }

  /** The first of the sorted elements: nothing in the list comes before it. */
  lemma FirstIsLeast<X>(key: Key<X>, s: seq<X>)
    requires s != []
    ensures StableSort(key, s) != [] && StableSort(key, s)[0] in s
    ensures forall x <- s :: !Precedes(key(x), key(StableSort(key, s)[0]))
  {
    StableSortRanks(key, s);
    var ranked := StableSort(key, s);
    assert ranked[0] in multiset(ranked);
    forall x <- s ensures !Precedes(key(x), key(ranked[0])) {
      assert x in multiset(s) && x in ranked;
      var i :| 0 <= i < |ranked| && ranked[i] == x;
      if i == 0 {
        PrecedesAsymmetric(key(x), key(x));
      }
    }
  }

  /** Elements that tie with the first come after it in the list they were sorted from. */
  lemma {:induction false} FirstIsEarliest<X>(key: Key<X>, s: seq<X>)
    requires s != []
    ensures StableSort(key, s) != []
    ensures exists i | 0 <= i < |s| ::
              s[i] == StableSort(key, s)[0] && forall j | 0 <= j < i :: Precedes(key(s[i]), key(s[j]))
  {
    var init, last := s[..|s| - 1], Last(s);
    if init == [] {
      assert s[0] == StableSort(key, s)[0];
    } else {
      FirstIsEarliest(key, init);
      FirstIsLeast(key, init);
      var ranked := StableSort(key, init);
      StableSortRanks(key, init);
      PlaceFirst(key, last, ranked);
      if Precedes(key(last), key(ranked[0])) {
        forall j | 0 <= j < |init| ensures Precedes(key(last), key(s[j])) {
          assert s[j] == init[j] && init[j] in init;
          PrecedesMixed(key(last), key(ranked[0]), key(s[j]));
        }
        assert s[|s| - 1] == StableSort(key, s)[0];
      } else {
        var i :| 0 <= i < |init| && init[i] == ranked[0] &&
                 forall j | 0 <= j < i :: Precedes(key(init[i]), key(init[j]));
        assert s[i] == StableSort(key, s)[0];
        forall j | 0 <= j < i ensures Precedes(key(s[i]), key(s[j])) {
          assert s[j] == init[j];
        }
      }
    }
  }

  lemma {:induction false} PrecedesMixed(a: seq<real>, b: seq<real>, c: seq<real>)
    requires Precedes(a, b) && !Precedes(c, b)
    ensures Precedes(a, c)
  {
    if a != [] && b != [] && c != [] && a[0] == b[0] == c[0] {
      PrecedesMixed(a[1..], b[1..], c[1..]);
    }
  }

  lemma {:induction false} PlaceFirst<X>(key: Key<X>, x: X, ranked: seq<X>)
    requires ranked != [] && Ranked(key, ranked)
    ensures Place(key, x, ranked) != []
    ensures Place(key, x, ranked)[0] == if Precedes(key(x), key(ranked[0])) then x else ranked[0]
  {
    var init, last := ranked[..|ranked| - 1], Last(ranked);
    if Precedes(key(x), key(last)) {
      if init != [] {
        PlaceFirst(key, x, init);
      }
    } else if Precedes(key(x), key(ranked[0])) {
      assert !Precedes(key(last), key(ranked[0])) by {
        PrecedesAsymmetric(key(last), key(last));
      }
      PrecedesMixed(key(x), key(ranked[0]), key(last));
    }
  }
}
