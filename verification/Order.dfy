/** The order JavaScript's `<` gives to strings, and the sorted listing of a set of strings. */
module Order {
  import opened Common

  /** Strings are compared by their UTF-16 units: a surrogate pair comes before the characters from U+E000 to U+FFFF. */
  function UnitRank(c: char): int {
    if 0xE000 <= c as int < 0x1_0000 then c as int + 0x11_0000 else c as int
  }

  predicate Less(a: string, b: string) {
    b != [] && (a == [] || UnitRank(a[0]) < UnitRank(b[0]) || (a[0] == b[0] && Less(a[1..], b[1..])))
  }

  lemma {:induction false} LessIrreflexive(a: string)
    ensures !Less(a, a)
  {
    if a != [] {
      LessIrreflexive(a[1..]);
    }
  }

  lemma {:induction false} LessTransitive(a: string, b: string, c: string)
    requires Less(a, b) && Less(b, c)
    ensures Less(a, c)
  {
    if a != [] && a[0] == b[0] == c[0] {
      LessTransitive(a[1..], b[1..], c[1..]);
    }
  }

  lemma {:induction false} LessTotal(a: string, b: string)
    requires a != b
    ensures Less(a, b) || Less(b, a)
  {
    if a != [] && b != [] && a[0] == b[0] {
      assert a == [a[0]] + a[1..] && b == [b[0]] + b[1..];
      LessTotal(a[1..], b[1..]);
    }
  }

  lemma LessAsymmetric(a: string, b: string)
    requires Less(a, b)
    ensures a != b && !Less(b, a)
  {
    LessIrreflexive(a);
    if Less(b, a) {
      LessTransitive(a, b, a);
    }
  }

  predicate IsLeast(x: string, s: set<string>) {
    x in s && forall y <- s :: y != x ==> Less(x, y)
  }

  lemma LeastExists(s: set<string>)
    requires s != {}
    ensures exists x :: IsLeast(x, s)
  {
    var x :| x in s;
    if s == {x} {
      assert IsLeast(x, s);
    } else {
      LeastExists(s - {x});
      var least :| IsLeast(least, s - {x});
      LessTotal(x, least);
      if Less(x, least) {
        forall y <- s | y != x ensures Less(x, y) {
          if y != least {
            LessTransitive(x, least, y);
          }
        }
        assert IsLeast(x, s);
      } else {
        assert IsLeast(least, s);
      }
    }
  }

  lemma LeastUnique(x: string, y: string, s: set<string>)
    requires IsLeast(x, s) && IsLeast(y, s)
    ensures x == y
  {
    if x != y {
      LessAsymmetric(x, y);
    }
  }

  /** The listing of a set of strings in increasing order. */
  ghost function Sorted(s: set<string>): seq<string> {
    if s == {} then []
    else
      LeastExists(s);
      var least :| IsLeast(least, s);
      [least] + Sorted(s - {least})
  }

  lemma {:induction false} SortedListsTheSet(s: set<string>)
    ensures forall x :: x in Sorted(s) <==> x in s
    ensures |Sorted(s)| == |s|
    ensures forall i, j | 0 <= i < j < |Sorted(s)| :: Less(Sorted(s)[i], Sorted(s)[j])
  {
    if s != {} {
      var least := Sorted(s)[0];
      SortedListsTheSet(s - {least});
      assert Sorted(s) == [least] + Sorted(s - {least});
      forall i, j | 0 <= i < j < |Sorted(s)| ensures Less(Sorted(s)[i], Sorted(s)[j]) {
        assert Sorted(s)[j] == Sorted(s - {least})[j - 1];
        assert Sorted(s)[j] in s - {least};
        if i > 0 {
          assert Sorted(s)[i] == Sorted(s - {least})[i - 1];
        }
      }
    }
  }

  /** In a listing in increasing order, what is less than an entry stands before it. */
  lemma LessStandsBefore(sorted: seq<string>, i: nat, x: string)
    requires forall j, k | 0 <= j < k < |sorted| :: Less(sorted[j], sorted[k])
    requires i < |sorted| && x in sorted && Less(x, sorted[i])
    ensures x in sorted[..i]
  {
    var j :| 0 <= j < |sorted| && sorted[j] == x;
    if j > i {
      LessAsymmetric(sorted[i], sorted[j]);
    } else if j == i {
      LessIrreflexive(x);
    } else {
      assert sorted[..i][j] == x;
    }
  }

  method SortKeys(keys: set<string>) returns (sorted: seq<string>)
    ensures sorted == Sorted(keys)
  {
    sorted := [];
    var rest := keys;
    while rest != {}
      invariant Sorted(keys) == sorted + Sorted(rest)
      decreases rest
    {
      LeastExists(rest);
      var least :| IsLeast(least, rest);
      LeastUnique(least, Sorted(rest)[0], rest);
      sorted := sorted + [least];
      rest := rest - {least};
    }
  }
}
