/**
 What a calibration index says, set against the evidence alone: which routes it has, of how many observations with which
 outcomes, and what the figures of a route are to its samples.
 */
module IndexContents {
  import opened Common
  import opened Folds
  import opened RouteKeys
  import opened RouteEvidence
  import opened Calibration
  import opened CalibrationIndex

  // ----- counting a listing -----

  function CountIf<X>(s: seq<X>, p: X -> bool): nat {
    if s == [] then 0 else CountIf(s[..|s| - 1], p) + if p(Last(s)) then 1 else 0
  }

  ghost function Chosen<X(!new)>(elements: set<X>, p: X -> bool): set<X> {
    set x | x in elements && p(x)
  }

  lemma {:induction false} CountIfIsChosen<X(!new)>(s: seq<X>, elements: set<X>, p: X -> bool)
    requires Lists(s, elements)
    ensures CountIf(s, p) == |Chosen(elements, p)|
  {
    if s == [] {
      assert Chosen(elements, p) == {};
    } else {
      var x, init := Last(s), s[..|s| - 1];
      assert s == init + [x];
      assert forall y :: y in s <==> y in init || y == x;
      assert x !in init;
      CountIfIsChosen(init, elements - {x}, p);
      OneMoreChosen(elements, x, p);
    }
  }

  lemma OneMoreChosen<X(!new)>(elements: set<X>, x: X, p: X -> bool)
    requires x in elements
    ensures |Chosen(elements, p)| == |Chosen(elements - {x}, p)| + if p(x) then 1 else 0
  {
    assert Chosen(elements, p) == Chosen(elements - {x}, p) + if p(x) then {x} else {};
  }

  // ----- which evidence counts for which route -----

  /** The contents of the relevant events whose id came with no other content. */
  ghost function Uncontradicted(events: seq<Event>): set<Seen> {
    set e | e in events && e.routeObserved && e.signature.Some?
            && (forall d <- events ::
                  d.routeObserved && d.signature.Some? && d.id == e.id ==> d.signature == e.signature)
         :: (e.id, e.signature.value)
  }

  /** It parses to an observation that the user did not cancel. */
  predicate Observed(parse: Parser, seen: Seen) {
    parse(seen.1).Some? && !parse(seen.1).value.outcome.Cancelled?
  }

  predicate ObservedAt(parse: Parser, key: string, seen: Seen) {
    Observed(parse, seen) && RouteCalibrationKey(parse(seen.1).value.identity) == key
  }

  predicate EndedAt(parse: Parser, key: string, outcome: Outcome, seen: Seen) {
    ObservedAt(parse, key, seen) && parse(seen.1).value.outcome == outcome
  }

  lemma UncontradictedIsAgreed(events: seq<Event>)
    ensures Uncontradicted(events) == Agreed(Evidence(events))
  {
    forall seen: Seen ensures seen in Uncontradicted(events) <==> seen in Agreed(Evidence(events)) {
      if seen in Uncontradicted(events) {
        assert seen in Evidence(events);
      }
      if seen in Agreed(Evidence(events)) {
        var e :| e in events && Relevant(e) && seen == (e.id, e.signature.value);
        forall d <- events | d.routeObserved && d.signature.Some? && d.id == e.id ensures d.signature == e.signature {
          assert (d.id, d.signature.value) in Evidence(events);
        }
      }
    }
  }

  lemma {:induction false} GroupCounts(kept: seq<Seen>, parse: Parser, key: string)
    ensures |Group(kept, parse, key)| == CountIf(kept, seen => ObservedAt(parse, key, seen))
    ensures Fold(CountSuccess, 0, Group(kept, parse, key)) == CountIf(kept, seen => EndedAt(parse, key, Success, seen))
    ensures Fold(CountTimeout, 0, Group(kept, parse, key)) == CountIf(kept, seen => EndedAt(parse, key, Timeout, seen))
  {
    if kept != [] {
      hide RouteCalibrationKey;
      GroupCounts(kept[..|kept| - 1], parse, key);
    }
  }

  lemma {:induction false} FailuresCount(kept: seq<Seen>, parse: Parser, key: string)
    ensures Failures(Group(kept, parse, key)) == CountIf(kept, seen => EndedAt(parse, key, Failure, seen))
  {
    if kept != [] {
      hide RouteCalibrationKey;
      FailuresCount(kept[..|kept| - 1], parse, key);
    }
  }

  lemma {:induction false} ContributionsCount(kept: seq<Seen>, parse: Parser)
    ensures Contributions(kept, parse) == CountIf(kept, seen => Observed(parse, seen))
  {
    if kept != [] {
      ContributionsCount(kept[..|kept| - 1], parse);
    }
  }

  /**
   A route is in the index exactly if some uncontradicted evidence was observed on it; its counts are the numbers of the
   observations with each outcome.
   */
  lemma IndexCountsEvidence(index: Index, events: seq<Event>, parse: Parser, le: Collation, key: string)
    requires IsIndexOf(index, events, parse, le)
    ensures var agreed := Uncontradicted(events);
            && index.sampleCount == |Chosen(agreed, (seen: Seen) => Observed(parse, seen))|
            && (key in index.byRouteKey <==> exists seen <- agreed :: ObservedAt(parse, key, seen))
            && (key in index.byRouteKey ==>
                  var c := index.byRouteKey[key];
                  && c.sampleCount == |Chosen(agreed, (seen: Seen) => ObservedAt(parse, key, seen))|
                  && c.successCount == |Chosen(agreed, (seen: Seen) => EndedAt(parse, key, Success, seen))|
                  && c.timeoutCount == |Chosen(agreed, (seen: Seen) => EndedAt(parse, key, Timeout, seen))|
                  && c.failureCount == |Chosen(agreed, (seen: Seen) => EndedAt(parse, key, Failure, seen))|)
  {
    var kept, agreed := KeptOf(events), Uncontradicted(events);
    UncontradictedIsAgreed(events);
    KeptIsAgreed(events);
    GroupCounts(kept, parse, key);
    FailuresCount(kept, parse, key);
    ContributionsCount(kept, parse);
    GroupMembers(kept, parse, key);
    CountIfIsChosen(kept, agreed, (seen: Seen) => Observed(parse, seen));
    CountIfIsChosen(kept, agreed, (seen: Seen) => ObservedAt(parse, key, seen));
    CountIfIsChosen(kept, agreed, (seen: Seen) => EndedAt(parse, key, Success, seen));
    CountIfIsChosen(kept, agreed, (seen: Seen) => EndedAt(parse, key, Timeout, seen));
    CountIfIsChosen(kept, agreed, (seen: Seen) => EndedAt(parse, key, Failure, seen));
    if key in index.byRouteKey {
      CountsAddUp(Group(kept, parse, key), le);
      assert index.byRouteKey[key] == Calibrate(Group(kept, parse, key), le);
    }
    var chosen := Chosen(agreed, (seen: Seen) => ObservedAt(parse, key, seen));
    assert chosen != {} <==> exists seen <- agreed :: ObservedAt(parse, key, seen) by {
      if seen :| seen in agreed && ObservedAt(parse, key, seen) {
        assert seen in chosen;
      }
      if seen :| seen in chosen {
        assert ObservedAt(parse, key, seen);
      }
    }
    hide KeptOf, Uncontradicted, Chosen, CountIf, Group, Failures, ObservedAt, EndedAt, SpreadOf, UpdatedAt;
  }

  // ----- the figures of a route -----

  function Sum(values: seq<real>): real {
    if values == [] then 0.0 else values[0] + Sum(values[1..])
  }

  function Square(x: real): real { x * x }

  function Squares(values: seq<real>): seq<real> {
    if values == [] then [] else Squares(values[..|values| - 1]) + [Square(Last(values))]
  }

  function Credits(s: seq<Observation>): seq<real> {
    if s == [] then [] else Credits(s[..|s| - 1]) + [Last(s).credits]
  }

  lemma {:induction false} SumSnoc(values: seq<real>, value: real)
    ensures Sum(values + [value]) == Sum(values) + value
  {
    if values != [] {
      SumSnoc(values[1..], value);
      assert (values + [value])[1..] == values[1..] + [value];
    } else {
      assert ([] + [value])[1..] == [];
    }
  }

  lemma {:induction false} TotalsAreSums(s: seq<Observation>)
    ensures Fold(AddDuration, 0.0, s) == Sum(Durations(s)) && Fold(AddCredits, 0.0, s) == Sum(Credits(s))
  {
    if s != [] {
      var init := s[..|s| - 1];
      TotalsAreSums(init);
      SumSnoc(Durations(init), Last(s).duration);
      SumSnoc(Credits(init), Last(s).credits);
    }
  }

  lemma SquareOfDifference(x: real, m: real)
    ensures (x - m) * (x - m) == Square(x) - 2.0 * (m * x) + Square(m)
  {
  }

  lemma Distribute(m: real, x: real, y: real)
    ensures m * (x + y) == m * x + m * y
  {
  }

  lemma TimesZero(x: real)
    ensures x * 0.0 == 0.0
  {
  }

  lemma OneMoreTime(y: real, n: nat)
    ensures y * (n + 1) as real == y * n as real + y
  {
    assert (n + 1) as real == n as real + 1.0;
  }

  lemma SquaresSnoc(values: seq<real>, x: real)
    ensures Squares(values + [x]) == Squares(values) + [Square(x)]
  {
    hide Square;
    assert (values + [x])[..|values|] == values;
  }

  /** One more deviation. */
  lemma DeviationStep(s: seq<Observation>, m: real)
    requires s != []
    ensures Fold(AddSquare(m), 0.0, s) ==
            Fold(AddSquare(m), 0.0, s[..|s| - 1]) + (Last(s).duration - m) * (Last(s).duration - m)
  {
  }

  /** The squares of the deviations from m, taken apart. */
  lemma {:induction false} DeviationsAreSquares(s: seq<Observation>, m: real)
    ensures Fold(AddSquare(m), 0.0, s) ==
            Sum(Squares(Durations(s))) - 2.0 * (m * Sum(Durations(s))) + Square(m) * |s| as real
  {
    if s == [] {
      TimesZero(m);
      TimesZero(Square(m));
    } else {
      var init, x := s[..|s| - 1], Last(s).duration;
      assert Durations(s) == Durations(init) + [x];
      hide Fold, AddSquare, Sum, Squares, Durations, Square;
      DeviationsAreSquares(init, m);
      DeviationStep(s, m);
      SquaresSnoc(Durations(init), x);
      SumSnoc(Durations(init), x);
      SumSnoc(Squares(Durations(init)), Square(x));
      SquareOfDifference(x, m);
      Distribute(m, Sum(Durations(init)), x);
      OneMoreTime(Square(m), |init|);
    }
  }

  lemma RatioTimes(value: real, total: real, count: int)
    requires count != 0 && value == Ratio(total, count)
    ensures value * count as real == total
  {
  }

  /** A sum of squares about the mean, in terms of the mean alone. */
  lemma AboutTheMean(squares: real, m: real, n: real, total: real)
    requires m * n == total
    ensures squares - 2.0 * (m * total) + Square(m) * n == squares - n * Square(m)
  {
    assert m * total == m * (m * n) == (m * m) * n == n * (m * m);
  }

  lemma MeanOfDurations(s: seq<Observation>)
    requires s != []
    ensures SpreadOf(s).meanDuration == MeanDuration(s) && MeanDuration(s) * |s| as real == Sum(Durations(s))
  {
    hide Ratio, Sum, Durations, Credits, Fold, Percentile90, SortedDurations, AddSquare;
    TotalsAreSums(s);
    RatioTimes(MeanDuration(s), Sum(Durations(s)), |s|);
  }

  lemma MeanOfCredits(s: seq<Observation>)
    requires s != []
    ensures SpreadOf(s).meanCredits * |s| as real == Sum(Credits(s))
  {
    hide Ratio, Sum, Durations, Credits, Fold, Percentile90, SortedDurations, AddSquare;
    TotalsAreSums(s);
    RatioTimes(SpreadOf(s).meanCredits, Sum(Credits(s)), |s|);
  }

  lemma VarianceOfSamples(s: seq<Observation>)
    requires |s| > 1
    ensures SpreadOf(s).varianceDuration * (|s| - 1) as real == Fold(AddSquare(MeanDuration(s)), 0.0, s)
  {
    hide Ratio, Fold, Percentile90, SortedDurations, AddSquare;
    RatioTimes(SpreadOf(s).varianceDuration, Fold(AddSquare(MeanDuration(s)), 0.0, s), |s| - 1);
  }

  lemma RateOfSamples(s: seq<Observation>, le: Collation)
    requires s != []
    ensures var c := Calibrate(s, le); c.successRate * |s| as real == c.successCount as real && c.spread == SpreadOf(s)
  {
    hide Ratio, Fold, SpreadOf, UpdatedAt;
    var c := Calibrate(s, le);
    RatioTimes(c.successRate, c.successCount as real, |s|);
  }

  lemma SingleSample(s: seq<Observation>)
    requires |s| == 1
    ensures SpreadOf(s).varianceDuration == 0.0
  {
    hide Ratio, Fold;
  }

  /**
   The figures of a route are those of its samples: means of durations and credits, the success rate, and, of at least
   two samples, the sample variance.
   */
  lemma FiguresOfSamples(s: seq<Observation>, le: Collation)
    requires s != []
    ensures var c, n := Calibrate(s, le), |s| as real;
            var m := c.spread.meanDuration;
            && m * n == Sum(Durations(s)) && c.spread.meanCredits * n == Sum(Credits(s))
            && c.successRate * n == c.successCount as real
            && (|s| == 1 ==> c.spread.varianceDuration == 0.0)
            && (|s| > 1 ==>
                  c.spread.varianceDuration * (|s| - 1) as real == Sum(Squares(Durations(s))) - n * Square(m))
  {
    hide Calibrate, SpreadOf, MeanDuration, Fold, Sum, Squares, Durations, Credits, AddSquare, Ratio, Square;
    var m := MeanDuration(s);
    MeanOfDurations(s);
    MeanOfCredits(s);
    RateOfSamples(s, le);
    if |s| > 1 {
      VarianceOfSamples(s);
      DeviationsAreSquares(s, m);
      AboutTheMean(Sum(Squares(Durations(s))), m, |s| as real, Sum(Durations(s)));
    } else {
      SingleSample(s);
    }
  }
}
