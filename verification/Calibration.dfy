/** Aggregating observed routes into a calibration index. Durations and credits are exact reals. */
module Calibration {
  import opened Common
  import opened Folds
  import opened RouteKeys

  datatype Outcome = Success | Failure | Timeout | Cancelled

  datatype Observation = Observation(identity: RouteIdentity, outcome: Outcome, duration: real, credits: real,
                                     timestamp: string)

  // ----- one route's calibration -----

  function AddDuration(o: Observation, total: real): real { total + o.duration }
  function AddCredits(o: Observation, total: real): real { total + o.credits }
  function CountSuccess(o: Observation, count: int): int { if o.outcome.Success? then count + 1 else count }
  function CountTimeout(o: Observation, count: int): int { if o.outcome.Timeout? then count + 1 else count }
  function AddSquare(mean: real): (Observation, real) -> real {
    (o: Observation, total: real) => total + (o.duration - mean) * (o.duration - mean)
  }

  function InsertDuration(o: Observation, sorted: seq<real>): seq<real> { Insert(o.duration, sorted) }

  function Insert(x: real, sorted: seq<real>): seq<real> {
    if sorted == [] || x <= sorted[0] then [x] + sorted else [sorted[0]] + Insert(x, sorted[1..])
  }

  function SortedDurations(s: seq<Observation>): seq<real> {
    Fold(InsertDuration, [], s)
  }

  /** The value at the smallest position that covers nine tenths of the sorted values. */
  function Percentile90(sorted: seq<real>): real {
    if sorted == [] then 0.0 else sorted[Rank90(|sorted|)]
  }

  /** ceil(0.9 n) - 1 */
  function Rank90(n: nat): (rank: nat)
    requires n > 0
    ensures rank < n && 10 * (rank + 1) >= 9 * n && 10 * rank < 9 * n
  {
    (9 * n + 9) / 10 - 1
  }

  /** The comparison of timestamps by locale: a total preorder, in which different strings may tie. */
  type Collation = (string, string) -> bool

  ghost predicate IsCollation(le: Collation) {
    (forall a, b :: le(a, b) || le(b, a)) && (forall a, b, c :: le(a, b) && le(b, c) ==> le(a, c))
  }

  /** The last element after a stable sort: of the timestamps that tie for the latest, the one that comes last. */
  function UpdatedAt(s: seq<Observation>, le: Collation): string
    requires s != []
  {
    if |s| == 1 then s[0].timestamp
    else
      var before := UpdatedAt(s[..|s| - 1], le);
      if le(before, Last(s).timestamp) then Last(s).timestamp else before
  }

  /** `varianceDuration` is the square of the standard deviation. */
  datatype Spread = Spread(meanDuration: real, varianceDuration: real, p90Duration: real, meanCredits: real)
  datatype RouteCalibration = RouteCalibration(sampleCount: int, successCount: int, failureCount: int,
                                               timeoutCount: int, successRate: real, spread: Spread, updatedAt: string)

  function Ratio(total: real, count: int): real
    requires count != 0
  {
    total / count as real
  }

  function MeanDuration(s: seq<Observation>): real
    requires s != []
  {
    Ratio(Fold(AddDuration, 0.0, s), |s|)
  }

  function SpreadOf(s: seq<Observation>): Spread
    requires s != []
  {
    var mean := MeanDuration(s);
    Spread(mean, if |s| < 2 then 0.0 else Ratio(Fold(AddSquare(mean), 0.0, s), |s| - 1),
           Percentile90(SortedDurations(s)), Ratio(Fold(AddCredits, 0.0, s), |s|))
  }

  function Calibrate(s: seq<Observation>, le: Collation): RouteCalibration
    requires s != []
  {
    var successes, timeouts := Fold(CountSuccess, 0, s), Fold(CountTimeout, 0, s);
    RouteCalibration(|s|, successes, |s| - successes - timeouts, timeouts, Ratio(successes as real, |s|), SpreadOf(s),
                     UpdatedAt(s, le))
  }

  lemma {:induction false} InsertCommutes(x: real, y: real, s: seq<real>)
    ensures Insert(x, Insert(y, s)) == Insert(y, Insert(x, s))
  {
    if s != [] {
      InsertCommutes(x, y, s[1..]);
      InsertHead(x, s);
      InsertHead(y, s);
      InsertHead(x, Insert(y, s));
      InsertHead(y, Insert(x, s));
      assert ([s[0]] + Insert(y, s[1..]))[1..] == Insert(y, s[1..]);
      assert ([s[0]] + Insert(x, s[1..]))[1..] == Insert(x, s[1..]);
      assert ([y] + s)[1..] == s && ([x] + s)[1..] == s;
    }
  }

  lemma InsertHead(x: real, s: seq<real>)
    ensures Insert(x, s) == if s == [] || x <= s[0] then [x] + s else [s[0]] + Insert(x, s[1..])
  {
  }

  lemma StepsCommute()
    ensures Commutes(AddDuration) && Commutes(AddCredits) && Commutes(CountSuccess) && Commutes(CountTimeout)
    ensures Commutes(InsertDuration)
  {
    forall x: Observation, y: Observation, a: seq<real>
      ensures InsertDuration(x, InsertDuration(y, a)) == InsertDuration(y, InsertDuration(x, a))
    {
      InsertCommutes(x.duration, y.duration, a);
    }
  }

  lemma SpreadPermutes(s: seq<Observation>, t: seq<Observation>)
    requires s != [] && t != [] && multiset(s) == multiset(t)
    ensures SpreadOf(s) == SpreadOf(t)
  {
    StepsCommute();
    assert |s| == |multiset(s)| == |multiset(t)| == |t|;
    FoldPermutes(AddDuration, 0.0, s, t);
    FoldPermutes(AddSquare(MeanDuration(s)), 0.0, s, t);
    FoldPermutes(AddCredits, 0.0, s, t);
    FoldPermutes(InsertDuration, [], s, t);
  }

  // ----- the timestamp -----

  predicate IsLatest(s: seq<Observation>, le: Collation, o: Observation) {
    o in s && forall p <- s :: le(p.timestamp, o.timestamp)
  }

  /** The timestamps that tie for the latest are one timestamp. */
  predicate LatestAgree(s: seq<Observation>, le: Collation) {
    forall o <- s, p <- s :: IsLatest(s, le, o) && IsLatest(s, le, p) ==> o.timestamp == p.timestamp
  }

  lemma {:induction false} UpdatedAtIsLatest(s: seq<Observation>, le: Collation)
    requires s != [] && IsCollation(le)
    ensures exists o :: IsLatest(s, le, o) && o.timestamp == UpdatedAt(s, le)
  {
    var init, last := s[..|s| - 1], Last(s);
    assert s == init + [last];
    if init == [] {
      assert IsLatest(s, le, last);
    } else {
      UpdatedAtIsLatest(init, le);
      var o :| IsLatest(init, le, o) && o.timestamp == UpdatedAt(init, le);
      if le(o.timestamp, last.timestamp) {
        assert IsLatest(s, le, last);
      } else {
        assert IsLatest(s, le, o);
      }
    }
  }

  /** If the latest observation comes last, its timestamp is the one that is taken. */
  lemma LatestLastIsTaken(s: seq<Observation>, le: Collation)
    requires s != [] && IsCollation(le) && IsLatest(s, le, Last(s))
    ensures UpdatedAt(s, le) == Last(s).timestamp
  {
    if |s| > 1 {
      var init := s[..|s| - 1];
      UpdatedAtIsLatest(init, le);
      var o :| IsLatest(init, le, o) && o.timestamp == UpdatedAt(init, le);
      assert o in s;
    }
  }

  lemma LatestPermutes(s: seq<Observation>, t: seq<Observation>, le: Collation, o: Observation)
    requires multiset(s) == multiset(t)
    ensures IsLatest(s, le, o) <==> IsLatest(t, le, o)
  {
    forall p ensures p in s <==> p in t {
      assert p in multiset(s) <==> p in multiset(t);
    }
  }

  /** A route's calibration does not depend on the order of its observations if its latest timestamps agree. */
  lemma CalibratePermutes(s: seq<Observation>, t: seq<Observation>, le: Collation)
    requires s != [] && t != [] && multiset(s) == multiset(t)
    requires IsCollation(le) && LatestAgree(s, le)
    ensures Calibrate(s, le) == Calibrate(t, le)
  {
    StepsCommute();
    assert |s| == |multiset(s)| == |multiset(t)| == |t|;
    FoldPermutes(CountSuccess, 0, s, t);
    FoldPermutes(CountTimeout, 0, s, t);
    SpreadPermutes(s, t);
    UpdatedAtIsLatest(s, le);
    UpdatedAtIsLatest(t, le);
    var o :| IsLatest(s, le, o) && o.timestamp == UpdatedAt(s, le);
    var p :| IsLatest(t, le, p) && p.timestamp == UpdatedAt(t, le);
    LatestPermutes(s, t, le, p);
  }

  // ----- the 90th percentile -----

  predicate Increasing(s: seq<real>) {
    forall i, j | 0 <= i < j < |s| :: s[i] <= s[j]
  }

  lemma {:induction false} InsertKeeps(x: real, s: seq<real>)
    ensures multiset(Insert(x, s)) == multiset(s) + multiset{x} && |Insert(x, s)| == |s| + 1
  {
    if s != [] && s[0] < x {
      InsertKeeps(x, s[1..]);
      assert s == [s[0]] + s[1..];
    }
  }

  lemma {:induction false} InsertSorted(x: real, s: seq<real>)
    requires Increasing(s)
    ensures Increasing(Insert(x, s))
    ensures s != [] && s[0] < x ==> Insert(x, s)[0] == s[0]
  {
    if s != [] && s[0] < x {
      var rest := Insert(x, s[1..]);
      InsertSorted(x, s[1..]);
      assert s[0] <= rest[0];
      assert Increasing([s[0]] + rest);
    }
  }

  function Durations(s: seq<Observation>): seq<real> {
    if s == [] then [] else Durations(s[..|s| - 1]) + [Last(s).duration]
  }

  lemma {:induction false} SortedDurationsSorts(s: seq<Observation>)
    ensures Increasing(SortedDurations(s)) && |SortedDurations(s)| == |s|
    ensures multiset(SortedDurations(s)) == multiset(Durations(s))
  {
    if s != [] {
      SortedDurationsSorts(s[..|s| - 1]);
      InsertSorted(Last(s).duration, SortedDurations(s[..|s| - 1]));
      InsertKeeps(Last(s).duration, SortedDurations(s[..|s| - 1]));
    }
  }

  /** How many of the samples are at or below a value, or strictly below it. */
  function AtMost(s: seq<real>, v: real): nat {
    if s == [] then 0 else AtMost(s[..|s| - 1], v) + if Last(s) <= v then 1 else 0
  }

  function Below(s: seq<real>, v: real): nat {
    if s == [] then 0 else Below(s[..|s| - 1], v) + if Last(s) < v then 1 else 0
  }

  lemma {:induction false} CountsInSorted(s: seq<real>, k: nat)
    requires Increasing(s) && k < |s|
    ensures AtMost(s, s[k]) >= k + 1 && Below(s, s[k]) <= k
  {
    var init := s[..|s| - 1];
    if k < |init| {
      CountsInSorted(init, k);
    } else {
      AllAtMost(init, s[k]);
      BelowBounded(init, s[k]);
    }
  }

  lemma {:induction false} BelowBounded(s: seq<real>, v: real)
    ensures Below(s, v) <= |s|
  {
    if s != [] {
      BelowBounded(s[..|s| - 1], v);
    }
  }

  lemma {:induction false} AllAtMost(s: seq<real>, v: real)
    requires forall i | 0 <= i < |s| :: s[i] <= v
    ensures AtMost(s, v) == |s|
  {
    if s != [] {
      AllAtMost(s[..|s| - 1], v);
    }
  }

  function CountAtMost(v: real): (real, int) -> int {
    (x, count) => if x <= v then count + 1 else count
  }

  function CountBelow(v: real): (real, int) -> int {
    (x, count) => if x < v then count + 1 else count
  }

  lemma {:induction false} CountsAreFolds(s: seq<real>, v: real)
    ensures AtMost(s, v) == Fold(CountAtMost(v), 0, s) && Below(s, v) == Fold(CountBelow(v), 0, s)
  {
    if s != [] {
      CountsAreFolds(s[..|s| - 1], v);
    }
  }

  lemma CountsPermute(s: seq<real>, t: seq<real>, v: real)
    requires multiset(s) == multiset(t)
    ensures AtMost(s, v) == AtMost(t, v) && Below(s, v) == Below(t, v)
  {
    CountsAreFolds(s, v);
    CountsAreFolds(t, v);
    FoldPermutes(CountAtMost(v), 0, s, t);
    FoldPermutes(CountBelow(v), 0, s, t);
  }

  /** The 90th percentile is a sample; at least nine tenths are at or below it, and fewer than that are below it. */
  lemma P90IsPercentile(s: seq<Observation>)
    requires s != []
    ensures var p, durations := Percentile90(SortedDurations(s)), Durations(s);
            p in durations && 10 * AtMost(durations, p) >= 9 * |s| && 10 * Below(durations, p) < 9 * |s|
  {
    var sorted, durations := SortedDurations(s), Durations(s);
    SortedDurationsSorts(s);
    var rank := Rank90(|s|);
    var p := sorted[rank];
    CountsInSorted(sorted, rank);
    CountsPermute(sorted, durations, p);
    assert p in multiset(sorted);
  }

  /** Every observation of a group is a success, a timeout or a failure; a group holds no cancelled one. */
  lemma CountsAddUp(s: seq<Observation>, le: Collation)
    requires s != [] && forall o <- s :: !o.outcome.Cancelled?
    ensures var c := Calibrate(s, le);
            c.sampleCount == c.successCount + c.failureCount + c.timeoutCount && c.failureCount == Failures(s)
  {
    OutcomeCounts(s);
  }

  function Failures(s: seq<Observation>): nat {
    if s == [] then 0 else Failures(s[..|s| - 1]) + if Last(s).outcome.Failure? then 1 else 0
  }

  lemma {:induction false} OutcomeCounts(s: seq<Observation>)
    requires forall o <- s :: !o.outcome.Cancelled?
    ensures Fold(CountSuccess, 0, s) + Fold(CountTimeout, 0, s) + Failures(s) == |s|
  {
    if s != [] {
      assert Last(s) in s;
      assert forall o <- s[..|s| - 1] :: o in s;
      OutcomeCounts(s[..|s| - 1]);
    }
  }
}
