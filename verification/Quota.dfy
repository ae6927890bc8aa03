/** The account's rate-limit windows reduced to one quota state: the most pressing window decides. */
module Quota {
  import opened Common
  import opened Ranking

  datatype Window = Window(usedPercent: real, durationMinutes: real, resetsAt: real)
  datatype Bucket = Bucket(limitId: string, primary: Option<Window>, secondary: Option<Window>,
                           reachedType: Option<string>)
  datatype Snapshot = Snapshot(primary: Option<Bucket>, byId: seq<Bucket>)

  /** A window with the id and the reached-type of its bucket. */
  datatype Limit = Limit(id: string, window: Window, reachedType: Option<string>)

  datatype Usage = Usage(used: real, remaining: real, minutesUntilReset: real, reachedType: Option<string>,
                         source: string)
  datatype QuotaState = QuotaState(exhausted: bool, pressure: real, healthy: bool, usage: Option<Usage>)

  function BucketLimits(bucket: Bucket): seq<Limit> {
    (if bucket.primary.Some? then [Limit(bucket.limitId, bucket.primary.value, bucket.reachedType)] else [])
    + (if bucket.secondary.Some?
       then [Limit(bucket.limitId + ":secondary", bucket.secondary.value, bucket.reachedType)]
       else [])
  }

  function BucketsLimits(buckets: seq<Bucket>): seq<Limit> {
    if buckets == [] then [] else BucketsLimits(buckets[..|buckets| - 1]) + BucketLimits(Last(buckets))
  }

  function Limits(snapshot: Snapshot): seq<Limit> {
    (if snapshot.primary.Some? then BucketLimits(snapshot.primary.value) else []) + BucketsLimits(snapshot.byId)
  }

  function Max(x: real, y: real): real { if x < y then y else x }
  function Min(x: real, y: real): real { if y < x then y else x }

  function Clamp(x: real, low: real, high: real): real {
    Min(high, Max(low, x))
  }

  predicate Exhausted(limit: Limit) {
    limit.window.usedPercent >= 100.0 || limit.reachedType == Some("rate_limit_reached")
  }

  /** `now` is in milliseconds, `resetsAt` in seconds. */
  function MinutesUntilReset(limit: Limit, now: real): real {
    Max(0.0, limit.window.resetsAt * 1000.0 - now) / 60000.0
  }

  function Pressure(limit: Limit, reserve: real, now: real): real {
    var elapsed := Clamp(1.0 - MinutesUntilReset(limit, now) / Max(1.0, limit.window.durationMinutes), 0.05, 1.0);
    var burn := limit.window.usedPercent / 100.0 / elapsed;
    var reservePressure := Clamp((limit.window.usedPercent - (100.0 - reserve)) / Max(1.0, reserve), 0.0, 1.0);
    Clamp(0.55 * (limit.window.usedPercent / 100.0) + 0.3 * Clamp(burn / 2.0, 0.0, 1.0) + 0.15 * reservePressure,
          0.0, 1.0)
  }

  /** Exhausted windows first, then those under more pressure. */
  function PressingKey(reserve: real, now: real): Key<Limit> {
    limit => [if Exhausted(limit) then 0.0 else 1.0, -Pressure(limit, reserve, now)]
  }

  function StateFor(limit: Limit, reserve: real, now: real): QuotaState {
    var used := limit.window.usedPercent;
    QuotaState(Exhausted(limit), Pressure(limit, reserve, now), !Exhausted(limit) && used < Max(50.0, 100.0 - reserve),
               Some(Usage(used, Max(0.0, 100.0 - used), MinutesUntilReset(limit, now), limit.reachedType, limit.id)))
  }

  predicate Known(quota: QuotaState) {
    quota.usage.Some?
  }

  method AppendBucket(target: seq<Limit>, bucket: Bucket) returns (target': seq<Limit>)
    ensures target' == target + BucketLimits(bucket)
  {
    target' := target;
    if bucket.primary.Some? {
      target' := target' + [Limit(bucket.limitId, bucket.primary.value, bucket.reachedType)];
    }
    if bucket.secondary.Some? {
      target' := target' + [Limit(bucket.limitId + ":secondary", bucket.secondary.value, bucket.reachedType)];
    }
  }

  method CollectLimits(snapshot: Snapshot) returns (limits: seq<Limit>)
    ensures limits == Limits(snapshot)
  {
    limits := [];
    if snapshot.primary.Some? {
      limits := AppendBucket(limits, snapshot.primary.value);
    }
    ghost var first := limits;
    for i := 0 to |snapshot.byId|
      invariant limits == first + BucketsLimits(snapshot.byId[..i])
    {
      assert snapshot.byId[..i + 1][..i] == snapshot.byId[..i];
      limits := AppendBucket(limits, snapshot.byId[i]);
    }
    assert snapshot.byId[..|snapshot.byId|] == snapshot.byId;
  }

  /** The state is that of the first window that no other one precedes. */
  ghost predicate MostPressing(limits: seq<Limit>, i: nat, reserve: real, now: real)
    requires i < |limits|
  {
    && (forall limit <- limits :: Exhausted(limit) ==> Exhausted(limits[i]))
    && (forall limit <- limits :: Exhausted(limit) == Exhausted(limits[i]) ==>
          Pressure(limit, reserve, now) <= Pressure(limits[i], reserve, now))
    && (forall j: nat | j < i && Exhausted(limits[j]) == Exhausted(limits[i]) ::
          Pressure(limits[j], reserve, now) < Pressure(limits[i], reserve, now))
  }

  lemma FirstIsMostPressing(limits: seq<Limit>, reserve: real, now: real)
    requires limits != []
    ensures var ranked := StableSort(PressingKey(reserve, now), limits);
            ranked != [] &&
            exists i: nat | i < |limits| :: limits[i] == ranked[0] && MostPressing(limits, i, reserve, now)
  {
    var key := PressingKey(reserve, now);
    FirstIsLeast(key, limits);
    FirstIsEarliest(key, limits);
    var first := StableSort(key, limits)[0];
    var i :| 0 <= i < |limits| && limits[i] == first &&
             forall j | 0 <= j < i :: Precedes(key(limits[i]), key(limits[j]));
    forall limit <- limits ensures Exhausted(limit) ==> Exhausted(first)
      ensures Exhausted(limit) == Exhausted(first) ==> Pressure(limit, reserve, now) <= Pressure(first, reserve, now)
    {
      TwoParts(key(limit), key(first));
    }
    forall j: nat | j < i && Exhausted(limits[j]) == Exhausted(first)
      ensures Pressure(limits[j], reserve, now) < Pressure(first, reserve, now)
    {
      TwoParts(key(first), key(limits[j]));
    }
    assert MostPressing(limits, i, reserve, now);
  }

  lemma TwoParts(left: seq<real>, right: seq<real>)
    requires |left| == |right| == 2
    ensures Precedes(left, right) <==> left[0] < right[0] || (left[0] == right[0] && left[1] < right[1])
  {
    assert left[1..] == [left[1]] && right[1..] == [right[1]];
    assert Precedes([left[1]], [right[1]]) <==> left[1] < right[1];
  }

  method DeriveQuotaState(snapshot: Snapshot, reserve: real, now: real) returns (quota: QuotaState)
    ensures Known(quota) <==> Limits(snapshot) != []
    ensures quota.exhausted <==>
              exists limit <- Limits(snapshot) ::
                limit.window.usedPercent >= 100.0 || limit.reachedType == Some("rate_limit_reached")
    ensures Known(quota) ==> exists i: nat | i < |Limits(snapshot)| ::
              quota == StateFor(Limits(snapshot)[i], reserve, now) && MostPressing(Limits(snapshot), i, reserve, now)
    ensures !Known(quota) ==> quota.pressure == 1.0 && !quota.healthy
  {
    var limits := CollectLimits(snapshot);
    if limits == [] {
      return QuotaState(false, 1.0, false, None);
    }
    FirstIsMostPressing(limits, reserve, now);
    var scored := StableSort(PressingKey(reserve, now), limits);
    quota := StateFor(scored[0], reserve, now);
  }

  // ----- what the state says of the windows -----

  lemma {:induction false} BucketsLimitsMembers(buckets: seq<Bucket>)
    ensures forall limit :: limit in BucketsLimits(buckets) <==>
                            exists bucket <- buckets :: limit in BucketLimits(bucket)
  {
    if buckets != [] {
      BucketsLimitsMembers(buckets[..|buckets| - 1]);
      assert buckets == buckets[..|buckets| - 1] + [Last(buckets)];
    }
  }

  /** The windows looked at are the primary and the secondary one of every bucket, each with the id of its bucket. */
  lemma LimitsAreWindows(snapshot: Snapshot, limit: Limit)
    ensures limit in Limits(snapshot) <==>
              exists bucket ::
                && (snapshot.primary == Some(bucket) || bucket in snapshot.byId)
                && limit.reachedType == bucket.reachedType
                && (|| (bucket.primary == Some(limit.window) && limit.id == bucket.limitId)
                    || (bucket.secondary == Some(limit.window) && limit.id == bucket.limitId + ":secondary"))
  {
    BucketsLimitsMembers(snapshot.byId);
    if snapshot.primary.Some? {
      assert limit in BucketLimits(snapshot.primary.value) ==> limit in Limits(snapshot);
    }
  }

  /** The state of the deciding window, field by field. */
  lemma StateOnFields(limit: Limit, reserve: real, now: real)
    ensures var quota, used := StateFor(limit, reserve, now), limit.window.usedPercent;
            && quota.usage.Some? && quota.usage.value.used == used && quota.usage.value.source == limit.id
            && quota.usage.value.reachedType == limit.reachedType
            && quota.usage.value.remaining == (if used <= 100.0 then 100.0 - used else 0.0)
            && (limit.window.resetsAt * 1000.0 <= now ==> quota.usage.value.minutesUntilReset == 0.0)
            && (limit.window.resetsAt * 1000.0 >= now ==>
                  quota.usage.value.minutesUntilReset * 60000.0 == limit.window.resetsAt * 1000.0 - now)
            && (quota.healthy <==>
                  !quota.exhausted && (used < 50.0 || used < 100.0 - reserve))
            && 0.0 <= quota.pressure <= 1.0
  {
  }

  lemma ClampGrows(x: real, y: real)
    requires x <= y
    ensures Clamp(x, 0.0, 1.0) <= Clamp(y, 0.0, 1.0)
  {
  }

  lemma QuotientGrows(x: real, y: real, d: real)
    requires x <= y && d > 0.0
    ensures x / d <= y / d
  {
    assert y / d - x / d == (y - x) / d >= 0.0;
  }

  /** More use is more pressure. */
  lemma PressureGrows(limit: Limit, more: Limit, reserve: real, now: real)
    requires limit.window.durationMinutes == more.window.durationMinutes
    requires limit.window.resetsAt == more.window.resetsAt && limit.window.usedPercent <= more.window.usedPercent
    ensures Pressure(limit, reserve, now) <= Pressure(more, reserve, now)
  {
    var elapsed := Clamp(1.0 - MinutesUntilReset(limit, now) / Max(1.0, limit.window.durationMinutes), 0.05, 1.0);
    var less, much := limit.window.usedPercent, more.window.usedPercent;
    hide MinutesUntilReset, Clamp;
    ClampAtLeast(1.0 - MinutesUntilReset(limit, now) / Max(1.0, limit.window.durationMinutes));
    QuotientGrows(less / 100.0, much / 100.0, elapsed);
    ClampGrows(less / 100.0 / elapsed / 2.0, much / 100.0 / elapsed / 2.0);
    QuotientGrows(less - (100.0 - reserve), much - (100.0 - reserve), Max(1.0, reserve));
    ClampGrows((less - (100.0 - reserve)) / Max(1.0, reserve), (much - (100.0 - reserve)) / Max(1.0, reserve));
  }

  lemma ClampAtLeast(x: real)
    ensures 0.05 <= Clamp(x, 0.05, 1.0) <= 1.0
  {
  }

  /**
   Outside the reserve the pressure of a window that is due for its reset is 0.7 % per percent used; that of one that
   has only begun is 0.55 %, and 0.3 as soon as a tenth is used.
   */
  lemma PressureOutsideReserve(limit: Limit, reserve: real, now: real)
    requires 0.0 <= limit.window.usedPercent <= 100.0 - reserve && reserve >= 0.0
    ensures limit.window.resetsAt * 1000.0 <= now ==>
              Pressure(limit, reserve, now) == 0.007 * limit.window.usedPercent
    ensures MinutesUntilReset(limit, now) == limit.window.durationMinutes >= 1.0 && limit.window.usedPercent >= 10.0 ==>
              Pressure(limit, reserve, now) == 0.0055 * limit.window.usedPercent + 0.3
  {
  }

  /** A reserve that is used up adds 0.15. */
  lemma PressureOfUsedReserve(limit: Limit, reserve: real, now: real)
    requires limit.window.usedPercent == 100.0 && reserve >= 1.0 && limit.window.resetsAt * 1000.0 <= now
    ensures Pressure(limit, reserve, now) == 0.85
  {
    assert reserve / reserve == 1.0;
  }
}
