/** Building the calibration index, and what its result depends on. */
module CalibrationIndex {
  import opened Common
  import opened Folds
  import opened RouteKeys
  import opened RouteEvidence
  import opened Calibration

  /** What the content of an event parses to. */
  type Parser = string -> Option<Observation>

  datatype Index = Index(byRouteKey: map<string, RouteCalibration>, sampleCount: nat)

  /** The observation an event contributes: none if it does not parse or was cancelled by the user. */
  function Contribution(seen: Seen, parse: Parser): Option<Observation> {
    var observation := parse(seen.1);
    if observation.None? || observation.value.outcome.Cancelled? then None else observation
  }

  predicate IsCancelled(seen: Seen, parse: Parser) {
    var observation := parse(seen.1);
    observation.Some? && observation.value.outcome.Cancelled?
  }

  predicate FiledAt(seen: Seen, parse: Parser, key: string) {
    var contribution := Contribution(seen, parse);
    contribution.Some? && RouteCalibrationKey(contribution.value.identity) == key
  }

  function Group(kept: seq<Seen>, parse: Parser, key: string): seq<Observation> {
    if kept == [] then []
    else
      var group := Group(kept[..|kept| - 1], parse, key);
      if FiledAt(Last(kept), parse, key) then group + [Contribution(Last(kept), parse).value] else group
  }

  function Contributions(kept: seq<Seen>, parse: Parser): nat {
    if kept == [] then 0
    else Contributions(kept[..|kept| - 1], parse) + if Contribution(Last(kept), parse).Some? then 1 else 0
  }

  function Cancellations(kept: seq<Seen>, parse: Parser): nat {
    if kept == [] then 0 else Cancellations(kept[..|kept| - 1], parse) + if IsCancelled(Last(kept), parse) then 1 else 0
  }

  /** The index for kept evidence: every route that has observations, with its calibration. */
  ghost predicate Indexes(index: Index, kept: seq<Seen>, parse: Parser, le: Collation) {
    && (forall key :: key in index.byRouteKey <==> Group(kept, parse, key) != [])
    && (forall key <- index.byRouteKey ::
          Group(kept, parse, key) != [] && index.byRouteKey[key] == Calibrate(Group(kept, parse, key), le))
    && index.sampleCount == Contributions(kept, parse)
  }

  ghost predicate IsIndexOf(index: Index, events: seq<Event>, parse: Parser, le: Collation) {
    Indexes(index, KeptOf(events), parse, le)
  }

  lemma GroupSnoc(kept: seq<Seen>, seen: Seen, parse: Parser, key: string)
    ensures Group(kept + [seen], parse, key) ==
            if FiledAt(seen, parse, key) then Group(kept, parse, key) + [Contribution(seen, parse).value]
            else Group(kept, parse, key)
  {
    assert (kept + [seen])[..|kept|] == kept;
  }

  lemma {:induction false} GroupMembers(kept: seq<Seen>, parse: Parser, key: string)
    ensures forall o <- Group(kept, parse, key) :: RouteCalibrationKey(o.identity) == key && !o.outcome.Cancelled?
  {
    if kept != [] {
      GroupMembers(kept[..|kept| - 1], parse, key);
    }
  }

  lemma {:induction false} GroupHolds(kept: seq<Seen>, parse: Parser, key: string, o: Observation)
    ensures o in Group(kept, parse, key) <==>
              exists seen <- kept :: FiledAt(seen, parse, key) && Contribution(seen, parse) == Some(o)
  {
    if kept != [] {
      hide FiledAt, Contribution;
      var init := kept[..|kept| - 1];
      GroupHolds(init, parse, key, o);
      GroupSnoc(init, Last(kept), parse, key);
      assert kept == init + [Last(kept)];
      assert forall seen :: seen in kept <==> seen in init || seen == Last(kept);
    }
  }

  // ----- the loops -----

  ghost predicate Grouped(groups: map<string, seq<Observation>>, kept: seq<Seen>, parse: Parser) {
    && (forall key <- groups :: groups[key] != [])
    && (forall key :: Group(kept, parse, key) == if key in groups then groups[key] else [])
  }

  method File(groups: map<string, seq<Observation>>, ghost kept: seq<Seen>, seen: Seen, parse: Parser)
    returns (groups': map<string, seq<Observation>>, cancelled: bool)
    requires Grouped(groups, kept, parse)
    ensures Grouped(groups', kept + [seen], parse) && cancelled == IsCancelled(seen, parse)
  {
    hide RouteCalibrationKey;
    groups', cancelled := groups, false;
    var observation := parse(seen.1);
    if observation.Some? {
      if observation.value.outcome.Cancelled? {
        cancelled := true;
      } else {
        var key := RouteCalibrationKey(observation.value.identity);
        groups' := groups[key := (if key in groups then groups[key] else []) + [observation.value]];
      }
    }
    forall key ensures Group(kept + [seen], parse, key) == if key in groups' then groups'[key] else [] {
      GroupSnoc(kept, seen, parse, key);
    }
  }

  method GroupObservations(order: seq<string>, signatures: map<string, string>, conflicted: set<string>, parse: Parser)
    returns (groups: map<string, seq<Observation>>, cancelled: nat)
    requires forall id <- order :: id in signatures
    ensures Grouped(groups, Kept(order, signatures, conflicted), parse)
    ensures cancelled == Cancellations(Kept(order, signatures, conflicted), parse)
  {
    groups, cancelled := map[], 0;
    assert Grouped(groups, Kept(order[..0], signatures, conflicted), parse);
    hide Grouped, IsCancelled;
    for n := 0 to |order|
      invariant Grouped(groups, Kept(order[..n], signatures, conflicted), parse)
      invariant cancelled == Cancellations(Kept(order[..n], signatures, conflicted), parse)
    {
      assert order[..n + 1][..n] == order[..n];
      if order[n] in conflicted {
        continue;
      }
      ghost var kept := Kept(order[..n], signatures, conflicted);
      var seen := (order[n], signatures[order[n]]);
      var isCancelled;
      groups, isCancelled := File(groups, kept, seen, parse);
      assert (kept + [seen])[..|kept|] == kept;
      cancelled := cancelled + if isCancelled then 1 else 0;
    }
    assert order[..|order|] == order;
  }

  /** How many observations are filed under some of the keys. */
  ghost function FiledUnder(kept: seq<Seen>, parse: Parser, keys: set<string>): nat {
    if kept == [] then 0
    else
      var contribution := Contribution(Last(kept), parse);
      FiledUnder(kept[..|kept| - 1], parse, keys)
      + if contribution.Some? && RouteCalibrationKey(contribution.value.identity) in keys then 1 else 0
  }

  lemma {:induction false} FiledUnderMore(kept: seq<Seen>, parse: Parser, keys: set<string>, key: string)
    requires key !in keys
    ensures FiledUnder(kept, parse, keys + {key}) == FiledUnder(kept, parse, keys) + |Group(kept, parse, key)|
  {
    if kept != [] {
      FiledUnderMore(kept[..|kept| - 1], parse, keys, key);
    }
  }

  lemma {:induction false} FiledUnderNone(kept: seq<Seen>, parse: Parser)
    ensures FiledUnder(kept, parse, {}) == 0
  {
    if kept != [] {
      FiledUnderNone(kept[..|kept| - 1], parse);
    }
  }

  lemma {:induction false} FiledUnderAll(kept: seq<Seen>, parse: Parser, keys: set<string>)
    requires forall key :: Group(kept, parse, key) != [] ==> key in keys
    ensures FiledUnder(kept, parse, keys) == Contributions(kept, parse)
  {
    if kept != [] {
      var init := kept[..|kept| - 1];
      assert kept == init + [Last(kept)];
      forall key | Group(init, parse, key) != [] ensures key in keys {
        GroupSnoc(init, Last(kept), parse, key);
      }
      FiledUnderAll(init, parse, keys);
      var contribution := Contribution(Last(kept), parse);
      if contribution.Some? {
        GroupSnoc(init, Last(kept), parse, RouteCalibrationKey(contribution.value.identity));
      }
    }
  }

  method SummariseGroups(groups: map<string, seq<Observation>>, ghost kept: seq<Seen>, parse: Parser, le: Collation)
    returns (index: Index)
    requires Grouped(groups, kept, parse)
    ensures Indexes(index, kept, parse, le)
  {
    var byRouteKey: map<string, RouteCalibration>, sampleCount := map[], 0;
    var remaining := groups.Keys;
    FiledUnderNone(kept, parse);
    assert byRouteKey.Keys == {};
    while remaining != {}
      invariant remaining <= groups.Keys && byRouteKey.Keys == groups.Keys - remaining
      invariant forall key <- byRouteKey :: byRouteKey[key] == Calibrate(groups[key], le)
      invariant sampleCount == FiledUnder(kept, parse, byRouteKey.Keys)
      decreases remaining
    {
      var key :| key in remaining;
      FiledUnderMore(kept, parse, byRouteKey.Keys, key);
      assert Group(kept, parse, key) == groups[key];
      byRouteKey := byRouteKey[key := Calibrate(groups[key], le)];
      assert byRouteKey.Keys == (groups.Keys - remaining) + {key};
      sampleCount := sampleCount + |groups[key]|;
      remaining := remaining - {key};
    }
    FiledUnderAll(kept, parse, byRouteKey.Keys);
    index := Index(byRouteKey, sampleCount);
  }

  /** What was skipped, the ids seen with two contents, and the cancelled observations. */
  ghost function Ignored(events: seq<Event>, parse: Parser): nat {
    Collect(events).skipped + |Collect(events).conflicted| + Cancellations(KeptOf(events), parse)
  }

  method BuildCalibrationIndex(events: seq<Event>, parse: Parser, le: Collation) returns (index: Index, ignored: nat)
    ensures IsIndexOf(index, events, parse, le)
    ensures ignored == Ignored(events, parse)
  {
    var order, signatures, conflicted, skipped := CollectUnique(events);
    CollectionDescribes(events);
    var groups, cancelled := GroupObservations(order, signatures, conflicted, parse);
    index := SummariseGroups(groups, KeptOf(events), parse, le);
    ignored := skipped + |conflicted| + cancelled;
  }

  // ----- only the multiset of kept evidence matters, but for ties of timestamps -----

  function Gather(parse: Parser, key: string): (Seen, multiset<Observation>) -> multiset<Observation> {
    (seen, group) => if FiledAt(seen, parse, key) then group + multiset{Contribution(seen, parse).value} else group
  }

  function Tally(parse: Parser): (Seen, int) -> int {
    (seen, count) => if Contribution(seen, parse).Some? then count + 1 else count
  }

  lemma {:induction false} GroupIsFold(kept: seq<Seen>, parse: Parser, key: string)
    ensures multiset(Group(kept, parse, key)) == Fold(Gather(parse, key), multiset{}, kept)
  {
    if kept != [] {
      hide RouteCalibrationKey;
      GroupIsFold(kept[..|kept| - 1], parse, key);
    }
  }

  lemma {:induction false} ContributionsAreFold(kept: seq<Seen>, parse: Parser)
    ensures Contributions(kept, parse) == Fold(Tally(parse), 0, kept)
  {
    if kept != [] {
      ContributionsAreFold(kept[..|kept| - 1], parse);
    }
  }

  lemma AddBoth(a: multiset<Observation>, x: Observation, y: Observation)
    ensures a + multiset{x} + multiset{y} == a + multiset{y} + multiset{x}
  {
  }

  lemma GatherCommutes(parse: Parser, key: string)
    ensures Commutes(Gather(parse, key))
  {
    forall x: Seen, y: Seen, a: multiset<Observation>
      ensures Gather(parse, key)(x, Gather(parse, key)(y, a)) == Gather(parse, key)(y, Gather(parse, key)(x, a))
    {
      var left, right := FiledAt(x, parse, key), FiledAt(y, parse, key);
      hide FiledAt;
      if left && right {
        AddBoth(a, Contribution(x, parse).value, Contribution(y, parse).value);
      }
    }
  }

  lemma GroupPermutes(kept: seq<Seen>, other: seq<Seen>, parse: Parser, key: string)
    requires multiset(kept) == multiset(other)
    ensures multiset(Group(kept, parse, key)) == multiset(Group(other, parse, key))
  {
    hide FiledAt;
    GroupIsFold(kept, parse, key);
    GroupIsFold(other, parse, key);
    GatherCommutes(parse, key);
    FoldPermutes(Gather(parse, key), multiset{}, kept, other);
  }

  lemma ContributionsPermute(kept: seq<Seen>, other: seq<Seen>, parse: Parser)
    requires multiset(kept) == multiset(other)
    ensures Contributions(kept, parse) == Contributions(other, parse)
  {
    ContributionsAreFold(kept, parse);
    ContributionsAreFold(other, parse);
    FoldPermutes(Tally(parse), 0, kept, other);
  }

  /** In every group the timestamps that tie for the latest are one timestamp. */
  ghost predicate RoutesAgree(kept: seq<Seen>, parse: Parser, le: Collation) {
    forall key :: LatestAgree(Group(kept, parse, key), le)
  }

  lemma IndexIsDetermined(left: Index, right: Index, kept: seq<Seen>, other: seq<Seen>, parse: Parser, le: Collation)
    requires Indexes(left, kept, parse, le) && Indexes(right, other, parse, le)
    requires multiset(kept) == multiset(other) && IsCollation(le) && RoutesAgree(kept, parse, le)
    ensures left == right
  {
    hide IsCollation, LatestAgree;
    ContributionsPermute(kept, other, parse);
    forall key ensures key in left.byRouteKey <==> key in right.byRouteKey {
      GroupPermutes(kept, other, parse, key);
      assert |multiset(Group(kept, parse, key))| == |multiset(Group(other, parse, key))|;
    }
    forall key <- left.byRouteKey ensures left.byRouteKey[key] == right.byRouteKey[key] {
      assert key in right.byRouteKey;
      GroupPermutes(kept, other, parse, key);
      CalibratePermutes(Group(kept, parse, key), Group(other, parse, key), le);
    }
    assert left.byRouteKey == right.byRouteKey;
  }

  lemma SameAgreedSameIndex(left: Index, right: Index, events: seq<Event>, other: seq<Event>, parse: Parser,
                            le: Collation)
    requires IsIndexOf(left, events, parse, le) && IsIndexOf(right, other, parse, le)
    requires Agreed(Evidence(events)) == Agreed(Evidence(other))
    requires IsCollation(le) && RoutesAgree(KeptOf(events), parse, le)
    ensures left == right
  {
    hide IsCollation, RoutesAgree;
    KeptIsAgreed(events);
    KeptIsAgreed(other);
    ListsMultiset(KeptOf(events), Agreed(Evidence(events)));
    ListsMultiset(KeptOf(other), Agreed(Evidence(other)));
    IndexIsDetermined(left, right, KeptOf(events), KeptOf(other), parse, le);
  }

  // ----- what the index depends on -----

  /** Permuting the events changes nothing, if the latest timestamps of each route agree. */
  lemma IndexIgnoresOrder(left: Index, right: Index, events: seq<Event>, permuted: seq<Event>, parse: Parser,
                          le: Collation)
    requires IsIndexOf(left, events, parse, le) && IsIndexOf(right, permuted, parse, le)
    requires multiset(events) == multiset(permuted) && IsCollation(le) && RoutesAgree(KeptOf(events), parse, le)
    ensures left == right
  {
    forall event ensures event in events <==> event in permuted {
      assert event in multiset(events) <==> event in multiset(permuted);
    }
    assert Evidence(events) == Evidence(permuted);
    SameAgreedSameIndex(left, right, events, permuted, parse, le);
  }

  /** Replaying any part of the log, in any place, changes nothing, on the same condition. */
  lemma IndexIgnoresReplay(left: Index, right: Index, events: seq<Event>, replayed: seq<Event>, parse: Parser,
                           le: Collation)
    requires IsIndexOf(left, events, parse, le) && IsIndexOf(right, replayed, parse, le)
    requires (forall event :: event in events <==> event in replayed) && IsCollation(le) &&
             RoutesAgree(KeptOf(events), parse, le)
    ensures left == right
  {
    assert Evidence(events) == Evidence(replayed);
    SameAgreedSameIndex(left, right, events, replayed, parse, le);
  }

  /** With an observation's event put last, and its timestamp among the latest, that timestamp is the route's. */
  lemma PutLastDecides(index: Index, events: seq<Event>, parse: Parser, le: Collation, seen: Seen, key: string)
    requires seen in KeptOf(events) && FiledAt(seen, parse, key) && IsCollation(le)
    requires IsLatest(Group(KeptOf(events), parse, key), le, Contribution(seen, parse).value)
    requires IsIndexOf(index, PutLast(events, seen.0), parse, le)
    ensures key in index.byRouteKey && index.byRouteKey[key].updatedAt == Contribution(seen, parse).value.timestamp
  {
    hide FiledAt, IsCollation, IsLatest, Indexes, PutLast, KeptOf, RouteCalibrationKey;
    var kept := KeptOf(PutLast(events, seen.0));
    KeptIsAgreed(events);
    PutLastIsKeptLast(events, seen);
    PutLastKeeps(events, seen.0);
    LatestFiledLast(KeptOf(events), kept, parse, le, seen, key);
    IndexedEntry(index, kept, parse, le, key);
  }

  lemma IndexedEntry(index: Index, kept: seq<Seen>, parse: Parser, le: Collation, key: string)
    requires Indexes(index, kept, parse, le) && Group(kept, parse, key) != []
    ensures key in index.byRouteKey && index.byRouteKey[key].updatedAt == UpdatedAt(Group(kept, parse, key), le)
  {
  }

  lemma PutLastKeeps(events: seq<Event>, id: string)
    ensures multiset(KeptOf(PutLast(events, id))) == multiset(KeptOf(events))
  {
    hide KeptOf, Agreed, Evidence, PutLast;
    var all := PutLast(events, id);
    KeptIsAgreed(events);
    KeptIsAgreed(all);
    SameEvidence(events, id);
    ListsMultiset(KeptOf(events), Agreed(Evidence(events)));
    ListsMultiset(KeptOf(all), Agreed(Evidence(all)));
  }

  /** In a reordering that ends with it, evidence filed under a key with a latest timestamp decides that key's. */
  lemma LatestFiledLast(kept: seq<Seen>, other: seq<Seen>, parse: Parser, le: Collation, seen: Seen, key: string)
    requires multiset(kept) == multiset(other) && other != [] && Last(other) == seen
    requires FiledAt(seen, parse, key) && IsCollation(le)
    requires IsLatest(Group(kept, parse, key), le, Contribution(seen, parse).value)
    ensures Group(other, parse, key) != []
    ensures UpdatedAt(Group(other, parse, key), le) == Contribution(seen, parse).value.timestamp
  {
    hide IsCollation, IsLatest, UpdatedAt, RouteCalibrationKey;
    var group := Group(other, parse, key);
    assert other == other[..|other| - 1] + [seen];
    GroupSnoc(other[..|other| - 1], seen, parse, key);
    assert Last(group) == Contribution(seen, parse).value;
    GroupPermutes(kept, other, parse, key);
    LatestPermutes(Group(kept, parse, key), group, le, Last(group));
    LatestLastIsTaken(group, le);
  }

  /** The condition is exact: where it fails, some order of the same events gives another index. */
  lemma IndexDependsOnOrder(index: Index, events: seq<Event>, parse: Parser, le: Collation)
    requires IsIndexOf(index, events, parse, le) && IsCollation(le) && !RoutesAgree(KeptOf(events), parse, le)
    ensures exists permuted :: multiset(permuted) == multiset(events) && !IsIndexOf(index, permuted, parse, le)
  {
    hide FiledAt, IsCollation, IsLatest;
    var kept := KeptOf(events);
    var key :| !LatestAgree(Group(kept, parse, key), le);
    var group := Group(kept, parse, key);
    var o, p :| o in group && p in group && IsLatest(group, le, o) && IsLatest(group, le, p) &&
                o.timestamp != p.timestamp;
    GroupHolds(kept, parse, key, o);
    GroupHolds(kept, parse, key, p);
    var x :| x in kept && FiledAt(x, parse, key) && Contribution(x, parse) == Some(o);
    var y :| y in kept && FiledAt(y, parse, key) && Contribution(y, parse) == Some(p);
    PutLastPermutes(events, x.0);
    PutLastPermutes(events, y.0);
    if IsIndexOf(index, PutLast(events, x.0), parse, le) {
      PutLastDecides(index, events, parse, le, x, key);
    }
    if IsIndexOf(index, PutLast(events, y.0), parse, le) {
      PutLastDecides(index, events, parse, le, y, key);
    }
  }

  /** A composed and a decomposed accent compare equal by locale: of two such timestamps the later event's is taken. */
  lemma AccentsFollowOrder(first: Observation, second: Observation, le: Collation)
    requires first.timestamp == "\U{E9}" && second.timestamp == "e\U{301}"
    requires le(first.timestamp, second.timestamp) && le(second.timestamp, first.timestamp)
    ensures Calibrate([first, second], le).updatedAt != Calibrate([second, first], le).updatedAt
  {
    assert [first, second][..1] == [first] && [second, first][..1] == [second];
    assert UpdatedAt([first], le) == first.timestamp && UpdatedAt([second], le) == second.timestamp;
    assert |first.timestamp| != |second.timestamp|;
  }

  /** An id seen with two contents contributes nothing: the index is the one of the log without that id. */
  lemma ConflictedIdIsIgnored(left: Index, right: Index, events: seq<Event>, e1: Event, e2: Event, parse: Parser,
                              le: Collation)
    requires e1 in events && e2 in events && Relevant(e1) && Relevant(e2)
    requires e1.id == e2.id && e1.signature != e2.signature
    requires IsIndexOf(left, events, parse, le) && IsIndexOf(right, WithoutId(events, e1.id), parse, le)
    requires IsCollation(le) && RoutesAgree(KeptOf(events), parse, le)
    ensures left == right
  {
    WithoutConflict(events, e1, e2);
    SameAgreedSameIndex(left, right, events, WithoutId(events, e1.id), parse, le);
  }

  lemma WithoutConflict(events: seq<Event>, e1: Event, e2: Event)
    requires e1 in events && e2 in events && Relevant(e1) && Relevant(e2)
    requires e1.id == e2.id && e1.signature != e2.signature
    ensures Agreed(Evidence(WithoutId(events, e1.id))) == Agreed(Evidence(events))
  {
    var id, rest := e1.id, WithoutId(events, e1.id);
    WithoutIdMembers(events, id);
    var evidence := Evidence(events);
    assert (id, e1.signature.value) in evidence && (id, e2.signature.value) in evidence;
    assert forall seen: Seen :: seen in Evidence(rest) <==> seen in evidence && seen.0 != id;
    forall seen: Seen ensures seen in Agreed(evidence) <==> seen in Agreed(Evidence(rest)) {
      if seen in evidence && seen.0 != id {
        assert forall other <- evidence :: other.0 == seen.0 ==> other in Evidence(rest);
      }
    }
  }

  /** In every index a route's entry has samples, all its own, its counts add up, and its percentile is among them. */
  lemma IndexedRoute(index: Index, events: seq<Event>, parse: Parser, le: Collation, key: string)
    requires IsIndexOf(index, events, parse, le) && key in index.byRouteKey
    ensures var c, group := index.byRouteKey[key], Group(KeptOf(events), parse, key);
            && c.sampleCount == |group| == c.successCount + c.failureCount + c.timeoutCount > 0
            && c.spread.p90Duration in Durations(group)
            && 10 * AtMost(Durations(group), c.spread.p90Duration) >= 9 * c.sampleCount
            && 10 * Below(Durations(group), c.spread.p90Duration) < 9 * c.sampleCount
            && forall o <- group :: RouteCalibrationKey(o.identity) == key
  {
    var group := Group(KeptOf(events), parse, key);
    GroupMembers(KeptOf(events), parse, key);
    CountsAddUp(group, le);
    P90IsPercentile(group);
  }
}
