/** The count of ignored events, and when it depends on their order. */
module IgnoredEvents {
  import opened Common
  import opened Folds
  import opened RouteEvidence
  import opened Calibration
  import opened CalibrationIndex

  /** How often an id was seen with a content. */
  function Copies(events: seq<Event>, id: string, signature: string): nat {
    multiset(events)[Event(id, true, Some(signature))]
  }

  /** The contents of one id occur equally often. */
  ghost predicate EquallyOften(events: seq<Event>) {
    forall id, x, y | (id, x) in Evidence(events) && (id, y) in Evidence(events) ::
        Copies(events, id, x) == Copies(events, id, y)
  }

  // ----- sums over the collected ids -----

  function Sum(weight: string -> int, ids: seq<string>): int {
    if ids == [] then 0 else Sum(weight, ids[..|ids| - 1]) + weight(Last(ids))
  }

  function Add(weight: string -> int): (string, int) -> int {
    (id: string, total: int) => total + weight(id)
  }

  lemma {:induction false} SumIsFold(weight: string -> int, ids: seq<string>)
    ensures Sum(weight, ids) == Fold(Add(weight), 0, ids)
  {
    if ids != [] {
      SumIsFold(weight, ids[..|ids| - 1]);
    }
  }

  lemma {:induction false} SumAgrees(left: string -> int, right: string -> int, ids: seq<string>)
    requires forall id <- ids :: left(id) == right(id)
    ensures Sum(left, ids) == Sum(right, ids)
  {
    if ids != [] {
      assert Last(ids) in ids;
      SumAgrees(left, right, ids[..|ids| - 1]);
    }
  }

  /** Of a listing without repetition, one weight changes. */
  lemma {:induction false} SumChanges(left: string -> int, right: string -> int, ids: seq<string>, id: string)
    requires id in ids && NoRepeats(ids)
    requires forall other <- ids :: other != id ==> left(other) == right(other)
    ensures Sum(right, ids) == Sum(left, ids) + right(id) - left(id)
  {
    var init := ids[..|ids| - 1];
    assert ids == init + [Last(ids)];
    if Last(ids) == id {
      SumAgrees(left, right, init);
    } else {
      SumChanges(left, right, init, id);
    }
  }

  // ----- the skipped events -----

  function CountUnserialised(event: Event, count: int): int {
    if event.routeObserved && event.signature.None? then count + 1 else count
  }

  function Repetitions(events: seq<Event>, signatures: map<string, string>): string -> int {
    (id: string) => if id in signatures then Copies(events, id, signatures[id]) - 1 else 0
  }

  function Skips(events: seq<Event>, c: Collection): int {
    Fold(CountUnserialised, 0, events) + Sum(Repetitions(events, c.signatures), c.order)
  }

  lemma CopiesUncollected(events: seq<Event>, id: string, signature: string)
    requires id !in Collect(events).signatures
    ensures Copies(events, id, signature) == 0 && Event(id, true, Some(signature)) !in events
  {
    CollectionDescribes(events);
    assert Event(id, true, Some(signature)) in events ==> (id, signature) in Evidence(events);
  }

  /** The skipped events are those that do not serialise and the repetitions of each id's first content. */
  lemma {:induction false} SkippedCounts(events: seq<Event>)
    ensures Collect(events).skipped == Skips(events, Collect(events))
  {
    if events != [] {
      var init := events[..|events| - 1];
      assert events == init + [Last(events)];
      SkippedCounts(init);
      SkippedSnoc(init, Last(events));
      CollectSnoc(init, Last(events));
    }
  }

  /** An exact repetition of what was first seen under the id. */
  predicate Repeats(c: Collection, event: Event) {
    Relevant(event) && event.id in c.signatures && c.signatures[event.id] == event.signature.value
  }

  lemma SkippedSnoc(init: seq<Event>, event: Event)
    requires Collect(init).skipped == Skips(init, Collect(init))
    ensures Take(Collect(init), event).skipped == Skips(init + [event], Take(Collect(init), event))
  {
    hide Describes, Collect, Repetitions, Sum, Fold;
    UnserialisedSnoc(init, event);
    RepetitionsTaken(init, event);
  }

  lemma UnserialisedSnoc(init: seq<Event>, event: Event)
    ensures Fold(CountUnserialised, 0, init + [event]) == CountUnserialised(event, Fold(CountUnserialised, 0, init))
  {
    assert (init + [event])[..|init|] == init;
  }

  lemma RepetitionsTaken(init: seq<Event>, event: Event)
    ensures var before := Collect(init); var after := Take(before, event);
            Sum(Repetitions(init + [event], after.signatures), after.order) ==
            Sum(Repetitions(init, before.signatures), before.order) + if Repeats(before, event) then 1 else 0
  {
    var before := Collect(init);
    CollectionDescribes(init);
    CollectionIsOrderly(before, Evidence(init));
    RepetitionsSnoc(init, event, before);
    hide Describes, Collect, Repetitions, Evidence, Sum;
    var left := Repetitions(init, before.signatures);
    var right := Repetitions(init + [event], Take(before, event).signatures);
    if Repeats(before, event) {
      SumChanges(left, right, before.order, event.id);
    } else {
      SumAgrees(left, right, before.order);
    }
  }

  lemma RepetitionsSnoc(init: seq<Event>, event: Event, before: Collection)
    requires before == Collect(init)
    ensures var left := Repetitions(init, before.signatures);
            var right := Repetitions(init + [event], Take(before, event).signatures);
            && (forall id <- before.signatures ::
                  right(id) == left(id) + if Repeats(before, event) && id == event.id then 1 else 0)
            && (Relevant(event) && event.id !in before.signatures ==> right(event.id) == 0)
  {
    forall id, signature
      ensures Copies(init + [event], id, signature) ==
              Copies(init, id, signature) + if event == Event(id, true, Some(signature)) then 1 else 0
    {
    }
    if Relevant(event) && event.id !in before.signatures {
      CopiesUncollected(init, event.id, event.signature.value);
    }
    hide Copies, Collect;
  }

  // ----- what no order changes -----

  lemma UnserialisedPermute(events: seq<Event>, permuted: seq<Event>)
    requires multiset(events) == multiset(permuted)
    ensures Fold(CountUnserialised, 0, events) == Fold(CountUnserialised, 0, permuted)
  {
    FoldPermutes(CountUnserialised, 0, events, permuted);
  }

  function TallyCancelled(parse: Parser): (Seen, int) -> int {
    (seen, count) => if IsCancelled(seen, parse) then count + 1 else count
  }

  lemma {:induction false} CancellationsAreFold(kept: seq<Seen>, parse: Parser)
    ensures Cancellations(kept, parse) == Fold(TallyCancelled(parse), 0, kept)
  {
    if kept != [] {
      CancellationsAreFold(kept[..|kept| - 1], parse);
    }
  }

  lemma CancellationsPermute(events: seq<Event>, permuted: seq<Event>, parse: Parser)
    requires Evidence(events) == Evidence(permuted)
    ensures Cancellations(KeptOf(events), parse) == Cancellations(KeptOf(permuted), parse)
  {
    hide KeptOf, Evidence, Agreed;
    KeptIsAgreed(events);
    KeptIsAgreed(permuted);
    ListsMultiset(KeptOf(events), Agreed(Evidence(events)));
    ListsMultiset(KeptOf(permuted), Agreed(Evidence(permuted)));
    CancellationsAreFold(KeptOf(events), parse);
    CancellationsAreFold(KeptOf(permuted), parse);
    FoldPermutes(TallyCancelled(parse), 0, KeptOf(events), KeptOf(permuted));
  }

  lemma ConflictsAreEvident(left: Collection, right: Collection, evidence: set<Seen>)
    requires Describes(left, evidence) && Describes(right, evidence)
    ensures left.conflicted == right.conflicted
    ensures multiset(left.order) == multiset(right.order)
  {
    ConflictsWithin(left, right, evidence);
    ConflictsWithin(right, left, evidence);
    ListsMultiset(left.order, left.signatures.Keys);
    ListsMultiset(right.order, left.signatures.Keys);
  }

  lemma ConflictsWithin(left: Collection, right: Collection, evidence: set<Seen>)
    requires Describes(left, evidence) && Describes(right, evidence)
    ensures left.conflicted <= right.conflicted && left.signatures.Keys <= right.signatures.Keys
  {
    forall id <- left.signatures ensures id in right.signatures {
      assert (id, left.signatures[id]) in evidence;
    }
    forall id <- left.conflicted ensures id in right.conflicted {
      var other :| other != left.signatures[id] && (id, other) in evidence;
      assert (id, left.signatures[id]) in evidence;
    }
  }

  lemma SameEvents(events: seq<Event>, permuted: seq<Event>)
    requires multiset(events) == multiset(permuted)
    ensures Evidence(events) == Evidence(permuted)
  {
    forall event ensures event in events <==> event in permuted {
      assert event in multiset(events) <==> event in multiset(permuted);
    }
  }

  /** Two orders of the same events differ in what they ignore as they differ in the repetitions of first contents. */
  lemma IgnoredDiffers(events: seq<Event>, permuted: seq<Event>, parse: Parser)
    requires multiset(events) == multiset(permuted)
    ensures Ignored(permuted, parse) - Ignored(events, parse) ==
            Sum(Repetitions(events, Collect(permuted).signatures), Collect(permuted).order) -
            Sum(Repetitions(events, Collect(events).signatures), Collect(events).order)
    ensures multiset(Collect(events).order) == multiset(Collect(permuted).order)
  {
    SameEvents(events, permuted);
    CollectionDescribes(events);
    CollectionDescribes(permuted);
    ConflictsAreEvident(Collect(events), Collect(permuted), Evidence(events));
    hide Evidence, Describes, KeptOf, Collect;
    CancellationsPermute(events, permuted, parse);
    UnserialisedPermute(events, permuted);
    SkippedCounts(events);
    SkippedCounts(permuted);
    SumAgrees(Repetitions(permuted, Collect(permuted).signatures), Repetitions(events, Collect(permuted).signatures),
              Collect(permuted).order);
  }

  // ----- the condition -----

  /** If the contents of each id occur equally often, no order changes the count. */
  lemma IgnoredIgnoresOrder(events: seq<Event>, permuted: seq<Event>, parse: Parser)
    requires multiset(events) == multiset(permuted) && EquallyOften(events)
    ensures Ignored(permuted, parse) == Ignored(events, parse)
  {
    IgnoredDiffers(events, permuted, parse);
    SameEvents(events, permuted);
    CollectionDescribes(events);
    CollectionDescribes(permuted);
    var left, right := Collect(events), Collect(permuted);
    var before, after := Repetitions(events, left.signatures), Repetitions(events, right.signatures);
    forall id <- right.order ensures before(id) == after(id) {
      SameRepetitions(events, left, right, id);
    }
    hide *;
    SumAgrees(before, after, right.order);
    SumIsFold(before, left.order);
    SumIsFold(before, right.order);
    AddCommutes(before);
    FoldPermutes(Add(before), 0, left.order, right.order);
  }

  lemma AddCommutes(weight: string -> int)
    ensures Commutes(Add(weight))
  {
  }

  lemma SameRepetitions(events: seq<Event>, left: Collection, right: Collection, id: string)
    requires EquallyOften(events) && id in right.order
    requires Describes(left, Evidence(events)) && Describes(right, Evidence(events))
    ensures Repetitions(events, left.signatures)(id) == Repetitions(events, right.signatures)(id)
  {
    hide Evidence, Copies;
    ConflictsWithin(right, left, Evidence(events));
    assert (id, left.signatures[id]) in Evidence(events) && (id, right.signatures[id]) in Evidence(events);
  }

  /** Where an id is first seen. */
  lemma {:induction false} FirstSeen(events: seq<Event>, id: string) returns (i: nat)
    requires id in Collect(events).signatures
    ensures i < |events| && events[i] == Event(id, true, Some(Collect(events).signatures[id]))
    ensures id !in Collect(events[..i]).signatures
  {
    var init := events[..|events| - 1];
    if id in Collect(init).signatures {
      i := FirstSeen(init, id);
      assert init[..i] == events[..i];
    } else {
      i := |events| - 1;
    }
  }

  /** Both events are the same, or both are of this id. */
  predicate Interchanged(event: Event, other: Event, id: string) {
    other == event || (Relevant(other) && Relevant(event) && other.id == event.id == id)
  }

  lemma TakeInterchanged(left: Collection, right: Collection, event: Event, other: Event, id: string, content: string)
    requires right.order == left.order && id in left.signatures && right.signatures == left.signatures[id := content]
    requires Interchanged(event, other, id)
    ensures var l, r := Take(left, event), Take(right, other);
            r.order == l.order && id in l.signatures && r.signatures == l.signatures[id := content]
  {
  }

  lemma TakeEither(c: Collection, event: Event, other: Event, id: string)
    requires Relevant(event) && Relevant(other) && event.id == other.id == id && id !in c.signatures
    ensures Take(c, event).order == Take(c, other).order && id in Take(c, event).signatures
    ensures Take(c, other).signatures == Take(c, event).signatures[id := other.signature.value]
  {
  }

  /** Exchanging contents of one id changes at most which of them came first. */
  lemma {:induction false} ExchangeCollects(events: seq<Event>, exchanged: seq<Event>, i: nat, n: nat, id: string)
    requires i < n <= |events| == |exchanged| && exchanged[..i] == events[..i]
    requires forall k | i <= k < n :: Interchanged(events[k], exchanged[k], id)
    requires Relevant(events[i]) && Relevant(exchanged[i]) && events[i].id == exchanged[i].id == id
    requires id !in Collect(events[..i]).signatures
    ensures Collect(exchanged[..n]).order == Collect(events[..n]).order
    ensures id in Collect(events[..n]).signatures
    ensures Collect(exchanged[..n]).signatures == Collect(events[..n]).signatures[id := exchanged[i].signature.value]
    decreases n
  {
    assert events[..n] == events[..n - 1] + [events[n - 1]] &&
           exchanged[..n] == exchanged[..n - 1] + [exchanged[n - 1]];
    CollectSnoc(events[..n - 1], events[n - 1]);
    CollectSnoc(exchanged[..n - 1], exchanged[n - 1]);
    hide Collect, Take, Interchanged, Relevant;
    if n == i + 1 {
      TakeEither(Collect(events[..i]), events[i], exchanged[i], id);
    } else {
      ExchangeCollects(events, exchanged, i, n - 1, id);
      TakeInterchanged(Collect(events[..n - 1]), Collect(exchanged[..n - 1]), events[n - 1], exchanged[n - 1], id,
                       exchanged[i].signature.value);
    }
  }

  /** The condition is exact: where it fails, some order of the same events is counted differently. */
  lemma IgnoredDependsOnOrder(events: seq<Event>, parse: Parser)
    requires !EquallyOften(events)
    ensures exists permuted ::
              multiset(permuted) == multiset(events) && Ignored(permuted, parse) != Ignored(events, parse)
  {
    CollectionDescribes(events);
    var id, x, y :| (id, x) in Evidence(events) && (id, y) in Evidence(events) &&
                    Copies(events, id, x) != Copies(events, id, y);
    var first := Collect(events).signatures[id];
    var other := if Copies(events, id, x) != Copies(events, id, first) then x else y;
    OtherFirst(events, parse, id, other);
  }

  lemma OtherFirst(events: seq<Event>, parse: Parser, id: string, other: string)
    requires (id, other) in Evidence(events) && id in Collect(events).signatures
    requires Copies(events, id, other) != Copies(events, id, Collect(events).signatures[id])
    ensures exists permuted ::
              multiset(permuted) == multiset(events) && Ignored(permuted, parse) != Ignored(events, parse)
  {
    var exchanged := BringForward(events, id, other);
    CollectionDescribes(events);
    CollectionIsOrderly(Collect(events), Evidence(events));
    hide Describes, Collect, Evidence, Ignored, Copies, Repetitions;
    IgnoredDiffers(events, exchanged, parse);
    SumChanges(Repetitions(events, Collect(events).signatures), Repetitions(events, Collect(exchanged).signatures),
               Collect(events).order, id);
  }

  /** An order in which another content of an id comes first, and all else is collected as before. */
  lemma BringForward(events: seq<Event>, id: string, other: string) returns (exchanged: seq<Event>)
    requires (id, other) in Evidence(events) && id in Collect(events).signatures
    ensures multiset(exchanged) == multiset(events) && Collect(exchanged).order == Collect(events).order
    ensures Collect(exchanged).signatures == Collect(events).signatures[id := other]
  {
    var i := FirstSeen(events, id);
    var event := Event(id, true, Some(other));
    var j :| 0 <= j < |events| && events[j] == event;
    CopiesUncollected(events[..i], id, other);
    hide Collect, Evidence, Copies;
    assert forall k | 0 <= k < i :: events[k] == events[..i][k];
    exchanged := Exchanged(events, i, j);
    ExchangedPermutes(events, i, j);
    ExchangeCollects(events, exchanged, i, |events|, id);
    Whole(events);
    Whole(exchanged);
  }

  lemma Whole(events: seq<Event>)
    ensures events[..|events|] == events
  {
  }

  function Exchanged(events: seq<Event>, i: nat, j: nat): seq<Event>
    requires i <= j < |events|
  {
    events[i := events[j]][j := events[i]]
  }

  lemma ExchangedPermutes(events: seq<Event>, i: nat, j: nat)
    requires i <= j < |events|
    ensures multiset(Exchanged(events, i, j)) == multiset(events) && Exchanged(events, i, j)[..i] == events[..i]
  {
  }
}
