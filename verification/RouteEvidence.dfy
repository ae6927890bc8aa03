/** Which of the observed events count: each id once, and none that was seen with two contents. */
module RouteEvidence {
  import opened Common
  import opened Folds

  /** An event is known by its id and its stable serialisation, where it has one; its content is what that parses to. */
  datatype Event = Event(id: string, routeObserved: bool, signature: Option<string>)

  type Seen = (string, string)

  predicate Relevant(event: Event) {
    event.routeObserved && event.signature.Some?
  }

  /** Ids in the order in which they were first seen, their first contents, the ids seen with another one, and how many
      events were skipped: those that do not serialise and exact repetitions. */
  datatype Collection = Collection(order: seq<string>, signatures: map<string, string>, conflicted: set<string>,
                                   skipped: nat)

  /** What one more event adds. */
  function Take(c: Collection, event: Event): Collection {
    if !event.routeObserved then c
    else if event.signature.None? then c.(skipped := c.skipped + 1)
    else
      var signature := event.signature.value;
      if event.id !in c.signatures
      then c.(order := c.order + [event.id], signatures := c.signatures[event.id := signature])
      else if c.signatures[event.id] != signature then c.(conflicted := c.conflicted + {event.id})
      else c.(skipped := c.skipped + 1)
  }

  function Collect(events: seq<Event>): Collection {
    if events == [] then Collection([], map[], {}, 0) else Take(Collect(events[..|events| - 1]), Last(events))
  }

  lemma CollectSnoc(events: seq<Event>, event: Event)
    ensures Collect(events + [event]) == Take(Collect(events), event)
  {
    assert (events + [event])[..|events|] == events;
  }

  method CollectUnique(events: seq<Event>)
    returns (order: seq<string>, signatures: map<string, string>, conflicted: set<string>, skipped: nat)
    ensures Collect(events) == Collection(order, signatures, conflicted, skipped)
  {
    order, signatures, conflicted, skipped := [], map[], {}, 0;
    for n := 0 to |events|
      invariant Collect(events[..n]) == Collection(order, signatures, conflicted, skipped)
    {
      var event := events[n];
      CollectSnoc(events[..n], event);
      assert events[..n + 1] == events[..n] + [event];
      if !event.routeObserved {
        continue;
      }
      if event.signature.None? {
        skipped := skipped + 1;
        continue;
      }
      var signature := event.signature.value;
      if event.id !in signatures {
        order := order + [event.id];
        signatures := signatures[event.id := signature];
      } else if signatures[event.id] != signature {
        conflicted := conflicted + {event.id};
      } else {
        skipped := skipped + 1;
      }
    }
    assert events[..|events|] == events;
  }

  // ----- what is collected, by the events alone -----

  function Evidence(events: seq<Event>): set<Seen> {
    set event | event in events && Relevant(event) :: (event.id, event.signature.value)
  }

  /** The evidence whose id was never seen with another content. */
  ghost function Agreed(evidence: set<Seen>): set<Seen> {
    set seen | seen in evidence && forall other <- evidence :: other.0 == seen.0 ==> other == seen
  }

  ghost predicate Describes(c: Collection, evidence: set<Seen>) {
    && (forall id :: id in c.order <==> id in c.signatures)
    && NoRepeats(c.order)
    && (forall id <- c.signatures :: (id, c.signatures[id]) in evidence)
    && (forall seen <- evidence ::
          seen.0 in c.signatures && (seen.1 != c.signatures[seen.0] ==> seen.0 in c.conflicted))
    && (forall id <- c.conflicted ::
          id in c.signatures && exists other :: other != c.signatures[id] && (id, other) in evidence)
  }

  lemma TakeDescribes(c: Collection, evidence: set<Seen>, event: Event)
    requires Describes(c, evidence)
    ensures Describes(Take(c, event), evidence + if Relevant(event) then {(event.id, event.signature.value)} else {})
  {
    if Relevant(event) {
      var seen := (event.id, event.signature.value);
      assert event.id !in c.signatures ==> event.id !in c.order;
      assert seen in evidence + {seen};
      assert forall id <- c.signatures :: (id, c.signatures[id]) in evidence + {seen};
    } else {
      assert evidence + {} == evidence;
    }
  }

  /** The collection holds the evidence: each id once, with its first content, and which ids have another one. */
  lemma {:induction false} CollectionDescribes(events: seq<Event>)
    ensures Describes(Collect(events), Evidence(events))
  {
    if events != [] {
      var init := events[..|events| - 1];
      CollectionDescribes(init);
      TakeDescribes(Collect(init), Evidence(init), Last(events));
      assert events == init + [Last(events)];
    }
  }

  // ----- what is kept -----

  function Kept(order: seq<string>, signatures: map<string, string>, conflicted: set<string>): seq<Seen>
    requires forall id <- order :: id in signatures
  {
    if order == [] then []
    else
      var kept := Kept(order[..|order| - 1], signatures, conflicted);
      if Last(order) in conflicted then kept else kept + [(Last(order), signatures[Last(order)])]
  }

  /** The kept evidence, in the order in which its ids were first seen. */
  ghost function KeptOf(events: seq<Event>): seq<Seen> {
    CollectionDescribes(events);
    var c := Collect(events);
    Kept(c.order, c.signatures, c.conflicted)
  }

  lemma {:induction false} KeptMembers(order: seq<string>, signatures: map<string, string>, conflicted: set<string>)
    requires forall id <- order :: id in signatures
    requires NoRepeats(order)
    ensures forall seen :: seen in Kept(order, signatures, conflicted) <==>
              seen.0 in order && seen.0 !in conflicted && seen.1 == signatures[seen.0]
    ensures NoRepeats(Kept(order, signatures, conflicted))
  {
    if order != [] {
      var init := order[..|order| - 1];
      KeptMembers(init, signatures, conflicted);
      assert forall id :: id in order <==> id in init || id == Last(order);
      assert Last(order) !in init;
      assert (Last(order), signatures[Last(order)]) !in Kept(init, signatures, conflicted);
    }
  }

  lemma CollectionIsOrderly(c: Collection, evidence: set<Seen>)
    requires Describes(c, evidence)
    ensures forall id :: id in c.order <==> id in c.signatures
    ensures NoRepeats(c.order)
  {
  }

  lemma CollectionKeepsAgreed(c: Collection, evidence: set<Seen>)
    requires Describes(c, evidence)
    ensures forall id <- c.order :: id in c.signatures
    ensures Lists(Kept(c.order, c.signatures, c.conflicted), Agreed(evidence))
  {
    CollectionIsOrderly(c, evidence);
    hide Agreed, Describes, Kept, NoRepeats;
    var kept := Kept(c.order, c.signatures, c.conflicted);
    KeptMembers(c.order, c.signatures, c.conflicted);
    forall seen: Seen ensures seen in kept <==> seen in Agreed(evidence) {
      assert seen in kept <==> seen.0 in c.order && seen.0 !in c.conflicted && seen.1 == c.signatures[seen.0];
    }
  }

  /** What is kept lists exactly the evidence that no other content contradicts. */
  lemma KeptIsAgreed(events: seq<Event>)
    ensures Lists(KeptOf(events), Agreed(Evidence(events)))
  {
    hide Evidence, Agreed, Describes, Collect, Kept, Lists;
    CollectionDescribes(events);
    CollectionKeepsAgreed(Collect(events), Evidence(events));
  }

  // ----- putting one id last -----

  function WithoutId(events: seq<Event>, id: string): seq<Event> {
    if events == [] then []
    else WithoutId(events[..|events| - 1], id) + if Last(events).id == id then [] else [Last(events)]
  }

  function OnlyId(events: seq<Event>, id: string): seq<Event> {
    if events == [] then []
    else OnlyId(events[..|events| - 1], id) + if Last(events).id == id then [Last(events)] else []
  }

  lemma {:induction false} WithoutIdMembers(events: seq<Event>, id: string)
    ensures forall event :: event in WithoutId(events, id) <==> event in events && event.id != id
  {
    if events != [] {
      var init := events[..|events| - 1];
      WithoutIdMembers(init, id);
      assert forall event :: event in events <==> event in init || event == Last(events);
    }
  }

  lemma {:induction false} OnlyIdMembers(events: seq<Event>, id: string)
    ensures forall event :: event in OnlyId(events, id) <==> event in events && event.id == id
  {
    if events != [] {
      var init := events[..|events| - 1];
      OnlyIdMembers(init, id);
      assert forall event :: event in events <==> event in init || event == Last(events);
    }
  }

  function PutLast(events: seq<Event>, id: string): seq<Event> {
    WithoutId(events, id) + OnlyId(events, id)
  }

  lemma {:induction false} PutLastPermutes(events: seq<Event>, id: string)
    ensures multiset(PutLast(events, id)) == multiset(events)
  {
    if events != [] {
      var init := events[..|events| - 1];
      PutLastPermutes(init, id);
      assert events == init + [Last(events)];
    }
  }

  lemma {:induction false} NotCollected(events: seq<Event>, id: string)
    requires forall event <- events :: event.id != id
    ensures id !in Collect(events).signatures && id !in Collect(events).order
  {
    if events != [] {
      assert Last(events) in events;
      assert forall event <- events[..|events| - 1] :: event in events;
      NotCollected(events[..|events| - 1], id);
    }
  }

  /** Events of one id add it once, at the end. */
  lemma {:induction false} TakeOneId(events: seq<Event>, tail: seq<Event>, id: string)
    requires forall event <- tail :: event.id == id
    requires id !in Collect(events).signatures
    ensures var c, before := Collect(events + tail), Collect(events);
            if id in c.signatures then c.order == before.order + [id] else c.order == before.order
  {
    hide Collect;
    if tail == [] {
      assert events + tail == events;
    } else {
      var init, last := tail[..|tail| - 1], Last(tail);
      assert forall event <- init :: event in tail;
      assert last in tail;
      TakeOneId(events, init, id);
      CollectSnoc(events + init, last);
      assert events + tail == events + init + [last];
    }
  }

  /** Agreed evidence whose id is put last is kept last. */
  lemma PutLastIsKeptLast(events: seq<Event>, seen: Seen)
    requires seen in Agreed(Evidence(events))
    ensures var kept := KeptOf(PutLast(events, seen.0)); kept != [] && Last(kept) == seen
  {
    var id, all := seen.0, PutLast(events, seen.0);
    SameEvidence(events, id);
    CollectionDescribes(all);
    var c := Collect(all);
    CollectionIsOrderly(c, Evidence(all));
    WithoutIdMembers(events, id);
    OnlyIdMembers(events, id);
    NotCollected(WithoutId(events, id), id);
    TakeOneId(WithoutId(events, id), OnlyId(events, id), id);
    assert Last(c.order) == id;
  }

  lemma SameEvidence(events: seq<Event>, id: string)
    ensures Evidence(PutLast(events, id)) == Evidence(events)
  {
    WithoutIdMembers(events, id);
    OnlyIdMembers(events, id);
    assert forall event :: event in PutLast(events, id) <==> event in events;
  }
}
