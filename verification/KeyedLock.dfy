/**
 The lock that chains promises per key. A call puts its own tail promise into the table, awaits the tail it found
 there, runs its operation, and resolves its tail whether the operation returned or threw.
 */
module KeyedLock {
  import opened Common

  datatype Phase = Waiting | Running | Finished(threw: bool)

  /** A call is known by its position in the order of calls, which also names its tail promise. */
  datatype Call = Call(key: string, previous: Option<nat>, phase: Phase)

  /** What the scheduler may do next. An event that is not enabled stands for one that cannot happen. */
  datatype Event = Enter(key: string) | Resume(call: nat) | Complete(call: nat, threw: bool)

  predicate Outstanding(calls: seq<Call>, i: nat) {
    i < |calls| && !calls[i].phase.Finished?
  }

  predicate Started(calls: seq<Call>, i: nat) {
    i < |calls| && !calls[i].phase.Waiting?
  }

  predicate SameKey(calls: seq<Call>, i: nat, j: nat) {
    i < |calls| && j < |calls| && calls[i].key == calls[j].key
  }

  /** A call awaits the call just before it on the same key. */
  predicate Awaits(calls: seq<Call>, i: nat, p: nat) {
    p < i && SameKey(calls, p, i) && forall j: nat | p < j < i :: !SameKey(calls, j, i)
  }

  predicate Chained(calls: seq<Call>) {
    forall i: nat | i < |calls| && calls[i].previous.Some? :: Awaits(calls, i, calls[i].previous.value)
  }

  /** Every earlier call on the key of `i` is over. */
  predicate Served(calls: seq<Call>, i: nat) {
    forall j: nat | j < i && SameKey(calls, j, i) :: !Outstanding(calls, j)
  }

  /** Once a call has started, or if it found nothing to wait for, everything before it on its key is over. */
  predicate InOrder(calls: seq<Call>) {
    forall i: nat | i < |calls| && (calls[i].previous.None? || Started(calls, i)) :: Served(calls, i)
  }

  /** The newest call on a key, still outstanding. */
  predicate Newest(calls: seq<Call>, key: string, i: nat) {
    Outstanding(calls, i) && calls[i].key == key && forall j: nat | i < j < |calls| :: calls[j].key != key
  }

  /** The table holds a key exactly while a call on it is outstanding, and then its newest call. */
  ghost predicate TableExact(tails: map<string, nat>, calls: seq<Call>) {
    && (forall key <- tails :: Newest(calls, key, tails[key]))
    && (forall i: nat | Outstanding(calls, i) :: calls[i].key in tails)
  }

  /** The calls that have started, and operations on one key started in the order of the calls. */
  ghost predicate FirstComeFirstServed(started: seq<nat>, calls: seq<Call>) {
    && (forall i: nat :: i in started <==> Started(calls, i))
    && (forall a, b | 0 <= a < b < |started| && SameKey(calls, started[a], started[b]) :: started[a] < started[b])
  }

  // ----- first come, first served, without promises -----

  /** A call as a place in a queue. */
  datatype Job = Job(key: string, phase: Phase)

  function Jobs(calls: seq<Call>): (jobs: seq<Job>)
    ensures |jobs| == |calls| && forall i | 0 <= i < |calls| :: jobs[i] == Job(calls[i].key, calls[i].phase)
  {
    seq(|calls|, i requires 0 <= i < |calls| => Job(calls[i].key, calls[i].phase))
  }

  /** A waiting job is next when every earlier job on its key is over. */
  predicate IsNext(jobs: seq<Job>, i: nat) {
    && i < |jobs| && jobs[i].phase.Waiting?
    && forall j | 0 <= j < i :: jobs[j].key == jobs[i].key ==> jobs[j].phase.Finished?
  }

  function Serve(jobs: seq<Job>, event: Event): seq<Job> {
    match event
    case Enter(key) => jobs + [Job(key, Waiting)]
    case Resume(i) => if IsNext(jobs, i) then jobs[i := jobs[i].(phase := Running)] else jobs
    case Complete(i, threw) =>
      if i < |jobs| && jobs[i].phase.Running? then jobs[i := jobs[i].(phase := Finished(threw))] else jobs
  }

  function ServeAll(jobs: seq<Job>, schedule: seq<Event>): seq<Job> {
    if schedule == [] then jobs else Serve(ServeAll(jobs, schedule[..|schedule| - 1]), Last(schedule))
  }

  class Lock {
    /** The table: the tail promise each key is waiting on. */
    var tails: map<string, nat>
    var calls: seq<Call>
    var resolved: set<nat>
    /** The calls in the order in which their operations started. */
    ghost var started: seq<nat>

    ghost predicate Valid()
      reads this
    {
      && Chained(calls) && InOrder(calls)
      && TableExact(tails, calls) && FirstComeFirstServed(started, calls)
      && (forall i: nat | i < |calls| :: i in resolved <==> calls[i].phase.Finished?)
    }

    constructor ()
      ensures Valid() && calls == [] && started == []
    {
      tails, calls, resolved, started := map[], [], {}, [];
    }

    predicate CanResume(i: nat)
      reads this
    {
      i < |calls| && calls[i].phase.Waiting? && (calls[i].previous.Some? ==> calls[i].previous.value in resolved)
    }

    predicate CanComplete(i: nat)
      reads this
    {
      i < |calls| && calls[i].phase.Running?
    }

    method Enter(key: string) returns (i: nat)
      requires Valid()
      modifies `tails, `calls, `resolved
      ensures Valid() && i == |old(calls)|
      ensures exists previous :: calls == old(calls) + [Call(key, previous, Waiting)]
    {
      hide Chained, InOrder, TableExact, FirstComeFirstServed;
      var previous := if key in tails then Some(tails[key]) else None;
      i := |calls|;
      var call := Call(key, previous, Waiting);
      EnterKeepsOrder(tails, calls, call);
      EnterKeepsTable(tails, calls, call);
      EnterKeepsStarted(started, calls, call);
      tails := tails[key := i];
      calls := calls + [call];
      resolved := resolved - {i};
    }

    /** The awaited tail has resolved; the operation starts. */
    method Resume(i: nat)
      requires Valid() && CanResume(i)
      modifies `calls, `started
      ensures Valid()
      ensures calls == old(calls)[i := old(calls)[i].(phase := Running)] && started == old(started) + [i]
    {
      hide InOrder, TableExact, FirstComeFirstServed;
      assert calls[i].previous.Some? ==> Awaits(calls, i, calls[i].previous.value);
      ResumeIsServed(calls, i);
      PhaseKeepsOrder(calls, i, Running);
      PhaseKeepsTable(tails, calls, i);
      ResumeKeepsStarted(started, calls, i);
      calls := calls[i := calls[i].(phase := Running)];
      started := started + [i];
    }

    /** The operation has returned or thrown. */
    method Complete(i: nat, threw: bool)
      requires Valid() && CanComplete(i)
      modifies `calls, `resolved, `tails
      ensures Valid()
      ensures calls == old(calls)[i := old(calls)[i].(phase := Finished(threw))]
    {
      hide Chained, InOrder, TableExact, FirstComeFirstServed;
      StartedIsServed(calls, i);
      PhaseKeepsOrder(calls, i, Finished(threw));
      CompleteKeepsTable(tails, calls, i, threw);
      CompleteKeepsStarted(started, calls, i, threw);
      var key := calls[i].key;
      resolved := resolved + {i};
      calls := calls[i := calls[i].(phase := Finished(threw))];
      if key in tails && tails[key] == i {
        tails := tails - {key};
      }
    }

    /** Two operations never run on one key at the same time. */
    lemma MutualExclusion(i: nat, j: nat)
      requires Valid() && SameKey(calls, i, j)
      requires calls[i].phase.Running? && calls[j].phase.Running?
      ensures i == j
    {
      assert Started(calls, i) && Served(calls, i);
      assert Started(calls, j) && Served(calls, j);
      assert Outstanding(calls, i) && Outstanding(calls, j);
      assert SameKey(calls, j, i);
    }

    /** The lock never gets stuck: while calls are outstanding on a key, the oldest one is running or can resume. */
    lemma OldestProceeds(i: nat)
      requires Valid() && Outstanding(calls, i) && Served(calls, i)
      ensures CanResume(i) || CanComplete(i)
    {
      if calls[i].previous.Some? {
        assert Awaits(calls, i, calls[i].previous.value);
        assert !Outstanding(calls, calls[i].previous.value);
      }
    }

    /** A call can resume exactly if it is next in the queue of its key. */
    lemma ResumesInTurn(i: nat)
      requires Valid()
      ensures CanResume(i) <==> IsNext(Jobs(calls), i)
    {
      hide TableExact, FirstComeFirstServed;
      if CanResume(i) {
        assert calls[i].previous.Some? ==> Awaits(calls, i, calls[i].previous.value);
        ResumeIsServed(calls, i);
        forall j | 0 <= j < i && calls[j].key == calls[i].key ensures calls[j].phase.Finished? {
          assert SameKey(calls, j, i) && !Outstanding(calls, j);
        }
      }
      if IsNext(Jobs(calls), i) && calls[i].previous.Some? {
        assert Awaits(calls, i, calls[i].previous.value);
      }
    }

    /** Any schedule whatsoever of any calls, from any valid state: the promises serve it as the queue does. */
    method Run(schedule: seq<Event>)
      requires Valid()
      modifies this
      ensures Valid()
      ensures Jobs(calls) == ServeAll(Jobs(old(calls)), schedule)
      ensures |old(calls)| <= |calls| && old(started) <= started
    {
      hide Valid, CanResume;
      for n := 0 to |schedule|
        invariant Valid()
        invariant Jobs(calls) == ServeAll(Jobs(old(calls)), schedule[..n])
        invariant |old(calls)| <= |calls| && old(started) <= started
      {
        assert schedule[..n + 1][..n] == schedule[..n];
        ghost var before := Jobs(calls);
        match schedule[n]
        case Enter(key) =>
          var i := Enter(key);
        case Resume(i) =>
          ResumesInTurn(i);
          if CanResume(i) {
            Resume(i);
          }
        case Complete(i, threw) =>
          if CanComplete(i) {
            Complete(i, threw);
            assert Jobs(calls) == Serve(before, schedule[n]);
          }
      }
      assert schedule[..|schedule|] == schedule;
    }
  }

  /** A key is in the table if and only if a call on it is outstanding. */
  lemma TableMirrorsOutstanding(tails: map<string, nat>, calls: seq<Call>, key: string)
    requires TableExact(tails, calls)
    ensures key in tails <==> exists i: nat :: Outstanding(calls, i) && calls[i].key == key
  {
    if key in tails {
      assert Newest(calls, key, tails[key]);
    }
  }

  // ----- what entering keeps -----

  lemma EnterKeepsOrder(tails: map<string, nat>, calls: seq<Call>, call: Call)
    requires Chained(calls) && InOrder(calls) && TableExact(tails, calls)
    requires call.previous == (if call.key in tails then Some(tails[call.key]) else None) && call.phase == Waiting
    ensures Chained(calls + [call]) && InOrder(calls + [call])
  {
    var after, n := calls + [call], |calls|;
    assert call.key in tails ==> Newest(calls, call.key, tails[call.key]);
    forall i: nat | i < |after| && after[i].previous.Some? ensures Awaits(after, i, after[i].previous.value) {
      if i < n {
        assert Awaits(calls, i, calls[i].previous.value);
        assert forall j: nat | j < i :: SameKey(after, j, i) == SameKey(calls, j, i);
      }
    }
    forall i: nat | i < |after| && (after[i].previous.None? || Started(after, i)) ensures Served(after, i) {
      if i < n {
        assert Started(after, i) == Started(calls, i);
        assert Served(calls, i);
        assert forall j: nat | j < i ::
            SameKey(after, j, i) == SameKey(calls, j, i) && Outstanding(after, j) == Outstanding(calls, j);
      } else {
        assert forall j: nat | j < i :: Outstanding(after, j) == Outstanding(calls, j);
      }
    }
  }

  lemma EnterKeepsTable(tails: map<string, nat>, calls: seq<Call>, call: Call)
    requires TableExact(tails, calls) && call.phase == Waiting
    ensures TableExact(tails[call.key := |calls|], calls + [call])
  {
    var after := calls + [call];
    forall key <- tails | key != call.key ensures Newest(after, key, tails[key]) {
      assert Newest(calls, key, tails[key]);
    }
    forall i: nat | Outstanding(after, i) ensures after[i].key in tails[call.key := |calls|] {
      assert i < |calls| ==> Outstanding(calls, i);
    }
  }

  lemma EnterKeepsStarted(started: seq<nat>, calls: seq<Call>, call: Call)
    requires FirstComeFirstServed(started, calls) && call.phase == Waiting
    ensures FirstComeFirstServed(started, calls + [call])
  {
    var after := calls + [call];
    assert forall i: nat :: Started(after, i) == Started(calls, i);
    forall a, b | 0 <= a < b < |started| && SameKey(after, started[a], started[b]) ensures started[a] < started[b] {
      assert Started(calls, started[a]) && Started(calls, started[b]);
      assert SameKey(calls, started[a], started[b]);
    }
  }

  // ----- what a change of phase keeps -----

  lemma StartedIsServed(calls: seq<Call>, i: nat)
    requires InOrder(calls) && Started(calls, i)
    ensures Served(calls, i)
  {
  }

  /** A call that awaits a resolved tail has nothing outstanding before it. */
  lemma ResumeIsServed(calls: seq<Call>, i: nat)
    requires Chained(calls) && InOrder(calls) && i < |calls|
    requires calls[i].previous.Some? ==>
              calls[i].previous.value < |calls| && calls[calls[i].previous.value].phase.Finished?
    ensures Served(calls, i)
  {
    if calls[i].previous.Some? {
      var p := calls[i].previous.value;
      assert Awaits(calls, i, p) && Started(calls, p) && Served(calls, p);
      forall j: nat | j < i && SameKey(calls, j, i) ensures !Outstanding(calls, j) {
        assert j <= p;
        assert j < p ==> SameKey(calls, j, p);
      }
    }
  }

  lemma PhaseKeepsOrder(calls: seq<Call>, i: nat, phase: Phase)
    requires Chained(calls) && InOrder(calls) && i < |calls| && Served(calls, i)
    requires Outstanding(calls, i)
    ensures Chained(calls[i := calls[i].(phase := phase)]) && InOrder(calls[i := calls[i].(phase := phase)])
  {
    var after := calls[i := calls[i].(phase := phase)];
    assert forall j: nat, k: nat :: SameKey(after, j, k) == SameKey(calls, j, k);
    forall k: nat | k < |after| && after[k].previous.Some? ensures Awaits(after, k, after[k].previous.value) {
      assert Awaits(calls, k, calls[k].previous.value);
    }
    assert forall j: nat | Outstanding(after, j) :: Outstanding(calls, j);
    forall k: nat | k < |after| && (after[k].previous.None? || Started(after, k)) ensures Served(after, k) {
      assert k != i ==> Started(after, k) == Started(calls, k);
      assert Served(calls, k);
    }
  }

  lemma PhaseKeepsTable(tails: map<string, nat>, calls: seq<Call>, i: nat)
    requires TableExact(tails, calls) && i < |calls| && calls[i].phase == Waiting
    ensures TableExact(tails, calls[i := calls[i].(phase := Running)])
  {
    var after := calls[i := calls[i].(phase := Running)];
    assert forall j: nat :: Outstanding(after, j) == Outstanding(calls, j);
    forall key <- tails ensures Newest(after, key, tails[key]) {
      assert Newest(calls, key, tails[key]);
    }
  }

  lemma ResumeKeepsStarted(started: seq<nat>, calls: seq<Call>, i: nat)
    requires FirstComeFirstServed(started, calls) && InOrder(calls)
    requires i < |calls| && calls[i].phase == Waiting
    ensures FirstComeFirstServed(started + [i], calls[i := calls[i].(phase := Running)])
  {
    var after, started' := calls[i := calls[i].(phase := Running)], started + [i];
    forall k: nat ensures k in started' <==> Started(after, k) {
      assert k in started' <==> k in started || k == i;
      assert k != i ==> Started(after, k) == Started(calls, k);
    }
    forall a, b | 0 <= a < b < |started'| && SameKey(after, started'[a], started'[b])
      ensures started'[a] < started'[b]
    {
      assert started[a] in started && Started(calls, started[a]);
      if b < |started| {
        assert SameKey(calls, started[a], started[b]);
      } else if i < started[a] {
        assert Served(calls, started[a]) && SameKey(calls, i, started[a]) && Outstanding(calls, i);
      } else {
        assert !Started(calls, i);
      }
    }
  }

  lemma CompleteKeepsTable(tails: map<string, nat>, calls: seq<Call>, i: nat, threw: bool)
    requires TableExact(tails, calls) && i < |calls| && calls[i].phase.Running? && Served(calls, i)
    ensures var after := calls[i := calls[i].(phase := Finished(threw))];
            TableExact(if calls[i].key in tails && tails[calls[i].key] == i then tails - {calls[i].key} else tails,
                       after)
  {
    var after := calls[i := calls[i].(phase := Finished(threw))];
    assert forall j: nat :: Outstanding(after, j) <==> j != i && Outstanding(calls, j);
    assert Outstanding(calls, i);
    forall key <- tails | tails[key] != i ensures Newest(after, key, tails[key]) {
      assert Newest(calls, key, tails[key]);
    }
    forall j: nat | Outstanding(after, j) && tails[calls[i].key] == i ensures after[j].key != calls[i].key {
      assert Newest(calls, calls[i].key, i);
      assert j < i ==> !SameKey(calls, j, i);
    }
    assert forall key <- tails | tails[key] == i :: Newest(calls, key, i);
  }

  lemma CompleteKeepsStarted(started: seq<nat>, calls: seq<Call>, i: nat, threw: bool)
    requires FirstComeFirstServed(started, calls) && i < |calls| && calls[i].phase.Running?
    ensures FirstComeFirstServed(started, calls[i := calls[i].(phase := Finished(threw))])
  {
    var after := calls[i := calls[i].(phase := Finished(threw))];
    assert forall k: nat :: Started(after, k) == Started(calls, k);
    assert forall j: nat, k: nat :: SameKey(after, j, k) == SameKey(calls, j, k);
  }
}
