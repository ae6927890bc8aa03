/** The pending-request table of the JSON-RPC client, and the retrying call on top of it. */
module JsonRpc {
  import opened Common

  type Id = nat

  const READ_METHODS := {"model/list", "account/read", "account/rateLimits/read"}
  const MAX_READ_RETRIES: nat := 3
  const OVERLOADED := -32001

  /** How a request settles. */
  datatype Outcome =
    | Result(value: string)
    | RpcError(code: Option<int>)
    | Malformed
    | TimedOut
    | Aborted
    | TransportFailed
    | SendFailed

  /** The members a response object carries. */
  datatype ErrorMember = NoError | NotAnObject | ErrorObject(code: Option<int>)
  datatype Response = Response(id: Id, result: Option<string>, error: ErrorMember)

  /** Exactly one of result and error is expected (JSON-RPC 2.0, section 5). */
  function ResponseOutcome(response: Response): Outcome {
    if response.result.Some? == !response.error.NoError? then Malformed
    else if response.error.NotAnObject? then Malformed
    else if response.error.ErrorObject? then RpcError(response.error.code)
    else Result(response.result.value)
  }

  datatype Request = Request(rpc: string, due: int, hasSignal: bool)

  datatype Frame = Frame(id: Id, rpc: string)

  predicate DistinctIds(frames: seq<Frame>) {
    forall i, j | 0 <= i < j < |frames| :: frames[i].id != frames[j].id
  }

  /** Every issued id is either pending, with its timer and listener in place, or settled, with nothing left behind. */
  ghost predicate TableValid(nextId: Id, pending: map<Id, Request>, settled: map<Id, Outcome>, timers: map<Id, int>,
                             listeners: set<Id>)
  {
    && 1 <= nextId
    && pending.Keys !! settled.Keys
    && (forall id :: 1 <= id < nextId <==> id in pending || id in settled)
    && timers.Keys == pending.Keys && (forall id <- pending :: timers[id] == pending[id].due)
    && (forall id :: id in listeners <==> id in pending && pending[id].hasSignal)
  }

  lemma EntersTable(id: Id, pending: map<Id, Request>, settled: map<Id, Outcome>, timers: map<Id, int>,
                    listeners: set<Id>, request: Request)
    requires TableValid(id, pending, settled, timers, listeners)
    ensures id >= 1 && id !in pending && id !in settled
    ensures TableValid(id + 1, pending[id := request], settled, timers[id := request.due],
                       if request.hasSignal then listeners + {id} else listeners)
  {
  }

  class JsonRpcClient {
    var nextId: Id
    var pending: map<Id, Request>
    /** Promises that have been resolved or rejected, with how. */
    var settled: map<Id, Outcome>
    /** Armed timers with their due times, and abort listeners still attached. */
    var timers: map<Id, int>
    var listeners: set<Id>
    /** What was written to the transport. */
    var frames: seq<Frame>

    ghost predicate Valid()
      reads this
    {
      && TableValid(nextId, pending, settled, timers, listeners)
      && DistinctIds(frames)
      && (forall frame <- frames :: 1 <= frame.id < nextId)
    }

    /** What every event leaves true of what came before it. */
    twostate predicate Evolves()
      reads this
    {
      && old(nextId) <= nextId
      && (forall id <- old(settled) :: id in settled && settled[id] == old(settled)[id])
      && (forall id <- old(pending) :: (id in pending && pending[id] == old(pending)[id]) || id in settled)
      && old(frames) <= frames
      && (forall i | |old(frames)| <= i < |frames| :: frames[i].id >= old(nextId))
    }

    constructor ()
      ensures Valid() && nextId == 1 && pending == map[] && settled == map[] && frames == []
    {
      nextId := 1;
      pending, settled, timers := map[], map[], map[];
      listeners := {};
      frames := [];
    }

    /** Settling a promise that is already settled does nothing. */
    method Settle(id: Id, outcome: Outcome)
      modifies `settled
      ensures settled == if id in old(settled) then old(settled) else old(settled)[id := outcome]
    {
      if id !in settled {
        settled := settled[id := outcome];
      }
    }

    method CleanupPending(id: Id)
      modifies `pending, `timers, `listeners
      ensures pending == old(pending) - {id} && timers == old(timers) - {id} && listeners == old(listeners) - {id}
    {
      pending := pending - {id};
      timers := timers - {id};
      listeners := listeners - {id};
    }

    /** One pending id settles, everything else stays. */
    twostate predicate SettlesOnly(id: Id, outcome: Outcome)
      reads this
    {
      && id !in old(settled)
      && pending == old(pending) - {id}
      && settled == old(settled)[id := outcome]
      && nextId == old(nextId) && frames == old(frames)
    }

    /** Enters a fresh id into the table, with its timer and listener. */
    method Register(rpc: string, due: int, hasSignal: bool) returns (id: Id)
      requires Valid()
      modifies this
      ensures Valid() && Evolves()
      ensures id == old(nextId) && nextId == id + 1 && id !in old(settled) && id !in old(pending)
      ensures forall frame <- frames :: frame.id < id
      ensures pending == old(pending)[id := Request(rpc, due, hasSignal)] && settled == old(settled) &&
              frames == old(frames)
      ensures hasSignal ==> id in listeners
    {
      hide DistinctIds, TableValid;
      EntersTable(nextId, pending, settled, timers, listeners, Request(rpc, due, hasSignal));
      id := nextId;
      nextId := nextId + 1;
      timers := timers[id := due];
      pending := pending[id := Request(rpc, due, hasSignal)];
      if hasSignal {
        listeners := listeners + {id};
      }
    }

    method RequestOnce(rpc: string, due: int, hasSignal: bool, aborted: bool, writable: bool) returns (id: Id)
      requires Valid()
      requires aborted ==> hasSignal
      modifies this
      ensures Valid() && Evolves()
      ensures id == old(nextId) && nextId == id + 1
      ensures aborted ==> frames == old(frames) && pending == old(pending) && settled == old(settled)[id := Aborted]
      ensures !aborted && !writable ==>
                frames == old(frames) && pending == old(pending) && settled == old(settled)[id := SendFailed]
      ensures !aborted && writable ==>
                && frames == old(frames) + [Frame(id, rpc)]
                && pending == old(pending)[id := Request(rpc, due, hasSignal)] && settled == old(settled)
    {
      hide Valid;
      id := Register(rpc, due, hasSignal);
      if aborted {
        OnAbort(id);
        assert pending == old(pending);
      }
      if id !in pending {
        return;
      }
      if writable {
        Write(id, rpc);
      } else {
        OnSendFailure(id);
        assert pending == old(pending);
      }
    }

    method Write(id: Id, rpc: string)
      requires Valid() && id in pending
      requires forall frame <- frames :: frame.id < id
      modifies `frames
      ensures Valid() && frames == old(frames) + [Frame(id, rpc)]
    {
      frames := frames + [Frame(id, rpc)];
    }

    method OnSendFailure(id: Id)
      requires Valid() && id in pending
      modifies this
      ensures Valid() && Evolves() && SettlesOnly(id, SendFailed)
    {
      CleanupPending(id);
      Settle(id, SendFailed);
    }

    /** The timer of an id fires; only an armed timer can. */
    method OnTimeout(id: Id)
      requires Valid() && id in timers
      modifies this
      ensures Valid() && Evolves() && SettlesOnly(id, TimedOut)
    {
      if id in pending {
        CleanupPending(id);
      }
      Settle(id, TimedOut);
    }

    /** The abort signal of an id fires; only an attached listener hears it. */
    method OnAbort(id: Id)
      requires Valid() && id in listeners
      modifies this
      ensures Valid() && Evolves() && SettlesOnly(id, Aborted)
    {
      if id in pending {
        CleanupPending(id);
      }
      Settle(id, Aborted);
    }

    /**
     A response settles its pending request, with its result, with its error's code, or as malformed; a response to any
     other id changes nothing.
     */
    method OnResponse(response: Response)
      requires Valid()
      modifies this
      ensures Valid() && Evolves()
      ensures response.id in old(pending) ==>
                && response.id in settled && SettlesOnly(response.id, settled[response.id])
                && (response.result.Some? && response.error.NoError? ==>
                      settled[response.id] == Result(response.result.value))
                && (response.result.None? && response.error.ErrorObject? ==>
                      settled[response.id] == RpcError(response.error.code))
                && (settled[response.id] == Malformed <==>
                      || response.error.NotAnObject?
                      || (response.result.Some? <==> response.error.ErrorObject?))
      ensures response.id !in old(pending) ==> unchanged(this)
    {
      if response.id !in pending {
        return;
      }
      CleanupPending(response.id);
      Settle(response.id, ResponseOutcome(response));
    }

    /** The transport exits or fails: everything pending is rejected. */
    method RejectAll()
      requires Valid()
      modifies this
      ensures Valid() && Evolves()
      ensures pending == map[] && timers == map[] && listeners == {}
      ensures nextId == old(nextId) && frames == old(frames)
      ensures forall id <- old(pending) :: id in settled && settled[id] == TransportFailed
    {
      RejectingBegins(nextId, pending, settled, timers, listeners);
      hide DistinctIds, TableValid, Rejecting;
      var rest := pending.Keys;
      while rest != {}
        invariant pending == old(pending) && nextId == old(nextId) && frames == old(frames)
        invariant Rejecting(rest, pending, old(settled), settled, timers, listeners)
        decreases rest
      {
        var id :| id in rest;
        RejectingStep(rest, pending, old(settled), settled, timers, listeners, id);
        timers := timers - {id};
        listeners := listeners - {id};
        Settle(id, TransportFailed);
        rest := rest - {id};
      }
      RejectingEnds(nextId, pending, old(settled), old(timers), old(listeners), settled, timers, listeners);
      pending := map[];
    }
  }

  /** The ids in `rest` are still to be rejected; the other pending ones have been. */
  ghost predicate Rejecting(rest: set<Id>, pending: map<Id, Request>, before: map<Id, Outcome>,
                            settled: map<Id, Outcome>, timers: map<Id, int>, listeners: set<Id>)
  {
    && rest <= pending.Keys && timers.Keys == rest && listeners <= rest
    && settled.Keys == before.Keys + (pending.Keys - rest)
    && (forall id <- settled :: settled[id] == if id in pending then TransportFailed else before[id])
  }

  lemma RejectingBegins(nextId: Id, pending: map<Id, Request>, settled: map<Id, Outcome>, timers: map<Id, int>,
                        listeners: set<Id>)
    requires TableValid(nextId, pending, settled, timers, listeners)
    ensures Rejecting(pending.Keys, pending, settled, settled, timers, listeners)
  {
  }

  lemma RejectingStep(rest: set<Id>, pending: map<Id, Request>, before: map<Id, Outcome>, settled: map<Id, Outcome>,
                      timers: map<Id, int>, listeners: set<Id>, id: Id)
    requires Rejecting(rest, pending, before, settled, timers, listeners) && id in rest
    ensures Rejecting(rest - {id}, pending, before, if id in settled then settled else settled[id := TransportFailed],
                      timers - {id}, listeners - {id})
  {
  }

  lemma RejectingEnds(nextId: Id, pending: map<Id, Request>, before: map<Id, Outcome>, timers0: map<Id, int>,
                      listeners0: set<Id>, settled: map<Id, Outcome>, timers: map<Id, int>, listeners: set<Id>)
    requires TableValid(nextId, pending, before, timers0, listeners0)
    requires Rejecting({}, pending, before, settled, timers, listeners)
    ensures TableValid(nextId, map[], settled, timers, listeners) && timers == map[] && listeners == {}
    ensures forall id <- pending :: id in settled && settled[id] == TransportFailed
    ensures forall id <- before :: id in settled && settled[id] == before[id]
  {
  }

  // ----- the retrying call -----

  datatype Phase = Running | Waiting(id: Id) | BackingOff(until: int) | Finished(outcome: Outcome)

  function MaximumAttempts(rpc: string): (n: nat)
    ensures rpc !in READ_METHODS ==> n == 1
    ensures 1 <= n <= 3
  {
    if rpc in READ_METHODS then MAX_READ_RETRIES else 1
  }

  predicate Retryable(outcome: Outcome) {
    outcome == RpcError(Some(OVERLOADED))
  }

  function Backoff(attempt: nat, jitter: nat): nat
    requires 1 <= attempt <= 3
  {
    100 * (if attempt == 1 then 1 else if attempt == 2 then 2 else 4) + jitter
  }

  ghost function IdSet(ids: seq<Id>): set<Id> {
    set id | id in ids
  }

  /** How many of the frames carry one of these ids. */
  function FramesWith(frames: seq<Frame>, ids: set<Id>): nat {
    if frames == [] then 0
    else FramesWith(frames[..|frames| - 1], ids) + if Last(frames).id in ids then 1 else 0
  }

  lemma {:induction false} FramesWithinIds(frames: seq<Frame>, ids: set<Id>)
    requires DistinctIds(frames)
    ensures FramesWith(frames, ids) <= |ids|
  {
    if frames != [] {
      var before := frames[..|frames| - 1];
      if Last(frames).id in ids {
        FramesWithinIds(before, ids - {Last(frames).id});
        FramesWithout(before, ids, Last(frames).id);
      } else {
        FramesWithinIds(before, ids);
      }
    }
  }

  lemma {:induction false} FramesWithout(frames: seq<Frame>, ids: set<Id>, id: Id)
    requires forall frame <- frames :: frame.id != id
    ensures FramesWith(frames, ids) == FramesWith(frames, ids - {id})
  {
    if frames != [] {
      FramesWithout(frames[..|frames| - 1], ids, id);
      assert Last(frames) in frames;
    }
  }

  /** One `request` call: at most its maximum of attempts, each under a fresh id, all within one deadline. */
  class Call {
    const client: JsonRpcClient
    const rpc: string
    const deadline: int
    const hasSignal: bool
    var attempt: nat
    var phase: Phase
    ghost var ids: seq<Id>

    ghost predicate Valid()
      reads this, client
    {
      && client.Valid()
      && 1 <= attempt <= MaximumAttempts(rpc)
      && attempt - 1 <= |ids| <= attempt
      && (phase.Running? ==> |ids| == attempt - 1)
      && (phase.Waiting? ==> |ids| == attempt && phase.id == Last(ids))
      && (phase.BackingOff? ==> |ids| == attempt < MaximumAttempts(rpc) && phase.until < deadline)
      && (forall id <- ids :: 1 <= id < client.nextId)
      && (forall i, j | 0 <= i < j < |ids| :: ids[i] < ids[j])
      && (forall i | 0 <= i < attempt - 1 :: ids[i] in client.settled && Retryable(client.settled[ids[i]]))
      && (forall id <- ids | id in client.pending :: client.pending[id] == Request(rpc, deadline, hasSignal))
      && (phase.BackingOff? ==> Last(ids) in client.settled && Retryable(client.settled[Last(ids)]))
      && (phase.Finished? && |ids| == attempt ==> Last(ids) in client.settled)
      && (forall frame <- client.frames | frame.id in ids :: frame.rpc == rpc)
    }

    /** The call's frames on the wire. */
    ghost function Frames(): nat
      reads this, client
    {
      FramesWith(client.frames, IdSet(ids))
    }

    constructor (client: JsonRpcClient, rpc: string, now: int, timeout: nat, hasSignal: bool, aborted: bool,
                 writable: bool)
      requires client.Valid() && timeout > 0
      requires aborted ==> hasSignal
      modifies client
      ensures Valid() && this.client == client && this.rpc == rpc && deadline == now + timeout
      ensures client.Evolves()
      ensures aborted ==> ids == [] && phase == Finished(Aborted) && client.frames == old(client.frames)
      ensures !aborted ==> ids == [old(client.nextId)] && phase == Waiting(old(client.nextId))
      ensures !aborted ==>
                client.frames == old(client.frames) + if writable then [Frame(old(client.nextId), rpc)] else []
    {
      this.client := client;
      this.rpc := rpc;
      deadline := now + timeout;
      this.hasSignal := hasSignal;
      attempt := 1;
      ids := [];
      phase := if aborted then Finished(Aborted) else Running;
      new;
      if !aborted {
        Attempt(now, aborted, writable);
      }
    }

    /** Issues one attempt under a fresh id, unless the deadline has passed. */
    method Attempt(now: int, aborted: bool, writable: bool)
      requires Valid() && phase.Running?
      requires aborted ==> hasSignal
      modifies this`phase, this`ids, client
      ensures Valid() && client.Evolves() && attempt == old(attempt)
      ensures now >= deadline ==> phase == Finished(TimedOut) && ids == old(ids) && client.frames == old(client.frames)
      ensures now < deadline ==> ids == old(ids) + [old(client.nextId)] && phase == Waiting(old(client.nextId))
      ensures now < deadline ==>
                client.frames ==
                  old(client.frames) + if !aborted && writable then [Frame(old(client.nextId), rpc)] else []
    {
      var remaining := deadline - now;
      if remaining <= 0 {
        phase := Finished(TimedOut);
        return;
      }
      var id := client.RequestOnce(rpc, now + remaining, hasSignal, aborted, writable);
      ids := ids + [id];
      phase := Waiting(id);
    }

    /**
     The current attempt has settled: an overload waits 100 ms, the second one 200 ms, and the jitter, if the method is
     one of the three reads with attempts left and the deadline lies beyond that; everything else finishes the call.
     */
    method OnSettled(now: int, jitter: nat)
      requires Valid() && phase.Waiting? && phase.id in client.settled
      requires jitter < 75
      modifies this`phase
      ensures Valid()
      ensures var outcome, until := client.settled[old(phase).id], now + 100 * attempt + jitter;
              var again := && outcome == RpcError(Some(-32001)) && attempt < 3
                           && rpc in {"model/list", "account/read", "account/rateLimits/read"};
              && (again && until < deadline <==> phase.BackingOff?)
              && (again && until < deadline ==> phase.until == until)
              && (again && until >= deadline ==> phase == Finished(TimedOut))
              && (!again ==> phase == Finished(outcome))
    {
      var outcome := client.settled[phase.id];
      if !Retryable(outcome) || attempt == MaximumAttempts(rpc) {
        phase := Finished(outcome);
        return;
      }
      var backoff := Backoff(attempt, jitter);
      if now + backoff >= deadline {
        phase := Finished(TimedOut);
        return;
      }
      phase := BackingOff(now + backoff);
    }

    method OnBackoffElapsed(now: int, aborted: bool, writable: bool)
      requires Valid() && phase.BackingOff? && phase.until <= now
      requires aborted ==> hasSignal
      modifies this, client
      ensures Valid() && client.Evolves() && attempt == old(attempt) + 1
      ensures now < deadline ==> ids == old(ids) + [old(client.nextId)] && phase == Waiting(old(client.nextId))
      ensures now >= deadline ==> ids == old(ids) && phase == Finished(TimedOut)
    {
      attempt := attempt + 1;
      phase := Running;
      Attempt(now, aborted, writable);
    }

    method OnAbortDuringBackoff()
      requires Valid() && phase.BackingOff? && hasSignal
      modifies this`phase
      ensures Valid() && phase == Finished(Aborted)
    {
      phase := Finished(Aborted);
    }

    /** Whatever else happens on the client, the call keeps its place in it. */
    twostate lemma StableUnderOthers()
      requires old(Valid()) && unchanged(this) && client.Valid() && client.Evolves()
      ensures Valid()
    {
      forall frame <- client.frames | frame.id in ids ensures frame.rpc == rpc {
        var i :| 0 <= i < |client.frames| && client.frames[i] == frame;
        if i < |old(client.frames)| {
          assert old(client.frames)[i] == frame;
        }
      }
    }

    /** At most three frames for a read, at most one for anything else, each under its own id. */
    lemma BoundedFrames()
      requires Valid()
      ensures Frames() <= 3
      ensures rpc !in {"model/list", "account/read", "account/rateLimits/read"} ==> Frames() <= 1
    {
      FramesWithinIds(client.frames, IdSet(ids));
      SetOfSeq(ids);
    }
  }

  lemma {:induction false} SetOfSeq(ids: seq<Id>)
    ensures |IdSet(ids)| <= |ids|
  {
    if ids != [] {
      SetOfSeq(ids[1..]);
      assert ids == [ids[0]] + ids[1..];
      assert IdSet(ids) == {ids[0]} + IdSet(ids[1..]);
    }
  }
}
