/**
 The session table of the MCP HTTP server and the requests in flight on each session. A session object is known by
 its position in the order of creation, since requests keep hold of it after it has left the table.
 */
module Sessions {
  import opened Common

  /** An admitted request, known by its admission number, which also names its abort controller. */
  type Request = int

  datatype Session = Session(id: string, protocolVersion: string, lastAccessAt: int, initialized: bool,
                             activeRequests: int, controllers: map<string, Request>)

  /** By session: the request id of each request in flight on it. */
  type Flights = seq<map<Request, string>>

  // ----- what holds of one session -----

  /** The abort controllers are exactly those of the requests in flight, one for each request id. */
  predicate Tracks(controllers: map<string, Request>, flights: map<Request, string>) {
    && (forall request <- flights :: flights[request] in controllers && controllers[flights[request]] == request)
    && (forall key <- controllers :: controllers[key] in flights && flights[controllers[key]] == key)
  }

  /** What a session counts besides its requests in flight: the initialize request, or what was lost by the reset. */
  function Offset(told: Option<nat>): int {
    if told.None? then 1
    else
      var lost: int := told.value;
      -lost
  }

  /** The most a session ever counts; the initialize request is not held to the limit. */
  function Most(maximumConcurrent: int): int {
    if maximumConcurrent < 1 then 1 else maximumConcurrent
  }

  /**
   `flights` gives the request id of each request in flight. `told` is set once the client has been told of the session,
   to the number of requests that were in flight at that moment.
   */
  predicate SessionValid(session: Session, flights: map<Request, string>, told: Option<nat>, attached: bool,
                         maximumConcurrent: int)
  {
    && session.activeRequests == |flights| + Offset(told)
    && session.activeRequests <= Most(maximumConcurrent)
    && (Tracks(session.controllers, flights) || (!attached && session.controllers == map[]))
  }

  /** There are as many abort controllers as requests in flight. */
  lemma {:induction false} TracksOneToOne(controllers: map<string, Request>, flights: map<Request, string>)
    requires Tracks(controllers, flights)
    ensures |controllers| == |flights|
    decreases |controllers|
  {
    if controllers == map[] {
      assert forall request :: request !in flights;
    } else {
      var key :| key in controllers;
      var request := controllers[key];
      WithoutOne(controllers, key);
      WithoutOne(flights, request);
      hide Tracks;
      TracksOneToOne(controllers - {key}, flights - {request});
    }
  }

  lemma WithoutOne<K, V>(m: map<K, V>, key: K)
    requires key in m
    ensures |m - {key}| == |m| - 1
  {
    assert m == (m - {key})[key := m[key]];
  }

  lemma KeysInFlight(controllers: map<string, Request>, flight: map<Request, string>)
    requires Tracks(controllers, flight)
    ensures forall key :: key in controllers <==> InFlight(flight, Some(key)) != {}
    ensures forall target :: Named(controllers, target) == InFlight(flight, target)
  {
    forall key ensures key in controllers <==> InFlight(flight, Some(key)) != {} {
      if key in controllers {
        assert controllers[key] in InFlight(flight, Some(key));
      } else {
        assert forall request <- flight :: flight[request] in controllers;
        assert InFlight(flight, Some(key)) == {};
      }
    }
    forall target ensures Named(controllers, target) == InFlight(flight, target) {
      forall request ensures request in Named(controllers, target) <==> request in InFlight(flight, target) {
        if request in InFlight(flight, target) {
          assert controllers[flight[request]] == request;
        }
      }
    }
  }

  /** The requests in flight under this id. */
  ghost function InFlight(flight: map<Request, string>, key: Option<string>): set<Request> {
    set request | request in flight && Some(flight[request]) == key
  }

  // ----- what holds of the table -----

  function Told(told: map<nat, nat>, s: nat): Option<nat> {
    if s in told then Some(told[s]) else None
  }

  predicate Attached(sessions: map<string, nat>, store: seq<Session>, s: nat)
    requires s < |store|
  {
    store[s].id in sessions && sessions[store[s].id] == s
  }

  ghost predicate TableValid(sessions: map<string, nat>, store: seq<Session>, maximumSessions: int) {
    && (sessions != map[] ==> |sessions| <= maximumSessions)
    && (forall id <- sessions :: sessions[id] < |store| && store[sessions[id]].id == id)
    && (forall s, t | 0 <= s < t < |store| :: store[s].id != store[t].id)
  }

  /** An admitted request is in flight on one session, or it has been released, never both. */
  ghost predicate RequestsValid(sessionOf: map<Request, nat>, flights: Flights, released: set<Request>, next: Request) {
    && (forall request <- sessionOf :: sessionOf[request] < |flights| && request in flights[sessionOf[request]])
    && (forall s: nat, request | s < |flights| && request in flights[s] ::
          request in sessionOf && sessionOf[request] == s)
    && sessionOf.Keys !! released
    && 0 <= next
    && (forall request: Request :: 0 <= request < next <==> request in sessionOf || request in released)
  }

  ghost predicate SessionsValid(sessions: map<string, nat>, store: seq<Session>, flights: Flights,
                                told: map<nat, nat>, maximumConcurrent: int) {
    && |flights| == |store|
    && (forall s: nat {:trigger flights[s]} | s < |store| ::
          SessionValid(store[s], flights[s], Told(told, s), Attached(sessions, store, s), maximumConcurrent))
  }

  /** No session had a request before a client was told of it. */
  ghost predicate NoneEarly(flights: Flights, told: map<nat, nat>) {
    forall s: nat | s < |flights| :: if s in told then told[s] == 0 else flights[s] == map[]
  }

  /** When a request has been aborted: before, or with its session. */
  ghost predicate AbortsOnly(before: map<string, nat>, sessions: map<string, nat>, flights: Flights,
                             abortedBefore: set<Request>, aborted: set<Request>)
  {
    forall request ::
      request in aborted <==> (request in abortedBefore || AbortedWith(before, sessions, flights, request))
  }

  ghost predicate AbortedWith(before: map<string, nat>, sessions: map<string, nat>, flights: Flights,
                              request: Request)
  {
    exists id <- before :: id !in sessions && before[id] < |flights| && request in flights[before[id]]
  }

  datatype InitializeOutcome = Answered | AnsweredWithError | Thrown
  datatype Reply = Refused(status: nat) | Accepted | Admitted(request: Request)
  /** A message with an id is a request; one without is a notification. */
  datatype Message = Call(key: string) | Initialized | Cancelled(target: Option<string>) | OtherNotification

  class McpHttpServer {
    const maximumSessions: int
    const maximumConcurrent: int
    const sessionTtl: int
    var store: seq<Session>
    var sessions: map<string, nat>
    var nextRequest: Request
    var aborted: set<Request>
    /** The initialize requests still being answered. */
    ghost var initializing: set<nat>
    /** The sessions whose id a client has been told, with the number of requests in flight at that moment. */
    ghost var told: map<nat, nat>
    ghost var flights: Flights
    ghost var sessionOf: map<Request, nat>
    ghost var released: set<Request>

    ghost predicate Valid()
      reads this
    {
      && |flights| == |store|
      && TableValid(sessions, store, maximumSessions)
      && RequestsValid(sessionOf, flights, released, nextRequest)
      && SessionsValid(sessions, store, flights, told, maximumConcurrent)
      && (maximumConcurrent < 1 ==> nextRequest == 0 && NoneEarly(flights, told))
      && initializing !! told.Keys
      && (forall s <- initializing :: s < |store|) && (forall s <- told :: s < |store|)
    }

    /** A client can only name a session it has been told of. */
    ghost predicate Nameable(id: Option<string>)
      reads this
    {
      id.Some? && id.value in sessions ==> sessions[id.value] in told
    }

    /** No session was named before a client was told of it. */
    ghost predicate NoneNamedEarly()
      reads this
    {
      NoneEarly(flights, told)
    }

    /**
     A session in the table, once announced, has as many controllers as requests in flight, with distinct ids. It counts
     them exactly if and only if none was in flight when it was announced; otherwise it counts as many too few.
     */
    lemma SessionAgrees(s: nat)
      requires Valid() && s in told && s < |store| && Attached(sessions, store, s)
      ensures |store[s].controllers| == |flights[s]| && store[s].controllers.Values == flights[s].Keys
      ensures store[s].activeRequests == |flights[s]| - told[s]
      ensures store[s].activeRequests == |flights[s]| <==> told[s] == 0
      ensures flights[s] != map[] ==> store[s].activeRequests <= maximumConcurrent
      ensures forall left, right | left in flights[s] && right in flights[s] && flights[s][left] == flights[s][right] ::
                left == right
      ensures forall request :: request in flights[s] <==> request in sessionOf && sessionOf[request] == s
      ensures NoneNamedEarly() ==> told[s] == 0
    {
      assert SessionValid(store[s], flights[s], Told(told, s), true, maximumConcurrent);
      NothingBelowOne(s);
      TracksOneToOne(store[s].controllers, flights[s]);
      ControllersAreFlights(sessions, store, flights, told, maximumConcurrent, s);
    }

    /** With a limit below one nothing is ever admitted. */
    lemma NothingBelowOne(s: nat)
      requires Valid() && s < |store|
      ensures maximumConcurrent < 1 ==> flights[s] == map[] && store[s].activeRequests >= maximumConcurrent
    {
      if maximumConcurrent < 1 {
        assert SessionValid(store[s], flights[s], Told(told, s), Attached(sessions, store, s), maximumConcurrent);
        NoneAdmitted(sessionOf, flights, released, s);
      }
    }

    lemma InTable(id: string)
      requires Valid() && id in sessions
      ensures sessions[id] < |store| == |flights| && store[sessions[id]].id == id
      ensures Attached(sessions, store, sessions[id])
    {
    }

    /** A request id has a controller exactly if a request with that id is in flight, and it is that request's. */
    lemma ControllersByKey(s: nat)
      requires Valid() && s < |store| && Attached(sessions, store, s)
      ensures forall key :: key in store[s].controllers <==> InFlight(flights[s], Some(key)) != {}
      ensures forall target ::
                Named(store[s].controllers, target) == InFlight(flights[s], target)
    {
      assert SessionValid(store[s], flights[s], Told(told, s), true, maximumConcurrent);
      KeysInFlight(store[s].controllers, flights[s]);
    }

    constructor (maximumSessions: int, maximumConcurrent: int, sessionTtl: int)
      ensures Valid() && NoneNamedEarly() && store == [] && flights == [] && sessions == map[] && released == {} &&
              nextRequest == 0
      ensures this.maximumSessions == maximumSessions && this.maximumConcurrent == maximumConcurrent &&
              this.sessionTtl == sessionTtl
    {
      this.maximumSessions, this.maximumConcurrent, this.sessionTtl := maximumSessions, maximumConcurrent, sessionTtl;
      store, sessions, nextRequest, aborted := [], map[], 0, {};
      initializing, told, flights, sessionOf, released := {}, map[], [], map[], {};
    }

    /** Reserves a place for a session whose id the client does not know yet. */
    method BeginInitialize(id: string, protocolVersion: string, now: int) returns (reserved: Option<nat>)
      requires Valid() && forall s | 0 <= s < |store| :: store[s].id != id
      modifies `store, `sessions, `flights, `initializing
      ensures Valid() && (old(NoneNamedEarly()) ==> NoneNamedEarly())
      ensures reserved.None? <==> |old(sessions)| >= maximumSessions
      ensures reserved.None? ==> sessions == old(sessions) && store == old(store)
      ensures reserved.Some? ==>
                && reserved.value == |old(store)|
                && store == old(store) + [Session(id, protocolVersion, now, false, 1, map[])]
                && sessions == old(sessions)[id := reserved.value]
                && reserved.value in initializing && reserved.value !in told && flights == old(flights) + [map[]]
    {
      hide TableValid, SessionsValid, RequestsValid, NoneEarly;
      if |sessions| >= maximumSessions {
        return None;
      }
      if NoneNamedEarly() {
        ReserveKeepsEarly(flights, told);
      }
      var s := |store|;
      var session := Session(id, protocolVersion, now, false, 1, map[]);
      ReserveKeepsTable(sessions, store, maximumSessions, session);
      ReserveKeepsSessions(sessions, store, flights, told, maximumConcurrent, session);
      ReserveKeepsRequests(sessionOf, flights, released, nextRequest);
      store := store + [session];
      sessions := sessions[id := s];
      flights := flights + [map[]];
      initializing := initializing + {s};
      reserved := Some(s);
    }

    /** The client went away while its initialize request was being answered. */
    method OnInitializeDisconnect(s: nat)
      requires Valid() && s in initializing
      modifies `sessions
      ensures Valid() &&
              sessions == if Attached(old(sessions), store, s) then old(sessions) - {store[s].id} else old(sessions)
    {
      if store[s].id in sessions && sessions[store[s].id] == s {
        Detach(s);
      }
    }

    /** Takes a session out of the table and leaves the session object as it is. */
    method Detach(s: nat)
      requires Valid() && s < |store|
      modifies `sessions
      ensures Valid() && sessions == old(sessions) - {store[s].id}
    {
      hide TableValid, SessionsValid, RequestsValid;
      DetachKeepsTable(sessions, store, maximumSessions, store[s].id);
      DetachKeepsSessions(sessions, store, flights, told, maximumConcurrent, s);
      sessions := sessions - {store[s].id};
    }

    /** The initialize request has been answered or has failed, on a session that may have left the table meanwhile. */
    method FinishInitialize(s: nat, outcome: InitializeOutcome, now: int)
      requires Valid() && s in initializing
      modifies `store, `sessions, `initializing, `told
      ensures Valid() && s !in initializing && (old(NoneNamedEarly()) ==> NoneNamedEarly())
      ensures told == if outcome.Answered? && Attached(old(sessions), old(store), s) then old(told)[s := |flights[s]|]
                      else old(told)
      ensures store ==
                if s in told then old(store)[s := old(store)[s].(activeRequests := 0, lastAccessAt := now)]
                else old(store)
      ensures sessions ==
                if s in told || (!outcome.Thrown? && !Attached(old(sessions), old(store), s)) then old(sessions)
                          else old(sessions) - {old(store)[s].id}
    {
      hide TableValid, SessionsValid, RequestsValid, NoneEarly;
      if NoneNamedEarly() && s !in told {
        AnnounceKeepsEarly(flights, told, s);
      }
      initializing := initializing - {s};
      if outcome.Thrown? {
        Detach(s);
        return;
      }
      if !(store[s].id in sessions && sessions[store[s].id] == s) {
        return;
      }
      if outcome.AnsweredWithError? {
        Detach(s);
        return;
      }
      Announce(s, now);
    }

    /** The reply carries the session id, and the session starts to count from zero. */
    method Announce(s: nat, now: int)
      requires Valid() && s < |store| && s !in told && s !in initializing && Attached(sessions, store, s)
      modifies `store, `told
      ensures Valid() && told == old(told)[s := |flights[s]|]
      ensures store == old(store)[s := old(store)[s].(activeRequests := 0, lastAccessAt := now)]
    {
      hide TableValid, SessionsValid, RequestsValid;
      var session := store[s].(activeRequests := 0, lastAccessAt := now);
      UpdateKeepsTable(sessions, store, maximumSessions, s, session);
      AnnounceKeepsSession(sessions, store, flights, told, maximumConcurrent, s, now);
      told := told[s := |flights[s]|];
      store := store[s := session];
    }

    // ----- requests on a session -----

    /** `id` is the session header and `version` the protocol version header; the body has been read and parsed. */
    method Dispatch(id: Option<string>, version: Option<string>, message: Message, now: int) returns (reply: Reply)
      requires Valid()
      modifies `store, `nextRequest, `aborted, `flights, `sessionOf
      ensures Valid() && (old(NoneNamedEarly()) && Nameable(id) ==> NoneNamedEarly())
      ensures id.None? ==> reply == Refused(400)
      ensures id.Some? && id.value !in sessions ==> reply == Refused(404)
      ensures id.None? || id.value !in sessions ==> store == old(store) && aborted == old(aborted)
      ensures id.Some? && id.value in sessions ==>
                var s := sessions[id.value];
                var flight, session := old(flights)[s], old(store)[s].(lastAccessAt := now);
                // A request is known by its id among those in flight on the session, and cancelled by it.
                if version != Some(session.protocolVersion) then
                  reply == Refused(400) && store == old(store)[s := session] && aborted == old(aborted)
                else
                  match message
                  case Call(key) =>
                    && aborted == old(aborted)
                    && if InFlight(flight, Some(key)) != {} then
                         reply == Refused(400) && store == old(store)[s := session]
                       else if session.activeRequests >= maximumConcurrent then
                         reply == Refused(429) && store == old(store)[s := session]
                       else
                         && reply == Admitted(old(nextRequest))
                         && store == old(store)[s := session.(
                                         activeRequests := session.activeRequests + 1,
                                         controllers := session.controllers[key := old(nextRequest)])]
                  case Cancelled(target) =>
                    && reply == Accepted && store == old(store)[s := session]
                    && aborted == old(aborted) + InFlight(flight, target)
                  case Initialized =>
                    reply == Accepted && aborted == old(aborted) &&
                    store == old(store)[s := session.(initialized := true)]
                  case OtherNotification =>
                    reply == Accepted && aborted == old(aborted) && store == old(store)[s := session]
      ensures reply.Admitted? ==>
                && nextRequest == reply.request + 1 && message.Call?
                && sessionOf == old(sessionOf)[reply.request := sessions[id.value]]
                && flights == old(flights)[sessions[id.value] :=
                                old(flights)[sessions[id.value]][reply.request := message.key]]
      ensures !reply.Admitted? ==>
                nextRequest == old(nextRequest) && sessionOf == old(sessionOf) && flights == old(flights)
    {
      hide Valid, Attached, NoneEarly, InFlight;
      if id.None? {
        return Refused(400);
      }
      if id.value !in sessions {
        return Refused(404);
      }
      var s := sessions[id.value];
      InTable(id.value);
      ControllersByKey(s);
      Touch(s, store[s].(lastAccessAt := now));
      if version != Some(store[s].protocolVersion) {
        return Refused(400);
      }
      match message
      case Call(key) =>
        if NoneNamedEarly() && Nameable(id) {
          AdmitKeepsEarly(flights, told, s, nextRequest, key);
        }
        reply := HandleCall(s, key);
      case _ =>
        HandleNotification(s, message);
        reply := Accepted;
    }

    method HandleNotification(s: nat, message: Message)
      requires Valid() && s < |store| && !message.Call?
      modifies `store, `aborted
      ensures Valid()
      ensures store == if message.Initialized? then old(store)[s := old(store)[s].(initialized := true)] else old(store)
      ensures aborted ==
                old(aborted) + if message.Cancelled? then Named(old(store)[s].controllers, message.target) else {}
    {
      hide TableValid, SessionsValid, RequestsValid;
      match message
      case Initialized =>
        Touch(s, store[s].(initialized := true));
      case Cancelled(target) =>
        if target.Some? && target.value in store[s].controllers {
          aborted := aborted + {store[s].controllers[target.value]};
        }
      case _ =>
    }

    method HandleCall(s: nat, key: string) returns (reply: Reply)
      requires Valid() && s < |store| && Attached(sessions, store, s)
      modifies `store, `nextRequest, `flights, `sessionOf
      ensures Valid()
      ensures reply == if key in old(store)[s].controllers then Refused(400)
                       else if old(store)[s].activeRequests >= maximumConcurrent then Refused(429)
                       else Admitted(old(nextRequest))
      ensures store == if !reply.Admitted? then old(store)
                       else old(store)[s := Admitting(old(store)[s], key, old(nextRequest))]
      ensures reply.Admitted? ==>
                && reply.request == old(nextRequest) && nextRequest == reply.request + 1
                && sessionOf == old(sessionOf)[reply.request := s]
                && flights == old(flights)[s := old(flights)[s][reply.request := key]]
      ensures !reply.Admitted? ==>
                nextRequest == old(nextRequest) && sessionOf == old(sessionOf) && flights == old(flights)
    {
      if key in store[s].controllers {
        return Refused(400);
      }
      if store[s].activeRequests >= maximumConcurrent {
        return Refused(429);
      }
      var request := Admit(s, key);
      return Admitted(request);
    }

    /** Changes what no invariant speaks of. */
    method Touch(s: nat, session: Session)
      requires Valid() && s < |store|
      requires session.id == store[s].id && session.activeRequests == store[s].activeRequests
      requires session.controllers == store[s].controllers
      modifies `store
      ensures Valid() && store == old(store)[s := session]
    {
      hide TableValid, RequestsValid;
      assert SessionValid(store[s], flights[s], Told(told, s), Attached(sessions, store, s), maximumConcurrent);
      UpdateKeepsTable(sessions, store, maximumSessions, s, session);
      UpdateKeepsSessions(sessions, store, flights, told, maximumConcurrent, s, session, flights[s], told);
      assert flights[s := flights[s]] == flights;
      store := store[s := session];
    }

    method Admit(s: nat, key: string) returns (request: Request)
      requires Valid() && s < |store| && Attached(sessions, store, s)
      requires key !in store[s].controllers && store[s].activeRequests < maximumConcurrent
      modifies `store, `nextRequest, `flights, `sessionOf
      ensures Valid() && request == old(nextRequest) && nextRequest == request + 1
      ensures store == old(store)[s := Admitting(old(store)[s], key, request)]
      ensures flights == old(flights)[s := old(flights)[s][request := key]] && sessionOf == old(sessionOf)[request := s]
    {
      hide TableValid, SessionsValid, RequestsValid, NoneEarly;
      NothingBelowOne(s);
      request := nextRequest;
      var session := Admitting(store[s], key, request);
      ghost var flight := flights[s][request := key];
      AdmitKeepsRequests(sessionOf, flights, released, request, s, key);
      AdmitKeepsSession(sessions, store, flights, told, maximumConcurrent, s, key, request);
      UpdateKeepsTable(sessions, store, maximumSessions, s, session);
      store := store[s := session];
      flights := flights[s := flight];
      sessionOf := sessionOf[request := s];
      nextRequest := request + 1;
    }

    /** The request has been answered or has failed, on a session that may have left the table meanwhile. */
    method FinishRequest(request: Request, s: nat, key: string, now: int)
      requires Valid() && request in sessionOf && s == sessionOf[request] && key == flights[s][request]
      modifies `store, `flights, `sessionOf, `released
      ensures Valid() && (old(NoneNamedEarly()) ==> NoneNamedEarly())
      ensures sessionOf == old(sessionOf) - {request} && released == old(released) + {request}
      ensures flights == old(flights)[s := old(flights)[s] - {request}]
      ensures var session := old(store)[s];
              store == old(store)[s := session.(
                          activeRequests := session.activeRequests - 1, lastAccessAt := now,
                          controllers := if key in session.controllers && session.controllers[key] == request
                                         then session.controllers - {key} else session.controllers)]
    {
      hide TableValid, SessionsValid, RequestsValid, NoneEarly;
      InFlightOn(sessionOf, flights, released, nextRequest, request);
      if NoneNamedEarly() {
        ReleaseKeepsEarly(flights, told, s, request);
      }
      var session := Finished(store[s], key, request, now);
      ghost var flight := flights[s] - {request};
      ReleaseKeepsSession(sessions, store, flights, told, maximumConcurrent, s, request, now);
      ReleaseKeepsRequests(sessionOf, flights, released, nextRequest, request);
      UpdateKeepsTable(sessions, store, maximumSessions, s, session);
      store := store[s := session];
      flights := flights[s := flight];
      sessionOf := sessionOf - {request};
      released := released + {request};
    }

    /** The client of a request in flight went away. */
    method OnDisconnect(request: Request)
      requires Valid() && request in sessionOf
      modifies `aborted
      ensures Valid() && aborted == old(aborted) + {request}
    {
      aborted := aborted + {request};
    }

    // ----- the end of a session -----

    /** Aborts the session's requests and takes it out of the table; the requests still finish on the session object. */
    method AbortAndDetach(s: nat)
      requires Valid() && s < |store| && Attached(sessions, store, s)
      modifies `store, `sessions, `aborted
      ensures Valid() && sessions == old(sessions) - {old(store)[s].id}
      ensures store == old(store)[s := old(store)[s].(controllers := map[])]
      ensures aborted == old(aborted) + flights[s].Keys
    {
      hide TableValid, SessionsValid, RequestsValid;
      var session := store[s].(controllers := map[]);
      ControllersAreFlights(sessions, store, flights, told, maximumConcurrent, s);
      aborted := aborted + store[s].controllers.Values;
      UpdateKeepsTable(sessions, store, maximumSessions, s, session);
      DetachKeepsTable(sessions, store[s := session], maximumSessions, session.id);
      AbortKeepsSessions(sessions, store, flights, told, maximumSessions, maximumConcurrent, s);
      store := store[s := session];
      sessions := sessions - {session.id};
    }

    method Delete(id: Option<string>) returns (found: bool)
      requires Valid()
      modifies `store, `sessions, `aborted
      ensures Valid()
      ensures found <==> id.Some? && id.value in old(sessions)
      ensures found ==>
                && sessions == old(sessions) - {id.value}
                && aborted == old(aborted) + flights[old(sessions)[id.value]].Keys
                && store == old(store)[old(sessions)[id.value] :=
                              old(store)[old(sessions)[id.value]].(controllers := map[])]
      ensures !found ==> sessions == old(sessions) && aborted == old(aborted) && store == old(store)
    {
      if id.None? || id.value !in sessions {
        return false;
      }
      AbortAndDetach(sessions[id.value]);
      return true;
    }

    predicate Expired(session: Session, now: int) {
      session.lastAccessAt < now - sessionTtl && session.activeRequests == 0
    }

    /** Prunes the session if it has expired. */
    method PruneIfExpired(id: string, now: int)
      requires Valid() && id in sessions
      modifies `store, `sessions, `aborted
      ensures Valid() && |store| == |old(store)|
      ensures sessions == if Expired(old(store)[old(sessions)[id]], now) then old(sessions) - {id} else old(sessions)
      ensures aborted == if id in sessions then old(aborted) else old(aborted) + flights[old(sessions)[id]].Keys
      ensures forall other <- sessions :: store[sessions[other]] == old(store)[sessions[other]]
    {
      InTable(id);
      hide Valid;
      var s := sessions[id];
      if Expired(store[s], now) {
        AbortAndDetach(s);
      }
    }

    /**
     Exactly the expired sessions that count nothing go. None has an initialize request under way, and one with requests
     in flight has exactly as many as were in flight when it was announced.
     */
    method PruneExpiredSessions(now: int)
      requires Valid()
      modifies `store, `sessions, `aborted
      ensures Valid()
      ensures forall id <- old(sessions) ::
                var session := old(store)[old(sessions)[id]];
                id in sessions <==> session.lastAccessAt >= now - sessionTtl || session.activeRequests != 0
      ensures forall id <- sessions ::
                && id in old(sessions) && sessions[id] == old(sessions)[id]
                && store[sessions[id]] == old(store)[sessions[id]]
      ensures forall id | id in old(sessions) && id !in sessions ::
                var s := old(sessions)[id]; s !in initializing && s in told && |flights[s]| == told[s]
      ensures AbortsOnly(old(sessions), sessions, flights, old(aborted), aborted)
      // No request loses its session, and none is aborted, if no client names a session it has not been told of.
      ensures NoneNamedEarly() ==>
                && aborted == old(aborted)
                && forall id <- old(sessions) :: flights[old(sessions)[id]] != map[] ==> id in sessions
    {
      hide Valid, Expired, Pruned, NoneNamedEarly;
      ghost var before, stored := sessions, store;
      var remaining := sessions.Keys;
      PruningBegins(now);
      while remaining != {}
        invariant Valid() && remaining <= sessions.Keys
        invariant Pruned(this, before, stored, flights, old(aborted), sessions, store, aborted, remaining, now)
        decreases remaining
      {
        var id :| id in remaining;
        ghost var sessionsHere, storeHere, abortedHere := sessions, store, aborted;
        InTable(id);
        PruneIfExpired(id, now);
        PrunedStep(this, before, stored, flights, old(aborted), sessionsHere, storeHere, abortedHere, remaining, now,
                   id, sessions, store);
        remaining := remaining - {id};
      }
      PrunedEnd(before, stored, old(aborted), now);
      if NoneNamedEarly() {
        PrunedQuietly(before, old(aborted));
      }
    }

    lemma PruningBegins(now: int)
      requires Valid()
      ensures Pruned(this, sessions, store, flights, aborted, sessions, store, aborted, sessions.Keys, now)
      ensures forall id <- sessions ::
                && sessions[id] < |store| == |flights|
                && (store[sessions[id]].lastAccessAt < now - sessionTtl && store[sessions[id]].activeRequests == 0 ==>
                      && sessions[id] !in initializing && sessions[id] in told
                      && |flights[sessions[id]]| == told[sessions[id]])
    {
      IdleCountsNothing(sessions, store, flights, initializing, told, maximumConcurrent);
    }

    lemma PrunedEnd(before: map<string, nat>, stored: seq<Session>, abortedBefore: set<Request>, now: int)
      requires Pruned(this, before, stored, flights, abortedBefore, sessions, store, aborted, {}, now)
      ensures forall id <- before ::
                && before[id] < |stored| && before[id] < |store|
                && (id in sessions <==>
                      stored[before[id]].lastAccessAt >= now - sessionTtl || stored[before[id]].activeRequests != 0)
      ensures forall id <- sessions ::
                id in before && sessions[id] == before[id] && store[sessions[id]] == stored[sessions[id]]
      ensures forall id <- before :: before[id] < |flights|
      ensures AbortsOnly(before, sessions, flights, abortedBefore, aborted)
    {
    }

    lemma PrunedQuietly(before: map<string, nat>, abortedBefore: set<Request>)
      requires forall id <- before :: before[id] < |flights|
      requires forall id | id in before && id !in sessions ::
                before[id] in told && |flights[before[id]]| == told[before[id]]
      requires AbortsOnly(before, sessions, flights, abortedBefore, aborted) && NoneNamedEarly()
      ensures aborted == abortedBefore && forall id <- before :: flights[before[id]] != map[] ==> id in sessions
    {
      forall id | id in before && id !in sessions ensures flights[before[id]] == map[] {
        assert told[before[id]] == 0;
      }
      assert forall request :: !AbortedWith(before, sessions, flights, request);
      assert forall request :: request in aborted <==> request in abortedBefore;
    }

    lemma ShutDownBegins()
      requires Valid()
      ensures ShutDown(sessions, sessions, flights, aborted, aborted)
    {
    }

    /** Every request in flight on a session still in the table is aborted. */
    method Shutdown()
      requires Valid()
      modifies `store, `sessions, `aborted
      ensures Valid() && sessions == map[]
      ensures forall request ::
                request in aborted <==>
                  || request in old(aborted)
                  || exists id <- old(sessions) ::
                       old(sessions)[id] < |flights| && request in flights[old(sessions)[id]]
    {
      hide Valid, Attached, ShutDown;
      ghost var before := sessions;
      ShutDownBegins();
      while sessions != map[]
        invariant Valid() && ShutDown(before, sessions, flights, old(aborted), aborted)
        decreases sessions.Keys
      {
        var id :| id in sessions;
        InTable(id);
        ShutDownStep(before, sessions, flights, old(aborted), aborted, id);
        AbortAndDetach(sessions[id]);
      }
      ShutDownEnd(before, flights, old(aborted), aborted);
    }
  }

  /** A request that names a session before its initialize request is answered is not counted from then on. */
  method EarlyWitness() returns (server: McpHttpServer)
    ensures fresh(server) && server.Valid() && 0 < |server.store| == |server.flights| && 0 in server.told
    ensures |server.flights[0]| == 1 && server.store[0].activeRequests == 0
  {
    hide McpHttpServer.Valid, McpHttpServer.NoneNamedEarly;
    server := new McpHttpServer(1, 2, 1000);
    var reserved := server.BeginInitialize("id", "version", 0);
    assert server.flights == [map[]];
    var reply := server.Dispatch(Some("id"), Some("version"), Call("request"), 1);
    assert reply == Admitted(0) && server.flights == [map[0 := "request"]];
    server.InTable("id");
    server.FinishInitialize(0, Answered, 2);
  }

  /** What has left the table has been aborted, and nothing else. */
  ghost predicate ShutDown(before: map<string, nat>, sessions: map<string, nat>, flights: Flights,
                           abortedBefore: set<Request>, aborted: set<Request>)
  {
    && (forall id <- sessions :: id in before && sessions[id] == before[id])
    && (forall id <- before :: before[id] < |flights|)
    && AbortsOnly(before, sessions, flights, abortedBefore, aborted)
  }

  lemma ShutDownStep(before: map<string, nat>, sessions: map<string, nat>, flights: Flights,
                     abortedBefore: set<Request>, aborted: set<Request>, id: string)
    requires ShutDown(before, sessions, flights, abortedBefore, aborted) && id in sessions
    ensures sessions[id] < |flights|
    ensures ShutDown(before, sessions - {id}, flights, abortedBefore, aborted + flights[sessions[id]].Keys)
  {
    OneMoreAborted(before, sessions, flights, abortedBefore, aborted, id);
  }

  lemma ShutDownEnd(before: map<string, nat>, flights: Flights, abortedBefore: set<Request>, aborted: set<Request>)
    requires ShutDown(before, map[], flights, abortedBefore, aborted)
    ensures forall request ::
              request in aborted <==>
                || request in abortedBefore
                || exists id <- before :: before[id] < |flights| && request in flights[before[id]]
  {
    forall request
      ensures AbortedWith(before, map[], flights, request) <==>
              exists id <- before :: before[id] < |flights| && request in flights[before[id]]
    {
    }
  }

  /**
   What has been looked at has left the table if and only if it had expired, with its requests aborted, and what is in
   the table is untouched.
   */
  ghost predicate Pruned(server: McpHttpServer, before: map<string, nat>, stored: seq<Session>, flights: Flights,
                         abortedBefore: set<Request>, sessions: map<string, nat>, store: seq<Session>,
                         aborted: set<Request>, remaining: set<string>, now: int)
  {
    && (forall id <- sessions :: id in before && sessions[id] == before[id])
    && (forall id <- before :: before[id] < |store| && before[id] < |stored| && before[id] < |flights|)
    && (forall id <- sessions :: store[before[id]] == stored[before[id]])
    && (forall id <- before :: id in sessions <==> id in remaining || !server.Expired(stored[before[id]], now))
    && AbortsOnly(before, sessions, flights, abortedBefore, aborted)
  }

  lemma PrunedStep(server: McpHttpServer, before: map<string, nat>, stored: seq<Session>, flights: Flights,
                   abortedBefore: set<Request>, sessions: map<string, nat>, store: seq<Session>, aborted: set<Request>,
                   remaining: set<string>, now: int, id: string, sessions': map<string, nat>, store': seq<Session>)
    requires Pruned(server, before, stored, flights, abortedBefore, sessions, store, aborted, remaining, now) &&
             id in remaining
    requires id in sessions && |store'| == |store|
    requires sessions' == if server.Expired(store[sessions[id]], now) then sessions - {id} else sessions
    requires forall other <- sessions' :: store'[sessions'[other]] == store[sessions'[other]]
    ensures var aborted' := if id in sessions' then aborted else aborted + flights[sessions[id]].Keys;
            Pruned(server, before, stored, flights, abortedBefore, sessions', store', aborted', remaining - {id}, now)
  {
    hide McpHttpServer.Expired, AbortsOnly;
    if id !in sessions' {
      OneMoreAborted(before, sessions, flights, abortedBefore, aborted, id);
    }
  }

  lemma OneMoreAborted(before: map<string, nat>, sessions: map<string, nat>, flights: Flights,
                       abortedBefore: set<Request>, aborted: set<Request>, id: string)
    requires AbortsOnly(before, sessions, flights, abortedBefore, aborted)
    requires id in sessions && id in before && before[id] == sessions[id] < |flights|
    ensures AbortsOnly(before, sessions - {id}, flights, abortedBefore, aborted + flights[sessions[id]].Keys)
  {
    forall request ensures AbortedWith(before, sessions - {id}, flights, request) <==>
        (AbortedWith(before, sessions, flights, request) || request in flights[sessions[id]])
    {
      if request in flights[before[id]] {
        assert id !in sessions - {id};
      }
    }
  }

  /** The session with one more request in flight. */
  function Admitting(session: Session, key: string, request: Request): Session {
    session.(controllers := session.controllers[key := request], activeRequests := session.activeRequests + 1)
  }

  /** The request a cancellation notification aborts. */
  function Named(controllers: map<string, Request>, target: Option<string>): set<Request> {
    if target.Some? && target.value in controllers then {controllers[target.value]} else {}
  }

  /** The session after a request on it has finished; a controller that is no longer the request's own stays. */
  function Finished(session: Session, key: string, request: Request, now: int): Session {
    var counted := session.(activeRequests := session.activeRequests - 1, lastAccessAt := now);
    if key in session.controllers && session.controllers[key] == request
    then counted.(controllers := session.controllers - {key})
    else counted
  }

  // ----- what the steps keep -----

  lemma ReserveKeepsEarly(flights: Flights, told: map<nat, nat>)
    requires NoneEarly(flights, told)
    ensures |flights| !in told ==> NoneEarly(flights + [map[]], told)
  {
  }

  lemma AnnounceKeepsEarly(flights: Flights, told: map<nat, nat>, s: nat)
    requires NoneEarly(flights, told) && s < |flights| && s !in told
    ensures NoneEarly(flights, told[s := |flights[s]|])
  {
  }

  lemma AdmitKeepsEarly(flights: Flights, told: map<nat, nat>, s: nat, request: Request, key: string)
    requires NoneEarly(flights, told) && s < |flights| && s in told
    ensures NoneEarly(flights[s := flights[s][request := key]], told)
  {
  }

  lemma ReleaseKeepsEarly(flights: Flights, told: map<nat, nat>, s: nat, request: Request)
    requires NoneEarly(flights, told) && s < |flights|
    ensures NoneEarly(flights[s := flights[s] - {request}], told)
  {
  }

  lemma ReserveKeepsTable(sessions: map<string, nat>, store: seq<Session>, maximumSessions: int, session: Session)
    requires TableValid(sessions, store, maximumSessions) && |sessions| < maximumSessions
    requires forall s | 0 <= s < |store| :: store[s].id != session.id
    ensures TableValid(sessions[session.id := |store|], store + [session], maximumSessions)
  {
    assert |sessions[session.id := |store|]| <= |sessions| + 1;
  }

  lemma ReserveKeepsSessions(sessions: map<string, nat>, store: seq<Session>, flights: Flights, told: map<nat, nat>,
                             maximumConcurrent: int, session: Session)
    requires SessionsValid(sessions, store, flights, told, maximumConcurrent) && |store| !in told
    requires forall s | 0 <= s < |store| :: store[s].id != session.id
    requires session.activeRequests == 1 && session.controllers == map[]
    ensures SessionsValid(sessions[session.id := |store|], store + [session], flights + [map[]], told,
                          maximumConcurrent)
  {
    var sessions', store', flights' := sessions[session.id := |store|], store + [session], flights + [map[]];
    forall s: nat | s < |store'|
      ensures SessionValid(store'[s], flights'[s], Told(told, s), Attached(sessions', store', s), maximumConcurrent)
    {
      if s < |store| {
        assert SessionValid(store[s], flights[s], Told(told, s), Attached(sessions, store, s), maximumConcurrent);
        assert Attached(sessions', store', s) == Attached(sessions, store, s);
      }
    }
  }

  lemma ReserveKeepsRequests(sessionOf: map<Request, nat>, flights: Flights, released: set<Request>, next: Request)
    requires RequestsValid(sessionOf, flights, released, next)
    ensures RequestsValid(sessionOf, flights + [map[]], released, next)
  {
    var flights' := flights + [map[]];
    forall s: nat, request | s < |flights'| && request in flights'[s]
      ensures request in sessionOf && sessionOf[request] == s
    {
      assert s < |flights| && request in flights[s];
    }
  }

  lemma DetachKeepsTable(sessions: map<string, nat>, store: seq<Session>, maximumSessions: int, id: string)
    requires TableValid(sessions, store, maximumSessions)
    ensures TableValid(sessions - {id}, store, maximumSessions)
  {
    assert id in sessions ==> sessions == (sessions - {id})[id := sessions[id]];
    assert id !in sessions ==> sessions == sessions - {id};
  }

  lemma DetachKeepsSessions(sessions: map<string, nat>, store: seq<Session>, flights: Flights, told: map<nat, nat>,
                            maximumConcurrent: int, s: nat)
    requires SessionsValid(sessions, store, flights, told, maximumConcurrent) && s < |store|
    ensures SessionsValid(sessions - {store[s].id}, store, flights, told, maximumConcurrent)
  {
    var sessions' := sessions - {store[s].id};
    forall t: nat | t < |store|
      ensures SessionValid(store[t], flights[t], Told(told, t), Attached(sessions', store, t), maximumConcurrent)
    {
      assert SessionValid(store[t], flights[t], Told(told, t), Attached(sessions, store, t), maximumConcurrent);
      assert Attached(sessions', store, t) ==> Attached(sessions, store, t);
    }
  }

  lemma UpdateKeepsTable(sessions: map<string, nat>, store: seq<Session>, maximumSessions: int, s: nat,
                         session: Session)
    requires TableValid(sessions, store, maximumSessions) && s < |store| && session.id == store[s].id
    ensures TableValid(sessions, store[s := session], maximumSessions)
  {
    var store' := store[s := session];
    assert forall t | 0 <= t < |store| :: store'[t].id == store[t].id;
  }

  lemma UpdateKeepsSessions(sessions: map<string, nat>, store: seq<Session>, flights: Flights, told: map<nat, nat>,
                            maximumConcurrent: int, s: nat, session: Session, flight: map<Request, string>,
                            told': map<nat, nat>)
    requires SessionsValid(sessions, store, flights, told, maximumConcurrent)
    requires s < |store| && session.id == store[s].id
    requires SessionValid(session, flight, Told(told', s), Attached(sessions, store, s), maximumConcurrent)
    requires told' - {s} == told - {s}
    ensures SessionsValid(sessions, store[s := session], flights[s := flight], told', maximumConcurrent)
  {
    var store', flights' := store[s := session], flights[s := flight];
    forall t: nat | t < |store'|
      ensures SessionValid(store'[t], flights'[t], Told(told', t), Attached(sessions, store', t), maximumConcurrent)
    {
      assert SessionValid(store[t], flights[t], Told(told, t), Attached(sessions, store, t), maximumConcurrent);
      assert Attached(sessions, store', t) == Attached(sessions, store, t);
      if t != s {
        ToldElsewhere(told, told', s, t);
      }
    }
  }

  lemma ToldElsewhere(told: map<nat, nat>, told': map<nat, nat>, s: nat, t: nat)
    requires told' - {s} == told - {s} && t != s
    ensures Told(told', t) == Told(told, t)
  {
    assert t in told <==> t in told - {s};
    assert t in told' <==> t in told' - {s};
  }

  lemma AnnounceKeepsSession(sessions: map<string, nat>, store: seq<Session>, flights: Flights, told: map<nat, nat>,
                             maximumConcurrent: int, s: nat, now: int)
    requires SessionsValid(sessions, store, flights, told, maximumConcurrent)
    requires s < |store| && s !in told && Attached(sessions, store, s)
    ensures SessionsValid(sessions, store[s := store[s].(activeRequests := 0, lastAccessAt := now)], flights,
                          told[s := |flights[s]|], maximumConcurrent)
  {
    assert SessionValid(store[s], flights[s], None, true, maximumConcurrent);
    var session := store[s].(activeRequests := 0, lastAccessAt := now);
    UpdateKeepsSessions(sessions, store, flights, told, maximumConcurrent, s, session, flights[s],
                        told[s := |flights[s]|]);
    assert flights[s := flights[s]] == flights;
  }

  lemma AdmitKeepsSession(sessions: map<string, nat>, store: seq<Session>, flights: Flights, told: map<nat, nat>,
                          maximumConcurrent: int, s: nat, key: string, request: Request)
    requires SessionsValid(sessions, store, flights, told, maximumConcurrent)
    requires s < |store| && Attached(sessions, store, s)
    requires key !in store[s].controllers && store[s].activeRequests < maximumConcurrent && request !in flights[s]
    ensures var session := store[s];
            SessionsValid(sessions,
                          store[s := session.(controllers := session.controllers[key := request],
                                              activeRequests := session.activeRequests + 1)],
                          flights[s := flights[s][request := key]], told, maximumConcurrent)
  {
    var session := store[s].(controllers := store[s].controllers[key := request],
                             activeRequests := store[s].activeRequests + 1);
    assert SessionValid(store[s], flights[s], Told(told, s), true, maximumConcurrent);
    UpdateKeepsSessions(sessions, store, flights, told, maximumConcurrent, s, session, flights[s][request := key],
                        told);
  }

  lemma ReleaseKeepsSession(sessions: map<string, nat>, store: seq<Session>, flights: Flights, told: map<nat, nat>,
                            maximumConcurrent: int, s: nat, request: Request, now: int)
    requires SessionsValid(sessions, store, flights, told, maximumConcurrent)
    requires s < |store| && request in flights[s]
    ensures SessionsValid(sessions, store[s := Finished(store[s], flights[s][request], request, now)],
                          flights[s := flights[s] - {request}], told, maximumConcurrent)
  {
    assert SessionValid(store[s], flights[s], Told(told, s), Attached(sessions, store, s), maximumConcurrent);
    WithoutOne(flights[s], request);
    UpdateKeepsSessions(sessions, store, flights, told, maximumConcurrent, s,
                        Finished(store[s], flights[s][request], request, now), flights[s] - {request}, told);
  }

  lemma ControllersAreFlights(sessions: map<string, nat>, store: seq<Session>, flights: Flights, told: map<nat, nat>,
                              maximumConcurrent: int, s: nat)
    requires SessionsValid(sessions, store, flights, told, maximumConcurrent)
    requires s < |store| && Attached(sessions, store, s)
    ensures store[s].controllers.Values == flights[s].Keys
  {
    assert SessionValid(store[s], flights[s], Told(told, s), true, maximumConcurrent);
    forall request <- flights[s] ensures request in store[s].controllers.Values {
      assert store[s].controllers[flights[s][request]] == request;
    }
  }

  /** A session that counts nothing has been announced, with as many requests in flight as now. */
  lemma IdleCountsNothing(sessions: map<string, nat>, store: seq<Session>, flights: Flights, initializing: set<nat>,
                          told: map<nat, nat>, maximumConcurrent: int)
    requires SessionsValid(sessions, store, flights, told, maximumConcurrent) && initializing !! told.Keys
    ensures forall s: nat | s < |store| && store[s].activeRequests == 0 ::
              s !in initializing && s in told && |flights[s]| == told[s]
  {
    forall s: nat | s < |store| && store[s].activeRequests == 0
      ensures s !in initializing && s in told && |flights[s]| == told[s]
    {
      assert SessionValid(store[s], flights[s], Told(told, s), Attached(sessions, store, s), maximumConcurrent);
    }
  }

  lemma AdmitKeepsRequests(sessionOf: map<Request, nat>, flights: Flights, released: set<Request>, request: Request,
                           s: nat, key: string)
    requires RequestsValid(sessionOf, flights, released, request) && s < |flights|
    ensures RequestsValid(sessionOf[request := s], flights[s := flights[s][request := key]], released, request + 1)
    ensures request !in flights[s]
  {
    var sessionOf', flights' := sessionOf[request := s], flights[s := flights[s][request := key]];
    assert request !in sessionOf && request !in released;
    forall t: nat, r | t < |flights'| && r in flights'[t] ensures r in sessionOf' && sessionOf'[r] == t {
      assert r != request ==> r in flights[t];
    }
  }

  lemma InFlightOn(sessionOf: map<Request, nat>, flights: Flights, released: set<Request>, next: Request,
                   request: Request)
    requires RequestsValid(sessionOf, flights, released, next) && request in sessionOf
    ensures sessionOf[request] < |flights| && request in flights[sessionOf[request]]
  {
  }

  lemma NoneAdmitted(sessionOf: map<Request, nat>, flights: Flights, released: set<Request>, s: nat)
    requires RequestsValid(sessionOf, flights, released, 0) && s < |flights|
    ensures flights[s] == map[]
  {
    forall request ensures request !in flights[s] {
      assert request !in sessionOf;
    }
    assert flights[s].Keys == {};
  }

  lemma ReleaseKeepsRequests(sessionOf: map<Request, nat>, flights: Flights, released: set<Request>, next: Request,
                             request: Request)
    requires RequestsValid(sessionOf, flights, released, next) && request in sessionOf
    ensures var s := sessionOf[request];
            RequestsValid(sessionOf - {request}, flights[s := flights[s] - {request}], released + {request}, next)
  {
    var s := sessionOf[request];
    var flights' := flights[s := flights[s] - {request}];
    forall t: nat, r | t < |flights'| && r in flights'[t] ensures r in sessionOf - {request} && sessionOf[r] == t {
      assert r in flights[t];
    }
  }

  lemma AbortKeepsSessions(sessions: map<string, nat>, store: seq<Session>, flights: Flights, told: map<nat, nat>,
                           maximumSessions: int, maximumConcurrent: int, s: nat)
    requires SessionsValid(sessions, store, flights, told, maximumConcurrent)
    requires TableValid(sessions, store, maximumSessions)
    requires s < |store| && Attached(sessions, store, s)
    ensures SessionsValid(sessions - {store[s].id}, store[s := store[s].(controllers := map[])], flights, told,
                          maximumConcurrent)
  {
    var sessions', store' := sessions - {store[s].id}, store[s := store[s].(controllers := map[])];
    forall t: nat | t < |store'|
      ensures SessionValid(store'[t], flights[t], Told(told, t), Attached(sessions', store', t), maximumConcurrent)
    {
      assert SessionValid(store[t], flights[t], Told(told, t), Attached(sessions, store, t), maximumConcurrent);
      if t != s {
        assert store[t].id != store[s].id;
        assert Attached(sessions', store', t) == Attached(sessions, store, t);
      }
    }
  }
}
