/**
 The executor of one attempt: an App Server connection, the one turn on it, and the call that starts the turn. What
 happens on the connection before and after the start is an arbitrary list of events; one that is not enabled when its
 turn comes stands for one that cannot happen.
 */
module TurnExecutor {
  import opened Common
  import JsonRpc
  import Turn
  import TurnNotifications
  import TurnRun

  const TURN_START := "turn/start"

  /** The empty text has no bytes. */
  type Context = c: Turn.Context | c.byteLength("") == 0 witness Turn.Context("", (text: string) => 0)

  datatype ConnectionEvent =
    | Requested(rpc: string, due: int, hasSignal: bool, aborted: bool, writable: bool)
    | Responded(response: JsonRpc.Response)
    | TimerFired(id: JsonRpc.Id)
    | SignalFired(id: JsonRpc.Id)
    | Disconnected
    | StartSettles(now: int, jitter: nat)

  datatype TurnEvent =
    | Notified(n: Turn.Notification)
    | AbortRaised
    | InterruptFailed
    | TransportEnded
    | StartAnswered(turnId: Option<string>)
    | StartRejected
    | CompletionWon
    | TimeoutWon
    | AbortWon
    | TerminalSeen
    | TerminalMissed

  type Duration = n: nat | n > 0 witness 1

  /** When the start request is issued, within which time, and whether the transport can still be written to. */
  datatype Issue = Issue(now: int, timeout: Duration, writable: bool)

  datatype Event = OnConnection(connection: ConnectionEvent) | OnTurn(turn: TurnEvent)

  /** How many of the frames ask for a turn to be started. */
  function TurnStarts(frames: seq<JsonRpc.Frame>): nat {
    if frames == [] then 0 else TurnStarts(frames[..|frames| - 1]) + if Last(frames).rpc == TURN_START then 1 else 0
  }

  lemma {:induction false} TurnStartsWithin(frames: seq<JsonRpc.Frame>, ids: set<JsonRpc.Id>)
    requires forall frame <- frames :: frame.rpc == TURN_START ==> frame.id in ids
    ensures TurnStarts(frames) <= JsonRpc.FramesWith(frames, ids)
  {
    if frames != [] {
      assert Last(frames) in frames;
      TurnStartsWithin(frames[..|frames| - 1], ids);
    }
  }

  /** What an event makes of a turn, as far as notifications, the connection and the exit go. */
  ghost predicate Follows(c: Turn.Context, event: Event, state: Turn.State, phase: TurnRun.Phase, state': Turn.State,
                          phase': TurnRun.Phase)
  {
    && (event.OnConnection? || phase.Exited? ==> state' == state && phase' == phase)
    && (event.OnTurn? && event.turn.Notified? && !phase.Exited? ==>
          state' == Turn.Process(c, state, event.turn.n) && phase' == phase)
  }

  class Server {
    const client: JsonRpc.JsonRpcClient
    const turn: TurnRun.Run
    /** The call that starts the turn, once the accounting hook has returned. */
    var start: JsonRpc.Call?

    ghost predicate StartValid()
      reads this, client, start
    {
      start != null ==> start.client == client && start.rpc == TURN_START && start.Valid()
    }

    /** Every turn/start frame on the connection belongs to the start call. */
    ghost predicate FramesOwned()
      reads this, client, start
    {
      forall frame <- client.frames :: frame.rpc == TURN_START ==> start != null && frame.id in start.ids
    }

    ghost predicate Valid()
      reads this, client, start, turn, turn.notes
    {
      && client.Valid() && turn.Valid()
      && (start != null <==> turn.startRequests > 0)
      && StartValid() && FramesOwned()
    }

    constructor (context: Context)
      ensures Valid() && fresh(client) && fresh(turn) && fresh(turn.notes)
      ensures start == null && turn.phase.AwaitingHook?
    {
      client := new JsonRpc.JsonRpcClient();
      var notes := new TurnNotifications.Notifications(context);
      turn := new TurnRun.Run(notes);
      start := null;
    }

    /** At most one turn/start frame, and none before the start call. */
    lemma StartsOnce()
      requires Valid()
      ensures TurnStarts(client.frames) <= if start == null then 0 else 1
    {
      var ids := if start == null then {} else JsonRpc.IdSet(start.ids);
      TurnStartsWithin(client.frames, ids);
      if start == null {
        JsonRpc.FramesWithinIds(client.frames, {});
      } else {
        assert TURN_START !in JsonRpc.READ_METHODS;
        start.BoundedFrames();
      }
    }

    /** Whatever happens on the connection without a turn/start frame leaves the server valid. */
    twostate lemma ConnectionKeeps()
      requires old(Valid()) && client.Valid() && client.Evolves()
      requires unchanged(this) && unchanged(turn) && unchanged(turn.notes) && (start != null ==> unchanged(start))
      requires forall frame <- client.frames :: frame.rpc == TURN_START ==> frame in old(client.frames)
      ensures Valid()
    {
      if start != null {
        start.StableUnderOthers();
      }
    }

    method HandleConnection(event: ConnectionEvent)
      requires Valid()
      modifies client, start
      ensures Valid()
      ensures event.Requested? && event.rpc != TURN_START && (event.aborted ==> event.hasSignal) ==>
                client.nextId == old(client.nextId) + 1
      ensures event.Responded? && event.response.id in old(client.pending) ==>
                event.response.id in client.settled && client.pending == old(client.pending) - {event.response.id}
      ensures event.TimerFired? && event.id in old(client.timers) ==>
                event.id in client.settled && client.settled[event.id] == JsonRpc.TimedOut
      ensures event.SignalFired? && event.id in old(client.listeners) ==>
                event.id in client.settled && client.settled[event.id] == JsonRpc.Aborted
      ensures event.Disconnected? ==> client.pending == map[] && client.timers == map[]
    {
      hide JsonRpc.JsonRpcClient.Valid, JsonRpc.JsonRpcClient.Evolves, TurnRun.Run.Valid, StartValid, FramesOwned;
      match event
      case Requested(rpc, due, hasSignal, aborted, writable) =>
        if rpc != TURN_START && (aborted ==> hasSignal) {
          var id := client.RequestOnce(rpc, due, hasSignal, aborted, writable);
          ConnectionKeeps();
        }
      case Responded(response) =>
        client.OnResponse(response);
        ConnectionKeeps();
      case TimerFired(id) =>
        if id in client.timers {
          client.OnTimeout(id);
          ConnectionKeeps();
        }
      case SignalFired(id) =>
        if id in client.listeners {
          client.OnAbort(id);
          ConnectionKeeps();
        }
      case Disconnected =>
        client.RejectAll();
        ConnectionKeeps();
      case StartSettles(now, jitter) =>
        if start != null && jitter < 75 {
          SettleStart(now, jitter);
        }
    }

    method SettleStart(now: int, jitter: nat)
      requires Valid() && start != null && jitter < 75
      modifies start
      ensures Valid()
    {
      if start.phase.Waiting? && start.phase.id in client.settled {
        start.OnSettled(now, jitter);
      }
    }

    /** The start call is over, with a result or with an error. */
    predicate StartIsOver(withResult: bool)
      reads this, start
    {
      start != null && start.phase.Finished? && start.phase.outcome.Result? == withResult
    }

    method HandleTurn(event: TurnEvent)
      requires Valid()
      modifies turn, turn.notes
      ensures Valid() && turn.startRequests == old(turn.startRequests)
      ensures old(turn.phase).AwaitingHook? ==> turn.phase.AwaitingHook?
      ensures old(turn.phase).Exited? ==> unchanged(turn) && unchanged(turn.notes)
      ensures !old(turn.phase).Exited? && event.Notified? ==>
                unchanged(turn) &&
                turn.notes.State() == Turn.Process(turn.notes.context, old(turn.notes.State()), event.n)
      ensures !old(turn.phase).Exited? && event.AbortRaised? ==> unchanged(turn) && turn.notes.abortRequested
      ensures !old(turn.phase).Exited? && event.TransportEnded? ==>
                unchanged(turn) && turn.notes.transportEnded && turn.notes.completion.Some?
      ensures old(turn.phase).AwaitingStart? && event.StartAnswered? && StartIsOver(true) ==> !turn.phase.AwaitingStart?
      ensures old(turn.phase).AwaitingStart? && event.StartRejected? && StartIsOver(false) ==>
                !turn.phase.AwaitingStart?
      ensures old(turn.phase).Running? ==>
                && (event.CompletionWon? && old(turn.notes.completion).Some? ==>
                      turn.phase.Exited? || turn.phase == TurnRun.AwaitingTerminal(TurnRun.TurnEnded, Turn.Interrupted))
                && (event.TimeoutWon? ==>
                      turn.phase == TurnRun.AwaitingTerminal(TurnRun.TimedOut, Turn.Interrupted))
                && (event.AbortWon? && old(turn.notes.abortRequested) ==>
                      turn.phase == TurnRun.AwaitingTerminal(TurnRun.CallerAborted, Turn.Interrupted))
      ensures old(turn.phase).AwaitingTerminal? ==>
                && (event.TerminalSeen? && old(turn.notes.completion).Some? ==> turn.phase.Exited?)
                && (event.TerminalMissed? ==> turn.phase.Exited? && turn.closed)
    {
      hide JsonRpc.JsonRpcClient.Valid, StartValid, FramesOwned, Turn.Bounded;
      match turn.phase
      case Exited(_, _) =>
      case AwaitingHook => HandleArrival(event);
      case AwaitingStart =>
        if event.StartAnswered? && StartIsOver(true) {
          turn.OnStartResponse(event.turnId);
        } else if event.StartRejected? && StartIsOver(false) {
          turn.OnStartRejected();
        } else {
          HandleArrival(event);
        }
      case Running => HandleRunning(event);
      case AwaitingTerminal(_, _) =>
        if event.TerminalSeen? && turn.notes.completion.Some? {
          turn.OnTerminalCompletion();
        } else if event.TerminalMissed? {
          turn.OnTerminalTimeout();
        } else {
          HandleArrival(event);
        }
    }

    /** What may arrive in any phase before the exit. */
    method HandleArrival(event: TurnEvent)
      requires Valid() && !turn.phase.Exited?
      modifies turn.notes
      ensures Valid()
      ensures event.Notified? ==>
                turn.notes.State() == Turn.Process(turn.notes.context, old(turn.notes.State()), event.n)
      ensures event.AbortRaised? ==> turn.notes.abortRequested
      ensures event.TransportEnded? ==> turn.notes.transportEnded && turn.notes.completion.Some?
    {
      hide JsonRpc.JsonRpcClient.Valid, StartValid, FramesOwned, Turn.Bounded, Turn.Process;
      match event
      case Notified(n) => turn.OnNotification(n);
      case AbortRaised => turn.OnAbort();
      case InterruptFailed =>
        if turn.notes.interrupted != {} {
          turn.OnInterruptFailed();
        }
      case TransportEnded => turn.OnTransportEnded();
      case _ =>
    }

    /** The race between completion, timeout and abort. */
    method HandleRunning(event: TurnEvent)
      requires Valid() && turn.phase.Running?
      modifies turn, turn.notes
      ensures Valid() && turn.startRequests == old(turn.startRequests)
      ensures event.CompletionWon? && old(turn.notes.completion).Some? ==>
                turn.phase.Exited? || turn.phase == TurnRun.AwaitingTerminal(TurnRun.TurnEnded, Turn.Interrupted)
      ensures event.TimeoutWon? ==> turn.phase == TurnRun.AwaitingTerminal(TurnRun.TimedOut, Turn.Interrupted)
      ensures event.AbortWon? && old(turn.notes.abortRequested) ==>
                turn.phase == TurnRun.AwaitingTerminal(TurnRun.CallerAborted, Turn.Interrupted)
      ensures event.Notified? ==>
                unchanged(turn) &&
                turn.notes.State() == Turn.Process(turn.notes.context, old(turn.notes.State()), event.n)
      ensures event.AbortRaised? ==> unchanged(turn) && turn.notes.abortRequested
      ensures event.TransportEnded? ==> unchanged(turn) && turn.notes.transportEnded && turn.notes.completion.Some?
    {
      hide JsonRpc.JsonRpcClient.Valid, StartValid, FramesOwned, Turn.Bounded;
      match event
      case CompletionWon => if turn.notes.completion.Some? { turn.OnCompletion(); }
      case TimeoutWon => turn.OnTimeout();
      case AbortWon => if turn.notes.abortRequested { turn.OnAbortWins(); }
      case _ => HandleArrival(event);
    }

    /**
     `states` and `phases` are those of the turn before each event and at the end. A turn that has not exited processes
     every notification; what happens on the connection, and whatever comes after the exit, leaves it alone.
     */
    method HandleAll(events: seq<Event>) returns (ghost states: seq<Turn.State>, ghost phases: seq<TurnRun.Phase>)
      requires Valid()
      modifies client, start, turn, turn.notes
      ensures Valid() && turn.startRequests == old(turn.startRequests)
      ensures old(turn.phase).AwaitingHook? ==> turn.phase.AwaitingHook?
      ensures |states| == |phases| == |events| + 1
      ensures states[0] == old(turn.notes.State()) && phases[0] == old(turn.phase)
      ensures states[|events|] == turn.notes.State() && phases[|events|] == turn.phase
      ensures forall i | 0 <= i < |events| ::
                Follows(turn.notes.context, events[i], states[i], phases[i], states[i + 1], phases[i + 1])
    {
      hide Valid, Turn.Process;
      states, phases := [turn.notes.State()], [turn.phase];
      for i := 0 to |events|
        invariant Valid() && turn.startRequests == old(turn.startRequests)
        invariant old(turn.phase).AwaitingHook? ==> turn.phase.AwaitingHook?
        invariant |states| == |phases| == i + 1
        invariant states[0] == old(turn.notes.State()) && phases[0] == old(turn.phase)
        invariant states[i] == turn.notes.State() && phases[i] == turn.phase
        invariant forall k | 0 <= k < i ::
                    Follows(turn.notes.context, events[k], states[k], phases[k], states[k + 1], phases[k + 1])
      {
        if events[i].OnConnection? {
          HandleConnection(events[i].connection);
        } else {
          HandleTurn(events[i].turn);
        }
        states, phases := states + [turn.notes.State()], phases + [turn.phase];
      }
    }

    /** The accounting hook throws, and no request goes out, or it returns, and the one that starts the turn does. */
    method AfterHook(returned: bool, issue: Issue)
      requires Valid() && turn.phase.AwaitingHook?
      modifies `start, client, turn, turn.notes
      ensures Valid() && (start != null <==> returned) && (start != null ==> fresh(start))
    {
      turn.OnHook(returned);
      if returned {
        start := new JsonRpc.Call(client, TURN_START, issue.now, issue.timeout, false, false, issue.writable);
      }
    }
  }
}
