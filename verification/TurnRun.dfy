/**
 The awaits of one turn: what each of them may be woken by, and how the turn ends.

 Every method is one event that the source's promises can deliver in that phase; any order of events
 that the phases admit is a possible run.
 */
module TurnRun {
  import opened Common
  import opened Turn
  import opened TurnNotifications

  datatype Cause = HookFailed | StartFailed | IdMismatch | TurnEnded | TimedOut | CallerAborted

  datatype Verdict = Thrown | Returned(status: CompletionStatus)

  datatype Phase =
    | AwaitingHook
    | AwaitingStart
    | Running
    | AwaitingTerminal(pending: Cause, status: CompletionStatus)
    | Exited(cause: Cause, verdict: Verdict)

  const MISMATCH_MESSAGE := "turn/start response id did not match the streamed id; Counterlane interrupted both ids."
  const INTERRUPT_STREAMED := "Counterlane interrupted the streamed turn after a turn-id mismatch."
  const INTERRUPT_RESPONSE := "Counterlane interrupted the response turn after a turn-id mismatch."
  const INTERRUPT_TIMED_OUT := "Codex turn exceeded its time and was interrupted."
  const INTERRUPT_FINALIZED := "Codex turn interruption was finalized by Counterlane."
  const INTERRUPT_START_FAILED := "Codex turn/start failed after the remote turn began; Counterlane interrupted it."
  const START_FAILED_MESSAGE := "Codex turn failed."
  const NO_TERMINAL_MESSAGE := "Codex did not emit turn/completed; closing the App Server to stop further mutations."
  const INTERRUPT_FAILED_MESSAGE := "Unable to interrupt Codex turn cleanly."

  class Run {
    const notes: Notifications
    var phase: Phase
    /** Whether a `close()` has completed. */
    var closed: bool
    var startRequests: nat

    /** The turn may still be running remotely although this run has ended. */
    ghost predicate Orphaned()
      reads this, notes
    {
      phase.Exited? && !closed && !notes.terminalObserved
    }

    ghost predicate Valid()
      reads this, notes
    {
      && notes.Valid()
      && startRequests <= 1
      && (phase.AwaitingHook? ==> startRequests == 0)
      && (phase.Running? || phase.AwaitingTerminal? ==> notes.turnId.Some?)
      && (Orphaned() ==> phase.cause == TurnEnded && notes.transportEnded && !notes.containment)
    }

    constructor (notes: Notifications)
      requires notes.Valid()
      ensures Valid() && this.notes == notes && phase == AwaitingHook && !closed && startRequests == 0
    {
      this.notes := notes;
      phase := AwaitingHook;
      closed := false;
      startRequests := 0;
    }

    /** The accounting hook returns, and the request goes out, or it throws, and none does. */
    method OnHook(returned: bool)
      requires Valid() && phase.AwaitingHook?
      modifies this, notes
      ensures Valid()
      ensures startRequests == if returned then 1 else 0
      ensures returned ==> phase == AwaitingStart && unchanged(notes) && closed == old(closed)
      ensures !returned ==> if old(notes.turnId).None? then phase == Exited(HookFailed, Thrown) && closed
                            else && phase == AwaitingTerminal(HookFailed, Failed) && closed == old(closed)
                                 && old(notes.turnId).value in notes.interrupted
    {
      if returned {
        startRequests := startRequests + 1;
        phase := AwaitingStart;
      } else {
        FailStart(HookFailed);
      }
    }

    /** The catch block: close if no turn is known, otherwise interrupt it and wait for its end. */
    method FailStart(cause: Cause)
      requires Valid() && phase in {AwaitingHook, AwaitingStart} && cause != TurnEnded
      modifies this`phase, this`closed, notes
      ensures Valid()
      ensures old(notes.turnId).None? ==> phase == Exited(cause, Thrown) && closed
      ensures old(notes.turnId).Some? ==>
                && phase == AwaitingTerminal(cause, Failed) && closed == old(closed)
                && old(notes.turnId).value in notes.interrupted
    {
      hide Bounded;
      if notes.turnId.None? {
        closed := true;
        phase := Exited(cause, Thrown);
        return;
      }
      notes.AppendWarning(START_FAILED_MESSAGE);
      notes.Interrupt(notes.turnId.value, INTERRUPT_START_FAILED);
      phase := AwaitingTerminal(cause, Failed);
    }

    method OnStartRejected()
      requires Valid() && phase.AwaitingStart?
      modifies this, notes
      ensures Valid() && startRequests == old(startRequests)
      ensures if old(notes.turnId).None? then phase == Exited(StartFailed, Thrown) && closed
              else && phase == AwaitingTerminal(StartFailed, Failed) && closed == old(closed)
                   && old(notes.turnId).value in notes.interrupted
    {
      FailStart(StartFailed);
    }

    /** The turn/start response arrives, with or without a turn id. */
    method OnStartResponse(responseTurnId: Option<string>)
      requires Valid() && phase.AwaitingStart?
      modifies this, notes
      ensures Valid() && startRequests == old(startRequests)
      ensures responseTurnId.None? ==>
                if old(notes.turnId).None? then phase == Exited(StartFailed, Thrown) && closed
                else && phase == AwaitingTerminal(StartFailed, Failed) && closed == old(closed)
                     && old(notes.turnId).value in notes.interrupted
      ensures responseTurnId.Some? ==>
                if old(notes.turnId).Some? && old(notes.turnId) != responseTurnId
                then && phase == Exited(IdMismatch, Returned(Failed)) && closed
                     && {old(notes.turnId).value, responseTurnId.value} <= notes.interrupted
                else phase == Running && notes.turnId == responseTurnId
      ensures responseTurnId.Some? && phase.Running? && !old(notes.abortRequested) ==>
                notes.State() == Reveal(notes.context, old(notes.State()), responseTurnId.value)
      ensures responseTurnId.Some? && phase.Running? && old(notes.abortRequested) ==>
                responseTurnId.value in notes.interrupted
      ensures phase.Running? ==> closed == old(closed)
    {
      if responseTurnId.None? {
        FailStart(StartFailed);
        return;
      }
      var id := responseTurnId.value;
      if notes.turnId.Some? && notes.turnId.value != id {
        OnMismatch(id);
        return;
      }
      OnIdentity(id);
    }

    /** The response and the stream name different turns: both are interrupted, and the server is closed. */
    method OnMismatch(id: string)
      requires Valid() && phase.AwaitingStart? && notes.turnId.Some? && notes.turnId.value != id
      modifies this`closed, this`phase, notes
      ensures Valid() && phase == Exited(IdMismatch, Returned(Failed)) && closed
      ensures {old(notes.turnId).value, id} <= notes.interrupted
    {
      hide Bounded, InterruptTurn, Warn;
      notes.AppendWarning(MISMATCH_MESSAGE);
      notes.Interrupt(notes.turnId.value, INTERRUPT_STREAMED);
      notes.Interrupt(id, INTERRUPT_RESPONSE);
      closed := true;
      phase := Exited(IdMismatch, Returned(Failed));
    }

    /** The turn's id is confirmed, or learnt from the response. */
    method OnIdentity(id: string)
      requires Valid() && phase.AwaitingStart? && (notes.turnId.None? || notes.turnId.value == id)
      modifies this`phase, notes
      ensures Valid() && phase == Running && notes.turnId == Some(id)
      ensures !old(notes.abortRequested) ==> notes.State() == Reveal(notes.context, old(notes.State()), id)
      ensures old(notes.abortRequested) ==> id in notes.interrupted
    {
      RevealStays(notes.context, notes.State(), id);
      DrainKeepsIntake(notes.context, Unbuffered(notes.State(), id), notes.buffered);
      notes.LearnTurnId(id);
      if notes.abortRequested {
        notes.Interrupt(id, INTERRUPT_BEFORE_SETTLED);
      }
      phase := Running;
    }

    /** The completion wins the race. A started containment is awaited first. */
    method OnCompletion()
      requires Valid() && phase.Running? && notes.completion.Some?
      modifies this, notes
      ensures Valid() && startRequests == old(startRequests)
      ensures old(notes.completion).value.status == Interrupted ==> phase == AwaitingTerminal(TurnEnded, Interrupted)
      ensures old(notes.completion).value.status != Interrupted ==>
                phase == Exited(TurnEnded, Returned(old(notes.completion).value.status))
      ensures closed <==> old(closed) || old(notes.containment)
      // The one way to leave a turn behind: the transport ended it, and nothing else did.
      ensures Orphaned() <==>
                && old(notes.completion).value.status != Interrupted
                && !old(closed) && !old(notes.containment) && !old(notes.terminalObserved)
    {
      notes.CompletionExplained();
      hide Bounded, InterruptTurn;
      var completed := notes.completion.value;
      if notes.containment {
        closed := true;
      }
      if completed.status == Interrupted {
        notes.Interrupt(notes.turnId.value, INTERRUPT_FINALIZED);
        phase := AwaitingTerminal(TurnEnded, Interrupted);
        return;
      }
      phase := Exited(TurnEnded, Returned(completed.status));
    }

    /** The turn timer wins the race. */
    method OnTimeout()
      requires Valid() && phase.Running?
      modifies this, notes
      ensures Valid() && startRequests == old(startRequests)
      ensures phase == AwaitingTerminal(TimedOut, Interrupted) && (closed <==> old(closed) || notes.containment)
      ensures notes.turnId == old(notes.turnId) && notes.turnId.value in notes.interrupted
    {
      hide Bounded, Warn;
      notes.Interrupt(notes.turnId.value, INTERRUPT_TIMED_OUT);
      if notes.containment {
        closed := true;
      }
      phase := AwaitingTerminal(TimedOut, Interrupted);
    }

    /** The caller's abort wins the race. */
    method OnAbortWins()
      requires Valid() && phase.Running? && notes.abortRequested
      modifies this, notes
      ensures Valid() && startRequests == old(startRequests)
      ensures phase == AwaitingTerminal(CallerAborted, Interrupted)
      ensures closed <==> old(closed) || old(notes.containment)
      ensures notes.turnId == old(notes.turnId) && notes.turnId.value in notes.interrupted
    {
      if notes.containment {
        closed := true;
      }
      notes.Interrupt(notes.turnId.value, INTERRUPT_FINALIZED);
      phase := AwaitingTerminal(CallerAborted, Interrupted);
    }

    /** After an interruption, the completion resolves: only an observed turn/completed avoids the close. */
    method OnTerminalCompletion()
      requires Valid() && phase.AwaitingTerminal? && notes.completion.Some?
      modifies this, notes
      ensures Valid() && startRequests == old(startRequests)
      ensures phase.Exited? && phase.cause == old(phase).pending && !Orphaned()
      ensures phase.verdict ==
                Returned(if old(phase).pending in {HookFailed, StartFailed} && notes.abortRequested then Interrupted
                         else old(phase).status)
      ensures closed <==> old(closed) || !old(notes.terminalObserved)
    {
      hide Bounded, Warn;
      if !notes.terminalObserved {
        notes.AppendWarning(NO_TERMINAL_MESSAGE);
        closed := true;
      }
      Leave();
    }

    /** After an interruption, the shutdown timer fires first. */
    method OnTerminalTimeout()
      requires Valid() && phase.AwaitingTerminal?
      modifies this, notes
      ensures Valid() && startRequests == old(startRequests)
      ensures phase.Exited? && phase.cause == old(phase).pending && closed
      ensures phase.verdict ==
                Returned(if old(phase).pending in {HookFailed, StartFailed} && notes.abortRequested then Interrupted
                         else old(phase).status)
    {
      hide Bounded, Warn;
      notes.AppendWarning(NO_TERMINAL_MESSAGE);
      closed := true;
      Leave();
    }

    method Leave()
      requires phase.AwaitingTerminal?
      modifies `phase
      ensures phase.Exited? && phase.cause == old(phase).pending
      ensures phase.verdict ==
                Returned(if old(phase).pending in {HookFailed, StartFailed} && notes.abortRequested then Interrupted
                         else old(phase).status)
    {
      var status := if phase.pending in {HookFailed, StartFailed} && notes.abortRequested then Interrupted
                    else phase.status;
      phase := Exited(phase.pending, Returned(status));
    }

    // ----- events of any phase before the exit -----

    method OnNotification(n: Notification)
      requires Valid() && !phase.Exited?
      modifies notes
      ensures Valid() && notes.State() == Process(notes.context, old(notes.State()), n)
    {
      notes.ProcessNotification(n);
    }

    method OnAbort()
      requires Valid() && !phase.Exited?
      modifies notes
      ensures Valid() && notes.abortRequested
      ensures notes.turnId == old(notes.turnId)
      ensures notes.turnId.Some? ==> notes.turnId.value in notes.interrupted
    {
      hide Bounded, InterruptTurn;
      notes.RequestAbort();
      if notes.turnId.Some? {
        notes.Interrupt(notes.turnId.value, INTERRUPT_CANCELLED);
      }
    }

    method OnInterruptFailed()
      requires Valid() && !phase.Exited?
      modifies notes
      ensures Valid()
    {
      notes.AppendWarning(INTERRUPT_FAILED_MESSAGE);
    }

    method OnTransportEnded()
      requires Valid() && !phase.Exited?
      modifies notes
      ensures Valid() && notes.completion.Some? && notes.transportEnded
      ensures notes.State() == WithEnding(old(notes.State()),
                                          Resolve(old(notes.State()).core.ending.(transportEnded := true),
                                                  Completion(Failed, None)))
    {
      notes.OnTransportEnded();
    }

    /** A run that has ended has seen its turn end, or has closed the server, or was ended by the transport itself. */
    lemma NoOrphanedTurn()
      requires Valid() && phase.Exited?
      ensures
        || notes.terminalObserved || closed
        || (phase.cause == TurnEnded && notes.transportEnded && !notes.containment)
      ensures phase.cause != TurnEnded ==> notes.terminalObserved || closed
    {
    }
  }

  /** A run that leaves its turn behind: the start is answered, and then the transport goes away. */
  method OrphanWitness(context: Context) returns (run: Run)
    requires context.byteLength("") == 0
    ensures fresh(run) && run.Valid() && run.Orphaned() && run.startRequests == 1
  {
    var notes := new Notifications(context);
    run := new Run(notes);
    run.OnHook(true);
    assert notes.State() == EMPTY;
    run.OnStartResponse(Some("turn"));
    assert Reveal(context, EMPTY, "turn") == Unbuffered(EMPTY, "turn");
    run.OnTransportEnded();
    run.OnCompletion();
  }
}
