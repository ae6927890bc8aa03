/** The closures of one turn, updating its variables notification by notification. */
module TurnNotifications {
  import opened Common
  import opened Turn

  function Concat(texts: seq<string>): string {
    if texts == [] then "" else Concat(texts[..|texts| - 1]) + Last(texts)
  }

  function WithEnding(s: State, ending: Ending): State {
    s.(core := s.core.(ending := ending))
  }

  /** The text budget with some bytes taken from it. */
  function Charged(s: State, bytes: int): State {
    s.(core := s.core.(retainedBytes := s.core.retainedBytes + bytes))
  }

  function WithOutput(s: State, output: Output): State {
    s.(core := s.core.(output := output))
  }

  class Notifications {
    const context: Context
    var turnId: Option<string>
    var latestDiff: string
    var latestDiffBytes: nat
    var finalMessage: string
    var finalMessageBytes: nat
    var streamedMessage: string
    ghost var deltas: seq<string>
    var usage: Option<Usage>
    var reroutes: seq<Reroute>
    var warnings: seq<string>
    var rawEventCount: nat
    var completion: Option<Completion>
    var terminalObserved: bool
    var containment: bool
    var transportEnded: bool
    var failure: Option<string>
    var buffered: seq<Notification>
    var bufferedBytes: nat
    var retainedBytes: int
    var abortRequested: bool
    var interrupted: set<string>

    ghost function State(): State
      reads this
    {
      Turn.State(
        Core(Output(latestDiff, finalMessage, deltas, usage, reroutes), retainedBytes,
             Ending(completion, terminalObserved, containment, transportEnded, failure)),
        warnings, rawEventCount, Intake(turnId, buffered, bufferedBytes, abortRequested, interrupted))
    }

    /** The cached sizes and the streamed text agree with what they stand for. */
    ghost predicate Consistent()
      reads this
    {
      && latestDiffBytes == context.byteLength(latestDiff)
      && finalMessageBytes == context.byteLength(finalMessage)
      && streamedMessage == Concat(deltas)
    }

    ghost predicate Valid()
      reads this
    {
      Consistent() && Bounded(context, State())
    }

    constructor (context: Context)
      requires context.byteLength("") == 0
      ensures Valid() && this.context == context && State() == EMPTY
    {
      this.context := context;
      turnId, failure, completion, usage := None, None, None, None;
      latestDiff, finalMessage, streamedMessage, deltas := "", "", "", [];
      latestDiffBytes, finalMessageBytes, bufferedBytes, retainedBytes, rawEventCount := 0, 0, 0, 0, 0;
      reroutes, warnings, buffered, interrupted := [], [], [], {};
      terminalObserved, containment, transportEnded, abortRequested := false, false, false, false;
    }

    method ResolveCompletion(value: Completion)
      requires Consistent()
      modifies `completion
      ensures Consistent() && State() == WithEnding(old(State()), Resolve(old(State()).core.ending, value))
    {
      if completion.None? {
        completion := Some(value);
      }
    }

    method ContainProtocolFailure(message: string)
      requires Consistent()
      modifies `failure, `warnings, `completion, `containment
      ensures Consistent() && State() == Advance(old(State()), Contain(old(State()).core, message))
    {
      if failure.Some? {
        SaysNothing(warnings);
        return;
      }
      assert State().core.ending.failure.None?;
      hide State, Consistent;
      RecordFailure(message);
      ResolveCompletion(Completion(Failed, Some(message)));
      StartContainment();
    }

    method RecordFailure(message: string)
      requires Consistent()
      modifies `failure, `warnings
      ensures Consistent()
      ensures State() == WithEnding(old(State()), old(State()).core.ending.(failure := Some(message)))
                           .(warnings := old(State()).warnings + [message])
    {
      failure := Some(message);
      warnings := warnings + [message];
    }

    method StartContainment()
      requires Consistent()
      modifies `containment
      ensures Consistent() && State() == WithEnding(old(State()), old(State()).core.ending.(containment := true))
    {
      containment := true;
    }

    /** Takes bytes from the text budget, or fails the turn. */
    method ReserveAdditionalText(bytes: int) returns (reserved: bool)
      requires Consistent()
      modifies `retainedBytes, `failure, `warnings, `completion, `containment
      ensures Consistent()
      ensures reserved <==> old(State()).core.retainedBytes + bytes <= MAX_RETAINED_BYTES
      ensures reserved ==> State() == Charged(old(State()), bytes)
      ensures !reserved ==> State() == Advance(old(State()), Contain(old(State()).core, RETAINED_MESSAGE))
    {
      if retainedBytes + bytes <= MAX_RETAINED_BYTES {
        retainedBytes := retainedBytes + bytes;
        return true;
      }
      ContainProtocolFailure(RETAINED_MESSAGE);
      return false;
    }

    method AppendWarning(message: string)
      requires Consistent()
      modifies `retainedBytes, `failure, `warnings, `completion, `containment
      ensures Consistent() && State() == Advance(old(State()), Warn(context, old(State()).core, message))
      ensures old(Valid()) ==> Valid()
    {
      if Valid() {
        WarnStays(context, State().core, warnings, message);
      }
      var reserved := ReserveAdditionalText(context.byteLength(message));
      if reserved {
        warnings := warnings + [message];
      }
    }

    method BufferNotification(n: Notification)
      requires Consistent()
      modifies this
      ensures Consistent() && State() == Buffer(old(State()), n)
    {
      if |buffered| >= MAX_BUFFERED_NOTIFICATIONS || bufferedBytes + n.bytes > MAX_BUFFERED_BYTES {
        ContainProtocolFailure(BUFFERED_MESSAGE);
        return;
      }
      buffered := buffered + [n];
      bufferedBytes := bufferedBytes + n.bytes;
    }

    method Charge(bytes: int)
      requires Consistent()
      modifies `retainedBytes
      ensures Consistent() && State() == Charged(old(State()), bytes)
    {
      retainedBytes := retainedBytes + bytes;
    }

    method UpdateDiff(diff: string)
      requires Consistent()
      modifies this
      ensures Consistent() && State() == Advance(old(State()), SetDiff(context, old(State()).core, diff))
    {
      assert latestDiffBytes == context.byteLength(State().core.output.latestDiff);
      hide State, Consistent;
      ghost var output := State().core.output.(latestDiff := diff);
      var paid: int, bytes := latestDiffBytes, context.byteLength(diff);
      Charge(-paid);
      var reserved := ReserveAdditionalText(bytes);
      if reserved {
        SetLatestDiff(diff, bytes);
      } else {
        Charge(paid);
      }
    }

    method SetLatestDiff(diff: string, bytes: nat)
      requires Consistent() && bytes == context.byteLength(diff)
      modifies `latestDiff, `latestDiffBytes
      ensures Consistent() && State() == WithOutput(old(State()), old(State()).core.output.(latestDiff := diff))
    {
      latestDiff := diff;
      latestDiffBytes := bytes;
    }

    method UpdateFinalMessage(text: string)
      requires Consistent()
      modifies this
      ensures Consistent() && State() == Advance(old(State()), SetFinal(context, old(State()).core, text))
    {
      assert finalMessageBytes == context.byteLength(State().core.output.finalMessage);
      hide State, Consistent;
      ghost var output := State().core.output.(finalMessage := text);
      var paid: int, bytes := finalMessageBytes, context.byteLength(text);
      Charge(-paid);
      var reserved := ReserveAdditionalText(bytes);
      if reserved {
        SetFinalMessage(text, bytes);
      } else {
        Charge(paid);
      }
    }

    method SetFinalMessage(text: string, bytes: nat)
      requires Consistent() && bytes == context.byteLength(text)
      modifies `finalMessage, `finalMessageBytes
      ensures Consistent() && State() == WithOutput(old(State()), old(State()).core.output.(finalMessage := text))
    {
      finalMessage := text;
      finalMessageBytes := bytes;
    }

    method StreamDelta(delta: string)
      requires Consistent()
      modifies this
      ensures Consistent() && State() == Advance(old(State()), AddDelta(context, old(State()).core, delta))
    {
      SaysNothing(warnings);
      var reserved := ReserveAdditionalText(context.byteLength(delta));
      if reserved {
        assert (deltas + [delta])[..|deltas|] == deltas;
        streamedMessage := streamedMessage + delta;
        deltas := deltas + [delta];
      }
    }

    method RecordReroute(reroute: Reroute)
      requires Consistent()
      modifies this
      ensures Consistent() && State() == Advance(old(State()), AddReroute(context, old(State()).core, reroute))
    {
      SaysNothing(warnings);
      if |reroutes| >= MAX_REROUTES {
        ContainProtocolFailure(REROUTES_MESSAGE);
        return;
      }
      var reserved := ReserveAdditionalText(RerouteBytes(context, reroute));
      if reserved {
        reroutes := reroutes + [reroute];
      }
    }

    method ObserveCompletion(value: Completion)
      requires Consistent()
      modifies this
      ensures Consistent() && State() == Advance(old(State()), CompleteTurn(context, old(State()).core, value))
    {
      SaysNothing(warnings);
      terminalObserved := true;
      if value.protocolError.Some? {
        AppendWarning(value.protocolError.value);
      }
      ResolveCompletion(value);
    }

    method ApplyEvent(n: Notification)
      requires Consistent()
      modifies this
      ensures Consistent() && State() == Advance(old(State()), ApplyTurnEvent(context, old(State()).core, n))
    {
      SaysNothing(warnings);
      match n.kind
      case DiffUpdated =>
        if n.text.Some? {
          UpdateDiff(n.text.value);
        }
      case MessageDelta =>
        if n.text.Some? {
          StreamDelta(n.text.value);
        }
      case ItemCompleted =>
        if n.text.Some? {
          UpdateFinalMessage(n.text.value);
        }
      case TokenUsageUpdated =>
        if n.usage.Some? {
          usage := n.usage;
        }
      case Rerouted =>
        if n.reroute.Some? {
          RecordReroute(n.reroute.value);
        }
      case TurnCompleted => ObserveCompletion(n.completion);
      case _ =>
    }

    /** A state notification that omits its addressing fails the turn and closes the server. */
    method ReportViolation(complaint: string)
      requires Consistent()
      modifies this
      ensures Consistent() && State() == Advance(old(State()), Violate(context, old(State()).core, complaint))
    {
      AppendWarning(complaint);
      ResolveCompletion(Completion(Failed, Some(complaint)));
      containment := true;
    }

    method CountEvent()
      requires Consistent()
      modifies `rawEventCount
      ensures Consistent() && State() == Count(old(State()))
    {
      rawEventCount := rawEventCount + 1;
    }

    /** A notification that is not held back. */
    method HandleNow(n: Notification)
      requires Consistent()
      modifies this
      ensures Consistent() && State() == ProcessKnown(context, old(State()), n)
    {
      SaysNothing(warnings);
      assert warnings == State().warnings && turnId == State().intake.turnId;
      hide State, Consistent, Warn, Violate, ApplyTurnEvent;
      match RouteOf(context, n)
      case Ignored =>
      case ThreadWarning(message) =>
        if message.Some? {
          AppendWarning(message.value);
        }
        CountEvent();
      case ThreadError(scope, error) =>
        if scope.Some? && scope != turnId {
          return;
        }
        AppendWarning(error);
        CountEvent();
      case Violation(complaint) => ReportViolation(complaint);
      case TurnEvent(id) =>
        CountEvent();
        if Some(id) != turnId {
          return;
        }
        ApplyEvent(n);
    }

    method ProcessNotification(n: Notification)
      requires Valid()
      modifies this
      ensures Valid() && State() == Process(context, old(State()), n)
    {
      ProcessStays(context, State(), n);
      if turnId.Some? || !MustWait(context, n) {
        HandleNow(n);
        return;
      }
      var route := RouteOf(context, n);
      if route.TurnEvent? && n.kind.TurnStarted? {
        LearnFromStream(route.turnId);
      } else {
        BufferNotification(n);
      }
    }

    /** turn/started names the turn before the response does; a cancelled turn is interrupted at once. */
    method LearnFromStream(id: string)
      requires Consistent() && bufferedBytes == SumBytes(buffered)
      modifies this
      ensures Consistent()
      ensures var revealed := Reveal(context, Count(old(State())), id);
              State() == if old(abortRequested) then InterruptTurn(context, revealed, id, INTERRUPT_WHILE_SETTLING)
                         else revealed
    {
      CountEvent();
      LearnTurnId(id);
      DrainKeepsIntake(context, Unbuffered(Count(old(State())), id), old(buffered));
      if abortRequested {
        Interrupt(id, INTERRUPT_WHILE_SETTLING);
      }
    }

    /** Names the turn and processes what waited for it. */
    method LearnTurnId(id: string)
      requires Consistent() && bufferedBytes == SumBytes(buffered)
      modifies this
      ensures Consistent() && State() == Reveal(context, old(State()), id)
    {
      var events := buffered;
      ghost var spec := Unbuffered(State(), id);
      ghost var total := bufferedBytes;
      turnId := Some(id);
      buffered := [];
      assert State() == spec.(intake := spec.intake.(bufferedBytes := bufferedBytes));
      assert events[0..] == events && SumBytes(events[..0]) == 0;
      hide State, Consistent, ProcessKnown, SumBytes, Drain, Reveal;
      for i := 0 to |events|
        invariant Consistent()
        invariant State() == spec.(intake := spec.intake.(bufferedBytes := bufferedBytes))
        invariant bufferedBytes == total - SumBytes(events[..i])
        invariant spec.intake == Unbuffered(old(State()), id).intake
        invariant Drain(context, spec, events[i..]) == Reveal(context, old(State()), id)
      {
        SumBytesStep(events, i);
        DrainStep(context, spec, events, i);
        DrainOne(events[i], spec);
        spec := ProcessKnown(context, spec, events[i]);
      }
      DrainNothing(context, spec, events);
    }

    method DrainOne(event: Notification, ghost spec: State)
      requires Consistent() && event.bytes <= bufferedBytes
      requires State() == spec.(intake := spec.intake.(bufferedBytes := bufferedBytes))
      modifies this
      ensures Consistent() && bufferedBytes == old(bufferedBytes) - event.bytes
      ensures State() == ProcessKnown(context, spec, event).(intake := spec.intake.(bufferedBytes := bufferedBytes))
    {
      bufferedBytes := bufferedBytes - event.bytes;
      HandleNow(event);
    }

    method Interrupt(id: string, reason: string)
      requires Consistent()
      modifies `interrupted, `retainedBytes, `failure, `warnings, `completion, `containment
      ensures Consistent() && State() == InterruptTurn(context, old(State()), id, reason)
      ensures interrupted == old(interrupted) + {id}
      ensures old(Valid()) ==> Valid()
    {
      if id in interrupted {
        return;
      }
      AppendWarning(reason);
      interrupted := interrupted + {id};
    }

    method RequestAbort()
      requires Valid()
      modifies `abortRequested
      ensures Valid() && abortRequested
    {
      abortRequested := true;
    }

    lemma CompletionExplained()
      requires Valid()
      ensures completion.Some? ==> terminalObserved || containment || transportEnded
    {
    }

    /** The transport exits or fails during the turn. */
    method OnTransportEnded()
      requires Valid()
      modifies `transportEnded, `completion
      ensures Valid() && transportEnded && completion.Some?
      ensures State() ==
                WithEnding(old(State()),
                           Resolve(old(State()).core.ending.(transportEnded := true), Completion(Failed, None)))
    {
      transportEnded := true;
      ResolveCompletion(Completion(Failed, None));
    }
  }

  lemma DrainNothing(c: Context, s: State, events: seq<Notification>)
    ensures Drain(c, s, events[|events|..]) == s && events[..|events|] == events
  {
  }

  lemma DrainStep(c: Context, s: State, events: seq<Notification>, i: nat)
    requires i < |events|
    ensures Drain(c, s, events[i..]) == Drain(c, ProcessKnown(c, s, events[i]), events[i + 1..])
    ensures ProcessKnown(c, s, events[i]).intake == s.intake
  {
    assert events[i..][1..] == events[i + 1..];
  }

  lemma SumBytesStep(events: seq<Notification>, i: nat)
    requires i < |events|
    ensures SumBytes(events[..i + 1]) == SumBytes(events[..i]) + events[i].bytes <= SumBytes(events)
  {
    assert events[..i + 1][..i] == events[..i];
    SumBytesPrefix(events, i + 1);
  }

  lemma {:induction false} SumBytesPrefix(events: seq<Notification>, i: nat)
    requires i <= |events|
    ensures SumBytes(events[..i]) <= SumBytes(events)
  {
    if i < |events| {
      SumBytesPrefix(events[..|events| - 1], i);
      assert events[..|events| - 1][..i] == events[..i];
    } else {
      assert events[..i] == events;
    }
  }
}
