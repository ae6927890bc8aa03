/**
 What a turn is reported to have done, said of the events that were received: for every stream, wherever in it the
 turn's id became known and wherever the caller aborted, unless a bound was exceeded.
 */
module TurnStream {
  import opened Common
  import opened Turn
  import opened TurnTransparency
  import opened TurnCancellation
  import opened TurnNotifications

  type Events = seq<Notification>

  /** Everything before the last event. */
  function Before(events: Events): Events
    requires events != []
  {
    events[..|events| - 1]
  }

  // ----- whose event it is -----

  function NamedTurn(n: Notification): Option<string> {
    if n.turnId.Some? then n.turnId else n.nestedTurnId
  }

  /** An event of this turn of this thread. */
  predicate Own(c: Context, turnId: string, n: Notification) {
    n.kind !in {Warning, Error} && n.threadId == Some(c.threadId) && NamedTurn(n) == Some(turnId)
  }

  /** A warning or an error reaches the turn unless another thread, or an error of another turn, is named. */
  predicate Reaches(c: Context, turnId: string, n: Notification) {
    && n.threadId in {None, Some(c.threadId)}
    && (n.kind == Warning || (n.kind == Error && n.turnId in {None, Some(turnId)}))
  }

  /** The complaint about an event of a turn's state that does not say whose it is. */
  function Complaint(c: Context, n: Notification): Option<string> {
    if n.kind in {Warning, Error, Other} then None
    else if n.threadId.None? then Some("notification omitted threadId; Counterlane closed the App Server.")
    else if n.threadId == Some(c.threadId) && NamedTurn(n).None?
    then Some("notification omitted turnId; Counterlane closed the App Server.")
    else None
  }

  // ----- what the events amount to -----

  /** The text of the last event of this kind that has one. */
  function LastText(c: Context, turnId: string, kind: Kind, events: Events): string {
    if events == [] then ""
    else if Own(c, turnId, Last(events)) && Last(events).kind == kind && Last(events).text.Some?
    then Last(events).text.value
    else LastText(c, turnId, kind, Before(events))
  }

  /** The texts of all of them, in order. */
  function Texts(c: Context, turnId: string, kind: Kind, events: Events): seq<string> {
    if events == [] then []
    else
      Texts(c, turnId, kind, Before(events)) +
      if Own(c, turnId, Last(events)) && Last(events).kind == kind && Last(events).text.Some?
      then [Last(events).text.value] else []
  }

  function LastUsage(c: Context, turnId: string, events: Events): Option<Usage> {
    if events == [] then None
    else if Own(c, turnId, Last(events)) && Last(events).kind == TokenUsageUpdated && Last(events).usage.Some?
    then Last(events).usage
    else LastUsage(c, turnId, Before(events))
  }

  function Reroutes(c: Context, turnId: string, events: Events): seq<Reroute> {
    if events == [] then []
    else
      Reroutes(c, turnId, Before(events)) +
      if Own(c, turnId, Last(events)) && Last(events).kind == Rerouted && Last(events).reroute.Some?
      then [Last(events).reroute.value] else []
  }

  /** The turn is over with the first own completion, or fails with the first complaint. */
  function Completes(c: Context, turnId: string, n: Notification): Option<Completion> {
    if Own(c, turnId, n) && n.kind == TurnCompleted then Some(n.completion)
    else if Complaint(c, n).Some? then Some(Completion(CompletionStatus.Failed, Complaint(c, n)))
    else None
  }

  function FirstCompletion(c: Context, turnId: string, events: Events): Option<Completion> {
    if events == [] then None
    else if FirstCompletion(c, turnId, Before(events)).Some? then FirstCompletion(c, turnId, Before(events))
    else Completes(c, turnId, Last(events))
  }

  function Says(c: Context, turnId: string, n: Notification): seq<string> {
    if Reaches(c, turnId, n) then
      if n.text.Some? then [n.text.value] else if n.kind == Error then ["Codex turn emitted an error."] else []
    else if Own(c, turnId, n) && n.kind == TurnCompleted && n.completion.protocolError.Some?
    then [n.completion.protocolError.value]
    else if Complaint(c, n).Some? then [Complaint(c, n).value]
    else []
  }

  function Said(c: Context, turnId: string, events: Events): seq<string> {
    if events == [] then [] else Said(c, turnId, Before(events)) + Says(c, turnId, Last(events))
  }

  /** Counted is what reaches the turn, and what names the thread and any turn of it. */
  predicate Counts(c: Context, turnId: string, n: Notification) {
    || Reaches(c, turnId, n)
    || (n.kind !in {Warning, Error} && n.threadId == Some(c.threadId) && NamedTurn(n).Some?)
  }

  function CountOf(c: Context, turnId: string, events: Events): nat {
    if events == [] then 0
    else CountOf(c, turnId, Before(events)) + if Counts(c, turnId, Last(events)) then 1 else 0
  }

  function OutputOf(c: Context, turnId: string, events: Events): Output {
    Output(LastText(c, turnId, DiffUpdated, events), LastText(c, turnId, ItemCompleted, events),
           Texts(c, turnId, MessageDelta, events), LastUsage(c, turnId, events), Reroutes(c, turnId, events))
  }

  predicate Observed(c: Context, turnId: string, events: Events) {
    exists n <- events :: Own(c, turnId, n) && n.kind == TurnCompleted
  }

  predicate Complained(c: Context, events: Events) {
    exists n <- events :: Complaint(c, n).Some?
  }

  /** Why, and whether, the turn is over, if no bound was exceeded and the transport is up. */
  function EndingOf(c: Context, turnId: string, events: Events): Ending {
    Ending(FirstCompletion(c, turnId, events), Observed(c, turnId, events), Complained(c, events), false, None)
  }

  /** The bytes that are retained for the events. */
  function Retained(c: Context, turnId: string, events: Events): nat {
    OutputBytes(c, OutputOf(c, turnId, events)) + SumText(c, Said(c, turnId, events))
  }

  /** The text and the reroutes stay within their bounds. */
  predicate Fits(c: Context, turnId: string, events: Events) {
    Retained(c, turnId, events) <= 16 * 1024 * 1024 && |Reroutes(c, turnId, events)| <= 512
  }

  function CoreOf(c: Context, turnId: string, events: Events): Core {
    Core(OutputOf(c, turnId, events), Retained(c, turnId, events), EndingOf(c, turnId, events))
  }

  /** A turn that was known from the start, and of which these events were received. */
  function StateOf(c: Context, turnId: string, events: Events): State {
    State(CoreOf(c, turnId, events), Said(c, turnId, events), CountOf(c, turnId, events),
          Unbuffered(EMPTY, turnId).intake)
  }

  // ----- one event more -----

  /** One more event, as the definitions take it apart. */
  lemma OneMore(c: Context, turnId: string, events: Events, n: Notification)
    ensures var all := events + [n]; all != [] && Before(all) == events && Last(all) == n
  {
    assert (events + [n])[..|events|] == events;
  }

  /** At most one thing is said about an event, and its size is added. */
  lemma SaidStep(c: Context, turnId: string, events: Events, n: Notification)
    ensures var says := Says(c, turnId, n);
            && Said(c, turnId, events + [n]) == Said(c, turnId, events) + says
            && SumText(c, Said(c, turnId, events + [n])) ==
                 SumText(c, Said(c, turnId, events)) + (if says == [] then 0 else c.byteLength(says[0]))
            && (says != [] ==> says == [says[0]])
  {
    OneMore(c, turnId, events, n);
    var said, says := Said(c, turnId, events), Says(c, turnId, n);
    assert says != [] ==> says == [says[0]];
    assert said + [] == said;
    if says != [] {
      SumTextSnoc(c, said, says[0]);
    }
  }

  /** An event that is not the turn's own adds nothing to its output. */
  lemma OthersAddNothing(c: Context, turnId: string, events: Events, n: Notification)
    requires !Own(c, turnId, n)
    ensures OutputOf(c, turnId, events + [n]) == OutputOf(c, turnId, events)
    ensures Reroutes(c, turnId, events + [n]) == Reroutes(c, turnId, events)
  {
    OneMore(c, turnId, events, n);
  }

  lemma EndingStep(c: Context, turnId: string, events: Events, n: Notification)
    ensures var before, all := EndingOf(c, turnId, events), events + [n];
            && EndingOf(c, turnId, all) ==
                 Ending(if before.completion.Some? then before.completion else Completes(c, turnId, n),
                        before.terminalObserved || (Own(c, turnId, n) && n.kind == TurnCompleted),
                        before.containment || Complaint(c, n).Some?, false, None)
            && CountOf(c, turnId, all) == CountOf(c, turnId, events) + (if Counts(c, turnId, n) then 1 else 0)
  {
    OneMore(c, turnId, events, n);
    hide Own, Complaint;
    assert n in events + [n];
    assert forall m :: m in events + [n] <==> m in events || m == n;
  }

  lemma SameEnding(c: Context, turnId: string, events: Events, n: Notification)
    requires Completes(c, turnId, n).None? && Complaint(c, n).None? && !(Own(c, turnId, n) && n.kind == TurnCompleted)
    ensures EndingOf(c, turnId, events + [n]) == EndingOf(c, turnId, events)
  {
    EndingStep(c, turnId, events, n);
    hide FirstCompletion, Observed, Complained, Completes, Complaint, Own;
  }

  lemma EndingOfFields(c: Context, turnId: string, events: Events)
    ensures EndingOf(c, turnId, events).failure.None? && !EndingOf(c, turnId, events).transportEnded
  {
  }

  /** What is retained grows by the bytes of the output and of what is said. */
  lemma RetainedStep(c: Context, turnId: string, events: Events, n: Notification, bytes: int)
    requires OutputBytes(c, OutputOf(c, turnId, events + [n])) == OutputBytes(c, OutputOf(c, turnId, events)) + bytes
    ensures var says := Says(c, turnId, n);
            && (says != [] ==> says == [says[0]])
            && Retained(c, turnId, events + [n]) ==
                 Retained(c, turnId, events) + bytes + (if says == [] then 0 else c.byteLength(says[0]))
  {
    hide OutputOf, OutputBytes, Said, SumText, Says;
    SaidStep(c, turnId, events, n);
  }

  /** The step that the events ask for: what they amount to with one more, or a failure if that does not fit. */
  ghost predicate AddsUp(c: Context, turnId: string, events: Events, n: Notification, step: Step) {
    if Fits(c, turnId, events + [n]) then step == Step(CoreOf(c, turnId, events + [n]), Says(c, turnId, n))
    else step.core.ending.failure.Some?
  }

  lemma WarningRoute(c: Context, k: Core, turnId: string, n: Notification)
    requires n.kind in {Warning, Error}
    ensures !Own(c, turnId, n) && Completes(c, turnId, n).None? && Complaint(c, n).None?
    ensures CoreStep(c, k, Some(turnId), n) ==
            if Says(c, turnId, n) == [] then Step(k, []) else Warn(c, k, Says(c, turnId, n)[0])
  {
    hide Warn;
  }

  /** A warning or an error, of this turn or another. */
  lemma WarningAdds(c: Context, turnId: string, events: Events, n: Notification)
    requires Fits(c, turnId, events) && n.kind in {Warning, Error}
    ensures AddsUp(c, turnId, events, n, CoreStep(c, CoreOf(c, turnId, events), Some(turnId), n))
  {
    hide Retained, OutputOf, OutputBytes, EndingOf, CoreStep, Says, Own, Complaint, Completes, Reroutes;
    var k := CoreOf(c, turnId, events);
    WarningRoute(c, k, turnId, n);
    OthersAddNothing(c, turnId, events, n);
    RetainedStep(c, turnId, events, n, 0);
    SameEnding(c, turnId, events, n);
  }

  lemma OtherRoute(c: Context, k: Core, turnId: string, n: Notification)
    requires n.kind !in {Warning, Error} && !Own(c, turnId, n)
    ensures CoreStep(c, k, Some(turnId), n) ==
            if Complaint(c, n).Some? then Violate(c, k, Complaint(c, n).value) else Step(k, [])
    ensures Says(c, turnId, n) == if Complaint(c, n).Some? then [Complaint(c, n).value] else []
    ensures Completes(c, turnId, n) ==
            if Complaint(c, n).Some? then Some(Completion(CompletionStatus.Failed, Complaint(c, n))) else None
  {
    hide Violate;
  }

  /** Another thread's or turn's event, or one of a turn's state that does not say whose it is. */
  lemma OtherAdds(c: Context, turnId: string, events: Events, n: Notification)
    requires Fits(c, turnId, events) && n.kind !in {Warning, Error} && !Own(c, turnId, n)
    ensures AddsUp(c, turnId, events, n, CoreStep(c, CoreOf(c, turnId, events), Some(turnId), n))
  {
    hide Retained, OutputOf, OutputBytes, EndingOf, CoreStep, Says, Own, Complaint, Completes, Reroutes;
    var k := CoreOf(c, turnId, events);
    OtherRoute(c, k, turnId, n);
    OthersAddNothing(c, turnId, events, n);
    RetainedStep(c, turnId, events, n, 0);
    EndingOfFields(c, turnId, events);
    EndingStep(c, turnId, events, n);
  }

  lemma OwnRoute(c: Context, k: Core, turnId: string, n: Notification)
    requires Own(c, turnId, n)
    ensures CoreStep(c, k, Some(turnId), n) == ApplyTurnEvent(c, k, n)
    ensures Complaint(c, n).None?
    ensures Completes(c, turnId, n) == if n.kind == TurnCompleted then Some(n.completion) else None
    ensures Says(c, turnId, n) ==
            if n.kind == TurnCompleted && n.completion.protocolError.Some? then [n.completion.protocolError.value]
            else []
  {
    hide ApplyTurnEvent;
  }

  /** What an own event makes of the output. */
  lemma OutputStep(c: Context, turnId: string, events: Events, n: Notification)
    requires Own(c, turnId, n)
    ensures var o, after := OutputOf(c, turnId, events), OutputOf(c, turnId, events + [n]);
            match n.kind
            case DiffUpdated => after == if n.text.None? then o else o.(latestDiff := n.text.value)
            case ItemCompleted => after == if n.text.None? then o else o.(finalMessage := n.text.value)
            case MessageDelta => after == if n.text.None? then o else o.(deltas := o.deltas + [n.text.value])
            case TokenUsageUpdated => after == if n.usage.None? then o else o.(usage := n.usage)
            case Rerouted => after == if n.reroute.None? then o else o.(reroutes := o.reroutes + [n.reroute.value])
            case _ => after == o
    ensures OutputOf(c, turnId, events + [n]).reroutes == Reroutes(c, turnId, events + [n])
    ensures OutputOf(c, turnId, events).reroutes == Reroutes(c, turnId, events)
  {
    OneMore(c, turnId, events, n);
    hide Own;
    assert Texts(c, turnId, MessageDelta, events) + [] == Texts(c, turnId, MessageDelta, events);
    assert Reroutes(c, turnId, events) + [] == Reroutes(c, turnId, events);
  }

  /** The output of an own event, for which just its bytes are reserved. */
  lemma OutputAdds(c: Context, turnId: string, events: Events, n: Notification, bytes: int)
    requires Fits(c, turnId, events) && Own(c, turnId, n) && n.kind != TurnCompleted
    requires |Reroutes(c, turnId, events + [n])| <= 512
    requires var o, after := OutputOf(c, turnId, events), OutputOf(c, turnId, events + [n]);
             OutputBytes(c, after) == OutputBytes(c, o) + bytes
    ensures AddsUp(c, turnId, events, n,
                   Reserve(CoreOf(c, turnId, events), OutputOf(c, turnId, events + [n]), bytes))
  {
    hide Retained, OutputOf, OutputBytes, EndingOf, CoreStep, Says, Own, Complaint, Completes, Reroutes;
    RetainedStep(c, turnId, events, n, bytes);
    OwnRoute(c, CoreOf(c, turnId, events), turnId, n);
    SameEnding(c, turnId, events, n);
  }

  lemma NothingReserved(k: Core)
    requires k.retainedBytes <= MAX_RETAINED_BYTES
    ensures Reserve(k, k.output, 0) == Step(k, [])
  {
  }

  /** The turn's text. */
  lemma TextAdds(c: Context, turnId: string, events: Events, n: Notification)
    requires Fits(c, turnId, events) && Own(c, turnId, n)
    requires n.kind in {DiffUpdated, MessageDelta, ItemCompleted}
    ensures AddsUp(c, turnId, events, n, CoreStep(c, CoreOf(c, turnId, events), Some(turnId), n))
  {
    hide AddsUp, OutputOf, EndingOf, CoreStep, Says, Own, Complaint, Reroutes, Completes, Reserve, Retained, SumText;
    var k, o := CoreOf(c, turnId, events), OutputOf(c, turnId, events);
    OwnRoute(c, k, turnId, n);
    OutputStep(c, turnId, events, n);
    NothingReserved(k);
    if n.text.None? {
      OutputAdds(c, turnId, events, n, 0);
    } else {
      var text := n.text.value;
      SumTextSnoc(c, o.deltas, text);
      var bytes := c.byteLength(text) - (match n.kind
                                         case DiffUpdated => c.byteLength(o.latestDiff)
                                         case ItemCompleted => c.byteLength(o.finalMessage)
                                         case _ => 0);
      OutputAdds(c, turnId, events, n, bytes);
    }
  }

  lemma RerouteAdds(c: Context, turnId: string, events: Events, n: Notification)
    requires Fits(c, turnId, events) && Own(c, turnId, n) && n.kind == Rerouted
    ensures AddsUp(c, turnId, events, n, CoreStep(c, CoreOf(c, turnId, events), Some(turnId), n))
  {
    hide OutputOf, EndingOf, CoreStep, Says, Own, Complaint, Reroutes, Completes, Reserve, Retained, SumText;
    hide RerouteBytes;
    var k, o := CoreOf(c, turnId, events), OutputOf(c, turnId, events);
    OwnRoute(c, k, turnId, n);
    OutputStep(c, turnId, events, n);
    NothingReserved(k);
    if n.reroute.None? {
      OutputAdds(c, turnId, events, n, 0);
    } else if |o.reroutes| < 512 {
      SumRerouteSnoc(c, o.reroutes, n.reroute.value);
      OutputAdds(c, turnId, events, n, RerouteBytes(c, n.reroute.value));
    }
  }

  /** Its usage, and every event that nothing is read from. */
  lemma RestAdds(c: Context, turnId: string, events: Events, n: Notification)
    requires Fits(c, turnId, events) && Own(c, turnId, n)
    requires n.kind !in {DiffUpdated, MessageDelta, ItemCompleted, Rerouted, TurnCompleted}
    ensures AddsUp(c, turnId, events, n, CoreStep(c, CoreOf(c, turnId, events), Some(turnId), n))
  {
    var k := CoreOf(c, turnId, events);
    OwnRoute(c, k, turnId, n);
    OutputStep(c, turnId, events, n);
    OutputAdds(c, turnId, events, n, 0);
    hide OutputOf, SumText, EndingOf, CoreStep, Says, Own, Complaint, Reroutes, Completes;
  }

  /** Its end. */
  lemma CompletionAdds(c: Context, turnId: string, events: Events, n: Notification)
    requires Fits(c, turnId, events) && Own(c, turnId, n) && n.kind == TurnCompleted
    ensures AddsUp(c, turnId, events, n, CoreStep(c, CoreOf(c, turnId, events), Some(turnId), n))
  {
    hide Retained, OutputOf, OutputBytes, EndingOf, CoreStep, Says, Own, Complaint, Completes, Reroutes;
    var k := CoreOf(c, turnId, events);
    OwnRoute(c, k, turnId, n);
    OutputStep(c, turnId, events, n);
    RetainedStep(c, turnId, events, n, 0);
    EndingOfFields(c, turnId, events);
    EndingStep(c, turnId, events, n);
  }

  lemma CountedAlike(c: Context, turnId: string, n: Notification)
    ensures Counted(c, Some(turnId), n) == Counts(c, turnId, n)
  {
  }

  /** One more event makes of a known turn what the events amount to with it, or fails it if that does not fit. */
  lemma EventAdds(c: Context, turnId: string, events: Events, n: Notification)
    requires Fits(c, turnId, events)
    ensures var next := ProcessKnown(c, StateOf(c, turnId, events), n);
            if Fits(c, turnId, events + [n]) then next == StateOf(c, turnId, events + [n])
            else next.core.ending.failure.Some?
  {
    hide CoreStep, CoreOf, Said, CountOf, Counts, Counted, Fits, Own, Says, EndingOf, Complaint, Completes, SumText;
    CountedAlike(c, turnId, n);
    SaidStep(c, turnId, events, n);
    EndingStep(c, turnId, events, n);
    if n.kind in {Warning, Error} {
      WarningAdds(c, turnId, events, n);
    } else if !Own(c, turnId, n) {
      OtherAdds(c, turnId, events, n);
    } else if n.kind in {DiffUpdated, MessageDelta, ItemCompleted} {
      TextAdds(c, turnId, events, n);
    } else if n.kind == Rerouted {
      RerouteAdds(c, turnId, events, n);
    } else if n.kind == TurnCompleted {
      CompletionAdds(c, turnId, events, n);
    } else {
      RestAdds(c, turnId, events, n);
    }
  }

  // ----- whole streams -----

  /** The events never exceed the bounds on the way. */
  ghost predicate AllFit(c: Context, turnId: string, events: Events) {
    forall k | 0 <= k <= |events| :: Fits(c, turnId, events[..k])
  }

  lemma AllFitSnoc(c: Context, turnId: string, events: Events)
    requires events != []
    ensures AllFit(c, turnId, events) <==> AllFit(c, turnId, Before(events)) && Fits(c, turnId, events)
  {
    hide Fits;
    assert events[..|events|] == events;
    forall k | 0 <= k < |events| ensures events[..k] == Before(events)[..k] {
    }
  }

  lemma AllFitWhole(c: Context, turnId: string, events: Events)
    requires AllFit(c, turnId, events)
    ensures Fits(c, turnId, events)
  {
    assert events[..|events|] == events;
  }

  lemma NothingAmounts(c: Context, turnId: string)
    requires c.byteLength("") == 0
    ensures Drain(c, Unbuffered(EMPTY, turnId), []) == StateOf(c, turnId, []) && AllFit(c, turnId, [])
  {
    var none: Events := [];
    assert none[..0] == none && Fits(c, turnId, none);
  }

  lemma ProcessFailureSticks(c: Context, s: State, n: Notification)
    requires s.core.ending.failure.Some?
    ensures ProcessKnown(c, s, n).core.ending.failure.Some?
  {
    FailureSticks(c, s.core, s.intake.turnId, n);
  }

  /**
   A turn that is known from the start ends as its events say if they stay within the bounds all the way, and otherwise
   it fails.
   */
  lemma {:induction false} KnownTurnAmounts(c: Context, turnId: string, events: Events)
    requires c.byteLength("") == 0
    ensures var s := Drain(c, Unbuffered(EMPTY, turnId), events);
            if AllFit(c, turnId, events) then s == StateOf(c, turnId, events) else s.core.ending.failure.Some?
  {
    hide Drain, StateOf, AllFit, Fits, ProcessKnown, Unbuffered;
    if events == [] {
      NothingAmounts(c, turnId);
    } else {
      var init, last := Before(events), Last(events);
      KnownTurnAmounts(c, turnId, init);
      AllFitSnoc(c, turnId, events);
      DrainSnoc(c, Unbuffered(EMPTY, turnId), init, last);
      assert init + [last] == events;
      if AllFit(c, turnId, init) {
        AllFitWhole(c, turnId, init);
        EventAdds(c, turnId, init, last);
      } else {
        ProcessFailureSticks(c, Drain(c, Unbuffered(EMPTY, turnId), init), last);
      }
    }
  }

  /** The notifications among the inputs. */
  function Notifications(inputs: seq<Input>): Events {
    if inputs == [] then []
    else Notifications(inputs[..|inputs| - 1]) + if Last(inputs).Notified? then [Last(inputs).n] else []
  }

  lemma {:induction false} AbortsAreNoEvents(inputs: seq<Input>)
    ensures Notifications(WithoutAborts(inputs)) == Notifications(inputs)
  {
    if inputs != [] {
      var before, last := inputs[..|inputs| - 1], Last(inputs);
      AbortsAreNoEvents(before);
      assert WithoutAborts(before) + [] == WithoutAborts(before);
      assert (WithoutAborts(before) + [last])[..|WithoutAborts(before)|] == WithoutAborts(before);
      assert Notifications(before) + [] == Notifications(before);
    }
  }

  lemma {:induction false} EarlyDrains(c: Context, inputs: seq<Input>, turnId: string)
    requires OrderlyRun(c, inputs, turnId) && forall input <- inputs :: !input.AbortRaised?
    ensures ReceiveAll(c, Unbuffered(EMPTY, turnId), inputs) ==
            Drain(c, Unbuffered(EMPTY, turnId), Notifications(inputs))
  {
    if inputs != [] {
      var before, last := inputs[..|inputs| - 1], Last(inputs);
      var s := ReceiveAll(c, Unbuffered(EMPTY, turnId), before);
      EarlyDrains(c, before, turnId);
      Shapes(c, before, turnId);
      assert last in inputs;
      if last.Notified? {
        DrainSnoc(c, Unbuffered(EMPTY, turnId), Notifications(before), last.n);
        hide ProcessKnown, Reveal, Buffer;
        assert Receive(c, s, last) == ProcessKnown(c, s, last.n);
      } else {
        assert Orderly(c, ReceiveAll(c, EMPTY, before).intake.turnId.Some?, last, turnId);
        ShapeStep(c, s, last, turnId);
        assert Notifications(before) + [] == Notifications(before);
      }
    }
  }

  /** What a quiet stream amounts to, once the turn's id is known. */
  lemma QuietStreamAmounts(c: Context, inputs: seq<Input>, turnId: string)
    requires c.byteLength("") == 0
    requires OrderlyRun(c, inputs, turnId) && forall input <- inputs :: !input.AbortRaised?
    requires Revealed(c, ReceiveAll(c, EMPTY, inputs), turnId).core.ending.failure.None?
    ensures Same(Revealed(c, ReceiveAll(c, EMPTY, inputs), turnId), StateOf(c, turnId, Notifications(inputs)))
  {
    LateIdIsTransparent(c, inputs, turnId);
    EarlyDrains(c, inputs, turnId);
    KnownTurnAmounts(c, turnId, Notifications(inputs));
    hide ReceiveAll, Drain, StateOf, AllFit;
  }

  /** The state of a run that did not fail, set against what its events amount to. */
  lemma AsideAmounts(c: Context, s: State, u: State, t: State, aborted: bool)
    requires Aside(c, s, u) && Same(u, t) && u.intake.turnId.Some? && s.intake.abortRequested == aborted
    ensures s.core.output == t.core.output && s.core.ending == t.core.ending && s.rawEventCount == t.rawEventCount
    ensures !aborted ==> multiset(s.warnings) == multiset(t.warnings)
    ensures aborted ==>
              exists warning <- INTERRUPTS :: multiset(s.warnings) == multiset(t.warnings) + multiset{warning}
  {
    if aborted {
      var warning :| warning in INTERRUPTS && AbortedWith(c, s, u, warning);
      assert multiset(s.warnings) == multiset(t.warnings) + multiset{warning};
    }
  }

  /**
   What a turn is reported to have done. For every orderly stream that does not fail, wherever in it the turn's id is
   revealed and wherever aborts stand: the diff and the message are the last ones sent for the turn, the streamed text,
   the reroutes and the usage are those of its events, and it is over as its first completion, or the first complaint,
   says. The warnings are those received, and one more after an abort.
   */
  lemma StreamMeansItsEvents(c: Context, inputs: seq<Input>, turnId: string)
    requires c.byteLength("") == 0 && OrderlyRun(c, inputs, turnId)
    requires Receive(c, ReceiveAll(c, EMPTY, inputs), Responded(turnId)).core.ending.failure.None?
    ensures var s, events := Receive(c, ReceiveAll(c, EMPTY, inputs), Responded(turnId)), Notifications(inputs);
            && s.core.output.latestDiff == LastText(c, turnId, DiffUpdated, events)
            && s.core.output.finalMessage == LastText(c, turnId, ItemCompleted, events)
            && s.core.output.deltas == Texts(c, turnId, MessageDelta, events)
            && s.core.output.usage == LastUsage(c, turnId, events)
            && s.core.output.reroutes == Reroutes(c, turnId, events)
            && s.core.ending.completion == FirstCompletion(c, turnId, events)
            && s.core.ending.terminalObserved == Observed(c, turnId, events)
            && s.core.ending.containment == Complained(c, events)
            && s.rawEventCount == CountOf(c, turnId, events)
            && (if AnyAbort(inputs) then
                  exists warning <- INTERRUPTS ::
                    multiset(s.warnings) == multiset(Said(c, turnId, events)) + multiset{warning}
                else multiset(s.warnings) == multiset(Said(c, turnId, events)))
  {
    var late, quiet := ReceiveAll(c, EMPTY, inputs), WithoutAborts(inputs);
    var s, u := Receive(c, late, Responded(turnId)), ReceiveAll(c, EMPTY, quiet);
    if late.core.ending.failure.Some? {
      ReceiveFailureSticks(c, late, Responded(turnId));
    }
    LateAside(c, inputs, turnId);
    SameTurn(c, late, u);
    AsideStep(c, late, u, Responded(turnId), turnId);
    QuietReveal(c, u, turnId);
    OrderlyWithoutAborts(c, inputs, turnId);
    WithoutAbortsMembers(inputs);
    AbortsAreNoEvents(inputs);
    QuietStreamFits(c, s, Revealed(c, u, turnId));
    QuietStreamAmounts(c, quiet, turnId);
    AsideAmounts(c, s, Revealed(c, u, turnId), StateOf(c, turnId, Notifications(inputs)), AnyAbort(inputs));
    hide Receive, ReceiveAll, Aside, Same, Revealed, OrderlyRun, Notifications, WithoutAborts, AnyAbort;
  }

  lemma QuietStreamFits(c: Context, s: State, u: State)
    requires Aside(c, s, u) && s.core.ending.failure.None?
    ensures u.core.ending.failure.None?
  {
  }

  // ----- what waits -----

  /** While the id is unknown, what names a turn waits if there is room for it, and otherwise fails the turn. */
  lemma WaitsOrFails(c: Context, s: State, n: Notification)
    requires s.intake.turnId.None? && s.core.ending.failure.None?
    requires || (n.kind == Error && n.threadId in {None, Some(c.threadId)} && n.turnId.Some?)
             || (n.kind !in {Warning, Error, TurnStarted} && n.threadId == Some(c.threadId) && NamedTurn(n).Some?)
    ensures var next := Process(c, s, n);
            var room := |s.intake.buffered| < 512 && s.intake.bufferedBytes + n.bytes <= 8 * 1024 * 1024;
            && (room ==> next == s.(intake := s.intake.(buffered := s.intake.buffered + [n],
                                                        bufferedBytes := s.intake.bufferedBytes + n.bytes)))
            && (!room ==> next.core.ending.failure.Some? && next.intake == s.intake)
  {
  }

  /** What names no turn does not wait: a warning, or an error of the thread, is said and counted at once. */
  lemma SaidAtOnce(c: Context, s: State, n: Notification)
    requires s.intake.turnId.None? && s.core.ending.failure.None?
    requires n.threadId in {None, Some(c.threadId)} && (n.kind == Warning || (n.kind == Error && n.turnId.None?))
    ensures var next := Process(c, s, n);
            var says := if n.text.Some? then [n.text.value]
                        else if n.kind == Error then ["Codex turn emitted an error."] else [];
            && next.intake == s.intake && next.rawEventCount == s.rawEventCount + 1
            && (next.core.ending.failure.None? ==> next.warnings == s.warnings + says)
            && (next.core.ending.failure.Some? <==>
                  says != [] && s.core.retainedBytes + c.byteLength(says[0]) > 16 * 1024 * 1024)
  {
    assert s.warnings + [] == s.warnings;
  }

  /** The start of the turn names it: what waited is processed, and the turn is known from then on. */
  lemma StartNamesTheTurn(c: Context, s: State, n: Notification)
    requires s.intake.turnId.None? && n.kind == TurnStarted
    requires n.threadId == Some(c.threadId) && NamedTurn(n).Some?
    ensures var next := Process(c, s, n);
            && next.intake.turnId == NamedTurn(n) && next.intake.buffered == []
            && (s.intake.abortRequested ==> NamedTurn(n).value in next.intake.interrupted)
  {
    DrainKeepsIntake(c, Unbuffered(Count(s), NamedTurn(n).value), s.intake.buffered);
  }
}
