/**
 A turn whose id is revealed late ends up like one whose id was known from the start.

 The late machine buffers the turn's events until turn/started or the turn/start response names the
 turn, and then drains them; thread-wide warnings overtake the buffer, so only their multiset is kept.
 */
module TurnTransparency {
  import opened Common
  import opened Turn

  datatype Input = Notified(n: Notification) | Responded(turnId: string) | AbortRaised

  /** The caller's abort interrupts a known turn at once, and an unknown one when its id is revealed. */
  function Receive(c: Context, s: State, input: Input): State {
    match input
    case Notified(n) => Process(c, s, n)
    case Responded(turnId) =>
      var revealed := Reveal(c, s, turnId);
      if s.intake.abortRequested then InterruptTurn(c, revealed, turnId, INTERRUPT_BEFORE_SETTLED) else revealed
    case AbortRaised =>
      var aborting := s.(intake := s.intake.(abortRequested := true));
      if s.intake.turnId.None? then aborting else InterruptTurn(c, aborting, s.intake.turnId.value, INTERRUPT_CANCELLED)
  }

  function ReceiveAll(c: Context, s: State, inputs: seq<Input>): State {
    if inputs == [] then s else Receive(c, ReceiveAll(c, s, inputs[..|inputs| - 1]), Last(inputs))
  }

  /** Everything equal but the order of the warnings. */
  ghost predicate Same(s: State, t: State) {
    && s.core == t.core && s.rawEventCount == t.rawEventCount && s.intake == t.intake
    && multiset(s.warnings) == multiset(t.warnings)
  }

  predicate Reveals(c: Context, n: Notification) {
    RouteOf(c, n).TurnEvent? && n.kind.TurnStarted?
  }

  /**
   The response names this turn. Until the id is known there is no protocol violation and turn/started names this turn;
   after that any notification may come.
   */
  predicate Orderly(c: Context, known: bool, input: Input, turnId: string) {
    match input
    case Notified(n) => known || (!RouteOf(c, n).Violation? && (Reveals(c, n) ==> RouteOf(c, n).turnId == turnId))
    case Responded(id) => id == turnId
    case AbortRaised => true
  }

  predicate OrderlyRun(c: Context, inputs: seq<Input>, turnId: string) {
    inputs == [] ||
    var before := inputs[..|inputs| - 1];
    OrderlyRun(c, before, turnId) && Orderly(c, ReceiveAll(c, EMPTY, before).intake.turnId.Some?, Last(inputs), turnId)
  }

  /** The late machine as if its turn id were revealed now. */
  function Revealed(c: Context, s: State, turnId: string): State {
    if s.intake.turnId.Some? then s else Reveal(c, s, turnId)
  }

  // ----- a failure sticks -----

  lemma FailureSticks(c: Context, k: Core, turnId: Option<string>, n: Notification)
    requires k.ending.failure.Some?
    ensures CoreStep(c, k, turnId, n).core.ending.failure.Some?
  {
  }

  lemma {:induction false} DrainFailureSticks(c: Context, s: State, events: seq<Notification>)
    requires s.core.ending.failure.Some?
    ensures Drain(c, s, events).core.ending.failure.Some?
    decreases |events|
  {
    if events != [] {
      FailureSticks(c, s.core, s.intake.turnId, events[0]);
      DrainFailureSticks(c, ProcessKnown(c, s, events[0]), events[1..]);
    }
  }

  // ----- the order of warnings does not matter -----

  lemma {:induction false} DrainRespects(c: Context, s: State, t: State, events: seq<Notification>)
    requires Same(s, t)
    ensures Same(Drain(c, s, events), Drain(c, t, events))
    decreases |events|
  {
    if events != [] {
      DrainRespects(c, ProcessKnown(c, s, events[0]), ProcessKnown(c, t, events[0]), events[1..]);
    }
  }

  lemma {:induction false} DrainSnoc(c: Context, s: State, events: seq<Notification>, n: Notification)
    ensures Drain(c, s, events + [n]) == ProcessKnown(c, Drain(c, s, events), n)
    decreases |events|
  {
    if events == [] {
      assert ([n])[1..] == [] && [] + [n] == [n];
      assert Drain(c, ProcessKnown(c, s, n), []) == ProcessKnown(c, s, n);
    } else {
      assert (events + [n])[1..] == events[1..] + [n];
      DrainSnoc(c, ProcessKnown(c, s, events[0]), events[1..], n);
    }
  }

  lemma {:induction false} DrainCounts(c: Context, s: State, events: seq<Notification>)
    ensures Drain(c, Count(s), events) == Count(Drain(c, s, events))
    decreases |events|
  {
    if events != [] {
      assert ProcessKnown(c, Count(s), events[0]) == Count(ProcessKnown(c, s, events[0]));
      DrainCounts(c, ProcessKnown(c, s, events[0]), events[1..]);
    }
  }

  // ----- a warning may overtake a waiting event -----

  /** Both orders say the same things and leave the same core. */
  ghost predicate Commutes(c: Context, k: Core, message: string, n: Notification) {
    var warned, applied := Warn(c, k, message), ApplyTurnEvent(c, k, n);
    var after, before := ApplyTurnEvent(c, warned.core, n), Warn(c, applied.core, message);
    && after.core == before.core
    && warned.said == before.said == [message] && applied.said == after.said
  }

  lemma DiffCommutes(c: Context, k: Core, message: string, n: Notification)
    requires n.kind == DiffUpdated
    requires ApplyTurnEvent(c, Warn(c, k, message).core, n).core.ending.failure.None?
    ensures Commutes(c, k, message, n)
  {
  }

  lemma DeltaCommutes(c: Context, k: Core, message: string, n: Notification)
    requires n.kind == MessageDelta
    requires ApplyTurnEvent(c, Warn(c, k, message).core, n).core.ending.failure.None?
    ensures Commutes(c, k, message, n)
  {
  }

  lemma FinalCommutes(c: Context, k: Core, message: string, n: Notification)
    requires n.kind == ItemCompleted
    requires ApplyTurnEvent(c, Warn(c, k, message).core, n).core.ending.failure.None?
    ensures Commutes(c, k, message, n)
  {
  }

  lemma RerouteCommutes(c: Context, k: Core, message: string, n: Notification)
    requires n.kind == Rerouted
    requires ApplyTurnEvent(c, Warn(c, k, message).core, n).core.ending.failure.None?
    ensures Commutes(c, k, message, n)
  {
  }

  lemma CompletionCommutes(c: Context, k: Core, message: string, n: Notification)
    requires n.kind == TurnCompleted
    requires ApplyTurnEvent(c, Warn(c, k, message).core, n).core.ending.failure.None?
    ensures Commutes(c, k, message, n)
  {
  }

  lemma EventCommutes(c: Context, k: Core, message: string, n: Notification)
    requires ApplyTurnEvent(c, Warn(c, k, message).core, n).core.ending.failure.None?
    ensures Commutes(c, k, message, n)
  {
    match n.kind
    case TurnCompleted => CompletionCommutes(c, k, message, n);
    case Rerouted => RerouteCommutes(c, k, message, n);
    case DiffUpdated => DiffCommutes(c, k, message, n);
    case MessageDelta => DeltaCommutes(c, k, message, n);
    case ItemCompleted => FinalCommutes(c, k, message, n);
    case _ =>
  }

  lemma WarningOvertakes(c: Context, k: Core, turnId: Option<string>, message: string, n: Notification)
    requires MustWait(c, n)
    requires CoreStep(c, Warn(c, k, message).core, turnId, n).core.ending.failure.None?
    ensures var warned, stepped := Warn(c, k, message), CoreStep(c, k, turnId, n);
            var after, before := CoreStep(c, warned.core, turnId, n), Warn(c, stepped.core, message);
            after.core == before.core && warned.said == before.said && stepped.said == after.said
  {
    match RouteOf(c, n)
    case TurnEvent(id) =>
      if Some(id) == turnId {
        EventCommutes(c, k, message, n);
      }
    case ThreadError(_, _) =>
  }

  function Immediate(c: Context, k: Core, m: Notification): Step {
    match RouteOf(c, m)
    case ThreadWarning(message) => if message.None? then Step(k, []) else Warn(c, k, message.value)
    case ThreadError(_, error) => Warn(c, k, error)
    case _ => Step(k, [])
  }

  function ProcessWith(s: State, step: Step, counted: bool): State {
    if counted then Count(Advance(s, step)) else Advance(s, step)
  }

  lemma SwapSteps(s: State, m1: Step, n2: Step, n1: Step, m2: Step, mCounted: bool, nCounted: bool)
    requires m2.core == n2.core && multiset(m1.said + n2.said) == multiset(n1.said + m2.said)
    ensures Same(ProcessWith(ProcessWith(s, m1, mCounted), n2, nCounted),
                 ProcessWith(ProcessWith(s, n1, nCounted), m2, mCounted))
  {
    assert (s.warnings + m1.said) + n2.said == s.warnings + (m1.said + n2.said);
    assert (s.warnings + n1.said) + m2.said == s.warnings + (n1.said + m2.said);
  }

  lemma Overtakes(c: Context, s: State, m: Notification, n: Notification)
    requires !MustWait(c, m) && !RouteOf(c, m).Violation? && MustWait(c, n)
    requires ProcessKnown(c, ProcessKnown(c, s, m), n).core.ending.failure.None?
    ensures Same(ProcessKnown(c, ProcessKnown(c, s, m), n), ProcessKnown(c, ProcessKnown(c, s, n), m))
  {
    var k, turnId := s.core, s.intake.turnId;
    var n1 := CoreStep(c, k, turnId, n);
    var m1, m2 := Immediate(c, k, m), Immediate(c, n1.core, m);
    var n2 := CoreStep(c, m1.core, turnId, n);
    var route := RouteOf(c, m);
    if route.ThreadError? {
      WarningOvertakes(c, k, turnId, route.error, n);
    } else if route.ThreadWarning? && route.message.Some? {
      WarningOvertakes(c, k, turnId, route.message.value, n);
    } else {
      assert [] + n2.said == n1.said + [];
    }
    SwapSteps(s, m1, n2, n1, m2, Counted(c, turnId, m), Counted(c, turnId, n));
  }

  lemma {:induction false} OvertakesAll(c: Context, s: State, m: Notification, events: seq<Notification>)
    requires !MustWait(c, m) && !RouteOf(c, m).Violation? && forall n <- events :: MustWait(c, n)
    requires Drain(c, ProcessKnown(c, s, m), events).core.ending.failure.None?
    ensures Same(Drain(c, ProcessKnown(c, s, m), events), ProcessKnown(c, Drain(c, s, events), m))
    decreases |events|
  {
    if events != [] {
      var n, rest := events[0], events[1..];
      var overtaken := ProcessKnown(c, ProcessKnown(c, s, m), n);
      if overtaken.core.ending.failure.Some? {
        DrainFailureSticks(c, overtaken, rest);
      }
      Overtakes(c, s, m, n);
      DrainRespects(c, overtaken, ProcessKnown(c, ProcessKnown(c, s, n), m), rest);
      OvertakesAll(c, ProcessKnown(c, s, n), m, rest);
    }
  }

  // ----- the simulation -----

  /** What holds of the early machine, and of a late one that has been told its id. */
  ghost predicate Knows(s: State, turnId: string) {
    s.intake == Intake(Some(turnId), [], 0, false, {})
  }

  ghost predicate Waits(c: Context, s: State) {
    && s.intake.turnId.None? && !s.intake.abortRequested && s.intake.interrupted == {}
    && forall n <- s.intake.buffered :: MustWait(c, n)
  }

  lemma WaitingStep(c: Context, s: State, n: Notification, turnId: string)
    requires Waits(c, s) && MustWait(c, n) && !Reveals(c, n)
    requires Revealed(c, Process(c, s, n), turnId).core.ending.failure.None?
    ensures Revealed(c, Process(c, s, n), turnId) == ProcessKnown(c, Reveal(c, s, turnId), n)
  {
    var next := Buffer(s, n);
    if next.core.ending.failure.Some? {
      DrainFailureSticks(c, Unbuffered(next, turnId), next.intake.buffered);
    }
    DrainSnoc(c, Unbuffered(s, turnId), s.intake.buffered, n);
  }

  lemma ImmediateStep(c: Context, s: State, n: Notification, turnId: string)
    requires Waits(c, s) && !MustWait(c, n) && !RouteOf(c, n).Violation?
    requires Revealed(c, Process(c, s, n), turnId).core.ending.failure.None?
    ensures Same(Revealed(c, Process(c, s, n), turnId), ProcessKnown(c, Reveal(c, s, turnId), n))
  {
    assert CoreStep(c, s.core, None, n) == CoreStep(c, s.core, Some(turnId), n);
    assert Unbuffered(ProcessKnown(c, s, n), turnId) == ProcessKnown(c, Unbuffered(s, turnId), n);
    OvertakesAll(c, Unbuffered(s, turnId), n, s.intake.buffered);
  }

  lemma RevealKnows(c: Context, s: State, turnId: string)
    requires Waits(c, s)
    ensures Knows(Reveal(c, s, turnId), turnId)
  {
    DrainKeepsIntake(c, Unbuffered(s, turnId), s.intake.buffered);
  }

  lemma RevealingStep(c: Context, s: State, n: Notification, turnId: string)
    requires Waits(c, s) && Reveals(c, n) && RouteOf(c, n).turnId == turnId
    ensures Knows(Process(c, s, n), turnId)
    ensures Process(c, s, n) == ProcessKnown(c, Reveal(c, s, turnId), n)
  {
    DrainCounts(c, Unbuffered(s, turnId), s.intake.buffered);
    RevealKnows(c, s, turnId);
    assert Unbuffered(Count(s), turnId) == Count(Unbuffered(s, turnId));
    SaysNothing(Reveal(c, s, turnId).warnings);
  }

  /** While the id is unknown, one more event moves the revealed state by exactly that event. */
  lemma LateStep(c: Context, s: State, n: Notification, turnId: string)
    requires Waits(c, s) && Orderly(c, false, Notified(n), turnId)
    requires Revealed(c, Process(c, s, n), turnId).core.ending.failure.None?
    ensures Same(Revealed(c, Process(c, s, n), turnId), ProcessKnown(c, Reveal(c, s, turnId), n))
    ensures Reveal(c, s, turnId).core.ending.failure.None?
  {
    if Reveals(c, n) {
      RevealingStep(c, s, n, turnId);
    } else if MustWait(c, n) {
      WaitingStep(c, s, n, turnId);
    } else {
      ImmediateStep(c, s, n, turnId);
    }
    RevealKnows(c, s, turnId);
    if Reveal(c, s, turnId).core.ending.failure.Some? {
      FailureSticks(c, Reveal(c, s, turnId).core, Some(turnId), n);
    }
  }

  lemma ShapeStep(c: Context, s: State, input: Input, turnId: string)
    requires Waits(c, s) || Knows(s, turnId)
    requires !input.AbortRaised? && Orderly(c, s.intake.turnId.Some?, input, turnId)
    ensures Waits(c, Receive(c, s, input)) || Knows(Receive(c, s, input), turnId)
    ensures Knows(s, turnId) || input.Responded? ==> Knows(Receive(c, s, input), turnId)
    ensures Knows(s, turnId) && input.Responded? ==> Receive(c, s, input) == s
  {
    match input
    case Responded(_) =>
      if Waits(c, s) {
        RevealKnows(c, s, turnId);
      }
    case Notified(n) =>
      if Waits(c, s) && Reveals(c, n) {
        RevealingStep(c, s, n, turnId);
      }
  }

  lemma {:induction false} Shapes(c: Context, inputs: seq<Input>, turnId: string)
    requires OrderlyRun(c, inputs, turnId) && forall input <- inputs :: !input.AbortRaised?
    ensures Waits(c, ReceiveAll(c, EMPTY, inputs)) || Knows(ReceiveAll(c, EMPTY, inputs), turnId)
    ensures Knows(ReceiveAll(c, Unbuffered(EMPTY, turnId), inputs), turnId)
  {
    if inputs != [] {
      var before := inputs[..|inputs| - 1];
      Shapes(c, before, turnId);
      ShapeStep(c, ReceiveAll(c, EMPTY, before), Last(inputs), turnId);
      ShapeStep(c, ReceiveAll(c, Unbuffered(EMPTY, turnId), before), Last(inputs), turnId);
    }
  }

  /** One input moves the late machine, as if revealed, exactly as it moves the early one. */
  lemma SimulationStep(c: Context, late: State, early: State, input: Input, turnId: string)
    requires Waits(c, late) || Knows(late, turnId)
    requires Knows(early, turnId) && !input.AbortRaised? && Orderly(c, late.intake.turnId.Some?, input, turnId)
    requires Revealed(c, Receive(c, late, input), turnId).core.ending.failure.None?
    ensures Revealed(c, late, turnId).core.ending.failure.None?
    ensures Same(Revealed(c, late, turnId), early) ==>
              Same(Revealed(c, Receive(c, late, input), turnId), Receive(c, early, input))
  {
    ShapeStep(c, late, input, turnId);
    ShapeStep(c, early, input, turnId);
    if input.Notified? {
      if Waits(c, late) {
        LateStep(c, late, input.n, turnId);
      } else if late.core.ending.failure.Some? {
        FailureSticks(c, late.core, Some(turnId), input.n);
      }
    }
  }

  /**
   Buffering is transparent to a turn that nobody aborts: if the late machine, told its id, ends without a protocol
   failure, it ends as the machine that knew the id from the start, up to the order of the warnings.
   */
  lemma {:induction false} LateIdIsTransparent(c: Context, inputs: seq<Input>, turnId: string)
    requires OrderlyRun(c, inputs, turnId) && forall input <- inputs :: !input.AbortRaised?
    requires Revealed(c, ReceiveAll(c, EMPTY, inputs), turnId).core.ending.failure.None?
    ensures Same(Revealed(c, ReceiveAll(c, EMPTY, inputs), turnId), ReceiveAll(c, Unbuffered(EMPTY, turnId), inputs))
  {
    if inputs != [] {
      var before := inputs[..|inputs| - 1];
      Shapes(c, before, turnId);
      SimulationStep(c, ReceiveAll(c, EMPTY, before), ReceiveAll(c, Unbuffered(EMPTY, turnId), before), Last(inputs),
                     turnId);
      LateIdIsTransparent(c, before, turnId);
    }
  }
}
