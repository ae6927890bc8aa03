/**
 A turn that its caller aborts ends like one that nobody aborts, but for one interrupt warning; so an abort before the
 turn's id is known ends like one after it.
 */
module TurnCancellation {
  import opened Common
  import opened Turn
  import opened TurnTransparency

  const INTERRUPTS := {INTERRUPT_WHILE_SETTLING, INTERRUPT_BEFORE_SETTLED, INTERRUPT_CANCELLED}

  function Charge(k: Core, bytes: int): Core {
    k.(retainedBytes := k.retainedBytes + bytes)
  }

  predicate Failed(s: State) {
    s.core.ending.failure.Some?
  }

  /** `s` is `u` after an abort: of an unknown turn it is only noted, of a known one it has said `warning`. */
  ghost predicate AbortedWith(c: Context, s: State, u: State, warning: string) {
    && u.intake.turnId.Some? && s.rawEventCount == u.rawEventCount
    && s.core == Charge(u.core, c.byteLength(warning))
    && s.intake == u.intake.(abortRequested := true, interrupted := {u.intake.turnId.value})
    && multiset(s.warnings) == multiset(u.warnings) + multiset{warning}
  }

  ghost predicate AbortNoted(s: State, u: State) {
    u.intake.turnId.None? && s == u.(intake := u.intake.(abortRequested := true))
  }

  ghost predicate Aborted(c: Context, s: State, u: State) {
    AbortNoted(s, u) || exists warning <- INTERRUPTS :: AbortedWith(c, s, u, warning)
  }

  /** `s` has seen the same as `u`, and perhaps an abort. */
  ghost predicate Aside(c: Context, s: State, u: State) {
    if s.intake.abortRequested then Aborted(c, s, u) else s == u
  }

  // ----- a charge aside, an event does what it does -----

  lemma ChargedCompletion(c: Context, k: Core, bytes: nat, completion: Completion)
    requires CompleteTurn(c, Charge(k, bytes), completion).core.ending.failure.None?
    ensures CompleteTurn(c, Charge(k, bytes), completion) ==
            Step(Charge(CompleteTurn(c, k, completion).core, bytes), CompleteTurn(c, k, completion).said)
  {
  }

  lemma ChargedEvent(c: Context, k: Core, bytes: nat, n: Notification)
    requires ApplyTurnEvent(c, Charge(k, bytes), n).core.ending.failure.None?
    ensures ApplyTurnEvent(c, Charge(k, bytes), n) ==
            Step(Charge(ApplyTurnEvent(c, k, n).core, bytes), ApplyTurnEvent(c, k, n).said)
  {
    match n.kind
    case TurnCompleted => ChargedCompletion(c, k, bytes, n.completion);
    case _ =>
  }

  lemma ChargedStep(c: Context, k: Core, bytes: nat, turnId: Option<string>, n: Notification)
    requires CoreStep(c, Charge(k, bytes), turnId, n).core.ending.failure.None?
    ensures CoreStep(c, Charge(k, bytes), turnId, n) ==
            Step(Charge(CoreStep(c, k, turnId, n).core, bytes), CoreStep(c, k, turnId, n).said)
  {
    match RouteOf(c, n)
    case TurnEvent(id) =>
      if Some(id) == turnId {
        hide ApplyTurnEvent, Charge;
        ChargedEvent(c, k, bytes, n);
      }
    case _ =>
  }

  lemma AbortedProcess(c: Context, s: State, u: State, warning: string, n: Notification)
    requires AbortedWith(c, s, u, warning) && !Failed(ProcessKnown(c, s, n))
    ensures AbortedWith(c, ProcessKnown(c, s, n), ProcessKnown(c, u, n), warning)
  {
    ChargedStep(c, u.core, c.byteLength(warning), u.intake.turnId, n);
    hide CoreStep;
  }

  // ----- an abort that waits for the id -----

  function WithAbort(s: State): State {
    s.(intake := s.intake.(abortRequested := true))
  }

  lemma {:induction false} DrainWithAbort(c: Context, s: State, events: seq<Notification>)
    ensures Drain(c, WithAbort(s), events) == WithAbort(Drain(c, s, events))
    decreases |events|
  {
    if events != [] {
      DrainWithAbort(c, ProcessKnown(c, s, events[0]), events[1..]);
    }
  }

  lemma RevealedWithAbort(c: Context, u: State, id: string, warning: string)
    requires Waits(c, u) && warning in INTERRUPTS
    requires !Failed(InterruptTurn(c, Reveal(c, WithAbort(u), id), id, warning))
    ensures Aborted(c, InterruptTurn(c, Reveal(c, WithAbort(u), id), id, warning), Reveal(c, u, id))
    ensures Reveal(c, WithAbort(u), id).intake.abortRequested
  {
    hide Drain;
    DrainWithAbort(c, Unbuffered(u, id), u.intake.buffered);
    assert Unbuffered(WithAbort(u), id) == WithAbort(Unbuffered(u, id));
    RevealKnows(c, u, id);
  }

  // ----- one input -----

  function Unaborted(c: Context, u: State, input: Input): State {
    if input.AbortRaised? then u else Receive(c, u, input)
  }

  /** What the machine without the abort is between two inputs. */
  ghost predicate Shaped(c: Context, u: State, turnId: string) {
    Waits(c, u) || Knows(u, turnId)
  }

  lemma NotedStep(c: Context, s: State, u: State, input: Input, turnId: string)
    requires AbortNoted(s, u) && Waits(c, u) && Orderly(c, false, input, turnId)
    requires !Failed(Receive(c, s, input))
    ensures Receive(c, s, input).intake.abortRequested
    ensures Aborted(c, Receive(c, s, input), Unaborted(c, u, input))
  {
    assert s == WithAbort(u);
    match input
    case AbortRaised =>
    case Responded(_) => RevealedWithAbort(c, u, turnId, INTERRUPT_BEFORE_SETTLED);
    case Notified(n) =>
      if MustWait(c, n) && Reveals(c, n) {
        NotedReveal(c, u, n, turnId);
      }
  }

  lemma NotedReveal(c: Context, u: State, n: Notification, turnId: string)
    requires Waits(c, u) && MustWait(c, n) && Reveals(c, n) && RouteOf(c, n).turnId == turnId
    requires !Failed(Process(c, WithAbort(u), n))
    ensures Process(c, WithAbort(u), n).intake.abortRequested
    ensures Aborted(c, Process(c, WithAbort(u), n), Process(c, u, n))
  {
    hide Drain;
    assert Count(WithAbort(u)) == WithAbort(Count(u));
    RevealedWithAbort(c, Count(u), turnId, INTERRUPT_WHILE_SETTLING);
  }

  lemma AbortedStep(c: Context, s: State, u: State, warning: string, input: Input, turnId: string)
    requires AbortedWith(c, s, u, warning) && warning in INTERRUPTS && Knows(u, turnId) &&
             Orderly(c, true, input, turnId)
    requires !Failed(Receive(c, s, input))
    ensures Receive(c, s, input).intake.abortRequested
    ensures Aborted(c, Receive(c, s, input), Unaborted(c, u, input))
  {
    match input
    case AbortRaised =>
      assert Receive(c, s, input) == s;
    case Responded(_) =>
      assert Receive(c, s, input) == s && Receive(c, u, input) == u;
    case Notified(n) =>
      AbortedProcess(c, s, u, warning, n);
      hide ProcessKnown;
      assert Process(c, s, n) == ProcessKnown(c, s, n) && Process(c, u, n) == ProcessKnown(c, u, n);
  }

  lemma AsideStep(c: Context, s: State, u: State, input: Input, turnId: string)
    requires Aside(c, s, u) && Shaped(c, u, turnId) && Orderly(c, u.intake.turnId.Some?, input, turnId)
    requires !Failed(Receive(c, s, input))
    ensures Aside(c, Receive(c, s, input), Unaborted(c, u, input))
    ensures Shaped(c, Unaborted(c, u, input), turnId) && (Knows(u, turnId) ==> Knows(Unaborted(c, u, input), turnId))
    ensures Receive(c, s, input).intake.abortRequested <==> s.intake.abortRequested || input.AbortRaised?
  {
    if !input.AbortRaised? {
      ShapeStep(c, u, input, turnId);
    }
    if !s.intake.abortRequested {
      hide Process, Reveal;
    } else if AbortNoted(s, u) {
      NotedStep(c, s, u, input, turnId);
    } else {
      var warning :| warning in INTERRUPTS && AbortedWith(c, s, u, warning);
      AbortedStep(c, s, u, warning, input, turnId);
    }
  }

  // ----- whole runs -----

  function WithoutAborts(inputs: seq<Input>): seq<Input> {
    if inputs == [] then []
    else WithoutAborts(inputs[..|inputs| - 1]) + if Last(inputs).AbortRaised? then [] else [Last(inputs)]
  }

  lemma ReceiveFailureSticks(c: Context, s: State, input: Input)
    requires Failed(s)
    ensures Failed(Receive(c, s, input))
  {
    match input
    case AbortRaised =>
    case Responded(id) => DrainFailureSticks(c, Unbuffered(s, id), s.intake.buffered);
    case Notified(n) =>
      if RouteOf(c, n).TurnEvent? {
        DrainFailureSticks(c, Unbuffered(Count(s), RouteOf(c, n).turnId), s.intake.buffered);
      }
      FailureSticks(c, s.core, s.intake.turnId, n);
  }

  lemma {:induction false} WithoutAbortsMembers(inputs: seq<Input>)
    ensures forall input <- WithoutAborts(inputs) :: !input.AbortRaised?
  {
    if inputs != [] {
      WithoutAbortsMembers(inputs[..|inputs| - 1]);
    }
  }

  lemma UnabortedLast(c: Context, start: State, inputs: seq<Input>)
    requires inputs != []
    ensures ReceiveAll(c, start, WithoutAborts(inputs)) ==
            Unaborted(c, ReceiveAll(c, start, WithoutAborts(inputs[..|inputs| - 1])), Last(inputs))
  {
    hide Receive;
    var before := WithoutAborts(inputs[..|inputs| - 1]);
    assert before + [] == before;
  }

  lemma SameTurn(c: Context, s: State, u: State)
    requires Aside(c, s, u)
    ensures s.intake.turnId == u.intake.turnId
  {
  }

  ghost predicate AnyAbort(inputs: seq<Input>) {
    exists input <- inputs :: input.AbortRaised?
  }

  /** A late run that does not fail is its run without aborts, but for the interrupt warning. */
  lemma {:induction false} LateAside(c: Context, inputs: seq<Input>, turnId: string)
    requires OrderlyRun(c, inputs, turnId) && !Failed(ReceiveAll(c, EMPTY, inputs))
    ensures Aside(c, ReceiveAll(c, EMPTY, inputs), ReceiveAll(c, EMPTY, WithoutAborts(inputs)))
    ensures Shaped(c, ReceiveAll(c, EMPTY, WithoutAborts(inputs)), turnId)
    ensures ReceiveAll(c, EMPTY, inputs).intake.abortRequested <==> AnyAbort(inputs)
  {
    if inputs != [] {
      var before, last := inputs[..|inputs| - 1], Last(inputs);
      var s, u := ReceiveAll(c, EMPTY, before), ReceiveAll(c, EMPTY, WithoutAborts(before));
      hide Receive, Shaped, AnyAbort, Aside, Orderly, WithoutAborts;
      if Failed(s) {
        ReceiveFailureSticks(c, s, last);
      }
      LateAside(c, before, turnId);
      UnabortedLast(c, EMPTY, inputs);
      AsideStep(c, s, u, last, turnId);
    }
  }

  lemma {:induction false} EarlyAside(c: Context, inputs: seq<Input>, turnId: string)
    requires OrderlyRun(c, inputs, turnId) && !Failed(ReceiveAll(c, Unbuffered(EMPTY, turnId), inputs))
    ensures var start := Unbuffered(EMPTY, turnId);
            && Aside(c, ReceiveAll(c, start, inputs), ReceiveAll(c, start, WithoutAborts(inputs)))
            && Knows(ReceiveAll(c, start, WithoutAborts(inputs)), turnId)
            && (ReceiveAll(c, start, inputs).intake.abortRequested <==> AnyAbort(inputs))
  {
    if inputs != [] {
      var start, before, last := Unbuffered(EMPTY, turnId), inputs[..|inputs| - 1], Last(inputs);
      var s, u := ReceiveAll(c, start, before), ReceiveAll(c, start, WithoutAborts(before));
      hide Receive, AnyAbort, Aside, Orderly, WithoutAborts;
      if Failed(s) {
        ReceiveFailureSticks(c, s, last);
      }
      EarlyAside(c, before, turnId);
      UnabortedLast(c, start, inputs);
      AsideStep(c, s, u, last, turnId);
    }
  }

  lemma {:induction false} OrderlyWithoutAborts(c: Context, inputs: seq<Input>, turnId: string)
    requires OrderlyRun(c, inputs, turnId) && !Failed(ReceiveAll(c, EMPTY, inputs))
    ensures OrderlyRun(c, WithoutAborts(inputs), turnId)
  {
    if inputs != [] {
      var before, last := inputs[..|inputs| - 1], Last(inputs);
      if Failed(ReceiveAll(c, EMPTY, before)) {
        ReceiveFailureSticks(c, ReceiveAll(c, EMPTY, before), last);
      }
      hide Receive, Orderly, Aside;
      OrderlyWithoutAborts(c, before, turnId);
      LateAside(c, before, turnId);
      SameTurn(c, ReceiveAll(c, EMPTY, before), ReceiveAll(c, EMPTY, WithoutAborts(before)));
      assert (WithoutAborts(before) + [last])[..|WithoutAborts(before)|] == WithoutAborts(before);
      assert WithoutAborts(before) + [] == WithoutAborts(before);
    }
  }

  // ----- early and late aborts -----

  /** The states agree on output, usage, reroutes, completion and event count, and but for an interrupt warning each. */
  ghost predicate AgreeButForInterrupts(c: Context, s: State, t: State) {
    && s.core.output == t.core.output && s.core.ending == t.core.ending && s.rawEventCount == t.rawEventCount
    && exists v <- INTERRUPTS, w <- INTERRUPTS ::
         && v in s.warnings && w in t.warnings
         && multiset(s.warnings) - multiset{v} == multiset(t.warnings) - multiset{w}
         && s.core.retainedBytes - c.byteLength(v) == t.core.retainedBytes - c.byteLength(w)
  }

  lemma AsideAgree(c: Context, s: State, u: State, t: State, x: State)
    requires Aside(c, s, u) && Aside(c, t, x) && Same(u, x) && u.intake.turnId.Some?
    requires s.intake.abortRequested && t.intake.abortRequested
    ensures AgreeButForInterrupts(c, s, t)
  {
    var v :| v in INTERRUPTS && AbortedWith(c, s, u, v);
    var w :| w in INTERRUPTS && AbortedWith(c, t, x, w);
    TakenBack(s.warnings, u.warnings, v);
    TakenBack(t.warnings, x.warnings, w);
  }

  lemma TakenBack(warnings: seq<string>, others: seq<string>, warning: string)
    requires multiset(warnings) == multiset(others) + multiset{warning}
    ensures warning in warnings && multiset(warnings) - multiset{warning} == multiset(others)
  {
    assert warning in multiset(warnings);
  }

  /**
   Buffering is transparent to an aborted turn as well: if neither machine fails, wherever among the inputs the aborts
   stand, the late machine, once told its id, agrees with the one that knew it from the start.
   */
  lemma LateAbortIsTransparent(c: Context, inputs: seq<Input>, turnId: string)
    requires OrderlyRun(c, inputs, turnId) && AnyAbort(inputs)
    requires !Failed(Receive(c, ReceiveAll(c, EMPTY, inputs), Responded(turnId)))
    requires !Failed(ReceiveAll(c, Unbuffered(EMPTY, turnId), inputs))
    ensures AgreeButForInterrupts(c, Receive(c, ReceiveAll(c, EMPTY, inputs), Responded(turnId)),
                                  ReceiveAll(c, Unbuffered(EMPTY, turnId), inputs))
  {
    var late, early := ReceiveAll(c, EMPTY, inputs), ReceiveAll(c, Unbuffered(EMPTY, turnId), inputs);
    var quiet := WithoutAborts(inputs);
    var u := ReceiveAll(c, EMPTY, quiet);
    if Failed(late) {
      ReceiveFailureSticks(c, late, Responded(turnId));
    }
    LateAside(c, inputs, turnId);
    EarlyAside(c, inputs, turnId);
    AsideStep(c, late, u, Responded(turnId), turnId);
    QuietReveal(c, u, turnId);
    hide Receive, Process, Aside;
    OrderlyWithoutAborts(c, inputs, turnId);
    WithoutAbortsMembers(inputs);
    LateIdIsTransparent(c, quiet, turnId);
    AsideAgree(c, Receive(c, late, Responded(turnId)), Revealed(c, u, turnId), early,
               ReceiveAll(c, Unbuffered(EMPTY, turnId), quiet));
  }

  lemma QuietReveal(c: Context, u: State, turnId: string)
    requires Shaped(c, u, turnId)
    ensures Receive(c, u, Responded(turnId)) == Revealed(c, u, turnId)
    ensures Revealed(c, u, turnId).intake.turnId.Some?
  {
    ShapeStep(c, u, Responded(turnId), turnId);
  }
}
