/** One turn's notification state, as values: what each closure of the turn makes of it. */
module Turn {
  import opened Common

  const MAX_BUFFERED_NOTIFICATIONS: nat := 512
  const MAX_BUFFERED_BYTES: nat := 8 * 1024 * 1024
  const MAX_RETAINED_BYTES: nat := 16 * 1024 * 1024
  const MAX_REROUTES: nat := 512

  datatype Kind =
    | Warning
    | Error
    | TurnStarted
    | DiffUpdated
    | MessageDelta
    | ItemCompleted
    | TokenUsageUpdated
    | Rerouted
    | TurnCompleted
    | Other

  datatype CompletionStatus = Completed | Failed | Interrupted | Cancelled

  /** A completion, and the message of its protocol error if it carries one. */
  datatype Completion = Completion(status: CompletionStatus, protocolError: Option<string>)

  datatype Reroute = Reroute(fromModel: string, toModel: string, reason: Option<string>)

  datatype Usage = Usage(total: nat, last: nat)

  /** A notification after parsing: its addressing, the part its kind reads, and its serialized size. */
  datatype Notification = Notification(
    kind: Kind,
    threadId: Option<string>,
    turnId: Option<string>,
    nestedTurnId: Option<string>,
    text: Option<string>,
    usage: Option<Usage>,
    reroute: Option<Reroute>,
    completion: Completion,
    bytes: nat)

  /** The thread of the turn, and the UTF-8 size of a text. */
  datatype Context = Context(threadId: string, byteLength: string -> nat)

  /** What the turn's own events build up. */
  datatype Output = Output(
    latestDiff: string,
    finalMessage: string,
    deltas: seq<string>,
    usage: Option<Usage>,
    reroutes: seq<Reroute>)

  /** Whether, and why, the turn is complete or being closed. */
  datatype Ending = Ending(
    completion: Option<Completion>,
    terminalObserved: bool,
    containment: bool,
    transportEnded: bool,
    failure: Option<string>)

  /** The output, the text budget it shares with the warnings, and the ending. */
  datatype Core = Core(output: Output, retainedBytes: int, ending: Ending)

  /** What waits for the turn id, and what has been asked of the turn. */
  datatype Intake = Intake(
    turnId: Option<string>,
    buffered: seq<Notification>,
    bufferedBytes: nat,
    abortRequested: bool,
    interrupted: set<string>)

  datatype State = State(core: Core, warnings: seq<string>, rawEventCount: nat, intake: Intake)

  const EMPTY_CORE := Core(Output("", "", [], None, []), 0, Ending(None, false, false, false, None))
  const EMPTY := State(EMPTY_CORE, [], 0, Intake(None, [], 0, false, {}))

  // ----- closures on the core: the new core, and the warnings said on the way -----

  datatype Step = Step(core: Core, said: seq<string>)

  /** Only the first resolution of the completion counts. */
  function Resolve(e: Ending, completion: Completion): Ending {
    if e.completion.None? then e.(completion := Some(completion)) else e
  }

  /** A protocol failure is warned about without accounting, fails the turn and starts closing the server, once. */
  function Contain(k: Core, message: string): Step {
    if k.ending.failure.Some? then Step(k, [])
    else Step(k.(ending := Resolve(k.ending.(failure := Some(message), containment := true),
                                   Completion(Failed, Some(message)))),
              [message])
  }

  const RETAINED_MESSAGE := "Codex turn retained text exceeded the safety bound."
  const BUFFERED_MESSAGE := "Codex turn emitted too much state before turn/start settled."
  const REROUTES_MESSAGE := "Codex turn exceeded the reroute safety bound."
  const ERROR_MESSAGE := "Codex turn emitted an error."

  /** Charges the text budget for the new output, or fails the turn and keeps the old one. */
  function Reserve(k: Core, output: Output, bytes: int): Step {
    if k.retainedBytes + bytes <= MAX_RETAINED_BYTES then Step(Core(output, k.retainedBytes + bytes, k.ending), [])
    else Contain(k, RETAINED_MESSAGE)
  }

  function Warn(c: Context, k: Core, message: string): Step {
    if k.retainedBytes + c.byteLength(message) <= MAX_RETAINED_BYTES
    then Step(k.(retainedBytes := k.retainedBytes + c.byteLength(message)), [message])
    else Contain(k, RETAINED_MESSAGE)
  }

  function SetDiff(c: Context, k: Core, diff: string): Step {
    Reserve(k, k.output.(latestDiff := diff), c.byteLength(diff) - c.byteLength(k.output.latestDiff))
  }

  function AddDelta(c: Context, k: Core, delta: string): Step {
    Reserve(k, k.output.(deltas := k.output.deltas + [delta]), c.byteLength(delta))
  }

  function SetFinal(c: Context, k: Core, text: string): Step {
    Reserve(k, k.output.(finalMessage := text), c.byteLength(text) - c.byteLength(k.output.finalMessage))
  }

  function RerouteBytes(c: Context, reroute: Reroute): nat {
    c.byteLength(reroute.fromModel) + c.byteLength(reroute.toModel) +
    if reroute.reason.None? then 0 else c.byteLength(reroute.reason.value)
  }

  function AddReroute(c: Context, k: Core, reroute: Reroute): Step {
    if |k.output.reroutes| >= MAX_REROUTES then Contain(k, REROUTES_MESSAGE)
    else Reserve(k, k.output.(reroutes := k.output.reroutes + [reroute]), RerouteBytes(c, reroute))
  }

  function CompleteTurn(c: Context, k: Core, completion: Completion): Step {
    var observed := k.(ending := k.ending.(terminalObserved := true));
    var step := if completion.protocolError.None? then Step(observed, [])
                else Warn(c, observed, completion.protocolError.value);
    Step(step.core.(ending := Resolve(step.core.ending, completion)), step.said)
  }

  /** An event of the known turn. */
  function ApplyTurnEvent(c: Context, k: Core, n: Notification): Step {
    match n.kind
    case DiffUpdated => if n.text.None? then Step(k, []) else SetDiff(c, k, n.text.value)
    case MessageDelta => if n.text.None? then Step(k, []) else AddDelta(c, k, n.text.value)
    case ItemCompleted => if n.text.None? then Step(k, []) else SetFinal(c, k, n.text.value)
    case TokenUsageUpdated => Step(if n.usage.None? then k else k.(output := k.output.(usage := n.usage)), [])
    case Rerouted => if n.reroute.None? then Step(k, []) else AddReroute(c, k, n.reroute.value)
    case TurnCompleted => CompleteTurn(c, k, n.completion)
    case _ => Step(k, [])
  }

  function Violate(c: Context, k: Core, message: string): Step {
    var step := Warn(c, k, message);
    Step(step.core.(ending := Resolve(step.core.ending, Completion(Failed, Some(message))).(containment := true)),
         step.said)
  }

  // ----- routing -----

  /** Where a notification goes, before the turn id is looked at. */
  datatype Route =
    | Ignored
    | ThreadWarning(message: Option<string>)
    | ThreadError(scope: Option<string>, error: string)
    | Violation(complaint: string)
    | TurnEvent(turnId: string)

  predicate IsTurnState(kind: Kind) {
    kind !in {Warning, Error, Other}
  }

  const MISSING_THREAD_MESSAGE := "notification omitted threadId; Counterlane closed the App Server."
  const MISSING_TURN_MESSAGE := "notification omitted turnId; Counterlane closed the App Server."

  function RouteOf(c: Context, n: Notification): Route {
    var foreign := n.threadId.Some? && n.threadId.value != c.threadId;
    var turnId := if n.turnId.Some? then n.turnId else n.nestedTurnId;
    if n.kind.Warning? then if foreign then Ignored else ThreadWarning(n.text)
    else if n.kind.Error? then
      if foreign then Ignored else ThreadError(n.turnId, if n.text.Some? then n.text.value else ERROR_MESSAGE)
    else if n.threadId.None? then if IsTurnState(n.kind) then Violation(MISSING_THREAD_MESSAGE) else Ignored
    else if foreign then Ignored
    else if turnId.None? then if IsTurnState(n.kind) then Violation(MISSING_TURN_MESSAGE) else Ignored
    else TurnEvent(turnId.value)
  }

  /** A notification once the turn id is known: its effect on the core, and whether it is counted. */
  function CoreStep(c: Context, k: Core, turnId: Option<string>, n: Notification): Step {
    match RouteOf(c, n)
    case Ignored => Step(k, [])
    case ThreadWarning(message) => if message.None? then Step(k, []) else Warn(c, k, message.value)
    case ThreadError(scope, error) => if scope.Some? && scope != turnId then Step(k, []) else Warn(c, k, error)
    case Violation(complaint) => Violate(c, k, complaint)
    case TurnEvent(id) => if Some(id) != turnId then Step(k, []) else ApplyTurnEvent(c, k, n)
  }

  predicate Counted(c: Context, turnId: Option<string>, n: Notification) {
    match RouteOf(c, n)
    case Ignored => false
    case ThreadWarning(_) => true
    case ThreadError(scope, _) => scope.None? || scope == turnId
    case Violation(_) => false
    case TurnEvent(_) => true
  }

  function Advance(s: State, step: Step): State {
    s.(core := step.core, warnings := s.warnings + step.said)
  }

  function Count(s: State): State {
    s.(rawEventCount := s.rawEventCount + 1)
  }

  function ProcessKnown(c: Context, s: State, n: Notification): State {
    var advanced := Advance(s, CoreStep(c, s.core, s.intake.turnId, n));
    if Counted(c, s.intake.turnId, n) then Count(advanced) else advanced
  }

  function Drain(c: Context, s: State, events: seq<Notification>): State
    decreases |events|
  {
    if events == [] then s else Drain(c, ProcessKnown(c, s, events[0]), events[1..])
  }

  function Buffer(s: State, n: Notification): State {
    if |s.intake.buffered| >= MAX_BUFFERED_NOTIFICATIONS || s.intake.bufferedBytes + n.bytes > MAX_BUFFERED_BYTES
    then Advance(s, Contain(s.core, BUFFERED_MESSAGE))
    else s.(intake := s.intake.(buffered := s.intake.buffered + [n], bufferedBytes := s.intake.bufferedBytes + n.bytes))
  }

  const INTERRUPT_BEFORE_SETTLED := "Codex turn interrupted before execution settled."
  const INTERRUPT_CANCELLED := "Codex turn interrupted by caller cancellation."
  const INTERRUPT_WHILE_SETTLING := "Codex turn interrupted while turn/start was still settling."

  /** Asks once per turn id for an interrupt, with one warning. */
  function InterruptTurn(c: Context, s: State, turnId: string, reason: string): State {
    if turnId in s.intake.interrupted then s
    else Advance(s, Warn(c, s.core, reason)).(intake := s.intake.(interrupted := s.intake.interrupted + {turnId}))
  }

  function Unbuffered(s: State, turnId: string): State {
    s.(intake := s.intake.(turnId := Some(turnId), buffered := [], bufferedBytes := 0))
  }

  /** The turn id becomes known and everything buffered is processed. */
  function Reveal(c: Context, s: State, turnId: string): State {
    Drain(c, Unbuffered(s, turnId), s.intake.buffered)
  }

  /** An event that waits while the turn id is unknown. */
  predicate MustWait(c: Context, n: Notification) {
    match RouteOf(c, n)
    case ThreadError(scope, _) => scope.Some?
    case TurnEvent(_) => true
    case _ => false
  }

  function Process(c: Context, s: State, n: Notification): State {
    if s.intake.turnId.Some? || !MustWait(c, n) then ProcessKnown(c, s, n)
    else if RouteOf(c, n).TurnEvent? && n.kind.TurnStarted? then
      var turnId := RouteOf(c, n).turnId;
      var revealed := Reveal(c, Count(s), turnId);
      if s.intake.abortRequested then InterruptTurn(c, revealed, turnId, INTERRUPT_WHILE_SETTLING) else revealed
    else Buffer(s, n)
  }

  // ----- byte accounting -----

  function SumText(c: Context, texts: seq<string>): nat {
    if texts == [] then 0 else SumText(c, texts[..|texts| - 1]) + c.byteLength(Last(texts))
  }

  function SumReroutes(c: Context, reroutes: seq<Reroute>): nat {
    if reroutes == [] then 0
    else
      var Reroute(fromModel, toModel, reason) := Last(reroutes);
      SumReroutes(c, reroutes[..|reroutes| - 1]) + c.byteLength(fromModel) + c.byteLength(toModel) +
      if reason.Some? then c.byteLength(reason.value) else 0
  }

  function SumBytes(events: seq<Notification>): nat {
    if events == [] then 0 else SumBytes(events[..|events| - 1]) + Last(events).bytes
  }

  function OutputBytes(c: Context, o: Output): nat {
    c.byteLength(o.latestDiff) + c.byteLength(o.finalMessage) + SumText(c, o.deltas) + SumReroutes(c, o.reroutes)
  }

  /** Every retained text is accounted for, except the message of a protocol failure. */
  ghost predicate Retains(c: Context, k: Core, warnings: seq<string>) {
    var o, e := k.output, k.ending;
    && k.retainedBytes <= MAX_RETAINED_BYTES
    && k.retainedBytes + (if e.failure.None? then 0 else c.byteLength(e.failure.value)) ==
         OutputBytes(c, o) + SumText(c, warnings)
    && (e.failure.Some? ==> e.failure.value in warnings)
    && |o.reroutes| <= MAX_REROUTES
    && Explained(e)
  }

  /** A protocol failure closes and completes the turn, and a turn is only complete for a reason. */
  ghost predicate Explained(e: Ending) {
    && (e.failure.Some? ==> e.containment && e.completion.Some?)
    && (e.completion.Some? ==> e.terminalObserved || e.containment || e.transportEnded)
  }

  ghost predicate Buffers(intake: Intake) {
    && |intake.buffered| <= MAX_BUFFERED_NOTIFICATIONS
    && intake.bufferedBytes == SumBytes(intake.buffered) <= MAX_BUFFERED_BYTES
    && (intake.turnId.Some? ==> intake.buffered == [])
  }

  ghost predicate Bounded(c: Context, s: State) {
    Retains(c, s.core, s.warnings) && Buffers(s.intake)
  }

  lemma SumTextSnoc(c: Context, texts: seq<string>, text: string)
    ensures SumText(c, texts + [text]) == SumText(c, texts) + c.byteLength(text)
  {
    assert (texts + [text])[..|texts|] == texts;
  }

  lemma SaysNothing(warnings: seq<string>)
    ensures warnings + [] == warnings
  {
  }

  lemma ContainStays(c: Context, k: Core, warnings: seq<string>, message: string)
    requires Retains(c, k, warnings)
    ensures var step := Contain(k, message); Retains(c, step.core, warnings + step.said)
  {
    SumTextSnoc(c, warnings, message);
    SaysNothing(warnings);
  }

  lemma WarnStays(c: Context, k: Core, warnings: seq<string>, message: string)
    requires Retains(c, k, warnings)
    ensures var step := Warn(c, k, message); Retains(c, step.core, warnings + step.said)
  {
    SumTextSnoc(c, warnings, message);
    ContainStays(c, k, warnings, RETAINED_MESSAGE);
  }

  /** Charging exactly what the new output has more than the old one keeps the accounts. */
  lemma ReserveStays(c: Context, k: Core, warnings: seq<string>, output: Output, bytes: int)
    requires Retains(c, k, warnings)
    requires OutputBytes(c, output) == OutputBytes(c, k.output) + bytes && |output.reroutes| <= MAX_REROUTES
    ensures var step := Reserve(k, output, bytes); Retains(c, step.core, warnings + step.said)
  {
    hide OutputBytes, Contain;
    ContainStays(c, k, warnings, RETAINED_MESSAGE);
    SaysNothing(warnings);
  }

  lemma TextStays(c: Context, k: Core, warnings: seq<string>, text: string)
    requires Retains(c, k, warnings)
    ensures var step := SetDiff(c, k, text); Retains(c, step.core, warnings + step.said)
    ensures var step := SetFinal(c, k, text); Retains(c, step.core, warnings + step.said)
    ensures var step := AddDelta(c, k, text); Retains(c, step.core, warnings + step.said)
  {
    hide Reserve;
    var o := k.output;
    SumTextSnoc(c, o.deltas, text);
    ReserveStays(c, k, warnings, o.(latestDiff := text), c.byteLength(text) - c.byteLength(o.latestDiff));
    ReserveStays(c, k, warnings, o.(finalMessage := text), c.byteLength(text) - c.byteLength(o.finalMessage));
    ReserveStays(c, k, warnings, o.(deltas := o.deltas + [text]), c.byteLength(text));
  }

  lemma SumRerouteSnoc(c: Context, reroutes: seq<Reroute>, reroute: Reroute)
    ensures SumReroutes(c, reroutes + [reroute]) == SumReroutes(c, reroutes) + RerouteBytes(c, reroute)
  {
    assert (reroutes + [reroute])[..|reroutes|] == reroutes;
  }

  lemma RerouteStays(c: Context, k: Core, warnings: seq<string>, reroute: Reroute)
    requires Retains(c, k, warnings)
    ensures var step := AddReroute(c, k, reroute); Retains(c, step.core, warnings + step.said)
  {
    hide Reserve, RerouteBytes, SumReroutes, SumText;
    var o := k.output;
    ContainStays(c, k, warnings, REROUTES_MESSAGE);
    if |o.reroutes| < MAX_REROUTES {
      SumRerouteSnoc(c, o.reroutes, reroute);
      ReserveStays(c, k, warnings, o.(reroutes := o.reroutes + [reroute]), RerouteBytes(c, reroute));
    }
  }

  lemma CompleteStays(c: Context, k: Core, warnings: seq<string>, completion: Completion)
    requires Retains(c, k, warnings)
    ensures var step := CompleteTurn(c, k, completion); Retains(c, step.core, warnings + step.said)
  {
    SaysNothing(warnings);
    if completion.protocolError.Some? {
      WarnStays(c, k.(ending := k.ending.(terminalObserved := true)), warnings, completion.protocolError.value);
    }
  }

  lemma ApplyStays(c: Context, k: Core, warnings: seq<string>, n: Notification)
    requires Retains(c, k, warnings)
    ensures var step := ApplyTurnEvent(c, k, n); Retains(c, step.core, warnings + step.said)
  {
    SaysNothing(warnings);
    match n.kind
    case TokenUsageUpdated =>
    case Rerouted =>
      if n.reroute.Some? {
        RerouteStays(c, k, warnings, n.reroute.value);
      }
    case TurnCompleted => CompleteStays(c, k, warnings, n.completion);
    case _ =>
      if n.text.Some? {
        TextStays(c, k, warnings, n.text.value);
      }
  }

  lemma ViolateStays(c: Context, k: Core, warnings: seq<string>, complaint: string)
    requires Retains(c, k, warnings)
    ensures var step := Violate(c, k, complaint); Retains(c, step.core, warnings + step.said)
  {
    WarnStays(c, k, warnings, complaint);
  }

  lemma CoreStays(c: Context, k: Core, warnings: seq<string>, turnId: Option<string>, n: Notification)
    requires Retains(c, k, warnings)
    ensures var step := CoreStep(c, k, turnId, n); Retains(c, step.core, warnings + step.said)
  {
    hide Retains, Warn, Violate, ApplyTurnEvent;
    SaysNothing(warnings);
    match RouteOf(c, n)
    case Ignored =>
    case ThreadWarning(message) =>
      if message.Some? {
        WarnStays(c, k, warnings, message.value);
      }
    case ThreadError(_, error) => WarnStays(c, k, warnings, error);
    case Violation(complaint) => ViolateStays(c, k, warnings, complaint);
    case TurnEvent(_) => ApplyStays(c, k, warnings, n);
  }

  lemma {:induction false} DrainKeepsIntake(c: Context, s: State, events: seq<Notification>)
    ensures Drain(c, s, events).intake == s.intake
    decreases |events|
  {
    if events != [] {
      DrainKeepsIntake(c, ProcessKnown(c, s, events[0]), events[1..]);
    }
  }

  lemma {:induction false} DrainStays(c: Context, s: State, events: seq<Notification>)
    requires Bounded(c, s)
    ensures Bounded(c, Drain(c, s, events))
    decreases |events|
  {
    if events != [] {
      CoreStays(c, s.core, s.warnings, s.intake.turnId, events[0]);
      DrainStays(c, ProcessKnown(c, s, events[0]), events[1..]);
    }
  }

  lemma BufferStays(c: Context, s: State, n: Notification)
    requires Bounded(c, s) && s.intake.turnId.None?
    ensures Bounded(c, Buffer(s, n))
  {
    assert (s.intake.buffered + [n])[..|s.intake.buffered|] == s.intake.buffered;
    ContainStays(c, s.core, s.warnings, BUFFERED_MESSAGE);
  }

  lemma RevealStays(c: Context, s: State, turnId: string)
    requires Bounded(c, s)
    ensures Bounded(c, Reveal(c, s, turnId))
  {
    DrainStays(c, Unbuffered(s, turnId), s.intake.buffered);
  }

  /** Every notification keeps every budget exactly. */
  lemma ProcessStays(c: Context, s: State, n: Notification)
    requires Bounded(c, s)
    ensures Bounded(c, Process(c, s, n))
  {
    if s.intake.turnId.Some? || !MustWait(c, n) {
      CoreStays(c, s.core, s.warnings, s.intake.turnId, n);
    } else if RouteOf(c, n).TurnEvent? && n.kind.TurnStarted? {
      var revealed := Reveal(c, Count(s), RouteOf(c, n).turnId);
      RevealStays(c, Count(s), RouteOf(c, n).turnId);
      WarnStays(c, revealed.core, revealed.warnings, INTERRUPT_WHILE_SETTLING);
    } else {
      BufferStays(c, s, n);
    }
  }
}
