/**
 The verifier-gated controller and its durable attempt journal.

 A journal root is a directory of records. Every persist is one atomic replacement of one record;
 it may fail with either the old or the new record left behind, and the process may die inside it.
 The root keeps a ghost trace of what became durable and of what was sent, so that a statement
 about every prefix of the trace is a statement about every crash point.
 */
module Vgcl {
  import opened Common
  import opened Routes

  type RunId = string

  datatype FailureCause =
    | CandidateDefect
    | TaskOrVerifierConfiguration
    | InfrastructureOrProtocol
    | PolicyOrExternalState
    | UserStop

  datatype TerminalState = Verified | Failed | Cancelled | ReconciliationRequired

  datatype AttemptState =
    | AttemptReserved
    | PreSendFailed
    | RequestSent
    | RemoteIdentityKnown
    | AcknowledgementUnknown
    | TurnTerminal
    | VerificationTerminal

  datatype Attempt = Attempt(
    ordinal: nat,
    policy: Candidate,
    state: AttemptState,
    transportRequests: nat,
    modelAttempts: nat,
    threadId: Option<string>,
    turnId: Option<string>,
    failureCause: Option<FailureCause>)

  datatype RecordState = Planned | Reserved | Sent | NeedsReconciliation | RunTerminal

  datatype Record = Record(
    runId: RunId,
    state: RecordState,
    attempts: seq<Attempt>,
    terminalState: Option<TerminalState>)

  const MAXIMUM_ATTEMPTS := 2

  function FreshRecord(run: RunId): Record {
    Record(run, Planned, [], None)
  }

  /** What a directory entry parses to: a journal record, some other JSON value, or nothing readable. */
  datatype File = Journal(record: Record) | Foreign | Torn {
    predicate Pending() {
      match this
      case Journal(record) => record.state != RunTerminal
      case Foreign => false
      case Torn => true
    }
  }

  type Files = map<RunId, File>

  predicate AnyPending(files: Files) {
    exists run <- files.Keys :: files[run].Pending()
  }

  /** What blocks the next run: a file that cannot be read, or a record in any state but the terminal one. */
  lemma PendingOnFields(files: Files)
    ensures AnyPending(files) <==>
              exists run <- files.Keys :: files[run].Torn? || (files[run].Journal? &&
                files[run].record.state in {Planned, Reserved, Sent, NeedsReconciliation})
  {
  }

  // ----- accounting -----

  datatype Accounting = Accounting(
    reserved: nat,
    completed: nat,
    unresolved: nat,
    transportRequests: nat,
    modelAttempts: nat,
    verifierRuns: nat,
    sequentialEscalations: nat)

  function CountIn(attempts: seq<Attempt>, states: set<AttemptState>): (n: nat)
    ensures n <= |attempts|
  {
    if attempts == [] then 0
    else (if attempts[0].state in states then 1 else 0) + CountIn(attempts[1..], states)
  }

  function SumTransport(attempts: seq<Attempt>): nat {
    if attempts == [] then 0 else attempts[0].transportRequests + SumTransport(attempts[1..])
  }

  function SumModel(attempts: seq<Attempt>): nat {
    if attempts == [] then 0 else attempts[0].modelAttempts + SumModel(attempts[1..])
  }

  const CLOSED_STATES := {VerificationTerminal, PreSendFailed}
  const MID_RUN_STATES := {RequestSent, RemoteIdentityKnown, TurnTerminal}

  /** The controller's own view of its attempts. */
  function LiveAccounting(attempts: seq<Attempt>): Accounting {
    Accounting(
      |attempts|,
      CountIn(attempts, CLOSED_STATES),
      CountIn(attempts, {AcknowledgementUnknown}),
      SumTransport(attempts),
      SumModel(attempts),
      CountIn(attempts, {VerificationTerminal}),
      if |attempts| == 0 then 0 else |attempts| - 1)
  }

  /** A later process's view of the same attempts, read back from the durable record. */
  function DurableAccounting(attempts: seq<Attempt>): Accounting {
    LiveAccounting(attempts).(unresolved := CountIn(attempts, MID_RUN_STATES + {AcknowledgementUnknown}))
  }

  const TORN_ACCOUNTING := Accounting(0, 0, 1, 0, 0, 0, 0)

  function FileAccounting(file: File): Accounting
    requires file.Pending()
  {
    match file
    case Journal(record) => DurableAccounting(record.attempts)
    case Torn => TORN_ACCOUNTING
  }

  /** The attempts in one of these states, by their positions. */
  function InStates(attempts: seq<Attempt>, states: set<AttemptState>): set<nat> {
    set i: nat | i < |attempts| && attempts[i].state in states
  }

  /** One attempt more. */
  lemma {:induction false} CountInSnoc(attempts: seq<Attempt>, last: Attempt, states: set<AttemptState>)
    ensures CountIn(attempts + [last], states) == CountIn(attempts, states) + if last.state in states then 1 else 0
  {
    var all := attempts + [last];
    if attempts == [] {
      assert all[1..] == [];
    } else {
      assert all[1..] == attempts[1..] + [last];
      CountInSnoc(attempts[1..], last, states);
    }
  }

  lemma {:induction false} CountIsNumber(attempts: seq<Attempt>, states: set<AttemptState>)
    ensures CountIn(attempts, states) == |InStates(attempts, states)|
  {
    if attempts != [] {
      var init, last := attempts[..|attempts| - 1], Last(attempts);
      CountIsNumber(init, states);
      CountInSnoc(init, last, states);
      assert attempts == init + [last];
      assert InStates(attempts, states) == InStates(init, states) + if last.state in states then {|init|} else {};
    }
  }

  /**
   What a later process reports of an unresolved file: every attempt that may have been sent and was not verified is
   unresolved; an unreadable file is one unresolved attempt.
   */
  lemma PendingAccounts(file: File)
    requires file.Pending()
    ensures var a := FileAccounting(file);
            match file
            case Journal(record) =>
              && a.reserved == |record.attempts|
              && a.completed == |InStates(record.attempts, {VerificationTerminal, PreSendFailed})|
              && a.unresolved == |InStates(record.attempts, {RequestSent, RemoteIdentityKnown, TurnTerminal,
                                                             AcknowledgementUnknown})|
              && a.verifierRuns == |InStates(record.attempts, {VerificationTerminal})|
              && a.transportRequests == SumTransport(record.attempts)
              && a.modelAttempts == SumModel(record.attempts)
              && a.sequentialEscalations == (if a.reserved > 0 then a.reserved - 1 else 0)
            case Torn => a == Accounting(0, 0, 1, 0, 0, 0, 0)
  {
    if file.Journal? {
      var attempts := file.record.attempts;
      CountIsNumber(attempts, CLOSED_STATES);
      CountIsNumber(attempts, MID_RUN_STATES + {AcknowledgementUnknown});
      CountIsNumber(attempts, {VerificationTerminal});
      assert MID_RUN_STATES + {AcknowledgementUnknown} ==
             {RequestSent, RemoteIdentityKnown, TurnTerminal, AcknowledgementUnknown};
    }
  }

  lemma {:induction false} CountUnion(attempts: seq<Attempt>, some: set<AttemptState>, others: set<AttemptState>)
    requires some !! others
    ensures CountIn(attempts, some + others) == CountIn(attempts, some) + CountIn(attempts, others)
  {
    if attempts != [] {
      CountUnion(attempts[1..], some, others);
    }
  }

  lemma {:induction false} CountZero(attempts: seq<Attempt>, states: set<AttemptState>)
    ensures CountIn(attempts, states) == 0 <==> forall a <- attempts :: a.state !in states
  {
    if attempts != [] {
      CountZero(attempts[1..], states);
      assert attempts == [attempts[0]] + attempts[1..];
    }
  }

  /** The two views agree exactly when no attempt is between its send and its verification. */
  lemma AccountingViewsAgree(attempts: seq<Attempt>)
    ensures LiveAccounting(attempts) == DurableAccounting(attempts) <==>
            forall a <- attempts :: a.state !in MID_RUN_STATES
  {
    CountUnion(attempts, MID_RUN_STATES, {AcknowledgementUnknown});
    CountZero(attempts, MID_RUN_STATES);
  }

  // ----- attempt results -----

  datatype ArmOutcome = Success | Failure | Timeout | OutcomeCancelled
  datatype TurnStatus = Completed | Interrupted | TurnFailed | OtherStatus
  datatype Integrity = Intact | Compromised | Unavailable

  datatype RunResult = RunResult(
    passed: bool,
    adequate: bool,
    integrity: Option<Integrity>,
    outcome: ArmOutcome,
    turnStatus: TurnStatus,
    threadId: string,
    turnId: string)

  function ClassifyAttempt(result: RunResult): Option<FailureCause> {
    if result.passed && result.adequate && result.outcome == Success then None
    else if result.outcome == OutcomeCancelled || result.turnStatus == Interrupted then Some(UserStop)
    else if result.turnStatus != Completed || result.outcome == Timeout then Some(InfrastructureOrProtocol)
    else if result.integrity.Some? && result.integrity.value != Intact then Some(PolicyOrExternalState)
    else if !result.adequate then Some(TaskOrVerifierConfiguration)
    else Some(CandidateDefect)
  }

  /** The cause of an attempt, read off the fields of its result. */
  lemma CauseOnFields(result: RunResult)
    ensures var r, cause := result, ClassifyAttempt(result);
            var fine := r.passed && r.adequate && r.outcome == Success;
            var stopped := !fine && (r.outcome == OutcomeCancelled || r.turnStatus == Interrupted);
            var ran := r.turnStatus == Completed && r.outcome !in {Timeout, OutcomeCancelled};
            && (cause.None? <==> fine)
            && (cause == Some(UserStop) <==> stopped)
            && (cause == Some(InfrastructureOrProtocol) <==> !fine && !stopped && !ran)
            && (cause == Some(PolicyOrExternalState) <==>
                  !fine && ran && r.integrity in {Some(Compromised), Some(Unavailable)})
            && (cause == Some(TaskOrVerifierConfiguration) <==>
                  ran && r.integrity in {None, Some(Intact)} && !r.adequate)
            && (cause == Some(CandidateDefect) <==>
                  ran && r.integrity in {None, Some(Intact)} && r.adequate && !(r.passed && r.outcome == Success))
  {
  }

  function TerminalFor(cause: FailureCause): TerminalState {
    if cause == UserStop then Cancelled else Failed
  }

  // ----- durable traces -----

  datatype Event =
    | Replaced(run: RunId, record: Record)
    | TurnStart(run: RunId, ordinal: nat)

  function FilesAfter(init: Files, trace: seq<Event>): Files {
    if trace == [] then init
    else
      var before := FilesAfter(init, trace[..|trace| - 1]);
      match Last(trace)
      case Replaced(run, record) => before[run := Journal(record)]
      case TurnStart(_, _) => before
  }

  function Sends(trace: seq<Event>): set<(RunId, nat)> {
    set i | 0 <= i < |trace| && trace[i].TurnStart? :: (trace[i].run, trace[i].ordinal)
  }

  predicate QuietExcept(files: Files, run: RunId) {
    forall other <- files.Keys :: other != run ==> !files[other].Pending()
  }

  const SENT_STATES := {RequestSent, RemoteIdentityKnown, TurnTerminal, VerificationTerminal, AcknowledgementUnknown}

  /** The record owns up to the send of this ordinal. */
  predicate Accounted(record: Record, ordinal: nat) {
    && 1 <= ordinal <= |record.attempts|
    && record.attempts[ordinal - 1].state in SENT_STATES
    && record.attempts[ordinal - 1].transportRequests == 1
    && record.attempts[ordinal - 1].modelAttempts == 1
  }

  /** The record shows this ordinal as the send that is about to happen. */
  predicate Authorizes(record: Record, ordinal: nat) {
    && record.state == Sent
    && 1 <= ordinal == |record.attempts| <= MAXIMUM_ATTEMPTS
    && record.attempts[ordinal - 1].state == RequestSent
    && Accounted(record, ordinal)
  }

  /** An attempt counts at most one transport request, and a model attempt for it. */
  predicate CountsOnce(attempt: Attempt) {
    attempt.transportRequests == attempt.modelAttempts <= 1
  }

  /** What may become durable, or be sent, next. */
  ghost predicate Allowed(files: Files, sent: set<(RunId, nat)>, event: Event) {
    && QuietExcept(files, event.run)
    && match event
       case Replaced(run, record) =>
         && (run in files ==> files[run].Journal? && files[run].Pending())
         && (run !in files ==> record == FreshRecord(run))
         && |record.attempts| <= MAXIMUM_ATTEMPTS
         && (forall attempt <- record.attempts :: CountsOnce(attempt))
         && (forall k | (run, k) in sent :: Accounted(record, k))
       case TurnStart(run, ordinal) =>
         && run in files && files[run].Journal?
         && Authorizes(files[run].record, ordinal)
         && (run, ordinal) !in sent
  }

  ghost predicate Safe(init: Files, trace: seq<Event>) {
    trace == [] ||
    var before := trace[..|trace| - 1];
    Safe(init, before) && Allowed(FilesAfter(init, before), Sends(before), Last(trace))
  }

  /** A crash cuts a trace anywhere; what is left is still safe. */
  lemma {:induction false} SafePrefix(init: Files, trace: seq<Event>, cut: nat)
    requires Safe(init, trace) && cut <= |trace|
    ensures Safe(init, trace[..cut])
  {
    if cut == |trace| {
      assert trace[..cut] == trace;
    } else {
      SafePrefix(init, trace[..|trace| - 1], cut);
      assert trace[..|trace| - 1][..cut] == trace[..cut];
    }
  }

  lemma {:induction false} SendsSnoc(trace: seq<Event>)
    requires trace != []
    ensures Sends(trace) == Sends(trace[..|trace| - 1]) +
                            (if Last(trace).TurnStart? then {(Last(trace).run, Last(trace).ordinal)} else {})
  {
    var before := trace[..|trace| - 1];
    assert forall i | 0 <= i < |before| :: trace[i] == before[i];
  }

  /** Whatever was sent is owned up to by the record a later process would find. */
  lemma {:induction false} SendsAreAccounted(init: Files, trace: seq<Event>, run: RunId, ordinal: nat)
    requires Safe(init, trace)
    requires (run, ordinal) in Sends(trace)
    ensures run in FilesAfter(init, trace) && FilesAfter(init, trace)[run].Journal?
    ensures Accounted(FilesAfter(init, trace)[run].record, ordinal)
  {
    SendsSnoc(trace);
    var before := trace[..|trace| - 1];
    if (run, ordinal) in Sends(before) {
      SendsAreAccounted(init, before, run, ordinal);
    }
  }

  function SendCount(trace: seq<Event>, run: RunId): nat {
    if trace == [] then 0
    else SendCount(trace[..|trace| - 1], run) + (if Last(trace).TurnStart? && Last(trace).run == run then 1 else 0)
  }

  /** Sends of one run are sends of distinct ordinals, and there are two ordinals. */
  lemma {:induction false} AtMostTwoSends(init: Files, trace: seq<Event>, run: RunId)
    requires Safe(init, trace)
    ensures SendCount(trace, run) ==
              (if (run, 1) in Sends(trace) then 1 else 0) + (if (run, 2) in Sends(trace) then 1 else 0)
    ensures SendCount(trace, run) <= MAXIMUM_ATTEMPTS
  {
    if trace != [] {
      SendsSnoc(trace);
      AtMostTwoSends(init, trace[..|trace| - 1], run);
    }
  }

  lemma {:induction false} SumModelSplit(attempts: seq<Attempt>, ordinal: nat)
    requires 1 <= ordinal <= |attempts|
    ensures SumModel(attempts) >= attempts[ordinal - 1].modelAttempts
    ensures ordinal == 2 ==> SumModel(attempts) >= attempts[0].modelAttempts + attempts[1].modelAttempts
  {
    if ordinal > 1 {
      SumModelSplit(attempts[1..], ordinal - 1);
    }
  }

  /** No crash point under-reports: the durable model-attempt count covers every send of the run. */
  lemma SendsWithinDurableCount(init: Files, trace: seq<Event>, run: RunId)
    requires Safe(init, trace)
    requires SendCount(trace, run) > 0
    ensures run in FilesAfter(init, trace) && FilesAfter(init, trace)[run].Journal?
    ensures SendCount(trace, run) <= SumModel(FilesAfter(init, trace)[run].record.attempts)
  {
    AtMostTwoSends(init, trace, run);
    var ordinal := if (run, 2) in Sends(trace) then 2 else 1;
    SendsAreAccounted(init, trace, run, ordinal);
    if (run, 1) in Sends(trace) {
      SendsAreAccounted(init, trace, run, 1);
    }
    SumModelSplit(FilesAfter(init, trace)[run].record.attempts, ordinal);
  }

  lemma {:induction false} DurableCountsOnce(init: Files, trace: seq<Event>, run: RunId)
    requires Safe(init, trace) && run !in init && run in FilesAfter(init, trace)
    ensures FilesAfter(init, trace)[run].Journal?
    ensures var attempts := FilesAfter(init, trace)[run].record.attempts;
            |attempts| <= MAXIMUM_ATTEMPTS && forall attempt <- attempts :: CountsOnce(attempt)
  {
    if !(Last(trace).Replaced? && Last(trace).run == run) {
      DurableCountsOnce(init, trace[..|trace| - 1], run);
    }
  }

  lemma {:induction false} SumModelBounded(attempts: seq<Attempt>)
    requires forall attempt <- attempts :: CountsOnce(attempt)
    ensures SumModel(attempts) <= |attempts|
  {
    if attempts != [] {
      assert CountsOnce(attempts[0]);
      SumModelBounded(attempts[1..]);
    }
  }

  lemma {:induction false} ReplacedIsFound(init: Files, trace: seq<Event>, run: RunId)
    requires run !in init
    requires run in FilesAfter(init, trace)
    ensures exists j :: 0 <= j < |trace| && trace[j].Replaced? && trace[j].run == run &&
                        FilesAfter(init, trace)[run] == Journal(trace[j].record) &&
                        forall m | j < m < |trace| :: trace[m].Replaced? ==> trace[m].run != run
  {
    var last := |trace| - 1;
    if Last(trace).Replaced? && Last(trace).run == run {
      assert trace[last].Replaced?;
    } else {
      ReplacedIsFound(init, trace[..last], run);
      var j :| 0 <= j < last && trace[..last][j].Replaced? && trace[..last][j].run == run &&
               FilesAfter(init, trace[..last])[run] == Journal(trace[..last][j].record) &&
               forall m | j < m < last :: trace[..last][m].Replaced? ==> trace[..last][m].run != run;
      assert trace[j].Replaced? && trace[j].run == run;
      forall m | j < m < |trace| && trace[m].Replaced? ensures trace[m].run != run {
        if m < last {
          assert trace[..last][m] == trace[m];
        }
      }
    }
  }

  /** Every send is preceded by the durable record that authorizes it, with no later record in between. */
  lemma {:induction false} SendFollowsDurableAuthorization(init: Files, trace: seq<Event>, i: nat)
    requires Safe(init, trace)
    requires i < |trace| && trace[i].TurnStart? && trace[i].run !in init
    ensures exists j :: 0 <= j < i && trace[j].Replaced? && trace[j].run == trace[i].run &&
                        Authorizes(trace[j].record, trace[i].ordinal) &&
                        forall m | j < m < i :: trace[m].Replaced? ==> trace[m].run != trace[i].run
  {
    SafePrefix(init, trace, i + 1);
    assert trace[..i + 1][..i] == trace[..i];
    ReplacedIsFound(init, trace[..i], trace[i].run);
    var j :| 0 <= j < i && trace[..i][j].Replaced? && trace[..i][j].run == trace[i].run &&
             FilesAfter(init, trace[..i])[trace[i].run] == Journal(trace[..i][j].record) &&
             forall m | j < m < i :: trace[..i][m].Replaced? ==> trace[..i][m].run != trace[i].run;
    assert forall m | j <= m < i :: trace[m] == trace[..i][m];
  }
}
