/** The attempt journal and the controller, as they run against one journal root. */
module VgclController {
  import opened Common
  import opened Order
  import opened Routes
  import opened Vgcl
  import CapabilityGraph
  import JsonRpc
  import StrictSuccessor
  import TurnExecutor

  /** The journal directory. `init` is its content when observation starts. */
  class JournalRoot {
    var files: Files
    var locks: set<RunId>
    ghost const init: Files
    ghost var trace: seq<Event>
    /** How many persists have not returned normally. */
    ghost var faults: nat
    /** What the connections of the executed attempts wrote, by run and ordinal. */
    ghost var wires: map<(RunId, nat), seq<JsonRpc.Frame>>

    ghost predicate Valid()
      reads this
    {
      && Safe(init, trace) && files == FilesAfter(init, trace)
      && (forall key <- wires ::
            key.0 in files && TurnExecutor.TurnStarts(wires[key]) <= if key in Sends(trace) then 1 else 0)
    }

    lemma FilesAreReplayed()
      requires Valid()
      ensures files == FilesAfter(init, trace)
    {
    }

    constructor (files: Files)
      ensures Valid() && this.files == files == init && trace == [] && locks == {}
    {
      this.files := files;
      locks := {};
      init := files;
      trace := [];
      faults := 0;
      wires := map[];
    }

    /** One atomic replacement of a record. A failure, or a crash, may come before or after it takes effect. */
    method Replace(run: RunId, record: Record) returns (status: Status)
      requires Valid() && Allowed(files, Sends(trace), Replaced(run, record))
      modifies `files, `trace, `faults
      ensures Valid()
      ensures faults == old(faults) + if status.Done? then 0 else 1
      ensures trace == old(trace) || trace == old(trace) + [Replaced(run, record)]
      ensures status.Done? ==> trace == old(trace) + [Replaced(run, record)]
      ensures files == if trace == old(trace) then old(files) else old(files)[run := Journal(record)]
      ensures Sends(trace) == old(Sends(trace))
    {
      var takesEffect: bool := *;
      status := *;
      faults := faults + if status.Done? then 0 else 1;
      if takesEffect || status.Done? {
        ReplaceKeepsSafe(init, trace, run, record);
        trace := trace + [Replaced(run, record)];
        files := files[run := Journal(record)];
      }
    }

    /** A turn/start request leaves for the App Server. */
    method Send(run: RunId, ordinal: nat)
      requires Valid() && Allowed(files, Sends(trace), TurnStart(run, ordinal))
      modifies `trace
      ensures Valid() && trace == old(trace) + [TurnStart(run, ordinal)]
      ensures Sends(trace) == old(Sends(trace)) + {(run, ordinal)}
    {
      trace := trace + [TurnStart(run, ordinal)];
    }

    /** Notes down what the connection of an attempt wrote. */
    ghost method Observe(key: (RunId, nat), frames: seq<JsonRpc.Frame>)
      requires Valid() && key.0 in files && key !in wires
      requires TurnExecutor.TurnStarts(frames) <= if key in Sends(trace) then 1 else 0
      modifies `wires
      ensures Valid() && wires == old(wires)[key := frames]
    {
      wires := wires[key := frames];
    }
  }

  /** What an attempt's connection wrote. */
  ghost function WireOf(root: JournalRoot, key: (RunId, nat)): seq<JsonRpc.Frame>
    reads root
  {
    if key in root.wires then root.wires[key] else []
  }

  lemma ReplaceKeepsSafe(init: Files, trace: seq<Event>, run: RunId, record: Record)
    requires Safe(init, trace) && Allowed(FilesAfter(init, trace), Sends(trace), Replaced(run, record))
    ensures Safe(init, trace + [Replaced(run, record)])
    ensures FilesAfter(init, trace + [Replaced(run, record)]) == FilesAfter(init, trace)[run := Journal(record)]
    ensures Sends(trace + [Replaced(run, record)]) == Sends(trace)
  {
    var longer := trace + [Replaced(run, record)];
    assert longer[..|longer| - 1] == trace;
    SendsSnoc(longer);
  }

  datatype Pending = Pending(path: RunId, runId: RunId, accounting: Accounting)

  function PendingOf(path: RunId, file: File): Pending
    requires file.Pending()
  {
    Pending(path, if file.Journal? then file.record.runId else "unknown", FileAccounting(file))
  }

  /** Journals lie in one directory, so their paths compare as their file names. */
  function FileName(path: RunId): string {
    path + ".json"
  }

  ghost function FileNames(files: Files): set<string> {
    set path | path in files.Keys :: FileName(path)
  }

  lemma NamedFile(files: Files, name: string)
    requires name in FileNames(files)
    ensures |name| >= |".json"| && FileName(name[..|name| - |".json"|]) == name && name[..|name| - |".json"|] in files
  {
    var path :| path in files && FileName(path) == name;
    assert name[..|name| - |".json"|] == path;
  }

  lemma SameFile(path: RunId, other: RunId)
    requires FileName(path) == FileName(other)
    ensures path == other
  {
    assert path == FileName(path)[..|FileName(path)| - |".json"|];
    assert other == FileName(other)[..|FileName(other)| - |".json"|];
  }

  /** No file with one of these names is unresolved. */
  ghost predicate NonePending(files: Files, names: seq<string>) {
    forall path <- files.Keys | FileName(path) in names :: !files[path].Pending()
  }

  lemma OneMoreLooked(files: Files, names: seq<string>, i: nat, path: RunId)
    requires i < |names| && NonePending(files, names[..i])
    requires path in files && FileName(path) == names[i] && !files[path].Pending()
    ensures NonePending(files, names[..i + 1])
  {
    assert names[..i + 1] == names[..i] + [names[i]];
    forall other <- files.Keys | FileName(other) in names[..i + 1] ensures !files[other].Pending() {
      if FileName(other) == names[i] {
        SameFile(path, other);
      }
    }
  }

  lemma NoneEarlier(files: Files, names: seq<string>, i: nat)
    requires i < |names| && NonePending(files, names[..i])
    requires forall j, k | 0 <= j < k < |names| :: Less(names[j], names[k])
    requires forall name :: name in names <==> name in FileNames(files)
    ensures forall path <- files.Keys | Less(FileName(path), names[i]) :: !files[path].Pending()
  {
    hide Less;
    forall path <- files.Keys | Less(FileName(path), names[i]) ensures !files[path].Pending() {
      assert FileName(path) in FileNames(files);
      LessStandsBefore(names, i, FileName(path));
    }
  }

  lemma AllLooked(files: Files, names: seq<string>)
    requires NonePending(files, names[..|names|])
    requires forall name :: name in names <==> name in FileNames(files)
    ensures !AnyPending(files)
  {
    assert names[..|names|] == names;
    forall path <- files.Keys ensures !files[path].Pending() {
      assert FileName(path) in FileNames(files);
    }
  }

  /** The first unresolved record in the order of the file names, if there is one. */
  method FindPending(root: JournalRoot) returns (pending: Option<Pending>)
    ensures pending.None? <==> !AnyPending(root.files)
    ensures pending.Some? ==>
              && pending.value.path in root.files && root.files[pending.value.path].Pending()
              && pending.value == PendingOf(pending.value.path, root.files[pending.value.path])
              && forall path <- root.files.Keys | Less(FileName(path), FileName(pending.value.path)) ::
                   !root.files[path].Pending()
  {
    var names := SortKeys(set path | path in root.files.Keys :: FileName(path));
    assert names == Sorted(FileNames(root.files));
    SortedListsTheSet(FileNames(root.files));
    assert NonePending(root.files, names[..0]);
    hide Less, Sorted, FileNames, FileName, NonePending;
    for i := 0 to |names|
      invariant NonePending(root.files, names[..i])
    {
      NamedFile(root.files, names[i]);
      var path := names[i][..|names[i]| - |".json"|];
      if root.files[path].Pending() {
        NoneEarlier(root.files, names, i);
        return Some(PendingOf(path, root.files[path]));
      }
      OneMoreLooked(root.files, names, i, path);
    }
    AllLooked(root.files, names);
    return None;
  }

  /** Between the two traces only records of this run were replaced. */
  ghost predicate Replacements(before: seq<Event>, after: seq<Event>, run: RunId) {
    before <= after && forall i | |before| <= i < |after| :: after[i].Replaced? && after[i].run == run
  }

  lemma ReplacementsExtend(before: seq<Event>, after: seq<Event>, run: RunId)
    requires Replacements(before, after, run)
    ensures Extends(before, after, run)
  {
  }

  lemma ReplacementsTwice(before: seq<Event>, between: seq<Event>, after: seq<Event>, run: RunId)
    requires Replacements(before, between, run) && Replacements(between, after, run)
    ensures Replacements(before, after, run)
  {
  }

  class AttemptJournal {
    const root: JournalRoot
    const run: RunId
    var record: Record
    var closed: bool

    /** The in-memory record may be ahead of the durable one, but never behind what was sent. */
    ghost predicate Valid()
      reads this, root
    {
      && root.Valid()
      && record.runId == run
      && |record.attempts| <= MAXIMUM_ATTEMPTS
      && (forall i | 0 <= i < |record.attempts| ::
            record.attempts[i].ordinal == i + 1 && CountsOnce(record.attempts[i]))
      && QuietExcept(root.files, run)
      && run in root.files && root.files[run].Journal?
      && (!root.files[run].Pending() ==> record.state == RunTerminal)
      && (forall k | (run, k) in Sends(root.trace) :: Accounted(record, k))
      && (forall k | (run, k) in root.wires :: k <= |record.attempts|)
    }

    lemma Rooted()
      requires Valid()
      ensures root.Valid() && record.runId == run
    {
    }

    ghost predicate Durable()
      reads this, root
    {
      run in root.files && root.files[run] == Journal(record)
    }

    /** Only this run's record may have been replaced, and nothing was sent. */
    twostate predicate OnlyReplaces()
      reads this, root
    {
      Replacements(old(root.trace), root.trace, run)
    }

    /** Takes the run's lock and makes a planned record durable. */
    constructor Open(root: JournalRoot, run: RunId)
      requires root.Valid() && run !in root.files && QuietExcept(root.files, run)
      ensures this.root == root && this.run == run && record == FreshRecord(run) && !closed
    {
      this.root := root;
      this.run := run;
      record := FreshRecord(run);
      closed := false;
    }

    method Persist() returns (status: Status)
      requires Valid() && root.files[run].Pending()
      modifies root`files, root`trace, root`faults
      ensures Valid() && OnlyReplaces()
      ensures status.Done? ==> Durable()
      ensures Durable() || root.files == old(root.files)
      ensures root.faults == old(root.faults) + if status.Done? then 0 else 1
      ensures Sends(root.trace) == old(Sends(root.trace))
    {
      status := root.Replace(run, record);
    }

    method Reserve(policy: Candidate) returns (status: Status, ordinal: nat)
      requires Valid()
      modifies this`record, root`files, root`trace, root`faults
      ensures Valid() && OnlyReplaces()
      ensures Sends(root.trace) == old(Sends(root.trace))
      ensures |old(record).attempts| >= MAXIMUM_ATTEMPTS || old(record).state in {NeedsReconciliation, RunTerminal} ==>
                status.Threw? && record == old(record) && root.trace == old(root.trace)
      ensures |old(record).attempts| < MAXIMUM_ATTEMPTS && old(record).state !in {NeedsReconciliation, RunTerminal} ==>
                && ordinal == |old(record).attempts| + 1
                && record == old(record).(state := Reserved, attempts := old(record).attempts +
                               [Attempt(ordinal, policy, AttemptReserved, 0, 0, None, None, None)])
      ensures status.Done? ==> Durable() && (run, ordinal) !in Sends(root.trace) && (run, ordinal) !in root.wires
      ensures root.faults >= old(root.faults)
      ensures root.faults == old(root.faults) ==>
                (status.Done? <==>
                   && |old(record).attempts| < MAXIMUM_ATTEMPTS
                   && old(record).state !in {NeedsReconciliation, RunTerminal})
    {
      ordinal := 0;
      if |record.attempts| >= MAXIMUM_ATTEMPTS || record.state in {NeedsReconciliation, RunTerminal} {
        return Threw, 0;
      }
      ordinal := |record.attempts| + 1;
      var attempt := Attempt(ordinal, policy, AttemptReserved, 0, 0, None, None, None);
      record := record.(attempts := record.attempts + [attempt], state := Reserved);
      status := Persist();
    }

    method MarkRequestSent(ordinal: nat) returns (status: Status)
      requires Valid() && record.state != RunTerminal
      requires 1 <= ordinal <= |record.attempts| ==>
                 record.attempts[ordinal - 1].transportRequests == record.attempts[ordinal - 1].modelAttempts == 0
      modifies this`record, root`files, root`trace, root`faults
      ensures Valid() && OnlyReplaces()
      ensures Sends(root.trace) == old(Sends(root.trace))
      ensures !(1 <= ordinal <= |old(record).attempts|) ==>
                status.Threw? && record == old(record) && root.trace == old(root.trace)
      ensures 1 <= ordinal <= |old(record).attempts| ==>
                var attempt := old(record).attempts[ordinal - 1];
                record == old(record).(state := Sent, attempts := old(record).attempts[ordinal - 1 :=
                            attempt.(state := RequestSent, transportRequests := 1, modelAttempts := 1)])
      ensures status.Done? ==> Durable()
      ensures root.faults >= old(root.faults)
      ensures root.faults == old(root.faults) ==> (status.Done? <==> 1 <= ordinal <= |old(record).attempts|)
    {
      if !(1 <= ordinal <= |record.attempts|) {
        return Threw;
      }
      var attempt := record.attempts[ordinal - 1];
      attempt := attempt.(state := RequestSent,
                          transportRequests := attempt.transportRequests + 1,
                          modelAttempts := attempt.modelAttempts + 1);
      record := record.(attempts := record.attempts[ordinal - 1 := attempt], state := Sent);
      status := Persist();
    }

    /** The start request of an attempt whose send is durable leaves. */
    method Send(ordinal: nat)
      requires Valid() && Durable() && Authorizes(record, ordinal) && (run, ordinal) !in Sends(root.trace)
      modifies root`trace
      ensures Valid() && Durable()
      ensures Extends(old(root.trace), root.trace, run)
      ensures Sends(root.trace) == old(Sends(root.trace)) + {(run, ordinal)}
    {
      hide Safe, FilesAfter, Sends;
      root.Send(run, ordinal);
    }

    /** Notes down what the connection of an attempt wrote. */
    ghost method Observe(ordinal: nat, frames: seq<JsonRpc.Frame>)
      requires Valid() && ordinal <= |record.attempts| && (run, ordinal) !in root.wires
      requires TurnExecutor.TurnStarts(frames) <= if (run, ordinal) in Sends(root.trace) then 1 else 0
      modifies root`wires
      ensures Valid() && root.wires == old(root.wires)[(run, ordinal) := frames]
      ensures Keeps(old(root.wires), root.wires)
    {
      hide Safe, FilesAfter, Sends, QuietExcept, CountsOnce, Accounted;
      root.Observe((run, ordinal), frames);
    }

    method MarkPreSendFailure(ordinal: nat) returns (status: Status)
      requires Valid() && record.state != RunTerminal
      requires (run, ordinal) !in Sends(root.trace)
      modifies this`record, root`files, root`trace, root`faults
      ensures Valid() && OnlyReplaces()
      ensures Sends(root.trace) == old(Sends(root.trace))
      ensures !(1 <= ordinal <= |old(record).attempts|) ==>
                status.Threw? && record == old(record) && root.trace == old(root.trace)
      ensures 1 <= ordinal <= |old(record).attempts| ==>
                var attempt := old(record).attempts[ordinal - 1];
                record == old(record).(attempts := old(record).attempts[ordinal - 1 := attempt.(
                            state := PreSendFailed, transportRequests := 0, modelAttempts := 0,
                            failureCause := Some(InfrastructureOrProtocol))])
      ensures status.Done? ==> Durable()
      ensures root.faults >= old(root.faults)
      ensures root.faults == old(root.faults) ==> (status.Done? <==> 1 <= ordinal <= |old(record).attempts|)
    {
      if !(1 <= ordinal <= |record.attempts|) {
        return Threw;
      }
      var attempt := record.attempts[ordinal - 1].(state := PreSendFailed, transportRequests := 0, modelAttempts := 0,
                                                   failureCause := Some(InfrastructureOrProtocol));
      record := record.(attempts := record.attempts[ordinal - 1 := attempt]);
      status := Persist();
    }

    /** The attempt as the journal leaves it once its result is in. */
    static function Settled(attempt: Attempt, result: RunResult): Attempt {
      attempt.(state := VerificationTerminal,
               threadId := if result.threadId == "" then attempt.threadId else Some(result.threadId),
               turnId := if result.threadId == "" then attempt.turnId else Some(result.turnId),
               failureCause := if ClassifyAttempt(result).None? then attempt.failureCause else ClassifyAttempt(result))
    }

    /** Rewrites an attempt that has been sent, and persists. */
    method Advance(ordinal: nat, attempt: Attempt) returns (status: Status)
      requires Valid() && record.state != RunTerminal
      requires 1 <= ordinal <= |record.attempts| && attempt.ordinal == ordinal
      requires attempt.state in SENT_STATES && attempt.transportRequests == attempt.modelAttempts == 1
      modifies this`record, root`files, root`trace, root`faults
      ensures Valid() && OnlyReplaces()
      ensures Sends(root.trace) == old(Sends(root.trace))
      ensures record == old(record).(attempts := old(record).attempts[ordinal - 1 := attempt])
      ensures status.Done? ==> Durable()
      ensures root.faults == old(root.faults) + if status.Done? then 0 else 1
    {
      record := record.(attempts := record.attempts[ordinal - 1 := attempt]);
      status := Persist();
    }

    method MarkTerminal(ordinal: nat, result: RunResult) returns (status: Status)
      requires Valid() && record.state != RunTerminal
      requires 1 <= ordinal <= |record.attempts| && Accounted(record, ordinal)
      modifies this`record, root`files, root`trace, root`faults
      ensures Valid() && OnlyReplaces()
      ensures Sends(root.trace) == old(Sends(root.trace))
      ensures |record.attempts| == |old(record).attempts| && Accounted(record, ordinal)
      ensures record == old(record).(attempts := old(record).attempts[ordinal - 1 := record.attempts[ordinal - 1]])
      ensures record.attempts[ordinal - 1].policy == old(record).attempts[ordinal - 1].policy
      ensures status.Done? ==>
                Durable() && record.attempts[ordinal - 1] == Settled(old(record).attempts[ordinal - 1], result)
      ensures root.faults == old(root.faults) + if status.Done? then 0 else 1
    {
      var attempt := record.attempts[ordinal - 1];
      assert attempt.ordinal == ordinal;
      hide Valid, Safe, FilesAfter, Sends, Replacements;
      if result.threadId != "" {
        attempt := attempt.(threadId := Some(result.threadId), turnId := Some(result.turnId),
                            state := RemoteIdentityKnown);
        status := Advance(ordinal, attempt);
        if !status.Done? {
          return;
        }
      }
      label Identified:
      status := EndAttempt(ordinal, attempt, ClassifyAttempt(result));
      ReplacementsTwice(old(root.trace), old@Identified(root.trace), root.trace, run);
    }

    /** The turn is over, and then its verification. */
    method EndAttempt(ordinal: nat, attempt: Attempt, cause: Option<FailureCause>) returns (status: Status)
      requires Valid() && record.state != RunTerminal
      requires 1 <= ordinal <= |record.attempts| && attempt.ordinal == ordinal
      requires attempt.transportRequests == attempt.modelAttempts == 1
      modifies this`record, root`files, root`trace, root`faults
      ensures Valid() && OnlyReplaces()
      ensures Sends(root.trace) == old(Sends(root.trace))
      ensures |record.attempts| == |old(record).attempts| && Accounted(record, ordinal)
      ensures record == old(record).(attempts := old(record).attempts[ordinal - 1 := record.attempts[ordinal - 1]])
      ensures record.attempts[ordinal - 1].policy == attempt.policy
      ensures status.Done? ==>
                && Durable()
                && record.attempts[ordinal - 1] == attempt.(state := VerificationTerminal,
                     failureCause := if cause.None? then attempt.failureCause else cause)
      ensures root.faults == old(root.faults) + if status.Done? then 0 else 1
    {
      hide Valid, Safe, FilesAfter, Sends, Replacements;
      status := Advance(ordinal, attempt.(state := TurnTerminal));
      if !status.Done? {
        return;
      }
      label Over:
      status := Advance(ordinal, attempt.(state := VerificationTerminal,
                                          failureCause := if cause.None? then attempt.failureCause else cause));
      ReplacementsTwice(old(root.trace), old@Over(root.trace), root.trace, run);
    }

    method MarkAcknowledgementUnknown(ordinal: nat) returns (status: Status)
      requires Valid() && record.state != RunTerminal
      requires 1 <= ordinal <= |record.attempts| && Accounted(record, ordinal)
      modifies this`record, root`files, root`trace, root`faults
      ensures Valid() && OnlyReplaces()
      ensures Sends(root.trace) == old(Sends(root.trace))
      ensures record == old(record).(state := NeedsReconciliation, attempts := old(record).attempts[ordinal - 1 :=
                                       old(record).attempts[ordinal - 1].(state := AcknowledgementUnknown,
                                       failureCause := Some(InfrastructureOrProtocol))])
      ensures status.Done? ==> Durable()
      ensures root.faults == old(root.faults) + if status.Done? then 0 else 1
    {
      var attempt := record.attempts[ordinal - 1].(state := AcknowledgementUnknown,
                                                   failureCause := Some(InfrastructureOrProtocol));
      record := record.(attempts := record.attempts[ordinal - 1 := attempt], state := NeedsReconciliation);
      status := Persist();
    }

    method Finish(terminal: TerminalState) returns (status: Status)
      requires Valid() && record.state != RunTerminal
      modifies this`record, root`files, root`trace, root`faults
      ensures Valid() && OnlyReplaces()
      ensures Sends(root.trace) == old(Sends(root.trace))
      ensures record ==
                old(record).(state := if terminal == ReconciliationRequired then NeedsReconciliation else RunTerminal,
                                     terminalState := Some(terminal))
      ensures status.Done? ==> Durable()
      ensures root.faults == old(root.faults) + if status.Done? then 0 else 1
    {
      record := record.(state := if terminal == ReconciliationRequired then NeedsReconciliation else RunTerminal,
                        terminalState := Some(terminal));
      status := Persist();
    }

    method Close()
      modifies this`closed, root`locks
      ensures closed
      ensures root.locks == if old(closed) then old(root.locks) else old(root.locks) - {run}
    {
      if closed {
        return;
      }
      closed := true;
      root.locks := root.locks - {run};
    }
  }

  lemma NothingSentYet(init: Files, trace: seq<Event>, run: RunId)
    requires Safe(init, trace) && run !in FilesAfter(init, trace)
    ensures forall k :: (run, k) !in Sends(trace)
  {
    forall k | (run, k) in Sends(trace) ensures false {
      SendsAreAccounted(init, trace, run, k);
    }
  }

  /** Takes the run's lock and makes a planned record durable. */
  method Create(root: JournalRoot, run: RunId) returns (status: Status, journal: AttemptJournal?)
    requires root.Valid() && run !in root.files && QuietExcept(root.files, run)
    modifies root
    ensures root.Valid() && Grows(root, run)
    ensures Sends(root.trace) == old(Sends(root.trace)) && root.wires == old(root.wires)
    ensures status.Done? ==>
              && journal != null && fresh(journal) && journal.root == root && journal.run == run
              && journal.Valid() && journal.Durable() && journal.record == FreshRecord(run) && !journal.closed
    ensures status.Threw? && run !in old(root.locks) ==> run !in root.locks
    ensures root.locks <= old(root.locks) + {run}
    ensures root.faults >= old(root.faults)
    ensures root.faults == old(root.faults) ==> (status.Done? <==> run !in old(root.locks))
  {
    hide Safe, FilesAfter, Sends;
    if run in root.locks {
      return Threw, null;
    }
    root.locks := root.locks + {run};
    journal := new AttemptJournal.Open(root, run);
    NothingSentYet(root.init, root.trace, run);
    status := root.Replace(run, journal.record);
    if status.Threw? {
      root.locks := root.locks - {run};
    }
  }

  /** Every new event is about this run, and nothing that was noted down is forgotten. */
  twostate predicate Grows(root: JournalRoot, run: RunId)
    reads root
  {
    Extends(old(root.trace), root.trace, run) && Keeps(old(root.wires), root.wires)
  }

  ghost predicate Extends(before: seq<Event>, after: seq<Event>, run: RunId) {
    before <= after && forall i | |before| <= i < |after| :: after[i].run == run
  }

  ghost predicate Keeps<K, V>(before: map<K, V>, after: map<K, V>) {
    forall key <- before :: key in after && after[key] == before[key]
  }

  /** Whatever was sent, the frames of its connection are noted down. */
  ghost predicate SendsNoted(sends: set<(RunId, nat)>, wires: map<(RunId, nat), seq<JsonRpc.Frame>>) {
    forall key <- sends :: key in wires
  }

  /** The frames of the connections of a run's attempts are noted down, sent or not. */
  ghost predicate AttemptsNoted(run: RunId, attempts: nat, wires: map<(RunId, nat), seq<JsonRpc.Frame>>) {
    forall ordinal: nat | 1 <= ordinal <= attempts :: (run, ordinal) in wires
  }

  lemma OneMoreNoted(run: RunId, ordinal: nat, before: set<(RunId, nat)>, noted: map<(RunId, nat), seq<JsonRpc.Frame>>,
                     after: set<(RunId, nat)>, wires: map<(RunId, nat), seq<JsonRpc.Frame>>)
    requires Keeps(noted, wires) && after <= before + {(run, ordinal)} && (run, ordinal) in wires
    ensures SendsNoted(before, noted) ==> SendsNoted(after, wires)
    ensures ordinal > 0 && AttemptsNoted(run, ordinal - 1, noted) ==> AttemptsNoted(run, ordinal, wires)
  {
  }

  lemma NoAttempts(run: RunId, wires: map<(RunId, nat), seq<JsonRpc.Frame>>)
    ensures AttemptsNoted(run, 0, wires)
  {
  }

  lemma ExtendsNowhere(trace: seq<Event>, run: RunId)
    ensures Extends(trace, trace, run)
  {
  }

  lemma KeepsAll<K, V>(before: map<K, V>)
    ensures Keeps(before, before)
  {
  }

  /** Two stretches of a run make one. */
  lemma ExtendsTwice(before: seq<Event>, between: seq<Event>, after: seq<Event>, run: RunId)
    requires Extends(before, between, run) && Extends(between, after, run)
    ensures Extends(before, after, run)
  {
  }

  lemma KeepsTwice<K, V>(before: map<K, V>, between: map<K, V>, after: map<K, V>)
    requires Keeps(before, between) && Keeps(between, after)
    ensures Keeps(before, after)
  {
  }

  /** How an executor ends once it has, or has not, passed the hook. */
  datatype Ending = Returns(result: RunResult) | Throws | Dies

  /**
   What the executor of an attempt goes through: the events on its connection and its turn, before and after it calls
   the hook, if it calls it at all. It issues the start request exactly if the hook returns.
   */
  datatype Execution = Execution(
    context: TurnExecutor.Context,
    before: seq<TurnExecutor.Event>,
    issue: Option<TurnExecutor.Issue>,
    after: seq<TurnExecutor.Event>,
    ending: Ending)

  /** What a reserved attempt leaves in the journal. */
  predicate LeavesAttempt(before: Record, after: Record, policy: Candidate, state: AttemptState, count: nat) {
    && |after.attempts| == |before.attempts| + 1
    && after.attempts[..|before.attempts|] == before.attempts
    && Last(after.attempts).policy == policy
    && Last(after.attempts).state == state
    && Last(after.attempts).transportRequests == Last(after.attempts).modelAttempts == count
  }

  method RunReservedAttempt(journal: AttemptJournal, policy: Candidate, execution: Execution)
    returns (status: Status, result: Option<RunResult>, terminal: TerminalState)
    requires journal.Valid()
    modifies journal`record, journal.root`files, journal.root`trace, journal.root`faults, journal.root`wires
    ensures journal.Valid() && Grows(journal.root, journal.run)
    ensures journal.root.Valid() && journal.record.runId == journal.run
    ensures Sends(journal.root.trace) <=
              old(Sends(journal.root.trace)) + {(journal.run, |old(journal.record).attempts| + 1)}
    ensures old(SendsNoted(Sends(journal.root.trace), journal.root.wires)) ==>
              SendsNoted(Sends(journal.root.trace), journal.root.wires)
    ensures status.Done? && old(AttemptsNoted(journal.run, |journal.record.attempts|, journal.root.wires)) ==>
              AttemptsNoted(journal.run, |journal.record.attempts|, journal.root.wires)
    ensures status.Done? ==> journal.Durable()
    ensures journal.root.faults >= old(journal.root.faults)
    ensures journal.root.faults == old(journal.root.faults) && !execution.ending.Dies? &&
            |old(journal.record).attempts| < MAXIMUM_ATTEMPTS &&
            old(journal.record).state !in {NeedsReconciliation, RunTerminal} ==>
              status.Done? && (result.Some? <==> execution.issue.Some? && execution.ending.Returns?)
    ensures status.Done? && result.Some? ==>
              && execution.issue.Some? && execution.ending == Returns(result.value)
              && journal.record.state == Sent
              && LeavesAttempt(old(journal.record), journal.record, policy, VerificationTerminal, 1)
              && Carries(Last(journal.record.attempts), result.value)
    ensures status.Done? && result.None? ==>
              && journal.record.terminalState == Some(terminal)
              && |journal.record.attempts| > 0
              && Last(journal.record.attempts).failureCause == Some(InfrastructureOrProtocol)
              && (|| (terminal == Failed && journal.record.state == RunTerminal &&
                      LeavesAttempt(old(journal.record), journal.record, policy, PreSendFailed, 0) &&
                      Sends(journal.root.trace) == old(Sends(journal.root.trace)))
                  || (terminal == ReconciliationRequired && journal.record.state == NeedsReconciliation &&
                      LeavesAttempt(old(journal.record), journal.record, policy, AcknowledgementUnknown, 1)))
  {
    hide Safe, FilesAfter, Sends, AttemptJournal.Valid, Replacements, Extends, Keeps, SendsNoted, AttemptsNoted;
    result, terminal := None, Failed;
    journal.Rooted();
    var ordinal;
    status, ordinal := journal.Reserve(policy);
    ReplacementsExtend(old(journal.root.trace), journal.root.trace, journal.run);
    KeepsAll(journal.root.wires);
    if !status.Done? {
      journal.Rooted();
      return;
    }
    label Reserved:
    status, result, terminal := ExecuteReserved(journal, ordinal, execution);
    journal.Rooted();
    OneMoreNoted(journal.run, ordinal, old(Sends(journal.root.trace)), old(journal.root.wires),
                 Sends(journal.root.trace), journal.root.wires);
    ExtendsTwice(old(journal.root.trace), old@Reserved(journal.root.trace), journal.root.trace, journal.run);
  }

  /** The executor runs on the reserved attempt, and its outcome is recorded. */
  method ExecuteReserved(journal: AttemptJournal, ordinal: nat, execution: Execution)
    returns (status: Status, result: Option<RunResult>, terminal: TerminalState)
    requires journal.Valid() && journal.record.state == Reserved
    requires 1 <= ordinal == |journal.record.attempts|
    requires Last(journal.record.attempts).state == AttemptReserved
    requires Last(journal.record.attempts).transportRequests == Last(journal.record.attempts).modelAttempts == 0
    requires Blank(Last(journal.record.attempts))
    requires (journal.run, ordinal) !in Sends(journal.root.trace) && (journal.run, ordinal) !in journal.root.wires
    modifies journal`record, journal.root`files, journal.root`trace, journal.root`faults, journal.root`wires
    ensures journal.Valid() && Grows(journal.root, journal.run)
    ensures Sends(journal.root.trace) <= old(Sends(journal.root.trace)) + {(journal.run, ordinal)}
    ensures (journal.run, ordinal) in journal.root.wires
    ensures journal.root.faults >= old(journal.root.faults)
    ensures journal.root.faults == old(journal.root.faults) && !execution.ending.Dies? ==>
              status.Done? && (result.Some? <==> execution.issue.Some? && execution.ending.Returns?)
    ensures status.Done? ==>
              && journal.Durable() && |journal.record.attempts| == ordinal
              && journal.record.attempts[..ordinal - 1] == old(journal.record).attempts[..ordinal - 1]
              && Last(journal.record.attempts).policy == Last(old(journal.record).attempts).policy
              && Last(journal.record.attempts).transportRequests == Last(journal.record.attempts).modelAttempts
    ensures status.Done? && result.Some? ==>
              && execution.issue.Some? && execution.ending == Returns(result.value)
              && journal.record.state == Sent
              && Last(journal.record.attempts).state == VerificationTerminal
              && Last(journal.record.attempts).modelAttempts == 1
              && Carries(Last(journal.record.attempts), result.value)
    ensures status.Done? && result.None? ==>
              && journal.record.terminalState == Some(terminal)
              && Last(journal.record.attempts).failureCause == Some(InfrastructureOrProtocol)
              && (|| (terminal == Failed && journal.record.state == RunTerminal &&
                      Last(journal.record.attempts).state == PreSendFailed &&
                      Last(journal.record.attempts).modelAttempts == 0 &&
                      Sends(journal.root.trace) == old(Sends(journal.root.trace)))
                  || (terminal == ReconciliationRequired && journal.record.state == NeedsReconciliation &&
                      Last(journal.record.attempts).state == AcknowledgementUnknown &&
                      Last(journal.record.attempts).modelAttempts == 1))
  {
    hide Safe, FilesAfter, Sends, QuietExcept, AttemptJournal.Valid;
    result, terminal := None, Failed;
    var crossed;
    ghost var server;
    status, crossed, server := RunExecutor(journal, ordinal, execution);
    if !status.Done? {
      return;
    }
    if execution.ending.Dies? {
      return Crashed, None, Failed;
    }
    if crossed && execution.ending.Returns? {
      status := journal.MarkTerminal(ordinal, execution.ending.result);
      if status.Crashed? {
        return;
      }
      if status.Done? {
        return Done, Some(execution.ending.result), Failed;
      }
    }
    status, terminal := SettleFailure(journal, ordinal, crossed);
  }

  /** A connection of its own, its events, and the start of the turn; what it wrote is noted down however it ends. */
  method RunExecutor(journal: AttemptJournal, ordinal: nat, execution: Execution)
    returns (status: Status, crossed: bool, ghost server: TurnExecutor.Server)
    requires journal.Valid() && journal.record.state == Reserved
    requires 1 <= ordinal == |journal.record.attempts|
    requires Last(journal.record.attempts).state == AttemptReserved
    requires Last(journal.record.attempts).transportRequests == Last(journal.record.attempts).modelAttempts == 0
    requires (journal.run, ordinal) !in Sends(journal.root.trace) && (journal.run, ordinal) !in journal.root.wires
    modifies journal`record, journal.root`files, journal.root`trace, journal.root`faults, journal.root`wires
    ensures journal.Valid() && Grows(journal.root, journal.run)
    ensures Sends(journal.root.trace) ==
              old(Sends(journal.root.trace)) + if crossed then {(journal.run, ordinal)} else {}
    ensures Boundary(status, crossed, ordinal, execution, old(journal.record), journal.record)
    ensures journal.root.faults >= old(journal.root.faults)
    ensures journal.root.faults == old(journal.root.faults) ==> status.Done? && crossed == execution.issue.Some?
    ensures fresh(server) &&
            journal.root.wires == old(journal.root.wires)[(journal.run, ordinal) := server.client.frames]
  {
    hide Safe, FilesAfter, Sends, QuietExcept, TurnExecutor.Server.Valid, AttemptJournal.Valid, Extends;
    var connection := new TurnExecutor.Server(execution.context);
    ghost var states, phases := connection.HandleAll(execution.before);
    status, crossed := CrossSendBoundary(journal, ordinal, execution, connection);
    if status.Done? {
      states, phases := connection.HandleAll(execution.after);
    }
    connection.StartsOnce();
    journal.Observe(ordinal, connection.client.frames);
    server := connection;
  }

  /** What crossing, or not crossing, the send boundary makes of the record. */
  predicate Boundary(status: Status, crossed: bool, ordinal: nat, execution: Execution, before: Record, after: Record)
    requires 1 <= ordinal == |before.attempts|
  {
    && (status.Done? || (status.Crashed? && !crossed))
    && (crossed ==> execution.issue.Some? && after == before.(state := Sent,
          attempts := before.attempts[ordinal - 1 := Last(before.attempts).(
            state := RequestSent, transportRequests := 1, modelAttempts := 1)]))
    && (!crossed ==>
          && after.state in {Reserved, Sent}
          && |after.attempts| == ordinal
          && after.attempts[..ordinal - 1] == before.attempts[..ordinal - 1]
          && Last(after.attempts).policy == Last(before.attempts).policy)
  }

  /** The hook makes the send durable before the start request is issued. A throwing hook is not a crossing. */
  method CrossSendBoundary(journal: AttemptJournal, ordinal: nat, execution: Execution, server: TurnExecutor.Server)
    returns (status: Status, crossed: bool)
    requires journal.Valid() && journal.record.state == Reserved
    requires 1 <= ordinal == |journal.record.attempts|
    requires Last(journal.record.attempts).state == AttemptReserved
    requires Last(journal.record.attempts).transportRequests == Last(journal.record.attempts).modelAttempts == 0
    requires (journal.run, ordinal) !in Sends(journal.root.trace)
    requires server.Valid() && server.start == null && server.turn.phase.AwaitingHook?
    modifies journal`record, journal.root`files, journal.root`trace, journal.root`faults
    modifies server`start, server.client, server.turn, server.turn.notes
    ensures journal.Valid() && Grows(journal.root, journal.run)
    ensures Sends(journal.root.trace) ==
              old(Sends(journal.root.trace)) + if crossed then {(journal.run, ordinal)} else {}
    ensures Boundary(status, crossed, ordinal, execution, old(journal.record), journal.record)
    ensures journal.root.faults >= old(journal.root.faults)
    ensures journal.root.faults == old(journal.root.faults) ==> status.Done? && crossed == execution.issue.Some?
    // The request is out exactly if the record is durable.
    ensures server.Valid() && (server.start != null <==> crossed) && (server.start != null ==> fresh(server.start))
  {
    hide Safe, FilesAfter, Sends, QuietExcept, Replacements, TurnExecutor.Server.Valid, AttemptJournal.Valid;
    status, crossed := Done, false;
    if execution.issue.Some? {
      status := journal.MarkRequestSent(ordinal);
      ReplacementsExtend(old(journal.root.trace), journal.root.trace, journal.run);
      if status.Crashed? {
        return;
      }
      crossed := status.Done?;
      status := Done;
      if crossed {
        label Marked:
        journal.Send(ordinal);
        ExtendsTwice(old(journal.root.trace), old@Marked(journal.root.trace), journal.root.trace, journal.run);
      }
      server.AfterHook(crossed, execution.issue.value);
    }
  }

  /** An attempt that ended without a durable result: never sent, or possibly sent. */
  method SettleFailure(journal: AttemptJournal, ordinal: nat, crossed: bool)
    returns (status: Status, terminal: TerminalState)
    requires journal.Valid() && journal.record.state in {Reserved, Sent}
    requires 1 <= ordinal == |journal.record.attempts|
    requires if crossed then Accounted(journal.record, ordinal)
             else (journal.run, ordinal) !in Sends(journal.root.trace)
    modifies journal`record, journal.root`files, journal.root`trace, journal.root`faults
    ensures journal.Valid() && Grows(journal.root, journal.run)
    ensures Sends(journal.root.trace) == old(Sends(journal.root.trace))
    ensures journal.root.faults >= old(journal.root.faults) &&
            (journal.root.faults == old(journal.root.faults) ==> status.Done?)
    ensures status.Done? ==>
              && journal.Durable()
              && |journal.record.attempts| == ordinal
              && journal.record.attempts[..ordinal - 1] == old(journal.record).attempts[..ordinal - 1]
              && Last(journal.record.attempts).policy == Last(old(journal.record).attempts).policy
              && Last(journal.record.attempts).transportRequests == Last(journal.record.attempts).modelAttempts
              && journal.record.terminalState == Some(terminal)
              && Last(journal.record.attempts).failureCause == Some(InfrastructureOrProtocol)
              && if crossed then
                   && terminal == ReconciliationRequired && journal.record.state == NeedsReconciliation
                   && Last(journal.record.attempts).state == AcknowledgementUnknown
                   && Last(journal.record.attempts).modelAttempts == 1
                 else
                   && terminal == Failed && journal.record.state == RunTerminal
                   && Last(journal.record.attempts).state == PreSendFailed
                   && Last(journal.record.attempts).modelAttempts == 0
  {
    hide Safe, FilesAfter, Sends, QuietExcept, AttemptJournal.Valid;
    terminal := if crossed then ReconciliationRequired else Failed;
    if crossed {
      status := journal.MarkAcknowledgementUnknown(ordinal);
    } else {
      status := journal.MarkPreSendFailure(ordinal);
    }
    if status.Done? {
      status := journal.Finish(terminal);
    }
  }

  /** The attempt carries the identity and the cause of its result. */
  predicate Carries(attempt: Attempt, result: RunResult) {
    && attempt.failureCause == ClassifyAttempt(result)
    && attempt.threadId == (if result.threadId == "" then None else Some(result.threadId))
    && attempt.turnId == (if result.threadId == "" then None else Some(result.turnId))
  }

  /** As reserved, an attempt has neither. */
  predicate Blank(attempt: Attempt) {
    attempt.failureCause.None? && attempt.threadId.None? && attempt.turnId.None?
  }

  datatype Decision = Decision(selected: Candidate, candidates: seq<Candidate>, graph: CapabilityGraph.Graph) {
    function Successor(): Option<Candidate> {
      StrictSuccessor.SelectStrictSuccessor(selected, candidates, graph)
    }
  }

  datatype VgclResult = VgclResult(
    runId: RunId,
    terminalState: TerminalState,
    attempts: seq<RunResult>,
    accounting: Accounting,
    failureCause: Option<FailureCause>)

  /** The verdict on the last returned result. */
  predicate VerdictOf(out: VgclResult, result: RunResult) {
    var cause := ClassifyAttempt(result);
    && out.failureCause == cause
    && out.terminalState == if cause.None? then Verified else TerminalFor(cause.value)
  }

  /** A first attempt escalates exactly when it failed as a candidate defect and has a strict successor. */
  predicate Escalates(decision: Decision, first: RunResult) {
    ClassifyAttempt(first) == Some(CandidateDefect) && decision.Successor().Some?
  }

  function Tally(attempt: Attempt): Accounting {
    Accounting(1, if attempt.state in CLOSED_STATES then 1 else 0,
               if attempt.state == AcknowledgementUnknown then 1 else 0,
               attempt.transportRequests, attempt.modelAttempts,
               if attempt.state == VerificationTerminal then 1 else 0, 0)
  }

  lemma AccountingSettled(attempts: seq<Attempt>)
    requires 1 <= |attempts| <= MAXIMUM_ATTEMPTS
    requires forall a <- attempts :: a.state in CLOSED_STATES + {AcknowledgementUnknown}
    ensures LiveAccounting(attempts) == DurableAccounting(attempts)
    ensures |attempts| == 1 ==> LiveAccounting(attempts) == Tally(attempts[0])
    ensures |attempts| == 2 ==>
              var x, y := Tally(attempts[0]), Tally(attempts[1]);
              LiveAccounting(attempts) ==
              Accounting(2, x.completed + y.completed, x.unresolved + y.unresolved,
                         x.transportRequests + y.transportRequests,
                         x.modelAttempts + y.modelAttempts, x.verifierRuns + y.verifierRuns, 1)
  {
    AccountingViewsAgree(attempts);
    CountFew(attempts, CLOSED_STATES);
    CountFew(attempts, {AcknowledgementUnknown});
    CountFew(attempts, {VerificationTerminal});
    SumFew(attempts);
  }

  lemma CountFew(attempts: seq<Attempt>, states: set<AttemptState>)
    requires 1 <= |attempts| <= 2
    ensures CountIn(attempts, states) == (if attempts[0].state in states then 1 else 0) +
                                         (if |attempts| == 2 && attempts[1].state in states then 1 else 0)
  {
    assert CountIn(attempts[1..], states) == if |attempts| == 2 && attempts[1].state in states then 1 else 0;
  }

  lemma SumFew(attempts: seq<Attempt>)
    requires 1 <= |attempts| <= 2
    ensures SumTransport(attempts) ==
              attempts[0].transportRequests + if |attempts| == 2 then attempts[1].transportRequests else 0
    ensures SumModel(attempts) == attempts[0].modelAttempts + if |attempts| == 2 then attempts[1].modelAttempts else 0
  {
    assert SumTransport(attempts[1..]) == if |attempts| == 2 then attempts[1].transportRequests else 0;
    assert SumModel(attempts[1..]) == if |attempts| == 2 then attempts[1].modelAttempts else 0;
  }

  /** What a run that returns normally has done, by its record and its result. */
  predicate Settles(decision: Decision, record: Record, out: VgclResult) {
    var attempts, a := record.attempts, out.accounting;
    && a == LiveAccounting(attempts) == DurableAccounting(attempts)
    && 1 <= a.reserved == a.completed + a.unresolved <= MAXIMUM_ATTEMPTS
    && a.transportRequests == a.modelAttempts == |out.attempts| + a.unresolved <= a.reserved
    && |out.attempts| == a.verifierRuns && a.sequentialEscalations == a.reserved - 1
    && a.reserved - 1 <= |out.attempts| <= a.reserved
    && (record.state == if out.terminalState == ReconciliationRequired then NeedsReconciliation else RunTerminal)
    && record.terminalState == Some(out.terminalState)
    && (forall i | 0 <= i < |out.attempts| :: Carries(attempts[i], out.attempts[i]))
    && Last(attempts).failureCause == out.failureCause
    && (out.terminalState == ReconciliationRequired <==> a.unresolved == 1)
    && attempts[0].policy == decision.selected
    && (a.reserved == 2 <==> out.attempts != [] && Escalates(decision, out.attempts[0]))
    && (a.reserved == 2 ==> attempts[1].policy == decision.Successor().value)
    && (|out.attempts| == a.reserved ==> VerdictOf(out, Last(out.attempts)))
    && (|out.attempts| < a.reserved ==>
          out.terminalState in {Failed, ReconciliationRequired} && out.failureCause == Some(InfrastructureOrProtocol))
  }

  /** The reported results are those that the executions returned. */
  predicate Reports(out: VgclResult, first: Execution, second: Execution) {
    && |out.attempts| <= 2
    && (|out.attempts| >= 1 ==> first.issue.Some? && first.ending == Returns(out.attempts[0]))
    && (|out.attempts| == 2 ==> second.ending == Returns(out.attempts[1]))
  }

  function ResultOf(record: Record, terminal: TerminalState, attempts: seq<RunResult>,
                    cause: Option<FailureCause>): VgclResult
  {
    VgclResult(record.runId, terminal, attempts, LiveAccounting(record.attempts), cause)
  }

  /** A run whose last attempt has no result settles with the results before it. */
  lemma UnresolvedSettles(decision: Decision, record: Record, terminal: TerminalState, results: seq<RunResult>)
    requires |record.attempts| == |results| + 1 <= MAXIMUM_ATTEMPTS
    requires record.attempts[0].policy == decision.selected
    requires |results| == 1 ==>
               && Escalates(decision, results[0]) && record.attempts[1].policy == decision.Successor().value
               && record.attempts[0].state == VerificationTerminal
               && record.attempts[0].transportRequests == record.attempts[0].modelAttempts == 1
               && Carries(record.attempts[0], results[0])
    requires record.terminalState == Some(terminal)
    requires Last(record.attempts).failureCause == Some(InfrastructureOrProtocol)
    requires var last := Last(record.attempts);
             || (terminal == Failed && record.state == RunTerminal && last.state == PreSendFailed &&
                 last.transportRequests == last.modelAttempts == 0)
             || (terminal == ReconciliationRequired && record.state == NeedsReconciliation &&
                 last.state == AcknowledgementUnknown && last.transportRequests == last.modelAttempts == 1)
    ensures Settles(decision, record, ResultOf(record, terminal, results, Some(InfrastructureOrProtocol)))
  {
    AccountingSettled(record.attempts);
  }

  /**
   What a settled run reports and has made durable, on the fields of its results. If its last attempt has a result, that
   decides; a second attempt follows exactly a first one that ran to its end unspoilt, was judged by an adequate
   verifier and did not pass, and has a successor.
   */
  lemma VerdictOnFields(decision: Decision, record: Record, out: VgclResult)
    requires Settles(decision, record, out)
    ensures 1 <= |record.attempts| <= 2 && |record.attempts| - 1 <= |out.attempts| <= |record.attempts|
    ensures record.terminalState == Some(out.terminalState) && Last(record.attempts).failureCause == out.failureCause
    ensures |out.attempts| < |record.attempts| ==>
              && out.terminalState in {Failed, ReconciliationRequired}
              && out.failureCause == Some(InfrastructureOrProtocol)
    ensures |out.attempts| == |record.attempts| ==>
              var r, cause := Last(out.attempts), out.failureCause;
              var fine := r.passed && r.adequate && r.outcome == Success;
              var stopped := !fine && (r.outcome == OutcomeCancelled || r.turnStatus == Interrupted);
              var ran := r.turnStatus == Completed && r.outcome !in {Timeout, OutcomeCancelled};
              && (out.terminalState == Verified <==> fine) && (cause.None? <==> fine)
              && (out.terminalState == Cancelled <==> stopped) && (cause == Some(UserStop) <==> stopped)
              && (out.terminalState == Failed <==> !fine && !stopped)
              && (cause == Some(InfrastructureOrProtocol) <==> !fine && !stopped && !ran)
              && (cause == Some(PolicyOrExternalState) <==>
                    !fine && ran && r.integrity in {Some(Compromised), Some(Unavailable)})
              && (cause == Some(TaskOrVerifierConfiguration) <==>
                    ran && r.integrity in {None, Some(Intact)} && !r.adequate)
              && (cause == Some(CandidateDefect) <==>
                    ran && r.integrity in {None, Some(Intact)} && r.adequate && !(r.passed && r.outcome == Success))
    ensures |record.attempts| == 2 <==>
              && out.attempts != [] && decision.Successor().Some?
              && var r := out.attempts[0];
                 && r.turnStatus == Completed && r.outcome !in {Timeout, OutcomeCancelled}
                 && r.integrity in {None, Some(Intact)} && r.adequate && !(r.passed && r.outcome == Success)
    ensures |record.attempts| == 2 ==> record.attempts[0].failureCause == Some(CandidateDefect)
    ensures forall i | 0 <= i < |out.attempts| && out.attempts[i].threadId != "" ::
              && record.attempts[i].threadId == Some(out.attempts[i].threadId)
              && record.attempts[i].turnId == Some(out.attempts[i].turnId)
  {
    if out.attempts != [] {
      CauseOnFields(out.attempts[0]);
      CauseOnFields(Last(out.attempts));
    }
  }

  /** The results of a run whose attempts all have one, the last of them judged as this cause and terminal state say. */
  predicate Judged(decision: Decision, attempts: seq<Attempt>, terminal: TerminalState, results: seq<RunResult>,
                   cause: Option<FailureCause>)
  {
    && |attempts| == |results| && 1 <= |results| <= MAXIMUM_ATTEMPTS
    && (forall a <- attempts :: a.state == VerificationTerminal && a.transportRequests == a.modelAttempts == 1)
    && (forall i | 0 <= i < |results| :: Carries(attempts[i], results[i]))
    && attempts[0].policy == decision.selected
    && (|results| == 2 <==> Escalates(decision, results[0]))
    && (|results| == 2 ==> attempts[1].policy == decision.Successor().value)
    && cause == ClassifyAttempt(Last(results))
    && terminal == if cause.None? then Verified else TerminalFor(cause.value)
  }

  lemma VerdictSettles(decision: Decision, record: Record, terminal: TerminalState, results: seq<RunResult>,
                       cause: Option<FailureCause>)
    requires Judged(decision, record.attempts, terminal, results, cause)
    requires record.state == if terminal == ReconciliationRequired then NeedsReconciliation else RunTerminal
    requires record.terminalState == Some(terminal)
    ensures Settles(decision, record, ResultOf(record, terminal, results, cause))
  {
    AccountingSettled(record.attempts);
  }

  /** Makes the verdict durable and reports it. */
  method Conclude(journal: AttemptJournal, decision: Decision, terminal: TerminalState, results: seq<RunResult>,
                  cause: Option<FailureCause>)
    returns (status: Status, out: Option<VgclResult>)
    requires journal.Valid() && journal.record.state != RunTerminal
    requires Judged(decision, journal.record.attempts, terminal, results, cause)
    modifies journal`record, journal.root`files, journal.root`trace, journal.root`faults
    ensures journal.root.Valid() && Grows(journal.root, journal.run)
    ensures Sends(journal.root.trace) == old(Sends(journal.root.trace))
    ensures |journal.record.attempts| == |old(journal.record).attempts|
    ensures journal.root.faults >= old(journal.root.faults) &&
            (journal.root.faults == old(journal.root.faults) ==> status.Done?)
    ensures status.Done? <==> out.Some?
    ensures status.Done? ==>
              && out.value.runId == journal.run && journal.Durable() && out.value.attempts == results
              && Settles(decision, journal.record, out.value)
  {
    hide Safe, FilesAfter, Sends, AttemptJournal.Valid, Settles, Judged;
    out := None;
    status := journal.Finish(terminal);
    journal.Rooted();
    if status.Done? {
      VerdictSettles(decision, journal.record, terminal, results, cause);
      out := Some(ResultOf(journal.record, terminal, results, cause));
    }
  }

  /** The controller's body, between taking the lock and releasing it. */
  method RunAttempts(journal: AttemptJournal, decision: Decision, first: Execution, second: Execution)
    returns (status: Status, out: Option<VgclResult>)
    requires journal.Valid() && journal.record == FreshRecord(journal.run)
    modifies journal`record, journal.root`files, journal.root`trace, journal.root`faults, journal.root`wires
    ensures journal.root.Valid() && Grows(journal.root, journal.run)
    ensures old(SendsNoted(Sends(journal.root.trace), journal.root.wires)) ==>
              SendsNoted(Sends(journal.root.trace), journal.root.wires)
    ensures status.Done? ==> AttemptsNoted(journal.run, |journal.record.attempts|, journal.root.wires)
    ensures status.Done? <==> out.Some?
    ensures status.Done? ==>
              && out.value.runId == journal.run && journal.Durable()
              && Settles(decision, journal.record, out.value) && Reports(out.value, first, second)
    ensures journal.root.faults >= old(journal.root.faults)
    ensures journal.root.faults == old(journal.root.faults) && !first.ending.Dies? && !second.ending.Dies? ==>
              status.Done? && (out.value.attempts != [] <==> first.issue.Some? && first.ending.Returns?)
  {
    hide Safe, FilesAfter, Sends, QuietExcept, Settles, Extends, Keeps, JournalRoot.Valid, SendsNoted, AttemptsNoted;
    NoAttempts(journal.run, journal.root.wires);
    out := None;
    var result, terminal;
    status, result, terminal := RunReservedAttempt(journal, decision.selected, first);
    if !status.Done? {
      return;
    }
    if result.None? {
      UnresolvedSettles(decision, journal.record, terminal, []);
      return Done, Some(ResultOf(journal.record, terminal, [], Some(InfrastructureOrProtocol)));
    }
    label First:
    status, out := JudgeFirst(journal, decision, result.value, second);
    ExtendsTwice(old(journal.root.trace), old@First(journal.root.trace), journal.root.trace, journal.run);
    KeepsTwice(old(journal.root.wires), old@First(journal.root.wires), journal.root.wires);
  }

  /** What the verifier's verdict on the first attempt leads to. */
  method JudgeFirst(journal: AttemptJournal, decision: Decision, firstResult: RunResult, second: Execution)
    returns (status: Status, out: Option<VgclResult>)
    requires journal.Valid() && journal.record.state == Sent && |journal.record.attempts| == 1
    requires journal.record.attempts[0].policy == decision.selected
    requires journal.record.attempts[0].state == VerificationTerminal
    requires journal.record.attempts[0].transportRequests == journal.record.attempts[0].modelAttempts == 1
    requires Carries(journal.record.attempts[0], firstResult)
    requires AttemptsNoted(journal.run, 1, journal.root.wires)
    modifies journal`record, journal.root`files, journal.root`trace, journal.root`faults, journal.root`wires
    ensures journal.root.Valid() && Grows(journal.root, journal.run)
    ensures old(SendsNoted(Sends(journal.root.trace), journal.root.wires)) ==>
              SendsNoted(Sends(journal.root.trace), journal.root.wires)
    ensures status.Done? ==> AttemptsNoted(journal.run, |journal.record.attempts|, journal.root.wires)
    ensures journal.root.faults >= old(journal.root.faults)
    ensures journal.root.faults == old(journal.root.faults) && !second.ending.Dies? ==> status.Done?
    ensures status.Done? <==> out.Some?
    ensures status.Done? ==>
              && out.value.runId == journal.run && journal.Durable()
              && Settles(decision, journal.record, out.value)
              && 1 <= |out.value.attempts| <= 2 && out.value.attempts[0] == firstResult
              && (|out.value.attempts| == 2 ==> second.ending == Returns(out.value.attempts[1]))
  {
    hide Safe, FilesAfter, Sends, QuietExcept, Settles, SendsNoted, AttemptsNoted;
    var firstCause := ClassifyAttempt(firstResult);
    if firstCause.None? {
      status, out := Conclude(journal, decision, Verified, [firstResult], None);
      return;
    }
    if firstCause != Some(CandidateDefect) {
      status, out := Conclude(journal, decision, TerminalFor(firstCause.value), [firstResult], firstCause);
      return;
    }
    var successor := decision.Successor();
    if successor.None? {
      status, out := Conclude(journal, decision, Failed, [firstResult], firstCause);
      return;
    }
    status, out := Escalate(journal, decision, firstResult, second);
  }

  /** The second attempt, on the strict successor. */
  method Escalate(journal: AttemptJournal, decision: Decision, firstResult: RunResult, second: Execution)
    returns (status: Status, out: Option<VgclResult>)
    requires journal.Valid() && journal.record.state == Sent && |journal.record.attempts| == 1
    requires journal.record.attempts[0].policy == decision.selected
    requires journal.record.attempts[0].state == VerificationTerminal
    requires journal.record.attempts[0].transportRequests == journal.record.attempts[0].modelAttempts == 1
    requires Carries(journal.record.attempts[0], firstResult)
    requires Escalates(decision, firstResult)
    requires AttemptsNoted(journal.run, 1, journal.root.wires)
    modifies journal`record, journal.root`files, journal.root`trace, journal.root`faults, journal.root`wires
    ensures journal.root.Valid() && Grows(journal.root, journal.run)
    ensures old(SendsNoted(Sends(journal.root.trace), journal.root.wires)) ==>
              SendsNoted(Sends(journal.root.trace), journal.root.wires)
    ensures status.Done? ==> AttemptsNoted(journal.run, |journal.record.attempts|, journal.root.wires)
    ensures journal.root.faults >= old(journal.root.faults)
    ensures journal.root.faults == old(journal.root.faults) && !second.ending.Dies? ==> status.Done?
    ensures status.Done? <==> out.Some?
    ensures status.Done? ==>
              && out.value.runId == journal.run && journal.Durable()
              && Settles(decision, journal.record, out.value)
              && 1 <= |out.value.attempts| <= 2 && out.value.attempts[0] == firstResult
              && (|out.value.attempts| == 2 ==> second.ending == Returns(out.value.attempts[1]))
  {
    hide Safe, FilesAfter, Sends, QuietExcept, Settles, Extends, Keeps, JournalRoot.Valid, AttemptJournal.Valid;
    hide SendsNoted, AttemptsNoted;
    out := None;
    ghost var attempt := journal.record.attempts[0];
    var result, terminal;
    status, result, terminal := RunReservedAttempt(journal, decision.Successor().value, second);
    if !status.Done? {
      return;
    }
    assert journal.record.attempts[0] == journal.record.attempts[..1][0] == attempt;
    if result.None? {
      UnresolvedSettles(decision, journal.record, terminal, [firstResult]);
      return Done, Some(ResultOf(journal.record, terminal, [firstResult], Some(InfrastructureOrProtocol)));
    }
    label Second:
    var cause := ClassifyAttempt(result.value);
    terminal := if cause.None? then Verified else TerminalFor(cause.value);
    status, out := Conclude(journal, decision, terminal, [firstResult, result.value], cause);
    ExtendsTwice(old(journal.root.trace), old@Second(journal.root.trace), journal.root.trace, journal.run);
    KeepsTwice(old(journal.root.wires), old@Second(journal.root.wires), journal.root.wires);
  }

  method ExecuteVgcl(root: JournalRoot, run: RunId, decision: Decision, first: Execution, second: Execution)
    returns (status: Status, out: Option<VgclResult>)
    requires root.Valid() && run !in root.files && run !in root.locks
    modifies root
    ensures root.Valid() && Grows(root, run)
    // Whatever was sent is noted down wherever the run ends, and every attempt of a run that returns is.
    ensures old(SendsNoted(Sends(root.trace), root.wires)) ==> SendsNoted(Sends(root.trace), root.wires)
    ensures old(AnyPending(root.files)) ==>
              && status.Done?
              && root.trace == old(root.trace) && root.files == old(root.files) && root.locks == old(root.locks)
              && out.Some? && out.value.terminalState == ReconciliationRequired && out.value.attempts == []
              && out.value.failureCause == Some(InfrastructureOrProtocol)
    ensures status.Done? <==> out.Some?
    ensures !old(AnyPending(root.files)) && status.Done? ==>
              && out.value.runId == run && run in root.files && root.files[run].Journal?
              && Settles(decision, root.files[run].record, out.value) && Reports(out.value, first, second)
              && AttemptsNoted(run, |root.files[run].record.attempts|, root.wires)
    // If no persist fails and no execution dies, the run returns normally.
    ensures root.faults >= old(root.faults)
    ensures root.faults == old(root.faults) && !first.ending.Dies? && !second.ending.Dies? ==> status.Done?
    ensures !status.Crashed? ==> run !in root.locks
    ensures root.locks <= old(root.locks) + {run}
  {
    hide Safe, FilesAfter, Sends, Settles, Extends, Keeps, AttemptJournal.Valid, SendsNoted, AttemptsNoted;
    ExtendsNowhere(root.trace, run);
    KeepsAll(root.wires);
    var pending := FindPending(root);
    if pending.Some? {
      return Done, Some(VgclResult(pending.value.runId, ReconciliationRequired, [], pending.value.accounting,
                                   Some(InfrastructureOrProtocol)));
    }
    var journal: AttemptJournal?;
    status, journal := Create(root, run);
    if !status.Done? {
      return status, None;
    }
    label Created:
    status, out := RunAttempts(journal, decision, first, second);
    ExtendsTwice(old(root.trace), old@Created(root.trace), root.trace, run);
    KeepsTwice(old(root.wires), old@Created(root.wires), root.wires);
    if !status.Crashed? {
      journal.Close();
    }
  }

  // ----- whole histories -----

  lemma {:induction false} OtherFilesKept(init: Files, before: seq<Event>, after: seq<Event>, run: RunId)
    requires before <= after && forall i | |before| <= i < |after| :: after[i].run == run
    ensures forall other | other != run ::
              && (other in FilesAfter(init, after) <==> other in FilesAfter(init, before))
              && (other in FilesAfter(init, after) ==>
                    FilesAfter(init, after)[other] == FilesAfter(init, before)[other])
  {
    if |before| < |after| {
      OtherFilesKept(init, before, after[..|after| - 1], run);
    } else {
      assert before == after;
    }
  }

  /** What any crash point of any history guarantees about one run. */
  lemma AtEveryCrashPoint(init: Files, trace: seq<Event>, cut: nat, run: RunId)
    requires Safe(init, trace) && cut <= |trace|
    ensures SendCount(trace[..cut], run) <= MAXIMUM_ATTEMPTS
    ensures SendCount(trace[..cut], run) > 0 ==>
              && run in FilesAfter(init, trace[..cut]) && FilesAfter(init, trace[..cut])[run].Journal?
              && SendCount(trace[..cut], run) <= SumModel(FilesAfter(init, trace[..cut])[run].record.attempts)
  {
    SafePrefix(init, trace, cut);
    AtMostTwoSends(init, trace[..cut], run);
    if SendCount(trace[..cut], run) > 0 {
      SendsWithinDurableCount(init, trace[..cut], run);
    }
  }

  datatype Invocation = Invocation(run: RunId, decision: Decision, first: Execution, second: Execution)

  function RunsOf(invocations: seq<Invocation>): seq<RunId> {
    if invocations == [] then [] else RunsOf(invocations[..|invocations| - 1]) + [Last(invocations).run]
  }

  /** Invocation i owns the events between its two marks, and there are none once a record is left unresolved. */
  ghost predicate History(init: Files, trace: seq<Event>, marks: seq<nat>, runs: seq<RunId>) {
    && |marks| == |runs| + 1 && Last(marks) == |trace|
    && (forall i, j | 0 <= i <= j < |marks| :: marks[i] <= marks[j])
    && (forall i, k | 0 <= i < |runs| && marks[i] <= k < marks[i + 1] :: trace[k].run == runs[i])
    && (forall i | 0 <= i < |marks| && AnyPending(FilesAfter(init, trace[..marks[i]])) :: marks[i] == |trace|)
  }

  /** From this invocation on, every run is new. */
  ghost predicate StillNew(files: Files, locks: set<RunId>, invocations: seq<Invocation>, n: nat) {
    forall i | n <= i < |invocations| :: invocations[i].run !in files && invocations[i].run !in locks
  }

  /**
   What an invocation returned, set against the records found before it and those found after it: blocked by an
   unresolved record, or settled by its own one; nothing if it threw or died.
   */
  ghost predicate Concludes(before: Files, after: Files, invocation: Invocation, out: Option<VgclResult>) {
    var Invocation(run, decision, first, second) := invocation;
    && (AnyPending(before) ==>
          && out.Some? && out.value.terminalState == ReconciliationRequired && out.value.attempts == []
          && out.value.failureCause == Some(InfrastructureOrProtocol) && after == before)
    && (!AnyPending(before) && out.Some? ==>
          && out.value.runId == run && run in after && after[run].Journal?
          && Settles(decision, after[run].record, out.value) && Reports(out.value, first, second))
  }

  /** Every invocation concluded between its two marks. */
  ghost predicate AllConclude(init: Files, trace: seq<Event>, marks: seq<nat>, invocations: seq<Invocation>,
                              outs: seq<Option<VgclResult>>)
  {
    && |marks| == |outs| + 1 && |outs| <= |invocations|
    && (forall i | 0 <= i < |marks| :: marks[i] <= |trace|)
    && forall i, j | 0 <= i < |outs| && j == i + 1 ::
         Concludes(FilesAfter(init, trace[..marks[i]]), FilesAfter(init, trace[..marks[j]]), invocations[i], outs[i])
  }

  /** Whoever does not die returns. */
  predicate AllReturn(invocations: seq<Invocation>, outs: seq<Option<VgclResult>>)
    requires |outs| <= |invocations|
  {
    forall i | 0 <= i < |outs| && !invocations[i].first.ending.Dies? && !invocations[i].second.ending.Dies? ::
      outs[i].Some?
  }

  lemma AllConcludeSnoc(init: Files, before: seq<Event>, after: seq<Event>, marks: seq<nat>,
                        invocations: seq<Invocation>, outs: seq<Option<VgclResult>>, out: Option<VgclResult>)
    requires AllConclude(init, before, marks, invocations, outs) && Last(marks) == |before|
    requires before <= after && |outs| < |invocations|
    requires Concludes(FilesAfter(init, before), FilesAfter(init, after), invocations[|outs|], out)
    ensures AllConclude(init, after, marks + [|after|], invocations, outs + [out])
  {
    hide Concludes, FilesAfter;
    var marks', outs' := marks + [|after|], outs + [out];
    assert before[..|before|] == before && after[..|after|] == after && after[..|before|] == before;
    forall i, j | 0 <= i < |outs'| && j == i + 1
      ensures Concludes(FilesAfter(init, after[..marks'[i]]), FilesAfter(init, after[..marks'[j]]), invocations[i],
                        outs'[i])
    {
      if i < |outs| {
        assert after[..marks[i]] == before[..marks[i]] && after[..marks[j]] == before[..marks[j]];
      }
    }
  }

  /**
   Any number of invocations on one root, each of which may finish, throw or die anywhere. If no persist fails and no
   execution dies, every one of them returns.
   */
  method Operate(root: JournalRoot, invocations: seq<Invocation>)
    returns (ghost marks: seq<nat>, outs: seq<Option<VgclResult>>)
    requires root.Valid() && root.trace == []
    requires forall i | 0 <= i < |invocations| :: invocations[i].run !in root.files && invocations[i].run !in root.locks
    requires forall i, j | 0 <= i < j < |invocations| :: invocations[i].run != invocations[j].run
    modifies root
    ensures root.Valid()
    ensures SendsNoted(Sends(root.trace), root.wires)
    ensures History(root.init, root.trace, marks, RunsOf(invocations))
    ensures |outs| == |invocations| && AllConclude(root.init, root.trace, marks, invocations, outs)
    ensures root.faults == old(root.faults) ==> AllReturn(invocations, outs)
  {
    assert Sends(root.trace) == {} && AllReturn(invocations, []);
    assert SendsNoted(Sends(root.trace), root.wires);
    assert StillNew(root.files, root.locks, invocations, 0);
    marks, outs := [0], [];
    hide History, SendsNoted, Sends, StillNew, AllConclude, AllReturn;
    for n := 0 to |invocations|
      invariant root.Valid() && SendsNoted(Sends(root.trace), root.wires)
      invariant StillNew(root.files, root.locks, invocations, n)
      invariant History(root.init, root.trace, marks, RunsOf(invocations[..n]))
      invariant |outs| == n && AllConclude(root.init, root.trace, marks, invocations, outs)
      invariant root.faults >= old(root.faults)
      invariant root.faults == old(root.faults) ==> AllReturn(invocations, outs)
    {
      var out;
      marks, out := OperateOnce(root, invocations, n, marks, outs);
      outs := outs + [out];
    }
    assert invocations[..|invocations|] == invocations;
  }

  lemma AllReturnSnoc(invocations: seq<Invocation>, outs: seq<Option<VgclResult>>, out: Option<VgclResult>)
    requires |outs| < |invocations|
    requires var Invocation(_, _, first, second) := invocations[|outs|];
             !first.ending.Dies? && !second.ending.Dies? ==> out.Some?
    ensures AllReturn(invocations, outs) ==> AllReturn(invocations, outs + [out])
  {
  }

  lemma OneRunLess(init: Files, before: seq<Event>, after: seq<Event>, locks: set<RunId>, locks': set<RunId>,
                   invocations: seq<Invocation>, n: nat)
    requires n < |invocations| && StillNew(FilesAfter(init, before), locks, invocations, n)
    requires forall i, j | 0 <= i < j < |invocations| :: invocations[i].run != invocations[j].run
    requires before <= after && forall i | |before| <= i < |after| :: after[i].run == invocations[n].run
    requires locks' <= locks + {invocations[n].run}
    ensures StillNew(FilesAfter(init, after), locks', invocations, n + 1)
  {
    hide FilesAfter;
    OtherFilesKept(init, before, after, invocations[n].run);
  }

  /** The next invocation, and the mark after it. */
  method OperateOnce(root: JournalRoot, invocations: seq<Invocation>, n: nat, ghost marks: seq<nat>,
                     ghost outs: seq<Option<VgclResult>>)
    returns (ghost marks': seq<nat>, out: Option<VgclResult>)
    requires root.Valid() && n < |invocations| && StillNew(root.files, root.locks, invocations, n)
    requires forall i, j | 0 <= i < j < |invocations| :: invocations[i].run != invocations[j].run
    requires SendsNoted(Sends(root.trace), root.wires)
    requires History(root.init, root.trace, marks, RunsOf(invocations[..n]))
    requires |outs| == n && AllConclude(root.init, root.trace, marks, invocations, outs)
    modifies root
    ensures root.Valid() && StillNew(root.files, root.locks, invocations, n + 1)
    ensures SendsNoted(Sends(root.trace), root.wires)
    ensures History(root.init, root.trace, marks', RunsOf(invocations[..n + 1]))
    ensures AllConclude(root.init, root.trace, marks', invocations, outs + [out])
    ensures root.faults >= old(root.faults)
    ensures root.faults == old(root.faults) && AllReturn(invocations, outs) ==> AllReturn(invocations, outs + [out])
  {
    var Invocation(run, decision, first, second) := invocations[n];
    assert run !in root.files && run !in root.locks;
    assert Last(marks) == |root.trace|;
    hide Safe, FilesAfter, History, SendsNoted, AttemptsNoted, Sends, Settles, Reports, JournalRoot.Valid, StillNew;
    hide AllConclude, AllReturn;
    ghost var before := root.trace;
    root.FilesAreReplayed();
    var status;
    status, out := ExecuteVgcl(root, run, decision, first, second);
    root.FilesAreReplayed();
    OneRunLess(root.init, before, root.trace, old(root.locks), root.locks, invocations, n);
    HistorySnoc(root.init, before, root.trace, marks, RunsOf(invocations[..n]), run);
    AllConcludeSnoc(root.init, before, root.trace, marks, invocations, outs, out);
    if root.faults == old(root.faults) {
      AllReturnSnoc(invocations, outs, out);
    }
    assert invocations[..n + 1][..n] == invocations[..n];
    marks' := marks + [|root.trace|];
  }

  lemma HistorySnoc(init: Files, before: seq<Event>, after: seq<Event>, marks: seq<nat>, runs: seq<RunId>, run: RunId)
    requires History(init, before, marks, runs)
    requires before <= after && forall i | |before| <= i < |after| :: after[i].run == run
    requires AnyPending(FilesAfter(init, before)) ==> after == before
    ensures History(init, after, marks + [|after|], runs + [run])
  {
    assert before[..|before|] == before && after[..|before|] == before && after[..|after|] == after;
    forall i | 0 <= i < |marks| && AnyPending(FilesAfter(init, after[..marks[i]])) ensures marks[i] == |after| {
      assert marks[i] <= Last(marks);
      assert after[..marks[i]] == before[..marks[i]];
    }
  }
}
