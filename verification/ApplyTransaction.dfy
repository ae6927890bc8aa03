/**
 Applying a certified patch to the original checkout: apply, verify, commit the durable result, or roll back. Every
 external step may fail, and the verifier and the restoring steps may leave anything behind.
 */
module ApplyTransaction {
  import opened Common

  /** What the working-state hash covers, and the part of it that the content hash covers. */
  datatype Working = Working(content: string, rest: string)
  datatype Checkout = Checkout(working: Working, control: string, managed: string)

  type Patching = (Working, string) -> Option<Working>

  /** Git's three ways to use a patch; nothing says that a reverse undoes an application. */
  datatype Git = Git(apply: Patching, reverse: Patching, nativeReverse: Patching)

  /** The external steps of one run, each of which it takes at most once. */
  datatype Step =
    | HashUnchanged | WritePreliminary | HashOriginal | HashContent | HashCandidate
    | CaptureManaged | Capture | Inspect | Restore | InspectRestored | RemoveStaging
    | Apply | Reverse | CheckReversed | Reapply | NativeReverse | CheckNative | CheckEmpty
    | WriteApplied | Rewrite

  datatype Verdict = Said(passed: bool) | Threw

  /** What a verifier leaves of the checkout that it finds, and how it ends. */
  datatype Effect = Effect(left: Checkout, verdict: Verdict)

  /** Everything outside the run: which of its steps fail, what verifier and restoring do, how the cleanup ends. */
  datatype World = World(git: Git, fails: set<Step>, verifier: Checkout -> Effect, restoring: Checkout -> Checkout,
                         cleanupErrors: nat)

  /** What a rollback has to reproduce. */
  datatype Goal = SameContent(content: string) | SameWorkingState(working: Working)

  predicate Meets(goal: Goal, working: Working) {
    match goal
    case SameContent(content) => working.content == content
    case SameWorkingState(original) => working == original
  }

  datatype VerifierError =
    | NotStarted
    | VerifierThrew
    | MutationUndone
    | RestorationFailed
    | RestorationUnverified
    | StagingRemovalFailed

  datatype Failure =
    | StepFailed
    | ContentMismatch
    | EmptyPatchNotVerified
    | NotVerified
    | Verifier(error: VerifierError)
    | RolledBack(cause: Failure)
    | RollbackFailed(cause: Failure)
    | ArtifactRolledBack
    | ArtifactRollbackFailed
    | CleanupFailed

  datatype Answer = Answered(yes: bool) | Raised(error: Failure)

  datatype Exit = Returned(applied: bool) | Thrown(error: Failure)

  predicate NotRestored(error: VerifierError) {
    error.RestorationFailed? || error.RestorationUnverified?
  }

  /** The error says that the original state could not be brought back. */
  predicate ReportsFailedRollback(failure: Failure) {
    failure.RollbackFailed? || failure.ArtifactRollbackFailed? || (failure.Verifier? && NotRestored(failure.error))
  }

  // ----- what a run does, as a function of the world -----

  /** A checkout and what came out with it. */
  datatype After<T> = After(checkout: Checkout, outcome: T)

  /** One use of a patch, with its `--check`; where it fails it changes nothing. */
  function Use(w: World, step: Step, patching: Patching, c: Checkout, patch: string): Option<Checkout> {
    var patched := patching(c.working, patch);
    if step in w.fails || patched.None? then None else Some(c.(working := patched.value))
  }

  function NativeRollback(w: World, patch: string, goal: Goal, c: Checkout): After<bool> {
    var reversed := Use(w, NativeReverse, w.git.nativeReverse, c, patch);
    if reversed.None? then After(c, false)
    else After(reversed.value, CheckNative !in w.fails && Meets(goal, reversed.value.working))
  }

  /** First the deterministic reverse, then the native one; either counts only if the restored state was seen. */
  function Rollback(w: World, patch: string, goal: Goal, c: Checkout): After<bool> {
    var reversed := Use(w, Reverse, w.git.reverse, c, patch);
    if reversed.None? then NativeRollback(w, patch, goal, c)
    else if CheckReversed !in w.fails && Meets(goal, reversed.value.working) then After(reversed.value, true)
    else
      var again := Use(w, Reapply, w.git.apply, reversed.value, patch);
      if again.None? then After(reversed.value, false) else NativeRollback(w, patch, goal, again.value)
  }

  function VerdictAnswer(verdict: Verdict): Answer {
    if verdict.Threw? then Raised(Verifier(VerifierThrew)) else Answered(verdict.passed)
  }

  /** A verdict only if everything is as the verifier found it; otherwise an error, after an attempt to restore. */
  function VerifyTransaction(w: World, c: Checkout): After<Answer> {
    var effect := w.verifier(c);
    var restored := w.restoring(effect.left);
    if Capture in w.fails then After(c, Raised(Verifier(NotStarted)))
    else if Inspect !in w.fails && effect.left == c then After(c, VerdictAnswer(effect.verdict))
    else if Restore in w.fails then After(restored, Raised(Verifier(RestorationFailed)))
    else if InspectRestored in w.fails then After(restored, Raised(Verifier(RestorationUnverified)))
    else if restored != c then After(restored, Raised(Verifier(RestorationFailed)))
    else After(c, Raised(Verifier(MutationUndone)))
  }

  /** The staging copy of the managed state is removed last, and a failure there replaces whatever was to come out. */
  function VerifyWithoutMutation(w: World, c: Checkout): After<Answer> {
    if CaptureManaged in w.fails then After(c, Raised(Verifier(NotStarted)))
    else
      var verified := VerifyTransaction(w, c);
      if RemoveStaging in w.fails then After(verified.checkout, Raised(Verifier(StagingRemovalFailed))) else verified
  }

  /** The check between applying and keeping the patch: the certified content, then the verifier. */
  function VerifyApplied(w: World, candidate: string, c: Checkout): After<Answer> {
    if HashCandidate in w.fails then After(c, Raised(StepFailed))
    else if candidate != c.working.content then After(c, Raised(ContentMismatch))
    else VerifyWithoutMutation(w, c)
  }

  function FailureOf(answer: Answer, refusal: Failure): Option<Failure> {
    match answer
    case Raised(error) => Some(error)
    case Answered(yes) => if yes then None else Some(refusal)
  }

  function ApplyPatch(w: World, candidate: string, patch: string, c: Checkout): After<Option<Failure>> {
    if patch == "" then
      var verified := VerifyApplied(w, candidate, c);
      After(verified.checkout, FailureOf(verified.outcome, EmptyPatchNotVerified))
    else
      var applied := Use(w, Apply, w.git.apply, c, patch);
      if HashContent in w.fails || applied.None? then After(c, Some(StepFailed))
      else
        var verified := VerifyApplied(w, candidate, applied.value);
        var cause := FailureOf(verified.outcome, NotVerified);
        if cause.None? then After(verified.checkout, None)
        else
          var undone := Rollback(w, patch, SameContent(c.working.content), verified.checkout);
          After(undone.checkout, Some(if undone.outcome then RolledBack(cause.value) else RollbackFailed(cause.value)))
  }

  /** Taking the patch out again because its result could not be committed. */
  function Withdraw(w: World, patch: string, snapshot: Working, c: Checkout): After<bool> {
    if patch == "" then After(c, CheckEmpty !in w.fails && Meets(SameWorkingState(snapshot), c.working))
    else Rollback(w, patch, SameWorkingState(snapshot), c)
  }

  function ApplyAndCommit(w: World, candidate: string, patch: string, snapshot: Working,
                          c: Checkout): After<Option<Failure>>
  {
    if HashOriginal in w.fails then After(c, Some(StepFailed))
    else
      var applied := ApplyPatch(w, candidate, patch, c);
      if applied.outcome.Some? || WriteApplied !in w.fails then applied
      else
        var withdrawn := Withdraw(w, patch, snapshot, applied.checkout);
        After(withdrawn.checkout, Some(if withdrawn.outcome then ArtifactRolledBack else ArtifactRollbackFailed))
  }

  /** What leaves `run` after its `finally` block: with no result to return, a cleanup error replaces the error. */
  function Finally(raised: Option<Failure>, applied: bool, cleanupErrors: nat): Exit {
    if raised.None? then Returned(applied)
    else if cleanupErrors > 0 then Thrown(CleanupFailed)
    else Thrown(raised.value)
  }

  /** What one run is asked to do. */
  datatype Job = Job(candidate: string, patch: string, snapshot: Working, wanted: bool)

  /** `durable` is the `applied` flag of the durable result, if there is one; `raised` is thrown inside the `try`. */
  datatype Outcome = Outcome(checkout: Checkout, durable: Option<bool>, raised: Option<Failure>, exit: Exit)

  predicate StartsTruthfully(w: World, job: Job, c: Checkout) {
    HashUnchanged !in w.fails && c.working == job.snapshot && WritePreliminary !in w.fails
  }

  /** From the end of the attempt to the end of the run. */
  function RunOutcome(w: World, job: Job, c: Checkout): Outcome {
    if !StartsTruthfully(w, job, c)
    then Outcome(c, None, Some(StepFailed), Finally(Some(StepFailed), false, w.cleanupErrors))
    else if !job.wanted then Outcome(c, Some(false), None, Finally(None, false, w.cleanupErrors))
    else
      var after := ApplyAndCommit(w, job.candidate, job.patch, job.snapshot, c);
      var applied := after.outcome.None?;
      Outcome(after.checkout, Some(applied), after.outcome, Finally(after.outcome, applied, w.cleanupErrors))
  }

  // ----- the run itself -----

  class ApplyRun {
    const world: World
    const job: Job
    var checkout: Checkout
    var durable: Option<bool>

    constructor (world: World, job: Job, checkout: Checkout)
      ensures this.world == world && this.job == job && this.checkout == checkout && durable == None
    {
      this.world, this.job, this.checkout, durable := world, job, checkout, None;
    }

    method Attempt(step: Step) returns (ok: bool)
      ensures ok <==> step !in world.fails
    {
      ok := step !in world.fails;
    }

    method UsePatch(step: Step, patching: Patching) returns (ok: bool)
      modifies `checkout
      ensures var used := Use(world, step, patching, old(checkout), job.patch);
              ok == used.Some? && checkout == if ok then used.value else old(checkout)
    {
      var ran := Attempt(step);
      var patched := patching(checkout.working, job.patch);
      ok := ran && patched.Some?;
      if ok {
        checkout := checkout.(working := patched.value);
      }
    }

    method RollbackAppliedPatch(goal: Goal) returns (restored: bool)
      modifies `checkout
      ensures Rollback(world, job.patch, goal, old(checkout)) == After(checkout, restored)
    {
      var deterministicReverseSucceeded := UsePatch(Reverse, world.git.reverse);
      if deterministicReverseSucceeded {
        var checked := Attempt(CheckReversed);
        if checked && Meets(goal, checkout.working) {
          return true;
        }
        var reapplied := UsePatch(Reapply, world.git.apply);
        if !reapplied {
          return false;
        }
      }
      var reversed := UsePatch(NativeReverse, world.git.nativeReverse);
      if !reversed {
        return false;
      }
      var checked := Attempt(CheckNative);
      restored := checked && Meets(goal, checkout.working);
    }

    method RollbackPatchFromOriginal(snapshot: Working) returns (restored: bool)
      modifies `checkout
      ensures Withdraw(world, job.patch, snapshot, old(checkout)) == After(checkout, restored)
    {
      if job.patch == "" {
        var checked := Attempt(CheckEmpty);
        return checked && Meets(SameWorkingState(snapshot), checkout.working);
      }
      restored := RollbackAppliedPatch(SameWorkingState(snapshot));
    }

    method VerifyOriginalTransaction() returns (answer: Answer)
      modifies `checkout
      ensures VerifyTransaction(world, old(checkout)) == After(checkout, answer)
    {
      var before := checkout;
      var captured := Attempt(Capture);
      if !captured {
        return Raised(Verifier(NotStarted));
      }
      var effect := world.verifier(checkout);
      checkout := effect.left;
      var inspected := Attempt(Inspect);
      if !inspected || checkout != before {
        checkout := world.restoring(checkout);
        var restored := Attempt(Restore);
        if !restored {
          return Raised(Verifier(RestorationFailed));
        }
        inspected := Attempt(InspectRestored);
        if !inspected {
          return Raised(Verifier(RestorationUnverified));
        }
        if checkout != before {
          return Raised(Verifier(RestorationFailed));
        }
        return Raised(Verifier(MutationUndone));
      }
      answer := VerdictAnswer(effect.verdict);
    }

    method VerifyOriginalWithoutMutation() returns (answer: Answer)
      modifies `checkout
      ensures VerifyWithoutMutation(world, old(checkout)) == After(checkout, answer)
    {
      var captured := Attempt(CaptureManaged);
      if !captured {
        return Raised(Verifier(NotStarted));
      }
      answer := VerifyOriginalTransaction();
      var removed := Attempt(RemoveStaging);
      if !removed {
        answer := Raised(Verifier(StagingRemovalFailed));
      }
    }

    method VerifyAppliedContent() returns (answer: Answer)
      modifies `checkout
      ensures VerifyApplied(world, job.candidate, old(checkout)) == After(checkout, answer)
    {
      var hashed := Attempt(HashCandidate);
      if !hashed {
        return Raised(StepFailed);
      }
      if job.candidate != checkout.working.content {
        return Raised(ContentMismatch);
      }
      answer := VerifyOriginalWithoutMutation();
    }

    method ApplyPatchToOriginal() returns (failure: Option<Failure>)
      modifies `checkout
      ensures ApplyPatch(world, job.candidate, job.patch, old(checkout)) == After(checkout, failure)
    {
      if job.patch == "" {
        var answer := VerifyAppliedContent();
        return FailureOf(answer, EmptyPatchNotVerified);
      }
      var hashed := Attempt(HashContent);
      if !hashed {
        return Some(StepFailed);
      }
      var originalContent := checkout.working.content;
      var applied := UsePatch(Apply, world.git.apply);
      if !applied {
        return Some(StepFailed);
      }
      var answer := VerifyAppliedContent();
      var cause := FailureOf(answer, NotVerified);
      if cause.None? {
        return None;
      }
      var restored := RollbackAppliedPatch(SameContent(originalContent));
      return Some(if restored then RolledBack(cause.value) else RollbackFailed(cause.value));
    }

    method Commit() returns (failure: Option<Failure>)
      requires durable == Some(false)
      modifies `checkout, `durable
      ensures ApplyAndCommit(world, job.candidate, job.patch, job.snapshot, old(checkout)) == After(checkout, failure)
      ensures durable == Some(failure.None?)
    {
      var hashed := Attempt(HashOriginal);
      if !hashed {
        return Some(StepFailed);
      }
      failure := ApplyPatchToOriginal();
      if failure.Some? {
        return;
      }
      var written := Attempt(WriteApplied);
      if written {
        durable := Some(true);
        return;
      }
      var restored := RollbackPatchFromOriginal(job.snapshot);
      return Some(if restored then ArtifactRolledBack else ArtifactRollbackFailed);
    }

    method Run() returns (exit: Exit, ghost raised: Option<Failure>)
      requires durable == None
      modifies `checkout, `durable
      ensures RunOutcome(world, job, old(checkout)) == Outcome(checkout, durable, raised, exit)
    {
      var error, applied := Some(StepFailed), false;
      var hashed := Attempt(HashUnchanged);
      if hashed && checkout.working == job.snapshot {
        var written := Attempt(WritePreliminary);
        if written {
          durable := Some(false);
          error := None;
          if job.wanted {
            error := Commit();
            applied := error.None?;
          }
        }
      }
      raised := error;
      if error.None? {
        var rewritten := Attempt(Rewrite);
        if rewritten {
          durable := Some(applied);
        }
      }
      exit := Finally(error, applied, world.cleanupErrors);
    }
  }

  // ----- what is kept and what is brought back -----

  /** The checkout with the patch in it, if the patch applies. */
  function Patched(w: World, patch: string, c: Checkout): Option<Checkout> {
    if patch == "" then Some(c)
    else
      var patched := w.git.apply(c.working, patch);
      if patched.None? then None else Some(c.(working := patched.value))
  }

  /** A rollback changes nothing but the working tree, and says it succeeded only at its goal. */
  lemma RollbackKeeps(w: World, patch: string, goal: Goal, c: Checkout)
    ensures var after := Rollback(w, patch, goal, c);
            && after.checkout == c.(working := after.checkout.working)
            && (after.outcome ==> Meets(goal, after.checkout.working))
  {
  }

  /** Without a fault a rollback succeeds exactly if one of the two reverses reaches the goal. */
  lemma RollbackSucceedsIff(w: World, patch: string, goal: Goal, c: Checkout)
    requires w.fails == {}
    ensures Rollback(w, patch, goal, c).outcome <==>
              var reversed := w.git.reverse(c.working, patch);
              var again := if reversed.None? then Some(c.working) else w.git.apply(reversed.value, patch);
              || (reversed.Some? && Meets(goal, reversed.value))
              || (again.Some? && w.git.nativeReverse(again.value, patch).Some? &&
                  Meets(goal, w.git.nativeReverse(again.value, patch).value))
  {
  }

  /** A verdict says that the verifier changed nothing; an error that does not say otherwise, that it was restored. */
  lemma VerdictMeansUnchanged(w: World, c: Checkout)
    ensures var verified := VerifyTransaction(w, c);
            && (verified.outcome.Answered? ==> w.verifier(c) == Effect(c, Said(verified.outcome.yes)))
            && (verified.checkout != c ==> verified.outcome.Raised? && verified.outcome.error.Verifier? &&
                                           NotRestored(verified.outcome.error.error))
  {
  }

  /** A durable "applied" means: the certified patch is in, and the verifier that passed it changed nothing. */
  lemma AppliedIsCertified(w: World, job: Job, c: Checkout)
    ensures var o := RunOutcome(w, job, c);
            o.durable == Some(true) ==>
              && o.exit == Returned(true) && job.wanted
              && Patched(w, job.patch, c) == Some(o.checkout) && o.checkout.working.content == job.candidate
              && w.verifier(o.checkout) == Effect(o.checkout, Said(true))
  {
  }

  /** A verifier that changes the patched checkout never lets the run return an applied patch. */
  lemma MutatingVerifierNeverReturns(w: World, job: Job, c: Checkout)
    requires Patched(w, job.patch, c).Some?
    requires w.verifier(Patched(w, job.patch, c).value).left != Patched(w, job.patch, c).value
    ensures RunOutcome(w, job, c).exit != Returned(true)
  {
    AppliedIsCertified(w, job, c);
  }

  /** Without a fault, a certified patch that the verifier passes and leaves alone is applied, as the result says. */
  lemma FaultlessRunApplies(w: World, job: Job, c: Checkout)
    requires w.fails == {} && job.wanted && c.working == job.snapshot
    requires Patched(w, job.patch, c).Some? && Patched(w, job.patch, c).value.working.content == job.candidate
    requires w.verifier(Patched(w, job.patch, c).value) == Effect(Patched(w, job.patch, c).value, Said(true))
    ensures var o := RunOutcome(w, job, c); o.exit == Returned(true) && o.durable == Some(true)
  {
  }

  /** What the run returns is what is durable, and a run that returns without applying leaves the checkout alone. */
  lemma ReturnedIsDurable(w: World, job: Job, c: Checkout)
    ensures var o := RunOutcome(w, job, c);
            && (o.exit.Returned? ==> o.durable == Some(o.exit.applied) && (o.exit.applied <==> job.wanted))
            && (o.exit == Returned(false) ==> o.checkout == c)
  {
  }

  /** The verifier may have left control or managed state changed, and nobody could put it back. */
  predicate LeavesTraces(failure: Failure) {
    match failure
    case Verifier(error) => NotRestored(error) || error.StagingRemovalFailed?
    case RolledBack(cause) => LeavesTraces(cause)
    case RollbackFailed(cause) => LeavesTraces(cause)
    case _ => false
  }

  /** Control and managed state survive every run whose error does not say otherwise. */
  lemma ControlIsKept(w: World, job: Job, c: Checkout)
    ensures var o := RunOutcome(w, job, c);
            (o.raised.Some? ==> !LeavesTraces(o.raised.value)) ==>
              o.checkout.control == c.control && o.checkout.managed == c.managed
  {
    if StartsTruthfully(w, job, c) && job.wanted && HashOriginal !in w.fails {
      var applied := ApplyPatch(w, job.candidate, job.patch, c);
      RollbackKeeps(w, job.patch, SameWorkingState(job.snapshot), applied.checkout);
    }
  }

  /** An error from before the patch was touched, or from taking an empty patch back, leaves the checkout as it was. */
  predicate BeforePatch(failure: Failure) {
    || failure.StepFailed? || failure.ContentMismatch? || failure.EmptyPatchNotVerified?
    || (failure.Verifier? && !LeavesTraces(failure))
  }

  lemma UntouchedOnEarlyErrors(w: World, job: Job, c: Checkout)
    ensures var o := RunOutcome(w, job, c);
            o.raised.Some? && (BeforePatch(o.raised.value) || o.raised == Some(ArtifactRolledBack)) ==> o.checkout == c
  {
    if StartsTruthfully(w, job, c) && job.wanted && HashOriginal !in w.fails {
      var applied := ApplyPatch(w, job.candidate, job.patch, c);
      VerdictMeansUnchanged(w, c);
      RollbackKeeps(w, job.patch, SameWorkingState(job.snapshot), applied.checkout);
    }
  }

  // ----- when the original content is lost, and who hears of it -----

  /** The result does not say applied, and yet the checkout does not hold the original content. */
  predicate Lost(o: Outcome, c: Checkout) {
    o.durable != Some(true) && o.checkout.working.content != c.working.content
  }

  predicate Reported(o: Outcome) {
    o.exit.Thrown? && ReportsFailedRollback(o.exit.error)
  }

  /** For an empty patch nothing stands between the verifier's errors and the caller; a failed removal replaces them. */
  predicate RemovalHides(w: World, patch: string) {
    patch == "" && RemoveStaging in w.fails
  }

  /** Content is lost only after a failed rollback or restoration. */
  lemma LostIsRaised(w: World, job: Job, c: Checkout)
    ensures var o := RunOutcome(w, job, c);
            Lost(o, c) ==>
              && o.raised.Some?
              && (|| ReportsFailedRollback(o.raised.value)
                  || (&& o.raised == Some(Verifier(StagingRemovalFailed)) && RemovalHides(w, job.patch)
                      && var verified := VerifyTransaction(w, c).outcome;
                         verified.Raised? && ReportsFailedRollback(verified.error)))
  {
    if StartsTruthfully(w, job, c) && job.wanted && HashOriginal !in w.fails {
      var applied := ApplyPatch(w, job.candidate, job.patch, c);
      VerdictMeansUnchanged(w, c);
      RollbackKeeps(w, job.patch, SameWorkingState(job.snapshot), applied.checkout);
      var patched := Use(w, Apply, w.git.apply, c, job.patch);
      if patched.Some? {
        RollbackKeeps(w, job.patch, SameContent(c.working.content),
                      VerifyApplied(w, job.candidate, patched.value).checkout);
      }
    }
  }

  /** Lost content goes unreported if and only if one of the two later errors replaced the report. */
  lemma LostWithoutReportIff(w: World, job: Job, c: Checkout)
    ensures var o := RunOutcome(w, job, c);
            Lost(o, c) ==> (!Reported(o) <==> w.cleanupErrors > 0 || RemovalHides(w, job.patch))
  {
    LostIsRaised(w, job, c);
  }

  const ORIGINAL := Checkout(Working("original", ""), "control", "managed")
  const SPOILT := Checkout(Working("spoilt", ""), "control", "managed")

  /** A verifier that spoils the checkout, and nothing that could undo it. */
  function Vandal(fails: set<Step>, cleanupErrors: nat): World {
    World(Git((working: Working, patch: string) => Some(Working("patched", "")),
              (working: Working, patch: string) => None,
              (working: Working, patch: string) => None),
          fails, (found: Checkout) => Effect(SPOILT, Said(true)), (left: Checkout) => left, cleanupErrors)
  }

  /** A cleanup error hides the failed rollback of a patch. */
  lemma CleanupCanHide()
    ensures var w, job := Vandal({}, 1), Job("patched", "patch", ORIGINAL.working, true);
            var o := RunOutcome(w, job, ORIGINAL);
            && Lost(o, ORIGINAL) && o.exit == Thrown(CleanupFailed)
            && o.raised == Some(RollbackFailed(Verifier(RestorationFailed))) && !RemovalHides(w, job.patch)
  {
    var w, patched := Vandal({}, 1), ORIGINAL.(working := Working("patched", ""));
    assert Use(w, Apply, w.git.apply, ORIGINAL, "patch") == Some(patched);
    assert SPOILT.working.content != "original" && SPOILT != patched;
    assert VerifyApplied(w, "patched", patched) == After(SPOILT, Raised(Verifier(RestorationFailed)));
    assert Rollback(w, "patch", SameContent("original"), SPOILT) == After(SPOILT, false);
  }

  /** With an empty patch, a failed removal of the staging copy hides the failed restoration. */
  lemma StagingCanHide()
    ensures var w, job := Vandal({RemoveStaging}, 0), Job("original", "", ORIGINAL.working, true);
            var o := RunOutcome(w, job, ORIGINAL);
            Lost(o, ORIGINAL) && o.exit == Thrown(Verifier(StagingRemovalFailed)) && RemovalHides(w, job.patch)
  {
    var w := Vandal({RemoveStaging}, 0);
    assert SPOILT.working.content != "original";
    assert VerifyTransaction(w, ORIGINAL) == After(SPOILT, Raised(Verifier(RestorationFailed)));
  }
}
