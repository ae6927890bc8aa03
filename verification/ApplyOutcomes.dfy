/**
 How a run of the apply transaction ends, said of the world alone: which steps failed, what Git made of the patch, what
 the verifier left behind and what restoring made of that.
 */
module ApplyOutcomes {
  import opened Common
  import opened ApplyTransaction

  /** The steps that a patch needs to be applied for good; only a non-empty one needs the last two. */
  const NEEDED := {HashUnchanged, WritePreliminary, HashOriginal, HashCandidate, CaptureManaged, Capture, Inspect,
                   RemoveStaging, WriteApplied}
  const NEEDED_BY_PATCH := {HashContent, Apply}

  /** The steps of taking a patch out again. */
  const UNDOING := {Reverse, CheckReversed, Reapply, NativeReverse, CheckNative}

  /** A start that is not truthful changes nothing and leaves no result; a run that need not apply returns at once. */
  lemma StartsOrStops(w: World, job: Job, c: Checkout)
    ensures var o := RunOutcome(w, job, c);
            var truthful := {HashUnchanged, WritePreliminary} !! w.fails && c.working == job.snapshot;
            && (!truthful <==> o.durable == None)
            && (!truthful ==> o.checkout == c && o.raised == Some(StepFailed))
            && (truthful && !job.wanted <==> o.exit == Returned(false))
            && (truthful && !job.wanted ==> o.checkout == c && o.durable == Some(false))
  {
  }

  /** A run applies its patch for good if and only if every step it needs works and the verifier passes and keeps it. */
  lemma AppliedIff(w: World, job: Job, c: Checkout)
    ensures var o := RunOutcome(w, job, c);
            var p := if job.patch == "" then Some(c.working) else w.git.apply(c.working, job.patch);
            o.durable == Some(true) <==>
              && job.wanted && c.working == job.snapshot && NEEDED !! w.fails
              && (job.patch != "" ==> NEEDED_BY_PATCH !! w.fails)
              && p.Some? && p.value.content == job.candidate
              && w.verifier(c.(working := p.value)) == Effect(c.(working := p.value), Said(true))
    ensures var o := RunOutcome(w, job, c);
            o.durable == Some(true) ==>
              && o.exit == Returned(true) && o.raised == None
              && (job.patch == "" ==> o.checkout == c)
              && (job.patch != "" ==> Some(o.checkout.working) == w.git.apply(c.working, job.patch)
                                      && o.checkout == c.(working := o.checkout.working))
  {
  }

  /**
   One of the two reverses brings back what is wanted: the deterministic one from here; or the native one, from here if
   the deterministic one did nothing, and otherwise after the patch was put back.
   */
  ghost predicate OneReverseReaches(w: World, patch: string, here: Working, wanted: Working -> bool) {
    var first := if Reverse in w.fails then None else w.git.reverse(here, patch);
    var there := if first.None? then Some(here)
                 else if Reapply in w.fails then None
                 else w.git.apply(first.value, patch);
    var second := if there.None? || NativeReverse in w.fails then None else w.git.nativeReverse(there.value, patch);
    || (first.Some? && CheckReversed !in w.fails && wanted(first.value))
    || (second.Some? && CheckNative !in w.fails && wanted(second.value))
  }

  /** What the check of a patched checkout leaves behind. */
  function Checked(w: World, candidate: string, patched: Checkout): Checkout {
    var left := w.verifier(patched).left;
    if patched.working.content != candidate || left == patched then patched else w.restoring(left)
  }

  /** Why a patched checkout is refused, if it is. */
  function Refusal(w: World, candidate: string, patched: Checkout): Option<Failure> {
    var Effect(left, verdict) := w.verifier(patched);
    if patched.working.content != candidate then Some(ContentMismatch)
    else if left != patched then
      Some(Verifier(if w.restoring(left) == patched then MutationUndone else ApplyTransaction.RestorationFailed))
    else if verdict == Said(true) then None
    else Some(if verdict.Threw? then Verifier(VerifierThrew) else NotVerified)
  }

  lemma RollbackReaches(w: World, patch: string, goal: Goal, c: Checkout)
    ensures var undone := Rollback(w, patch, goal, c);
            && (undone.outcome <==> OneReverseReaches(w, patch, c.working, (x: Working) => Meets(goal, x)))
            && undone.checkout == c.(working := undone.checkout.working)
            && (undone.outcome ==> Meets(goal, undone.checkout.working))
  {
  }

  lemma CheckLeaves(w: World, candidate: string, patched: Checkout)
    requires {HashCandidate, CaptureManaged, Capture, Inspect, Restore, InspectRestored, RemoveStaging} !! w.fails
    ensures var verified := VerifyApplied(w, candidate, patched);
            && verified.checkout == Checked(w, candidate, patched)
            && FailureOf(verified.outcome, NotVerified) == Refusal(w, candidate, patched)
            && (Refusal(w, candidate, patched).None? ==> Checked(w, candidate, patched) == patched)
            && (FailureOf(verified.outcome, EmptyPatchNotVerified).None? <==> Refusal(w, candidate, patched).None?)
  {
  }

  /** A refused patch is taken out again, and said to be, exactly if one of the two reverses can do it. */
  lemma RefusedIsTakenOut(w: World, job: Job, c: Checkout)
    requires w.fails <= UNDOING && job.wanted && c.working == job.snapshot && job.patch != ""
    requires w.git.apply(c.working, job.patch).Some?
    ensures var o, patched := RunOutcome(w, job, c), c.(working := w.git.apply(c.working, job.patch).value);
            var cause, left := Refusal(w, job.candidate, patched), Checked(w, job.candidate, patched);
            cause.Some? ==>
              var undone := OneReverseReaches(w, job.patch, left.working,
                                              (x: Working) => x.content == c.working.content);
              && (undone <==> o.raised == Some(RolledBack(cause.value)))
              && (undone ==> o.checkout.working.content == c.working.content)
              && (!undone <==> o.raised == Some(RollbackFailed(cause.value)))
              && o.checkout == left.(working := o.checkout.working) && o.durable == Some(false)
              && o.exit == Thrown(if w.cleanupErrors > 0 then CleanupFailed else o.raised.value)
  {
    var patched := c.(working := w.git.apply(c.working, job.patch).value);
    var left := Checked(w, job.candidate, patched);
    CheckLeaves(w, job.candidate, patched);
    RollbackReaches(w, job.patch, SameContent(c.working.content), left);
    hide VerifyApplied, Rollback, OneReverseReaches, Checked, Refusal, FailureOf;
    assert Use(w, Apply, w.git.apply, c, job.patch) == Some(patched);
  }

  /** Where a verifier says no, or throws, and leaves the patched checkout alone. */
  lemma RefusedWithoutFault(w: World, job: Job, c: Checkout)
    requires w.fails == {} && job.wanted && c.working == job.snapshot && job.patch != ""
    requires w.git.apply(c.working, job.patch).Some?
    requires var patched := c.(working := w.git.apply(c.working, job.patch).value);
             && patched.working.content == job.candidate && w.verifier(patched).left == patched
             && w.verifier(patched).verdict != Said(true)
    ensures var o, p := RunOutcome(w, job, c), w.git.apply(c.working, job.patch).value;
            var cause := if w.verifier(c.(working := p)).verdict.Threw? then Verifier(VerifierThrew) else NotVerified;
            var first := w.git.reverse(p, job.patch);
            var there := if first.None? then Some(p) else w.git.apply(first.value, job.patch);
            var undone := || (first.Some? && first.value.content == c.working.content)
                          || (&& there.Some? && w.git.nativeReverse(there.value, job.patch).Some?
                              && w.git.nativeReverse(there.value, job.patch).value.content == c.working.content);
            && o.raised == Some(if undone then RolledBack(cause) else RollbackFailed(cause))
            && (undone ==> o.checkout.working.content == c.working.content)
            && o.checkout == c.(working := o.checkout.working)
  {
    RefusedIsTakenOut(w, job, c);
  }

  /** An applied patch whose result cannot be committed is withdrawn exactly if a reverse reaches the snapshot. */
  lemma UncommittedIsWithdrawn(w: World, job: Job, c: Checkout)
    requires {WriteApplied} <= w.fails <= UNDOING + {WriteApplied, CheckEmpty}
    requires job.wanted && c.working == job.snapshot && Patched(w, job.patch, c).Some?
    requires Refusal(w, job.candidate, Patched(w, job.patch, c).value).None?
    ensures var o := RunOutcome(w, job, c);
            var withdrawn := if job.patch == "" then CheckEmpty !in w.fails
                             else OneReverseReaches(w, job.patch, w.git.apply(c.working, job.patch).value,
                                                    (x: Working) => x == job.snapshot);
            && (withdrawn <==> o.raised == Some(ArtifactRolledBack))
            && (withdrawn ==> o.checkout == c)
            && (!withdrawn <==> o.raised == Some(ArtifactRollbackFailed))
            && o.checkout == c.(working := o.checkout.working) && o.durable == Some(false)
            && o.exit == Thrown(if w.cleanupErrors > 0 then CleanupFailed else o.raised.value)
  {
    var patched := Patched(w, job.patch, c).value;
    CheckLeaves(w, job.candidate, patched);
    RollbackReaches(w, job.patch, SameWorkingState(job.snapshot), patched);
    hide VerifyApplied, Rollback, OneReverseReaches, Checked, Refusal, FailureOf;
    assert job.patch != "" ==> Use(w, Apply, w.git.apply, c, job.patch) == Some(patched);
  }
}
