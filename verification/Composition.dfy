/**
 The three layers together. The controller runs each reserved attempt through an executor with a connection of its own,
 and the root keeps what the connections wrote; its validity holds whenever a method of the controller ends, returning,
 throwing or dying.
 */
module Composition {
  import opened Common
  import opened Vgcl
  import opened VgclController
  import opened TurnExecutor

  /** The turn/start frames that the connection of an attempt put on the wire. */
  ghost function Starts(root: JournalRoot, run: RunId, ordinal: nat): nat
    reads root
  {
    TurnStarts(WireOf(root, (run, ordinal)))
  }

  lemma StartsWithinSends(root: JournalRoot, run: RunId, ordinal: nat)
    requires root.Valid()
    ensures Starts(root, run, ordinal) <= if (run, ordinal) in Sends(root.trace) then 1 else 0
  {
    hide Safe, FilesAfter, Sends;
  }

  /** A frame on the wire is owned up to by the durable record, as an attempt that was sent. */
  lemma StartsAreAccounted(root: JournalRoot, run: RunId, ordinal: nat)
    requires root.Valid() && Starts(root, run, ordinal) > 0
    ensures run in root.files && root.files[run].Journal? && Accounted(root.files[run].record, ordinal)
  {
    hide Safe, Accounted;
    StartsWithinSends(root, run, ordinal);
    SendsAreAccounted(root.init, root.trace, run, ordinal);
  }

  lemma StartsWithinCount(root: JournalRoot, run: RunId)
    requires root.Valid()
    ensures Starts(root, run, 1) + Starts(root, run, 2) <= SendCount(root.trace, run)
  {
    hide Safe;
    StartsWithinSends(root, run, 1);
    StartsWithinSends(root, run, 2);
    AtMostTwoSends(root.init, root.trace, run);
  }

  /** Frames on the wire, durable model attempts, reserved attempts, two: each at most the next. */
  ghost predicate Bounded(root: JournalRoot, run: RunId)
    requires run in root.files && root.files[run].Journal?
    reads root
  {
    var attempts := root.files[run].record.attempts;
    Starts(root, run, 1) + Starts(root, run, 2) <= SumModel(attempts) <= |attempts| <= MAXIMUM_ATTEMPTS
  }

  /**
   The bound holds of every run that began under observation. Only its first two ordinals have frames, and an attempt
   recorded as failed before its send has none.
   */
  lemma WireWithinJournal(root: JournalRoot, run: RunId)
    requires root.Valid() && run in root.files && run !in root.init
    ensures root.files[run].Journal? && Bounded(root, run)
    ensures var attempts := root.files[run].record.attempts;
            forall k: nat :: Starts(root, run, k) > 0 ==> 1 <= k <= |attempts| && attempts[k - 1].state != PreSendFailed
  {
    hide Safe;
    DurableCountsOnce(root.init, root.trace, run);
    SumModelBounded(root.files[run].record.attempts);
    StartsWithinCount(root, run);
    if SendCount(root.trace, run) > 0 {
      SendsWithinDurableCount(root.init, root.trace, run);
    }
    forall k: nat | Starts(root, run, k) > 0 ensures Accounted(root.files[run].record, k) {
      StartsAreAccounted(root, run, k);
    }
  }

  /** After any number of invocations, wherever each ended, the bound holds of every run and every send is noted. */
  method OperateOnWire(root: JournalRoot, invocations: seq<Invocation>) returns (outs: seq<Option<VgclResult>>)
    requires root.Valid() && root.trace == []
    requires forall i | 0 <= i < |invocations| :: invocations[i].run !in root.files && invocations[i].run !in root.locks
    requires forall i, j | 0 <= i < j < |invocations| :: invocations[i].run != invocations[j].run
    modifies root
    ensures root.Valid() && SendsNoted(Sends(root.trace), root.wires) && |outs| == |invocations|
    ensures forall run | run in root.files && run !in root.init :: root.files[run].Journal? && Bounded(root, run)
  {
    ghost var marks;
    marks, outs := Operate(root, invocations);
    forall run | run in root.files && run !in root.init ensures root.files[run].Journal? && Bounded(root, run) {
      WireWithinJournal(root, run);
    }
  }
}
