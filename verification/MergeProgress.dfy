/** Merge scans miss nothing: whatever the interleaving, a scan that runs to its end leaves no pending entry. */
module MergeProgress {
  import opened Prelude
  import opened MergeQueue

  /** How many entries a scan has dealt with: those before its next one, or up to the one it waits on. */
  function Reached(phase: Phase): nat {
    match phase
    case Between(next) => next
    case Waiting(entry, _) => entry + 1
  }

  predicate Swept(s: State, n: nat) {
    n <= |s.entries| && forall i :: 0 <= i < n ==> s.entries[i].status != Pending
  }

  /** No scan has a pending entry behind it. */
  ghost predicate NothingMissed(s: State) {
    forall scan :: scan in s.scans ==> Swept(s, Reached(s.scans[scan]))
  }

  lemma StepMissesNothing(s: State, step: Step)
    requires NothingMissed(s) && Enabled(s, step)
    ensures NothingMissed(After(s, step))
  {
    var r := After(s, step);
    forall scan | scan in r.scans ensures Swept(r, Reached(r.scans[scan])) {
      if scan in s.scans {
        assert Swept(s, Reached(s.scans[scan]));
      }
      if step.Advance? || step.Answer? || step.Throw? || step.Conclude? {
        assert Swept(s, Reached(s.scans[step.scan]));
      }
    }
  }

  lemma {:induction false} RunMissesNothing(s: State, steps: seq<Step>)
    requires NothingMissed(s) && Allowed(s, steps)
    ensures NothingMissed(Run(s, steps))
    decreases |steps|
  {
    hide NothingMissed, After;
    if steps != [] {
      StepMissesNothing(s, steps[0]);
      RunMissesNothing(After(s, steps[0]), steps[1..]);
    }
  }

  /** Why scans end: the end of the queue, a gate that throws, or the failure of an entry that nobody owns. */
  lemma ScanEndsExactly(s: State, step: Step, scan: nat)
    requires Enabled(s, step) && scan in s.scans && scan < s.started
    ensures scan !in After(s, step).scans <==>
              || (step == Advance(scan) && s.scans[scan].next >= |s.entries|)
              || step == Throw(scan)
              || (step == Answer(scan, false) && s.entries[s.scans[scan].entry].owner == "")
  {
  }

  /** Under any interleaving, at the moment a scan reaches the end of the queue no entry is pending. */
  lemma EndOfQueueLeavesNonePending(steps: seq<Step>, scan: nat)
    requires Allowed(EMPTY, steps) && Enabled(Run(EMPTY, steps), Advance(scan))
    requires scan !in After(Run(EMPTY, steps), Advance(scan)).scans
    ensures var s := Run(EMPTY, steps); forall i :: 0 <= i < |s.entries| ==> s.entries[i].status != Pending
  {
    hide Run;
    NoScans();
    RunMissesNothing(EMPTY, steps);
    var s := Run(EMPTY, steps);
    assert Swept(s, Reached(s.scans[scan]));
  }

  lemma NoScans()
    ensures NothingMissed(EMPTY)
  {
  }

  /** A scan that starts when others are done goes through the whole queue: it begins at the first entry. */
  lemma StartsAtTheFront(s: State)
    ensures var r := After(s, Start); s.started in r.scans && Reached(r.scans[s.started]) == 0
  {
  }
}
