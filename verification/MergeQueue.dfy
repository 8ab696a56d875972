/**
 * The verification-gated merge queue of fleet-supervisor. A scan suspends at every gate, so several scans
 * may be under way at once: the queue is a state machine over the scans' steps, in any interleaving.
 */
module MergeQueue {
  import opened Prelude

  type Agent = string

  /** A gate without a verifier always fails. */
  datatype Gate = Gate(name: string, hasVerifier: bool)

  datatype Status = Pending | Verifying | Merged | Failed

  datatype Entry = Entry(serial: nat, owner: Agent, gates: seq<Gate>, status: Status, attempts: nat, isolated: bool)

  /** A scan is between entries, or waits for gate `gate` of entry `entry`. */
  datatype Phase = Between(next: nat) | Waiting(entry: nat, gate: nat)

  /** A merge-fix wake. */
  datatype Fix = Fix(entry: nat, owner: Agent)

  /**
   * The queue with its scans and its history: for each entry the scans that ever took it up and the answers
   * its gates gave, and the fix wakes sent.
   */
  datatype State = State(entries: seq<Entry>, scans: map<nat, Phase>, started: nat, takers: map<nat, seq<nat>>,
                         answers: map<nat, seq<bool>>, fixes: seq<Fix>)

  datatype Step =
    | Enqueue(owner: Agent, gates: seq<Gate>)
    | Start
    | Advance(scan: nat)
    | Answer(scan: nat, ok: bool)
    | Throw(scan: nat)
    | Conclude(scan: nat)

  const EMPTY: State := State([], map[], 0, map[], map[], [])

  function TakersOf(s: State, i: nat): seq<nat> {
    if i in s.takers then s.takers[i] else []
  }

  function AnswersOf(s: State, i: nat): seq<bool> {
    if i in s.answers then s.answers[i] else []
  }

  predicate InGate(s: State, scan: nat) {
    && scan in s.scans && s.scans[scan].Waiting?
    && s.scans[scan].entry < |s.entries| && s.scans[scan].gate < |s.entries[s.scans[scan].entry].gates|
  }

  predicate AllGatesDone(s: State, scan: nat) {
    && scan in s.scans && s.scans[scan].Waiting?
    && s.scans[scan].entry < |s.entries| && s.scans[scan].gate >= |s.entries[s.scans[scan].entry].gates|
  }

  predicate Enabled(s: State, step: Step) {
    match step
    case Enqueue(_, _) => true
    case Start => true
    case Advance(scan) => scan in s.scans && s.scans[scan].Between?
    case Answer(scan, ok) => InGate(s, scan)
      && (ok ==> s.entries[s.scans[scan].entry].gates[s.scans[scan].gate].hasVerifier)
    case Throw(scan) => InGate(s, scan)
    case Conclude(scan) => AllGatesDone(s, scan)
  }

  function After(s: State, step: Step): State
    requires Enabled(s, step)
  {
    match step
    case Enqueue(owner, gates) => s.(entries := s.entries + [Entry(|s.entries| + 1, owner, gates, Pending, 0, false)])
    case Start => s.(scans := s.scans[s.started := Between(0)], started := s.started + 1)
    case Advance(scan) =>
      var i := s.scans[scan].next;
      if i >= |s.entries| then s.(scans := s.scans - {scan})
      else if s.entries[i].status != Pending then s.(scans := s.scans[scan := Between(i + 1)])
      else s.(entries := s.entries[i := s.entries[i].(status := Verifying, attempts := s.entries[i].attempts + 1)],
              scans := s.scans[scan := Waiting(i, 0)],
              takers := s.takers[i := TakersOf(s, i) + [scan]])
    case Answer(scan, ok) =>
      var i, k := s.scans[scan].entry, s.scans[scan].gate;
      var heard := s.(answers := s.answers[i := AnswersOf(s, i) + [ok]]);
      if ok then heard.(scans := s.scans[scan := Waiting(i, k + 1)])
      else
        var failed := heard.(entries := s.entries[i := s.entries[i].(status := Failed, isolated := true)]);
        // A wake needs a target: without an owner the scan dies on the enqueue error.
        if s.entries[i].owner == "" then failed.(scans := s.scans - {scan})
        else failed.(scans := s.scans[scan := Between(i + 1)], fixes := s.fixes + [Fix(i, s.entries[i].owner)])
    case Throw(scan) => s.(scans := s.scans - {scan})
    case Conclude(scan) =>
      var i := s.scans[scan].entry;
      s.(entries := s.entries[i := s.entries[i].(status := Merged)], scans := s.scans[scan := Between(i + 1)])
  }

  predicate AllOk(answers: seq<bool>) {
    forall k :: 0 <= k < |answers| ==> answers[k]
  }

  /** The fix wakes sent for one entry. */
  function FixesOf(fixes: seq<Fix>, i: nat): seq<Fix> {
    if fixes == [] then []
    else FixesOf(fixes[..|fixes| - 1], i) + (if fixes[|fixes| - 1].entry == i then [fixes[|fixes| - 1]] else [])
  }

  /** What the history of an entry must be for its status. */
  ghost predicate EntryKept(s: State, i: nat)
    requires i < |s.entries|
  {
    var e, answers, fixes := s.entries[i], AnswersOf(s, i), FixesOf(s.fixes, i);
    && e.serial == i + 1 && e.attempts == |TakersOf(s, i)|
    && (e.isolated <==> e.status == Failed)
    && match e.status
       case Pending => e.attempts == 0 && answers == [] && fixes == []
       case Verifying => e.attempts == 1 && AllOk(answers) && |answers| <= |e.gates| && fixes == []
       case Merged => e.attempts == 1 && AllOk(answers) && |answers| == |e.gates| && fixes == []
       case Failed => && e.attempts == 1 && 0 < |answers| <= |e.gates|
                      && AllOk(answers[..|answers| - 1]) && !answers[|answers| - 1]
                      && fixes == if e.owner == "" then [] else [Fix(i, e.owner)]
  }

  /** A waiting scan is the one that took its entry up, and has heard all answers so far. */
  ghost predicate ScanKept(s: State, scan: nat)
    requires scan in s.scans
  {
    && scan < s.started
    && (s.scans[scan].Waiting? ==>
          var i, k := s.scans[scan].entry, s.scans[scan].gate;
          && i < |s.entries| && s.entries[i].status == Verifying && TakersOf(s, i) == [scan]
          && k == |AnswersOf(s, i)| && k <= |s.entries[i].gates|)
  }

  ghost predicate Kept(s: State) {
    && (forall i :: 0 <= i < |s.entries| ==> EntryKept(s, i))
    && (forall scan :: scan in s.scans ==> ScanKept(s, scan))
    && (forall i :: i in s.takers || i in s.answers ==> i < |s.entries|)
    && (forall f :: 0 <= f < |s.fixes| ==> s.fixes[f].entry < |s.entries|)
  }

  lemma {:induction false} NoFixes(fixes: seq<Fix>, i: nat)
    requires forall f :: 0 <= f < |fixes| ==> fixes[f].entry != i
    ensures FixesOf(fixes, i) == []
  {
    if fixes != [] {
      NoFixes(fixes[..|fixes| - 1], i);
    }
  }

  lemma FixesNext(fixes: seq<Fix>, fix: Fix, i: nat)
    ensures FixesOf(fixes + [fix], i) == FixesOf(fixes, i) + (if fix.entry == i then [fix] else [])
  {
    assert (fixes + [fix])[..|fixes|] == fixes;
  }

  lemma TakeUpKeeps(s: State, scan: nat)
    requires Kept(s) && Enabled(s, Advance(scan))
    ensures Kept(After(s, Advance(scan)))
  {
    hide FixesOf;
    var i := s.scans[scan].next;
    if i < |s.entries| && s.entries[i].status == Pending {
      assert EntryKept(s, i);
      assert TakersOf(s, i) == [];
      var r := After(s, Advance(scan));
      forall x | x in r.scans ensures ScanKept(r, x) {
        assert ScanKept(s, x);
      }
      forall j | 0 <= j < |r.entries| ensures EntryKept(r, j) {
        assert EntryKept(s, j);
      }
    } else {
      ScansMoved(s, After(s, Advance(scan)));
    }
  }

  /** Nothing but scans between entries came, went or moved. */
  lemma ScansMoved(s: State, r: State)
    requires Kept(s) && r == s.(scans := r.scans, started := r.started) && s.started <= r.started
    requires forall x :: x in r.scans ==>
               x < r.started && (r.scans[x].Waiting? ==> x in s.scans && s.scans[x] == r.scans[x])
    ensures Kept(r)
  {
    hide FixesOf;
    forall x | x in r.scans ensures ScanKept(r, x) {
      assert x in s.scans ==> ScanKept(s, x);
    }
    forall j | 0 <= j < |r.entries| ensures EntryKept(r, j) {
      assert EntryKept(s, j);
    }
  }

  lemma ConcludeKeeps(s: State, scan: nat)
    requires Kept(s) && Enabled(s, Conclude(scan))
    ensures Kept(After(s, Conclude(scan)))
  {
    hide FixesOf;
    assert ScanKept(s, scan);
    var i := s.scans[scan].entry;
    assert EntryKept(s, i);
    var r := After(s, Conclude(scan));
    forall x | x in r.scans ensures ScanKept(r, x) {
      assert ScanKept(s, x);
    }
    forall j | 0 <= j < |r.entries| ensures EntryKept(r, j) {
      assert EntryKept(s, j);
    }
  }

  lemma PassedGateKeeps(s: State, scan: nat)
    requires Kept(s) && Enabled(s, Answer(scan, true))
    ensures Kept(After(s, Answer(scan, true)))
  {
    hide FixesOf;
    assert ScanKept(s, scan);
    var r := After(s, Answer(scan, true));
    forall x | x in r.scans ensures ScanKept(r, x) {
      assert ScanKept(s, x);
    }
    forall j | 0 <= j < |r.entries| ensures EntryKept(r, j) {
      assert EntryKept(s, j);
    }
  }

  /** An entry whose own record and history are unchanged is kept. */
  lemma EntryAlike(s: State, r: State, j: nat)
    requires j < |s.entries| && EntryKept(s, j) && j < |r.entries| && r.entries[j] == s.entries[j]
    requires TakersOf(r, j) == TakersOf(s, j) && AnswersOf(r, j) == AnswersOf(s, j)
    requires FixesOf(r.fixes, j) == FixesOf(s.fixes, j)
    ensures EntryKept(r, j)
  {
  }

  lemma FailedGateKeeps(s: State, scan: nat)
    requires Kept(s) && Enabled(s, Answer(scan, false))
    ensures Kept(After(s, Answer(scan, false)))
  {
    hide FixesOf, EntryKept;
    assert ScanKept(s, scan);
    var i := s.scans[scan].entry;
    var r := After(s, Answer(scan, false));
    forall x | x in r.scans ensures ScanKept(r, x) {
      OtherScanKept(s, scan, x);
    }
    forall j | 0 <= j < |r.entries| ensures EntryKept(r, j) {
      if j == i {
        FailedEntryKept(s, scan);
      } else {
        assert EntryKept(s, j);
        FixesNext(s.fixes, Fix(i, s.entries[i].owner), j);
        EntryAlike(s, r, j);
      }
    }
  }

  lemma OtherScanKept(s: State, scan: nat, x: nat)
    requires Kept(s) && Enabled(s, Answer(scan, false)) && x in After(s, Answer(scan, false)).scans
    ensures ScanKept(After(s, Answer(scan, false)), x)
  {
    hide FixesOf, EntryKept;
    assert ScanKept(s, scan) && ScanKept(s, x);
  }

  lemma FailedEntryKept(s: State, scan: nat)
    requires Kept(s) && Enabled(s, Answer(scan, false))
    ensures EntryKept(After(s, Answer(scan, false)), s.scans[scan].entry)
  {
    hide FixesOf, EntryKept;
    var i := s.scans[scan].entry;
    assert ScanKept(s, scan) && EntryKept(s, i);
    FixesNext(s.fixes, Fix(i, s.entries[i].owner), i);
    FailedHistory(s, After(s, Answer(scan, false)), i);
  }

  /** A verifying entry that hears its first failing answer. */
  lemma FailedHistory(s: State, r: State, i: nat)
    requires i < |s.entries| && EntryKept(s, i) && s.entries[i].status == Verifying
    requires |AnswersOf(s, i)| < |s.entries[i].gates|
    requires i < |r.entries| && r.entries[i] == s.entries[i].(status := Failed, isolated := true)
    requires TakersOf(r, i) == TakersOf(s, i) && AnswersOf(r, i) == AnswersOf(s, i) + [false]
    requires FixesOf(r.fixes, i) == FixesOf(s.fixes, i)
               + (if s.entries[i].owner == "" then [] else [Fix(i, s.entries[i].owner)])
    ensures EntryKept(r, i)
  {
    hide FixesOf;
    assert AnswersOf(r, i)[..|AnswersOf(s, i)|] == AnswersOf(s, i);
  }

  lemma EnqueueKeeps(s: State, owner: Agent, gates: seq<Gate>)
    requires Kept(s)
    ensures Kept(After(s, Enqueue(owner, gates)))
  {
    hide FixesOf;
    NoFixes(s.fixes, |s.entries|);
    var r := After(s, Enqueue(owner, gates));
    forall x | x in r.scans ensures ScanKept(r, x) {
      assert ScanKept(s, x);
    }
    forall j | 0 <= j < |r.entries| ensures EntryKept(r, j) {
      assert j < |s.entries| ==> EntryKept(s, j);
    }
  }

  lemma StepKeeps(s: State, step: Step)
    requires Kept(s) && Enabled(s, step)
    ensures Kept(After(s, step))
  {
    match step
    case Enqueue(owner, gates) => EnqueueKeeps(s, owner, gates);
    case Advance(scan) => TakeUpKeeps(s, scan);
    case Conclude(scan) => ConcludeKeeps(s, scan);
    case Answer(scan, ok) =>
      if ok { PassedGateKeeps(s, scan); } else { FailedGateKeeps(s, scan); }
    case Start =>
      assert forall x :: x in s.scans ==> ScanKept(s, x);
      ScansMoved(s, After(s, step));
    case Throw(_) =>
      assert forall x :: x in s.scans ==> ScanKept(s, x);
      ScansMoved(s, After(s, step));
  }

  function Run(s: State, steps: seq<Step>): State
    requires Allowed(s, steps)
    decreases |steps|
  {
    if steps == [] then s else Run(After(s, steps[0]), steps[1..])
  }

  predicate Allowed(s: State, steps: seq<Step>)
    decreases |steps|
  {
    steps == [] || (Enabled(s, steps[0]) && Allowed(After(s, steps[0]), steps[1..]))
  }

  lemma {:induction false} RunKeeps(s: State, steps: seq<Step>)
    requires Kept(s) && Allowed(s, steps)
    ensures Kept(Run(s, steps))
    decreases |steps|
  {
    hide Kept, After;
    if steps != [] {
      StepKeeps(s, steps[0]);
      RunKeeps(After(s, steps[0]), steps[1..]);
    }
  }

  /**
   * Under any interleaving of any number of scans: an entry is taken up by at most one scan; a merged entry
   * heard an ok from every one of its gates; a failed one heard ok up to its first failing gate and nothing
   * after it, is isolated, and has exactly one fix wake, for its owner, unless it has no owner.
   */
  lemma EveryInterleaving(steps: seq<Step>, i: nat)
    requires Allowed(EMPTY, steps) && i < |Run(EMPTY, steps).entries|
    ensures var s := Run(EMPTY, steps);
            var e, answers := s.entries[i], AnswersOf(s, i);
            && |TakersOf(s, i)| <= 1 && e.attempts == |TakersOf(s, i)|
            && (e.status == Pending <==> TakersOf(s, i) == [])
            && (e.status == Merged ==> |answers| == |e.gates| && AllOk(answers))
            && (e.status == Failed ==>
                  0 < |answers| <= |e.gates| && AllOk(answers[..|answers| - 1]) && !answers[|answers| - 1])
            && (e.isolated <==> e.status == Failed)
            && FixesOf(s.fixes, i) == if e.status == Failed && e.owner != "" then [Fix(i, e.owner)] else []
  {
    hide FixesOf, Run;
    RunKeeps(EMPTY, steps);
    var s := Run(EMPTY, steps);
    assert EntryKept(s, i);
  }

  /** Never two scans wait on one entry. */
  lemma OneScanPerEntry(steps: seq<Step>, x: nat, y: nat)
    requires Allowed(EMPTY, steps)
    requires var s := Run(EMPTY, steps); x in s.scans && y in s.scans && s.scans[x].Waiting? && s.scans[y].Waiting?
    ensures var s := Run(EMPTY, steps); s.scans[x].entry == s.scans[y].entry ==> x == y
  {
    hide Run;
    RunKeeps(EMPTY, steps);
    var s := Run(EMPTY, steps);
    assert ScanKept(s, x) && ScanKept(s, y);
  }

  // ---- verdicts are final, and a gate that throws leaves its entry behind ----

  predicate Settled(e: Entry) {
    e.status == Merged || e.status == Failed
  }

  lemma VerdictStays(s: State, step: Step, i: nat)
    requires Kept(s) && Enabled(s, step) && i < |s.entries| && Settled(s.entries[i])
    ensures i < |After(s, step).entries| && After(s, step).entries[i] == s.entries[i]
  {
    if (step.Answer? || step.Conclude?) {
      assert ScanKept(s, step.scan);
    }
  }

  /** Verifying, but no scan waits on it: its scan died in one of its gates. */
  predicate Abandoned(s: State, i: nat) {
    && i < |s.entries| && s.entries[i].status == Verifying
    && forall scan :: scan in s.scans && s.scans[scan].Waiting? ==> s.scans[scan].entry != i
  }

  lemma ThrowAbandons(s: State, scan: nat)
    requires Kept(s) && Enabled(s, Throw(scan))
    ensures Abandoned(After(s, Throw(scan)), s.scans[scan].entry)
  {
    assert ScanKept(s, scan);
    var r := After(s, Throw(scan));
    forall x | x in r.scans && r.scans[x].Waiting? ensures r.scans[x].entry != s.scans[scan].entry {
      assert ScanKept(s, x);
    }
  }

  lemma AbandonedStaysOne(s: State, step: Step, i: nat)
    requires Kept(s) && Enabled(s, step) && Abandoned(s, i)
    ensures Abandoned(After(s, step), i)
  {
  }

  /**
   * An entry whose gate threw is never verified again: no later scan takes it up, and it gets no verdict and no
   * fix wake.
   */
  lemma {:induction false} AbandonedForever(s: State, steps: seq<Step>, i: nat)
    requires Kept(s) && Allowed(s, steps) && Abandoned(s, i)
    ensures Abandoned(Run(s, steps), i) && FixesOf(Run(s, steps).fixes, i) == []
    decreases |steps|
  {
    hide Abandoned, After, FixesOf;
    if steps == [] {
      assert FixesOf(s.fixes, i) == [] by { AbandonedHasNoFix(s, i); }
    } else {
      AbandonedStaysOne(s, steps[0], i);
      StepKeeps(s, steps[0]);
      AbandonedForever(After(s, steps[0]), steps[1..], i);
    }
  }

  lemma AbandonedHasNoFix(s: State, i: nat)
    requires Kept(s) && Abandoned(s, i)
    ensures FixesOf(s.fixes, i) == []
  {
    assert EntryKept(s, i);
  }

  /** Some step of the run threw in a gate of entry `i`. */
  predicate ThrownOn(s: State, steps: seq<Step>, i: nat)
    requires Allowed(s, steps)
    decreases |steps|
  {
    steps != []
    && ((steps[0].Throw? && s.scans[steps[0].scan].entry == i) || ThrownOn(After(s, steps[0]), steps[1..], i))
  }

  /**
   * Only a throw in one of its gates leaves an entry behind: every other step keeps a scan waiting on it, or
   * settles it.
   */
  lemma OnlyThrowAbandons(s: State, step: Step, i: nat)
    requires Kept(s) && Enabled(s, step) && !Abandoned(s, i)
    requires !(step.Throw? && s.scans[step.scan].entry == i)
    ensures !Abandoned(After(s, step), i)
  {
    hide FixesOf, EntryKept;
    if i < |s.entries| && s.entries[i].status == Verifying {
      var scan :| scan in s.scans && s.scans[scan].Waiting? && s.scans[scan].entry == i;
      WaitingStays(s, step, scan);
    } else if step.Advance? && s.scans[step.scan].next == i && i < |s.entries| && s.entries[i].status == Pending {
      assert After(s, step).scans[step.scan] == Waiting(i, 0);
    }
  }

  lemma WaitingStays(s: State, step: Step, scan: nat)
    requires Kept(s) && Enabled(s, step) && scan in s.scans && s.scans[scan].Waiting?
    requires !(step.Throw? && s.scans[step.scan].entry == s.scans[scan].entry)
    ensures var r, i := After(s, step), s.scans[scan].entry;
            || (scan in r.scans && r.scans[scan].Waiting? && r.scans[scan].entry == i)
            || (i < |r.entries| && r.entries[i].status != Verifying)
  {
    hide FixesOf, EntryKept;
    assert ScanKept(s, scan);
  }

  /** Under any interleaving an entry is left behind if and only if one of its gates threw. */
  lemma {:induction false} AbandonedExactly(s: State, steps: seq<Step>, i: nat)
    requires Kept(s) && Allowed(s, steps) && !Abandoned(s, i)
    ensures Abandoned(Run(s, steps), i) <==> ThrownOn(s, steps, i)
    decreases |steps|
  {
    hide Kept, Abandoned, After;
    if steps != [] {
      var next := After(s, steps[0]);
      StepKeeps(s, steps[0]);
      if Abandoned(next, i) {
        if !(steps[0].Throw? && s.scans[steps[0].scan].entry == i) {
          OnlyThrowAbandons(s, steps[0], i);
          assert false;
        }
        AbandonedForever(next, steps[1..], i);
      } else {
        AbandonedExactly(next, steps[1..], i);
        if steps[0].Throw? {
          ThrowAbandons(s, steps[0].scan);
        }
      }
    }
  }

  /** From an empty queue. */
  lemma LeftBehindExactly(steps: seq<Step>, i: nat)
    requires Allowed(EMPTY, steps)
    ensures Abandoned(Run(EMPTY, steps), i) <==> ThrownOn(EMPTY, steps, i)
  {
    hide Run, ThrownOn;
    AbandonedExactly(EMPTY, steps, i);
  }
}
