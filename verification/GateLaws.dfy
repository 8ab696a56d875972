/** What the watchdog's verdicts mean, and what holds over whole runs of task verbs and gate calls. */
module GateLaws {
  import opened Prelude
  import opened TaskTree
  import opened TasksService
  import opened TaskRuns
  import opened WatchedTree
  import Strings

  // ---- one full pass ----

  /** The table between judging and settling. */
  lemma BetweenLoops(setup: Setup, call: Call, ts: Tasks, us: Tasks) returns (mid: Tasks)
    requires KeyedById(ts) && PassDone(setup.judge, setup.routing, call.supply, ts, us, call.root, call.at)
    ensures mid.Keys == ts.Keys && KeyedById(mid) && FalseLeaves(setup.judge, ts, call.root) <= mid.Keys
    ensures Judged(setup.judge, ts, mid, LeafIds(ts, call.root), call.at)
    ensures Settled(setup.routing, call.supply, mid, us, FalseLeaves(setup.judge, ts, call.root), call.at)
  {
    hide IsLeaf, Settled, FalseDone;
    mid :| Judged(setup.judge, ts, mid, LeafIds(ts, call.root), call.at)
        && Settled(setup.routing, call.supply, mid, us, FalseLeaves(setup.judge, ts, call.root), call.at);
  }

  /** What a full pass made of one task that existed before it. */
  lemma PassOnTask(setup: Setup, call: Call, ts: Tasks, us: Tasks, id: Id)
    requires KeyedById(ts) && id in ts && PassDone(setup.judge, setup.routing, call.supply, ts, us, call.root, call.at)
    ensures id in us
    ensures us[id] ==
              if id !in LeafIds(ts, call.root) then ts[id]
              else if FalseDone(setup.judge, ts[id]) then
                ReassignedTask(setup.routing, call.supply, JudgedTask(setup.judge, ts[id], call.at), call.at)
              else JudgedTask(setup.judge, ts[id], call.at)
  {
    hide LeafIds, FalseDone, JudgedTask, ReassignedTask, PassDone;
    var mid := BetweenLoops(setup, call, ts, us);
    FalseLeafMembers(setup.judge, ts, call.root, id);
  }

  lemma FalseLeafMembers(judge: Judge, ts: Tasks, root: Id, id: Id)
    ensures id in FalseLeaves(judge, ts, root) <==> id in LeafIds(ts, root) && FalseDone(judge, ts[id])
  {
  }

  /** The tasks a full pass adds: one review below each false leaf, and nothing else. */
  lemma PassAddsReviews(setup: Setup, call: Call, ts: Tasks, us: Tasks)
    requires KeyedById(ts) && PassDone(setup.judge, setup.routing, call.supply, ts, us, call.root, call.at)
    ensures us.Keys == ts.Keys + (set r | r in FalseLeaves(setup.judge, ts, call.root) :: call.supply.reviewId(r))
    ensures forall r :: r in FalseLeaves(setup.judge, ts, call.root) ==>
              ReviewOf(us[call.supply.reviewId(r)], call.supply.reviewId(r), r, ts)
  {
    hide LeafIds, FalseDone, ReassignedTask, Judged, PassDone, JudgedTask;
    var mid := BetweenLoops(setup, call, ts, us);
    forall r | r in FalseLeaves(setup.judge, ts, call.root)
      ensures r in ts && mid[r].id == r && mid[r].goalAncestry == ts[r].goalAncestry && mid[r].title == ts[r].title
    {
      JudgedPlace(setup.judge, ts, mid, LeafIds(ts, call.root), r, call.at);
    }
    forall r | r in FalseLeaves(setup.judge, ts, call.root)
      ensures call.supply.reviewId(r) in us && ReviewOf(us[call.supply.reviewId(r)], call.supply.reviewId(r), r, ts)
    {
      assert r in mid;
    }
  }

  predicate ReviewOf(t: Task, reviewId: Id, leaf: Id, ts: Tasks) {
    && t.id == reviewId && t.parentId == Some(leaf) && leaf in ts && t.goalAncestry == [leaf] + ts[leaf].goalAncestry
    && t.claimRole == Some(REVIEW_ROLE) && t.severity == P1 && t.state == Triage
    && t.title == "[watchdog] verify \"" + ts[leaf].title + "\" after false-done"
    && t.assignee == None && t.locks == [] && t.evidence == None && t.acceptance == None
  }

  lemma JudgedPlace(judge: Judge, ts: Tasks, mid: Tasks, done: set<Id>, id: Id, at: int)
    requires KeyedById(ts) && Judged(judge, ts, mid, done, at) && id in mid
    ensures id in ts && mid[id].id == id && mid[id].goalAncestry == ts[id].goalAncestry && mid[id].title == ts[id].title
  {
  }

  /** Keeping one task: judged, and reassigned when its judgement reopened it. */
  lemma PassKeepsTask(setup: Setup, supply: Supply, t: Task, at: int)
    requires TaskKept(t.id, t)
    ensures var j := JudgedTask(setup.judge, t, at);
            && TaskKept(t.id, j) && j.parentId == t.parentId && j.goalAncestry == t.goalAncestry
               && j.claimRole == t.claimRole
    ensures var j := ReassignedTask(setup.routing, supply, JudgedTask(setup.judge, t, at), at);
            && TaskKept(t.id, j) && j.parentId == t.parentId && j.goalAncestry == t.goalAncestry
               && j.claimRole == t.claimRole
  {
  }

  lemma PassKeepsOldTask(setup: Setup, call: Call, ts: Tasks, us: Tasks, id: Id)
    requires TableKept(ts) && KeyedById(ts) && id in ts
    requires PassDone(setup.judge, setup.routing, call.supply, ts, us, call.root, call.at)
    ensures id in us && TaskKept(id, us[id])
    ensures us[id].parentId == ts[id].parentId && us[id].goalAncestry == ts[id].goalAncestry
    ensures us[id].claimRole == ts[id].claimRole
  {
    hide LeafIds, JudgedTask, ReassignedTask, FalseDone, PassDone, AncestryKept, TaskKept;
    PassOnTask(setup, call, ts, us, id);
    PassKeepsTask(setup, call.supply, ts[id], call.at);
  }

  /** A full pass keeps the task table and the places of all tasks. */
  lemma PassKeepsTable(setup: Setup, call: Call, ts: Tasks, us: Tasks)
    requires TableKept(ts) && KeyedById(ts) && FreshFor(call.supply, ts.Keys)
    requires PassDone(setup.judge, setup.routing, call.supply, ts, us, call.root, call.at)
    ensures TableKept(us) && SamePlaces(ts, us)
  {
    hide PassDone, FreshFor, TaskKept, AncestryOf, IsReview;
    forall id | id in ts
      ensures id in us && TaskKept(id, us[id]) && us[id].parentId == ts[id].parentId
           && us[id].goalAncestry == ts[id].goalAncestry && us[id].claimRole == ts[id].claimRole
    {
      PassKeepsOldTask(setup, call, ts, us, id);
    }
    forall id | id in us ensures AncestryOf(us, id) && TaskKept(id, us[id]) && (id !in ts ==> IsReview(us, id)) {
      if id in ts {
        OldAncestry(ts, us, id);
      } else {
        ReviewKept(setup, call, ts, us, id);
      }
    }
  }

  lemma OldAncestry(ts: Tasks, us: Tasks, id: Id)
    requires AncestryKept(ts) && id in ts
    requires forall x :: x in ts ==>
               x in us && us[x].parentId == ts[x].parentId && us[x].goalAncestry == ts[x].goalAncestry
    ensures AncestryOf(us, id)
  {
    assert AncestryOf(ts, id);
  }

  /** A task that the pass added is a review task in its place below a false leaf. */
  lemma ReviewKept(setup: Setup, call: Call, ts: Tasks, us: Tasks, id: Id)
    requires KeyedById(ts) && PassDone(setup.judge, setup.routing, call.supply, ts, us, call.root, call.at)
    requires forall x :: x in ts ==> x in us && us[x].goalAncestry == ts[x].goalAncestry
    requires id in us && id !in ts
    ensures IsReview(us, id) && TaskKept(id, us[id]) && AncestryOf(us, id)
  {
    hide PassDone, LeafIds, FalseDone, FalseLeaves;
    PassAddsReviews(setup, call, ts, us);
    var r :| r in FalseLeaves(setup.judge, ts, call.root) && call.supply.reviewId(r) == id;
    assert ReviewOf(us[id], id, r, ts);
  }

  lemma LeafPresent(ts: Tasks, root: Id, id: Id)
    ensures id in LeafIds(ts, root) ==> id in ts
  {
  }

  // ---- the verdicts ----

  /**
   * PASS is sound: afterwards every leaf is cancelled, or completed and accepted on evidence that satisfies
   * its contract; no task is added and nothing but acceptances changed.
   */
  lemma PassMeansSound(setup: Setup, call: Call, ts: Tasks, us: Tasks, watch: WatchRecord, after: WatchRecord,
          r: VerifyResult)
    requires TableKept(ts) && KeyedById(ts) && FreshFor(call.supply, ts.Keys)
    requires GateAnswer(setup, call, ts, us, watch, after, r) && r.Verdicts? && r.verdict == PASS
    ensures us.Keys == ts.Keys && LeafIds(us, call.root) == LeafIds(ts, call.root) != {}
    ensures forall id :: id in LeafIds(us, call.root) ==> id in us && Sound(setup.judge, us[id])
    ensures forall id :: id in us ==> us[id] == ts[id] || us[id] == AcceptedTask(ts[id], call.at)
  {
    hide LeafIds, FalseDone, PassDone, SamePlaces, TableKept, JudgedTask, ReassignedTask, AcceptedTask, Sound, FreshFor;
    PassKeepsTable(setup, call, ts, us);
    LeavesUnchanged(ts, us, call.root);
    PassAddsReviews(setup, call, ts, us);
    assert us.Keys == ts.Keys;
    forall id | id in us
      ensures us[id] == ts[id] || us[id] == AcceptedTask(ts[id], call.at)
      ensures id in LeafIds(ts, call.root) ==> Sound(setup.judge, us[id])
    {
      PassOnTask(setup, call, ts, us, id);
      FalseLeafMembers(setup.judge, ts, call.root, id);
      if id in LeafIds(ts, call.root) {
        TrueStopJudged(setup.judge, ts[id], call.at);
      }
    }
    forall id | id in LeafIds(us, call.root) ensures id in us { LeafPresent(us, call.root, id); }
  }

  lemma LeavesUnchanged(ts: Tasks, us: Tasks, root: Id)
    requires TableKept(ts) && TableKept(us) && SamePlaces(ts, us) && root in ts
    ensures LeafIds(us, root) == LeafIds(ts, root)
  {
    hide AncestryKept, LeafIds, SamePlaces;
    SamePlacesSameLeaves(ts, us, root);
  }

  lemma TrueStopJudged(judge: Judge, t: Task, at: int)
    requires !FalseDone(judge, t)
    ensures JudgedTask(judge, t, at) == t || JudgedTask(judge, t, at) == AcceptedTask(t, at)
    ensures Terminal(t.state) ==> Sound(judge, JudgedTask(judge, t, at))
  {
  }

  /**
   * The verdict is REJECT exactly when some completed leaf has a contract and its stored evidence is missing,
   * empty or fails. Those leaves end reopened or claimed anew, except that one whose evidence is stored as an
   * empty value that the contract's range admits stays completed and accepted. Every other leaf ends sound,
   * and every task that is no leaf is as it was.
   */
  lemma RejectExactly(setup: Setup, call: Call, ts: Tasks, us: Tasks, watch: WatchRecord, after: WatchRecord,
          r: VerifyResult)
    requires KeyedById(ts)
    requires GateAnswer(setup, call, ts, us, watch, after, r) && r.Verdicts?
    ensures r.verdict == REJECT <==> exists id :: id in LeafIds(ts, call.root) && FalseDone(setup.judge, ts[id])
    ensures forall id :: id in LeafIds(ts, call.root) && Unearned(setup.judge, ts[id]) ==>
              id in us && Reassigned(setup, call, ts[id], us[id])
    ensures forall id ::
              id in LeafIds(ts, call.root) && FalseDone(setup.judge, ts[id]) && !Unearned(setup.judge, ts[id]) ==>
                id in us && us[id] == AcceptedTask(ts[id], call.at)
    ensures forall id :: id in LeafIds(ts, call.root) && !FalseDone(setup.judge, ts[id]) ==>
              id in us && Sound(setup.judge, us[id])
    ensures forall id :: id in ts && id !in LeafIds(ts, call.root) ==> id in us && us[id] == ts[id]
  {
    hide LeafIds, FalseDone, Unearned, PassDone, JudgedTask, ReassignedTask, Sound, Reassigned, AcceptedTask;
    forall id ensures id in LeafIds(ts, call.root) ==> id in ts { LeafPresent(ts, call.root, id); }
    forall id | id in ts
      ensures id in FalseLeaves(setup.judge, ts, call.root)
              <==> id in LeafIds(ts, call.root) && FalseDone(setup.judge, ts[id])
    {
      FalseLeafMembers(setup.judge, ts, call.root, id);
    }
    forall id | id in FalseLeaves(setup.judge, ts, call.root) ensures id in ts {
      FalseLeafMembers(setup.judge, ts, call.root, id);
    }
    forall id | id in ts
      ensures id in us
      ensures id in LeafIds(ts, call.root) && Unearned(setup.judge, ts[id]) ==> Reassigned(setup, call, ts[id], us[id])
      ensures id in LeafIds(ts, call.root) && FalseDone(setup.judge, ts[id]) && !Unearned(setup.judge, ts[id]) ==>
                us[id] == AcceptedTask(ts[id], call.at)
      ensures id in LeafIds(ts, call.root) && !FalseDone(setup.judge, ts[id]) ==> Sound(setup.judge, us[id])
      ensures id !in LeafIds(ts, call.root) ==> us[id] == ts[id]
    {
      PassOnTask(setup, call, ts, us, id);
      OneLeafSettled(setup, call, ts[id]);
      RestedLeaf(setup, call, ts, id);
      if !FalseDone(setup.judge, ts[id]) {
        TrueStopJudged(setup.judge, ts[id], call.at);
      }
    }
  }

  lemma RestedLeaf(setup: Setup, call: Call, ts: Tasks, id: Id)
    ensures Rested(ts, call.root) && id in LeafIds(ts, call.root) ==> Terminal(ts[id].state)
  {
    hide LeafIds;
  }

  /** A rejected leaf: who reopens it and who holds it. */
  predicate Reassigned(setup: Setup, call: Call, t: Task, u: Task) {
    && u.acceptance.Some? && u.acceptance.value.Rejected?
    && match setup.routing(t.claimRole)
       case None => u.state == Unstarted && u.assignee == None && u.locks == []
       case Some(agent) => u.state == Started && u.assignee == Some(agent)
                           && u.locks == [Lock(agent, call.supply.token(t.id), call.at)]
  }

  lemma OneLeafSettled(setup: Setup, call: Call, t: Task)
    ensures var u := ReassignedTask(setup.routing, call.supply, JudgedTask(setup.judge, t, call.at), call.at);
            && (Unearned(setup.judge, t) ==> FalseDone(setup.judge, t) && Reassigned(setup, call, t, u))
            && (FalseDone(setup.judge, t) && !Unearned(setup.judge, t) ==> u == AcceptedTask(t, call.at))
  {
  }

  /** With stored evidence never empty, the rejected leaves are exactly the ones that `accept` reopens. */
  lemma FullEvidenceRejectsUnearned(judge: Judge, ts: Tasks, id: Id)
    requires EvidenceKept(ts) && id in ts
    ensures FalseDone(judge, ts[id]) <==> Unearned(judge, ts[id])
  {
    assert EvidenceFull(ts[id]);
  }

  /** The gate is idempotent: right after a PASS an unforced call within the window changes nothing. */
  lemma SecondPassSuppressed(setup: Setup, call: Call, again: Call, ts: Tasks, us: Tasks, vs: Tasks, watch: WatchRecord,
                             after: WatchRecord, last: WatchRecord, r: VerifyResult, s: VerifyResult)
    requires TableKept(ts) && KeyedById(ts) && KeyedById(us) && FreshFor(call.supply, ts.Keys)
    requires GateAnswer(setup, call, ts, us, watch, after, r) && r.Verdicts? && r.verdict == PASS
    requires again.root == call.root && !again.force && again.now - call.now < setup.windowMs
    requires GateAnswer(setup, again, us, vs, after, last, s)
    ensures s == Suppressed(r.stoppedFingerprint) && vs == us && last == after
  {
    hide LeafIds, FalseDone, PassDone, SamePlaces, TableKept, AcceptedTask, Sound, FreshFor;
    PassMeansSound(setup, call, ts, us, watch, after, r);
    forall id | id in LeafIds(us, call.root)
      ensures id in us && Terminal(us[id].state) && us[id].state == ts[id].state
      ensures us[id].artifactContract == ts[id].artifactContract
    {
      AcceptedKeepsStop(ts[id], call.at);
      SoundIsTerminal(setup.judge, us[id]);
    }
    assert Rested(us, call.root);
    assert StopOf(us, call.root) == StopOf(ts, call.root);
  }

  lemma AcceptedKeepsStop(t: Task, at: int)
    ensures AcceptedTask(t, at).state == t.state && AcceptedTask(t, at).artifactContract == t.artifactContract
  {
  }

  lemma SoundIsTerminal(judge: Judge, t: Task)
    requires Sound(judge, t)
    ensures Terminal(t.state)
  {
  }

  /**
   * After a REJECT that reopened a leaf the tree is awake: the next call answers that it does not rest, and
   * the record stays rejected. It rests on only when every rejected leaf was accepted on empty evidence.
   */
  lemma RejectAwakens(setup: Setup, call: Call, again: Call, ts: Tasks, us: Tasks, vs: Tasks, watch: WatchRecord,
                      after: WatchRecord, last: WatchRecord, r: VerifyResult, s: VerifyResult)
    requires TableKept(ts) && KeyedById(ts) && KeyedById(us) && FreshFor(call.supply, ts.Keys) && call.root in ts
    requires GateAnswer(setup, call, ts, us, watch, after, r) && r.Verdicts? && r.verdict == REJECT
    requires again.root == call.root && GateAnswer(setup, again, us, vs, after, last, s)
    ensures s == NotRested <==> exists id :: id in LeafIds(ts, call.root) && Unearned(setup.judge, ts[id])
    ensures s == NotRested ==> vs == us && last == after && last.status == Rejecting
  {
    hide LeafIds, FalseDone, Unearned, PassDone, SamePlaces, TableKept, Sound, FreshFor, GateAnswer, KeyedById;
    hide Reassigned, AcceptedTask;
    AnswerOfPass(setup, call, ts, us, watch, after, r);
    PassKeepsTable(setup, call, ts, us);
    LeavesUnchanged(ts, us, call.root);
    RejectExactly(setup, call, ts, us, watch, after, r);
    StillInTree(ts, us, call.root);
    forall id ensures id in LeafIds(ts, call.root) ==> id in ts { LeafPresent(ts, call.root, id); }
    forall id | id in LeafIds(ts, call.root) ensures Terminal(us[id].state) <==> !Unearned(setup.judge, ts[id]) {
      SettledTerminal(setup, call, ts[id], us[id]);
    }
    AnswerAwake(setup, again, us, vs, after, last, s);
  }

  lemma SettledTerminal(setup: Setup, call: Call, t: Task, u: Task)
    requires Unearned(setup.judge, t) ==> Reassigned(setup, call, t, u)
    requires FalseDone(setup.judge, t) && !Unearned(setup.judge, t) ==> u == AcceptedTask(t, call.at)
    requires !FalseDone(setup.judge, t) ==> Sound(setup.judge, u)
    ensures Terminal(u.state) <==> !Unearned(setup.judge, t)
  {
  }

  lemma StillInTree(ts: Tasks, us: Tasks, root: Id)
    requires SamePlaces(ts, us) && root in ts
    ensures root in us
  {
  }

  lemma AnswerOfPass(setup: Setup, call: Call, ts: Tasks, us: Tasks, watch: WatchRecord, after: WatchRecord,
          r: VerifyResult)
    requires KeyedById(ts) && GateAnswer(setup, call, ts, us, watch, after, r) && r.Verdicts?
    ensures PassDone(setup.judge, setup.routing, call.supply, ts, us, call.root, call.at)
    ensures r.verdict == REJECT ==> after.status == Rejecting
  {
    hide PassDone, LeafIds, FalseDone;
  }

  lemma AnswerAwake(setup: Setup, call: Call, ts: Tasks, us: Tasks, watch: WatchRecord, after: WatchRecord,
          r: VerifyResult)
    requires KeyedById(ts) && call.root in ts && GateAnswer(setup, call, ts, us, watch, after, r)
    ensures r == NotRested <==> !Rested(ts, call.root)
    ensures r == NotRested ==> us == ts && (watch.status == Rejecting ==> after == watch)
  {
    hide Rested;
  }

  // ---- what suppression hides ----

  /**
   * On a rested tree a false leaf is rejected unless the record holds this very stop, from the last full pass of
   * either verdict, and the last PASS, of whatever stop, is less than a window ago.
   */
  lemma FalseLeafRejectedUnlessRepeated(setup: Setup, call: Call, ts: Tasks, us: Tasks, watch: WatchRecord,
          after: WatchRecord, r: VerifyResult, id: Id)
    requires KeyedById(ts) && call.root in ts && Rested(ts, call.root)
    requires GateAnswer(setup, call, ts, us, watch, after, r)
    requires id in LeafIds(ts, call.root) && FalseDone(setup.judge, ts[id])
    ensures r.Verdicts? && r.verdict == REJECT && id in r.rejected
            <==> !Repeats(watch, StopOf(ts, call.root), setup.windowMs, call.force, call.now)
  {
    hide LeafIds, FalseDone, PassDone, Rested, StopOf, Repeats;
    FalseLeafMembers(setup.judge, ts, call.root, id);
  }

  /**
   * The record of a tree whose last full pass, PASS or REJECT, saw `stop`, and whose last PASS of any stop was
   * at `passedAt`.
   */
  predicate Remembers(watch: WatchRecord, stop: Fingerprint, passedAt: int) {
    watch.stoppedFingerprint == Some(stop) && watch.lastVerifiedAt == Some(passedAt)
  }

  lemma PassIsRecorded(setup: Setup, call: Call, ts: Tasks, us: Tasks, watch: WatchRecord, after: WatchRecord,
          r: VerifyResult)
    requires TableKept(ts) && KeyedById(ts) && FreshFor(call.supply, ts.Keys)
    requires GateAnswer(setup, call, ts, us, watch, after, r) && r.Verdicts? && r.verdict == PASS
    ensures call.root in us && Rested(us, call.root) && StopOf(us, call.root) == r.stoppedFingerprint
    ensures Remembers(after, StopOf(us, call.root), call.now)
  {
    hide LeafIds, FalseDone, PassDone, SamePlaces, TableKept, AcceptedTask, Sound, FreshFor;
    PassMeansSound(setup, call, ts, us, watch, after, r);
    forall id | id in LeafIds(us, call.root)
      ensures id in us && Terminal(us[id].state) && us[id].state == ts[id].state
      ensures us[id].artifactContract == ts[id].artifactContract
    {
      AcceptedKeepsStop(ts[id], call.at);
      SoundIsTerminal(setup.judge, us[id]);
    }
  }

  /**
   * The stop does not show evidence: within the window of a PASS a table with the remembered stop is never
   * looked at, false leaves or not.
   */
  lemma SameStopSuppressed(setup: Setup, again: Call, vs: Tasks, ws: Tasks, watch: WatchRecord, last: WatchRecord,
          s: VerifyResult, passedAt: int)
    requires KeyedById(vs) && again.root in vs && Rested(vs, again.root)
    requires Remembers(watch, StopOf(vs, again.root), passedAt)
    requires !again.force && again.now - passedAt < setup.windowMs && GateAnswer(setup, again, vs, ws, watch, last, s)
    ensures s == Suppressed(StopOf(vs, again.root)) && ws == vs && last == watch
  {
    hide Rested, StopOf, PassDone;
  }

  /** An unrested call leaves stop and time on the record. */
  lemma UnrestedKeepsStop(setup: Setup, call: Call, ts: Tasks, us: Tasks, watch: WatchRecord, after: WatchRecord,
          r: VerifyResult, stop: Fingerprint, passedAt: int)
    requires KeyedById(ts) && call.root in ts && !Rested(ts, call.root)
    requires GateAnswer(setup, call, ts, us, watch, after, r) && Remembers(watch, stop, passedAt)
    ensures Remembers(after, stop, passedAt)
  {
    hide Rested;
  }

  /**
   * A REJECT puts its own stop on the record and leaves the time of the last PASS, which was of another stop or
   * none.
   */
  lemma RejectIsRecorded(setup: Setup, call: Call, ts: Tasks, us: Tasks, watch: WatchRecord, after: WatchRecord,
          r: VerifyResult)
    requires KeyedById(ts) && GateAnswer(setup, call, ts, us, watch, after, r) && r.Verdicts? && r.verdict == REJECT
    ensures after.stoppedFingerprint == Some(r.stoppedFingerprint) && after.lastVerifiedAt == watch.lastVerifiedAt
    ensures r.stoppedFingerprint == StopOf(ts, call.root)
  {
    hide Rested, StopOf, PassDone, LeafIds, FalseDone, Repeats;
  }

  /** The table after an open leaf was completed on some evidence, by the agent that holds it or after a claim. */
  ghost predicate CompletedAfresh(config: Config, us: Tasks, id: Id, bad: Evidence, agent: Agent, token: Token, at: int,
          t: Tasks, vs: Tasks) {
    && (t == us || ClaimIn(us, id, agent, token, at) == Ok(t))
    && CompleteIn(t, config.autoClose, id, token, bad, agent, at) == Ok(vs)
  }

  lemma CompletedAfreshKeeps(config: Config, us: Tasks, id: Id, bad: Evidence, agent: Agent, token: Token, at: int,
          t: Tasks, vs: Tasks)
    requires TableKept(us) && id in us && us[id].artifactContract.Some?
    requires Finite(bad.result) && !config.judge(us[id].artifactContract.value, bad.result)
    requires CompletedAfresh(config, us, id, bad, agent, token, at, t, vs)
    ensures TableKept(vs) && SamePlaces(us, vs)
    ensures id in vs && FalseDone(config.judge, vs[id]) && vs[id].artifactContract == us[id].artifactContract
    ensures forall x :: x in us && x != id && Terminal(us[x].state) ==> x in vs && vs[x] == us[x]
  {
    hide TableKept, SamePlaces, CloseBelow;
    var claim, complete := Op.Claim(id, agent, token, at), Op.Complete(id, token, bad, agent, at);
    SamePlacesAsSelf(us);
    if t != us {
      assert Outcome(config, us, claim) == Ok(t);
      OutcomeKeeps(config, us, claim);
      VerbKeepsPlaces(config, us, claim);
    }
    assert Outcome(config, t, complete) == Ok(vs);
    OutcomeKeeps(config, t, complete);
    VerbKeepsPlaces(config, t, complete);
    PlacesTransitive(us, t, vs);
    var put := t[id := AsStored(CompletedTask(t[id], bad, agent, at))];
    forall x | x in put && Terminal(put[x].state) ensures CloseBelow(put, id, Completed, at)[x] == put[x] {
      ClosedUntouched(put, id, Completed, at, x);
    }
  }

  lemma SamePlacesAsSelf(ts: Tasks)
    ensures SamePlaces(ts, ts)
  {
  }

  /** The table after a leaf is reopened by a failing override, claimed, and completed on false evidence. */
  ghost predicate CompletedAgain(config: Config, us: Tasks, id: Id, bad: Evidence, agent: Agent, token: Token, at: int,
          t1: Tasks, t2: Tasks, vs: Tasks) {
    && AcceptIn(us, config.judge, id, None, Some(bad), at) == Ok(t1)
    && ClaimIn(t1, id, agent, token, at) == Ok(t2)
    && CompleteIn(t2, config.autoClose, id, token, bad, agent, at) == Ok(vs)
  }

  /** The three verbs go through on any completed leaf with a contract that the evidence fails. */
  lemma ThreeVerbsGoThrough(config: Config, us: Tasks, id: Id, bad: Evidence, agent: Agent, token: Token, at: int)
    returns (t1: Tasks, t2: Tasks, vs: Tasks)
    requires id in us && us[id].state == Completed && us[id].artifactContract.Some?
    requires Present(bad.result) && !config.judge(us[id].artifactContract.value, bad.result)
    ensures CompletedAgain(config, us, id, bad, agent, token, at, t1, t2, vs)
    ensures t1[id].state == Unstarted && t2[id].state == Started
  {
    hide CloseBelow;
    t1 := AcceptIn(us, config.judge, id, None, Some(bad), at).value;
    t2 := ClaimIn(t1, id, agent, token, at).value;
    vs := CompleteIn(t2, config.autoClose, id, token, bad, agent, at).value;
  }

  /**
   * One input that fails: from the stop on record, a leaf reopened, claimed and completed on evidence that fails its
   * contract. The tree is awake in between, rests on the same stop afterwards, holds a false leaf, and the
   * next unforced call within the window is suppressed.
   */
  lemma FalseDoneSlipsThrough(setup: Setup, config: Config, again: Call, us: Tasks, t1: Tasks, t2: Tasks, vs: Tasks,
          ws: Tasks, watch: WatchRecord, last: WatchRecord, s: VerifyResult, passedAt: int, id: Id, bad: Evidence,
          agent: Agent, token: Token)
    requires config.judge == setup.judge && TableKept(us) && KeyedById(us) && again.root in us && Rested(us, again.root)
    requires id in LeafIds(us, again.root) && us[id].state == Completed && us[id].artifactContract.Some?
    requires Finite(bad.result) && !setup.judge(us[id].artifactContract.value, bad.result)
    requires CompletedAgain(config, us, id, bad, agent, token, again.at, t1, t2, vs)
    requires Remembers(watch, StopOf(us, again.root), passedAt) && !again.force && again.now - passedAt < setup.windowMs
    requires KeyedById(vs) && GateAnswer(setup, again, vs, ws, watch, last, s)
    ensures !Rested(t1, again.root) && !Rested(t2, again.root)
    ensures id in LeafIds(vs, again.root) && id in vs && FalseDone(setup.judge, vs[id])
    ensures s == Suppressed(StopOf(us, again.root)) && ws == vs && last == watch
  {
    hide GateAnswer, LeafIds, TableKept, StopOf, Rested, CompletedAgain;
    var root := again.root;
    LeafPresent(us, root, id);
    ThreeVerbsKeep(config, us, id, bad, agent, token, again.at, t1, t2, vs);
    LeavesUnchanged(us, t1, root);
    LeavesUnchanged(us, t2, root);
    LeavesUnchanged(us, vs, root);
    AwakeAt(t1, root, id);
    AwakeAt(t2, root, id);
    SameStop(us, vs, root, id);
    SameStopSuppressed(setup, again, vs, ws, watch, last, s, passedAt);
  }

  lemma AwakeAt(ts: Tasks, root: Id, id: Id)
    requires id in LeafIds(ts, root) && !Terminal(ts[id].state)
    ensures !Rested(ts, root)
  {
    hide LeafIds;
  }

  /**
   * What the three verbs leave: the table kept, all places the same, the leaf completed again on the false
   * evidence, closed tasks untouched.
   */
  lemma ThreeVerbsKeep(config: Config, us: Tasks, id: Id, bad: Evidence, agent: Agent, token: Token, at: int, t1: Tasks,
          t2: Tasks, vs: Tasks)
    requires TableKept(us) && id in us && us[id].state == Completed && us[id].artifactContract.Some?
    requires Finite(bad.result) && !config.judge(us[id].artifactContract.value, bad.result)
    requires CompletedAgain(config, us, id, bad, agent, token, at, t1, t2, vs)
    ensures TableKept(t1) && TableKept(t2) && TableKept(vs) && SamePlaces(us, t1) && SamePlaces(us, t2)
    ensures SamePlaces(us, vs)
    ensures id in t1 && id in t2 && !Terminal(t1[id].state) && !Terminal(t2[id].state)
    ensures id in vs && FalseDone(config.judge, vs[id]) && vs[id].artifactContract == us[id].artifactContract
    ensures forall x :: x in us && x != id && Terminal(us[x].state) ==> x in vs && vs[x] == us[x]
  {
    hide TableKept, SamePlaces, CompleteIn, FalseDone;
    var accept, claim := Op.Accept(id, None, Some(bad), at), Op.Claim(id, agent, token, at);
    assert Outcome(config, us, accept) == Ok(t1) && Outcome(config, t1, claim) == Ok(t2);
    OutcomeKeeps(config, us, accept);
    OutcomeKeeps(config, t1, claim);
    VerbKeepsPlaces(config, us, accept);
    VerbKeepsPlaces(config, t1, claim);
    CompletedAfreshKeeps(config, t1, id, bad, agent, token, at, t2, vs);
    PlacesTransitive(us, t1, t2);
    PlacesTransitive(us, t1, vs);
  }

  lemma ClosedUntouched(ts: Tasks, root: Id, closeState: State, now: int, x: Id)
    requires x in ts && Terminal(ts[x].state)
    ensures CloseBelow(ts, root, closeState, now)[x] == ts[x]
  {
  }

  lemma PlacesTransitive(ts: Tasks, us: Tasks, vs: Tasks)
    requires SamePlaces(ts, us) && SamePlaces(us, vs)
    ensures SamePlaces(ts, vs)
  {
  }

  lemma StopByLeaves(ts: Tasks, us: Tasks, root: Id)
    requires LeafIds(us, root) == LeafIds(ts, root)
    requires forall x :: x in LeafIds(ts, root) ==>
               x in ts && x in us && us[x].state == ts[x].state && us[x].artifactContract == ts[x].artifactContract
    ensures StopOf(us, root) == StopOf(ts, root)
  {
    hide LeafIds;
    var stops := set id | id in LeafIds(ts, root) :: LeafStop(id, us[id].state, us[id].artifactContract);
    assert stops == StopOf(ts, root).leaves;
  }

  lemma SameStop(us: Tasks, vs: Tasks, root: Id, id: Id)
    requires LeafIds(vs, root) == LeafIds(us, root) && Rested(us, root) && id in us && id in vs
    requires vs[id].state == us[id].state && vs[id].artifactContract == us[id].artifactContract
    requires forall x :: x in us && x != id && Terminal(us[x].state) ==> x in vs && vs[x] == us[x]
    ensures Rested(vs, root) && StopOf(vs, root) == StopOf(us, root)
  {
    hide LeafIds, StopOf;
    forall x | x in LeafIds(us, root)
      ensures x in us && x in vs && vs[x].state == us[x].state && vs[x].artifactContract == us[x].artifactContract
    {
      LeafPresent(us, root, x);
    }
    StopByLeaves(us, vs, root);
  }

  /**
   * A simpler input that fails: a stop that was only ever rejected. The pass rejects `id` alone, the leaf is
   * completed again on false evidence, and the tree rests on the very stop of the REJECT.
   */
  lemma RejectedStopReturns(setup: Setup, config: Config, call: Call, ts: Tasks, us: Tasks, t: Tasks, vs: Tasks,
          watch: WatchRecord, after: WatchRecord, r: VerifyResult, id: Id, bad: Evidence, agent: Agent, token: Token,
          at: int)
    requires config.judge == setup.judge && TableKept(ts) && KeyedById(ts) && FreshFor(call.supply, ts.Keys)
    requires GateAnswer(setup, call, ts, us, watch, after, r) && r.Verdicts? && r.verdict == REJECT
    requires id in LeafIds(ts, call.root) && Unearned(setup.judge, ts[id])
    requires forall x :: x in LeafIds(ts, call.root) && x != id ==> !Unearned(setup.judge, ts[x])
    requires CompletedAfresh(config, us, id, bad, agent, token, at, t, vs)
    requires Finite(bad.result) && !setup.judge(ts[id].artifactContract.value, bad.result)
    ensures call.root in vs && Rested(vs, call.root) && StopOf(vs, call.root) == r.stoppedFingerprint
    ensures id in LeafIds(vs, call.root) && id in vs && FalseDone(setup.judge, vs[id])
  {
    hide LeafIds, FalseDone, Unearned, PassDone, SamePlaces, TableKept, Sound, FreshFor, GateAnswer, KeyedById, Rested;
    hide StopOf, CompletedAfresh;
    var root := call.root;
    AnswerOfPass(setup, call, ts, us, watch, after, r);
    VerdictsRest(setup, call, ts, us, watch, after, r);
    PassKeepsTable(setup, call, ts, us);
    LeafPresent(ts, root, id);
    forall x | x in LeafIds(ts, root) ensures x in ts && x in us && LeafJudged(setup, ts[x], us[x]) {
      LeafPresent(ts, root, x);
      PassJudgesLeaf(setup, call, ts, us, x);
    }
    UnearnedHasContract(setup.judge, ts[id]);
    CompletedAfreshKeeps(config, us, id, bad, agent, token, at, t, vs);
    PlacesTransitive(ts, us, vs);
    StillInTree(ts, vs, root);
    LeavesUnchanged(ts, vs, root);
    SameStopAfresh(setup, ts, us, vs, root, id);
  }

  /** What a pass leaves of the state and contract of a leaf: the contract, and the state unless the judge failed it. */
  predicate LeafJudged(setup: Setup, t: Task, u: Task) {
    && u.artifactContract == t.artifactContract
    && (!Unearned(setup.judge, t) ==> u.state == t.state)
  }

  lemma PassJudgesLeaf(setup: Setup, call: Call, ts: Tasks, us: Tasks, id: Id)
    requires KeyedById(ts) && id in ts && PassDone(setup.judge, setup.routing, call.supply, ts, us, call.root, call.at)
    ensures id in us && LeafJudged(setup, ts[id], us[id])
  {
    hide LeafIds, PassDone, KeyedById, Passes;
    PassOnTask(setup, call, ts, us, id);
  }

  lemma UnearnedHasContract(judge: Judge, t: Task)
    requires Unearned(judge, t)
    ensures t.state == Completed && t.artifactContract.Some?
  {
  }

  lemma VerdictsRest(setup: Setup, call: Call, ts: Tasks, us: Tasks, watch: WatchRecord, after: WatchRecord,
          r: VerifyResult)
    requires KeyedById(ts) && GateAnswer(setup, call, ts, us, watch, after, r) && r.Verdicts?
    ensures call.root in ts && Rested(ts, call.root) && r.stoppedFingerprint == StopOf(ts, call.root)
  {
    hide Rested, StopOf, PassDone, LeafIds, FalseDone, Repeats;
  }

  lemma SameStopAfresh(setup: Setup, ts: Tasks, us: Tasks, vs: Tasks, root: Id, id: Id)
    requires LeafIds(vs, root) == LeafIds(ts, root) && Rested(ts, root) && id in LeafIds(ts, root) && id in vs
    requires ts[id].state == Completed
    requires forall x :: x in LeafIds(ts, root) ==> x in ts && x in us && LeafJudged(setup, ts[x], us[x])
    requires forall x :: x in LeafIds(ts, root) && x != id ==> !Unearned(setup.judge, ts[x])
    requires FalseDone(setup.judge, vs[id]) && vs[id].artifactContract == us[id].artifactContract
    requires forall x :: x in us && x != id && Terminal(us[x].state) ==> x in vs && vs[x] == us[x]
    ensures Rested(vs, root) && StopOf(vs, root) == StopOf(ts, root)
  {
    hide LeafIds, Unearned, StopOf;
    forall x | x in LeafIds(ts, root)
      ensures x in vs && vs[x].state == ts[x].state && vs[x].artifactContract == ts[x].artifactContract
    {
      assert LeafJudged(setup, ts[x], us[x]) && Terminal(ts[x].state);
    }
    StopByLeaves(ts, vs, root);
  }

  /**
   * And the gate is silent about it: after that REJECT, with a PASS of any other stop less than a window ago, the
   * next unforced call is suppressed and leaves the false leaf completed.
   */
  lemma RejectedStopSlipsThrough(setup: Setup, config: Config, call: Call, again: Call, ts: Tasks, us: Tasks, t: Tasks,
          vs: Tasks, ws: Tasks, watch: WatchRecord, after: WatchRecord, mid: WatchRecord, last: WatchRecord,
          r: VerifyResult, s: VerifyResult, passedAt: int, id: Id, bad: Evidence, agent: Agent, token: Token, at: int)
    requires config.judge == setup.judge && TableKept(ts) && KeyedById(ts) && FreshFor(call.supply, ts.Keys)
    requires GateAnswer(setup, call, ts, us, watch, after, r) && r.Verdicts? && r.verdict == REJECT
    requires watch.lastVerifiedAt == Some(passedAt)
    requires id in LeafIds(ts, call.root) && Unearned(setup.judge, ts[id])
    requires forall x :: x in LeafIds(ts, call.root) && x != id ==> !Unearned(setup.judge, ts[x])
    requires CompletedAfresh(config, us, id, bad, agent, token, at, t, vs)
    requires Finite(bad.result) && !setup.judge(ts[id].artifactContract.value, bad.result)
    requires mid == after || mid == after.(status := if after.status == Rejecting then Rejecting else Watching)
    requires again.root == call.root && !again.force && again.now - passedAt < setup.windowMs
    requires KeyedById(vs) && GateAnswer(setup, again, vs, ws, mid, last, s)
    ensures s == Suppressed(r.stoppedFingerprint) && ws == vs && last == mid
    ensures id in LeafIds(vs, call.root) && id in ws && FalseDone(setup.judge, ws[id]) && ws[id].state == Completed
  {
    hide LeafIds, Unearned, PassDone, TableKept, FreshFor, GateAnswer, KeyedById, Rested, StopOf, CompletedAfresh;
    RejectedStopReturns(setup, config, call, ts, us, t, vs, watch, after, r, id, bad, agent, token, at);
    RejectIsRecorded(setup, call, ts, us, watch, after, r);
    SameStopSuppressed(setup, again, vs, ws, mid, last, s, passedAt);
  }

  // ---- runs ----

  /** The task table and the record of one watched tree. */
  datatype Moment = Moment(tasks: Tasks, watch: WatchRecord)

  /** Any verb of the task service, or a gate call on the tree. */
  datatype Round = Verb(op: Op) | Gate(call: Call, answer: VerifyResult)

  ghost predicate RoundStep(setup: Setup, config: Config, root: Id, a: Moment, round: Round, b: Moment)
    requires KeyedById(a.tasks)
  {
    match round
    case Verb(op) => Outcome(config, a.tasks, op) == Ok(b.tasks) && b.watch == a.watch
    case Gate(call, answer) =>
      && call.root == root && FreshFor(call.supply, a.tasks.Keys)
      && GateAnswer(setup, call, a.tasks, b.tasks, a.watch, b.watch, answer)
  }

  /** A run of rounds through the moments `trace`. */
  ghost predicate Rounds(setup: Setup, config: Config, root: Id, trace: seq<Moment>, rounds: seq<Round>) {
    && |trace| == |rounds| + 1
    && (forall i :: 0 <= i < |rounds| ==>
          KeyedById(trace[i].tasks) && RoundStep(setup, config, root, trace[i], rounds[i], trace[i + 1]))
  }

  /** Work on existing tasks or a gate call: tasks are created by the gate alone, and routing roles stay. */
  predicate KeepsForest(round: Round) {
    round.Verb? ==> !round.op.Create? && (round.op.Update? ==> round.op.patch.claimRole == None)
  }

  lemma VerbKeepsPlaces(config: Config, ts: Tasks, op: Op)
    requires Outcome(config, ts, op).Ok? && !op.Create? && (op.Update? ==> op.patch.claimRole == None)
    ensures SamePlaces(ts, Outcome(config, ts, op).value)
  {
    hide CloseBelow, Passes, Strings.Trim, Present;
    var us := Outcome(config, ts, op).value;
    forall id | id in ts
      ensures id in us && us[id].parentId == ts[id].parentId && us[id].goalAncestry == ts[id].goalAncestry
      ensures us[id].claimRole == ts[id].claimRole
    {
      match op {
        case Complete(root, _, evidence, actor, at) =>
          ClosingKeepsPlace(ts[root := AsStored(CompletedTask(ts[root], evidence, actor, at))], root, Completed, at,
                            id);
        case Cancel(root, _, at) =>
          ClosingKeepsPlace(ts[root := CancelledTask(ts[root], at)], root, Cancelled, at, id);
        case _ =>
      }
    }
  }

  lemma ClosingKeepsPlace(ts: Tasks, root: Id, closeState: State, now: int, id: Id)
    requires id in ts
    ensures var t := CloseBelow(ts, root, closeState, now)[id];
            t.parentId == ts[id].parentId && t.goalAncestry == ts[id].goalAncestry && t.claimRole == ts[id].claimRole
  {
    hide OpenBelow;
  }

  lemma RoundKeepsLeaves(setup: Setup, config: Config, root: Id, a: Moment, round: Round, b: Moment)
    requires TableKept(a.tasks) && KeyedById(a.tasks) && root in a.tasks && KeepsForest(round)
    requires RoundStep(setup, config, root, a, round, b)
    ensures TableKept(b.tasks) && root in b.tasks && LeafIds(b.tasks, root) == LeafIds(a.tasks, root)
  {
    hide TableKept, LeafIds, Outcome, FreshFor, SamePlaces, PassDone, KeyedById;
    match round
    case Verb(op) =>
      OutcomeKeeps(config, a.tasks, op);
      VerbKeepsPlaces(config, a.tasks, op);
      LeavesUnchanged(a.tasks, b.tasks, root);
      StillInTree(a.tasks, b.tasks, root);
    case Gate(call, answer) =>
      if answer.Verdicts? {
        AnswerOfPass(setup, call, a.tasks, b.tasks, a.watch, b.watch, answer);
        PassKeepsTable(setup, call, a.tasks, b.tasks);
        LeavesUnchanged(a.tasks, b.tasks, root);
        StillInTree(a.tasks, b.tasks, root);
      }
  }

  /** However many rounds of work, completion and rejection follow, the watched leaf set never grows or shrinks. */
  lemma {:induction false} RoundsKeepLeaves(setup: Setup, config: Config, root: Id, trace: seq<Moment>,
          rounds: seq<Round>)
    requires Rounds(setup, config, root, trace, rounds) && TableKept(trace[0].tasks) && root in trace[0].tasks
    requires forall i :: 0 <= i < |rounds| ==> KeepsForest(rounds[i])
    ensures TableKept(trace[|rounds|].tasks) && root in trace[|rounds|].tasks
    ensures LeafIds(trace[|rounds|].tasks, root) == LeafIds(trace[0].tasks, root)
    decreases |rounds|
  {
    hide RoundStep, TableKept, LeafIds, KeyedById, KeepsForest;
    if rounds != [] {
      assert KeepsForest(rounds[0]);
      RoundKeepsLeaves(setup, config, root, trace[0], rounds[0], trace[1]);
      RoundsKeepLeaves(setup, config, root, trace[1..], rounds[1..]);
    }
  }

  /** How a record and its last verdict belong together outside a pass. */
  predicate RecordKept(w: WatchRecord) {
    && w.status != Verifying
    && (w.status == Rejecting <==> w.lastVerdict == Some(REJECT))
    && (w.status == Verified ==> w.lastVerdict == Some(PASS))
    && w.lastVerifiedAt == w.verifiedAt
    && (w.lastVerdict.Some? ==> w.stoppedFingerprint.Some? && w.lastStoppedAt.Some?)
  }

  lemma RoundKeepsRecord(setup: Setup, config: Config, root: Id, a: Moment, round: Round, b: Moment)
    requires KeyedById(a.tasks) && RecordKept(a.watch) && RoundStep(setup, config, root, a, round, b)
    ensures RecordKept(b.watch)
    ensures a.watch.status == Rejecting && b.watch.status != Rejecting ==>
              round.Gate? && round.answer.Verdicts? && round.answer.verdict == PASS
  {
    hide Outcome, PassDone, LeafIds, FalseDone, Rested, StopOf, Repeats;
  }

  /** A rejection sticks: only a PASS ends it, whatever verbs and gate calls come in between. */
  lemma {:induction false} RejectionSticks(setup: Setup, config: Config, root: Id, trace: seq<Moment>,
          rounds: seq<Round>)
    requires Rounds(setup, config, root, trace, rounds) && RecordKept(trace[0].watch)
    requires trace[0].watch.status == Rejecting
    requires forall i :: 0 <= i < |rounds| && rounds[i].Gate? && rounds[i].answer.Verdicts? ==>
               rounds[i].answer.verdict != PASS
    ensures RecordKept(trace[|rounds|].watch) && trace[|rounds|].watch.status == Rejecting
    decreases |rounds|
  {
    hide RoundStep, RecordKept, KeyedById;
    if rounds != [] {
      RoundKeepsRecord(setup, config, root, trace[0], rounds[0], trace[1]);
      RejectionSticks(setup, config, root, trace[1..], rounds[1..]);
    }
  }

  // ---- what the record remembers ----

  predicate FullPass(round: Round) {
    round.Gate? && round.answer.Verdicts?
  }

  /** The stop of the last full pass of a run, whatever its verdict. */
  function LastStop(rounds: seq<Round>): Option<Fingerprint> {
    if rounds == [] then None
    else
      var last := rounds[|rounds| - 1];
      if FullPass(last) then Some(last.answer.stoppedFingerprint) else LastStop(rounds[..|rounds| - 1])
  }

  /** The time of the last PASS, or of the last REJECT, of a run, whatever its stop. */
  function LastAt(rounds: seq<Round>, verdict: Verdict): Option<int> {
    if rounds == [] then None
    else
      var last := rounds[|rounds| - 1];
      if FullPass(last) && last.answer.verdict == verdict then Some(last.call.now)
      else LastAt(rounds[..|rounds| - 1], verdict)
  }

  /** The verdict of the last full pass of a run, and its time. */
  function LastVerdict(rounds: seq<Round>): Option<(Verdict, int)> {
    if rounds == [] then None
    else
      var last := rounds[|rounds| - 1];
      if FullPass(last) then Some((last.answer.verdict, last.call.now)) else LastVerdict(rounds[..|rounds| - 1])
  }

  /** The verdict on record and its time, if there is one. */
  function VerdictOf(watch: WatchRecord): Option<(Verdict, int)> {
    if watch.lastVerdict.Some? && watch.lastStoppedAt.Some?
    then Some((watch.lastVerdict.value, watch.lastStoppedAt.value)) else None
  }

  lemma RoundRecords(setup: Setup, config: Config, root: Id, a: Moment, round: Round, b: Moment)
    requires KeyedById(a.tasks) && RoundStep(setup, config, root, a, round, b)
    ensures b.watch.stoppedFingerprint == if FullPass(round) then Some(round.answer.stoppedFingerprint)
            else a.watch.stoppedFingerprint
    ensures b.watch.lastVerifiedAt
         == if FullPass(round) && round.answer.verdict == PASS then Some(round.call.now) else a.watch.lastVerifiedAt
    ensures b.watch.rejectedAt
         == if FullPass(round) && round.answer.verdict == REJECT then Some(round.call.now) else a.watch.rejectedAt
    ensures VerdictOf(b.watch)
         == if FullPass(round) then Some((round.answer.verdict, round.call.now)) else VerdictOf(a.watch)
  {
    hide Outcome, PassDone, LeafIds, FalseDone, Rested, StopOf, Repeats;
  }

  /**
   * Over any run the record of a watched tree holds the stop, verdict and time of its last full pass, and the
   * times of its last PASS and its last REJECT.
   */
  lemma {:induction false} RecordIsHistory(setup: Setup, config: Config, root: Id, trace: seq<Moment>,
          rounds: seq<Round>, createdAt: int)
    requires Rounds(setup, config, root, trace, rounds) && trace[0].watch == NewRecord(root, createdAt)
    ensures trace[|rounds|].watch.stoppedFingerprint == LastStop(rounds)
    ensures trace[|rounds|].watch.lastVerifiedAt == LastAt(rounds, PASS)
    ensures trace[|rounds|].watch.rejectedAt == LastAt(rounds, REJECT)
    ensures VerdictOf(trace[|rounds|].watch) == LastVerdict(rounds)
    decreases |rounds|
  {
    hide RoundStep, KeyedById;
    if rounds != [] {
      var n := |rounds| - 1;
      RecordIsHistory(setup, config, root, trace[..n + 1], rounds[..n], createdAt);
      RoundRecords(setup, config, root, trace[n], rounds[n], trace[n + 1]);
    }
  }

  /**
   * After any run, a call on the rested tree rejects a false leaf unless the last full pass, PASS or REJECT, saw the
   * same stop, some PASS is less than a window ago, and the call is not forced; then it is suppressed.
   */
  lemma FalseLeafRejectedByHistory(setup: Setup, config: Config, root: Id, trace: seq<Moment>, rounds: seq<Round>,
          createdAt: int, call: Call, us: Tasks, after: WatchRecord, r: VerifyResult, id: Id)
    requires Rounds(setup, config, root, trace, rounds) && trace[0].watch == NewRecord(root, createdAt)
    requires var now := trace[|rounds|];
             && KeyedById(now.tasks) && call.root == root && root in now.tasks && Rested(now.tasks, root)
             && GateAnswer(setup, call, now.tasks, us, now.watch, after, r)
             && id in LeafIds(now.tasks, root) && FalseDone(setup.judge, now.tasks[id])
    ensures var silent := !call.force && LastStop(rounds) == Some(StopOf(trace[|rounds|].tasks, root))
                          && LastAt(rounds, PASS).Some? && call.now - LastAt(rounds, PASS).value < setup.windowMs;
            && (r.Verdicts? && r.verdict == REJECT && id in r.rejected <==> !silent)
            && (r.Suppressed? <==> silent)
  {
    hide RoundStep, LeafIds, FalseDone, PassDone, Rested, StopOf, LastStop, LastAt, KeyedById;
    RecordIsHistory(setup, config, root, trace, rounds, createdAt);
    FalseLeafMembers(setup.judge, trace[|rounds|].tasks, root, id);
  }
}
